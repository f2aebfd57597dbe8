/**
 The blind-spot search where it meets vertices with at most one outgoing edge. In every graph with
 unique keys, a vertex from which only such vertices can be reached, and from which the walk does not
 run into a self-loop or a dangling edge, reaches exactly one reported vertex. So each sink and each
 longer directed cycle of single edges is represented exactly once, whatever leads into it.
 */
module SingleEdgeGraphs {
  import opened Sequences
  import opened GraphViews
  import opened BlindSpotSearch
  import opened BlindSpotTheorems
  import opened BlindSpotReports

  ghost predicate SingleEdged(u: GraphView) {
    UniqueKeys(u) && forall v :: v in u ==> |v.connections| <= 1
  }

  /** A part of the graph that no edge leaves and in which no vertex has two edges. */
  ghost predicate Chained(u: GraphView, c: set<PrimaryKey>) {
    && UniqueKeys(u) && ClosedUnderEdges(u, c)
    && forall v :: v in u && v.member.key in c ==> |v.connections| <= 1
  }

  /** Only vertices with at most one edge can be reached. */
  ghost predicate ReachesSingleEdges(u: GraphView, k: PrimaryKey) {
    forall v :: v in u && Reaches(u, k, v.member.key) ==> |v.connections| <= 1
  }

  /** A vertex whose only edge leads to itself or out of the graph. */
  ghost predicate Stuck(u: GraphView, k: PrimaryKey) {
    exists v :: v in u && v.member.key == k && |v.connections| == 1
                && (v.connections[0].key == k || v.connections[0].key !in Keys(u))
  }

  ghost predicate RunsStuck(u: GraphView, k: PrimaryKey) {
    exists x :: Reaches(u, k, x) && Stuck(u, x)
  }

  ghost predicate OnCycle(u: GraphView, k: PrimaryKey) {
    exists b :: Edge(u, k, b) && Reaches(u, b, k)
  }

  ghost function ReachedKeys(u: GraphView, k: PrimaryKey): set<PrimaryKey> {
    set x | x in Keys(u) && Reaches(u, k, x)
  }

  lemma ReachedKeysAreChained(u: GraphView, k: PrimaryKey)
    requires UniqueKeys(u) && ReachesSingleEdges(u, k)
    ensures Chained(u, ReachedKeys(u, k))
    ensures k in Keys(u) ==> k in ReachedKeys(u, k)
  {
    var c := ReachedKeys(u, k);
    forall a, b | a in c && Edge(u, a, b) && b in Keys(u) ensures b in c {
      ReachesByEdge(u, a, b);
      ReachesTransitive(u, k, a, b);
    }
    if k in Keys(u) {
      ReachesSelf(u, k);
    }
  }

  // ---------- walks in such a part ----------

  lemma EdgeIsUnique(u: GraphView, c: set<PrimaryKey>, a: PrimaryKey, b: PrimaryKey, d: PrimaryKey)
    requires Chained(u, c) && a in c && Edge(u, a, b) && Edge(u, a, d)
    ensures b == d
  {
    var v :| v in u && v.member.key == a && b in KeysOf(v.connections);
    var w :| w in u && w.member.key == a && d in KeysOf(w.connections);
    SameKeySameVertex(u, v, w);
  }

  lemma {:induction false} WalksAgree(u: GraphView, c: set<PrimaryKey>, v: seq<PrimaryKey>, w: seq<PrimaryKey>)
    requires Chained(u, c) && Walk(u, v) && Walk(u, w) && v[0] == w[0] && v[0] in c
    ensures Reaches(u, v[|v| - 1], w[|w| - 1]) || Reaches(u, w[|w| - 1], v[|v| - 1])
    decreases |v|
  {
    if |v| == 1 {
      assert WalkBetween(u, v[0], w, w[|w| - 1]);
    } else if |w| == 1 {
      assert WalkBetween(u, w[0], v, v[|v| - 1]);
    } else {
      EdgeIsUnique(u, c, v[0], v[1], w[1]);
      assert v[1..][0] in Keys(u);
      WalksAgree(u, c, v[1..], w[1..]);
    }
  }

  /** Of two vertices reachable from a third, one reaches the other. */
  lemma ReachesIsLinear(u: GraphView, c: set<PrimaryKey>, a: PrimaryKey, b: PrimaryKey, d: PrimaryKey)
    requires Chained(u, c) && a in c && Reaches(u, a, b) && Reaches(u, a, d)
    ensures Reaches(u, b, d) || Reaches(u, d, b)
  {
    var v :| WalkBetween(u, a, v, b);
    var w :| WalkBetween(u, a, w, d);
    WalksAgree(u, c, v, w);
  }

  /** A cycle of single edges cannot be left. */
  lemma CycleReturns(u: GraphView, c: set<PrimaryKey>, k: PrimaryKey, x: PrimaryKey)
    requires Chained(u, c) && k in c && OnCycle(u, k) && Reaches(u, k, x)
    ensures Reaches(u, x, k)
  {
    var back := set y | y in c && y in Keys(u) && Reaches(u, y, k);
    forall y, z | y in back && Edge(u, y, z) && z in Keys(u) ensures z in back {
      if y == k {
        var b :| Edge(u, k, b) && Reaches(u, b, k);
        EdgeIsUnique(u, c, k, b, z);
      } else {
        ReachesFirstStep(u, y, k);
        var b :| Edge(u, y, b) && Reaches(u, b, k);
        EdgeIsUnique(u, c, y, b, z);
      }
    }
    ReachesEndpoints(u, k, x);
    ReachesSelf(u, k);
    ReachesStaysInClosed(u, back, k, x);
  }

  /** A vertex that no edge leaves for another vertex of the graph reaches only itself. */
  lemma ClosedVertexStays(u: GraphView, v: MemberConnections, y: PrimaryKey)
    requires UniqueKeys(u) && v in u && Reaches(u, v.member.key, y)
    requires forall b :: b in KeysOf(v.connections) && b in Keys(u) ==> b == v.member.key
    ensures y == v.member.key
  {
    forall w | w in u && w.member.key == v.member.key ensures w == v {
      SameKeySameVertex(u, v, w);
    }
    ReachesStaysInClosed(u, {v.member.key}, v.member.key, y);
  }

  lemma StuckStays(u: GraphView, x: PrimaryKey, y: PrimaryKey)
    requires UniqueKeys(u) && Stuck(u, x) && Reaches(u, x, y)
    ensures y == x
  {
    var v :| v in u && v.member.key == x && |v.connections| == 1
             && (v.connections[0].key == x || v.connections[0].key !in Keys(u));
    ClosedVertexStays(u, v, y);
  }

  lemma JustifiedNotStuck(u: GraphView, v: MemberConnections)
    requires UniqueKeys(u) && v in u && JustifiedVertex(u, v)
    ensures !Stuck(u, v.member.key)
  {
    forall w | w in u && w.member.key == v.member.key ensures w == v {
      SameKeySameVertex(u, v, w);
    }
    if |v.connections| == 1 {
      ReachesEndpoints(u, v.connections[0].key, v.member.key);
    }
  }

  /** A reported vertex is reached back from everything it reaches, and is not stuck. */
  lemma ReportReturns(u: GraphView, c: set<PrimaryKey>, r: MemberProxy, x: PrimaryKey)
    requires Chained(u, c) && r.key in c && Justified(u, r) && Reaches(u, r.key, x)
    ensures Reaches(u, x, r.key) && !Stuck(u, x)
  {
    var v :| v in u && v.member == r && JustifiedVertex(u, v);
    OnCycleUnlessSink(u, v);
    if v.connections == [] {
      ClosedVertexStays(u, v, x);
    } else {
      CycleReturns(u, c, r.key, x);
    }
    if Stuck(u, x) {
      StuckStays(u, x, r.key);
      JustifiedNotStuck(u, v);
    }
  }

  // ---------- every vertex of the part is resolved ----------

  /** From `y` the walk leads to a target key or gets stuck. */
  ghost predicate Resolved(u: GraphView, y: PrimaryKey, targets: set<PrimaryKey>) {
    exists x :: Reaches(u, y, x) && (x in targets || Stuck(u, x))
  }

  ghost predicate AllResolved(u: GraphView, keys: set<PrimaryKey>, targets: set<PrimaryKey>) {
    forall y :: y in keys ==> Resolved(u, y, targets)
  }

  lemma ResolvedVia(u: GraphView, y: PrimaryKey, z: PrimaryKey, targets: set<PrimaryKey>)
    requires Reaches(u, y, z) && Resolved(u, z, targets)
    ensures Resolved(u, y, targets)
  {
    var x :| Reaches(u, z, x) && (x in targets || Stuck(u, x));
    ReachesTransitive(u, y, z, x);
  }

  lemma ResolvedMore(u: GraphView, keys: set<PrimaryKey>, a: set<PrimaryKey>, b: set<PrimaryKey>)
    requires AllResolved(u, keys, a) && a <= b
    ensures AllResolved(u, keys, b)
  {
    forall y | y in keys ensures Resolved(u, y, b) {
      var x :| Reaches(u, y, x) && (x in a || Stuck(u, x));
    }
  }

  /** Vertices that lead to those resolved earlier are resolved by what resolved these. */
  lemma ResolvedInTurn(
    u: GraphView, c: set<PrimaryKey>, first: set<PrimaryKey>, rest: set<PrimaryKey>,
    r: set<PrimaryKey>, s: set<PrimaryKey>, done: set<PrimaryKey>)
    requires ClosedUnderEdges(u, c)
    requires AllResolved(u, first * c, r + done) && AllResolved(u, rest * c, s + (done + first))
    ensures AllResolved(u, (first + rest) * c, r + s + done)
  {
    ResolvedMore(u, first * c, r + done, r + s + done);
    forall y | y in rest * c ensures Resolved(u, y, r + s + done) {
      var x :| Reaches(u, y, x) && (x in s + (done + first) || Stuck(u, x));
      ReachesStaysInClosed(u, c, y, x);
      if x in first {
        ResolvedVia(u, y, x, r + s + done);
      }
    }
  }

  lemma KeysOfJoin(r: seq<MemberProxy>, s: seq<MemberProxy>)
    ensures KeysOf(r + s) == KeysOf(r) + KeysOf(s)
  {
    assert forall p :: p in r + s <==> p in r || p in s;
  }

  ghost predicate Searching(u: GraphView, c: set<PrimaryKey>, g: GraphView, path: seq<MemberProxy>) {
    Chained(u, c) && UniqueKeys(g) && Within(g, u) && KeysOf(path) !! Keys(g)
  }

  /** What a visit removes from the graph, the current vertex included. */
  ghost function Visited(g: GraphView, current: MemberConnections, path: seq<MemberProxy>): set<PrimaryKey> {
    {current.member.key} + (Keys(g) - Keys(Explore(g, current, path).graph))
  }

  lemma VisitLeaves(g: GraphView, i: nat, path: seq<MemberProxy>)
    requires UniqueKeys(g) && i < |g| && KeysOf(path) !! Keys(g)
    ensures var h := Explore(RemoveAt(g, i), g[i], path).graph;
            && UniqueKeys(h) && Within(h, g) && Keys(h) <= Keys(g)
            && Visited(RemoveAt(g, i), g[i], path) == Keys(g) - Keys(h)
  {
    hide Explore;
    KeysAfterErase(g, i);
    assert g[i] in g;
    ExploreConsumes(RemoveAt(g, i), g[i], path);
  }

  lemma KeysLeft(
    all: set<PrimaryKey>, keys: set<PrimaryKey>, left: set<PrimaryKey>, path: set<PrimaryKey>, done: set<PrimaryKey>)
    requires all == keys + path + done && left <= keys
    ensures all == left + path + (done + (keys - left))
  {
  }

  lemma KeysInTurn(keys: set<PrimaryKey>, left: set<PrimaryKey>, rest: set<PrimaryKey>)
    requires rest <= left <= keys
    ensures (keys - left) + (left - rest) == keys - rest
  {
  }

  lemma EdgesLeave(g: GraphView, edges: seq<MemberProxy>, path: seq<MemberProxy>)
    requires UniqueKeys(g) && KeysOf(path) !! Keys(g)
    ensures Keys(ExploreEdges(g, edges, path).graph) <= Keys(g)
  {
    hide ExploreEdges;
    ExploreEdgesConsumes(g, edges, path);
  }

  /**
   Each vertex of the part that one visit removes leads to a vertex it reports, gets stuck, or leads
   to a vertex finished earlier.
   */
  lemma {:induction false} ExploreResolves(
    u: GraphView, c: set<PrimaryKey>, g: GraphView, current: MemberConnections, path: seq<MemberProxy>,
    done: set<PrimaryKey>)
    requires Searching(u, c, g, path) && current in u && current.member.key !in Keys(g)
    requires Keys(u) == Keys(g) + KeysOf(path) + {current.member.key} + done
    ensures AllResolved(u, Visited(g, current, path) * c, KeysOf(Explore(g, current, path).reports) + done)
    decreases |g|, |current.connections|, 1
  {
    var o := Explore(g, current, path);
    var key := current.member.key;
    if EndsHere(current, path) {
      assert o.reports[0] in o.reports;
      ReachesSelf(u, key);
    } else {
      var path' := path + [current.member];
      KeysOfAppend(path, current.member);
      ExploreEdgesResolves(u, c, g, current.connections, path', done);
      if key in c {
        ExploreConsumes(g, current, path);
        ChainGoesOn(u, c, g, current, o.graph, KeysOf(o.reports) + done);
      }
    }
  }

  /** A vertex with one edge is resolved by what its edge leads to. */
  lemma ChainGoesOn(
    u: GraphView, c: set<PrimaryKey>, g: GraphView, current: MemberConnections, h: GraphView, targets: set<PrimaryKey>)
    requires Chained(u, c) && Within(g, u) && current in u && current.member.key in c && |current.connections| == 1
    requires Consumed(g, KeysOf(current.connections), h) && AllResolved(u, (Keys(g) - Keys(h)) * c, targets)
    requires var t := current.connections[0].key; t in Keys(u) ==> t in Keys(g) + {current.member.key} + targets
    ensures Resolved(u, current.member.key, targets)
  {
    var key, t := current.member.key, current.connections[0];
    assert t in current.connections;
    assert Edge(u, key, t.key);
    if t.key == key || t.key !in Keys(u) {
      ReachesSelf(u, key);
      assert Stuck(u, key);
    } else {
      ReachesByEdge(u, key, t.key);
      if t.key in Keys(g) {
        ResolvedVia(u, key, t.key, targets);
      }
    }
  }

  lemma {:induction false} ExploreEdgesResolves(
    u: GraphView, c: set<PrimaryKey>, g: GraphView, edges: seq<MemberProxy>, path: seq<MemberProxy>,
    done: set<PrimaryKey>)
    requires Searching(u, c, g, path) && Keys(u) == Keys(g) + KeysOf(path) + done
    ensures var o := ExploreEdges(g, edges, path);
            AllResolved(u, (Keys(g) - Keys(o.graph)) * c, KeysOf(o.reports) + done)
    decreases |g|, |edges|, 0
  {
    if edges != [] {
      var i := FindVertex(g, edges[0].key);
      if i == |g| {
        SkipEdge(g, edges, path);
        ExploreEdgesResolves(u, c, g, edges[1..], path, done);
      } else {
        hide AllResolved, Explore, ExploreEdges, Visited, Consumed;
        var e := RemoveAt(g, i);
        KeysAfterErase(g, i);
        assert g[i] in g;
        FollowEdge(g, edges, path, i);
        var o := Explore(e, g[i], path);
        var first := Keys(g) - Keys(o.graph);
        ExploreResolves(u, c, e, g[i], path, done);
        VisitLeaves(g, i, path);
        KeysLeft(Keys(u), Keys(g), Keys(o.graph), KeysOf(path), done);
        ExploreEdgesResolves(u, c, o.graph, edges[1..], path, done + first);
        var rest := ExploreEdges(o.graph, edges[1..], path);
        KeysOfJoin(o.reports, rest.reports);
        EdgesLeave(o.graph, edges[1..], path);
        ResolvedInTurn(
          u, c, first, Keys(o.graph) - Keys(rest.graph), KeysOf(o.reports), KeysOf(rest.reports), done);
        KeysInTurn(Keys(g), Keys(o.graph), Keys(rest.graph));
      }
    }
  }

  lemma {:induction false} SearchesResolve(u: GraphView, c: set<PrimaryKey>, g: GraphView, done: set<PrimaryKey>)
    requires Searching(u, c, g, []) && Keys(u) == Keys(g) + done
    ensures AllResolved(u, Keys(g) * c, KeysOf(BlindSpots(g)) + done)
    decreases |g|
  {
    if g != [] {
      var n := |g| - 1;
      var o := Explore(g[..n], g[n], []);
      assert BlindSpots(g) == o.reports + BlindSpots(o.graph);
      hide AllResolved, Explore, Visited, BlindSpots;
      assert RemoveAt(g, n) == g[..n];
      KeysAfterErase(g, n);
      assert g[n] in g;
      var first := Keys(g) - Keys(o.graph);
      ExploreResolves(u, c, g[..n], g[n], [], done);
      VisitLeaves(g, n, []);
      SearchesResolve(u, c, o.graph, done + first);
      KeysOfJoin(o.reports, BlindSpots(o.graph));
      ResolvedInTurn(u, c, first, Keys(o.graph), KeysOf(o.reports), KeysOf(BlindSpots(o.graph)), done);
      assert first + Keys(o.graph) == Keys(g);
    }
  }

  // ---------- no reported vertex of the part reaches another ----------

  /** A report that lies in the part reaches no later report. */
  ghost predicate LaterApart(u: GraphView, c: set<PrimaryKey>, reports: seq<MemberProxy>) {
    forall i, j :: 0 <= i < j < |reports| && reports[i].key in c ==> !Reaches(u, reports[i].key, reports[j].key)
  }

  lemma ApartInTurn(
    u: GraphView, c: set<PrimaryKey>, finished: set<PrimaryKey>, r: seq<MemberProxy>, s: seq<MemberProxy>)
    requires ClosedUnderEdges(u, finished) && LaterApart(u, c, r) && LaterApart(u, c, s)
    requires forall p :: p in r && p.key in c ==> p.key in finished
    requires forall p :: p in s ==> p.key !in finished
    ensures LaterApart(u, c, r + s)
  {
    forall i, j | 0 <= i < j < |r + s| && (r + s)[i].key in c ensures !Reaches(u, (r + s)[i].key, (r + s)[j].key) {
      if i < |r| <= j {
        assert r[i] in r && s[j - |r|] in s;
        if Reaches(u, r[i].key, s[j - |r|].key) {
          ReachesStaysInClosed(u, finished, r[i].key, s[j - |r|].key);
        }
      }
    }
  }

  /** A visit that starts inside the part follows a single chain and reports at most one vertex. */
  lemma {:induction false} ChainReportsOnce(
    u: GraphView, c: set<PrimaryKey>, g: GraphView, current: MemberConnections, path: seq<MemberProxy>)
    requires Chained(u, c) && UniqueKeys(g) && Within(g, u) && current in u && current.member.key in c
    ensures |Explore(g, current, path).reports| <= 1
    decreases |g|
  {
    if !EndsHere(current, path) {
      var edges, path' := current.connections, path + [current.member];
      assert edges[0] in edges && edges[1..] == [];
      assert Explore(g, current, path) == ExploreEdges(g, edges, path');
      var i := FindVertex(g, edges[0].key);
      if i == |g| {
        SkipEdge(g, edges, path');
        NoEdges(g, path');
      } else {
        assert g[i] in g;
        assert Edge(u, current.member.key, g[i].member.key);
        KeysAfterErase(g, i);
        FollowEdge(g, edges, path', i);
        ChainReportsOnce(u, c, RemoveAt(g, i), g[i], path');
        NoEdges(Explore(RemoveAt(g, i), g[i], path').graph, path');
      }
    }
  }

  /** Once a visit is over, no edge leads from a finished vertex of the part into the graph left. */
  lemma FinishedIsClosed(
    u: GraphView, c: set<PrimaryKey>, g: GraphView, current: MemberConnections, h: GraphView)
    requires Chained(u, c) && UniqueKeys(g) && Within(g, u) && current in u && current.member.key !in Keys(g)
    requires ClosedUnderEdges(u, c - Keys(g) - {current.member.key})
    requires Consumed(g, KeysOf(current.connections), h)
    ensures ClosedUnderEdges(u, c - Keys(h))
  {
    forall a, b | a in c - Keys(h) && Edge(u, a, b) && b in Keys(u) ensures b in c - Keys(h) {
      var v :| v in u && v.member.key == a && b in KeysOf(v.connections);
      if a == current.member.key {
        SameKeySameVertex(u, v, current);
      } else if a in Keys(g) {
        var w :| w in g && w.member.key == a;
        SameKeySameVertex(u, v, w);
      }
    }
  }

  lemma {:induction false} ExploreApart(
    u: GraphView, c: set<PrimaryKey>, g: GraphView, current: MemberConnections, path: seq<MemberProxy>)
    requires Searching(u, c, g, path) && current in u && current.member.key !in Keys(g) + KeysOf(path)
    requires PathLeadsTo(u, path, {current.member.key}) && KeysOf(path) !! c
    requires ClosedUnderEdges(u, c - Keys(g) - {current.member.key})
    ensures LaterApart(u, c, Explore(g, current, path).reports)
    decreases |g|, |current.connections|, 1
  {
    if current.member.key in c {
      ChainReportsOnce(u, c, g, current, path);
    } else if !EndsHere(current, path) {
      KeysOfAppend(path, current.member);
      PathExtends(u, path, current);
      assert c - Keys(g) - {current.member.key} == c - Keys(g);
      ExploreEdgesApart(u, c, g, current.connections, path + [current.member]);
    }
  }

  lemma {:induction false} ExploreEdgesApart(
    u: GraphView, c: set<PrimaryKey>, g: GraphView, edges: seq<MemberProxy>, path: seq<MemberProxy>)
    requires Searching(u, c, g, path) && PathLeadsTo(u, path, KeysOf(edges)) && KeysOf(path) !! c
    requires ClosedUnderEdges(u, c - Keys(g))
    ensures LaterApart(u, c, ExploreEdges(g, edges, path).reports)
    decreases |g|, |edges|, 0
  {
    if edges != [] {
      KeysOfFirst(edges);
      var i := FindVertex(g, edges[0].key);
      if i == |g| {
        SkipEdge(g, edges, path);
        ExploreEdgesApart(u, c, g, edges[1..], path);
      } else {
        var e := RemoveAt(g, i);
        KeysAfterErase(g, i);
        assert g[i] in g;
        FollowEdge(g, edges, path, i);
        var o := Explore(e, g[i], path);
        assert c - Keys(e) - {g[i].member.key} == c - Keys(g);
        ExploreApart(u, c, e, g[i], path);
        ExploreAccounts(u, e, g[i], path);
        ExploreConsumes(e, g[i], path);
        FinishedIsClosed(u, c, e, g[i], o.graph);
        ExploreEdgesApart(u, c, o.graph, edges[1..], path);
        ExploreEdgesAccounts(u, o.graph, edges[1..], path);
        ApartInTurn(u, c, c - Keys(o.graph), o.reports, ExploreEdges(o.graph, edges[1..], path).reports);
      }
    }
  }

  lemma {:induction false} SearchesApart(u: GraphView, c: set<PrimaryKey>, g: GraphView)
    requires Searching(u, c, g, []) && ClosedUnderEdges(u, c - Keys(g))
    ensures LaterApart(u, c, BlindSpots(g))
    decreases |g|
  {
    if g != [] {
      var n := |g| - 1;
      assert RemoveAt(g, n) == g[..n];
      KeysAfterErase(g, n);
      assert g[n] in g;
      var o := Explore(g[..n], g[n], []);
      assert c - Keys(g[..n]) - {g[n].member.key} == c - Keys(g);
      ExploreApart(u, c, g[..n], g[n], []);
      ExploreAccounts(u, g[..n], g[n], []);
      ExploreConsumes(g[..n], g[n], []);
      FinishedIsClosed(u, c, g[..n], g[n], o.graph);
      SearchesApart(u, c, o.graph);
      SearchesAccount(u, o.graph);
      ApartInTurn(u, c, c - Keys(o.graph), o.reports, BlindSpots(o.graph));
    }
  }

  lemma ReportsApartIn(u: GraphView, c: set<PrimaryKey>)
    requires Chained(u, c)
    ensures var b := BlindSpots(u);
            forall i, j :: 0 <= i < |b| && 0 <= j < |b| && i != j && b[i].key in c ==> !Reaches(u, b[i].key, b[j].key)
  {
    var b := BlindSpots(u);
    assert KeysOf([]) == {};
    assert ClosedUnderEdges(u, c - Keys(u)) by {
      forall v | v in u ensures v.member.key in Keys(u) {
      }
    }
    SearchesApart(u, c, u);
    SearchesAccount(u, u);
    forall i, j | 0 <= i < |b| && 0 <= j < |b| && i != j && b[i].key in c ensures !Reaches(u, b[i].key, b[j].key) {
      if Reaches(u, b[i].key, b[j].key) {
        assert b[i] in b;
        ReportReturns(u, c, b[i], b[j].key);
        ReachesStaysInClosed(u, c, b[i].key, b[j].key);
      }
    }
  }

  // ---------- the main results ----------

  /** A reported vertex from which only vertices with at most one edge can be reached reaches no other report. */
  lemma ReportsApart(u: GraphView, i: nat, j: nat)
    requires UniqueKeys(u) && i < |BlindSpots(u)| && j < |BlindSpots(u)| && i != j
    requires ReachesSingleEdges(u, BlindSpots(u)[i].key)
    ensures !Reaches(u, BlindSpots(u)[i].key, BlindSpots(u)[j].key)
  {
    var k := BlindSpots(u)[i].key;
    SearchesAccount(u, u);
    assert BlindSpots(u)[i] in BlindSpots(u);
    ReachedKeysAreChained(u, k);
    ReportsApartIn(u, ReachedKeys(u, k));
  }

  /** The reported vertices that can be reached from a vertex. */
  ghost function ReportsFrom(u: GraphView, k: PrimaryKey): set<MemberProxy> {
    set r | r in BlindSpots(u) && Reaches(u, k, r.key)
  }

  /**
   In every graph with unique keys, a vertex from which only vertices with at most one edge can be
   reached reaches exactly one reported vertex, or none precisely when it runs into a stuck vertex.
   */
  lemma RepresentedOnce(u: GraphView, v: MemberConnections)
    requires UniqueKeys(u) && v in u && ReachesSingleEdges(u, v.member.key)
    ensures |ReportsFrom(u, v.member.key)| == if RunsStuck(u, v.member.key) then 0 else 1
  {
    ReachedKeysAreChained(u, v.member.key);
    RepresentedOnceIn(u, ReachedKeys(u, v.member.key), v.member.key);
  }

  lemma RepresentedOnceIn(u: GraphView, c: set<PrimaryKey>, k: PrimaryKey)
    requires Chained(u, c) && k in c && k in Keys(u)
    ensures |ReportsFrom(u, k)| == if RunsStuck(u, k) then 0 else 1
  {
    if RunsStuck(u, k) {
      StuckReportsNone(u, c, k);
    } else {
      assert KeysOf([]) == {};
      SearchesResolve(u, c, u, {});
      assert Resolved(u, k, KeysOf(BlindSpots(u)) + {});
      var x :| Reaches(u, k, x) && (x in KeysOf(BlindSpots(u)) + {} || Stuck(u, x));
      var r :| r in BlindSpots(u) && r.key == x;
      forall q | q in ReportsFrom(u, k) ensures q == r {
        ReportsFromAgree(u, c, k, q, r);
      }
      assert ReportsFrom(u, k) == {r};
    }
  }

  lemma ReportsFromAgree(u: GraphView, c: set<PrimaryKey>, k: PrimaryKey, q: MemberProxy, r: MemberProxy)
    requires Chained(u, c) && k in c && q in ReportsFrom(u, k) && r in ReportsFrom(u, k)
    ensures q == r
  {
    ReportsApartIn(u, c);
    ReachesIsLinear(u, c, k, q.key, r.key);
    ReachesStaysInClosed(u, c, k, q.key);
    ReachesStaysInClosed(u, c, k, r.key);
    var i :| 0 <= i < |BlindSpots(u)| && BlindSpots(u)[i] == q;
    var j :| 0 <= j < |BlindSpots(u)| && BlindSpots(u)[j] == r;
    if i != j {
      assert !Reaches(u, BlindSpots(u)[i].key, BlindSpots(u)[j].key);
    }
  }

  lemma StuckReportsNone(u: GraphView, c: set<PrimaryKey>, k: PrimaryKey)
    requires Chained(u, c) && k in c && RunsStuck(u, k)
    ensures ReportsFrom(u, k) == {}
  {
    SearchesAccount(u, u);
    var x :| Reaches(u, k, x) && Stuck(u, x);
    forall r | r in ReportsFrom(u, k) ensures false {
      ReachesIsLinear(u, c, k, x, r.key);
      ReachesStaysInClosed(u, c, k, r.key);
      if Reaches(u, x, r.key) {
        StuckStays(u, x, r.key);
      }
      ReportReturns(u, c, r, x);
    }
  }

  /** A directed cycle of single edges holds exactly one reported vertex, unless it is a self-loop, which holds none. */
  lemma CycleRepresentedOnce(u: GraphView, v: MemberConnections)
    requires UniqueKeys(u) && v in u && ReachesSingleEdges(u, v.member.key) && OnCycle(u, v.member.key)
    ensures forall r :: r in ReportsFrom(u, v.member.key) ==> Reaches(u, r.key, v.member.key)
    ensures |ReportsFrom(u, v.member.key)| == if Edge(u, v.member.key, v.member.key) then 0 else 1
  {
    var k := v.member.key;
    var c := ReachedKeys(u, k);
    ReachedKeysAreChained(u, k);
    RepresentedOnce(u, v);
    forall r | r in ReportsFrom(u, k) ensures Reaches(u, r.key, k) {
      CycleReturns(u, c, k, r.key);
    }
    CycleStuckIffLoop(u, c, k);
  }

  lemma CycleStuckIffLoop(u: GraphView, c: set<PrimaryKey>, k: PrimaryKey)
    requires Chained(u, c) && k in c && k in Keys(u) && OnCycle(u, k)
    ensures RunsStuck(u, k) <==> Edge(u, k, k)
  {
    if Edge(u, k, k) {
      var w :| w in u && w.member.key == k && k in KeysOf(w.connections);
      assert Stuck(u, k);
      ReachesSelf(u, k);
    } else if RunsStuck(u, k) {
      var x :| Reaches(u, k, x) && Stuck(u, x);
      CycleReturns(u, c, k, x);
      StuckStays(u, x, k);
      StuckOnCycleLoops(u, c, k);
    }
  }

  lemma StuckOnCycleLoops(u: GraphView, c: set<PrimaryKey>, k: PrimaryKey)
    requires Chained(u, c) && k in c && Stuck(u, k) && OnCycle(u, k)
    ensures Edge(u, k, k)
  {
    var b :| Edge(u, k, b) && Reaches(u, b, k);
    ReachesEndpoints(u, b, k);
    var w :| w in u && w.member.key == k && |w.connections| == 1
             && (w.connections[0].key == k || w.connections[0].key !in Keys(u));
    assert w.connections[0] in w.connections;
    EdgeIsUnique(u, c, k, b, w.connections[0].key);
  }

  /** Without self-loops and dangling edges every vertex of a single-edged graph reaches exactly one reported vertex. */
  lemma EveryVertexRepresented(u: GraphView)
    requires SingleEdged(u)
    requires forall v, e :: v in u && e in v.connections ==> e.key != v.member.key && e.key in Keys(u)
    ensures forall v :: v in u ==> |ReportsFrom(u, v.member.key)| == 1
  {
    forall v | v in u ensures |ReportsFrom(u, v.member.key)| == 1 {
      RepresentedOnce(u, v);
      forall w | w in u && |w.connections| == 1
        ensures w.connections[0].key != w.member.key && w.connections[0].key in Keys(u)
      {
        assert w.connections[0] in w.connections;
      }
    }
  }

  // ---------- the order of the vertices ----------

  lemma RunsStuckInOtherOrder(u: GraphView, t: GraphView, k: PrimaryKey)
    requires SameElements(u, t) && RunsStuck(t, k)
    ensures RunsStuck(u, k)
  {
    var x :| Reaches(t, k, x) && Stuck(t, x);
    ReachesSameVertices(u, t, k, x);
    assert Keys(u) == Keys(t);
    assert Stuck(u, x);
  }

  lemma SingleEdgesInOtherOrder(u: GraphView, t: GraphView, k: PrimaryKey)
    requires SameElements(u, t) && ReachesSingleEdges(u, k)
    ensures ReachesSingleEdges(t, k)
  {
    forall v | v in t && Reaches(t, k, v.member.key) ensures |v.connections| <= 1 {
      ReachesSameVertices(u, t, k, v.member.key);
    }
  }

  lemma SingleEdgesFromThere(u: GraphView, k: PrimaryKey, x: PrimaryKey)
    requires ReachesSingleEdges(u, k) && Reaches(u, k, x)
    ensures ReachesSingleEdges(u, x)
  {
    forall v | v in u && Reaches(u, x, v.member.key) ensures |v.connections| <= 1 {
      ReachesTransitive(u, k, x, v.member.key);
    }
  }

  /** The reported sinks, and the reported vertices of cycles of single edges. */
  ghost function ChainReports(u: GraphView): set<MemberProxy> {
    set r | r in BlindSpots(u) && ReachesSingleEdges(u, r.key)
  }

  /** Such a report for one order reaches one for the other, and is reached back. */
  lemma ReportReachesOtherReport(u: GraphView, t: GraphView, r: MemberProxy) returns (q: MemberProxy)
    requires UniqueKeys(u) && UniqueKeys(t) && SameElements(u, t) && r in ChainReports(u)
    ensures q in ChainReports(t) && Reaches(u, r.key, q.key) && Reaches(u, q.key, r.key)
  {
    var c := ReachedKeys(u, r.key);
    SearchesAccount(u, u);
    var v :| v in u && v.member == r;
    ReachedKeysAreChained(u, r.key);
    ReachesSelf(u, r.key);
    assert r in ReportsFrom(u, r.key);
    if RunsStuck(t, r.key) {
      RunsStuckInOtherOrder(u, t, r.key);
      StuckReportsNone(u, c, r.key);
    }
    SingleEdgesInOtherOrder(u, t, r.key);
    RepresentedOnce(t, v);
    q :| q in ReportsFrom(t, r.key);
    SingleEdgesFromThere(t, r.key, q.key);
    ReachesSameVertices(u, t, r.key, q.key);
    ReportReturns(u, c, r, q.key);
  }

  lemma ChainReportsApart(u: GraphView, r: MemberProxy, q: MemberProxy)
    requires UniqueKeys(u) && r in ChainReports(u) && q in BlindSpots(u) && Reaches(u, r.key, q.key)
    ensures r == q
  {
    var i :| 0 <= i < |BlindSpots(u)| && BlindSpots(u)[i] == r;
    var j :| 0 <= j < |BlindSpots(u)| && BlindSpots(u)[j] == q;
    if i != j {
      ReportsApart(u, i, j);
    }
  }

  ghost predicate LeadsBack(u: GraphView, q: MemberProxy, part: set<MemberProxy>) {
    exists r :: r in part && Reaches(u, q.key, r.key)
  }

  /** The reports of the other order reached by some such reports are equally many different ones. */
  lemma {:induction false} OtherReports(u: GraphView, t: GraphView, part: set<MemberProxy>)
    returns (reached: set<MemberProxy>)
    requires UniqueKeys(u) && UniqueKeys(t) && SameElements(u, t) && part <= ChainReports(u)
    ensures |reached| == |part| && reached <= ChainReports(t)
    ensures forall q :: q in reached ==> LeadsBack(u, q, part)
    decreases |part|
  {
    hide *;
    reached := {};
    if part != {} {
      var r :| r in part;
      var before := OtherReports(u, t, part - {r});
      var q := AnotherReport(u, t, part, r, before);
      reached := before + {q};
    }
  }

  lemma AnotherReport(u: GraphView, t: GraphView, part: set<MemberProxy>, r: MemberProxy, before: set<MemberProxy>)
    returns (q: MemberProxy)
    requires UniqueKeys(u) && UniqueKeys(t) && SameElements(u, t) && part <= ChainReports(u) && r in part
    requires forall p :: p in before ==> LeadsBack(u, p, part - {r})
    ensures q in ChainReports(t) && q !in before && LeadsBack(u, q, part)
    ensures forall p :: p in before ==> LeadsBack(u, p, part)
  {
    hide ChainReports, Reaches, UniqueKeys, SameElements;
    q := ReportReachesOtherReport(u, t, r);
    if q in before {
      var p :| p in part - {r} && Reaches(u, q.key, p.key);
      ReachSameReport(u, r, q, p);
    }
    forall p | p in before ensures LeadsBack(u, p, part) {
      assert LeadsBack(u, p, part - {r});
    }
  }

  lemma ReachSameReport(u: GraphView, r: MemberProxy, q: MemberProxy, p: MemberProxy)
    requires UniqueKeys(u) && r in ChainReports(u) && p in ChainReports(u)
    requires Reaches(u, r.key, q.key) && Reaches(u, q.key, p.key)
    ensures r == p
  {
    hide Reaches;
    ReachesTransitive(u, r.key, q.key, p.key);
    ChainReportsApart(u, r, p);
  }

  lemma SubsetIsNoLarger(a: set<MemberProxy>, b: set<MemberProxy>)
    requires a <= b
    ensures |a| <= |b|
  {
    assert b == a + (b - a);
  }

  lemma NoFewerInOtherOrder(u: GraphView, t: GraphView)
    requires UniqueKeys(u) && UniqueKeys(t) && SameElements(u, t)
    ensures |ChainReports(u)| <= |ChainReports(t)|
  {
    var reached := OtherReports(u, t, ChainReports(u));
    SubsetIsNoLarger(reached, ChainReports(t));
  }

  /**
   The order of the vertex list decides which vertex of a cycle of single edges is reported, never
   how many sinks and such vertices are.
   */
  lemma ChainReportCount(u: GraphView, t: GraphView)
    requires UniqueKeys(u) && UniqueKeys(t) && SameElements(u, t)
    ensures |ChainReports(u)| == |ChainReports(t)|
  {
    NoFewerInOtherOrder(u, t);
    NoFewerInOtherOrder(t, u);
  }

  lemma {:induction false} DistinctCount(s: seq<MemberProxy>)
    requires DistinctKeys(s)
    ensures |set p | p in s| == |s|
  {
    if s != [] {
      var n := |s| - 1;
      DistinctCount(s[..n]);
      assert (set p | p in s) == (set p | p in s[..n]) + {s[n]};
    }
  }

  lemma AllReportsAreChainReports(u: GraphView)
    requires SingleEdged(u)
    ensures |ChainReports(u)| == |BlindSpots(u)|
  {
    SearchesAccount(u, u);
    DistinctCount(BlindSpots(u));
    assert ChainReports(u) == set r | r in BlindSpots(u);
  }

  /** With at most one edge everywhere two orders give equally many reports. */
  lemma ReportCountOrderIndependent(u: GraphView, t: GraphView)
    requires SingleEdged(u) && SingleEdged(t) && SameElements(u, t)
    ensures |BlindSpots(u)| == |BlindSpots(t)|
  {
    ChainReportCount(u, t);
    AllReportsAreChainReports(u);
    AllReportsAreChainReports(t);
  }
}

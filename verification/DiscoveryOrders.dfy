/**
 The exact result of the blind-spot search on every graph with unique keys. The order in which
 vertices are discovered is fixed by a rule that looks only at what is discovered already; the
 result lists, in that order, the sinks and the vertices whose only edge leads back to a vertex from
 which they were discovered.
 */
module DiscoveryOrders {
  import opened Sequences
  import opened GraphViews
  import opened BlindSpotSearch
  import opened BlindSpotTheorems

  // ---------- the order of discovery, as a rule ----------

  ghost function Left(u: GraphView, disc: GraphView): set<PrimaryKey> {
    Keys(u) - Keys(disc)
  }

  /** No vertex from position `i` on has an edge to an undiscovered vertex. */
  ghost predicate ClosedFrom(u: GraphView, disc: GraphView, i: nat) {
    forall k :: i <= k < |disc| ==> KeysOf(disc[k].connections) !! Left(u, disc)
  }

  /** Edge `j` of position `i` is the first to an undiscovered vertex, and `i` the latest position that has one. */
  ghost predicate LatestOpenEdge(u: GraphView, disc: GraphView, i: nat, j: nat) {
    && i < |disc| && j < |disc[i].connections| && disc[i].connections[j].key in Left(u, disc)
    && (forall k :: 0 <= k < j ==> disc[i].connections[k].key !in Left(u, disc))
    && ClosedFrom(u, disc, i + 1)
  }

  ghost predicate LastListed(u: GraphView, disc: GraphView, w: MemberConnections) {
    exists k :: 0 <= k < |u| && u[k] == w && forall l :: k < l < |u| ==> u[l].member.key !in Left(u, disc)
  }

  /**
   The next vertex to be discovered: the one that the first open edge of the latest vertex with an
   open edge leads to, or, when no edge is open, the undiscovered vertex listed last.
   */
  ghost predicate IsNext(u: GraphView, disc: GraphView, w: MemberConnections) {
    && w in u && w.member.key !in Keys(disc)
    && if ClosedFrom(u, disc, 0) then LastListed(u, disc, w)
       else exists i: nat, j: nat :: LatestOpenEdge(u, disc, i, j) && disc[i].connections[j].key == w.member.key
  }

  /** All vertices, in their order of discovery. */
  ghost predicate Discovered(u: GraphView, order: GraphView) {
    |order| == |u| && forall n :: 0 <= n < |order| ==> IsNext(u, order[..n], order[n])
  }

  lemma NextIsUnique(u: GraphView, disc: GraphView, v: MemberConnections, w: MemberConnections)
    requires UniqueKeys(u) && IsNext(u, disc, v) && IsNext(u, disc, w)
    ensures v == w
  {
    if ClosedFrom(u, disc, 0) {
      var k :| 0 <= k < |u| && u[k] == v && forall l :: k < l < |u| ==> u[l].member.key !in Left(u, disc);
      var l :| 0 <= l < |u| && u[l] == w && forall x :: l < x < |u| ==> u[x].member.key !in Left(u, disc);
      assert v.member.key in Left(u, disc) && w.member.key in Left(u, disc);
    } else {
      var i: nat, j: nat :| LatestOpenEdge(u, disc, i, j) && disc[i].connections[j].key == v.member.key;
      var k: nat, l: nat :| LatestOpenEdge(u, disc, k, l) && disc[k].connections[l].key == w.member.key;
      OpenEdgeIsUnique(u, disc, i, j, k, l);
      SameKeySameVertex(u, v, w);
    }
  }

  lemma OpenEdgeIsUnique(u: GraphView, disc: GraphView, i: nat, j: nat, k: nat, l: nat)
    requires LatestOpenEdge(u, disc, i, j) && LatestOpenEdge(u, disc, k, l)
    ensures i == k && j == l
  {
    assert disc[i].connections[j] in disc[i].connections && disc[k].connections[l] in disc[k].connections;
  }

  /** The rule leaves no choice. */
  lemma {:induction false} OrderIsUnique(u: GraphView, s: GraphView, t: GraphView, n: nat)
    requires UniqueKeys(u) && Discovered(u, s) && Discovered(u, t) && n <= |u|
    ensures s[..n] == t[..n]
  {
    hide IsNext;
    if n > 0 {
      OrderIsUnique(u, s, t, n - 1);
      assert s[..n] == s[..n - 1] + [s[n - 1]] && t[..n] == t[..n - 1] + [t[n - 1]];
      NextIsUnique(u, s[..n - 1], s[n - 1], t[n - 1]);
    }
  }

  // ---------- the order of discovery, as a search without a path ----------

  datatype Trace = Trace(graph: GraphView, order: GraphView)

  function Discover(g: GraphView, current: MemberConnections): (t: Trace)
    ensures |t.graph| <= |g|
    decreases |g|, |current.connections|, 1
  {
    var t := DiscoverEdges(g, current.connections);
    Trace(t.graph, [current] + t.order)
  }

  function DiscoverEdges(g: GraphView, edges: seq<MemberProxy>): (t: Trace)
    ensures |t.graph| <= |g|
    decreases |g|, |edges|, 0
  {
    if edges == [] then Trace(g, [])
    else
      var i := FindVertex(g, edges[0].key);
      if i == |g| then DiscoverEdges(g, edges[1..])
      else
        var t := Discover(RemoveAt(g, i), g[i]);
        var rest := DiscoverEdges(t.graph, edges[1..]);
        Trace(rest.graph, t.order + rest.order)
  }

  function DiscoveryOrder(g: GraphView): GraphView
    decreases |g|
  {
    if g == [] then []
    else
      var t := Discover(g[..|g| - 1], g[|g| - 1]);
      t.order + DiscoveryOrder(t.graph)
  }

  /** The path decides what is reported, not what is visited. */
  lemma {:induction false} SameGraph(g: GraphView, current: MemberConnections, path: seq<MemberProxy>)
    requires UniqueKeys(g) && KeysOf(path) !! Keys(g) && current.member.key !in Keys(g)
    ensures Explore(g, current, path).graph == Discover(g, current).graph
    decreases |g|, |current.connections|, 1
  {
    if EndsHere(current, path) {
      if current.connections != [] {
        assert current.connections[1..] == [];
        assert current.connections[0].key !in Keys(g);
        assert DiscoverEdges(g, current.connections) == DiscoverEdges(g, []);
      }
    } else {
      KeysOfAppend(path, current.member);
      SameGraphEdges(g, current.connections, path + [current.member]);
    }
  }

  lemma {:induction false} SameGraphEdges(g: GraphView, edges: seq<MemberProxy>, path: seq<MemberProxy>)
    requires UniqueKeys(g) && KeysOf(path) !! Keys(g)
    ensures ExploreEdges(g, edges, path).graph == DiscoverEdges(g, edges).graph
    decreases |g|, |edges|, 0
  {
    if edges != [] {
      var i := FindVertex(g, edges[0].key);
      if i == |g| {
        SameGraphEdges(g, edges[1..], path);
      } else {
        KeysAfterErase(g, i);
        SameGraph(RemoveAt(g, i), g[i], path);
        ExploreConsumes(RemoveAt(g, i), g[i], path);
        SameGraphEdges(Explore(RemoveAt(g, i), g[i], path).graph, edges[1..], path);
      }
    }
  }

  /** What a visit leaves: no edge from a discovered vertex enters it. */
  lemma DiscoverConsumes(g: GraphView, current: MemberConnections)
    requires UniqueKeys(g) && current.member.key !in Keys(g)
    ensures var h := Discover(g, current).graph;
            UniqueKeys(h) && Consumed(g, KeysOf(current.connections), h)
  {
    assert KeysOf([]) == {};
    SameGraph(g, current, []);
    ExploreConsumes(g, current, []);
  }

  lemma DiscoverEdgesConsumes(g: GraphView, edges: seq<MemberProxy>)
    requires UniqueKeys(g)
    ensures var h := DiscoverEdges(g, edges).graph;
            UniqueKeys(h) && Consumed(g, KeysOf(edges), h)
  {
    assert KeysOf([]) == {};
    SameGraphEdges(g, edges, []);
    ExploreEdgesConsumes(g, edges, []);
  }

  lemma KeysOfJoined(s: GraphView, t: GraphView)
    ensures Keys(s + t) == Keys(s) + Keys(t)
  {
    assert forall v :: v in s + t <==> v in s || v in t;
  }

  lemma KeysOfOne(v: MemberConnections)
    ensures Keys([v]) == {v.member.key}
  {
  }

  lemma UniqueJoined(s: GraphView, t: GraphView)
    requires UniqueKeys(s) && UniqueKeys(t) && Keys(s) !! Keys(t)
    ensures UniqueKeys(s + t)
  {
    forall i, j | 0 <= i < j < |s + t| ensures (s + t)[i].member.key != (s + t)[j].member.key {
      if i < |s| <= j {
        assert s[i] in s && t[j - |s|] in t;
        assert s[i].member.key in Keys(s) && t[j - |s|].member.key in Keys(t);
      }
    }
  }

  /** The order lists exactly the vertices that leave the graph, each once. */
  ghost predicate Lists(g: GraphView, order: GraphView, h: GraphView) {
    && UniqueKeys(order) && (forall v :: v in order ==> v in g)
    && Keys(h) <= Keys(g) && Keys(order) == Keys(g) - Keys(h) && |order| + |h| == |g|
  }

  lemma ListsInTurn(g: GraphView, s: GraphView, h: GraphView, t: GraphView, k: GraphView)
    requires Lists(g, s, h) && Lists(h, t, k) && forall v :: v in h ==> v in g
    ensures Lists(g, s + t, k)
  {
    KeysOfJoined(s, t);
    UniqueJoined(s, t);
  }

  lemma ListsFirst(g: GraphView, i: nat)
    requires UniqueKeys(g) && i < |g|
    ensures Lists(g, [g[i]], RemoveAt(g, i))
  {
    KeysAfterErase(g, i);
    KeysOfOne(g[i]);
  }

  lemma {:induction false} DiscoverLists(g: GraphView, current: MemberConnections)
    requires UniqueKeys(g) && current.member.key !in Keys(g)
    ensures var t := DiscoverEdges(g, current.connections);
            Discover(g, current).order == [current] + t.order && Lists(g, t.order, t.graph)
    decreases |g|, |current.connections|, 1
  {
    DiscoverEdgesLists(g, current.connections);
  }

  lemma {:induction false} DiscoverEdgesLists(g: GraphView, edges: seq<MemberProxy>)
    requires UniqueKeys(g)
    ensures Lists(g, DiscoverEdges(g, edges).order, DiscoverEdges(g, edges).graph)
    decreases |g|, |edges|, 0
  {
    if edges != [] {
      var i := FindVertex(g, edges[0].key);
      if i == |g| {
        DiscoverEdgesLists(g, edges[1..]);
      } else {
        VisitLists(g, i);
        var t := Discover(RemoveAt(g, i), g[i]);
        DiscoverEdgesLists(t.graph, edges[1..]);
        var rest := DiscoverEdges(t.graph, edges[1..]);
        ListsInTurn(g, t.order, t.graph, rest.order, rest.graph);
      }
    }
  }

  lemma VisitLists(g: GraphView, i: nat)
    requires UniqueKeys(g) && i < |g|
    ensures var t := Discover(RemoveAt(g, i), g[i]);
            Lists(g, t.order, t.graph) && UniqueKeys(t.graph) && forall v :: v in t.graph ==> v in g
    decreases |g|, 0, 2
  {
    var e := RemoveAt(g, i);
    KeysAfterErase(g, i);
    DiscoverLists(e, g[i]);
    DiscoverConsumes(e, g[i]);
    ListsFirst(g, i);
    var t := Discover(e, g[i]);
    ListsInTurn(g, [g[i]], e, t.order[1..], t.graph);
  }

  // ---------- the search follows the rule ----------

  /** After the vertices before, these are discovered one after the other. */
  ghost predicate Continues(u: GraphView, before: GraphView, order: GraphView) {
    forall n :: 0 <= n < |order| ==> IsNext(u, before + order[..n], order[n])
  }

  lemma ContinuesJoined(u: GraphView, before: GraphView, s: GraphView, t: GraphView)
    requires Continues(u, before, s) && Continues(u, before + s, t)
    ensures Continues(u, before, s + t)
  {
    hide IsNext;
    forall n | 0 <= n < |s + t| ensures IsNext(u, before + (s + t)[..n], (s + t)[n]) {
      if n < |s| {
        assert (s + t)[..n] == s[..n];
      } else {
        assert before + (s + t)[..n] == before + s + t[..n - |s|];
      }
    }
  }

  lemma ContinuesWith(u: GraphView, before: GraphView, w: MemberConnections)
    requires IsNext(u, before, w)
    ensures Continues(u, before, [w])
  {
    hide IsNext;
    assert before + [w][..0] == before;
  }

  /** The vertices are divided into those discovered and those still in the graph. */
  ghost predicate Divided(u: GraphView, before: GraphView, g: GraphView) {
    && UniqueKeys(u) && UniqueKeys(g) && (forall v :: v in g ==> v in u) && (forall v :: v in before ==> v in u)
    && Keys(before) !! Keys(g) && Keys(u) == Keys(before) + Keys(g)
  }

  lemma DividedFirst(u: GraphView, before: GraphView, g: GraphView, i: nat)
    requires Divided(u, before, g) && i < |g|
    ensures Divided(u, before + [g[i]], RemoveAt(g, i)) && Left(u, before + [g[i]]) == Keys(RemoveAt(g, i))
    ensures g[i] in g && g[i].member.key !in Keys(RemoveAt(g, i))
  {
    KeysAfterErase(g, i);
    KeysOfJoined(before, [g[i]]);
    KeysOfOne(g[i]);
  }

  lemma DividedInTurn(u: GraphView, before: GraphView, g: GraphView, order: GraphView, h: GraphView)
    requires Divided(u, before, g) && Lists(g, order, h) && UniqueKeys(h) && forall v :: v in h ==> v in g
    ensures Divided(u, before + order, h) && Left(u, before + order) == Keys(h) && Keys(h) <= Keys(g)
  {
    KeysOfJoined(before, order);
  }

  /** What a visit of the vertex at a position of the graph discovers has no edge to what it leaves. */
  lemma VisitCloses(g: GraphView, i: nat)
    requires UniqueKeys(g) && i < |g|
    ensures var t := Discover(RemoveAt(g, i), g[i]);
            forall v :: v in t.order ==> KeysOf(v.connections) !! Keys(t.graph)
  {
    var e := RemoveAt(g, i);
    KeysAfterErase(g, i);
    DiscoverLists(e, g[i]);
    DiscoverConsumes(e, g[i]);
  }

  lemma ClosedFromMore(u: GraphView, before: GraphView, more: GraphView, i: nat)
    requires ClosedFrom(u, before, i) && i <= |before|
    requires forall v :: v in more ==> KeysOf(v.connections) !! Left(u, before + more)
    ensures ClosedFrom(u, before + more, i)
  {
    KeysOfJoined(before, more);
    forall k | i <= k < |before + more| ensures KeysOf((before + more)[k].connections) !! Left(u, before + more) {
      if k < |before| {
        assert KeysOf(before[k].connections) !! Left(u, before);
      } else {
        assert more[k - |before|] in more;
      }
    }
  }

  lemma FirstOpenEdgeIsNext(u: GraphView, before: GraphView, g: GraphView, p: nat, j: nat, i: nat)
    requires Divided(u, before, g) && p < |before| && j < |before[p].connections| && i < |g|
    requires g[i].member.key == before[p].connections[j].key
    requires ClosedFrom(u, before, p + 1)
    requires forall k :: 0 <= k < j ==> before[p].connections[k].key !in Left(u, before)
    ensures IsNext(u, before, g[i])
  {
    assert g[i] in g;
    assert before[p].connections[j] in before[p].connections;
    assert LatestOpenEdge(u, before, p, j);
  }

  lemma {:induction false} EdgesContinue(u: GraphView, g: GraphView, before: GraphView, p: nat, j: nat)
    requires Divided(u, before, g) && p < |before| && j <= |before[p].connections|
    requires ClosedFrom(u, before, p + 1)
    requires forall k :: 0 <= k < j ==> before[p].connections[k].key !in Left(u, before)
    ensures Continues(u, before, DiscoverEdges(g, before[p].connections[j..]).order)
    decreases |g|, |before[p].connections| - j
  {
    var edges := before[p].connections;
    if j < |edges| {
      assert edges[j..][0] == edges[j] && edges[j..][1..] == edges[j + 1..];
      var i := FindVertex(g, edges[j].key);
      if i == |g| {
        EdgesContinue(u, g, before, p, j + 1);
      } else {
        FirstOpenEdgeIsNext(u, before, g, p, j, i);
        VisitContinues(u, g, before, i);
        var t := Discover(RemoveAt(g, i), g[i]);
        VisitLists(g, i);
        VisitCloses(g, i);
        DividedInTurn(u, before, g, t.order, t.graph);
        ClosedFromMore(u, before, t.order, p + 1);
        assert g[i].member.key !in Keys(t.graph);
        EdgesContinue(u, t.graph, before + t.order, p, j + 1);
        ContinuesJoined(u, before, t.order, DiscoverEdges(t.graph, edges[j + 1..]).order);
      }
    }
  }

  lemma {:induction false} VisitContinues(u: GraphView, g: GraphView, before: GraphView, i: nat)
    requires Divided(u, before, g) && i < |g| && IsNext(u, before, g[i])
    ensures Continues(u, before, Discover(RemoveAt(g, i), g[i]).order)
    decreases |g|, 0
  {
    var e := RemoveAt(g, i);
    DividedFirst(u, before, g, i);
    EdgesContinue(u, e, before + [g[i]], |before|, 0);
    assert g[i].connections[0..] == g[i].connections;
    ContinuesWith(u, before, g[i]);
    ContinuesJoined(u, before, [g[i]], DiscoverEdges(e, g[i].connections).order);
  }

  /** The vertex is listed, and all listed after it are among the given keys. */
  ghost predicate LastOutside(u: GraphView, ks: set<PrimaryKey>, w: MemberConnections) {
    exists k :: 0 <= k < |u| && u[k] == w && forall l :: k < l < |u| ==> u[l].member.key in ks
  }

  lemma LastOutsideShifts(u: GraphView, ks: set<PrimaryKey>, w: MemberConnections)
    requires u != [] && LastOutside(u[1..], ks, w)
    ensures LastOutside(u, ks, w)
  {
    var k :| 0 <= k < |u[1..]| && u[1..][k] == w && forall l :: k < l < |u[1..]| ==> u[1..][l].member.key in ks;
    assert u[k + 1] == w;
    forall l | k + 1 < l < |u| ensures u[l].member.key in ks {
      assert u[1..][l - 1] == u[l];
    }
  }

  lemma FirstIsLastOutside(u: GraphView, ks: set<PrimaryKey>)
    requires u != [] && Without(u[1..], ks) == []
    ensures LastOutside(u, ks, u[0])
  {
    forall l | 0 < l < |u| ensures u[l].member.key in ks {
      assert u[l] in u[1..];
      assert u[l] !in Without(u[1..], ks);
    }
    assert u[0] == u[0];
  }

  lemma {:induction false} LastOfWithout(u: GraphView, ks: set<PrimaryKey>)
    requires Without(u, ks) != []
    ensures var w := Without(u, ks); LastOutside(u, ks, w[|w| - 1])
  {
    hide LastOutside;
    if Without(u[1..], ks) == [] {
      FirstIsLastOutside(u, ks);
    } else {
      LastOfWithout(u[1..], ks);
      LastOutsideShifts(u, ks, Without(u[1..], ks)[|Without(u[1..], ks)| - 1]);
    }
  }

  lemma LastOutsideIsListed(u: GraphView, before: GraphView, w: MemberConnections)
    requires LastOutside(u, Keys(before), w)
    ensures LastListed(u, before, w)
  {
    hide Keys;
  }

  lemma LastIsNext(u: GraphView, before: GraphView, g: GraphView)
    requires Divided(u, before, g) && g == Without(u, Keys(before)) && g != [] && ClosedFrom(u, before, 0)
    ensures IsNext(u, before, g[|g| - 1])
  {
    hide Without, LastOutside, LastListed, ClosedFrom;
    LastOfWithout(u, Keys(before));
    LastOutsideIsListed(u, before, g[|g| - 1]);
    assert g[|g| - 1] in g;
  }

  lemma WithoutThrice(u: GraphView, a: set<PrimaryKey>, b: set<PrimaryKey>, c: set<PrimaryKey>)
    ensures Without(Without(Without(u, a), b), c) == Without(u, a + (b + c))
  {
    hide Without;
    WithoutTwice(u, a, b);
    WithoutTwice(u, a + b, c);
    assert a + b + c == a + (b + c);
  }

  lemma WithoutInTurn(u: GraphView, before: GraphView, g: GraphView)
    requires Divided(u, before, g) && g == Without(u, Keys(before)) && g != []
    ensures var t := Discover(g[..|g| - 1], g[|g| - 1]);
            t.graph == Without(u, Keys(before + t.order))
  {
    var n := |g| - 1;
    var e := g[..n];
    assert RemoveAt(g, n) == e;
    hide Without, Discover, RemoveAt;
    VisitLists(g, n);
    KeysAfterErase(g, n);
    DiscoverConsumes(e, g[n]);
    EraseIsWithout(g, n);
    var t := Discover(e, g[n]);
    KeysOfJoined(before, t.order);
    assert g[n] in g;
    var key := g[n].member.key;
    WithoutThrice(u, Keys(before), {key}, Keys(e) - Keys(t.graph));
    assert {key} + (Keys(e) - Keys(t.graph)) == Keys(t.order);
  }

  lemma {:induction false} SearchContinues(u: GraphView, g: GraphView, before: GraphView)
    requires Divided(u, before, g) && g == Without(u, Keys(before)) && ClosedFrom(u, before, 0)
    ensures Continues(u, before, DiscoveryOrder(g)) && |DiscoveryOrder(g)| == |g|
    decreases |g|
  {
    if g != [] {
      var n := |g| - 1;
      assert RemoveAt(g, n) == g[..n];
      var t := Discover(g[..n], g[n]);
      LastIsNext(u, before, g);
      VisitContinues(u, g, before, n);
      VisitLists(g, n);
      VisitCloses(g, n);
      DividedInTurn(u, before, g, t.order, t.graph);
      ClosedFromMore(u, before, t.order, 0);
      WithoutInTurn(u, before, g);
      SearchContinues(u, t.graph, before + t.order);
      ContinuesJoined(u, before, t.order, DiscoveryOrder(t.graph));
    }
  }

  lemma NothingDiscovered(u: GraphView)
    requires UniqueKeys(u)
    ensures Divided(u, [], u) && u == Without(u, Keys([])) && ClosedFrom(u, [], 0)
  {
    WithoutNothing(u, {});
    assert Keys([]) == {};
  }

  /** The rule has exactly one order for every graph with unique keys. */
  lemma OrderExists(u: GraphView)
    requires UniqueKeys(u)
    ensures Discovered(u, DiscoveryOrder(u))
    ensures forall order :: Discovered(u, order) ==> order == DiscoveryOrder(u)
  {
    NothingDiscovered(u);
    SearchContinues(u, u, []);
    var d := DiscoveryOrder(u);
    forall n | 0 <= n < |d| ensures IsNext(u, d[..n], d[n]) {
      assert [] + d[..n] == d[..n];
    }
    forall order | Discovered(u, order) ensures order == d {
      OrderIsUnique(u, order, d, |u|);
      assert order[..|u|] == order && d[..|u|] == d;
    }
  }
}

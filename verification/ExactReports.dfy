/**
 What the blind-spot search reports, exactly and in order, on every graph with unique keys.
 */
module ExactReports {
  import opened Sequences
  import opened GraphViews
  import opened BlindSpotSearch
  import opened BlindSpotTheorems
  import opened DiscoveryOrders

  // ---------- the result, without a search ----------

  /** What was still undiscovered when the vertex at a position was. */
  ghost function White(u: GraphView, disc: GraphView, a: nat): GraphView
    requires a <= |disc|
  {
    Without(u, Keys(disc[..a]))
  }

  /** The key can be reached from the vertex at a position through what was then undiscovered. */
  ghost predicate LeadsTo(u: GraphView, disc: GraphView, a: nat, k: PrimaryKey)
    requires a < |disc|
  {
    Reaches(White(u, disc, a), disc[a].member.key, k)
  }

  /**
   A vertex discovered next is reported when it has no edge, or when its only edge leads back to an
   earlier vertex from which it was discovered.
   */
  ghost predicate Reported(u: GraphView, disc: GraphView, w: MemberConnections) {
    || w.connections == []
    || (|w.connections| == 1
        && exists a :: 0 <= a < |disc| && disc[a].member.key == w.connections[0].key && LeadsTo(u, disc, a, w.member.key))
  }

  /** The reported ones among the vertices discovered next. */
  ghost function Reports(u: GraphView, before: GraphView, order: GraphView): seq<MemberProxy>
    decreases |order|
  {
    if order == [] then []
    else (if Reported(u, before, order[0]) then [order[0].member] else [])
         + Reports(u, before + [order[0]], order[1..])
  }

  lemma JoinedThrice(a: seq<MemberProxy>, b: seq<MemberProxy>, c: seq<MemberProxy>)
    ensures a + (b + c) == (a + b) + c
  {
  }

  lemma {:induction false} ReportsJoined(u: GraphView, before: GraphView, s: GraphView, t: GraphView)
    ensures Reports(u, before, s + t) == Reports(u, before, s) + Reports(u, before + s, t)
    decreases |s|
  {
    if s == [] {
      assert s + t == t && before + s == before;
    } else {
      hide Reported;
      var now := before + [s[0]];
      assert (s + t)[1..] == s[1..] + t && before + s == now + s[1..];
      ReportsJoined(u, now, s[1..], t);
      var own := if Reported(u, before, s[0]) then [s[0].member] else [];
      JoinedThrice(own, Reports(u, now, s[1..]), Reports(u, before + s, t));
    }
  }

  lemma ReportsOfOne(u: GraphView, before: GraphView, w: MemberConnections)
    ensures Reports(u, before, [w]) == if Reported(u, before, w) then [w.member] else []
  {
    assert Reports(u, before + [w], [w][1..]) == [];
  }

  // ---------- the path is what leads to the current vertex ----------

  /** Every vertex of the path leads to the key. */
  ghost predicate PathLeads(u: GraphView, before: GraphView, path: seq<MemberProxy>, k: PrimaryKey) {
    forall a :: 0 <= a < |before| && before[a].member.key in KeysOf(path) ==> LeadsTo(u, before, a, k)
  }

  /** No vertex off the path leads to anything still undiscovered. */
  ghost predicate OthersFinished(u: GraphView, before: GraphView, path: seq<MemberProxy>) {
    forall a, k :: 0 <= a < |before| && before[a].member.key !in KeysOf(path) && k in Left(u, before)
                   ==> !LeadsTo(u, before, a, k)
  }

  ghost predicate OnPath(before: GraphView, path: seq<MemberProxy>) {
    KeysOf(path) <= Keys(before)
  }

  lemma LeadsToSame(u: GraphView, before: GraphView, more: GraphView, a: nat, k: PrimaryKey)
    requires a < |before|
    ensures LeadsTo(u, before + more, a, k) <==> LeadsTo(u, before, a, k)
  {
    assert (before + more)[..a] == before[..a] && (before + more)[a] == before[a];
  }

  lemma KeysOfPrefix(disc: GraphView, a: nat)
    requires a <= |disc|
    ensures Keys(disc[..a]) <= Keys(disc)
  {
    forall v | v in disc[..a] ensures v in disc {
    }
  }

  /** A vertex that leads to another one leads to that one's undiscovered targets. */
  lemma LeadsAlongEdge(u: GraphView, before: GraphView, a: nat, v: MemberConnections, k: PrimaryKey)
    requires UniqueKeys(u) && a < |before| && v in u && v.member.key !in Keys(before[..a])
    requires LeadsTo(u, before, a, v.member.key) && k in KeysOf(v.connections)
    requires k in Keys(u) && k !in Keys(before[..a])
    ensures LeadsTo(u, before, a, k)
  {
    var w := White(u, before, a);
    assert v in w;
    assert Edge(w, v.member.key, k);
    ReachesByEdge(w, v.member.key, k);
    ReachesTransitive(w, before[a].member.key, v.member.key, k);
  }

  lemma LeadsToItself(u: GraphView, before: GraphView, a: nat)
    requires UniqueKeys(before) && a < |before| && before[a] in u
    ensures before[a].member.key !in Keys(before[..a])
    ensures LeadsTo(u, before, a, before[a].member.key)
  {
    forall v | v in before[..a] ensures v.member.key != before[a].member.key {
      var i :| 0 <= i < a && before[..a][i] == v;
    }
    assert before[a] in White(u, before, a);
    ReachesSelf(White(u, before, a), before[a].member.key);
  }

  lemma PathLeadsOn(u: GraphView, before: GraphView, path: seq<MemberProxy>, v: MemberConnections, k: PrimaryKey)
    requires UniqueKeys(u) && UniqueKeys(before + [v]) && v in u && v.member.key !in Keys(before)
    requires PathLeads(u, before, path, v.member.key)
    requires k in KeysOf(v.connections) && k in Left(u, before + [v])
    ensures PathLeads(u, before + [v], path + [v.member], k)
  {
    var now := before + [v];
    KeysOfAppend(path, v.member);
    KeysOfJoined(before, [v]);
    forall a | 0 <= a < |now| && now[a].member.key in KeysOf(path + [v.member]) ensures LeadsTo(u, now, a, k) {
      KeysOfPrefix(now, a);
      if a == |before| {
        LeadsToItself(u, now, a);
      } else {
        assert before[a] in before;
        LeadsToSame(u, before, [v], a, v.member.key);
        assert now[..a] == before[..a];
        KeysOfPrefix(before, a);
      }
      LeadsAlongEdge(u, now, a, v, k);
    }
  }

  lemma OthersFinishedWith(u: GraphView, before: GraphView, path: seq<MemberProxy>, v: MemberConnections)
    requires OthersFinished(u, before, path) && v.member.key !in Keys(before)
    ensures OthersFinished(u, before + [v], path + [v.member])
  {
    var now := before + [v];
    KeysOfAppend(path, v.member);
    KeysOfJoined(before, [v]);
    forall a, k | 0 <= a < |now| && now[a].member.key !in KeysOf(path + [v.member]) && k in Left(u, now)
      ensures !LeadsTo(u, now, a, k)
    {
      LeadsToSame(u, before, [v], a, k);
    }
  }

  /** A visited vertex does not lead to what its visit leaves. */
  lemma VisitedIsFinished(u: GraphView, before: GraphView, g: GraphView, i: nat, a: nat, k: PrimaryKey)
    requires Divided(u, before, g) && i < |g|
    requires var t := Discover(RemoveAt(g, i), g[i]);
             |before| <= a < |before + t.order| && k in Keys(t.graph)
    ensures !LeadsTo(u, before + Discover(RemoveAt(g, i), g[i]).order, a, k)
  {
    var t := Discover(RemoveAt(g, i), g[i]);
    VisitLists(g, i);
    VisitCloses(g, i);
    DividedInTurn(u, before, g, t.order, t.graph);
    var now := before + t.order;
    var w := White(u, now, a);
    KeysOfPrefix(now, a);
    var gone := Keys(w) - Keys(t.graph);
    GoneIsClosed(u, before, t.order, t.graph, a);
    if LeadsTo(u, now, a, k) {
      ReachesEndpoints(w, now[a].member.key, k);
      assert now[a] in t.order;
      ReachesStaysInClosed(w, gone, now[a].member.key, k);
    }
  }

  /** What is discovered from a position on has no edge to what is left. */
  lemma GoneIsClosed(u: GraphView, before: GraphView, order: GraphView, h: GraphView, a: nat)
    requires UniqueKeys(u) && |before| <= a < |before + order| && Keys(h) !! Keys(before + order)
    requires forall v :: v in order ==> KeysOf(v.connections) !! Keys(h) && v in u
    requires Keys(u) == Keys(before + order) + Keys(h)
    ensures var w := White(u, before + order, a); ClosedUnderEdges(w, Keys(w) - Keys(h))
  {
    var now := before + order;
    var w := White(u, now, a);
    forall v | v in w && v.member.key !in Keys(h) ensures KeysOf(v.connections) !! Keys(h) {
      var d := DiscoveredSince(before, order, a, v.member.key);
      SameKeySameVertex(u, v, d);
    }
  }

  lemma DiscoveredSince(before: GraphView, order: GraphView, a: nat, k: PrimaryKey) returns (d: MemberConnections)
    requires |before| <= a < |before + order|
    requires k in Keys(before + order) && k !in Keys((before + order)[..a])
    ensures d in order && d.member.key == k
  {
    var now := before + order;
    d :| d in now && d.member.key == k;
    assert now == now[..a] + now[a..] && now[a..] == order[a - |before|..];
  }

  lemma OthersFinishedInTurn(u: GraphView, before: GraphView, g: GraphView, i: nat, path: seq<MemberProxy>)
    requires Divided(u, before, g) && i < |g| && OthersFinished(u, before, path) && OnPath(before, path)
    ensures OthersFinished(u, before + Discover(RemoveAt(g, i), g[i]).order, path)
  {
    var t := Discover(RemoveAt(g, i), g[i]);
    VisitLists(g, i);
    DividedInTurn(u, before, g, t.order, t.graph);
    var now := before + t.order;
    forall a, k | 0 <= a < |now| && now[a].member.key !in KeysOf(path) && k in Left(u, now)
      ensures !LeadsTo(u, now, a, k)
    {
      if a < |before| {
        LeadsToSame(u, before, t.order, a, k);
      } else {
        VisitedIsFinished(u, before, g, i, a, k);
      }
    }
  }

  lemma PathLeadsInTurn(
    u: GraphView, before: GraphView, g: GraphView, order: GraphView, h: GraphView, path: seq<MemberProxy>, k: PrimaryKey)
    requires Divided(u, before, g) && Lists(g, order, h) && OnPath(before, path)
    requires PathLeads(u, before, path, k)
    ensures PathLeads(u, before + order, path, k)
  {
    var now := before + order;
    assert forall a :: |before| <= a < |now| ==> now[a] in order;
    forall a | 0 <= a < |before| && now[a].member.key in KeysOf(path) ensures LeadsTo(u, now, a, k) {
      LeadsToSame(u, before, order, a, k);
    }
  }

  // ---------- the search reports exactly these ----------

  /** The test made on entry to a vertex is the rule for reporting it. */
  lemma EndsHereIsReported(u: GraphView, before: GraphView, path: seq<MemberProxy>, v: MemberConnections)
    requires v.member.key in Left(u, before) && OnPath(before, path)
    requires PathLeads(u, before, path, v.member.key) && OthersFinished(u, before, path)
    ensures EndsHere(v, path) <==> Reported(u, before, v)
  {
    if |v.connections| == 1 {
      var k := v.connections[0].key;
      if k in KeysOf(path) {
        var d :| d in before && d.member.key == k;
        var a :| 0 <= a < |before| && before[a] == d;
        assert LeadsTo(u, before, a, v.member.key);
      }
    }
  }

  /** State of a search between two vertices. */
  ghost predicate Underway(u: GraphView, before: GraphView, g: GraphView, path: seq<MemberProxy>) {
    Divided(u, before, g) && UniqueKeys(before) && OnPath(before, path) && OthersFinished(u, before, path)
  }

  lemma {:induction false} VisitReports(
    u: GraphView, before: GraphView, g: GraphView, i: nat, path: seq<MemberProxy>)
    requires Underway(u, before, g, path) && i < |g| && PathLeads(u, before, path, g[i].member.key)
    ensures Explore(RemoveAt(g, i), g[i], path).reports == Reports(u, before, Discover(RemoveAt(g, i), g[i]).order)
    decreases |g|, 0
  {
    var v, e := g[i], RemoveAt(g, i);
    DividedFirst(u, before, g, i);
    EndsHereIsReported(u, before, path, v);
    var rest := DiscoverEdges(e, v.connections).order;
    ReportsJoined(u, before, [v], rest);
    ReportsOfOne(u, before, v);
    if EndsHere(v, path) {
      NothingDiscoveredAtEnd(e, v, path);
    } else {
      Deeper(u, before, g, i, path);
      EdgesReport(u, before + [v], e, v.connections, path + [v.member]);
    }
  }

  lemma NothingDiscoveredAtEnd(e: GraphView, v: MemberConnections, path: seq<MemberProxy>)
    requires EndsHere(v, path) && KeysOf(path) !! Keys(e)
    ensures DiscoverEdges(e, v.connections).order == []
  {
    if v.connections != [] {
      assert v.connections[1..] == [];
      assert DiscoverEdges(e, v.connections) == DiscoverEdges(e, []);
    }
  }

  lemma Deeper(u: GraphView, before: GraphView, g: GraphView, i: nat, path: seq<MemberProxy>)
    requires Underway(u, before, g, path) && i < |g| && PathLeads(u, before, path, g[i].member.key)
    ensures Underway(u, before + [g[i]], RemoveAt(g, i), path + [g[i].member])
    ensures forall k :: k in KeysOf(g[i].connections) && k in Keys(RemoveAt(g, i))
                        ==> PathLeads(u, before + [g[i]], path + [g[i].member], k)
  {
    var v := g[i];
    DividedFirst(u, before, g, i);
    KeysOfOne(v);
    UniqueJoined(before, [v]);
    KeysOfJoined(before, [v]);
    KeysOfAppend(path, v.member);
    OthersFinishedWith(u, before, path, v);
    forall k | k in KeysOf(v.connections) && k in Keys(RemoveAt(g, i))
      ensures PathLeads(u, before + [v], path + [v.member], k)
    {
      PathLeadsOn(u, before, path, v, k);
    }
  }

  lemma {:induction false} EdgesReport(
    u: GraphView, before: GraphView, g: GraphView, edges: seq<MemberProxy>, path: seq<MemberProxy>)
    requires Underway(u, before, g, path)
    requires forall k :: k in KeysOf(edges) && k in Keys(g) ==> PathLeads(u, before, path, k)
    ensures ExploreEdges(g, edges, path).reports == Reports(u, before, DiscoverEdges(g, edges).order)
    decreases |g|, |edges|
  {
    if edges != [] {
      KeysOfFirst(edges);
      var i := FindVertex(g, edges[0].key);
      if i == |g| {
        SkipEdge(g, edges, path);
        EdgesReport(u, before, g, edges[1..], path);
      } else {
        var e := RemoveAt(g, i);
        FollowEdge(g, edges, path, i);
        assert g[i] in g;
        VisitReports(u, before, g, i, path);
        KeysAfterErase(g, i);
        SameGraph(e, g[i], path);
        var t := Discover(e, g[i]);
        Further(u, before, g, i, path);
        forall k | k in KeysOf(edges[1..]) && k in Keys(t.graph) ensures PathLeads(u, before + t.order, path, k) {
          VisitLists(g, i);
          PathLeadsInTurn(u, before, g, t.order, t.graph, path, k);
        }
        EdgesReport(u, before + t.order, t.graph, edges[1..], path);
        ReportsJoined(u, before, t.order, DiscoverEdges(t.graph, edges[1..]).order);
      }
    }
  }

  lemma Further(u: GraphView, before: GraphView, g: GraphView, i: nat, path: seq<MemberProxy>)
    requires Underway(u, before, g, path) && i < |g|
    ensures var t := Discover(RemoveAt(g, i), g[i]);
            Underway(u, before + t.order, t.graph, path) && |t.graph| < |g|
  {
    var t := Discover(RemoveAt(g, i), g[i]);
    VisitLists(g, i);
    DividedInTurn(u, before, g, t.order, t.graph);
    UniqueJoined(before, t.order);
    KeysOfJoined(before, t.order);
    OthersFinishedInTurn(u, before, g, i, path);
  }

  lemma {:induction false} SearchesReport(u: GraphView, before: GraphView, g: GraphView)
    requires Underway(u, before, g, [])
    ensures BlindSpots(g) == Reports(u, before, DiscoveryOrder(g))
    decreases |g|
  {
    if g != [] {
      var n := |g| - 1;
      assert RemoveAt(g, n) == g[..n];
      assert KeysOf([]) == {};
      VisitReports(u, before, g, n, []);
      KeysAfterErase(g, n);
      SameGraph(g[..n], g[n], []);
      var t := Discover(g[..n], g[n]);
      Further(u, before, g, n, []);
      SearchesReport(u, before + t.order, t.graph);
      ReportsJoined(u, before, t.order, DiscoveryOrder(t.graph));
    }
  }

  /**
   The result of the blind-spot check, as a list: the reported vertices in the order of discovery.
   The rule of discovery and the condition for reporting mention neither the search nor its path.
   */
  lemma BlindSpotsExactly(u: GraphView, order: GraphView)
    requires UniqueKeys(u) && Discovered(u, order)
    ensures BlindSpots(u) == Reports(u, [], order)
  {
    OrderExists(u);
    NothingDiscovered(u);
    SearchesReport(u, [], u);
  }

  // ---------- the result, position by position ----------

  ghost predicate ReportedAt(u: GraphView, order: GraphView, b: nat) {
    b < |order| && Reported(u, order[..b], order[b])
  }

  ghost predicate MembersAt(order: GraphView, p: seq<nat>, r: seq<MemberProxy>) {
    |r| == |p| && forall i :: 0 <= i < |p| ==> p[i] < |order| && r[i] == order[p[i]].member
  }

  lemma MembersAtOneMore(order: GraphView, n: nat, p: seq<nat>, r: seq<MemberProxy>)
    requires n < |order| && MembersAt(order, p, r)
    ensures MembersAt(order, p + [n], r + [order[n].member])
  {
  }

  lemma ReportsOneMore(u: GraphView, order: GraphView, n: nat)
    requires n < |order|
    ensures Reports(u, [], order[..n + 1])
         == Reports(u, [], order[..n]) + if ReportedAt(u, order, n) then [order[n].member] else []
  {
    hide Reported;
    assert order[..n + 1] == order[..n] + [order[n]] && [] + order[..n] == order[..n];
    ReportsJoined(u, [], order[..n], [order[n]]);
    ReportsOfOne(u, order[..n], order[n]);
  }

  lemma {:induction false} ReportPositions(u: GraphView, order: GraphView, n: nat) returns (p: seq<nat>)
    requires n <= |order|
    ensures Ascending(p) && forall b: nat :: b in p <==> b < n && ReportedAt(u, order, b)
    ensures MembersAt(order, p, Reports(u, [], order[..n]))
  {
    p := [];
    if n > 0 {
      p := ReportPositions(u, order, n - 1);
      hide ReportedAt, Ascending, MembersAt, Reports;
      ReportsOneMore(u, order, n - 1);
      AscendingOneMore(p, n - 1);
      MembersAtOneMore(order, n - 1, p, Reports(u, [], order[..n - 1]));
      if ReportedAt(u, order, n - 1) {
        p := p + [n - 1];
      }
    }
  }

  lemma ReportedAtBound(u: GraphView, order: GraphView)
    ensures forall b: nat :: ReportedAt(u, order, b) ==> b < |order|
  {
  }

  /** The same with positions: those reported, ascending in the order of discovery, and nothing else. */
  lemma BlindSpotPositions(u: GraphView, order: GraphView) returns (p: seq<nat>)
    requires UniqueKeys(u) && Discovered(u, order)
    ensures Ascending(p) && forall b: nat :: b in p <==> ReportedAt(u, order, b)
    ensures |BlindSpots(u)| == |p|
    ensures forall i :: 0 <= i < |p| ==> p[i] < |order| && BlindSpots(u)[i] == order[p[i]].member
  {
    hide ReportedAt, Discovered;
    BlindSpotsExactly(u, order);
    p := ReportPositions(u, order, |order|);
    assert order[..|order|] == order;
    ReportedAtBound(u, order);
  }

  lemma InReportsIff(u: GraphView, order: GraphView, b: nat)
    requires UniqueKeys(u) && Discovered(u, order) && b < |order|
    ensures order[b].member in BlindSpots(u) <==> ReportedAt(u, order, b)
  {
    OrderIsUniqueKeys(u, order);
    hide ReportedAt, Discovered;
    var p := BlindSpotPositions(u, order);
    if order[b].member in BlindSpots(u) {
      var i :| 0 <= i < |p| && BlindSpots(u)[i] == order[b].member;
      assert p[i] in p;
    }
  }

  lemma ReportedAtMeans(u: GraphView, order: GraphView, b: nat)
    requires b < |order|
    ensures ReportedAt(u, order, b) <==> EndsOrLeadsBack(u, order, b)
  {
    hide Reaches, Without, Keys;
    forall a | 0 <= a < b ensures order[..b][..a] == order[..a] && order[..b][a] == order[a] {
    }
  }

  /** A vertex is reported if and only if it has no edge, or its only edge leads back to one it was discovered from. */
  lemma ReportedIff(u: GraphView, order: GraphView, b: nat)
    requires UniqueKeys(u) && Discovered(u, order) && b < |order|
    ensures order[b].member in BlindSpots(u) <==> EndsOrLeadsBack(u, order, b)
  {
    hide *;
    InReportsIff(u, order, b);
    ReportedAtMeans(u, order, b);
  }

  lemma OrderIsUniqueKeys(u: GraphView, order: GraphView)
    requires UniqueKeys(u) && Discovered(u, order)
    ensures UniqueKeys(order)
  {
    forall i, j | 0 <= i < j < |order| ensures order[i].member.key != order[j].member.key {
      assert IsNext(u, order[..j], order[j]);
      assert order[..j][i] in order[..j];
    }
  }

  // ---------- all of it written out ----------

  /** No edge leads from positions `i` to `n` of the order to a vertex that is not among its first `n`. */
  ghost predicate NoneOpen(u: GraphView, order: GraphView, n: nat, i: nat)
    requires n <= |order|
  {
    forall a, e :: i <= a < n && e in order[a].connections ==> e.key !in Keys(u) - Keys(order[..n])
  }

  /**
   As long as an earlier vertex has an edge to an undiscovered one, the latest such vertex and its first
   such edge lead to the vertex at a position; otherwise that is the undiscovered vertex listed last.
   */
  ghost predicate FollowsRule(u: GraphView, order: GraphView, n: nat)
    requires n < |order|
  {
    var left := Keys(u) - Keys(order[..n]);
    && order[n].member.key in left
    && if NoneOpen(u, order, n, 0)
       then exists k :: 0 <= k < |u| && u[k] == order[n] && forall l :: k < l < |u| ==> u[l].member.key !in left
       else exists a, j :: && 0 <= a < n && 0 <= j < |order[a].connections|
                           && order[a].connections[j].key == order[n].member.key
                           && (forall i :: 0 <= i < j ==> order[a].connections[i].key !in left)
                           && NoneOpen(u, order, n, a + 1)
  }

  /**
   The vertex at a position has no edge, or its only edge leads to an earlier vertex, from which it
   could be reached through what was undiscovered when that one was.
   */
  ghost predicate EndsOrLeadsBack(u: GraphView, order: GraphView, b: nat)
    requires b < |order|
  {
    || order[b].connections == []
    || (|order[b].connections| == 1
        && exists a :: 0 <= a < b && order[a].member.key == order[b].connections[0].key
                       && Reaches(Without(u, Keys(order[..a])), order[a].member.key, order[b].member.key))
  }

  lemma ClosedMeans(u: GraphView, order: GraphView, n: nat, i: nat)
    requires n <= |order|
    ensures ClosedFrom(u, order[..n], i) <==> NoneOpen(u, order, n, i)
  {
    var disc := order[..n];
    if ClosedFrom(u, disc, i) {
      forall a, e | i <= a < n && e in order[a].connections ensures e.key !in Keys(u) - Keys(order[..n]) {
        assert disc[a] == order[a] && e.key in KeysOf(disc[a].connections);
      }
    }
    if NoneOpen(u, order, n, i) {
      forall k | i <= k < |disc| ensures KeysOf(disc[k].connections) !! Left(u, disc) {
        assert disc[k] == order[k];
      }
    }
  }

  lemma RuleAt(u: GraphView, order: GraphView, n: nat)
    requires n < |order| && Discovered(u, order)
    ensures FollowsRule(u, order, n)
  {
    var disc := order[..n];
    assert IsNext(u, disc, order[n]);
    hide Discovered, ClosedFrom, NoneOpen, Keys;
    ClosedMeans(u, order, n, 0);
    if !ClosedFrom(u, disc, 0) {
      var i: nat, j: nat :| LatestOpenEdge(u, disc, i, j) && disc[i].connections[j].key == order[n].member.key;
      ClosedMeans(u, order, n, i + 1);
      assert disc[i] == order[i];
    }
    InLeft(u, disc, order[n]);
  }

  lemma InLeft(u: GraphView, disc: GraphView, v: MemberConnections)
    requires v in u && v.member.key !in Keys(disc)
    ensures v.member.key in Keys(u) - Keys(disc)
  {
  }

  lemma SearchListsAll(u: GraphView)
    requires UniqueKeys(u)
    ensures |DiscoveryOrder(u)| == |u| && forall v :: v in DiscoveryOrder(u) <==> v in u
  {
    SearchLists(u);
    var order := DiscoveryOrder(u);
    hide DiscoveryOrder;
    forall v | v in u ensures v in order {
      assert v.member.key in Keys(order);
      var w :| w in order && w.member.key == v.member.key;
      SameKeySameVertex(u, v, w);
    }
  }

  lemma {:induction false} SearchLists(g: GraphView)
    requires UniqueKeys(g)
    ensures Lists(g, DiscoveryOrder(g), [])
    decreases |g|
  {
    if g != [] {
      var n := |g| - 1;
      assert RemoveAt(g, n) == g[..n];
      VisitLists(g, n);
      var t := Discover(g[..n], g[n]);
      SearchLists(t.graph);
      ListsInTurn(g, t.order, t.graph, DiscoveryOrder(t.graph), []);
    }
  }

  /**
   The result of the blind-spot check on any graph with unique keys. All vertices are discovered one
   after the other: as long as a discovered vertex has an edge to an undiscovered one, the latest such
   vertex and its first such edge decide, and otherwise the undiscovered vertex that is listed last. The
   result lists, in that order, every vertex without edges, and every vertex whose only edge leads to an
   earlier one from which it could be reached through what was undiscovered when that one was.
   */
  lemma ExactResult(u: GraphView) returns (order: GraphView, p: seq<nat>)
    requires UniqueKeys(u)
    ensures |order| == |u| && forall v :: v in order <==> v in u
    ensures forall n: nat :: n < |order| ==> FollowsRule(u, order, n)
    ensures forall i, j :: 0 <= i < j < |p| ==> p[i] < p[j]
    ensures forall b: nat :: b < |order| ==> (b in p <==> EndsOrLeadsBack(u, order, b))
    ensures |BlindSpots(u)| == |p|
    ensures forall i :: 0 <= i < |p| ==> p[i] < |order| && BlindSpots(u)[i] == order[p[i]].member
  {
    order := DiscoveryOrder(u);
    hide *;
    SearchListsAll(u);
    OrderExists(u);
    p := BlindSpotPositions(u, order);
    forall n: nat | n < |order| ensures FollowsRule(u, order, n) {
      RuleAt(u, order, n);
    }
    AscendingMeans(p);
    forall b: nat | b < |order| ensures b in p <==> EndsOrLeadsBack(u, order, b) {
      ReportedAtMeans(u, order, b);
    }
  }

  lemma AscendingMeans(p: seq<nat>)
    requires Ascending(p)
    ensures forall i, j :: 0 <= i < j < |p| ==> p[i] < p[j]
  {
  }

  // ---------- one visit ----------

  /** A removed vertex whose only edge leads to a vertex of the path is reported. */
  lemma {:induction false} BackLoopsReported(
    g: GraphView, current: MemberConnections, path: seq<MemberProxy>, w: MemberConnections)
    requires UniqueKeys(g) && KeysOf(path) !! Keys(g) && current.member.key !in Keys(g)
    requires w == current || (w in g && w.member.key !in Keys(Explore(g, current, path).graph))
    requires |w.connections| == 1 && w.connections[0].key in KeysOf(path)
    ensures w.member in Explore(g, current, path).reports
    decreases |g|, |current.connections|, 1
  {
    if !EndsHere(current, path) {
      KeysOfAppend(path, current.member);
      EdgesReportBackLoops(g, current.connections, path + [current.member], w);
    }
  }

  lemma {:induction false} EdgesReportBackLoops(
    g: GraphView, edges: seq<MemberProxy>, path: seq<MemberProxy>, w: MemberConnections)
    requires UniqueKeys(g) && KeysOf(path) !! Keys(g)
    requires w in g && w.member.key !in Keys(ExploreEdges(g, edges, path).graph)
    requires |w.connections| == 1 && w.connections[0].key in KeysOf(path)
    ensures w.member in ExploreEdges(g, edges, path).reports
    decreases |g|, |edges|, 0
  {
    if edges == [] {
      NoEdges(g, path);
    } else {
      var i := FindVertex(g, edges[0].key);
      if i == |g| {
        SkipEdge(g, edges, path);
        EdgesReportBackLoops(g, edges[1..], path, w);
      } else {
        var e := RemoveAt(g, i);
        KeysAfterErase(g, i);
        FollowEdge(g, edges, path, i);
        ExploreConsumes(e, g[i], path);
        var o := Explore(e, g[i], path);
        if w.member.key in Keys(o.graph) {
          var x :| x in o.graph && x.member.key == w.member.key;
          assert x in g;
          SameKeySameVertex(g, x, w);
          EdgesReportBackLoops(o.graph, edges[1..], path, w);
        } else {
          BackLoopsReported(e, g[i], path, w);
        }
      }
    }
  }

  /** In every visit, each vertex it removes whose only edge leads to the visited vertex is reported by it. */
  lemma LoopsToVisitedReported(g: GraphView, current: MemberConnections, path: seq<MemberProxy>, w: MemberConnections)
    requires UniqueKeys(g) && KeysOf(path) !! Keys(g) && current.member.key !in Keys(g)
    requires w in g && w.member.key !in Keys(Explore(g, current, path).graph)
    requires |w.connections| == 1 && w.connections[0].key == current.member.key
    ensures w.member in Explore(g, current, path).reports
  {
    if !EndsHere(current, path) {
      KeysOfAppend(path, current.member);
      EdgesReportBackLoops(g, current.connections, path + [current.member], w);
    }
  }
}

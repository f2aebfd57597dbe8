/**
 Which vertices the blind-spot search reports, on every graph with unique keys and on acyclic graphs.
 */
module BlindSpotReports {
  import opened Sequences
  import opened GraphViews
  import opened BlindSpotSearch
  import opened BlindSpotTheorems

  /** A sink, or a vertex whose only edge leads to another vertex from which it can be reached again. */
  ghost predicate Justified(u: GraphView, r: MemberProxy) {
    exists v :: v in u && v.member == r && JustifiedVertex(u, v)
  }

  ghost predicate JustifiedVertex(u: GraphView, v: MemberConnections) {
    || v.connections == []
    || (&& |v.connections| == 1
        && v.connections[0].key != v.member.key
        && Reaches(u, v.connections[0].key, v.member.key))
  }

  /** The reports made while the vertices with the given keys were visited. */
  ghost predicate Accounted(u: GraphView, visited: set<PrimaryKey>, reports: seq<MemberProxy>) {
    && DistinctKeys(reports)
    && (forall r :: r in reports ==> r.key in visited && Justified(u, r))
    && (forall v :: v in u && v.member.key in visited && v.connections == [] ==> v.member in reports)
  }

  lemma AccountedJoin(
    u: GraphView, a: set<PrimaryKey>, r: seq<MemberProxy>, b: set<PrimaryKey>, s: seq<MemberProxy>)
    requires Accounted(u, a, r) && Accounted(u, b, s) && a !! b
    ensures Accounted(u, a + b, r + s)
  {
    forall i, j | 0 <= i < j < |r + s| ensures (r + s)[i].key != (r + s)[j].key {
      if i < |r| <= j {
        assert r[i] in r && s[j - |r|] in s;
      }
    }
  }

  ghost predicate Within(g: GraphView, u: GraphView) {
    forall v :: v in g ==> v in u
  }

  /** Every vertex of the path reaches every vertex that the edges lead to. */
  ghost predicate PathLeadsTo(u: GraphView, path: seq<MemberProxy>, targets: set<PrimaryKey>) {
    forall q, t :: q in KeysOf(path) && t in targets && t in Keys(u) ==> Reaches(u, q, t)
  }

  lemma PathExtends(u: GraphView, path: seq<MemberProxy>, current: MemberConnections)
    requires current in u && PathLeadsTo(u, path, {current.member.key})
    ensures PathLeadsTo(u, path + [current.member], KeysOf(current.connections))
  {
    KeysOfAppend(path, current.member);
    var key := current.member.key;
    forall q, t | q in KeysOf(path + [current.member]) && t in KeysOf(current.connections) && t in Keys(u)
      ensures Reaches(u, q, t)
    {
      ReachesByEdge(u, key, t);
      if q != key {
        ReachesTransitive(u, q, key, t);
      }
    }
  }

  lemma ReportHere(u: GraphView, current: MemberConnections, path: seq<MemberProxy>)
    requires UniqueKeys(u) && current in u
    requires current.member.key !in KeysOf(path) && PathLeadsTo(u, path, {current.member.key})
    requires EndsHere(current, path)
    ensures Accounted(u, {current.member.key}, [current.member])
  {
    assert JustifiedVertex(u, current);
    assert Justified(u, current.member);
    forall v | v in u && v.member.key == current.member.key ensures v == current {
      SameKeySameVertex(u, v, current);
    }
  }

  lemma {:induction false} ExploreAccounts(
    u: GraphView, g: GraphView, current: MemberConnections, path: seq<MemberProxy>)
    requires UniqueKeys(u) && UniqueKeys(g) && Within(g, u) && current in u
    requires KeysOf(path) !! Keys(g) && current.member.key !in Keys(g) + KeysOf(path)
    requires PathLeadsTo(u, path, {current.member.key})
    ensures var o := Explore(g, current, path);
            Accounted(u, {current.member.key} + (Keys(g) - Keys(o.graph)), o.reports)
    decreases |g|, |current.connections|, 1
  {
    var o := Explore(g, current, path);
    if EndsHere(current, path) {
      ReportHere(u, current, path);
      assert {current.member.key} + (Keys(g) - Keys(o.graph)) == {current.member.key};
    } else {
      KeysOfAppend(path, current.member);
      PathExtends(u, path, current);
      ExploreEdgesAccounts(u, g, current.connections, path + [current.member]);
      forall v | v in u && v.member.key == current.member.key ensures v == current {
        SameKeySameVertex(u, v, current);
      }
    }
  }

  lemma {:induction false} ExploreEdgesAccounts(
    u: GraphView, g: GraphView, edges: seq<MemberProxy>, path: seq<MemberProxy>)
    requires UniqueKeys(u) && UniqueKeys(g) && Within(g, u)
    requires KeysOf(path) !! Keys(g) && PathLeadsTo(u, path, KeysOf(edges))
    ensures var o := ExploreEdges(g, edges, path);
            Accounted(u, Keys(g) - Keys(o.graph), o.reports)
    decreases |g|, |edges|, 0
  {
    if edges != [] {
      KeysOfFirst(edges);
      var i := FindVertex(g, edges[0].key);
      if i == |g| {
        ExploreEdgesAccounts(u, g, edges[1..], path);
      } else {
        var e := RemoveAt(g, i);
        KeysAfterErase(g, i);
        assert g[i] in g;
        ExploreAccounts(u, e, g[i], path);
        ExploreConsumes(e, g[i], path);
        var o := Explore(e, g[i], path);
        ExploreEdgesAccounts(u, o.graph, edges[1..], path);
        ExploreEdgesConsumes(o.graph, edges[1..], path);
        var rest := ExploreEdges(o.graph, edges[1..], path);
        VisitedInTurn(u, Keys(g), edges[0].key, o, rest);
      }
    }
  }

  lemma VisitedInTurn(u: GraphView, keys: set<PrimaryKey>, first: PrimaryKey, o: Outcome, rest: Outcome)
    requires first in keys && first !in Keys(o.graph)
    requires Keys(rest.graph) <= Keys(o.graph) <= keys
    requires Accounted(u, {first} + (keys - {first} - Keys(o.graph)), o.reports)
    requires Accounted(u, Keys(o.graph) - Keys(rest.graph), rest.reports)
    ensures Accounted(u, keys - Keys(rest.graph), o.reports + rest.reports)
  {
    var a := {first} + (keys - {first} - Keys(o.graph));
    var b := Keys(o.graph) - Keys(rest.graph);
    AccountedJoin(u, a, o.reports, b, rest.reports);
    assert a + b == keys - Keys(rest.graph);
  }

  lemma {:induction false} SearchesAccount(u: GraphView, g: GraphView)
    requires UniqueKeys(u) && UniqueKeys(g) && Within(g, u)
    ensures Accounted(u, Keys(g), BlindSpots(g))
    decreases |g|
  {
    if g != [] {
      var n := |g| - 1;
      assert RemoveAt(g, n) == g[..n];
      KeysAfterErase(g, n);
      assert g[n] in g;
      ExploreAccounts(u, g[..n], g[n], []);
      ExploreConsumes(g[..n], g[n], []);
      var o := Explore(g[..n], g[n], []);
      SearchesAccount(u, o.graph);
      assert Accounted(u, Keys(o.graph) - Keys([]), BlindSpots(o.graph)) by {
        assert Keys(o.graph) - Keys([]) == Keys(o.graph);
      }
      VisitedInTurn(u, Keys(g), g[n].member.key, o, Outcome([], BlindSpots(o.graph)));
      assert Keys(g) - Keys([]) == Keys(g);
    }
  }

  /**
   On every graph with unique keys: no vertex is reported twice, every sink is reported, and every
   reported vertex that is no sink has a single edge, to another vertex, and lies on a directed
   cycle through that edge.
   */
  lemma ReportTheorem(u: GraphView)
    requires UniqueKeys(u)
    ensures DistinctKeys(BlindSpots(u))
    ensures forall v :: v in u && v.connections == [] ==> multiset(BlindSpots(u))[v.member] == 1
    ensures forall r :: r in BlindSpots(u) ==> exists v :: v in u && v.member == r && JustifiedVertex(u, v)
  {
    SearchesAccount(u, u);
    forall v | v in u && v.connections == [] ensures multiset(BlindSpots(u))[v.member] == 1 {
      DistinctOnce(BlindSpots(u), v.member);
    }
    forall r | r in BlindSpots(u) ensures exists v :: v in u && v.member == r && JustifiedVertex(u, v) {
      assert Justified(u, r);
    }
  }

  lemma {:induction false} DistinctOnce(s: seq<MemberProxy>, p: MemberProxy)
    requires DistinctKeys(s)
    ensures multiset(s)[p] == if p in s then 1 else 0
  {
    if s != [] {
      assert s == [s[0]] + s[1..];
      DistinctOnce(s[1..], p);
      assert forall q :: q in s[1..] ==> q.key != s[0].key;
    }
  }

  /** If every vertex has at least two edges, nothing is reported, whatever cycles there are. */
  lemma NoSingleEdgesNoReports(u: GraphView)
    requires UniqueKeys(u) && forall v :: v in u ==> |v.connections| >= 2
    ensures BlindSpots(u) == []
  {
    ReportTheorem(u);
    if BlindSpots(u) != [] {
      assert BlindSpots(u)[0] in BlindSpots(u);
    }
  }

  // ---------- acyclic graphs ----------

  ghost predicate Acyclic(u: GraphView) {
    forall a, b :: Edge(u, a, b) ==> !Reaches(u, b, a)
  }

  function Sinks(u: GraphView): (s: seq<MemberProxy>)
    ensures forall p :: p in s <==> exists v :: v in u && v.member == p && v.connections == []
  {
    if u == [] then []
    else
      assert forall v :: v in u <==> v == u[0] || v in u[1..];
      if u[0].connections == [] then [u[0].member] + Sinks(u[1..]) else Sinks(u[1..])
  }

  lemma {:induction false} SinksDistinct(u: GraphView)
    requires UniqueKeys(u)
    ensures DistinctKeys(Sinks(u))
  {
    if u != [] {
      SinksDistinct(u[1..]);
      forall p | p in Sinks(u[1..]) ensures p.key != u[0].member.key {
        var v :| v in u[1..] && v.member == p && v.connections == [];
      }
    }
  }

  lemma SameElementsSameMultiset(s: seq<MemberProxy>, t: seq<MemberProxy>)
    requires DistinctKeys(s) && DistinctKeys(t) && SameElements(s, t)
    ensures multiset(s) == multiset(t)
  {
    forall p ensures multiset(s)[p] == multiset(t)[p] {
      DistinctOnce(s, p);
      DistinctOnce(t, p);
    }
  }

  lemma OnCycleUnlessSink(u: GraphView, v: MemberConnections)
    requires v in u && JustifiedVertex(u, v)
    ensures v.connections == [] || exists b :: Edge(u, v.member.key, b) && Reaches(u, b, v.member.key)
  {
    if v.connections != [] {
      assert v.connections[0] in v.connections;
      assert Edge(u, v.member.key, v.connections[0].key);
    }
  }

  /** On an acyclic graph the result is a permutation of the vertices without outgoing edges. */
  lemma AcyclicReportsSinks(u: GraphView)
    requires UniqueKeys(u) && Acyclic(u)
    ensures multiset(BlindSpots(u)) == multiset(Sinks(u))
  {
    ReportTheorem(u);
    SinksDistinct(u);
    forall p ensures p in BlindSpots(u) <==> p in Sinks(u) {
      if p in BlindSpots(u) {
        var v :| v in u && v.member == p && JustifiedVertex(u, v);
        OnCycleUnlessSink(u, v);
      }
      if p in Sinks(u) {
        var v :| v in u && v.member == p && v.connections == [];
        assert multiset(BlindSpots(u))[v.member] == 1;
      }
    }
    SameElementsSameMultiset(BlindSpots(u), Sinks(u));
  }

  lemma ReachesSameVertices(u: GraphView, t: GraphView, a: PrimaryKey, b: PrimaryKey)
    requires SameElements(u, t)
    ensures Reaches(u, a, b) <==> Reaches(t, a, b)
  {
    if Reaches(u, a, b) { ReachesInLarger(u, t, a, b); }
    if Reaches(t, a, b) { ReachesInLarger(t, u, a, b); }
  }

  /** On acyclic graphs the order of the vertex list does not matter to what is reported. */
  lemma AcyclicOrderIndependent(u: GraphView, t: GraphView)
    requires UniqueKeys(u) && UniqueKeys(t) && Acyclic(u) && SameElements(u, t)
    ensures multiset(BlindSpots(u)) == multiset(BlindSpots(t))
  {
    forall a, b | Edge(t, a, b) ensures !Reaches(t, b, a) {
      assert Edge(u, a, b);
      ReachesSameVertices(u, t, b, a);
    }
    AcyclicReportsSinks(u);
    AcyclicReportsSinks(t);
    SinksDistinct(u);
    SinksDistinct(t);
    SameElementsSameMultiset(Sinks(u), Sinks(t));
  }
}

/**
 What the blind-spot search does on every graph with unique keys: which vertices one visit
 consumes, and which vertices are reported.
 */
module BlindSpotTheorems {
  import opened Sequences
  import opened GraphViews
  import opened BlindSpotSearch

  // ---------- the white-path theorem ----------

  /** `h` is `g` with some vertices dropped, and no edge leads from a start or a dropped vertex into `h`. */
  ghost predicate Consumed(g: GraphView, starts: set<PrimaryKey>, h: GraphView) {
    && h == Without(g, Keys(g) - Keys(h))
    && starts !! Keys(h)
    && forall v :: v in g && v.member.key !in Keys(h) ==> KeysOf(v.connections) !! Keys(h)
  }

  lemma KeysOfFirst(edges: seq<MemberProxy>)
    requires edges != []
    ensures KeysOf(edges) == {edges[0].key} + KeysOf(edges[1..])
  {
    assert forall e :: e in edges <==> e == edges[0] || e in edges[1..];
  }

  lemma KeysOfAppend(path: seq<MemberProxy>, p: MemberProxy)
    ensures KeysOf(path + [p]) == KeysOf(path) + {p.key}
  {
    assert forall e :: e in path + [p] <==> e in path || e == p;
  }

  lemma KeysAfterErase(g: GraphView, i: nat)
    requires UniqueKeys(g) && i < |g|
    ensures UniqueKeys(RemoveAt(g, i))
    ensures Keys(RemoveAt(g, i)) == Keys(g) - {g[i].member.key}
    ensures forall v :: v in g <==> v == g[i] || v in RemoveAt(g, i)
  {
    EraseIsWithout(g, i);
    WithoutKeepsUnique(g, {g[i].member.key});
    forall v | v in g && v.member.key == g[i].member.key ensures v == g[i] {
      SameKeySameVertex(g, v, g[i]);
    }
  }

  lemma ConsumedInTurn(g: GraphView, i: nat, h: GraphView, rest: set<PrimaryKey>, k: GraphView)
    requires UniqueKeys(g) && i < |g|
    requires Consumed(RemoveAt(g, i), KeysOf(g[i].connections), h)
    requires Consumed(h, rest, k)
    ensures Consumed(g, {g[i].member.key} + rest, k)
  {
    var e := RemoveAt(g, i);
    KeysAfterErase(g, i);
    DroppedInTurn(g, i, h, k);
    assert Keys(k) <= Keys(h) <= Keys(e);
    forall v | v in g && v.member.key !in Keys(k)
      ensures KeysOf(v.connections) !! Keys(k)
    {
      if v != g[i] {
        assert v in e;
        if v.member.key in Keys(h) {
          assert v in Without(e, Keys(e) - Keys(h));
        }
      }
    }
  }

  lemma DroppedInTurn(g: GraphView, i: nat, h: GraphView, k: GraphView)
    requires UniqueKeys(g) && i < |g|
    requires h == Without(RemoveAt(g, i), Keys(RemoveAt(g, i)) - Keys(h))
    requires k == Without(h, Keys(h) - Keys(k))
    ensures k == Without(g, Keys(g) - Keys(k))
  {
    KeysAfterErase(g, i);
    EraseIsWithout(g, i);
    assert g[i] in g;
    DroppedTwice(g, {g[i].member.key}, Keys(RemoveAt(g, i)), Keys(h), Keys(k));
  }

  lemma DroppedTwice(g: GraphView, first: set<PrimaryKey>, e: set<PrimaryKey>, h: set<PrimaryKey>, k: set<PrimaryKey>)
    requires first <= Keys(g) && e == Keys(g) - first && k <= h <= e
    ensures Without(Without(Without(g, first), e - h), h - k) == Without(g, Keys(g) - k)
  {
    WithoutTwice(g, first, e - h);
    WithoutTwice(g, first + (e - h), h - k);
    assert first + (e - h) + (h - k) == Keys(g) - k;
  }

  lemma {:induction false} ExploreConsumes(g: GraphView, current: MemberConnections, path: seq<MemberProxy>)
    requires UniqueKeys(g) && KeysOf(path) !! Keys(g) && current.member.key !in Keys(g)
    ensures Consumed(g, KeysOf(current.connections), Explore(g, current, path).graph)
    ensures UniqueKeys(Explore(g, current, path).graph)
    decreases |g|, |current.connections|, 1
  {
    if EndsHere(current, path) {
      WithoutNothing(g, Keys(g) - Keys(g));
      if |current.connections| == 1 {
        KeysOfFirst(current.connections);
      }
    } else {
      KeysOfAppend(path, current.member);
      ExploreEdgesConsumes(g, current.connections, path + [current.member]);
    }
  }

  lemma {:induction false} ExploreEdgesConsumes(g: GraphView, edges: seq<MemberProxy>, path: seq<MemberProxy>)
    requires UniqueKeys(g) && KeysOf(path) !! Keys(g)
    ensures Consumed(g, KeysOf(edges), ExploreEdges(g, edges, path).graph)
    ensures UniqueKeys(ExploreEdges(g, edges, path).graph)
    decreases |g|, |edges|, 0
  {
    if edges == [] {
      WithoutNothing(g, Keys(g) - Keys(g));
    } else {
      KeysOfFirst(edges);
      var i := FindVertex(g, edges[0].key);
      if i == |g| {
        ExploreEdgesConsumes(g, edges[1..], path);
      } else {
        KeysAfterErase(g, i);
        ExploreConsumes(RemoveAt(g, i), g[i], path);
        var h := Explore(RemoveAt(g, i), g[i], path).graph;
        ExploreEdgesConsumes(h, edges[1..], path);
        var k := ExploreEdges(h, edges[1..], path).graph;
        ConsumedInTurn(g, i, h, KeysOf(edges[1..]), k);
      }
    }
  }

  /** Nothing outside the dropped vertices can be reached from the starts. */
  lemma ConsumedCoversReached(g: GraphView, starts: set<PrimaryKey>, h: GraphView)
    requires Consumed(g, starts, h)
    ensures ReachedFrom(g, starts) <= Keys(g) - Keys(h)
  {
    var gone := Keys(g) - Keys(h);
    assert ClosedUnderEdges(g, gone);
    forall k | k in ReachedFrom(g, starts) ensures k in gone {
      var s :| s in starts && Reaches(g, s, k);
      ReachesEndpoints(g, s, k);
      ReachesStaysInClosed(g, gone, s, k);
    }
  }

  lemma {:induction false} ExploreRemovesOnlyReached(
    g: GraphView, current: MemberConnections, path: seq<MemberProxy>)
    requires UniqueKeys(g) && KeysOf(path) !! Keys(g) && current.member.key !in Keys(g)
    ensures Keys(g) - Keys(Explore(g, current, path).graph) <= ReachedFrom(g, KeysOf(current.connections))
    decreases |g|, |current.connections|, 1
  {
    if !EndsHere(current, path) {
      KeysOfAppend(path, current.member);
      ExploreEdgesRemovesOnlyReached(g, current.connections, path + [current.member]);
    }
  }

  lemma ReachedThroughVertex(g: GraphView, i: nat, k: PrimaryKey)
    requires UniqueKeys(g) && i < |g|
    requires k == g[i].member.key || k in ReachedFrom(RemoveAt(g, i), KeysOf(g[i].connections))
    ensures Reaches(g, g[i].member.key, k)
  {
    var key := g[i].member.key;
    assert g[i] in g;
    if k == key {
      ReachesSelf(g, key);
    } else {
      KeysAfterErase(g, i);
      var s :| s in KeysOf(g[i].connections) && Reaches(RemoveAt(g, i), s, k);
      ReachesEndpoints(RemoveAt(g, i), s, k);
      ReachesInLarger(RemoveAt(g, i), g, s, k);
      ReachesByEdge(g, key, s);
      ReachesTransitive(g, key, s, k);
    }
  }

  lemma ReachedInTurn(g: GraphView, i: nat, h: GraphView, edges: seq<MemberProxy>, k: GraphView)
    requires UniqueKeys(g) && i < |g| && edges != [] && edges[0].key == g[i].member.key
    requires forall v :: v in h ==> v in RemoveAt(g, i)
    requires Keys(RemoveAt(g, i)) - Keys(h) <= ReachedFrom(RemoveAt(g, i), KeysOf(g[i].connections))
    requires Keys(h) - Keys(k) <= ReachedFrom(h, KeysOf(edges[1..]))
    ensures Keys(g) - Keys(k) <= ReachedFrom(g, KeysOf(edges))
  {
    KeysOfFirst(edges);
    KeysAfterErase(g, i);
    forall x | x in Keys(g) - Keys(k)
      ensures x in ReachedFrom(g, KeysOf(edges))
    {
      if x in Keys(h) {
        assert x in ReachedFrom(h, KeysOf(edges[1..]));
        var s :| s in KeysOf(edges[1..]) && Reaches(h, s, x);
        ReachesInLarger(h, g, s, x);
      } else {
        ReachedThroughVertex(g, i, x);
      }
    }
  }

  lemma {:induction false} ExploreEdgesRemovesOnlyReached(
    g: GraphView, edges: seq<MemberProxy>, path: seq<MemberProxy>)
    requires UniqueKeys(g) && KeysOf(path) !! Keys(g)
    ensures Keys(g) - Keys(ExploreEdges(g, edges, path).graph) <= ReachedFrom(g, KeysOf(edges))
    decreases |g|, |edges|, 0
  {
    if edges != [] {
      KeysOfFirst(edges);
      var i := FindVertex(g, edges[0].key);
      if i == |g| {
        ExploreEdgesRemovesOnlyReached(g, edges[1..], path);
      } else {
        KeysAfterErase(g, i);
        var e := RemoveAt(g, i);
        ExploreConsumes(e, g[i], path);
        ExploreRemovesOnlyReached(e, g[i], path);
        var h := Explore(e, g[i], path).graph;
        ExploreEdgesRemovesOnlyReached(h, edges[1..], path);
        ReachedInTurn(g, i, h, edges, ExploreEdges(h, edges[1..], path).graph);
      }
    }
  }

  /**
   One visit removes exactly the vertices that can be reached from the current one through vertices
   still in the graph on entry, and leaves the others in their order.
   */
  lemma WhitePathTheorem(g: GraphView, current: MemberConnections, path: seq<MemberProxy>)
    requires UniqueKeys(g) && KeysOf(path) !! Keys(g) && current.member.key !in Keys(g)
    ensures Explore(g, current, path).graph == Without(g, ReachedFrom(g, KeysOf(current.connections)))
  {
    var h := Explore(g, current, path).graph;
    ExploreConsumes(g, current, path);
    ConsumedCoversReached(g, KeysOf(current.connections), h);
    ExploreRemovesOnlyReached(g, current, path);
    assert Keys(g) - Keys(h) == ReachedFrom(g, KeysOf(current.connections));
  }
}

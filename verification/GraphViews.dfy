/**
 The adjacency lists that the data store hands to the blind-spot check, together with the
 notions of walk and reachability that the search is judged by.
 */
module GraphViews {
  import opened Sequences

  type PrimaryKey = string

  /** A member named without holding it. Two proxies denote the same member when their keys agree. */
  datatype MemberProxy = MemberProxy(key: PrimaryKey, isTopic: bool)

  datatype MemberConnections = MemberConnections(member: MemberProxy, connections: seq<MemberProxy>)

  type GraphView = seq<MemberConnections>

  function KeysOf(proxies: seq<MemberProxy>): set<PrimaryKey> {
    set p | p in proxies :: p.key
  }

  function Keys(g: GraphView): set<PrimaryKey> {
    set v | v in g :: v.member.key
  }

  ghost predicate UniqueKeys(g: GraphView) {
    forall i, j :: 0 <= i < j < |g| ==> g[i].member.key != g[j].member.key
  }

  ghost predicate DistinctKeys(proxies: seq<MemberProxy>) {
    forall i, j :: 0 <= i < j < |proxies| ==> proxies[i].key != proxies[j].key
  }

  /** First vertex carrying the key, or the length of the list when there is none. */
  function FindVertex(g: GraphView, key: PrimaryKey): (i: nat)
    ensures i <= |g|
    ensures i < |g| ==> g[i].member.key == key
    ensures forall j :: 0 <= j < i ==> g[j].member.key != key
    ensures i < |g| <==> key in Keys(g)
  {
    if g == [] then 0
    else if g[0].member.key == key then 0
    else
      assert forall v :: v in g <==> v == g[0] || v in g[1..];
      1 + FindVertex(g[1..], key)
  }

  /** The list with every vertex whose key is in `ks` dropped, the others in their old order. */
  function Without(g: GraphView, ks: set<PrimaryKey>): (r: GraphView)
    ensures forall v :: v in r <==> v in g && v.member.key !in ks
    ensures Keys(r) == Keys(g) - ks
    ensures |r| <= |g|
  {
    if g == [] then []
    else
      assert forall v :: v in g <==> v == g[0] || v in g[1..];
      if g[0].member.key in ks then Without(g[1..], ks) else [g[0]] + Without(g[1..], ks)
  }

  lemma {:induction false} WithoutTwice(g: GraphView, a: set<PrimaryKey>, b: set<PrimaryKey>)
    ensures Without(Without(g, a), b) == Without(g, a + b)
  {
    if g != [] {
      WithoutTwice(g[1..], a, b);
      if g[0].member.key !in a {
        assert Without(g, a)[1..] == Without(g[1..], a);
      }
    }
  }

  lemma {:induction false} WithoutNothing(g: GraphView, ks: set<PrimaryKey>)
    requires ks !! Keys(g)
    ensures Without(g, ks) == g
  {
    if g != [] {
      assert g[0] in g;
      assert Keys(g[1..]) <= Keys(g);
      WithoutNothing(g[1..], ks);
    }
  }

  lemma {:induction false} EraseIsWithout(g: GraphView, i: nat)
    requires UniqueKeys(g) && i < |g|
    ensures RemoveAt(g, i) == Without(g, {g[i].member.key})
  {
    var key := g[i].member.key;
    if i == 0 {
      EraseFirstIsWithout(g);
    } else {
      EraseIsWithout(g[1..], i - 1);
      assert g[1..][i - 1] == g[i];
      assert g[0].member.key != key;
      assert RemoveAt(g, i) == [g[0]] + RemoveAt(g[1..], i - 1);
    }
  }

  lemma EraseFirstIsWithout(g: GraphView)
    requires UniqueKeys(g) && g != []
    ensures RemoveAt(g, 0) == Without(g, {g[0].member.key})
  {
    assert g[0].member.key !in Keys(g[1..]);
    WithoutNothing(g[1..], {g[0].member.key});
    assert RemoveAt(g, 0) == g[1..];
  }

  lemma {:induction false} WithoutKeepsUnique(g: GraphView, ks: set<PrimaryKey>)
    requires UniqueKeys(g)
    ensures UniqueKeys(Without(g, ks))
  {
    if g != [] {
      WithoutKeepsUnique(g[1..], ks);
      if g[0].member.key !in ks {
        var rest := Without(g[1..], ks);
        forall j | 0 <= j < |rest|
          ensures rest[j].member.key != g[0].member.key
        {
          assert rest[j] in g[1..];
        }
      }
    }
  }

  /** Vertices sharing a key in a list with unique keys are the same vertex. */
  lemma SameKeySameVertex(g: GraphView, v: MemberConnections, w: MemberConnections)
    requires UniqueKeys(g) && v in g && w in g && v.member.key == w.member.key
    ensures v == w
  {
    var i :| 0 <= i < |g| && g[i] == v;
    var j :| 0 <= j < |g| && g[j] == w;
  }

  ghost predicate Edge(g: GraphView, a: PrimaryKey, b: PrimaryKey) {
    exists v :: v in g && v.member.key == a && b in KeysOf(v.connections)
  }

  /** A non-empty list of vertices of `g`, each leading to the next by an edge of `g`. */
  ghost predicate Walk(g: GraphView, w: seq<PrimaryKey>) {
    |w| > 0 && w[0] in Keys(g) && (|w| > 1 ==> Edge(g, w[0], w[1]) && Walk(g, w[1..]))
  }

  ghost predicate WalkBetween(g: GraphView, a: PrimaryKey, w: seq<PrimaryKey>, b: PrimaryKey) {
    Walk(g, w) && w[0] == a && w[|w| - 1] == b
  }

  ghost predicate Reaches(g: GraphView, a: PrimaryKey, b: PrimaryKey) {
    exists w :: WalkBetween(g, a, w, b)
  }

  /** The vertices of `g` that can be reached from one of the given keys without leaving `g`. */
  ghost function ReachedFrom(g: GraphView, starts: set<PrimaryKey>): set<PrimaryKey> {
    set k | k in Keys(g) && exists s :: s in starts && Reaches(g, s, k)
  }

  lemma ReachesSelf(g: GraphView, a: PrimaryKey)
    requires a in Keys(g)
    ensures Reaches(g, a, a)
  {
    assert WalkBetween(g, a, [a], a);
  }

  lemma ReachesByEdge(g: GraphView, a: PrimaryKey, b: PrimaryKey)
    requires Edge(g, a, b) && b in Keys(g)
    ensures Reaches(g, a, b)
  {
    assert [a, b][1..] == [b];
    assert Walk(g, [b]);
    assert WalkBetween(g, a, [a, b], b);
  }

  lemma {:induction false} WalkJoin(g: GraphView, v: seq<PrimaryKey>, w: seq<PrimaryKey>)
    requires Walk(g, v) && Walk(g, w) && v[|v| - 1] == w[0]
    ensures Walk(g, v + w[1..])
    ensures (v + w[1..])[|v + w[1..]| - 1] == w[|w| - 1]
  {
    if |v| == 1 {
      assert v + w[1..] == w;
    } else {
      WalkJoin(g, v[1..], w);
      assert (v + w[1..])[1..] == v[1..] + w[1..];
    }
  }

  lemma ReachesTransitive(g: GraphView, a: PrimaryKey, b: PrimaryKey, c: PrimaryKey)
    requires Reaches(g, a, b) && Reaches(g, b, c)
    ensures Reaches(g, a, c)
  {
    var v :| WalkBetween(g, a, v, b);
    var w :| WalkBetween(g, b, w, c);
    WalkJoin(g, v, w);
    assert WalkBetween(g, a, v + w[1..], c);
  }

  lemma {:induction false} WalkInLarger(g: GraphView, h: GraphView, w: seq<PrimaryKey>)
    requires Walk(g, w) && forall v :: v in g ==> v in h
    ensures Walk(h, w)
  {
    if |w| > 1 {
      WalkInLarger(g, h, w[1..]);
    }
  }

  lemma ReachesInLarger(g: GraphView, h: GraphView, a: PrimaryKey, b: PrimaryKey)
    requires Reaches(g, a, b) && forall v :: v in g ==> v in h
    ensures Reaches(h, a, b)
  {
    var w :| WalkBetween(g, a, w, b);
    WalkInLarger(g, h, w);
    assert WalkBetween(h, a, w, b);
  }

  lemma {:induction false} WalkStaysInKeys(g: GraphView, w: seq<PrimaryKey>)
    requires Walk(g, w)
    ensures w[|w| - 1] in Keys(g)
  {
    if |w| > 1 {
      WalkStaysInKeys(g, w[1..]);
    }
  }

  lemma ReachesEndpoints(g: GraphView, a: PrimaryKey, b: PrimaryKey)
    requires Reaches(g, a, b)
    ensures a in Keys(g) && b in Keys(g)
  {
    var w :| WalkBetween(g, a, w, b);
    WalkStaysInKeys(g, w);
  }

  /** A walk of more than one vertex starts with an edge. */
  lemma ReachesFirstStep(g: GraphView, a: PrimaryKey, b: PrimaryKey)
    requires Reaches(g, a, b) && a != b
    ensures exists c :: Edge(g, a, c) && Reaches(g, c, b)
  {
    var w :| WalkBetween(g, a, w, b);
    assert WalkBetween(g, w[1], w[1..], b);
    assert Edge(g, a, w[1]) && Reaches(g, w[1], b);
  }

  ghost predicate ClosedUnderEdges(g: GraphView, s: set<PrimaryKey>) {
    forall a, b :: a in s && Edge(g, a, b) && b in Keys(g) ==> b in s
  }

  lemma {:induction false} WalkStaysInClosed(g: GraphView, s: set<PrimaryKey>, w: seq<PrimaryKey>)
    requires ClosedUnderEdges(g, s) && Walk(g, w) && w[0] in s
    ensures w[|w| - 1] in s
  {
    if |w| > 1 {
      WalkStaysInClosed(g, s, w[1..]);
    }
  }

  lemma ReachesStaysInClosed(g: GraphView, s: set<PrimaryKey>, a: PrimaryKey, b: PrimaryKey)
    requires ClosedUnderEdges(g, s) && a in s && Reaches(g, a, b)
    ensures b in s
  {
    var w :| WalkBetween(g, a, w, b);
    WalkStaysInClosed(g, s, w);
  }
}

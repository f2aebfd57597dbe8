/**
 Building the adjacency list from the answer to the full-graph query, and what the blind-spot
 search then reports.
 */
module GraphConstruction {
  import opened Wrappers
  import opened Sequences
  import opened GraphViews
  import opened BlindSpotSearch
  import opened BlindSpotReports
  import opened DiscoveryOrders
  import opened ExactReports

  /** One row of the `sub`, `pub` or `send` part of the answer; its `rel` field may be null. */
  datatype Relation = NullRelation | Relation(from: PrimaryKey, to: PrimaryKey)

  datatype Response = Response(
    active: seq<PrimaryKey>, passive: seq<PrimaryKey>,
    sub: seq<Relation>, pub: seq<Relation>, send: seq<Relation>)

  datatype EdgeKind = Sub | Pub | Send

  /** The keys of the two topics that are left out of the graph. */
  datatype Ignored = Ignored(parameterEvents: PrimaryKey, rosout: PrimaryKey) {
    predicate Has(key: PrimaryKey) {
      key == parameterEvents || key == rosout
    }
  }

  /** A relation becomes an edge unless it is null or its topic end is ignored. */
  predicate Kept(ignored: Ignored, kind: EdgeKind, rel: Relation) {
    && rel.Relation?
    && match kind
       case Sub => !ignored.Has(rel.from)
       case Pub => !ignored.Has(rel.to)
       case Send => true
  }

  function Target(kind: EdgeKind, rel: Relation): MemberProxy
    requires rel.Relation?
  {
    MemberProxy(rel.to, kind == Pub)
  }

  /** The edges that the rows contribute to one vertex, in row order. */
  function Selected(ignored: Ignored, kind: EdgeKind, rels: seq<Relation>, key: PrimaryKey): seq<MemberProxy> {
    if rels == [] then []
    else
      var n := |rels| - 1;
      Selected(ignored, kind, rels[..n], key)
      + if Kept(ignored, kind, rels[n]) && rels[n].from == key then [Target(kind, rels[n])] else []
  }

  /** Vertices in order: all nodes, then the topics that are not ignored. */
  function ListedTopics(ignored: Ignored, passive: seq<PrimaryKey>): (s: seq<MemberProxy>)
    ensures forall p :: p in s <==> p.isTopic && p.key in passive && !ignored.Has(p.key)
  {
    if passive == [] then []
    else
      var n := |passive| - 1;
      assert forall k :: k in passive <==> k in passive[..n] || k == passive[n];
      ListedTopics(ignored, passive[..n])
      + if ignored.Has(passive[n]) then [] else [MemberProxy(passive[n], true)]
  }

  function ListedNodes(active: seq<PrimaryKey>): (s: seq<MemberProxy>)
    ensures forall p :: p in s <==> !p.isTopic && p.key in active
  {
    var s := seq(|active|, i requires 0 <= i < |active| => MemberProxy(active[i], false));
    assert forall i :: 0 <= i < |active| ==> s[i] == MemberProxy(active[i], false);
    s
  }

  function Vertices(ignored: Ignored, resp: Response): seq<MemberProxy> {
    ListedNodes(resp.active) + ListedTopics(ignored, resp.passive)
  }

  function Outgoing(ignored: Ignored, resp: Response, key: PrimaryKey): seq<MemberProxy> {
    Selected(ignored, Sub, resp.sub, key) + Selected(ignored, Pub, resp.pub, key)
    + Selected(ignored, Send, resp.send, key)
  }

  /** Every kept row starts at a vertex of the list. */
  ghost predicate OriginsListed(ignored: Ignored, kind: EdgeKind, rels: seq<Relation>, keys: set<PrimaryKey>) {
    forall rel :: rel in rels && Kept(ignored, kind, rel) ==> rel.from in keys
  }

  /** No earlier vertex carries the same key. */
  predicate FirstAt(members: seq<MemberProxy>, i: nat)
    requires i < |members|
  {
    forall j :: 0 <= j < i ==> members[j].key != members[i].key
  }

  ghost predicate HasMembers(g: GraphView, members: seq<MemberProxy>) {
    |g| == |members| && forall i :: 0 <= i < |g| ==> g[i].member == members[i]
  }

  /** `h` is `g` with the selected edges appended to the first vertex of each key. */
  ghost predicate Extended(
    ignored: Ignored, kind: EdgeKind, rels: seq<Relation>, members: seq<MemberProxy>, g: GraphView, h: GraphView)
  {
    && HasMembers(g, members) && HasMembers(h, members)
    && forall i :: 0 <= i < |members| ==>
         h[i].connections == g[i].connections
           + if FirstAt(members, i) then Selected(ignored, kind, rels, members[i].key) else []
  }

  lemma ExtendedBySkip(
    ignored: Ignored, kind: EdgeKind, rels: seq<Relation>, rel: Relation, members: seq<MemberProxy>,
    g: GraphView, h: GraphView)
    requires Extended(ignored, kind, rels, members, g, h) && !Kept(ignored, kind, rel)
    ensures Extended(ignored, kind, rels + [rel], members, g, h)
  {
    assert (rels + [rel])[..|rels|] == rels;
  }

  lemma SelectedOneMore(ignored: Ignored, kind: EdgeKind, rels: seq<Relation>, rel: Relation, key: PrimaryKey)
    requires rel.Relation?
    ensures Selected(ignored, kind, rels + [rel], key)
         == Selected(ignored, kind, rels, key)
            + if Kept(ignored, kind, rel) && rel.from == key then [Target(kind, rel)] else []
  {
    assert (rels + [rel])[..|rels|] == rels;
  }

  lemma FirstIsOnly(members: seq<MemberProxy>, it: nat, key: PrimaryKey)
    requires it < |members| && members[it].key == key && FirstAt(members, it)
    ensures forall i: nat :: i < |members| && i != it && FirstAt(members, i) ==> members[i].key != key
  {
  }

  lemma ExtendedByEdge(
    ignored: Ignored, kind: EdgeKind, rels: seq<Relation>, rel: Relation, members: seq<MemberProxy>,
    g: GraphView, h: GraphView, it: nat)
    requires Extended(ignored, kind, rels, members, g, h) && Kept(ignored, kind, rel)
    requires it < |h| && members[it].key == rel.from && FirstAt(members, it)
    ensures Extended(ignored, kind, rels + [rel], members, g,
                     h[it := h[it].(connections := h[it].connections + [Target(kind, rel)])])
  {
    hide Selected, Target, FirstAt;
    FirstIsOnly(members, it, rel.from);
    var h' := h[it := h[it].(connections := h[it].connections + [Target(kind, rel)])];
    forall i | 0 <= i < |members|
      ensures h'[i].connections == g[i].connections
                + if FirstAt(members, i) then Selected(ignored, kind, rels + [rel], members[i].key) else []
    {
      SelectedOneMore(ignored, kind, rels, rel, members[i].key);
      if i == it {
        assert h'[i].connections
            == g[i].connections + (Selected(ignored, kind, rels, members[i].key) + [Target(kind, rel)]);
      }
    }
  }

  lemma NothingSelectedYet(
    ignored: Ignored, kind: EdgeKind, rels: seq<Relation>, members: seq<MemberProxy>, g: GraphView)
    requires HasMembers(g, members)
    ensures OriginsListed(ignored, kind, rels[..0], KeysOf(members))
    ensures Extended(ignored, kind, rels[..0], members, g, g)
  {
  }

  lemma FoundIsFirst(
    ignored: Ignored, kind: EdgeKind, rels: seq<Relation>, members: seq<MemberProxy>,
    g: GraphView, h: GraphView, key: PrimaryKey)
    requires Extended(ignored, kind, rels, members, g, h)
    ensures |h| == |members|
    ensures var it := FindVertex(h, key);
            && (it == |h| <==> key !in KeysOf(members))
            && (it < |h| ==> members[it].key == key && FirstAt(members, it))
  {
    SameMembersSameKeys(h, members);
  }

  lemma OriginsOneMore(ignored: Ignored, kind: EdgeKind, rels: seq<Relation>, n: nat, keys: set<PrimaryKey>)
    requires n < |rels| && OriginsListed(ignored, kind, rels[..n], keys)
    ensures Kept(ignored, kind, rels[n]) ==> rels[n].Relation?
    ensures OriginsListed(ignored, kind, rels[..n + 1], keys) <==> (Kept(ignored, kind, rels[n]) ==> rels[n].from in keys)
    ensures Kept(ignored, kind, rels[n]) && rels[n].from !in keys ==> !OriginsListed(ignored, kind, rels, keys)
  {
    assert rels[n] in rels && rels[n] in rels[..n + 1];
    assert forall rel :: rel in rels[..n + 1] <==> rel in rels[..n] || rel == rels[n];
  }

  /** One of the three edge loops. `None` stands for the failed assertion on an unlisted origin. */
  method AddEdges(
    ignored: Ignored, kind: EdgeKind, rels: seq<Relation>, ghost members: seq<MemberProxy>, g: GraphView)
    returns (r: Option<GraphView>)
    requires HasMembers(g, members)
    ensures r.Some? <==> OriginsListed(ignored, kind, rels, KeysOf(members))
    ensures r.Some? ==> Extended(ignored, kind, rels, members, g, r.value)
  {
    hide Kept, OriginsListed, HasMembers, Selected, Extended, FirstAt, FindVertex, KeysOf, Keys;
    var output := g;
    var n := 0;
    NothingSelectedYet(ignored, kind, rels, members, g);
    while n < |rels|
      invariant 0 <= n <= |rels|
      invariant OriginsListed(ignored, kind, rels[..n], KeysOf(members))
      invariant Extended(ignored, kind, rels[..n], members, g, output)
    {
      var rel := rels[n];
      assert rels[..n + 1] == rels[..n] + [rel];
      OriginsOneMore(ignored, kind, rels, n, KeysOf(members));
      if !Kept(ignored, kind, rel) {
        ExtendedBySkip(ignored, kind, rels[..n], rel, members, g, output);
      } else {
        var it := FindVertex(output, rel.from);
        FoundIsFirst(ignored, kind, rels[..n], members, g, output, rel.from);
        if it == |output| {
          return None;
        }
        ExtendedByEdge(ignored, kind, rels[..n], rel, members, g, output, it);
        output := output[it := output[it].(connections := output[it].connections + [Target(kind, rel)])];
      }
      n := n + 1;
    }
    assert rels[..n] == rels;
    return Some(output);
  }

  lemma BareAppend(members: seq<MemberProxy>, p: MemberProxy)
    ensures Bare(members + [p]) == Bare(members) + [MemberConnections(p, [])]
  {
  }

  /** The two vertex loops. */
  method ListVertices(ignored: Ignored, resp: Response) returns (output: GraphView)
    ensures output == Bare(Vertices(ignored, resp))
  {
    output := ListNodes(resp.active);
    ghost var nodes := ListedNodes(resp.active);
    var n := 0;
    assert nodes + ListedTopics(ignored, resp.passive[..0]) == nodes;
    while n < |resp.passive|
      invariant 0 <= n <= |resp.passive|
      invariant output == Bare(nodes + ListedTopics(ignored, resp.passive[..n]))
    {
      hide Bare, ListedTopics, ListedNodes;
      ghost var before := nodes + ListedTopics(ignored, resp.passive[..n]);
      var proxy := MemberProxy(resp.passive[n], true);
      OneMoreTopic(ignored, nodes, resp.passive, n);
      if !ignored.Has(resp.passive[n]) {
        BareAppend(before, proxy);
        output := output + [MemberConnections(proxy, [])];
      }
      n := n + 1;
    }
    assert resp.passive[..n] == resp.passive;
  }

  lemma OneMoreTopic(ignored: Ignored, nodes: seq<MemberProxy>, passive: seq<PrimaryKey>, n: nat)
    requires n < |passive|
    ensures nodes + ListedTopics(ignored, passive[..n + 1])
         == nodes + ListedTopics(ignored, passive[..n])
            + if ignored.Has(passive[n]) then [] else [MemberProxy(passive[n], true)]
  {
    assert passive[..n + 1][..n] == passive[..n];
  }

  method ListNodes(active: seq<PrimaryKey>) returns (output: GraphView)
    ensures output == Bare(ListedNodes(active))
  {
    output := [];
    var n := 0;
    while n < |active|
      invariant 0 <= n <= |active|
      invariant output == Bare(ListedNodes(active[..n]))
    {
      var proxy := MemberProxy(active[n], false);
      assert ListedNodes(active[..n + 1]) == ListedNodes(active[..n]) + [proxy];
      BareAppend(ListedNodes(active[..n]), proxy);
      output := output + [MemberConnections(proxy, [])];
      n := n + 1;
    }
    assert active[..n] == active;
  }

  method GetFullGraphView(ignored: Ignored, resp: Response) returns (r: Option<GraphView>)
    ensures r.Some? <==> Answerable(ignored, resp)
    ensures r.Some? ==> r.value == FullGraph(ignored, resp)
  {
    var output := ListVertices(ignored, resp);
    ghost var vs := Vertices(ignored, resp);
    var withSub := AddEdges(ignored, Sub, resp.sub, vs, output);
    if withSub == None { return None; }
    var withPub := AddEdges(ignored, Pub, resp.pub, vs, withSub.value);
    if withPub == None { return None; }
    r := AddEdges(ignored, Send, resp.send, vs, withPub.value);
    if r.Some? {
      ThreeExtensions(ignored, resp, vs, withSub.value, withPub.value, r.value);
    }
  }

  function Bare(members: seq<MemberProxy>): (g: GraphView)
    ensures |g| == |members|
    ensures forall i :: 0 <= i < |g| ==> g[i] == MemberConnections(members[i], [])
  {
    seq(|members|, i requires 0 <= i < |members| => MemberConnections(members[i], []))
  }

  /** The assertions of the three edge loops hold exactly on these answers. */
  ghost predicate Answerable(ignored: Ignored, resp: Response) {
    var keys := KeysOf(Vertices(ignored, resp));
    && OriginsListed(ignored, Sub, resp.sub, keys)
    && OriginsListed(ignored, Pub, resp.pub, keys)
    && OriginsListed(ignored, Send, resp.send, keys)
  }

  /** Each vertex with its edges; a second vertex of the same key would be left without any. */
  function Assembled(ignored: Ignored, resp: Response, vs: seq<MemberProxy>): (g: GraphView)
    ensures |g| == |vs|
    ensures forall i :: 0 <= i < |g| ==> g[i].member == vs[i]
    ensures forall i :: 0 <= i < |g| ==>
              g[i].connections == if FirstAt(vs, i) then Outgoing(ignored, resp, vs[i].key) else []
  {
    seq(|vs|, i requires 0 <= i < |vs| =>
      MemberConnections(vs[i], if FirstAt(vs, i) then Outgoing(ignored, resp, vs[i].key) else []))
  }

  function FullGraph(ignored: Ignored, resp: Response): GraphView {
    Assembled(ignored, resp, Vertices(ignored, resp))
  }

  lemma SameMembersSameKeys(g: GraphView, members: seq<MemberProxy>)
    requires HasMembers(g, members)
    ensures Keys(g) == KeysOf(members)
  {
    forall k | k in KeysOf(members) ensures k in Keys(g) {
      var i :| 0 <= i < |members| && members[i].key == k;
      assert g[i] in g;
    }
    forall k | k in Keys(g) ensures k in KeysOf(members) {
      var i :| 0 <= i < |g| && g[i].member.key == k;
      assert members[i] in members;
    }
  }

  lemma ThreeExtensions(
    ignored: Ignored, resp: Response, vs: seq<MemberProxy>, s: GraphView, p: GraphView, g: GraphView)
    requires Extended(ignored, Sub, resp.sub, vs, Bare(vs), s)
    requires Extended(ignored, Pub, resp.pub, vs, s, p)
    requires Extended(ignored, Send, resp.send, vs, p, g)
    ensures g == Assembled(ignored, resp, vs)
  {
    forall i | 0 <= i < |vs| ensures g[i] == Assembled(ignored, resp, vs)[i] {
      if FirstAt(vs, i) {
        assert s[i].connections == Selected(ignored, Sub, resp.sub, vs[i].key);
        assert p[i].connections == s[i].connections + Selected(ignored, Pub, resp.pub, vs[i].key);
      }
    }
  }

  // ---------- answers that describe a graph ----------

  /**
   Keys are distinct, no node carries the key of a topic, ignored topics included, and every row
   connects members that are listed. A send row may end at a node or at a topic: the query puts no
   label on its target.
   */
  ghost predicate Sound(ignored: Ignored, resp: Response) {
    && Distinct(resp.active) && Distinct(resp.passive)
    && (forall k :: k in resp.active ==> k !in resp.passive && !ignored.Has(k))
    && (forall rel :: rel in resp.sub && rel.Relation? ==> rel.from in resp.passive && rel.to in resp.active)
    && (forall rel :: rel in resp.pub && rel.Relation? ==> rel.from in resp.active && rel.to in resp.passive)
    && (forall rel :: rel in resp.send && rel.Relation? ==>
          rel.from in resp.active && (rel.to in resp.active || rel.to in resp.passive))
  }

  lemma {:induction false} TopicsDistinct(ignored: Ignored, passive: seq<PrimaryKey>)
    requires Distinct(passive)
    ensures DistinctKeys(ListedTopics(ignored, passive))
  {
    if passive != [] {
      var n := |passive| - 1;
      TopicsDistinct(ignored, passive[..n]);
      var s := ListedTopics(ignored, passive[..n]);
      forall i | 0 <= i < |s| ensures s[i].key != passive[n] {
        assert s[i] in s;
      }
    }
  }

  lemma VerticesDistinct(ignored: Ignored, resp: Response)
    requires Sound(ignored, resp)
    ensures DistinctKeys(Vertices(ignored, resp))
  {
    TopicsDistinct(ignored, resp.passive);
    var nodes, topics := ListedNodes(resp.active), ListedTopics(ignored, resp.passive);
    assert forall i :: 0 <= i < |nodes| ==> nodes[i] == MemberProxy(resp.active[i], false);
    forall i, j | 0 <= i < |nodes| && 0 <= j < |topics| ensures nodes[i].key != topics[j].key {
      assert nodes[i] in nodes && topics[j] in topics;
    }
  }

  /** Keys of the graph: all nodes and the topics that are not ignored. */
  lemma GraphKeys(ignored: Ignored, resp: Response, key: PrimaryKey)
    ensures key in Keys(FullGraph(ignored, resp))
            <==> key in resp.active || (key in resp.passive && !ignored.Has(key))
  {
    var vs := Vertices(ignored, resp);
    SameMembersSameKeys(FullGraph(ignored, resp), vs);
    assert forall p :: p in vs <==> p in ListedNodes(resp.active) || p in ListedTopics(ignored, resp.passive);
    if key in resp.active {
      assert MemberProxy(key, false) in vs;
    }
    if key in resp.passive && !ignored.Has(key) {
      assert MemberProxy(key, true) in vs;
    }
  }

  lemma SoundIsAnswerable(ignored: Ignored, resp: Response)
    requires Sound(ignored, resp)
    ensures Answerable(ignored, resp)
  {
    var vs := Vertices(ignored, resp);
    SameMembersSameKeys(FullGraph(ignored, resp), vs);
    forall key ensures key in KeysOf(vs) <==> key in resp.active || (key in resp.passive && !ignored.Has(key)) {
      GraphKeys(ignored, resp, key);
    }
  }

  /** A row that becomes an edge of the vertex: not null, and kept by the loop for its kind. */
  ghost predicate HasRow(ignored: Ignored, kind: EdgeKind, rels: seq<Relation>, key: PrimaryKey, p: MemberProxy) {
    Relation(key, p.key) in rels && Kept(ignored, kind, Relation(key, p.key)) && p.isTopic == (kind == Pub)
  }

  lemma {:induction false} SelectedRows(
    ignored: Ignored, kind: EdgeKind, rels: seq<Relation>, key: PrimaryKey, p: MemberProxy)
    ensures p in Selected(ignored, kind, rels, key) <==> HasRow(ignored, kind, rels, key, p)
  {
    if rels != [] {
      var n := |rels| - 1;
      SelectedRows(ignored, kind, rels[..n], key, p);
      assert forall rel :: rel in rels <==> rel in rels[..n] || rel == rels[n];
    }
  }

  lemma GraphIsUnique(ignored: Ignored, resp: Response)
    requires Sound(ignored, resp)
    ensures UniqueKeys(FullGraph(ignored, resp))
  {
    VerticesDistinct(ignored, resp);
  }

  lemma GraphConnections(ignored: Ignored, resp: Response, v: MemberConnections)
    requires Sound(ignored, resp) && v in FullGraph(ignored, resp)
    ensures v.connections == Outgoing(ignored, resp, v.member.key)
  {
    VerticesDistinct(ignored, resp);
    hide Outgoing;
    var g := FullGraph(ignored, resp);
    var i :| 0 <= i < |g| && g[i] == v;
    assert FirstAt(Vertices(ignored, resp), i);
  }

  lemma OutgoingRows(ignored: Ignored, resp: Response, key: PrimaryKey, p: MemberProxy)
    ensures p in Outgoing(ignored, resp, key) <==>
              || HasRow(ignored, Sub, resp.sub, key, p)
              || HasRow(ignored, Pub, resp.pub, key, p)
              || HasRow(ignored, Send, resp.send, key, p)
  {
    hide HasRow, Selected;
    SelectedRows(ignored, Sub, resp.sub, key, p);
    SelectedRows(ignored, Pub, resp.pub, key, p);
    SelectedRows(ignored, Send, resp.send, key, p);
  }

  /** The target of a row is a vertex exactly when it is not an ignored topic. */
  lemma RowTargetListed(ignored: Ignored, resp: Response, key: PrimaryKey, p: MemberProxy)
    requires Sound(ignored, resp)
    requires HasRow(ignored, Sub, resp.sub, key, p)
             || HasRow(ignored, Pub, resp.pub, key, p)
             || HasRow(ignored, Send, resp.send, key, p)
    ensures p.key in Keys(FullGraph(ignored, resp)) <==> !ignored.Has(p.key)
  {
    hide FullGraph, Keys;
    GraphKeys(ignored, resp, p.key);
  }

  /**
   On a sound answer the construction succeeds with unique keys; each vertex holds exactly its rows
   that are not null and not dropped by the test for ignored topics, in order; and an edge dangles
   exactly when it ends at an ignored topic.
   */
  lemma ConstructionTheorem(ignored: Ignored, resp: Response)
    requires Sound(ignored, resp)
    ensures Answerable(ignored, resp) && UniqueKeys(FullGraph(ignored, resp))
    ensures forall v :: v in FullGraph(ignored, resp)
                        ==> v.connections == Outgoing(ignored, resp, v.member.key)
    ensures forall v, p :: v in FullGraph(ignored, resp) ==>
              (p in v.connections <==>
                 || HasRow(ignored, Sub, resp.sub, v.member.key, p)
                 || HasRow(ignored, Pub, resp.pub, v.member.key, p)
                 || HasRow(ignored, Send, resp.send, v.member.key, p))
    ensures forall v, p :: v in FullGraph(ignored, resp) && p in v.connections
                           ==> (p.key in Keys(FullGraph(ignored, resp)) <==> !ignored.Has(p.key))
  {
    hide *;
    SoundIsAnswerable(ignored, resp);
    var g := FullGraph(ignored, resp);
    GraphIsUnique(ignored, resp);
    forall v | v in g ensures v.connections == Outgoing(ignored, resp, v.member.key) {
      GraphConnections(ignored, resp, v);
    }
    forall v, p | v in g
      ensures p in v.connections <==>
                 || HasRow(ignored, Sub, resp.sub, v.member.key, p)
                 || HasRow(ignored, Pub, resp.pub, v.member.key, p)
                 || HasRow(ignored, Send, resp.send, v.member.key, p)
    {
      OutgoingRows(ignored, resp, v.member.key, p);
    }
    forall v, p | v in g && p in v.connections ensures p.key in Keys(g) <==> !ignored.Has(p.key) {
      OutgoingRows(ignored, resp, v.member.key, p);
      RowTargetListed(ignored, resp, v.member.key, p);
    }
  }

  // ---------- the graph row by row, for every answer ----------

  /** The positions of the rows that the edges come from. */
  ghost predicate FromRows(rels: seq<Relation>, p: seq<nat>, edges: seq<MemberProxy>, topics: bool) {
    && |edges| == |p|
    && forall i :: 0 <= i < |p| ==>
         p[i] < |rels| && rels[p[i]].Relation? && edges[i] == MemberProxy(rels[p[i]].to, topics)
  }

  ghost predicate SelectsAt(ignored: Ignored, kind: EdgeKind, rels: seq<Relation>, key: PrimaryKey, x: nat) {
    x < |rels| && Kept(ignored, kind, rels[x]) && rels[x].from == key
  }

  lemma FromRowsOneMore(rels: seq<Relation>, n: nat, p: seq<nat>, edges: seq<MemberProxy>, topics: bool)
    requires n < |rels| && rels[n].Relation? && FromRows(rels, p, edges, topics)
    ensures FromRows(rels, p + [n], edges + [MemberProxy(rels[n].to, topics)], topics)
  {
  }

  lemma SelectedOneRowMore(ignored: Ignored, kind: EdgeKind, rels: seq<Relation>, key: PrimaryKey, n: nat)
    requires n < |rels|
    ensures SelectsAt(ignored, kind, rels, key, n) ==> rels[n].Relation?
    ensures Selected(ignored, kind, rels[..n + 1], key)
         == Selected(ignored, kind, rels[..n], key)
            + if SelectsAt(ignored, kind, rels, key, n) then [MemberProxy(rels[n].to, kind == Pub)] else []
  {
    assert rels[..n + 1][..n] == rels[..n];
  }

  lemma FromRowsSize(rels: seq<Relation>, p: seq<nat>, edges: seq<MemberProxy>, topics: bool)
    requires FromRows(rels, p, edges, topics)
    ensures |edges| == |p|
  {
  }

  lemma {:induction false} SelectedPositions(
    ignored: Ignored, kind: EdgeKind, rels: seq<Relation>, key: PrimaryKey, n: nat) returns (p: seq<nat>)
    requires n <= |rels|
    ensures Ascending(p) && forall x: nat :: x in p <==> x < n && SelectsAt(ignored, kind, rels, key, x)
    ensures FromRows(rels, p, Selected(ignored, kind, rels[..n], key), kind == Pub)
  {
    p := [];
    if n > 0 {
      p := SelectedPositions(ignored, kind, rels, key, n - 1);
      hide SelectsAt, Selected, Ascending, FromRows;
      SelectedOneRowMore(ignored, kind, rels, key, n - 1);
      AscendingOneMore(p, n - 1);
      if SelectsAt(ignored, kind, rels, key, n - 1) {
        FromRowsOneMore(rels, n - 1, p, Selected(ignored, kind, rels[..n - 1], key), kind == Pub);
        p := p + [n - 1];
      }
    }
  }

  /**
   For every answer: the first vertex of a key has, in this order, one edge to a node for each of its
   sub rows, one edge to a topic for each of its pub rows, and one edge to a node for each of its send
   rows. Null rows count for nothing; nor does a sub row from, or a pub row to, an ignored topic.
   */
  lemma EdgesAreRows(ignored: Ignored, resp: Response, i: nat) returns (s: seq<nat>, p: seq<nat>, n: seq<nat>)
    requires i < |FullGraph(ignored, resp)|
    requires var g := FullGraph(ignored, resp); forall j :: 0 <= j < i ==> g[j].member.key != g[i].member.key
    ensures var v := FullGraph(ignored, resp)[i];
            var k := v.member.key;
            && (forall x: nat :: x in s <==>
                  x < |resp.sub| && resp.sub[x].Relation? && resp.sub[x].from == k
                  && k != ignored.parameterEvents && k != ignored.rosout)
            && (forall x: nat :: x in p <==>
                  x < |resp.pub| && resp.pub[x].Relation? && resp.pub[x].from == k
                  && resp.pub[x].to != ignored.parameterEvents && resp.pub[x].to != ignored.rosout)
            && (forall x: nat :: x in n <==> x < |resp.send| && resp.send[x].Relation? && resp.send[x].from == k)
            && |v.connections| == |s| + |p| + |n|
            && FromRows(resp.sub, s, v.connections[..|s|], false)
            && FromRows(resp.pub, p, v.connections[|s|..|s| + |p|], true)
            && FromRows(resp.send, n, v.connections[|s| + |p|..], false)
    ensures Ascending(s) && Ascending(p) && Ascending(n)
  {
    var v := FullGraph(ignored, resp)[i];
    var k := v.member.key;
    hide FullGraph, Selected, FromRows, Ascending, SelectsAt;
    FirstVertexEdges(ignored, resp, i);
    var a := Selected(ignored, Sub, resp.sub, k);
    var b := Selected(ignored, Pub, resp.pub, k);
    var c := Selected(ignored, Send, resp.send, k);
    s := AllSelected(ignored, Sub, resp.sub, k);
    p := AllSelected(ignored, Pub, resp.pub, k);
    n := AllSelected(ignored, Send, resp.send, k);
    ThreeParts(a, b, c);
    forall x: nat | true
      ensures x in s <==>
                x < |resp.sub| && resp.sub[x].Relation? && resp.sub[x].from == k
                && k != ignored.parameterEvents && k != ignored.rosout
      ensures x in p <==>
                x < |resp.pub| && resp.pub[x].Relation? && resp.pub[x].from == k
                && resp.pub[x].to != ignored.parameterEvents && resp.pub[x].to != ignored.rosout
      ensures x in n <==> x < |resp.send| && resp.send[x].Relation? && resp.send[x].from == k
    {
      SelectsAtMeans(ignored, resp, k, x);
    }
  }

  /** A second vertex of the same key is left without edges. */
  lemma LaterVertexHasNoEdges(ignored: Ignored, resp: Response, i: nat, j: nat)
    requires j < i < |FullGraph(ignored, resp)|
    requires var g := FullGraph(ignored, resp); g[j].member.key == g[i].member.key
    ensures FullGraph(ignored, resp)[i].connections == []
  {
    hide Outgoing;
    assert FullGraph(ignored, resp)[j].member == Vertices(ignored, resp)[j];
  }

  lemma FirstVertexEdges(ignored: Ignored, resp: Response, i: nat)
    requires i < |FullGraph(ignored, resp)|
    requires var g := FullGraph(ignored, resp); forall j :: 0 <= j < i ==> g[j].member.key != g[i].member.key
    ensures var v := FullGraph(ignored, resp)[i];
            v.connections
            == Selected(ignored, Sub, resp.sub, v.member.key) + Selected(ignored, Pub, resp.pub, v.member.key)
               + Selected(ignored, Send, resp.send, v.member.key)
  {
    hide Selected;
  }

  lemma AllSelected(ignored: Ignored, kind: EdgeKind, rels: seq<Relation>, key: PrimaryKey) returns (p: seq<nat>)
    ensures Ascending(p) && forall x: nat :: x in p <==> SelectsAt(ignored, kind, rels, key, x)
    ensures FromRows(rels, p, Selected(ignored, kind, rels, key), kind == Pub)
    ensures |Selected(ignored, kind, rels, key)| == |p|
  {
    hide Selected, Kept, Ascending;
    p := SelectedPositions(ignored, kind, rels, key, |rels|);
    assert rels[..|rels|] == rels;
    FromRowsSize(rels, p, Selected(ignored, kind, rels, key), kind == Pub);
  }

  lemma ThreeParts(a: seq<MemberProxy>, b: seq<MemberProxy>, c: seq<MemberProxy>)
    ensures var all := a + b + c;
            && |all| == |a| + |b| + |c|
            && all[..|a|] == a && all[|a|..|a| + |b|] == b && all[|a| + |b|..] == c
  {
  }

  lemma SelectsAtMeans(ignored: Ignored, resp: Response, k: PrimaryKey, x: nat)
    ensures SelectsAt(ignored, Sub, resp.sub, k, x) <==>
              x < |resp.sub| && resp.sub[x].Relation? && resp.sub[x].from == k
              && k != ignored.parameterEvents && k != ignored.rosout
    ensures SelectsAt(ignored, Pub, resp.pub, k, x) <==>
              x < |resp.pub| && resp.pub[x].Relation? && resp.pub[x].from == k
              && resp.pub[x].to != ignored.parameterEvents && resp.pub[x].to != ignored.rosout
    ensures SelectsAt(ignored, Send, resp.send, k, x) <==>
              x < |resp.send| && resp.send[x].Relation? && resp.send[x].from == k
  {
  }

  /** The positions of the topics that are not ignored. */
  lemma {:induction false} TopicPositions(ignored: Ignored, passive: seq<PrimaryKey>) returns (p: seq<nat>)
    ensures Ascending(p)
    ensures forall x: nat :: x in p <==>
              x < |passive| && passive[x] != ignored.parameterEvents && passive[x] != ignored.rosout
    ensures |ListedTopics(ignored, passive)| == |p|
    ensures forall i :: 0 <= i < |p| ==>
              p[i] < |passive| && ListedTopics(ignored, passive)[i] == MemberProxy(passive[p[i]], true)
  {
    p := [];
    if passive != [] {
      var n := |passive| - 1;
      var q := TopicPositions(ignored, passive[..n]);
      AscendingOneMore(q, n);
      p := if ignored.Has(passive[n]) then q else q + [n];
    }
  }

  /** For every answer: the vertices are all nodes and then the topics that are not ignored, in their order. */
  lemma VerticesAre(ignored: Ignored, resp: Response) returns (p: seq<nat>)
    ensures Ascending(p)
    ensures forall x: nat :: x in p <==>
              x < |resp.passive| && resp.passive[x] != ignored.parameterEvents && resp.passive[x] != ignored.rosout
    ensures var g, n := FullGraph(ignored, resp), |resp.active|;
            && |g| == n + |p|
            && (forall i :: 0 <= i < n ==> g[i].member == MemberProxy(resp.active[i], false))
            && forall i :: 0 <= i < |p| ==>
                 p[i] < |resp.passive| && g[n + i].member == MemberProxy(resp.passive[p[i]], true)
  {
    p := TopicPositions(ignored, resp.passive);
    hide ListedTopics, Outgoing, Ascending;
  }

  /** A key that a vertex of the graph carries. */
  ghost predicate Listed(ignored: Ignored, resp: Response, k: PrimaryKey) {
    k in resp.active || (k in resp.passive && k != ignored.parameterEvents && k != ignored.rosout)
  }

  /** The construction succeeds exactly when every row that is not left out starts at a vertex. */
  lemma AnswerableIff(ignored: Ignored, resp: Response)
    ensures Answerable(ignored, resp) <==>
              && (forall rel :: rel in resp.sub && rel.Relation?
                                && rel.from != ignored.parameterEvents && rel.from != ignored.rosout
                                ==> Listed(ignored, resp, rel.from))
              && (forall rel :: rel in resp.pub && rel.Relation?
                                && rel.to != ignored.parameterEvents && rel.to != ignored.rosout
                                ==> Listed(ignored, resp, rel.from))
              && (forall rel :: rel in resp.send && rel.Relation? ==> Listed(ignored, resp, rel.from))
  {
    hide FullGraph, Vertices, KeysOf, Keys;
    forall k ensures k in KeysOf(Vertices(ignored, resp)) <==> Listed(ignored, resp, k) {
      VertexKeys(ignored, resp, k);
    }
  }

  lemma VertexKeys(ignored: Ignored, resp: Response, k: PrimaryKey)
    ensures k in KeysOf(Vertices(ignored, resp)) <==> Listed(ignored, resp, k)
  {
    SameMembersSameKeys(FullGraph(ignored, resp), Vertices(ignored, resp));
    GraphKeys(ignored, resp, k);
  }

  /** There is an edge from the vertex of the key. */
  ghost predicate HasEdge(g: GraphView, from: PrimaryKey, to: MemberProxy) {
    exists v :: v in g && v.member.key == from && to in v.connections
  }

  /** On a sound answer every row that is not left out is an edge, and every edge is such a row. */
  lemma RowsAreEdges(ignored: Ignored, resp: Response)
    requires Sound(ignored, resp)
    ensures forall rel :: rel in resp.sub && rel.Relation?
                          && rel.from != ignored.parameterEvents && rel.from != ignored.rosout
                          ==> HasEdge(FullGraph(ignored, resp), rel.from, MemberProxy(rel.to, false))
    ensures forall rel :: rel in resp.pub && rel.Relation?
                          && rel.to != ignored.parameterEvents && rel.to != ignored.rosout
                          ==> HasEdge(FullGraph(ignored, resp), rel.from, MemberProxy(rel.to, true))
    ensures forall rel :: rel in resp.send && rel.Relation?
                          ==> HasEdge(FullGraph(ignored, resp), rel.from, MemberProxy(rel.to, false))
    ensures forall v, p :: v in FullGraph(ignored, resp) && p in v.connections ==>
              var rel := Relation(v.member.key, p.key);
              || (rel in resp.sub && !p.isTopic && rel.from != ignored.parameterEvents && rel.from != ignored.rosout)
              || (rel in resp.pub && p.isTopic && rel.to != ignored.parameterEvents && rel.to != ignored.rosout)
              || (rel in resp.send && !p.isTopic)
  {
    hide FullGraph;
    ConstructionTheorem(ignored, resp);
    forall rel | rel in resp.sub && rel.Relation? && rel.from != ignored.parameterEvents && rel.from != ignored.rosout
      ensures HasEdge(FullGraph(ignored, resp), rel.from, MemberProxy(rel.to, false))
    {
      RowIsEdge(ignored, resp, Sub, resp.sub, rel);
    }
    forall rel | rel in resp.pub && rel.Relation? && rel.to != ignored.parameterEvents && rel.to != ignored.rosout
      ensures HasEdge(FullGraph(ignored, resp), rel.from, MemberProxy(rel.to, true))
    {
      RowIsEdge(ignored, resp, Pub, resp.pub, rel);
    }
    forall rel | rel in resp.send && rel.Relation?
      ensures HasEdge(FullGraph(ignored, resp), rel.from, MemberProxy(rel.to, false))
    {
      RowIsEdge(ignored, resp, Send, resp.send, rel);
    }
  }

  lemma RowIsEdge(ignored: Ignored, resp: Response, kind: EdgeKind, rels: seq<Relation>, rel: Relation)
    requires Sound(ignored, resp) && rel in rels && rel.Relation? && Kept(ignored, kind, rel)
    requires (kind == Sub && rels == resp.sub) || (kind == Pub && rels == resp.pub) || (kind == Send && rels == resp.send)
    ensures HasEdge(FullGraph(ignored, resp), rel.from, MemberProxy(rel.to, kind == Pub))
  {
    var g := FullGraph(ignored, resp);
    GraphKeys(ignored, resp, rel.from);
    var v :| v in g && v.member.key == rel.from;
    GraphConnections(ignored, resp, v);
    assert HasRow(ignored, kind, rels, rel.from, MemberProxy(rel.to, kind == Pub));
    OutgoingRows(ignored, resp, rel.from, MemberProxy(rel.to, kind == Pub));
  }

  ghost predicate EdgesStay(g: GraphView) {
    forall v, p :: v in g && p in v.connections ==> p.key in Keys(g)
  }

  ghost predicate NothingSentToIgnored(ignored: Ignored, resp: Response) {
    forall rel :: rel in resp.send && rel.Relation? ==> !ignored.Has(rel.to)
  }

  /** No edge dangles exactly when no send row, the only kind without the test, leads to an ignored topic. */
  lemma EdgesStayIff(ignored: Ignored, resp: Response)
    requires Sound(ignored, resp)
    ensures EdgesStay(FullGraph(ignored, resp)) <==> NothingSentToIgnored(ignored, resp)
  {
    var g := FullGraph(ignored, resp);
    ConstructionTheorem(ignored, resp);
    if NothingSentToIgnored(ignored, resp) {
      forall v, p | v in g && p in v.connections ensures !ignored.Has(p.key) {
        assert HasRow(ignored, Send, resp.send, v.member.key, p) ==> Relation(v.member.key, p.key) in resp.send;
      }
    }
    forall rel | EdgesStay(g) && rel in resp.send && rel.Relation? ensures !ignored.Has(rel.to) {
      var v := NodeVertex(ignored, resp, rel.from);
      assert HasRow(ignored, Send, resp.send, rel.from, MemberProxy(rel.to, false));
      assert MemberProxy(rel.to, false) in v.connections;
    }
  }

  lemma NodeVertex(ignored: Ignored, resp: Response, node: PrimaryKey) returns (v: MemberConnections)
    requires node in resp.active
    ensures v in FullGraph(ignored, resp) && v.member == MemberProxy(node, false)
  {
    var g, vs := FullGraph(ignored, resp), Vertices(ignored, resp);
    assert MemberProxy(node, false) in vs;
    var i :| 0 <= i < |vs| && vs[i] == MemberProxy(node, false);
    v := g[i];
  }

  /** One node that sends to an ignored topic: the edge dangles, and the node is not reported. */
  lemma SendToIgnoredDangles()
    ensures var ignored, resp := Ignored("pe", "ro"), Response(["n"], ["ro"], [], [], [Relation("n", "ro")]);
            && Sound(ignored, resp) && Answerable(ignored, resp)
            && !EdgesStay(FullGraph(ignored, resp))
            && MemberProxy("n", false) !in BlindSpots(FullGraph(ignored, resp))
  {
    hide FullGraph, BlindSpots, Answerable, EdgesStay;
    var ignored, resp := Ignored("pe", "ro"), Response(["n"], ["ro"], [], [], [Relation("n", "ro")]);
    assert Relation("n", "ro") in resp.send;
    SoundIsAnswerable(ignored, resp);
    EdgesStayIff(ignored, resp);
    QuietNodeReportedIff(ignored, resp, "n");
  }

  // ---------- construction followed by search ----------

  /** On a sound answer an ignored topic is never reported. */
  lemma IgnoredNeverReported(ignored: Ignored, resp: Response)
    requires Sound(ignored, resp)
    ensures forall r :: r in BlindSpots(FullGraph(ignored, resp)) ==> !ignored.Has(r.key)
  {
    ConstructionTheorem(ignored, resp);
    ReportTheorem(FullGraph(ignored, resp));
    forall r | r in BlindSpots(FullGraph(ignored, resp)) ensures !ignored.Has(r.key) {
      GraphKeys(ignored, resp, r.key);
    }
  }

  /** All rows that start at the node are null or publish to an ignored topic. */
  ghost predicate OnlyIgnoredTargets(ignored: Ignored, resp: Response, node: PrimaryKey) {
    && (forall rel :: rel in resp.sub && rel.Relation? ==> rel.from != node)
    && (forall rel :: rel in resp.send && rel.Relation? ==> rel.from != node)
    && (forall rel :: rel in resp.pub && rel.Relation? && rel.from == node ==> ignored.Has(rel.to))
  }

  /** Such a node becomes a sink, and only such a node does; it is reported exactly once. */
  lemma QuietNodeReported(ignored: Ignored, resp: Response, node: PrimaryKey)
    requires Sound(ignored, resp) && node in resp.active
    ensures Outgoing(ignored, resp, node) == [] <==> OnlyIgnoredTargets(ignored, resp, node)
    ensures OnlyIgnoredTargets(ignored, resp, node)
            ==> multiset(BlindSpots(FullGraph(ignored, resp)))[MemberProxy(node, false)] == 1
  {
    ConstructionTheorem(ignored, resp);
    ReportTheorem(FullGraph(ignored, resp));
    var _ := NodeVertex(ignored, resp, node);
    QuietMeansNoEdges(ignored, resp, node);
  }

  /** All rows that start at the node, of whatever kind, are null or lead to an ignored topic. */
  ghost predicate LeadsOnlyToIgnored(ignored: Ignored, resp: Response, node: PrimaryKey) {
    forall rel :: rel in resp.sub + resp.pub + resp.send && rel.Relation? && rel.from == node ==> ignored.Has(rel.to)
  }

  ghost predicate SendsNothing(resp: Response, node: PrimaryKey) {
    forall rel :: rel in resp.send && rel.Relation? ==> rel.from != node
  }

  /** A node that leads only to ignored topics is reported, once, exactly when it leads there by publishing alone. */
  lemma QuietNodeReportedIff(ignored: Ignored, resp: Response, node: PrimaryKey)
    requires Sound(ignored, resp) && node in resp.active && LeadsOnlyToIgnored(ignored, resp, node)
    ensures multiset(BlindSpots(FullGraph(ignored, resp)))[MemberProxy(node, false)]
         == if SendsNothing(resp, node) then 1 else 0
  {
    if SendsNothing(resp, node) {
      assert OnlyIgnoredTargets(ignored, resp, node);
      QuietNodeReported(ignored, resp, node);
    } else {
      SenderNotReported(ignored, resp, node);
    }
  }

  lemma SenderNotReported(ignored: Ignored, resp: Response, node: PrimaryKey)
    requires Sound(ignored, resp) && node in resp.active && LeadsOnlyToIgnored(ignored, resp, node)
    requires !SendsNothing(resp, node)
    ensures MemberProxy(node, false) !in BlindSpots(FullGraph(ignored, resp))
  {
    var v := NodeVertex(ignored, resp, node);
    assert v.connections == Outgoing(ignored, resp, node) && UniqueKeys(FullGraph(ignored, resp)) by {
      ConstructionTheorem(ignored, resp);
    }
    assert v.connections != [] by {
      QuietMeansNoEdges(ignored, resp, node);
    }
    hide *;
    forall p | p in v.connections ensures p.key !in Keys(FullGraph(ignored, resp)) {
      QuietEdgeDangles(ignored, resp, v, p);
    }
    DanglingNotReported(FullGraph(ignored, resp), v);
  }

  lemma QuietEdgeDangles(ignored: Ignored, resp: Response, v: MemberConnections, p: MemberProxy)
    requires Sound(ignored, resp) && v in FullGraph(ignored, resp) && p in v.connections
    requires LeadsOnlyToIgnored(ignored, resp, v.member.key)
    ensures p.key !in Keys(FullGraph(ignored, resp))
  {
    hide FullGraph;
    ConstructionTheorem(ignored, resp);
    assert Relation(v.member.key, p.key) in resp.sub + resp.pub + resp.send;
  }

  /** A vertex all of whose edges dangle is never reported. */
  lemma DanglingNotReported(g: GraphView, v: MemberConnections)
    requires UniqueKeys(g) && v in g && v.connections != []
    requires forall p :: p in v.connections ==> p.key !in Keys(g)
    ensures v.member !in BlindSpots(g)
  {
    ReportTheorem(g);
    forall w | w in g && w.member == v.member ensures !JustifiedVertex(g, w) {
      SameKeySameVertex(g, v, w);
      assert v.connections[0] in v.connections;
      if Reaches(g, v.connections[0].key, v.member.key) {
        ReachesEndpoints(g, v.connections[0].key, v.member.key);
      }
    }
  }

  lemma QuietMeansNoEdges(ignored: Ignored, resp: Response, node: PrimaryKey)
    requires Sound(ignored, resp) && node in resp.active
    ensures Outgoing(ignored, resp, node) == [] <==> OnlyIgnoredTargets(ignored, resp, node)
  {
    OutgoingEmpty(ignored, resp, node);
    assert NoneSelected(ignored, Sub, resp.sub, node) by {
      assert forall rel :: rel in resp.sub && rel.Relation? ==> rel.from in resp.passive;
    }
    assert NoneSelected(ignored, Send, resp.send, node)
        <==> forall rel :: rel in resp.send && rel.Relation? ==> rel.from != node;
    assert NoneSelected(ignored, Pub, resp.pub, node)
        <==> forall rel :: rel in resp.pub && rel.Relation? && rel.from == node ==> ignored.Has(rel.to);
  }

  lemma OutgoingEmpty(ignored: Ignored, resp: Response, node: PrimaryKey)
    ensures Outgoing(ignored, resp, node) == [] <==>
              && NoneSelected(ignored, Sub, resp.sub, node)
              && NoneSelected(ignored, Pub, resp.pub, node)
              && NoneSelected(ignored, Send, resp.send, node)
  {
    SelectedEmpty(ignored, Sub, resp.sub, node);
    SelectedEmpty(ignored, Pub, resp.pub, node);
    SelectedEmpty(ignored, Send, resp.send, node);
  }

  ghost predicate NoneSelected(ignored: Ignored, kind: EdgeKind, rels: seq<Relation>, key: PrimaryKey) {
    forall rel :: rel in rels && Kept(ignored, kind, rel) ==> rel.from != key
  }

  lemma {:induction false} SelectedEmpty(ignored: Ignored, kind: EdgeKind, rels: seq<Relation>, key: PrimaryKey)
    ensures Selected(ignored, kind, rels, key) == [] <==> NoneSelected(ignored, kind, rels, key)
  {
    if rels != [] {
      var n := |rels| - 1;
      SelectedEmpty(ignored, kind, rels[..n], key);
      assert forall rel :: rel in rels <==> rel in rels[..n] || rel == rels[n];
    }
  }

  /**
   The blind-spot check: construction followed by search. On a sound answer it succeeds, reports no
   ignored topic, and reports every node without edges to follow exactly once. The result is the list
   of the reported vertices in the order of discovery.
   */
  method BlindSpotCheck(ignored: Ignored, resp: Response) returns (r: Option<seq<MemberProxy>>)
    ensures r.Some? <==> Answerable(ignored, resp)
    ensures r.Some? ==> r.value == BlindSpots(FullGraph(ignored, resp))
    ensures Sound(ignored, resp) ==>
              && r.Some?
              && (forall p :: p in r.value ==> !ignored.Has(p.key))
              && (forall k :: k in resp.active && OnlyIgnoredTargets(ignored, resp, k)
                              ==> multiset(r.value)[MemberProxy(k, false)] == 1)
              && (forall order :: Discovered(FullGraph(ignored, resp), order)
                                  ==> r.value == Reports(FullGraph(ignored, resp), [], order))
  {
    hide *;
    var view := GetFullGraphView(ignored, resp);
    if view == None {
      r := None;
    } else {
      var reports := GetBlindspots(view.value);
      r := Some(reports);
    }
    if Sound(ignored, resp) {
      SoundIsAnswerable(ignored, resp);
      IgnoredNeverReported(ignored, resp);
      forall k | k in resp.active && OnlyIgnoredTargets(ignored, resp, k)
        ensures multiset(BlindSpots(FullGraph(ignored, resp)))[MemberProxy(k, false)] == 1
      {
        QuietNodeReported(ignored, resp, k);
      }
      GraphIsUnique(ignored, resp);
      forall order | Discovered(FullGraph(ignored, resp), order)
        ensures BlindSpots(FullGraph(ignored, resp)) == Reports(FullGraph(ignored, resp), [], order)
      {
        BlindSpotsExactly(FullGraph(ignored, resp), order);
      }
    }
  }
}

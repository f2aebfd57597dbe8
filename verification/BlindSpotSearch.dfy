/**
 The blind-spot search: a depth-first search that consumes a shared adjacency list, erasing each
 vertex as it visits it, carries the current path by value, and reports the vertices at which the
 path ends or closes on itself.
 */
module BlindSpotSearch {
  import opened Sequences
  import opened GraphViews

  datatype Outcome = Outcome(graph: GraphView, reports: seq<MemberProxy>)

  /** The test made on entry to a vertex: no way out, or a single way out that leads back into the path. */
  predicate EndsHere(current: MemberConnections, path: seq<MemberProxy>) {
    |current.connections| == 0
    || (|current.connections| == 1 && current.connections[0].key in KeysOf(path))
  }

  /** What one visit leaves of the graph, and what it reports. */
  function Explore(g: GraphView, current: MemberConnections, path: seq<MemberProxy>): (o: Outcome)
    ensures |o.graph| <= |g|
    decreases |g|, |current.connections|, 1
  {
    if EndsHere(current, path) then Outcome(g, [current.member])
    else ExploreEdges(g, current.connections, path + [current.member])
  }

  function ExploreEdges(g: GraphView, edges: seq<MemberProxy>, path: seq<MemberProxy>): (o: Outcome)
    ensures |o.graph| <= |g|
    decreases |g|, |edges|, 0
  {
    if edges == [] then Outcome(g, [])
    else
      var i := FindVertex(g, edges[0].key);
      if i == |g| then ExploreEdges(g, edges[1..], path)
      else
        var o := Explore(RemoveAt(g, i), g[i], path);
        var rest := ExploreEdges(o.graph, edges[1..], path);
        Outcome(rest.graph, o.reports + rest.reports)
  }

  lemma NoEdges(g: GraphView, path: seq<MemberProxy>)
    ensures ExploreEdges(g, [], path) == Outcome(g, [])
  {
  }

  lemma SkipEdge(g: GraphView, edges: seq<MemberProxy>, path: seq<MemberProxy>)
    requires edges != [] && FindVertex(g, edges[0].key) == |g|
    ensures ExploreEdges(g, edges, path) == ExploreEdges(g, edges[1..], path)
  {
  }

  lemma FollowEdge(g: GraphView, edges: seq<MemberProxy>, path: seq<MemberProxy>, i: nat)
    requires edges != [] && i == FindVertex(g, edges[0].key) < |g|
    ensures var o := Explore(RemoveAt(g, i), g[i], path);
            var rest := ExploreEdges(o.graph, edges[1..], path);
            ExploreEdges(g, edges, path) == Outcome(rest.graph, o.reports + rest.reports)
  {
  }

  /** Searches are started from the back of the list until no vertex is left. */
  function BlindSpots(g: GraphView): (reports: seq<MemberProxy>)
    decreases |g|
  {
    if g == [] then []
    else
      var o := Explore(g[..|g| - 1], g[|g| - 1], []);
      o.reports + BlindSpots(o.graph)
  }

  /** The search as the program runs it, over a graph and a result list that every call shares. */
  class Search {
    var graph: GraphView
    var blindSpots: seq<MemberProxy>

    constructor (g: GraphView)
      ensures graph == g && blindSpots == []
    {
      graph, blindSpots := g, [];
    }

    method Visit(current: MemberConnections, path: seq<MemberProxy>)
      modifies this
      ensures graph == Explore(old(graph), current, path).graph
      ensures blindSpots == old(blindSpots) + Explore(old(graph), current, path).reports
      decreases |graph|
    {
      if |current.connections| == 0
         || (|current.connections| == 1 && current.connections[0].key in KeysOf(path))
      {
        blindSpots := blindSpots + [current.member];
        return;
      }
      var currentPath := path + [current.member];
      ghost var whole := ExploreEdges(graph, current.connections, currentPath);
      assert whole == Explore(graph, current, path);
      hide *;

      var n := 0;
      assert current.connections[n..] == current.connections;
      while n < |current.connections|
        invariant 0 <= n <= |current.connections|
        invariant |graph| <= |old(graph)|
        invariant whole.graph == ExploreEdges(graph, current.connections[n..], currentPath).graph
        invariant old(blindSpots) + whole.reports
               == blindSpots + ExploreEdges(graph, current.connections[n..], currentPath).reports
      {
        ghost var edges := current.connections[n..];
        assert edges[0] == current.connections[n] && edges[1..] == current.connections[n + 1..];
        var it := FindVertex(graph, current.connections[n].key);
        n := n + 1;
        if it == |graph| {
          SkipEdge(graph, edges, currentPath);
          continue;
        }
        FollowEdge(graph, edges, currentPath, it);
        var vertex := graph[it];
        graph := RemoveAt(graph, it);
        ghost var o, found := Explore(graph, vertex, currentPath), blindSpots;
        ghost var rest := ExploreEdges(o.graph, current.connections[n..], currentPath);
        assert found + (o.reports + rest.reports) == (found + o.reports) + rest.reports;
        Visit(vertex, currentPath);
      }
      NoEdges(graph, currentPath);
      assert current.connections[n..] == [];
    }
  }

  method GetBlindspots(g: GraphView) returns (blindspots: seq<MemberProxy>)
    ensures blindspots == BlindSpots(g)
  {
    hide Explore, ExploreEdges, BlindSpots;
    var search := new Search(g);
    NextSearch(g);
    while search.graph != []
      invariant fresh(search)
      invariant BlindSpots(g) == search.blindSpots + BlindSpots(search.graph)
      decreases |search.graph|
    {
      NextSearch(search.graph);
      var vertex := search.graph[|search.graph| - 1];
      search.graph := search.graph[..|search.graph| - 1];
      ghost var o, done := Explore(search.graph, vertex, []), search.blindSpots;
      search.Visit(vertex, []);
      ReportsJoin(done, o.reports, BlindSpots(o.graph));
    }
    NextSearch([]);
    blindspots := search.blindSpots;
  }

  lemma NextSearch(g: GraphView)
    ensures g == [] ==> BlindSpots(g) == []
    ensures g != [] ==>
              var o := Explore(g[..|g| - 1], g[|g| - 1], []);
              BlindSpots(g) == o.reports + BlindSpots(o.graph) && |o.graph| < |g|
  {
    hide Explore;
  }

  lemma ReportsJoin(a: seq<MemberProxy>, b: seq<MemberProxy>, c: seq<MemberProxy>)
    ensures a + (b + c) == (a + b) + c
  {
  }
}

# STREAM-FDL: a verified model

STREAM-FDL watches a ROS 2 system for faults. This project models its algorithmic core in Dafny and
proves what that core does, on all inputs and over whole runs:

- **Blind-spot search.** A depth-first search consumes a shared adjacency list and reports the
  vertices where a path ends or closes on itself. `GraphViews` holds the graphs and reachability,
  `BlindSpotSearch` the search, `BlindSpotTheorems` what a visit consumes, `BlindSpotReports` what is
  reported on all graphs and on acyclic ones, `SingleEdgeGraphs` what is reported where the search
  meets only vertices with at most one outgoing edge. `DiscoveryOrders` fixes the order in which vertices
  are discovered by a rule, and `ExactReports` the exact result of the search on every graph with unique
  keys. `GraphConstruction` is how the graph is built from a query answer.
- **Fault detector.** `CircularBuffers` is the sample buffer, `Statistics` the three-sigma rule over
  exact reals, `FaultDetection` the attribute windows and the loop for one member, `DetectionRuns`
  whole runs of that loop.
- **Handles and collector.** `HandleRuns` is the interleaved transition system with its accounting
  law, `HandleSafety` what the law means for the collector, `MemberPtrs` the counting handle on the
  heap, `Stores` the doubly linked list and the sweep, `DataStores` lookup and collection as steps of
  the transition system, `Sessions` whole sessions of a client with all of these on the heap.
- **Main loop.** `Investigations` is the flag driven by the running mean of alerts, `UpdateQueues` the
  grouped update queue between two threads.

Imperative code is modelled imperatively (classes, loops, heap-linked elements). The search, buffer,
detector, investigation and queue methods are proved against functions of their inputs or of the old
state, and the results are lemmas about those functions. The handle methods are proved against the
transition system: whatever state of `HandleRuns` the heap mirrors before a call (the counter object
of every stored entry, the target of every live handle object), it mirrors the next state afterwards.
The empty store mirrors the first state (`DataStores.EmptyStore`), so every session, whatever sequence
of lookups, handle operations and collections it consists of, is a run that the heap mirrors, and the
laws proved over all runs hold of its objects (`Sessions.Perform`). `Wrappers` and `Sequences` hold
shared definitions.

## What the code does, where its comments suggest otherwise

The model follows the code. The following are consequences of the code as written, each proved.

- The configured size does not bound a sample buffer: `push` inserts and never drops. A window equals
  its size in exactly one iteration, so a member that stays watched is judged once, unless the main
  loop clears the windows (`DetectionRuns.JudgedOnce`), and the alert mean is taken over all iterations so far
  (`Investigations.FlagTheorem`), whatever `nr-normalisation-values` says. A buffer's mean is that of a
  sliding window, whatever the samples, exactly up to that number of pushes
  (`CircularBuffers.MeanIsWindowMeanIff`), and its verdict exactly up to that number or ten
  (`CircularBuffers.VerdictIsWindowVerdictIff`).
- With at most ten samples, the strict three-sigma rule can never mark a sample of its own window.
  `example-config.json` sets the window size to ten, and with it only nodes that are not alive are ever
  reported (`DetectionRuns.SmallWindowsOnlyReportDeath`). Eleven is the least size that can mark
  anything (`Statistics.ElevenIsTheThreshold`).
- What is reported on a cycle depends on where the search enters it; the exact list, for every graph
  with unique keys, is in `ExactReports.ExactResult`.
- A self-loop is not found by the search, although longer cycles of single edges are, whatever leads
  into them (`SingleEdgeGraphs.CycleRepresentedOnce`); with two or more edges everywhere nothing is reported
  (`BlindSpotReports.NoSingleEdgesNoReports`).
- The send rows of a query answer are not tested for ignored topics, unlike the other two kinds. A node
  that sends to an ignored topic gets an edge to a vertex that is not there
  (`GraphConstruction.SendToIgnoredDangles`, and exactly then: `GraphConstruction.EdgesStayIff`), and
  if it leads nowhere else it is not reported, as it would be without that edge
  (`GraphConstruction.QuietNodeReportedIff`).
- A cache hit makes a handle that nothing counts, against the note in the handle's constructor, and
  can leave a handle on an erased entry (`HandleSafety.HitLeavesDanglingHandle`, and on the heap
  `Sessions.SecondLookUpDangles`). A run is free of
  such handles exactly when every erasure meets a condition on the events before it
  (`HandleSafety.NeverDanglesIff`). An assignment over a live handle leaves the old count behind, and
  without cache hits its entry is then never erased (`HandleSafety.OverwrittenNeverErased`).
- Erasing the first or last list entry leaves the list's own ends behind; the list stays well formed
  exactly when the erased entry is interior (`Stores.DoubleLinkedList.Erase`,
  `Stores.DoubleLinkedList.Sweep`).
- `current(offset)` takes the remainder of an unsigned number, so for negative sums it is the
  Euclidean remainder only when the size divides 2^64 (`CircularBuffers.OffsetTheorem`); three elements
  are an instance (`CircularBuffers.StepBackMisses`).

## Model

| member | source | states |
|---|---|---|
| `BlindSpotSearch.Search.Visit` | src/dynamic-subgraph/dynamic-subgraph.cpp:96-141 | The recursive search on the shared graph and result list: what is left of the graph and what is appended equal the outcome of `Explore` on the old graph; it terminates because the graph shrinks before each recursive call |
| `BlindSpotSearch.GetBlindspots` | src/dynamic-subgraph/dynamic-subgraph.cpp:143-160 | Searches from the back of the list until it is empty return `BlindSpots` of the graph |
| `BlindSpotTheorems.WhitePathTheorem` | src/dynamic-subgraph/dynamic-subgraph.cpp:96-141 | With unique keys and a path disjoint from the graph, one visit removes exactly the vertices reachable from the current one through vertices in the graph on entry, and leaves the rest in order |
| `BlindSpotTheorems.ExploreConsumes` | src/dynamic-subgraph/dynamic-subgraph.cpp:122-140 | After a visit no edge leads from the current vertex or a removed one into what is left |
| `BlindSpotReports.ExploreAccounts` | src/dynamic-subgraph/dynamic-subgraph.cpp:111-140 | If every path member reaches the current vertex, a visit's reports are distinct, lie among the vertices it visits, include every sink visited, and each is a sink or lies on a cycle through its single edge |
| `BlindSpotReports.ReportTheorem` | src/dynamic-subgraph/dynamic-subgraph.cpp:111-160 | On every graph with unique keys: no vertex is reported twice, each sink is reported exactly once, each other reported vertex has one edge, to another vertex, and lies on a directed cycle through it |
| `ExactReports.ExactResult` | src/dynamic-subgraph/dynamic-subgraph.cpp:96-160 | On every graph with unique keys the result is determined position by position, without the search or its path: vertices are discovered one by one, the next being the first undiscovered target of the latest vertex that has one, or else the undiscovered vertex listed last; reported are, in that order, the vertices without edges and those whose only edge leads to an earlier vertex from which they could be reached through what was undiscovered when that one was |
| `ExactReports.ReportedIff` | src/dynamic-subgraph/dynamic-subgraph.cpp:111-120 | The same as an iff for each vertex of the order |
| `ExactReports.BlindSpotsExactly` | src/dynamic-subgraph/dynamic-subgraph.cpp:96-160 | For the one order that the rule admits, the result is the list of the reported vertices |
| `DiscoveryOrders.OrderExists` | src/dynamic-subgraph/dynamic-subgraph.cpp:122-160 | The rule of discovery has exactly one order for every graph with unique keys |
| `ExactReports.LoopsToVisitedReported` | src/dynamic-subgraph/dynamic-subgraph.cpp:111-140 | Every vertex that a visit removes and whose only edge leads to the visited vertex is among the visit's reports |
| `BlindSpotReports.NoSingleEdgesNoReports` | src/dynamic-subgraph/dynamic-subgraph.cpp:111-160 | If all vertices have two or more edges the result is empty, cycles or not |
| `BlindSpotReports.AcyclicReportsSinks` | src/dynamic-subgraph/dynamic-subgraph.cpp:111-160 | On an acyclic graph the result is a permutation of the vertices without outgoing edges |
| `BlindSpotReports.AcyclicOrderIndependent` | src/dynamic-subgraph/dynamic-subgraph.cpp:143-160 | On acyclic graphs two vertex orders give the same reports up to order |
| `SingleEdgeGraphs.ExploreResolves` | src/dynamic-subgraph/dynamic-subgraph.cpp:106-140 | In every graph with unique keys, for every part that no edge leaves and in which no vertex has two edges: each vertex of the part that a visit removes leads to a vertex it reports, gets stuck, or leads to a vertex finished earlier |
| `SingleEdgeGraphs.ChainReportsOnce` | src/dynamic-subgraph/dynamic-subgraph.cpp:106-140 | A visit that starts inside such a part reports at most one vertex |
| `SingleEdgeGraphs.ReportsApart` | src/dynamic-subgraph/dynamic-subgraph.cpp:106-160 | In every graph with unique keys, a reported vertex from which only vertices with at most one edge can be reached reaches no other reported vertex |
| `SingleEdgeGraphs.RepresentedOnce` | src/dynamic-subgraph/dynamic-subgraph.cpp:106-160 | In every graph with unique keys, a vertex from which only vertices with at most one edge can be reached reaches exactly one reported vertex, or none precisely when its walk runs into a self-loop or a dangling edge |
| `SingleEdgeGraphs.CycleRepresentedOnce` | src/dynamic-subgraph/dynamic-subgraph.cpp:106-160 | In every graph with unique keys, a directed cycle of single edges holds exactly one reported vertex, unless it is a self-loop, which holds none |
| `SingleEdgeGraphs.ChainReportCount` | src/dynamic-subgraph/dynamic-subgraph.cpp:143-160 | For two orders of the same vertices, any graph with unique keys, equally many reported vertices reach only vertices with at most one edge, although they may be different vertices of a cycle |
| `SingleEdgeGraphs.ReportCountOrderIndependent` | src/dynamic-subgraph/dynamic-subgraph.cpp:143-160 | With at most one edge per vertex two orders of the vertex list give equally many reports |
| `SingleEdgeGraphs.EveryVertexRepresented` | src/dynamic-subgraph/dynamic-subgraph.cpp:106-160 | With at most one edge per vertex, and without self-loops and dangling edges, every vertex reaches exactly one reported vertex |
| `GraphConstruction.ListVertices` | src/dynamic-subgraph/data-store.cpp:250-267 | Vertices are all nodes, then the topics that are not ignored, without edges |
| `GraphConstruction.AddEdges` | src/dynamic-subgraph/data-store.cpp:269-332 | An edge loop succeeds exactly when every kept row starts at a listed vertex, and then appends each kept row's edge to the first vertex with its key, in row order |
| `GraphConstruction.GetFullGraphView` | src/dynamic-subgraph/data-store.cpp:250-335 | For every answer: succeeds exactly when all kept rows have listed origins, and then returns each vertex with its sub, pub and send edges in that order |
| `GraphConstruction.VerticesAre` | src/dynamic-subgraph/data-store.cpp:250-267 | For every answer: all nodes in order, then as topics, in order, the keys that are neither of the two ignored ones |
| `GraphConstruction.EdgesAreRows` | src/dynamic-subgraph/data-store.cpp:269-332 | For every answer: the first vertex of a key has, in this order and in row order, an edge to a node for each non-null sub row that starts there unless its key is ignored, an edge to a topic for each non-null pub row unless it ends at an ignored key, and an edge to a node for each non-null send row |
| `GraphConstruction.AnswerableIff` | src/dynamic-subgraph/data-store.cpp:269-332 | The construction succeeds if and only if each of these rows starts at a node or at a topic that is not ignored |
| `GraphConstruction.ConstructionTheorem` | src/dynamic-subgraph/data-store.cpp:250-335 | On answers with distinct, disjoint keys, no node key ignored, and rows between the kinds of member the query names (send rows from a node to any listed member): unique keys, each vertex holds exactly its non-null rows, without those of the sub and pub kinds that touch an ignored topic, and an edge dangles exactly when it leads to an ignored topic |
| `GraphConstruction.RowsAreEdges` | src/dynamic-subgraph/data-store.cpp:269-332 | On sound answers each of these rows is an edge, and each edge is one of these rows, with the tests on the two keys written out |
| `GraphConstruction.EdgesStayIff` | src/dynamic-subgraph/data-store.cpp:314-332 | On such answers no edge of the graph dangles if and only if no non-null send row leads to an ignored topic |
| `GraphConstruction.SendToIgnoredDangles` | src/dynamic-subgraph/data-store.cpp:314-332 | A concrete such answer, one node sending to one ignored topic, whose graph has a dangling edge and whose node is not reported |
| `GraphConstruction.IgnoredNeverReported` | src/dynamic-subgraph/data-store.cpp:259-267 | On such answers an ignored topic is never reported as a blind spot |
| `GraphConstruction.QuietNodeReported` | src/dynamic-subgraph/data-store.cpp:292-313 | A node has no edges exactly when it has no sub and no send rows and publishes only to ignored topics, and is then reported exactly once |
| `GraphConstruction.QuietNodeReportedIff` | src/dynamic-subgraph/data-store.cpp:292-332 | A node all of whose rows lead to ignored topics is reported once if it has no send row, and never if it has one |
| `GraphConstruction.BlindSpotCheck` | src/dynamic-subgraph/dynamic-subgraph.cpp:162-168 | Construction followed by search, with these results: on sound answers no ignored topic is reported, each node without edges to follow is reported once, and the result is the list of reported vertices in the order of discovery |
| `CircularBuffers.CircularBuffer.Push` | src/fault-detection/circular-buffer.cpp:59-72 | The value goes in front, nothing is dropped, and the current element is the new one |
| `CircularBuffers.CircularBuffer.PushAll` | src/fault-detection/circular-buffer.cpp:59-72 | A run of pushes leaves the reversed history in front; from empty, the buffer is full exactly when the number of pushes is the maximum size |
| `CircularBuffers.ReversedAt` | src/fault-detection/circular-buffer.cpp:59-72 | The sample at position k of the buffer is the k-th latest pushed |
| `CircularBuffers.CircularBuffer.GetMean` | src/fault-detection/circular-buffer.cpp:89-105 | The loop returns the arithmetic mean |
| `CircularBuffers.CircularBuffer.GetStdDev` | src/fault-detection/circular-buffer.cpp:107-133 | The loop returns the root of the mean squared distance from the given mean |
| `CircularBuffers.CircularBuffer.CurrentAt` | src/fault-detection/circular-buffer.cpp:74-87 | The index is in range, the remainder for non-negative offsets, and for negative ones the Euclidean remainder exactly when the size divides 2^64 |
| `CircularBuffers.OffsetTheorem` | src/fault-detection/circular-buffer.cpp:78-86 | The same for every 64-bit sum, with the signed-to-unsigned conversion written out |
| `CircularBuffers.StepBackMisses` | src/fault-detection/circular-buffer.cpp:78-86 | One step back from the front of three elements computes index 0, not 2 |
| `CircularBuffers.BufferIsSlidingWindow` | src/fault-detection/circular-buffer.cpp:59-133 | Up to the maximum number of pushes mean, variance and verdict equal those of a sliding window of that size |
| `CircularBuffers.MeanIsWindowMeanIff` | src/fault-detection/circular-buffer.cpp:59-105 | After n pushes the buffer's mean is that of a sliding window for every history of n samples if and only if n is at most the window's size |
| `CircularBuffers.OldSpikeSeparates` | src/fault-detection/circular-buffer.cpp:59-105 | For every longer history length, the history of a one followed by zeros has different means |
| `CircularBuffers.VerdictIsWindowVerdictIff` | src/fault-detection/circular-buffer.cpp:59-133 | After n pushes the buffer's three-sigma verdict on the newest sample is that of a sliding window for every history of n samples if and only if n is at most the window's size or at most ten |
| `Statistics.ThreeSigmaSquared` | src/fault-detection/fault-detection.cpp:137-138 | Lying outside mean plus or minus three deviations is a comparison of squares |
| `Statistics.Samuelson` | src/fault-detection/circular-buffer.cpp:89-120 | In a window of n samples every squared distance from the mean is at most n-1 variances |
| `Statistics.SmallWindowsNeverFire` | src/fault-detection/fault-detection.cpp:133-139 | With at most ten samples no sample of the window is marked |
| `Statistics.SpikeFires` | src/fault-detection/fault-detection.cpp:133-139 | For every size from eleven on, one spike among zeros is marked |
| `Statistics.ElevenIsTheThreshold` | src/fault-detection/fault-detection.cpp:133-139 | Some window of n samples is marked if and only if n is at least eleven |
| `Statistics.FewOutliers` | src/fault-detection/fault-detection.cpp:133-139 | Nine times the number of samples that would be marked is less than the number of samples |
| `Statistics.OutlierBoundIsTight` | src/fault-detection/fault-detection.cpp:133-139 | For every even k, some window of n samples has exactly k that would be marked if and only if nine times k is less than n |
| `Statistics.OrderDoesNotMatter` | src/fault-detection/circular-buffer.cpp:89-120 | Mean, variance and verdict depend only on the multiset of samples and the current value |
| `Statistics.ScaleDoesNotMatter` | src/fault-detection/fault-detection.cpp:133-139 | The verdict is unchanged when every sample x becomes a*x+b with a not zero |
| `FaultDetection.CreateAttrWindow` | src/fault-detection/fault-detection.cpp:92-107 | One buffer per attribute, in order, holding its value |
| `FaultDetection.AttributeWindow.Update` | src/fault-detection/fault-detection.cpp:109-115 | Succeeds exactly when every attribute has a buffer, and then each buffer has its attribute's value in front |
| `DetectionRuns.UpdatedByMapping` | src/fault-detection/fault-detection.cpp:109-115 | On any window, an update puts the value of each attribute of the mapping in front of the buffer of its name and changes no other buffer |
| `FaultDetection.OutsideBand` | src/fault-detection/fault-detection.cpp:133-138 | The comparison with the computed deviation decides the square-root-free rule |
| `FaultDetection.AttributeWindow.DetectFaults` | src/fault-detection/fault-detection.cpp:117-142 | A node that is not alive is at fault with no attributes named; otherwise exactly the attributes outside their band are named, in order, and there is a fault if there are any |
| `FaultDetection.AffectedPositions` | src/fault-detection/fault-detection.cpp:126-140 | The names in an alert are those of the marked buffers, each once, in the window's order |
| `FaultDetection.Monitor.Iterate` | src/fault-detection/fault-detection.cpp:30-72 | For every mapping: fails exactly when a new window gets no attribute or an old one lacks a name; otherwise one iteration for one member takes the step of the run function, a clearing of the windows included, and appends an alert exactly for a verdict of fault; a failed iteration adds no alert |
| `FaultDetection.Monitor.Reset` | src/fault-detection/fault-detection.hpp:53-56 | The window is gone and the alerts stay |
| `FaultDetection.Monitor.GetEmittedAlerts` | src/fault-detection/fault-detection.cpp:80-90 | Returns all alerts and leaves none |
| `DetectionRuns.WindowTheorem` | src/fault-detection/fault-detection.cpp:30-54 | In every run with constant attribute names the window holds, per attribute, exactly the values read since it was last given up or cleared, newest in front |
| `DetectionRuns.ParallelGrowth` | src/fault-detection/fault-detection.cpp:47-54 | In every such run all buffers of the window have the same, positive size |
| `DetectionRuns.VerdictTheorem` | src/fault-detection/fault-detection.cpp:43-72 | A verdict is asked for exactly when the kept values number the window size, and it is the verdict of a sliding window over the last values read |
| `DetectionRuns.VerdictNames` | src/fault-detection/fault-detection.cpp:126-140 | The names in a verdict on a living node are, each once and in their order, the attributes that the sliding-window rule marks |
| `DetectionRuns.SmallWindowsOnlyReportDeath` | src/fault-detection/fault-detection.cpp:117-142 | With a window size of at most ten every verdict in every run is fault if and only if the node is not alive, and names no attribute |
| `DetectionRuns.JudgedOnce` | src/fault-detection/fault-detection.cpp:43-72 | A member watched throughout and never given up is judged exactly in the iteration numbered by the window size, counted from the last clearing of the windows |
| `DetectionRuns.JudgedPeriodically` | src/fault-detection/fault-detection.cpp:65-71 | A member given up after each verdict and watched again is judged exactly in the multiples of the window size, counted from the last clearing of the windows |
| `DetectionRuns.AlertPositions` | src/fault-detection/fault-detection.cpp:55-63 | The alerts of a run are, in order, one for each verdict of fault, with its names |
| `DetectionRuns.SmallWindowsAlertsAreDeaths` | src/fault-detection/fault-detection.cpp:55-63 | With a window size of at most ten no alert of any such run names an attribute, and a member that stays alive raises none |
| `DetectionRuns.AtMostOneAlert` | src/fault-detection/fault-detection.cpp:43-63 | A member watched throughout and never given up raises at most one alert, one more for each clearing of the windows, and none before the window is full |
| `DetectionRuns.Watch` | src/fault-detection/fault-detection.cpp:19-78 | The whole loop over windows and buffers on the heap raises exactly the alerts of the run function, with the two bounds above |
| `MemberPtrs.AtomicCounter.Decrease` | src/dynamic-subgraph/atomic-counter.cpp:13-18 | One less, but not below zero |
| `MemberPtrs.AtomicCounter.NonZero` | src/dynamic-subgraph/atomic-counter.cpp:26-30 | Whether the counter is positive |
| `Stores.DoubleLinkedList.EmplaceBack` | src/dynamic-subgraph/double-linked-list.cpp:111-137 | Appends an entry with counter one and keeps all links and ends well formed |
| `Stores.DoubleLinkedList.Erase` | src/dynamic-subgraph/double-linked-list.cpp:139-154 | Removes the entry from the sequence, keeps the remaining links well formed, returns the successor; the list stays valid exactly when the entry was neither first nor last |
| `Stores.DoubleLinkedList.Find` | src/dynamic-subgraph/double-linked-list.cpp:156-164 | The first entry with the key, or nothing when there is none |
| `Stores.DoubleLinkedList.Sweep` | src/dynamic-subgraph/data-store.cpp:449-464 | The old list filtered to non-zero counters, in order, one unsubscription per removed entry; valid afterwards exactly when the list was empty or its first and last entries were in use |
| `Stores.InUsePositions` | src/dynamic-subgraph/data-store.cpp:449-456 | The entries a sweep keeps are those in use, each once, in order |
| `Stores.UnusedPositions` | src/dynamic-subgraph/data-store.cpp:457-463 | The ids a sweep unsubscribes are those of the other entries, each once, in order |
| `Stores.SweptEnds` | src/dynamic-subgraph/double-linked-list.cpp:139-154 | The old ends are the ends of the filtered list exactly when both were kept |
| `Stores.DoubleLinkedList.Destroy` | src/dynamic-subgraph/double-linked-list.cpp:86-109 | The walk deletes every entry once, in order, and its two assertions hold |
| `MemberPtrs.MemberPtr.constructor` | src/dynamic-subgraph/member-base.hpp:80-82 | An empty handle; the heap takes the step of a default construction |
| `MemberPtrs.MemberPtr.Adopt` | src/dynamic-subgraph/member-base.cpp:39-46 | A handle on the entry with no counter touched; the heap takes the step of a handle received after a request, or of a cache hit |
| `MemberPtrs.MemberPtr.CopyOf` | src/dynamic-subgraph/member-base.cpp:58-69 | Same target, counted once more; the heap takes the step of a copy, also when the target was erased |
| `MemberPtrs.MemberPtr.MoveFrom` | src/dynamic-subgraph/member-base.cpp:86-98 | Takes the target, empties the source, no counter touched; the heap takes the step of a move |
| `MemberPtrs.MemberPtr.CopyAssign` | src/dynamic-subgraph/member-base.cpp:71-84 | New target counted once more, old target not counted down; the heap takes the step of a copy assignment, self-assignment included |
| `MemberPtrs.MemberPtr.MoveAssign` | src/dynamic-subgraph/member-base.cpp:100-114 | Target taken over, source emptied, no counter touched; the heap takes the step of a move assignment, by which a handle moved onto itself ends up empty |
| `MemberPtrs.MemberPtr.Destroy` | src/dynamic-subgraph/member-base.cpp:48-56 | Counts down, saturating at zero; the heap takes the step of a destruction, after which the handle is no longer live and cannot be destroyed again |
| `MemberPtrs.HeapAccounting` | src/dynamic-subgraph/member-base.cpp:39-114 | After every run the heap mirrors, per stored entry: value of the counter object + cache hits = live handle objects whose target is the entry + the one owed + assignments over a handle on it + destructions at zero |
| `MemberPtrs.HeapHandlesAreSafe` | src/dynamic-subgraph/member-base.cpp:39-114 | After every run without cache hits each live handle object is empty or its target is stored with a positive counter object |
| `DataStores.EmptyStore` | src/dynamic-subgraph/double-linked-list.cpp:80-84 | The empty list mirrors the state in which every run begins |
| `DataStores.RequestMember` | src/dynamic-subgraph/data-store.cpp:89-122 | Appends a new entry with the given key, the id of the request and counter one, and returns a handle on it; heap and list take the two steps of a request, and the list stays well formed |
| `DataStores.GetMember` | src/dynamic-subgraph/data-store.cpp:55-64 | A hit gives a handle on the first entry with the key and moves no counter, as the step of a cache hit; a miss requests the member under the given id |
| `DataStores.SweepIsRun` | src/dynamic-subgraph/data-store.cpp:449-464 | From every reachable state one pass of checks and erasures over the stored entries is a run, and its outcome lacks exactly the entries with a zero counter |
| `DataStores.SweepEventPositions` | src/dynamic-subgraph/data-store.cpp:449-464 | The events of a pass are one check per stored entry, in order, each followed by an erasure exactly when the entry is not in use |
| `DataStores.Collect` | src/dynamic-subgraph/data-store.cpp:449-464 | The sweep of the linked list takes heap and list through that run, keeps the remaining entries linked and in order, and returns one unsubscription per entry erased; the list's ends fit afterwards exactly when its first and last entries were in use |
| `Sessions.LookUpMember` | src/dynamic-subgraph/data-store.cpp:55-64 | A lookup in a session is one step, a cache hit on the first entry with the key, if there is one, and otherwise the two steps of a request, whose entry carries the given id; the session goes on |
| `Sessions.CollectStore` | src/dynamic-subgraph/data-store.cpp:449-464 | A collection in a session performs the checks and erasures of one pass, keeps the entries with a positive counter in order, and unsubscribes the ids of the others; the session goes on, with the list intact exactly when its first and last entries were in use |
| `Sessions.Do` | src/dynamic-subgraph/member-base.cpp:48-114 | Every operation of a client performs exactly its events, or none if it does not apply, changes client and list as it should, and leaves a session that can go on; only new objects come under its control |
| `Sessions.Perform` | src/dynamic-subgraph/data-store.cpp:55-64 | For every sequence of lookups, handle operations and collections from the empty store, every operation does what it should, the events performed are a run that the heap mirrors, the accounting law holds of the counter object of every entry in the list, and if no lookup was a cache hit every handle held is empty or points to an entry in the list with a positive counter |
| `Sessions.LookUpsTakeEffect` | src/dynamic-subgraph/data-store.cpp:55-64 | In a session with the list's ends in place no lookup is skipped: it hits the first entry of its key, or stores a new one at the end under its id, and fills one slot |
| `Sessions.OperationsTakeEffect` | src/dynamic-subgraph/member-base.cpp:48-114 | No handle operation on filled slots is skipped: each is the one event it asks for |
| `Sessions.CollectionKeeps` | src/dynamic-subgraph/data-store.cpp:449-456 | In every session a collection keeps exactly the entries with a positive counter, in order, and the list stays intact exactly when the first and the last are among them |
| `Sessions.CollectionChecks` | src/dynamic-subgraph/data-store.cpp:449-464 | Its events are one check per entry, in order, each followed by an erasure exactly when the counter is zero |
| `Sessions.CollectionUnsubscribes` | src/dynamic-subgraph/data-store.cpp:457-463 | It unsubscribes the ids of the entries with a zero counter, in order, and no others |
| `Sessions.CollectionLeavesUsed` | src/dynamic-subgraph/data-store.cpp:449-464 | Afterwards no entry in the list has a zero counter |
| `Sessions.UnsubscribedAsRequested` | src/dynamic-subgraph/data-store.cpp:458-463 | Over a whole session each id that a collection unsubscribes is the one under which an earlier lookup requested the entry erased, one for one |
| `Sessions.ErasedOnceInSession` | src/dynamic-subgraph/data-store.cpp:463 | No entry is erased twice in a session, so no request is unsubscribed twice |
| `Sessions.SecondLookUpDangles` | src/dynamic-subgraph/data-store.cpp:59-61 | A concrete session on the heap, two lookups of one member, release of the first handle and a collection, after which the second handle points to an entry that is not in the list |
| `HandleRuns.AccountingTheorem` | src/dynamic-subgraph/member-base.cpp:39-114 | In every run, per entry in the store: counter + cache-hit handles = live handles + overwritten handles + saturated decreases |
| `HandleRuns.AccountingOverEvents` | src/dynamic-subgraph/member-base.cpp:39-114 | The law with every term read off the run: hits, assignments over a handle on the entry and destructions at zero are counted among its events |
| `HandleRuns.RecordsAreEvents` | src/dynamic-subgraph/atomic-counter.cpp:13-18 | The three records kept in the state are those numbers of events |
| `HandleRuns.StepBalance` | src/dynamic-subgraph/member-base.cpp:48-114 | Every step keeps the two sides of the law the same distance apart |
| `HandleRuns.MoveAssignBalance` | src/dynamic-subgraph/member-base.cpp:100-114 | The law under move assignment, onto itself included |
| `HandleSafety.SafetyTheorem` | src/dynamic-subgraph/data-store.cpp:449-480 | After every run without cache hits: no handle dangles, no decrease has saturated, and what the collector has condemned still has a zero counter |
| `HandleSafety.ErasesOnlyUnused` | src/dynamic-subgraph/data-store.cpp:449-464 | In such runs the collector never erases an entry with a live handle, although it checks outside the lock |
| `HandleSafety.NoUseAfterErase` | src/dynamic-subgraph/member-base.cpp:48-84 | In such runs no copy, assignment, destruction or check touches the counter of an erased entry |
| `HandleSafety.ErasedOnce` | src/dynamic-subgraph/data-store.cpp:449-464 | In any run an entry is erased at most once |
| `HandleSafety.ZeroStaysZero` | src/dynamic-subgraph/data-store.cpp:451-463 | In such runs a counter that has become zero stays zero |
| `HandleSafety.OverwrittenNeverErased` | src/dynamic-subgraph/member-base.cpp:71-114 | In such runs an entry of which a live handle was overwritten is never erased |
| `HandleSafety.CounterIsExact` | src/dynamic-subgraph/member-base.cpp:48-114 | In such runs the counter is the number of live handles exactly when none was overwritten |
| `HandleSafety.ErasedUnderHandle` | src/dynamic-subgraph/data-store.cpp:59-61 | In any run an erased entry had a live handle exactly when its counter plus the cache hits so far exceed the overwriting assignments plus the destructions at zero so far |
| `HandleSafety.NeverDanglesIff` | src/dynamic-subgraph/data-store.cpp:449-480 | In any run no handle dangles after any prefix if and only if at every erasure the entry's counter plus the cache hits so far equal the overwriting assignments plus the destructions at zero so far |
| `HandleSafety.HitLeavesDanglingHandle` | src/dynamic-subgraph/data-store.cpp:59-61 | The run of six events, creation, first handle, one cache hit, destruction of the first handle, check and erasure, leaves the second handle pointing to the erased entry |
| `Investigations.Investigation.CheckAbortCriteria` | src/dynamic-subgraph/dynamic-subgraph.cpp:187-209 | Asks for an abort exactly when an investigation is open and the mean has fallen to the threshold; opens one when the mean exceeds it |
| `Investigations.Investigation.Iterate` | src/dynamic-subgraph/dynamic-subgraph.cpp:64-80 | One main-loop iteration takes the flag one step further, reports exactly the aborts, and raises the flag exactly at the starts |
| `Investigations.StartsAndAbortsAreEdges` | src/dynamic-subgraph/dynamic-subgraph.cpp:198-208 | The start test (nothing open, mean above the threshold) and the abort test (something open, mean not above it) hold exactly where the flag rises and falls |
| `Investigations.StartsAndAbortsByTotals` | src/dynamic-subgraph/dynamic-subgraph.cpp:187-209 | An iteration starts or aborts exactly when the total of alerts crosses threshold times iterations upwards or downwards |
| `Investigations.FlagTheorem` | src/dynamic-subgraph/dynamic-subgraph.cpp:187-209 | After every iteration t the flag is set if and only if all alerts so far exceed threshold times t |
| `Investigations.StartsAndAbortsAlternate` | src/dynamic-subgraph/dynamic-subgraph.cpp:198-208 | By the program's start and abort tests: between two starts lies an abort; between two aborts, and before the first, lies a start |
| `Investigations.RestartNeedsAlerts` | src/dynamic-subgraph/dynamic-subgraph.cpp:194-208 | From an abort to a later start the new alerts exceed threshold times the iterations between |
| `Investigations.QuietInvestigationEnds` | src/dynamic-subgraph/dynamic-subgraph.cpp:207-208 | With a positive threshold and no further alerts an open investigation is aborted, exactly at the first later iteration where the total no longer exceeds threshold times iterations |
| `Investigations.NoThresholdNoAbort` | src/dynamic-subgraph/dynamic-subgraph.cpp:199-208 | With a threshold of zero or less nothing is ever aborted |
| `UpdateQueues.UpdateQueue.AddSubUpdate` | src/dynamic-subgraph/data-store.cpp:369-387 | Appends the topic to the node's entry, or opens one |
| `UpdateQueues.UpdateQueue.AddSendUpdate` | src/dynamic-subgraph/data-store.cpp:389-407 | Appends the node to the node's entry, or opens one |
| `UpdateQueues.UpdateQueue.AddPubUpdate` | src/dynamic-subgraph/data-store.cpp:409-427 | Appends the node to the topic's entry, or opens one |
| `UpdateQueues.UpdateQueue.GetUpdates` | src/dynamic-subgraph/data-store.cpp:429-438 | Returns the whole queue and leaves it empty |
| `UpdateQueues.Conservation` | src/dynamic-subgraph/data-store.cpp:369-438 | Over every interleaving of adds and drains, per key, the drained connections followed by the pending ones are the arrivals in order: the other member's key each time, as a topic for a subscription and as a node otherwise |
| `UpdateQueues.BatchesAreGrouped` | src/dynamic-subgraph/data-store.cpp:369-438 | No batch holds two entries with the same key or an entry without connections |
| `UpdateQueues.EntriesNameArrivals` | src/dynamic-subgraph/data-store.cpp:369-427 | The pending entries are, in order, those opened by the first arrival for each key since the last drain, and each carries the member that arrival names: its key, as a topic exactly for a publication |
| `UpdateQueues.BatchesWerePending` | src/dynamic-subgraph/data-store.cpp:429-438 | The batches are, one for each drain and in order, what was pending just before it |

## Left out

- Everything the program obtains from outside itself (server answers, attribute values, configuration): a parameter that may take any value.
- Machine arithmetic and time: sums, means and deviations are real numbers, and an iteration has no duration. The square root is a parameter assumed to be the non-negative root of non-negative numbers.
- `Watchlist`: whether a member is watched, and whether it is given up after a verdict, are inputs of each iteration.
- The detector's table of windows: the model follows the window of a single member.
- FaultDetection.Monitor.Iterate: says nothing about the window after a failed iteration, where the program reads past the end of an empty window or throws. The clearing of the windows by the main loop (`FaultDetection::reset`) happens between two iterations; it is not synchronised with the loop in the program.
- FaultDetection.AttributeWindow.DetectFaults: the alert's member handle, timestamp and severity are not modelled.
- CircularBuffers.CircularBuffer.Push: iterator invalidation is not modelled; positions are indices. The copying and moving of buffers is left out.
- HandleRuns.AccountingTheorem: a cache hit's lookup and the construction of its handle are one step, counters do not wrap around, and freed memory is not reused.
- Sessions.Perform: a single client; a list whose ends were left behind by a collection is not used again, because the program would follow a pointer to a deleted entry.
- DataStores.Collect: the pass is undisturbed by other threads; interleaved checks and erasures are covered by `HandleRuns` alone.
- HandleSafety.SafetyTheorem: the list links are not part of the interleaved state, and locks other than those of the counters are not modelled; `requestNode` takes the topics mutex while it changes the node list.
- DataStores.GetMember: the answer to a request is taken to describe the requested member; lookup by name and the attribute subscriptions are left out.
- Alerts drained after an abort (src/dynamic-subgraph/dynamic-subgraph.cpp:77-79) do not reach the running mean and are left out.
- `Graph`, `Node` and `Topic` update methods, `PluginManager`, `FaultTrajectoryExtraction`, `main`, the queue monitor and logging: user interface, input and output, or single appends with no property worth stating.

/**
 The queue of graph updates: connections grouped by the member they concern, added by one thread
 and drained by another. Each operation holds the queue's mutex from start to end.
 */
module UpdateQueues {
  import opened Sequences
  import opened GraphViews

  /** A node subscribes to a topic, a node sends to a node, a node publishes to the affected topic. */
  datatype Update =
    | SubUpdate(affected: PrimaryKey, other: PrimaryKey)
    | SendUpdate(affected: PrimaryKey, other: PrimaryKey)
    | PubUpdate(affected: PrimaryKey, other: PrimaryKey)
  {
    function Member(): MemberProxy {
      MemberProxy(affected, PubUpdate?)
    }

    function Connection(): MemberProxy {
      MemberProxy(other, SubUpdate?)
    }
  }

  /** The queue after an update: appended to the entry of its member, or in a new entry at the end. */
  function Enqueued(q: GraphView, u: Update): GraphView {
    var i := FindVertex(q, u.affected);
    if i == |q| then q + [MemberConnections(u.Member(), [u.Connection()])]
    else q[i := q[i].(connections := q[i].connections + [u.Connection()])]
  }

  class UpdateQueue {
    var updates: GraphView

    constructor ()
      ensures updates == []
    {
      updates := [];
    }

    method AddSubUpdate(affected: PrimaryKey, other: PrimaryKey)
      modifies this
      ensures updates == Enqueued(old(updates), SubUpdate(affected, other))
    {
      var it := FindVertex(updates, affected);
      if it == |updates| {
        updates := updates + [MemberConnections(MemberProxy(affected, false), [MemberProxy(other, true)])];
      } else {
        updates := updates[it := updates[it].(connections := updates[it].connections + [MemberProxy(other, true)])];
      }
    }

    method AddSendUpdate(affected: PrimaryKey, other: PrimaryKey)
      modifies this
      ensures updates == Enqueued(old(updates), SendUpdate(affected, other))
    {
      var it := FindVertex(updates, affected);
      if it == |updates| {
        updates := updates + [MemberConnections(MemberProxy(affected, false), [MemberProxy(other, false)])];
      } else {
        updates := updates[it := updates[it].(connections := updates[it].connections + [MemberProxy(other, false)])];
      }
    }

    method AddPubUpdate(affected: PrimaryKey, other: PrimaryKey)
      modifies this
      ensures updates == Enqueued(old(updates), PubUpdate(affected, other))
    {
      var it := FindVertex(updates, affected);
      if it == |updates| {
        updates := updates + [MemberConnections(MemberProxy(affected, true), [MemberProxy(other, false)])];
      } else {
        updates := updates[it := updates[it].(connections := updates[it].connections + [MemberProxy(other, false)])];
      }
    }

    method GetUpdates() returns (output: GraphView)
      modifies this
      ensures output == old(updates) && updates == []
    {
      output := [];
      var n := 0;
      while n < |updates|
        invariant 0 <= n <= |updates|
        invariant updates == old(updates) && output == updates[..n]
      {
        output := output + [updates[n]];
        n := n + 1;
      }
      updates := [];
    }
  }

  // ---------- runs of interleaved adds and drains ----------

  datatype Event = Arrive(update: Update) | Drain

  datatype State = State(pending: GraphView, batches: seq<GraphView>)

  function Step(s: State, e: Event): State {
    match e
    case Arrive(u) => s.(pending := Enqueued(s.pending, u))
    case Drain => State([], s.batches + [s.pending])
  }

  function Run(events: seq<Event>): State {
    if events == [] then State([], [])
    else Step(Run(events[..|events| - 1]), events[|events| - 1])
  }

  /** All connections a queue or batch holds for a key, in order. */
  function ConnectionsFor(q: GraphView, key: PrimaryKey): seq<MemberProxy> {
    if q == [] then []
    else
      var n := |q| - 1;
      ConnectionsFor(q[..n], key) + if q[n].member.key == key then q[n].connections else []
  }

  function DrainedFor(batches: seq<GraphView>, key: PrimaryKey): seq<MemberProxy> {
    if batches == [] then []
    else DrainedFor(batches[..|batches| - 1], key) + ConnectionsFor(batches[|batches| - 1], key)
  }

  /** The connections that arrived for a key, in order. */
  function ArrivalsFor(events: seq<Event>, key: PrimaryKey): seq<MemberProxy> {
    if events == [] then []
    else
      var n := |events| - 1;
      ArrivalsFor(events[..n], key) + Brought(events[n], key)
  }

  /** One entry per member, none without connections. */
  ghost predicate Grouped(q: GraphView) {
    UniqueKeys(q) && forall v :: v in q ==> v.connections != []
  }

  lemma EnqueuedKeepsGrouped(q: GraphView, u: Update)
    requires Grouped(q)
    ensures Grouped(Enqueued(q, u))
  {
    var q', i := Enqueued(q, u), FindVertex(q, u.affected);
    forall v | v in q' ensures v.connections != [] {
      var k :| 0 <= k < |q'| && q'[k] == v;
      if k < |q| && k != i {
        assert q[k] in q;
      }
    }
  }

  lemma {:induction false} ExtendedEntry(q: GraphView, i: nat, p: MemberProxy, key: PrimaryKey)
    requires UniqueKeys(q) && i < |q|
    ensures ConnectionsFor(q[i := q[i].(connections := q[i].connections + [p])], key)
         == ConnectionsFor(q, key) + if q[i].member.key == key then [p] else []
  {
    var n := |q| - 1;
    var q' := q[i := q[i].(connections := q[i].connections + [p])];
    if i == n {
      assert q'[..n] == q[..n];
    } else {
      assert q'[..n] == q[..n][i := q[i].(connections := q[i].connections + [p])];
      ExtendedEntry(q[..n], i, p, key);
      if q[i].member.key == key {
        assert q[n].member.key != key;
      }
    }
  }

  lemma EnqueuedConnections(q: GraphView, u: Update, key: PrimaryKey)
    requires UniqueKeys(q)
    ensures ConnectionsFor(Enqueued(q, u), key)
         == ConnectionsFor(q, key) + if u.affected == key then [u.Connection()] else []
  {
    var i := FindVertex(q, u.affected);
    if i == |q| {
      assert Enqueued(q, u)[..|q|] == q;
    } else {
      ExtendedEntry(q, i, u.Connection(), key);
    }
  }

  /** In every run the pending queue and all drained batches are grouped. */
  lemma {:induction false} BatchesAreGrouped(events: seq<Event>)
    ensures Grouped(Run(events).pending)
    ensures forall b :: b in Run(events).batches ==> Grouped(b)
  {
    if events != [] {
      var n := |events| - 1;
      BatchesAreGrouped(events[..n]);
      if events[n].Arrive? {
        EnqueuedKeepsGrouped(Run(events[..n]).pending, events[n].update);
      }
    }
  }

  /** What an event brings for a key: a topic subscribed to, a node sent to, or a node that publishes. */
  function Brought(e: Event, key: PrimaryKey): seq<MemberProxy> {
    match e
    case Drain => []
    case Arrive(SubUpdate(affected, other)) => if affected == key then [MemberProxy(other, true)] else []
    case Arrive(SendUpdate(affected, other)) => if affected == key then [MemberProxy(other, false)] else []
    case Arrive(PubUpdate(affected, other)) => if affected == key then [MemberProxy(other, false)] else []
  }

  /** Everything received for a key: drained, then pending. */
  function Received(s: State, key: PrimaryKey): seq<MemberProxy> {
    DrainedFor(s.batches, key) + ConnectionsFor(s.pending, key)
  }

  lemma StepConserves(s: State, e: Event, key: PrimaryKey)
    requires UniqueKeys(s.pending)
    ensures Received(Step(s, e), key) == Received(s, key) + Brought(e, key)
  {
    match e
    case Arrive(u) =>
      EnqueuedConnections(s.pending, u, key);
      var d, c, b := DrainedFor(s.batches, key), ConnectionsFor(s.pending, key), Brought(e, key);
      assert d + (c + b) == (d + c) + b;
    case Drain =>
      assert (s.batches + [s.pending])[..|s.batches|] == s.batches;
  }

  /** Nothing is lost, repeated, reordered or attributed to another member. */
  lemma {:induction false} Conservation(events: seq<Event>, key: PrimaryKey)
    ensures Received(Run(events), key) == ArrivalsFor(events, key)
  {
    if events != [] {
      var n := |events| - 1;
      hide Step, Received, Grouped, Brought;
      Conservation(events[..n], key);
      assert UniqueKeys(Run(events[..n]).pending) by {
        PendingIsUnique(events[..n]);
      }
      StepConserves(Run(events[..n]), events[n], key);
    }
  }

  lemma PendingIsUnique(events: seq<Event>)
    ensures UniqueKeys(Run(events).pending)
  {
    BatchesAreGrouped(events);
  }

  // ---------- which arrival opened which entry ----------

  /** The position after the last drain. */
  function LastDrain(events: seq<Event>): (n: nat)
    ensures n <= |events|
  {
    if events == [] then 0
    else if events[|events| - 1].Drain? then |events|
    else LastDrain(events[..|events| - 1])
  }

  ghost predicate ArrivesFor(e: Event, key: PrimaryKey) {
    e.Arrive? && e.update.affected == key
  }

  /** The first arrival for its key since the last drain. */
  ghost predicate Opens(events: seq<Event>, x: nat) {
    && LastDrain(events) <= x < |events| && events[x].Arrive?
    && forall y :: LastDrain(events) <= y < x ==> !ArrivesFor(events[y], events[x].update.affected)
  }

  /** The member that an update names first: a node, or the topic published to. */
  ghost predicate Names(u: Update, m: MemberProxy) {
    match u
    case SubUpdate(affected, _) => m == MemberProxy(affected, false)
    case SendUpdate(affected, _) => m == MemberProxy(affected, false)
    case PubUpdate(affected, _) => m == MemberProxy(affected, true)
  }

  ghost predicate OpenedAt(events: seq<Event>, q: GraphView, p: seq<nat>) {
    && |q| == |p|
    && forall i :: 0 <= i < |p| ==>
         p[i] < |events| && events[p[i]].Arrive? && Names(events[p[i]].update, q[i].member)
  }

  ghost predicate ArrivedSince(events: seq<Event>, key: PrimaryKey) {
    exists x :: LastDrain(events) <= x < |events| && ArrivesFor(events[x], key)
  }

  lemma ArrivedSinceOneMore(events: seq<Event>, key: PrimaryKey)
    requires events != [] && events[|events| - 1].Arrive?
    ensures var n := |events| - 1;
            ArrivedSince(events, key) <==> ArrivedSince(events[..n], key) || events[n].update.affected == key
  {
    var n := |events| - 1;
    var before := events[..n];
    assert LastDrain(events) == LastDrain(before) <= n;
    hide LastDrain;
    if ArrivedSince(before, key) {
      var x :| LastDrain(before) <= x < n && ArrivesFor(before[x], key);
      assert ArrivesFor(events[x], key);
    }
    if events[n].update.affected == key {
      assert ArrivesFor(events[n], key);
    }
    if ArrivedSince(events, key) {
      var x :| LastDrain(events) <= x < |events| && ArrivesFor(events[x], key);
      assert x < n ==> ArrivesFor(before[x], key);
    }
  }

  lemma {:induction false} PendingKeys(events: seq<Event>, key: PrimaryKey)
    ensures key in Keys(Run(events).pending) <==> ArrivedSince(events, key)
  {
    if events != [] {
      var n := |events| - 1;
      if events[n].Drain? {
        assert Run(events).pending == [] && LastDrain(events) == |events|;
      } else {
        assert Run(events).pending == Enqueued(Run(events[..n]).pending, events[n].update);
        hide Run, Enqueued, Keys, ArrivedSince;
        PendingKeys(events[..n], key);
        EnqueuedKeys(Run(events[..n]).pending, events[n].update, key);
        ArrivedSinceOneMore(events, key);
      }
    }
  }

  lemma EnqueuedKeys(q: GraphView, u: Update, key: PrimaryKey)
    ensures key in Keys(Enqueued(q, u)) <==> key in Keys(q) || key == u.affected
  {
    var q', i := Enqueued(q, u), FindVertex(q, u.affected);
    if key in Keys(q') {
      var k :| 0 <= k < |q'| && q'[k].member.key == key;
      if k < |q| {
        assert q[k] in q;
      }
    }
    if key in Keys(q) {
      var k :| 0 <= k < |q| && q[k].member.key == key;
      assert q'[k] in q' && q'[k].member.key == key;
    }
    if i == |q| {
      assert q'[|q|] in q';
    } else {
      assert q'[i] in q';
    }
  }

  lemma OpensPrefix(events: seq<Event>, x: nat)
    requires events != [] && events[|events| - 1].Arrive?
    ensures var n := |events| - 1;
            x != n ==> (Opens(events, x) <==> Opens(events[..n], x))
  {
    var n := |events| - 1;
    assert forall y :: 0 <= y < n ==> events[..n][y] == events[y];
  }

  lemma OpensLast(events: seq<Event>)
    requires events != [] && events[|events| - 1].Arrive?
    ensures var n := |events| - 1;
            Opens(events, n) <==> events[n].update.affected !in Keys(Run(events[..n]).pending)
  {
    var n := |events| - 1;
    PendingKeys(events[..n], events[n].update.affected);
    hide Run, Keys;
    assert forall y :: 0 <= y < n ==> events[..n][y] == events[y];
    assert LastDrain(events) == LastDrain(events[..n]);
  }

  lemma OpenedAtOneMore(events: seq<Event>, n: nat, q: GraphView, p: seq<nat>)
    requires n == |events| - 1 && events[n].Arrive? && OpenedAt(events[..n], q, p)
    ensures var u := events[n].update;
            OpenedAt(events, Enqueued(q, u), if u.affected in Keys(q) then p else p + [n])
  {
    assert forall y :: 0 <= y < n ==> events[..n][y] == events[y];
  }

  /** What an arrival makes of the entries and of the positions that opened them. */
  lemma OneMoreArrival(events: seq<Event>, n: nat)
    requires n == |events| - 1 && events[n].Arrive?
    ensures Run(events).pending == Enqueued(Run(events[..n]).pending, events[n].update)
    ensures Opens(events, n) <==> events[n].update.affected !in Keys(Run(events[..n]).pending)
    ensures forall x: nat :: Opens(events, x) <==> Opens(events[..n], x) || (x == n && Opens(events, n))
    ensures forall x: nat :: Opens(events[..n], x) ==> x < n
  {
    OpensLast(events);
    assert forall x: nat :: Opens(events[..n], x) ==> x < n;
    assert forall x: nat :: Opens(events, x) ==> x <= n;
    hide Opens, Run, Keys;
    forall x: nat | x != n ensures Opens(events, x) <==> Opens(events[..n], x) {
      OpensPrefix(events, x);
    }
  }

  /**
   The entries of the queue, in their order, are those opened by the first arrivals for their keys
   since the last drain, and each carries the member that arrival names.
   */
  lemma {:induction false} EntriesNameArrivals(events: seq<Event>) returns (p: seq<nat>)
    ensures Ascending(p) && forall x: nat :: x in p <==> Opens(events, x)
    ensures OpenedAt(events, Run(events).pending, p)
  {
    p := [];
    if events != [] && !events[|events| - 1].Drain? {
      var n := |events| - 1;
      p := EntriesNameArrivals(events[..n]);
      hide Run, Opens, OpenedAt, Ascending, Enqueued, Keys;
      OneMoreArrival(events, n);
      AscendingOneMore(p, n);
      OpenedAtOneMore(events, n, Run(events[..n]).pending, p);
      if Opens(events, n) {
        p := p + [n];
      }
    }
  }

  ghost function PendingBefore(events: seq<Event>, x: nat): GraphView
    requires x <= |events|
  {
    Run(events[..x]).pending
  }

  ghost predicate DrainedAt(events: seq<Event>, p: seq<nat>, batches: seq<GraphView>) {
    |batches| == |p| && forall i :: 0 <= i < |p| ==> p[i] < |events| && batches[i] == PendingBefore(events, p[i])
  }

  lemma DrainedAtOneMore(events: seq<Event>, n: nat, p: seq<nat>, batches: seq<GraphView>)
    requires n == |events| - 1 && DrainedAt(events[..n], p, batches)
    ensures DrainedAt(events, p, batches)
    ensures DrainedAt(events, p + [n], batches + [PendingBefore(events, n)])
  {
    forall i | 0 <= i < |p| ensures batches[i] == PendingBefore(events, p[i]) {
      assert events[..n][..p[i]] == events[..p[i]];
    }
  }

  /** The batches are, one for each drain, what was pending just before it. */
  lemma {:induction false} BatchesWerePending(events: seq<Event>) returns (p: seq<nat>)
    ensures Ascending(p) && forall x: nat :: x in p <==> x < |events| && events[x].Drain?
    ensures DrainedAt(events, p, Run(events).batches)
  {
    p := [];
    if events != [] {
      var n := |events| - 1;
      var q := BatchesWerePending(events[..n]);
      assert Run(events) == Step(Run(events[..n]), events[n]) && PendingBefore(events, n) == Run(events[..n]).pending;
      hide Run, DrainedAt, PendingBefore, Ascending;
      AscendingOneMore(q, n);
      DrainedAtOneMore(events, n, q, Run(events[..n]).batches);
      p := if events[n].Drain? then q + [n] else q;
    }
  }
}

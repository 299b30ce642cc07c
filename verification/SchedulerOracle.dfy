/** The scheduler as it runs: a dictionary of pending actions beside a binary heap that keeps the
    entries of cancelled actions until they surface. Proved against the heap-free specification. */
module SchedulerOracles {
  import opened Common
  import opened Text
  import opened Scheduler
  import opened MinHeap
  import Canonical

  function EntryOf(id: int, a: Action): Entry { Entry(a.due.ns, a.due.seqno, a.insertion, id) }

  /** The entries hold that of every pending action; all of them carry ids that were accepted, and those of
      pending ids are current. Other entries are stale. */
  ghost predicate Covered(pending: Pending, seen: set<int>, items: seq<Entry>) {
    && (forall id :: id in pending ==> id in seen && EntryOf(id, pending[id]) in items)
    && (forall i :: 0 <= i < |items| ==>
      items[i].id in seen && (items[i].id in pending ==> items[i] == EntryOf(items[i].id, pending[items[i].id])))
  }

  lemma PushCovers(pending: Pending, seen: set<int>, before: seq<Entry>, after: seq<Entry>, id: int, action: Action)
    requires Covered(pending, seen, before) && id !in seen
    requires multiset(after) == multiset(before) + multiset{EntryOf(id, action)}
    ensures Covered(pending[id := action], seen + {id}, after)
  {
    assert multiset(before + [EntryOf(id, action)]) == multiset(after);
    SameEntries(after, before + [EntryOf(id, action)]);
  }

  lemma PopCovers(pending: Pending, seen: set<int>, before: seq<Entry>, after: seq<Entry>)
    requires Covered(pending, seen, before) && |before| > 0
    requires multiset(after) == multiset(before) - multiset{before[0]}
    ensures Covered(pending - {before[0].id}, seen, after)
  {
    var head := before[0];
    Removed(after, before, head);
    forall id | id in pending - {head.id} ensures id in seen && EntryOf(id, pending[id]) in after {
      assert EntryOf(id, pending[id]) in before && EntryOf(id, pending[id]) != head;
    }
    forall i | 0 <= i < |after| ensures after[i].id in seen &&
        (after[i].id in pending - {head.id} ==> after[i] == EntryOf(after[i].id, pending[after[i].id])) {
      assert after[i] in before;
    }
  }

  /** A pending action whose entry is at the root precedes every other pending action. */
  lemma HeadIsEarliest(pending: Pending, seen: set<int>, items: seq<Entry>)
    requires IsHeap(items) && |items| > 0 && Covered(pending, seen, items) && items[0].id in pending
    ensures items[0] == EntryOf(items[0].id, pending[items[0].id])
    ensures forall id :: id in pending && id != items[0].id ==> Earlier(pending, items[0].id, id)
  {
    var head := items[0];
    forall id | id in pending && id != head.id ensures Earlier(pending, head.id, id) {
      var i :| 0 <= i < |items| && items[i] == EntryOf(id, pending[id]);
      RootIsLeast(items, i);
    }
  }

  class DeterministicSchedulerOracle {
    var nextInsertion: int
    var pending: Pending
    var seen: set<int>
    const heap: Heap

    ghost function State(): State
      reads this
    {
      Scheduler.State(nextInsertion, pending, seen)
    }

    ghost predicate Valid()
      reads this, heap, heap.data
    {
      heap.Valid() && Covered(pending, seen, heap.Items())
    }

    constructor ()
      ensures Valid() && State() == EMPTY && fresh(heap) && fresh(heap.data)
      ensures State() == Scheduler.State(0, map[], {})
    {
      nextInsertion, pending, seen := 0, map[], {};
      heap := new Heap();
    }

    method Schedule(id: int, due: LogicalTime) returns (d: Decision)
      requires Valid()
      modifies this, heap, heap.data
      ensures Valid() && (heap.data == old(heap.data) || fresh(heap.data))
      ensures (State(), d) == Scheduler.Schedule(old(State()), id, due)
    {
      hide Covered, IsHeap;
      if id < 0 { return Rejected(InvalidActionId); }
      if id in seen { return Rejected(DuplicateActionId); }
      ghost var was, items := State(), heap.Items();
      seen := seen + {id};
      var insertion := nextInsertion;
      nextInsertion := nextInsertion + 1;
      var action := Action(due, insertion);
      pending := pending[id := action];
      heap.Push(EntryOf(id, action));
      PushCovers(was.pending, was.seen, items, heap.Items(), id, action);
      return Accepted;
    }

    method Cancel(id: int) returns (d: Decision)
      requires Valid()
      modifies this
      ensures Valid()
      ensures (State(), d) == Scheduler.Cancel(old(State()), id)
    {
      if id !in pending { return Rejected(UnknownAction); }
      pending := pending - {id};
      return Accepted;
    }

    /** Pops due entries off the heap, skipping stale ones, until the head is not due. */
    method Drain(cutoff: LogicalTime, inclusive: bool) returns (drained: seq<int>)
      requires Valid()
      modifies this, heap, heap.data
      ensures Valid() && heap.data == old(heap.data)
      ensures (State(), drained) == Scheduler.Drain(old(State()), cutoff, inclusive)
    {
      hide Progress, IsHeap, Earlier;
      ghost var was := State();
      drained := [];
      NothingDrained(was.pending, cutoff, inclusive);
      while heap.size > 0
        invariant Valid() && heap.data == old(heap.data) && nextInsertion == was.next && seen == was.seen
        invariant Progress(was.pending, pending, drained, cutoff, inclusive)
        decreases heap.size
      {
        var head := heap.data[0];
        var due := LogicalTime(head.ns, head.seqno);
        if TimeLess(cutoff, due) || (due == cutoff && !inclusive) {
          NothingElseDue(cutoff, inclusive);
          break;
        }
        ghost var before := pending;
        var live := PopHead();
        if !live {
          assert pending == before;
          continue;
        }
        ProgressStep(was.pending, before, drained, cutoff, inclusive, head.id);
        drained := drained + [head.id];
      }
      DrainDone(was, pending, drained, cutoff, inclusive);
    }

    /** Takes the head off the heap and, unless it is stale, its action off the pending ones. */
    method PopHead() returns (live: bool)
      requires Valid() && heap.size > 0
      modifies this`pending, heap`size, heap.data
      ensures Valid() && heap.size == old(heap.size) - 1
      ensures var head := old(heap.data[0]);
        && pending == old(pending) - {head.id}
        && (live <==> head.id in old(pending))
        && (live ==> head == EntryOf(head.id, old(pending)[head.id]))
        && (live ==> forall id :: id in old(pending) && id != head.id ==> Earlier(old(pending), head.id, id))
    {
      hide Covered, IsHeap, Earlier, EntryOf;
      ghost var items := heap.Items();
      var head := heap.data[0];
      if head.id in pending { HeadIsEarliest(pending, seen, items); }
      var e := heap.Pop();
      PopCovers(pending, seen, items, heap.Items());
      live := head.id in pending;
      if live {
        pending := pending - {head.id};
      } else {
        assert pending == pending - {head.id};
      }
    }

    /** If the head of the heap is not due, no pending action is. */
    lemma NothingElseDue(cutoff: LogicalTime, inclusive: bool)
      requires Valid() && heap.size > 0
      requires !IsDue(LogicalTime(heap.Items()[0].ns, heap.Items()[0].seqno), cutoff, inclusive)
      ensures forall id :: id in pending ==> !IsDue(pending[id].due, cutoff, inclusive)
    {
      forall id | id in pending ensures !IsDue(pending[id].due, cutoff, inclusive) {
        var i :| 0 <= i < heap.size && heap.Items()[i] == EntryOf(id, pending[id]);
        RootIsLeast(heap.Items(), i);
      }
    }

    method CanonicalBytes() returns (bytes: string)
      requires Valid()
      ensures bytes == Canonical.SchedulerBytes(State())
    {
      hide Render, Line, Str, IsHeap;
      var next, second := ["next", Str(nextInsertion)], Canonical.SeenRecord(seen);
      bytes := Line(next) + Line(second);
      RenderTwo(next, second);
      var ids := InOrder(pending);
      ghost var section := Canonical.Section(pending, ids, Canonical.ActionRecord);
      RenderStart([next, second], section);
      for i := 0 to |ids|
        invariant bytes == Render([next, second] + section[..i])
      {
        var id := ids[i];
        var a := pending[id];
        bytes := bytes + Line(["action", Str(id), Str(a.due.ns), Str(a.due.seqno), Str(a.insertion)]);
        assert section[i] == Canonical.ActionRecord(id, a);
        RenderNext([next, second], section, i);
      }
    }
  }

  /** One trace row: the row itself and, at checkpoints, the canonical bytes reached. */
  datatype TraceRow = TraceRow(row: Row, checkpoint: Option<string>)

  /** Every so many operations, and after the last one. */
  predicate IsCheckpoint(ordinal: nat, total: nat, interval: int)
    requires interval != 0
  {
    ordinal % interval == 0 || ordinal == total
  }

  function RowAt(s: State, row: Row, ordinal: nat, total: nat, interval: int): TraceRow
    requires interval != 0
  {
    TraceRow(row, if IsCheckpoint(ordinal, total, interval) then Some(Canonical.SchedulerBytes(s)) else None)
  }

  /** The heap-free trace of the operations that follow the first so many: the state reached and the rows. */
  function Trace(s: State, ops: seq<Op>, done: nat, total: nat, interval: int): (State, seq<TraceRow>)
    requires interval != 0
    decreases |ops|
  {
    if |ops| == 0 then (s, []) else
      var (s1, row) := Step(s, ops[0]);
      var (s', rows) := Trace(s1, ops[1..], done + 1, total, interval);
      (s', [RowAt(s1, row, done + 1, total, interval)] + rows)
  }

  /** The state a run of operations makes. */
  function Reached(s: State, ops: seq<Op>): State
    decreases |ops|
  {
    if |ops| == 0 then s else Step(Reached(s, ops[..|ops| - 1]), ops[|ops| - 1]).0
  }

  lemma {:induction false} ReachedFront(s: State, op: Op, rest: seq<Op>)
    ensures Reached(s, [op] + rest) == Reached(Step(s, op).0, rest)
    decreases |rest|
  {
    hide Step;
    var ops := [op] + rest;
    if rest == [] {
      assert ops[..0] == [] && Reached(s, []) == s;
    } else {
      assert ops[..|ops| - 1] == [op] + rest[..|rest| - 1];
      ReachedFront(s, op, rest[..|rest| - 1]);
    }
  }

  /** Row i of a trace is the row of operation i in the state the ones before it have made; it has a checkpoint
      exactly when its ordinal is a multiple of the interval or the last one, and the checkpoint is the
      canonical bytes of the state after it. */
  lemma {:induction false} TraceMeaning(s: State, ops: seq<Op>, done: nat, interval: int, i: nat)
    requires interval != 0 && i < |ops|
    ensures var total := done + |ops|;
      var (end, rows) := Trace(s, ops, done, total, interval);
      && end == Reached(s, ops) && |rows| == |ops|
      && rows[i].row == Step(Reached(s, ops[..i]), ops[i]).1
      && (rows[i].checkpoint.Some? <==> (done + i + 1) % interval == 0 || i + 1 == |ops|)
      && (rows[i].checkpoint.Some? ==> rows[i].checkpoint.value == Canonical.SchedulerBytes(Reached(s, ops[..i + 1])))
    decreases |ops|
  {
    hide Step, Canonical.SchedulerBytes;
    var s1, rest := Step(s, ops[0]).0, ops[1..];
    assert ops == [ops[0]] + rest && ops[..0] == [] && ops[..1] == [ops[0]] + [];
    ReachedFront(s, ops[0], rest);
    ReachedFront(s, ops[0], []);
    if i > 0 {
      assert ops[..i] == [ops[0]] + rest[..i - 1] && ops[..i + 1] == [ops[0]] + rest[..i];
      ReachedFront(s, ops[0], rest[..i - 1]);
      ReachedFront(s, ops[0], rest[..i]);
      TraceMeaning(s1, rest, done + 1, interval, i - 1);
    } else if rest != [] {
      TraceMeaning(s1, rest, done + 1, interval, 0);
    }
  }

  /** One operation on the live scheduler. */
  method TraceOne(scheduler: DeterministicSchedulerOracle, op: Op) returns (row: Row)
    requires scheduler.Valid()
    modifies scheduler, scheduler.heap, scheduler.heap.data
    ensures scheduler.Valid() && (scheduler.heap.data == old(scheduler.heap.data) || fresh(scheduler.heap.data))
    ensures (scheduler.State(), row) == Step(old(scheduler.State()), op)
  {
    hide DeterministicSchedulerOracle.Valid, Schedule, Scheduler.Cancel, Drain;
    var decision, drained := Accepted, [];
    match op {
      case ScheduleOp(id, due) => decision := scheduler.Schedule(id, due);
      case CancelOp(id) => decision := scheduler.Cancel(id);
      case DrainOp(cutoff, inclusive) => drained := scheduler.Drain(cutoff, inclusive);
    }
    row := Row(decision, drained, |scheduler.pending|);
  }

  /** The scheduler trace with its checkpoints, whatever stale entries the heap starts with. */
  method SchedulerTrace(scheduler: DeterministicSchedulerOracle, ops: seq<Op>, interval: int)
    returns (rows: seq<TraceRow>)
    requires scheduler.Valid() && interval != 0
    modifies scheduler, scheduler.heap, scheduler.heap.data
    ensures scheduler.Valid() && (scheduler.heap.data == old(scheduler.heap.data) || fresh(scheduler.heap.data))
    ensures (scheduler.State(), rows) == Trace(old(scheduler.State()), ops, 0, |ops|, interval)
  {
    hide DeterministicSchedulerOracle.Valid, Step, Canonical.SchedulerBytes;
    rows := [];
    ghost var start := scheduler.State();
    assert ops[0..] == ops;
    RowsAfterNothing(Trace(start, ops, 0, |ops|, interval));
    for i := 0 to |ops|
      invariant scheduler.Valid() && (scheduler.heap.data == old(scheduler.heap.data) || fresh(scheduler.heap.data))
      invariant Trace(start, ops, 0, |ops|, interval) ==
        RowsAfter(rows, Trace(scheduler.State(), ops[i..], i, |ops|, interval))
    {
      assert ops[i..][0] == ops[i] && ops[i..][1..] == ops[i + 1..];
      var row := TraceOne(scheduler, ops[i]);
      var checkpoint := None;
      if IsCheckpoint(i + 1, |ops|, interval) {
        var bytes := scheduler.CanonicalBytes();
        checkpoint := Some(bytes);
      }
      RowsAfterOne(rows, TraceRow(row, checkpoint), Trace(scheduler.State(), ops[i + 1..], i + 1, |ops|, interval));
      rows := rows + [TraceRow(row, checkpoint)];
    }
    assert rows + [] == rows;
  }

  /** Two schedulers with equal canonical bytes answer every operation sequence alike, even if their
      heaps differ in stale entries. */
  method SameBytesSameFuture(a: DeterministicSchedulerOracle, b: DeterministicSchedulerOracle, ops: seq<Op>,
        interval: int)
    returns (rowsA: seq<TraceRow>, rowsB: seq<TraceRow>)
    requires a.Valid() && b.Valid() && interval != 0
    requires a != b && a.heap != b.heap && a.heap.data != b.heap.data
    requires Canonical.SchedulerBytes(a.State()) == Canonical.SchedulerBytes(b.State())
    modifies a, a.heap, a.heap.data, b, b.heap, b.heap.data
    ensures rowsA == rowsB && a.State() == b.State()
  {
    Canonical.SchedulerBytesComplete(a.State(), b.State());
    hide DeterministicSchedulerOracle.Valid;
    rowsA := SchedulerTrace(a, ops, interval);
    rowsB := SchedulerTrace(b, ops, interval);
  }

  function RowsAfter(rows: seq<TraceRow>, rest: (State, seq<TraceRow>)): (State, seq<TraceRow>) {
    (rest.0, rows + rest.1)
  }

  lemma RowsAfterNothing(rest: (State, seq<TraceRow>))
    ensures RowsAfter([], rest) == rest
  {
    assert [] + rest.1 == rest.1;
  }

  lemma RowsAfterOne(rows: seq<TraceRow>, row: TraceRow, rest: (State, seq<TraceRow>))
    ensures RowsAfter(rows, RowsAfter([row], rest)) == RowsAfter(rows + [row], rest)
  {
    assert rows + ([row] + rest.1) == (rows + [row]) + rest.1;
  }

  lemma SameEntries(a: seq<Entry>, b: seq<Entry>)
    requires multiset(a) == multiset(b)
    ensures forall e :: e in a <==> e in b
    ensures forall i :: 0 <= i < |a| ==> a[i] in b
  {
    forall e ensures e in a <==> e in b { assert e in a <==> e in multiset(a); assert e in b <==> e in multiset(b); }
    forall i | 0 <= i < |a| ensures a[i] in b { assert a[i] in multiset(a); }
  }

  lemma Removed(after: seq<Entry>, before: seq<Entry>, head: Entry)
    requires |before| > 0 && before[0] == head
    requires multiset(after) == multiset(before) - multiset{head}
    ensures forall i :: 0 <= i < |after| ==> after[i] in before
    ensures forall e :: e in before && e != head ==> e in after
  {
    forall i | 0 <= i < |after| ensures after[i] in before { assert after[i] in multiset(after); }
    forall e | e in before && e != head ensures e in after {
      assert e in multiset(before) && e in multiset(after);
    }
  }

  // ----- what the drain loop keeps -----

  /** What was drained so far is due, in order, precedes everything left, and left the rest alone. */
  ghost predicate Progress(was: Pending, now: Pending, drained: seq<int>, cutoff: LogicalTime, inclusive: bool) {
    && Sorted(was, drained)
    && (forall i :: 0 <= i < |drained| ==> IsDue(was[drained[i]].due, cutoff, inclusive) && drained[i] !in now)
    && (forall id :: id in now ==> id in was && now[id] == was[id])
    && (forall id :: id in was && id !in now ==> id in drained)
    && (forall i, id :: 0 <= i < |drained| && id in now ==> Earlier(was, drained[i], id))
  }

  lemma NothingDrained(was: Pending, cutoff: LogicalTime, inclusive: bool)
    ensures Progress(was, was, [], cutoff, inclusive)
  {
  }

  lemma ProgressStep(was: Pending, now: Pending, drained: seq<int>, cutoff: LogicalTime, inclusive: bool, id: int)
    requires Progress(was, now, drained, cutoff, inclusive)
    requires id in now && IsDue(now[id].due, cutoff, inclusive)
    requires forall x :: x in now && x != id ==> Earlier(now, id, x)
    ensures Progress(was, now - {id}, drained + [id], cutoff, inclusive)
  {
    var out := drained + [id];
    forall x | x in was && x !in now - {id} ensures x in out {
      if x != id { assert x in drained; }
    }
    forall i, x | 0 <= i < |out| && x in now - {id} ensures Earlier(was, out[i], x) {
      if i == |drained| { assert Earlier(now, id, x); }
    }
  }

  lemma SamePending(a: Pending, b: Pending)
    requires forall id :: id in a <==> id in b
    requires forall id :: id in a && id in b ==> a[id] == b[id]
    ensures a == b
  {
    assert a.Keys == b.Keys by {
      forall id: int ensures id in a.Keys <==> id in b.Keys { assert id in a <==> id in b; }
    }
    assert forall id :: id in a ==> a[id] == b[id];
  }

  lemma DrainDone(was: State, now: Pending, drained: seq<int>, cutoff: LogicalTime, inclusive: bool)
    requires Progress(was.pending, now, drained, cutoff, inclusive)
    requires forall id :: id in now ==> !IsDue(now[id].due, cutoff, inclusive)
    ensures Drain(was, cutoff, inclusive) == (was.(pending := now), drained)
  {
    DrainMeaning(was, cutoff, inclusive);
    var (s', out) := Drain(was, cutoff, inclusive);
    forall id ensures id in out <==> id in drained {
      if id in drained { var i :| 0 <= i < |drained| && drained[i] == id; }
    }
    SortedUnique(was.pending, out, drained);
    forall id ensures id in s'.pending <==> id in now {
      if id in drained { var i :| 0 <= i < |drained| && drained[i] == id; }
    }
    SamePending(s'.pending, now);
  }
}

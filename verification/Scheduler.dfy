/** Specification of the action scheduler: no heap here, only the pending actions and their order. */
module Scheduler {
  import opened Common

  /** Lexicographic receive time; construction rejects negative components. */
  datatype LogicalTime = LogicalTime(ns: nat, seqno: nat)

  datatype Action = Action(due: LogicalTime, insertion: int)

  type Pending = map<int, Action>

  datatype State = State(next: int, pending: Pending, seen: set<int>)

  const EMPTY := State(0, map[], {})

  predicate TimeLess(a: LogicalTime, b: LogicalTime) { a.ns < b.ns || (a.ns == b.ns && a.seqno < b.seqno) }

  /** Due before the cutoff, or at it when the drain is inclusive. */
  predicate IsDue(t: LogicalTime, cutoff: LogicalTime, inclusive: bool) {
    TimeLess(t, cutoff) || (t == cutoff && inclusive)
  }

  /** The order of (ns, seq, insertion, id) tuples. */
  predicate KeyLess(a: Action, x: int, b: Action, y: int) {
    TimeLess(a.due, b.due) || (a.due == b.due && (a.insertion < b.insertion || (a.insertion == b.insertion && x < y)))
  }

  predicate Earlier(p: Pending, x: int, y: int)
    requires x in p && y in p
  {
    KeyLess(p[x], x, p[y], y)
  }

  ghost predicate Sorted(p: Pending, out: seq<int>) {
    && (forall i :: 0 <= i < |out| ==> out[i] in p)
    && (forall i, j :: 0 <= i < j < |out| ==> Earlier(p, out[i], out[j]))
  }

  lemma EarliestExists(p: Pending)
    requires p != map[]
    ensures exists id :: id in p && forall x :: x in p && x != id ==> Earlier(p, id, x)
    decreases |p|
  {
    var x := Pick(p.Keys);
    var rest := p - {x};
    if rest == map[] {
      assert forall y :: y in p && y != x ==> y in rest;
    } else {
      EarliestExists(rest);
      var y :| y in rest && forall z :: z in rest && z != y ==> Earlier(rest, y, z);
      var id := if Earlier(p, x, y) then x else y;
      forall z | z in p && z != id ensures Earlier(p, id, z) {
        if z != x && z != y { assert z in rest && Earlier(rest, y, z); }
      }
    }
  }

  function Earliest(p: Pending): (id: int)
    requires p != map[]
    ensures id in p && forall x :: x in p && x != id ==> Earlier(p, id, x)
  {
    EarliestExists(p);
    var id :| id in p && forall x :: x in p && x != id ==> Earlier(p, id, x);
    id
  }

  lemma EarliestFirst(p: Pending, id: int, rest: seq<int>)
    requires id in p && Sorted(p - {id}, rest)
    requires forall x :: x in p && x != id ==> Earlier(p, id, x)
    requires forall x :: x in rest <==> x in p - {id}
    ensures Sorted(p, [id] + rest)
    ensures forall x :: x in [id] + rest <==> x in p
  {
    var out := [id] + rest;
    forall i, j | 0 <= i < j < |out| ensures out[i] in p && out[j] in p && Earlier(p, out[i], out[j]) {
      assert out[j] == rest[j - 1] && rest[j - 1] in p - {id};
      if i > 0 { assert Earlier(p - {id}, rest[i - 1], rest[j - 1]); }
    }
    forall i | 0 <= i < |out| ensures out[i] in p {
      if i > 0 { assert rest[i - 1] in p - {id}; }
    }
  }

  /** All pending ids, earliest first. */
  function InOrder(p: Pending): (out: seq<int>)
    ensures Sorted(p, out)
    ensures forall id :: id in out <==> id in p
    decreases |p|
  {
    if p == map[] then [] else
      var id := Earliest(p);
      var rest := InOrder(p - {id});
      EarliestFirst(p, id, rest);
      [id] + rest
  }

  lemma SameEmptiness(a: seq<int>, b: seq<int>)
    requires forall id :: id in a <==> id in b
    ensures |a| == 0 <==> |b| == 0
  {
    if |a| > 0 {
      var x := a[0];
      assert x in a;
    }
    if |b| > 0 {
      var x := b[0];
      assert x in b;
    }
  }

  lemma {:induction false} SortedUnique(p: Pending, a: seq<int>, b: seq<int>)
    requires Sorted(p, a) && Sorted(p, b)
    requires forall id :: id in a <==> id in b
    ensures a == b
    decreases |a|
  {
    SameEmptiness(a, b);
    if |a| > 0 {
      assert a[0] in a && b[0] in b && a[0] in b && b[0] in a;
      var i :| 0 <= i < |b| && b[i] == a[0];
      var j :| 0 <= j < |a| && a[j] == b[0];
      assert a[0] == b[0];
      forall id ensures id in a[1..] <==> id in b[1..] {
        assert id in a <==> id == a[0] || id in a[1..];
        assert id in b <==> id == b[0] || id in b[1..];
        assert a[0] !in a[1..] && b[0] !in b[1..];
      }
      SortedUnique(p, a[1..], b[1..]);
      assert a == [a[0]] + a[1..] && b == [b[0]] + b[1..];
    }
  }

  // ----- transitions -----

  function Schedule(s: State, id: int, due: LogicalTime): (State, Decision) {
    if id < 0 then (s, Rejected(InvalidActionId))
    else if id in s.seen then (s, Rejected(DuplicateActionId))
    else (State(s.next + 1, s.pending[id := Action(due, s.next)], s.seen + {id}), Accepted)
  }

  function Cancel(s: State, id: int): (State, Decision) {
    if id !in s.pending then (s, Rejected(UnknownAction))
    else (s.(pending := s.pending - {id}), Accepted)
  }

  function DuePart(p: Pending, cutoff: LogicalTime, inclusive: bool): Pending {
    map id | id in p && IsDue(p[id].due, cutoff, inclusive) :: p[id]
  }

  /** A drain hands out exactly the due actions, earliest first, and keeps the others. */
  function Drain(s: State, cutoff: LogicalTime, inclusive: bool): (State, seq<int>) {
    var due := DuePart(s.pending, cutoff, inclusive);
    (s.(pending := s.pending - due.Keys), InOrder(due))
  }

  lemma DrainMeaning(s: State, cutoff: LogicalTime, inclusive: bool)
    ensures var (s', out) := Drain(s, cutoff, inclusive);
      && Sorted(s.pending, out)
      && (forall id :: id in out <==> id in s.pending && IsDue(s.pending[id].due, cutoff, inclusive))
      && (forall id :: id in s'.pending <==> id in s.pending && id !in out)
      && (forall id :: id in s'.pending ==> s'.pending[id] == s.pending[id])
  {
    var due := DuePart(s.pending, cutoff, inclusive);
    var out := InOrder(due);
    assert forall i :: 0 <= i < |out| ==> out[i] in due && due[out[i]] == s.pending[out[i]];
    assert forall i, j :: 0 <= i < j < |out| ==> Earlier(due, out[i], out[j]);
  }

  ghost predicate NotBefore(c1: LogicalTime, i1: bool, c2: LogicalTime, i2: bool) {
    TimeLess(c1, c2) || (c1 == c2 && (i1 ==> i2))
  }

  /** Draining in two stages hands out the same actions in the same order as one drain at the later
      cutoff, including an exclusive drain followed by an inclusive one at the same cutoff. */
  lemma DrainCompose(s: State, c1: LogicalTime, i1: bool, c2: LogicalTime, i2: bool)
    requires NotBefore(c1, i1, c2, i2)
    ensures var (s1, out1) := Drain(s, c1, i1);
      var (s2, out2) := Drain(s1, c2, i2);
      Drain(s, c2, i2) == (s2, out1 + out2)
  {
    var (s1, out1) := Drain(s, c1, i1);
    var (s2, out2) := Drain(s1, c2, i2);
    var (s', out) := Drain(s, c2, i2);
    DrainMeaning(s, c1, i1);
    DrainMeaning(s1, c2, i2);
    DrainMeaning(s, c2, i2);
    assert s2.pending == s'.pending;
    assert Sorted(s.pending, out1 + out2) by { TwoStagesSorted(s, c1, i1, s1, out1, out2); }
    SortedUnique(s.pending, out, out1 + out2);
  }

  lemma TwoStagesSorted(s: State, c1: LogicalTime, i1: bool, s1: State, out1: seq<int>, out2: seq<int>)
    requires Sorted(s.pending, out1) && Sorted(s1.pending, out2)
    requires forall id :: id in out1 ==> id in s.pending && IsDue(s.pending[id].due, c1, i1)
    requires forall id ::
      id in s1.pending ==> id in s.pending && s1.pending[id] == s.pending[id] && !IsDue(s.pending[id].due, c1, i1)
    ensures Sorted(s.pending, out1 + out2)
  {
    var both := out1 + out2;
    forall i, j | 0 <= i < j < |both|
      ensures both[i] in s.pending && both[j] in s.pending && Earlier(s.pending, both[i], both[j])
    {
      if i < |out1| { assert both[i] in out1; }
      if j >= |out1| { assert out2[j - |out1|] in s1.pending; }
      if i >= |out1| { assert Earlier(s1.pending, out2[i - |out1|], out2[j - |out1|]); }
    }
    forall i | 0 <= i < |both| ensures both[i] in s.pending {
      if i < |out1| { assert both[i] == out1[i]; } else { assert both[i] == out2[i - |out1|]; }
    }
  }

  // ----- life of an action over whole runs -----

  datatype Op = ScheduleOp(id: int, due: LogicalTime) | CancelOp(id: int)
    | DrainOp(cutoff: LogicalTime, inclusive: bool)

  /** What a trace records of one operation. */
  datatype Row = Row(decision: Decision, drained: seq<int>, pendingCount: nat)

  function Step(s: State, op: Op): (State, Row) {
    match op
    case ScheduleOp(id, due) => var (s', d) := Schedule(s, id, due); (s', Row(d, [], |s'.pending|))
    case CancelOp(id) => var (s', d) := Cancel(s, id); (s', Row(d, [], |s'.pending|))
    case DrainOp(cutoff, inclusive) =>
      var (s', out) := Drain(s, cutoff, inclusive);
      (s', Row(Accepted, out, |s'.pending|))
  }

  /** A state together with the ids accepted so far, in order, the time each was scheduled for, the ids
      cancelled, and those drained, in order. */
  datatype History = History(
    state: State, accepted: seq<int>, asked: map<int, LogicalTime>, cancelled: set<int>, drained: seq<int>)

  function Extend(h: History, op: Op): History {
    var (s', row) := Step(h.state, op);
    History(s',
            if op.ScheduleOp? && row.decision.Accepted? then h.accepted + [op.id] else h.accepted,
            if op.ScheduleOp? && row.decision.Accepted? then h.asked[op.id := op.due] else h.asked,
            if op.CancelOp? && row.decision.Accepted? then h.cancelled + {op.id} else h.cancelled,
            h.drained + row.drained)
  }

  function Replay(ops: seq<Op>): History
    decreases |ops|
  {
    if |ops| == 0 then History(EMPTY, [], map[], {}, []) else Extend(Replay(ops[..|ops| - 1]), ops[|ops| - 1])
  }

  ghost predicate NoRepeats(s: seq<int>) { forall i, j :: 0 <= i < j < |s| ==> s[i] != s[j] }

  ghost predicate LifeInv(h: History) {
    && (forall id :: id in h.state.seen <==> id in h.state.pending || id in h.cancelled || id in h.drained)
    && (forall id :: id in h.state.pending ==> id !in h.cancelled && id !in h.drained)
    && (forall id :: id in h.cancelled ==> id !in h.drained)
    && NoRepeats(h.drained)
    && NoRepeats(h.accepted)
    && (forall id :: id in h.state.seen <==> id in h.accepted)
    && h.state.next == |h.accepted|
    && h.asked.Keys == h.state.seen
    && (forall id :: id in h.state.pending ==> h.state.pending[id].due == h.asked[id])
    && |h.state.pending| + |h.cancelled| + |h.drained| == |h.accepted|
    && (forall id :: id in h.state.pending ==>
      0 <= h.state.pending[id].insertion < |h.accepted| && h.accepted[h.state.pending[id].insertion] == id)
  }

  lemma LifeStep(h: History, op: Op)
    requires LifeInv(h)
    ensures LifeInv(Extend(h, op))
  {
    match op {
      case ScheduleOp(_, _) => ScheduleLife(h, op);
      case CancelOp(_) => CancelLife(h, op);
      case DrainOp(_, _) => DrainLife(h, op);
    }
  }

  lemma CancelLife(h: History, op: Op)
    requires LifeInv(h) && op.CancelOp?
    ensures LifeInv(Extend(h, op))
  {
    assert h.drained + [] == h.drained;
    hide NoRepeats;
    if op.id in h.state.pending {
      PendingWithout(h.state.pending, op.id);
      assert |h.cancelled + {op.id}| == |h.cancelled| + 1;
    }
  }

  lemma PendingWithout(p: Pending, id: int)
    requires id in p
    ensures |p - {id}| == |p| - 1
  {
    assert (p - {id}).Keys == p.Keys - {id};
    assert |(p - {id}).Keys| == |p - {id}| && |p.Keys| == |p|;
  }

  lemma {:induction false} InOrderCounts(p: Pending)
    ensures |InOrder(p)| == |p|
    decreases |p|
  {
    if p != map[] {
      var id := Earliest(p);
      PendingWithout(p, id);
      InOrderCounts(p - {id});
    }
  }

  lemma DrainCounts(s: State, cutoff: LogicalTime, inclusive: bool)
    ensures var (s', out) := Drain(s, cutoff, inclusive); |s'.pending| + |out| == |s.pending|
  {
    var due := DuePart(s.pending, cutoff, inclusive);
    InOrderCounts(due);
    var rest := s.pending - due.Keys;
    assert rest.Keys == s.pending.Keys - due.Keys && due.Keys <= s.pending.Keys;
    assert |rest.Keys| == |rest| && |due.Keys| == |due| && |s.pending.Keys| == |s.pending|;
  }

  lemma Snoc(s: seq<int>, x: int)
    requires NoRepeats(s) && x !in s
    ensures NoRepeats(s + [x]) && (s + [x])[|s|] == x
    ensures forall y :: y in s + [x] <==> y in s || y == x
    ensures forall i :: 0 <= i < |s| ==> (s + [x])[i] == s[i]
  {
  }

  lemma ScheduleLife(h: History, op: Op)
    requires LifeInv(h) && op.ScheduleOp?
    ensures LifeInv(Extend(h, op))
  {
    assert h.drained + [] == h.drained;
    if Schedule(h.state, op.id, op.due).1.Accepted? {
      Snoc(h.accepted, op.id);
      hide NoRepeats;
      assert Extend(h, op).accepted == h.accepted + [op.id];
    }
  }

  lemma DrainLife(h: History, op: Op)
    requires LifeInv(h) && op.DrainOp?
    ensures LifeInv(Extend(h, op))
  {
    DrainMeaning(h.state, op.cutoff, op.inclusive);
    DrainCounts(h.state, op.cutoff, op.inclusive);
    var out := Drain(h.state, op.cutoff, op.inclusive).1;
    assert NoRepeats(out) by {
      forall i, j | 0 <= i < j < |out| ensures out[i] != out[j] { assert Earlier(h.state.pending, out[i], out[j]); }
    }
    forall i, j | 0 <= i < j < |h.drained + out| ensures (h.drained + out)[i] != (h.drained + out)[j] {
      if i < |h.drained| <= j { assert h.drained[i] in h.drained && out[j - |h.drained|] in out; }
    }
  }

  /** On every run each accepted id is exactly one of pending, cancelled, or drained once; a pending action
      still carries the time it was scheduled for and its place in the order of acceptance; and the counts
      of the three fates add up. */
  lemma {:induction false} ExactlyOneFate(ops: seq<Op>)
    ensures LifeInv(Replay(ops))
    decreases |ops|
  {
    if |ops| > 0 {
      ExactlyOneFate(ops[..|ops| - 1]);
      LifeStep(Replay(ops[..|ops| - 1]), ops[|ops| - 1]);
    }
  }

  /** Ties are first come, first served: of two actions due at the same time, a drain hands out the one
      accepted earlier first, on every run. */
  lemma TiesByArrival(ops: seq<Op>, cutoff: LogicalTime, inclusive: bool, i: nat, j: nat)
    requires i < j < |Drain(Replay(ops).state, cutoff, inclusive).1|
    ensures var h := Replay(ops);
      var out := Drain(h.state, cutoff, inclusive).1;
      && out[i] in h.state.pending && out[j] in h.state.pending
      && (h.state.pending[out[i]].due == h.state.pending[out[j]].due ==>
        exists p, q :: 0 <= p < q < |h.accepted| && h.accepted[p] == out[i] && h.accepted[q] == out[j])
  {
    var h := Replay(ops);
    ExactlyOneFate(ops);
    DrainMeaning(h.state, cutoff, inclusive);
    var out := Drain(h.state, cutoff, inclusive).1;
    assert Earlier(h.state.pending, out[i], out[j]);
    var p, q := h.state.pending[out[i]].insertion, h.state.pending[out[j]].insertion;
    assert h.accepted[p] == out[i] && h.accepted[q] == out[j];
  }

  /** The lexicographic comparison of receive times, spelled out. */
  predicate DueBy(t: LogicalTime, cutoff: LogicalTime, inclusive: bool) {
    t.ns < cutoff.ns || (t.ns == cutoff.ns && (t.seqno < cutoff.seqno || (t.seqno == cutoff.seqno && inclusive)))
  }

  /** What a drain hands out, told from the operations alone: after any run, exactly the ids that were
      accepted, neither cancelled nor drained before, and scheduled for a time due by the cutoff. */
  lemma DrainByRequest(ops: seq<Op>, cutoff: LogicalTime, inclusive: bool, id: int)
    ensures var h := Replay(ops);
      id in Drain(h.state, cutoff, inclusive).1 <==>
        id in h.asked && id !in h.cancelled && id !in h.drained && DueBy(h.asked[id], cutoff, inclusive)
  {
    ExactlyOneFate(ops);
    DrainMeaning(Replay(ops).state, cutoff, inclusive);
  }

  /** A schedule is accepted exactly for a non-negative id never accepted before, cancelled and drained ones
      included; a cancel exactly while the action is neither cancelled nor drained. Refusals change nothing
      and name their fault. */
  lemma DecisionsByHistory(ops: seq<Op>, id: int, due: LogicalTime)
    ensures var h := Replay(ops);
      var (s', d) := Schedule(h.state, id, due);
      && (d.Accepted? <==> id >= 0 && id !in h.asked)
      && (d.Rejected? ==> s' == h.state && d == Rejected(if id < 0 then InvalidActionId else DuplicateActionId))
      && (d.Accepted? ==> s'.pending == h.state.pending[id := Action(due, |h.accepted|)])
    ensures var h := Replay(ops);
      var (s', d) := Cancel(h.state, id);
      && (d.Accepted? <==> id in h.asked && id !in h.cancelled && id !in h.drained)
      && (d.Rejected? ==> s' == h.state && d == Rejected(UnknownAction))
      && (d.Accepted? ==> forall other :: other in s'.pending <==> other in h.state.pending && other != id)
  {
    ExactlyOneFate(ops);
  }

  /** The pending count a row reports is the ids accepted so far, less those cancelled, less those drained. */
  lemma PendingCountMeaning(ops: seq<Op>, op: Op)
    ensures var h := Extend(Replay(ops), op);
      Step(Replay(ops).state, op).1.pendingCount == |h.accepted| - |h.cancelled| - |h.drained|
  {
    ExactlyOneFate(ops);
    LifeStep(Replay(ops), op);
  }
}

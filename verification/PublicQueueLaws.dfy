/** Laws of the public queue over whole runs: the invariant, the closed form of a print,
    conservation of lots, split/merge of prints, and "a cancel never hurts another order". */
module PublicQueueLaws {
  import opened Common
  import opened PublicQueue

  datatype Op = PlaceOp(id: int, ahead: int, qty: int) | CancelOp(id: int) | ConsumeOp(n: int) | InvalidateOp

  function Step(s: State, op: Op): Outcome
    requires Known(s.orders, s.queue)
  {
    match op
    case PlaceOp(id, ahead, qty) => var (s', d) := Place(s, id, ahead, qty); Outcome(s', d, [], 0)
    case CancelOp(id) => var (s', d) := Cancel(s, id); Outcome(s', d, [], 0)
    case ConsumeOp(n) => Consume(s, n)
    case InvalidateOp => Outcome(Invalidate(s), Accepted, [], 0)
  }

  // ----- the invariant -----

  lemma InvIsLiveQueue(s: State)
    requires Inv(s)
    ensures LiveQueue(s.orders, s.queue) && Known(s.orders, s.queue)
  {
  }

  lemma {:induction false} RemoveFirstIsSurvivors(q: seq<int>, orders: Orders, id: int)
    requires Distinct(q) && id in q
    requires forall x :: x in q ==> (IsLive(orders, x) <==> x != id)
    ensures RemoveFirst(q, id) == Survivors(q, orders)
  {
    if q[0] == id {
      AllSurvive(q[1..], orders);
    } else {
      assert q == [q[0]] + q[1..];
      RemoveFirstIsSurvivors(q[1..], orders, id);
    }
  }

  lemma {:induction false} NoneSurvive(q: seq<int>, orders: Orders)
    requires forall x :: x in q ==> !IsLive(orders, x)
    ensures Survivors(q, orders) == []
  {
    if |q| > 0 { NoneSurvive(q[1..], orders); }
  }

  lemma {:induction false} SurvivorsMembers(q: seq<int>, orders: Orders)
    ensures forall x :: x in Survivors(q, orders) <==> x in q && IsLive(orders, x)
    ensures Distinct(q) ==> Distinct(Survivors(q, orders))
  {
    if |q| > 0 {
      assert q == [q[0]] + q[1..];
      SurvivorsMembers(q[1..], orders);
      if Distinct(q) {
        assert Distinct(q[1..]) && q[0] !in q[1..];
      }
    }
  }

  lemma SurvivorsHead(x: int, rest: seq<int>, orders: Orders)
    ensures Survivors([x] + rest, orders) == (if IsLive(orders, x) then [x] else []) + Survivors(rest, orders)
  {
    assert ([x] + rest)[1..] == rest;
  }

  lemma {:induction false} SurvivorsCompose(q: seq<int>, first: Orders, second: Orders)
    requires forall x :: x in q && IsLive(second, x) ==> IsLive(first, x)
    ensures Survivors(Survivors(q, first), second) == Survivors(q, second)
  {
    if |q| > 0 {
      var x, rest := q[0], q[1..];
      assert q == [x] + rest;
      assert x in q && forall y :: y in rest ==> y in q;
      hide Survivors, IsLive;
      SurvivorsCompose(rest, first, second);
      SurvivorsHead(x, rest, first);
      SurvivorsHead(x, rest, second);
      if IsLive(first, x) {
        SurvivorsHead(x, Survivors(rest, first), second);
      } else {
        assert [] + Survivors(rest, first) == Survivors(rest, first);
        assert [] + Survivors(rest, second) == Survivors(rest, second);
      }
    }
  }

  /** Where a place is accepted at the tail, every other step only lets dead orders drop out. */
  function Appended(s: State, op: Op): seq<int> {
    if op.PlaceOp? && Place(s, op.id, op.ahead, op.qty).1.Accepted? then [op.id] else []
  }

  lemma {:induction false} SurvivorsConcat(a: seq<int>, b: seq<int>, orders: Orders)
    ensures Survivors(a + b, orders) == Survivors(a, orders) + Survivors(b, orders)
  {
    if |a| == 0 { assert a + b == b; } else {
      assert (a + b)[1..] == a[1..] + b;
      SurvivorsConcat(a[1..], b, orders);
    }
  }

  lemma ConsumeShape(s: State, n: int)
    requires Inv(s) && n > 0
    ensures Known(s.orders, s.queue)
    ensures var r := Consume(s, n);
      && r.decision == Accepted
      && r.state.seen == s.seen
      && r.state.orders.Keys == s.orders.Keys
      && (forall id :: id in s.orders && id !in s.queue ==> r.state.orders[id] == s.orders[id])
      && (forall i :: 0 <= i < |s.queue| ==>
        r.state.orders[s.queue[i]] == After(s.orders[s.queue[i]], n - Before(s.orders, s.queue, i)))
      && r.state.queue == Survivors(s.queue, r.state.orders)
  {
    InvIsLiveQueue(s);
    EatFrame(s.orders, s.queue, n);
    EatQueue(s.orders, s.queue, n);
    forall i | 0 <= i < |s.queue|
      ensures s.queue[i] in Eat(s.orders, s.queue, n).orders
      ensures Eat(s.orders, s.queue, n).orders[s.queue[i]] ==
        After(s.orders[s.queue[i]], n - Before(s.orders, s.queue, i))
    {
      EatAt(s.orders, s.queue, n, i);
    }
  }

  /** How one order can change in one step, whatever the step. */
  ghost predicate Evolves(o: Order, o': Order) {
    && WellFormedOrder(o')
    && 0 <= o'.remaining <= o.remaining && 0 <= o'.ahead <= o.ahead
    && (o'.state.Live? ==> o.state.Live?)
    && (!o.state.Live? ==> o' == o)
  }

  ghost predicate Shape(s: State, op: Op, s': State) {
    && (forall id :: id in s.orders ==> id in s'.orders && Evolves(s.orders[id], s'.orders[id]))
    && (forall id :: id in s'.orders && id !in s.orders ==>
      Appended(s, op) == [id] && s'.orders[id] == Order(op.ahead, op.qty, Live) && WellFormedOrder(s'.orders[id]))
    && s'.queue == Survivors(s.queue + Appended(s, op), s'.orders)
    && s'.seen == s'.orders.Keys
    && (Appended(s, op) != [] ==> op.id > 0 && op.id !in s.seen && op.id in s'.orders)
  }

  /** A step that changes nothing has the shape of a step. */
  lemma SameShape(s: State, op: Op)
    requires Inv(s) && Appended(s, op) == []
    ensures Shape(s, op, s)
  {
    assert s.queue + [] == s.queue;
    AllSurvive(s.queue, s.orders);
    hide Survivors, Appended;
  }

  lemma TakenShape(s: State, op: Op)
    requires Inv(s) && op.PlaceOp? && Place(s, op.id, op.ahead, op.qty).1.Accepted?
    ensures Shape(s, op, Place(s, op.id, op.ahead, op.qty).0)
  {
    var s' := Place(s, op.id, op.ahead, op.qty).0;
    TakenLine(s, op);
    hide Survivors;
    assert s'.orders == s.orders[op.id := Order(op.ahead, op.qty, Live)];
  }

  lemma TakenLine(s: State, op: Op)
    requires Inv(s) && op.PlaceOp? && Place(s, op.id, op.ahead, op.qty).1.Accepted?
    ensures var s' := Place(s, op.id, op.ahead, op.qty).0; s'.queue == Survivors(s.queue + [op.id], s'.orders)
  {
    var s' := Place(s, op.id, op.ahead, op.qty).0;
    assert forall i :: 0 <= i < |s'.queue| ==> IsLive(s'.orders, s'.queue[i]);
    hide Survivors;
    AllSurvive(s'.queue, s'.orders);
  }

  lemma PlaceShape(s: State, op: Op)
    requires Inv(s) && op.PlaceOp?
    ensures Known(s.orders, s.queue) && Shape(s, op, Step(s, op).state)
  {
    InvIsLiveQueue(s);
    hide Inv, Shape;
    if Place(s, op.id, op.ahead, op.qty).1.Accepted? { TakenShape(s, op); } else { SameShape(s, op); }
  }

  lemma CancelShape(s: State, op: Op)
    requires Inv(s) && op.CancelOp?
    ensures Known(s.orders, s.queue) && Shape(s, op, Step(s, op).state)
  {
    InvIsLiveQueue(s);
    if IsLive(s.orders, op.id) {
      var s' := Step(s, op).state;
      RemoveFirstIsSurvivors(s.queue, s'.orders, op.id);
      hide Survivors, RemoveFirst;
      assert s.queue + [] == s.queue;
    } else {
      SameShape(s, op);
    }
  }

  lemma PrintEvolves(s: State, n: int, id: int)
    requires Inv(s) && n > 0 && id in s.orders
    ensures Known(s.orders, s.queue) && id in Consume(s, n).state.orders
    ensures Evolves(s.orders[id], Consume(s, n).state.orders[id])
  {
    ConsumeShape(s, n);
    if i :| 0 <= i < |s.queue| && s.queue[i] == id {
      AfterEvolves(s.orders[id], n - Before(s.orders, s.queue, i));
    }
  }

  lemma PrintShape(s: State, op: Op)
    requires Inv(s) && op.ConsumeOp?
    ensures Known(s.orders, s.queue) && Shape(s, op, Step(s, op).state)
  {
    assert s.queue + [] == s.queue;
    if op.n <= 0 {
      AllSurvive(s.queue, s.orders);
    } else {
      ConsumeShape(s, op.n);
      var s' := Consume(s, op.n).state;
      forall id | id in s.orders ensures id in s'.orders && Evolves(s.orders[id], s'.orders[id]) {
        PrintEvolves(s, op.n, id);
      }
    }
  }

  lemma AfterEvolves(o: Order, flow: int)
    requires LiveOrder(o)
    ensures Evolves(o, After(o, flow))
  {
  }

  lemma StepShape(s: State, op: Op)
    requires Inv(s)
    ensures Known(s.orders, s.queue) && Shape(s, op, Step(s, op).state)
  {
    match op {
      case PlaceOp(_, _, _) => PlaceShape(s, op);
      case CancelOp(_) => CancelShape(s, op);
      case ConsumeOp(_) => PrintShape(s, op);
      case InvalidateOp =>
        assert s.queue + [] == s.queue;
        NoneSurvive(s.queue, Invalidate(s).orders);
    }
  }

  /** Every step keeps: ids are seen once, queued iff live, and filled iff nothing remains. */
  lemma InvStep(s: State, op: Op)
    requires Inv(s)
    ensures Known(s.orders, s.queue) && Inv(Step(s, op).state)
  {
    StepShape(s, op);
    hide Step;
    InvFromShape(s, op, Step(s, op).state);
  }

  lemma LineGrowsDistinct(s: State, op: Op, s': State)
    requires Inv(s) && Shape(s, op, s')
    ensures Distinct(s.queue + Appended(s, op))
  {
    hide WellFormedOrder, Survivors;
    var added := Appended(s, op);
    assert added != [] ==> added == [op.id] && op.id !in s.orders;
    assert forall i :: 0 <= i < |s.queue| ==> s.queue[i] in s.orders;
  }

  lemma InvFromShape(s: State, op: Op, s': State)
    requires Inv(s) && Shape(s, op, s')
    ensures Inv(s')
  {
    hide Place, Survivors;
    var q := s.queue + Appended(s, op);
    LineGrowsDistinct(s, op, s');
    SurvivorsMembers(q, s'.orders);
    forall id | IsLive(s'.orders, id) ensures id in q {
      if id in s.orders {
        assert Evolves(s.orders[id], s'.orders[id]) && IsLive(s.orders, id);
      } else {
        assert id in Appended(s, op);
      }
    }
  }

  // ----- runs -----

  ghost function Run(s: State, ops: seq<Op>): (s': State)
    requires Inv(s)
    ensures Inv(s')
    decreases |ops|
  {
    if |ops| == 0 then s else
      InvStep(s, ops[0]);
      Run(Step(s, ops[0]).state, ops[1..])
  }

  function FillOf(fills: Fills, id: int): int {
    if |fills| == 0 then 0 else (if fills[0].0 == id then fills[0].1 else 0) + FillOf(fills[1..], id)
  }

  /** Lots filled for one order over a whole run. */
  ghost function TotalFilled(s: State, ops: seq<Op>, id: int): int
    requires Inv(s)
    decreases |ops|
  {
    if |ops| == 0 then 0 else
      InvStep(s, ops[0]);
      FillOf(Step(s, ops[0]).fills, id) + TotalFilled(Step(s, ops[0]).state, ops[1..], id)
  }

  ghost function TotalUnmatched(s: State, ops: seq<Op>): int
    requires Inv(s)
    decreases |ops|
  {
    if |ops| == 0 then 0 else
      InvStep(s, ops[0]);
      Step(s, ops[0]).unmatched + TotalUnmatched(Step(s, ops[0]).state, ops[1..])
  }

  // ----- fills are exactly what leaves the orders -----

  function Remaining(orders: Orders, id: int): int { if id in orders then orders[id].remaining else 0 }

  lemma {:induction false} EatFillOf(orders: Orders, queue: seq<int>, n: int, id: int)
    requires LiveQueue(orders, queue) && n >= 0
    ensures FillOf(Eat(orders, queue, n).fills, id) ==
      Remaining(orders, id) - Remaining(Eat(orders, queue, n).orders, id)
    decreases |queue|
  {
    if |queue| > 0 {
      EatUnfold(orders, queue, n);
      var h, o := queue[0], orders[queue[0]];
      if n >= o.ahead + o.remaining {
        var o' := Order(0, 0, Filled);
        LiveRest(orders, queue, o');
        EatFillOf(orders[h := o'], queue[1..], n - o.ahead - o.remaining, id);
        var r' := Eat(orders[h := o'], queue[1..], n - o.ahead - o.remaining);
        assert ([(h, o.remaining)] + r'.fills)[1..] == r'.fills;
      }
    }
  }

  lemma StepFillOf(s: State, op: Op, id: int)
    requires Inv(s)
    ensures Known(s.orders, s.queue)
    ensures FillOf(Step(s, op).fills, id) ==
      if id in s.orders then s.orders[id].remaining - Remaining(Step(s, op).state.orders, id) else 0
  {
    InvIsLiveQueue(s);
    if op.ConsumeOp? && op.n > 0 {
      EatFillOf(s.orders, s.queue, op.n, id);
      EatFrame(s.orders, s.queue, op.n);
    }
  }

  /** Over any run an order is filled by exactly what leaves its remaining quantity, so never beyond it,
      and once it is filled, cancelled or invalidated it never fills again. */
  lemma {:induction false} LifetimeFills(s: State, ops: seq<Op>, id: int)
    requires Inv(s) && id in s.orders
    ensures id in Run(s, ops).orders
    ensures TotalFilled(s, ops, id) == s.orders[id].remaining - Run(s, ops).orders[id].remaining
    ensures 0 <= TotalFilled(s, ops, id) <= s.orders[id].remaining
    ensures !IsLive(s.orders, id) ==> TotalFilled(s, ops, id) == 0 && Run(s, ops).orders[id] == s.orders[id]
    decreases |ops|
  {
    if |ops| > 0 {
      InvStep(s, ops[0]);
      StepShape(s, ops[0]);
      StepFillOf(s, ops[0], id);
      var s' := Step(s, ops[0]).state;
      assert Evolves(s.orders[id], s'.orders[id]);
      hide Inv, Step, Shape;
      LifetimeFills(s', ops[1..], id);
    }
  }

  function LiveOne(o: Order): int { if o.state.Live? then 1 else 0 }

  function LiveOrderCount(orders: Orders): int { MapSum(orders, LiveOne) }

  lemma {:induction false} CountLive(orders: Orders, queue: seq<int>)
    requires Distinct(queue) && forall i :: 0 <= i < |queue| ==> IsLive(orders, queue[i])
    requires forall id :: IsLive(orders, id) ==> id in queue
    ensures LiveOrderCount(orders) == |queue|
    decreases |queue|
  {
    if |queue| == 0 {
      assert forall id :: id in orders ==> !IsLive(orders, id);
      MapSumZero(orders, LiveOne);
    } else {
      var h, rest := queue[0], orders - {queue[0]};
      MapSumRemove(orders, LiveOne, h);
      forall id | IsLive(rest, id) ensures id in queue[1..] { assert IsLive(orders, id) && id in queue; }
      CountLive(rest, queue[1..]);
    }
  }

  /** The number of live orders is the length of the line. */
  lemma LiveCountIsQueueLength(s: State)
    requires Inv(s)
    ensures LiveOrderCount(s.orders) == |s.queue|
  {
    CountLive(s.orders, s.queue);
  }

  // ----- a print in closed form, and conservation of its lots -----

  function AheadLots(orders: Orders, queue: seq<int>): int
    requires Known(orders, queue)
  {
    if |queue| == 0 then 0 else orders[queue[0]].ahead + AheadLots(orders, queue[1..])
  }

  function TotalLots(fills: Fills): int {
    if |fills| == 0 then 0 else fills[0].1 + TotalLots(fills[1..])
  }

  lemma {:induction false} AheadFrame(a: Orders, b: Orders, queue: seq<int>)
    requires Known(a, queue) && Known(b, queue)
    requires forall i :: 0 <= i < |queue| ==> a[queue[i]].ahead == b[queue[i]].ahead
    ensures AheadLots(a, queue) == AheadLots(b, queue)
  {
    if |queue| > 0 { AheadFrame(a, b, queue[1..]); }
  }

  ghost predicate Conserves(orders: Orders, queue: seq<int>, n: int, r: Eaten)
    requires Known(orders, queue)
  {
    && Known(r.orders, queue)
    && n == AheadLots(orders, queue) - AheadLots(r.orders, queue) + TotalLots(r.fills) + r.left
  }

  lemma EatConservesHead(orders: Orders, queue: seq<int>, n: int)
    requires LiveQueue(orders, queue) && |queue| > 0
    requires 0 <= n < orders[queue[0]].ahead + orders[queue[0]].remaining
    ensures Conserves(orders, queue, n, Eat(orders, queue, n))
  {
    EatUnfold(orders, queue, n);
    EatFrame(orders, queue, n);
    var r := Eat(orders, queue, n);
    AheadFrame(orders, r.orders, queue[1..]);
  }

  lemma ConservesCons(orders: Orders, queue: seq<int>, n: int, r: Eaten)
    requires LiveQueue(orders, queue) && |queue| > 0
    requires var o := orders[queue[0]];
      LiveQueue(orders[queue[0] := Order(0, 0, Filled)], queue[1..])
      && Conserves(orders[queue[0] := Order(0, 0, Filled)], queue[1..], n - o.ahead - o.remaining, r)
    requires queue[0] in r.orders && r.orders[queue[0]] == Order(0, 0, Filled)
    ensures Conserves(orders, queue, n, r.(fills := [(queue[0], orders[queue[0]].remaining)] + r.fills))
  {
    AheadFrame(orders, orders[queue[0] := Order(0, 0, Filled)], queue[1..]);
    assert ([(queue[0], orders[queue[0]].remaining)] + r.fills)[1..] == r.fills;
  }

  lemma EatConservesPast(orders: Orders, queue: seq<int>, n: int)
    requires LiveQueue(orders, queue) && |queue| > 0 && n >= orders[queue[0]].ahead + orders[queue[0]].remaining
    requires LiveQueue(orders[queue[0] := Order(0, 0, Filled)], queue[1..])
    requires var o, orders' := orders[queue[0]], orders[queue[0] := Order(0, 0, Filled)];
      var left := n - o.ahead - o.remaining;
      Conserves(orders', queue[1..], left, Eat(orders', queue[1..], left))
    ensures Conserves(orders, queue, n, Eat(orders, queue, n))
  {
    hide Eat, Conserves;
    var o, orders' := orders[queue[0]], orders[queue[0] := Order(0, 0, Filled)];
    EatUnfold(orders, queue, n);
    EatFrame(orders', queue[1..], n - o.ahead - o.remaining);
    ConservesCons(orders, queue, n, Eat(orders', queue[1..], n - o.ahead - o.remaining));
  }

  lemma {:induction false} EatConserves(orders: Orders, queue: seq<int>, n: int)
    requires LiveQueue(orders, queue) && n >= 0
    ensures Conserves(orders, queue, n, Eat(orders, queue, n))
    decreases |queue|
  {
    if |queue| > 0 {
      hide Eat, Conserves;
      var o := orders[queue[0]];
      if n < o.ahead + o.remaining {
        EatConservesHead(orders, queue, n);
      } else {
        LiveRest(orders, queue, Order(0, 0, Filled));
        hide LiveQueue;
        EatConserves(orders[queue[0] := Order(0, 0, Filled)], queue[1..], n - o.ahead - o.remaining);
        EatConservesPast(orders, queue, n);
      }
    }
  }

  /** A print of n lots: each queued order gets the part of n that overlaps its own stretch of the
      line, lots are conserved, and lots stay unmatched only when the queue is exhausted. */
  lemma ConsumeClosedForm(s: State, n: int)
    requires Inv(s) && n > 0
    ensures Known(s.orders, s.queue)
    ensures var r := Consume(s, n);
      && r.decision == Accepted
      && (forall i :: 0 <= i < |s.queue| ==>
        && s.queue[i] in r.state.orders
        && r.state.orders[s.queue[i]] == After(s.orders[s.queue[i]], n - Before(s.orders, s.queue, i))
        && FillOf(r.fills, s.queue[i]) == FillAt(s.orders[s.queue[i]], n - Before(s.orders, s.queue, i))
        && FillReported(r.fills, s.queue[i], i, FillOf(r.fills, s.queue[i])))
      && |r.fills| <= |s.queue|
      && (forall id :: id in s.orders && id !in s.queue ==> id in r.state.orders && r.state.orders[id] == s.orders[id])
      && Known(r.state.orders, s.queue)
      && n == AheadLots(s.orders, s.queue) - AheadLots(r.state.orders, s.queue) + TotalLots(r.fills) + r.unmatched
      && r.unmatched == Max(0, n - Work(s.orders, s.queue))
      && (r.unmatched > 0 ==> r.state.queue == [])
  {
    hide Eat, Survivors;
    ConsumeShape(s, n);
    InvIsLiveQueue(s);
    EatLeft(s.orders, s.queue, n);
    EatConserves(s.orders, s.queue, n);
    assert Conserves(s.orders, s.queue, n, Eat(s.orders, s.queue, n));
    EatFillCount(s.orders, s.queue, n);
    var r := Consume(s, n);
    forall i | 0 <= i < |s.queue|
      ensures FillOf(r.fills, s.queue[i]) == FillAt(s.orders[s.queue[i]], n - Before(s.orders, s.queue, i))
      ensures FillReported(r.fills, s.queue[i], i, FillOf(r.fills, s.queue[i]))
    {
      EatFillOf(s.orders, s.queue, n, s.queue[i]);
      EatFills(s.orders, s.queue, n, i);
    }
  }

  // ----- split and merge -----

  lemma {:induction false} EatKeepsLive(orders: Orders, queue: seq<int>, n: int)
    requires LiveQueue(orders, queue) && n >= 0
    ensures LiveQueue(Eat(orders, queue, n).orders, Eat(orders, queue, n).queue)
    ensures Eat(orders, queue, n).left >= 0
    decreases |queue|
  {
    if |queue| > 0 {
      EatUnfold(orders, queue, n);
      var h, o := queue[0], orders[queue[0]];
      if n >= o.ahead + o.remaining {
        LiveRest(orders, queue, Order(0, 0, Filled));
        EatKeepsLive(orders[h := Order(0, 0, Filled)], queue[1..], n - o.ahead - o.remaining);
      }
    }
  }

  ghost predicate Splits(orders: Orders, queue: seq<int>, a: int, b: int)
    requires LiveQueue(orders, queue)
  {
    var r1 := Eat(orders, queue, a);
    var r := Eat(orders, queue, a + b);
    && LiveQueue(r1.orders, r1.queue)
    && var r2 := Eat(r1.orders, r1.queue, b);
    && r2.orders == r.orders && r2.queue == r.queue && r1.left + r2.left == r.left
  }

  lemma AfterAfter(o: Order, a: int, b: int)
    requires LiveOrder(o) && a >= 0 && b >= 0 && a < o.ahead + o.remaining
    ensures LiveOrder(After(o, a))
    ensures After(o, a).ahead + After(o, a).remaining == o.ahead + o.remaining - a
    ensures After(After(o, a), b) == After(o, a + b)
  {
  }

  /** EatUnfold as a relation, so that a proof can use one unrolling without the definition. */
  ghost predicate Unfolds(orders: Orders, queue: seq<int>, n: int, r: Eaten, rest: Eaten)
    requires |queue| > 0 && queue[0] in orders
  {
    var o := orders[queue[0]];
    if n >= o.ahead + o.remaining then
      && r.orders == rest.orders && r.queue == rest.queue && r.left == rest.left
    else r.orders == orders[queue[0] := After(o, n)] && r.queue == queue && r.left == 0
  }

  lemma SplitAtHeadFrom(orders: Orders, queue: seq<int>, a: int, b: int, r1: Eaten, r2: Eaten, r: Eaten, rest: Eaten)
    requires |queue| > 0 && queue[0] in orders && LiveOrder(orders[queue[0]]) && a >= 0 && b >= 0
    requires a < orders[queue[0]].ahead + orders[queue[0]].remaining
    requires Unfolds(orders, queue, a, r1, rest) && Unfolds(orders, queue, a + b, r, rest)
    requires Unfolds(r1.orders, queue, b, r2, rest)
    ensures r2.orders == r.orders && r2.queue == r.queue && r1.left + r2.left == r.left
  {
    AfterAfter(orders[queue[0]], a, b);
  }

  lemma SplitAtHead(orders: Orders, queue: seq<int>, a: int, b: int)
    requires LiveQueue(orders, queue) && a >= 0 && b >= 0 && |queue| > 0
    requires a < orders[queue[0]].ahead + orders[queue[0]].remaining
    ensures Splits(orders, queue, a, b)
  {
    hide Eat, After, FillAt;
    var h, o := queue[0], orders[queue[0]];
    var o1 := After(o, a);
    AfterAfter(o, a, b);
    EatKeepsLive(orders, queue, a);
    EatUnfold(orders, queue, a);
    EatUnfold(orders[h := o1], queue, b);
    EatUnfold(orders, queue, a + b);
    var filled := orders[h := Order(0, 0, Filled)];
    assert orders[h := o1][h := Order(0, 0, Filled)] == filled;
    LiveRest(orders, queue, Order(0, 0, Filled));
    var rest := Eat(filled, queue[1..], a + b - o.ahead - o.remaining);
    var r1, r2, r := Eat(orders, queue, a), Eat(orders[h := o1], queue, b), Eat(orders, queue, a + b);
    SplitAtHeadFrom(orders, queue, a, b, r1, r2, r, rest);
  }

  lemma SplitPastHead(orders: Orders, queue: seq<int>, a: int, b: int)
    requires LiveQueue(orders, queue) && a >= 0 && b >= 0 && |queue| > 0
    requires a >= orders[queue[0]].ahead + orders[queue[0]].remaining
    requires LiveQueue(orders[queue[0] := Order(0, 0, Filled)], queue[1..])
    requires Splits(orders[queue[0] := Order(0, 0, Filled)], queue[1..],
      a - orders[queue[0]].ahead - orders[queue[0]].remaining, b)
    ensures Splits(orders, queue, a, b)
  {
    hide Eat;
    EatUnfold(orders, queue, a);
    EatUnfold(orders, queue, a + b);
  }

  lemma {:induction false} EatSplit(orders: Orders, queue: seq<int>, a: int, b: int)
    requires LiveQueue(orders, queue) && a >= 0 && b >= 0
    ensures Splits(orders, queue, a, b)
    decreases |queue|
  {
    if |queue| > 0 {
      hide Eat;
      var o := orders[queue[0]];
      if a < o.ahead + o.remaining {
        SplitAtHead(orders, queue, a, b);
      } else {
        LiveRest(orders, queue, Order(0, 0, Filled));
        EatSplit(orders[queue[0] := Order(0, 0, Filled)], queue[1..], a - o.ahead - o.remaining, b);
        SplitPastHead(orders, queue, a, b);
      }
    }
  }

  /** Two prints in a row are one print of their total: same state, same fills per order,
      same unmatched lots. */
  lemma ConsumeSplit(s: State, a: int, b: int)
    requires Inv(s) && a > 0 && b > 0
    ensures Known(s.orders, s.queue)
    ensures var r1 := Consume(s, a); var r := Consume(s, a + b);
      && Inv(r1.state) && Known(r1.state.orders, r1.state.queue)
      && var r2 := Consume(r1.state, b);
      && r2.state == r.state
      && r1.unmatched + r2.unmatched == r.unmatched
      && forall id :: FillOf(r1.fills, id) + FillOf(r2.fills, id) == FillOf(r.fills, id)
  {
    hide Eat;
    InvIsLiveQueue(s);
    EatSplit(s.orders, s.queue, a, b);
    InvStep(s, ConsumeOp(a));
    var s1 := Consume(s, a).state;
    InvIsLiveQueue(s1);
    forall id
      ensures FillOf(Consume(s, a).fills, id) + FillOf(Consume(s1, b).fills, id) == FillOf(Consume(s, a + b).fills, id)
    {
      EatFillOf(s.orders, s.queue, a, id);
      EatFillOf(s1.orders, s1.queue, b, id);
      EatFillOf(s.orders, s.queue, a + b, id);
    }
  }

  function Prints(lots: seq<int>): seq<Op> { seq(|lots|, i requires 0 <= i < |lots| => ConsumeOp(lots[i])) }

  function Volume(lots: seq<int>): int { if |lots| == 0 then 0 else lots[0] + Volume(lots[1..]) }

  /** However a volume is cut into prints, the outcome is that of a single print. */
  lemma {:induction false} PrintsMerge(s: State, lots: seq<int>)
    requires Inv(s) && |lots| > 0 && forall i :: 0 <= i < |lots| ==> lots[i] > 0
    ensures Known(s.orders, s.queue) && Volume(lots) > 0
    ensures var r := Consume(s, Volume(lots));
      && Run(s, Prints(lots)) == r.state
      && TotalUnmatched(s, Prints(lots)) == r.unmatched
      && forall id :: TotalFilled(s, Prints(lots), id) == FillOf(r.fills, id)
    decreases |lots|
  {
    var ops := Prints(lots);
    InvStep(s, ops[0]);
    var r1 := Consume(s, lots[0]);
    assert ops[1..] == Prints(lots[1..]);
    if |lots| == 1 {
      assert Volume(lots[1..]) == 0 && |ops[1..]| == 0;
    } else {
      PrintsMerge(r1.state, lots[1..]);
      ConsumeSplit(s, lots[0], Volume(lots[1..]));
    }
  }

  // ----- a cancel never hurts another order -----

  ghost predicate Better(oa: Order, ob: Order) {
    && oa.ahead <= ob.ahead
    && oa.remaining <= ob.remaining
    && (oa.state.Live? ==> ob.state.Live?)
    && (ob.state.Live? && !oa.state.Live? ==> oa.state.Filled?)
  }

  /** State a is b with order x out of the way: every other order is at least as far along. */
  ghost predicate NoWorse(a: State, b: State, x: int) {
    && a.seen == b.seen
    && x in a.orders && !a.orders[x].state.Live?
    && (forall id :: id in a.orders && id in b.orders && id != x ==> Better(a.orders[id], b.orders[id]))
    && a.queue == Survivors(b.queue, a.orders)
  }

  lemma BetterAfter(oa: Order, ob: Order, fa: int, fb: int)
    requires Better(oa, ob) && LiveOrder(oa) && LiveOrder(ob) && fa >= fb
    ensures Better(After(oa, fa), After(ob, fb))
  {
  }

  lemma {:induction false} WorkOfSurvivors(oa: Orders, ob: Orders, q: seq<int>)
    requires Known(ob, q)
    requires forall i :: 0 <= i < |q| && IsLive(oa, q[i]) ==> Better(oa[q[i]], ob[q[i]])
    requires forall i :: 0 <= i < |q| ==> ob[q[i]].ahead >= 0 && ob[q[i]].remaining >= 0
    ensures Known(oa, Survivors(q, oa)) && Work(oa, Survivors(q, oa)) <= Work(ob, q)
  {
    if |q| > 0 {
      WorkOfSurvivors(oa, ob, q[1..]);
      var rest := Survivors(q[1..], oa);
      if IsLive(oa, q[0]) {
        assert Survivors(q, oa)[1..] == rest;
      } else {
        assert Survivors(q, oa) == rest;
      }
    }
  }

  /** An order live on both sides is reached by at least as much flow on the better side. */
  lemma FlowNoWorse(a: State, b: State, x: int, j: nat) returns (i: nat)
    requires Inv(a) && Inv(b) && NoWorse(a, b, x)
    requires j < |b.queue| && IsLive(a.orders, b.queue[j])
    ensures i < |a.queue| && a.queue[i] == b.queue[j]
    ensures Known(a.orders, a.queue) && Known(b.orders, b.queue)
    ensures Before(a.orders, a.queue, i) <= Before(b.orders, b.queue, j)
  {
    InvIsLiveQueue(a);
    InvIsLiveQueue(b);
    var front, back := b.queue[..j], b.queue[j..];
    assert b.queue == front + back;
    SurvivorsConcat(front, back, a.orders);
    i := |Survivors(front, a.orders)|;
    assert back[0] == b.queue[j];
    assert a.queue[..i] == Survivors(front, a.orders);
    forall k | 0 <= k < |front| && IsLive(a.orders, front[k]) ensures Better(a.orders[front[k]], b.orders[front[k]]) {
      assert front[k] == b.queue[k];
    }
    WorkOfSurvivors(a.orders, b.orders, front);
  }

  lemma PrintNoWorse(a: State, b: State, x: int, n: int, id: int)
    requires Inv(a) && Inv(b) && NoWorse(a, b, x) && n > 0
    requires id in a.orders && id in b.orders && id != x
    ensures Known(a.orders, a.queue) && Known(b.orders, b.queue)
    ensures id in Consume(a, n).state.orders && id in Consume(b, n).state.orders
    ensures Better(Consume(a, n).state.orders[id], Consume(b, n).state.orders[id])
  {
    if IsLive(a.orders, id) {
      PrintNoWorseLive(a, b, x, n, id);
    } else {
      PrintEvolves(a, n, id);
      PrintEvolves(b, n, id);
    }
  }

  lemma PrintNoWorseLive(a: State, b: State, x: int, n: int, id: int)
    requires Inv(a) && Inv(b) && NoWorse(a, b, x) && n > 0
    requires IsLive(a.orders, id) && id in b.orders && id != x
    ensures Known(a.orders, a.queue) && Known(b.orders, b.queue)
    ensures id in Consume(a, n).state.orders && id in Consume(b, n).state.orders
    ensures Better(Consume(a, n).state.orders[id], Consume(b, n).state.orders[id])
  {
    InvIsLiveQueue(a);
    InvIsLiveQueue(b);
    assert Better(a.orders[id], b.orders[id]) && IsLive(b.orders, id);
    var j :| 0 <= j < |b.queue| && b.queue[j] == id;
    var i := FlowNoWorse(a, b, x, j);
    var fa, fb := n - Before(a.orders, a.queue, i), n - Before(b.orders, b.queue, j);
    BetterAfter(a.orders[id], b.orders[id], fa, fb);
    PrintAt(a, n, i);
    PrintAt(b, n, j);
  }

  lemma PrintAt(s: State, n: int, i: nat)
    requires Inv(s) && n > 0 && i < |s.queue|
    ensures Known(s.orders, s.queue) && s.queue[i] in Consume(s, n).state.orders
    ensures Consume(s, n).state.orders[s.queue[i]] == After(s.orders[s.queue[i]], n - Before(s.orders, s.queue, i))
  {
    InvIsLiveQueue(s);
    EatAt(s.orders, s.queue, n, i);
  }

  lemma StepBetter(a: State, b: State, x: int, op: Op, id: int)
    requires Inv(a) && Inv(b) && NoWorse(a, b, x) && id != x
    ensures Known(a.orders, a.queue) && Known(b.orders, b.queue)
    ensures var a', b' := Step(a, op).state, Step(b, op).state;
      id in a'.orders && id in b'.orders ==> Better(a'.orders[id], b'.orders[id])
  {
    InvIsLiveQueue(a);
    InvIsLiveQueue(b);
    if op.ConsumeOp? && op.n > 0 && id in a.orders {
      PrintNoWorse(a, b, x, op.n, id);
    } else if op.ConsumeOp? && op.n > 0 {
      ConsumeShape(a, op.n);
    }
  }

  lemma QueueNoWorse(a: seq<int>, b: seq<int>, added: seq<int>, oa: Orders, oa': Orders, ob': Orders)
    requires a == Survivors(b, oa)
    requires forall x :: x in b && IsLive(oa', x) ==> IsLive(oa, x)
    requires forall x :: x in b + added && IsLive(oa', x) ==> IsLive(ob', x)
    ensures Survivors(a + added, oa') == Survivors(Survivors(b + added, ob'), oa')
  {
    SurvivorsConcat(a, added, oa');
    SurvivorsConcat(b, added, oa');
    SurvivorsCompose(b, oa, oa');
    SurvivorsCompose(b + added, ob', oa');
  }

  lemma NoWorseStep(a: State, b: State, x: int, op: Op)
    requires Inv(a) && Inv(b) && NoWorse(a, b, x)
    ensures Known(a.orders, a.queue) && Known(b.orders, b.queue)
    ensures NoWorse(Step(a, op).state, Step(b, op).state, x)
  {
    StepShape(a, op);
    StepShape(b, op);
    var a', b' := Step(a, op).state, Step(b, op).state;
    NoWorseStepFrom(a, b, x, op, a', b');
  }

  lemma NoWorseStepFrom(a: State, b: State, x: int, op: Op, a': State, b': State)
    requires Inv(a) && Inv(b) && NoWorse(a, b, x)
    requires Known(a.orders, a.queue) && Known(b.orders, b.queue)
    requires a' == Step(a, op).state && b' == Step(b, op).state
    requires Shape(a, op, a') && Shape(b, op, b')
    ensures NoWorse(a', b', x)
  {
    hide Step, Survivors;
    var added := Appended(a, op);
    assert added == Appended(b, op);
    forall id | id in a'.orders && id in b'.orders && id != x ensures Better(a'.orders[id], b'.orders[id]) {
      StepBetter(a, b, x, op, id);
    }
    assert a'.seen == b'.seen by {
      assert forall id :: id in a'.orders <==> id in a.seen || id in added;
      assert forall id :: id in b'.orders <==> id in b.seen || id in added;
    }
    assert Evolves(a.orders[x], a'.orders[x]);
    forall y | y in b.queue && IsLive(a'.orders, y) ensures IsLive(a.orders, y) {
      assert y in b.orders && y in a.orders && Evolves(a.orders[y], a'.orders[y]);
    }
    QueueNoWorse(a.queue, b.queue, added, a.orders, a'.orders, b'.orders);
  }

  lemma {:induction false} NoWorseRun(a: State, b: State, x: int, ops: seq<Op>, id: int)
    requires Inv(a) && Inv(b) && NoWorse(a, b, x) && id != x
    ensures TotalFilled(a, ops, id) - TotalFilled(b, ops, id) >= Remaining(a.orders, id) - Remaining(b.orders, id)
    ensures NoWorse(Run(a, ops), Run(b, ops), x)
    decreases |ops|
  {
    if |ops| > 0 {
      var op := ops[0];
      InvStep(a, op);
      InvStep(b, op);
      NoWorseStep(a, b, x, op);
      StepFillOf(a, op, id);
      StepFillOf(b, op, id);
      StepShape(a, op);
      StepShape(b, op);
      NoWorseRun(Step(a, op).state, Step(b, op).state, x, ops[1..], id);
    }
  }

  /** Cancelling a live order and then doing anything at all (prints, places, cancels, epochs) gives
      every other order at least the cumulative fill it would have had without the cancel. */
  lemma CancelNeverHurts(s: State, x: int, ops: seq<Op>, id: int)
    requires Inv(s) && IsLive(s.orders, x) && id != x
    ensures Inv(Cancel(s, x).0)
    ensures TotalFilled(Cancel(s, x).0, ops, id) >= TotalFilled(s, ops, id)
    ensures Remaining(Run(Cancel(s, x).0, ops).orders, id) <= Remaining(Run(s, ops).orders, id)
  {
    var a := Cancel(s, x).0;
    InvStep(s, CancelOp(x));
    StepShape(s, CancelOp(x));
    assert s.queue + [] == s.queue;
    NoWorseRun(a, s, x, ops, id);
  }

  // ----- what each operation does, and when it refuses -----

  /** A place is accepted exactly for a fresh positive id, no negative queue-ahead and a positive quantity; it
      then appends one live order with these very lots. Refused, it burns nothing and names the first fault. */
  lemma PlaceMeaning(s: State, id: int, ahead: int, qty: int)
    requires Inv(s)
    ensures var (s', d) := Place(s, id, ahead, qty);
      && (d.Accepted? <==> id > 0 && id !in s.seen && ahead >= 0 && qty > 0)
      && (d.Accepted? ==> s'.queue == s.queue + [id] && s'.seen == s.seen + {id})
      && (d.Accepted? ==> s'.orders.Keys == s.orders.Keys + {id} && OthersKept(s.orders, s'.orders, id))
      && (d.Accepted? ==> s'.orders[id].ahead == ahead && s'.orders[id].remaining == qty && s'.orders[id].state == Live)
      && (d.Rejected? ==> s' == s)
      && (d == Rejected(InvalidOrderId) <==> id <= 0)
      && (d == Rejected(DuplicateOrderId) <==> id > 0 && id in s.orders)
      && (d == Rejected(InvalidQueueAhead) <==> id > 0 && id !in s.orders && ahead < 0)
      && (d == Rejected(InvalidQuantity) <==> id > 0 && id !in s.orders && ahead >= 0 && qty <= 0)
  {
  }

  ghost predicate OthersKept(before: Orders, after: Orders, id: int) {
    forall other :: other in before && other != id ==> other in after && after[other] == before[other]
  }

  lemma {:induction false} RemovedOnce(q: seq<int>, id: int) returns (i: nat)
    requires id in q
    ensures i < |q| && q[i] == id && RemoveFirst(q, id) == q[..i] + q[i + 1..]
  {
    if q[0] == id {
      i := 0;
    } else {
      assert q == [q[0]] + q[1..];
      var j := RemovedOnce(q[1..], id);
      i := j + 1;
      assert q[..i] == [q[0]] + q[1..][..j] && q[i + 1..] == q[1..][j + 1..];
    }
  }

  /** The line without one of its orders, the others in their places. */
  ghost predicate LineWithout(before: seq<int>, after: seq<int>, id: int) {
    exists i :: 0 <= i < |before| && before[i] == id && after == before[..i] + before[i + 1..]
  }

  /** A cancel is accepted exactly for a live order; that order becomes cancelled with its lots as they were,
      leaves the line, and nothing else changes. */
  lemma CancelMeaning(s: State, id: int)
    requires Inv(s)
    ensures var (s', d) := Cancel(s, id);
      && (d.Accepted? <==> IsLive(s.orders, id))
      && (d.Accepted? ==> s'.orders.Keys == s.orders.Keys && OthersKept(s.orders, s'.orders, id))
      && (d.Accepted? ==> s'.orders[id] == Order(s.orders[id].ahead, s.orders[id].remaining, Cancelled))
      && (d.Accepted? ==> LineWithout(s.queue, s'.queue, id) && s'.seen == s.seen)
      && (d.Rejected? ==> s' == s)
      && (d == Rejected(UnknownOrder) <==> id !in s.orders)
      && (d == Rejected(OrderNotLive) <==> id in s.orders && s.orders[id].state != Live)
  {
    if IsLive(s.orders, id) {
      var i := RemovedOnce(s.queue, id);
    }
  }

  /** An epoch marks exactly the live orders as invalidated, keeps every lot and every id, and empties the line. */
  lemma InvalidateMeaning(s: State)
    ensures var s' := Invalidate(s);
      && s'.queue == [] && s'.seen == s.seen && s'.orders.Keys == s.orders.Keys
      && (forall id :: id in s.orders ==>
        && s'.orders[id].ahead == s.orders[id].ahead && s'.orders[id].remaining == s.orders[id].remaining
        && s'.orders[id].state == if s.orders[id].state == Live then EpochInvalidated else s.orders[id].state)
  {
  }

  /** A print without lots is refused and does nothing; any other is accepted. */
  lemma ConsumeRefusal(s: State, n: int)
    requires Inv(s)
    ensures Known(s.orders, s.queue)
    ensures n <= 0 ==> Consume(s, n) == Outcome(s, Rejected(InvalidConsumption), [], 0)
    ensures n > 0 ==> Consume(s, n).decision == Accepted && Consume(s, n).state.seen == s.seen
  {
    InvIsLiveQueue(s);
  }
}

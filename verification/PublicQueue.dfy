/** Specification of the single-price public queue: transitions on values, the closed form of a
    trade print, the split/merge law and the monotonicity of cancels. */
module PublicQueue {
  import opened Common

  datatype OrderState = Live | Filled | Cancelled | EpochInvalidated

  datatype Order = Order(ahead: int, remaining: int, state: OrderState)

  type Orders = map<int, Order>

  datatype State = State(orders: Orders, queue: seq<int>, seen: set<int>)

  const EMPTY := State(map[], [], {})

  type Fills = seq<(int, int)>

  datatype Outcome = Outcome(state: State, decision: Decision, fills: Fills, unmatched: int)

  predicate IsLive(orders: Orders, id: int) { id in orders && orders[id].state.Live? }

  ghost predicate Distinct(q: seq<int>) {
    forall i, j :: 0 <= i < j < |q| ==> q[i] != q[j]
  }

  ghost predicate WellFormedOrder(o: Order) {
    && o.ahead >= 0
    && o.remaining >= 0
    && (o.remaining == 0 <==> o.state.Filled?)
    && (o.state.Filled? ==> o.ahead == 0)
  }

  /** The queue holds exactly the live orders, once each. */
  ghost predicate WellQueued(orders: Orders, queue: seq<int>) {
    && Distinct(queue)
    && (forall i :: 0 <= i < |queue| ==> IsLive(orders, queue[i]))
    && (forall id :: IsLive(orders, id) ==> id in queue)
    && (forall id :: id in orders ==> WellFormedOrder(orders[id]))
  }

  ghost predicate Inv(s: State) {
    && s.seen == s.orders.Keys
    && (forall id :: id in s.seen ==> id > 0)
    && WellQueued(s.orders, s.queue)
  }

  // ----- transitions -----

  function Place(s: State, id: int, ahead: int, qty: int): (State, Decision) {
    if id <= 0 then (s, Rejected(InvalidOrderId))
    else if id in s.seen then (s, Rejected(DuplicateOrderId))
    else if ahead < 0 then (s, Rejected(InvalidQueueAhead))
    else if qty <= 0 then (s, Rejected(InvalidQuantity))
    else (State(s.orders[id := Order(ahead, qty, Live)], s.queue + [id], s.seen + {id}), Accepted)
  }

  function RemoveFirst(q: seq<int>, id: int): seq<int> {
    if q == [] then [] else if q[0] == id then q[1..] else [q[0]] + RemoveFirst(q[1..], id)
  }

  function Cancel(s: State, id: int): (State, Decision) {
    if id !in s.orders then (s, Rejected(UnknownOrder))
    else if !s.orders[id].state.Live? then (s, Rejected(OrderNotLive))
    else (s.(orders := s.orders[id := s.orders[id].(state := Cancelled)], queue := RemoveFirst(s.queue, id)), Accepted)
  }

  function Invalidate(s: State): State {
    var orders := map id | id in s.orders ::
      if s.orders[id].state.Live? then s.orders[id].(state := EpochInvalidated) else s.orders[id];
    State(orders, [], s.seen)
  }

  datatype Eaten = Eaten(orders: Orders, queue: seq<int>, fills: Fills, left: int)

  predicate Known(orders: Orders, queue: seq<int>) {
    forall i :: 0 <= i < |queue| ==> queue[i] in orders
  }

  /** One print of n lots against the queue: eat the lots ahead of the head, then fill it. */
  function Eat(orders: Orders, queue: seq<int>, n: int): Eaten
    requires Known(orders, queue)
    decreases |queue|
  {
    if n <= 0 || |queue| == 0 then Eaten(orders, queue, [], n)
    else
      var id := queue[0];
      var o := orders[id];
      if !o.state.Live? then Eat(orders, queue[1..], n)
      else
        var eaten := Min(n, o.ahead);
        var left := n - eaten;
        if left <= 0 then Eaten(orders[id := o.(ahead := o.ahead - eaten)], queue, [], left)
        else
          var lots := Min(left, o.remaining);
          var o' := Order(o.ahead - eaten, o.remaining - lots, Live);
          if o'.remaining == 0 then
            var rest := Eat(orders[id := o'.(state := Filled)], queue[1..], left - lots);
            rest.(fills := [(id, lots)] + rest.fills)
          else Eaten(orders[id := o'], queue, [(id, lots)], left - lots)
  }

  function Consume(s: State, n: int): Outcome
    requires Known(s.orders, s.queue)
  {
    if n <= 0 then Outcome(s, Rejected(InvalidConsumption), [], 0)
    else
      var r := Eat(s.orders, s.queue, n);
      Outcome(State(r.orders, r.queue, s.seen), Accepted, r.fills, r.left)
  }

  // ----- the closed form of a print -----

  /** Lots standing in a stretch of the queue: everything ahead plus everything still to fill. */
  function Work(orders: Orders, queue: seq<int>): int
    requires Known(orders, queue)
  {
    if |queue| == 0 then 0
    else orders[queue[0]].ahead + orders[queue[0]].remaining + Work(orders, queue[1..])
  }

  /** Lots a print must get through before it reaches the order at place i. */
  function Before(orders: Orders, queue: seq<int>, i: nat): int
    requires i <= |queue| && Known(orders, queue)
  {
    Work(orders, queue[..i])
  }

  /** What becomes of an order when a flow of lots arrives at its place in the queue. */
  function After(o: Order, flow: int): Order {
    Order(o.ahead - Clamp(flow, 0, o.ahead), o.remaining - FillAt(o, flow),
          if flow >= o.ahead + o.remaining then Filled else o.state)
  }

  function FillAt(o: Order, flow: int): int { Clamp(flow - o.ahead, 0, o.remaining) }

  ghost predicate LiveQueue(orders: Orders, queue: seq<int>) {
    && Distinct(queue)
    && (forall i :: 0 <= i < |queue| ==> queue[i] in orders && LiveOrder(orders[queue[i]]))
  }

  ghost predicate LiveOrder(o: Order) { o.state.Live? && o.ahead >= 0 && o.remaining > 0 }

  lemma {:induction false} WorkFrame(a: Orders, b: Orders, queue: seq<int>)
    requires Known(a, queue) && Known(b, queue)
    requires forall i :: 0 <= i < |queue| ==> a[queue[i]] == b[queue[i]]
    ensures Work(a, queue) == Work(b, queue)
  {
    if |queue| > 0 { WorkFrame(a, b, queue[1..]); }
  }

  lemma {:induction false} WorkNonNegative(orders: Orders, queue: seq<int>)
    requires LiveQueue(orders, queue)
    ensures Work(orders, queue) >= 0
  {
    if |queue| > 0 { WorkNonNegative(orders, queue[1..]); }
  }

  lemma BeforeTail(orders: Orders, queue: seq<int>, i: nat)
    requires 0 < i <= |queue| && LiveQueue(orders, queue)
    ensures Before(orders, queue, i) ==
      orders[queue[0]].ahead + orders[queue[0]].remaining + Before(orders, queue[1..], i - 1)
    ensures Before(orders, queue, i) >= orders[queue[0]].ahead + orders[queue[0]].remaining
  {
    assert queue[..i][1..] == queue[1..][..i - 1];
    WorkNonNegative(orders, queue[1..][..i - 1]);
  }

  /** The orders of a queue that are live in the given dictionary, in queue order. */
  function Survivors(queue: seq<int>, orders: Orders): seq<int> {
    if |queue| == 0 then []
    else (if IsLive(orders, queue[0]) then [queue[0]] else []) + Survivors(queue[1..], orders)
  }

  lemma {:induction false} AllSurvive(queue: seq<int>, orders: Orders)
    requires forall i :: 0 <= i < |queue| ==> IsLive(orders, queue[i])
    ensures Survivors(queue, orders) == queue
  {
    if |queue| > 0 { AllSurvive(queue[1..], orders); }
  }

  /** One unrolling: the print either clears the head and moves on, or stops there. */
  lemma EatUnfold(orders: Orders, queue: seq<int>, n: int)
    requires LiveQueue(orders, queue) && n >= 0 && |queue| > 0
    ensures var h := queue[0]; var o := orders[h]; var r := Eat(orders, queue, n);
      if n >= o.ahead + o.remaining then
        var r' := Eat(orders[h := Order(0, 0, Filled)], queue[1..], n - o.ahead - o.remaining);
        r == r'.(fills := [(h, o.remaining)] + r'.fills)
      else
        r == Eaten(orders[h := After(o, n)], queue, if n > o.ahead then [(h, n - o.ahead)] else [], 0)
  {
    var h := queue[0];
    assert orders[h := orders[h]] == orders;
  }

  lemma LiveRest(orders: Orders, queue: seq<int>, o: Order)
    requires LiveQueue(orders, queue) && |queue| > 0
    ensures LiveQueue(orders[queue[0] := o], queue[1..]) && LiveQueue(orders, queue[1..])
    ensures forall i ::
      0 <= i < |queue| - 1 ==> Before(orders[queue[0] := o], queue[1..], i) == Before(orders, queue[1..], i)
    ensures Work(orders[queue[0] := o], queue[1..]) == Work(orders, queue[1..])
  {
    forall i | 0 <= i < |queue| - 1
      ensures Before(orders[queue[0] := o], queue[1..], i) == Before(orders, queue[1..], i)
    {
      WorkFrame(orders[queue[0] := o], orders, queue[1..][..i]);
    }
    WorkFrame(orders[queue[0] := o], orders, queue[1..]);
  }

  /** The order at place i ends up as if only the flow left over by earlier places had reached it. */
  lemma {:induction false} EatAt(orders: Orders, queue: seq<int>, n: int, i: nat)
    requires LiveQueue(orders, queue) && n >= 0 && i < |queue|
    ensures queue[i] in Eat(orders, queue, n).orders
    ensures Eat(orders, queue, n).orders[queue[i]] == After(orders[queue[i]], n - Before(orders, queue, i))
    decreases |queue|
  {
    EatUnfold(orders, queue, n);
    hide Eat;
    var h, o := queue[0], orders[queue[0]];
    if i > 0 { BeforeTail(orders, queue, i); }
    if n >= o.ahead + o.remaining {
      var o' := Order(0, 0, Filled);
      LiveRest(orders, queue, o');
      if i == 0 {
        EatFrame(orders[h := o'], queue[1..], n - o.ahead - o.remaining);
        assert After(o, n) == o';
      } else {
        EatAt(orders[h := o'], queue[1..], n - o.ahead - o.remaining, i - 1);
      }
    }
  }

  /** Orders outside the queue are untouched, and no order appears or disappears. */
  lemma {:induction false} EatFrame(orders: Orders, queue: seq<int>, n: int)
    requires LiveQueue(orders, queue) && n >= 0
    ensures Eat(orders, queue, n).orders.Keys == orders.Keys
    ensures forall id :: id in orders && id !in queue ==> Eat(orders, queue, n).orders[id] == orders[id]
    decreases |queue|
  {
    if |queue| > 0 {
      EatUnfold(orders, queue, n);
      var h, o := queue[0], orders[queue[0]];
      if n >= o.ahead + o.remaining {
        LiveRest(orders, queue, Order(0, 0, Filled));
        EatFrame(orders[h := Order(0, 0, Filled)], queue[1..], n - o.ahead - o.remaining);
      }
    }
  }

  /** Unmatched lots are what exceeds all the work in the queue. */
  lemma {:induction false} EatLeft(orders: Orders, queue: seq<int>, n: int)
    requires LiveQueue(orders, queue) && n >= 0
    ensures Eat(orders, queue, n).left == Max(0, n - Work(orders, queue))
    ensures Eat(orders, queue, n).left > 0 ==> Eat(orders, queue, n).queue == []
    decreases |queue|
  {
    if |queue| > 0 {
      EatUnfold(orders, queue, n);
      var h, o := queue[0], orders[queue[0]];
      LiveRest(orders, queue, Order(0, 0, Filled));
      WorkNonNegative(orders, queue[1..]);
      if n >= o.ahead + o.remaining {
        EatLeft(orders[h := Order(0, 0, Filled)], queue[1..], n - o.ahead - o.remaining);
      }
    }
  }

  /** A print that stops at the head leaves the whole line standing. */
  lemma EatQueueHead(orders: Orders, queue: seq<int>, n: int)
    requires LiveQueue(orders, queue) && |queue| > 0
    requires 0 <= n < orders[queue[0]].ahead + orders[queue[0]].remaining
    ensures Eat(orders, queue, n).queue == Survivors(queue, Eat(orders, queue, n).orders)
  {
    EatUnfold(orders, queue, n);
    hide Eat, Survivors;
    AllSurvive(queue, Eat(orders, queue, n).orders);
  }

  /** The queue left behind is the old one without the orders that were filled. */
  lemma {:induction false} EatQueue(orders: Orders, queue: seq<int>, n: int)
    requires LiveQueue(orders, queue) && n >= 0
    ensures Eat(orders, queue, n).queue == Survivors(queue, Eat(orders, queue, n).orders)
    decreases |queue|
  {
    if |queue| > 0 {
      var h, o := queue[0], orders[queue[0]];
      if n < o.ahead + o.remaining {
        EatQueueHead(orders, queue, n);
      } else {
        EatUnfold(orders, queue, n);
        hide Eat;
        LiveRest(orders, queue, Order(0, 0, Filled));
        EatQueue(orders[h := Order(0, 0, Filled)], queue[1..], n - o.ahead - o.remaining);
        EatFrame(orders[h := Order(0, 0, Filled)], queue[1..], n - o.ahead - o.remaining);
      }
    }
  }

  lemma {:induction false} EatFillCount(orders: Orders, queue: seq<int>, n: int)
    requires LiveQueue(orders, queue) && n >= 0
    ensures |Eat(orders, queue, n).fills| <= |queue|
    decreases |queue|
  {
    if |queue| > 0 {
      EatUnfold(orders, queue, n);
      var h, o := queue[0], orders[queue[0]];
      if n >= o.ahead + o.remaining {
        LiveRest(orders, queue, Order(0, 0, Filled));
        EatFillCount(orders[h := Order(0, 0, Filled)], queue[1..], n - o.ahead - o.remaining);
      }
    }
  }

  ghost predicate FillReported(fills: Fills, id: int, i: nat, lots: int) {
    if i < |fills| then fills[i] == (id, lots) && lots > 0 else lots == 0
  }

  lemma ReportedLater(first: (int, int), rest: Fills, id: int, i: nat, lots: int)
    requires i > 0 && FillReported(rest, id, i - 1, lots)
    ensures FillReported([first] + rest, id, i, lots)
  {
  }

  /** A print that stops at the head fills the head at most. */
  lemma EatFillsHead(orders: Orders, queue: seq<int>, n: int, i: nat)
    requires LiveQueue(orders, queue) && i < |queue|
    requires 0 <= n < orders[queue[0]].ahead + orders[queue[0]].remaining
    ensures FillReported(Eat(orders, queue, n).fills, queue[i], i,
                         FillAt(orders[queue[i]], n - Before(orders, queue, i)))
  {
    EatUnfold(orders, queue, n);
    hide Eat;
    if i > 0 { BeforeTail(orders, queue, i); } else { assert queue[..0] == []; }
  }

  /** A print that clears the head reports its whole remainder first. */
  lemma EatFillsPast(orders: Orders, queue: seq<int>, n: int)
    requires LiveQueue(orders, queue) && |queue| > 0
    requires n >= orders[queue[0]].ahead + orders[queue[0]].remaining
    ensures LiveQueue(orders[queue[0] := Order(0, 0, Filled)], queue[1..])
    ensures var o := orders[queue[0]];
      Eat(orders, queue, n).fills == [(queue[0], o.remaining)] +
        Eat(orders[queue[0] := Order(0, 0, Filled)], queue[1..], n - o.ahead - o.remaining).fills
    ensures FillAt(orders[queue[0]], n - Before(orders, queue, 0)) == orders[queue[0]].remaining > 0
  {
    EatUnfold(orders, queue, n);
    hide Eat;
    LiveRest(orders, queue, Order(0, 0, Filled));
    assert queue[..0] == [];
  }

  /** Beyond the head, the flow that reaches a place is what the head has let through. */
  lemma FlowPast(orders: Orders, queue: seq<int>, n: int, i: nat)
    requires LiveQueue(orders, queue) && 0 < i < |queue|
    requires LiveQueue(orders[queue[0] := Order(0, 0, Filled)], queue[1..])
    ensures var o, orders' := orders[queue[0]], orders[queue[0] := Order(0, 0, Filled)];
      && orders'[queue[i]] == orders[queue[i]] && queue[1..][i - 1] == queue[i]
      && n - o.ahead - o.remaining - Before(orders', queue[1..], i - 1) == n - Before(orders, queue, i)
  {
    BeforeTail(orders, queue, i);
    LiveRest(orders, queue, Order(0, 0, Filled));
  }

  /** The fills are reported in queue order, one per order reached, each with its closed-form amount. */
  lemma {:induction false} EatFills(orders: Orders, queue: seq<int>, n: int, i: nat)
    requires LiveQueue(orders, queue) && n >= 0 && i < |queue|
    ensures FillReported(Eat(orders, queue, n).fills, queue[i], i,
                         FillAt(orders[queue[i]], n - Before(orders, queue, i)))
    decreases |queue|
  {
    var o := orders[queue[0]];
    if n < o.ahead + o.remaining {
      EatFillsHead(orders, queue, n, i);
    } else {
      EatFillsPast(orders, queue, n);
      if i > 0 {
        var orders' := orders[queue[0] := Order(0, 0, Filled)];
        FlowPast(orders, queue, n, i);
        hide Eat, FillAt, Before, FillReported;
        EatFills(orders', queue[1..], n - o.ahead - o.remaining, i - 1);
        ReportedLater((queue[0], o.remaining), Eat(orders', queue[1..], n - o.ahead - o.remaining).fills, queue[i], i,
                      FillAt(orders[queue[i]], n - Before(orders, queue, i)));
      }
    }
  }
}

/** The public queue as the mutable object it is: order records updated in place, a dictionary of
    them, and a list of live ids. Every method is proved against the specification. */
module PublicQueueOracles {
  import opened Common
  import opened Text
  import opened PublicQueue
  import Laws = PublicQueueLaws
  import Canonical

  class PublicQueueOrder {
    const id: int
    var ahead: int
    var remaining: int
    var state: OrderState

    constructor (id: int, ahead: int, qty: int)
      ensures this.id == id && Value() == Order(ahead, qty, Live)
    {
      this.id, this.ahead, this.remaining, this.state := id, ahead, qty, Live;
    }

    ghost function Value(): Order
      reads this
    {
      Order(ahead, remaining, state)
    }

    /** Lets n lots reach this order: first its queue-ahead, then, if any are left, the order itself. */
    method Take(n: int) returns (left: int, reached: bool, lots: int)
      requires state.Live?
      modifies this
      ensures reached <==> n - Min(n, old(ahead)) > 0
      ensures reached ==> Value() == HeadAfter(old(Value()), n)
      ensures !reached ==> Value() == old(Value()).(ahead := old(ahead) - Min(n, old(ahead)))
      ensures lots == if reached then HeadLots(old(Value()), n) else 0
      ensures left == n - Min(n, old(ahead)) - lots
      ensures reached && !state.Filled? ==> left == 0
    {
      var eaten := Min(n, ahead);
      ahead := ahead - eaten;
      left := n - eaten;
      if left <= 0 { return left, false, 0; }
      lots := Min(left, remaining);
      remaining := remaining - lots;
      if remaining == 0 { state := Filled; }
      return left - lots, true, lots;
    }
  }

  function HeadLots(o: Order, n: int): int { Min(n - Min(n, o.ahead), o.remaining) }

  function HeadAfter(o: Order, n: int): Order {
    Order(o.ahead - Min(n, o.ahead), o.remaining - HeadLots(o, n),
          if o.remaining == HeadLots(o, n) then Filled else Live)
  }

  class PublicQueueScenarioOracle {
    var orders: map<int, PublicQueueOrder>
    var queue: seq<int>
    var seen: set<int>

    ghost function State(): State
      reads this, orders.Values
    {
      PublicQueue.State(map id | id in orders :: orders[id].Value(), queue, seen)
    }

    /** Each id owns its record. */
    ghost predicate Separate()
      reads this
    {
      forall i, j :: i in orders && j in orders && i != j ==> orders[i] != orders[j]
    }

    ghost predicate Valid()
      reads this, orders.Values
    {
      Separate() && Inv(State())
    }

    lemma Holds(values: Orders)
      requires values.Keys == orders.Keys && forall k :: k in orders ==> orders[k].Value() == values[k]
      ensures State().orders == values
    {
      var m := State().orders;
      assert forall k :: k in m <==> k in values;
      assert forall k :: k in m ==> m[k] == values[k];
    }

    /** After an update in place of one record, exactly its entry of the abstract dictionary changed. */
    lemma Changed(before: Orders, id: int)
      requires id in orders && before.Keys == orders.Keys
      requires forall k :: k in orders && k != id ==> orders[k].Value() == before[k]
      ensures State().orders == before[id := orders[id].Value()]
    {
    }

    constructor ()
      ensures Valid() && State() == EMPTY && orders == map[]
      ensures State() == PublicQueue.State(map[], [], {})
    {
      orders, queue, seen := map[], [], {};
    }

    method Place(id: int, ahead: int, qty: int) returns (d: Decision)
      requires Valid()
      modifies this
      ensures Valid() && fresh(orders.Values - old(orders.Values))
      ensures (State(), d) == PublicQueue.Place(old(State()), id, ahead, qty)
    {
      Laws.InvStep(State(), Laws.PlaceOp(id, ahead, qty));
      if id <= 0 { return Rejected(InvalidOrderId); }
      if id in seen { return Rejected(DuplicateOrderId); }
      if ahead < 0 { return Rejected(InvalidQueueAhead); }
      if qty <= 0 { return Rejected(InvalidQuantity); }
      ghost var was := State();
      seen := seen + {id};
      var order := new PublicQueueOrder(id, ahead, qty);
      orders := orders[id := order];
      queue := queue + [id];
      assert State().orders == was.orders[id := Order(ahead, qty, Live)];
      return Accepted;
    }

    method Cancel(id: int) returns (d: Decision)
      requires Valid()
      modifies this, orders.Values
      ensures Valid() && orders == old(orders)
      ensures (State(), d) == PublicQueue.Cancel(old(State()), id)
    {
      Laws.InvStep(State(), Laws.CancelOp(id));
      if id !in orders { return Rejected(UnknownOrder); }
      var order := orders[id];
      if order.state != Live { return Rejected(OrderNotLive); }
      ghost var was := State();
      order.state := Cancelled;
      queue := RemoveFirst(queue, id);
      Changed(was.orders, id);
      return Accepted;
    }

    method InvalidateEpoch() returns (d: Decision)
      requires Valid()
      modifies this, orders.Values
      ensures Valid() && orders == old(orders) && d == Accepted
      ensures State() == Invalidate(old(State()))
    {
      hide Inv;
      ghost var was := State();
      Laws.InvStep(was, Laws.InvalidateOp);
      ghost var goal := Invalidate(was).orders;
      var todo := orders.Keys;
      while todo != {}
        invariant todo <= orders.Keys && orders == old(orders) && queue == was.queue && seen == was.seen
        invariant forall id :: id in orders ==> orders[id].Value() == if id in todo then was.orders[id] else goal[id]
        decreases todo
      {
        var id := Smallest(todo);
        var order := orders[id];
        if order.state == Live { order.state := EpochInvalidated; }
        todo := todo - {id};
      }
      queue := [];
      Holds(goal);
      assert State() == Invalidate(was);
      return Accepted;
    }

    method Consume(observed: int) returns (d: Decision, fills: Fills, remaining: int)
      requires Valid()
      modifies this, orders.Values
      ensures Valid() && orders == old(orders)
      ensures var spec := PublicQueue.Consume(old(State()), observed);
        State() == spec.state && d == spec.decision && fills == spec.fills && remaining == spec.unmatched
    {
      Laws.InvIsLiveQueue(State());
      Laws.InvStep(State(), Laws.ConsumeOp(observed));
      if observed <= 0 { return Rejected(InvalidConsumption), [], 0; }
      hide Eat, Inv;
      fills, remaining := ConsumeLoop(observed);
      d := Accepted;
    }

    /** The loop of Consume: eats the queue-ahead of the head and then fills it, order after order. */
    method ConsumeLoop(observed: int) returns (fills: Fills, remaining: int)
      requires Separate() && Known(State().orders, queue)
      modifies this, orders.Values
      ensures orders == old(orders) && seen == old(seen)
      ensures Eat(old(State().orders), old(queue), observed) == Eaten(State().orders, queue, fills, remaining)
    {
      hide Eat, Following;
      ghost var was, line0 := State().orders, queue;
      remaining := observed;
      fills := [];
      FollowingNothing(Eat(was, line0, observed));
      while remaining > 0 && |queue| > 0
        invariant orders == old(orders) && seen == old(seen)
        invariant State().orders.Keys == was.Keys && Known(State().orders, queue)
        invariant Eat(was, line0, observed) == Following(fills, Eat(State().orders, queue, remaining))
        decreases |queue|, remaining
      {
        var more, left := ConsumeHead(remaining);
        FollowingConcat(fills, more, Eat(State().orders, queue, left));
        fills, remaining := fills + more, left;
      }
      PassEnds(State().orders, queue, remaining);
    }

    /** One pass of the loop: drops a dead head, or eats the queue-ahead of a live one and then, if lots are
        left, fills it and drops it when filled. */
    method ConsumeHead(remaining: int) returns (fills: Fills, left: int)
      requires Separate() && Known(State().orders, queue) && remaining > 0 && |queue| > 0
      modifies this`queue, orders.Values
      ensures State().orders.Keys == old(State().orders.Keys) && Known(State().orders, queue)
      ensures |queue| < |old(queue)| || (queue == old(queue) && left <= 0)
      ensures Eat(old(State().orders), old(queue), remaining) == Following(fills, Eat(State().orders, queue, left))
    {
      hide Eat, Following, HeadLots, HeadAfter;
      ghost var now, line := State().orders, queue;
      var id := queue[0];
      var order := orders[id];
      if order.state != Live {
        PassDead(now, line, remaining);
        queue := queue[1..];
        FollowingNothing(Eat(now, queue, remaining));
        Holds(now);
        return [], remaining;
      }
      var reached, lots;
      left, reached, lots := order.Take(remaining);
      if !reached {
        Changed(now, id);
        PassStops(now, line, remaining);
        PassEnds(State().orders, queue, left);
        FollowingNothing(Eat(State().orders, queue, left));
        return [], left;
      }
      if order.state == Filled { queue := queue[1..]; }
      PassFills(now, line, remaining);
      assert order.Value() == HeadAfter(now[id], remaining) && lots == HeadLots(now[id], remaining);
      Changed(now, id);
      return [(id, lots)], left;
    }

    method CanonicalBytes() returns (bytes: string)
      requires Valid()
      ensures bytes == Canonical.QueueBytes(State())
    {
      hide Inv, Render, Line, Str;
      var first, second := Canonical.SeenRecord(seen), ["queue", Commas(queue)];
      bytes := Line(first) + Line(second);
      RenderTwo(first, second);
      var ids := SortedIds(orders.Keys);
      ghost var values := State().orders;
      assert values.Keys == orders.Keys;
      ghost var section := Canonical.Section(values, ids, Canonical.QueueOrderRecord);
      RenderStart([first, second], section);
      for i := 0 to |ids|
        invariant bytes == Render([first, second] + section[..i])
      {
        var id := ids[i];
        var o := orders[id];
        bytes := bytes + Line(["order", Str(id), Str(o.ahead), Str(o.remaining), Canonical.QueueStateName(o.state)]);
        assert section[i] == Canonical.QueueOrderRecord(id, values[id]);
        RenderNext([first, second], section, i);
      }
    }
  }

  /** A result seen from an earlier point of the loop, with the fills already reported. */
  function Following(fills: Fills, r: Eaten): Eaten { r.(fills := fills + r.fills) }

  lemma FollowingNothing(r: Eaten)
    ensures Following([], r) == r
  {
    assert [] + r.fills == r.fills;
  }

  lemma FollowingConcat(a: Fills, b: Fills, r: Eaten)
    ensures Following(a, Following(b, r)) == Following(a + b, r)
  {
    assert a + (b + r.fills) == (a + b) + r.fills;
  }

  // ----- one pass of the loop, in terms of the specification -----

  lemma PassEnds(orders: Orders, queue: seq<int>, n: int)
    requires Known(orders, queue) && (n <= 0 || |queue| == 0)
    ensures Eat(orders, queue, n) == Eaten(orders, queue, [], n)
    ensures forall fills :: Following(fills, Eaten(orders, queue, [], n)) == Eaten(orders, queue, fills, n)
  {
    forall fills: Fills ensures fills + [] == fills {}
  }

  lemma PassDead(orders: Orders, queue: seq<int>, n: int)
    requires Known(orders, queue) && n > 0 && |queue| > 0 && !orders[queue[0]].state.Live?
    ensures Eat(orders, queue, n) == Eat(orders, queue[1..], n)
  {
  }

  lemma PassStops(orders: Orders, queue: seq<int>, n: int)
    requires Known(orders, queue) && n > 0 && |queue| > 0 && orders[queue[0]].state.Live?
    requires n <= orders[queue[0]].ahead
    ensures Eat(orders, queue, n) ==
      Eaten(orders[queue[0] := Order(orders[queue[0]].ahead - n, orders[queue[0]].remaining, Live)], queue, [], 0)
  {
  }

  lemma PassFills(orders: Orders, queue: seq<int>, n: int)
    requires Known(orders, queue) && |queue| > 0 && orders[queue[0]].state.Live?
    requires n > 0 && n > orders[queue[0]].ahead
    ensures var o := orders[queue[0]];
      Eat(orders, queue, n) == Following([(queue[0], HeadLots(o, n))],
        Eat(orders[queue[0] := HeadAfter(o, n)], if HeadAfter(o, n).state.Filled? then queue[1..] else queue,
            n - Min(n, o.ahead) - HeadLots(o, n)))
  {
    var o := orders[queue[0]];
    if !HeadAfter(o, n).state.Filled? {
      PassEnds(orders[queue[0] := HeadAfter(o, n)], queue, n - Min(n, o.ahead) - HeadLots(o, n));
    }
  }
}

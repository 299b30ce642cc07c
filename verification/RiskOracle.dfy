/** The per-symbol reservation ledger as the mutable object it is. Wherever the original runs its
    invariant assertions, the same condition is asserted here and proved. */
module RiskOracles {
  import opened Common
  import opened Text
  import opened Reservation
  import opened Risk
  import Canonical

  class ReservedOrder {
    const id: int
    const isBid: bool
    var remaining: int
    var state: OrderState

    constructor (id: int, isBid: bool, qty: int)
      ensures this.id == id && Value() == Order(isBid, qty, Live)
    {
      this.id, this.isBid, this.remaining, this.state := id, isBid, qty, Live;
    }

    function Value(): Order
      reads this
    {
      Order(isBid, remaining, state)
    }

    method Take(qty: int)
      modifies this
      ensures Value() == FilledBy(old(Value()), qty)
    {
      remaining := remaining - qty;
      if remaining == 0 { state := Filled; }
    }
  }

  class RiskReservationOracle {
    const maxPositionLots: int
    var positionLots: int
    var orders: map<int, ReservedOrder>
    var seen: set<int>

    function State(): State
      reads this, orders.Values
    {
      Risk.State(maxPositionLots, positionLots, map id | id in orders :: orders[id].Value(), seen)
    }

    ghost predicate Separate()
      reads this
    {
      forall i, j :: i in orders && j in orders && i != j ==> orders[i] != orders[j]
    }

    ghost predicate Valid()
      reads this, orders.Values
    {
      Separate() && Inv(State())
    }

    lemma Holds(values: map<int, Order>)
      requires values.Keys == orders.Keys && forall k :: k in orders ==> orders[k].Value() == values[k]
      ensures State().orders == values
    {
      var m := State().orders;
      assert forall k :: k in m <==> k in values;
      assert forall k :: k in m ==> m[k] == values[k];
    }

    constructor (limit: int)
      requires limit > 0
      ensures Valid() && State() == Empty(limit) && orders == map[]
      ensures State() == Risk.State(limit, 0, map[], {})
    {
      maxPositionLots, positionLots, orders, seen := limit, 0, map[], {};
    }

    /** Construction with the original's argument check: null where it raises. */
    static method Create(limit: int) returns (ledger: RiskReservationOracle?)
      ensures ledger == null <==> limit <= 0
      ensures ledger != null ==> fresh(ledger) && ledger.Valid() && ledger.State() == Risk.State(limit, 0, map[], {})
    {
      if limit <= 0 { return null; }
      ledger := new RiskReservationOracle(limit);
    }

    method Reserve(id: int, isBid: bool, qty: int) returns (d: Decision)
      requires Valid()
      modifies this
      ensures Valid() && fresh(orders.Values - old(orders.Values))
      ensures (State(), d) == Risk.Reserve(old(State()), id, isBid, qty)
    {
      hide Inv, AssertionsHold, MapSum;
      ghost var was := State();
      InvStep(was, ReserveOp(id, isBid, qty));
      if id < 0 { return Rejected(InvalidOrderId); }
      if id in seen { return Rejected(DuplicateOrderId); }
      seen := seen + {id};
      Holds(was.orders);
      if qty <= 0 { return Rejected(InvalidQuantity); }
      var buy, sell := ReservedBuy(State()), ReservedSell(State());
      if isBid { buy := buy + qty; } else { sell := sell + qty; }
      if !WithinLimits(State(), buy, sell) { return Rejected(if isBid then LongLimit else ShortLimit); }
      var order := new ReservedOrder(id, isBid, qty);
      orders := orders[id := order];
      Holds(was.orders[id := Order(isBid, qty, Live)]);
      assert AssertionsHold(State());
      return Accepted;
    }

    method RequestCancel(id: int) returns (d: Decision)
      requires Valid()
      modifies this, orders.Values
      ensures Valid() && orders == old(orders)
      ensures (State(), d) == Risk.RequestCancel(old(State()), id)
    {
      hide Inv, AssertionsHold, MapSum;
      ghost var was := State();
      InvStep(was, RequestCancelOp(id));
      if id !in orders { return Rejected(UnknownOrder); }
      var order := orders[id];
      if order.state != Live { return Rejected(OrderNotLive); }
      order.state := PendingCancel;
      Holds(was.orders[id := order.Value()]);
      assert AssertionsHold(State());
      return Accepted;
    }

    method CancelAck(id: int) returns (d: Decision)
      requires Valid()
      modifies this, orders.Values
      ensures Valid() && orders == old(orders)
      ensures (State(), d) == Risk.CancelAck(old(State()), id)
    {
      hide Inv, AssertionsHold, MapSum;
      ghost var was := State();
      InvStep(was, CancelAckOp(id));
      if id !in orders { return Rejected(UnknownOrder); }
      var order := orders[id];
      if order.state != PendingCancel { return Rejected(CancelNotPending); }
      order.state := Cancelled;
      Holds(was.orders[id := order.Value()]);
      assert AssertionsHold(State());
      return Accepted;
    }

    method Fill(id: int, qty: int) returns (d: Decision)
      requires Valid()
      modifies this, orders.Values
      ensures Valid() && orders == old(orders)
      ensures (State(), d) == Risk.Fill(old(State()), id, qty)
    {
      hide Inv, AssertionsHold, MapSum;
      ghost var was := State();
      InvStep(was, FillOp(id, qty));
      if id !in orders { return Rejected(UnknownOrder); }
      var order := orders[id];
      if !IsOutstanding(order.state) { return Rejected(OrderNotFillable); }
      if qty <= 0 { return Rejected(InvalidFillQuantity); }
      if qty > order.remaining { return Rejected(FillExceedsRemaining); }
      positionLots := positionLots + (if order.isBid then qty else -qty);
      order.Take(qty);
      Holds(was.orders[id := order.Value()]);
      assert AssertionsHold(State());
      return Accepted;
    }

    method InvalidateEpoch() returns (d: Decision)
      requires Valid()
      modifies this, orders.Values
      ensures Valid() && orders == old(orders) && d == Accepted
      ensures State() == Invalidate(old(State()))
    {
      hide Inv, AssertionsHold, MapSum;
      ghost var was := State();
      InvStep(was, InvalidateOp);
      ghost var goal := Invalidate(was).orders;
      var todo := orders.Keys;
      while todo != {}
        invariant todo <= orders.Keys && orders == old(orders) && seen == was.seen && positionLots == was.position
        invariant forall id :: id in orders ==> orders[id].Value() == if id in todo then was.orders[id] else goal[id]
        decreases todo
      {
        var id := Smallest(todo);
        var order := orders[id];
        if IsOutstanding(order.state) { order.state := EpochInvalidated; }
        todo := todo - {id};
      }
      Holds(goal);
      assert AssertionsHold(State());
      return Accepted;
    }

    method CanonicalBytes() returns (bytes: string)
      requires Valid()
      ensures bytes == Canonical.RiskBytes(State())
    {
      hide Inv, Render, Line, Str;
      var max, position, third := ["max", Str(maxPositionLots)], ["position", Str(positionLots)],
        Canonical.SeenRecord(seen);
      bytes := Line(max) + Line(position) + Line(third);
      RenderThree(max, position, third);
      var ids := SortedIds(orders.Keys);
      ghost var values := State().orders;
      assert values.Keys == orders.Keys;
      ghost var section := Canonical.Section(values, ids, Canonical.RiskOrderRecord);
      RenderStart([max, position, third], section);
      for i := 0 to |ids|
        invariant bytes == Render([max, position, third] + section[..i])
      {
        var id := ids[i];
        var o := orders[id];
        bytes := bytes + Line(["order", Str(id), Canonical.SideName(o.isBid), Str(o.remaining),
          Canonical.ReservationStateName(o.state)]);
        assert section[i] == Canonical.RiskOrderRecord(id, values[id]);
        RenderNext([max, position, third], section, i);
      }
    }
  }
}

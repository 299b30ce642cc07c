/** The cross-symbol notional ledger as the mutable object it is. */
module PortfolioOracles {
  import opened Common
  import opened Text
  import opened Reservation
  import opened Portfolio
  import Canonical

  class PortfolioReservedOrder {
    const id: int
    const symbol: int
    const isBid: bool
    var remaining: int
    var state: OrderState

    constructor (id: int, symbol: int, isBid: bool, units: int)
      ensures this.id == id && Value() == Order(symbol, isBid, units, Live)
    {
      this.id, this.symbol, this.isBid, this.remaining, this.state := id, symbol, isBid, units, Live;
    }

    function Value(): Order
      reads this
    {
      Order(symbol, isBid, remaining, state)
    }

    method Take(units: int)
      modifies this
      ensures Value() == FilledBy(old(Value()), units)
    {
      remaining := remaining - units;
      if remaining == 0 { state := Filled; }
    }
  }

  /** What an in-range fill does, and that its limit test cannot fail. */
  lemma FillAccepted(s: State, id: int, units: int)
    requires Inv(s) && id in s.orders && IsOutstanding(s.orders[id].state) && 0 < units <= s.orders[id].remaining
    ensures var o := s.orders[id];
      var next := InventoryOf(s.inventory, o.symbol) + (if o.isBid then units else -units);
      var candidate := WithInventory(s.inventory, o.symbol, next);
      && Portfolio.Fill(s, id, units).1 == Accepted
      && Portfolio.Fill(s, id, units).0 == s.(inventory := candidate, orders := s.orders[id := FilledBy(o, units)])
      && Gross(candidate) + (Reserved(s) - o.remaining + (o.remaining - units)) <= s.limit
  {
    FillFreesTwiceTheNetting(s, id, units);
  }

  class PortfolioNotionalReservationOracle {
    const maxNotionalUnits: int
    var inventory: map<int, int>
    var orders: map<int, PortfolioReservedOrder>
    var seen: set<int>

    function State(): State
      reads this, orders.Values
    {
      Portfolio.State(maxNotionalUnits, inventory, map id | id in orders :: orders[id].Value(), seen)
    }

    ghost predicate Separate()
      reads this
    {
      forall i, j :: i in orders && j in orders && i != j ==> orders[i] != orders[j]
    }

    ghost predicate Valid()
      reads this, orders.Values
    {
      Separate() && Inv(State())
    }

    lemma Holds(values: map<int, Order>)
      requires values.Keys == orders.Keys && forall k :: k in orders ==> orders[k].Value() == values[k]
      ensures State().orders == values
    {
      var m := State().orders;
      assert forall k :: k in m <==> k in values;
      assert forall k :: k in m ==> m[k] == values[k];
    }

    constructor (limit: int)
      requires limit > 0
      ensures Valid() && State() == Empty(limit) && orders == map[]
      ensures State() == Portfolio.State(limit, map[], map[], {})
    {
      maxNotionalUnits, inventory, orders, seen := limit, map[], map[], {};
    }

    /** Construction with the original's argument check: null where it raises. */
    static method Create(limit: int) returns (ledger: PortfolioNotionalReservationOracle?)
      ensures ledger == null <==> limit <= 0
      ensures ledger != null ==> fresh(ledger) && ledger.Valid()
      ensures ledger != null ==> ledger.State() == Portfolio.State(limit, map[], map[], {})
    {
      if limit <= 0 { return null; }
      ledger := new PortfolioNotionalReservationOracle(limit);
    }

    method SetInventory(symbol: int, units: int) returns (d: Decision)
      requires Valid()
      modifies this
      ensures Valid() && orders == old(orders)
      ensures (State(), d) == Portfolio.SetInventory(old(State()), symbol, units)
    {
      hide Inv, AssertionsHold, MapSum;
      ghost var was := State();
      InvStep(was, SetInventoryOp(symbol, units));
      var candidate := inventory;
      if units == 0 { candidate := candidate - {symbol}; } else { candidate := candidate[symbol := units]; }
      if Gross(candidate) + Reserved(State()) > maxNotionalUnits { return Rejected(PortfolioNotionalLimit); }
      inventory := candidate;
      Holds(was.orders);
      assert AssertionsHold(State());
      return Accepted;
    }

    method Reserve(id: int, symbol: int, isBid: bool, units: int) returns (d: Decision)
      requires Valid()
      modifies this
      ensures Valid() && fresh(orders.Values - old(orders.Values))
      ensures (State(), d) == Portfolio.Reserve(old(State()), id, symbol, isBid, units)
    {
      hide Inv, AssertionsHold, MapSum;
      ghost var was := State();
      InvStep(was, ReserveOp(id, symbol, isBid, units));
      if id < 0 { return Rejected(InvalidOrderId); }
      if id in seen { return Rejected(DuplicateOrderId); }
      seen := seen + {id};
      Holds(was.orders);
      if units <= 0 { return Rejected(InvalidNotional); }
      if TotalReserved(State()) + units > maxNotionalUnits { return Rejected(PortfolioNotionalLimit); }
      var order := new PortfolioReservedOrder(id, symbol, isBid, units);
      orders := orders[id := order];
      Holds(was.orders[id := Order(symbol, isBid, units, Live)]);
      assert AssertionsHold(State());
      return Accepted;
    }

    method RequestCancel(id: int) returns (d: Decision)
      requires Valid()
      modifies this, orders.Values
      ensures Valid() && orders == old(orders)
      ensures (State(), d) == Portfolio.RequestCancel(old(State()), id)
    {
      hide Inv, AssertionsHold, MapSum;
      ghost var was := State();
      InvStep(was, RequestCancelOp(id));
      if id !in orders { return Rejected(UnknownOrder); }
      var order := orders[id];
      if order.state != Live { return Rejected(OrderNotLive); }
      order.state := PendingCancel;
      Holds(was.orders[id := order.Value()]);
      assert AssertionsHold(State());
      return Accepted;
    }

    method CancelAck(id: int) returns (d: Decision)
      requires Valid()
      modifies this, orders.Values
      ensures Valid() && orders == old(orders)
      ensures (State(), d) == Portfolio.CancelAck(old(State()), id)
    {
      hide Inv, AssertionsHold, MapSum;
      ghost var was := State();
      InvStep(was, CancelAckOp(id));
      if id !in orders { return Rejected(UnknownOrder); }
      var order := orders[id];
      if order.state != PendingCancel { return Rejected(CancelNotPending); }
      order.state := Cancelled;
      Holds(was.orders[id := order.Value()]);
      assert AssertionsHold(State());
      return Accepted;
    }

    method Fill(id: int, units: int) returns (d: Decision)
      requires Valid()
      modifies this, orders.Values
      ensures Valid() && orders == old(orders)
      ensures (State(), d) == Portfolio.Fill(old(State()), id, units)
      ensures d != Rejected(PortfolioNotionalLimit)
    {
      hide Inv, AssertionsHold, MapSum, WithInventory;
      ghost var was := State();
      InvStep(was, FillOp(id, units));
      if id !in orders { return Rejected(UnknownOrder); }
      var order := orders[id];
      if !IsOutstanding(order.state) { return Rejected(OrderNotFillable); }
      if units <= 0 { return Rejected(InvalidFillQuantity); }
      if units > order.remaining { return Rejected(FillExceedsRemaining); }
      FillAccepted(was, id, units);
      hide Portfolio.Fill;
      var next := InventoryOf(inventory, order.symbol) + (if order.isBid then units else -units);
      var candidate := WithInventory(inventory, order.symbol, next);
      var remainingOrders := Reserved(State()) - order.remaining + (order.remaining - units);
      assert !(Gross(candidate) + remainingOrders > maxNotionalUnits);
      order.Take(units);
      inventory := candidate;
      Holds(was.orders[id := order.Value()]);
      assert AssertionsHold(State());
      return Accepted;
    }

    method InvalidateEpoch() returns (d: Decision)
      requires Valid()
      modifies this, orders.Values
      ensures Valid() && orders == old(orders) && d == Accepted
      ensures State() == Invalidate(old(State()))
    {
      hide Inv, AssertionsHold, MapSum;
      ghost var was := State();
      InvStep(was, InvalidateOp);
      ghost var goal := Invalidate(was).orders;
      var todo := orders.Keys;
      while todo != {}
        invariant todo <= orders.Keys && orders == old(orders) && seen == was.seen && inventory == was.inventory
        invariant forall id :: id in orders ==> orders[id].Value() == if id in todo then was.orders[id] else goal[id]
        decreases todo
      {
        var id := Smallest(todo);
        var order := orders[id];
        if IsOutstanding(order.state) { order.state := EpochInvalidated; }
        todo := todo - {id};
      }
      Holds(goal);
      assert AssertionsHold(State());
      return Accepted;
    }

    method CanonicalBytes() returns (bytes: string)
      requires Valid()
      ensures bytes == Canonical.PortfolioBytes(State())
    {
      hide Inv, Render, Line, Str, Canonical.PortfolioBytes, Canonical.SeenRecord, Canonical.Sorted;
      var third := Canonical.SeenRecord(seen);
      bytes := InventoryBytes();
      ghost var head := [["max", Str(maxNotionalUnits)]] + Canonical.Sorted(inventory, Canonical.InventoryRecord);
      RenderAppend(head, third);
      bytes := bytes + Line(third);
      bytes := OrderBytes(head + [third], bytes);
      Canonical.PortfolioRecordsInOrder(State());
    }

    /** The order pieces of the canonical bytes, after what has been printed already. */
    method OrderBytes(ghost head: seq<Record>, printed: string) returns (bytes: string)
      requires printed == Render(head)
      ensures bytes == Render(head + Canonical.Sorted(State().orders, Canonical.PortfolioOrderRecord))
    {
      hide Render, Line, Str;
      bytes := printed;
      var ids := SortedIds(orders.Keys);
      ghost var values := State().orders;
      assert values.Keys == orders.Keys;
      ghost var section := Canonical.Section(values, ids, Canonical.PortfolioOrderRecord);
      RenderStart(head, section);
      for i := 0 to |ids|
        invariant bytes == Render(head + section[..i])
      {
        var id := ids[i];
        var o := orders[id];
        bytes := bytes + Line(["order", Str(id), Str(o.symbol), Canonical.SideName(o.isBid), Str(o.remaining),
                               Canonical.ReservationStateName(o.state)]);
        assert section[i] == Canonical.PortfolioOrderRecord(id, values[id]);
        RenderNext(head, section, i);
      }
    }

    /** The limit and inventory pieces of the canonical bytes. */
    method InventoryBytes() returns (bytes: string)
      ensures bytes == Render([["max", Str(maxNotionalUnits)]] + Canonical.Sorted(inventory, Canonical.InventoryRecord))
    {
      hide Render, Line, Str;
      var max := ["max", Str(maxNotionalUnits)];
      bytes := Line(max);
      RenderTwo(max, max);
      var symbols := SortedIds(inventory.Keys);
      ghost var holdings := Canonical.Section(inventory, symbols, Canonical.InventoryRecord);
      RenderStart([max], holdings);
      for i := 0 to |symbols|
        invariant bytes == Render([max] + holdings[..i])
      {
        var symbol := symbols[i];
        bytes := bytes + Line(["inventory", Str(symbol), Str(inventory[symbol])]);
        assert holdings[i] == Canonical.InventoryRecord(symbol, inventory[symbol]);
        RenderNext([max], holdings, i);
      }
    }
  }
}

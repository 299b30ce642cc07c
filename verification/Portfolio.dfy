/** Specification of the cross-symbol gross-notional ledger. */
module Portfolio {
  import opened Common
  import opened Reservation

  datatype Order = Order(symbol: int, isBid: bool, remaining: int, state: OrderState)

  datatype State = State(limit: int, inventory: map<int, int>, orders: map<int, Order>, seen: set<int>)

  function Empty(limit: int): State { State(limit, map[], map[], {}) }

  function Magnitude(units: int): int { Abs(units) }

  function Held(o: Order): int { if IsOutstanding(o.state) then o.remaining else 0 }

  function Gross(inventory: map<int, int>): int { MapSum(inventory, Magnitude) }

  function Reserved(s: State): int { MapSum(s.orders, Held) }

  function TotalReserved(s: State): int { Gross(s.inventory) + Reserved(s) }

  predicate AssertionsHold(s: State) {
    && TotalReserved(s) <= s.limit
    && forall id :: id in s.orders ==> s.orders[id].remaining >= 0
  }

  ghost predicate WellFormedOrder(o: Order) {
    o.remaining >= 0 && (o.remaining == 0 <==> o.state.Filled?)
  }

  ghost predicate WellFormed(s: State) {
    && s.limit > 0
    && s.orders.Keys <= s.seen
    && (forall id :: id in s.orders ==> WellFormedOrder(s.orders[id]))
    && (forall k :: k in s.inventory ==> s.inventory[k] != 0)
  }

  ghost predicate Inv(s: State) { WellFormed(s) && TotalReserved(s) <= s.limit }

  // ----- transitions -----

  function InventoryOf(inventory: map<int, int>, symbol: int): int {
    if symbol in inventory then inventory[symbol] else 0
  }

  /** Zero inventory is stored as an absent key. */
  function WithInventory(inventory: map<int, int>, symbol: int, units: int): map<int, int> {
    if units == 0 then inventory - {symbol} else inventory[symbol := units]
  }

  function SetInventory(s: State, symbol: int, units: int): (State, Decision) {
    var candidate := WithInventory(s.inventory, symbol, units);
    if Gross(candidate) + Reserved(s) > s.limit then (s, Rejected(PortfolioNotionalLimit))
    else (s.(inventory := candidate), Accepted)
  }

  function Reserve(s: State, id: int, symbol: int, isBid: bool, units: int): (State, Decision) {
    if id < 0 then (s, Rejected(InvalidOrderId))
    else if id in s.seen then (s, Rejected(DuplicateOrderId))
    else
      var burnt := s.(seen := s.seen + {id});
      if units <= 0 then (burnt, Rejected(InvalidNotional))
      else if TotalReserved(s) + units > s.limit then (burnt, Rejected(PortfolioNotionalLimit))
      else (burnt.(orders := s.orders[id := Order(symbol, isBid, units, Live)]), Accepted)
  }

  function WithState(s: State, id: int, st: OrderState): State
    requires id in s.orders
  {
    s.(orders := s.orders[id := s.orders[id].(state := st)])
  }

  function RequestCancel(s: State, id: int): (State, Decision) {
    if id !in s.orders then (s, Rejected(UnknownOrder))
    else if !s.orders[id].state.Live? then (s, Rejected(OrderNotLive))
    else (WithState(s, id, PendingCancel), Accepted)
  }

  function CancelAck(s: State, id: int): (State, Decision) {
    if id !in s.orders then (s, Rejected(UnknownOrder))
    else if !s.orders[id].state.PendingCancel? then (s, Rejected(CancelNotPending))
    else (WithState(s, id, Cancelled), Accepted)
  }

  function FilledBy(o: Order, units: int): Order {
    o.(remaining := o.remaining - units, state := if o.remaining == units then Filled else o.state)
  }

  function NextInventory(s: State, o: Order, units: int): int {
    InventoryOf(s.inventory, o.symbol) + (if o.isBid then units else -units)
  }

  /** The fill's own limit test, evaluated on the candidate inventory. */
  predicate FillOverLimit(s: State, o: Order, units: int) {
    Gross(WithInventory(s.inventory, o.symbol, NextInventory(s, o, units)))
      + (Reserved(s) - o.remaining + (o.remaining - units)) > s.limit
  }

  function Fill(s: State, id: int, units: int): (State, Decision) {
    if id !in s.orders then (s, Rejected(UnknownOrder))
    else
      var o := s.orders[id];
      if !IsOutstanding(o.state) then (s, Rejected(OrderNotFillable))
      else if units <= 0 then (s, Rejected(InvalidFillQuantity))
      else if units > o.remaining then (s, Rejected(FillExceedsRemaining))
      else if FillOverLimit(s, o, units) then (s, Rejected(PortfolioNotionalLimit))
      else (s.(inventory := WithInventory(s.inventory, o.symbol, NextInventory(s, o, units)),
               orders := s.orders[id := FilledBy(o, units)]), Accepted)
  }

  function Invalidated(o: Order): Order {
    if IsOutstanding(o.state) then o.(state := EpochInvalidated) else o
  }

  function Invalidate(s: State): State {
    s.(orders := map id | id in s.orders :: Invalidated(s.orders[id]))
  }

  datatype Op =
    | SetInventoryOp(symbol: int, units: int) | ReserveOp(id: int, symbol: int, isBid: bool, units: int)
    | RequestCancelOp(id: int) | CancelAckOp(id: int) | FillOp(id: int, units: int) | InvalidateOp

  function Step(s: State, op: Op): (State, Decision) {
    match op
    case SetInventoryOp(symbol, units) => SetInventory(s, symbol, units)
    case ReserveOp(id, symbol, isBid, units) => Reserve(s, id, symbol, isBid, units)
    case RequestCancelOp(id) => RequestCancel(s, id)
    case CancelAckOp(id) => CancelAck(s, id)
    case FillOp(id, units) => Fill(s, id, units)
    case InvalidateOp => (Invalidate(s), Accepted)
  }

  function Run(s: State, ops: seq<Op>): State
    decreases |ops|
  {
    if |ops| == 0 then s else Run(Step(s, ops[0]).0, ops[1..])
  }

  // ----- fills cannot reach the limit -----

  lemma GrossWith(inventory: map<int, int>, symbol: int, units: int)
    ensures Gross(WithInventory(inventory, symbol, units)) ==
      Gross(inventory) - Abs(InventoryOf(inventory, symbol)) + Abs(units)
  {
    if units == 0 {
      if symbol in inventory {
        MapSumRemove(inventory, Magnitude, symbol);
      } else {
        assert inventory - {symbol} == inventory;
      }
    } else {
      MapSumUpdate(inventory, Magnitude, symbol, units);
    }
  }

  /** How much a fill nets against inventory of the opposite sign. */
  function Netted(s: State, o: Order, units: int): int {
    var held := InventoryOf(s.inventory, o.symbol);
    if (o.isBid && held < 0) || (!o.isBid && held > 0) then Min(units, Abs(held)) else 0
  }

  /** In every reachable state the limit test inside a fill is never taken: a fill that opens or
      extends inventory keeps the total, and one that nets frees exactly twice what it nets. */
  lemma FillFreesTwiceTheNetting(s: State, id: int, units: int)
    requires Inv(s) && id in s.orders && IsOutstanding(s.orders[id].state) && 0 < units <= s.orders[id].remaining
    ensures !FillOverLimit(s, s.orders[id], units)
    ensures Fill(s, id, units).1 == Accepted
    ensures TotalReserved(Fill(s, id, units).0) == TotalReserved(s) - 2 * Netted(s, s.orders[id], units)
  {
    var o := s.orders[id];
    GrossWith(s.inventory, o.symbol, NextInventory(s, o, units));
    MapSumUpdate(s.orders, Held, id, FilledBy(o, units));
    assert WellFormedOrder(o);
  }

  lemma FillInv(s: State, id: int, units: int)
    requires Inv(s)
    ensures Inv(Fill(s, id, units).0)
  {
    if Fill(s, id, units).1.Accepted? {
      FillFreesTwiceTheNetting(s, id, units);
      assert WellFormedOrder(FilledBy(s.orders[id], units));
    }
  }

  lemma ReserveInv(s: State, id: int, symbol: int, isBid: bool, units: int)
    requires Inv(s)
    ensures Inv(Reserve(s, id, symbol, isBid, units).0)
  {
    MapSumUpdate(s.orders, Held, id, Order(symbol, isBid, units, Live));
  }

  /** A change of state that makes nothing outstanding again and keeps the order unfilled. */
  lemma StateInv(s: State, id: int, st: OrderState)
    requires Inv(s) && id in s.orders && IsOutstanding(s.orders[id].state) && !st.Filled?
    ensures Inv(WithState(s, id, st))
  {
    assert WellFormedOrder(s.orders[id]);
    MapSumUpdate(s.orders, Held, id, s.orders[id].(state := st));
  }

  lemma InvalidateInv(s: State)
    requires Inv(s)
    ensures Inv(Invalidate(s))
  {
    MapSumZero(Invalidate(s).orders, Held);
    MapSumNonNegative(s.orders, Held);
  }

  lemma InvStep(s: State, op: Op)
    requires Inv(s)
    ensures Inv(Step(s, op).0) && AssertionsHold(Step(s, op).0)
    ensures Step(s, op).0.limit == s.limit
  {
    match op {
      case SetInventoryOp(symbol, units) =>
      case ReserveOp(id, symbol, isBid, units) => ReserveInv(s, id, symbol, isBid, units);
      case RequestCancelOp(id) => if RequestCancel(s, id).1.Accepted? { StateInv(s, id, PendingCancel); }
      case CancelAckOp(id) => if CancelAck(s, id).1.Accepted? { StateInv(s, id, Cancelled); }
      case FillOp(id, units) => FillInv(s, id, units);
      case InvalidateOp => InvalidateInv(s);
    }
    hide MapSum;
    assert forall id :: id in Step(s, op).0.orders ==> WellFormedOrder(Step(s, op).0.orders[id]);
  }

  /** On every run the gross notional held plus everything still reserved stays within the limit. */
  lemma {:induction false} RunWithinLimit(s: State, ops: seq<Op>)
    requires Inv(s)
    ensures Inv(Run(s, ops)) && AssertionsHold(Run(s, ops)) && TotalReserved(Run(s, ops)) <= s.limit
    decreases |ops|
  {
    if |ops| > 0 {
      InvStep(s, ops[0]);
      RunWithinLimit(Step(s, ops[0]).0, ops[1..]);
    }
  }

  /** Every order admitted can be filled in full, whatever else was filled before it: replaying any
      sequence of in-range fills never meets the limit, so what is admitted is really covered. */
  lemma AdmittedIsFillable(s: State, ops: seq<Op>, id: int)
    requires Inv(s)
    ensures var s' := Run(s, ops);
      id in s'.orders && IsOutstanding(s'.orders[id].state) ==>
        forall units :: 0 < units <= s'.orders[id].remaining ==> Fill(s', id, units).1 == Accepted
  {
    RunWithinLimit(s, ops);
    var s' := Run(s, ops);
    if id in s'.orders && IsOutstanding(s'.orders[id].state) {
      forall units | 0 < units <= s'.orders[id].remaining ensures Fill(s', id, units).1 == Accepted {
        FillFreesTwiceTheNetting(s', id, units);
      }
    }
  }

  // ----- conservation of notional -----

  /** Notional that one operation reserves, fills or releases. */
  datatype Flow = Flow(entered: int, filled: int, released: int)

  function FlowOf(s: State, op: Op): Flow {
    if Step(s, op).1.Rejected? then Flow(0, 0, 0) else
    match op
    case ReserveOp(_, _, _, units) => Flow(units, 0, 0)
    case CancelAckOp(id) => Flow(0, 0, s.orders[id].remaining)
    case FillOp(_, units) => Flow(0, units, 0)
    case InvalidateOp => Flow(0, 0, Reserved(s))
    case _ => Flow(0, 0, 0)
  }

  function FlowOver(s: State, ops: seq<Op>): Flow
    decreases |ops|
  {
    if |ops| == 0 then Flow(0, 0, 0) else
      var f, rest := FlowOf(s, ops[0]), FlowOver(Step(s, ops[0]).0, ops[1..]);
      Flow(f.entered + rest.entered, f.filled + rest.filled, f.released + rest.released)
  }

  /** Symbol and side asked for when an order was admitted. */
  datatype Terms = Terms(symbol: int, isBid: bool)

  function TermsAfter(s: State, op: Op, terms: map<int, Terms>): map<int, Terms> {
    if op.ReserveOp? && Step(s, op).1.Accepted? then terms[op.id := Terms(op.symbol, op.isBid)] else terms
  }

  /** Every stored order has the symbol and side it was admitted with. */
  ghost predicate Termed(s: State, terms: map<int, Terms>) {
    && terms.Keys == s.orders.Keys
    && forall id :: id in terms ==> s.orders[id].symbol == terms[id].symbol && s.orders[id].isBid == terms[id].isBid
  }

  /** Inventory of one symbol as externally marked values and fills make it, each fill signed by the side its
      order was admitted with. */
  function InventoryAfter(s: State, op: Op, terms: map<int, Terms>, symbol: int, held: int): int {
    if Step(s, op).1.Rejected? then held
    else if op.SetInventoryOp? && op.symbol == symbol then op.units
    else if op.FillOp? && op.id in terms && terms[op.id].symbol == symbol then
      held + (if terms[op.id].isBid then op.units else -op.units)
    else held
  }

  function InventoryOver(s: State, ops: seq<Op>, terms: map<int, Terms>, symbol: int, held: int): int
    decreases |ops|
  {
    if |ops| == 0 then held
    else InventoryOver(Step(s, ops[0]).0, ops[1..], TermsAfter(s, ops[0], terms), symbol,
                       InventoryAfter(s, ops[0], terms, symbol, held))
  }

  lemma StepConserves(s: State, op: Op)
    requires Inv(s)
    ensures var f := FlowOf(s, op); Reserved(Step(s, op).0) == Reserved(s) + f.entered - f.filled - f.released
  {
    match op {
      case ReserveOp(id, symbol, isBid, units) => MapSumUpdate(s.orders, Held, id, Order(symbol, isBid, units, Live));
      case RequestCancelOp(id) =>
        if id in s.orders { MapSumUpdate(s.orders, Held, id, s.orders[id].(state := PendingCancel)); }
      case CancelAckOp(id) => if id in s.orders { MapSumUpdate(s.orders, Held, id, s.orders[id].(state := Cancelled)); }
      case FillOp(id, units) => if id in s.orders { MapSumUpdate(s.orders, Held, id, FilledBy(s.orders[id], units)); }
      case InvalidateOp => MapSumZero(Invalidate(s).orders, Held);
      case SetInventoryOp(_, _) =>
    }
  }

  /** On every run: notional still reserved is what was reserved plus what was admitted, less what was
      filled, acknowledged as cancelled or dropped by an epoch. */
  lemma {:induction false} NotionalConserved(s: State, ops: seq<Op>)
    requires Inv(s)
    ensures var f := FlowOver(s, ops); Reserved(Run(s, ops)) == Reserved(s) + f.entered - f.filled - f.released
    decreases |ops|
  {
    if |ops| > 0 {
      StepConserves(s, ops[0]);
      InvStep(s, ops[0]);
      hide Inv, Reserved, FlowOf, Step;
      NotionalConserved(Step(s, ops[0]).0, ops[1..]);
    }
  }

  /** On every run each symbol's inventory is its last marked value plus the fills since, signed by the side
      and booked under the symbol that the reservations asked for. */
  lemma {:induction false} InventoryFollowsOrders(s: State, ops: seq<Op>, terms: map<int, Terms>, symbol: int)
    requires Inv(s) && Termed(s, terms)
    ensures InventoryOf(Run(s, ops).inventory, symbol) ==
      InventoryOver(s, ops, terms, symbol, InventoryOf(s.inventory, symbol))
    decreases |ops|
  {
    if |ops| > 0 {
      InvStep(s, ops[0]);
      InventoryStep(s, ops[0], terms, symbol);
      TermsStep(s, ops[0], terms);
      hide Inv, InventoryAfter, TermsAfter, Termed, InventoryOf, Step;
      InventoryFollowsOrders(Step(s, ops[0]).0, ops[1..], TermsAfter(s, ops[0], terms), symbol);
    }
  }

  lemma InventoryStep(s: State, op: Op, terms: map<int, Terms>, symbol: int)
    requires Termed(s, terms)
    ensures InventoryOf(Step(s, op).0.inventory, symbol) ==
      InventoryAfter(s, op, terms, symbol, InventoryOf(s.inventory, symbol))
  {
    hide MapSum;
  }

  lemma TermsStep(s: State, op: Op, terms: map<int, Terms>)
    requires Termed(s, terms)
    ensures Termed(Step(s, op).0, TermsAfter(s, op, terms))
  {
    hide MapSum;
  }

  /** A filled, cancelled or invalidated order is never touched again. */
  lemma {:induction false} TerminalForever(s: State, ops: seq<Op>, id: int)
    requires Inv(s) && id in s.orders && !IsOutstanding(s.orders[id].state)
    ensures id in Run(s, ops).orders && Run(s, ops).orders[id] == s.orders[id]
    ensures forall units :: Fill(Run(s, ops), id, units) == (Run(s, ops), Rejected(OrderNotFillable))
    decreases |ops|
  {
    if |ops| > 0 {
      InvStep(s, ops[0]);
      TerminalStep(s, ops[0], id);
      hide Inv, Step;
      TerminalForever(Step(s, ops[0]).0, ops[1..], id);
    }
  }

  lemma TerminalStep(s: State, op: Op, id: int)
    requires Inv(s) && id in s.orders && !IsOutstanding(s.orders[id].state)
    ensures id in Step(s, op).0.orders && Step(s, op).0.orders[id] == s.orders[id]
  {
  }

  // ----- what each operation does, and when it refuses -----

  ghost predicate OthersKept(before: map<int, Order>, after: map<int, Order>, id: int) {
    forall other :: other in before && other != id ==> other in after && after[other] == before[other]
  }

  /** Marking a symbol is accepted exactly when the new gross inventory and what is reserved fit the limit; it
      then holds exactly the marked value, zero as absent, and touches nothing else. */
  lemma SetInventoryMeaning(s: State, symbol: int, units: int)
    requires Inv(s)
    ensures var (s', d) := SetInventory(s, symbol, units);
      && (d.Accepted? <==>
        Gross(s.inventory) - Abs(InventoryOf(s.inventory, symbol)) + Abs(units) + Reserved(s) <= s.limit)
      && (d.Rejected? ==> s' == s && d == Rejected(PortfolioNotionalLimit))
      && (d.Accepted? ==> s'.limit == s.limit && s'.orders == s.orders && s'.seen == s.seen)
      && (d.Accepted? ==> InventoryOf(s'.inventory, symbol) == units && (symbol in s'.inventory <==> units != 0))
      && (d.Accepted? ==> forall k :: k != symbol ==>
        (k in s'.inventory <==> k in s.inventory) && InventoryOf(s'.inventory, k) == InventoryOf(s.inventory, k))
  {
    GrossWith(s.inventory, symbol, units);
    hide MapSum;
  }

  /** A reservation burns every fresh non-negative id, whatever becomes of it; it is accepted exactly when its
      notional is positive and fits, and then holds one live order with this symbol, side and notional. */
  lemma ReserveMeaning(s: State, id: int, symbol: int, isBid: bool, units: int)
    requires Inv(s)
    ensures var (s', d) := Reserve(s, id, symbol, isBid, units);
      && s'.seen == (if id >= 0 then s.seen + {id} else s.seen)
      && s'.limit == s.limit && s'.inventory == s.inventory
      && (d.Accepted? <==> id >= 0 && id !in s.seen && units > 0 && TotalReserved(s) + units <= s.limit)
      && (d.Rejected? ==> s'.orders == s.orders)
      && (d.Accepted? ==> s'.orders.Keys == s.orders.Keys + {id} && OthersKept(s.orders, s'.orders, id))
      && (d.Accepted? ==> s'.orders[id].symbol == symbol && s'.orders[id].isBid == isBid)
      && (d.Accepted? ==> s'.orders[id].remaining == units && s'.orders[id].state == Live)
      && (d == Rejected(InvalidOrderId) <==> id < 0)
      && (d == Rejected(DuplicateOrderId) <==> id >= 0 && id in s.seen)
      && (d == Rejected(InvalidNotional) <==> id >= 0 && id !in s.seen && units <= 0)
  {
    hide MapSum;
  }

  /** One symbol's inventory has moved by this much, and no other's. */
  ghost predicate InventoryMoved(before: map<int, int>, after: map<int, int>, symbol: int, move: int) {
    forall k :: InventoryOf(after, k) == InventoryOf(before, k) + (if k == symbol then move else 0)
  }

  /** What an admitted order is good for: right after an accepted reservation every fill of it within its
      notional is accepted and moves the inventory of its symbol by exactly that much, up for a bid and down
      for an ask. */
  lemma AdmittedThenFilled(s: State, id: int, symbol: int, isBid: bool, units: int, q: int)
    requires Inv(s) && Reserve(s, id, symbol, isBid, units).1.Accepted? && 0 < q <= units
    ensures var (s', d) := Fill(Reserve(s, id, symbol, isBid, units).0, id, q);
      && d == Accepted
      && InventoryMoved(s.inventory, s'.inventory, symbol, if isBid then q else -q)
  {
    ReserveMeaning(s, id, symbol, isBid, units);
    ReserveInv(s, id, symbol, isBid, units);
    var c := Reserve(s, id, symbol, isBid, units).0;
    hide Reserve, MapSum, Inv;
    FillMeaning(c, id, q);
  }

  /** Only the named order moves, and only to this state. */
  ghost predicate MovesTo(s: State, s': State, id: int, st: OrderState)
    requires id in s.orders
  {
    && s'.limit == s.limit && s'.inventory == s.inventory && s'.seen == s.seen
    && s'.orders.Keys == s.orders.Keys && OthersKept(s.orders, s'.orders, id)
    && s'.orders[id].symbol == s.orders[id].symbol && s'.orders[id].isBid == s.orders[id].isBid
    && s'.orders[id].remaining == s.orders[id].remaining && s'.orders[id].state == st
  }

  /** A cancel is requested exactly for a live order, which then waits, fully reserved, for its acknowledgement. */
  lemma RequestCancelMeaning(s: State, id: int)
    ensures var (s', d) := RequestCancel(s, id);
      && (d.Accepted? <==> id in s.orders && s.orders[id].state == Live)
      && (d.Accepted? ==> MovesTo(s, s', id, PendingCancel))
      && (d.Rejected? ==> s' == s)
      && (d == Rejected(UnknownOrder) <==> id !in s.orders)
      && (d == Rejected(OrderNotLive) <==> id in s.orders && s.orders[id].state != Live)
  {
  }

  /** An acknowledgement is accepted exactly for an order whose cancel is pending, and cancels it. */
  lemma CancelAckMeaning(s: State, id: int)
    ensures var (s', d) := CancelAck(s, id);
      && (d.Accepted? <==> id in s.orders && s.orders[id].state == PendingCancel)
      && (d.Accepted? ==> MovesTo(s, s', id, Cancelled))
      && (d.Rejected? ==> s' == s)
      && (d == Rejected(UnknownOrder) <==> id !in s.orders)
      && (d == Rejected(CancelNotPending) <==> id in s.orders && s.orders[id].state != PendingCancel)
  {
  }

  /** A fill is accepted exactly when the order is outstanding and the quantity in range; it takes its units off
      the order and moves the inventory of the order's symbol by them, signed by the order's side. */
  lemma FillMeaning(s: State, id: int, q: int)
    requires Inv(s)
    ensures var (s', d) := Fill(s, id, q);
      && (d == Rejected(UnknownOrder) <==> id !in s.orders)
      && (d == Rejected(OrderNotFillable) <==> id in s.orders && s.orders[id].state !in {Live, PendingCancel})
      && (d == Rejected(InvalidFillQuantity) <==>
        id in s.orders && s.orders[id].state in {Live, PendingCancel} && q <= 0)
      && (d == Rejected(FillExceedsRemaining) <==>
        id in s.orders && s.orders[id].state in {Live, PendingCancel} && q > s.orders[id].remaining)
      && (d != Rejected(PortfolioNotionalLimit))
      && (d.Rejected? ==> s' == s)
      && (d.Accepted? ==> s'.limit == s.limit && s'.seen == s.seen)
      && (d.Accepted? ==> s'.orders.Keys == s.orders.Keys && OthersKept(s.orders, s'.orders, id))
      && (d.Accepted? ==> s'.orders[id].symbol == s.orders[id].symbol && s'.orders[id].isBid == s.orders[id].isBid)
      && (d.Accepted? ==> s'.orders[id].remaining == s.orders[id].remaining - q)
      && (d.Accepted? ==> s'.orders[id].state == if s'.orders[id].remaining == 0 then Filled else s.orders[id].state)
      && (d.Accepted? ==> InventoryMoved(s.inventory, s'.inventory, s.orders[id].symbol,
                                         if s.orders[id].isBid then q else -q))
  {
    if id in s.orders {
      assert WellFormedOrder(s.orders[id]);
      if IsOutstanding(s.orders[id].state) && 0 < q <= s.orders[id].remaining { FillFreesTwiceTheNetting(s, id, q); }
    }
    hide MapSum;
  }

  /** An epoch marks exactly the outstanding orders as invalidated and changes nothing else. */
  lemma InvalidateMeaning(s: State)
    ensures var s' := Invalidate(s);
      && s'.limit == s.limit && s'.inventory == s.inventory && s'.seen == s.seen && s'.orders.Keys == s.orders.Keys
      && (forall id :: id in s.orders ==>
        && s'.orders[id].symbol == s.orders[id].symbol && s'.orders[id].isBid == s.orders[id].isBid
        && s'.orders[id].remaining == s.orders[id].remaining
        && s'.orders[id].state ==
          if s.orders[id].state in {Live, PendingCancel} then EpochInvalidated else s.orders[id].state)
  {
  }
}

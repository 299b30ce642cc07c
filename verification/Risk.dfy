/** States an order goes through in either reservation ledger. */
module Reservation {
  datatype OrderState = Live | PendingCancel | Filled | Cancelled | EpochInvalidated

  predicate IsOutstanding(st: OrderState) { st.Live? || st.PendingCancel? }
}

/** Specification of the per-symbol worst-case lot ledger: transitions, invariant, exact admission. */
module Risk {
  import opened Common
  import opened Reservation

  datatype Order = Order(isBid: bool, remaining: int, state: OrderState)

  datatype State = State(limit: int, position: int, orders: map<int, Order>, seen: set<int>)

  function Empty(limit: int): State { State(limit, 0, map[], {}) }

  function BuyLots(o: Order): int { if o.isBid && IsOutstanding(o.state) then o.remaining else 0 }

  function SellLots(o: Order): int { if !o.isBid && IsOutstanding(o.state) then o.remaining else 0 }

  function ReservedBuy(s: State): int { MapSum(s.orders, BuyLots) }

  function ReservedSell(s: State): int { MapSum(s.orders, SellLots) }

  predicate WithinLimits(s: State, buy: int, sell: int) {
    s.position + buy <= s.limit && s.position - sell >= -s.limit
  }

  /** What the ledger asserts after every mutation. */
  predicate AssertionsHold(s: State) {
    && WithinLimits(s, ReservedBuy(s), ReservedSell(s))
    && forall id :: id in s.orders ==> s.orders[id].remaining >= 0
  }

  ghost predicate WellFormedOrder(o: Order) {
    o.remaining >= 0 && (o.remaining == 0 <==> o.state.Filled?)
  }

  ghost predicate WellFormed(s: State) {
    && s.limit > 0
    && s.orders.Keys <= s.seen
    && (forall id :: id in s.seen ==> id >= 0)
    && (forall id :: id in s.orders ==> WellFormedOrder(s.orders[id]))
  }

  ghost predicate Inv(s: State) { WellFormed(s) && WithinLimits(s, ReservedBuy(s), ReservedSell(s)) }

  // ----- transitions -----

  function Admitted(s: State, id: int, isBid: bool, qty: int): State {
    s.(orders := s.orders[id := Order(isBid, qty, Live)], seen := s.seen + {id})
  }

  function Reserve(s: State, id: int, isBid: bool, qty: int): (State, Decision) {
    if id < 0 then (s, Rejected(InvalidOrderId))
    else if id in s.seen then (s, Rejected(DuplicateOrderId))
    else
      var burnt := s.(seen := s.seen + {id});
      if qty <= 0 then (burnt, Rejected(InvalidQuantity))
      else if isBid && !WithinLimits(s, ReservedBuy(s) + qty, ReservedSell(s)) then (burnt, Rejected(LongLimit))
      else if !isBid && !WithinLimits(s, ReservedBuy(s), ReservedSell(s) + qty) then (burnt, Rejected(ShortLimit))
      else (Admitted(s, id, isBid, qty), Accepted)
  }

  function WithState(s: State, id: int, st: OrderState): State
    requires id in s.orders
  {
    s.(orders := s.orders[id := s.orders[id].(state := st)])
  }

  function RequestCancel(s: State, id: int): (State, Decision) {
    if id !in s.orders then (s, Rejected(UnknownOrder))
    else if !s.orders[id].state.Live? then (s, Rejected(OrderNotLive))
    else (WithState(s, id, PendingCancel), Accepted)
  }

  function CancelAck(s: State, id: int): (State, Decision) {
    if id !in s.orders then (s, Rejected(UnknownOrder))
    else if !s.orders[id].state.PendingCancel? then (s, Rejected(CancelNotPending))
    else (WithState(s, id, Cancelled), Accepted)
  }

  function FilledBy(o: Order, qty: int): Order {
    Order(o.isBid, o.remaining - qty, if o.remaining == qty then Filled else o.state)
  }

  function Fill(s: State, id: int, qty: int): (State, Decision) {
    if id !in s.orders then (s, Rejected(UnknownOrder))
    else
      var o := s.orders[id];
      if !IsOutstanding(o.state) then (s, Rejected(OrderNotFillable))
      else if qty <= 0 then (s, Rejected(InvalidFillQuantity))
      else if qty > o.remaining then (s, Rejected(FillExceedsRemaining))
      else (s.(orders := s.orders[id := FilledBy(o, qty)], position := s.position + Signed(o.isBid, qty)), Accepted)
  }

  function Invalidated(o: Order): Order {
    if IsOutstanding(o.state) then o.(state := EpochInvalidated) else o
  }

  function Invalidate(s: State): State {
    s.(orders := map id | id in s.orders :: Invalidated(s.orders[id]))
  }

  datatype Op =
    | ReserveOp(id: int, isBid: bool, qty: int) | RequestCancelOp(id: int) | CancelAckOp(id: int)
    | FillOp(id: int, qty: int) | InvalidateOp

  function Step(s: State, op: Op): (State, Decision) {
    match op
    case ReserveOp(id, isBid, qty) => Reserve(s, id, isBid, qty)
    case RequestCancelOp(id) => RequestCancel(s, id)
    case CancelAckOp(id) => CancelAck(s, id)
    case FillOp(id, qty) => Fill(s, id, qty)
    case InvalidateOp => (Invalidate(s), Accepted)
  }

  function Run(s: State, ops: seq<Op>): State
    decreases |ops|
  {
    if |ops| == 0 then s else Run(Step(s, ops[0]).0, ops[1..])
  }

  // ----- the invariant -----

  lemma ReservedNonNegative(s: State)
    requires WellFormed(s)
    ensures ReservedBuy(s) >= 0 && ReservedSell(s) >= 0
  {
    MapSumNonNegative(s.orders, BuyLots);
    MapSumNonNegative(s.orders, SellLots);
  }

  /** The effect of one order's change on both reservation totals. */
  lemma ReservedUpdate(s: State, id: int, o: Order)
    ensures MapSum(s.orders[id := o], BuyLots) ==
      ReservedBuy(s) - (if id in s.orders then BuyLots(s.orders[id]) else 0) + BuyLots(o)
    ensures MapSum(s.orders[id := o], SellLots) ==
      ReservedSell(s) - (if id in s.orders then SellLots(s.orders[id]) else 0) + SellLots(o)
  {
    MapSumUpdate(s.orders, BuyLots, id, o);
    MapSumUpdate(s.orders, SellLots, id, o);
  }

  lemma InvalidateReleases(s: State)
    ensures ReservedBuy(Invalidate(s)) == 0 && ReservedSell(Invalidate(s)) == 0
  {
    MapSumZero(Invalidate(s).orders, BuyLots);
    MapSumZero(Invalidate(s).orders, SellLots);
  }

  lemma ReserveInv(s: State, id: int, isBid: bool, qty: int)
    requires Inv(s)
    ensures Inv(Reserve(s, id, isBid, qty).0)
  {
    ReservedUpdate(s, id, Order(isBid, qty, Live));
  }

  /** A change of state that makes nothing outstanding again and keeps the order unfilled. */
  lemma StateInv(s: State, id: int, st: OrderState)
    requires Inv(s) && id in s.orders && IsOutstanding(s.orders[id].state) && !st.Filled?
    ensures Inv(WithState(s, id, st))
  {
    assert WellFormedOrder(s.orders[id]);
    ReservedUpdate(s, id, s.orders[id].(state := st));
  }

  lemma FillInv(s: State, id: int, qty: int)
    requires Inv(s)
    ensures Inv(Fill(s, id, qty).0)
  {
    if id in s.orders {
      assert WellFormedOrder(s.orders[id]);
      ReservedUpdate(s, id, FilledBy(s.orders[id], qty));
    }
  }

  lemma InvalidateInv(s: State)
    requires Inv(s)
    ensures Inv(Invalidate(s))
  {
    InvalidateReleases(s);
    ReservedNonNegative(s);
  }

  /** Every operation keeps the worst case inside the limit, so the ledger's run-time assertions
      never fire, and only fills move the position. */
  lemma InvStep(s: State, op: Op)
    requires Inv(s)
    ensures Inv(Step(s, op).0)
    ensures AssertionsHold(Step(s, op).0)
  {
    match op {
      case ReserveOp(id, isBid, qty) => ReserveInv(s, id, isBid, qty);
      case RequestCancelOp(id) => if RequestCancel(s, id).1.Accepted? { StateInv(s, id, PendingCancel); }
      case CancelAckOp(id) => if CancelAck(s, id).1.Accepted? { StateInv(s, id, Cancelled); }
      case FillOp(id, qty) => FillInv(s, id, qty);
      case InvalidateOp => InvalidateInv(s);
    }
    hide MapSum;
    assert forall id :: id in Step(s, op).0.orders ==> WellFormedOrder(Step(s, op).0.orders[id]);
  }

  lemma PositionWithinLimit(s: State)
    requires Inv(s)
    ensures -s.limit <= s.position <= s.limit
  {
    ReservedNonNegative(s);
  }

  lemma {:induction false} InvRun(s: State, ops: seq<Op>)
    requires Inv(s)
    ensures Inv(Run(s, ops)) && Run(s, ops).limit == s.limit
    ensures AssertionsHold(Run(s, ops)) && -s.limit <= Run(s, ops).position <= s.limit
    decreases |ops|
  {
    if |ops| == 0 {
      PositionWithinLimit(s);
    } else {
      InvStep(s, ops[0]);
      InvRun(Step(s, ops[0]).0, ops[1..]);
    }
  }

  // ----- admission is exact -----

  ghost predicate NoReserve(ops: seq<Op>) { forall i :: 0 <= i < |ops| ==> !ops[i].ReserveOp? }

  /** No future of the ledger without new reservations breaks the position limit. */
  ghost predicate SafeForever(s: State) {
    forall ops :: NoReserve(ops) ==> -s.limit <= Run(s, ops).position <= s.limit
  }

  /** Filling every outstanding order of one side in full realises that side's worst case. */
  lemma {:induction false} WorstCaseHappens(s: State, isBid: bool) returns (ops: seq<Op>)
    requires WellFormed(s)
    ensures NoReserve(ops)
    ensures Run(s, ops).position == if isBid then s.position + ReservedBuy(s) else s.position - ReservedSell(s)
    decreases if isBid then ReservedBuy(s) else ReservedSell(s)
  {
    if id :| id in s.orders && s.orders[id].isBid == isBid && IsOutstanding(s.orders[id].state) {
      var qty := s.orders[id].remaining;
      var s' := Fill(s, id, qty).0;
      ReservedUpdate(s, id, FilledBy(s.orders[id], qty));
      ReservedNonNegative(s');
      var rest := WorstCaseHappens(s', isBid);
      ops := [FillOp(id, qty)] + rest;
      assert ops[1..] == rest;
    } else {
      ops := [];
      if isBid { MapSumZero(s.orders, BuyLots); } else { MapSumZero(s.orders, SellLots); }
    }
  }

  /** Admission is exact: a fresh, well-formed order is accepted if and only if no sequence of fills,
      cancels, acknowledgements and epochs over the outstanding orders plus this one can ever push
      the position past the limit. */
  lemma ReserveExact(s: State, id: int, isBid: bool, qty: int)
    requires Inv(s) && id >= 0 && id !in s.seen && qty > 0
    ensures Reserve(s, id, isBid, qty).1.Accepted? <==> SafeForever(Admitted(s, id, isBid, qty))
  {
    var c := Admitted(s, id, isBid, qty);
    ReservedNonNegative(s);
    ReservedUpdate(s, id, Order(isBid, qty, Live));
    if Reserve(s, id, isBid, qty).1.Accepted? {
      InvStep(s, ReserveOp(id, isBid, qty));
      forall ops | NoReserve(ops) ensures -s.limit <= Run(c, ops).position <= s.limit { InvRun(c, ops); }
    } else {
      var ops := WorstCaseHappens(c, isBid);
      assert !(-c.limit <= Run(c, ops).position <= c.limit);
    }
  }

  /** An in-range fill of an outstanding order is always accepted: the limit was paid for on entry. */
  lemma FillNeverLimited(s: State, id: int, qty: int)
    requires Inv(s)
    ensures Fill(s, id, qty).1.Accepted? <==>
      id in s.orders && IsOutstanding(s.orders[id].state) && 0 < qty <= s.orders[id].remaining
    ensures Inv(Fill(s, id, qty).0) && AssertionsHold(Fill(s, id, qty).0)
    ensures Fill(s, id, qty).1.Rejected? ==> Fill(s, id, qty).0 == s
  {
    InvStep(s, FillOp(id, qty));
  }

  // ----- conservation of reserved lots -----

  function ReservedOn(s: State, isBid: bool): int { if isBid then ReservedBuy(s) else ReservedSell(s) }

  /** Lots of one side that one operation reserves, fills or releases. */
  datatype Flow = Flow(entered: int, filled: int, released: int)

  function FlowOf(s: State, op: Op, isBid: bool): Flow {
    if Step(s, op).1.Rejected? then Flow(0, 0, 0) else
    match op
    case ReserveOp(_, side, qty) => Flow(if side == isBid then qty else 0, 0, 0)
    case RequestCancelOp(_) => Flow(0, 0, 0)
    case CancelAckOp(id) => Flow(0, 0, if s.orders[id].isBid == isBid then s.orders[id].remaining else 0)
    case FillOp(id, qty) => Flow(0, if s.orders[id].isBid == isBid then qty else 0, 0)
    case InvalidateOp => Flow(0, 0, ReservedOn(s, isBid))
  }

  function FlowOver(s: State, ops: seq<Op>, isBid: bool): Flow
    decreases |ops|
  {
    if |ops| == 0 then Flow(0, 0, 0) else
      var f, rest := FlowOf(s, ops[0], isBid), FlowOver(Step(s, ops[0]).0, ops[1..], isBid);
      Flow(f.entered + rest.entered, f.filled + rest.filled, f.released + rest.released)
  }

  lemma StepConserves(s: State, op: Op, isBid: bool)
    requires Inv(s)
    ensures var f := FlowOf(s, op, isBid);
      ReservedOn(Step(s, op).0, isBid) == ReservedOn(s, isBid) + f.entered - f.filled - f.released
    ensures Step(s, op).0.position == s.position + FlowOf(s, op, true).filled - FlowOf(s, op, false).filled
  {
    match op {
      case ReserveOp(id, side, qty) => ReservedUpdate(s, id, Order(side, qty, Live));
      case RequestCancelOp(id) => if id in s.orders { ReservedUpdate(s, id, s.orders[id].(state := PendingCancel)); }
      case CancelAckOp(id) => if id in s.orders { ReservedUpdate(s, id, s.orders[id].(state := Cancelled)); }
      case FillOp(id, qty) => if id in s.orders { ReservedUpdate(s, id, FilledBy(s.orders[id], qty)); }
      case InvalidateOp => InvalidateReleases(s);
    }
  }

  /** On every run and on each side: lots reserved at the end are those at the start plus those admitted,
      less those filled, acknowledged as cancelled or dropped by an epoch; and only fills move the
      position, by exactly their signed lots. */
  lemma {:induction false} ReservationConserved(s: State, ops: seq<Op>)
    requires Inv(s)
    ensures forall isBid :: var f := FlowOver(s, ops, isBid);
      ReservedOn(Run(s, ops), isBid) == ReservedOn(s, isBid) + f.entered - f.filled - f.released
    ensures Run(s, ops).position == s.position + FlowOver(s, ops, true).filled - FlowOver(s, ops, false).filled
    decreases |ops|
  {
    if |ops| > 0 {
      StepConserves(s, ops[0], true);
      StepConserves(s, ops[0], false);
      InvStep(s, ops[0]);
      hide Inv, ReservedOn, FlowOf, Step;
      ReservationConserved(Step(s, ops[0]).0, ops[1..]);
    }
  }

  /** A filled, cancelled or invalidated order is never touched again: its id cannot come back, and no
      later run can cancel it or fill it. */
  lemma {:induction false} TerminalForever(s: State, ops: seq<Op>, id: int)
    requires Inv(s) && id in s.orders && !IsOutstanding(s.orders[id].state)
    ensures id in Run(s, ops).orders && Run(s, ops).orders[id] == s.orders[id]
    ensures forall qty :: Fill(Run(s, ops), id, qty) == (Run(s, ops), Rejected(OrderNotFillable))
    decreases |ops|
  {
    if |ops| > 0 {
      InvStep(s, ops[0]);
      TerminalStep(s, ops[0], id);
      hide Inv, Step;
      TerminalForever(Step(s, ops[0]).0, ops[1..], id);
    }
  }

  lemma TerminalStep(s: State, op: Op, id: int)
    requires Inv(s) && id in s.orders && !IsOutstanding(s.orders[id].state)
    ensures id in Step(s, op).0.orders && Step(s, op).0.orders[id] == s.orders[id]
  {
  }

  // ----- what each operation does, and when it refuses -----

  ghost predicate OthersKept(before: map<int, Order>, after: map<int, Order>, id: int) {
    forall other :: other in before && other != id ==> other in after && after[other] == before[other]
  }

  /** The limit admits qty more lots on one side. */
  predicate RoomFor(s: State, isBid: bool, qty: int) {
    if isBid then s.position + ReservedBuy(s) + qty <= s.limit else s.position - ReservedSell(s) - qty >= -s.limit
  }

  /** A reservation burns every fresh non-negative id, whatever becomes of it; it is accepted exactly when the
      quantity is positive and the side has room, and then holds one live order on that side for that quantity. */
  lemma ReserveMeaning(s: State, id: int, isBid: bool, qty: int)
    requires Inv(s)
    ensures var (s', d) := Reserve(s, id, isBid, qty);
      && s'.seen == (if id >= 0 then s.seen + {id} else s.seen)
      && s'.limit == s.limit && s'.position == s.position
      && (d.Accepted? <==> id >= 0 && id !in s.seen && qty > 0 && RoomFor(s, isBid, qty))
      && (d.Rejected? ==> s'.orders == s.orders)
      && (d.Accepted? ==> s'.orders.Keys == s.orders.Keys + {id} && OthersKept(s.orders, s'.orders, id))
      && (d.Accepted? ==> s'.orders[id].isBid == isBid && s'.orders[id].remaining == qty && s'.orders[id].state == Live)
      && (d == Rejected(InvalidOrderId) <==> id < 0)
      && (d == Rejected(DuplicateOrderId) <==> id >= 0 && id in s.seen)
      && (d == Rejected(InvalidQuantity) <==> id >= 0 && id !in s.seen && qty <= 0)
      && (d == Rejected(LongLimit) <==> id >= 0 && id !in s.seen && qty > 0 && isBid && !RoomFor(s, isBid, qty))
      && (d == Rejected(ShortLimit) <==> id >= 0 && id !in s.seen && qty > 0 && !isBid && !RoomFor(s, isBid, qty))
  {
    hide MapSum;
  }

  /** Only the named order moves, and only to this state. */
  ghost predicate MovesTo(s: State, s': State, id: int, st: OrderState)
    requires id in s.orders
  {
    && s'.limit == s.limit && s'.position == s.position && s'.seen == s.seen
    && s'.orders.Keys == s.orders.Keys && OthersKept(s.orders, s'.orders, id)
    && s'.orders[id].isBid == s.orders[id].isBid && s'.orders[id].remaining == s.orders[id].remaining
    && s'.orders[id].state == st
  }

  /** A cancel is requested exactly for a live order, which then waits, fully reserved, for its acknowledgement. */
  lemma RequestCancelMeaning(s: State, id: int)
    ensures var (s', d) := RequestCancel(s, id);
      && (d.Accepted? <==> id in s.orders && s.orders[id].state == Live)
      && (d.Accepted? ==> MovesTo(s, s', id, PendingCancel))
      && (d.Rejected? ==> s' == s)
      && (d == Rejected(UnknownOrder) <==> id !in s.orders)
      && (d == Rejected(OrderNotLive) <==> id in s.orders && s.orders[id].state != Live)
  {
  }

  /** An acknowledgement is accepted exactly for an order whose cancel is pending, and cancels it. */
  lemma CancelAckMeaning(s: State, id: int)
    ensures var (s', d) := CancelAck(s, id);
      && (d.Accepted? <==> id in s.orders && s.orders[id].state == PendingCancel)
      && (d.Accepted? ==> MovesTo(s, s', id, Cancelled))
      && (d.Rejected? ==> s' == s)
      && (d == Rejected(UnknownOrder) <==> id !in s.orders)
      && (d == Rejected(CancelNotPending) <==> id in s.orders && s.orders[id].state != PendingCancel)
  {
  }

  /** A fill takes its lots off the order and adds them, signed by the order's side, to the position; an order
      with nothing left is filled, any other keeps its state. */
  lemma FillMeaning(s: State, id: int, qty: int)
    requires Inv(s)
    ensures var (s', d) := Fill(s, id, qty);
      && (d == Rejected(UnknownOrder) <==> id !in s.orders)
      && (d == Rejected(OrderNotFillable) <==> id in s.orders && s.orders[id].state !in {Live, PendingCancel})
      && (d == Rejected(InvalidFillQuantity) <==>
        id in s.orders && s.orders[id].state in {Live, PendingCancel} && qty <= 0)
      && (d == Rejected(FillExceedsRemaining) <==>
        id in s.orders && s.orders[id].state in {Live, PendingCancel} && qty > s.orders[id].remaining)
      && (d.Rejected? ==> s' == s)
      && (d.Accepted? ==> s'.limit == s.limit && s'.seen == s.seen)
      && (d.Accepted? ==> s'.orders.Keys == s.orders.Keys && OthersKept(s.orders, s'.orders, id))
      && (d.Accepted? ==> s'.position == s.position + (if s.orders[id].isBid then qty else -qty))
      && (d.Accepted? ==> s'.orders[id].isBid == s.orders[id].isBid)
      && (d.Accepted? ==> s'.orders[id].remaining == s.orders[id].remaining - qty)
      && (d.Accepted? ==> s'.orders[id].state == if s'.orders[id].remaining == 0 then Filled else s.orders[id].state)
  {
    if id in s.orders { assert WellFormedOrder(s.orders[id]); }
    hide MapSum;
  }

  /** An epoch marks exactly the outstanding orders as invalidated and changes nothing else. */
  lemma InvalidateMeaning(s: State)
    ensures var s' := Invalidate(s);
      && s'.limit == s.limit && s'.position == s.position && s'.seen == s.seen && s'.orders.Keys == s.orders.Keys
      && (forall id :: id in s.orders ==>
        && s'.orders[id].isBid == s.orders[id].isBid && s'.orders[id].remaining == s.orders[id].remaining
        && s'.orders[id].state ==
          if s.orders[id].state in {Live, PendingCancel} then EpochInvalidated else s.orders[id].state)
  {
  }
}

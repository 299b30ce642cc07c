/** What each operation of the composed contract does, told in terms of its own arguments: which one is the
    id, which the price, which the quantity, when the operation is refused, and what it leaves alone. */
module EngineMeaning {
  import opened Common
  import opened Engine
  import opened EngineLaws
  import EngineTheorems
  import Reservation
  import B = Book
  import Q = PublicQueue
  import QL = PublicQueueLaws
  import S = Scheduler
  import R = Risk
  import A = Accounting
  import AL = AccountingLaws

  /** Which operations raise: unknown kinds, and logical times with a negative component. */
  lemma RaisesMeaning(s: State, op: Op)
    requires Inv(s)
    ensures Q.Known(s.queue.orders, s.queue.queue)
    ensures Step(s, op).Raised? <==> op.kind < 0 || op.kind > 9 || (op.kind in {7, 8} && (op.a < 0 || op.b < 0))
  {
    InvKnown(s);
  }

  // ----- kind 0: one change of the book (price a, quantity b) -----

  /** Nothing on the other side stands in the way of this price. */
  ghost predicate Clear(book: B.State, isBid: bool, price: int) {
    if isBid then forall ask :: ask in book.asks ==> price < ask else forall bid :: bid in book.bids ==> bid < price
  }

  lemma ClearMeaning(book: B.State, isBid: bool, price: int, qty: int)
    requires B.Sound(book) && price > 0 && qty >= 0
    ensures B.LeavesUncrossed(book, [B.Change(isBid, price, qty)]) <==> qty == 0 || Clear(book, isBid, price)
  {
    var changes := [B.Change(isBid, price, qty)];
    forall side, p
      ensures B.LastChange(B.LevelOf(book, side, p), changes, side, p) == LevelAfter(book, isBid, price, qty, side, p)
    {
      OneChange(book, isBid, price, qty, side, p);
    }
    assert forall p :: p in book.bids <==> B.LevelOf(book, true, p) > 0;
    assert forall p :: p in book.asks <==> B.LevelOf(book, false, p) > 0;
    if qty > 0 && B.LeavesUncrossed(book, changes) {
      hide B.LastChange;
      if isBid {
        assert LevelAfter(book, isBid, price, qty, true, price) > 0;
        forall ask | ask in book.asks
          ensures price < ask
        {
          assert LevelAfter(book, isBid, price, qty, false, ask) > 0;
        }
      } else {
        assert LevelAfter(book, isBid, price, qty, false, price) > 0;
        forall bid | bid in book.bids ensures bid < price { assert LevelAfter(book, isBid, price, qty, true, bid) > 0; }
      }
    }
  }

  /** The level a single change leaves at each side and price. */
  function LevelAfter(book: B.State, isBid: bool, price: int, qty: int, side: bool, p: int): int {
    if side == isBid && p == price then qty else B.LevelOf(book, side, p)
  }

  lemma OneChange(book: B.State, isBid: bool, price: int, qty: int, side: bool, p: int)
    ensures B.LastChange(B.LevelOf(book, side, p), [B.Change(isBid, price, qty)], side, p) ==
      LevelAfter(book, isBid, price, qty, side, p)
  {
    assert [B.Change(isBid, price, qty)][..0] == [];
  }

  /** The first fault of a refused book operation. */
  function BookFault(op: Op): Reason {
    if op.a <= 0 then PriceNotPositive else if op.b < 0 then QuantityNegative else BookWouldCross
  }

  /** A book operation is accepted exactly for a positive price, no negative quantity, and a price the other side
      is clear of (a removal always is). It then sets the level at its own side and price to its quantity and
      no other level; refused, it changes nothing and names the first fault. */
  lemma BookMeaning(s: State, op: Op)
    requires Inv(s) && op.kind == 0
    ensures Q.Known(s.queue.orders, s.queue.queue) && Step(s, op).Stepped?
    ensures var s', row := Step(s, op).state, Step(s, op).row;
      && row.fills == []
      && (row.verdict.accepted <==> op.a > 0 && op.b >= 0 && (op.b == 0 || Clear(s.book, op.isBid, op.a)))
      && (row.verdict.accepted ==> row.verdict.reason == None && s' == s.(book := s'.book))
      && (row.verdict.accepted ==> forall side, p ::
        B.LevelOf(s'.book, side, p) == LevelAfter(s.book, op.isBid, op.a, op.b, side, p))
      && (!row.verdict.accepted ==> s' == s && row.verdict.reason == Some(BookFault(op)))
  {
    InvKnown(s);
    var changes := [B.Change(op.isBid, op.a, op.b)];
    B.BatchMeaning(s.book, changes);
    B.BatchError(s.book, changes, 0);
    if op.a > 0 && op.b >= 0 { ClearMeaning(s.book, op.isBid, op.a, op.b); }
    assert B.CheckChange(changes[0]).None? <==> op.a > 0 && op.b >= 0;
    assert B.WellFormed(changes) <==> op.a > 0 && op.b >= 0;
    assert op.a > 0 && op.b >= 0 ==> forall j :: !B.FirstFault(changes, j);
    assert !(op.a > 0 && op.b >= 0) ==> B.FirstFault(changes, 0);
    forall side, p
      ensures B.LastChange(B.LevelOf(s.book, side, p), changes, side, p) ==
        LevelAfter(s.book, op.isBid, op.a, op.b, side, p)
    {
      OneChange(s.book, op.isBid, op.a, op.b, side, p);
    }
  }

  // ----- kind 1: a quote (queue-ahead a, quantity b, execution price c, fee d) -----

  /** The queue takes the quote. */
  predicate QueueTakes(s: State, op: Op) { op.id > 0 && op.id !in s.queue.seen && op.a >= 0 && op.b > 0 }

  /** A quote the queue takes stands at the back of the line with its queue-ahead and quantity; if risk has room
      for that quantity on its side, risk reserves it and its side, price and fee are remembered. Otherwise the
      quote stays in the queue alone, its id burnt in risk. One the queue does not take changes nothing. */
  lemma QuoteMeaning(s: State, op: Op)
    requires Inv(s) && op.kind == 1
    ensures Q.Known(s.queue.orders, s.queue.queue) && Step(s, op).Stepped?
    ensures var s', row := Step(s, op).state, Step(s, op).row;
      var taken := QueueTakes(s, op);
      var reserved := taken && R.RoomFor(s.risk, op.isBid, op.b);
      && row.fills == [] && (row.verdict.accepted <==> reserved)
      && s'.book == s.book && s'.scheduler == s.scheduler && s'.accounting == s.accounting
      && s'.risk.position == s.risk.position
      && (!taken ==> s' == s)
      && (taken ==> s'.queue.queue == s.queue.queue + [op.id] && s'.risk.seen == s.risk.seen + {op.id})
      && (taken ==> s'.queue.orders == s.queue.orders[op.id := Q.Order(op.a, op.b, Q.Live)])
      && s'.risk.orders ==
        (if reserved then s.risk.orders[op.id := R.Order(op.isBid, op.b, Reservation.Live)] else s.risk.orders)
      && s'.meta == (if reserved then s.meta[op.id := Meta(op.isBid, op.c, op.d)] else s.meta)
  {
    InvKnown(s);
    QL.PlaceMeaning(s.queue, op.id, op.a, op.b);
    R.ReserveMeaning(s.risk, op.id, op.isBid, op.b);
    hide MapSum;
  }

  lemma QuoteReason(s: State, op: Op)
    requires Inv(s) && op.kind == 1
    ensures Q.Known(s.queue.orders, s.queue.queue) && Step(s, op).Stepped?
    ensures Step(s, op).row.verdict.reason ==
      if op.id <= 0 then Some(InvalidOrderId)
      else if op.id in s.queue.seen then Some(DuplicateOrderId)
      else if op.a < 0 then Some(InvalidQueueAhead)
      else if op.b <= 0 then Some(InvalidQuantity)
      else if !R.RoomFor(s.risk, op.isBid, op.b) then Some(if op.isBid then LongLimit else ShortLimit)
      else None
  {
    InvKnown(s);
    QL.PlaceMeaning(s.queue, op.id, op.a, op.b);
    R.ReserveMeaning(s.risk, op.id, op.isBid, op.b);
    hide MapSum;
  }

  /** The ledger limit of the composed contract is eight lots: from empty, risk takes a quote exactly up to it. */
  lemma LimitIsEight(op: Op)
    requires op.kind == 1 && QueueTakes(EMPTY, op)
    ensures Inv(EMPTY) && Q.Known(EMPTY.queue.orders, EMPTY.queue.queue) && Step(EMPTY, op).Stepped?
    ensures Step(EMPTY, op).row.verdict.accepted <==> op.b <= 8
  {
    EngineTheorems.EmptyInv();
    QuoteMeaning(EMPTY, op);
    assert R.ReservedBuy(EMPTY.risk) == 0 && R.ReservedSell(EMPTY.risk) == 0;
  }

  // ----- kind 2: a print of a lots -----

  /** A print of a lots moves every queued order as its place in the line says, and reports the fills in line
      order; book, scheduler and metadata are left alone. Without lots it is refused and does nothing. */
  lemma PrintMeaning(s: State, op: Op)
    requires Inv(s) && op.kind == 2
    ensures Q.Known(s.queue.orders, s.queue.queue) && Step(s, op).Stepped?
    ensures var s', row := Step(s, op).state, Step(s, op).row;
      && s'.book == s.book && s'.scheduler == s.scheduler && s'.meta == s.meta
      && (op.a <= 0 ==> s' == s && row == Row(Verdict(false, Some(InvalidConsumption)), []))
      && (op.a > 0 ==> forall i :: 0 <= i < |s.queue.queue| ==>
        FlowsTo(s.queue, s'.queue, row.fills, i, op.a - Q.Before(s.queue.orders, s.queue.queue, i)))
  {
    InvKnown(s);
    if op.a > 0 {
      QL.ConsumeClosedForm(s.queue, op.a);
      hide Q.Consume, PostFills;
    }
  }

  /** The order at this place ends as the flow that reaches it makes it, and its fill is reported. */
  ghost predicate FlowsTo(before: Q.State, after: Q.State, fills: Q.Fills, i: nat, flow: int)
    requires i < |before.queue|
  {
    var id := before.queue[i];
    && id in before.orders && id in after.orders
    && after.orders[id] == Q.After(before.orders[id], flow)
    && Q.FillReported(fills, id, i, Q.FillAt(before.orders[id], flow))
  }

  // ----- kinds 3 and 4: cancel and acknowledgement of an id -----

  /** Cancelling touches the named order only. It is accepted exactly for a live quote with metadata, which is
      then cancelled in the queue and pending in risk; a live quote without metadata is cancelled in the queue
      although the operation is refused as unknown to risk. */
  lemma CancelMeaning(s: State, op: Op)
    requires Inv(s) && op.kind == 3
    ensures Q.Known(s.queue.orders, s.queue.queue) && Step(s, op).Stepped?
    ensures var s', row := Step(s, op).state, Step(s, op).row;
      var live := Q.IsLive(s.queue.orders, op.id);
      && row.fills == [] && (row.verdict.accepted <==> live && op.id in s.meta)
      && s'.book == s.book && s'.scheduler == s.scheduler && s'.accounting == s.accounting && s'.meta == s.meta
      && (!live ==> s' == s)
      && (!live ==> row.verdict.reason == Some(if op.id in s.queue.orders then OrderNotLive else UnknownOrder))
      && (live ==> QL.OthersKept(s.queue.orders, s'.queue.orders, op.id) && s'.queue.orders.Keys == s.queue.orders.Keys)
      && (live ==> s'.queue.orders[op.id] == s.queue.orders[op.id].(state := Q.Cancelled))
      && (live ==> QL.LineWithout(s.queue.queue, s'.queue.queue, op.id))
      && (live && op.id in s.meta ==> row.verdict.reason == None)
      && (live && op.id in s.meta ==> op.id in s.risk.orders)
      && (live && op.id in s.meta ==> R.MovesTo(s.risk, s'.risk, op.id, Reservation.PendingCancel))
      && (live && op.id !in s.meta ==> s'.risk == s.risk && row.verdict.reason == Some(UnknownOrder))
  {
    InvKnown(s);
    QL.CancelMeaning(s.queue, op.id);
    R.RequestCancelMeaning(s.risk, op.id);
    if op.id in s.meta { assert Paired(s.meta[op.id], s.queue.orders[op.id], s.risk.orders[op.id]); }
    CancelRouted(s, op);
    hide Step, Q.Cancel, R.RequestCancel, Q.Inv, R.Inv, QL.OthersKept, QL.LineWithout, R.MovesTo;
  }

  lemma CancelRouted(s: State, op: Op)
    requires op.kind == 3 && Q.Known(s.queue.orders, s.queue.queue)
    ensures var (queue, d) := Q.Cancel(s.queue, op.id);
      var (risk, e) := R.RequestCancel(s.risk, op.id);
      && Step(s, op) == Stepped(s.(queue := queue, risk := risk), Row(BothVerdicts(d, e), []))
  {
    hide Q.Cancel, R.RequestCancel;
    var (queue, d) := Q.Cancel(s.queue, op.id);
    var (risk, e) := R.RequestCancel(s.risk, op.id);
    assert StepCancel(s, op).0 == s.(queue := queue, risk := risk);
    assert Observe(FINE, d) == BothVerdicts(d, Accepted);
    assert Observe(Observe(FINE, d), e) == BothVerdicts(d, e);
    assert StepCancel(s, op).1 == BothVerdicts(d, e);
  }

  /** Two decisions of one operation: accepted when both are, and the first refusal names the reason. */
  function BothVerdicts(d: Decision, e: Decision): Verdict {
    if d.Rejected? then Verdict(false, Some(d.reason)) else if e.Rejected? then Verdict(false, Some(e.reason)) else FINE
  }

  /** An acknowledgement concerns risk only, and there the named order only: accepted exactly while its cancel is
      pending, it cancels it. */
  lemma AckMeaning(s: State, op: Op)
    requires Inv(s) && op.kind == 4
    ensures Q.Known(s.queue.orders, s.queue.queue) && Step(s, op).Stepped?
    ensures var s', row := Step(s, op).state, Step(s, op).row;
      var pending := op.id in s.risk.orders && s.risk.orders[op.id].state == Reservation.PendingCancel;
      && row.fills == [] && (row.verdict.accepted <==> pending)
      && s' == s.(risk := s'.risk)
      && (pending ==> R.MovesTo(s.risk, s'.risk, op.id, Reservation.Cancelled) && row.verdict.reason == None)
      && (!pending ==> s' == s)
      && (!pending ==> row.verdict.reason == Some(if op.id in s.risk.orders then CancelNotPending else UnknownOrder))
  {
    InvKnown(s);
    R.CancelAckMeaning(s.risk, op.id);
    hide R.CancelAck, R.MovesTo;
  }

  // ----- kinds 5 and 9: mark (price a) and markout (fill price a, quantity b, mark price c) -----

  /** A mark concerns accounting only: for a positive price the mark of symbol 0 becomes that price. */
  lemma MarkMeaning(s: State, op: Op)
    requires Inv(s) && op.kind == 5
    ensures Q.Known(s.queue.orders, s.queue.queue) && Step(s, op).Stepped?
    ensures var s', row := Step(s, op).state, Step(s, op).row;
      && row == Row(if op.a > 0 then FINE else Verdict(false, Some(InvalidMarkPrice)), [])
      && s' == s.(accounting := s'.accounting)
      && (op.a <= 0 ==> s' == s)
      && s'.accounting == s.accounting.(marks := s'.accounting.marks)
      && forall k ::
        AL.MarkOf(s'.accounting, k) == if k == 0 && op.a > 0 then Some(op.a) else AL.MarkOf(s.accounting, k)
  {
    InvKnown(s);
    AL.MarkMeaning(s.accounting, 0, op.a);
  }

  /** A markout concerns the markout totals only: the cash moves by quantity times the move from fill price to
      mark price, a million to the tick-lot, in the direction of the side. */
  lemma MarkoutMeaning(s: State, op: Op)
    requires Inv(s) && op.kind == 9
    ensures Q.Known(s.queue.orders, s.queue.queue) && Step(s, op).Stepped?
    ensures var s', row := Step(s, op).state, Step(s, op).row;
      var gain := (op.c - op.a) * op.b * 1_000_000;
      && row.fills == [] && (row.verdict.accepted <==> op.a > 0 && op.b > 0 && op.c > 0)
      && (!row.verdict.accepted ==> s' == s)
      && (row.verdict.reason == if op.a <= 0 || op.c <= 0 then Some(InvalidMarkoutPrice)
                                else if op.b <= 0 then Some(InvalidMarkoutQuantity) else None)
      && (row.verdict.accepted ==> s' == s.(accounting := s.accounting.(
        markoutCash := s.accounting.markoutCash + (if op.isBid then gain else -gain),
        markoutQty := s.accounting.markoutQty + op.b)))
  {
    InvKnown(s);
    AL.MarkoutMeaning(s.accounting, op.isBid, op.a, op.b, op.c);
    hide A.Markout;
  }

  // ----- kind 6: epoch -----

  /** An epoch invalidates the live quotes of the queue and the outstanding reservations of risk, keeps every lot,
      side, id and position, and leaves the other components alone. */
  lemma EpochMeaning(s: State, op: Op)
    requires Inv(s) && op.kind == 6
    ensures Q.Known(s.queue.orders, s.queue.queue) && Step(s, op).Stepped?
    ensures var s' := Step(s, op).state;
      && Step(s, op).row == Row(FINE, [])
      && s'.book == s.book && s'.scheduler == s.scheduler && s'.accounting == s.accounting && s'.meta == s.meta
      && s'.queue.queue == [] && s'.queue.seen == s.queue.seen && s'.queue.orders.Keys == s.queue.orders.Keys
      && s'.risk.position == s.risk.position && s'.risk.seen == s.risk.seen && s'.risk.orders.Keys == s.risk.orders.Keys
      && (forall id :: id in s.queue.orders ==> s'.queue.orders[id] == s.queue.orders[id].(
        state := if s.queue.orders[id].state == Q.Live then Q.EpochInvalidated else s.queue.orders[id].state))
      && (forall id :: id in s.risk.orders ==> s'.risk.orders[id] == s.risk.orders[id].(
        state := if s.risk.orders[id].state.Live? || s.risk.orders[id].state.PendingCancel?
                 then Reservation.EpochInvalidated else s.risk.orders[id].state))
  {
    InvKnown(s);
    QL.InvalidateMeaning(s.queue);
    R.InvalidateMeaning(s.risk);
  }

  // ----- kinds 7 and 8: schedule and drain at the logical time (a, b) -----

  /** A schedule is accepted exactly for a fresh non-negative id, whose action is then pending, due at (a, b), with
      the next insertion number; nothing else changes. */
  lemma ScheduleMeaning(s: State, op: Op)
    requires Inv(s) && op.kind == 7 && op.a >= 0 && op.b >= 0
    ensures Q.Known(s.queue.orders, s.queue.queue) && Step(s, op).Stepped?
    ensures var s', row := Step(s, op).state, Step(s, op).row;
      var fine := op.id >= 0 && op.id !in s.scheduler.seen;
      && row.fills == [] && (row.verdict.accepted <==> fine)
      && s' == s.(scheduler := s'.scheduler)
      && (fine ==> s'.scheduler.seen == s.scheduler.seen + {op.id} && s'.scheduler.next == s.scheduler.next + 1)
      && (fine ==> s'.scheduler.pending.Keys == s.scheduler.pending.Keys + {op.id})
      && (fine ==> s'.scheduler.pending[op.id].due.ns == op.a && s'.scheduler.pending[op.id].due.seqno == op.b)
      && (fine ==> s'.scheduler.pending[op.id].insertion == s.scheduler.next)
      && (fine ==> forall id :: id in s.scheduler.pending && id != op.id ==>
        s'.scheduler.pending[id] == s.scheduler.pending[id])
      && (!fine ==> s' == s && row.verdict.reason == Some(if op.id < 0 then InvalidActionId else DuplicateActionId))
  {
    InvKnown(s);
  }

  /** A drain removes exactly the actions due before (a, b), and those due at it when the flag is set; nothing else
      changes. */
  lemma DrainMeaning(s: State, op: Op)
    requires Inv(s) && op.kind == 8 && op.a >= 0 && op.b >= 0
    ensures Q.Known(s.queue.orders, s.queue.queue) && Step(s, op).Stepped?
    ensures var s' := Step(s, op).state;
      && Step(s, op).row == Row(FINE, [])
      && s' == s.(scheduler := s'.scheduler)
      && s'.scheduler.seen == s.scheduler.seen && s'.scheduler.next == s.scheduler.next
      && (forall id :: id in s'.scheduler.pending <==>
        id in s.scheduler.pending && !S.DueBy(s.scheduler.pending[id].due, S.LogicalTime(op.a, op.b), op.isBid))
      && (forall id :: id in s'.scheduler.pending ==> s'.scheduler.pending[id] == s.scheduler.pending[id])
  {
    InvKnown(s);
    S.DrainMeaning(s.scheduler, S.LogicalTime(op.a, op.b), op.isBid);
  }

  // ----- the cash of prints -----

  /** Cash that changes hands in the fills of a print: each at the price its quote named, paid for bids and received
      for asks, a million to the tick-lot. Fills without metadata or without a positive price are not booked. */
  function FillCash(meta: map<int, Meta>, fills: Q.Fills): int
    decreases |fills|
  {
    if |fills| == 0 then 0 else
      var last := fills[|fills| - 1];
      FillCash(meta, fills[..|fills| - 1]) +
        (if last.0 in meta && meta[last.0].price > 0 then
           Signed(!meta[last.0].isBid, meta[last.0].price * last.1 * 1_000_000) else 0)
  }

  /** Fees of the booked fills: each the fee its quote named. */
  function FillFees(meta: map<int, Meta>, fills: Q.Fills): int
    decreases |fills|
  {
    if |fills| == 0 then 0 else
      var last := fills[|fills| - 1];
      FillFees(meta, fills[..|fills| - 1]) +
        (if last.0 in meta && meta[last.0].price > 0 then meta[last.0].fee else 0)
  }

  /** Realized PnL and open cost moved by exactly this cash, fees by exactly these; marks and markouts did not move. */
  ghost predicate Booked(before: A.State, after: A.State, cash: int, fees: int) {
    && after.realized - AL.OpenCost(after) == before.realized - AL.OpenCost(before) + cash
    && after.fees == before.fees + fees
    && after.marks == before.marks && after.markoutCash == before.markoutCash && after.markoutQty == before.markoutQty
  }

  lemma BookedOnce(a: A.State, m: Meta, qty: int)
    requires A.Inv(a) && qty > 0
    ensures var a' := A.Fill(a, 0, m.isBid, m.price, qty, m.fee).0;
      Booked(a, a', if m.price > 0 then Signed(!m.isBid, m.price * qty * 1_000_000) else 0,
        if m.price > 0 then m.fee else 0)
  {
    AL.StepConserves(a, A.FillOp(0, m.isBid, m.price, qty, m.fee));
    AL.FillMeaning(a, 0, m.isBid, m.price, qty, m.fee);
  }

  lemma {:induction false} PostedCash(s: State, fills: Q.Fills, n: nat)
    requires Inv(s) && Ready(s.risk, s.meta, fills) && n <= |fills|
    ensures Booked(s.accounting, PostFills(Books(s.risk, s.accounting, FINE), s.meta, fills[..n]).accounting,
                   FillCash(s.meta, fills[..n]), FillFees(s.meta, fills[..n]))
  {
    if n > 0 {
      PostedCash(s, fills, n - 1);
      PostFillsMeaning(s, fills, n - 1);
      LastFill(s.meta, fills, n - 1);
      var t := PostFills(Books(s.risk, s.accounting, FINE), s.meta, fills[..n - 1]);
      var fill := fills[n - 1];
      if fill.0 in s.meta {
        RiskFillAccepted(s.risk, t.risk, s.meta, fills, n - 1);
        BookedOnce(t.accounting, s.meta[fill.0], fill.1);
        LastPosted(t, s.meta, fill);
      }
      hide Inv, Ready, A.Fill, PostFill, AL.OpenCost;
    }
  }

  lemma LastPosted(t: Books, meta: map<int, Meta>, fill: (int, int))
    requires fill.0 in meta && R.Fill(t.risk, fill.0, fill.1).1 == Accepted
    ensures var m := meta[fill.0];
      PostFill(t, meta, fill).accounting == A.Fill(t.accounting, 0, m.isBid, m.price, fill.1, m.fee).0
  {
    hide R.Fill, A.Fill;
  }

  /** The cash of one print: what accounting books is exactly what the fills are worth at the prices and fees the
      quotes named. */
  lemma PrintCash(s: State, op: Op)
    requires Inv(s) && op.kind == 2
    ensures Q.Known(s.queue.orders, s.queue.queue) && Step(s, op).Stepped?
    ensures var s', fills := Step(s, op).state, Step(s, op).row.fills;
      Booked(s.accounting, s'.accounting, FillCash(s.meta, fills), FillFees(s.meta, fills))
  {
    InvKnown(s);
    if op.a > 0 {
      PrintFills(s, op.a);
      var o := Q.Consume(s.queue, op.a);
      QL.ConsumeRefusal(s.queue, op.a);
      PostedCash(s, o.fills, |o.fills|);
      assert o.fills[..|o.fills|] == o.fills;
      hide PostFills, Booked, Inv, Q.Consume;
      assert Step(s, op) == Stepped(StepConsume(s, op).0, StepConsume(s, op).1);
    }
  }
}

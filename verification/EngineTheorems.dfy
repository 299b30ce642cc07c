/** Whole runs of the composed contract: position agreement and its exact condition, exactly when a
    rejected operation leaves the state alone, and what quotes risk can refuse. */
module EngineTheorems {
  import opened Common
  import opened Engine
  import opened EngineLaws
  import B = Book
  import Q = PublicQueue
  import QL = PublicQueueLaws
  import S = Scheduler
  import R = Risk
  import A = Accounting

  datatype Played = Played(state: State, rows: seq<Row>) | Interrupted(rows: seq<Row>)

  /** A trace from a given state, up to the first operation that raises. */
  function Play(s: State, ops: seq<Op>): Played
    requires Inv(s)
    decreases |ops|
  {
    if |ops| == 0 then Played.Played(s, []) else
      InvStep(s, ops[0]);
      match Step(s, ops[0])
      case Raised => Interrupted([])
      case Stepped(s1, row) =>
        match Play(s1, ops[1..])
        case Played(end, rows) => Played.Played(end, [row] + rows)
        case Interrupted(rows) => Interrupted([row] + rows)
  }

  lemma EmptyInv()
    ensures Inv(EMPTY)
  {
  }

  // ----- positions over runs -----

  /** Net lots of all fills to orders with metadata over a run. */
  function SignedOverRun(s: State, ops: seq<Op>): int
    requires Inv(s)
    decreases |ops|
  {
    if |ops| == 0 then 0 else
      InvStep(s, ops[0]);
      match Step(s, ops[0])
      case Raised => 0
      case Stepped(s1, row) => SignedFills(s.meta, row.fills) + SignedOverRun(s1, ops[1..])
  }

  lemma NoPrintNoMove(s: State, op: Op)
    requires Q.Known(s.queue.orders, s.queue.queue) && (op.kind == 2 ==> op.a <= 0)
    ensures Step(s, op).Stepped? ==>
      var s', row := Step(s, op).state, Step(s, op).row;
      row.fills == [] && s'.risk.position == s.risk.position && s'.accounting.positions == s.accounting.positions
  {
    hide B.ApplyBatch, Q.Place, Q.Cancel, Q.Invalidate, S.Schedule, S.Drain;
  }

  lemma StepPositions(s: State, op: Op)
    requires Inv(s)
    ensures Q.Known(s.queue.orders, s.queue.queue)
    ensures Step(s, op).Stepped? ==>
      var s', row := Step(s, op).state, Step(s, op).row;
      && s'.risk.position == s.risk.position + SignedFills(s.meta, row.fills)
      && LotsAt(s'.accounting) == LotsAt(s.accounting) + PricedFills(s.meta, row.fills)
  {
    InvKnown(s);
    if op.kind == 2 && op.a > 0 {
      PrintStep(s, op);
      hide StepConsume, Inv;
      assert Step(s, op) == Stepped(StepConsume(s, op).0, StepConsume(s, op).1);
    } else {
      NoPrintNoMove(s, op);
    }
  }

  /** Over any run at all, the risk position is the signed sum of the fills to orders with metadata,
      and it never leaves the ledger's limit. */
  lemma {:induction false} RiskPositionIsFillSum(s: State, ops: seq<Op>)
    requires Inv(s)
    ensures Play(s, ops).Played? ==>
      var s' := Play(s, ops).state;
      && Inv(s')
      && s'.risk.position == s.risk.position + SignedOverRun(s, ops)
      && -RISK_LIMIT <= s'.risk.position <= RISK_LIMIT
    decreases |ops|
  {
    if |ops| == 0 {
      R.PositionWithinLimit(s.risk);
    } else {
      InvStep(s, ops[0]);
      StepPositions(s, ops[0]);
      if Step(s, ops[0]).Stepped? { RiskPositionIsFillSum(Step(s, ops[0]).state, ops[1..]); }
    }
  }

  ghost predicate PositiveQuotes(ops: seq<Op>) { forall i :: 0 <= i < |ops| && ops[i].kind == 1 ==> ops[i].c > 0 }

  lemma {:induction false} AllPriced(meta: map<int, Meta>, fills: Q.Fills)
    requires forall i :: 0 <= i < |fills| && fills[i].0 in meta ==> meta[fills[i].0].price > 0
    ensures PricedFills(meta, fills) == SignedFills(meta, fills)
    decreases |fills|
  {
    if |fills| > 0 { AllPriced(meta, fills[..|fills| - 1]); }
  }

  // ----- exactly when agreement can be lost -----

  predicate Unpriced(s: State, id: int) { id in s.meta && s.meta[id].price <= 0 }

  /** Every quote still live in the queue that carries metadata has a positive price. */
  ghost predicate LivePricesPositive(s: State) {
    forall i :: 0 <= i < |s.queue.queue| ==> !Unpriced(s, s.queue.queue[i])
  }

  /** No print of any size can pull the two positions apart. */
  ghost predicate EveryPrintAgrees(s: State)
    requires Inv(s)
  {
    InvKnown(s);
    forall n: int :: AgreesAfter(s, n)
  }

  ghost predicate AgreesAfter(s: State, n: int)
    requires Q.Known(s.queue.orders, s.queue.queue)
  {
    var s' := StepConsume(s, Op(2, 0, false, n, 0, 0, 0)).0;
    LotsAt(s'.accounting) == s'.risk.position
  }

  /** A print sized to reach the order at place i and fill exactly one lot of it. */
  function ReachingLots(s: State, i: nat): int
    requires Q.Known(s.queue.orders, s.queue.queue) && i < |s.queue.queue|
  {
    Q.Before(s.queue.orders, s.queue.queue, i) + s.queue.orders[s.queue.queue[i]].ahead + 1
  }

  lemma {:induction false} BeforeNext(orders: Q.Orders, line: seq<int>, i: nat)
    requires Q.LiveQueue(orders, line) && i < |line|
    ensures Q.Before(orders, line, i) >= 0
    ensures Q.Before(orders, line, i + 1) == Q.Before(orders, line, i) + orders[line[i]].ahead
      + orders[line[i]].remaining
    decreases i
  {
    Q.WorkNonNegative(orders, line[..i]);
    if i > 0 {
      Q.BeforeTail(orders, line, i);
      Q.BeforeTail(orders, line, i + 1);
      BeforeNext(orders, line[1..], i - 1);
    } else {
      assert line[..1][1..] == [] && line[..0] == [];
    }
  }

  lemma ReachingFills(s: State, i: nat)
    requires Inv(s) && i < |s.queue.queue|
    ensures Q.Known(s.queue.orders, s.queue.queue) && ReachingLots(s, i) > 0
    ensures var fills := Q.Consume(s.queue, ReachingLots(s, i)).fills;
      && |fills| == i + 1
      && fills[i] == (s.queue.queue[i], 1)
      && forall j :: 0 <= j <= i ==> fills[j].0 == s.queue.queue[j]
  {
    QL.InvIsLiveQueue(s.queue);
    var orders, line := s.queue.orders, s.queue.queue;
    BeforeNext(orders, line, i);
    var n := ReachingLots(s, i);
    QL.ConsumeClosedForm(s.queue, n);
    var fills := Q.Consume(s.queue, n).fills;
    assert Q.FillReported(fills, line[i], i, QL.FillOf(fills, line[i]));
    if i + 1 < |line| {
      assert Q.FillReported(fills, line[i + 1], i + 1, QL.FillOf(fills, line[i + 1]));
    }
    forall j | 0 <= j <= i ensures fills[j].0 == line[j] {
      assert Q.FillReported(fills, line[j], j, QL.FillOf(fills, line[j]));
    }
  }

  lemma FirstUnpriced(s: State, i: nat) returns (first: nat)
    requires i < |s.queue.queue| && Unpriced(s, s.queue.queue[i])
    ensures first < |s.queue.queue| && Unpriced(s, s.queue.queue[first])
    ensures forall j :: 0 <= j < first ==> !Unpriced(s, s.queue.queue[j])
  {
    first := 0;
    while !Unpriced(s, s.queue.queue[first])
      invariant first <= i
      invariant forall j :: 0 <= j < first ==> !Unpriced(s, s.queue.queue[j])
      decreases i - first
    {
      first := first + 1;
    }
  }

  /** Given agreement now, it survives every print if and only if every live quote with metadata has a
      positive price: the guard accounting applies on fill, which quoting does not. */
  lemma AgreementIff(s: State)
    requires Inv(s) && LotsAt(s.accounting) == s.risk.position
    ensures EveryPrintAgrees(s) <==> LivePricesPositive(s)
  {
    InvKnown(s);
    if LivePricesPositive(s) {
      forall n: int ensures AgreesAfter(s, n) { PricedPrintAgrees(s, n); }
    } else {
      var i :| 0 <= i < |s.queue.queue| && Unpriced(s, s.queue.queue[i]);
      var first := FirstUnpriced(s, i);
      UnpricedPrintDisagrees(s, first);
      assert !AgreesAfter(s, ReachingLots(s, first));
    }
  }

  lemma PricedPrintAgrees(s: State, n: int)
    requires Inv(s) && LotsAt(s.accounting) == s.risk.position && LivePricesPositive(s)
    ensures Q.Known(s.queue.orders, s.queue.queue) && AgreesAfter(s, n)
  {
    InvKnown(s);
    if n > 0 {
      var op := Op(2, 0, false, n, 0, 0, 0);
      PrintStep(s, op);
      QL.ConsumeClosedForm(s.queue, n);
      var fills := Q.Consume(s.queue, n).fills;
      forall i | 0 <= i < |fills| ensures !Unpriced(s, fills[i].0) {
        assert Q.FillReported(fills, s.queue.queue[i], i, QL.FillOf(fills, s.queue.queue[i]));
      }
      AllPriced(s.meta, fills);
    }
  }

  lemma UnpricedPrintDisagrees(s: State, i: nat)
    requires Inv(s) && LotsAt(s.accounting) == s.risk.position
    requires i < |s.queue.queue| && Unpriced(s, s.queue.queue[i])
    requires forall j :: 0 <= j < i ==> !Unpriced(s, s.queue.queue[j])
    ensures Q.Known(s.queue.orders, s.queue.queue) && !AgreesAfter(s, ReachingLots(s, i))
  {
    ReachingFills(s, i);
    var op := Op(2, 0, false, ReachingLots(s, i), 0, 0, 0);
    PrintStep(s, op);
    var fills := Q.Consume(s.queue, op.a).fills;
    forall j | 0 <= j < |fills[..i]| ensures !Unpriced(s, fills[..i][j].0) {
      assert fills[..i][j] == fills[j];
    }
    AllPriced(s.meta, fills[..i]);
    assert fills[..|fills| - 1] == fills[..i];
  }

  // ----- agreement over whole runs -----

  lemma QuoteIsFresh(s: State, op: Op)
    requires Inv(s) && op.kind == 1 && StepQuote(s, op).0.meta != s.meta
    ensures op.id !in s.meta && StepQuote(s, op).0.meta == s.meta[op.id := Meta(op.isBid, op.c, op.d)]
  {
  }

  /** A live order was live before, except the one a quote has just added. */
  lemma LiveWasLive(s: State, op: Op, id: int)
    requires Inv(s)
    ensures Q.Known(s.queue.orders, s.queue.queue)
    ensures Step(s, op).Stepped? && Q.IsLive(Step(s, op).state.queue.orders, id) ==>
      Q.IsLive(s.queue.orders, id) || (op.kind == 1 && op.id == id && id !in s.queue.seen)
  {
    InvKnown(s);
    if op.kind == 1 { QL.StepShape(s.queue, QL.PlaceOp(op.id, op.a, op.b)); }
    else if op.kind == 2 { QL.StepShape(s.queue, QL.ConsumeOp(op.a)); }
    else if op.kind == 3 { QL.StepShape(s.queue, QL.CancelOp(op.id)); }
    else if op.kind == 6 { QL.StepShape(s.queue, QL.InvalidateOp); }
  }

  lemma LivePriceStays(s: State, op: Op, id: int)
    requires Inv(s) && LivePricesPositive(s) && (op.kind == 1 ==> op.c > 0)
    requires Q.Known(s.queue.orders, s.queue.queue) && Step(s, op).Stepped?
    requires Q.IsLive(s.queue.orders, id) || (op.kind == 1 && op.id == id && id !in s.queue.seen)
    ensures !Unpriced(Step(s, op).state, id)
  {
    if op.kind == 1 && StepQuote(s, op).0.meta != s.meta { QuoteIsFresh(s, op); }
    if Q.IsLive(s.queue.orders, id) { assert id in s.queue.queue; }
  }

  lemma LivePricesStay(s: State, op: Op)
    requires Inv(s) && LivePricesPositive(s) && (op.kind == 1 ==> op.c > 0)
    ensures Q.Known(s.queue.orders, s.queue.queue)
    ensures Step(s, op).Stepped? ==> LivePricesPositive(Step(s, op).state)
  {
    InvStep(s, op);
    if Step(s, op).Stepped? {
      var s' := Step(s, op).state;
      InvKnown(s');
      forall i | 0 <= i < |s'.queue.queue| ensures !Unpriced(s', s'.queue.queue[i]) {
        LiveWasLive(s, op, s'.queue.queue[i]);
        LivePriceStays(s, op, s'.queue.queue[i]);
      }
    }
  }

  ghost predicate Agrees(s: State) { LotsAt(s.accounting) == s.risk.position }

  lemma StepAgrees(s: State, op: Op)
    requires Inv(s) && Agrees(s) && LivePricesPositive(s)
    ensures Q.Known(s.queue.orders, s.queue.queue)
    ensures Step(s, op).Stepped? ==> Agrees(Step(s, op).state)
  {
    InvKnown(s);
    hide Inv, LotsAt;
    if op.kind == 2 {
      PricedPrintAgrees(s, op.a);
      PrintReadsLots(s, op);
    } else {
      StepPositions(s, op);
    }
  }

  /** A print looks at no field of its operation but the lots. */
  lemma PrintReadsLots(s: State, op: Op)
    requires Q.Known(s.queue.orders, s.queue.queue)
    ensures StepConsume(s, op) == StepConsume(s, Op(2, 0, false, op.a, 0, 0, 0))
  {
  }

  lemma {:induction false} AgreementKept(s: State, ops: seq<Op>)
    requires Inv(s) && Agrees(s) && LivePricesPositive(s) && PositiveQuotes(ops)
    ensures Play(s, ops).Played? ==> Agrees(Play(s, ops).state)
    decreases |ops|
  {
    hide Step, Inv, Agrees, LivePricesPositive;
    if |ops| > 0 {
      InvStep(s, ops[0]);
      StepAgrees(s, ops[0]);
      LivePricesStay(s, ops[0]);
      if Step(s, ops[0]).Stepped? { AgreementKept(Step(s, ops[0]).state, ops[1..]); }
    }
  }

  /** No continuation that quotes positive prices can pull the two positions apart. */
  ghost predicate AgreesForever(s: State)
    requires Inv(s)
  {
    forall ops :: PositiveQuotes(ops) && Play(s, ops).Played? ==> Agrees(Play(s, ops).state)
  }

  /** The same condition decides whole runs: given agreement now, every continuation whose quotes carry
      positive prices keeps it if and only if every live quote with metadata has a positive price. */
  lemma RunAgreementIff(s: State)
    requires Inv(s) && Agrees(s)
    ensures AgreesForever(s) <==> LivePricesPositive(s)
  {
    if LivePricesPositive(s) {
      forall ops | PositiveQuotes(ops) && Play(s, ops).Played?
        ensures Agrees(Play(s, ops).state)
      {
        AgreementKept(s, ops);
      }
    } else {
      AgreementIff(s);
      InvKnown(s);
      var n :| !AgreesAfter(s, n);
      PlayPrint(s, Op(2, 0, false, n, 0, 0, 0));
    }
  }

  lemma PlayPrint(s: State, op: Op)
    requires Inv(s) && op.kind == 2 && Q.Known(s.queue.orders, s.queue.queue)
    ensures Play(s, [op]).Played? && Play(s, [op]).state == StepConsume(s, op).0
  {
    hide Inv, StepConsume;
    InvStep(s, op);
    assert [op][1..] == [];
  }

  /** Position agreement: on every run whose quotes carry positive prices, the accounting lots equal the
      risk position, both equal the signed sum of the fills to orders with metadata, and their absolute
      value never exceeds the ledger limit of 8. */
  lemma PositionAgreement(ops: seq<Op>)
    requires PositiveQuotes(ops)
    ensures Inv(EMPTY)
    ensures Play(EMPTY, ops).Played? ==>
      var s := Play(EMPTY, ops).state;
      && LotsAt(s.accounting) == s.risk.position == SignedOverRun(EMPTY, ops)
      && Abs(LotsAt(s.accounting)) <= RISK_LIMIT
  {
    EmptyInv();
    RiskPositionIsFillSum(EMPTY, ops);
    AgreementKept(EMPTY, ops);
  }

  /** A concrete run that loses agreement: one bid quoted at price 0, then one lot printed. */
  lemma UnpricedQuoteBreaksAgreement()
    ensures Inv(EMPTY)
    ensures var ops := [Op(1, 1, true, 0, 1, 0, 0), Op(2, 0, false, 1, 0, 0, 0)];
      && Play(EMPTY, ops).Played?
      && Play(EMPTY, ops).state.risk.position == 1
      && LotsAt(Play(EMPTY, ops).state.accounting) == 0
  {
    EmptyInv();
    var quote, trade := Op(1, 1, true, 0, 1, 0, 0), Op(2, 0, false, 1, 0, 0, 0);
    var s := QuotedAtZero(quote);
    FirstLot(s, trade);
    InvKnown(EMPTY);
    PlayTwo(EMPTY, quote, trade, s, StepConsume(s, trade).0);
  }

  lemma PlayTwo(s: State, first: Op, second: Op, middle: State, end: State)
    requires Inv(s) && Inv(middle) && Q.Known(s.queue.orders, s.queue.queue)
      && Q.Known(middle.queue.orders, middle.queue.queue)
    requires Step(s, first).Stepped? && Step(s, first).state == middle
    requires Step(middle, second).Stepped? && Step(middle, second).state == end
    ensures Play(s, [first, second]).Played? && Play(s, [first, second]).state == end
  {
    hide Step, Inv;
    InvStep(middle, second);
    assert [first, second][1..] == [second] && [second][1..] == [];
    assert Play(middle, [second]).Played? && Play(middle, [second]).state == end;
  }

  lemma QuotedAtZero(quote: Op) returns (s: State)
    requires quote == Op(1, 1, true, 0, 1, 0, 0)
    ensures s == StepQuote(EMPTY, quote).0 && Inv(s)
    ensures s.meta == map[1 := Meta(true, 0, 0)] && s.queue.queue == [1]
      && s.queue.orders == map[1 := Q.Order(0, 1, Q.Live)]
    ensures s.risk.position == 0 && LotsAt(s.accounting) == 0
  {
    EmptyInv();
    QuoteStep(EMPTY, quote);
    s := StepQuote(EMPTY, quote).0;
  }

  /** One printed lot fills the order at the head, in risk but not in accounting. */
  lemma FirstLot(s: State, trade: Op)
    requires trade == Op(2, 0, false, 1, 0, 0, 0) && Inv(s)
    requires s.meta == map[1 := Meta(true, 0, 0)] && s.queue.queue == [1]
      && s.queue.orders == map[1 := Q.Order(0, 1, Q.Live)]
    requires s.risk.position == 0 && LotsAt(s.accounting) == 0
    ensures Q.Known(s.queue.orders, s.queue.queue)
    ensures StepConsume(s, trade).0.risk.position == 1 && LotsAt(StepConsume(s, trade).0.accounting) == 0
  {
    hide Inv, LotsAt;
    ReachingFills(s, 0);
    assert s.queue.queue[..0] == [];
    assert ReachingLots(s, 0) == 1;
    PrintStep(s, trade);
    var fills := Q.Consume(s.queue, 1).fills;
    assert fills == [(1, 1)];
    assert fills[..0] == [];
  }

  // ----- exactly when a rejected operation changes nothing -----

  /** A rejection that nevertheless leaves a trace: a quote the queue took and risk refused, the cancel
      of such a quote, or a print some of whose fills could not be booked. */
  predicate RejectionLeavesTrace(s: State, op: Op) {
    || (op.kind == 1 && op.id > 0 && op.id !in s.queue.seen && op.a >= 0 && op.b > 0)
    || (op.kind == 2 && op.a > 0)
    || (op.kind == 3 && Q.IsLive(s.queue.orders, op.id) && op.id !in s.meta)
  }

  /** In every reachable state, a rejected operation leaves the whole state unchanged if and only if it
      is not one of those three. */
  lemma RejectedIsAtomicIff(s: State, op: Op)
    requires Inv(s)
    ensures Q.Known(s.queue.orders, s.queue.queue)
    ensures Step(s, op).Stepped? && !Step(s, op).row.verdict.accepted ==>
      (Step(s, op).state == s <==> !RejectionLeavesTrace(s, op))
  {
    InvKnown(s);
    if op.kind == 2 && op.a > 0 && !StepConsume(s, op).1.verdict.accepted {
      RejectedPrintMoved(s, op);
    } else if op.kind == 3 {
      CancelAtomic(s, op);
    }
  }

  lemma RejectedPrintMoved(s: State, op: Op)
    requires Inv(s) && op.a > 0
    ensures Q.Known(s.queue.orders, s.queue.queue)
    ensures !StepConsume(s, op).1.verdict.accepted ==> StepConsume(s, op).0.queue != s.queue
  {
    PrintStep(s, op);
    QL.ConsumeClosedForm(s.queue, op.a);
    var o := Q.Consume(s.queue, op.a);
    if |o.fills| > 0 {
      var id := s.queue.queue[0];
      assert Q.FillReported(o.fills, id, 0, QL.FillOf(o.fills, id));
      QL.StepFillOf(s.queue, QL.ConsumeOp(op.a), id);
    }
  }

  lemma CancelAtomic(s: State, op: Op)
    requires Inv(s) && op.kind == 3
    ensures !StepCancel(s, op).1.accepted ==>
      (StepCancel(s, op).0 == s <==> !RejectionLeavesTrace(s, op))
  {
    if op.id in s.meta {
      assert Paired(s.meta[op.id], s.queue.orders[op.id], s.risk.orders[op.id]);
    }
  }

  // ----- each kind of rejection that leaves a trace happens -----

  /** Rejected, and yet the state is another one. */
  ghost predicate RejectedButMoved(s: State, op: Op)
    requires Q.Known(s.queue.orders, s.queue.queue)
  {
    Step(s, op).Stepped? && !Step(s, op).row.verdict.accepted && Step(s, op).state != s
  }

  /** The state after a bid for 9 lots from empty: the queue holds it, risk has refused it. */
  lemma OrphanQuote() returns (s: State)
    ensures Inv(EMPTY) && Inv(s) && Q.Known(EMPTY.queue.orders, EMPTY.queue.queue)
    ensures Step(EMPTY, Op(1, 1, true, 0, 9, 100, 0)) == Stepped(s, Row(Verdict(false, Some(LongLimit)), []))
    ensures s.queue == Q.State(map[1 := Q.Order(0, 9, Q.Live)], [1], {1}) && s.meta == map[]
  {
    var quote := Op(1, 1, true, 0, 9, 100, 0);
    EmptyInv();
    InvStep(EMPTY, quote);
    assert R.ReservedBuy(EMPTY.risk) == 0 && R.ReservedSell(EMPTY.risk) == 0;
    s := StepQuote(EMPTY, quote).0;
  }

  /** Three concrete rejections that change the state, one per disjunct of RejectionLeavesTrace: a quote for
      9 lots against the limit of 8 stays in the queue, cancelling that orphan removes it from the queue
      although risk does not know it, and printing a lot against it fills it although it has no metadata. */
  lemma RejectionThatMoves()
    ensures Inv(EMPTY) && Q.Known(EMPTY.queue.orders, EMPTY.queue.queue)
    ensures var quote := Op(1, 1, true, 0, 9, 100, 0);
      var cancel, trade := Op(3, 1, false, 0, 0, 0, 0), Op(2, 0, false, 1, 0, 0, 0);
      && RejectedButMoved(EMPTY, quote)
      && var s := Step(EMPTY, quote).state;
      && Inv(s) && Q.Known(s.queue.orders, s.queue.queue)
      && RejectedButMoved(s, cancel) && RejectedButMoved(s, trade)
  {
    var s := OrphanQuote();
    InvKnown(s);
    assert RejectedButMoved(EMPTY, Op(1, 1, true, 0, 9, 100, 0)) by { assert s.queue != EMPTY.queue; }
    OrphanCancelMoves(s, Op(3, 1, false, 0, 0, 0, 0));
    OrphanPrintMoves(s, Op(2, 0, false, 1, 0, 0, 0));
  }

  lemma OrphanCancelMoves(s: State, op: Op)
    requires Inv(s) && op.kind == 3 && Q.IsLive(s.queue.orders, op.id) && op.id !in s.meta
    ensures Q.Known(s.queue.orders, s.queue.queue) && RejectedButMoved(s, op)
  {
    InvKnown(s);
    assert op.id !in s.risk.orders;
    assert StepCancel(s, op).0.queue.orders[op.id] != s.queue.orders[op.id];
  }

  lemma OrphanPrintMoves(s: State, op: Op)
    requires Inv(s) && op.kind == 2 && op.a == 1 && |s.queue.queue| > 0
    requires s.queue.queue[0] !in s.meta && s.queue.orders[s.queue.queue[0]].ahead == 0
    ensures Q.Known(s.queue.orders, s.queue.queue) && RejectedButMoved(s, op)
  {
    InvKnown(s);
    ReachingFills(s, 0);
    assert s.queue.queue[..0] == [];
    assert ReachingLots(s, 0) == 1;
    PrintStep(s, op);
    var fills := Q.Consume(s.queue, 1).fills;
    assert fills[..0] == [] && fills[..|fills| - 1] == [];
    assert FirstProblem(s.meta, fills) == Some(MissingOrderMetadata);
    RejectedPrintMoved(s, op);
  }

  /** Risk refuses a quote the queue took on limit grounds only: its ids can never be duplicates there. */
  lemma QuoteRefusedOnLimitOnly(s: State, op: Op)
    requires Inv(s) && op.kind == 1 && Q.Place(s.queue, op.id, op.a, op.b).1.Accepted?
    ensures var v := StepQuote(s, op).1;
      && (v.accepted <==> R.SafeForever(R.Admitted(s.risk, op.id, op.isBid, op.b)))
      && (!v.accepted ==> v.reason == Some(if op.isBid then LongLimit else ShortLimit))
      && (op.id in StepQuote(s, op).0.meta <==> v.accepted)
  {
    R.ReserveExact(s.risk, op.id, op.isBid, op.b);
  }
}

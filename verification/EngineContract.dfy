/** The composed contract as it runs: five live components and the order metadata, one operation at a
    time, proved to publish exactly the rows of the specification. */
module EngineContracts {
  import opened Common
  import opened Engine
  import opened EngineLaws
  import opened EngineFingerprint
  import opened PublicQueueOracles
  import opened SchedulerOracles
  import opened RiskOracles
  import opened AccountingOracles
  import BookOracles
  import EngineTheorems
  import Canonical
  import B = Book
  import Q = PublicQueue
  import S = Scheduler
  import R = Risk
  import A = Accounting

  /** The three components that share orders hold what the specification state says. */
  ghost predicate Holding(queue: PublicQueueScenarioOracle, risk: RiskReservationOracle,
        accounting: AccountingMarkoutOracle, s: State)
    reads queue, queue.orders.Values, risk, risk.orders.Values, accounting, accounting.positions.Values
  {
    && Apart(queue, risk, accounting)
    && queue.Valid() && risk.Valid() && accounting.Valid()
    && queue.State() == s.queue && risk.State() == s.risk && accounting.State() == s.accounting
  }

  /** No record of one component is an object or a record of another. */
  ghost predicate Apart(queue: PublicQueueScenarioOracle, risk: RiskReservationOracle,
        accounting: AccountingMarkoutOracle)
    reads queue, risk, accounting
  {
    var objects: set<object> := {queue, risk, accounting};
    var quotes: set<object> := queue.orders.Values;
    var reservations: set<object> := risk.orders.Values;
    var positions: set<object> := accounting.positions.Values;
    objects !! quotes !! reservations !! positions
  }

  method Quote(queue: PublicQueueScenarioOracle, risk: RiskReservationOracle, meta: map<int, Meta>, op: Op,
        ghost s: State)
    returns (meta': map<int, Meta>, v: Verdict)
    requires queue.Valid() && risk.Valid()
    requires s.queue == queue.State() && s.risk == risk.State() && s.meta == meta
    modifies queue, risk
    ensures queue.Valid() && risk.Valid()
    ensures fresh(queue.orders.Values - old(queue.orders.Values)) && fresh(risk.orders.Values - old(risk.orders.Values))
    ensures var (s', v') := StepQuote(s, op);
      queue.State() == s'.queue && risk.State() == s'.risk && meta' == s'.meta && v == v'
  {
    hide PublicQueueScenarioOracle.Valid, PublicQueueScenarioOracle.State, RiskReservationOracle.Valid,
      RiskReservationOracle.State, Q.Place, R.Reserve;
    meta' := meta;
    var d := queue.Place(op.id, op.a, op.b);
    v := Observe(FINE, d);
    if d.Accepted? {
      var e := risk.Reserve(op.id, op.isBid, op.b);
      v := Observe(v, e);
      if e.Accepted? { meta' := meta[op.id := Meta(op.isBid, op.c, op.d)]; }
    }
  }

  lemma QuoteFrame(s: State, op: Op)
    ensures var s' := StepQuote(s,
      op).0; s'.book == s.book && s'.scheduler == s.scheduler && s'.accounting == s.accounting
  {
  }

  method LedgerQuote(queue: PublicQueueScenarioOracle, risk: RiskReservationOracle,
        accounting: AccountingMarkoutOracle, meta: map<int, Meta>, op: Op, ghost s: State)
    returns (meta': map<int, Meta>, v: Verdict)
    requires Holding(queue, risk, accounting, s) && s.meta == meta
    modifies queue, risk
    ensures Holding(queue, risk, accounting, StepQuote(s, op).0)
    ensures fresh(queue.orders.Values - old(queue.orders.Values)) && fresh(risk.orders.Values - old(risk.orders.Values))
    ensures meta' == StepQuote(s, op).0.meta && v == StepQuote(s, op).1
  {
    hide StepQuote, PublicQueueScenarioOracle.Valid, PublicQueueScenarioOracle.State, RiskReservationOracle.Valid,
      RiskReservationOracle.State,
      AccountingMarkoutOracle.Valid, AccountingMarkoutOracle.State;
    QuoteFrame(s, op);
    meta', v := Quote(queue, risk, meta, op, s);
  }

  method LedgerCancel(queue: PublicQueueScenarioOracle, risk: RiskReservationOracle,
        accounting: AccountingMarkoutOracle, op: Op, ghost s: State)
    returns (v: Verdict)
    requires Holding(queue, risk, accounting, s)
    modifies queue, queue.orders.Values, risk, risk.orders.Values
    ensures Holding(queue, risk, accounting, StepCancel(s, op).0) && v == StepCancel(s, op).1
    ensures queue.orders == old(queue.orders) && risk.orders == old(risk.orders)
  {
    hide PublicQueueScenarioOracle.Valid, PublicQueueScenarioOracle.State, RiskReservationOracle.Valid,
      RiskReservationOracle.State,
      AccountingMarkoutOracle.Valid, AccountingMarkoutOracle.State, Q.Cancel, R.RequestCancel;
    var d := queue.Cancel(op.id);
    var e := risk.RequestCancel(op.id);
    v := Observe(Observe(FINE, d), e);
  }

  method LedgerEpoch(queue: PublicQueueScenarioOracle, risk: RiskReservationOracle,
        accounting: AccountingMarkoutOracle, ghost s: State)
    requires Holding(queue, risk, accounting, s)
    modifies queue, queue.orders.Values, risk, risk.orders.Values
    ensures Holding(queue, risk, accounting, StepEpoch(s))
    ensures queue.orders == old(queue.orders) && risk.orders == old(risk.orders)
  {
    hide PublicQueueScenarioOracle.Valid, PublicQueueScenarioOracle.State, RiskReservationOracle.Valid,
      RiskReservationOracle.State,
      AccountingMarkoutOracle.Valid, AccountingMarkoutOracle.State, Q.Invalidate, R.Invalidate;
    var d := queue.InvalidateEpoch();
    var e := risk.InvalidateEpoch();
  }

  method LedgerAck(queue: PublicQueueScenarioOracle, risk: RiskReservationOracle, accounting: AccountingMarkoutOracle,
        op: Op, ghost s: State)
    returns (v: Verdict)
    requires Holding(queue, risk, accounting, s)
    modifies risk, risk.orders.Values
    ensures Holding(queue, risk, accounting, StepAck(s, op).0) && v == StepAck(s, op).1
    ensures risk.orders == old(risk.orders)
  {
    hide PublicQueueScenarioOracle.Valid, PublicQueueScenarioOracle.State, RiskReservationOracle.Valid,
      RiskReservationOracle.State,
      AccountingMarkoutOracle.Valid, AccountingMarkoutOracle.State, R.CancelAck;
    var d := risk.CancelAck(op.id);
    v := Observe(FINE, d);
  }

  /** Marks and markouts touch accounting only. */
  method LedgerMark(queue: PublicQueueScenarioOracle, risk: RiskReservationOracle, accounting: AccountingMarkoutOracle,
        op: Op, ghost s: State)
    returns (v: Verdict)
    requires Holding(queue, risk, accounting, s)
    modifies accounting
    ensures accounting.positions == old(accounting.positions)
    ensures Holding(queue, risk, accounting, if op.kind == 5 then StepMark(s, op).0 else StepMarkout(s, op).0)
    ensures v == if op.kind == 5 then StepMark(s, op).1 else StepMarkout(s, op).1
  {
    hide PublicQueueScenarioOracle.Valid, PublicQueueScenarioOracle.State, RiskReservationOracle.Valid,
      RiskReservationOracle.State,
      AccountingMarkoutOracle.Valid, AccountingMarkoutOracle.State, A.Mark, A.Markout;
    var d;
    if op.kind == 5 {
      d := accounting.Mark(0, op.a);
    } else {
      d := accounting.Markout(op.isBid, op.a, op.b, op.c);
    }
    v := Observe(FINE, d);
  }

  /** Posts one fill of a print to the risk ledger and, where risk accepts it, to accounting. */
  method PostOne(risk: RiskReservationOracle, accounting: AccountingMarkoutOracle, meta: map<int, Meta>,
        fill: (int, int), v: Verdict)
    returns (v': Verdict)
    requires risk.Valid() && accounting.Valid() && {risk,
      accounting} !! risk.orders.Values !! accounting.positions.Values
    modifies risk, risk.orders.Values, accounting, accounting.positions.Values
    ensures risk.Valid() && accounting.Valid() && risk.orders == old(risk.orders)
    ensures fresh(accounting.positions.Values - old(accounting.positions.Values))
    ensures Books(risk.State(), accounting.State(), v') == PostFill(Books(old(risk.State()), old(accounting.State()),
      v), meta, fill)
  {
    hide RiskReservationOracle.Valid, RiskReservationOracle.State,
      AccountingMarkoutOracle.Valid, AccountingMarkoutOracle.State, R.Fill, A.Fill;
    if fill.0 !in meta { return Reject(v, MissingOrderMetadata); }
    var m := meta[fill.0];
    var d := risk.Fill(fill.0, fill.1);
    v' := Observe(v, d);
    if d.Accepted? {
      var e := accounting.Fill(0, m.isBid, m.price, fill.1, m.fee);
      v' := Observe(v', e);
    }
  }

  /** Posts the fills of a print one by one. */
  method PostAll(risk: RiskReservationOracle, accounting: AccountingMarkoutOracle, meta: map<int, Meta>,
        fills: Q.Fills, v: Verdict)
    returns (v': Verdict)
    requires risk.Valid() && accounting.Valid()
    requires {risk, accounting} !! risk.orders.Values !! accounting.positions.Values
    modifies risk, risk.orders.Values, accounting, accounting.positions.Values
    ensures risk.Valid() && accounting.Valid() && risk.orders == old(risk.orders)
    ensures fresh(accounting.positions.Values - old(accounting.positions.Values))
    ensures Books(risk.State(), accounting.State(), v') ==
      PostFills(Books(old(risk.State()), old(accounting.State()), v), meta, fills)
  {
    hide RiskReservationOracle.Valid, RiskReservationOracle.State, AccountingMarkoutOracle.Valid,
      AccountingMarkoutOracle.State, PostFill;
    ghost var start := Books(risk.State(), accounting.State(), v);
    v' := v;
    for i := 0 to |fills|
      invariant risk.Valid() && accounting.Valid()
      invariant {risk, accounting} !! risk.orders.Values !! accounting.positions.Values
      invariant risk.orders == old(risk.orders)
      invariant fresh(accounting.positions.Values - old(accounting.positions.Values))
      invariant Books(risk.State(), accounting.State(), v') == PostFills(start, meta, fills[..i])
    {
      v' := PostOne(risk, accounting, meta, fills[i], v');
      assert fills[..i + 1][..i] == fills[..i];
    }
    assert fills[..|fills|] == fills;
  }

  /** A print: consume the queue, then post its fills one by one. */
  method LedgerConsume(queue: PublicQueueScenarioOracle, risk: RiskReservationOracle,
        accounting: AccountingMarkoutOracle, meta: map<int, Meta>, op: Op, ghost s: State)
    returns (v: Verdict, fills: Q.Fills)
    requires Holding(queue, risk, accounting, s) && s.meta == meta
    requires Q.Known(s.queue.orders, s.queue.queue)
    modifies queue, queue.orders.Values, risk, risk.orders.Values, accounting, accounting.positions.Values
    ensures Holding(queue, risk, accounting, StepConsume(s, op).0) && Row(v, fills) == StepConsume(s, op).1
    ensures queue.orders == old(queue.orders) && risk.orders == old(risk.orders)
    ensures fresh(accounting.positions.Values - old(accounting.positions.Values))
  {
    hide PublicQueueScenarioOracle.Valid, PublicQueueScenarioOracle.State, RiskReservationOracle.Valid,
      RiskReservationOracle.State, AccountingMarkoutOracle.Valid, AccountingMarkoutOracle.State, Q.Consume, PostFills;
    var d, consumed, unmatched := queue.Consume(op.a);
    fills := consumed;
    v := PostAll(risk, accounting, meta, fills, Observe(FINE, d));
  }

  predicate TouchesLedgers(op: Op) { 1 <= op.kind <= 6 || op.kind == 9 }

  /** The operations that concern the queue, the risk ledger or accounting. */
  method LedgerStep(queue: PublicQueueScenarioOracle, risk: RiskReservationOracle, accounting: AccountingMarkoutOracle,
        meta: map<int, Meta>, op: Op, ghost s: State)
    returns (meta': map<int, Meta>, row: Row)
    requires Holding(queue, risk, accounting, s) && s.meta == meta && TouchesLedgers(op)
    requires Q.Known(s.queue.orders, s.queue.queue)
    modifies queue, queue.orders.Values, risk, risk.orders.Values, accounting, accounting.positions.Values
    ensures Step(s, op).Stepped? && Holding(queue, risk, accounting, Step(s, op).state)
    ensures meta' == Step(s, op).state.meta && row == Step(s, op).row
    ensures fresh(queue.orders.Values - old(queue.orders.Values)) && fresh(risk.orders.Values - old(risk.orders.Values))
    ensures fresh(accounting.positions.Values - old(accounting.positions.Values))
  {
    hide Holding, StepQuote, StepConsume, StepCancel, StepAck, StepMark, StepEpoch, StepMarkout;
    LedgerMeta(s, op);
    meta' := meta;
    var v, fills := FINE, [];
    if op.kind == 1 { meta', v := LedgerQuote(queue, risk, accounting, meta, op, s); }
    else if op.kind == 2 { v, fills := LedgerConsume(queue, risk, accounting, meta, op, s); }
    else if op.kind == 3 { v := LedgerCancel(queue, risk, accounting, op, s); }
    else if op.kind == 4 { v := LedgerAck(queue, risk, accounting, op, s); }
    else if op.kind == 6 { LedgerEpoch(queue, risk, accounting, s); }
    else { v := LedgerMark(queue, risk, accounting, op, s); }
    row := Row(v, fills);
  }

  /** Ledger operations leave the book and the scheduler alone, and only quotes touch the metadata. */
  lemma LedgerMeta(s: State, op: Op)
    requires TouchesLedgers(op) && Q.Known(s.queue.orders, s.queue.queue)
    ensures Step(s, op).Stepped?
    ensures Step(s, op).state.book == s.book && Step(s, op).state.scheduler == s.scheduler
    ensures op.kind != 1 ==> Step(s, op).state.meta == s.meta
  {
  }

  /** The fingerprint of the live components. */
  method Fingerprints(book: B.State, queue: PublicQueueScenarioOracle, risk: RiskReservationOracle,
        accounting: AccountingMarkoutOracle, scheduler: DeterministicSchedulerOracle, ghost s: State)
    returns (f: Fingerprint)
    requires Holding(queue, risk, accounting, s) && book == s.book
    requires scheduler.Valid() && scheduler.State() == s.scheduler
    ensures f == FingerprintOf(s)
  {
    hide PublicQueueScenarioOracle.Valid, PublicQueueScenarioOracle.State, RiskReservationOracle.Valid,
      RiskReservationOracle.State,
      AccountingMarkoutOracle.Valid, AccountingMarkoutOracle.State, DeterministicSchedulerOracle.Valid,
        DeterministicSchedulerOracle.State, Apart,
      Canonical.BookBytes, Canonical.QueueBytes, Canonical.SchedulerBytes, Canonical.RiskBytes,
        Canonical.AccountingBytes;
    var a := BookOracles.BookBytes(book);
    var b := queue.CanonicalBytes();
    var c := scheduler.CanonicalBytes();
    var d := risk.CanonicalBytes();
    var e := accounting.CanonicalBytes();
    f := Fingerprint(a, b, c, d, e);
  }

  method BookChange(book: B.State, op: Op, ghost s: State) returns (book': B.State, v: Verdict)
    requires book == s.book
    ensures book' == StepBook(s, op).0.book && v == StepBook(s, op).1
    ensures StepBook(s, op).0 == s.(book := book')
  {
    hide B.ApplyBatch;
    var r := BookOracles.ApplyBatchInOrder(book.bids, book.asks, [B.Change(op.isBid, op.a, op.b)]);
    match r
    case Ok(b) => return b, FINE;
    case Raised(reason) => return book, Verdict(false, Some(reason));
  }

  /** Scheduling and draining; negative time components raise before the scheduler is reached. */
  method SchedulerStep(scheduler: DeterministicSchedulerOracle, op: Op, ghost s: State)
    returns (raised: bool, v: Verdict)
    requires op.kind == 7 || op.kind == 8
    requires scheduler.Valid() && scheduler.State() == s.scheduler
    requires Q.Known(s.queue.orders, s.queue.queue)
    modifies scheduler, scheduler.heap, scheduler.heap.data
    ensures scheduler.Valid() && (scheduler.heap.data == old(scheduler.heap.data) || fresh(scheduler.heap.data))
    ensures raised <==> Step(s, op).Raised?
    ensures raised ==> scheduler.State() == s.scheduler
    ensures !raised ==> Step(s, op) == Stepped(s.(scheduler := scheduler.State()), Row(v, []))
  {
    hide DeterministicSchedulerOracle.Valid, DeterministicSchedulerOracle.State, S.Schedule, S.Drain;
    if op.a < 0 || op.b < 0 { return true, FINE; }
    var time := S.LogicalTime(op.a, op.b);
    if op.kind == 7 {
      var d := scheduler.Schedule(op.id, time);
      return false, Observe(FINE, d);
    } else {
      var drained := scheduler.Drain(time, op.isBid);
      return false, FINE;
    }
  }

  /** The scheduler's objects are not records of the ledgers. */
  ghost predicate SchedulerApart(scheduler: DeterministicSchedulerOracle, queue: PublicQueueScenarioOracle,
        risk: RiskReservationOracle, accounting: AccountingMarkoutOracle)
    reads queue, risk, accounting
  {
    var objects: set<object> := {scheduler, scheduler.heap};
    var quotes: set<object> := queue.orders.Values;
    var reservations: set<object> := risk.orders.Values;
    var positions: set<object> := accounting.positions.Values;
    objects !! ({queue, risk, accounting} + quotes + reservations + positions)
  }

  /** Holding looks at three of the components only. */
  lemma HoldingCarries(queue: PublicQueueScenarioOracle, risk: RiskReservationOracle,
        accounting: AccountingMarkoutOracle, s: State, s': State)
    requires Holding(queue, risk, accounting, s)
    requires s'.queue == s.queue && s'.risk == s.risk && s'.accounting == s.accounting
    ensures Holding(queue, risk, accounting, s')
  {
    hide Apart, PublicQueueScenarioOracle.Valid, PublicQueueScenarioOracle.State, RiskReservationOracle.Valid,
      RiskReservationOracle.State, AccountingMarkoutOracle.Valid, AccountingMarkoutOracle.State;
  }

  /** One operation of the trace on the live components. */
  method OneStep(book: B.State, queue: PublicQueueScenarioOracle, risk: RiskReservationOracle,
        accounting: AccountingMarkoutOracle, scheduler: DeterministicSchedulerOracle, meta: map<int, Meta>, op: Op,
        ghost s: State)
    returns (raised: bool, book': B.State, meta': map<int, Meta>, row: Row)
    requires Holding(queue, risk, accounting, s) && s.meta == meta && s.book == book
    requires scheduler.Valid() && scheduler.State() == s.scheduler && SchedulerApart(scheduler, queue, risk, accounting)
    requires Q.Known(s.queue.orders, s.queue.queue)
    modifies queue, queue.orders.Values, risk, risk.orders.Values
    modifies accounting, accounting.positions.Values, scheduler, scheduler.heap, scheduler.heap.data
    ensures raised <==> Step(s, op).Raised?
    ensures !raised ==>
      && Holding(queue, risk, accounting, Step(s, op).state)
      && scheduler.Valid() && scheduler.State() == Step(s, op).state.scheduler
      && book' == Step(s, op).state.book && meta' == Step(s, op).state.meta && row == Step(s, op).row
    ensures SchedulerApart(scheduler, queue, risk, accounting)
    ensures scheduler.heap.data == old(scheduler.heap.data) || fresh(scheduler.heap.data)
    ensures fresh(queue.orders.Values - old(queue.orders.Values)) && fresh(risk.orders.Values - old(risk.orders.Values))
    ensures fresh(accounting.positions.Values - old(accounting.positions.Values))
  {
    hide Holding, DeterministicSchedulerOracle.Valid, DeterministicSchedulerOracle.State, StepBook, StepQuote,
      StepConsume, StepCancel, StepAck, StepMark, StepEpoch, StepSchedule, StepDrain, StepMarkout;
    book', meta' := book, meta;
    raised, row := false, Row(FINE, []);
    if op.kind == 0 {
      var v;
      book', v := BookChange(book, op, s);
      row := Row(v, []);
      HoldingCarries(queue, risk, accounting, s, Step(s, op).state);
    } else if TouchesLedgers(op) {
      LedgerMeta(s, op);
      meta', row := LedgerStep(queue, risk, accounting, meta, op, s);
    } else if op.kind == 7 || op.kind == 8 {
      var v;
      raised, v := SchedulerStep(scheduler, op, s);
      row := Row(v, []);
      if !raised { HoldingCarries(queue, risk, accounting, s, Step(s, op).state); }
    } else {
      raised := true;
    }
  }

  /** The live components and the loop variables stand for the specification state s. */
  ghost predicate Running(queue: PublicQueueScenarioOracle, risk: RiskReservationOracle,
        accounting: AccountingMarkoutOracle, scheduler: DeterministicSchedulerOracle, book: B.State,
        meta: map<int, Meta>, s: State)
    reads queue, queue.orders.Values, risk, risk.orders.Values
    reads accounting, accounting.positions.Values, scheduler, scheduler.heap, scheduler.heap.data
  {
    && Inv(s) && Holding(queue, risk, accounting, s) && meta == s.meta && book == s.book
    && scheduler.Valid() && scheduler.State() == s.scheduler && SchedulerApart(scheduler, queue, risk, accounting)
  }

  /** One pass of the trace loop on components that stand for s. */
  method TracePass(queue: PublicQueueScenarioOracle, risk: RiskReservationOracle, accounting: AccountingMarkoutOracle,
        scheduler: DeterministicSchedulerOracle, book: B.State, meta: map<int, Meta>, op: Op, ghost s: State)
    returns (raised: bool, book': B.State, meta': map<int, Meta>, row: Row)
    requires Running(queue, risk, accounting, scheduler, book, meta, s)
    modifies queue, queue.orders.Values, risk, risk.orders.Values
    modifies accounting, accounting.positions.Values, scheduler, scheduler.heap, scheduler.heap.data
    ensures fresh(queue.orders.Values - old(queue.orders.Values)) && fresh(risk.orders.Values - old(risk.orders.Values))
    ensures fresh(accounting.positions.Values - old(accounting.positions.Values))
    ensures scheduler.heap.data == old(scheduler.heap.data) || fresh(scheduler.heap.data)
    ensures Q.Known(s.queue.orders, s.queue.queue) && (raised <==> Step(s, op).Raised?)
    ensures !raised ==>
      Running(queue, risk, accounting, scheduler, book', meta', Step(s, op).state) && row == Step(s, op).row
  {
    InvStep(s, op);
    hide Step, Inv, Holding, SchedulerApart, DeterministicSchedulerOracle.Valid, DeterministicSchedulerOracle.State;
    raised, book', meta', row := OneStep(book, queue, risk, accounting, scheduler, meta, op, s);
  }

  /** The published row of one pass. */
  method PublishRow(queue: PublicQueueScenarioOracle, risk: RiskReservationOracle, accounting: AccountingMarkoutOracle,
        scheduler: DeterministicSchedulerOracle, book: B.State, meta: map<int, Meta>, row: Row, ghost s: State)
    returns (out: Published)
    requires Running(queue, risk, accounting, scheduler, book, meta, s)
    ensures out == PublishedRow(row, FingerprintOf(s))
  {
    hide Holding, FingerprintOf, SchedulerApart, Inv;
    var f := Fingerprints(book, queue, risk, accounting, scheduler, s);
    out := PublishedRow(row, f);
  }

  /** The loop over operations, from live components that stand for any reachable state. */
  method TraceLoop(queue: PublicQueueScenarioOracle, risk: RiskReservationOracle, accounting: AccountingMarkoutOracle,
        scheduler: DeterministicSchedulerOracle, book0: B.State, meta0: map<int, Meta>, ops: seq<Op>, ghost s0: State)
    returns (rows: seq<Published>)
    requires Inv(s0) && Running(queue, risk, accounting, scheduler, book0, meta0, s0)
    modifies queue, queue.orders.Values, risk, risk.orders.Values
    modifies accounting, accounting.positions.Values, scheduler, scheduler.heap, scheduler.heap.data
    ensures rows == Publish(s0, ops)
  {
    hide Step, Publish, Inv, FingerprintOf, Running;
    ghost var s := s0;
    var book, meta := book0, meta0;
    rows := [];
    assert ops[0..] == ops;
    for i := 0 to |ops|
      invariant Inv(s) && Running(queue, risk, accounting, scheduler, book, meta, s)
      invariant fresh(queue.orders.Values - old(queue.orders.Values))
        && fresh(risk.orders.Values - old(risk.orders.Values))
      invariant fresh(accounting.positions.Values - old(accounting.positions.Values))
      invariant scheduler.heap.data == old(scheduler.heap.data) || fresh(scheduler.heap.data)
      invariant rows + Publish(s, ops[i..]) == Publish(s0, ops)
    {
      assert ops[i..] == [ops[i]] + ops[i + 1..];
      PublishStep(s, ops[i], ops[i + 1..]);
      var raised, row;
      raised, book, meta, row := TracePass(queue, risk, accounting, scheduler, book, meta, ops[i], s);
      if raised { return rows + [RaisedHere]; }
      s := Step(s, ops[i]).state;
      var out := PublishRow(queue, risk, accounting, scheduler, book, meta, row, s);
      Shift(rows, out, Publish(s, ops[i + 1..]));
      rows := rows + [out];
    }
    PublishNothing(s, ops[|ops|..], rows);
  }

  /** Runs one composed event path from empty components and publishes a row per operation. */
  method EngineContractTrace(ops: seq<Op>) returns (rows: seq<Published>)
    ensures Inv(EMPTY) && rows == Publish(EMPTY, ops)
  {
    var bids: B.Levels, asks: B.Levels := map[], map[];
    var queue := new PublicQueueScenarioOracle();
    var scheduler := new DeterministicSchedulerOracle();
    var risk := new RiskReservationOracle(RISK_LIMIT);
    var accounting := new AccountingMarkoutOracle();
    EngineTheorems.EmptyInv();
    StartsRunning(queue, risk, accounting, scheduler);
    hide Running, Inv, Publish;
    rows := TraceLoop(queue, risk, accounting, scheduler, B.State(bids, asks), map[], ops, EMPTY);
  }

  lemma StartsRunning(queue: PublicQueueScenarioOracle, risk: RiskReservationOracle,
        accounting: AccountingMarkoutOracle, scheduler: DeterministicSchedulerOracle)
    requires queue.orders == map[] && risk.orders == map[] && accounting.positions == map[]
    requires queue.Valid() && risk.Valid() && accounting.Valid() && scheduler.Valid()
    requires queue.State() == Q.EMPTY && risk.State() == R.Empty(RISK_LIMIT) && accounting.State() == A.EMPTY
      && scheduler.State() == S.EMPTY
    ensures Running(queue, risk, accounting, scheduler, EMPTY.book, EMPTY.meta, EMPTY)
  {
    EngineTheorems.EmptyInv();
    hide Inv, PublicQueueScenarioOracle.Valid, PublicQueueScenarioOracle.State, RiskReservationOracle.Valid,
      RiskReservationOracle.State, AccountingMarkoutOracle.Valid, AccountingMarkoutOracle.State,
      DeterministicSchedulerOracle.Valid, DeterministicSchedulerOracle.State;
    assert queue.orders.Values == {} && risk.orders.Values == {} && accounting.positions.Values == {};
  }

  lemma Shift(rows: seq<Published>, row: Published, rest: seq<Published>)
    ensures rows + ([row] + rest) == (rows + [row]) + rest
  {
  }

  lemma PublishNothing(s: State, ops: seq<Op>, rows: seq<Published>)
    requires Inv(s) && |ops| == 0
    ensures rows + Publish(s, ops) == rows
  {
  }
}

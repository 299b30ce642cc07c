/** The composed engine contract: one dispatcher over book, queue, scheduler, risk ledger and
    accounting. This module holds its transitions; EngineLaws holds what they keep. */
module Engine {
  import opened Common
  import B = Book
  import Q = PublicQueue
  import S = Scheduler
  import R = Risk
  import A = Accounting

  const RISK_LIMIT := 8

  /** One operation tuple, as the traces write it. */
  datatype Op = Op(kind: int, id: int, isBid: bool, a: int, b: int, c: int, d: int)

  /** Side, execution price and fee of a quote that risk accepted. */
  datatype Meta = Meta(isBid: bool, price: int, fee: int)

  datatype State = State(
    book: B.State, queue: Q.State, scheduler: S.State, risk: R.State, accounting: A.State, meta: map<int, Meta>)

  const EMPTY := State(B.State(map[], map[]), Q.EMPTY, S.EMPTY, R.Empty(RISK_LIMIT), A.EMPTY, map[])

  /** The accepted flag and the first rejection reason of one operation. */
  datatype Verdict = Verdict(accepted: bool, reason: Option<Reason>)

  const FINE := Verdict(true, None)

  datatype Row = Row(verdict: Verdict, fills: Q.Fills)

  datatype Result = Stepped(state: State, row: Row) | Raised

  function Reject(v: Verdict, reason: Reason): Verdict {
    Verdict(false, if v.reason.None? then Some(reason) else v.reason)
  }

  function Observe(v: Verdict, d: Decision): Verdict {
    match d
    case Accepted => v
    case Rejected(reason) => Reject(v, reason)
  }

  /** The two ledgers a fill is posted to. */
  datatype Books = Books(risk: R.State, accounting: A.State, verdict: Verdict)

  function PostFill(t: Books, meta: map<int, Meta>, fill: (int, int)): Books {
    if fill.0 !in meta then t.(verdict := Reject(t.verdict, MissingOrderMetadata))
    else
      var m := meta[fill.0];
      var (risk, d) := R.Fill(t.risk, fill.0, fill.1);
      var v := Observe(t.verdict, d);
      if d.Rejected? then Books(risk, t.accounting, v)
      else
        var (accounting, e) := A.Fill(t.accounting, 0, m.isBid, m.price, fill.1, m.fee);
        Books(risk, accounting, Observe(v, e))
  }

  function PostFills(t: Books, meta: map<int, Meta>, fills: Q.Fills): Books
    decreases |fills|
  {
    if |fills| == 0 then t
    else
      var init, last := fills[..|fills| - 1], fills[|fills| - 1];
      PostFill(PostFills(t, meta, init), meta, last)
  }

  function StepBook(s: State, op: Op): (State, Verdict) {
    match B.ApplyBatch(s.book, [B.Change(op.isBid, op.a, op.b)])
    case Ok(book) => (s.(book := book), FINE)
    case Raised(reason) => (s, Verdict(false, Some(reason)))
  }

  /** A quote the queue accepts and risk rejects stays in the queue, without metadata. */
  function StepQuote(s: State, op: Op): (State, Verdict) {
    var (queue, d) := Q.Place(s.queue, op.id, op.a, op.b);
    if d.Rejected? then (s.(queue := queue), Observe(FINE, d))
    else
      var (risk, e) := R.Reserve(s.risk, op.id, op.isBid, op.b);
      (s.(queue := queue, risk := risk,
          meta := if e.Accepted? then s.meta[op.id := Meta(op.isBid, op.c, op.d)] else s.meta),
       Observe(FINE, e))
  }

  function StepConsume(s: State, op: Op): (State, Row)
    requires Q.Known(s.queue.orders, s.queue.queue)
  {
    var o := Q.Consume(s.queue, op.a);
    var t := PostFills(Books(s.risk, s.accounting, Observe(FINE, o.decision)), s.meta, o.fills);
    (s.(queue := o.state, risk := t.risk, accounting := t.accounting), Row(t.verdict, o.fills))
  }

  function StepCancel(s: State, op: Op): (State, Verdict) {
    var (queue, d) := Q.Cancel(s.queue, op.id);
    var (risk, e) := R.RequestCancel(s.risk, op.id);
    (s.(queue := queue, risk := risk), Observe(Observe(FINE, d), e))
  }

  function StepAck(s: State, op: Op): (State, Verdict) {
    var (risk, d) := R.CancelAck(s.risk, op.id);
    (s.(risk := risk), Observe(FINE, d))
  }

  function StepMark(s: State, op: Op): (State, Verdict) {
    var (accounting, d) := A.Mark(s.accounting, 0, op.a);
    (s.(accounting := accounting), Observe(FINE, d))
  }

  function StepEpoch(s: State): State { s.(queue := Q.Invalidate(s.queue), risk := R.Invalidate(s.risk)) }

  function StepSchedule(s: State, op: Op): (State, Verdict)
    requires op.a >= 0 && op.b >= 0
  {
    var (scheduler, d) := S.Schedule(s.scheduler, op.id, S.LogicalTime(op.a, op.b));
    (s.(scheduler := scheduler), Observe(FINE, d))
  }

  function StepDrain(s: State, op: Op): State
    requires op.a >= 0 && op.b >= 0
  {
    s.(scheduler := S.Drain(s.scheduler, S.LogicalTime(op.a, op.b), op.isBid).0)
  }

  function StepMarkout(s: State, op: Op): (State, Verdict) {
    var (accounting, d) := A.Markout(s.accounting, op.isBid, op.a, op.b, op.c);
    (s.(accounting := accounting), Observe(FINE, d))
  }

  function Plain(r: (State, Verdict)): Result { Stepped(r.0, Row(r.1, [])) }

  /** One operation. Unknown kinds and negative logical times raise. */
  function Step(s: State, op: Op): Result
    requires Q.Known(s.queue.orders, s.queue.queue)
  {
    if op.kind == 0 then Plain(StepBook(s, op))
    else if op.kind == 1 then Plain(StepQuote(s, op))
    else if op.kind == 2 then var (s', row) := StepConsume(s, op); Stepped(s', row)
    else if op.kind == 3 then Plain(StepCancel(s, op))
    else if op.kind == 4 then Plain(StepAck(s, op))
    else if op.kind == 5 then Plain(StepMark(s, op))
    else if op.kind == 6 then Plain((StepEpoch(s), FINE))
    else if op.kind == 7 then if op.a < 0 || op.b < 0 then Raised else Plain(StepSchedule(s, op))
    else if op.kind == 8 then if op.a < 0 || op.b < 0 then Raised else Plain((StepDrain(s, op), FINE))
    else if op.kind == 9 then Plain(StepMarkout(s, op))
    else Raised
  }
}

/** What the composed contract keeps on every run: queue and risk in lockstep, positions in agreement. */
module EngineLaws {
  import opened Common
  import opened Reservation
  import opened Engine
  import B = Book
  import Q = PublicQueue
  import QL = PublicQueueLaws
  import S = Scheduler
  import R = Risk
  import A = Accounting
  import AL = AccountingLaws

  // ----- lockstep -----

  /** One quote, seen by the queue and by the risk ledger. */
  ghost predicate Paired(m: Meta, q: Q.Order, r: R.Order) {
    && m.isBid == r.isBid
    && q.remaining == r.remaining
    && (q.state.Live? <==> r.state.Live?)
    && (q.state.Filled? <==> r.state.Filled?)
    && (q.state.Cancelled? ==> r.state.PendingCancel? || r.state.Cancelled? || r.state.EpochInvalidated?)
    && (q.state.EpochInvalidated? ==> r.state.EpochInvalidated?)
  }

  ghost predicate Lockstep(queue: Q.State, risk: R.State, meta: map<int, Meta>) {
    && queue.seen == risk.seen
    && meta.Keys == risk.orders.Keys
    && meta.Keys <= queue.orders.Keys
    && forall id :: id in meta ==> Paired(meta[id], queue.orders[id], risk.orders[id])
  }

  ghost predicate Inv(s: State) {
    && B.Sound(s.book)
    && Q.Inv(s.queue)
    && R.Inv(s.risk) && s.risk.limit == RISK_LIMIT
    && A.Inv(s.accounting) && s.accounting.positions.Keys <= {0}
    && Lockstep(s.queue, s.risk, s.meta)
  }

  lemma InvKnown(s: State)
    requires Inv(s)
    ensures Q.Known(s.queue.orders, s.queue.queue)
  {
    QL.InvIsLiveQueue(s.queue);
  }

  lemma BookStep(s: State, op: Op)
    requires Inv(s)
    ensures Inv(StepBook(s, op).0)
  {
    B.BatchMeaning(s.book, [B.Change(op.isBid, op.a, op.b)]);
  }

  lemma QuoteStep(s: State, op: Op)
    requires Inv(s)
    ensures Inv(StepQuote(s, op).0)
  {
    QL.InvStep(s.queue, QL.PlaceOp(op.id, op.a, op.b));
    R.InvStep(s.risk, R.ReserveOp(op.id, op.isBid, op.b));
    QuoteLockstep(s, op);
    hide Q.Inv, R.Inv, Lockstep;
  }

  lemma QuoteLockstep(s: State, op: Op)
    requires Lockstep(s.queue, s.risk, s.meta) && s.queue.seen == s.queue.orders.Keys
    ensures var s' := StepQuote(s, op).0; Lockstep(s'.queue, s'.risk, s'.meta)
  {
  }

  lemma CancelStep(s: State, op: Op)
    requires Inv(s)
    ensures Inv(StepCancel(s, op).0)
  {
    QL.InvStep(s.queue, QL.CancelOp(op.id));
    R.InvStep(s.risk, R.RequestCancelOp(op.id));
  }

  lemma AckStep(s: State, op: Op)
    requires Inv(s)
    ensures Inv(StepAck(s, op).0)
  {
    R.InvStep(s.risk, R.CancelAckOp(op.id));
  }

  lemma EpochStep(s: State)
    requires Inv(s)
    ensures Inv(StepEpoch(s))
  {
    QL.InvStep(s.queue, QL.InvalidateOp);
    R.InvStep(s.risk, R.InvalidateOp);
  }

  // ----- posting the fills of one print -----

  /** The fills of a print are for distinct orders, and those with metadata fit what risk still holds. */
  ghost predicate Ready(risk: R.State, meta: map<int, Meta>, fills: Q.Fills) {
    && (forall i, j :: 0 <= i < j < |fills| ==> fills[i].0 != fills[j].0)
    && (forall i :: 0 <= i < |fills| ==> fills[i].1 > 0)
    && (forall i :: 0 <= i < |fills| && fills[i].0 in meta ==>
      fills[i].0 in risk.orders && risk.orders[fills[i].0].state.Live?
      && fills[i].1 <= risk.orders[fills[i].0].remaining && meta[fills[i].0].isBid == risk.orders[fills[i].0].isBid)
  }

  ghost predicate Mentions(fills: Q.Fills, id: int) { exists i :: 0 <= i < |fills| && fills[i].0 == id }

  /** Net lots of the fills that have metadata, bids positive. */
  function SignedFills(meta: map<int, Meta>, fills: Q.Fills): int
    decreases |fills|
  {
    if |fills| == 0 then 0
    else
      var last := fills[|fills| - 1];
      SignedFills(meta, fills[..|fills| - 1]) + (if last.0 in meta then Signed(meta[last.0].isBid, last.1) else 0)
  }

  /** The part of SignedFills that has a positive execution price. */
  function PricedFills(meta: map<int, Meta>, fills: Q.Fills): int
    decreases |fills|
  {
    if |fills| == 0 then 0
    else
      var last := fills[|fills| - 1];
      PricedFills(meta, fills[..|fills| - 1]) +
        (if last.0 in meta && meta[last.0].price > 0 then Signed(meta[last.0].isBid, last.1) else 0)
  }

  function LotsAt(a: A.State): int { A.PositionOf(a, 0).lots }

  /** What the risk ledger looks like after the fills: each named order reduced by its fill, nothing else. */
  ghost predicate RiskPosted(before: R.State, after: R.State, meta: map<int, Meta>, fills: Q.Fills) {
    && after.orders.Keys == before.orders.Keys && after.seen == before.seen && after.limit == before.limit
    && after.position == before.position + SignedFills(meta, fills)
    && (forall i :: 0 <= i < |fills| && fills[i].0 in meta && fills[i].0 in before.orders ==>
      after.orders[fills[i].0] == R.FilledBy(before.orders[fills[i].0], fills[i].1))
    && (forall id :: id in before.orders && (!Mentions(fills, id) || id !in meta) ==>
      after.orders[id] == before.orders[id])
  }

  /** The fill of a risk order by the queue is never rejected by the risk ledger. */
  lemma RiskFillAccepted(before: R.State, t: R.State, meta: map<int, Meta>, fills: Q.Fills, n: nat)
    requires n < |fills| && Ready(before, meta, fills) && RiskPosted(before, t, meta, fills[..n])
    requires fills[n].0 in meta
    ensures R.Fill(t, fills[n].0, fills[n].1).1 == Accepted
    ensures t.orders[fills[n].0] == before.orders[fills[n].0]
  {
    assert !Mentions(fills[..n], fills[n].0);
  }

  lemma RiskPostedStep(before: R.State, t: R.State, meta: map<int, Meta>, fills: Q.Fills, n: nat)
    requires n < |fills| && Ready(before, meta, fills) && RiskPosted(before, t, meta, fills[..n])
    ensures fills[n].0 !in meta ==> RiskPosted(before, t, meta, fills[..n + 1])
    ensures fills[n].0 in meta ==> RiskPosted(before, R.Fill(t, fills[n].0, fills[n].1).0, meta, fills[..n + 1])
  {
    var init, all := fills[..n], fills[..n + 1];
    assert all[..n] == init && all[n] == fills[n];
    assert forall id :: Mentions(all, id) <==> Mentions(init, id) || id == fills[n].0 by {
      forall id ensures Mentions(all, id) <==> Mentions(init, id) || id == fills[n].0 {
        if Mentions(init, id) { var i :| 0 <= i < |init| && init[i].0 == id; assert all[i].0 == id; }
        if Mentions(all, id) { var i :| 0 <= i < |all| && all[i].0 == id; if i < n { assert init[i].0 == id; } }
        if id == fills[n].0 { assert all[n].0 == id; }
      }
    }
    if fills[n].0 in meta {
      RiskFillAccepted(before, t, meta, fills, n);
    }
  }

  /** The first thing the composed contract reports about the fills of a print, if anything. */
  function FirstProblem(meta: map<int, Meta>, fills: Q.Fills): Option<Reason>
    decreases |fills|
  {
    if |fills| == 0 then None
    else
      var last := fills[|fills| - 1];
      var earlier := FirstProblem(meta, fills[..|fills| - 1]);
      if earlier.Some? then earlier
      else if last.0 !in meta then Some(MissingOrderMetadata)
      else if meta[last.0].price <= 0 then Some(InvalidFillPrice)
      else None
  }

  function VerdictOf(problem: Option<Reason>): Verdict {
    if problem.None? then FINE else Verdict(false, problem)
  }

  ghost predicate Posted(before: State, t: Books, fills: Q.Fills) {
    && RiskPosted(before.risk, t.risk, before.meta, fills) && R.Inv(t.risk)
    && A.Inv(t.accounting) && t.accounting.positions.Keys <= {0}
    && LotsAt(t.accounting) == LotsAt(before.accounting) + PricedFills(before.meta, fills)
    && t.verdict == VerdictOf(FirstProblem(before.meta, fills))
  }

  lemma AccountingFill(a: A.State, isBid: bool, price: int, qty: int, fee: int)
    requires A.Inv(a) && a.positions.Keys <= {0} && qty > 0
    ensures var (a', d) := A.Fill(a, 0, isBid, price, qty, fee);
      && A.Inv(a') && a'.positions.Keys <= {0}
      && (d == if price > 0 then Accepted else Rejected(InvalidFillPrice))
      && LotsAt(a') == LotsAt(a) + (if price > 0 then Signed(isBid, qty) else 0)
  {
    AL.InvStep(a, A.FillOp(0, isBid, price, qty, fee));
    if price > 0 { AL.FillConserves(A.PositionOf(a, 0), isBid, price, qty); }
  }

  /** Posting keeps both ledgers sound; risk accepts every fill that has metadata, accounting exactly
      those with a positive price. */
  lemma {:induction false} PostFillsMeaning(s: State, fills: Q.Fills, n: nat)
    requires Inv(s) && Ready(s.risk, s.meta, fills) && n <= |fills|
    ensures Posted(s, PostFills(Books(s.risk, s.accounting, FINE), s.meta, fills[..n]), fills[..n])
  {
    if n > 0 {
      PostFillsMeaning(s, fills, n - 1);
      assert fills[..n][..n - 1] == fills[..n - 1];
      var t := PostFills(Books(s.risk, s.accounting, FINE), s.meta, fills[..n - 1]);
      PostedStep(s, fills, n - 1, t);
    }
  }

  lemma PostedStep(s: State, fills: Q.Fills, n: nat, t: Books)
    requires Inv(s) && Ready(s.risk, s.meta, fills) && n < |fills|
    requires Posted(s, t, fills[..n])
    ensures Posted(s, PostFill(t, s.meta, fills[n]), fills[..n + 1])
  {
    RiskPostedStep(s.risk, t.risk, s.meta, fills, n);
    if fills[n].0 in s.meta {
      RiskFillAccepted(s.risk, t.risk, s.meta, fills, n);
      R.InvStep(t.risk, R.FillOp(fills[n].0, fills[n].1));
      MatchedStep(s, fills, n, t, R.Fill(t.risk, fills[n].0, fills[n].1).0);
    } else {
      LastFill(s.meta, fills, n);
    }
  }

  lemma LastFill(meta: map<int, Meta>, fills: Q.Fills, n: nat)
    requires n < |fills|
    ensures fills[..n + 1][..n] == fills[..n] && fills[..n + 1][n] == fills[n]
  {
  }

  lemma MatchedStep(s: State, fills: Q.Fills, n: nat, t: Books, risk: R.State)
    requires n < |fills| && fills[n].0 in s.meta && fills[n].1 > 0
    requires Posted(s, t, fills[..n])
    requires R.Fill(t.risk, fills[n].0, fills[n].1) == (risk, Accepted)
    requires RiskPosted(s.risk, risk, s.meta, fills[..n + 1]) && R.Inv(risk)
    ensures Posted(s, PostFill(t, s.meta, fills[n]), fills[..n + 1])
  {
    hide R.Inv, A.Inv, A.Fill, R.Fill, RiskPosted, LotsAt;
    LastFill(s.meta, fills, n);
    var m := s.meta[fills[n].0];
    AccountingFill(t.accounting, m.isBid, m.price, fills[n].1, m.fee);
  }

  // ----- a print keeps the lockstep -----

  lemma PrintFills(s: State, n: int)
    requires Inv(s) && n > 0
    ensures Q.Known(s.queue.orders, s.queue.queue)
    ensures Ready(s.risk, s.meta, Q.Consume(s.queue, n).fills)
  {
    QL.ConsumeClosedForm(s.queue, n);
    QL.InvIsLiveQueue(s.queue);
    var line := s.queue.queue;
    var fills := Q.Consume(s.queue, n).fills;
    forall i | 0 <= i < |fills|
      ensures fills[i].0 == line[i] && 0 < fills[i].1 <= s.queue.orders[line[i]].remaining
    {
      assert Q.FillReported(fills, line[i], i, QL.FillOf(fills, line[i]));
    }
    forall i | 0 <= i < |fills| && fills[i].0 in s.meta
      ensures fills[i].0 in s.risk.orders && s.risk.orders[fills[i].0].state.Live?
      ensures fills[i].1 <= s.risk.orders[fills[i].0].remaining
        && s.meta[fills[i].0].isBid == s.risk.orders[fills[i].0].isBid
    {
      assert Paired(s.meta[line[i]], s.queue.orders[line[i]], s.risk.orders[line[i]]);
    }
  }

  lemma OnlyFillsMention(s: State, n: int, id: int)
    requires Inv(s) && n > 0
    ensures Q.Known(s.queue.orders, s.queue.queue)
    ensures var fills := Q.Consume(s.queue, n).fills;
      && |fills| <= |s.queue.queue|
      && (forall j :: 0 <= j < |fills| ==> fills[j].0 == s.queue.queue[j])
      && (Mentions(fills, id) ==> exists j :: 0 <= j < |fills| && s.queue.queue[j] == id)
  {
    QL.ConsumeClosedForm(s.queue, n);
    var fills := Q.Consume(s.queue, n).fills;
    forall j | 0 <= j < |fills| ensures fills[j].0 == s.queue.queue[j] {
      assert Q.FillReported(fills, s.queue.queue[j], j, QL.FillOf(fills, s.queue.queue[j]));
    }
  }

  /** What a print does to a quote in both ledgers, seen from its flow in the queue. */
  lemma PairedAfter(m: Meta, q: Q.Order, r: R.Order, flow: int, r': R.Order)
    requires Paired(m, q, r) && Q.LiveOrder(q)
    requires r' == if Q.FillAt(q, flow) > 0 then R.FilledBy(r, Q.FillAt(q, flow)) else r
    ensures Paired(m, Q.After(q, flow), r')
  {
  }

  lemma RiskAfterPrint(s: State, n: int, risk: R.State, i: nat)
    requires Inv(s) && n > 0 && i < |s.queue.queue| && s.queue.queue[i] in s.meta
    requires Q.Known(s.queue.orders, s.queue.queue)
    requires RiskPosted(s.risk, risk, s.meta, Q.Consume(s.queue, n).fills)
    ensures var id := s.queue.queue[i]; var lots := QL.FillOf(Q.Consume(s.queue, n).fills, id);
      id in risk.orders && id in s.risk.orders
      && risk.orders[id] == if lots > 0 then R.FilledBy(s.risk.orders[id], lots) else s.risk.orders[id]
  {
    QL.ConsumeClosedForm(s.queue, n);
    var id, fills := s.queue.queue[i], Q.Consume(s.queue, n).fills;
    var lots := QL.FillOf(fills, id);
    assert Q.FillReported(fills, id, i, lots);
    OnlyFillsMention(s, n, id);
    assert Q.Distinct(s.queue.queue);
    hide Inv, Q.Consume, QL.FillOf, R.FilledBy;
    if i < |fills| {
      assert fills[i] == (id, lots);
    } else {
      assert !Mentions(fills, id);
    }
  }

  lemma QueueAfterPrint(s: Q.State, n: int, i: nat)
    requires Q.Inv(s) && n > 0 && i < |s.queue|
    ensures Q.Known(s.orders, s.queue) && Q.LiveOrder(s.orders[s.queue[i]])
    ensures var id := s.queue[i]; var r := Q.Consume(s, n); var flow := n - Q.Before(s.orders, s.queue, i);
      && id in r.state.orders && r.state.orders[id] == Q.After(s.orders[id], flow)
      && QL.FillOf(r.fills, id) == Q.FillAt(s.orders[id], flow)
  {
    QL.ConsumeClosedForm(s, n);
    QL.InvIsLiveQueue(s);
  }

  lemma UntouchedByPrint(s: State, n: int, risk: R.State, id: int)
    requires Inv(s) && n > 0 && id in s.meta && id !in s.queue.queue
    requires Q.Known(s.queue.orders, s.queue.queue)
    requires RiskPosted(s.risk, risk, s.meta, Q.Consume(s.queue, n).fills)
    ensures id in Q.Consume(s.queue, n).state.orders && Q.Consume(s.queue, n).state.orders[id] == s.queue.orders[id]
    ensures id in risk.orders && risk.orders[id] == s.risk.orders[id]
  {
    QL.ConsumeClosedForm(s.queue, n);
    OnlyFillsMention(s, n, id);
    hide Q.Consume, R.Inv, A.Inv;
  }

  lemma PairedAfterPrint(s: State, n: int, risk: R.State, id: int)
    requires Inv(s) && n > 0 && id in s.meta
    requires Q.Known(s.queue.orders, s.queue.queue)
    requires RiskPosted(s.risk, risk, s.meta, Q.Consume(s.queue, n).fills)
    ensures id in Q.Consume(s.queue, n).state.orders
    ensures id in risk.orders && Paired(s.meta[id], Q.Consume(s.queue, n).state.orders[id], risk.orders[id])
  {
    var line := s.queue.queue;
    assert Paired(s.meta[id], s.queue.orders[id], s.risk.orders[id]);
    if id in line {
      var i :| 0 <= i < |line| && line[i] == id;
      RiskAfterPrint(s, n, risk, i);
      QueueAfterPrint(s.queue, n, i);
      hide Inv, Q.Consume, RiskPosted;
      var flow := n - Q.Before(s.queue.orders, line, i);
      PairedAfter(s.meta[id], s.queue.orders[id], s.risk.orders[id], flow, risk.orders[id]);
    } else {
      UntouchedByPrint(s, n, risk, id);
    }
  }

  /** One print, end to end: the lockstep survives, risk refuses nothing, and the two positions move by
      the signed fills that have metadata and, for accounting, a positive price. */
  lemma PrintStep(s: State, op: Op)
    requires Inv(s) && op.a > 0
    ensures Q.Known(s.queue.orders, s.queue.queue)
    ensures var (s', row) := StepConsume(s, op);
      && Inv(s')
      && s'.risk.position == s.risk.position + SignedFills(s.meta, row.fills)
      && LotsAt(s'.accounting) == LotsAt(s.accounting) + PricedFills(s.meta, row.fills)
      && row.verdict == VerdictOf(FirstProblem(s.meta, row.fills))
  {
    PrintFills(s, op.a);
    var o := Q.Consume(s.queue, op.a);
    PostFillsMeaning(s, o.fills, |o.fills|);
    assert o.fills[..|o.fills|] == o.fills;
    QL.InvStep(s.queue, QL.ConsumeOp(op.a));
    QL.ConsumeShape(s.queue, op.a);
    var t := PostFills(Books(s.risk, s.accounting, FINE), s.meta, o.fills);
    forall id | id in s.meta ensures Paired(s.meta[id], o.state.orders[id], t.risk.orders[id]) {
      PairedAfterPrint(s, op.a, t.risk, id);
    }
  }

  /** Lockstep: every operation of the composed contract, accepted or not, keeps the queue and the risk
      ledger paired order by order, both ledgers within their own invariants, and the book sound. */
  lemma InvStep(s: State, op: Op)
    requires Inv(s)
    ensures Q.Known(s.queue.orders, s.queue.queue)
    ensures Step(s, op).Stepped? ==> Inv(Step(s, op).state)
  {
    InvKnown(s);
    if op.kind == 0 { BookStep(s, op); }
    else if op.kind == 1 { QuoteStep(s, op); }
    else if op.kind == 2 { if op.a > 0 { PrintStep(s, op); } }
    else if op.kind == 3 { CancelStep(s, op); }
    else if op.kind == 4 { AckStep(s, op); }
    else if op.kind == 6 { EpochStep(s); }
  }
}

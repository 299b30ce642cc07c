/** What the composed state hash sees. It covers the canonical bytes of the five components but not the
    order metadata; this module says exactly when that matters. */
module EngineFingerprint {
  import opened Common
  import opened Engine
  import opened EngineLaws
  import opened EngineTheorems
  import Canonical
  import B = Book
  import Q = PublicQueue
  import QL = PublicQueueLaws
  import S = Scheduler
  import R = Risk
  import A = Accounting

  /** The component bytes that are hashed together after every operation. */
  datatype Fingerprint = Fingerprint(book: string, queue: string, scheduler: string, risk: string, accounting: string)

  function FingerprintOf(s: State): Fingerprint {
    Fingerprint(Canonical.BookBytes(s.book), Canonical.QueueBytes(s.queue), Canonical.SchedulerBytes(s.scheduler),
                Canonical.RiskBytes(s.risk), Canonical.AccountingBytes(s.accounting))
  }

  ghost predicate SameComponents(a: State, b: State) {
    && a.book == b.book && a.queue == b.queue && a.scheduler == b.scheduler
    && a.risk == b.risk && a.accounting == b.accounting
  }

  /** Equal fingerprints mean equal components. */
  lemma FingerprintComplete(a: State, b: State)
    ensures FingerprintOf(a) == FingerprintOf(b) <==> SameComponents(a, b)
  {
    if FingerprintOf(a) == FingerprintOf(b) {
      Canonical.BookBytesComplete(a.book, b.book);
      Canonical.QueueBytesComplete(a.queue, b.queue);
      Canonical.SchedulerBytesComplete(a.scheduler, b.scheduler);
      Canonical.RiskBytesComplete(a.risk, b.risk);
      Canonical.AccountingBytesComplete(a.accounting, b.accounting);
    }
  }

  // ----- traces with fingerprints -----

  /** One trace row as published: verdict, fills and the fingerprint reached, or the fact of raising. */
  datatype Published = PublishedRow(row: Row, fingerprint: Fingerprint) | RaisedHere

  function Publish(s: State, ops: seq<Op>): seq<Published>
    requires Inv(s)
    decreases |ops|
  {
    if |ops| == 0 then [] else
      InvStep(s, ops[0]);
      match Step(s, ops[0])
      case Raised => [RaisedHere]
      case Stepped(s1, row) => [PublishedRow(row, FingerprintOf(s1))] + Publish(s1, ops[1..])
  }

  /** No continuation can tell the two states apart. */
  ghost predicate Indistinguishable(a: State, b: State)
    requires Inv(a) && Inv(b)
  {
    forall ops :: Publish(a, ops) == Publish(b, ops)
  }

  // ----- when metadata differences show -----

  /** Two executions terms that book the same fill: identical, or both refused for their price. */
  predicate SameTerms(m: Meta, n: Meta) {
    (m.price == n.price && m.fee == n.fee) || (m.price <= 0 && n.price <= 0)
  }

  ghost predicate LiveTermsAgree(a: State, b: State) {
    forall id :: id in a.meta && id in b.meta && Q.IsLive(a.queue.orders, id) ==> SameTerms(a.meta[id], b.meta[id])
  }

  /** Same components, and the same terms on every quote still live. */
  ghost predicate Twins(a: State, b: State) {
    SameComponents(a, b) && LiveTermsAgree(a, b)
  }

  lemma TwinMeta(a: State, b: State, id: int)
    requires Inv(a) && Inv(b) && SameComponents(a, b)
    ensures id in a.meta <==> id in b.meta
    ensures id in a.meta ==> a.meta[id].isBid == b.meta[id].isBid
  {
    assert id in a.meta <==> id in a.risk.orders;
    assert id in b.meta <==> id in b.risk.orders;
    if id in a.meta {
      assert Paired(a.meta[id], a.queue.orders[id], a.risk.orders[id]);
      assert Paired(b.meta[id], b.queue.orders[id], b.risk.orders[id]);
    }
  }

  ghost predicate FillTermsAgree(a: map<int, Meta>, b: map<int, Meta>, fills: Q.Fills) {
    forall i :: 0 <= i < |fills| ==>
      && (fills[i].0 in a <==> fills[i].0 in b)
      && (fills[i].0 in a ==> a[fills[i].0].isBid == b[fills[i].0].isBid && SameTerms(a[fills[i].0], b[fills[i].0]))
  }

  lemma {:induction false} PostAlike(t: Books, a: map<int, Meta>, b: map<int, Meta>, fills: Q.Fills)
    requires FillTermsAgree(a, b, fills)
    ensures PostFills(t, a, fills) == PostFills(t, b, fills)
    decreases |fills|
  {
    if |fills| > 0 {
      PostAlike(t, a, b, fills[..|fills| - 1]);
    }
  }

  lemma PrintTermsAgree(a: State, b: State, n: int)
    requires Inv(a) && Inv(b) && Twins(a, b) && n > 0
    ensures Q.Known(a.queue.orders, a.queue.queue)
    ensures FillTermsAgree(a.meta, b.meta, Q.Consume(a.queue, n).fills)
  {
    QL.ConsumeClosedForm(a.queue, n);
    QL.InvIsLiveQueue(a.queue);
    var fills := Q.Consume(a.queue, n).fills;
    forall i | 0 <= i < |fills|
      ensures fills[i].0 in a.meta <==> fills[i].0 in b.meta
      ensures fills[i].0 in a.meta ==> a.meta[fills[i].0].isBid == b.meta[fills[i].0].isBid
      ensures fills[i].0 in a.meta ==> SameTerms(a.meta[fills[i].0], b.meta[fills[i].0])
    {
      assert Q.FillReported(fills, a.queue.queue[i], i, QL.FillOf(fills, a.queue.queue[i]));
      assert Q.IsLive(a.queue.orders, fills[i].0);
      TwinMeta(a, b, fills[i].0);
    }
  }

  lemma TwinPrint(a: State, b: State, op: Op)
    requires Inv(a) && Inv(b) && Twins(a, b)
    ensures Q.Known(a.queue.orders, a.queue.queue)
    ensures StepConsume(a, op).1 == StepConsume(b, op).1 && SameComponents(StepConsume(a, op).0, StepConsume(b, op).0)
  {
    InvKnown(a);
    if op.a > 0 {
      PrintTermsAgree(a, b, op.a);
      PostAlike(Books(a.risk, a.accounting, FINE), a.meta, b.meta, Q.Consume(a.queue, op.a).fills);
    }
  }

  lemma TwinRows(a: State, b: State, op: Op)
    requires SameComponents(a, b) && op.kind != 2 && Q.Known(a.queue.orders, a.queue.queue)
    ensures Step(a, op).Stepped? <==> Step(b, op).Stepped?
    ensures Step(a, op).Stepped? ==> Step(a, op).row == Step(b, op).row
  {
    hide Inv, LiveTermsAgree, StepConsume, B.ApplyBatch, Q.Place, Q.Cancel, Q.Invalidate, R.Reserve,
      R.RequestCancel, R.CancelAck, R.Invalidate, S.Schedule, S.Drain, A.Mark, A.Markout;
  }

  lemma TwinStates(a: State, b: State, op: Op)
    requires SameComponents(a, b) && op.kind != 2 && Q.Known(a.queue.orders, a.queue.queue)
    requires Step(a, op).Stepped? && Step(b, op).Stepped?
    ensures SameComponents(Step(a, op).state, Step(b, op).state)
  {
    hide Inv, LiveTermsAgree, StepConsume, B.ApplyBatch, Q.Place, Q.Cancel, Q.Invalidate, R.Reserve,
      R.RequestCancel, R.CancelAck, R.Invalidate, S.Schedule, S.Drain, A.Mark, A.Markout;
  }

  lemma TwinComponents(a: State, b: State, op: Op)
    requires Inv(a) && Inv(b) && Twins(a, b)
    ensures Q.Known(a.queue.orders, a.queue.queue)
    ensures Step(a, op).Stepped? <==> Step(b, op).Stepped?
    ensures Step(a, op).Stepped? ==>
      Step(a, op).row == Step(b, op).row && SameComponents(Step(a, op).state, Step(b, op).state)
  {
    InvKnown(a);
    if op.kind == 2 {
      TwinPrint(a, b, op);
    } else {
      hide StepBook, StepQuote, StepCancel, StepAck, StepMark, StepEpoch, StepSchedule, StepDrain, StepMarkout;
      TwinRows(a, b, op);
      if Step(a, op).Stepped? { TwinStates(a, b, op); }
    }
  }

  lemma TwinStep(a: State, b: State, op: Op)
    requires Inv(a) && Inv(b) && Twins(a, b)
    ensures Q.Known(a.queue.orders, a.queue.queue) && Q.Known(b.queue.orders, b.queue.queue)
    ensures Step(a, op).Stepped? <==> Step(b, op).Stepped?
    ensures Step(a, op).Stepped? ==> Step(a, op).row == Step(b, op).row && Twins(Step(a, op).state, Step(b, op).state)
  {
    TwinComponents(a, b, op);
    if Step(a, op).Stepped? {
      var a', b' := Step(a, op).state, Step(b, op).state;
      forall id | id in a'.meta && id in b'.meta && Q.IsLive(a'.queue.orders, id)
        ensures SameTerms(a'.meta[id], b'.meta[id])
      {
        LiveWasLive(a, op, id);
        TwinTerms(a, b, op, id);
      }
    }
  }

  lemma TwinTerms(a: State, b: State, op: Op, id: int)
    requires Inv(a) && Inv(b) && Twins(a, b)
    requires Q.Known(a.queue.orders, a.queue.queue)
    requires Step(a, op).Stepped? && Step(b, op).Stepped?
    requires id in Step(a, op).state.meta && id in Step(b, op).state.meta
    requires Q.IsLive(a.queue.orders, id) || (op.kind == 1 && op.id == id && id !in a.queue.seen)
    ensures SameTerms(Step(a, op).state.meta[id], Step(b, op).state.meta[id])
  {
    if op.kind == 1 {
      if StepQuote(a, op).0.meta != a.meta { QuoteIsFresh(a, op); }
      if StepQuote(b, op).0.meta != b.meta { QuoteIsFresh(b, op); }
    }
  }

  lemma {:induction false} TwinsPublishAlike(a: State, b: State, ops: seq<Op>)
    requires Inv(a) && Inv(b) && Twins(a, b)
    ensures Publish(a, ops) == Publish(b, ops)
    decreases |ops|
  {
    if |ops| > 0 {
      InvStep(a, ops[0]);
      InvStep(b, ops[0]);
      TwinStep(a, b, ops[0]);
      if Step(a, ops[0]).Stepped? {
        FingerprintComplete(Step(a, ops[0]).state, Step(b, ops[0]).state);
        TwinsPublishAlike(Step(a, ops[0]).state, Step(b, ops[0]).state, ops[1..]);
      }
    }
  }

  // ----- the other direction: a print that shows the difference -----

  predicate Differ(a: State, b: State, id: int) {
    id in a.meta && id in b.meta && !SameTerms(a.meta[id], b.meta[id])
  }

  lemma FirstDifference(a: State, b: State, i: nat) returns (first: nat)
    requires i < |a.queue.queue| && Differ(a, b, a.queue.queue[i])
    ensures first < |a.queue.queue| && Differ(a, b, a.queue.queue[first])
    ensures forall j :: 0 <= j < first ==> !Differ(a, b, a.queue.queue[j])
  {
    first := 0;
    while !Differ(a, b, a.queue.queue[first])
      invariant first <= i
      invariant forall j :: 0 <= j < first ==> !Differ(a, b, a.queue.queue[j])
      decreases i - first
    {
      first := first + 1;
    }
  }

  /** One lot booked on different terms always shows in the accounting state. */
  lemma OneLotShows(s: A.State, isBid: bool, m: Meta, n: Meta)
    requires A.Inv(s) && !SameTerms(m, n)
    ensures A.Fill(s, 0, isBid, m.price, 1, m.fee).0 != A.Fill(s, 0, isBid, n.price, 1, n.fee).0
  {
    var p := A.PositionOf(s, 0);
    if m.price > 0 { OneLot(p, isBid, m.price); MovesLots(s, isBid, m); }
    if n.price > 0 { OneLot(p, isBid, n.price); MovesLots(s, isBid, n); }
  }

  /** The cash of one lot lands in the basis when the position grows, in realized PnL when it shrinks. */
  lemma OneLot(p: A.Position, isBid: bool, price: int)
    requires price > 0
    ensures var r := A.FillPosition(p, isBid, price, 1);
      && r.0.lots == p.lots + Signed(isBid, 1)
      && (if p.lots == 0 || A.SameDirection(p.lots, Signed(isBid, 1)) then
            r.1 == 0 && r.0.basis == (if p.lots == 0 then 0 else p.basis) + price * A.SCALE
          else
            var share := A.TruncDiv(p.basis, Abs(p.lots));
            r.1 == if p.lots > 0 then price * A.SCALE - share else share - price * A.SCALE)
  {
  }

  lemma MovesLots(s: A.State, isBid: bool, m: Meta)
    requires A.Inv(s) && m.price > 0
    ensures var s' := A.Fill(s, 0, isBid, m.price, 1, m.fee).0;
      && s'.fees == s.fees + m.fee
      && A.PositionOf(s', 0).lots == A.PositionOf(s, 0).lots + Signed(isBid, 1)
      && s'.realized == s.realized + A.FillPosition(A.PositionOf(s, 0), isBid, m.price, 1).1
      && (A.PositionOf(s', 0).lots != 0 ==>
        A.PositionOf(s', 0) == A.FillPosition(A.PositionOf(s, 0), isBid, m.price, 1).0)
  {
    OneLot(A.PositionOf(s, 0), isBid, m.price);
  }

  lemma DifferenceShows(a: State, b: State, i: nat)
    requires Inv(a) && Inv(b) && SameComponents(a, b)
    requires i < |a.queue.queue| && Differ(a, b, a.queue.queue[i])
    requires forall j :: 0 <= j < i ==> !Differ(a, b, a.queue.queue[j])
    ensures Q.Known(a.queue.orders, a.queue.queue)
    ensures var op := Op(2, 0, false, ReachingLots(a, i), 0, 0, 0);
      StepConsume(a, op).0.accounting != StepConsume(b, op).0.accounting
  {
    ReachingFills(a, i);
    var op := Op(2, 0, false, ReachingLots(a, i), 0, 0, 0);
    PrintFills(a, op.a);
    var fills := Q.Consume(a.queue, op.a).fills;
    var init, id := fills[..i], a.queue.queue[i];
    forall j | 0 <= j < |init|
      ensures init[j].0 in a.meta <==> init[j].0 in b.meta
      ensures init[j].0 in a.meta ==> a.meta[init[j].0].isBid == b.meta[init[j].0].isBid
      ensures init[j].0 in a.meta ==> SameTerms(a.meta[init[j].0], b.meta[init[j].0])
    {
      assert init[j] == fills[j];
      TwinMeta(a, b, init[j].0);
    }
    var start := Books(a.risk, a.accounting, FINE);
    PostAlike(start, a.meta, b.meta, init);
    PostFillsMeaning(a, fills, i);
    var t := PostFills(start, a.meta, init);
    RiskFillAccepted(a.risk, t.risk, a.meta, fills, i);
    TwinMeta(a, b, id);
    OneLotShows(t.accounting, a.meta[id].isBid, a.meta[id], b.meta[id]);
    LastPosting(start, a.meta, fills, i);
    LastPosting(start, b.meta, fills, i);
  }

  lemma LastPosting(start: Books, meta: map<int, Meta>, fills: Q.Fills, i: nat)
    requires |fills| == i + 1 && fills[i].0 in meta
    requires R.Fill(PostFills(start, meta, fills[..i]).risk, fills[i].0, fills[i].1).1 == Accepted
    ensures var m := meta[fills[i].0];
      PostFills(start, meta, fills).accounting ==
        A.Fill(PostFills(start, meta, fills[..i]).accounting, 0, m.isBid, m.price, fills[i].1, m.fee).0
  {
    assert fills[..|fills| - 1] == fills[..i];
  }

  lemma DifferencePublished(a: State, b: State, op: Op)
    requires Inv(a) && Inv(b) && op.kind == 2
    requires Q.Known(a.queue.orders, a.queue.queue) && Q.Known(b.queue.orders, b.queue.queue)
    requires StepConsume(a, op).0.accounting != StepConsume(b, op).0.accounting
    ensures Publish(a, [op]) != Publish(b, [op])
  {
    hide FingerprintOf, StepConsume, Inv;
    InvStep(a, op);
    InvStep(b, op);
    FingerprintComplete(StepConsume(a, op).0, StepConsume(b, op).0);
    assert [op][1..] == [];
    assert Publish(a, [op])[0] != Publish(b, [op])[0];
  }

  /** The composed fingerprint does not see the order metadata. Two reachable states with equal
      fingerprints publish the same rows for every continuation if and only if each quote still live
      carries the same price and fee in both, or a price accounting refuses in both. */
  lemma FingerprintBlindSpot(a: State, b: State)
    requires Inv(a) && Inv(b)
    ensures FingerprintOf(a) == FingerprintOf(b) ==> (Indistinguishable(a, b) <==> LiveTermsAgree(a, b))
  {
    hide FingerprintOf, Publish, StepConsume, ReachingLots;
    FingerprintComplete(a, b);
    if FingerprintOf(a) != FingerprintOf(b) {
    } else if LiveTermsAgree(a, b) {
      forall ops ensures Publish(a, ops) == Publish(b, ops) { TwinsPublishAlike(a, b, ops); }
    } else {
      var id :| id in a.meta && id in b.meta && Q.IsLive(a.queue.orders, id) && !SameTerms(a.meta[id], b.meta[id]);
      InvKnown(a);
      assert id in a.queue.queue;
      var i :| 0 <= i < |a.queue.queue| && a.queue.queue[i] == id;
      var first := FirstDifference(a, b, i);
      DifferenceShows(a, b, first);
      DifferencePublished(a, b, Op(2, 0, false, ReachingLots(a, first), 0, 0, 0));
    }
  }

  /** A concrete blind spot: the same bid quoted at 101 or at 102 hashes alike and behaves differently. */
  lemma PriceIsNotFingerprinted()
    ensures Inv(EMPTY)
    ensures var a := Play(EMPTY, [Op(1, 1, true, 0, 1, 101, 0)]);
      var b := Play(EMPTY, [Op(1, 1, true, 0, 1, 102, 0)]);
      && a.Played? && b.Played? && Inv(a.state) && Inv(b.state)
      && FingerprintOf(a.state) == FingerprintOf(b.state) && !Indistinguishable(a.state, b.state)
  {
    EmptyInv();
    var x, y := Op(1, 1, true, 0, 1, 101, 0), Op(1, 1, true, 0, 1, 102, 0);
    InvStep(EMPTY, x);
    InvStep(EMPTY, y);
    var a, b := StepQuote(EMPTY, x).0, StepQuote(EMPTY, y).0;
    assert [x][1..] == [] && [y][1..] == [];
    assert a.meta[1].price == 101 && b.meta[1].price == 102;
    assert Q.IsLive(a.queue.orders, 1);
    FingerprintBlindSpot(a, b);
  }

  // ----- what the rows of a trace say -----

  lemma PublishStep(s: State, op: Op, rest: seq<Op>)
    requires Inv(s)
    ensures Q.Known(s.queue.orders, s.queue.queue)
    ensures Step(s, op).Raised? ==> Publish(s, [op] + rest) == [RaisedHere]
    ensures Step(s, op).Stepped? ==>
      var after, row := Step(s, op).state, Step(s, op).row;
      Inv(after) && Publish(s, [op] + rest) == [PublishedRow(row, FingerprintOf(after))] + Publish(after, rest)
  {
    InvStep(s, op);
    hide Step, FingerprintOf, Inv;
    assert ([op] + rest)[0] == op && ([op] + rest)[1..] == rest;
  }

  /** What an operation publishes when it is taken in this state. */
  function RowOf(s: State, op: Op): Published
    requires Q.Known(s.queue.orders, s.queue.queue)
  {
    match Step(s, op)
    case Raised => RaisedHere
    case Stepped(after, row) => PublishedRow(row, FingerprintOf(after))
  }

  lemma FirstRow(s: State, ops: seq<Op>)
    requires Inv(s) && |ops| > 0
    ensures Q.Known(s.queue.orders, s.queue.queue)
    ensures |Publish(s, ops)| > 0 && Publish(s, ops)[0] == RowOf(s, ops[0])
  {
    assert ops == [ops[0]] + ops[1..];
    InvKnown(s);
    hide Step, FingerprintOf, Inv, Publish;
    PublishStep(s, ops[0], ops[1..]);
  }

  /** Row i of a trace is the verdict and the fills of operation i, taken in the state the operations before it have
      made, with the fingerprint of the state after it. */
  lemma {:induction false} RowMeaning(s: State, ops: seq<Op>, i: nat)
    requires Inv(s) && i < |ops| && Play(s, ops[..i]).Played?
    ensures var t := Play(s, ops[..i]).state;
      && Inv(t) && Q.Known(t.queue.orders, t.queue.queue)
      && i < |Publish(s, ops)| && Publish(s, ops)[i] == RowOf(t, ops[i])
    decreases i
  {
    hide Step, FingerprintOf, Inv, RowOf, Publish;
    FirstRow(s, ops);
    if i == 0 {
      assert ops[..0] == [];
    } else {
      hide Play;
      var rest := ops[1..];
      assert ops[..i] == [ops[0]] + rest[..i - 1];
      assert ops == [ops[0]] + rest && rest[i - 1] == ops[i];
      PlayHead(s, ops[0], rest[..i - 1]);
      PublishStep(s, ops[0], rest);
      RowMeaning(Step(s, ops[0]).state, rest, i - 1);
    }
  }

  lemma PlayHead(s: State, op: Op, rest: seq<Op>)
    requires Inv(s) && Play(s, [op] + rest).Played?
    ensures Q.Known(s.queue.orders, s.queue.queue)
    ensures Step(s, op).Stepped? && Inv(Step(s, op).state)
    ensures Play(Step(s, op).state, rest).Played? && Play(Step(s, op).state, rest).state == Play(s, [op] + rest).state
  {
    InvStep(s, op);
    hide Step, Inv;
    assert ([op] + rest)[0] == op && ([op] + rest)[1..] == rest;
  }
}

/** Laws of fill accounting over whole runs: exact cash conservation, path independence of equity,
    the long/short mirror, and the drift bound of the truncated cost basis. */
module AccountingLaws {
  import opened Common
  import opened Accounting
  import opened Arith

  // ----- invariant -----

  /** A full close allocates the whole basis, with no remainder. */
  lemma WholeShare(basis: int, lots: int)
    requires lots > 0 && basis >= 0
    ensures TruncDiv(basis * lots, lots) == basis
  {
    MulMonotone(0, basis, lots);
    Floor(basis * lots, lots);
    var q := basis * lots / lots;
    IntCancel(q, basis, lots);
    IntCancelUp(basis, q, lots);
  }

  /** A partial close leaves a basis between the proportional share and one cash unit above it. */
  lemma PartialShare(basis: int, lots: int, close: int)
    requires 0 < close < lots && basis >= 0
    ensures var kept := basis - TruncDiv(basis * close, lots);
      && kept >= 0
      && basis * (lots - close) <= kept * lots < basis * (lots - close) + lots
  {
    MulMonotone(0, basis, close);
    Floor(basis * close, lots);
    var q := basis * close / lots;
    assert (basis - q) * lots == basis * lots - q * lots;
    assert basis * (lots - close) == basis * lots - basis * close;
    MulMonotone(0, basis, lots - close);
    IntCancel(0, basis - q, lots);
  }

  lemma CashPositive(price: int, qty: int)
    requires price > 0 && qty > 0
    ensures Cash(price, qty) > 0
  {
    Multiple(price, qty);
  }

  lemma FillPositionInv(p: Position, isBid: bool, price: int, qty: int)
    requires price > 0 && qty > 0 && p.basis >= 0
    ensures FillPosition(p, isBid, price, qty).0.basis >= 0
  {
    CashPositive(price, qty);
    var signed := Signed(isBid, qty);
    if p.lots != 0 && !SameDirection(p.lots, signed) {
      if qty < Abs(p.lots) { PartialShare(p.basis, Abs(p.lots), qty); }
      else if qty > Abs(p.lots) { CashPositive(price, qty - Abs(p.lots)); }
    }
  }

  lemma InvStep(s: State, op: Op)
    requires Inv(s)
    ensures Inv(Step(s, op).0)
  {
    if op.FillOp? && op.price > 0 && op.qty > 0 {
      FillPositionInv(PositionOf(s, op.symbol), op.isBid, op.price, op.qty);
    }
  }

  lemma {:induction false} InvRun(s: State, ops: seq<Op>)
    requires Inv(s)
    ensures Inv(Run(s, ops))
    decreases |ops|
  {
    if |ops| > 0 {
      InvRun(s, ops[..|ops| - 1]);
      InvStep(Run(s, ops[..|ops| - 1]), ops[|ops| - 1]);
    }
  }

  // ----- conservation of cash -----

  /** What the open position cost, counted positive when long and negative when short. */
  function SignedBasis(p: Position): int { if p.lots > 0 then p.basis else if p.lots < 0 then -p.basis else 0 }

  function OpenCost(s: State): int { MapSum(s.positions, SignedBasis) }

  predicate GoodFill(op: Op) { op.FillOp? && op.price > 0 && op.qty > 0 }

  /** Cash that changes hands in one operation: paid for bids, received for asks. */
  function TradeCash(op: Op): int {
    if GoodFill(op) then -Sign(op.isBid) * Cash(op.price, op.qty) else 0
  }

  function FeeOf(op: Op): int { if GoodFill(op) then op.fee else 0 }

  lemma CashSplits(price: int, a: int, b: int)
    ensures Cash(price, a + b) == Cash(price, a) + Cash(price, b)
  {
    assert price * (a + b) == price * a + price * b;
  }

  /** One fill moves cost between cash, realized PnL and basis without losing a unit. */
  lemma FillConserves(p: Position, isBid: bool, price: int, qty: int)
    requires price > 0 && qty > 0 && p.basis >= 0
    ensures var (p', realized) := FillPosition(p, isBid, price, qty);
      && p'.lots == p.lots + Signed(isBid, qty)
      && realized == -Sign(isBid) * Cash(price, qty) + SignedBasis(p') - SignedBasis(p)
  {
    var signed := Signed(isBid, qty);
    if p.lots != 0 && !SameDirection(p.lots, signed) {
      var close := Min(Abs(p.lots), qty);
      CashSplits(price, close, qty - close);
      if qty >= Abs(p.lots) { WholeShare(p.basis, Abs(p.lots)); }
    }
  }

  lemma OpenCostWith(positions: map<int, Position>, symbol: int, p: Position)
    requires p.lots == 0 ==> p == FLAT
    ensures MapSum(WithPosition(positions, symbol, p), SignedBasis) ==
      MapSum(positions, SignedBasis) - (if symbol in positions then SignedBasis(positions[symbol]) else 0)
        + SignedBasis(p)
  {
    if p.lots == 0 {
      if symbol in positions {
        MapSumRemove(positions, SignedBasis, symbol);
      } else {
        assert positions - {symbol} == positions;
      }
    } else {
      MapSumUpdate(positions, SignedBasis, symbol, p);
    }
  }

  lemma FlatIsFlat(p: Position, isBid: bool, price: int, qty: int)
    requires price > 0 && qty > 0
    ensures var p' := FillPosition(p, isBid, price, qty).0; p'.lots == 0 ==> p' == FLAT
  {
  }

  lemma StepConserves(s: State, op: Op)
    requires Inv(s)
    ensures var s' := Step(s, op).0;
      && s'.realized - s.realized == TradeCash(op) + OpenCost(s') - OpenCost(s)
      && s'.fees - s.fees == FeeOf(op)
  {
    if GoodFill(op) {
      var p := PositionOf(s, op.symbol);
      FillConserves(p, op.isBid, op.price, op.qty);
      FlatIsFlat(p, op.isBid, op.price, op.qty);
      OpenCostWith(s.positions, op.symbol, FillPosition(p, op.isBid, op.price, op.qty).0);
    }
  }

  /** Exact conservation: whatever the opens, adds, partial closes and over-reversals, and whatever the
      truncation, realized PnL is the net trade cash plus the signed cost basis still open. */
  lemma {:induction false} CashConserved(s: State, ops: seq<Op>)
    requires Inv(s)
    ensures var s' := Run(s, ops);
      && s'.realized == s.realized - OpenCost(s) + SeqSum(ops, TradeCash) + OpenCost(s')
      && s'.fees == s.fees + SeqSum(ops, FeeOf)
    decreases |ops|
  {
    if |ops| > 0 {
      var init := ops[..|ops| - 1];
      CashConserved(s, init);
      InvRun(s, init);
      StepConserves(Run(s, init), ops[|ops| - 1]);
    }
  }

  // ----- markouts -----

  predicate GoodMarkout(op: Op) { op.MarkoutOp? && op.price > 0 && op.markPrice > 0 && op.qty > 0 }

  /** What a fill, alone and from flat, would show as unrealized PnL at the later mark. */
  function MarkoutPnl(op: Op): int {
    if GoodMarkout(op) then UnrealizedOf(Marked(FillPosition(FLAT, op.isBid, op.price, op.qty).0, op.markPrice)) else 0
  }

  function MarkoutLots(op: Op): int { if GoodMarkout(op) then op.qty else 0 }

  lemma MarkoutStep(s: State, op: Op)
    ensures var s' := Step(s, op).0;
      s'.markoutCash == s.markoutCash + MarkoutPnl(op) && s'.markoutQty == s.markoutQty + MarkoutLots(op)
  {
    if GoodMarkout(op) {
      var gain := (op.markPrice - op.price) * op.qty;
      assert gain == op.markPrice * op.qty - op.price * op.qty;
      assert Abs(FillPosition(FLAT, op.isBid, op.price, op.qty).0.lots) == op.qty;
    }
  }

  /** Signed markouts are the unrealized PnL of their fills: over any run the markout total is the sum of
      what each marked-out fill would show on its own, and nothing else moves it. */
  lemma {:induction false} MarkoutsAddUp(s: State, ops: seq<Op>)
    ensures Run(s, ops).markoutCash == s.markoutCash + SeqSum(ops, MarkoutPnl)
    ensures Run(s, ops).markoutQty == s.markoutQty + SeqSum(ops, MarkoutLots)
    decreases |ops|
  {
    if |ops| > 0 {
      MarkoutsAddUp(s, ops[..|ops| - 1]);
      MarkoutStep(Run(s, ops[..|ops| - 1]), ops[|ops| - 1]);
    }
  }

  // ----- marks -----

  /** What a run leaves as the mark of one symbol, read from its last relevant operation backwards. */
  function LastMark(before: Option<int>, ops: seq<Op>, symbol: int): Option<int>
    decreases |ops|
  {
    if |ops| == 0 then before else
      match ops[|ops| - 1]
      case MarkOp(k, price) =>
        if k == symbol && price > 0 then Some(price) else LastMark(before, ops[..|ops| - 1], symbol)
      case ClearMarkOp(k) => if k == symbol then None else LastMark(before, ops[..|ops| - 1], symbol)
      case _ => LastMark(before, ops[..|ops| - 1], symbol)
  }

  function MarkOf(s: State, symbol: int): Option<int> {
    if symbol in s.marks then Some(s.marks[symbol]) else None
  }

  /** The last valid mark of a symbol wins, unless it was cleared since; fills never touch it. */
  lemma {:induction false} MarksAreLatest(s: State, ops: seq<Op>, symbol: int)
    ensures MarkOf(Run(s, ops), symbol) == LastMark(MarkOf(s, symbol), ops, symbol)
    decreases |ops|
  {
    if |ops| > 0 {
      MarksAreLatest(s, ops[..|ops| - 1], symbol);
    }
  }

  // ----- equity is path independent -----

  function MarkValue(m: Marked): int { m.mark * m.position.lots * SCALE }

  function MarketValue(s: State): int { MapSum(MarkedPositions(s), MarkValue) }

  lemma ValueOf(m: Marked)
    requires m.position.lots != 0
    ensures UnrealizedOf(m) + SignedBasis(m.position) == MarkValue(m)
  {
    var lots := m.position.lots;
    if lots < 0 { assert m.mark * (-lots) == -(m.mark * lots); }
  }

  lemma {:induction false} ValuesAdd(positions: map<int, Position>, marked: map<int, Marked>)
    requires positions.Keys == marked.Keys
    requires forall k :: k in positions ==> marked[k].position == positions[k] && positions[k].lots != 0
    ensures MapSum(marked, UnrealizedOf) + MapSum(positions, SignedBasis) == MapSum(marked, MarkValue)
    decreases |positions|
  {
    if positions.Keys != {} {
      var k := Smallest(positions.Keys);
      MapSumRemove(positions, SignedBasis, k);
      MapSumRemove(marked, UnrealizedOf, k);
      MapSumRemove(marked, MarkValue, k);
      ValueOf(marked[k]);
      ValuesAdd(positions - {k}, marked - {k});
    } else {
      assert positions == map[] && marked == map[];
    }
  }

  /** Realized plus unrealized PnL, where the valuation is complete. */
  function Equity(s: State): Option<int> {
    match Unrealized(s)
    case None => None
    case Some(u) => Some(s.realized + u)
  }

  /** Total equity is naive mark-to-market: trade cash plus the open lots at their marks. */
  lemma EquityIsMarkToMarket(ops: seq<Op>)
    ensures var s := Run(EMPTY, ops);
      Unrealized(s).Some? ==> Equity(s) == Some(SeqSum(ops, TradeCash) + MarketValue(s))
  {
    var s := Run(EMPTY, ops);
    assert Inv(EMPTY);
    CashConserved(EMPTY, ops);
    InvRun(EMPTY, ops);
    ValuesAdd(s.positions, MarkedPositions(s));
  }

  function NetLots(ops: seq<Op>, symbol: int): int
    decreases |ops|
  {
    if |ops| == 0 then 0 else
      var op := ops[|ops| - 1];
      NetLots(ops[..|ops| - 1], symbol) + (if GoodFill(op) && op.symbol == symbol then Signed(op.isBid, op.qty) else 0)
  }

  lemma {:induction false} LotsAreNet(s: State, ops: seq<Op>, symbol: int)
    requires Inv(s)
    ensures PositionOf(Run(s, ops), symbol).lots == PositionOf(s, symbol).lots + NetLots(ops, symbol)
    decreases |ops|
  {
    if |ops| > 0 {
      var init, op := ops[..|ops| - 1], ops[|ops| - 1];
      LotsAreNet(s, init, symbol);
      InvRun(s, init);
      if GoodFill(op) {
        var p := PositionOf(Run(s, init), op.symbol);
        FillConserves(p, op.isBid, op.price, op.qty);
      }
    }
  }

  lemma {:induction false} NetLotsConcat(a: seq<Op>, b: seq<Op>, symbol: int)
    ensures NetLots(a + b, symbol) == NetLots(a, symbol) + NetLots(b, symbol)
    decreases |b|
  {
    if |b| == 0 { assert a + b == a; } else {
      assert (a + b)[..|a + b| - 1] == a + b[..|b| - 1];
      NetLotsConcat(a, b[..|b| - 1], symbol);
    }
  }

  lemma NetLotsPullOut(ops: seq<Op>, i: nat, symbol: int)
    requires i < |ops|
    ensures NetLots(ops, symbol) == NetLots(ops[..i] + ops[i + 1..], symbol) + NetLots([ops[i]], symbol)
  {
    assert ops == ops[..i] + [ops[i]] + ops[i + 1..];
    NetLotsConcat(ops[..i] + [ops[i]], ops[i + 1..], symbol);
    NetLotsConcat(ops[..i], [ops[i]], symbol);
    NetLotsConcat(ops[..i], ops[i + 1..], symbol);
  }

  lemma {:induction false} NetLotsPermuted(a: seq<Op>, b: seq<Op>, symbol: int)
    requires multiset(a) == multiset(b)
    ensures NetLots(a, symbol) == NetLots(b, symbol)
    decreases |a|
  {
    SameLength(a, b);
    if |a| > 0 {
      var n := |a| - 1;
      var i := FindLast(a, b);
      assert a[..n] + a[n + 1..] == a[..n];
      NetLotsPullOut(a, n, symbol);
      NetLotsPullOut(b, i, symbol);
      NetLotsPermuted(a[..n], b[..i] + b[i + 1..], symbol);
    }
  }

  lemma {:induction false} SameValue(a: map<int, Marked>, b: map<int, Marked>)
    requires a.Keys == b.Keys
    requires forall k :: k in a ==> a[k].mark == b[k].mark && a[k].position.lots == b[k].position.lots
    ensures MapSum(a, MarkValue) == MapSum(b, MarkValue)
    decreases |a|
  {
    if a.Keys != {} {
      var k := Smallest(a.Keys);
      MapSumRemove(a, MarkValue, k);
      MapSumRemove(b, MarkValue, k);
      SameValue(a - {k}, b - {k});
    } else {
      assert a == map[] && b == map[];
    }
  }

  lemma PermutedLots(s: State, a: seq<Op>, b: seq<Op>)
    requires Inv(s) && multiset(a) == multiset(b)
    ensures var (sa, sb) := (Run(s, a), Run(s, b));
      && sa.positions.Keys == sb.positions.Keys
      && forall k :: k in sa.positions ==> sa.positions[k].lots == sb.positions[k].lots
  {
    var sa, sb := Run(s, a), Run(s, b);
    InvRun(s, a);
    InvRun(s, b);
    forall k ensures PositionOf(sa, k).lots == PositionOf(sb, k).lots {
      LotsAreNet(s, a, k);
      LotsAreNet(s, b, k);
      NetLotsPermuted(a, b, k);
    }
    SameLots(sa, sb);
  }

  lemma SameLots(a: State, b: State)
    requires Inv(a) && Inv(b)
    requires forall k :: PositionOf(a, k).lots == PositionOf(b, k).lots
    ensures a.positions.Keys == b.positions.Keys
    ensures forall k :: k in a.positions ==> a.positions[k].lots == b.positions[k].lots
  {
    assert forall k :: k in a.positions <==> PositionOf(a, k).lots != 0;
    assert forall k :: k in b.positions <==> PositionOf(b, k).lots != 0;
    assert forall k :: k in a.positions.Keys <==> k in b.positions.Keys;
  }

  /** Two books with the same lots, marks and realized-less-open-cost have the same equity. */
  lemma SameEquity(a: State, b: State)
    requires Inv(a) && Inv(b) && a.marks == b.marks
    requires a.positions.Keys == b.positions.Keys
    requires forall k :: k in a.positions ==> a.positions[k].lots == b.positions[k].lots
    requires a.realized - OpenCost(a) == b.realized - OpenCost(b)
    ensures Equity(a) == Equity(b)
  {
    ValuesAdd(a.positions, MarkedPositions(a));
    ValuesAdd(b.positions, MarkedPositions(b));
    SameValue(MarkedPositions(a), MarkedPositions(b));
  }

  /** Path independence: permuting a run of fills, marks, clears and markouts changes neither the lots held
      nor the fees nor the markout totals, and total equity only through the marks it ends with, although
      it may change how equity splits into realized and unrealized. */
  lemma EquityPathIndependent(s: State, a: seq<Op>, b: seq<Op>)
    requires Inv(s) && multiset(a) == multiset(b)
    ensures var (sa, sb) := (Run(s, a), Run(s, b));
      && (sa.marks == sb.marks ==> Equity(sa) == Equity(sb))
      && sa.fees == sb.fees
      && sa.markoutCash == sb.markoutCash && sa.markoutQty == sb.markoutQty
      && sa.positions.Keys == sb.positions.Keys
      && forall k :: k in sa.positions ==> sa.positions[k].lots == sb.positions[k].lots
  {
    PermutedLots(s, a, b);
    InvRun(s, a);
    InvRun(s, b);
    CashConserved(s, a);
    CashConserved(s, b);
    SeqSumPermuted(a, b, TradeCash);
    SeqSumPermuted(a, b, FeeOf);
    MarkoutsAddUp(s, a);
    MarkoutsAddUp(s, b);
    SeqSumPermuted(a, b, MarkoutPnl);
    SeqSumPermuted(a, b, MarkoutLots);
    if Run(s, a).marks == Run(s, b).marks { SameEquity(Run(s, a), Run(s, b)); }
  }

  /** In particular, the order of fills alone never changes total equity. */
  lemma FillOrderIrrelevant(s: State, a: seq<Op>, b: seq<Op>)
    requires Inv(s) && multiset(a) == multiset(b)
    requires forall i :: 0 <= i < |a| ==> a[i].FillOp?
    ensures Equity(Run(s, a)) == Equity(Run(s, b))
  {
    forall i | 0 <= i < |b| ensures b[i].FillOp? { assert b[i] in multiset(a) && b[i] in a; }
    FillsKeepMarks(s, a);
    FillsKeepMarks(s, b);
    EquityPathIndependent(s, a, b);
  }

  lemma {:induction false} FillsKeepMarks(s: State, ops: seq<Op>)
    requires forall i :: 0 <= i < |ops| ==> ops[i].FillOp?
    ensures Run(s, ops).marks == s.marks
    decreases |ops|
  {
    if |ops| > 0 { FillsKeepMarks(s, ops[..|ops| - 1]); }
  }

  // ----- long/short mirror -----

  function MirrorPosition(p: Position): Position { Position(-p.lots, p.basis) }

  function Mirror(s: State): State {
    State(map k | k in s.positions :: MirrorPosition(s.positions[k]), s.marks,
          -s.realized, s.fees, -s.markoutCash, s.markoutQty)
  }

  function MirrorOp(op: Op): Op {
    match op
    case FillOp(symbol, isBid, price, qty, fee) => FillOp(symbol, !isBid, price, qty, fee)
    case MarkoutOp(isBid, price, qty, markPrice) => MarkoutOp(!isBid, price, qty, markPrice)
    case _ => op
  }

  function MirrorOps(ops: seq<Op>): seq<Op> { seq(|ops|, i requires 0 <= i < |ops| => MirrorOp(ops[i])) }

  function MirrorResult(r: (Position, int)): (Position, int) { (MirrorPosition(r.0), -r.1) }

  lemma MirrorFillPosition(p: Position, isBid: bool, price: int, qty: int)
    requires price > 0 && qty > 0
    ensures FillPosition(MirrorPosition(p), !isBid, price, qty) == MirrorResult(FillPosition(p, isBid, price, qty))
  {
  }

  lemma MirrorWith(positions: map<int, Position>, mirrored: map<int, Position>, symbol: int, p: Position)
    requires mirrored == map k | k in positions :: MirrorPosition(positions[k])
    ensures WithPosition(mirrored, symbol, MirrorPosition(p)) ==
      map k | k in WithPosition(positions, symbol, p) :: MirrorPosition(WithPosition(positions, symbol, p)[k])
  {
  }

  lemma MirrorBooked(s: State, symbol: int, r: (Position, int), fee: int)
    ensures Mirror(Booked(s, symbol, r, fee)) == Booked(Mirror(s), symbol, MirrorResult(r), fee)
  {
    MirrorWith(s.positions, Mirror(s).positions, symbol, r.0);
  }

  lemma MirrorOfPosition(s: State, symbol: int)
    ensures PositionOf(Mirror(s), symbol) == MirrorPosition(PositionOf(s, symbol))
  {
  }

  lemma MirrorGoodFill(s: State, symbol: int, isBid: bool, price: int, qty: int, fee: int)
    requires price > 0 && qty > 0
    ensures Fill(Mirror(s), symbol, !isBid, price, qty, fee) ==
      (Mirror(Fill(s, symbol, isBid, price, qty, fee).0), Accepted)
  {
    var p := PositionOf(s, symbol);
    MirrorOfPosition(s, symbol);
    MirrorFillPosition(p, isBid, price, qty);
    MirrorBooked(s, symbol, FillPosition(p, isBid, price, qty), fee);
  }

  lemma MirrorMarkout(s: State, op: Op)
    requires op.MarkoutOp?
    ensures Step(Mirror(s), MirrorOp(op)) == (Mirror(Step(s, op).0), Step(s, op).1)
  {
    var x := (op.markPrice - op.price) * op.qty * SCALE;
    assert x * Sign(!op.isBid) == -(x * Sign(op.isBid));
  }

  lemma MirrorStep(s: State, op: Op)
    ensures Step(Mirror(s), MirrorOp(op)) == (Mirror(Step(s, op).0), Step(s, op).1)
  {
    match op {
      case FillOp(symbol, isBid, price, qty, fee) =>
        if GoodFill(op) { MirrorGoodFill(s, symbol, isBid, price, qty, fee); }
      case MarkoutOp(_, _, _, _) => MirrorMarkout(s, op);
      case _ =>
    }
  }

  lemma {:induction false} UnrealizedMirrors(positions: map<int, Marked>, mirrored: map<int, Marked>)
    requires positions.Keys == mirrored.Keys
    requires forall k ::
      k in positions ==> mirrored[k] == Marked(MirrorPosition(positions[k].position), positions[k].mark)
    ensures MapSum(mirrored, UnrealizedOf) == -MapSum(positions, UnrealizedOf)
    decreases |positions|
  {
    if positions.Keys != {} {
      var k := Smallest(positions.Keys);
      MapSumRemove(positions, UnrealizedOf, k);
      MapSumRemove(mirrored, UnrealizedOf, k);
      var p := positions[k].position;
      assert positions[k].mark * Abs(p.lots) == positions[k].mark * Abs(-p.lots);
      UnrealizedMirrors(positions - {k}, mirrored - {k});
    } else {
      assert positions == map[] && mirrored == map[];
    }
  }

  /** Swapping the side of every fill and markout of a run negates lots, realized, unrealized and markout
      cash, and leaves cost bases, fees and marks as they were, truncation included. */
  lemma {:induction false} LongShortMirror(s: State, ops: seq<Op>)
    ensures Run(Mirror(s), MirrorOps(ops)) == Mirror(Run(s, ops))
    ensures MirroredPnl(Unrealized(Run(s, ops)), Unrealized(Run(Mirror(s), MirrorOps(ops))))
    decreases |ops|
  {
    hide Step, Mirror, Unrealized, MirrorOp;
    if |ops| > 0 {
      LongShortMirror(s, ops[..|ops| - 1]);
      assert MirrorOps(ops)[..|ops| - 1] == MirrorOps(ops[..|ops| - 1]);
      MirrorStep(Run(s, ops[..|ops| - 1]), ops[|ops| - 1]);
    }
    MirrorUnrealized(Run(s, ops));
  }

  predicate MirroredPnl(u: Option<int>, v: Option<int>) {
    if u.None? then v.None? else v == Some(-u.value)
  }

  lemma MirrorUnrealized(s: State)
    ensures MirroredPnl(Unrealized(s), Unrealized(Mirror(s)))
  {
    UnrealizedMirrors(MarkedPositions(s), MarkedPositions(Mirror(s)));
  }

  // ----- drift of the stored basis -----

  /** The life of a position since it was last opened from flat or by a reversal: its exact rational
      average-cost basis, the partial closes, and the lowest and highest opening price. */
  datatype Track = Track(exact: real, closes: nat, lo: int, hi: int)

  function TrackFill(t: Track, p: Position, isBid: bool, price: int, qty: int): Track
    requires price > 0 && qty > 0
  {
    if p.lots == 0 then Track(Cash(price, qty) as real, 0, price, price)
    else if SameDirection(p.lots, Signed(isBid, qty)) then
      t.(exact := t.exact + Cash(price, qty) as real, lo := Min(t.lo, price), hi := Max(t.hi, price))
    else if qty < Abs(p.lots) then
      t.(exact := t.exact * ((Abs(p.lots) - qty) as real) / (Abs(p.lots) as real), closes := t.closes + 1)
    else Track(Cash(price, qty - Abs(p.lots)) as real, 0, price, price)
  }

  function TrackRun(ops: seq<Op>, symbol: int): Track
    decreases |ops|
  {
    if |ops| == 0 then Track(0.0, 0, 0, 0) else
      var init, op := ops[..|ops| - 1], ops[|ops| - 1];
      if GoodFill(op) && op.symbol == symbol then
        TrackFill(TrackRun(init, symbol), PositionOf(Run(EMPTY, init), symbol), op.isBid, op.price, op.qty)
      else TrackRun(init, symbol)
  }

  /** At most one cash unit of drift per partial close, never below the exact basis, and the basis
      stays within the range of prices paid. */
  ghost predicate Drift(t: Track, p: Position) {
    && 0.0 <= p.basis as real - t.exact <= t.closes as real
    && (t.closes > 0 ==> p.basis as real - t.exact < t.closes as real)
    && Cash(t.lo, Abs(p.lots)) <= p.basis <= Cash(t.hi, Abs(p.lots))
    && 0 < t.lo <= t.hi
  }

  lemma CashMonotone(p: int, q: int, lots: int)
    requires p <= q && lots >= 0
    ensures Cash(p, lots) <= Cash(q, lots)
  {
    MulMonotone(p, q, lots);
  }

  /** Rational bookkeeping of a partial close: the kept basis is the exact share plus less than one unit,
      and the drift carried over shrinks with the position. */
  lemma DriftOfClose(basis: int, kept: int, exact: real, lots: int, left: int, closes: nat)
    requires 0 < left < lots
    requires basis * left <= kept * lots < basis * left + lots
    requires 0.0 <= basis as real - exact <= closes as real
    ensures 0.0 <= kept as real - exact * (left as real) / (lots as real) < (closes + 1) as real
  {
    IntProductAsReal(basis, left);
    IntProductAsReal(kept, lots);
    var share := exact * (left as real) / (lots as real);
    assert share * (lots as real) == exact * (left as real);
    DriftCore(kept as real, basis as real, exact, share, left as real, lots as real, closes as real);
  }

  lemma DriftCore(kept: real, basis: real, exact: real, share: real, m: real, l: real, c: real)
    requires 0.0 < m < l && 0.0 <= basis - exact <= c
    requires Times(basis, m) <= Times(kept, l) < Times(basis, m) + l
    requires Times(share, l) == Times(exact, m)
    ensures 0.0 <= kept - share < c + 1.0
  {
    hide Times;
    TimesMonotone(exact, basis, m);
    TimesMonotone(basis, exact + c, m);
    TimesDistributes(exact, c, m);
    TimesMonotoneRight(c, m, l);
    TimesDistributes(share, c + 1.0, l);
    TimesDistributes(c, 1.0, l);
    TimesOne(l);
    TimesCancel(share, kept, l);
    TimesCancel(kept, share + (c + 1.0), l);
  }

  /** The price range of a partial close: the kept basis stays between the scaled extremes. */
  lemma RangeOfClose(basis: int, kept: int, lo: int, hi: int, lots: int, left: int)
    requires 0 < left < lots
    requires basis * left <= kept * lots < basis * left + lots
    requires Cash(lo, lots) <= basis <= Cash(hi, lots)
    ensures Cash(lo, left) <= kept <= Cash(hi, left)
  {
    assert Cash(lo, lots) * left == Cash(lo, left) * lots by { CashSwap(lo, lots, left); }
    assert Cash(hi, lots) * left == Cash(hi, left) * lots by { CashSwap(hi, lots, left); }
    MulMonotone(Cash(lo, lots), basis, left);
    MulMonotone(basis, Cash(hi, lots), left);
    IntCancel(Cash(lo, left), kept, lots);
    IntCancelUp(kept, Cash(hi, left), lots);
  }

  lemma CashSwap(price: int, a: int, b: int)
    ensures Cash(price, a) * b == Cash(price, b) * a
  {
    assert (price * a * SCALE) * b == price * SCALE * (a * b);
    assert (price * b * SCALE) * a == price * SCALE * (a * b);
  }

  lemma DriftOfAdd(t: Track, p: Position, isBid: bool, price: int, qty: int)
    requires price > 0 && qty > 0 && Drift(t, p)
    requires SameDirection(p.lots, Signed(isBid, qty))
    ensures Drift(TrackFill(t, p, isBid, price, qty), FillPosition(p, isBid, price, qty).0)
  {
    var lots, lo, hi := Abs(p.lots), Min(t.lo, price), Max(t.hi, price);
    CashSplits(lo, lots, qty);
    CashSplits(hi, lots, qty);
    CashMonotone(lo, t.lo, lots);
    CashMonotone(lo, price, qty);
    CashMonotone(t.hi, hi, lots);
    CashMonotone(price, hi, qty);
  }

  lemma DriftOfPartialClose(t: Track, p: Position, isBid: bool, price: int, qty: int)
    requires price > 0 && qty > 0 && Drift(t, p) && p.basis >= 0
    requires p.lots != 0 && !SameDirection(p.lots, Signed(isBid, qty)) && qty < Abs(p.lots)
    ensures Drift(TrackFill(t, p, isBid, price, qty), FillPosition(p, isBid, price, qty).0)
  {
    hide TrackFill, FillPosition, Drift;
    var kept := p.basis - TruncDiv(p.basis * qty, Abs(p.lots));
    PartialShare(p.basis, Abs(p.lots), qty);
    CloseKeeps(p, isBid, price, qty, kept);
    CloseTracks(t, p, isBid, price, qty);
    var (p', _) := FillPosition(p, isBid, price, qty);
    PartialCloseCore(t, p, Abs(p.lots) - qty, kept, TrackFill(t, p, isBid, price, qty), p');
  }

  lemma CloseKeeps(p: Position, isBid: bool, price: int, qty: int, kept: int)
    requires price > 0 && qty > 0 && p.lots != 0 && !SameDirection(p.lots, Signed(isBid, qty)) && qty < Abs(p.lots)
    requires kept == p.basis - TruncDiv(p.basis * qty, Abs(p.lots))
    ensures var p' := FillPosition(p, isBid, price, qty).0;
      p'.basis == kept && Abs(p'.lots) == Abs(p.lots) - qty
  {
  }

  lemma CloseTracks(t: Track, p: Position, isBid: bool, price: int, qty: int)
    requires price > 0 && qty > 0 && p.lots != 0 && !SameDirection(p.lots, Signed(isBid, qty)) && qty < Abs(p.lots)
    ensures TrackFill(t, p, isBid, price, qty) ==
      Track(t.exact * ((Abs(p.lots) - qty) as real) / (Abs(p.lots) as real), t.closes + 1, t.lo, t.hi)
  {
  }

  lemma PartialCloseCore(t: Track, p: Position, left: int, kept: int, t': Track, p': Position)
    requires Drift(t, p) && 0 < left < Abs(p.lots)
    requires p.basis * left <= kept * Abs(p.lots) < p.basis * left + Abs(p.lots)
    requires p'.basis == kept && Abs(p'.lots) == left
    requires t' == Track(t.exact * (left as real) / (Abs(p.lots) as real), t.closes + 1, t.lo, t.hi)
    ensures Drift(t', p')
  {
    DriftOfClose(p.basis, kept, t.exact, Abs(p.lots), left, t.closes);
    RangeOfClose(p.basis, kept, t.lo, t.hi, Abs(p.lots), left);
    DriftFromParts(t', p', kept, left);
  }

  lemma DriftFromParts(t: Track, p: Position, kept: int, left: int)
    requires p.basis == kept && Abs(p.lots) == left
    requires t.closes > 0 && 0.0 <= kept as real - t.exact < t.closes as real
    requires Cash(t.lo, left) <= kept <= Cash(t.hi, left) && 0 < t.lo <= t.hi
    ensures Drift(t, p)
  {
  }

  lemma TrackFillDrift(t: Track, p: Position, isBid: bool, price: int, qty: int)
    requires price > 0 && qty > 0 && p.basis >= 0
    requires p.lots != 0 ==> Drift(t, p)
    ensures var p' := FillPosition(p, isBid, price, qty).0;
      p'.lots != 0 ==> Drift(TrackFill(t, p, isBid, price, qty), p')
  {
    if SameDirection(p.lots, Signed(isBid, qty)) {
      DriftOfAdd(t, p, isBid, price, qty);
    } else if p.lots != 0 && qty < Abs(p.lots) {
      DriftOfPartialClose(t, p, isBid, price, qty);
    }
  }

  /** On every run, for every open position: since it was last flat or reversed, k partial closes leave
      the stored basis at least the exact rational one and less than k cash units above it (equal to
      it when k is 0), and it stays between |lots| times the lowest and highest opening price. */
  lemma {:induction false} BasisDriftBounded(ops: seq<Op>, symbol: int)
    ensures symbol in Run(EMPTY, ops).positions ==> Drift(TrackRun(ops, symbol), Run(EMPTY, ops).positions[symbol])
    decreases |ops|
  {
    if |ops| > 0 {
      var init, op := ops[..|ops| - 1], ops[|ops| - 1];
      BasisDriftBounded(init, symbol);
      assert Inv(EMPTY);
      InvRun(EMPTY, init);
      if GoodFill(op) && op.symbol == symbol {
        TrackFillDrift(TrackRun(init, symbol), PositionOf(Run(EMPTY, init), symbol), op.isBid, op.price, op.qty);
      }
    }
  }

  // ----- what each operation does, and when it refuses -----

  /** Division toward zero, for either sign of the numerator. */
  lemma TruncDivMeaning(n: int, d: int)
    requires d > 0
    ensures Abs(TruncDiv(n, d) * d) <= Abs(n) < Abs(TruncDiv(n, d) * d) + d
    ensures TruncDiv(n, d) * n >= 0
  {
    Floor(Abs(n), d);
    var q := Abs(n) / d;
    assert q * d >= 0 by { MulMonotone(0, q, d); }
    assert (-q) * d == -(q * d);
    assert q * Abs(n) >= 0 by { MulMonotone(0, q, Abs(n)); }
    assert (-q) * n == q * (-n);
  }

  /** One symbol's position may have changed, and no other's. */
  ghost predicate OthersKept(before: map<int, Position>, after: map<int, Position>, symbol: int) {
    forall k :: k != symbol ==> (k in before <==> k in after) && (k in before ==> after[k] == before[k])
  }

  /** A fill is accepted exactly for a positive price and quantity. It moves the lots of its symbol by its
      signed quantity, books its fee, touches no other symbol, no mark and no markout; from flat it opens at
      price times quantity times a million. */
  lemma FillMeaning(s: State, symbol: int, isBid: bool, price: int, qty: int, fee: int)
    requires Inv(s)
    ensures var (s', d) := Fill(s, symbol, isBid, price, qty, fee);
      && (d.Accepted? <==> price > 0 && qty > 0)
      && (d == Rejected(InvalidFillPrice) <==> price <= 0)
      && (d == Rejected(InvalidFillQuantity) <==> price > 0 && qty <= 0)
      && (d.Rejected? ==> s' == s)
      && s'.marks == s.marks && s'.markoutCash == s.markoutCash && s'.markoutQty == s.markoutQty
      && OthersKept(s.positions, s'.positions, symbol)
      && (d.Accepted? ==> s'.fees == s.fees + fee)
      && (d.Accepted? ==> PositionOf(s', symbol).lots == PositionOf(s, symbol).lots + (if isBid then qty else -qty))
      && (d.Accepted? && symbol !in s.positions ==> PositionOf(s', symbol).basis == price * qty * 1_000_000)
      && (symbol in s'.positions ==> s'.positions[symbol].lots != 0)
  {
    if price > 0 && qty > 0 { FillConserves(PositionOf(s, symbol), isBid, price, qty); }
  }

  /** A mark is accepted exactly for a positive price, and is then the mark of its symbol and nothing else. */
  lemma MarkMeaning(s: State, symbol: int, price: int)
    ensures var (s', d) := Mark(s, symbol, price);
      && (d == if price > 0 then Accepted else Rejected(InvalidMarkPrice))
      && s'.positions == s.positions && s'.realized == s.realized && s'.fees == s.fees
      && s'.markoutCash == s.markoutCash && s'.markoutQty == s.markoutQty
      && forall k :: MarkOf(s', k) == if k == symbol && price > 0 then Some(price) else MarkOf(s, k)
  {
  }

  lemma ClearMarkMeaning(s: State, symbol: int)
    ensures var s' := ClearMark(s, symbol);
      && s'.positions == s.positions && s'.realized == s.realized && s'.fees == s.fees
      && s'.markoutCash == s.markoutCash && s'.markoutQty == s.markoutQty
      && forall k :: MarkOf(s', k) == if k == symbol then None else MarkOf(s, k)
  {
  }

  /** A markout is accepted exactly for positive prices and quantity; it adds quantity times the price move, in
      the direction of the side and scaled by a million, to the markout cash, and touches nothing else. */
  lemma MarkoutMeaning(s: State, isBid: bool, fillPrice: int, qty: int, markPrice: int)
    ensures var (s', d) := Markout(s, isBid, fillPrice, qty, markPrice);
      && (d == Rejected(InvalidMarkoutPrice) <==> fillPrice <= 0 || markPrice <= 0)
      && (d == Rejected(InvalidMarkoutQuantity) <==> fillPrice > 0 && markPrice > 0 && qty <= 0)
      && (d == Accepted <==> fillPrice > 0 && markPrice > 0 && qty > 0)
      && (d.Rejected? ==> s' == s)
      && s'.positions == s.positions && s'.marks == s.marks && s'.realized == s.realized && s'.fees == s.fees
      && (d.Accepted? ==> s'.markoutQty == s.markoutQty + qty)
      && var gain := (markPrice - fillPrice) * qty * 1_000_000;
      && (d.Accepted? ==> s'.markoutCash == s.markoutCash + (if isBid then gain else -gain))
  {
    var x := (markPrice - fillPrice) * qty * SCALE;
    assert x * Sign(isBid) == if isBid then x else -x;
  }

  /** Unrealized PnL is missing exactly while some open position has no mark. */
  lemma UnrealizedMissing(s: State)
    requires Inv(s)
    ensures Unrealized(s).None? <==> exists k :: k in s.positions && k !in s.marks
  {
  }
}

/** Specification of fixed-point fill accounting: cost basis with truncating division, realized and
    unrealized PnL, fees and signed markouts. */
module Accounting {
  import opened Common
  import opened Arith

  /** Cash micro-units per tick-lot. */
  const SCALE := 1_000_000

  datatype Position = Position(lots: int, basis: int)

  datatype State = State(
    positions: map<int, Position>, marks: map<int, int>,
    realized: int, fees: int, markoutCash: int, markoutQty: int)

  const EMPTY := State(map[], map[], 0, 0, 0, 0)

  const FLAT := Position(0, 0)

  /** Integer division toward zero, whatever the sign of the numerator. */
  function TruncDiv(numerator: int, denominator: int): int
    requires denominator > 0
  {
    var quotient := Abs(numerator) / denominator;
    if numerator < 0 then -quotient else quotient
  }

  function Sign(isBid: bool): int { if isBid then 1 else -1 }

  function Cash(price: int, qty: int): int { price * qty * SCALE }

  /** The product test for "adds to the position". */
  predicate SameDirection(lots: int, signed: int)
    ensures SameDirection(lots, signed) <==> (lots > 0 && signed > 0) || (lots < 0 && signed < 0)
  {
    if signed != 0 then SameSign(lots, signed); lots * signed > 0 else lots * signed > 0
  }

  /** One fill against one position: the new position and the PnL it realizes. */
  function FillPosition(p: Position, isBid: bool, price: int, qty: int): (Position, int) {
    var signed := Signed(isBid, qty);
    if p.lots == 0 then (Position(signed, Cash(price, qty)), 0)
    else if SameDirection(p.lots, signed) then (Position(p.lots + signed, p.basis + Cash(price, qty)), 0)
    else
      var close := Min(Abs(p.lots), qty);
      var share := TruncDiv(p.basis * close, Abs(p.lots));
      var realized := if p.lots > 0 then Cash(price, close) - share else share - Cash(price, close);
      var keep := Abs(p.lots) - close;
      var incoming := qty - close;
      if keep > 0 then (Position((if p.lots > 0 then 1 else -1) * keep, p.basis - share), realized)
      else if incoming > 0 then (Position(Sign(isBid) * incoming, Cash(price, incoming)), realized)
      else (FLAT, realized)
  }

  function PositionOf(s: State, symbol: int): Position {
    if symbol in s.positions then s.positions[symbol] else FLAT
  }

  /** Flat positions are dropped from the dictionary. */
  function WithPosition(positions: map<int, Position>, symbol: int, p: Position): map<int, Position> {
    if p.lots == 0 then positions - {symbol} else positions[symbol := p]
  }

  function Booked(s: State, symbol: int, result: (Position, int), fee: int): State {
    s.(positions := WithPosition(s.positions, symbol, result.0),
       realized := s.realized + result.1, fees := s.fees + fee)
  }

  function Fill(s: State, symbol: int, isBid: bool, price: int, qty: int, fee: int): (State, Decision) {
    if price <= 0 then (s, Rejected(InvalidFillPrice))
    else if qty <= 0 then (s, Rejected(InvalidFillQuantity))
    else (Booked(s, symbol, FillPosition(PositionOf(s, symbol), isBid, price, qty), fee), Accepted)
  }

  function Mark(s: State, symbol: int, price: int): (State, Decision) {
    if price <= 0 then (s, Rejected(InvalidMarkPrice)) else (s.(marks := s.marks[symbol := price]), Accepted)
  }

  function ClearMark(s: State, symbol: int): State { s.(marks := s.marks - {symbol}) }

  function Markout(s: State, isBid: bool, fillPrice: int, qty: int, markPrice: int): (State, Decision) {
    if fillPrice <= 0 || markPrice <= 0 then (s, Rejected(InvalidMarkoutPrice))
    else if qty <= 0 then (s, Rejected(InvalidMarkoutQuantity))
    else (s.(markoutCash := s.markoutCash + (markPrice - fillPrice) * qty * SCALE * Sign(isBid),
             markoutQty := s.markoutQty + qty), Accepted)
  }

  datatype Op =
    | FillOp(symbol: int, isBid: bool, price: int, qty: int, fee: int)
    | MarkOp(symbol: int, price: int) | ClearMarkOp(symbol: int)
    | MarkoutOp(isBid: bool, price: int, qty: int, markPrice: int)

  function Step(s: State, op: Op): (State, Decision) {
    match op
    case FillOp(symbol, isBid, price, qty, fee) => Fill(s, symbol, isBid, price, qty, fee)
    case MarkOp(symbol, price) => Mark(s, symbol, price)
    case ClearMarkOp(symbol) => (ClearMark(s, symbol), Accepted)
    case MarkoutOp(isBid, price, qty, markPrice) => Markout(s, isBid, price, qty, markPrice)
  }

  /** The state after a run; the last operation is the outermost step. */
  function Run(s: State, ops: seq<Op>): State
    decreases |ops|
  {
    if |ops| == 0 then s else Step(Run(s, ops[..|ops| - 1]), ops[|ops| - 1]).0
  }

  // ----- read-only properties -----

  datatype Marked = Marked(position: Position, mark: int)

  function MarkedPositions(s: State): map<int, Marked> {
    map k | k in s.positions :: Marked(s.positions[k], if k in s.marks then s.marks[k] else 0)
  }

  function UnrealizedOf(m: Marked): int {
    var p := m.position;
    if p.lots == 0 then 0
    else if p.lots > 0 then m.mark * p.lots * SCALE - p.basis
    else p.basis - m.mark * Abs(p.lots) * SCALE
  }

  predicate ValuationComplete(s: State) { forall k :: k in s.positions && s.positions[k].lots != 0 ==> k in s.marks }

  /** None while an open position has no mark. */
  function Unrealized(s: State): Option<int> {
    if ValuationComplete(s) then Some(MapSum(MarkedPositions(s), UnrealizedOf)) else None
  }

  ghost predicate Inv(s: State) {
    forall k :: k in s.positions ==> s.positions[k].lots != 0 && s.positions[k].basis >= 0
  }
}

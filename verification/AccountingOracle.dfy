/** The fill-accounting ledger as the mutable object it is: position records updated in place. */
module AccountingOracles {
  import opened Common
  import opened Text
  import opened Accounting
  import Laws = AccountingLaws
  import Canonical

  class AccountingPosition {
    var lots: int
    var basis: int

    constructor ()
      ensures Value() == FLAT
    {
      lots, basis := 0, 0;
    }

    function Value(): Position
      reads this
    {
      Position(lots, basis)
    }

    /** Opens, extends, closes or reverses the position in place; returns the PnL realized. */
    method Apply(isBid: bool, price: int, qty: int) returns (realized: int)
      requires qty > 0
      modifies this
      ensures (Value(), realized) == FillPosition(old(Value()), isBid, price, qty)
    {
      var signed := if isBid then qty else -qty;
      realized := 0;
      if lots == 0 {
        lots := signed;
        basis := price * qty * SCALE;
      } else if SameDirection(lots, signed) {
        basis := basis + price * qty * SCALE;
        lots := lots + signed;
      } else {
        var close := Min(Abs(lots), qty);
        var share := TruncDiv(basis * close, Abs(lots));
        var cash := price * close * SCALE;
        realized := if lots > 0 then cash - share else share - cash;
        basis := basis - share;
        var keep := Abs(lots) - close;
        var incoming := qty - close;
        if keep > 0 {
          lots := (if lots > 0 then 1 else -1) * keep;
        } else if incoming > 0 {
          lots := (if isBid then 1 else -1) * incoming;
          basis := price * incoming * SCALE;
        } else {
          lots, basis := 0, 0;
        }
      }
    }
  }

  class AccountingMarkoutOracle {
    var positions: map<int, AccountingPosition>
    var marks: map<int, int>
    var realized: int
    var fees: int
    var markoutCash: int
    var markoutQty: int

    function State(): State
      reads this, positions.Values
    {
      Accounting.State(map k | k in positions :: positions[k].Value(), marks, realized, fees, markoutCash, markoutQty)
    }

    ghost predicate Separate()
      reads this
    {
      forall i, j :: i in positions && j in positions && i != j ==> positions[i] != positions[j]
    }

    ghost predicate Valid()
      reads this, positions.Values
    {
      Separate() && Inv(State())
    }

    lemma Holds(values: map<int, Position>)
      requires values.Keys == positions.Keys && forall k :: k in positions ==> positions[k].Value() == values[k]
      ensures State().positions == values
    {
      var m := State().positions;
      assert forall k :: k in m <==> k in values;
      assert forall k :: k in m ==> m[k] == values[k];
    }

    lemma Settled(before: map<int, Position>, symbol: int, p: Position)
      requires positions.Keys == if p.lots == 0 then before.Keys - {symbol} else before.Keys + {symbol}
      requires forall k ::
        k in positions ==> positions[k].Value() == if k == symbol then p else if k in before then before[k] else FLAT
      ensures State().positions == WithPosition(before, symbol, p)
    {
      Holds(WithPosition(before, symbol, p));
    }

    constructor ()
      ensures Valid() && State() == EMPTY && positions == map[]
      ensures State() == Accounting.State(map[], map[], 0, 0, 0, 0)
    {
      positions, marks, realized, fees, markoutCash, markoutQty := map[], map[], 0, 0, 0, 0;
    }

    method Mark(symbol: int, price: int) returns (d: Decision)
      requires Valid()
      modifies this
      ensures Valid() && positions == old(positions)
      ensures (State(), d) == Accounting.Mark(old(State()), symbol, price)
    {
      ghost var was := State();
      if price <= 0 { return Rejected(InvalidMarkPrice); }
      marks := marks[symbol := price];
      Holds(was.positions);
      return Accepted;
    }

    method ClearMark(symbol: int) returns (d: Decision)
      requires Valid()
      modifies this
      ensures Valid() && positions == old(positions) && d == Accepted
      ensures State() == Accounting.ClearMark(old(State()), symbol)
    {
      ghost var was := State();
      marks := marks - {symbol};
      Holds(was.positions);
      return Accepted;
    }

    method Fill(symbol: int, isBid: bool, price: int, qty: int, fee: int) returns (d: Decision)
      requires Valid()
      modifies this, positions.Values
      ensures Valid() && fresh(positions.Values - old(positions.Values))
      ensures (State(), d) == Accounting.Fill(old(State()), symbol, isBid, price, qty, fee)
    {
      ghost var was := State();
      Laws.InvStep(was, FillOp(symbol, isBid, price, qty, fee));
      hide Inv, FillPosition, WithPosition;
      if price <= 0 { return Rejected(InvalidFillPrice); }
      if qty <= 0 { return Rejected(InvalidFillQuantity); }
      var gain := Post(symbol, isBid, price, qty);
      realized := realized + gain;
      fees := fees + fee;
      Holds(WithPosition(was.positions, symbol, FillPosition(PositionOf(was, symbol), isBid, price, qty).0));
      return Accepted;
    }

    /** The position part of a fill: finds or creates the record, applies the fill, drops it when flat. */
    method Post(symbol: int, isBid: bool, price: int, qty: int) returns (gain: int)
      requires Separate() && qty > 0
      modifies this`positions, positions.Values
      ensures Separate() && fresh(positions.Values - old(positions.Values))
      ensures var r := FillPosition(PositionOf(old(State()), symbol), isBid, price, qty);
        gain == r.1 && State().positions == WithPosition(old(State()).positions, symbol, r.0)
    {
      hide FillPosition;
      ghost var was := State();
      if symbol !in positions {
        var flat := new AccountingPosition();
        positions := positions[symbol := flat];
      }
      var position := positions[symbol];
      gain := position.Apply(isBid, price, qty);
      ghost var p := position.Value();
      if position.lots == 0 { positions := positions - {symbol}; }
      Settled(was.positions, symbol, p);
    }

    method Markout(isBid: bool, fillPrice: int, qty: int, markPrice: int) returns (d: Decision)
      requires Valid()
      modifies this
      ensures Valid() && positions == old(positions)
      ensures (State(), d) == Accounting.Markout(old(State()), isBid, fillPrice, qty, markPrice)
    {
      ghost var was := State();
      if fillPrice <= 0 || markPrice <= 0 { return Rejected(InvalidMarkoutPrice); }
      if qty <= 0 { return Rejected(InvalidMarkoutQuantity); }
      var direction := if isBid then 1 else -1;
      markoutCash := markoutCash + (markPrice - fillPrice) * qty * SCALE * direction;
      markoutQty := markoutQty + qty;
      Holds(was.positions);
      return Accepted;
    }

    method CanonicalBytes() returns (bytes: string)
      requires Valid()
      ensures bytes == Canonical.AccountingBytes(State())
    {
      hide Inv, Render, Line, Str, Canonical.AccountingBytes;
      bytes := MarkBytes();
      ghost var head := Canonical.AccountingHead(State()) + Canonical.Sorted(marks, Canonical.MarkRecord);
      var symbols := SortedIds(positions.Keys);
      ghost var values := State().positions;
      assert values.Keys == positions.Keys;
      ghost var section := Canonical.Section(values, symbols, Canonical.PositionRecord);
      RenderStart(head, section);
      for i := 0 to |symbols|
        invariant bytes == Render(head + section[..i])
      {
        var symbol := symbols[i];
        var p := positions[symbol];
        bytes := bytes + Line(["position", Str(symbol), Str(p.lots), Str(p.basis)]);
        assert section[i] == Canonical.PositionRecord(symbol, values[symbol]);
        RenderNext(head, section, i);
      }
      Canonical.AccountingRecordsInOrder(State());
    }

    /** The totals and mark pieces of the canonical bytes. */
    method MarkBytes() returns (bytes: string)
      ensures bytes == Render(Canonical.AccountingHead(State()) + Canonical.Sorted(marks, Canonical.MarkRecord))
    {
      hide Render, Line, Str;
      var a, b, c := ["realized", Str(realized)], ["fees", Str(fees)], ["markout", Str(markoutCash), Str(markoutQty)];
      bytes := Line(a) + Line(b) + Line(c);
      RenderThree(a, b, c);
      var symbols := SortedIds(marks.Keys);
      ghost var section := Canonical.Section(marks, symbols, Canonical.MarkRecord);
      RenderStart([a, b, c], section);
      for i := 0 to |symbols|
        invariant bytes == Render([a, b, c] + section[..i])
      {
        var symbol := symbols[i];
        bytes := bytes + Line(["mark", Str(symbol), Str(marks[symbol])]);
        assert section[i] == Canonical.MarkRecord(symbol, marks[symbol]);
        RenderNext([a, b, c], section, i);
      }
    }
  }
}

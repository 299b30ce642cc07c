/** How conservative the notional ledger is. The ledger charges every outstanding order in full on top of the
    gross inventory; this module computes what the outstanding orders can really do to the gross inventory,
    and so says exactly which refusals were not needed. */
module PortfolioExposure {
  import opened Common
  import opened Reservation
  import opened Portfolio

  // ----- the world without the limit test -----

  /** A fill as it happens outside, without the ledger's own limit test. */
  function FreeFill(s: State, id: int, units: int): State {
    if id in s.orders && IsOutstanding(s.orders[id].state) && 0 < units <= s.orders[id].remaining then
      var o := s.orders[id];
      s.(inventory := WithInventory(s.inventory, o.symbol, NextInventory(s, o, units)),
         orders := s.orders[id := FilledBy(o, units)])
    else s
  }

  function FreeStep(s: State, op: Op): State {
    if op.FillOp? then FreeFill(s, op.id, op.units) else Step(s, op).0
  }

  function FreeRun(s: State, ops: seq<Op>): State
    decreases |ops|
  {
    if |ops| == 0 then s else FreeRun(FreeStep(s, ops[0]), ops[1..])
  }

  /** No new reservations and no external re-marking of inventory. */
  ghost predicate OrdersOnly(ops: seq<Op>) {
    forall i :: 0 <= i < |ops| ==> !ops[i].ReserveOp? && !ops[i].SetInventoryOp?
  }

  /** In the states the ledger reaches the limit test changes nothing, so free runs are its own runs. */
  lemma {:induction false} FreeIsReal(s: State, ops: seq<Op>)
    requires Inv(s)
    ensures FreeRun(s, ops) == Run(s, ops)
    decreases |ops|
  {
    if |ops| > 0 {
      FreeStepIsReal(s, ops[0]);
      InvStep(s, ops[0]);
      hide Inv, Step, FreeStep;
      FreeIsReal(Step(s, ops[0]).0, ops[1..]);
    }
  }

  lemma FreeStepIsReal(s: State, op: Op)
    requires Inv(s)
    ensures FreeStep(s, op) == Step(s, op).0
  {
    if op.FillOp? && op.id in s.orders && IsOutstanding(s.orders[op.id].state)
      && 0 < op.units <= s.orders[op.id].remaining {
      FillFreesTwiceTheNetting(s, op.id, op.units);
    }
  }

  // ----- what one symbol can still become -----

  /** Notional an order can still add on one side of one symbol. */
  function UnitsOn(symbol: int, isBid: bool): Order -> int {
    (o: Order) => if o.symbol == symbol && o.isBid == isBid then Held(o) else 0
  }

  function Standing(s: State, symbol: int, isBid: bool): int { MapSum(s.orders, UnitsOn(symbol, isBid)) }

  /** Inventory of a symbol once everything standing on one side of it is filled. */
  function Extreme(s: State, symbol: int, isBid: bool): int {
    InventoryOf(s.inventory, symbol) + Signed(isBid, Standing(s, symbol, isBid))
  }

  /** The largest magnitude the inventory of a symbol can reach. */
  function WorstOf(s: State, symbol: int): int { Max(Abs(Extreme(s, symbol, true)), Abs(Extreme(s, symbol, false))) }

  function WorstOver(s: State, symbols: set<int>): int {
    if symbols == {} then 0 else
      var k := Smallest(symbols);
      WorstOf(s, k) + WorstOver(s, symbols - {k})
  }

  function Symbols(s: State): set<int> { s.inventory.Keys + set id | id in s.orders :: s.orders[id].symbol }

  /** The largest gross inventory the outstanding orders can lead to. */
  function WorstGross(s: State): int { WorstOver(s, Symbols(s)) }

  ghost predicate Within(s: State, symbols: set<int>) { Symbols(s) <= symbols }

  lemma StandingNonNegative(s: State, symbol: int, isBid: bool)
    requires WellFormed(s)
    ensures Standing(s, symbol, isBid) >= 0
  {
    assert forall id :: id in s.orders ==> WellFormedOrder(s.orders[id]);
    MapSumNonNegative(s.orders, UnitsOn(symbol, isBid));
  }

  lemma StandingUpdate(s: State, id: int, o: Order, symbol: int, isBid: bool)
    requires id in s.orders
    ensures MapSum(s.orders[id := o], UnitsOn(symbol, isBid)) ==
      Standing(s, symbol, isBid) - UnitsOn(symbol, isBid)(s.orders[id]) + UnitsOn(symbol, isBid)(o)
  {
    MapSumUpdate(s.orders, UnitsOn(symbol, isBid), id, o);
  }

  // ----- no free run gets past the worst case -----

  lemma FreeKeeps(s: State, op: Op, symbols: set<int>)
    requires WellFormed(s) && Within(s, symbols) && !op.ReserveOp? && !op.SetInventoryOp?
    ensures WellFormed(FreeStep(s, op)) && Within(FreeStep(s, op), symbols)
  {
    var s' := FreeStep(s, op);
    forall id | id in s'.orders ensures s'.orders[id].symbol in symbols && WellFormedOrder(s'.orders[id]) {
      assert id in s.orders && s.orders[id].symbol == s'.orders[id].symbol;
      assert s.orders[id].symbol in Symbols(s) && WellFormedOrder(s.orders[id]);
    }
    if op.FillOp? && op.id in s.orders { assert s.orders[op.id].symbol in Symbols(s); }
  }

  /** Cancels and epochs only take orders away; a fill moves one extreme of its symbol towards the other. */
  lemma WorstShrinks(s: State, op: Op, symbol: int)
    requires WellFormed(s) && !op.ReserveOp? && !op.SetInventoryOp?
    ensures WorstOf(FreeStep(s, op), symbol) <= WorstOf(s, symbol)
  {
    forall isBid ensures Standing(s, symbol, isBid) >= 0 { StandingNonNegative(s, symbol, isBid); }
    match op {
      case RequestCancelOp(id) =>
        if id in s.orders && s.orders[id].state.Live? { StateChange(s, id, PendingCancel, symbol); }
      case CancelAckOp(id) => if id in s.orders { StateChange(s, id, Cancelled, symbol); }
      case FillOp(id, units) => if id in s.orders { FillShrinks(s, id, units, symbol); }
      case InvalidateOp =>
        MapSumZero(Invalidate(s).orders, UnitsOn(symbol, true));
        MapSumZero(Invalidate(s).orders, UnitsOn(symbol, false));
        InsideExtremes(s, symbol, 0, 0, 0);
    }
  }

  lemma StateChange(s: State, id: int, st: OrderState, symbol: int)
    requires WellFormed(s) && id in s.orders && (IsOutstanding(st) ==> IsOutstanding(s.orders[id].state))
    ensures WorstOf(WithState(s, id, st), symbol) <= WorstOf(s, symbol)
  {
    var o := s.orders[id].(state := st);
    assert WellFormedOrder(s.orders[id]);
    forall isBid ensures 0 <= Standing(WithState(s, id, st), symbol, isBid) <= Standing(s, symbol, isBid) {
      StandingUpdate(s, id, o, symbol, isBid);
      StandingNonNegative(s, symbol, isBid);
      MapSumNonNegative(s.orders, UnitsOn(symbol, isBid));
    }
    var s' := WithState(s, id, st);
    InsideExtremes(s, symbol, 0, Standing(s', symbol, true), Standing(s', symbol, false));
  }

  /** An interval inside the old one has no larger endpoint. */
  lemma InsideExtremes(s: State, symbol: int, moved: int, bids: int, asks: int)
    requires bids >= 0 && asks >= 0
    requires moved + bids <= Standing(s, symbol, true) && moved - asks >= -Standing(s, symbol, false)
    ensures var held := InventoryOf(s.inventory, symbol) + moved;
      Max(Abs(held + bids), Abs(held - asks)) <= WorstOf(s, symbol)
  {
  }

  lemma FillShrinks(s: State, id: int, units: int, symbol: int)
    requires WellFormed(s) && id in s.orders
    ensures WorstOf(FreeFill(s, id, units), symbol) <= WorstOf(s, symbol)
  {
    var o := s.orders[id];
    if IsOutstanding(o.state) && 0 < units <= o.remaining {
      var s' := FreeFill(s, id, units);
      FillStanding(s, id, units, symbol, true);
      FillStanding(s, id, units, symbol, false);
      InsideExtremes(s, symbol, if o.symbol == symbol then Signed(o.isBid, units) else 0,
                     Standing(s', symbol, true), Standing(s', symbol, false));
    }
  }

  lemma FillStanding(s: State, id: int, units: int, symbol: int, isBid: bool)
    requires WellFormed(s) && id in s.orders && IsOutstanding(s.orders[id].state) && 0 < units <= s.orders[id].remaining
    ensures Standing(FreeFill(s, id, units), symbol, isBid) == Standing(s, symbol, isBid) -
      (if s.orders[id].symbol == symbol && s.orders[id].isBid == isBid then units else 0)
    ensures Standing(FreeFill(s, id, units), symbol, isBid) >= 0 && Standing(s, symbol, isBid) >= 0
    ensures InventoryOf(FreeFill(s, id, units).inventory, symbol) == InventoryOf(s.inventory, symbol) +
      (if s.orders[id].symbol == symbol then Signed(s.orders[id].isBid, units) else 0)
  {
    StandingUpdate(s, id, FilledBy(s.orders[id], units), symbol, isBid);
    StandingNonNegative(s, symbol, isBid);
    FreeKeeps(s, FillOp(id, units), Symbols(s));
    StandingNonNegative(FreeFill(s, id, units), symbol, isBid);
  }

  lemma {:induction false} WorstOverMonotone(a: State, b: State, symbols: set<int>)
    requires forall k :: k in symbols ==> WorstOf(a, k) <= WorstOf(b, k)
    ensures WorstOver(a, symbols) <= WorstOver(b, symbols)
  {
    if symbols != {} { WorstOverMonotone(a, b, symbols - {Smallest(symbols)}); }
  }

  /** Gross inventory, symbol by symbol, against a bound for each. */
  lemma {:induction false} GrossBounded(inventory: map<int, int>, s: State, symbols: set<int>)
    requires inventory.Keys <= symbols
    requires forall k :: k in symbols ==> Abs(InventoryOf(inventory, k)) <= WorstOf(s, k)
    ensures Gross(inventory) <= WorstOver(s, symbols)
    decreases symbols
  {
    if symbols != {} {
      var k := Smallest(symbols);
      if k in inventory { MapSumRemove(inventory, Magnitude, k); } else { assert inventory - {k} == inventory; }
      GrossBounded(inventory - {k}, s, symbols - {k});
    } else {
      assert inventory == map[];
    }
  }

  lemma {:induction false} FreeRunBounded(s: State, ops: seq<Op>, symbols: set<int>)
    requires WellFormed(s) && Within(s, symbols) && OrdersOnly(ops)
    ensures Gross(FreeRun(s, ops).inventory) <= WorstOver(s, symbols)
    decreases |ops|
  {
    if |ops| == 0 {
      forall k | k in symbols ensures Abs(InventoryOf(s.inventory, k)) <= WorstOf(s, k) {
        StandingNonNegative(s, k, true);
        StandingNonNegative(s, k, false);
      }
      GrossBounded(s.inventory, s, symbols);
    } else {
      FreeKeeps(s, ops[0], symbols);
      forall k | k in symbols ensures WorstOf(FreeStep(s, ops[0]), k) <= WorstOf(s, k) { WorstShrinks(s, ops[0], k); }
      WorstOverMonotone(FreeStep(s, ops[0]), s, symbols);
      hide FreeStep, WellFormed, WorstOver;
      FreeRunBounded(FreeStep(s, ops[0]), ops[1..], symbols);
    }
  }

  // ----- and one reaches it -----

  /** The side of a symbol whose complete fill leads to its larger extreme. */
  predicate BidsAreWorse(s: State, symbol: int) { Abs(Extreme(s, symbol, true)) >= Abs(Extreme(s, symbol, false)) }

  ghost predicate OnWorseSide(o: Order, worse: map<int, bool>) {
    IsOutstanding(o.state) && o.symbol in worse && o.isBid == worse[o.symbol]
  }

  lemma ChosenFill(s: State, worse: map<int, bool>, id: int) returns (s': State)
    requires WellFormed(s) && Within(s, worse.Keys) && id in s.orders && OnWorseSide(s.orders[id], worse)
    ensures s' == FreeFill(s, id, s.orders[id].remaining)
    ensures WellFormed(s') && Within(s', worse.Keys)
    ensures 0 <= Reserved(s') < Reserved(s)
    ensures forall k :: k in worse ==> Extreme(s', k, worse[k]) == Extreme(s, k, worse[k])
  {
    var o, units := s.orders[id], s.orders[id].remaining;
    assert WellFormedOrder(o) && units > 0;
    s' := FreeFill(s, id, units);
    FreeKeeps(s, FillOp(id, units), worse.Keys);
    MapSumUpdate(s.orders, Held, id, FilledBy(o, units));
    ReservedNonNegative(s');
    forall k | k in worse ensures Extreme(s', k, worse[k]) == Extreme(s, k, worse[k]) {
      FillStanding(s, id, units, k, worse[k]);
    }
  }

  /** Filling every order of the chosen side of each symbol ends at the chosen extremes. */
  lemma {:induction false} FillChosen(s: State, worse: map<int, bool>) returns (ops: seq<Op>)
    requires WellFormed(s) && Within(s, worse.Keys)
    ensures OrdersOnly(ops)
    ensures WellFormed(FreeRun(s, ops)) && Within(FreeRun(s, ops), worse.Keys)
    ensures forall k :: k in worse ==> InventoryOf(FreeRun(s, ops).inventory, k) == Extreme(s, k, worse[k])
    decreases Reserved(s)
  {
    if id :| id in s.orders && OnWorseSide(s.orders[id], worse) {
      var units := s.orders[id].remaining;
      var s' := ChosenFill(s, worse, id);
      hide WellFormed, Within, Extreme, Reserved, FreeFill, InventoryOf;
      var rest := FillChosen(s', worse);
      ops := [FillOp(id, units)] + rest;
      assert ops[1..] == rest && FreeStep(s, ops[0]) == s';
    } else {
      ops := [];
      forall k | k in worse ensures Standing(s, k, worse[k]) == 0 { MapSumZero(s.orders, UnitsOn(k, worse[k])); }
    }
  }

  lemma ReservedNonNegative(s: State)
    requires WellFormed(s)
    ensures Reserved(s) >= 0
  {
    assert forall id :: id in s.orders ==> WellFormedOrder(s.orders[id]);
    MapSumNonNegative(s.orders, Held);
  }

  lemma {:induction false} GrossReaches(inventory: map<int, int>, s: State, symbols: set<int>)
    requires inventory.Keys <= symbols
    requires forall k :: k in symbols ==> Abs(InventoryOf(inventory, k)) == WorstOf(s, k)
    ensures Gross(inventory) == WorstOver(s, symbols)
    decreases symbols
  {
    if symbols != {} {
      var k := Smallest(symbols);
      if k in inventory { MapSumRemove(inventory, Magnitude, k); } else { assert inventory - {k} == inventory; }
      GrossReaches(inventory - {k}, s, symbols - {k});
    } else {
      assert inventory == map[];
    }
  }

  /** The bound is tight: some run of fills of the outstanding orders brings the gross inventory to it. */
  lemma WorstGrossHappens(s: State) returns (ops: seq<Op>)
    requires WellFormed(s)
    ensures OrdersOnly(ops) && Gross(FreeRun(s, ops).inventory) == WorstGross(s)
  {
    var worse := map k | k in Symbols(s) :: BidsAreWorse(s, k);
    assert worse.Keys == Symbols(s);
    ops := FillChosen(s, worse);
    hide WellFormed, OrdersOnly;
    GrossReaches(FreeRun(s, ops).inventory, s, Symbols(s));
  }

  // ----- exactly which refusals were not needed -----

  /** No future of the outstanding orders can take the gross inventory past the limit. */
  ghost predicate GrossSafe(s: State) {
    forall ops :: OrdersOnly(ops) ==> Gross(FreeRun(s, ops).inventory) <= s.limit
  }

  /** The exact exposure test: the outstanding orders can never take the gross inventory past the limit if
      and only if the sum over symbols of the larger extreme stays within it. */
  lemma ExposureExact(s: State)
    requires WellFormed(s)
    ensures GrossSafe(s) <==> WorstGross(s) <= s.limit
  {
    if WorstGross(s) <= s.limit {
      forall ops | OrdersOnly(ops)
        ensures Gross(FreeRun(s, ops).inventory) <= s.limit
      {
        FreeRunBounded(s, ops, Symbols(s));
      }
    } else {
      var ops := WorstGrossHappens(s);
    }
  }

  function Admitted(s: State, id: int, symbol: int, isBid: bool, units: int): State {
    s.(orders := s.orders[id := Order(symbol, isBid, units, Live)], seen := s.seen + {id})
  }

  /** Admission is sound for the gross inventory, and its slack is exact: a fresh well-formed order is
      refused although it could never have mattered if and only if what is reserved with it is over the
      limit while the exposure with it is not. */
  lemma AdmissionSlack(s: State, id: int, symbol: int, isBid: bool, units: int)
    requires Inv(s) && id >= 0 && id !in s.seen && units > 0
    ensures var c := Admitted(s, id, symbol, isBid, units);
      var d := Reserve(s, id, symbol, isBid, units).1;
      && (d.Accepted? ==> GrossSafe(c))
      && (d.Rejected? && GrossSafe(c) <==> WorstGross(c) <= s.limit < TotalReserved(s) + units)
  {
    var c := Admitted(s, id, symbol, isBid, units);
    assert WellFormedOrder(c.orders[id]);
    ExposureExact(c);
    if Reserve(s, id, symbol, isBid, units).1.Accepted? {
      InvStep(s, ReserveOp(id, symbol, isBid, units));
      hide Inv;
      forall ops | OrdersOnly(ops) ensures Gross(FreeRun(c, ops).inventory) <= s.limit {
        RunWithinLimit(c, ops);
        FreeIsReal(c, ops);
        ReservedNonNegative(Run(c, ops));
      }
    }
  }

  /** A concrete unnecessary refusal: an ask that would only unwind the inventory held. */
  lemma UnwindingRefused()
    ensures var s := State(5, map[0 := 5], map[], {});
      && Inv(s)
      && Reserve(s, 1, 0, false, 5).1 == Rejected(PortfolioNotionalLimit)
      && GrossSafe(Admitted(s, 1, 0, false, 5))
  {
    var s := State(5, map[0 := 5], map[], {});
    assert MapSum(s.inventory, Magnitude) == 5 by { MapSumRemove(s.inventory, Magnitude, 0); }
    assert Reserved(s) == 0;
    var c := Admitted(s, 1, 0, false, 5);
    var o := Order(0, false, 5, Live);
    MapSumUpdate(s.orders, UnitsOn(0, true), 1, o);
    MapSumUpdate(s.orders, UnitsOn(0, false), 1, o);
    assert WorstOf(c, 0) == 5;
    assert c.orders[1].symbol == 0;
    assert Symbols(c) == {0};
    assert WorstOver(c, {0} - {0}) == 0;
    AdmissionSlack(s, 1, 0, false, 5);
  }
}

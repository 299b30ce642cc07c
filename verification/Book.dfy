/** Specification of the atomic book batch. */
module Book {
  import opened Common

  type Levels = map<int, int>

  datatype State = State(bids: Levels, asks: Levels)

  datatype Change = Change(isBid: bool, price: int, qty: int)

  datatype Result = Ok(state: State) | Raised(reason: Reason)

  function ApplyLevel(levels: Levels, c: Change): Levels {
    if c.qty == 0 then levels - {c.price} else levels[c.price := c.qty]
  }

  function ApplyChange(s: State, c: Change): State {
    if c.isBid then s.(bids := ApplyLevel(s.bids, c)) else s.(asks := ApplyLevel(s.asks, c))
  }

  function Largest(s: set<int>): (m: int)
    requires s != {}
    ensures m in s && forall x :: x in s ==> x <= m
  {
    LargestExists(s);
    var m :| m in s && forall x :: x in s ==> x <= m;
    m
  }

  lemma LargestExists(s: set<int>)
    requires s != {}
    ensures exists m :: m in s && forall x :: x in s ==> x <= m
  {
    var negated := set x | x in s :: -x;
    var y := Pick(s);
    assert -y in negated;
    var m := Smallest(negated);
    assert -m in s;
    forall x | x in s ensures x <= -m { assert -x in negated; }
  }

  predicate Crossed(s: State) {
    s.bids != map[] && s.asks != map[] && Largest(s.bids.Keys) >= Smallest(s.asks.Keys)
  }

  function CheckChange(c: Change): Option<Reason> {
    if c.price <= 0 then Some(PriceNotPositive) else if c.qty < 0 then Some(QuantityNegative) else None
  }

  /** The candidate after all changes, or the first malformed change. */
  function Fold(s: State, changes: seq<Change>): Result
    decreases |changes|
  {
    if |changes| == 0 then Ok(s) else
      match CheckChange(changes[0])
      case Some(reason) => Raised(reason)
      case None => Fold(ApplyChange(s, changes[0]), changes[1..])
  }

  function ApplyBatch(s: State, changes: seq<Change>): Result {
    match Fold(s, changes)
    case Raised(reason) => Raised(reason)
    case Ok(candidate) => if Crossed(candidate) then Raised(BookWouldCross) else Ok(candidate)
  }

  // ----- what a batch means -----

  ghost predicate PositiveLevels(levels: Levels) { forall p :: p in levels ==> p > 0 && levels[p] > 0 }

  /** No bid at or above any ask, and only positive prices and quantities. */
  ghost predicate Sound(s: State) {
    && PositiveLevels(s.bids) && PositiveLevels(s.asks)
    && forall b, a :: b in s.bids && a in s.asks ==> b < a
  }

  ghost predicate Touches(c: Change, isBid: bool, price: int) { c.isBid == isBid && c.price == price }

  function LevelOf(s: State, isBid: bool, price: int): int {
    var levels := if isBid then s.bids else s.asks;
    if price in levels then levels[price] else 0
  }

  /** The quantity at a level once the last change that touches it has won. */
  function LastChange(initial: int, changes: seq<Change>, isBid: bool, price: int): int
    decreases |changes|
  {
    if |changes| == 0 then initial else
      var c := changes[|changes| - 1];
      if c.isBid == isBid && c.price == price then c.qty
      else LastChange(initial, changes[..|changes| - 1], isBid, price)
  }

  lemma {:induction false} LastChangeFront(initial: int, changes: seq<Change>, isBid: bool, price: int)
    requires |changes| > 0
    ensures LastChange(initial, changes, isBid, price) ==
      LastChange(if Touches(changes[0], isBid, price) then changes[0].qty else initial, changes[1..], isBid, price)
    decreases |changes|
  {
    if |changes| > 1 {
      var init := changes[..|changes| - 1];
      LastChangeFront(initial, init, isBid, price);
      assert init[1..] == changes[1..][..|changes| - 2];
    } else {
      assert changes[..0] == [];
    }
  }

  ghost predicate WellFormed(changes: seq<Change>) {
    forall i :: 0 <= i < |changes| ==> CheckChange(changes[i]).None?
  }

  lemma {:induction false} FoldMeaning(s: State, changes: seq<Change>, isBid: bool, price: int)
    requires PositiveLevels(s.bids) && PositiveLevels(s.asks)
    ensures Fold(s, changes).Ok? <==> WellFormed(changes)
    ensures Fold(s, changes).Ok? ==>
      var t := Fold(s, changes).state;
      && PositiveLevels(t.bids) && PositiveLevels(t.asks)
      && LevelOf(t, isBid, price) == LastChange(LevelOf(s, isBid, price), changes, isBid, price)
    decreases |changes|
  {
    if |changes| > 0 {
      LastChangeFront(LevelOf(s, isBid, price), changes, isBid, price);
      if CheckChange(changes[0]).None? {
        FoldMeaning(ApplyChange(s, changes[0]), changes[1..], isBid, price);
        assert WellFormed(changes[1..]) ==> WellFormed(changes);
      }
    }
  }

  lemma CrossedMeaning(s: State)
    ensures Crossed(s) <==> exists b, a :: b in s.bids && a in s.asks && b >= a
  {
    if Crossed(s) {
      assert Largest(s.bids.Keys) in s.bids && Smallest(s.asks.Keys) in s.asks;
    }
  }

  /** Judged from the changes alone: every level left on the bid side is below every one left on the ask side. */
  ghost predicate LeavesUncrossed(s: State, changes: seq<Change>) {
    forall b, a ::
      (LastChange(LevelOf(s, true, b), changes, true, b) > 0 && LastChange(LevelOf(s, false, a), changes, false, a) > 0)
      ==> b < a
  }

  /** A batch is accepted exactly when its changes are well formed and the book they leave is uncrossed;
      the accepted book is sound, and at every level the last change that touches it has won. */
  lemma BatchMeaning(s: State, changes: seq<Change>)
    requires Sound(s)
    ensures ApplyBatch(s, changes).Ok? ==> Sound(ApplyBatch(s, changes).state)
    ensures ApplyBatch(s, changes).Ok? ==> forall isBid, price ::
      LevelOf(ApplyBatch(s, changes).state, isBid, price) == LastChange(LevelOf(s, isBid, price), changes, isBid, price)
    ensures ApplyBatch(s, changes).Ok? <==> (WellFormed(changes) && LeavesUncrossed(s, changes))
  {
    FoldMeaning(s, changes, true, 0);
    if WellFormed(changes) {
      var t := Fold(s, changes).state;
      CrossedMeaning(t);
      forall isBid, price
        ensures LevelOf(t, isBid, price) == LastChange(LevelOf(s, isBid, price), changes, isBid, price)
      {
        FoldMeaning(s, changes, isBid, price);
      }
      assert forall b :: b in t.bids <==> LevelOf(t, true, b) > 0;
      assert forall a :: a in t.asks <==> LevelOf(t, false, a) > 0;
    }
  }

  lemma {:induction false} FoldConcat(s: State, first: seq<Change>, second: seq<Change>)
    ensures Fold(s, first + second) ==
      (match Fold(s, first) case Raised(reason) => Raised(reason) case Ok(t) => Fold(t, second))
    decreases |first|
  {
    if |first| == 0 {
      assert first + second == second;
    } else {
      assert (first + second)[1..] == first[1..] + second;
      FoldConcat(ApplyChange(s, first[0]), first[1..], second);
    }
  }

  /** Two batches applied one after the other succeed with a result exactly when the first succeeds on its
      own and their concatenation, as a single batch, succeeds with that same result. */
  lemma BatchesCompose(s: State, first: seq<Change>, second: seq<Change>, r: State)
    ensures (ApplyBatch(s, first).Ok? && ApplyBatch(ApplyBatch(s, first).state, second) == Ok(r))
      <==> (ApplyBatch(s, first).Ok? && ApplyBatch(s, first + second) == Ok(r))
  {
    FoldConcat(s, first, second);
  }

  lemma PrefixWellFormed(first: seq<Change>, second: seq<Change>)
    requires WellFormed(first + second)
    ensures WellFormed(first)
  {
    forall i | 0 <= i < |first| ensures CheckChange(first[i]).None? {
      assert (first + second)[i] == first[i];
    }
  }

  /** From a sound book, two batches in a row succeed with a result exactly when their concatenation
      succeeds with it as a single batch and the first one, judged from its changes alone, leaves the
      book uncrossed. */
  lemma BatchesComposeIff(s: State, first: seq<Change>, second: seq<Change>, r: State)
    requires Sound(s)
    ensures (ApplyBatch(s, first).Ok? && ApplyBatch(ApplyBatch(s, first).state, second) == Ok(r))
      <==> (ApplyBatch(s, first + second) == Ok(r) && LeavesUncrossed(s, first))
  {
    BatchesCompose(s, first, second, r);
    BatchMeaning(s, first);
    BatchMeaning(s, first + second);
    hide ApplyBatch, LeavesUncrossed, Sound;
    if WellFormed(first + second) { PrefixWellFormed(first, second); }
  }

  /** The single batch may cross on the way where two batches may not. */
  lemma TransientCrossAllowed()
    ensures var s := State(map[100 := 5], map[102 := 5]);
      var first := [Change(true, 103, 1)];
      var second := [Change(true, 103, 0)];
      && Sound(s)
      && ApplyBatch(s, first) == Raised(BookWouldCross)
      && ApplyBatch(s, first + second) == Ok(s)
  {
    var s := State(map[100 := 5], map[102 := 5]);
    var first := [Change(true, 103, 1)];
    var second := [Change(true, 103, 0)];
    FoldConcat(s, first, second);
    var t := State(map[100 := 5, 103 := 1], map[102 := 5]);
    assert first[1..] == [] && second[1..] == [];
    assert Fold(s, first) == Ok(t);
    assert 103 in t.bids && 102 in t.asks;
    CrossedMeaning(t);
    assert t.bids - {103} == s.bids;
    CrossedMeaning(s);
  }

  // ----- which error a batch reports -----

  /** The first change that is not well formed. */
  ghost predicate FirstFault(changes: seq<Change>, i: nat) {
    && i < |changes| && (changes[i].price <= 0 || changes[i].qty < 0)
    && forall j :: 0 <= j < i ==> changes[j].price > 0 && changes[j].qty >= 0
  }

  lemma {:induction false} FoldFault(s: State, changes: seq<Change>, i: nat)
    requires FirstFault(changes, i)
    ensures Fold(s, changes) == Raised(if changes[i].price <= 0 then PriceNotPositive else QuantityNegative)
    decreases |changes|
  {
    if i > 0 {
      assert FirstFault(changes[1..], i - 1);
      FoldFault(ApplyChange(s, changes[0]), changes[1..], i - 1);
    }
  }

  lemma {:induction false} SomeFault(changes: seq<Change>) returns (i: nat)
    requires !WellFormed(changes)
    ensures FirstFault(changes, i)
    decreases |changes|
  {
    if CheckChange(changes[0]).Some? {
      i := 0;
    } else {
      var j :| 0 <= j < |changes| && CheckChange(changes[j]).Some?;
      assert changes[1..][j - 1] == changes[j];
      var k := SomeFault(changes[1..]);
      i := k + 1;
      assert forall m :: 0 < m < |changes| ==> changes[1..][m - 1] == changes[m];
    }
  }

  /** The first malformed change decides the error, its price before its quantity; only a batch without one is
      judged for crossing. */
  lemma BatchError(s: State, changes: seq<Change>, i: nat)
    requires Sound(s)
    ensures FirstFault(changes, i) ==>
      ApplyBatch(s, changes) == Raised(if changes[i].price <= 0 then PriceNotPositive else QuantityNegative)
    ensures (forall j :: !FirstFault(changes, j)) && !LeavesUncrossed(s, changes) ==>
      ApplyBatch(s, changes) == Raised(BookWouldCross)
  {
    if FirstFault(changes, i) { FoldFault(s, changes, i); }
    BatchMeaning(s, changes);
    FoldMeaning(s, changes, true, 0);
    if !WellFormed(changes) { var j := SomeFault(changes); }
  }
}

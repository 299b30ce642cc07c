/** Shared vocabulary: decisions with their reasons, and sums and sorted views of dictionaries. */
module Common {

  datatype Reason =
    // public queue, risk and portfolio ledgers
    | InvalidOrderId | DuplicateOrderId | InvalidQueueAhead | InvalidQuantity
    | UnknownOrder | OrderNotLive | InvalidConsumption
    | LongLimit | ShortLimit | CancelNotPending | OrderNotFillable
    | InvalidFillQuantity | FillExceedsRemaining
    | InvalidNotional | PortfolioNotionalLimit
    // scheduler
    | InvalidActionId | DuplicateActionId | UnknownAction
    // accounting
    | InvalidMarkPrice | InvalidFillPrice | InvalidMarkoutPrice | InvalidMarkoutQuantity
    // book batch and composed contract
    | PriceNotPositive | QuantityNegative | BookWouldCross | MissingOrderMetadata

  datatype Decision = Accepted | Rejected(reason: Reason)

  datatype Option<+T> = None | Some(value: T)

  function Min(a: int, b: int): int { if a <= b then a else b }

  function Max(a: int, b: int): int { if a <= b then b else a }

  function Abs(a: int): int { if a < 0 then -a else a }

  function Clamp(x: int, lo: int, hi: int): int { Max(lo, Min(x, hi)) }

  /** A quantity with the sign of its side. */
  function Signed(isBid: bool, qty: int): int { if isBid then qty else -qty }

  // ----- extremes and sorted views of finite sets of ids -----

  lemma Pick<T>(s: set<T>) returns (x: T)
    requires s != {}
    ensures x in s
  {
    x :| x in s;
  }

  lemma SmallestExists(s: set<int>)
    requires s != {}
    ensures exists m :: IsSmallest(m, s)
  {
    var x := Pick(s);
    if s == {x} {
      assert IsSmallest(x, s);
    } else {
      var rest := s - {x};
      assert s == {x} + rest;
      SmallestExists(rest);
      var y :| IsSmallest(y, rest);
      assert IsSmallest(Min(x, y), s);
    }
  }

  ghost predicate IsSmallest(m: int, s: set<int>) { m in s && forall x :: x in s ==> m <= x }

  function Smallest(s: set<int>): (m: int)
    requires s != {}
    ensures m in s && forall x :: x in s ==> m <= x
  {
    SmallestExists(s);
    assert exists m :: m in s && forall x :: x in s ==> m <= x by { var y :| IsSmallest(y, s); }
    var m :| m in s && forall x :: x in s ==> m <= x;
    m
  }

  ghost predicate StrictlyIncreasing(s: seq<int>) {
    forall i, j :: 0 <= i < j < |s| ==> s[i] < s[j]
  }

  function SortedIds(s: set<int>): (r: seq<int>)
    ensures StrictlyIncreasing(r)
    ensures forall x :: x in r <==> x in s
  {
    if s == {} then [] else
      var m := Smallest(s);
      [m] + SortedIds(s - {m})
  }

  // ----- sums over the values of a dictionary -----

  function MapSum<V>(m: map<int, V>, f: V -> int): int {
    if m == map[] then 0 else
      var k := Smallest(m.Keys);
      f(m[k]) + MapSum(m - {k}, f)
  }

  lemma {:induction false} MapSumRemove<V>(m: map<int, V>, f: V -> int, k: int)
    requires k in m
    ensures MapSum(m, f) == f(m[k]) + MapSum(m - {k}, f)
    decreases |m|
  {
    var s := Smallest(m.Keys);
    if s != k {
      MapSumRemove(m - {s}, f, k);
      assert (m - {s}) - {k} == (m - {k}) - {s};
      assert (m - {k}).Keys == m.Keys - {k};
      assert s in m - {k} && Smallest((m - {k}).Keys) == s;
    }
  }

  lemma MapSumUpdate<V>(m: map<int, V>, f: V -> int, k: int, v: V)
    ensures MapSum(m[k := v], f) == MapSum(m, f) - (if k in m then f(m[k]) else 0) + f(v)
  {
    MapSumRemove(m[k := v], f, k);
    assert m[k := v] - {k} == m - {k};
    if k in m {
      MapSumRemove(m, f, k);
    } else {
      assert m - {k} == m;
    }
  }

  lemma {:induction false} MapSumNonNegative<V>(m: map<int, V>, f: V -> int)
    requires forall k :: k in m ==> f(m[k]) >= 0
    ensures MapSum(m, f) >= 0
    ensures forall k :: k in m ==> f(m[k]) <= MapSum(m, f)
    decreases |m|
  {
    if m != map[] {
      var s := Smallest(m.Keys);
      MapSumNonNegative(m - {s}, f);
      forall k | k in m ensures f(m[k]) <= MapSum(m, f) {
        if k != s { assert k in m - {s} && (m - {s})[k] == m[k]; }
      }
    }
  }

  lemma {:induction false} MapSumZero<V>(m: map<int, V>, f: V -> int)
    requires forall k :: k in m ==> f(m[k]) == 0
    ensures MapSum(m, f) == 0
    decreases |m|
  {
    if m != map[] {
      MapSumZero(m - {Smallest(m.Keys)}, f);
    }
  }

  // ----- sums over sequences -----

  function SeqSum<T>(s: seq<T>, f: T -> int): int {
    if s == [] then 0 else SeqSum(s[..|s| - 1], f) + f(s[|s| - 1])
  }

  lemma {:induction false} SeqSumConcat<T>(a: seq<T>, b: seq<T>, f: T -> int)
    ensures SeqSum(a + b, f) == SeqSum(a, f) + SeqSum(b, f)
    decreases |b|
  {
    if b == [] {
      assert a + b == a;
    } else {
      assert (a + b)[..|a + b| - 1] == a + b[..|b| - 1];
      SeqSumConcat(a, b[..|b| - 1], f);
    }
  }

  lemma SeqSumSnoc<T>(s: seq<T>, x: T, f: T -> int)
    ensures SeqSum(s + [x], f) == SeqSum(s, f) + f(x)
  {
    assert (s + [x])[..|s|] == s;
  }

  lemma SeqSumPullOut<T>(s: seq<T>, i: nat, f: T -> int)
    requires i < |s|
    ensures SeqSum(s, f) == SeqSum(s[..i] + s[i + 1..], f) + f(s[i])
  {
    var left, right := s[..i], s[i + 1..];
    SeqSumSnoc(left, s[i], f);
    SeqSumConcat(left + [s[i]], right, f);
    SeqSumConcat(left, right, f);
    hide SeqSum;
    assert s == left + [s[i]] + right;
  }

  /** The last element of one list, found in any permutation of it. */
  lemma FindLast<T>(a: seq<T>, b: seq<T>) returns (i: nat)
    requires multiset(a) == multiset(b) && |a| > 0
    ensures i < |b| && b[i] == a[|a| - 1]
    ensures multiset(b[..i] + b[i + 1..]) == multiset(a[..|a| - 1])
  {
    var n := |a| - 1;
    var x := a[n];
    assert a == a[..n] + [x];
    assert x in multiset(b);
    i :| 0 <= i < |b| && b[i] == x;
    assert b == b[..i] + [x] + b[i + 1..];
    assert multiset(b[..i] + b[i + 1..]) == multiset(b) - multiset{x};
  }

  lemma SameLength<T>(a: seq<T>, b: seq<T>)
    requires multiset(a) == multiset(b)
    ensures |a| == |b|
  {
    assert |multiset(a)| == |a| && |multiset(b)| == |b|;
  }

  /** A sum depends on the multiset of its terms only. */
  lemma {:induction false} SeqSumPermuted<T>(a: seq<T>, b: seq<T>, f: T -> int)
    requires multiset(a) == multiset(b)
    ensures SeqSum(a, f) == SeqSum(b, f)
    decreases |a|
  {
    SameLength(a, b);
    if |a| > 0 {
      var n := |a| - 1;
      var i := FindLast(a, b);
      SeqSumPullOut(b, i, f);
      SeqSumPermuted(a[..n], b[..i] + b[i + 1..], f);
    }
  }
}

/** Exclusive-or and right shift on natural numbers, and the inverse of a 64-bit xor-shift. */
module Bits {
  import opened Arith

  /** Bitwise exclusive or of unbounded naturals. */
  function Xor(a: nat, b: nat): nat
    decreases a + b
  {
    if a == 0 && b == 0 then 0
    else (if a % 2 != b % 2 then 1 else 0) + 2 * Xor(a / 2, b / 2)
  }

  function Pow2(k: nat): (p: nat)
    ensures p > 0
  {
    if k == 0 then 1 else 2 * Pow2(k - 1)
  }

  /** x >> k. */
  function Shr(x: nat, k: nat): nat {
    Floor(x, Pow2(k));
    x / Pow2(k)
  }

  lemma {:induction false} XorZero(a: nat)
    ensures Xor(a, 0) == a && Xor(0, a) == a
  {
    if a > 0 { XorZero(a / 2); }
  }

  lemma {:induction false} XorSelf(a: nat)
    ensures Xor(a, a) == 0
  {
    if a > 0 { XorSelf(a / 2); }
  }

  lemma {:induction false} XorAssociative(a: nat, b: nat, c: nat)
    ensures Xor(Xor(a, b), c) == Xor(a, Xor(b, c))
    decreases a + b + c
  {
    if a == 0 {
      XorZero(b);
      XorZero(Xor(b, c));
    } else if b == 0 {
      XorZero(a);
      XorZero(c);
    } else if c == 0 {
      XorZero(Xor(a, b));
      XorZero(b);
    } else {
      XorBits(a, b);
      XorBits(b, c);
      XorBits(Xor(a, b), c);
      XorBits(a, Xor(b, c));
      XorAssociative(a / 2, b / 2, c / 2);
    }
  }

  lemma XorBits(a: nat, b: nat)
    ensures Xor(a, b) / 2 == Xor(a / 2, b / 2)
    ensures Xor(a, b) % 2 == if a % 2 != b % 2 then 1 else 0
    ensures Xor(a, b) == 2 * Xor(a / 2, b / 2) + (if a % 2 != b % 2 then 1 else 0)
  {
  }

  lemma ShrZero(x: nat)
    ensures Shr(x, 0) == x
  {
  }

  /** Shifting one place further halves. */
  lemma ShrStep(x: nat, k: nat)
    ensures Shr(x, k + 1) == Shr(x, k) / 2
  {
    var p := Pow2(k);
    var y, h, z := x / p, x / p / 2, x / (2 * p);
    Floor(x, p);
    Floor(x, 2 * p);
    HalfInterval(y, h, p);
    SameFloor(x, y, h, z, p, 2 * p);
  }

  lemma SameFloor(x: nat, y: nat, h: nat, z: nat, p: nat, w: nat)
    requires w > 0 && y * p <= x < y * p + p && z * w <= x < z * w + w
    requires h * w <= y * p && (y + 1) * p <= (h + 1) * w
    ensures h == z
  {
    assert (y + 1) * p == y * p + p && (h + 1) * w == h * w + w;
    IntCancelUp(h, z, w);
    IntCancelUp(z, h, w);
  }

  lemma HalfInterval(y: nat, h: nat, p: nat)
    requires 2 * h <= y <= 2 * h + 1
    ensures h * (2 * p) <= y * p && (y + 1) * p <= (h + 1) * (2 * p)
  {
    MulMonotone(2 * h, y, p);
    MulMonotone(y + 1, 2 * h + 2, p);
    assert (2 * h) * p == h * (2 * p);
    assert (2 * h + 2) * p == (h + 1) * (2 * p);
  }

  lemma {:induction false} XorShr(a: nat, b: nat, k: nat)
    ensures Shr(Xor(a, b), k) == Xor(Shr(a, k), Shr(b, k))
  {
    if k == 0 {
      ShrZero(a);
      ShrZero(b);
      ShrZero(Xor(a, b));
    } else {
      XorShr(a, b, k - 1);
      ShrStep(a, k - 1);
      ShrStep(b, k - 1);
      ShrStep(Xor(a, b), k - 1);
      XorBits(Shr(a, k - 1), Shr(b, k - 1));
    }
  }

  lemma {:induction false} ShrShr(x: nat, j: nat, k: nat)
    ensures Shr(Shr(x, j), k) == Shr(x, j + k)
  {
    if k == 0 {
      ShrZero(Shr(x, j));
    } else {
      ShrShr(x, j, k - 1);
      ShrStep(Shr(x, j), k - 1);
      ShrStep(x, j + k - 1);
    }
  }

  lemma SmallQuotient(x: nat, p: nat)
    requires x < p
    ensures x / p == 0
  {
    Floor(x, p);
    Multiple(x / p, p);
  }

  lemma {:induction false} ShrVanishes(x: nat, n: nat, k: nat)
    requires x < Pow2(n) && k >= n
    ensures Shr(x, k) == 0
    decreases k
  {
    if k == n {
      SmallQuotient(x, Pow2(n));
    } else {
      ShrVanishes(x, n, k - 1);
      ShrStep(x, k - 1);
    }
  }

  lemma {:induction false} XorBound(a: nat, b: nat, n: nat)
    requires a < Pow2(n) && b < Pow2(n)
    ensures Xor(a, b) < Pow2(n)
  {
    if n > 0 {
      XorBits(a, b);
      XorBound(a / 2, b / 2, n - 1);
    }
  }

  lemma {:induction false} ShrShrinks(x: nat, k: nat)
    ensures Shr(x, k) <= x
  {
    if k == 0 {
      ShrZero(x);
    } else {
      ShrShrinks(x, k - 1);
      ShrStep(x, k - 1);
    }
  }

  // ----- xor-shift and its inverse -----

  function XorShift(x: nat, k: nat): nat { Xor(x, Shr(x, k)) }

  function Unshift(y: nat, k: nat): nat { Xor(y, Xor(Shr(y, k), Shr(y, 2 * k))) }

  lemma XorCancel(a: nat, b: nat)
    ensures Xor(Xor(a, b), b) == a
  {
    XorAssociative(a, b, b);
    XorSelf(b);
    XorZero(a);
  }

  /** For shifts of at least a third of the word, two correction terms undo an xor-shift. */
  lemma UnshiftShift(x: nat, n: nat, k: nat)
    requires x < Pow2(n) && 3 * k >= n
    ensures Unshift(XorShift(x, k), k) == x
  {
    var x1, x2, x3 := Shr(x, k), Shr(x, 2 * k), Shr(x, 3 * k);
    ShrVanishes(x, n, 3 * k);
    ShrShr(x, k, k);
    ShrShr(x, k, 2 * k);
    XorShr(x, x1, k);
    XorShr(x, x1, 2 * k);
    XorZero(x2);
    XorCancel(x1, x2);
    XorCancel(x, x1);
  }

  lemma ShiftUnshift(y: nat, n: nat, k: nat)
    requires y < Pow2(n) && 3 * k >= n
    ensures XorShift(Unshift(y, k), k) == y
  {
    var y1, y2, y3 := Shr(y, k), Shr(y, 2 * k), Shr(y, 3 * k);
    ShrVanishes(y, n, 3 * k);
    ShrShr(y, k, k);
    ShrShr(y, 2 * k, k);
    XorShr(y1, y2, k);
    XorShr(y, Xor(y1, y2), k);
    XorZero(y2);
    XorCancel(y, Xor(y1, y2));
  }

  lemma ShiftBounds(x: nat, n: nat, k: nat)
    requires x < Pow2(n)
    ensures XorShift(x, k) < Pow2(n) && Unshift(x, k) < Pow2(n)
  {
    ShrShrinks(x, k);
    ShrShrinks(x, 2 * k);
    XorBound(x, Shr(x, k), n);
    XorBound(Shr(x, k), Shr(x, 2 * k), n);
    XorBound(x, Xor(Shr(x, k), Shr(x, 2 * k)), n);
  }

  // ----- what the two operations mean, bit by bit -----

  function Bit(x: nat, k: nat): nat { x / Pow2(k) % 2 }

  /** Exclusive or acts on every bit by itself, and k places to the right is division by 2 to the k. */
  lemma XorBitwise(a: nat, b: nat, k: nat)
    ensures Bit(Xor(a, b), k) == if Bit(a, k) != Bit(b, k) then 1 else 0
  {
    XorShr(a, b, k);
    XorBits(Shr(a, k), Shr(b, k));
  }
}

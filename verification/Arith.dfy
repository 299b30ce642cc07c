/** Small facts of non-linear arithmetic, each proved on its own. */
module Arith {

  lemma Multiple(x: int, l: int)
    requires l > 0
    ensures x >= 1 ==> x * l >= l
    ensures x <= -1 ==> x * l <= -l
  {
    if x >= 1 { assert (x - 1) * l >= 0; }
    if x <= -1 { assert (-1 - x) * l >= 0; }
  }

  lemma IntCancel(a: int, b: int, l: int)
    requires l > 0 && a * l <= b * l
    ensures a <= b
  {
    Multiple(a - b, l);
    assert (a - b) * l == a * l - b * l;
  }

  lemma IntCancelUp(a: int, b: int, l: int)
    requires l > 0 && a * l < b * l + l
    ensures a <= b
  {
    Multiple(a - b, l);
    assert (a - b) * l == a * l - b * l;
  }

  lemma MulMonotone(a: int, b: int, l: int)
    requires l >= 0 && a <= b
    ensures a * l <= b * l
  {
    assert (b - a) * l >= 0;
  }

  lemma SameSign(a: int, b: int)
    requires b != 0
    ensures a * b > 0 <==> (a > 0 && b > 0) || (a < 0 && b < 0)
    ensures a * b < 0 <==> (a > 0 && b < 0) || (a < 0 && b > 0)
  {
    if a > 0 && b > 0 { assert a * b > 0; }
    if a < 0 && b < 0 { assert a * b == (-a) * (-b); }
    if a > 0 && b < 0 { assert a * b == -(a * (-b)); }
    if a < 0 && b > 0 { assert a * b == -((-a) * b); }
  }

  /** Euclidean division by a positive divisor. */
  lemma Floor(n: int, d: int)
    requires d > 0
    ensures n / d * d <= n < n / d * d + d
    ensures n >= 0 ==> n / d >= 0
  {
    assert n == n / d * d + n % d;
    if n >= 0 && n / d <= -1 { Multiple(n / d, d); }
  }

  lemma IntProductAsReal(a: int, b: int)
    ensures (a * b) as real == a as real * b as real
  {
  }

  // ----- products of reals behind a name, so that callers can hide the multiplication -----

  function Times(a: real, b: real): real { a * b }

  lemma TimesDistributes(a: real, b: real, l: real)
    ensures Times(a + b, l) == Times(a, l) + Times(b, l)
  {
  }

  lemma TimesOne(l: real)
    ensures Times(1.0, l) == l
  {
  }

  lemma TimesCancel(a: real, b: real, l: real)
    requires l > 0.0
    ensures Times(a, l) <= Times(b, l) ==> a <= b
    ensures Times(a, l) < Times(b, l) ==> a < b
  {
    if a > b { assert (a - b) * l > 0.0; }
    assert (a - b) * l == a * l - b * l;
  }

  lemma TimesMonotone(a: real, b: real, l: real)
    requires a <= b && l >= 0.0
    ensures Times(a, l) <= Times(b, l)
  {
    assert (b - a) * l >= 0.0;
    assert (b - a) * l == b * l - a * l;
  }

  lemma TimesMonotoneRight(l: real, a: real, b: real)
    requires a <= b && l >= 0.0
    ensures Times(l, a) <= Times(l, b)
  {
    assert l * (b - a) >= 0.0;
    assert l * (b - a) == l * b - l * a;
  }
}

/** The C math library as the renderer uses it.

    `sinf`, `cosf`, `tan` and `sqrtf` have no closed form over the reals, so
    they are bundled in a `Libm` record that callers pass in; a lemma that
    needs one of their facts states it as a requirement on the record.
    `fmodf` is defined exactly: the remainder of a division truncated toward
    zero. */
module MathLib {

  /** The value of PI that Constants.h provides (that header is not part of
      this model; the real number below is the usual approximation). */
  const PI: real := 3.14159265358979

  datatype Libm = Libm(sin: real -> real, cos: real -> real, tan: real -> real, sqrt: real -> real)

  /** The only trigonometric facts the transform builders need. */
  predicate TrigAtZero(lib: Libm) {
    lib.sin(0.0) == 0.0 && lib.cos(0.0) == 1.0
  }

  /** The Pythagorean identity at one angle, as an idealised sine and
      cosine satisfy it. */
  predicate Pythagorean(lib: Libm, angle: real) {
    lib.sin(angle) * lib.sin(angle) + lib.cos(angle) * lib.cos(angle) == 1.0
  }

  /** `sqrt` returns the non-negative square root of every non-negative argument. */
  ghost predicate SqrtSound(lib: Libm) {
    forall a: real :: 0.0 <= a ==> 0.0 <= lib.sqrt(a) && lib.sqrt(a) * lib.sqrt(a) == a
  }

  function Abs(x: real): (r: real)
    ensures 0.0 <= r && (r == x || r == -x)
  {
    if x < 0.0 then -x else x
  }

  /** `copysign(x, s)`: the magnitude of x with the sign of s (a negative
      zero is not modelled, so s = 0 counts as positive). */
  function CopySign(x: real, s: real): (r: real)
    ensures Abs(r) == Abs(x)
    ensures s < 0.0 ==> r <= 0.0
    ensures 0.0 <= s ==> 0.0 <= r
  {
    if s < 0.0 then -Abs(x) else Abs(x)
  }

  /** Conversion of a real to an integer, rounding toward zero, as a C cast does. */
  function Trunc(q: real): (n: int)
    ensures 0.0 <= q ==> 0 <= n && n as real <= q < n as real + 1.0
    ensures q < 0.0 ==> n <= 0 && n as real - 1.0 < q <= n as real
  {
    if 0.0 <= q then q.Floor else -((-q).Floor)
  }

  /** `fmodf(x, y)`: x minus the quotient x / y truncated toward zero, times y. */
  function Fmod(x: real, y: real): (r: real)
    requires y != 0.0
    ensures Abs(r) < Abs(y)
    ensures 0.0 <= x ==> 0.0 <= r
    ensures x <= 0.0 ==> r <= 0.0
    ensures Abs(x) < Abs(y) ==> r == x
    ensures x == r + Trunc(x / y) as real * y
  {
    var q := x / y;
    var n := Trunc(q);
    FmodBounds(x, y, q, n);
    x - n as real * y
  }

  lemma FmodBounds(x: real, y: real, q: real, n: int)
    requires y != 0.0 && q == x / y && n == Trunc(q)
    ensures Abs(x - n as real * y) < Abs(y)
    ensures 0.0 <= x ==> 0.0 <= x - n as real * y
    ensures x <= 0.0 ==> x - n as real * y <= 0.0
    ensures Abs(x) < Abs(y) ==> n == 0
  {
    var f := q - n as real;
    assert x == q * y;
    assert x - n as real * y == f * y;
    ShrinkByFraction(f, y);
    if 0.0 <= x {
      if 0.0 < y { assert 0.0 <= q; assert 0.0 <= f; } else { assert q <= 0.0; assert f <= 0.0; }
    }
    if x <= 0.0 {
      if 0.0 < y { assert q <= 0.0; assert f <= 0.0; } else { assert 0.0 <= q; assert 0.0 <= f; }
    }
    if Abs(x) < Abs(y) {
      QuotientBelowOne(x, y, q);
    }
  }

  /** Multiplying by a number of magnitude below one shrinks. */
  lemma ShrinkByFraction(f: real, y: real)
    requires -1.0 < f < 1.0 && y != 0.0
    ensures Abs(f * y) < Abs(y)
  {
    if 0.0 <= f {
      if 0.0 < y { assert f * y < 1.0 * y; } else { assert f * y > 1.0 * y; }
    } else {
      if 0.0 < y { assert f * y > -1.0 * y; } else { assert f * y < -1.0 * y; }
    }
  }

  lemma QuotientBelowOne(x: real, y: real, q: real)
    requires y != 0.0 && q == x / y && Abs(x) < Abs(y)
    ensures -1.0 < q < 1.0
  {
    assert q * y == x;
    var b := Abs(y);
    var below, above := 1.0 - q, 1.0 + q;
    if 0.0 < y {
      assert -y < x < y;
      assert below * b == y - x;
      assert above * b == y + x;
    } else {
      assert y < x < -y;
      assert below * b == x - y;
      assert above * b == -y - x;
    }
    PositiveFactor(below, b);
    PositiveFactor(above, b);
  }

  lemma PositiveFactor(a: real, b: real)
    requires 0.0 < b && 0.0 < a * b
    ensures 0.0 < a
  {
  }

  /** A non-zero factor cancels. */
  lemma CancelNonZero(a: real, b: real, c: real)
    requires c != 0.0 && a * c == b * c
    ensures a == b
  {
    assert (a - b) * c == 0.0;
  }

  /** A product with the square of a non-zero number vanishes only with its other factor. */
  lemma NonZeroProduct(e: real, l: real)
    requires l != 0.0
    ensures e * (l * l) == 0.0 ==> e == 0.0
  {
    if e != 0.0 {
      var el := e * l;
      assert el != 0.0;
      var ell := el * l;
      assert ell != 0.0;
      assert e * (l * l) == ell;
    }
  }

  lemma SquareMonotone(a: real, b: real)
    requires 0.0 <= a < b
    ensures a * a < b * b
  {
    var aa, ab, bb := a * a, a * b, b * b;
    assert aa <= ab;
    assert ab < bb;
  }

  /** A sound `sqrt` returns the one non-negative root it can. */
  lemma SqrtOf(lib: Libm, a: real, s: real)
    requires SqrtSound(lib) && 0.0 <= s && s * s == a
    ensures lib.sqrt(a) == s
  {
    var t := lib.sqrt(a);
    assert 0.0 <= t && t * t == a;
    if t < s {
      SquareMonotone(t, s);
    } else if s < t {
      SquareMonotone(s, t);
    }
  }

  /** A sum of squares is never negative, and vanishes only when every term does. */
  lemma SumOfSquares(x: real, y: real, z: real)
    ensures 0.0 <= x * x + y * y + z * z
    ensures x * x + y * y + z * z == 0.0 <==> x == 0.0 && y == 0.0 && z == 0.0
  {
    var xx, yy, zz := x * x, y * y, z * z;
    assert 0.0 <= xx && 0.0 <= yy && 0.0 <= zz;
    if xx + yy + zz == 0.0 {
      SquareVanishes(x);
      SquareVanishes(y);
      SquareVanishes(z);
    }
  }

  lemma SquareVanishes(x: real)
    ensures 0.0 <= x * x
    ensures x * x == 0.0 ==> x == 0.0
  {
    if x != 0.0 {
      var ax := Abs(x);
      assert x * x == ax * ax;
      SquareMonotone(0.0, ax);
    }
  }

  /** Lagrange's identity in two dimensions. */
  lemma Lagrange(a1: real, a2: real, b1: real, b2: real)
    ensures (a1 * b2 - a2 * b1) * (a1 * b2 - a2 * b1) + (a1 * b1 + a2 * b2) * (a1 * b1 + a2 * b2)
         == (a1 * a1 + a2 * a2) * (b1 * b1 + b2 * b2)
  {
    var p, q, s, t := a1 * b2, a2 * b1, a1 * b1, a2 * b2;
    calc {
      (p - q) * (p - q) + (s + t) * (s + t);
      p * p + q * q + s * s + t * t - 2.0 * p * q + 2.0 * s * t;
      { assert p * q == s * t; }
      p * p + q * q + s * s + t * t;
      (a1 * a1 + a2 * a2) * (b1 * b1 + b2 * b2);
    }
  }
}

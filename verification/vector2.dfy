/** Two-component vectors (Vector2.cpp), over the reals. The in-place
    operators (`+=`, `Negate`, `Normalize`, ...) are modelled as functions
    returning the updated value. */
module Vec2 {
  import opened MathLib

  datatype Vector2 = Vector2(x: real, y: real)

  /** The default constructor. */
  const Zero: Vector2 := Vector2(0.0, 0.0)

  /** The neutral element of the componentwise product. */
  const One: Vector2 := Vector2(1.0, 1.0)

  /** Componentwise sum: every projection of it is the sum of the operands'. */
  function Add(a: Vector2, b: Vector2): (r: Vector2)
    ensures forall w :: Dot(r, w) == Dot(a, w) + Dot(b, w)
  {
    Vector2(a.x + b.x, a.y + b.y)
  }

  function Sub(a: Vector2, b: Vector2): (r: Vector2)
    ensures Add(r, b) == a
  {
    Vector2(a.x - b.x, a.y - b.y)
  }

  /** Componentwise product. */
  function Mul(a: Vector2, b: Vector2): (r: Vector2)
    ensures b == One ==> r == a
    ensures a == One ==> r == b
    ensures b == Zero ==> r == Zero
  {
    Vector2(a.x * b.x, a.y * b.y)
  }

  /** The components of the componentwise product sum to the dot product. */
  lemma MulSumsToDot(a: Vector2, b: Vector2)
    ensures Dot(Mul(a, b), One) == Dot(a, b)
  {
    var m := Mul(a, b);
    assert m.x == a.x * b.x && m.y == a.y * b.y;
  }

  /** Product by a scalar. */
  function Scale(v: Vector2, k: real): (r: Vector2)
    ensures forall w :: Dot(r, w) == Dot(v, w) * k
  {
    Vector2(v.x * k, v.y * k)
  }

  /** Componentwise quotient; a zero component of `b` is a division by zero. */
  function Div(a: Vector2, b: Vector2): (r: Vector2)
    requires b.x != 0.0 && b.y != 0.0
    ensures Mul(r, b) == a
  {
    Vector2(a.x / b.x, a.y / b.y)
  }

  /** Quotient by a scalar. */
  function DivScalar(v: Vector2, k: real): (r: Vector2)
    requires k != 0.0
    ensures Scale(r, k) == v
  {
    Vector2(v.x / k, v.y / k)
  }

  /** The two-point constructor `Vector2(a, b)`: the vector from a to b. */
  function FromPoints(a: Vector2, b: Vector2): (r: Vector2)
    ensures Add(a, r) == b
    ensures r == Sub(b, a)
  {
    Vector2(b.x - a.x, b.y - a.y)
  }

  /** `operator&`. */
  function Dot(a: Vector2, b: Vector2): real {
    a.x * b.x + a.y * b.y
  }

  /** A vector's dot product with itself is never negative, and vanishes
      only for the zero vector. */
  lemma DotSelf(a: Vector2)
    ensures 0.0 <= Dot(a, a)
    ensures Dot(a, a) == 0.0 <==> a == Zero
  {
    SumOfSquares(a.x, a.y, 0.0);
  }

  /** `operator^`: the scalar (z-component) cross product. It vanishes for
      a vector with itself, and with the dot product it satisfies Lagrange's
      identity. */
  function Cross(a: Vector2, b: Vector2): (r: real)
    ensures a == b ==> r == 0.0
    ensures r * r + Dot(a, b) * Dot(a, b) == Dot(a, a) * Dot(b, b)
  {
    Lagrange(a.x, a.y, b.x, b.y);
    a.x * b.y - a.y * b.x
  }

  /** Unary minus. */
  function Neg(v: Vector2): (r: Vector2)
    ensures Add(v, r) == Zero
  {
    Vector2(-v.x, -v.y)
  }

  /** `Negate()`, the in-place form of unary minus. */
  function Negate(v: Vector2): (r: Vector2)
    ensures r == Neg(v)
    ensures Neg(r) == v
  {
    Vector2(-v.x, -v.y)
  }

  /** `operator==`: exact componentwise comparison. */
  predicate Eq(a: Vector2, b: Vector2) {
    a.x == b.x && a.y == b.y
  }

  /** `operator!=`: some component differs. */
  predicate Ne(a: Vector2, b: Vector2) {
    a.x != b.x || a.y != b.y
  }

  /** `GetMiddle`: halves both components. */
  function GetMiddle(v: Vector2): (r: Vector2)
    ensures Add(r, r) == v
  {
    Vector2(v.x / 2.0, v.y / 2.0)
  }

  /** `GetLength`: the Euclidean length `sqrtf(x^2 + y^2)`. */
  function GetLength(v: Vector2, lib: Libm): (r: real)
    ensures SqrtSound(lib) ==> 0.0 <= r && r * r == Dot(v, v)
  {
    lib.sqrt(v.x * v.x + v.y * v.y)
  }

  /** `GetNormal`: the vector turned a quarter turn counter-clockwise. */
  function GetNormal(v: Vector2): (r: Vector2)
    ensures Dot(v, r) == 0.0
    ensures Cross(v, r) == Dot(v, v)
    ensures Dot(r, r) == Dot(v, v)
  {
    Vector2(-v.y, v.x)
  }

  /** `GetNormalized`: both components divided by the same length. */
  function GetNormalized(v: Vector2, lib: Libm): (r: Vector2)
    requires GetLength(v, lib) != 0.0
    ensures Scale(r, GetLength(v, lib)) == v
    ensures SqrtSound(lib) ==> Dot(r, r) == 1.0
  {
    var l := GetLength(v, lib);
    var r := Vector2(v.x / l, v.y / l);
    UnitAfterDivision(v, l, r);
    r
  }

  lemma UnitAfterDivision(v: Vector2, l: real, r: Vector2)
    requires l != 0.0 && r == Vector2(v.x / l, v.y / l)
    ensures l * l == Dot(v, v) ==> Dot(r, r) == 1.0
  {
    assert r.x * l == v.x && r.y * l == v.y;
    assert Dot(r, r) * (l * l) == Dot(v, v);
    NonZeroProduct(Dot(r, r) - 1.0, l);
  }

  /** `Normalize()` as written: x is divided first, and y is then divided
      by the length recomputed from the already-divided x. */
  function Normalize(v: Vector2, lib: Libm): (r: Vector2)
    requires GetLength(v, lib) != 0.0
    requires GetLength(Vector2(v.x / GetLength(v, lib), v.y), lib) != 0.0
    ensures r.x == GetNormalized(v, lib).x
    ensures r.y * GetLength(Vector2(r.x, v.y), lib) == v.y
  {
    var first := Vector2(v.x / GetLength(v, lib), v.y);
    Vector2(first.x, first.y / GetLength(first, lib))
  }

  /** The two lengths differ on (3, 4): the first is 5, the second is the
      square root of 16.36, so `Normalize` does not give `GetNormalized`. */
  lemma NormalizeDiffersFromGetNormalized(lib: Libm)
    requires SqrtSound(lib)
    ensures GetLength(Vector2(3.0, 4.0), lib) == 5.0
    ensures Normalize(Vector2(3.0, 4.0), lib) != GetNormalized(Vector2(3.0, 4.0), lib)
  {
    var v := Vector2(3.0, 4.0);
    SqrtOf(lib, 25.0, 5.0);
    assert GetLength(v, lib) == 5.0;
    var first := Vector2(3.0 / 5.0, 4.0);
    var l := GetLength(first, lib);
    assert l * l == 16.36;
    assert l != 5.0;
    assert 4.0 / l != 4.0 / 5.0;
    assert Normalize(v, lib).y == 4.0 / l;
    assert GetNormalized(v, lib).y == 4.0 / 5.0;
  }

  lemma DotCommutes(a: Vector2, b: Vector2)
    ensures Dot(a, b) == Dot(b, a)
  {
  }

  lemma CrossAntisymmetric(a: Vector2, b: Vector2)
    ensures Cross(a, b) == -Cross(b, a)
    ensures Cross(a, a) == 0.0
  {
  }

  /** Turning twice by a quarter is a half turn. */
  lemma NormalTwiceIsNeg(v: Vector2)
    ensures GetNormal(GetNormal(v)) == Neg(v)
  {
  }

  lemma NegInvolution(v: Vector2)
    ensures Neg(Neg(v)) == v
  {
  }

  /** `operator==` is equality of values, and `operator!=` its negation. */
  lemma EqIsEquality(a: Vector2, b: Vector2)
    ensures Eq(a, b) <==> a == b
    ensures Eq(a, b) <==> Eq(b, a)
    ensures Ne(a, b) <==> !Eq(a, b)
  {
  }
}

/** Three-component vectors (Vector3.cpp), over the reals. In-place
    operations are modelled as functions returning the updated value. */
module Vec3 {
  import opened MathLib

  datatype Vector3 = Vector3(x: real, y: real, z: real)

  /** The default constructor. */
  const Zero: Vector3 := Vector3(0.0, 0.0, 0.0)

  /** The neutral element of the componentwise product. */
  const One: Vector3 := Vector3(1.0, 1.0, 1.0)

  /** Componentwise sum: every projection of it is the sum of the operands'. */
  function Add(a: Vector3, b: Vector3): (r: Vector3)
    ensures forall w :: Dot(r, w) == Dot(a, w) + Dot(b, w)
  {
    Vector3(a.x + b.x, a.y + b.y, a.z + b.z)
  }

  function Sub(a: Vector3, b: Vector3): (r: Vector3)
    ensures Add(r, b) == a
  {
    Vector3(a.x - b.x, a.y - b.y, a.z - b.z)
  }

  /** Componentwise product. */
  function Mul(a: Vector3, b: Vector3): (r: Vector3)
    ensures b == One ==> r == a
    ensures a == One ==> r == b
    ensures b == Zero ==> r == Zero
  {
    Vector3(a.x * b.x, a.y * b.y, a.z * b.z)
  }

  /** The components of the componentwise product sum to the dot product. */
  lemma MulSumsToDot(a: Vector3, b: Vector3)
    ensures Dot(Mul(a, b), One) == Dot(a, b)
  {
    var m := Mul(a, b);
    assert m.x == a.x * b.x && m.y == a.y * b.y && m.z == a.z * b.z;
  }

  /** Product by a scalar. */
  function Scale(v: Vector3, k: real): (r: Vector3)
    ensures forall w :: Dot(r, w) == Dot(v, w) * k
  {
    Vector3(v.x * k, v.y * k, v.z * k)
  }

  /** Componentwise quotient; a zero component of `b` is a division by zero. */
  function Div(a: Vector3, b: Vector3): (r: Vector3)
    requires b.x != 0.0 && b.y != 0.0 && b.z != 0.0
    ensures Mul(r, b) == a
  {
    Vector3(a.x / b.x, a.y / b.y, a.z / b.z)
  }

  /** Quotient by a scalar. */
  function DivScalar(v: Vector3, k: real): (r: Vector3)
    requires k != 0.0
    ensures Scale(r, k) == v
  {
    Vector3(v.x / k, v.y / k, v.z / k)
  }

  /** The two-point constructor `Vector3(p1, p2)`: the vector from p1 to p2. */
  function FromPoints(p1: Vector3, p2: Vector3): (r: Vector3)
    ensures Add(p1, r) == p2
    ensures r == Sub(p2, p1)
  {
    Vector3(p2.x - p1.x, p2.y - p1.y, p2.z - p1.z)
  }

  /** `operator&`. */
  function Dot(a: Vector3, b: Vector3): real {
    a.x * b.x + a.y * b.y + a.z * b.z
  }

  /** A vector's dot product with itself is never negative, and vanishes
      only for the zero vector. */
  lemma DotSelf(a: Vector3)
    ensures 0.0 <= Dot(a, a)
    ensures Dot(a, a) == 0.0 <==> a == Zero
  {
    SumOfSquares(a.x, a.y, a.z);
  }

  /** `operator^`: the cross product, orthogonal to both operands. */
  function Cross(a: Vector3, b: Vector3): (r: Vector3)
    ensures Dot(a, r) == 0.0
    ensures Dot(b, r) == 0.0
  {
    Vector3(a.y * b.z - a.z * b.y, a.z * b.x - a.x * b.z, a.x * b.y - a.y * b.x)
  }

  /** The magnitude of the cross product: its squared length plus the
      squared dot product is the product of the squared lengths (Lagrange's
      identity), so it vanishes only for parallel operands. */
  lemma CrossLagrange(a: Vector3, b: Vector3)
    ensures Dot(Cross(a, b), Cross(a, b)) + Dot(a, b) * Dot(a, b) == Dot(a, a) * Dot(b, b)
  {
    var p, q, s := a.x * b.x, a.y * b.y, a.z * b.z;
    Lagrange(a.y, a.z, b.y, b.z);
    Lagrange(a.z, a.x, b.z, b.x);
    Lagrange(a.x, a.y, b.x, b.y);
    // The three pairwise dot products count each diagonal product twice.
    assert (q + s) * (q + s) + (s + p) * (s + p) + (p + q) * (p + q)
        == (p + q + s) * (p + q + s) + p * p + q * q + s * s;
    assert p * p == (a.x * a.x) * (b.x * b.x);
    assert q * q == (a.y * a.y) * (b.y * b.y);
    assert s * s == (a.z * a.z) * (b.z * b.z);
  }

  /** Unary minus. */
  function Neg(v: Vector3): (r: Vector3)
    ensures Add(v, r) == Zero
  {
    Vector3(-v.x, -v.y, -v.z)
  }

  /** `Negate()`, the in-place form of unary minus. */
  function Negate(v: Vector3): (r: Vector3)
    ensures r == Neg(v)
    ensures Neg(r) == v
  {
    Vector3(-v.x, -v.y, -v.z)
  }

  /** `operator==`: exact componentwise comparison. */
  predicate Eq(a: Vector3, b: Vector3) {
    a.x == b.x && a.y == b.y && a.z == b.z
  }

  /** `operator!=`: some component differs. */
  predicate Ne(a: Vector3, b: Vector3) {
    a.x != b.x || a.y != b.y || a.z != b.z
  }

  /** `GetMiddle`: halves every component. */
  function GetMiddle(v: Vector3): (r: Vector3)
    ensures Add(r, r) == v
  {
    Vector3(v.x / 2.0, v.y / 2.0, v.z / 2.0)
  }

  /** `GetLength` as written: `x^2 + y^2 + z^2`, with no square root, so it
      is the squared Euclidean length. */
  function GetLength(v: Vector3): (r: real)
    ensures r == Dot(v, v)
    ensures 0.0 <= r
    ensures r == 0.0 <==> v == Zero
  {
    DotSelf(v);
    v.x * v.x + v.y * v.y + v.z * v.z
  }

  /** `GetNormalized`: every component divided by `GetLength`. As
      `GetLength` is the squared length, the result's squared length is the
      reciprocal of `GetLength(v)`, so it is a unit vector only when `v`
      already is one. */
  function GetNormalized(v: Vector3): (r: Vector3)
    requires GetLength(v) != 0.0
    ensures Scale(r, GetLength(v)) == v
    ensures Dot(r, r) * GetLength(v) == 1.0
  {
    var length := GetLength(v);
    var r := Vector3(v.x / length, v.y / length, v.z / length);
    ReciprocalSquaredLength(v, length, r);
    r
  }

  lemma ReciprocalSquaredLength(v: Vector3, g: real, n: Vector3)
    requires g == Dot(v, v) && g != 0.0 && Scale(n, g) == v
    ensures Dot(n, n) * g == 1.0
  {
    var dn := Dot(n, n);
    var gg := g * g;
    assert v.x * v.x == (n.x * n.x) * gg by { assert v.x == n.x * g; }
    assert v.y * v.y == (n.y * n.y) * gg by { assert v.y == n.y * g; }
    assert v.z * v.z == (n.z * n.z) * gg by { assert v.z == n.z * g; }
    assert dn * gg == (n.x * n.x) * gg + (n.y * n.y) * gg + (n.z * n.z) * gg;
    assert g == dn * gg;
    var e := dn * g;
    assert e * g == dn * gg;
    CancelNonZero(e, 1.0, g);
  }

  /** `Normalize()`: the length is read once, so it agrees with `GetNormalized`. */
  function Normalize(v: Vector3): (r: Vector3)
    requires GetLength(v) != 0.0
    ensures r == GetNormalized(v)
  {
    var length := GetLength(v);
    Vector3(v.x / length, v.y / length, v.z / length)
  }

  /** `SetLength`: `Normalize()` followed by `*= length`. Because
      `GetLength` is squared, the new `GetLength` is length^2 divided by the
      old one, not length^2. */
  function SetLength(v: Vector3, length: real): (r: Vector3)
    requires GetLength(v) != 0.0
    ensures r == Scale(GetNormalized(v), length)
    ensures GetLength(r) * GetLength(v) == length * length
  {
    var n := Normalize(v);
    var r := Scale(n, length);
    SetLengthSquares(v, GetLength(v), n, length);
    r
  }

  lemma SetLengthSquares(v: Vector3, g: real, n: Vector3, length: real)
    requires g == Dot(v, v) && g != 0.0 && Dot(n, n) * g == 1.0
    ensures Dot(Scale(n, length), Scale(n, length)) * g == length * length
  {
    var m := Scale(n, length);
    var dn := Dot(n, n);
    var dm := Dot(m, m);
    assert dm == dn * (length * length);
    assert dm * g == (dn * g) * (length * length);
  }

  /** The Euclidean length, `sqrt` of `GetLength`: what the comment on
      `GetLength` promises and what `Vector2`/`Vector4` compute. */
  function GetEuclideanLength(v: Vector3, lib: Libm): (r: real)
    ensures SqrtSound(lib) ==> 0.0 <= r && r * r == Dot(v, v)
  {
    lib.sqrt(GetLength(v))
  }

  /** Normalization by the Euclidean length, which does give a unit vector. */
  function GetUnitNormalized(v: Vector3, lib: Libm): (r: Vector3)
    requires GetEuclideanLength(v, lib) != 0.0
    ensures Scale(r, GetEuclideanLength(v, lib)) == v
    ensures SqrtSound(lib) ==> Dot(r, r) == 1.0
  {
    var l := GetEuclideanLength(v, lib);
    var r := Vector3(v.x / l, v.y / l, v.z / l);
    UnitAfterDivision(v, l, r);
    r
  }

  lemma UnitAfterDivision(v: Vector3, l: real, r: Vector3)
    requires l != 0.0 && r == Vector3(v.x / l, v.y / l, v.z / l)
    ensures l * l == Dot(v, v) ==> Dot(r, r) == 1.0
  {
    assert r.x * l == v.x && r.y * l == v.y && r.z * l == v.z;
    assert Dot(r, r) * (l * l) == Dot(v, v);
    NonZeroProduct(Dot(r, r) - 1.0, l);
  }

  /** As written, `GetNormalized(v)` has unit length exactly when `v`
      already had: on every other non-zero vector the promise fails. */
  lemma GetNormalizedUnitOnlyIfUnit(v: Vector3)
    requires GetLength(v) != 0.0
    ensures Dot(GetNormalized(v), GetNormalized(v)) == 1.0 <==> GetLength(v) == 1.0
  {
    var n := GetNormalized(v);
    var dn, g := Dot(n, n), GetLength(v);
    assert dn * g == 1.0;
    if g == 1.0 {
      assert dn * g == dn;
    }
    if dn == 1.0 {
      assert dn * g == g;
    }
  }

  /** The smallest witness: (2, 0, 0) has `GetLength` 4, so its
      `GetNormalized` is not a unit vector. */
  lemma GetNormalizedIsNotUnit()
    ensures GetLength(Vector3(2.0, 0.0, 0.0)) == 4.0
    ensures Dot(GetNormalized(Vector3(2.0, 0.0, 0.0)), GetNormalized(Vector3(2.0, 0.0, 0.0))) != 1.0
  {
    GetNormalizedUnitOnlyIfUnit(Vector3(2.0, 0.0, 0.0));
  }

  /** The corrected normalization of (2, 0, 0) is (1, 0, 0). */
  lemma GetUnitNormalizedIsUnit(lib: Libm)
    requires SqrtSound(lib)
    ensures GetEuclideanLength(Vector3(2.0, 0.0, 0.0), lib) == 2.0
    ensures GetUnitNormalized(Vector3(2.0, 0.0, 0.0), lib) == Vector3(1.0, 0.0, 0.0)
  {
    var v := Vector3(2.0, 0.0, 0.0);
    assert GetLength(v) == 4.0;
    SqrtOf(lib, 4.0, 2.0);
  }

  /** `GetCopiedSign` and `Copysign`: each component takes the sign of the
      matching component of `source`. */
  function GetCopiedSign(v: Vector3, source: Vector3): (r: Vector3)
    ensures Abs(r.x) == Abs(v.x) && Abs(r.y) == Abs(v.y) && Abs(r.z) == Abs(v.z)
    ensures (source.x < 0.0 ==> r.x <= 0.0) && (0.0 <= source.x ==> 0.0 <= r.x)
    ensures (source.y < 0.0 ==> r.y <= 0.0) && (0.0 <= source.y ==> 0.0 <= r.y)
    ensures (source.z < 0.0 ==> r.z <= 0.0) && (0.0 <= source.z ==> 0.0 <= r.z)
  {
    Vector3(CopySign(v.x, source.x), CopySign(v.y, source.y), CopySign(v.z, source.z))
  }

  /** Copying the signs of a vector onto itself changes nothing. */
  lemma CopiedSignOfSelf(v: Vector3)
    ensures GetCopiedSign(v, v) == v
  {
  }

  /** `GetDistanceFromPoint`: the `GetLength` of the vector between the two
      points, hence the squared distance. */
  function GetDistanceFromPoint(a: Vector3, p: Vector3): (r: real)
    ensures r == Dot(FromPoints(a, p), FromPoints(a, p))
    ensures 0.0 <= r
    ensures r == 0.0 <==> a == p
  {
    var d := FromPoints(a, p);
    assert d == Zero <==> a == p;
    GetLength(d)
  }

  /** `Rotate` computes the rotated vector and adds it to `*this` in an
      expression whose value is dropped, so the vector is left as it was. */
  function Rotate(v: Vector3, theta: real, phi: real): (r: Vector3)
    ensures r == v
  {
    v
  }

  /** `GetSphericalCoords(r, theta, phi)`: the point at polar angle theta and
      azimuth phi on the sphere of radius r. */
  function GetSphericalCoords(radius: real, theta: real, phi: real, lib: Libm): (r: Vector3)
    ensures r.y == radius * lib.cos(theta)
    ensures r.x * lib.sin(phi) == r.z * lib.cos(phi)
    ensures Pythagorean(lib, phi) ==> r.x * lib.cos(phi) + r.z * lib.sin(phi) == radius * lib.sin(theta)
  {
    Vector3(radius * lib.sin(theta) * lib.cos(phi),
            radius * lib.cos(theta),
            radius * lib.sin(theta) * lib.sin(phi))
  }

  /** The spherical point is linear in the radius. */
  lemma SphericalScalesWithRadius(radius: real, theta: real, phi: real, lib: Libm)
    ensures GetSphericalCoords(radius, theta, phi, lib) == Scale(GetSphericalCoords(1.0, theta, phi, lib), radius)
    ensures GetSphericalCoords(0.0, theta, phi, lib) == Zero
  {
  }

  /** With an idealised sine and cosine, the spherical point lies on the
      sphere of the given radius. */
  lemma SphericalOnSphere(radius: real, theta: real, phi: real, lib: Libm)
    requires Pythagorean(lib, theta) && Pythagorean(lib, phi)
    ensures Dot(GetSphericalCoords(radius, theta, phi, lib), GetSphericalCoords(radius, theta, phi, lib)) == radius * radius
  {
    var st, ct, sp, cp := lib.sin(theta), lib.cos(theta), lib.sin(phi), lib.cos(phi);
    var h := radius * st;
    var p := GetSphericalCoords(radius, theta, phi, lib);
    assert p == Vector3(h * cp, radius * ct, h * sp);
    calc {
      Dot(p, p);
      (h * cp) * (h * cp) + (radius * ct) * (radius * ct) + (h * sp) * (h * sp);
      h * h * (sp * sp + cp * cp) + radius * radius * (ct * ct);
      h * h + radius * radius * (ct * ct);
      radius * radius * (st * st + ct * ct);
      radius * radius;
    }
  }

  lemma DotCommutes(a: Vector3, b: Vector3)
    ensures Dot(a, b) == Dot(b, a)
  {
  }

  lemma CrossAntiCommutes(a: Vector3, b: Vector3)
    ensures Cross(a, b) == Neg(Cross(b, a))
    ensures Cross(a, a) == Zero
  {
  }

  lemma NegInvolution(v: Vector3)
    ensures Neg(Neg(v)) == v
  {
  }

  /** `operator==` is equality of values, and `operator!=` its negation. */
  lemma EqIsEquality(a: Vector3, b: Vector3)
    ensures Eq(a, b) <==> a == b
    ensures Eq(a, b) <==> Eq(b, a)
    ensures Ne(a, b) <==> !Eq(a, b)
  {
  }
}

/** Four-component vectors (Vector4.cpp). The dot and cross products, the
    length and the normalization read only x, y and z; `w` is carried
    along, or set to 1 by the cross product. */
module Vec4 {
  import opened MathLib
  import Vec3

  datatype Vector4 = Vector4(x: real, y: real, z: real, w: real)

  /** The default constructor: the origin as a homogeneous point. */
  const Default: Vector4 := Vector4(0.0, 0.0, 0.0, 1.0)

  /** The neutral element of the componentwise product. */
  const One: Vector4 := Vector4(1.0, 1.0, 1.0, 1.0)

  /** The spatial part. */
  function Xyz(v: Vector4): Vec3.Vector3 {
    Vec3.Vector3(v.x, v.y, v.z)
  }

  /** The two-point constructor `Vector4(p1, p2, w)`. */
  function FromPoints(p1: Vector4, p2: Vector4, w: real): (r: Vector4)
    ensures Xyz(r) == Vec3.FromPoints(Xyz(p1), Xyz(p2))
    ensures r.w == w
  {
    Vector4(p2.x - p1.x, p2.y - p1.y, p2.z - p1.z, w)
  }

  /** The polar constructor: the spherical point of the given length and
      angles, with the given `w`. */
  function FromPolar(theta: real, phi: real, length: real, w: real, lib: Libm): (r: Vector4)
    ensures Xyz(r) == Vec3.GetSphericalCoords(length, theta, phi, lib)
    ensures r.w == w
  {
    Vector4(length * lib.sin(theta) * lib.cos(phi),
            length * lib.cos(theta),
            length * lib.sin(theta) * lib.sin(phi),
            w)
  }

  /** `operator&`: w takes no part. */
  function Dot(a: Vector4, b: Vector4): (r: real)
    ensures r == Vec3.Dot(Xyz(a), Xyz(b))
  {
    a.x * b.x + a.y * b.y + a.z * b.z
  }

  /** `operator^`: the cross product of the spatial parts, with w = 1. */
  function Cross(a: Vector4, b: Vector4): (r: Vector4)
    ensures Xyz(r) == Vec3.Cross(Xyz(a), Xyz(b))
    ensures r.w == 1.0
    ensures Dot(a, r) == 0.0 && Dot(b, r) == 0.0
  {
    Vector4(a.y * b.z - a.z * b.y, a.z * b.x - a.x * b.z, a.x * b.y - a.y * b.x, 1.0)
  }

  /** Unary minus negates x, y and z and keeps w, so `v + (-v)` is not the
      zero vector: its w is twice `v.w`. */
  function Neg(v: Vector4): (r: Vector4)
    ensures Xyz(r) == Vec3.Neg(Xyz(v))
    ensures r.w == v.w
    ensures Add(v, r) == Vector4(0.0, 0.0, 0.0, 2.0 * v.w)
  {
    Vector4(-v.x, -v.y, -v.z, v.w)
  }

  /** `Negate()`, the in-place form of unary minus. */
  function Negate(v: Vector4): (r: Vector4)
    ensures r == Neg(v)
    ensures Neg(r) == v
  {
    Vector4(-v.x, -v.y, -v.z, v.w)
  }

  /** `operator==` compares all four components. */
  predicate Eq(a: Vector4, b: Vector4) {
    a.x == b.x && a.y == b.y && a.z == b.z && a.w == b.w
  }

  /** `operator!=`: some component, w included, differs. */
  predicate Ne(a: Vector4, b: Vector4) {
    a.x != b.x || a.y != b.y || a.z != b.z || a.w != b.w
  }

  /** The componentwise operators; unlike the products they include w. */
  function Add(a: Vector4, b: Vector4): (r: Vector4)
    ensures forall u :: Dot(r, u) == Dot(a, u) + Dot(b, u)
    ensures r.w == a.w + b.w
  {
    Vector4(a.x + b.x, a.y + b.y, a.z + b.z, a.w + b.w)
  }

  function Sub(a: Vector4, b: Vector4): (r: Vector4)
    ensures Add(r, b) == a
  {
    Vector4(a.x - b.x, a.y - b.y, a.z - b.z, a.w - b.w)
  }

  function Mul(a: Vector4, b: Vector4): (r: Vector4)
    ensures b == One ==> r == a
    ensures a == One ==> r == b
    ensures r.w == a.w * b.w
  {
    Vector4(a.x * b.x, a.y * b.y, a.z * b.z, a.w * b.w)
  }

  function Scale(v: Vector4, k: real): (r: Vector4)
    ensures forall u :: Dot(r, u) == Dot(v, u) * k
    ensures r.w == v.w * k
  {
    Vector4(v.x * k, v.y * k, v.z * k, v.w * k)
  }

  function Div(a: Vector4, b: Vector4): (r: Vector4)
    requires b.x != 0.0 && b.y != 0.0 && b.z != 0.0 && b.w != 0.0
    ensures Mul(r, b) == a
  {
    Vector4(a.x / b.x, a.y / b.y, a.z / b.z, a.w / b.w)
  }

  function DivScalar(v: Vector4, k: real): (r: Vector4)
    requires k != 0.0
    ensures Scale(r, k) == v
  {
    Vector4(v.x / k, v.y / k, v.z / k, v.w / k)
  }

  /** `+= val` and `-= val` with a scalar add it to all four components. */
  function AddScalar(v: Vector4, k: real): (r: Vector4)
    ensures r == Add(v, Vector4(k, k, k, k))
    ensures Sub(r, v) == Vector4(k, k, k, k)
  {
    Vector4(v.x + k, v.y + k, v.z + k, v.w + k)
  }

  function SubScalar(v: Vector4, k: real): (r: Vector4)
    ensures AddScalar(r, k) == v
  {
    Vector4(v.x - k, v.y - k, v.z - k, v.w - k)
  }

  /** `GetMiddle` halves the spatial part and keeps w. */
  function GetMiddle(v: Vector4): (r: Vector4)
    ensures Vec3.Add(Xyz(r), Xyz(r)) == Xyz(v)
    ensures r.w == v.w
  {
    Vector4(v.x / 2.0, v.y / 2.0, v.z / 2.0, v.w)
  }

  /** `GetLength`: the Euclidean length of the spatial part. */
  function GetLength(v: Vector4, lib: Libm): (r: real)
    ensures r == Vec3.GetEuclideanLength(Xyz(v), lib)
    ensures SqrtSound(lib) ==> 0.0 <= r && r * r == Dot(v, v)
  {
    assert Vec3.GetLength(Xyz(v)) == v.x * v.x + v.y * v.y + v.z * v.z;
    lib.sqrt(v.x * v.x + v.y * v.y + v.z * v.z)
  }

  /** `GetDistanceFromPoint`: the length of the vector between the points. */
  function GetDistanceFromPoint(a: Vector4, p: Vector4, lib: Libm): (r: real)
    ensures r == Vec3.GetEuclideanLength(Vec3.FromPoints(Xyz(a), Xyz(p)), lib)
  {
    GetLength(FromPoints(a, p, a.w), lib)
  }

  /** `GetHomogenized` divides all four components by w, so w becomes 1. */
  function GetHomogenized(v: Vector4): (r: Vector4)
    requires v.w != 0.0
    ensures r.w == 1.0
    ensures Scale(r, v.w) == v
  {
    Vector4(v.x / v.w, v.y / v.w, v.z / v.w, v.w / v.w)
  }

  /** `Homogenize()`, the in-place form. */
  function Homogenize(v: Vector4): (r: Vector4)
    requires v.w != 0.0
    ensures r == GetHomogenized(v)
  {
    Vector4(v.x / v.w, v.y / v.w, v.z / v.w, v.w / v.w)
  }

  /** `GetNormalized` divides the spatial part by `GetLength` and keeps w. */
  function GetNormalized(v: Vector4, lib: Libm): (r: Vector4)
    requires GetLength(v, lib) != 0.0
    ensures Xyz(r) == Vec3.GetUnitNormalized(Xyz(v), lib)
    ensures r.w == v.w
    ensures SqrtSound(lib) ==> Dot(r, r) == 1.0
  {
    var length := GetLength(v, lib);
    Vector4(v.x / length, v.y / length, v.z / length, v.w)
  }

  /** `Normalize()`: the length is read once, so it agrees with `GetNormalized`. */
  function Normalize(v: Vector4, lib: Libm): (r: Vector4)
    requires GetLength(v, lib) != 0.0
    ensures r == GetNormalized(v, lib)
  {
    var length := GetLength(v, lib);
    Vector4(v.x / length, v.y / length, v.z / length, v.w)
  }

  /** `GetCopiedSign` and `Copysign`: the spatial components take the signs
      of `source`'s; w is kept. */
  function GetCopiedSign(v: Vector4, source: Vector4): (r: Vector4)
    ensures Xyz(r) == Vec3.GetCopiedSign(Xyz(v), Xyz(source))
    ensures r.w == v.w
  {
    Vector4(CopySign(v.x, source.x), CopySign(v.y, source.y), CopySign(v.z, source.z), v.w)
  }

  /** `ToVec3`: the spatial part, divided by w when asked to homogenize. */
  function ToVec3(v: Vector4, homogenize: bool): (r: Vec3.Vector3)
    requires homogenize ==> v.w != 0.0
    ensures !homogenize ==> r == Xyz(v)
    ensures homogenize ==> r == Xyz(GetHomogenized(v))
  {
    if homogenize then Vec3.Vector3(v.x / v.w, v.y / v.w, v.z / v.w)
    else Vec3.Vector3(v.x, v.y, v.z)
  }

  /** `Vector3::ToVec4`: the point with w = 1. */
  function FromVec3(p: Vec3.Vector3): (r: Vector4)
    ensures Xyz(r) == p && r.w == 1.0
  {
    Vector4(p.x, p.y, p.z, 1.0)
  }

  /** Going to a Vector4 and back returns the point, homogenized or not. */
  lemma Vec3RoundTrip(p: Vec3.Vector3, homogenize: bool)
    ensures ToVec3(FromVec3(p), homogenize) == p
  {
  }

  /** Going back to a Vector4 from the homogenized point gives the
      homogenized vector. */
  lemma HomogenizedRoundTrip(v: Vector4)
    requires v.w != 0.0
    ensures FromVec3(ToVec3(v, true)) == GetHomogenized(v)
  {
  }

  /** Homogenizing twice is homogenizing once. */
  lemma HomogenizeIdempotent(v: Vector4)
    requires v.w != 0.0
    ensures GetHomogenized(GetHomogenized(v)) == GetHomogenized(v)
  {
    var h := GetHomogenized(v);
    assert h.w == 1.0;
  }

  /** The default vector is the homogeneous origin: it is already
      homogenized and stands for the origin either way. */
  lemma DefaultIsHomogeneousOrigin()
    ensures GetHomogenized(Default) == Default
    ensures ToVec3(Default, true) == Vec3.Zero && ToVec3(Default, false) == Vec3.Zero
    ensures FromVec3(Vec3.Zero) == Default
  {
  }

  /** Subtracting a scalar undoes adding it, and the other way round. */
  lemma ScalarShiftRoundTrip(v: Vector4, k: real)
    ensures SubScalar(AddScalar(v, k), k) == v
    ensures AddScalar(SubScalar(v, k), k) == v
  {
  }

  lemma NegInvolution(v: Vector4)
    ensures Neg(Neg(v)) == v
  {
  }

  /** `operator==` is equality of values, and `operator!=` its negation. */
  lemma EqIsEquality(a: Vector4, b: Vector4)
    ensures Eq(a, b) <==> a == b
    ensures Ne(a, b) <==> !Eq(a, b)
  {
  }
}

/** 4x4 matrices and the transform builders of Matrix.cpp. A matrix is a
    sequence of four rows of four entries, filled in the order the
    sixteen-argument constructor takes them. Points are row vectors
    multiplied on the left, which is why the translation sits in the last
    row. */
module Matrix {
  import opened MathLib
  import Vec3

  predicate IsMatrix4(m: seq<seq<real>>) {
    |m| == 4 && forall i :: 0 <= i < 4 ==> |m[i]| == 4
  }

  type Matrix4 = m: seq<seq<real>> | IsMatrix4(m)
    witness [[0.0, 0.0, 0.0, 0.0], [0.0, 0.0, 0.0, 0.0], [0.0, 0.0, 0.0, 0.0], [0.0, 0.0, 0.0, 0.0]]

  /** The sixteen-argument constructor, row by row. */
  function Of(a: real, b: real, c: real, d: real,
              e: real, f: real, g: real, h: real,
              i: real, j: real, k: real, l: real,
              m: real, n: real, o: real, p: real): (r: Matrix4)
    ensures r[0] == [a, b, c, d] && r[1] == [e, f, g, h]
    ensures r[2] == [i, j, k, l] && r[3] == [m, n, o, p]
  {
    [[a, b, c, d], [e, f, g, h], [i, j, k, l], [m, n, o, p]]
  }

  const Identity: Matrix4 := Of(1.0, 0.0, 0.0, 0.0,
                                0.0, 1.0, 0.0, 0.0,
                                0.0, 0.0, 1.0, 0.0,
                                0.0, 0.0, 0.0, 1.0)

  /** Two matrices with the same entries are the same matrix. */
  lemma Extensionality(a: Matrix4, b: Matrix4)
    requires forall i, j :: 0 <= i < 4 && 0 <= j < 4 ==> a[i][j] == b[i][j]
    ensures a == b
  {
    forall i | 0 <= i < 4
      ensures a[i] == b[i]
    {
      assert |a[i]| == 4 && |b[i]| == 4;
    }
  }

  /** Entry (i, j) of the product: row i of `a` against column j of `b`. */
  function Entry(a: Matrix4, b: Matrix4, i: nat, j: nat): real
    requires i < 4 && j < 4
  {
    a[i][0] * b[0][j] + a[i][1] * b[1][j] + a[i][2] * b[2][j] + a[i][3] * b[3][j]
  }

  function ProductRow(a: Matrix4, b: Matrix4, i: nat): (r: seq<real>)
    requires i < 4
    ensures |r| == 4
  {
    [Entry(a, b, i, 0), Entry(a, b, i, 1), Entry(a, b, i, 2), Entry(a, b, i, 3)]
  }

  /** `operator*` on two 4x4 matrices: the usual matrix product. */
  function Mul(a: Matrix4, b: Matrix4): (r: Matrix4)
    ensures forall i, j :: 0 <= i < 4 && 0 <= j < 4 ==> r[i][j] == Entry(a, b, i, j)
  {
    [ProductRow(a, b, 0), ProductRow(a, b, 1), ProductRow(a, b, 2), ProductRow(a, b, 3)]
  }

  lemma IdentityLeft(m: Matrix4)
    ensures Mul(Identity, m) == m
  {
    var r := Mul(Identity, m);
    forall i, j | 0 <= i < 4 && 0 <= j < 4
      ensures r[i][j] == m[i][j]
    {
      assert r[i][j] == Entry(Identity, m, i, j);
    }
    Extensionality(r, m);
  }

  lemma IdentityRight(m: Matrix4)
    ensures Mul(m, Identity) == m
  {
    var r := Mul(m, Identity);
    forall i, j | 0 <= i < 4 && 0 <= j < 4
      ensures r[i][j] == m[i][j]
    {
      assert r[i][j] == Entry(m, Identity, i, j);
    }
    Extensionality(r, m);
  }

  /** The row vector (p, 1) times `m`, as a point: the first three entries
      of the product, before any division by the fourth. */
  function Apply(p: Vec3.Vector3, m: Matrix4): (r: Vec3.Vector3)
    ensures r.x == p.x * m[0][0] + p.y * m[1][0] + p.z * m[2][0] + m[3][0]
    ensures r.y == p.x * m[0][1] + p.y * m[1][1] + p.z * m[2][1] + m[3][1]
    ensures r.z == p.x * m[0][2] + p.y * m[1][2] + p.z * m[2][2] + m[3][2]
  {
    Vec3.Vector3(p.x * m[0][0] + p.y * m[1][0] + p.z * m[2][0] + m[3][0],
                 p.x * m[0][1] + p.y * m[1][1] + p.z * m[2][1] + m[3][1],
                 p.x * m[0][2] + p.y * m[1][2] + p.z * m[2][2] + m[3][2])
  }

  /** `GetTranslationMatrix`: the identity with the translation in the last row. */
  function Translation(t: Vec3.Vector3): (r: Matrix4)
    ensures Affine(r)
    ensures forall p :: Apply(p, r) == Vec3.Add(p, t)
    ensures r[3] == [t.x, t.y, t.z, 1.0]
  {
    Of(1.0, 0.0, 0.0, 0.0,
       0.0, 1.0, 0.0, 0.0,
       0.0, 0.0, 1.0, 0.0,
       t.x, t.y, t.z, 1.0)
  }

  /** `GetScaleMatrix`: the scale factors on the diagonal. */
  function ScaleMatrix(s: Vec3.Vector3): (r: Matrix4)
    ensures Affine(r)
    ensures forall p :: Apply(p, r) == Vec3.Mul(p, s)
    ensures r[3] == [0.0, 0.0, 0.0, 1.0]
  {
    Of(s.x, 0.0, 0.0, 0.0,
       0.0, s.y, 0.0, 0.0,
       0.0, 0.0, s.z, 0.0,
       0.0, 0.0, 0.0, 1.0)
  }

  /** `GetXRotationMatrix`: the rows (1, 0, 0, 0), (0, c, -s, 0),
      (0, s, c, 0), (0, 0, 0, 1) for c, s the cosine and sine of the angle. */
  function RotationX(angle: real, lib: Libm): (r: Matrix4)
    ensures Affine(r)
    ensures r[0] == [1.0, 0.0, 0.0, 0.0] && r[3] == [0.0, 0.0, 0.0, 1.0]
  {
    var c, s := lib.cos(angle), lib.sin(angle);
    Of(1.0, 0.0, 0.0, 0.0,
       0.0, c, -s, 0.0,
       0.0, s, c, 0.0,
       0.0, 0.0, 0.0, 1.0)
  }

  /** `GetYRotationMatrix`: the rows (c, 0, s, 0), (0, 1, 0, 0),
      (-s, 0, c, 0), (0, 0, 0, 1). */
  function RotationY(angle: real, lib: Libm): (r: Matrix4)
    ensures Affine(r)
    ensures r[1] == [0.0, 1.0, 0.0, 0.0] && r[3] == [0.0, 0.0, 0.0, 1.0]
  {
    var c, s := lib.cos(angle), lib.sin(angle);
    Of(c, 0.0, s, 0.0,
       0.0, 1.0, 0.0, 0.0,
       -s, 0.0, c, 0.0,
       0.0, 0.0, 0.0, 1.0)
  }

  /** `GetZRotationMatrix`: the rows (c, -s, 0, 0), (s, c, 0, 0),
      (0, 0, 1, 0), (0, 0, 0, 1). */
  function RotationZ(angle: real, lib: Libm): (r: Matrix4)
    ensures Affine(r)
    ensures r[2] == [0.0, 0.0, 1.0, 0.0] && r[3] == [0.0, 0.0, 0.0, 1.0]
  {
    var c, s := lib.cos(angle), lib.sin(angle);
    Of(c, -s, 0.0, 0.0,
       s, c, 0.0, 0.0,
       0.0, 0.0, 1.0, 0.0,
       0.0, 0.0, 0.0, 1.0)
  }

  /** A point turned by `RotationX` keeps its x; y and z turn in their plane. */
  lemma RotationXApply(p: Vec3.Vector3, angle: real, lib: Libm)
    ensures Apply(p, RotationX(angle, lib)) ==
      Vec3.Vector3(p.x, p.y * lib.cos(angle) + p.z * lib.sin(angle), p.z * lib.cos(angle) - p.y * lib.sin(angle))
  {
    var m, c, s := RotationX(angle, lib), lib.cos(angle), lib.sin(angle);
    assert m[1] == [0.0, c, -s, 0.0];
    assert m[2] == [0.0, s, c, 0.0];
  }

  /** A point turned by `RotationY` keeps its y. */
  lemma RotationYApply(p: Vec3.Vector3, angle: real, lib: Libm)
    ensures Apply(p, RotationY(angle, lib)) ==
      Vec3.Vector3(p.x * lib.cos(angle) - p.z * lib.sin(angle), p.y, p.z * lib.cos(angle) + p.x * lib.sin(angle))
  {
    var m, c, s := RotationY(angle, lib), lib.cos(angle), lib.sin(angle);
    assert m[0] == [c, 0.0, s, 0.0];
    assert m[2] == [-s, 0.0, c, 0.0];
  }

  /** A point turned by `RotationZ` keeps its z. */
  lemma RotationZApply(p: Vec3.Vector3, angle: real, lib: Libm)
    ensures Apply(p, RotationZ(angle, lib)) ==
      Vec3.Vector3(p.x * lib.cos(angle) + p.y * lib.sin(angle), p.y * lib.cos(angle) - p.x * lib.sin(angle), p.z)
  {
    var m, c, s := RotationZ(angle, lib), lib.cos(angle), lib.sin(angle);
    assert m[0] == [c, -s, 0.0, 0.0];
    assert m[1] == [s, c, 0.0, 0.0];
  }

  /** A rotation by 0 is the identity. */
  lemma RotationsAtZero(lib: Libm)
    requires TrigAtZero(lib)
    ensures RotationX(0.0, lib) == Identity
    ensures RotationY(0.0, lib) == Identity
    ensures RotationZ(0.0, lib) == Identity
  {
  }

  /** `GetTransformMatrix`. The reverse order (for cameras) is
      T * Ry * Rx * Rz * S; the forward order (for objects) is
      S * Rz * Rx * Ry * T, so with row vectors an object is scaled, then
      rotated about z, x and y, and then translated, while a camera point
      is translated first and scaled last. */
  function GetTransformMatrix(position: Vec3.Vector3, rotation: Vec3.Vector3, scale: Vec3.Vector3,
                              reverse: bool, lib: Libm): (r: Matrix4)
    ensures Affine(r)
    ensures !reverse ==> forall p :: (Apply(p, r) ==
      Vec3.Add(Apply(Apply(Apply(Vec3.Mul(p, scale), RotationZ(rotation.z, lib)),
                           RotationX(rotation.x, lib)), RotationY(rotation.y, lib)), position))
    ensures reverse ==> forall p :: (Apply(p, r) ==
      Vec3.Mul(Apply(Apply(Apply(Vec3.Add(p, position), RotationY(rotation.y, lib)),
                           RotationX(rotation.x, lib)), RotationZ(rotation.z, lib)), scale))
  {
    var t, ry, rx, rz, s := Translation(position), RotationY(rotation.y, lib),
                            RotationX(rotation.x, lib), RotationZ(rotation.z, lib), ScaleMatrix(scale);
    if reverse then
      ChainOfFive(t, ry, rx, rz, s);
      Mul(Mul(Mul(Mul(t, ry), rx), rz), s)
    else
      ChainOfFive(s, rz, rx, ry, t);
      Mul(Mul(Mul(Mul(s, rz), rx), ry), t)
  }

  lemma ApplyIdentity(p: Vec3.Vector3)
    ensures Apply(p, Identity) == p
  {
  }

  /** Translating by zero and scaling by one change nothing. */
  lemma NeutralBuilders()
    ensures Translation(Vec3.Zero) == Identity
    ensures ScaleMatrix(Vec3.Vector3(1.0, 1.0, 1.0)) == Identity
  {
  }

  /** Two translations compose into the translation by the sum. */
  lemma TranslationsCompose(a: Vec3.Vector3, b: Vec3.Vector3)
    ensures Mul(Translation(a), Translation(b)) == Translation(Vec3.Add(a, b))
  {
    var m, t := Mul(Translation(a), Translation(b)), Translation(Vec3.Add(a, b));
    forall i, j | 0 <= i < 4 && 0 <= j < 4
      ensures m[i][j] == t[i][j]
    {
      assert m[i][j] == Entry(Translation(a), Translation(b), i, j);
    }
    Extensionality(m, t);
  }

  /** The default transform (no translation, no rotation, unit scale) gives
      the identity in both orders. */
  lemma DefaultTransformIsIdentity(reverse: bool, lib: Libm)
    requires TrigAtZero(lib)
    ensures GetTransformMatrix(Vec3.Zero, Vec3.Zero, Vec3.Vector3(1.0, 1.0, 1.0), reverse, lib) == Identity
  {
    RotationsAtZero(lib);
    NeutralBuilders();
    IdentityLeft(Identity);
  }

  /** Without rotation the two orders differ: the forward order moves the
      origin to the position, the reverse order to the scaled position. */
  lemma OrdersDifferOnTranslation(position: Vec3.Vector3, scale: Vec3.Vector3, lib: Libm)
    requires TrigAtZero(lib)
    ensures Apply(Vec3.Zero, GetTransformMatrix(position, Vec3.Zero, scale, false, lib)) == position
    ensures Apply(Vec3.Zero, GetTransformMatrix(position, Vec3.Zero, scale, true, lib)) == Vec3.Mul(position, scale)
  {
    RotationsAtZero(lib);
    var forward := GetTransformMatrix(position, Vec3.Zero, scale, false, lib);
    var origin := Vec3.Mul(Vec3.Zero, scale);
    assert origin == Vec3.Zero;
    ApplyIdentity(origin);
    assert Apply(Vec3.Zero, forward) == Vec3.Add(origin, position);
    var backward := GetTransformMatrix(position, Vec3.Zero, scale, true, lib);
    var moved := Vec3.Add(Vec3.Zero, position);
    assert moved == position;
    ApplyIdentity(moved);
    assert Apply(Vec3.Zero, backward) == Vec3.Mul(moved, scale);
  }

  /** Every builder keeps (0, 0, 0, 1) as the last column. */
  predicate Affine(m: Matrix4) {
    m[0][3] == 0.0 && m[1][3] == 0.0 && m[2][3] == 0.0 && m[3][3] == 1.0
  }

  /** Products of such matrices keep it too. */
  lemma MulAffine(a: Matrix4, b: Matrix4)
    requires Affine(a) && Affine(b)
    ensures Affine(Mul(a, b))
  {
  }

  /** Applying a product whose left factor keeps (0, 0, 0, 1) as its last
      column is applying the two factors one after the other. */
  lemma ApplyMul(p: Vec3.Vector3, a: Matrix4, b: Matrix4)
    requires Affine(a)
    ensures Apply(p, Mul(a, b)) == Apply(Apply(p, a), b)
  {
  }

  /** The left-to-right product of five such matrices applies them in that order. */
  lemma ChainOfFive(a: Matrix4, b: Matrix4, c: Matrix4, d: Matrix4, e: Matrix4)
    requires Affine(a) && Affine(b) && Affine(c) && Affine(d) && Affine(e)
    ensures Affine(Mul(Mul(Mul(Mul(a, b), c), d), e))
    ensures forall p :: (Apply(p, Mul(Mul(Mul(Mul(a, b), c), d), e)) ==
      Apply(Apply(Apply(Apply(Apply(p, a), b), c), d), e))
  {
    var ab := Mul(a, b);
    MulAffine(a, b);
    var abc := Mul(ab, c);
    MulAffine(ab, c);
    var abcd := Mul(abc, d);
    MulAffine(abc, d);
    MulAffine(abcd, e);
    forall p
      ensures (Apply(p, Mul(abcd, e)) == Apply(Apply(Apply(Apply(Apply(p, a), b), c), d), e))
    {
      ApplyMul(p, abcd, e);
      ApplyMul(p, abc, d);
      ApplyMul(p, ab, c);
      ApplyMul(p, a, b);
    }
  }
}

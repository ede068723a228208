/** The `Transform` record of Transform.h: a position, a rotation given as
    three angles, and a scale. */
module Transforms {
  import opened MathLib
  import Vec3
  import Matrix

  datatype Transform = Transform(position: Vec3.Vector3, rotation: Vec3.Vector3, scale: Vec3.Vector3)

  /** The default constructor: at the origin, not rotated, unit scale. */
  const Default: Transform := Transform(Vec3.Zero, Vec3.Zero, Vec3.Vector3(1.0, 1.0, 1.0))

  /** `SetTransform`: every field is copied from `t`, so the result is `t`
      whatever the transform held before. */
  function SetTransform(current: Transform, t: Transform): (r: Transform)
    ensures r.position == t.position && r.rotation == t.rotation && r.scale == t.scale
  {
    Transform(t.position, t.rotation, t.scale)
  }

  /** The default transform is neutral: its scale has no zero component, and
      with exact trigonometry at 0 its transform matrix is the identity in
      both orders. */
  lemma DefaultIsNeutral(reverse: bool, lib: Libm)
    requires TrigAtZero(lib)
    ensures Default.scale.x != 0.0 && Default.scale.y != 0.0 && Default.scale.z != 0.0
    ensures Matrix.GetTransformMatrix(Default.position, Default.rotation, Default.scale, reverse, lib)
         == Matrix.Identity
    ensures forall p :: Matrix.Apply(p, Matrix.GetTransformMatrix(Default.position, Default.rotation,
                                                                  Default.scale, reverse, lib)) == p
  {
    Matrix.DefaultTransformIsIdentity(reverse, lib);
    forall p
      ensures Matrix.Apply(p, Matrix.Identity) == p
    {
      Matrix.ApplyIdentity(p);
    }
  }

  /** Setting twice is setting once with the second value. */
  lemma SetTransformLastWins(current: Transform, a: Transform, b: Transform)
    ensures SetTransform(SetTransform(current, a), b) == SetTransform(current, b)
    ensures SetTransform(current, current) == current
  {
  }
}

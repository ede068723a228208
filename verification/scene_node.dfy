/** Scene nodes (SceneNode.cpp): a name, a transform and the world matrix
    built from it. Each setter replaces one part of the transform and
    rebuilds the matrix in the forward (object) order. */
module SceneNodes {
  import opened MathLib
  import Vec3
  import Matrix
  import opened Transforms

  datatype SceneNode = SceneNode(name: string, transform: Transform, mat: Matrix.Matrix4)

  /** `UpdateMat`: the matrix of a transform, never in the camera order. */
  function MatrixOf(t: Transform, lib: Libm): (r: Matrix.Matrix4)
    ensures r == Matrix.GetTransformMatrix(t.position, t.rotation, t.scale, false, lib)
    ensures forall p :: (Matrix.Apply(p, r) ==
      Vec3.Add(Matrix.Apply(Matrix.Apply(Matrix.Apply(Vec3.Mul(p, t.scale), Matrix.RotationZ(t.rotation.z, lib)),
                                         Matrix.RotationX(t.rotation.x, lib)), Matrix.RotationY(t.rotation.y, lib)),
               t.position))
  {
    Matrix.GetTransformMatrix(t.position, t.rotation, t.scale, false, lib)
  }

  /** The node's matrix is the one its transform describes. */
  predicate Consistent(node: SceneNode, lib: Libm) {
    node.mat == MatrixOf(node.transform, lib)
  }

  /** The named constructor: the default transform and its matrix. */
  function NewSceneNode(name: string, lib: Libm): (r: SceneNode)
    ensures r.name == name && r.transform == Default
    ensures Consistent(r, lib)
    ensures TrigAtZero(lib) ==> r.mat == Matrix.Identity
  {
    var r := SceneNode(name, Default, MatrixOf(Default, lib));
    if TrigAtZero(lib) then
      Matrix.DefaultTransformIsIdentity(false, lib);
      r
    else r
  }

  function SetPosition(node: SceneNode, position: Vec3.Vector3, lib: Libm): (r: SceneNode)
    ensures r.transform.position == position
    ensures r.transform.rotation == node.transform.rotation && r.transform.scale == node.transform.scale
    ensures r.name == node.name
    ensures Consistent(r, lib)
  {
    var t := node.transform.(position := position);
    node.(transform := t, mat := MatrixOf(t, lib))
  }

  function SetRotation(node: SceneNode, rotation: Vec3.Vector3, lib: Libm): (r: SceneNode)
    ensures r.transform.rotation == rotation
    ensures r.transform.position == node.transform.position && r.transform.scale == node.transform.scale
    ensures r.name == node.name
    ensures Consistent(r, lib)
  {
    var t := node.transform.(rotation := rotation);
    node.(transform := t, mat := MatrixOf(t, lib))
  }

  function SetScale(node: SceneNode, scale: Vec3.Vector3, lib: Libm): (r: SceneNode)
    ensures r.transform.scale == scale
    ensures r.transform.position == node.transform.position && r.transform.rotation == node.transform.rotation
    ensures r.name == node.name
    ensures Consistent(r, lib)
  {
    var t := node.transform.(scale := scale);
    node.(transform := t, mat := MatrixOf(t, lib))
  }

  /** Setting the same value again changes nothing, and a consistent node
      set to its own position is the node itself. */
  lemma SettersIdempotent(node: SceneNode, v: Vec3.Vector3, lib: Libm)
    ensures SetPosition(SetPosition(node, v, lib), v, lib) == SetPosition(node, v, lib)
    ensures SetRotation(SetRotation(node, v, lib), v, lib) == SetRotation(node, v, lib)
    ensures SetScale(SetScale(node, v, lib), v, lib) == SetScale(node, v, lib)
    ensures Consistent(node, lib) ==> SetPosition(node, node.transform.position, lib) == node
  {
  }

  /** Setters on different parts commute. */
  lemma SettersCommute(node: SceneNode, position: Vec3.Vector3, rotation: Vec3.Vector3, scale: Vec3.Vector3,
                       lib: Libm)
    ensures SetRotation(SetPosition(node, position, lib), rotation, lib)
         == SetPosition(SetRotation(node, rotation, lib), position, lib)
    ensures SetScale(SetPosition(node, position, lib), scale, lib)
         == SetPosition(SetScale(node, scale, lib), position, lib)
    ensures SetScale(SetRotation(node, rotation, lib), scale, lib)
         == SetRotation(SetScale(node, scale, lib), rotation, lib)
  {
  }
}

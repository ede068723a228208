# OpenGLSceneViewer core, modelled in Dafny

This project models the computational core of OpenGLSceneViewer, a small
OpenGL scene viewer. That core has three parts.

- **OBJ mesh loader** (`ParserOBJ::ParseInputFile`). It reads lines one by one:
  - `#` lines are comments and are skipped;
  - `v `, `vn` and `vt` lines add a position, a normal or texture coordinates;
  - `f` lines add three `p/t/n` corners. Each index is made 0-based by a
    `uint32_t` decrement, and each corner bumps the `m_verticesNumber` counter.

  The first `m_verticesNumber` corners are then resolved to `Vertex` values.
  They are de-duplicated through the `m_HashMap` table, which is keyed by the
  vertex value.
- **Geometry kernel**: `Vector2`, `Vector3`, `Vector4`, the helpers in
  `Arithmetic.cpp`, and the matrix builders of `Matrix.cpp`. The builders are
  translation, scale, the three axis rotations and `GetTransformMatrix`.
- **Scene graph node and camera**: a `SceneNode` keeps its model matrix in
  step with its `Transform`. The `Camera` does the following:
  - turns key presses and mouse deltas into a pitch, a clamped yaw and a
    movement;
  - builds the perspective, view and view-projection matrices.

All of this is modelled over mathematical reals. `sinf`, `cosf`, `tan` and
`sqrtf` are the fields of a `Libm` record passed in as a parameter. A property
that needs one of their facts names it as a requirement (`TrigAtZero`,
`SqrtSound`). `fmodf` is defined exactly, as the remainder of a division
truncated toward zero. `PI` is the constant 3.14159265358979 from
`Constants.h`, which is not part of this model.

`Matrix.inl` is not part of this model either, so three things are assumed:

- the 16-argument `Mat4` constructor takes its entries row by row;
- `operator*` is the usual matrix product;
- `Matrix(bool identity)` with `true`, as in `Matrix4 output(true)`, builds the identity.

Points are row vectors: a point `p` maps to `(p, 1) · M`. This is what puts
the translation in the bottom row of `GetTranslationMatrix`.

The loader is modelled on a fresh parser, as `Mesh::Create` builds one per
file (`OpenGL/Sources/Mesh.cpp:30-31`). Turning text into numbers
(`ParseVector3`, `ParseVector2` and the reads in `ParseIndices`) is a
`Tokenizer` parameter. The loader keeps every `uint32_t` wrap-around of the
source: the index decrement (so index 0 becomes 2^32 − 1) and the corner
counter.

Modules: `Wrappers`, `MathLib`, `Arithmetic`, `Vec2`, `Vec3`, `Vec4`,
`Matrix`, `Transforms`, `SceneNodes`, `Cameras`, `Vertices`, `ParserObj`.

## Model

| member | source | states |
|---|---|---|
| MathLib.CopySign | OpenGL/Sources/Vector3.cpp:98 | the result has the magnitude of the first argument and the sign of the second |
| MathLib.Trunc | OpenGL/Sources/Arithmetic.cpp:20 | the integer lies between the real and zero, less than one away from the real: the C conversion toward zero |
| MathLib.Fmod | OpenGL/Sources/Camera.cpp:111 | the remainder is smaller in magnitude than the divisor, has the dividend's sign, is the dividend itself when that is already smaller, and differs from the dividend by the divisor times the truncated quotient |
| Arithmetic.SignOf | OpenGL/Sources/Arithmetic.cpp:20 | on its domain (0, or a magnitude of at least 1), the result is 1 exactly for non-negative values and -1 exactly for negative ones |
| Arithmetic.DegToRad | OpenGL/Sources/Arithmetic.cpp:23 | radians are degrees in proportion PI/180 |
| Arithmetic.RadToDeg | OpenGL/Sources/Arithmetic.cpp:26 | degrees are radians in proportion 180/PI |
| Arithmetic.DegRadRoundTrip | OpenGL/Sources/Arithmetic.cpp:23-26 | converting to radians and back, or to degrees and back, returns the angle |
| Arithmetic.Clamp | OpenGL/Sources/Arithmetic.cpp:29-35 | an error exactly when min > max; otherwise the value lies in [min, max], is the input when the input is in range, and is the nearer bound otherwise |
| Arithmetic.ClampUnder | OpenGL/Sources/Arithmetic.cpp:38 | the result is at most max, is the input when that is already at most max, and is max otherwise |
| Arithmetic.ClampAbove | OpenGL/Sources/Arithmetic.cpp:41 | the result is at least min, is the input when that is already at least min, and is min otherwise |
| Arithmetic.ClampComposes | OpenGL/Sources/Arithmetic.cpp:29-41 | for min <= max, clamping to a range is clamping from below and then from above |
| Arithmetic.Lerp | OpenGL/Sources/Arithmetic.cpp:44 | parameter 0 gives the start, parameter 1 gives the end, and an empty range gives its single value |
| Arithmetic.GetLerp | OpenGL/Sources/Arithmetic.cpp:47-51 | the factor times the range's width is the value's offset from the start; an empty range gives 0 |
| Arithmetic.LerpGetLerpInverse | OpenGL/Sources/Arithmetic.cpp:44-51 | GetLerp recovers the parameter Lerp was given, and Lerp recovers the value GetLerp measured |
| Arithmetic.Remap | OpenGL/Sources/Arithmetic.cpp:54-57 | the value's relative position in the input range is carried over to the output range |
| Vec2.Add | OpenGL/Sources/Vector2.cpp:54 | the dot product of the sum with any vector is the sum of the operands' dot products with it |
| Vec2.Mul | OpenGL/Sources/Vector2.cpp:56 | (1, 1) is neutral on either side, and the zero vector on the right gives zero |
| Vec2.MulSumsToDot | OpenGL/Sources/Vector2.cpp:41-56 | the components of the componentwise product sum to the dot product |
| Vec2.Scale | OpenGL/Sources/Vector2.cpp:57 | the dot product of the scaled vector with any vector is k times the unscaled one's |
| Vec2.DotSelf | OpenGL/Sources/Vector2.cpp:41 | a vector's dot product with itself is non-negative, and 0 exactly for the zero vector |
| Vec2.Cross | OpenGL/Sources/Vector2.cpp:44 | a vector crossed with itself gives 0, and cross squared plus dot squared is the product of the squared lengths (Lagrange's identity) |
| Vec2.Sub | OpenGL/Sources/Vector2.cpp:55 | adding the subtrahend back gives the minuend |
| Vec2.Div | OpenGL/Sources/Vector2.cpp:58 | the componentwise quotient times the divisor gives the dividend |
| Vec2.DivScalar | OpenGL/Sources/Vector2.cpp:59 | the quotient scaled back by the divisor gives the vector |
| Vec2.FromPoints | OpenGL/Sources/Vector2.cpp:24-26 | the vector from p1 to p2 carries p1 onto p2 |
| Vec2.Neg | OpenGL/Sources/Vector2.cpp:47 | v + (-v) is the zero vector |
| Vec2.Negate | OpenGL/Sources/Vector2.cpp:138-141 | the in-place negation agrees with unary minus |
| Vec2.GetMiddle | OpenGL/Sources/Vector2.cpp:76-79 | the half vector, added to itself, gives the vector back |
| Vec2.GetLength | OpenGL/Sources/Vector2.cpp:82-85 | for a sound sqrt, the length is non-negative and its square is the dot product of the vector with itself |
| Vec2.GetNormal | OpenGL/Sources/Vector2.cpp:88-91 | the normal is orthogonal to the vector and has the same squared length |
| Vec2.GetNormalized | OpenGL/Sources/Vector2.cpp:94-97 | scaling the result by the length gives the vector back, and for a sound sqrt the result has unit length |
| Vec2.Normalize | OpenGL/Sources/Vector2.cpp:132-135 | x is divided by the original length and y by the length of the vector after x was divided |
| Vec2.NormalizeDiffersFromGetNormalized | OpenGL/Sources/Vector2.cpp:132-135 | with an exact sqrt, Normalize on (3, 4) does not give GetNormalized's (0.6, 0.8) |
| Vec2.DotCommutes | OpenGL/Sources/Vector2.cpp:41 | the dot product is symmetric |
| Vec2.CrossAntisymmetric | OpenGL/Sources/Vector2.cpp:44 | swapping the operands negates the 2D cross product, and a vector crossed with itself gives 0 |
| Vec2.NormalTwiceIsNeg | OpenGL/Sources/Vector2.cpp:88-91 | taking the normal twice gives the negated vector |
| Vec2.NegInvolution | OpenGL/Sources/Vector2.cpp:47 | negating twice gives the vector back |
| Vec2.EqIsEquality | OpenGL/Sources/Vector2.cpp:50-51 | operator== holds exactly for equal vectors, and operator!= exactly when operator== fails |
| Vec3.Add | OpenGL/Sources/Vector3.cpp:63 | the dot product of the sum with any vector is the sum of the operands' dot products with it |
| Vec3.Mul | OpenGL/Sources/Vector3.cpp:65 | (1, 1, 1) is neutral on either side, and the zero vector on the right gives zero |
| Vec3.MulSumsToDot | OpenGL/Sources/Vector3.cpp:50-65 | the components of the componentwise product sum to the dot product |
| Vec3.Scale | OpenGL/Sources/Vector3.cpp:66 | the dot product of the scaled vector with any vector is k times the unscaled one's |
| Vec3.DotSelf | OpenGL/Sources/Vector3.cpp:50 | a vector's dot product with itself is non-negative, and 0 exactly for the zero vector |
| Vec3.Sub | OpenGL/Sources/Vector3.cpp:64 | adding the subtrahend back gives the minuend |
| Vec3.Div | OpenGL/Sources/Vector3.cpp:67 | the componentwise quotient times the divisor gives the dividend |
| Vec3.DivScalar | OpenGL/Sources/Vector3.cpp:68 | the quotient scaled back by the divisor gives the vector |
| Vec3.FromPoints | OpenGL/Sources/Vector3.cpp:27-29 | the vector from p1 to p2 carries p1 onto p2 |
| Vec3.Cross | OpenGL/Sources/Vector3.cpp:53 | the cross product is orthogonal to both operands; its length is fixed by Vec3.CrossLagrange |
| Vec3.CrossLagrange | OpenGL/Sources/Vector3.cpp:53 | Lagrange's identity: the squared length of the cross product plus the squared dot product equals the product of the squared lengths, so the cross product vanishes only for parallel operands |
| Vec3.Neg | OpenGL/Sources/Vector3.cpp:56 | v + (-v) is the zero vector |
| Vec3.Negate | OpenGL/Sources/Vector3.cpp:135 | the in-place negation agrees with unary minus |
| Vec3.GetMiddle | OpenGL/Sources/Vector3.cpp:85 | the half vector, added to itself, gives the vector back |
| Vec3.GetLength | OpenGL/Sources/Vector3.cpp:88 | the "length" is the dot product of the vector with itself: non-negative, and 0 exactly for the zero vector |
| Vec3.GetNormalized | OpenGL/Sources/Vector3.cpp:91-95 | scaling the result by GetLength gives the vector back, and the result's squared length times GetLength is 1 |
| Vec3.Normalize | OpenGL/Sources/Vector3.cpp:126-132 | the in-place normalization agrees with GetNormalized |
| Vec3.SetLength | OpenGL/Sources/Vector3.cpp:123 | the result is the normalized vector scaled by the requested length |
| Vec3.GetEuclideanLength | OpenGL/Sources/Vector3.cpp:88 | the square root of GetLength: for a sound sqrt, non-negative and squaring to the dot product |
| Vec3.GetUnitNormalized | OpenGL/Sources/Vector3.cpp:91-95 | dividing by the Euclidean length: scaling back by it gives the vector, and for a sound sqrt the result has unit length |
| Vec3.GetNormalizedUnitOnlyIfUnit | OpenGL/Sources/Vector3.cpp:88-95 | GetNormalized returns a unit vector exactly when the input already has unit length |
| Vec3.GetNormalizedIsNotUnit | OpenGL/Sources/Vector3.cpp:88-95 | GetNormalized of (2, 0, 0) is (0.5, 0, 0), which is not of unit length |
| Vec3.GetUnitNormalizedIsUnit | OpenGL/Sources/Vector3.cpp:91-95 | for a sound sqrt, (2, 0, 0) has Euclidean length 2 and normalizes to (1, 0, 0) |
| Vec3.GetCopiedSign | OpenGL/Sources/Vector3.cpp:98 | each component keeps its magnitude and takes the sign of the source's component |
| Vec3.CopiedSignOfSelf | OpenGL/Sources/Vector3.cpp:98 | copying a vector's own signs leaves it unchanged |
| Vec3.GetDistanceFromPoint | OpenGL/Sources/Vector3.cpp:101 | the distance is GetLength of the vector between the points, non-negative, and 0 exactly when the points coincide |
| Vec3.Rotate | OpenGL/Sources/Vector3.cpp:141 | the vector is left unchanged, because the rotated vector is built into a temporary and discarded |
| Vec3.GetSphericalCoords | OpenGL/Sources/Vector3.cpp:158-164 | the height is the radius times cos theta, the horizontal direction (x, z) is set by phi, and when sin² phi + cos² phi = 1 the horizontal part projects onto that direction with magnitude radius times sin theta |
| Vec3.SphericalOnSphere | OpenGL/Sources/Vector3.cpp:158-164 | when sin² + cos² = 1 at both angles, the spherical point lies on the sphere: its squared length is the radius squared |
| Vec3.SphericalScalesWithRadius | OpenGL/Sources/Vector3.cpp:159-164 | the spherical point of radius r is the radius-1 point scaled by r |
| Vec3.DotCommutes | OpenGL/Sources/Vector3.cpp:50 | the dot product is symmetric |
| Vec3.CrossAntiCommutes | OpenGL/Sources/Vector3.cpp:53 | swapping the operands negates the cross product |
| Vec3.NegInvolution | OpenGL/Sources/Vector3.cpp:56 | negating twice gives the vector back |
| Vec3.EqIsEquality | OpenGL/Sources/Vector3.cpp:59-60 | operator== holds exactly for equal vectors, and operator!= exactly when operator== fails |
| Vec4.FromPoints | OpenGL/Sources/Vector4.cpp:26-28 | the spatial part is the 3D vector between the points, and w is the one given |
| Vec4.FromPolar | OpenGL/Sources/Vector4.cpp:31-37 | the spatial part is the spherical point of the given radius and angles, and w is the one given |
| Vec4.Dot | OpenGL/Sources/Vector4.cpp:47 | the dot product of the spatial parts: w takes no part |
| Vec4.Cross | OpenGL/Sources/Vector4.cpp:50-51 | the spatial cross product, orthogonal to both operands, with w = 1 |
| Vec4.Neg | OpenGL/Sources/Vector4.cpp:54 | negates the spatial part and keeps w, so v + (-v) has w equal to twice v.w |
| Vec4.Negate | OpenGL/Sources/Vector4.cpp:134 | agrees with unary minus and is undone by it |
| Vec4.DefaultIsHomogeneousOrigin | OpenGL/Sources/Vector4.cpp:15-18 | the default vector (0, 0, 0, 1) is already homogenized, stands for the 3D origin either way, and is the origin taken to a Vector4 |
| Vec4.Add | OpenGL/Sources/Vector4.cpp:61 | the spatial dot product of the sum with any vector is the sum of the operands', and the w's add |
| Vec4.Mul | OpenGL/Sources/Vector4.cpp:63 | (1, 1, 1, 1) is neutral on either side, and the w's multiply |
| Vec4.Scale | OpenGL/Sources/Vector4.cpp:64 | the spatial dot product with any vector scales by k, and so does w |
| Vec4.AddScalar | OpenGL/Sources/Vector4.cpp:70 | adding a scalar is adding the vector (k, k, k, k), and subtracting the original gives that vector back |
| Vec4.ScalarShiftRoundTrip | OpenGL/Sources/Vector4.cpp:70-72 | subtracting a scalar undoes adding it, and adding undoes subtracting |
| Vec4.Sub | OpenGL/Sources/Vector4.cpp:62 | adding the subtrahend back gives the minuend |
| Vec4.Div | OpenGL/Sources/Vector4.cpp:65 | the componentwise quotient times the divisor gives the dividend |
| Vec4.DivScalar | OpenGL/Sources/Vector4.cpp:66 | the quotient scaled back by the divisor gives the vector |
| Vec4.SubScalar | OpenGL/Sources/Vector4.cpp:72 | subtracting a scalar from all four components is undone by adding it |
| Vec4.GetMiddle | OpenGL/Sources/Vector4.cpp:83 | halves the spatial part and keeps w |
| Vec4.GetLength | OpenGL/Sources/Vector4.cpp:86 | the Euclidean length of the spatial part |
| Vec4.GetDistanceFromPoint | OpenGL/Sources/Vector4.cpp:98 | the Euclidean distance between the spatial parts |
| Vec4.GetHomogenized | OpenGL/Sources/Vector4.cpp:89 | w becomes 1, and scaling back by the old w gives the vector |
| Vec4.Homogenize | OpenGL/Sources/Vector4.cpp:128 | the in-place form agrees with GetHomogenized |
| Vec4.GetNormalized | OpenGL/Sources/Vector4.cpp:92 | the spatial part becomes a unit vector for a sound sqrt, and w is kept |
| Vec4.Normalize | OpenGL/Sources/Vector4.cpp:131 | the in-place form agrees with GetNormalized |
| Vec4.GetCopiedSign | OpenGL/Sources/Vector4.cpp:95 | the spatial components take the source's signs, and w is kept |
| Vec4.ToVec3 | OpenGL/Sources/Vector4.cpp:143-147 | the spatial part, or the spatial part of the homogenized vector when asked to homogenize |
| Vec4.FromVec3 | OpenGL/Sources/Vector3.cpp:144 | the point with w = 1 |
| Vec4.Vec3RoundTrip | OpenGL/Sources/Vector4.cpp:143-147 | a 3D point taken to a Vector4 and back is unchanged, with or without homogenizing |
| Vec4.HomogenizedRoundTrip | OpenGL/Sources/Vector4.cpp:143-147 | going back to a Vector4 from the homogenized point gives the homogenized vector |
| Vec4.HomogenizeIdempotent | OpenGL/Sources/Vector4.cpp:89 | homogenizing twice is homogenizing once |
| Vec4.NegInvolution | OpenGL/Sources/Vector4.cpp:54 | negating twice gives the vector back |
| Vec4.EqIsEquality | OpenGL/Sources/Vector4.cpp:57-58 | operator== holds exactly for equal vectors, and operator!= exactly when operator== fails |
| Matrix.Mul | OpenGL/Headers/Matrix.h:60 | entry (i, j) of the product is row i of the left factor against column j of the right one |
| Matrix.IdentityLeft | OpenGL/Headers/Matrix.h:22 | the identity matrix is neutral on the left of a product |
| Matrix.IdentityRight | OpenGL/Headers/Matrix.h:22 | the identity matrix is neutral on the right of a product |
| Matrix.ApplyMul | OpenGL/Headers/Matrix.h:60 | applying a product whose left factor keeps (0, 0, 0, 1) as its last column applies the left factor, then the right one |
| Matrix.MulAffine | OpenGL/Headers/Matrix.h:60 | a product of matrices that keep (0, 0, 0, 1) as their last column keeps it too |
| Matrix.Translation | OpenGL/Sources/Matrix.cpp:12-18 | every point is moved by the translation vector, and the matrix is affine |
| Matrix.ScaleMatrix | OpenGL/Sources/Matrix.cpp:20-26 | every point is scaled componentwise, and the matrix is affine |
| Matrix.RotationX | OpenGL/Sources/Matrix.cpp:28-34 | the matrix is affine and leaves the x axis fixed |
| Matrix.RotationY | OpenGL/Sources/Matrix.cpp:36-42 | the matrix is affine and leaves the y axis fixed |
| Matrix.RotationZ | OpenGL/Sources/Matrix.cpp:44-50 | the matrix is affine and leaves the z axis fixed |
| Matrix.RotationXApply | OpenGL/Sources/Matrix.cpp:28-34 | a point keeps its x and turns in the y-z plane by the angle |
| Matrix.RotationYApply | OpenGL/Sources/Matrix.cpp:36-42 | a point keeps its y and turns in the x-z plane by the angle |
| Matrix.RotationZApply | OpenGL/Sources/Matrix.cpp:44-50 | a point keeps its z and turns in the x-y plane by the angle |
| Matrix.RotationsAtZero | OpenGL/Sources/Matrix.cpp:28-50 | when sin 0 = 0 and cos 0 = 1, the three rotations by 0 are the identity |
| Matrix.GetTransformMatrix | OpenGL/Sources/Matrix.cpp:52-72 | the normal order scales, rotates about Z, X and Y in turn, then translates; the reverse order translates, rotates about Y, X and Z, then scales |
| Matrix.NeutralBuilders | OpenGL/Sources/Matrix.cpp:12-26 | translating by zero and scaling by one give the identity |
| Matrix.TranslationsCompose | OpenGL/Sources/Matrix.cpp:12-18 | the product of two translation matrices is the translation by the sum |
| Matrix.DefaultTransformIsIdentity | OpenGL/Sources/Matrix.cpp:52-72 | with no translation, no rotation and unit scale, both orders give the identity |
| Matrix.OrdersDifferOnTranslation | OpenGL/Sources/Matrix.cpp:52-72 | a translation combined with a scale of 2 sends the origin to different points under the two orders |
| Transforms.DefaultIsNeutral | OpenGL/Headers/Transform.h:13-16 | the default transform has no zero scale component, and with sin 0 = 0 and cos 0 = 1 its transform matrix is the identity in both orders, leaving every point in place |
| Transforms.SetTransform | OpenGL/Headers/Transform.h:24-27 | all three components are replaced by the given ones |
| Transforms.SetTransformLastWins | OpenGL/Headers/Transform.h:24-27 | setting twice is the same as setting once with the second values |
| SceneNodes.MatrixOf | OpenGL/Sources/SceneNode.cpp:53-56 | the model matrix is the normal-order transform matrix of the node's transform |
| SceneNodes.NewSceneNode | OpenGL/Sources/SceneNode.cpp:21-25 | a new node has its name and the default transform, its matrix agrees with the transform, and that matrix is the identity when sin 0 = 0 and cos 0 = 1 |
| SceneNodes.SetPosition | OpenGL/Sources/SceneNode.cpp:35-39 | only the position changes, and the matrix is rebuilt to agree with the new transform |
| SceneNodes.SetRotation | OpenGL/Sources/SceneNode.cpp:41-45 | only the rotation changes, and the matrix is rebuilt to agree with the new transform |
| SceneNodes.SetScale | OpenGL/Sources/SceneNode.cpp:47-51 | only the scale changes, and the matrix is rebuilt to agree with the new transform |
| SceneNodes.SettersIdempotent | OpenGL/Sources/SceneNode.cpp:35-51 | setting the same position, rotation or scale twice is setting it once, and setting a consistent node's own position returns the node |
| SceneNodes.SettersCommute | OpenGL/Sources/SceneNode.cpp:35-51 | for each of the three pairs (position and rotation, position and scale, rotation and scale), setting the two in either order gives the same node |
| Vertices.EqIsEquality | OpenGL/Headers/Vertex.h:28 | operator== on vertices holds exactly for equal vertices, so the value-keyed table finds exactly the vertices operator== accepts |
| Vertices.EqSymmetric | OpenGL/Headers/Vertex.h:28 | vertex equality is symmetric and reflexive |
| Cameras.NewCamera | OpenGL/Sources/Camera.cpp:43-67 | the aspect ratio times the height is the width; the other settings are stored; the look-at distance is 2; the angles, speed and vectors start at zero; no inputs are pending |
| Cameras.KeyAxis | OpenGL/Sources/Camera.cpp:101-107 | the axis is 1 exactly when only the plus key is held, -1 exactly when only the minus key is held, and 0 otherwise |
| Cameras.Direction | OpenGL/Sources/Camera.cpp:101-107 | x follows left against right, y follows up against down, z follows forward against backward |
| Cameras.NextPitch | OpenGL/Sources/Camera.cpp:111 | the new pitch is smaller in magnitude than 2 PI, is the sum itself when that is already smaller, and otherwise differs from the sum by a whole number of turns of 2 PI |
| Cameras.FullTurnResetsPitch | OpenGL/Sources/Camera.cpp:110-111 | a pitch of a full turn, or a mouse motion of a full turn from 0, wraps back to 0 |
| Cameras.NextYaw | OpenGL/Sources/Camera.cpp:112 | the new yaw lies within PI/2 - 0.001 of zero, is the sum itself when that already does, and is the bound the sum overshoots otherwise |
| Cameras.Update | OpenGL/Sources/Camera.cpp:92-122 | an unfocused window leaves the camera unchanged; otherwise the settings are kept, the speed is delta time times acceleration, the direction comes from the keys, the yaw stays within the clamp bounds and the pitch below 2 PI in magnitude, each being the plain sum when that is in range, the yaw saturating at the bound it overshoots, and the pitch differs from the sum by a whole number of turns of 2 PI |
| Cameras.StillWithoutMovementKeys | OpenGL/Sources/Camera.cpp:101-117 | with no movement key held, the position does not change |
| Cameras.StepWithoutDirection | OpenGL/Sources/Camera.cpp:115-117 | a zero direction leaves the position unchanged |
| Cameras.StillWithoutSpeed | OpenGL/Sources/Camera.cpp:98-117 | with zero acceleration or zero delta time, the position does not change |
| Cameras.StepWithoutSpeed | OpenGL/Sources/Camera.cpp:115-117 | a zero speed leaves the position unchanged |
| Cameras.HorizontalKeysKeepHeight | OpenGL/Sources/Camera.cpp:115-117 | with an idealised cosine, exactly 0 at PI/2, the height changes by exactly the vertical key direction times the speed |
| Cameras.StepHeight | OpenGL/Sources/Camera.cpp:115-117 | with an idealised cosine, exactly 0 at PI/2, one movement step changes the height by exactly the vertical direction times the speed |
| Cameras.DefaultCameraAtRest | OpenGL/Sources/Camera.cpp:21-41 | the default camera waits for its first frame with acceleration and look-at distance 0, and a focused update leaves its speed at 0 and its settings unchanged |
| Cameras.DefaultCameraStaysAtOrigin | OpenGL/Sources/Camera.cpp:21-41 | the default camera has zero acceleration, so updating it never moves it |
| Cameras.SetPosition | OpenGL/Sources/Camera.cpp:141 | only the position changes |
| Cameras.SetRotation | OpenGL/Sources/Camera.cpp:142 | only pitch and yaw change, and they are stored as given |
| Cameras.SetRotationDoesNotClamp | OpenGL/Sources/Camera.cpp:142 | SetRotation stores a yaw of 2 and a pitch of 7, which Update never produces |
| Cameras.SettersLastWins | OpenGL/Sources/Camera.cpp:141-142 | setting the position or the rotation twice keeps the second value |
| Cameras.Assign | OpenGL/Sources/Camera.cpp:73-86 | the target takes every field of the source except its speed and inputs |
| Cameras.AssignCopiesView | OpenGL/Sources/Camera.cpp:73-86 | after assignment, the view and perspective matrices are the source's |
| Cameras.AssignKeepsSpeed | OpenGL/Sources/Camera.cpp:73-86 | when the speeds differ, the assigned camera is not a copy of the source, and assigning the same source again changes nothing |
| Cameras.Projection | OpenGL/Sources/Camera.cpp:150-161 | the y scale is the reciprocal of tan(fov/2), the x scale is the y scale over the aspect ratio, the depth terms are far/(far-near) and -far·near/(far-near), and w takes the depth |
| Cameras.GetPerspective | OpenGL/Sources/Camera.cpp:150-161 | the perspective matrix depends only on the field of view, aspect ratio and near and far planes |
| Cameras.PerspectiveDepthRange | OpenGL/Sources/Camera.cpp:150-161 | the clip w of every point is its depth; a point on the near plane gets clip depth 0, and one on the far plane gets clip depth equal to its w |
| Cameras.GetViewMat | OpenGL/Sources/Camera.cpp:163-167 | every point is moved by minus the camera position, then rotated by the pitch about Y, by the yaw about X and by 0 about Z |
| Cameras.CameraAtOrigin | OpenGL/Sources/Camera.cpp:163-167 | the view sends the camera's own position to the origin |
| Cameras.UnturnedView | OpenGL/Sources/Camera.cpp:163-167 | with zero pitch and yaw, the view only subtracts the camera position |
| Cameras.NewCameraView | OpenGL/Sources/Camera.cpp:163-167 | a freshly built camera's view matrix is the identity |
| Cameras.GetVPMat | OpenGL/Sources/Camera.cpp:169-172 | the clip coordinates of every point are those of its view-space image under the perspective, so the clip w is its view-space depth |
| ParserObj.Inc32 | OpenGL/Sources/ParserOBJ.cpp:135 | a uint32 increment: x + 1, wrapping from 2^32 - 1 to 0 |
| ParserObj.Dec32 | OpenGL/Sources/ParserOBJ.cpp:132 | a uint32 decrement: x - 1, wrapping from 0 to 2^32 - 1 |
| ParserObj.IncDecInverse | OpenGL/Sources/ParserOBJ.cpp:132-135 | the increment and the decrement undo each other |
| ParserObj.ToZeroBased | OpenGL/Sources/ParserOBJ.cpp:132 | each 1-based index becomes the index whose increment it is, so index 0 in the file becomes 2^32 - 1 |
| ParserObj.Classify | OpenGL/Sources/ParserOBJ.cpp:50-59 | a line is a comment exactly when it starts with #, a face exactly when it starts with f, and a position, normal or uv exactly when v is followed by a space, n or t |
| ParserObj.ParseIndices | OpenGL/Sources/ParserOBJ.cpp:117-139 | exactly three corners, each made 0-based, and the counter grows by 3 modulo 2^32 |
| ParserObj.ParseLine | OpenGL/Sources/ParserOBJ.cpp:50-64 | comments and unknown lines change nothing; v, vn and vt lines append one component to their list; f lines leave the lists alone and append the three corners read from the line |
| ParserObj.ParseLines | OpenGL/Sources/ParserOBJ.cpp:59-63 | after reading, there are three corners per face line, and the counter is their number modulo 2^32 |
| ParserObj.CornersInOrder | OpenGL/Sources/ParserOBJ.cpp:59-63 | the corners are the three 0-based triples of each face line, in file order |
| ParserObj.ComponentsInOrder | OpenGL/Sources/ParserOBJ.cpp:53-58 | the positions, normals and uvs are those of the v, vn and vt lines, in file order |
| ParserObj.SkippedLines | OpenGL/Sources/ParserOBJ.cpp:50-65 | a comment line, a v line of unknown kind, or a line starting with neither v nor f leaves the parsed data unchanged |
| ParserObj.Resolve | OpenGL/Sources/ParserOBJ.cpp:73 | a corner's vertex takes its position, uv and normal from the parsed lists |
| ParserObj.Corners | OpenGL/Sources/ParserOBJ.cpp:71-73 | the first m_verticesNumber corners, each resolved to its vertex |
| ParserObj.Step | OpenGL/Sources/ParserOBJ.cpp:72-85 | one index is appended, the one the table now holds for the vertex; other table entries are unchanged; the vertex is appended with the next index exactly when its stored index reads 0 |
| ParserObj.DedupAll | OpenGL/Sources/ParserOBJ.cpp:70-86 | one index per corner, and the next index is the number of vertices, at most the number of corners |
| ParserObj.ValidOnlyFirstRepeats | OpenGL/Sources/ParserOBJ.cpp:70-86 | under the loop's invariant, no vertex but the one at index 0 appears twice |
| ParserObj.StepValid | OpenGL/Sources/ParserOBJ.cpp:72-85 | one pass of the loop as written keeps its invariant |
| ParserObj.DedupAllValid | OpenGL/Sources/ParserOBJ.cpp:70-86 | the loop as written gives every corner an index that points at its vertex, and repeats no vertex but the first |
| ParserObj.FirstVertexDuplicated | OpenGL/Sources/ParserOBJ.cpp:75 | on corners a, b, a the loop as written gives vertices a, b, a, while the corrected loop gives a, b with indices 0, 1, 0 |
| ParserObj.StepFixed | OpenGL/Sources/ParserOBJ.cpp:72-85 | one index is appended, the one the table now holds for the vertex; other table entries are unchanged; the vertex is appended with the next index exactly when the table has no entry for it |
| ParserObj.DedupFixedAll | OpenGL/Sources/ParserOBJ.cpp:70-86 | one index per corner, and the next index is the number of vertices, at most the number of corners |
| ParserObj.StepFixedValid | OpenGL/Sources/ParserOBJ.cpp:72-85 | one pass of the corrected loop keeps its invariant |
| ParserObj.DedupFixedAllValid | OpenGL/Sources/ParserOBJ.cpp:70-86 | the corrected loop gives every corner an index that points at its vertex, and its vertices are exactly the distinct corners, each once |
| ParserObj.ReadLines | OpenGL/Sources/ParserOBJ.cpp:43-66 | the reading loop computes the line-by-line fold, with three corners per face line |
| ParserObj.BuildVertices | OpenGL/Sources/ParserOBJ.cpp:70-86 | the loop computes the de-duplicating fold, every index points at its corner's vertex, and only the first vertex can repeat |
| ParserObj.ParseInputFile | OpenGL/Sources/ParserOBJ.cpp:22-95 | the returned count is the wrapped corner counter (three per face line); there is one index per counted corner, each pointing at that corner's vertex; only the first vertex can repeat |
| ParserObj.BuildVerticesFixed | OpenGL/Sources/ParserOBJ.cpp:70-86 | the loop with the corrected test computes the corrected fold, every index points at its corner's vertex, and no vertex repeats |
| ParserObj.ParseInputFileFixed | OpenGL/Sources/ParserOBJ.cpp:22-95 | with the corrected test: the same count and indices pointing at each counted corner's vertex, and the vertices are the distinct corner vertices, each exactly once |

## Left out

- File I/O is not modelled. The file is a sequence of lines: the `ifstream`, the `Assert` on opening it, the 256-byte `getline` buffer and the `eof` loop are outside the model. Lines longer than 255 characters, and the empty read at end of file, are not modelled either.
- The text-to-number parsing done with `istringstream` and `ignore(1)` is the abstract `Tokenizer` parameter. Malformed numbers, and what a failed stream read leaves in a field, are not modelled.
- `&line[k]` past the end of a short line is modelled as the empty string. In the source it points into the NUL-terminated buffer.
- The timing and logging in `ParseInputFile` (`chrono`, `Log`) produce no result, so they are left out.
- MeowHash, the hash behind `m_HashMap`, is replaced by a table keyed by vertex value. Bit-level float distinctions such as -0 against +0, or NaN keys, are not modelled.
- A parser object reused for a second file is not modelled: it would keep its counter and its table. `Mesh::Create` builds a fresh parser per file.
- ParserObj.ParseInputFile: requires every counted corner's indices to lie inside the parsed lists. The source does not check this and reads out of bounds otherwise.
- The `int index` of the de-duplicating loop is unbounded here. Its 32-bit overflow needs more than 2^31 distinct vertices.
- Floats are reals, so rounding, NaN and infinities are not modelled. Every division requires a non-zero divisor: the vector divisions, `GetHomogenized`, `GetNormalized`, `NewCamera`'s height and the perspective terms.
- `sinf`, `cosf`, `tan` and `sqrtf` are uninterpreted functions in `Libm`. Only `sin 0 = 0`, `cos 0 = 1`, `cos(PI/2) = 0`, `sin² + cos² = 1` at a given angle and the soundness of `sqrt` are used, each as an explicit requirement. With the float constant `PI`, the real `cosf(PI/2)` is not exactly 0, so the lemmas that need it hold for an idealised cosine.
- Functions built on `acos`, `atan2` or `fabs` of angles are not modelled. These are `GetAngle*`, the polar constructors of `Vector2` and `Vector3`, and `SetLength`/`Rotate` of `Vector2` and `Vector4`.
- `CopySign` models `copysignf` on reals, so negative zero is not distinguished.
- Arithmetic.SignOf: requires the argument to be 0 or of magnitude at least 1. For 0 < |x| < 1 the source divides by `abs((int)val)`, which is 0, and casts the infinite quotient to `int`, which is undefined. The model's conversion is also unbounded: for |val| of 2^31 or more the source's `(int)val` is undefined too (commonly INT_MIN, which makes 3e9 give -1), while the model still gives the sign.
- `RoundInt`, `FloorInt`, `CeilInt`, `Sqpow`, `IsPowerOf2`, `GetPowerOf2Under` and `GetPowerOf2Above` are left out. The modelled core does not use them, and the power-of-2 helpers rest on floating `log` and `pow`.
- `Matrix.inl` is not part of this model: the 16-argument constructor, `operator*`, the inverse, the determinant and the transpose. Mul is assumed to be the usual row-by-column product. `SceneNode::GetWorldTransform` and `Camera::GetLookAtMat` need those operations and are left out.
- All OpenGL and GLFW calls are left out, as are the application, UI, shader, texture, light and model classes. `glUniform` uploads are not modelled. The window-focus query is the `focused` parameter of `Cameras.Update`.
- Mouse bookkeeping is left out. The first-frame flag and the last cursor position are handled by the application, which stores the deltas in the camera inputs. The camera's own `m_deltaTime` is unused by `Update`.
- Cameras.Update: the contract does not give the new position in closed form. The horizontal move goes through the uninterpreted sine and cosine. The position update itself is the helper Cameras.Step (Camera.cpp:115-117), which has no contract of its own; it is described by Cameras.StepWithoutDirection, Cameras.StepWithoutSpeed and Cameras.StepHeight, and the whole update's position by Cameras.StillWithoutMovementKeys, Cameras.StillWithoutSpeed and Cameras.HorizontalKeysKeepHeight.

## Findings

| source | as written | input that shows it | evidently intended | confidence | as-written member | corrected member |
|---|---|---|---|---|---|---|
| OpenGL/Sources/ParserOBJ.cpp:75 | a vertex counts as new when its stored index is 0, but the first vertex is stored with index 0 | corners a, b, a with a ≠ b give vertices a, b, a and indices 0, 1, 2 | a vertex is new only when the table has no entry for it, giving vertices a, b and indices 0, 1, 0 | high, not executed | ParserObj.FirstVertexDuplicated | ParserObj.ParseInputFileFixed |
| OpenGL/Sources/Vector2.cpp:132-135 | `Normalize` divides x by the length, then divides y by the length of the already-modified vector | (3, 4) becomes (0.6, 4/sqrt(16.36)) instead of (0.6, 0.8) | both components are divided by the original length, as `GetNormalized` does | high, not executed | Vec2.NormalizeDiffersFromGetNormalized | Vec2.GetNormalized |
| OpenGL/Sources/Vector3.cpp:88-95 | `GetLength` returns the squared length, so `GetNormalized`, `Normalize` and `SetLength` divide by the squared length | (2, 0, 0) normalizes to (0.5, 0, 0), of length 0.5 | divide by the Euclidean length, giving (1, 0, 0) | high, not executed | Vec3.GetNormalizedIsNotUnit | Vec3.GetUnitNormalized |

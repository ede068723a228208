/** The free-flying camera (Camera.cpp): its state, the per-frame update
    driven by the key and mouse inputs, and the view and projection
    matrices. Window focus is a parameter of the update; the upload of the
    position to the shader is left out. */
module Cameras {
  import opened MathLib
  import Arithmetic
  import Vec3
  import Vec4
  import Matrix

  /** `CameraInputs`: the six movement keys, the first-frame flag and the
      mouse deltas and last position. */
  datatype CameraInputs = CameraInputs(
    backward: bool, forward: bool, right: bool, left: bool, up: bool, down: bool,
    firstFrame: bool,
    deltaX: real, deltaY: real, lastX: real, lastY: real)

  /** The inputs both constructors start from: no key, no motion, first frame. */
  const NoInputs: CameraInputs :=
    CameraInputs(false, false, false, false, false, false, true, 0.0, 0.0, 0.0, 0.0)

  datatype Camera = Camera(
    fov: real, aspect: real, near: real, far: real,
    pitch: real, yaw: real,
    speed: real, acceleration: real,
    lookAtDist: real,
    position: Vec3.Vector3, direction: Vec3.Vector3, lookAtPoint: Vec3.Vector3,
    inputs: CameraInputs)

  /** The default constructor: every scalar 0 (the look-at distance too,
      overriding its initializer), every vector at the origin. */
  const DefaultCamera: Camera :=
    Camera(0.0, 0.0, 0.0, 0.0, 0.0, 0.0, 0.0, 0.0, 0.0, Vec3.Zero, Vec3.Zero, Vec3.Zero, NoInputs)

  /** The bounds the update clamps the yaw to: a thousandth short of a
      quarter turn either way. */
  const YawMin: real := -PI / 2.0 + 0.001
  const YawMax: real := PI / 2.0 - 0.001

  /** The constructor from the window size, the field of view, the clip
      distances and the acceleration. The aspect ratio is the width over
      the height. */
  function NewCamera(width: nat, height: nat, fov: real, near: real, far: real, acceleration: real): (r: Camera)
    requires height > 0
    ensures r.aspect * height as real == width as real
    ensures r.fov == fov && r.near == near && r.far == far && r.acceleration == acceleration
    ensures r.lookAtDist == 2.0
    ensures r.pitch == 0.0 && r.yaw == 0.0 && r.speed == 0.0
    ensures r.position == Vec3.Zero && r.direction == Vec3.Zero && r.lookAtPoint == Vec3.Zero
    ensures r.inputs == NoInputs && r.inputs.firstFrame
  {
    Camera(fov, width as real / height as real, near, far, 0.0, 0.0, 0.0, acceleration, 2.0,
           Vec3.Zero, Vec3.Zero, Vec3.Zero, NoInputs)
  }

  /** The settings the update never writes: everything but the pitch, the
      yaw, the speed, the position and the direction. */
  predicate SameSettings(a: Camera, b: Camera) {
    a.fov == b.fov && a.aspect == b.aspect && a.near == b.near && a.far == b.far &&
    a.acceleration == b.acceleration && a.lookAtDist == b.lookAtDist &&
    a.lookAtPoint == b.lookAtPoint && a.inputs == b.inputs
  }

  /** One axis of the direction: +1 for the positive key, -1 for the
      negative one, so that pressing both cancels out. */
  function KeyAxis(plus: bool, minus: bool): (r: real)
    ensures r == 1.0 <==> plus && !minus
    ensures r == -1.0 <==> minus && !plus
    ensures r == 0.0 <==> plus == minus
  {
    (if plus then 1.0 else 0.0) + (if minus then -1.0 else 0.0)
  }

  /** The direction rebuilt from the keys: right/left on x, up/down on y,
      backward/forward on z. */
  function Direction(inputs: CameraInputs): (r: Vec3.Vector3)
    ensures r.x == KeyAxis(inputs.right, inputs.left)
    ensures r.y == KeyAxis(inputs.up, inputs.down)
    ensures r.z == KeyAxis(inputs.backward, inputs.forward)
  {
    Vec3.Vector3(KeyAxis(inputs.right, inputs.left),
                 KeyAxis(inputs.up, inputs.down),
                 KeyAxis(inputs.backward, inputs.forward))
  }

  /** The pitch after a frame: turned by the horizontal mouse motion and
      wrapped by the truncated remainder modulo a full turn. */
  function NextPitch(pitch: real, deltaX: real): (r: real)
    ensures Abs(r) < 2.0 * PI
    ensures Abs(pitch - deltaX / 180.0) < 2.0 * PI ==> r == pitch - deltaX / 180.0
    ensures pitch - deltaX / 180.0 == r + Trunc((pitch - deltaX / 180.0) / (2.0 * PI)) as real * (2.0 * PI)
  {
    Fmod(pitch - deltaX / 180.0, 2.0 * PI)
  }

  /** A full turn wraps the pitch back to 0, either way round. */
  lemma FullTurnResetsPitch()
    ensures NextPitch(2.0 * PI, 0.0) == 0.0
    ensures NextPitch(0.0, 360.0 * PI) == 0.0
  {
    assert (2.0 * PI) / (2.0 * PI) == 1.0;
    assert (-(2.0 * PI)) / (2.0 * PI) == -1.0;
  }

  /** The yaw after a frame: turned by the vertical mouse motion and
      clamped short of looking straight up or down. */
  function NextYaw(yaw: real, deltaY: real): (r: real)
    ensures YawMin <= r <= YawMax
    ensures YawMin <= yaw + deltaY / 180.0 <= YawMax ==> r == yaw + deltaY / 180.0
    ensures yaw + deltaY / 180.0 < YawMin ==> r == YawMin
    ensures YawMax < yaw + deltaY / 180.0 ==> r == YawMax
  {
    Arithmetic.Clamp(yaw + deltaY / 180.0, YawMin, YawMax).value
  }

  /** The move of one frame: along the pitch's heading for the x key axis,
      a quarter turn from it for the z key axis, both scaled by the speed,
      and straight up or down for the y axis. */
  function Step(position: Vec3.Vector3, direction: Vec3.Vector3, speed: real, pitch: real, lib: Libm): Vec3.Vector3 {
    var moved := Vec3.Add(position,
      Vec3.Add(Vec3.Scale(Vec3.GetSphericalCoords(speed, PI / 2.0, 2.0 * PI - pitch, lib), direction.x),
               Vec3.Scale(Vec3.GetSphericalCoords(speed, PI / 2.0, 2.0 * PI - pitch - PI / 2.0, lib), direction.z)));
    moved.(y := moved.y + direction.y * speed)
  }

  /** `Update` without the shader upload. An unfocused window leaves the
      camera as it is. A focused one sets the speed from the frame time,
      rebuilds the direction from the keys, turns the camera by the mouse
      motion and moves it with the new pitch. The inputs are a parameter:
      the camera's own `inputs` field is not read or written. */
  function Update(cam: Camera, focused: bool, deltaTime: real, inputs: CameraInputs, lib: Libm): (r: Camera)
    ensures !focused ==> r == cam
    ensures SameSettings(r, cam)
    ensures focused ==> r.speed == deltaTime * cam.acceleration
    ensures focused ==> r.direction == Direction(inputs)
    ensures focused ==> YawMin <= r.yaw <= YawMax && Abs(r.pitch) < 2.0 * PI
    ensures focused && YawMin <= cam.yaw + inputs.deltaY / 180.0 <= YawMax ==>
              r.yaw == cam.yaw + inputs.deltaY / 180.0
    ensures focused && cam.yaw + inputs.deltaY / 180.0 < YawMin ==>
              r.yaw == YawMin
    ensures focused && YawMax < cam.yaw + inputs.deltaY / 180.0 ==>
              r.yaw == YawMax
    ensures focused && Abs(cam.pitch - inputs.deltaX / 180.0) < 2.0 * PI ==>
              r.pitch == cam.pitch - inputs.deltaX / 180.0
    ensures focused ==>
              cam.pitch - inputs.deltaX / 180.0 ==
              r.pitch + Trunc((cam.pitch - inputs.deltaX / 180.0) / (2.0 * PI)) as real * (2.0 * PI)
  {
    if !focused then cam
    else
      var speed := deltaTime * cam.acceleration;
      var direction := Direction(inputs);
      var rotated := SetRotation(cam, NextPitch(cam.pitch, inputs.deltaX), NextYaw(cam.yaw, inputs.deltaY));
      var position := Step(cam.position, direction, speed, rotated.pitch, lib);
      rotated.(speed := speed, direction := direction, position := position)
  }

  /** Without a movement key the camera only turns. */
  lemma StillWithoutMovementKeys(cam: Camera, deltaTime: real, inputs: CameraInputs, lib: Libm)
    requires !inputs.backward && !inputs.forward && !inputs.right && !inputs.left && !inputs.up && !inputs.down
    ensures Update(cam, true, deltaTime, inputs, lib).position == cam.position
  {
    var r := Update(cam, true, deltaTime, inputs, lib);
    StepWithoutDirection(cam.position, r.speed, r.pitch, lib);
  }

  lemma StepWithoutDirection(position: Vec3.Vector3, speed: real, pitch: real, lib: Libm)
    ensures Step(position, Vec3.Zero, speed, pitch, lib) == position
  {
  }

  /** With no elapsed time, or no acceleration, the speed is 0 and the
      camera does not move, whatever the keys. */
  lemma StillWithoutSpeed(cam: Camera, deltaTime: real, inputs: CameraInputs, lib: Libm)
    requires deltaTime == 0.0 || cam.acceleration == 0.0
    ensures Update(cam, true, deltaTime, inputs, lib).speed == 0.0
    ensures Update(cam, true, deltaTime, inputs, lib).position == cam.position
  {
    var r := Update(cam, true, deltaTime, inputs, lib);
    assert r.speed == 0.0;
    StepWithoutSpeed(cam.position, r.direction, r.pitch, lib);
  }

  lemma StepWithoutSpeed(position: Vec3.Vector3, direction: Vec3.Vector3, pitch: real, lib: Libm)
    ensures Step(position, direction, 0.0, pitch, lib) == position
  {
    Vec3.SphericalScalesWithRadius(0.0, PI / 2.0, 2.0 * PI - pitch, lib);
    Vec3.SphericalScalesWithRadius(0.0, PI / 2.0, 2.0 * PI - pitch - PI / 2.0, lib);
  }

  /** With an idealised cosine, one that gives exactly 0 at pi/2, the x and
      z keys move the camera horizontally: its height changes only by the
      up/down axis times the speed. */
  lemma HorizontalKeysKeepHeight(cam: Camera, deltaTime: real, inputs: CameraInputs, lib: Libm)
    requires lib.cos(PI / 2.0) == 0.0
    ensures Update(cam, true, deltaTime, inputs, lib).position.y ==
              cam.position.y + Update(cam, true, deltaTime, inputs, lib).direction.y * Update(cam, true, deltaTime, inputs, lib).speed
  {
    var r := Update(cam, true, deltaTime, inputs, lib);
    StepHeight(cam.position, r.direction, r.speed, r.pitch, lib);
  }

  /** With an idealised cosine, exactly 0 at pi/2, the spherical steps of
      the x and z axes have no height. */
  lemma StepHeight(position: Vec3.Vector3, direction: Vec3.Vector3, speed: real, pitch: real, lib: Libm)
    requires lib.cos(PI / 2.0) == 0.0
    ensures Step(position, direction, speed, pitch, lib).y == position.y + direction.y * speed
  {
    var a := Vec3.GetSphericalCoords(speed, PI / 2.0, 2.0 * PI - pitch, lib);
    var b := Vec3.GetSphericalCoords(speed, PI / 2.0, 2.0 * PI - pitch - PI / 2.0, lib);
    assert a.y == 0.0 && b.y == 0.0;
    assert Vec3.Scale(a, direction.x).y == 0.0;
    assert Vec3.Scale(b, direction.z).y == 0.0;
  }

  /** The default camera has every setting at 0 and waits for its first
      mouse frame; a focused update leaves its speed at 0 and its settings
      as they were. */
  lemma DefaultCameraAtRest(deltaTime: real, inputs: CameraInputs, lib: Libm)
    ensures DefaultCamera.inputs.firstFrame
    ensures DefaultCamera.acceleration == 0.0 && DefaultCamera.lookAtDist == 0.0
    ensures Update(DefaultCamera, true, deltaTime, inputs, lib).speed == 0.0
    ensures SameSettings(Update(DefaultCamera, true, deltaTime, inputs, lib), DefaultCamera)
  {
  }

  /** A default camera has no acceleration, so the update never moves it. */
  lemma DefaultCameraStaysAtOrigin(focused: bool, deltaTime: real, inputs: CameraInputs, lib: Libm)
    ensures Update(DefaultCamera, focused, deltaTime, inputs, lib).position == Vec3.Zero
  {
    if focused {
      StillWithoutSpeed(DefaultCamera, deltaTime, inputs, lib);
    }
  }

  /** `SetPosition`: the position as given. */
  function SetPosition(cam: Camera, position: Vec3.Vector3): (r: Camera)
    ensures r.position == position
    ensures SameSettings(r, cam) && r.pitch == cam.pitch && r.yaw == cam.yaw
    ensures r.speed == cam.speed && r.direction == cam.direction
  {
    cam.(position := position)
  }

  /** `SetRotation`: the pitch and yaw as given, with neither the clamp nor
      the wrap of the update. */
  function SetRotation(cam: Camera, pitch: real, yaw: real): (r: Camera)
    ensures r.pitch == pitch && r.yaw == yaw
    ensures SameSettings(r, cam) && r.position == cam.position
    ensures r.speed == cam.speed && r.direction == cam.direction
  {
    cam.(pitch := pitch, yaw := yaw)
  }

  /** `SetRotation` stores a yaw the update could never produce. */
  lemma SetRotationDoesNotClamp(cam: Camera, inputs: CameraInputs, deltaTime: real, lib: Libm)
    ensures SetRotation(cam, 7.0, 2.0).yaw == 2.0
    ensures SetRotation(cam, 7.0, 2.0).pitch == 7.0
    ensures Update(cam, true, deltaTime, inputs, lib).yaw != 2.0
    ensures Update(cam, true, deltaTime, inputs, lib).pitch != 7.0
  {
  }

  /** Setting a position twice keeps the second; setting the same rotation
      twice is setting it once. */
  lemma SettersLastWins(cam: Camera, p: Vec3.Vector3, q: Vec3.Vector3, pitch: real, yaw: real)
    ensures SetPosition(SetPosition(cam, p), q) == SetPosition(cam, q)
    ensures SetRotation(SetRotation(cam, pitch, yaw), pitch, yaw) == SetRotation(cam, pitch, yaw)
    ensures SetPosition(cam, cam.position) == cam
    ensures SetRotation(cam, cam.pitch, cam.yaw) == cam
  {
  }

  /** `operator=`: every field of `source` except the speed and the inputs,
      which keep the target's values. */
  function Assign(target: Camera, source: Camera): (r: Camera)
    ensures r.speed == target.speed && r.inputs == target.inputs
    ensures r.(speed := source.speed, inputs := source.inputs) == source
  {
    source.(speed := target.speed, inputs := target.inputs)
  }

  /** Assigning makes the target see exactly what the source sees. */
  lemma AssignCopiesView(target: Camera, source: Camera, lib: Libm)
    requires PerspectiveDefined(source, lib)
    ensures GetViewMat(Assign(target, source), lib) == GetViewMat(source, lib)
    ensures GetPerspective(Assign(target, source), lib) == GetPerspective(source, lib)
  {
    var a := Assign(target, source);
    assert a.fov == source.fov && a.aspect == source.aspect;
    assert a.near == source.near && a.far == source.far;
    assert a.position == source.position && a.pitch == source.pitch && a.yaw == source.yaw;
  }

  /** Assignment is not a full copy: the speed can differ from the source's. */
  lemma AssignKeepsSpeed(target: Camera, source: Camera)
    requires target.speed != source.speed
    ensures Assign(target, source) != source
    ensures Assign(Assign(target, source), source) == Assign(target, source)
  {
  }

  /** The projection needs a field of view with a non-zero tangent, a
      non-zero aspect ratio and distinct clip planes. */
  predicate PerspectiveDefined(cam: Camera, lib: Libm) {
    ProjectionDefined(cam.fov, cam.aspect, cam.near, cam.far, lib)
  }

  predicate ProjectionDefined(fov: real, aspect: real, near: real, far: real, lib: Libm) {
    lib.tan(Arithmetic.DegToRad(fov) / 2.0) != 0.0 && aspect != 0.0 && far != near
  }

  /** The projection for row vectors. The y scale is the cotangent of half
      the field of view and the x scale is that over the aspect ratio;
      depth is mapped so that the near plane goes to 0 and the far plane to
      the clip w, which is the depth itself. */
  function Projection(fov: real, aspect: real, near: real, far: real, lib: Libm): (r: Matrix.Matrix4)
    requires ProjectionDefined(fov, aspect, near, far, lib)
    ensures r[1][1] * lib.tan(Arithmetic.DegToRad(fov) / 2.0) == 1.0
    ensures r[0][0] * aspect == r[1][1]
    ensures r[2][2] * (far - near) == far
    ensures r[3][2] * (far - near) == -(far * near)
    ensures r[0] == [r[0][0], 0.0, 0.0, 0.0] && r[1] == [0.0, r[1][1], 0.0, 0.0]
    ensures r[2] == [0.0, 0.0, r[2][2], 1.0] && r[3] == [0.0, 0.0, r[3][2], 0.0]
  {
    var yScale := 1.0 / lib.tan(Arithmetic.DegToRad(fov) / 2.0);
    var xScale := yScale / aspect;
    var depth := far - near;
    Matrix.Of(xScale, 0.0, 0.0, 0.0,
              0.0, yScale, 0.0, 0.0,
              0.0, 0.0, far / depth, 1.0,
              0.0, 0.0, -far * near / depth, 0.0)
  }

  /** `GetPerspective`: the projection of the camera's field of view,
      aspect ratio and clip distances; nothing else of the camera. */
  function GetPerspective(cam: Camera, lib: Libm): (r: Matrix.Matrix4)
    requires PerspectiveDefined(cam, lib)
    ensures r == Projection(cam.fov, cam.aspect, cam.near, cam.far, lib)
  {
    Projection(cam.fov, cam.aspect, cam.near, cam.far, lib)
  }

  /** The row vector (p, 1) times `m`, all four entries: clip coordinates. */
  function Clip(p: Vec3.Vector3, m: Matrix.Matrix4): (r: Vec4.Vector4)
    ensures Vec4.Xyz(r) == Matrix.Apply(p, m)
    ensures r.w == p.x * m[0][3] + p.y * m[1][3] + p.z * m[2][3] + m[3][3]
  {
    var q := Matrix.Apply(p, m);
    Vec4.Vector4(q.x, q.y, q.z, p.x * m[0][3] + p.y * m[1][3] + p.z * m[2][3] + m[3][3])
  }

  /** The projection keeps the depth as the clip w, sends depth `near` to
      clip depth 0 and depth `far` to clip depth equal to the clip w, so
      after the division by w the visible depths span [0, 1]. */
  lemma PerspectiveDepthRange(cam: Camera, lib: Libm, x: real, y: real)
    requires PerspectiveDefined(cam, lib)
    ensures forall p :: Clip(p, GetPerspective(cam, lib)).w == p.z
    ensures Clip(Vec3.Vector3(x, y, cam.near), GetPerspective(cam, lib)).z == 0.0
    ensures Clip(Vec3.Vector3(x, y, cam.far), GetPerspective(cam, lib)).z == cam.far
  {
    var m := GetPerspective(cam, lib);
    var f, n, k, c := cam.far, cam.near, m[2][2], m[3][2];
    assert m[0][2] == 0.0 && m[1][2] == 0.0;
    assert Clip(Vec3.Vector3(x, y, n), m).z == DepthOf(n, k, c);
    assert Clip(Vec3.Vector3(x, y, f), m).z == DepthOf(f, k, c);
    DepthAtPlanes(f, n, k, c);
  }

  /** The clip depth of depth `z` under the depth row (k, c). */
  function DepthOf(z: real, k: real, c: real): real {
    z * k + c
  }

  /** The depth row (k, c) of the projection, with k(f - n) = f and
      c(f - n) = -fn, maps n to 0 and f to f. */
  lemma DepthAtPlanes(f: real, n: real, k: real, c: real)
    requires f != n && k * (f - n) == f && c * (f - n) == -(f * n)
    ensures DepthOf(n, k, c) == 0.0
    ensures DepthOf(f, k, c) == f
  {
    var d := f - n;
    var nf, zNear, zFar := n * f, n * k + c, f * k + c;
    assert c * d == -nf;
    assert (n * k) * d == n * (k * d);
    assert (n * k) * d == nf;
    assert zNear * d == (n * k) * d + c * d;
    assert zNear * d == 0.0;
    CancelNonZero(zNear, 0.0, d);
    assert (f * k) * d == f * (k * d);
    assert zFar * d == (f * k) * d + c * d;
    assert zFar * d == f * d;
    CancelNonZero(zFar, f, d);
  }

  /** `GetViewMat`: the camera transform in the reverse (camera) order,
      with the negated position, the yaw about x, the pitch about y and
      unit scale: a world point is moved by minus the camera position,
      then turned by the pitch and then by the yaw. */
  function GetViewMat(cam: Camera, lib: Libm): (r: Matrix.Matrix4)
    ensures Matrix.Affine(r)
    ensures forall p :: (Matrix.Apply(p, r) ==
      Matrix.Apply(Matrix.Apply(Matrix.Apply(Vec3.Sub(p, cam.position), Matrix.RotationY(cam.pitch, lib)),
                                Matrix.RotationX(cam.yaw, lib)), Matrix.RotationZ(0.0, lib)))
  {
    var t := Matrix.GetTransformMatrix(Vec3.Neg(cam.position), Vec3.Vector3(cam.yaw, cam.pitch, 0.0),
                                       Vec3.Vector3(1.0, 1.0, 1.0), true, lib);
    Matrix.IdentityLeft(t);
    Matrix.Mul(Matrix.Identity, t)
  }

  /** The view sends the camera's own position to the origin. */
  lemma CameraAtOrigin(cam: Camera, lib: Libm)
    ensures Matrix.Apply(cam.position, GetViewMat(cam, lib)) == Vec3.Zero
  {
    var z := Vec3.Sub(cam.position, cam.position);
    assert z == Vec3.Zero;
    Matrix.RotationYApply(z, cam.pitch, lib);
    Matrix.RotationXApply(z, cam.yaw, lib);
    Matrix.RotationZApply(z, 0.0, lib);
  }

  /** An unturned camera's view only moves the world by minus its position. */
  lemma UnturnedView(cam: Camera, lib: Libm)
    requires TrigAtZero(lib) && cam.pitch == 0.0 && cam.yaw == 0.0
    ensures forall p :: Matrix.Apply(p, GetViewMat(cam, lib)) == Vec3.Sub(p, cam.position)
  {
    Matrix.RotationsAtZero(lib);
    forall p
      ensures Matrix.Apply(p, GetViewMat(cam, lib)) == Vec3.Sub(p, cam.position)
    {
      Matrix.ApplyIdentity(Vec3.Sub(p, cam.position));
    }
  }

  /** A newly built camera looks from the origin without turning: its view
      is the identity. */
  lemma NewCameraView(width: nat, height: nat, fov: real, near: real, far: real, acceleration: real, lib: Libm)
    requires height > 0 && TrigAtZero(lib)
    ensures GetViewMat(NewCamera(width, height, fov, near, far, acceleration), lib) == Matrix.Identity
  {
    var cam := NewCamera(width, height, fov, near, far, acceleration);
    assert Vec3.Neg(cam.position) == Vec3.Zero;
    assert Vec3.Vector3(cam.yaw, cam.pitch, 0.0) == Vec3.Zero;
    Matrix.DefaultTransformIsIdentity(true, lib);
    Matrix.IdentityLeft(Matrix.Identity);
  }

  /** `GetVPMat`: the view followed by the projection. The clip w of a
      point is its depth in view space. */
  function GetVPMat(cam: Camera, lib: Libm): (r: Matrix.Matrix4)
    requires PerspectiveDefined(cam, lib)
    ensures forall p :: Clip(p, r).w == Matrix.Apply(p, GetViewMat(cam, lib)).z
    ensures forall p :: Clip(p, r) == Clip(Matrix.Apply(p, GetViewMat(cam, lib)), GetPerspective(cam, lib))
  {
    var v, pr := GetViewMat(cam, lib), GetPerspective(cam, lib);
    forall p
      ensures Clip(p, Matrix.Mul(v, pr)).w == Matrix.Apply(p, v).z
      ensures Clip(p, Matrix.Mul(v, pr)) == Clip(Matrix.Apply(p, v), pr)
    {
      ClipDepthOfProduct(p, v, pr);
      Matrix.ApplyMul(p, v, pr);
      var q := Matrix.Apply(p, v);
      assert Clip(q, pr).w == q.z;
    }
    Matrix.Mul(v, pr)
  }

  /** When the right factor's last column is (0, 0, 1, 0), the clip w of
      the product is the depth after the left factor. */
  lemma ClipDepthOfProduct(p: Vec3.Vector3, v: Matrix.Matrix4, pr: Matrix.Matrix4)
    requires pr[0][3] == 0.0 && pr[1][3] == 0.0 && pr[2][3] == 1.0 && pr[3][3] == 0.0
    ensures Clip(p, Matrix.Mul(v, pr)).w == Matrix.Apply(p, v).z
  {
    var r := Matrix.Mul(v, pr);
    assert r[0][3] == v[0][2] by { assert r[0][3] == Matrix.Entry(v, pr, 0, 3); }
    assert r[1][3] == v[1][2] by { assert r[1][3] == Matrix.Entry(v, pr, 1, 3); }
    assert r[2][3] == v[2][2] by { assert r[2][3] == Matrix.Entry(v, pr, 2, 3); }
    assert r[3][3] == v[3][2] by { assert r[3][3] == Matrix.Entry(v, pr, 3, 3); }
  }
}

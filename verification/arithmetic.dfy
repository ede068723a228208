/** Scalar helpers of the maths library (Arithmetic.cpp), over the reals. */
module Arithmetic {
  import opened Wrappers
  import opened MathLib

  /** `SignOf`: 1 for zero and positive values, -1 for negative ones. The
      source divides `val` by `abs((int)val)`, which is zero when
      0 < |val| < 1, so only zero and values of magnitude at least one are
      in the domain. */
  function SignOf(val: real): (r: int)
    requires val == 0.0 || 1.0 <= Abs(val)
    ensures r == 1 <==> 0.0 <= val
    ensures r == -1 <==> val < 0.0
  {
    if val == 0.0 then 1
    else
      var n := Trunc(val);
      var d := if n < 0 then -n else n;
      SignOfQuotient(val, d);
      Trunc(val / d as real)
  }

  /** The quotient inside `SignOf` lies in [1, 2) or (-2, -1]. */
  lemma SignOfQuotient(val: real, d: int)
    requires 1.0 <= Abs(val)
    requires d == (if Trunc(val) < 0 then -Trunc(val) else Trunc(val))
    ensures 0 < d
    ensures 0.0 < val ==> 1.0 <= val / d as real < 2.0
    ensures val < 0.0 ==> -2.0 < val / d as real <= -1.0
  {
    var q := val / d as real;
    var dr := d as real;
    assert q * dr == val;
    if 0.0 < val {
      assert dr <= val < dr + 1.0 <= 2.0 * dr;
      PositiveProduct(q - 1.0, dr, val - dr);
      PositiveProduct(2.0 - q, dr, 2.0 * dr - val);
    } else {
      assert -dr - 1.0 < val <= -dr;
      PositiveProduct(-1.0 - q, dr, -dr - val);
      PositiveProduct(q + 2.0, dr, val + 2.0 * dr);
    }
  }

  lemma PositiveProduct(a: real, b: real, ab: real)
    requires 0.0 < b && a * b == ab
    ensures 0.0 <= ab ==> 0.0 <= a
    ensures 0.0 < ab ==> 0.0 < a
  {
  }

  /** Degrees to radians, `deg * (PI / 180)`. */
  function DegToRad(deg: real): (r: real)
    ensures r * 180.0 == deg * PI
  {
    deg * (PI / 180.0)
  }

  /** Radians to degrees, `rad * (180 / PI)`. */
  function RadToDeg(rad: real): (r: real)
    ensures r * PI == rad * 180.0
  {
    rad * (180.0 / PI)
  }

  /** Over the reals the two conversions are inverse to each other. */
  lemma DegRadRoundTrip(d: real)
    ensures RadToDeg(DegToRad(d)) == d
    ensures DegToRad(RadToDeg(d)) == d
  {
  }

  /** `Clamp`: the source asserts `min <= max` and throws otherwise. */
  function Clamp(val: real, min: real, max: real): (r: Result<real>)
    ensures r.Ok? <==> min <= max
    ensures r.Ok? ==> min <= r.value <= max
    ensures r.Ok? && min <= val <= max ==> r.value == val
    ensures r.Ok? && val < min ==> r.value == min
    ensures r.Ok? && max < val ==> r.value == max
  {
    if !(min <= max) then Err("Minimum should'nt be superior to maximum.")
    else
      var lifted := if val < min then min else val;
      Ok(if lifted > max then max else lifted)
  }

  /** `ClampUnder`: caps the value at `max`. */
  function ClampUnder(val: real, max: real): (r: real)
    ensures r <= max
    ensures val <= max ==> r == val
    ensures max < val ==> r == max
  {
    if val > max then max else val
  }

  /** `ClampAbove`: raises the value to at least `min`. */
  function ClampAbove(val: real, min: real): (r: real)
    ensures min <= r
    ensures min <= val ==> r == val
    ensures val < min ==> r == min
  {
    if val < min then min else val
  }

  /** A successful `Clamp` is `ClampAbove` followed by `ClampUnder`, the two
      statements of its body, and clamping twice changes nothing. */
  lemma ClampComposes(val: real, min: real, max: real)
    requires min <= max
    ensures Clamp(val, min, max) == Ok(ClampUnder(ClampAbove(val, min), max))
    ensures Clamp(Clamp(val, min, max).value, min, max) == Clamp(val, min, max)
  {
  }

  /** `Lerp`: `start + val * (end - start)`. */
  function Lerp(val: real, start: real, end: real): (r: real)
    ensures val == 0.0 ==> r == start
    ensures val == 1.0 ==> r == end
    ensures start == end ==> r == start
  {
    start + val * (end - start)
  }

  /** `GetLerp`: the interpolation factor, 0 for an empty range. */
  function GetLerp(val: real, start: real, end: real): (r: real)
    ensures end == start ==> r == 0.0
    ensures end != start ==> r * (end - start) == val - start
  {
    if end - start != 0.0 then (val - start) / (end - start) else 0.0
  }

  /** On a non-empty range `GetLerp` and `Lerp` undo each other. */
  lemma LerpGetLerpInverse(t: real, val: real, start: real, end: real)
    requires start != end
    ensures GetLerp(Lerp(t, start, end), start, end) == t
    ensures Lerp(GetLerp(val, start, end), start, end) == val
  {
    var g := GetLerp(val, start, end);
    assert g * (end - start) == val - start;
    var l := Lerp(t, start, end);
    var k := GetLerp(l, start, end);
    assert k * (end - start) == t * (end - start);
    CancelNonZero(k, t, end - start);
  }

  /** `Remap`: maps `val` from the input range onto the output range; the
      source divides by the input range's width without a guard. */
  function Remap(val: real, inputStart: real, inputEnd: real, outputStart: real, outputEnd: real): (r: real)
    requires inputEnd != inputStart
    ensures r == Lerp(GetLerp(val, inputStart, inputEnd), outputStart, outputEnd)
  {
    outputStart + (val - inputStart) * (outputEnd - outputStart) / (inputEnd - inputStart)
  }
}

/** The engine value types the helpers work on, with the semantics the engine
    documents for them, over idealised numbers: coordinates are reals, and a
    quaternion component is either NaN or a real (there is no infinity). */
module UnityEngine {
  import opened Numerics

  datatype Vector2 = Vector2(x: real, y: real)

  datatype Vector3 = Vector3(x: real, y: real, z: real)

  datatype Color = Color(r: real, g: real, b: real, a: real)

  const Zero3: Vector3 := Vector3(0.0, 0.0, 0.0)
  const Right: Vector3 := Vector3(1.0, 0.0, 0.0)
  const Up: Vector3 := Vector3(0.0, 1.0, 0.0)
  const Forward: Vector3 := Vector3(0.0, 0.0, 1.0)

  function Add3(a: Vector3, b: Vector3): Vector3 {
    Vector3(a.x + b.x, a.y + b.y, a.z + b.z)
  }

  function Sub3(a: Vector3, b: Vector3): Vector3 {
    Vector3(a.x - b.x, a.y - b.y, a.z - b.z)
  }

  function Scale3(a: Vector3, k: real): Vector3 {
    Vector3(a.x * k, a.y * k, a.z * k)
  }

  /** `Vector3.Min`: component-wise minimum. */
  function Min3(a: Vector3, b: Vector3): Vector3 {
    Vector3(Min(a.x, b.x), Min(a.y, b.y), Min(a.z, b.z))
  }

  /** `Vector3.Max`: component-wise maximum. */
  function Max3(a: Vector3, b: Vector3): Vector3 {
    Vector3(Max(a.x, b.x), Max(a.y, b.y), Max(a.z, b.z))
  }

  /** Component-wise `a <= b`. */
  predicate LessEq3(a: Vector3, b: Vector3) {
    a.x <= b.x && a.y <= b.y && a.z <= b.z
  }

  // ---------------------------------------------------------------------------
  // Single-precision floats, idealised: NaN or a real.

  datatype Float = NaN | Num(value: real)

  function FAdd(a: Float, b: Float): Float {
    if a.NaN? || b.NaN? then NaN else Num(a.value + b.value)
  }

  function FSub(a: Float, b: Float): Float {
    if a.NaN? || b.NaN? then NaN else Num(a.value - b.value)
  }

  function FNeg(a: Float): Float {
    if a.NaN? then NaN else Num(-a.value)
  }

  /** `a < b`: every comparison with NaN is false. */
  predicate FLess(a: Float, b: Float) {
    a.Num? && b.Num? && a.value < b.value
  }

  /** `a == b`: NaN is equal to nothing, not even itself. */
  predicate FEquals(a: Float, b: Float) {
    a.Num? && b.Num? && a.value == b.value
  }

  datatype Quaternion = Quaternion(x: Float, y: Float, z: Float, w: Float)

  // ---------------------------------------------------------------------------
  // Bounds: an axis-aligned box stored as center and extents (half the size).

  datatype Bounds = Bounds(center: Vector3, extents: Vector3) {
    function Min(): Vector3 { Sub3(center, extents) }
    function Max(): Vector3 { Add3(center, extents) }
    function Size(): Vector3 { Scale3(extents, 2.0) }
  }

  /** `default(Bounds)` and `new Bounds()`: zero center, zero extents. */
  const DefaultBounds: Bounds := Bounds(Zero3, Zero3)

  /** `new Bounds(center, size)`: the extents are half the size. */
  function BoundsFromSize(center: Vector3, size: Vector3): Bounds {
    Bounds(center, Scale3(size, 0.5))
  }

  /** A box built from a center and a size has that center and that size. */
  lemma BoundsFromSizeHasSize(center: Vector3, size: Vector3)
    ensures BoundsFromSize(center, size).center == center && BoundsFromSize(center, size).Size() == size
  {
  }

  /** `Bounds.SetMinMax`: extents are half of `max - min`, the center is
      `min` plus the extents. */
  function SetMinMax(min: Vector3, max: Vector3): Bounds {
    var extents := Scale3(Sub3(max, min), 0.5);
    Bounds(Add3(min, extents), extents)
  }

  /** The box `SetMinMax` builds has exactly the given corners. */
  lemma SetMinMaxCorners(min: Vector3, max: Vector3)
    ensures SetMinMax(min, max).Min() == min && SetMinMax(min, max).Max() == max
  {
  }

  /** `Bounds.Encapsulate(Vector3)`: grows the box to include the point. */
  function EncapsulatePoint(b: Bounds, p: Vector3): Bounds {
    SetMinMax(Min3(b.Min(), p), Max3(b.Max(), p))
  }

  /** `Bounds.Encapsulate(Bounds)`: encapsulates the other box's minimum
      corner and then its maximum corner. */
  function Encapsulate(b: Bounds, other: Bounds): Bounds {
    EncapsulatePoint(EncapsulatePoint(b, Sub3(other.center, other.extents)),
                     Add3(other.center, other.extents))
  }

  /** Encapsulating a point gives the component-wise minimum and maximum of
      the box's corners and the point. */
  lemma EncapsulatePointCorners(b: Bounds, p: Vector3)
    ensures EncapsulatePoint(b, p).Min() == Min3(b.Min(), p)
    ensures EncapsulatePoint(b, p).Max() == Max3(b.Max(), p)
  {
    SetMinMaxCorners(Min3(b.Min(), p), Max3(b.Max(), p));
  }

  /** Encapsulating a box takes the minimum and maximum over both corners of
      the other box, in the order Unity encapsulates them. */
  lemma EncapsulateCorners(b: Bounds, other: Bounds)
    ensures Encapsulate(b, other).Min() == Min3(Min3(b.Min(), other.Min()), other.Max())
    ensures Encapsulate(b, other).Max() == Max3(Max3(b.Max(), other.Min()), other.Max())
  {
    var first := EncapsulatePoint(b, other.Min());
    EncapsulatePointCorners(b, other.Min());
    EncapsulatePointCorners(first, other.Max());
  }

  /** A box whose minimum corner is not above its maximum corner. */
  predicate WellFormed(b: Bounds) {
    b.extents.x >= 0.0 && b.extents.y >= 0.0 && b.extents.z >= 0.0
  }

  /** `outer` contains `inner`: both corners of `inner` lie within `outer`. */
  predicate Encloses(outer: Bounds, inner: Bounds) {
    LessEq3(outer.Min(), inner.Min()) && LessEq3(inner.Max(), outer.Max())
  }

  /** `Bounds.Contains(point)`. */
  predicate ContainsPoint(b: Bounds, p: Vector3) {
    LessEq3(b.Min(), p) && LessEq3(p, b.Max())
  }

  // ---------------------------------------------------------------------------
  // A Transform's local-to-world mapping: a linear part (rotation and scale)
  // and a translation.

  datatype Matrix3 = Matrix3(row0: Vector3, row1: Vector3, row2: Vector3)

  function Dot(a: Vector3, b: Vector3): real {
    a.x * b.x + a.y * b.y + a.z * b.z
  }

  function Multiply(m: Matrix3, v: Vector3): Vector3 {
    Vector3(Dot(m.row0, v), Dot(m.row1, v), Dot(m.row2, v))
  }

  datatype AffineTransform = AffineTransform(linear: Matrix3, translation: Vector3)

  /** `Transform.TransformVector`: rotation and scale, no translation. */
  function TransformVector(t: AffineTransform, v: Vector3): Vector3 {
    Multiply(t.linear, v)
  }

  /** `Transform.TransformPoint`: rotation, scale and translation. */
  function TransformPoint(t: AffineTransform, p: Vector3): Vector3 {
    Add3(Multiply(t.linear, p), t.translation)
  }
}

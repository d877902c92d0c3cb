/** The quaternion sanitising helpers: `Shorten`, `IsValid`, `FixNaN`, `Add`
    and `Difference`. A component is NaN or a real; with no infinities, a sum
    of components is NaN exactly when one of them is. */
module QuaternionHelpers {
  import opened UnityEngine

  predicate HasNaN(q: Quaternion) {
    q.x.NaN? || q.y.NaN? || q.z.NaN? || q.w.NaN?
  }

  /** Every component compares equal to zero (so none is NaN). */
  predicate IsZero(q: Quaternion) {
    q.x == Num(0.0) && q.y == Num(0.0) && q.z == Num(0.0) && q.w == Num(0.0)
  }

  function Negate(q: Quaternion): Quaternion {
    Quaternion(FNeg(q.x), FNeg(q.y), FNeg(q.z), FNeg(q.w))
  }

  /** Turns a rotation that goes the long way round into the equivalent short
      one: when w is negative every component is negated. `q` and `-q` denote
      the same rotation, so the result is always one of the two. */
  function Shorten(value: Quaternion): (r: Quaternion)
    ensures r == value || r == Negate(value)
    ensures value.w.Num? ==> r.w.Num? && r.w.value >= 0.0
    ensures !FLess(value.w, Num(0.0)) ==> r == value
    ensures FLess(value.w, Num(0.0)) ==>
      r.x == FNeg(value.x) && r.y == FNeg(value.y) && r.z == FNeg(value.z) && r.w == Num(-value.w.value)
    ensures HasNaN(r) <==> HasNaN(value)
  {
    if FLess(value.w, Num(0.0)) then
      var v := value.(x := FNeg(value.x));
      var v := v.(y := FNeg(v.y));
      var v := v.(z := FNeg(v.z));
      v.(w := FNeg(v.w))
    else
      value
  }

  /** Shortening twice is shortening once. */
  lemma ShortenIdempotent(q: Quaternion)
    ensures Shorten(Shorten(q)) == Shorten(q)
  {
  }

  /** Whether the quaternion can be used for interpolation or as a transform
      rotation: the NaN test is on the sum of the components, which under the
      no-infinity reading is NaN exactly when some component is. */
  function IsValid(quaternion: Quaternion): (r: bool)
    ensures r <==> !HasNaN(quaternion) && !IsZero(quaternion)
  {
    var isNaN := FAdd(FAdd(FAdd(quaternion.x, quaternion.y), quaternion.z), quaternion.w).NaN?;
    var isZero := FEquals(quaternion.x, Num(0.0)) && FEquals(quaternion.y, Num(0.0))
               && FEquals(quaternion.z, Num(0.0)) && FEquals(quaternion.w, Num(0.0));
    !(isNaN || isZero)
  }

  /** Replaces exactly the NaN components with zero. */
  function FixNaN(quaternion: Quaternion): (r: Quaternion)
    ensures !HasNaN(r)
    ensures quaternion.x.Num? ==> r.x == quaternion.x
    ensures quaternion.y.Num? ==> r.y == quaternion.y
    ensures quaternion.z.Num? ==> r.z == quaternion.z
    ensures quaternion.w.Num? ==> r.w == quaternion.w
    ensures quaternion.x.NaN? ==> r.x == Num(0.0)
    ensures quaternion.y.NaN? ==> r.y == Num(0.0)
    ensures quaternion.z.NaN? ==> r.z == Num(0.0)
    ensures quaternion.w.NaN? ==> r.w == Num(0.0)
  {
    var q := quaternion;
    var q := if q.x.NaN? then q.(x := Num(0.0)) else q;
    var q := if q.y.NaN? then q.(y := Num(0.0)) else q;
    var q := if q.z.NaN? then q.(z := Num(0.0)) else q;
    if q.w.NaN? then q.(w := Num(0.0)) else q
  }

  predicate NaNOrZero(f: Float) {
    f.NaN? || f == Num(0.0)
  }

  /** After `FixNaN` a quaternion is still invalid exactly when each of its
      components was NaN or zero: `FixNaN` alone cannot rescue those. */
  lemma FixNaNStillInvalid(q: Quaternion)
    ensures !IsValid(FixNaN(q)) <==>
      NaNOrZero(q.x) && NaNOrZero(q.y) && NaNOrZero(q.z) && NaNOrZero(q.w)
  {
  }

  /** A quaternion whose components are all NaN or zero (the all-NaN and the
      zero quaternion among them) comes out of `FixNaN` as the zero
      quaternion, which `IsValid` rejects. */
  lemma FixNaNOfDegenerate(q: Quaternion)
    requires NaNOrZero(q.x) && NaNOrZero(q.y) && NaNOrZero(q.z) && NaNOrZero(q.w)
    ensures IsZero(FixNaN(q)) && !IsValid(FixNaN(q))
  {
  }

  /** Component-wise sum; NaN in either operand's component gives NaN there. */
  function Add(rot1: Quaternion, rot2: Quaternion): (r: Quaternion)
    ensures r.x.NaN? <==> rot1.x.NaN? || rot2.x.NaN?
    ensures r.y.NaN? <==> rot1.y.NaN? || rot2.y.NaN?
    ensures r.z.NaN? <==> rot1.z.NaN? || rot2.z.NaN?
    ensures r.w.NaN? <==> rot1.w.NaN? || rot2.w.NaN?
    ensures !HasNaN(rot1) && !HasNaN(rot2) ==>
      r.x.value == rot1.x.value + rot2.x.value && r.y.value == rot1.y.value + rot2.y.value &&
      r.z.value == rot1.z.value + rot2.z.value && r.w.value == rot1.w.value + rot2.w.value
  {
    Quaternion(FAdd(rot1.x, rot2.x), FAdd(rot1.y, rot2.y), FAdd(rot1.z, rot2.z), FAdd(rot1.w, rot2.w))
  }

  lemma AddCommutative(a: Quaternion, b: Quaternion)
    ensures Add(a, b) == Add(b, a)
  {
  }

  /** The average of the four component differences. */
  function Difference(rot1: Quaternion, rot2: Quaternion): (r: Float)
    ensures r.NaN? <==> HasNaN(rot1) || HasNaN(rot2)
    ensures r.Num? ==>
      r.value * 4.0 == (rot1.x.value - rot2.x.value) + (rot1.y.value - rot2.y.value)
                     + (rot1.z.value - rot2.z.value) + (rot1.w.value - rot2.w.value)
  {
    var sum := FAdd(FAdd(FAdd(FSub(rot1.x, rot2.x), FSub(rot1.y, rot2.y)), FSub(rot1.z, rot2.z)), FSub(rot1.w, rot2.w));
    if sum.NaN? then NaN else Num(sum.value / 4.0)
  }

  /** A NaN-free quaternion differs from itself by zero, and swapping the
      operands negates the difference. */
  lemma DifferenceProperties(a: Quaternion, b: Quaternion)
    ensures !HasNaN(a) ==> Difference(a, a) == Num(0.0)
    ensures Difference(b, a) == FNeg(Difference(a, b))
  {
  }
}

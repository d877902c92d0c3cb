/** Axis-aligned box helpers: combining boxes, the total box of the bounded
    objects under a root (filtered by layer mask and active flag), the local
    box of a collider, and a box carried through a transform. The object
    hierarchy is a caller-supplied sequence of leaves: each leaf carries its
    layer, its active flag, whether it is the root itself, the box the engine
    reports for it, and the point map into the root's space. */
module BoundsHelpers {
  import opened Numerics
  import opened UnityEngine
  import opened LayerMasks

  // ---------------------------------------------------------------------------
  // Combining boxes

  /** Folds a binary operation over a non-empty sequence from the left:
      the first element, then each later one combined into the result so
      far. */
  function FoldLast<T>(f: (T, T) -> T, s: seq<T>): T
    requires |s| > 0
  {
    if |s| == 1 then s[0] else f(FoldLast(f, s[..|s| - 1]), s[|s| - 1])
  }

  /** Folding one element more applies the operation once more. */
  lemma FoldLastStep<T>(f: (T, T) -> T, s: seq<T>, i: nat)
    requires 1 <= i < |s|
    ensures FoldLast(f, s[..i + 1]) == f(FoldLast(f, s[..i]), s[i])
  {
    assert s[..i + 1][..i] == s[..i];
  }

  /** Folding two elements applies the operation to them once. */
  lemma FoldLastPair<T>(f: (T, T) -> T, a: T, b: T)
    ensures FoldLast(f, [a, b]) == f(a, b)
  {
    assert [a, b][..1] == [a];
  }

  /** The box `Combine` builds from a non-empty sequence: the first box,
      encapsulating each later one in turn. */
  function CombineAll(bounds: seq<Bounds>): Bounds
    requires |bounds| > 0
  {
    FoldLast(Encapsulate, bounds)
  }

  /** The last box is encapsulated into the combination of the others. */
  lemma CombineAllLast(bounds: seq<Bounds>)
    requires |bounds| > 1
    ensures CombineAll(bounds) == Encapsulate(CombineAll(bounds[..|bounds| - 1]), bounds[|bounds| - 1])
  {
  }

  /** Combines any number of boxes. An empty input is an error: it is
      reported, and the default box (zero center, zero extents) returned. */
  method Combine(bounds: seq<Bounds>) returns (combined: Bounds, reportedError: bool)
    ensures reportedError <==> |bounds| == 0
    ensures |bounds| == 0 ==> combined == DefaultBounds
    ensures |bounds| > 0 ==> combined == CombineAll(bounds)
    ensures |bounds| == 1 ==> combined == bounds[0]
  {
    combined := DefaultBounds;
    reportedError := false;
    if |bounds| > 0 {
      combined := bounds[0];
      var i := 1;
      while i < |bounds|
        invariant 1 <= i <= |bounds|
        invariant combined == CombineAll(bounds[..i])
      {
        FoldLastStep(Encapsulate, bounds, i);
        combined := Encapsulate(combined, bounds[i]);
        i := i + 1;
      }
      assert bounds[..|bounds|] == bounds;
    } else {
      reportedError := true;
    }
  }

  /** What both `GetTotalBounds` overloads build from the boxes they
      gathered: their combination, or a zero-size box at `fallback` when
      there are none. */
  function CombinedOr(inner: seq<Bounds>, fallback: Vector3): Bounds {
    if |inner| > 0 then CombineAll(inner) else Bounds(fallback, Zero3)
  }

  /** Combines two boxes, through the array overload. */
  method CombinePair(current: Bounds, other: Bounds) returns (combined: Bounds)
    ensures combined == Encapsulate(current, other)
    ensures Encloses(combined, current) && Encloses(combined, other)
  {
    var reportedError;
    combined, reportedError := Combine([current, other]);
    FoldLastPair(Encapsulate, current, other);
    EncapsulateEncloses(current, other);
  }

  /** Encapsulating a box into another gives a box containing both. */
  lemma EncapsulateEncloses(b: Bounds, other: Bounds)
    ensures Encloses(Encapsulate(b, other), b) && Encloses(Encapsulate(b, other), other)
  {
    EncapsulateCorners(b, other);
  }

  /** The combined box contains every input box. */
  lemma {:induction false} CombineEncloses(bounds: seq<Bounds>, i: nat)
    requires i < |bounds|
    ensures Encloses(CombineAll(bounds), bounds[i])
  {
    if |bounds| > 1 {
      var front := bounds[..|bounds| - 1];
      CombineAllLast(bounds);
      EncapsulateEncloses(CombineAll(front), bounds[|bounds| - 1]);
      if i < |bounds| - 1 {
        CombineEncloses(front, i);
        assert front[i] == bounds[i];
      }
    }
  }

  /** A box is well formed exactly when its minimum corner is not above its
      maximum corner. */
  lemma WellFormedCorners(b: Bounds)
    ensures WellFormed(b) <==> LessEq3(b.Min(), b.Max())
  {
  }

  /** For well-formed inputs the combined box is the smallest that contains
      them all: any box containing every input contains it. */
  lemma {:induction false} CombineLeast(bounds: seq<Bounds>, outer: Bounds)
    requires |bounds| > 0
    requires forall i :: 0 <= i < |bounds| ==> WellFormed(bounds[i]) && Encloses(outer, bounds[i])
    ensures Encloses(outer, CombineAll(bounds))
  {
    if |bounds| > 1 {
      var front := bounds[..|bounds| - 1];
      CombineLeast(front, outer);
      CombineAllLast(bounds);
      WellFormedCorners(bounds[|bounds| - 1]);
      EncapsulateCorners(CombineAll(front), bounds[|bounds| - 1]);
    }
  }

  /** Combining keeps boxes well formed (only the first one matters: every
      later one is encapsulated by its two corners). */
  lemma {:induction false} CombineWellFormed(bounds: seq<Bounds>)
    requires |bounds| > 0 && WellFormed(bounds[0])
    ensures WellFormed(CombineAll(bounds))
  {
    CombineEncloses(bounds, 0);
    WellFormedCorners(bounds[0]);
    WellFormedCorners(CombineAll(bounds));
  }

  // ---------------------------------------------------------------------------
  // Leaves and the layer filter

  datatype Space = Self | World

  /** A bounded object under the root: its layer and active flag, whether it
      is the root itself, the box the engine reports for its renderer or
      collider (`bounds`, in world space), the box `GetBounds` computes for it
      in either space, and its `TransformPointToAnotherSpace(root, ·)`. */
  datatype Leaf = Leaf(layer: int32, activeSelf: bool, isRoot: bool, engineBounds: Bounds,
                       boundsIn: Space -> Bounds, toRoot: Vector3 -> Vector3)

  /** Whether a leaf takes part: its layer is in the mask, and it is active
      unless disabled objects are included. An empty mask takes no leaf, and
      an inactive leaf takes part only when disabled objects are included. */
  function Qualifies(leaf: Leaf, layers: bv32, includeDisabled: bool): (r: bool)
    ensures r ==> layers != 0
    ensures r ==> includeDisabled || leaf.activeSelf
  {
    (LayerBit(leaf.layer) & layers) != 0 && (includeDisabled || leaf.activeSelf)
  }

  /** With the all-layers mask only the active flag matters. */
  lemma AllLayersSelectEveryLayer(leaf: Leaf, includeDisabled: bool)
    ensures Qualifies(leaf, AllLayers, includeDisabled) <==> includeDisabled || leaf.activeSelf
  {
    BitKeptByAllLayers(LayerShift(leaf.layer));
  }

  // ---------------------------------------------------------------------------
  // Total bounds, obsolete overload

  /** The engine boxes of the qualifying leaves, in order. */
  function EngineBoxes(leaves: seq<Leaf>, layers: bv32, includeDisabled: bool): seq<Bounds> {
    if |leaves| == 0 then []
    else
      var previous := EngineBoxes(leaves[..|leaves| - 1], layers, includeDisabled);
      var leaf := leaves[|leaves| - 1];
      if Qualifies(leaf, layers, includeDisabled) then previous + [leaf.engineBounds] else previous
  }

  /** The obsolete `GetTotalBounds`: combines the engine boxes of the
      qualifying leaves, or falls back to a zero-size box at the root's
      position; outside world space only the center is mapped back into the
      root's space, by the root's world-to-local transform (its
      `InverseTransformPoint`). */
  method GetTotalBoundsObsolete(leaves: seq<Leaf>, layers: bv32, worldSpace: bool, includeDisabled: bool,
                                position: Vector3, worldToLocal: AffineTransform)
    returns (totalBounds: Bounds)
    ensures var box := CombinedOr(EngineBoxes(leaves, layers, includeDisabled), position);
            totalBounds == if worldSpace then box else Bounds(TransformPoint(worldToLocal, box.center), box.extents)
  {
    var innerBounds: seq<Bounds> := [];
    var i := 0;
    while i < |leaves|
      invariant 0 <= i <= |leaves|
      invariant innerBounds == EngineBoxes(leaves[..i], layers, includeDisabled)
    {
      assert leaves[..i + 1][..i] == leaves[..i];
      var leaf := leaves[i];
      if Qualifies(leaf, layers, includeDisabled) {
        innerBounds := innerBounds + [leaf.engineBounds];
      }
      i := i + 1;
    }
    assert leaves[..|leaves|] == leaves;
    var combined;
    if |innerBounds| > 0 {
      var reportedError;
      combined, reportedError := Combine(innerBounds);
    } else {
      // a box of zero size at the root: zero extents
      combined := Bounds(position, Zero3);
    }
    if worldSpace {
      totalBounds := combined;
    } else {
      totalBounds := Bounds(TransformPoint(worldToLocal, combined.center), combined.extents);
    }
  }

  /** No engine box is gathered exactly when no leaf qualifies. */
  lemma {:induction false} EngineBoxesEmpty(leaves: seq<Leaf>, layers: bv32, includeDisabled: bool)
    ensures |EngineBoxes(leaves, layers, includeDisabled)| == 0
        <==> forall i :: 0 <= i < |leaves| ==> !Qualifies(leaves[i], layers, includeDisabled)
  {
    if |leaves| > 0 {
      var front := leaves[..|leaves| - 1];
      EngineBoxesEmpty(front, layers, includeDisabled);
      assert forall i :: 0 <= i < |front| ==> front[i] == leaves[i];
    }
  }

  /** Every qualifying leaf's engine box is gathered, and every gathered box
      is the engine box of a qualifying leaf. */
  lemma {:induction false} EngineBoxesComplete(leaves: seq<Leaf>, layers: bv32, includeDisabled: bool)
    ensures forall i :: 0 <= i < |leaves| && Qualifies(leaves[i], layers, includeDisabled) ==>
              leaves[i].engineBounds in EngineBoxes(leaves, layers, includeDisabled)
    ensures forall b :: b in EngineBoxes(leaves, layers, includeDisabled) ==>
              exists i :: 0 <= i < |leaves| && Qualifies(leaves[i], layers, includeDisabled)
                          && b == leaves[i].engineBounds
  {
    if |leaves| > 0 {
      var front := leaves[..|leaves| - 1];
      EngineBoxesComplete(front, layers, includeDisabled);
      assert forall i :: 0 <= i < |front| ==> front[i] == leaves[i];
    }
  }

  /** In world space the obsolete total box contains the engine box of every
      qualifying leaf. */
  lemma ObsoleteEnclosesQualifyingLeaf(leaves: seq<Leaf>, layers: bv32, includeDisabled: bool, position: Vector3,
                                       i: nat)
    requires i < |leaves| && Qualifies(leaves[i], layers, includeDisabled)
    ensures Encloses(CombinedOr(EngineBoxes(leaves, layers, includeDisabled), position), leaves[i].engineBounds)
  {
    EngineBoxesComplete(leaves, layers, includeDisabled);
    var inner := EngineBoxes(leaves, layers, includeDisabled);
    var j :| 0 <= j < |inner| && inner[j] == leaves[i].engineBounds;
    CombineEncloses(inner, j);
  }

  /** When no leaf qualifies, the obsolete overload falls back to a zero-size
      box at the root's position. */
  lemma ObsoleteFallback(leaves: seq<Leaf>, layers: bv32, includeDisabled: bool, position: Vector3)
    requires forall i :: 0 <= i < |leaves| ==> !Qualifies(leaves[i], layers, includeDisabled)
    ensures CombinedOr(EngineBoxes(leaves, layers, includeDisabled), position) == Bounds(position, Zero3)
  {
    EngineBoxesEmpty(leaves, layers, includeDisabled);
  }

  // ---------------------------------------------------------------------------
  // Total bounds

  /** What a qualifying leaf contributes: its box in the requested space; in
      the root's own space a leaf other than the root has its corners mapped
      into the root's space and the box rebuilt from them. */
  function Contribution(leaf: Leaf, space: Space): Bounds {
    var currentBounds := leaf.boundsIn(space);
    if space == Self && !leaf.isRoot then
      SetMinMax(leaf.toRoot(currentBounds.Min()), leaf.toRoot(currentBounds.Max()))
    else currentBounds
  }

  /** The contributions of the qualifying leaves, in order. */
  function Contributions(leaves: seq<Leaf>, space: Space, layers: bv32, includeDisabled: bool): seq<Bounds> {
    if |leaves| == 0 then []
    else
      var previous := Contributions(leaves[..|leaves| - 1], space, layers, includeDisabled);
      var leaf := leaves[|leaves| - 1];
      if Qualifies(leaf, layers, includeDisabled) then previous + [Contribution(leaf, space)] else previous
  }

  /** Where the fallback box sits: the root's local position in its own
      space, its world position otherwise. */
  function FallbackCenter(space: Space, rootLocalPosition: Vector3, rootPosition: Vector3): Vector3 {
    if space == Self then rootLocalPosition else rootPosition
  }

  /** `GetTotalBounds`: combines the contributions of the qualifying leaves,
      or, when none qualifies, returns a zero-size box at the root. */
  method GetTotalBounds(leaves: seq<Leaf>, space: Space, layers: bv32, includeDisabled: bool,
                        rootLocalPosition: Vector3, rootPosition: Vector3)
    returns (totalBounds: Bounds)
    ensures totalBounds == CombinedOr(Contributions(leaves, space, layers, includeDisabled),
                                      FallbackCenter(space, rootLocalPosition, rootPosition))
  {
    var innerBounds: seq<Bounds> := [];
    var i := 0;
    while i < |leaves|
      invariant 0 <= i <= |leaves|
      invariant innerBounds == Contributions(leaves[..i], space, layers, includeDisabled)
    {
      assert leaves[..i + 1][..i] == leaves[..i];
      var boundedObject := leaves[i];
      if Qualifies(boundedObject, layers, includeDisabled) {
        var currentBounds := boundedObject.boundsIn(space);
        if space == Self && !boundedObject.isRoot {
          var adjustedMin := boundedObject.toRoot(currentBounds.Min());
          var adjustedMax := boundedObject.toRoot(currentBounds.Max());
          currentBounds := SetMinMax(adjustedMin, adjustedMax);
        }
        innerBounds := innerBounds + [currentBounds];
      }
      i := i + 1;
    }
    assert leaves[..|leaves|] == leaves;
    if |innerBounds| > 0 {
      var reportedError;
      totalBounds, reportedError := Combine(innerBounds);
    } else {
      // a box of zero size at the root: zero extents
      totalBounds := Bounds(if space == Self then rootLocalPosition else rootPosition, Zero3);
    }
  }

  /** Nothing contributes exactly when no leaf qualifies. */
  lemma {:induction false} ContributionsEmpty(leaves: seq<Leaf>, space: Space, layers: bv32, includeDisabled: bool)
    ensures |Contributions(leaves, space, layers, includeDisabled)| == 0
        <==> forall i :: 0 <= i < |leaves| ==> !Qualifies(leaves[i], layers, includeDisabled)
  {
    if |leaves| > 0 {
      var front := leaves[..|leaves| - 1];
      ContributionsEmpty(front, space, layers, includeDisabled);
      assert forall i :: 0 <= i < |front| ==> front[i] == leaves[i];
    }
  }

  /** Every qualifying leaf contributes its box, and every contribution comes
      from a qualifying leaf. */
  lemma {:induction false} ContributionsComplete(leaves: seq<Leaf>, space: Space, layers: bv32, includeDisabled: bool)
    ensures forall i :: 0 <= i < |leaves| && Qualifies(leaves[i], layers, includeDisabled) ==>
              Contribution(leaves[i], space) in Contributions(leaves, space, layers, includeDisabled)
    ensures forall b :: b in Contributions(leaves, space, layers, includeDisabled) ==>
              exists i :: 0 <= i < |leaves| && Qualifies(leaves[i], layers, includeDisabled)
                          && b == Contribution(leaves[i], space)
  {
    if |leaves| > 0 {
      var front := leaves[..|leaves| - 1];
      ContributionsComplete(front, space, layers, includeDisabled);
      assert forall i :: 0 <= i < |front| ==> front[i] == leaves[i];
    }
  }

  /** The total box contains the contribution of every qualifying leaf. */
  lemma TotalEnclosesQualifyingLeaf(leaves: seq<Leaf>, space: Space, layers: bv32, includeDisabled: bool, i: nat)
    requires i < |leaves| && Qualifies(leaves[i], layers, includeDisabled)
    ensures var inner := Contributions(leaves, space, layers, includeDisabled);
            |inner| > 0 && Encloses(CombineAll(inner), Contribution(leaves[i], space))
  {
    ContributionsComplete(leaves, space, layers, includeDisabled);
    var inner := Contributions(leaves, space, layers, includeDisabled);
    var j :| 0 <= j < |inner| && inner[j] == Contribution(leaves[i], space);
    CombineEncloses(inner, j);
  }

  // ---------------------------------------------------------------------------
  // Local bounds of a collider

  /** The collider kinds `GetLocalBounds` distinguishes; `MeshCollider`
      carries the bounds of its shared mesh. */
  datatype Collider =
    | BoxCollider(center: Vector3, size: Vector3)
    | SphereCollider(center: Vector3, radius: real)
    | CapsuleCollider(center: Vector3, radius: real, height: real, direction: int32)
    | MeshCollider(meshBounds: Bounds)
    | OtherCollider

  /** The size of a capsule: its height along its direction axis (0, 1 or 2
      for x, y or z) and twice its radius across the others. */
  function CapsuleSize(radius: real, height: real, direction: int32): Vector3 {
    Vector3(if direction == 0 then height else radius * 2.0,
            if direction == 1 then height else radius * 2.0,
            if direction == 2 then height else radius * 2.0)
  }

  /** The size a capsule has accumulated after its first `i` axes: the
      capsule's size on those axes, zero on the rest. */
  predicate CapsulePartial(sum: Vector3, i: nat, radius: real, height: real, direction: int32) {
    var full := CapsuleSize(radius, height, direction);
    sum == Vector3(if i > 0 then full.x else 0.0, if i > 1 then full.y else 0.0, if i > 2 then full.z else 0.0)
  }

  /** One step of the capsule loop adds the capsule's size on axis `i`. */
  lemma CapsuleStep(sum: Vector3, i: nat, axis: Vector3, radius: real, height: real, direction: int32)
    requires i < 3 && axis == [Right, Up, Forward][i]
    requires CapsulePartial(sum, i, radius, height, direction)
    ensures CapsulePartial(Add3(sum, if i as int32 == direction then Scale3(axis, height)
                                     else Scale3(Scale3(axis, radius), 2.0)),
                           i + 1, radius, height, direction)
  {
    if i == 0 {
      assert axis == Right;
    } else if i == 1 {
      assert axis == Up;
    } else {
      assert axis == Forward;
    }
  }

  /** Where a collider's local box is centred: its own center, the center of
      its mesh's bounds, or the origin for an unsupported kind. */
  function LocalCenter(collider: Collider): Vector3 {
    match collider
    case BoxCollider(center, _) => center
    case SphereCollider(center, _) => center
    case CapsuleCollider(center, _, _, _) => center
    case MeshCollider(meshBounds) => meshBounds.center
    case OtherCollider => Zero3
  }

  /** The size of a collider's local box per kind: a box's size, a sphere's
      diameter on every axis, a capsule's `CapsuleSize`, its mesh's size, or
      zero for an unsupported kind. */
  function LocalSize(collider: Collider): Vector3 {
    match collider
    case BoxCollider(_, size) => size
    case SphereCollider(_, radius) => Vector3(radius * 2.0, radius * 2.0, radius * 2.0)
    case CapsuleCollider(_, radius, height, direction) => CapsuleSize(radius, height, direction)
    case MeshCollider(meshBounds) => meshBounds.Size()
    case OtherCollider => Zero3
  }

  /** The box `GetLocalBounds` returns for a collider. */
  function LocalBounds(collider: Collider): Bounds {
    BoundsFromSize(LocalCenter(collider), LocalSize(collider))
  }

  /** A collider's local box has the center and the size chosen for its kind. */
  lemma LocalBoundsMeaning(collider: Collider)
    ensures LocalBounds(collider).center == LocalCenter(collider)
    ensures LocalBounds(collider).Size() == LocalSize(collider)
  {
    BoundsFromSizeHasSize(LocalCenter(collider), LocalSize(collider));
  }

  /** A mesh collider's local box is its mesh's bounds, unchanged. */
  lemma MeshLocalBounds(meshBounds: Bounds)
    ensures LocalBounds(MeshCollider(meshBounds)) == meshBounds
  {
  }

  /** An unsupported collider's local box is the default box. */
  lemma OtherLocalBounds()
    ensures LocalBounds(OtherCollider) == DefaultBounds
  {
  }

  /** The collider's box in its own space; an unsupported kind is reported
      and gets a zero box at the origin. */
  method GetLocalBounds(collider: Collider) returns (result: Bounds, reportedError: bool)
    ensures reportedError <==> collider.OtherCollider?
    ensures result == LocalBounds(collider)
  {
    var center := Zero3;
    var size := Zero3;
    reportedError := false;
    match collider {
      case BoxCollider(c, s) =>
        center := c;
        size := s;
      case SphereCollider(c, radius) =>
        center := c;
        size := Vector3(radius * 2.0, radius * 2.0, radius * 2.0);
      case CapsuleCollider(c, radius, height, direction) =>
        center := c;
        var directionArray := new Vector3[] [Right, Up, Forward];
        var sum := Zero3;
        var i := 0;
        while i < 3
          invariant 0 <= i <= 3
          invariant directionArray[..] == [Right, Up, Forward]
          invariant CapsulePartial(sum, i, radius, height, direction)
        {
          CapsuleStep(sum, i, directionArray[i], radius, height, direction);
          if i as int32 == direction {
            sum := Add3(sum, Scale3(directionArray[i], height));
          } else {
            sum := Add3(sum, Scale3(Scale3(directionArray[i], radius), 2.0));
          }
          i := i + 1;
        }
        size := sum;
      case MeshCollider(meshBounds) =>
        center := meshBounds.center;
        size := meshBounds.Size();
      case OtherCollider =>
        reportedError := true;
    }
    result := BoundsFromSize(center, size);
  }

  // ---------------------------------------------------------------------------
  // Carrying a box through a transform

  /** `TransformBounds`: the center goes through the whole transform; each
      world extent is the sum of the absolute values of the transformed local
      extent axes along that world axis. */
  function TransformBounds(transform: AffineTransform, localBounds: Bounds): (r: Bounds)
    ensures r.center == TransformPoint(transform, localBounds.center)
    ensures WellFormed(r)
  {
    var center := TransformPoint(transform, localBounds.center);
    var extents := localBounds.extents;
    var axisX := TransformVector(transform, Vector3(extents.x, 0.0, 0.0));
    var axisY := TransformVector(transform, Vector3(0.0, extents.y, 0.0));
    var axisZ := TransformVector(transform, Vector3(0.0, 0.0, extents.z));
    Bounds(center, Vector3(Abs(axisX.x) + Abs(axisY.x) + Abs(axisZ.x),
                           Abs(axisX.y) + Abs(axisY.y) + Abs(axisZ.y),
                           Abs(axisX.z) + Abs(axisY.z) + Abs(axisZ.z)))
  }

  /** Proof helper for `ScaledWithin`, not a property of the source: a
      product of non-negative reals is non-negative. */
  lemma ProductNonNegative(x: real, y: real)
    requires x >= 0.0 && y >= 0.0
    ensures x * y >= 0.0
  {
  }

  /** `|a * d| <= |a * e|` when `|d| <= e`. */
  lemma ScaledWithin(a: real, d: real, e: real)
    requires -e <= d <= e
    ensures -Abs(a * e) <= a * d <= Abs(a * e)
  {
    assert a * e - a * d == a * (e - d);
    assert a * d + a * e == a * (d + e);
    if a >= 0.0 {
      ProductNonNegative(a, e - d);
      ProductNonNegative(a, d + e);
    } else {
      ProductNonNegative(-a, e - d);
      ProductNonNegative(-a, d + e);
      assert -a * (e - d) == -(a * (e - d));
      assert -a * (d + e) == -(a * (d + e));
    }
  }

  /** How far one world coordinate of the local box reaches from the
      transformed center: the world extent along the axis of `row`. */
  function ExtentAlong(row: Vector3, e: Vector3): real {
    Abs(row.x * e.x) + Abs(row.y * e.y) + Abs(row.z * e.z)
  }

  /** An offset from a box's center that stays inside the box. */
  predicate OffsetWithin(d: Vector3, e: Vector3) {
    -e.x <= d.x <= e.x && -e.y <= d.y <= e.y && -e.z <= d.z <= e.z
  }

  /** Each term of `Dot(row, d)` is at least minus the absolute value of the
      matching term of the extent. */
  lemma TermsAbove(row: Vector3, d: Vector3, e: Vector3)
    requires OffsetWithin(d, e)
    ensures -Abs(row.x * e.x) <= row.x * d.x
    ensures -Abs(row.y * e.y) <= row.y * d.y
    ensures -Abs(row.z * e.z) <= row.z * d.z
  {
    ScaledWithin(row.x, d.x, e.x);
    ScaledWithin(row.y, d.y, e.y);
    ScaledWithin(row.z, d.z, e.z);
  }

  /** Each term of `Dot(row, d)` is at most the absolute value of the
      matching term of the extent. */
  lemma TermsBelow(row: Vector3, d: Vector3, e: Vector3)
    requires OffsetWithin(d, e)
    ensures row.x * d.x <= Abs(row.x * e.x)
    ensures row.y * d.y <= Abs(row.y * e.y)
    ensures row.z * d.z <= Abs(row.z * e.z)
  {
    ScaledWithin(row.x, d.x, e.x);
    ScaledWithin(row.y, d.y, e.y);
    ScaledWithin(row.z, d.z, e.z);
  }

  /** An offset within the local extents moves one world coordinate by at
      least minus the world extent along `row`. */
  lemma RowAbove(row: Vector3, d: Vector3, e: Vector3)
    requires OffsetWithin(d, e)
    ensures -ExtentAlong(row, e) <= Dot(row, d)
  {
    TermsAbove(row, d, e);
  }

  /** An offset within the local extents moves one world coordinate by at
      most the world extent along `row`. */
  lemma RowBelow(row: Vector3, d: Vector3, e: Vector3)
    requires OffsetWithin(d, e)
    ensures Dot(row, d) <= ExtentAlong(row, e)
  {
    TermsBelow(row, d, e);
  }

  /** The change of a dot product is the dot product of the change. */
  lemma DotDifference(row: Vector3, p: Vector3, c: Vector3)
    ensures Dot(row, p) - Dot(row, c) == Dot(row, Sub3(p, c))
  {
    assert row.x * (p.x - c.x) == row.x * p.x - row.x * c.x;
    assert row.y * (p.y - c.y) == row.y * p.y - row.y * c.y;
    assert row.z * (p.z - c.z) == row.z * p.z - row.z * c.z;
  }

  /** One world coordinate of a point of the local box stays within the
      world extent along `row` of the transformed center. */
  lemma RowWithin(row: Vector3, p: Vector3, c: Vector3, e: Vector3)
    requires -e.x <= p.x - c.x <= e.x && -e.y <= p.y - c.y <= e.y && -e.z <= p.z - c.z <= e.z
    ensures -ExtentAlong(row, e) <= Dot(row, p) - Dot(row, c) <= ExtentAlong(row, e)
  {
    assert OffsetWithin(Sub3(p, c), e);
    RowAbove(row, Sub3(p, c), e);
    RowBelow(row, Sub3(p, c), e);
    DotDifference(row, p, c);
  }

  /** A transformed axis vector picks out one column of the linear part. */
  lemma AxisColumn(row: Vector3, e: Vector3)
    ensures Dot(row, Vector3(e.x, 0.0, 0.0)) == row.x * e.x
    ensures Dot(row, Vector3(0.0, e.y, 0.0)) == row.y * e.y
    ensures Dot(row, Vector3(0.0, 0.0, e.z)) == row.z * e.z
  {
  }

  /** Along one world axis, the absolute values of the three transformed
      extent axes sum to the extent along that row. */
  lemma AxesAlongRow(row: Vector3, e: Vector3)
    ensures Abs(Dot(row, Vector3(e.x, 0.0, 0.0))) + Abs(Dot(row, Vector3(0.0, e.y, 0.0)))
            + Abs(Dot(row, Vector3(0.0, 0.0, e.z))) == ExtentAlong(row, e)
  {
    AxisColumn(row, e);
  }

  /** The world extents `TransformBounds` computes are the extents along the
      rows of the linear part. */
  lemma TransformedExtents(transform: AffineTransform, localBounds: Bounds)
    ensures var m := transform.linear;
            var e := localBounds.extents;
            TransformBounds(transform, localBounds).extents
              == Vector3(ExtentAlong(m.row0, e), ExtentAlong(m.row1, e), ExtentAlong(m.row2, e))
  {
    var m := transform.linear;
    AxesAlongRow(m.row0, localBounds.extents);
    AxesAlongRow(m.row1, localBounds.extents);
    AxesAlongRow(m.row2, localBounds.extents);
  }

  /** The transformed box is sound: every point of the local box lands in it. */
  lemma TransformBoundsContains(transform: AffineTransform, localBounds: Bounds, p: Vector3)
    requires ContainsPoint(localBounds, p)
    ensures ContainsPoint(TransformBounds(transform, localBounds), TransformPoint(transform, p))
  {
    var m := transform.linear;
    var e := localBounds.extents;
    var c := localBounds.center;
    RowWithin(m.row0, p, c, e);
    RowWithin(m.row1, p, c, e);
    RowWithin(m.row2, p, c, e);
    TransformedExtents(transform, localBounds);
  }
}

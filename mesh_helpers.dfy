/** Mesh buffer bookkeeping: the `MeshData` holder, appending one buffer to
    another under a TRS transform, shifting triangle indices, and searching a
    triangle index stream for triangles inside an index range. Vertices are
    `Vector3` values; the TRS matrix applied to a point is a parameter,
    `multiplyPoint`, standing for `Matrix4x4.SetTRS` then `MultiplyPoint3x4`. */
module MeshHelpers {
  import opened Numerics
  import opened UnityEngine
  import opened QuaternionHelpers
  import opened TriangleSearch

  /** The ceiling on the vertex count of a buffer (16-bit index format). */
  const MAX_VERTICES: int := 65534

  /** Position, rotation and scale of a TRS matrix. */
  datatype Trs = Trs(position: Vector3, rotation: Quaternion, scale: Vector3)

  /** Plain arrays describing a mesh, kept apart from any engine mesh so that
      they can be built off the main thread. */
  class MeshData {
    var vertices: seq<Vector3>
    var triangles: seq<int32>
    var normals: seq<Vector3>
    var colors: seq<Color>
    var uv: seq<Vector2>
    var uv2: seq<Vector2>
    var uv3: seq<Vector2>
    var uv4: seq<Vector2>
    /** Set by `Dispose`: every array field except `colors` is then null. */
    var disposed: bool

    /** An empty buffer: every array has length zero. */
    constructor ()
      ensures vertices == [] && triangles == [] && normals == [] && colors == []
      ensures uv == [] && uv2 == [] && uv3 == [] && uv4 == []
      ensures !disposed
    {
      vertices := [];
      triangles := [];
      normals := [];
      colors := [];
      uv := [];
      uv2 := [];
      uv3 := [];
      uv4 := [];
      disposed := false;
    }

    /** Drops the vertex, triangle, normal and UV arrays; `colors` is kept. */
    method Dispose()
      modifies this
      ensures disposed
      ensures colors == old(colors)
    {
      disposed := true;
    }
  }

  /** Every index names one of `vertexCount` vertices. */
  predicate ValidIndices(triangles: seq<int32>, vertexCount: int) {
    forall i :: 0 <= i < |triangles| ==> 0 <= triangles[i] as int < vertexCount
  }

  // ---------------------------------------------------------------------------
  // Transforming vertices

  /** The rotation `ManipulateVertices` builds its matrix from: an invalid
      rotation is first passed through `FixNaN`, so no NaN reaches the matrix. */
  function EffectiveRotation(rotation: Quaternion): (r: Quaternion)
    ensures !HasNaN(r)
    ensures IsValid(rotation) ==> r == rotation
    ensures !IsValid(rotation) ==> r == FixNaN(rotation)
  {
    if !IsValid(rotation) then FixNaN(rotation) else rotation
  }

  /** The guard does not make the rotation valid: a quaternion whose
      components are all NaN or zero is used as the zero quaternion, which is
      still invalid. */
  lemma EffectiveRotationMayBeInvalid(rotation: Quaternion)
    requires NaNOrZero(rotation.x) && NaNOrZero(rotation.y) && NaNOrZero(rotation.z) && NaNOrZero(rotation.w)
    ensures IsZero(EffectiveRotation(rotation)) && !IsValid(EffectiveRotation(rotation))
  {
  }

  /** Applies the TRS matrix to every vertex, into a new array of the same
      length. */
  method ManipulateVertices(original: seq<Vector3>, position: Vector3, rotation: Quaternion, scale: Vector3,
                            multiplyPoint: (Trs, Vector3) -> Vector3)
    returns (result: seq<Vector3>)
    ensures |result| == |original|
    ensures forall i :: 0 <= i < |original| ==>
      result[i] == multiplyPoint(Trs(position, EffectiveRotation(rotation), scale), original[i])
  {
    var rotation := rotation;
    if !IsValid(rotation) {
      rotation := FixNaN(rotation);
    }
    var manipulated := new Vector3[|original|];
    var manipulator := Trs(position, rotation, scale);
    var i := 0;
    while i < |original|
      invariant 0 <= i <= |original|
      invariant forall k :: 0 <= k < i ==> manipulated[k] == multiplyPoint(manipulator, original[k])
    {
      manipulated[i] := multiplyPoint(manipulator, original[i]);
      i := i + 1;
    }
    result := manipulated[..];
  }

  // ---------------------------------------------------------------------------
  // Shifting triangle indices

  /** Adds `shiftAmount` to every index (C# `int` addition, which wraps). */
  function ShiftTriangleIndices(triangles: seq<int32>, shiftAmount: int32): (r: seq<int32>)
    ensures |r| == |triangles|
    ensures forall i :: 0 <= i < |triangles| ==> r[i] == WrapAdd(triangles[i], shiftAmount)
  {
    if triangles == [] then []
    else [WrapAdd(triangles[0], shiftAmount)] + ShiftTriangleIndices(triangles[1..], shiftAmount)
  }

  /** Indices valid for a buffer of `m` vertices land, shifted by `n`, in
      `[n, n + m)` when the sum stays under the vertex ceiling. */
  lemma ShiftedIndicesInRange(triangles: seq<int32>, n: nat, m: nat)
    requires n + m < MAX_VERTICES
    requires ValidIndices(triangles, m)
    ensures var shifted := ShiftTriangleIndices(triangles, n as int32);
      forall i :: 0 <= i < |shifted| ==> n <= shifted[i] as int < n + m
  {
  }

  /** Shifting twice is shifting once by the (wrapping) sum. */
  lemma {:induction false} ShiftTwice(triangles: seq<int32>, a: int32, b: int32)
    ensures ShiftTriangleIndices(ShiftTriangleIndices(triangles, a), b)
         == ShiftTriangleIndices(triangles, WrapAdd(a, b))
  {
    var lhs := ShiftTriangleIndices(ShiftTriangleIndices(triangles, a), b);
    var rhs := ShiftTriangleIndices(triangles, WrapAdd(a, b));
    forall i | 0 <= i < |triangles|
      ensures lhs[i] == rhs[i]
    {
      WrapAddAssociative(triangles[i], a, b);
    }
  }

  /** Shifting by `a` and then by `-a` gives the indices back. */
  lemma {:induction false} ShiftRoundTrip(triangles: seq<int32>, a: int32)
    ensures ShiftTriangleIndices(ShiftTriangleIndices(triangles, a), WrapNeg(a)) == triangles
  {
    ShiftTwice(triangles, a, WrapNeg(a));
    var r := ShiftTriangleIndices(triangles, 0);
    assert forall i :: 0 <= i < |triangles| ==> r[i] == triangles[i];
  }

  // ---------------------------------------------------------------------------
  // Appending one buffer to another

  /** After an append, a destination whose indices were valid keeps valid
      indices, and every appended index points into the appended vertices. */
  lemma {:induction false} AppendedIndicesValid(current: seq<int32>, n: nat, other: seq<int32>, m: nat)
    requires n + m < MAX_VERTICES
    requires ValidIndices(current, n) && ValidIndices(other, m)
    ensures ValidIndices(current + ShiftTriangleIndices(other, n as int32), n + m)
  {
    ShiftedIndicesInRange(other, n, m);
    var all := current + ShiftTriangleIndices(other, n as int32);
    forall i | 0 <= i < |all|
      ensures 0 <= all[i] as int < n + m
    {
      if i >= |current| {
        assert all[i] == ShiftTriangleIndices(other, n as int32)[i - |current|];
      }
    }
  }

  /** The loop of `Append` that fills `correctedTriangles`: each index of
      `triangles` plus the shift, with `int` wrap-around. */
  method CorrectTriangles(triangles: seq<int32>, shift: int32) returns (corrected: seq<int32>)
    ensures corrected == ShiftTriangleIndices(triangles, shift)
  {
    var correctedTriangles := new int32[|triangles|];
    var i := 0;
    while i < correctedTriangles.Length
      invariant 0 <= i <= correctedTriangles.Length
      invariant forall k :: 0 <= k < i ==> correctedTriangles[k] == WrapAdd(triangles[k], shift)
    {
      correctedTriangles[i] := WrapAdd(triangles[i], shift);
      i := i + 1;
    }
    corrected := correctedTriangles[..];
  }

  /** The capacity test of `Append`: the two vertex counts (each a .NET array
      length, below `2^31`) summed with C#'s wrapping `int` addition, then
      compared with the ceiling. It passes only below the ceiling or once the
      true sum is too long for any array, where the append then throws. */
  function CapacityTest(currentCount: nat, otherCount: nat): (r: bool)
    requires currentCount < TWO_POW_31 && otherCount < TWO_POW_31
    ensures r ==> currentCount + otherCount < MAX_VERTICES || currentCount + otherCount >= TWO_POW_31
  {
    WrapAdd(currentCount as int32, otherCount as int32) as int < MAX_VERTICES
  }

  /** While the sum fits in an `int`, the test is the plain comparison of the
      combined vertex count with the ceiling. */
  lemma CapacityTestExact(currentCount: nat, otherCount: nat)
    requires currentCount < TWO_POW_31 && otherCount < TWO_POW_31
    requires currentCount + otherCount < TWO_POW_31
    ensures CapacityTest(currentCount, otherCount) <==> currentCount + otherCount < MAX_VERTICES
  {
  }

  /** Past that the sum wraps negative and the test passes: two buffers of
      `2^30` vertices each pass the test; the append then throws, because the
      joined vertex array would need `2^31` elements. */
  lemma CapacityTestWraps()
    ensures CapacityTest(0x4000_0000, 0x4000_0000)
    ensures 0x4000_0000 + 0x4000_0000 >= TWO_POW_31
  {
    assert WrapAdd(0x4000_0000 as int32, 0x4000_0000 as int32) as int == -TWO_POW_31;
  }

  /** `a.Concat(b).ToArray()`: a .NET array holds fewer than `2^31` elements,
      so a longer result throws instead of being built. */
  method ConcatToArray<T>(a: seq<T>, b: seq<T>) returns (thrown: bool, joined: seq<T>)
    ensures thrown <==> |a| + |b| >= TWO_POW_31
    ensures !thrown ==> joined == a + b
  {
    thrown := |a| + |b| >= TWO_POW_31;
    joined := if thrown then [] else a + b;
  }

  /** The lengths of the seven arrays `Append` joins, in the order it joins
      them: vertices, triangles, normals, uv, uv2, uv3, uv4. */
  function JoinedLengths(current: MeshData, other: MeshData): (lengths: seq<int>)
    reads current, other
    ensures |lengths| == 7
    ensures lengths[0] == |current.vertices| + |other.vertices|
    ensures lengths[1] == |current.triangles| + |other.triangles|
    ensures lengths[2] == |current.normals| + |other.normals|
    ensures lengths[3] == |current.uv| + |other.uv|
    ensures lengths[4] == |current.uv2| + |other.uv2|
    ensures lengths[5] == |current.uv3| + |other.uv3|
    ensures lengths[6] == |current.uv4| + |other.uv4|
  {
    [ |current.vertices| + |other.vertices|, |current.triangles| + |other.triangles|,
      |current.normals| + |other.normals|, |current.uv| + |other.uv|, |current.uv2| + |other.uv2|,
      |current.uv3| + |other.uv3|, |current.uv4| + |other.uv4| ]
  }

  /** Where the joins from index `i` on stop: the index of the first one too
      long for an array, which throws, or `|lengths|` when every one is built. */
  function JoinsDoneFrom(lengths: seq<int>, i: nat): (done: nat)
    requires i <= |lengths|
    ensures i <= done <= |lengths|
    ensures forall k :: i <= k < done ==> lengths[k] < TWO_POW_31
    ensures done < |lengths| ==> lengths[done] >= TWO_POW_31
    decreases |lengths| - i
  {
    if i == |lengths| || lengths[i] >= TWO_POW_31 then i else JoinsDoneFrom(lengths, i + 1)
  }

  /** How many of the joins, taken in order, are built before the first one
      too long for an array throws: all of them when none is. */
  function JoinsDone(lengths: seq<int>): nat
  {
    JoinsDoneFrom(lengths, 0)
  }

  /** Where the joins stop depends only on the joins still to come. */
  lemma {:induction false} JoinsDoneFromSuffix(a: seq<int>, b: seq<int>, i: nat)
    requires i <= |a| == |b|
    requires forall k :: i <= k < |a| ==> a[k] == b[k]
    ensures JoinsDoneFrom(a, i) == JoinsDoneFrom(b, i)
    decreases |a| - i
  {
    if i < |a| {
      JoinsDoneFromSuffix(a, b, i + 1);
    }
  }

  /** Lines 37-39 of `Append`: joins the second, third and fourth UV channels
      of `other` onto those of `current`, one after another, from the fifth
      join of `JoinedLengths` on. A join too long for an array throws, leaving
      the channels joined before it reassigned and the rest as they were. */
  method JoinExtraUvs(current: MeshData, other: MeshData) returns (thrown: bool)
    modifies current
    ensures var done := JoinsDoneFrom(old(JoinedLengths(current, other)), 4);
      && (thrown <==> done < 7)
      && current.uv2 == (if 4 < done then old(current.uv2) + old(other.uv2) else old(current.uv2))
      && current.uv3 == (if 5 < done then old(current.uv3) + old(other.uv3) else old(current.uv3))
      && current.uv4 == (if 6 < done then old(current.uv4) + old(other.uv4) else old(current.uv4))
    ensures current.vertices == old(current.vertices) && current.triangles == old(current.triangles)
    ensures current.normals == old(current.normals) && current.uv == old(current.uv)
    ensures current.colors == old(current.colors) && current.disposed == old(current.disposed)
  {
    ghost var lengths := JoinedLengths(current, other);
    ghost var done := JoinsDoneFrom(lengths, 4);
    var joinedUv: seq<Vector2>;
    thrown, joinedUv := ConcatToArray(current.uv2, other.uv2);
    if thrown {
      assert done == 4;
      return;
    }
    assert done == JoinsDoneFrom(lengths, 5);
    current.uv2 := joinedUv;
    thrown, joinedUv := ConcatToArray(current.uv3, other.uv3);
    if thrown {
      assert done == 5;
      return;
    }
    assert done == JoinsDoneFrom(lengths, 6);
    current.uv3 := joinedUv;
    thrown, joinedUv := ConcatToArray(current.uv4, other.uv4);
    if !thrown {
      current.uv4 := joinedUv;
    }
  }

  /** Lines 35-39 of `Append`: joins the normal and UV channels of `other`
      onto those of `current`, one after another, from the third join of
      `JoinedLengths` on. A join too long for an array throws, leaving the
      channels joined before it reassigned and the rest as they were. */
  method JoinChannels(current: MeshData, other: MeshData) returns (thrown: bool)
    modifies current
    ensures var done := JoinsDoneFrom(old(JoinedLengths(current, other)), 2);
      && (thrown <==> done < 7)
      && current.normals == (if 2 < done then old(current.normals) + old(other.normals) else old(current.normals))
      && current.uv == (if 3 < done then old(current.uv) + old(other.uv) else old(current.uv))
      && current.uv2 == (if 4 < done then old(current.uv2) + old(other.uv2) else old(current.uv2))
      && current.uv3 == (if 5 < done then old(current.uv3) + old(other.uv3) else old(current.uv3))
      && current.uv4 == (if 6 < done then old(current.uv4) + old(other.uv4) else old(current.uv4))
    ensures current.vertices == old(current.vertices) && current.triangles == old(current.triangles)
    ensures current.colors == old(current.colors) && current.disposed == old(current.disposed)
  {
    ghost var lengths := JoinedLengths(current, other);
    ghost var done := JoinsDoneFrom(lengths, 2);
    var joinedNormals: seq<Vector3>;
    thrown, joinedNormals := ConcatToArray(current.normals, other.normals);
    if thrown {
      assert done == 2;
      return;
    }
    assert done == JoinsDoneFrom(lengths, 3);
    current.normals := joinedNormals;
    var joinedUv: seq<Vector2>;
    thrown, joinedUv := ConcatToArray(current.uv, other.uv);
    if thrown {
      assert done == 3;
      return;
    }
    assert done == JoinsDoneFrom(lengths, 4);
    current.uv := joinedUv;
    JoinsDoneFromSuffix(lengths, JoinedLengths(current, other), 4);
    thrown := JoinExtraUvs(current, other);
  }

  /** Lines 33-39 of `Append`: joins `addedVertices`, `addedTriangles` and the
      normal and UV channels of `other` onto `current`, one array after
      another. A join too long for an array throws, leaving the fields joined
      before it reassigned and the rest as they were. */
  method JoinArrays(current: MeshData, other: MeshData, addedVertices: seq<Vector3>, addedTriangles: seq<int32>)
    returns (thrown: bool)
    requires |addedVertices| == |other.vertices| && |addedTriangles| == |other.triangles|
    modifies current
    ensures thrown <==> JoinsDone(old(JoinedLengths(current, other))) < 7
    ensures var lengths := old(JoinedLengths(current, other));
      && current.vertices == (if 0 < JoinsDone(lengths) then old(current.vertices) + addedVertices else old(current.vertices))
      && current.triangles == (if 1 < JoinsDone(lengths) then old(current.triangles) + addedTriangles else old(current.triangles))
      && current.normals == (if 2 < JoinsDone(lengths) then old(current.normals) + old(other.normals) else old(current.normals))
      && current.uv == (if 3 < JoinsDone(lengths) then old(current.uv) + old(other.uv) else old(current.uv))
      && current.uv2 == (if 4 < JoinsDone(lengths) then old(current.uv2) + old(other.uv2) else old(current.uv2))
      && current.uv3 == (if 5 < JoinsDone(lengths) then old(current.uv3) + old(other.uv3) else old(current.uv3))
      && current.uv4 == (if 6 < JoinsDone(lengths) then old(current.uv4) + old(other.uv4) else old(current.uv4))
    ensures current.colors == old(current.colors) && current.disposed == old(current.disposed)
  {
    ghost var lengths := [ |current.vertices| + |addedVertices|, |current.triangles| + |addedTriangles|,
      |current.normals| + |other.normals|, |current.uv| + |other.uv|, |current.uv2| + |other.uv2|,
      |current.uv3| + |other.uv3|, |current.uv4| + |other.uv4| ];
    assert lengths == JoinedLengths(current, other);
    ghost var done := JoinsDone(lengths);
    var joinedVertices: seq<Vector3>;
    thrown, joinedVertices := ConcatToArray(current.vertices, addedVertices);
    if thrown {
      assert done == 0;
      return;
    }
    assert done == JoinsDoneFrom(lengths, 1);
    current.vertices := joinedVertices;
    var joinedTriangles: seq<int32>;
    thrown, joinedTriangles := ConcatToArray(current.triangles, addedTriangles);
    if thrown {
      assert done == 1;
      return;
    }
    assert done == JoinsDoneFrom(lengths, 2);
    current.triangles := joinedTriangles;
    JoinsDoneFromSuffix(lengths, JoinedLengths(current, other), 2);
    thrown := JoinChannels(current, other);
  }

  /** Appends `other`, transformed by the TRS matrix, to `current`. Refuses,
      changing nothing, when the capacity test fails. After it passes, the
      seven arrays are joined as `JoinArrays` states, and a join too long for
      an array throws. The appended triangle indices are shifted by the old
      vertex count of `current`; normals and UV channels are concatenated as
      they are, even when one side is empty; `colors` is never touched. A
      successful append always leaves fewer vertices than the ceiling. */
  method Append(current: MeshData, other: MeshData, position: Vector3, rotation: Quaternion, scale: Vector3,
                multiplyPoint: (Trs, Vector3) -> Vector3)
    returns (appended: bool, thrown: bool)
    requires !current.disposed && !other.disposed
    requires |current.vertices| < TWO_POW_31 && |other.vertices| < TWO_POW_31
    modifies current
    ensures var passed := CapacityTest(|old(current.vertices)|, |old(other.vertices)|);
      && (appended <==> passed && JoinsDone(old(JoinedLengths(current, other))) == 7)
      && (thrown <==> passed && JoinsDone(old(JoinedLengths(current, other))) < 7)
    ensures !CapacityTest(|old(current.vertices)|, |old(other.vertices)|) ==> unchanged(current)
    ensures appended ==> |current.vertices| < MAX_VERTICES
    ensures var lengths := old(JoinedLengths(current, other));
      if CapacityTest(|old(current.vertices)|, |old(other.vertices)|) && 0 < JoinsDone(lengths) then
        && |current.vertices| == |old(current.vertices)| + |old(other.vertices)|
        && current.vertices[..|old(current.vertices)|] == old(current.vertices)
        && (forall i :: 0 <= i < |old(other.vertices)| ==>
              current.vertices[|old(current.vertices)| + i]
                == multiplyPoint(Trs(position, EffectiveRotation(rotation), scale), old(other.vertices)[i]))
      else current.vertices == old(current.vertices)
    ensures var lengths := old(JoinedLengths(current, other));
      current.triangles
        == if CapacityTest(|old(current.vertices)|, |old(other.vertices)|) && 1 < JoinsDone(lengths)
           then old(current.triangles) + ShiftTriangleIndices(old(other.triangles), |old(current.vertices)| as int32)
           else old(current.triangles)
    ensures var lengths := old(JoinedLengths(current, other));
      var passed := CapacityTest(|old(current.vertices)|, |old(other.vertices)|);
      && current.normals == (if passed && 2 < JoinsDone(lengths) then old(current.normals) + old(other.normals) else old(current.normals))
      && current.uv == (if passed && 3 < JoinsDone(lengths) then old(current.uv) + old(other.uv) else old(current.uv))
      && current.uv2 == (if passed && 4 < JoinsDone(lengths) then old(current.uv2) + old(other.uv2) else old(current.uv2))
      && current.uv3 == (if passed && 5 < JoinsDone(lengths) then old(current.uv3) + old(other.uv3) else old(current.uv3))
      && current.uv4 == (if passed && 6 < JoinsDone(lengths) then old(current.uv4) + old(other.uv4) else old(current.uv4))
    ensures current.colors == old(current.colors) && current.disposed == old(current.disposed)
  {
    appended, thrown := false, false;
    if WrapAdd(|current.vertices| as int32, |other.vertices| as int32) as int < MAX_VERTICES {
      var manipulatedVertices := ManipulateVertices(other.vertices, position, rotation, scale, multiplyPoint);

      var correctedTriangles := CorrectTriangles(other.triangles, |current.vertices| as int32);

      thrown := JoinArrays(current, other, manipulatedVertices, correctedTriangles);
      appended := !thrown;
    }
  }

  /** The index search as written: `triangles` is read once, front to back. */
  method FindTriangles(triangles: seq<int32>, startIndex: int32, endIndex: int32, searchType: TriangleSearchType)
    returns (result: seq<int32>)
    ensures result == Collected(triangles, startIndex, endIndex, searchType, false, GroupCount(|triangles|))
  {
    var currentTriangle := new int32[] [0, 0, 0];
    var containedTriangles: seq<int32> := [];
    var currentIndex := 0;
    var hadGoodIndex := false;
    var hadBadIndex := false;
    var toBeAdded := false;
    ghost var k: nat := 0;
    while currentIndex < |triangles|
      invariant 0 <= currentIndex <= |triangles|
      invariant ScanRun(triangles, startIndex, endIndex, searchType, false, currentIndex)
             == ScanState(k, containedTriangles, currentTriangle[..], hadGoodIndex, hadBadIndex, toBeAdded)
    {
      ghost var held := currentTriangle[..];
      var subIndex := currentIndex % 3;
      if currentIndex > 0 && subIndex == 0 {
        if toBeAdded {
          containedTriangles := containedTriangles + currentTriangle[..];
          hadGoodIndex := false;
          hadBadIndex := false;
        }
        k := k + 1;
      }
      if triangles[currentIndex] >= startIndex && triangles[currentIndex] <= endIndex {
        hadGoodIndex := true;
      } else {
        hadBadIndex := true;
      }
      currentTriangle[subIndex] := triangles[currentIndex];
      assert currentTriangle[..] == held[subIndex := triangles[currentIndex]];
      currentIndex := currentIndex + 1;
      toBeAdded := (searchType == All && !hadBadIndex) || (searchType == Any && hadGoodIndex)
                || (searchType == None && !hadGoodIndex);
    }
    ScanComputesCollected(triangles, startIndex, endIndex, searchType, false);
    if |triangles| > 0 && toBeAdded {
      containedTriangles := containedTriangles + currentTriangle[..];
    }
    result := containedTriangles;
  }

  /** The search the doc comment describes: the flags are cleared at the start
      of every group, whether or not the previous group was added, so each
      triangle is judged on its own indices. */
  method FindTrianglesPerTriangle(triangles: seq<int32>, startIndex: int32, endIndex: int32,
                                  searchType: TriangleSearchType)
    returns (result: seq<int32>)
    ensures result == Collected(triangles, startIndex, endIndex, searchType, true, GroupCount(|triangles|))
  {
    var currentTriangle := new int32[] [0, 0, 0];
    var containedTriangles: seq<int32> := [];
    var currentIndex := 0;
    var hadGoodIndex := false;
    var hadBadIndex := false;
    var toBeAdded := false;
    ghost var k: nat := 0;
    while currentIndex < |triangles|
      invariant 0 <= currentIndex <= |triangles|
      invariant ScanRun(triangles, startIndex, endIndex, searchType, true, currentIndex)
             == ScanState(k, containedTriangles, currentTriangle[..], hadGoodIndex, hadBadIndex, toBeAdded)
    {
      ghost var held := currentTriangle[..];
      var subIndex := currentIndex % 3;
      if currentIndex > 0 && subIndex == 0 {
        if toBeAdded {
          containedTriangles := containedTriangles + currentTriangle[..];
        }
        hadGoodIndex := false;
        hadBadIndex := false;
        k := k + 1;
      }
      if triangles[currentIndex] >= startIndex && triangles[currentIndex] <= endIndex {
        hadGoodIndex := true;
      } else {
        hadBadIndex := true;
      }
      currentTriangle[subIndex] := triangles[currentIndex];
      assert currentTriangle[..] == held[subIndex := triangles[currentIndex]];
      currentIndex := currentIndex + 1;
      toBeAdded := (searchType == All && !hadBadIndex) || (searchType == Any && hadGoodIndex)
                || (searchType == None && !hadGoodIndex);
    }
    ScanComputesCollected(triangles, startIndex, endIndex, searchType, true);
    if |triangles| > 0 && toBeAdded {
      containedTriangles := containedTriangles + currentTriangle[..];
    }
    result := containedTriangles;
  }

}

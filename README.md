# UnityHelpers: mesh, bounds, quaternion and jigsaw bookkeeping in Dafny

This project models the index and array bookkeeping of the UnityHelpers
library, and the small amount of box and quaternion logic around it. It
covers four source files.

- `Helpers/MeshHelpers.cs` (module `MeshHelpers`, with the search
  specification in `TriangleSearch`):
  - the `MeshData` buffer holder;
  - appending one buffer to another under a TRS transform, with the
  65534-vertex ceiling and the exception a join too long for a .NET array
  throws;
  - shifting triangle indices;
  - the `FindTriangles` index-stream scan, modelled exactly as written.
- `Helpers/BoundsHelpers.cs` (module `BoundsHelpers`, with Unity's `Bounds`
  in `UnityEngine` and the `1 << layer` mask test in `LayerMasks`):
  - `Combine` as a fold of `Encapsulate`;
  - both generations of `GetTotalBounds` over a caller-supplied sequence of
    leaves, with the layer and active filter and the zero-size fallback;
  - the per-kind sizing of `GetLocalBounds`;
  - `TransformBounds`.
- `Helpers/QuaternionHelpers.cs` (module `QuaternionHelpers`): `Shorten`,
  `IsValid`, `FixNaN`, `Add` and `Difference`. A float component is either
  NaN or a real number.
- `Jigsaw/JigsawPuzzle.cs` (module `JigsawPuzzle`):
  - the side-strip triangle indices (`SimpleTriangulation`, appending to a
    `List<int>`);
  - the strip UVs (`SimpleUVNation`, writing an array in place);
  - the side vertices (`GetSide`);
  - the row-major grid bookkeeping of `Generate`: the piece map written in
    nested loops, the piece index and the border flags.

C# `int` is modelled as the 32-bit `int32` newtype in module `Numerics`.
These unchecked `int` sums wrap explicitly (`WrapAdd`, `Wrap`):

- the capacity test of `Append`;
- the triangle index shifts;
- the strip corners;
- the piece index.

The exceptions are listed under "## Left out". Coordinates are
mathematical reals. Engine state is passed in as parameters:

- the TRS point map;
- the random piece source and edge matching;
- each leaf's boxes and its point map into the root's space.

## Model

| member | source | states |
|---|---|---|
| Numerics.Wrap | Jigsaw/JigsawPuzzle.cs:63 | An unchecked C# `int` result is the true value modulo 2^32, and is the true value itself when it fits |
| Numerics.WrapAdd | Helpers/MeshHelpers.cs:31 | C# `int` addition: the sum modulo 2^32, exact when the sum fits |
| Numerics.WrapAddAssociative | Helpers/MeshHelpers.cs:113 | Wrapping addition is associative, so two index shifts compose into one |
| Numerics.WrapNeg | Helpers/MeshHelpers.cs:113 | Every shift amount has a wrapping inverse that adds up to 0 |
| UnityEngine.BoundsFromSizeHasSize | Helpers/BoundsHelpers.cs:235 | `new Bounds(center, size)` has that center and that size |
| UnityEngine.SetMinMaxCorners | Helpers/BoundsHelpers.cs:121-122 | After `SetMinMax(min, max)`, the box's min and max corners are exactly `min` and `max` |
| UnityEngine.EncapsulatePointCorners | Helpers/BoundsHelpers.cs:274 | Encapsulating a point takes the componentwise min/max of the corners with the point |
| UnityEngine.EncapsulateCorners | Helpers/BoundsHelpers.cs:274 | Encapsulating a box grows the corners by the other box's min and max corners, in Unity's order |
| QuaternionHelpers.Shorten | Helpers/QuaternionHelpers.cs:39-52 | The result is the input or its negation. It is the input unless `w < 0`, and otherwise all four components are negated. A numeric `w` ends non-negative, and NaN-ness is preserved |
| QuaternionHelpers.ShortenIdempotent | Helpers/QuaternionHelpers.cs:44-51 | Shortening twice is shortening once |
| QuaternionHelpers.IsValid | Helpers/QuaternionHelpers.cs:79-86 | Valid iff no component is NaN and not all four are zero |
| QuaternionHelpers.FixNaN | Helpers/QuaternionHelpers.cs:92-104 | Exactly the NaN components become 0 and the rest are kept, so the result has no NaN |
| QuaternionHelpers.FixNaNStillInvalid | Helpers/QuaternionHelpers.cs:79-104 | `FixNaN`'s result is invalid iff every component was NaN or zero |
| QuaternionHelpers.FixNaNOfDegenerate | Helpers/QuaternionHelpers.cs:92-104 | An all-NaN-or-zero quaternion becomes the zero quaternion, which `IsValid` rejects |
| QuaternionHelpers.Add | Helpers/QuaternionHelpers.cs:133-136 | Each component is NaN iff either input's is, and otherwise it is the sum of the components |
| QuaternionHelpers.AddCommutative | Helpers/QuaternionHelpers.cs:133-136 | `Add(a, b) == Add(b, a)` |
| QuaternionHelpers.Difference | Helpers/QuaternionHelpers.cs:123-126 | NaN iff some component is NaN. Otherwise four times the result is the sum of the componentwise differences |
| QuaternionHelpers.DifferenceProperties | Helpers/QuaternionHelpers.cs:123-126 | `Difference(q, q) == 0` for NaN-free `q`, and swapping the arguments negates the result |
| MeshHelpers.MeshData.constructor | Helpers/MeshHelpers.cs:438-448 | Every array of a new buffer is empty |
| MeshHelpers.MeshData.Dispose | Helpers/MeshHelpers.cs:482-491 | The buffer is disposed; `colors`, which is not nulled, is kept |
| MeshHelpers.EffectiveRotation | Helpers/MeshHelpers.cs:90-91 | The rotation reaching the matrix has no NaN. It is the input when valid and `FixNaN` of it otherwise |
| MeshHelpers.EffectiveRotationMayBeInvalid | Helpers/MeshHelpers.cs:90-91 | For an all-NaN-or-zero input, the guarded rotation is still the invalid zero quaternion |
| MeshHelpers.ManipulateVertices | Helpers/MeshHelpers.cs:88-103 | Same length. Element i is the TRS map, built with the guarded rotation, applied to `original[i]` |
| MeshHelpers.ShiftTriangleIndices | Helpers/MeshHelpers.cs:111-114 | Same length and order. Each index has the shift added with `int` wrap-around |
| MeshHelpers.ShiftedIndicesInRange | Helpers/MeshHelpers.cs:111-114 | Indices valid for m vertices, shifted by n below the ceiling, land in `[n, n + m)` |
| MeshHelpers.ShiftTwice | Helpers/MeshHelpers.cs:113 | Shifting by a, then by b, is shifting once by the wrapping sum a + b |
| MeshHelpers.ShiftRoundTrip | Helpers/MeshHelpers.cs:113 | Shifting by a, then by the inverse of a, restores the indices |
| MeshHelpers.AppendedIndicesValid | Helpers/MeshHelpers.cs:29-34 | If both buffers' indices are valid, the appended triangle list is valid for the combined vertex count |
| MeshHelpers.CorrectTriangles | Helpers/MeshHelpers.cs:29-31 | The index loop produces exactly the shifted index list |
| MeshHelpers.CapacityTestExact | Helpers/MeshHelpers.cs:25 | While the wrapping `int` sum of the two vertex counts fits, the capacity test is exactly "combined count below 65534" |
| MeshHelpers.CapacityTest | Helpers/MeshHelpers.cs:25 | The wrapping `int` sum of the two vertex counts compared with 65534. It passes only when the true sum is below 65534 or too long for any array (2^31 or more) |
| MeshHelpers.CapacityTestWraps | Helpers/MeshHelpers.cs:25 | Two buffers of 2^30 vertices each make the `int` sum wrap negative, so the test passes; the joined vertex array would need 2^31 elements, so the append then throws |
| MeshHelpers.ConcatToArray | Helpers/MeshHelpers.cs:33-39 | `a.Concat(b).ToArray()` throws iff the joined length reaches 2^31, and otherwise is `a` followed by `b` |
| MeshHelpers.JoinsDoneFrom | Helpers/MeshHelpers.cs:33-39 | The joins from index i on stop at the first one of 2^31 or more elements: every join before it fits, and it is the first that does not (or none does not) |
| MeshHelpers.JoinExtraUvs | Helpers/MeshHelpers.cs:37-39 | The uv2, uv3 and uv4 joins in order. Each channel is joined iff it and every earlier join fit; the call throws iff one does not fit; other fields are unchanged |
| MeshHelpers.JoinChannels | Helpers/MeshHelpers.cs:35-39 | The normal and four UV joins in order, with the same rule: joined iff every join up to it fits, throws iff one does not |
| MeshHelpers.JoinArrays | Helpers/MeshHelpers.cs:33-39 | All seven joins in source order. A field is reassigned iff its join and every earlier one fit, so after a throw the fields joined before it stay joined and the rest keep their old arrays |
| MeshHelpers.Append | Helpers/MeshHelpers.cs:23-46 | See the Append row below |
| MeshHelpers.FindTriangles | Helpers/MeshHelpers.cs:123-156 | The scan as written returns `Collected(…, perTriangle = false)`: flags are reset only when a group is added, and stale entries of a short last group are kept |
| MeshHelpers.FindTrianglesPerTriangle | Helpers/MeshHelpers.cs:135-140 | The scan with the flags reset at every group returns `Collected(…, perTriangle = true)`, the documented per-triangle reading |
| TriangleSearch.Held | Helpers/MeshHelpers.cs:147 | `currentTriangle` always holds three entries |
| TriangleSearch.JudgeAccepts | Helpers/MeshHelpers.cs:142-149 | Reading a group's indices one at a time into the flags decides exactly the documented `all`/`any`/`none` condition |
| TriangleSearch.TriangleQualifiesAccepts | Helpers/MeshHelpers.cs:121 | A group qualifies iff it meets the documented search-type condition |
| TriangleSearch.PrefixQualifiesMeaning | Helpers/MeshHelpers.cs:135-149 | The first n groups qualify jointly iff each one does |
| TriangleSearch.CollectedNext | Helpers/MeshHelpers.cs:135-140 | One more group appends its held entries iff it is kept |
| TriangleSearch.ScanStep | Helpers/MeshHelpers.cs:132-150 | One loop turn preserves the scan invariant that ties counter, flags, `currentTriangle` and output to the specification |
| TriangleSearch.ScanRunInvariant | Helpers/MeshHelpers.cs:132-150 | The invariant holds after every prefix of the stream |
| TriangleSearch.ScanFinish | Helpers/MeshHelpers.cs:151-153 | The tail test after the loop decides the final group exactly as `Collected` does |
| TriangleSearch.ScanComputesCollected | Helpers/MeshHelpers.cs:123-156 | The scan's output equals `Collected` over all groups |
| TriangleSearch.CollectedShape | Helpers/MeshHelpers.cs:151-155 | The output length is a multiple of 3 and at most three per group read; an empty stream gives an empty output |
| TriangleSearch.AnyIsPerTriangle | Helpers/MeshHelpers.cs:135-149 | In `any` mode the search as written equals the per-triangle search |
| TriangleSearch.HeldWhole | Helpers/MeshHelpers.cs:147 | With whole triangles, `currentTriangle` holds exactly group k's indices |
| TriangleSearch.GroupInRange | Helpers/MeshHelpers.cs:142-149 | An all-in-range group qualifies for `all` and not for `none` |
| TriangleSearch.AllKeepsEveryTriangle | Helpers/MeshHelpers.cs:121-156 | When every index is in range, `all` returns the input unchanged, in both readings |
| TriangleSearch.NoneKeepsNoTriangle | Helpers/MeshHelpers.cs:121-156 | When every index is in range, `none` returns nothing, in both readings |
| TriangleSearch.QualifyingPrefix | Helpers/MeshHelpers.cs:135-149 | The length of the leading run of qualifying triangles is at most the group count |
| TriangleSearch.QualifyingPrefixMeaning | Helpers/MeshHelpers.cs:135-149 | All groups before the prefix length qualify, and the group at it does not |
| TriangleSearch.QualifyingPrefixWhole | Helpers/MeshHelpers.cs:135-149 | The prefix covers every group iff every group qualifies |
| TriangleSearch.AsWrittenIsLongestPrefix | Helpers/MeshHelpers.cs:135-149 | As written, `all` and `none` return exactly the longest leading run of qualifying triangles |
| TriangleSearch.AllRejectsAfterFirstRejection | Helpers/MeshHelpers.cs:135-140 | On `5 0 0 0 0 0` with range [0, 0] in `all` mode, the code as written returns nothing, while the per-triangle reading returns `0 0 0` |
| BoundsHelpers.FoldLastStep | Helpers/BoundsHelpers.cs:273-274 | One more loop turn encapsulates one more box into the running result |
| BoundsHelpers.CombineAllLast | Helpers/BoundsHelpers.cs:272-274 | The combination of n > 1 boxes is the combination of the first n - 1 boxes, encapsulating the last |
| BoundsHelpers.Combine | Helpers/BoundsHelpers.cs:267-280 | Errors iff the input is empty. An empty input gives the default box; a single box is returned unchanged; otherwise the result is the left fold of `Encapsulate` |
| BoundsHelpers.CombinePair | Helpers/BoundsHelpers.cs:287-290 | The two-box overload is `Encapsulate(current, other)`, and the result contains both boxes |
| BoundsHelpers.EncapsulateEncloses | Helpers/BoundsHelpers.cs:274 | Encapsulating gives a box that contains both inputs |
| BoundsHelpers.CombineEncloses | Helpers/BoundsHelpers.cs:262-280 | The combined box contains every input box |
| BoundsHelpers.CombineLeast | Helpers/BoundsHelpers.cs:262-280 | For well-formed inputs, any box containing all inputs contains the combination, so the combination is the smallest such box |
| BoundsHelpers.CombineWellFormed | Helpers/BoundsHelpers.cs:272-274 | If the first box is well formed, the combination is too |
| BoundsHelpers.Qualifies | Helpers/BoundsHelpers.cs:113 | The shared filter (also lines 40 and 46): the layer's `1 << layer` bit is in the mask, and the object is active unless disabled ones are included. An empty mask takes nothing, and an inactive leaf qualifies only when disabled ones are included |
| BoundsHelpers.AllLayersSelectEveryLayer | Helpers/BoundsHelpers.cs:88-91 | Under the `~0` overloads a leaf qualifies iff it is active or disabled leaves are included |
| BoundsHelpers.GetTotalBoundsObsolete | Helpers/BoundsHelpers.cs:32-59 | See the GetTotalBoundsObsolete row below |
| BoundsHelpers.EngineBoxesEmpty | Helpers/BoundsHelpers.cs:36-53 | No engine box is gathered iff no leaf passes the layer and active filter |
| BoundsHelpers.EngineBoxesComplete | Helpers/BoundsHelpers.cs:37-48 | Every qualifying leaf's engine box is gathered, and every gathered box belongs to a qualifying leaf |
| BoundsHelpers.ObsoleteEnclosesQualifyingLeaf | Helpers/BoundsHelpers.cs:30-53 | The world-space total box contains the engine box of every qualifying leaf |
| BoundsHelpers.ObsoleteFallback | Helpers/BoundsHelpers.cs:50-53 | When no leaf qualifies, the box is zero-size at the root's position |
| BoundsHelpers.GetTotalBounds | Helpers/BoundsHelpers.cs:101-133 | See the GetTotalBounds row below |
| BoundsHelpers.ContributionsEmpty | Helpers/BoundsHelpers.cs:111-130 | No box is gathered iff no leaf qualifies, which is exactly when the fallback is taken |
| BoundsHelpers.ContributionsComplete | Helpers/BoundsHelpers.cs:112-125 | Every qualifying leaf contributes its box, and every gathered box comes from a qualifying leaf |
| BoundsHelpers.TotalEnclosesQualifyingLeaf | Helpers/BoundsHelpers.cs:101-133 | The total box contains the contribution of every qualifying leaf |
| BoundsHelpers.CapsuleStep | Helpers/BoundsHelpers.cs:213-221 | Each turn of the capsule loop adds `height` on the direction axis and `2r` on the others |
| BoundsHelpers.LocalBoundsMeaning | Helpers/BoundsHelpers.cs:187-236 | The local box has the collider's center and its per-kind size. Box: its size. Sphere: `2r` on every axis. Capsule: `height` on the direction axis and `2r` elsewhere |
| BoundsHelpers.MeshLocalBounds | Helpers/BoundsHelpers.cs:224-229 | A mesh collider's local box is its shared mesh's bounds |
| BoundsHelpers.OtherLocalBounds | Helpers/BoundsHelpers.cs:230-235 | An unsupported collider gets zero center and zero size |
| BoundsHelpers.GetLocalBounds | Helpers/BoundsHelpers.cs:187-236 | Reports an error iff the collider kind is unsupported. The capsule loop's result equals `LocalBounds` |
| BoundsHelpers.TransformBounds | Helpers/BoundsHelpers.cs:244-260 | The center is the transformed local center, and the extents are never negative |
| BoundsHelpers.TransformedExtents | Helpers/BoundsHelpers.cs:248-257 | Each world extent is the sum of absolute row-times-extent terms of the linear part |
| BoundsHelpers.TransformBoundsContains | Helpers/BoundsHelpers.cs:244-260 | Every point of the local box, transformed, lies in the transformed box |
| JigsawPuzzle.IndexList.constructor | Jigsaw/JigsawPuzzle.cs:103 | A new list is empty |
| JigsawPuzzle.IndexList.AddRange | Jigsaw/JigsawPuzzle.cs:146 | The items are appended after the existing ones |
| JigsawPuzzle.QuadCorners | Jigsaw/JigsawPuzzle.cs:141-144 | The corners computed with unchecked `int` sums are the ones the quad lists |
| JigsawPuzzle.SimpleTriangulation | Jigsaw/JigsawPuzzle.cs:137-148 | Existing entries are kept, followed by the quads 0 … n-2 in order |
| JigsawPuzzle.StripLength | Jigsaw/JigsawPuzzle.cs:139-146 | Six indices per quad: `6 * (n - 1)` for n ≥ 1, none for n ≤ 1 |
| JigsawPuzzle.StripPrefix | Jigsaw/JigsawPuzzle.cs:139-146 | Appending quads never changes the indices already listed |
| JigsawPuzzle.StripQuadAt | Jigsaw/JigsawPuzzle.cs:141-146 | Entry m of quad j is at position `6j + m` |
| JigsawPuzzle.QuadValues | Jigsaw/JigsawPuzzle.cs:141-146 | Without overflow, quad i is `i, i+n, i+1, i+1, i+n, i+n+1` |
| JigsawPuzzle.StripInRange | Jigsaw/JigsawPuzzle.cs:139-146 | Without overflow, every index lies in `[0, 2n)` |
| JigsawPuzzle.SimpleUVNation | Jigsaw/JigsawPuzzle.cs:149-157 | With `n = len/2` and `i < n`: `uv[i] = (i, 1)` and `uv[i + n] = (i, 0)`. An odd last element is untouched |
| JigsawPuzzle.QuadUVs | Jigsaw/JigsawPuzzle.cs:137-157 | Quad i's corners have UVs `(i,1), (i,0), (i+1,1), (i+1,0)`: one unit cell of the strip |
| JigsawPuzzle.FlatsAligned | Jigsaw/JigsawPuzzle.cs:17-29 | Each flat side lists its top edge first, with the bottom edge under it in the same order |
| JigsawPuzzle.GetSide | Jigsaw/JigsawPuzzle.cs:158-170 | With a neighbour, the side has two vertices per outline point: the outline at `halfDepth` then at `-halfDepth`. Without one, it is the fallback corners |
| JigsawPuzzle.GetSideAligned | Jigsaw/JigsawPuzzle.cs:158-170 | A side is a top ring with an aligned bottom ring under it. With `hasSide` it has twice the outline's length |
| JigsawPuzzle.BuildSide | Jigsaw/JigsawPuzzle.cs:100-105 | A side gets its `GetSide` vertices and one UV per vertex, with an odd last UV left at its default `(0, 0)`. Its triangles are the strip over half the vertex count |
| JigsawPuzzle.SideIndicesInRange | Jigsaw/JigsawPuzzle.cs:101-104 | Every triangle index of a side names one of its vertices |
| JigsawPuzzle.GenerateGrid | Jigsaw/JigsawPuzzle.cs:50-83 | See the GenerateGrid row below |
| JigsawPuzzle.FillRow | Jigsaw/JigsawPuzzle.cs:54-83 | One row gets every cell filled in column order. The left neighbour and lower neighbour are read only after they are stored, and other rows are unchanged |
| JigsawPuzzle.NeighboursFit | Jigsaw/JigsawPuzzle.cs:56-61 | A piece's left edge mates its left neighbour's right edge, and its bottom edge mates its lower neighbour's top edge |
| JigsawPuzzle.BorderFlags | Jigsaw/JigsawPuzzle.cs:80-83 | Each border flag is true iff the grid has a cell on that side |
| JigsawPuzzle.RowMajorBound | Jigsaw/JigsawPuzzle.cs:63 | `row * columns + col` lies in `[0, rows * columns)` |
| JigsawPuzzle.RowMajorDistinct | Jigsaw/JigsawPuzzle.cs:63 | Different cells have different row-major indices |
| JigsawPuzzle.PieceIndicesDistinct | Jigsaw/JigsawPuzzle.cs:52-63 | Without overflow, piece indices lie in `[0, rows * columns)`, and two are equal iff they name the same cell |

The four longer contracts, in full:

- **MeshHelpers.Append**
  - Both vertex counts are .NET array lengths, below 2^31.
  - The capacity test sums the two vertex counts as C# `int`s and compares the sum with 65534.
  - If the test fails, it returns false and nothing changes.
  - If the test passes, the seven arrays are joined in source order. It throws iff one join reaches 2^31 elements; the fields joined before that join keep their new arrays and the rest keep their old ones.
  - It returns true iff the test passes and no join throws. Then the vertex count is below 65534.
  - A joined vertex array holds the old vertices, then the transformed ones.
  - Joined triangles are the old ones plus the appended ones, shifted by the old vertex count.
  - Joined normals and uv…uv4 are plain concatenations.
  - `colors` is never touched.
- **BoundsHelpers.GetTotalBoundsObsolete**
  - The result combines the engine boxes of the leaves that pass the `1 << layer` mask and active filter.
  - If no leaf passes, it is a zero-size box at the root's position.
  - Outside world space only the center is mapped by the inverse transform.
- **BoundsHelpers.GetTotalBounds**
  - The result combines the contributions of the qualifying leaves.
  - In Self space, a non-root leaf's box is rebuilt from its mapped min and max corners.
  - If no leaf qualifies, it is a zero-size box at the root's local position in Self space, or at its world position otherwise.
- **JigsawPuzzle.GenerateGrid**
  - It throws iff a dimension is negative.
  - Both arrays are freshly allocated.
  - Otherwise the arrays are `columns × rows`.
  - Every cell holds the matched random piece.
  - Every cell holds its row-major index and border flags.

## Left out

- Floating point: coordinates, UVs and quaternion components are reals.
  Rounding, infinities and signed zero are not modelled. NaN is modelled
  only for quaternion components.
- `IsValid` tests the NaN-ness of the sum of the four components. Over
  reals with NaN that is the same as "some component is NaN". With
  infinities, `+inf + -inf` would also be NaN, which the model does not
  capture.
- MeshHelpers.ManipulateVertices: the TRS matrix (`SetTRS` then
  `MultiplyPoint3x4`) is a caller-supplied point map on position,
  rotation and scale, not a concrete matrix.
- MeshHelpers.Append: the `Debug.LogWarning` of a refused append
  (`Helpers/MeshHelpers.cs:43`) is not modelled. The refusal shows only in
  the returned `false`.
- MeshHelpers.Append: the exception a too-long join raises is a returned
  `thrown` flag, without its .NET type. An array is taken to hold up to
  2^31 - 1 elements; a runtime whose maximum array length is lower, or
  which runs out of memory, throws earlier than the model says.
- MeshHelpers.FindTriangles: the C# default `searchType =
  TriangleSearchType.all` (`Helpers/MeshHelpers.cs:123`) has no counterpart;
  callers of the model always pass the search type.
- MeshHelpers.FindTriangles: the counter `currentIndex` is unbounded. In
  the source it is an `int` that would overflow after 2^31 indices.
- MeshHelpers.MeshData.Dispose: nulling the arrays is modelled by a
  `disposed` flag. `Append` requires both buffers not disposed; in the
  source, a disposed buffer makes it throw a null dereference.
- The other `MeshData` constructors (field initialisers from sequences,
  from a `Mesh`, from a geometry3Sharp mesh), `GenerateMesh` and
  `DebugNormals` are engine or library bound.
- The `Mesh` overload of `Append` (`Helpers/MeshHelpers.cs:56-79`) repeats
  the `MeshData` one on engine meshes.
- Left out of MeshHelpers because they are float geometry or wrappers over
  libraries not shown:
  - `IsPointOnSurface`, `IsPointInside`, `PointInTriangle` and `SameSide`;
  - triangle center, normal and area;
  - decimation and convex hull.
- Engine traversal in `GetTotalBounds`
  (`GetComponentsInChildren`, the collider/renderer choice):
  - the bounded objects are a caller-supplied sequence of leaves;
  - each leaf carries the box the engine reports (`bounds`) and the box
    `GetBounds` computes in either space;
  - each leaf carries its `TransformPointToAnotherSpace` map into the
    root's space.

  `GetBounds` (`Helpers/BoundsHelpers.cs:141-180`),
  `HasPointInTotalBounds` and `HasPointInBounds` are not part of this
  model.
- BoundsHelpers.GetTotalBoundsObsolete: `InverseTransformPoint` is modelled
  as an affine map (the world-to-local transform), not derived from the
  root's transform.
- BoundsHelpers.GetLocalBounds: `Debug.LogError` is modelled as a returned
  flag. `Combine` likewise reports its error as a flag.
- BoundsHelpers.MeshLocalBounds: a mesh collider always carries its mesh's
  bounds. A null `sharedMesh` makes the source throw
  (`Helpers/BoundsHelpers.cs:227`); that case is not modelled.
- The layer test is stated as `((1 << layer) & mask) != 0` with C#'s
  shift-count masking. Its equivalence to "bit `layer mod 32` of the
  mask" is not stated as a lemma.
- Quaternion helpers left out:
  - `PollAxisAngle` (arc cosine);
  - `Average` and `DivideBy` (division);
  - `SetDecimalPlaces`, whose `MathHelpers` is not part of this model;
  - `TransformRotation` and `InverseTransformRotation` (engine transform).
- Engine-facing parts of `JigsawPuzzle.Generate`, reduced to parameters
  or omitted:
  - GameObjects, materials, `MeshPart` and box colliders;
  - piece positions and face UVs;
  - face triangulation (`TriangulateConcavePolygon`);
  - `JigsawPiece.GenerateRandom`, `CreateSpouse` and the `Evaluate*`
    outlines.

  The random piece and the edge mate are functions in `PieceSource`, and
  a side's outline is an input to `GetSide`.
- JigsawPuzzle.GetSideAligned and JigsawPuzzle.FlatsAligned depend on an
  assumed meaning of `ToXZVector3`:
  - `ToXZVector3(point, h)` is taken to be `(point.x, h, point.y)`: the 2-D
    point in the horizontal plane at height `h`;
  - the extension method that defines it is not part of this model.
- JigsawPuzzle.SimpleTriangulation: requires a non-negative count. Its
  only callers pass half an array's length.
- JigsawPuzzle.SimpleUVNation: requires fewer than 2^31 elements, the
  .NET array limit, so `i + n` does not overflow. The `int`-to-`float`
  conversion of `i` is exact over reals.
- JigsawPuzzle.QuadValues and JigsawPuzzle.StripInRange: stated only when
  `2n` fits in an `int`. Beyond that the wrapped corners are what `Quad`
  lists, but they are not in range.
- JigsawPuzzle.PieceIndicesDistinct: stated only for fewer than 2^31
  cells. Beyond that `row * columns + col` wraps, and indices can repeat.
- Physics (`CarPhysics`, `PhysicsTransform`, `CollisionListener`) and the
  object pool are not part of this model.

## Findings

| source | as written | input that shows it | evidently intended | confidence | as-written member | corrected member |
|---|---|---|---|---|---|---|
| Helpers/MeshHelpers.cs:135-140 | The flags `hadGoodIndex`/`hadBadIndex` are reset only when the finished triangle is added. So in `all` and `none` mode, one rejected triangle keeps every later triangle out. | The indices `5 0 0 0 0 0`, range [0, 0], `all`: returns nothing | The doc comment (line 121) judges each triangle on its own values, so it should return `0 0 0` | not executed | MeshHelpers.FindTriangles, TriangleSearch.AllRejectsAfterFirstRejection | MeshHelpers.FindTrianglesPerTriangle |

/** The index bookkeeping of the jigsaw puzzle generator: the quad strip that
    closes each side of a piece (triangle indices, UVs and the two rings of
    vertices), and the row-major grid of pieces whose shared edges are
    matched to the neighbours built before them. */
module JigsawPuzzle {
  import opened Numerics
  import opened UnityEngine

  // ---------------------------------------------------------------------------
  // Side strips: triangle indices

  /** The `List<int>` a side strip's triangle indices are appended to. */
  class IndexList {
    var items: seq<int32>

    constructor ()
      ensures items == []
    {
      items := [];
    }

    /** `List<int>.AddRange`. */
    method AddRange(xs: seq<int32>)
      modifies this
      ensures items == old(items) + xs
    {
      items := items + xs;
    }
  }

  /** How many quads a strip between two rings of `n` points has. */
  function QuadCount(n: int32): nat {
    if n <= 1 then 0 else n as int - 1
  }

  /** The unchecked C# sum of ints whose true sum `x` lies in `[0, 2^32)`:
      it wraps at most once. */
  function WrapOnce(x: int): int32
    requires 0 <= x < TWO_POW_32
  {
    if x < TWO_POW_31 then x as int32 else (x - TWO_POW_32) as int32
  }

  /** The two triangles of quad `i` (`i + 1 < n`): top-ring points `i` and
      `i + 1` joined to the bottom-ring points under them, `n` further on,
      with C#'s wrap-around on the sums that involve `n`. */
  function Quad(i: int32, n: int32): seq<int32>
    requires 0 <= i as int < n as int - 1
  {
    var cornerA := i;
    var cornerB := WrapOnce(i as int + n as int);
    var cornerC := i + 1;
    var cornerD := WrapOnce(i as int + n as int + 1);
    [cornerA, cornerB, cornerC, cornerC, cornerB, cornerD]
  }

  /** The corners `i + n` and `i + n + 1` computed with C#'s unchecked
      additions are the ones `Quad` lists. */
  lemma QuadCorners(i: int32, n: int32)
    requires 0 <= i as int < n as int - 1
    ensures WrapAdd(i, n) == WrapOnce(i as int + n as int)
    ensures WrapAdd(WrapAdd(i, n), 1) == WrapOnce(i as int + n as int + 1)
  {
  }

  /** The first `k` quads of the strip, in order. */
  function Strip(k: nat, n: int32): seq<int32>
    requires k <= QuadCount(n)
  {
    if k == 0 then [] else Strip(k - 1, n) + Quad((k - 1) as int32, n)
  }

  /** Appends the triangles of the quad strip between two rings of
      `halfVerticesLength` points. The only caller passes half an array's
      length, so the count is never negative. */
  method SimpleTriangulation(trianglesList: IndexList, halfVerticesLength: int32)
    requires 0 <= halfVerticesLength
    modifies trianglesList
    ensures trianglesList.items
            == old(trianglesList.items) + Strip(QuadCount(halfVerticesLength), halfVerticesLength)
  {
    var i: int32 := 0;
    while i < halfVerticesLength - 1
      invariant 0 <= i as int <= QuadCount(halfVerticesLength)
      invariant trianglesList.items == old(trianglesList.items) + Strip(i as nat, halfVerticesLength)
    {
      var cornerA := i;
      var cornerB := WrapAdd(i, halfVerticesLength);
      var cornerC := i + 1;
      var cornerD := WrapAdd(WrapAdd(i, halfVerticesLength), 1);
      QuadCorners(i, halfVerticesLength);
      trianglesList.AddRange([cornerA, cornerB, cornerC, cornerC, cornerB, cornerD]);
      i := i + 1;
    }
  }

  /** Six indices per quad. */
  lemma {:induction false} StripLength(k: nat, n: int32)
    requires k <= QuadCount(n)
    ensures |Strip(k, n)| == 6 * k
  {
    if k > 0 {
      StripLength(k - 1, n);
    }
  }

  /** A shorter strip is a prefix of a longer one: appending quads never
      changes the indices already listed. */
  lemma {:induction false} StripPrefix(j: nat, k: nat, n: int32)
    requires j <= k <= QuadCount(n)
    ensures |Strip(j, n)| <= |Strip(k, n)| && Strip(k, n)[..|Strip(j, n)|] == Strip(j, n)
  {
    if j < k {
      StripPrefix(j, k - 1, n);
      var front := Strip(k - 1, n);
      assert (front + Quad((k - 1) as int32, n))[..|Strip(j, n)|] == front[..|Strip(j, n)|];
    }
  }

  /** Entry `m` of quad `j` sits at position `6 * j + m` of the strip. */
  lemma StripQuadAt(k: nat, n: int32, j: nat, m: nat)
    requires k <= QuadCount(n) && j < k && m < 6
    ensures 6 * j + m < |Strip(k, n)|
    ensures Strip(k, n)[6 * j + m] == Quad(j as int32, n)[m]
  {
    StripLength(j, n);
    StripLength(j + 1, n);
    StripPrefix(j + 1, k, n);
    var upTo := Strip(j + 1, n);
    assert Strip(k, n)[6 * j + m] == upTo[6 * j + m];
    assert upTo == Strip(j, n) + Quad(j as int32, n);
  }

  /** Without wrap-around (`2 * n` fits in an `int`), quad `i` lists
      `i, i + n, i + 1, i + 1, i + n, i + n + 1`. */
  lemma QuadValues(i: int32, n: int32)
    requires 0 <= i as int < n as int - 1 && 2 * (n as int) <= TWO_POW_31
    ensures var q := Quad(i, n);
            q[0] as int == i as int && q[1] as int == i as int + n as int
            && q[2] as int == i as int + 1 && q[3] == q[2] && q[4] == q[1]
            && q[5] as int == i as int + n as int + 1
  {
  }

  /** Without wrap-around every index of the strip names one of the `2 * n`
      points of the two rings. */
  lemma {:induction false} StripInRange(k: nat, n: int32)
    requires k <= QuadCount(n) && 2 * (n as int) <= TWO_POW_31
    ensures forall x :: x in Strip(k, n) ==> 0 <= x as int < 2 * (n as int)
  {
    if k > 0 {
      StripInRange(k - 1, n);
      QuadValues((k - 1) as int32, n);
    }
  }

  // ---------------------------------------------------------------------------
  // Side strips: UVs

  /** The UV of point `j` of a strip of `length` points: the top ring runs
      along `v = 1`, the bottom ring along `v = 0`, one unit of `u` per
      point. */
  function SideUV(length: nat, j: nat): Vector2 {
    var n := length / 2;
    if j < n then Vector2(j as real, 1.0) else Vector2((j - n) as real, 0.0)
  }

  /** Fills the UVs of a strip in place. For an odd length the last entry is
      not written. */
  method SimpleUVNation(uvArray: array<Vector2>)
    requires uvArray.Length < TWO_POW_31
    modifies uvArray
    ensures forall j :: 0 <= j < 2 * (uvArray.Length / 2) ==> uvArray[j] == SideUV(uvArray.Length, j)
    ensures uvArray.Length % 2 == 1 ==> uvArray[uvArray.Length - 1] == old(uvArray[uvArray.Length - 1])
  {
    var halfArrayLength := uvArray.Length / 2;
    var i := 0;
    while i < halfArrayLength
      invariant 0 <= i <= halfArrayLength
      invariant forall j :: 0 <= j < i ==> uvArray[j] == SideUV(uvArray.Length, j)
      invariant forall j :: halfArrayLength <= j < halfArrayLength + i ==> uvArray[j] == SideUV(uvArray.Length, j)
      invariant forall j :: i <= j < halfArrayLength || halfArrayLength + i <= j < uvArray.Length ==>
                  uvArray[j] == old(uvArray[j])
    {
      uvArray[i] := Vector2(i as real, 1.0);
      uvArray[i + halfArrayLength] := Vector2(i as real, 0.0);
      i := i + 1;
    }
  }

  /** Each quad spans one unit cell of the UV strip: its top corners sit at
      `u = i` and `u = i + 1` on `v = 1`, the bottom ones under them on
      `v = 0`. */
  lemma QuadUVs(length: nat, i: int32)
    requires 0 <= i as int < length / 2 - 1 && length <= TWO_POW_31
    ensures var n := (length / 2) as int32;
            var q := Quad(i, n);
            SideUV(length, q[0] as nat) == Vector2(i as real, 1.0)
            && SideUV(length, q[1] as nat) == Vector2(i as real, 0.0)
            && SideUV(length, q[2] as nat) == Vector2(i as real + 1.0, 1.0)
            && SideUV(length, q[5] as nat) == Vector2(i as real + 1.0, 0.0)
  {
    QuadValues(i, (length / 2) as int32);
  }

  // ---------------------------------------------------------------------------
  // Side strips: vertices

  /** A 2-D outline point placed in the horizontal plane at a height. */
  function ToXZVector3(point: Vector2, height: real): Vector3 {
    Vector3(point.x, height, point.y)
  }

  /** An outline placed in the horizontal plane at a height. */
  function Ring(points: seq<Vector2>, height: real): seq<Vector3> {
    seq(|points|, j requires 0 <= j < |points| => ToXZVector3(points[j], height))
  }

  /** The vertices of one side: the side's outline at the top face followed
      by the same outline at the bottom face, or the four corners of a flat
      side when the piece has no neighbour there. The outline is used twice,
      so a side has two vertices per outline point. */
  function GetSide(hasSide: bool, outline: seq<Vector2>, halfDepth: real, fallback: seq<Vector3>): (vertices: seq<Vector3>)
    ensures |vertices| == if hasSide then 2 * |outline| else |fallback|
    ensures !hasSide ==> vertices == fallback
  {
    if hasSide then Ring(outline, halfDepth) + Ring(outline, -halfDepth) else fallback
  }

  /** Two rings of the same length, the bottom one at `-halfDepth` directly
      under the top one at `halfDepth`, point by point. */
  predicate RingsAligned(top: seq<Vector3>, bottom: seq<Vector3>, halfDepth: real) {
    |top| == |bottom|
    && forall j :: 0 <= j < |top| ==>
         top[j].y == halfDepth && bottom[j].y == -halfDepth && top[j].x == bottom[j].x && top[j].z == bottom[j].z
  }

  /** What the quad strip needs of a side's vertices: a top ring and, after
      it, the bottom ring aligned under it. */
  predicate AlignedStrip(vertices: seq<Vector3>, halfDepth: real) {
    |vertices| % 2 == 0 && RingsAligned(vertices[..|vertices| / 2], vertices[|vertices| / 2..], halfDepth)
  }

  /** The four corners of a piece's flat back side. */
  function BackFlat(halfWidth: real, halfHeight: real, halfDepth: real): seq<Vector3> {
    [Vector3(halfWidth, halfDepth, -halfHeight), Vector3(-halfWidth, halfDepth, -halfHeight),
     Vector3(halfWidth, -halfDepth, -halfHeight), Vector3(-halfWidth, -halfDepth, -halfHeight)]
  }

  /** The four corners of a piece's flat front side. */
  function FrontFlat(halfWidth: real, halfHeight: real, halfDepth: real): seq<Vector3> {
    [Vector3(-halfWidth, halfDepth, halfHeight), Vector3(halfWidth, halfDepth, halfHeight),
     Vector3(-halfWidth, -halfDepth, halfHeight), Vector3(halfWidth, -halfDepth, halfHeight)]
  }

  /** The four corners of a piece's flat right side. */
  function RightFlat(halfWidth: real, halfHeight: real, halfDepth: real): seq<Vector3> {
    [Vector3(halfWidth, halfDepth, halfHeight), Vector3(halfWidth, halfDepth, -halfHeight),
     Vector3(halfWidth, -halfDepth, halfHeight), Vector3(halfWidth, -halfDepth, -halfHeight)]
  }

  /** The four corners of a piece's flat left side. */
  function LeftFlat(halfWidth: real, halfHeight: real, halfDepth: real): seq<Vector3> {
    [Vector3(-halfWidth, halfDepth, -halfHeight), Vector3(-halfWidth, halfDepth, halfHeight),
     Vector3(-halfWidth, -halfDepth, -halfHeight), Vector3(-halfWidth, -halfDepth, halfHeight)]
  }

  /** The flat sides' corners are listed top edge first, bottom edge under
      it in the same order. */
  lemma FlatsAligned(halfWidth: real, halfHeight: real, halfDepth: real)
    ensures AlignedStrip(BackFlat(halfWidth, halfHeight, halfDepth), halfDepth)
    ensures AlignedStrip(FrontFlat(halfWidth, halfHeight, halfDepth), halfDepth)
    ensures AlignedStrip(RightFlat(halfWidth, halfHeight, halfDepth), halfDepth)
    ensures AlignedStrip(LeftFlat(halfWidth, halfHeight, halfDepth), halfDepth)
  {
  }

  /** A side is always a strip the quads can close: the two rings of an
      outline, or an aligned fallback. */
  lemma GetSideAligned(hasSide: bool, outline: seq<Vector2>, halfDepth: real, fallback: seq<Vector3>)
    requires AlignedStrip(fallback, halfDepth)
    ensures AlignedStrip(GetSide(hasSide, outline, halfDepth, fallback), halfDepth)
    ensures hasSide ==> |GetSide(hasSide, outline, halfDepth, fallback)| == 2 * |outline|
  {
    if hasSide {
      var s := GetSide(hasSide, outline, halfDepth, fallback);
      assert |s| / 2 == |outline|;
      forall j | 0 <= j < |outline|
        ensures s[j] == ToXZVector3(outline[j], halfDepth)
        ensures s[j + |outline|] == ToXZVector3(outline[j], -halfDepth)
      {
      }
    }
  }

  /** The vertices, UVs and triangle indices of one side of a piece, built
      as `Generate` builds each of the four. A .NET array holds fewer than
      `2^31` elements, which bounds the outline. */
  method BuildSide(hasSide: bool, outline: seq<Vector2>, halfDepth: real, fallback: seq<Vector3>)
      returns (sideVertices: seq<Vector3>, sideUVs: array<Vector2>, sideTriangles: IndexList)
    requires |GetSide(hasSide, outline, halfDepth, fallback)| < TWO_POW_31
    ensures sideVertices == GetSide(hasSide, outline, halfDepth, fallback)
    ensures fresh(sideUVs) && sideUVs.Length == |sideVertices|
    ensures forall j :: 0 <= j < 2 * (sideUVs.Length / 2) ==> sideUVs[j] == SideUV(sideUVs.Length, j)
    ensures sideUVs.Length % 2 == 1 ==> sideUVs[sideUVs.Length - 1] == Vector2(0.0, 0.0)
    ensures fresh(sideTriangles)
    ensures var n := (sideUVs.Length / 2) as int32; sideTriangles.items == Strip(QuadCount(n), n)
  {
    sideVertices := GetSide(hasSide, outline, halfDepth, fallback);
    sideUVs := new Vector2[|sideVertices|](_ => Vector2(0.0, 0.0));
    SimpleUVNation(sideUVs);
    sideTriangles := new IndexList();
    SimpleTriangulation(sideTriangles, (sideUVs.Length / 2) as int32);
  }

  /** Every triangle index of a side names one of its vertices. */
  lemma SideIndicesInRange(vertexCount: nat)
    requires vertexCount < TWO_POW_31
    ensures var n := (vertexCount / 2) as int32;
            forall x :: x in Strip(QuadCount(n), n) ==> 0 <= x as int < vertexCount
  {
    var n := (vertexCount / 2) as int32;
    StripInRange(QuadCount(n), n);
  }

  // ---------------------------------------------------------------------------
  // The grid of pieces

  /** One edge of a piece: its outline points (how `JigsawPiece` draws a tab
      or a blank is not part of this model). */
  datatype Edge = Edge(points: seq<Vector2>)

  /** A piece's four edges. */
  datatype Piece = Piece(top: Edge, right: Edge, bottom: Edge, left: Edge)

  /** A cell of the piece map: still empty (`null`), or holding its piece. */
  datatype Slot = Empty | Placed(piece: Piece)

  /** What `Generate` decides for the cell in column `col`, row `row`: the
      index in the piece's name and on which sides it has a neighbour. */
  datatype Cell = Cell(pieceIndex: int32, hasTop: bool, hasRight: bool, hasBottom: bool, hasLeft: bool)

  /** Whether a cell lies on the grid. */
  predicate InGrid(columns: int, rows: int, col: int, row: int) {
    0 <= col < columns && 0 <= row < rows
  }

  /** The piece index: row-major, with C#'s wrap-around. */
  function PieceIndex(columns: int32, col: int, row: int): int32 {
    Wrap(row * columns as int + col)
  }

  /** The cell `Generate` records at column `col`, row `row`: its piece
      index, and a border flag for each side that is not on the grid's
      edge. */
  function CellAt(columns: int32, rows: int32, col: int, row: int): Cell {
    Cell(PieceIndex(columns, col, row), row < rows as int - 1, col < columns as int - 1, row > 0, col > 0)
  }

  /** What `Generate` takes from outside the grid bookkeeping: the random
      piece drawn for each cell, the edge that mates a given edge at a given
      length (`CreateSpouse`), and the piece sizes. */
  datatype PieceSource = PieceSource(random: (int, int) -> Piece, mate: (Edge, real) -> Edge,
                                     pieceWidth: real, pieceHeight: real)

  /** The piece stored at a cell: the random piece drawn there, with its left
      edge replaced by the mate of its left neighbour's right edge and its
      bottom edge by the mate of its lower neighbour's top edge. */
  function MatchedPiece(source: PieceSource, col: int, row: int): Piece {
    var drawn := source.random(col, row);
    var withLeft := if col > 0 then drawn.(left := source.mate(source.random(col - 1, row).right, source.pieceWidth)) else drawn;
    if row > 0 then withLeft.(bottom := source.mate(source.random(col, row - 1).top, source.pieceHeight)) else withLeft
  }

  /** The bookkeeping of `Generate`: for each row, for each column, draw a
      piece, match its left and bottom edges to the neighbours already
      stored, store it, and record the cell's index and border flags. A
      negative dimension makes the 2-D array allocation throw. */
  method GenerateGrid(columns: int32, rows: int32, source: PieceSource)
      returns (thrown: bool, piecesMap: array2<Slot>, layout: array2<Cell>)
    ensures thrown <==> columns < 0 || rows < 0
    ensures fresh(piecesMap) && fresh(layout)
    ensures !thrown ==> piecesMap.Length0 == columns as int && piecesMap.Length1 == rows as int
    ensures !thrown ==> layout.Length0 == columns as int && layout.Length1 == rows as int
    ensures !thrown ==> forall col, row :: InGrid(columns as int, rows as int, col, row) ==>
              piecesMap[col, row] == Placed(MatchedPiece(source, col, row))
    ensures !thrown ==> forall col, row :: InGrid(columns as int, rows as int, col, row) ==>
              layout[col, row] == CellAt(columns, rows, col, row)
  {
    if columns < 0 || rows < 0 {
      thrown := true;
      piecesMap := new Slot[0, 0]((_, _) => Empty);
      layout := new Cell[0, 0]((_, _) => Cell(0, false, false, false, false));
      return;
    }
    thrown := false;
    piecesMap := new Slot[columns, rows]((_, _) => Empty);
    layout := new Cell[columns, rows]((_, _) => Cell(0, false, false, false, false));
    var row := 0;
    while row < rows as int
      invariant 0 <= row <= rows as int
      invariant forall c, r :: InGrid(columns as int, row, c, r) ==> piecesMap[c, r] == Placed(MatchedPiece(source, c, r))
      invariant forall c, r :: InGrid(columns as int, row, c, r) ==> layout[c, r] == CellAt(columns, rows, c, r)
    {
      FillRow(columns, rows, row, source, piecesMap, layout);
      row := row + 1;
    }
  }

  /** One pass of the inner loop of `Generate`: fills row `row`, reading the
      left neighbour from this row and the lower one from the row before. */
  method FillRow(columns: int32, rows: int32, row: int, source: PieceSource,
                 piecesMap: array2<Slot>, layout: array2<Cell>)
    requires 0 <= row < rows as int
    requires piecesMap.Length0 == columns as int && piecesMap.Length1 == rows as int
    requires layout.Length0 == columns as int && layout.Length1 == rows as int
    requires forall c, r :: InGrid(columns as int, row, c, r) ==> piecesMap[c, r] == Placed(MatchedPiece(source, c, r))
    modifies piecesMap, layout
    ensures forall c :: 0 <= c < columns as int ==> piecesMap[c, row] == Placed(MatchedPiece(source, c, row))
    ensures forall c :: 0 <= c < columns as int ==> layout[c, row] == CellAt(columns, rows, c, row)
    ensures forall c, r :: InGrid(columns as int, rows as int, c, r) && r != row ==>
              piecesMap[c, r] == old(piecesMap[c, r]) && layout[c, r] == old(layout[c, r])
  {
    var col := 0;
    while col < columns as int
      invariant 0 <= col <= columns as int
      invariant forall c :: 0 <= c < col ==> piecesMap[c, row] == Placed(MatchedPiece(source, c, row))
      invariant forall c :: 0 <= c < col ==> layout[c, row] == CellAt(columns, rows, c, row)
      invariant forall c, r :: InGrid(columns as int, rows as int, c, r) && r != row ==>
                  piecesMap[c, r] == old(piecesMap[c, r]) && layout[c, r] == old(layout[c, r])
    {
      var currentPiece := source.random(col, row);
      if col > 0 {
        currentPiece := currentPiece.(left := source.mate(piecesMap[col - 1, row].piece.right, source.pieceWidth));
      }
      if row > 0 {
        currentPiece := currentPiece.(bottom := source.mate(piecesMap[col, row - 1].piece.top, source.pieceHeight));
      }
      piecesMap[col, row] := Placed(currentPiece);
      var pieceIndex := Wrap(row * columns as int + col);
      layout[col, row] := Cell(pieceIndex, row < rows as int - 1, col < columns as int - 1, row > 0, col > 0);
      col := col + 1;
    }
  }

  /** Neighbouring pieces fit: a piece's left edge mates its left
      neighbour's right edge, its bottom edge its lower neighbour's top edge,
      and its own top and right edges are the ones drawn for it. */
  lemma NeighboursFit(source: PieceSource, col: int, row: int)
    ensures var piece := MatchedPiece(source, col, row);
            (col > 0 ==> piece.left == source.mate(MatchedPiece(source, col - 1, row).right, source.pieceWidth))
            && (row > 0 ==> piece.bottom == source.mate(MatchedPiece(source, col, row - 1).top, source.pieceHeight))
            && piece.top == source.random(col, row).top && piece.right == source.random(col, row).right
  {
  }

  /** A cell's border flags say exactly on which sides another cell of the
      grid lies. */
  lemma BorderFlags(columns: int32, rows: int32, col: int, row: int)
    requires InGrid(columns as int, rows as int, col, row)
    ensures var cell := CellAt(columns, rows, col, row);
            (cell.hasLeft <==> InGrid(columns as int, rows as int, col - 1, row))
            && (cell.hasRight <==> InGrid(columns as int, rows as int, col + 1, row))
            && (cell.hasBottom <==> InGrid(columns as int, rows as int, col, row - 1))
            && (cell.hasTop <==> InGrid(columns as int, rows as int, col, row + 1))
  {
  }

  /** Row-major order: the index of a cell lies below the cell count. */
  lemma RowMajorBound(columns: int, rows: int, col: int, row: int)
    requires InGrid(columns, rows, col, row)
    ensures 0 <= row * columns + col < rows * columns
  {
    assert row * columns + columns == (row + 1) * columns;
    assert (row + 1) * columns <= rows * columns by {
      MultiplyMonotone(row + 1, rows, columns);
    }
  }

  /** Proof helper for the cell-index bounds, not a property of the source:
      multiplying by a natural number keeps the order. */
  lemma MultiplyMonotone(a: int, b: int, c: nat)
    requires a <= b
    ensures a * c <= b * c
  {
    assert b * c - a * c == (b - a) * c;
  }

  /** Row-major order: different cells get different indices. */
  lemma RowMajorDistinct(columns: int, rows: int, col1: int, row1: int, col2: int, row2: int)
    requires InGrid(columns, rows, col1, row1) && InGrid(columns, rows, col2, row2)
    requires row1 * columns + col1 == row2 * columns + col2
    ensures col1 == col2 && row1 == row2
  {
    if row1 < row2 {
      MultiplyMonotone(row1 + 1, row2, columns);
    } else if row2 < row1 {
      MultiplyMonotone(row2 + 1, row1, columns);
    }
  }

  /** When the grid has fewer than `2^31` cells the piece indices do not
      wrap: they are distinct and run from 0 to the cell count. */
  lemma PieceIndicesDistinct(columns: int32, rows: int32, col1: int, row1: int, col2: int, row2: int)
    requires rows as int * columns as int < TWO_POW_31
    requires InGrid(columns as int, rows as int, col1, row1) && InGrid(columns as int, rows as int, col2, row2)
    ensures 0 <= PieceIndex(columns, col1, row1) as int < rows as int * columns as int
    ensures PieceIndex(columns, col1, row1) == PieceIndex(columns, col2, row2) <==> col1 == col2 && row1 == row2
  {
    RowMajorBound(columns as int, rows as int, col1, row1);
    RowMajorBound(columns as int, rows as int, col2, row2);
    if PieceIndex(columns, col1, row1) == PieceIndex(columns, col2, row2) {
      RowMajorDistinct(columns as int, rows as int, col1, row1, col2, row2);
    }
  }
}

/**
 `MeshData` as the movement map generator fills it: terrain and liquid squares of a map file, and the liquid grids of
 models.  Triangles are triples of vertex indices; every liquid triangle has one type.
 */
module MeshLoad {
  import opened Basics

  const V9: nat := 129
  const V8: nat := 128
  const NO_HEIGHT: real := -500.0
  const MAX_HEIGHT: real := 5000.0

  /** Liquid flag bits of a map cell, and the area types they become. */
  const MAGMA: bv8 := 0x01
  const OCEAN: bv8 := 0x02
  const SLIME: bv8 := 0x04
  const WATER: bv8 := 0x08
  const DEEP_WATER: bv8 := 0x10
  const AREA_WATER: bv8 := 9
  const AREA_MAGMA_SLIME: bv8 := 8

  /** Whole triangles, every corner a vertex of the flat list `verts`. */
  ghost predicate TrianglesOk(verts: seq<real>, tris: seq<int>) {
    |verts| % 3 == 0 && |tris| % 3 == 0 && forall i | 0 <= i < |tris| :: 0 <= tris[i] < |verts| / 3
  }

  ghost predicate InRange(tris: seq<int>, lo: int, hi: int) { forall i | 0 <= i < |tris| :: lo <= tris[i] < hi }

  /** More vertices and more triangles in range keep the triangles whole and in range. */
  lemma TrianglesGrow(verts: seq<real>, tris: seq<int>, moreVerts: seq<real>, moreTris: seq<int>)
    requires TrianglesOk(verts, tris) && |moreVerts| % 3 == 0 && |moreTris| % 3 == 0
    requires InRange(moreTris, 0, (|verts| + |moreVerts|) / 3)
    ensures TrianglesOk(verts + moreVerts, tris + moreTris)
  {
    forall i | 0 <= i < |tris + moreTris| ensures 0 <= (tris + moreTris)[i] < |verts + moreVerts| / 3 {
      if i < |tris| { assert tris[i] < |verts| / 3; } else { assert (tris + moreTris)[i] == moreTris[i - |tris|]; }
    }
  }

  // ---- Squares of a map file ----

  datatype Spot = Entire | Top | Left | Right | Bottom

  datatype LoopVars = LoopVars(first: nat, end: nat, step: nat)

  function GetLoopVars(portion: Spot): LoopVars {
    match portion
    case Entire => LoopVars(0, V8 * V8, 1)
    case Top => LoopVars(0, V8, 1)
    case Left => LoopVars(0, V8 * V8 - V8 + 1, V8)
    case Right => LoopVars(V8 - 1, V8 * V8, V8)
    case Bottom => LoopVars(V8 * V8 - V8, V8 * V8, 1)
  }

  /** How many squares a portion has, and which square comes `n`-th: the whole tile by rows, or one border of it. */
  ghost function Squares(portion: Spot): nat { if portion.Entire? then 128 * 128 else 128 }

  ghost function SquareAt(portion: Spot, n: nat): nat {
    match portion
    case Entire => n
    case Top => n
    case Left => 128 * n
    case Right => 128 * n + 127
    case Bottom => 128 * 127 + n
  }

  lemma SquareBound(portion: Spot, n: nat)
    ensures SquareAt(portion, n) < GetLoopVars(portion).end <==> n < Squares(portion)
    ensures n < Squares(portion) ==> SquareAt(portion, n) < V8 * V8
    ensures SquareAt(portion, n + 1) == SquareAt(portion, n) + GetLoopVars(portion).step
  {
  }

  /** The vertex of the 129 x 129 grid at a corner of a square, and the one of the 128 x 128 grid in its middle. */
  ghost function GridVertex(row: nat, col: nat): nat { 129 * row + col }

  ghost function MiddleVertex(square: nat): nat { 129 * 129 + square }

  function GetHeightTriangle(square: nat, triangle: Spot, liquid: bool): (int, int, int) {
    var rowOffset := square / V8;
    if !liquid then
      match triangle
      case Top => (square + rowOffset, square + 1 + rowOffset, V9 * V9 + square)
      case Left => (square + rowOffset, V9 * V9 + square, square + V9 + rowOffset)
      case Right => (square + 1 + rowOffset, square + V9 + 1 + rowOffset, V9 * V9 + square)
      case Bottom => (V9 * V9 + square, square + V9 + 1 + rowOffset, square + V9 + rowOffset)
      case Entire => (0, 0, 0)
    else
      match triangle
      case Top => (square + rowOffset, square + 1 + rowOffset, square + V9 + 1 + rowOffset)
      case Bottom => (square + rowOffset, square + V9 + 1 + rowOffset, square + V9 + rowOffset)
      case Entire => (0, 0, 0)
      case Left => (0, 0, 0)
      case Right => (0, 0, 0)
  }

  /** Every triangle of a square runs through its own corners and middle, all of them on the grids. */
  lemma TriangleCorners(square: nat)
    requires square < V8 * V8
    ensures var row, col := square / V8, square % V8;
            var a, b, c, d, m := GridVertex(row, col), GridVertex(row, col + 1), GridVertex(row + 1, col + 1),
                                 GridVertex(row + 1, col), MiddleVertex(square);
            && a < V9 * V9 && b < V9 * V9 && c < V9 * V9 && d < V9 * V9 && V9 * V9 <= m < V9 * V9 + V8 * V8
            && GetHeightTriangle(square, Top, false) == (a, b, m)
            && GetHeightTriangle(square, Right, false) == (b, c, m)
            && GetHeightTriangle(square, Left, false) == (a, m, d)
            && GetHeightTriangle(square, Bottom, false) == (m, c, d)
            && GetHeightTriangle(square, Top, true) == (a, b, c) && GetHeightTriangle(square, Bottom, true) == (a, c, d)
  {
    assert square == square / V8 * V8 + square % V8;
  }

  function Reversed(t: (int, int, int), count: int): seq<int> { [t.2 + count, t.1 + count, t.0 + count] }

  function LiquidSquare(square: nat, count: int): (r: seq<int>)
    requires square < V8 * V8
    ensures |r| == 6 && InRange(r, count, count + V9 * V9)
  {
    TriangleCorners(square);
    Reversed(GetHeightTriangle(square, Top, true), count) + Reversed(GetHeightTriangle(square, Bottom, true), count)
  }

  function TerrainSquare(square: nat, count: int): (r: seq<int>)
    requires square < V8 * V8
    ensures |r| == 12 && InRange(r, count, count + V9 * V9 + V8 * V8)
  {
    TriangleCorners(square);
    Reversed(GetHeightTriangle(square, Top, false), count) + Reversed(GetHeightTriangle(square, Right, false), count)
    + Reversed(GetHeightTriangle(square, Left, false), count)
        + Reversed(GetHeightTriangle(square, Bottom, false), count)
  }

  /**
   Going round a square from its first corner: liquid is the half at the second corner, then the half at the fourth;
   terrain is the quarters at the first, second, fourth and third side, each around the middle.
   */
  lemma SquareOrder(square: nat, count: int)
    requires square < V8 * V8
    ensures var row, col := square / 128, square % 128;
            var a, b, c, d := count + GridVertex(row, col), count + GridVertex(row, col + 1),
                              count + GridVertex(row + 1, col + 1), count + GridVertex(row + 1, col);
            var m := count + MiddleVertex(square);
            && LiquidSquare(square, count) == [c, b, a] + [d, c, a]
            && TerrainSquare(square, count) == [m, b, a] + [m, c, b] + [d, m, a] + [d, c, m]
  {
    hide GridVertex, MiddleVertex, GetHeightTriangle, InRange;
    TriangleCorners(square);
  }

  /** The triangles of the first `n` squares, one square after the other. */
  ghost predicate LiquidSquares(portion: Spot, count: int, n: nat, tris: seq<int>) {
    && n <= Squares(portion) && |tris| == 6 * n && InRange(tris, count, count + V9 * V9)
    && forall k: nat | k < n ::
         SquareAt(portion, k) < V8 * V8 && tris[6 * k..6 * k + 6] == LiquidSquare(SquareAt(portion, k), count)
  }

  ghost predicate TerrainSquares(portion: Spot, count: int, n: nat, tris: seq<int>) {
    && n <= Squares(portion) && |tris| == 12 * n && InRange(tris, count, count + V9 * V9 + V8 * V8)
    && forall k: nat | k < n ::
         SquareAt(portion, k) < V8 * V8 && tris[12 * k..12 * k + 12] == TerrainSquare(SquareAt(portion, k), count)
  }

  lemma LiquidNext(portion: Spot, count: int, n: nat, tris: seq<int>)
    requires LiquidSquares(portion, count, n, tris) && n < Squares(portion) && SquareAt(portion, n) < V8 * V8
    ensures LiquidSquares(portion, count, n + 1, tris + LiquidSquare(SquareAt(portion, n), count))
  {
    hide SquareAt, LiquidSquare;
    var more := LiquidSquare(SquareAt(portion, n), count);
    forall k: nat | k < n + 1
      ensures SquareAt(portion, k) < V8 * V8
      ensures (tris + more)[6 * k..6 * k + 6] == LiquidSquare(SquareAt(portion, k), count)
    {
      if k < n {
        assert (tris + more)[6 * k..6 * k + 6] == tris[6 * k..6 * k + 6];
      } else {
        assert (tris + more)[6 * n..6 * n + 6] == more;
      }
    }
  }

  lemma LiquidNone(portion: Spot, count: int)
    ensures LiquidSquares(portion, count, 0, [])
  {
  }

  method LiquidTriangles(portion: Spot, count: int) returns (tris: seq<int>)
    ensures LiquidSquares(portion, count, Squares(portion), tris)
  {
    hide SquareAt, LiquidSquare, LiquidSquares, InRange;
    tris := [];
    var loop := GetLoopVars(portion);
    var i := loop.first;
    ghost var n := 0;
    FirstSquare(portion);
    LiquidNone(portion, count);
    while i < loop.end
      invariant n <= Squares(portion) && i == SquareAt(portion, n) && LiquidSquares(portion, count, n, tris)
      decreases Squares(portion) - n
    {
      SquareBound(portion, n);
      LiquidNext(portion, count, n, tris);
      tris := tris + LiquidSquare(i, count);
      i, n := i + loop.step, n + 1;
    }
    SquareBound(portion, n);
  }

  lemma TerrainNext(portion: Spot, count: int, n: nat, tris: seq<int>)
    requires TerrainSquares(portion, count, n, tris) && n < Squares(portion) && SquareAt(portion, n) < V8 * V8
    ensures TerrainSquares(portion, count, n + 1, tris + TerrainSquare(SquareAt(portion, n), count))
  {
    hide SquareAt, TerrainSquare;
    var more := TerrainSquare(SquareAt(portion, n), count);
    forall k: nat | k < n + 1
      ensures SquareAt(portion, k) < V8 * V8
      ensures (tris + more)[12 * k..12 * k + 12] == TerrainSquare(SquareAt(portion, k), count)
    {
      if k < n {
        assert (tris + more)[12 * k..12 * k + 12] == tris[12 * k..12 * k + 12];
      } else {
        assert (tris + more)[12 * n..12 * n + 12] == more;
      }
    }
  }

  lemma TerrainNone(portion: Spot, count: int)
    ensures TerrainSquares(portion, count, 0, [])
  {
  }

  method TerrainTriangles(portion: Spot, count: int) returns (tris: seq<int>)
    ensures TerrainSquares(portion, count, Squares(portion), tris)
  {
    hide SquareAt, TerrainSquare, TerrainSquares, InRange;
    tris := [];
    var loop := GetLoopVars(portion);
    var i := loop.first;
    ghost var n := 0;
    FirstSquare(portion);
    TerrainNone(portion, count);
    while i < loop.end
      invariant n <= Squares(portion) && i == SquareAt(portion, n) && TerrainSquares(portion, count, n, tris)
      decreases Squares(portion) - n
    {
      SquareBound(portion, n);
      TerrainNext(portion, count, n, tris);
      tris := tris + TerrainSquare(i, count);
      i, n := i + loop.step, n + 1;
    }
    SquareBound(portion, n);
  }

  lemma FirstSquare(portion: Spot)
    ensures SquareAt(portion, 0) == GetLoopVars(portion).first
  {
  }

  // ---- Liquid grids of models ----

  /** A model's liquid: a grid of tiles, heights by rows of vertices, one flag per tile by rows. */
  datatype ModelLiquid = ModelLiquid(tilesX: nat, tilesY: nat, kind: nat, heights: seq<real>, flags: seq<bv8>)

  /** Where grid vertex (x, y) stands in a vertex list filled column by column. */
  ghost function VertexAt(tilesY: nat, x: nat, y: nat): nat { x * (tilesY + 1) + y }

  lemma VertexNext(tilesY: nat, x: nat, y: nat)
    ensures VertexAt(tilesY, x, y + 1) == VertexAt(tilesY, x, y) + 1
    ensures VertexAt(tilesY, x + 1, 0) == VertexAt(tilesY, x, tilesY + 1)
    ensures VertexAt(tilesY, 0, y) == y
  {
    assert (x + 1) * (tilesY + 1) == x * (tilesY + 1) + (tilesY + 1);
  }

  lemma VertexBelow(tilesY: nat, x: nat, y: nat, columns: nat)
    requires x < columns && y <= tilesY
    ensures VertexAt(tilesY, x, y) < VertexAt(tilesY, columns, 0)
  {
    MulUp(x + 1, columns, tilesY + 1);
    VertexNext(tilesY, x, y);
  }

  lemma MulUp(a: nat, b: nat, n: nat)
    requires a <= b
    ensures a * n <= b * n
  {
    assert b * n == a * n + (b - a) * n;
  }

  /** The four index formulas of a tile are its corners: (x, y), (x, y + 1), (x + 1, y + 1) and (x + 1, y). */
  lemma TileCorners(tilesY: nat, x: nat, y: nat)
    ensures var square := x * tilesY + y;
            && square + x == VertexAt(tilesY, x, y) && square + 1 + x == VertexAt(tilesY, x, y + 1)
            && square + tilesY + 1 + 1 + x == VertexAt(tilesY, x + 1, y + 1)
            && square + tilesY + 1 + x == VertexAt(tilesY, x + 1, y)
  {
    assert x * (tilesY + 1) == x * tilesY + x;
    assert (x + 1) * (tilesY + 1) == x * tilesY + x + tilesY + 1;
  }

  ghost predicate Shows(l: ModelLiquid, x: nat, y: nat) {
    var flag := x + y * l.tilesX;
    flag < |l.flags| && l.flags[flag] & 0x0f != 0x0f
  }

  /** The two triangles of a shown tile as they are pushed, from vertex `offset` on. */
  ghost function TileTriangles(tilesY: nat, x: nat, y: nat, offset: nat): seq<int> {
    var a, b, c, d := VertexAt(tilesY, x, y), VertexAt(tilesY, x, y + 1), VertexAt(tilesY, x + 1, y + 1),
        VertexAt(tilesY, x + 1, y);
    [b + offset, a + offset, c + offset, c + offset, a + offset, d + offset]
  }

  /** The triangles of the tiles before (x, y), column by column. */
  ghost function GridTriangles(l: ModelLiquid, x: nat, y: nat, offset: nat): seq<int>
    decreases x, y
  {
    if y > 0 then GridTriangles(l, x, y - 1, offset)
        + if Shows(l, x, y - 1) then TileTriangles(l.tilesY, x, y - 1, offset) else []
    else if x > 0 then GridTriangles(l, x - 1, l.tilesY, offset)
    else []
  }

  lemma {:induction false} GridInRange(l: ModelLiquid, x: nat, y: nat, offset: nat)
    requires x <= l.tilesX && y <= l.tilesY && (y > 0 ==> x < l.tilesX)
    ensures |GridTriangles(l, x, y, offset)| % 6 == 0
    ensures InRange(GridTriangles(l, x, y, offset), offset, offset + VertexAt(l.tilesY, l.tilesX + 1, 0))
    decreases x, y
  {
    hide VertexAt, Shows, TileTriangles, InRange;
    var n := VertexAt(l.tilesY, l.tilesX + 1, 0);
    NoRange(offset, offset + n);
    if y > 0 {
      GridInRange(l, x, y - 1, offset);
      TileInRange(l.tilesY, l.tilesX, x, y - 1, offset);
      RangeOfSum(GridTriangles(l, x, y - 1, offset), TileTriangles(l.tilesY, x, y - 1, offset), offset, offset + n);
      RangeOfSum(GridTriangles(l, x, y - 1, offset), [], offset, offset + n);
    } else if x > 0 {
      GridInRange(l, x - 1, l.tilesY, offset);
    }
  }

  lemma TileInRange(tilesY: nat, tilesX: nat, x: nat, y: nat, offset: nat)
    requires x < tilesX && y < tilesY
    ensures |TileTriangles(tilesY, x, y, offset)| == 6
    ensures InRange(TileTriangles(tilesY, x, y, offset), offset, offset + VertexAt(tilesY, tilesX + 1, 0))
  {
    hide VertexAt;
    VertexBelow(tilesY, x, y, tilesX + 1);
    VertexBelow(tilesY, x, y + 1, tilesX + 1);
    VertexBelow(tilesY, x + 1, y, tilesX + 1);
    VertexBelow(tilesY, x + 1, y + 1, tilesX + 1);
  }

  datatype Point = Point(x: real, y: real, z: real)

  /** The vertices of the first columns, and of column `x` up to `y`, placed from their grid position and height. */
  ghost predicate GridPlaced(l: ModelLiquid, place: (nat, nat, real) -> Point, verts: seq<Point>, x: nat, y: nat) {
    && |l.heights| >= (l.tilesX + 1) * (l.tilesY + 1) && |verts| == VertexAt(l.tilesY, x, y)
    && forall u: nat, v: nat | u <= l.tilesX && v <= l.tilesY && (u < x || (u == x && v < y)) ::
         PlacedAt(l, place, verts, u, v)
  }

  ghost predicate PlacedAt(l: ModelLiquid, place: (nat, nat, real) -> Point, verts: seq<Point>, u: nat, v: nat) {
    && VertexAt(l.tilesY, u, v) < |verts| && v * (l.tilesX + 1) + u < |l.heights|
    && verts[VertexAt(l.tilesY, u, v)] == place(u, v, l.heights[v * (l.tilesX + 1) + u])
  }

  /** Row-major heights of a full grid cover every vertex. */
  lemma HeightInRange(l: ModelLiquid, x: nat, y: nat)
    requires |l.heights| >= (l.tilesX + 1) * (l.tilesY + 1) && x <= l.tilesX && y <= l.tilesY
    ensures y * (l.tilesX + 1) + x < |l.heights|
  {
    VertexBelow(l.tilesX, y, x, l.tilesY + 1);
    assert (l.tilesY + 1) * (l.tilesX + 1) == (l.tilesX + 1) * (l.tilesY + 1);
  }

  lemma GridPlacedNext(l: ModelLiquid, place: (nat, nat, real) -> Point, verts: seq<Point>, x: nat, y: nat)
    requires GridPlaced(l, place, verts, x, y) && x <= l.tilesX && y <= l.tilesY && y * (l.tilesX + 1) + x < |l.heights|
    ensures GridPlaced(l, place, verts + [place(x, y, l.heights[y * (l.tilesX + 1) + x])], x, y + 1)
  {
    hide VertexAt;
    VertexNext(l.tilesY, x, y);
    var verts' := verts + [place(x, y, l.heights[y * (l.tilesX + 1) + x])];
    forall u: nat, v: nat | u <= l.tilesX && v <= l.tilesY && (u < x || (u == x && v < y + 1))
      ensures PlacedAt(l, place, verts', u, v)
    {
      if u != x || v != y { assert PlacedAt(l, place, verts, u, v); }
    }
  }

  lemma GridPlacedColumn(l: ModelLiquid, place: (nat, nat, real) -> Point, verts: seq<Point>, x: nat)
    requires GridPlaced(l, place, verts, x, l.tilesY + 1)
    ensures GridPlaced(l, place, verts, x + 1, 0)
  {
    hide VertexAt;
    VertexNext(l.tilesY, x, 0);
  }

  method GridVertices(l: ModelLiquid, place: (nat, nat, real) -> Point) returns (verts: seq<Point>)
    requires |l.heights| >= (l.tilesX + 1) * (l.tilesY + 1)
    ensures GridPlaced(l, place, verts, l.tilesX + 1, 0)
  {
    hide VertexAt, GridPlaced;
    verts := [];
    GridPlacedNone(l, place);
    for x := 0 to l.tilesX + 1
      invariant GridPlaced(l, place, verts, x, 0)
    {
      for y := 0 to l.tilesY + 1
        invariant GridPlaced(l, place, verts, x, y)
      {
        HeightInRange(l, x, y);
        GridPlacedNext(l, place, verts, x, y);
        verts := verts + [place(x, y, l.heights[y * (l.tilesX + 1) + x])];
      }
      GridPlacedColumn(l, place, verts, x);
    }
  }

  lemma GridPlacedNone(l: ModelLiquid, place: (nat, nat, real) -> Point)
    requires |l.heights| >= (l.tilesX + 1) * (l.tilesY + 1)
    ensures GridPlaced(l, place, [], 0, 0)
  {
  }

  /** Triples as the source collects them, before they are turned and shifted. */
  ghost function Turned(tris: seq<(int, int, int)>, offset: nat): seq<int> {
    if tris == [] then []
    else
      var t := tris[|tris| - 1];
      Turned(tris[..|tris| - 1], offset) + [t.1 + offset, t.2 + offset, t.0 + offset]
  }

  lemma TurnedTwo(tris: seq<(int, int, int)>, s: (int, int, int), t: (int, int, int), offset: nat)
    ensures Turned(tris + [s] + [t], offset) == Turned(tris, offset)
              + [s.1 + offset, s.2 + offset, s.0 + offset, t.1 + offset, t.2 + offset, t.0 + offset]
  {
    assert (tris + [s] + [t])[..|tris| + 1] == tris + [s] && (tris + [s])[..|tris|] == tris;
  }

  method GridTiles(l: ModelLiquid, ghost offset: nat) returns (tris: seq<(int, int, int)>)
    ensures Turned(tris, offset) == GridTriangles(l, l.tilesX, 0, offset)
  {
    hide VertexAt, Turned;
    tris := [];
    TurnedNone(offset);
    for x := 0 to l.tilesX
      invariant Turned(tris, offset) == GridTriangles(l, x, 0, offset)
    {
      for y := 0 to l.tilesY
        invariant Turned(tris, offset) == GridTriangles(l, x, y, offset)
      {
        var flag := x + y * l.tilesX;
        if flag < |l.flags| && l.flags[flag] & 0x0f != 0x0f {
          var square := x * l.tilesY + y;
          var idx1, idx2 := square + x, square + 1 + x;
          var idx3, idx4 := square + l.tilesY + 1 + 1 + x, square + l.tilesY + 1 + x;
          TileCorners(l.tilesY, x, y);
          TurnedTwo(tris, (idx3, idx2, idx1), (idx4, idx3, idx1), offset);
          tris := tris + [(idx3, idx2, idx1)] + [(idx4, idx3, idx1)];
        }
      }
    }
  }

  lemma TurnedNone(offset: nat)
    ensures Turned([], offset) == []
  {
  }

  ghost function Flat(ps: seq<Point>): (r: seq<real>)
    ensures |r| == 3 * |ps|
  {
    if ps == [] then [] else Flat(ps[..|ps| - 1]) + [ps[|ps| - 1].y, ps[|ps| - 1].z, ps[|ps| - 1].x]
  }

  // ---- Solid part of a model ----

  /** A 32-bit index of the file read as a signed number. */
  function Signed(n: nat): (r: int)
    ensures n < 0x1_0000_0000 ==> -0x8000_0000 <= r < 0x8000_0000 && (r - n) % 0x1_0000_0000 == 0
  { if n < 0x8000_0000 then n else n - 0x1_0000_0000 }

  ghost function Corners(t: (nat, nat, nat), flip: bool, offset: nat): (r: seq<int>)
    ensures |r| == 3
  {
    if flip then [Signed(t.2) + offset, Signed(t.1) + offset, Signed(t.0) + offset]
    else [Signed(t.0) + offset, Signed(t.1) + offset, Signed(t.2) + offset]
  }

  lemma CornersAre(t: (nat, nat, nat), flip: bool, offset: nat)
    ensures Corners(t, flip, offset) == if flip then [Signed(t.2) + offset, Signed(t.1) + offset, Signed(t.0) + offset]
                                        else [Signed(t.0) + offset, Signed(t.1) + offset, Signed(t.2) + offset]
  {
  }

  ghost function AllCorners(tris: seq<(nat, nat, nat)>, flip: bool, offset: nat): (r: seq<int>)
    ensures |r| == 3 * |tris|
  {
    if tris == [] then [] else AllCorners(tris[..|tris| - 1], flip, offset) + Corners(tris[|tris| - 1], flip, offset)
  }

  ghost predicate Names(n: nat, offset: nat, count: nat) { 0 <= Signed(n) + offset < offset + count }

  ghost predicate NamesAll(t: (nat, nat, nat), offset: nat, count: nat) {
    Names(t.0, offset, count) && Names(t.1, offset, count) && Names(t.2, offset, count)
  }

  /** Every index names a vertex that is there once the group's own `count` vertices are. */
  ghost predicate Named(tris: seq<(nat, nat, nat)>, offset: nat, count: nat) {
    forall i | 0 <= i < |tris| :: NamesAll(tris[i], offset, count)
  }

  lemma NamedLast(tris: seq<(nat, nat, nat)>, offset: nat, count: nat)
    requires tris != []
    ensures Named(tris, offset, count)
            <==> Named(tris[..|tris| - 1], offset, count) && NamesAll(tris[|tris| - 1], offset, count)
  {
    hide NamesAll;
  }

  /** The corners are in range exactly when the indices name vertices. */
  lemma {:induction false} CornersInRange(tris: seq<(nat, nat, nat)>, flip: bool, offset: nat, count: nat)
    ensures InRange(AllCorners(tris, flip, offset), 0, offset + count) <==> Named(tris, offset, count)
  {
    hide InRange, Corners, NamesAll;
    if tris == [] {
      NoRange(0, offset + count);
    } else {
      var front, t := tris[..|tris| - 1], tris[|tris| - 1];
      CornersInRange(front, flip, offset, count);
      RangeOfSum(AllCorners(front, flip, offset), Corners(t, flip, offset), 0, offset + count);
      RangeOfThree(t, flip, offset, count);
      NamedLast(tris, offset, count);
    }
  }

  lemma NoRange(lo: int, hi: int)
    ensures InRange([], lo, hi)
  {
  }

  lemma RangeOfSum(a: seq<int>, b: seq<int>, lo: int, hi: int)
    ensures InRange(a + b, lo, hi) <==> InRange(a, lo, hi) && InRange(b, lo, hi)
  {
    if InRange(a + b, lo, hi) {
      forall i | 0 <= i < |a| ensures lo <= a[i] < hi { assert (a + b)[i] == a[i]; }
      forall i | 0 <= i < |b| ensures lo <= b[i] < hi { assert (a + b)[|a| + i] == b[i]; }
    }
  }

  lemma RangeOfThree(t: (nat, nat, nat), flip: bool, offset: nat, count: nat)
    ensures InRange(Corners(t, flip, offset), 0, offset + count) <==> NamesAll(t, offset, count)
  {
    hide Signed;
    var c := Corners(t, flip, offset);
    assert c == [c[0], c[1], c[2]];
  }

  /** Kinds 0 and 1 of every four are water and ocean, 2 and 3 magma and slime. */
  ghost function AreaOfModel(kind: nat): bv8 { if kind % 4 == 0 || kind % 4 == 1 then 9 else 8 }

  ghost predicate Bit(flag: bv8, n: nat)
    requires n < 8
  {
    (flag >> n) & 1 == 1
  }

  /**
   The area a liquid flag stands for: none with bit 4 (deep water), area 9 with bit 1 or 3 (ocean, water), area 8
   with bit 0 or 2 (magma, slime), none with neither.
   */
  ghost function AreaOf(flag: bv8): Option<bv8> {
    if Bit(flag, 4) then None
    else if Bit(flag, 1) || Bit(flag, 3) then Some(9)
    else if Bit(flag, 0) || Bit(flag, 2) then Some(8)
    else None
  }

  lemma AreaByMask(flag: bv8)
    ensures flag & DEEP_WATER != 0 <==> Bit(flag, 4)
    ensures flag & (WATER | OCEAN) != 0 <==> Bit(flag, 1) || Bit(flag, 3)
    ensures flag & (MAGMA | SLIME) != 0 <==> Bit(flag, 0) || Bit(flag, 2)
  {
  }

  /** What a map file says about its cells. */
  datatype Cells = Cells(typesLoaded: bool, flagAt: nat -> bv8, hole: nat -> bool)

  // ---- Terrain against liquid ----

  /** The vertex and index lists of a mesh. */
  datatype Lists = Lists(solidVerts: seq<real>, solidTris: seq<int>, liquidVerts: seq<real>, liquidTris: seq<int>,
                         liquidType: seq<bv8>)

  ghost function Cut(tris: seq<int>, at: nat, n: nat): seq<int> { if at + n <= |tris| then tris[at..at + n] else [] }

  /**
   Half `h` of the squares of a portion, counted from 0.  Deep water drops everything, a hole drops the terrain, liquid
   needs a type and a known height, and is dropped where it lies below kept terrain.
   */
  ghost function Resolved(m: Lists, i: nat, h: nat, ltris: seq<int>, ttris: seq<int>, copy: seq<real>,
                          cells: Cells): Lists {
    var ltri, ttri := Cut(ltris, 3 * h, 3), Cut(ttris, 6 * h, 6);
    var liquidHere := cells.typesLoaded && copy != [] && ltris != [];
    var deep := liquidHere && Bit(cells.flagAt(i), 4);
    var terrain := ttris != [] && !deep && !cells.hole(i);
    var wet := liquidHere && AreaOf(cells.flagAt(i)).Some?;
    var verts := if wet then Patched(m.liquidVerts, ltri, copy) else m.liquidVerts;
    var liquid := wet && CountKnown(copy, ltri) > 0 && !(terrain && Below(verts, ltri, m.solidVerts, ttri));
    Lists(m.solidVerts, m.solidTris + (if terrain then ttri else []), verts,
          m.liquidTris + (if liquid then ltri else []),
          m.liquidType + if liquid then [AreaOf(cells.flagAt(i)).value] else [])
  }

  ghost function ResolvedUpto(m: Lists, portion: Spot, n: nat, ltris: seq<int>, ttris: seq<int>, cells: Cells): Lists {
    if n == 0 then m
    else Resolved(ResolvedUpto(m, portion, n - 1, ltris, ttris, cells), SquareAt(portion, (n - 1) / 2), n - 1, ltris,
                  ttris, m.liquidVerts, cells)
  }

  lemma ResolvedNone(m: Lists, portion: Spot, ltris: seq<int>, ttris: seq<int>, cells: Cells)
    ensures ResolvedUpto(m, portion, 0, ltris, ttris, cells) == m
  {
  }

  lemma {:induction false} ResolvedNext(m: Lists, portion: Spot, n: nat, j: nat, ltris: seq<int>, ttris: seq<int>,
                                        cells: Cells)
    requires j < 2
    ensures ResolvedUpto(m, portion, 2 * n + j + 1, ltris, ttris, cells)
            == Resolved(ResolvedUpto(m, portion, 2 * n + j, ltris, ttris, cells), SquareAt(portion, n), 2 * n + j,
                        ltris, ttris, m.liquidVerts, cells)
  {
    assert (2 * n + j) / 2 == n;
  }

  /** Earlier triangles stay; without liquid types there is no liquid, without terrain no solid triangle. */
  lemma {:induction false} ResolvedKeeps(m: Lists, portion: Spot, n: nat, ltris: seq<int>, ttris: seq<int>,
                                         cells: Cells)
    ensures var r := ResolvedUpto(m, portion, n, ltris, ttris, cells);
            && m.solidTris <= r.solidTris && m.liquidTris <= r.liquidTris && m.liquidType <= r.liquidType
            && (ltris == [] || !cells.typesLoaded ==> r.liquidTris == m.liquidTris)
            && (ttris == [] ==> r.solidTris == m.solidTris)
  {
    hide Patched, CountKnown, Below, Cut, SquareAt;
    if n > 0 { ResolvedKeeps(m, portion, n - 1, ltris, ttris, cells); }
  }

  // ---- The mesh ----

  class MeshData {
    var solidVerts: seq<real>
    var solidTris: seq<int>
    var liquidVerts: seq<real>
    var liquidTris: seq<int>
    var liquidType: seq<bv8>

    /** Whole triangles over existing vertices, and one type per liquid triangle. */
    ghost predicate Valid()
      reads this
    {
      && TrianglesOk(solidVerts, solidTris) && TrianglesOk(liquidVerts, liquidTris) && |liquidTris| == 3 * |liquidType|
    }

    ghost function State(): Lists
      reads this
    {
      Lists(solidVerts, solidTris, liquidVerts, liquidTris, liquidType)
    }

    constructor ()
      ensures Valid() && solidVerts == [] && solidTris == [] && liquidVerts == [] && liquidTris == []
      ensures liquidType == []
    {
      solidVerts, solidTris, liquidVerts, liquidTris, liquidType := [], [], [], [], [];
    }

    /**
     The solid part of `load_vmap` for one group: it keeps the mesh whole exactly if the file's indices name vertices.
     */
    method AddModelSolid(verts: seq<Point>, tris: seq<(nat, nat, nat)>, flip: bool)
      requires Valid()
      modifies this`solidVerts, this`solidTris
      ensures solidVerts == old(solidVerts) + Flat(verts)
      ensures solidTris == old(solidTris) + AllCorners(tris, flip, |old(solidVerts)| / 3)
      ensures Valid() <==> Named(tris, |old(solidVerts)| / 3, |verts|)
    {
      hide AllCorners, Flat, Named, TrianglesOk;
      var offset := |solidVerts| / 3;
      PushSolidVertices(verts);
      PushSolidTriangles(tris, flip, offset);
      SolidGrows(old(solidVerts), old(solidTris), verts, tris, flip);
    }

    method PushSolidVertices(verts: seq<Point>)
      modifies this`solidVerts
      ensures solidVerts == old(solidVerts) + Flat(verts)
    {
      for i := 0 to |verts|
        invariant solidVerts == old(solidVerts) + Flat(verts[..i])
      {
        assert verts[..i + 1][..i] == verts[..i];
        solidVerts := solidVerts + [verts[i].y] + [verts[i].z] + [verts[i].x];
      }
      assert verts[..|verts|] == verts;
    }

    method PushSolidTriangles(tris: seq<(nat, nat, nat)>, flip: bool, offset: nat)
      modifies this`solidTris
      ensures solidTris == old(solidTris) + AllCorners(tris, flip, offset)
    {
      hide Corners, Signed;
      for i := 0 to |tris|
        invariant solidTris == old(solidTris) + AllCorners(tris[..i], flip, offset)
      {
        assert tris[..i + 1][..i] == tris[..i];
        var (idx0, idx1, idx2) := tris[i];
        CornersAre(tris[i], flip, offset);
        if flip {
          solidTris := solidTris + [Signed(idx2) + offset] + [Signed(idx1) + offset] + [Signed(idx0) + offset];
        } else {
          solidTris := solidTris + [Signed(idx0) + offset] + [Signed(idx1) + offset] + [Signed(idx2) + offset];
        }
      }
      assert tris[..|tris|] == tris;
    }

    /** The liquid part of `load_vmap` for one group. */
    method AddModelLiquid(l: ModelLiquid, place: (nat, nat, real) -> Point)
      requires Valid() && |l.heights| >= (l.tilesX + 1) * (l.tilesY + 1)
      modifies this`liquidVerts, this`liquidTris, this`liquidType
      ensures Valid()
      ensures exists ps :: GridPlaced(l, place, ps, l.tilesX + 1, 0) && liquidVerts == old(liquidVerts) + Flat(ps)
      ensures liquidTris == old(liquidTris) + GridTriangles(l, l.tilesX, 0, |old(liquidVerts)| / 3)
      ensures old(liquidType) <= liquidType && forall i | |old(liquidType)| <= i < |liquidType| ::
                liquidType[i] == AreaOfModel(l.kind)
    {
      hide TrianglesOk, GridPlaced, GridTriangles, VertexAt, Flat;
      var area := if l.kind % 4 < 2 then AREA_WATER else AREA_MAGMA_SLIME;
      var offset := |liquidVerts| / 3;
      var verts := GridVertices(l, place);
      var tris := GridTiles(l, offset);
      ghost var added := GridTriangles(l, l.tilesX, 0, offset);
      GridInRange(l, l.tilesX, 0, offset);
      GridSize(l, place, verts);
      Offset(liquidVerts, liquidTris, verts);
      TrianglesGrow(liquidVerts, liquidTris, Flat(verts), added);
      PushVertices(verts);
      PushTriangles(tris, offset, area);
    }

    method PushVertices(verts: seq<Point>)
      modifies this`liquidVerts
      ensures liquidVerts == old(liquidVerts) + Flat(verts)
    {
      for i := 0 to |verts|
        invariant liquidVerts == old(liquidVerts) + Flat(verts[..i])
      {
        assert verts[..i + 1][..i] == verts[..i];
        liquidVerts := liquidVerts + [verts[i].y] + [verts[i].z] + [verts[i].x];
      }
      assert verts[..|verts|] == verts;
    }

    method PushTriangles(tris: seq<(int, int, int)>, offset: nat, area: bv8)
      modifies this`liquidTris, this`liquidType
      ensures liquidTris == old(liquidTris) + Turned(tris, offset)
      ensures old(liquidType) <= liquidType && |liquidType| == |old(liquidType)| + |tris|
      ensures |Turned(tris, offset)| == 3 * |tris|
      ensures forall i | |old(liquidType)| <= i < |liquidType| :: liquidType[i] == area
    {
      for i := 0 to |tris|
        invariant liquidTris == old(liquidTris) + Turned(tris[..i], offset) && |Turned(tris[..i], offset)| == 3 * i
        invariant old(liquidType) <= liquidType && |liquidType| == |old(liquidType)| + i
        invariant forall k | |old(liquidType)| <= k < |liquidType| :: liquidType[k] == area
      {
        assert tris[..i + 1][..i] == tris[..i];
        liquidTris := liquidTris + [tris[i].1 + offset] + [tris[i].2 + offset] + [tris[i].0 + offset];
        liquidType := liquidType + [area];
      }
      assert tris[..|tris|] == tris;
    }

    /** `load_map_portion` from its decoded vertices on; false if there is nothing in the mesh afterwards. */
    method LoadPortion(portion: Spot, terrain: Option<seq<real>>, liquid: Option<seq<real>>, cells: Cells)
      returns (loaded: bool, ghost ltris: seq<int>, ghost ttris: seq<int>)
      requires Valid()
      requires terrain.Some? ==> |terrain.value| == 3 * (V9 * V9 + V8 * V8)
      requires liquid.Some? ==> |liquid.value| == 3 * (V9 * V9)
      modifies this
      ensures Valid()
      ensures if terrain.None? then ttris == []
                else TerrainSquares(portion, |old(solidVerts)| / 3, Squares(portion), ttris)
      ensures if liquid.None? then ltris == []
                else LiquidSquares(portion, |old(liquidVerts)| / 3, Squares(portion), ltris)
      ensures var m := Lists(old(solidVerts) + (if terrain.Some? then terrain.value else []), old(solidTris),
                             old(liquidVerts) + (if liquid.Some? then liquid.value else []), old(liquidTris),
                             old(liquidType));
              State() == if ltris == ttris == [] then m
                         else ResolvedUpto(m, portion, 2 * Squares(portion), ltris, ttris, cells)
      ensures old(solidTris) <= solidTris && old(liquidTris) <= liquidTris && old(liquidType) <= liquidType
      ensures liquid.None? || !cells.typesLoaded ==> liquidTris == old(liquidTris)
      ensures terrain.None? ==> solidTris == old(solidTris)
      ensures loaded <==> (ltris != [] || ttris != []) && (solidTris != [] || liquidTris != [])
    {
      hide TrianglesOk, LiquidSquares, TerrainSquares, ResolvedUpto;
      var ttriangles, ltriangles: seq<int> := [], [];
      if terrain.Some? {
        var count := |solidVerts| / 3;
        Counted(solidVerts, solidTris, terrain.value);
        solidVerts := solidVerts + terrain.value;
        ttriangles := TerrainTriangles(portion, count);
        TerrainRange(portion, count, ttriangles);
      }
      if liquid.Some? {
        var count := |liquidVerts| / 3;
        Counted(liquidVerts, liquidTris, liquid.value);
        liquidVerts := liquidVerts + liquid.value;
        ltriangles := LiquidTriangles(portion, count);
        LiquidRange(portion, count, ltriangles);
      }
      ltris, ttris := ltriangles, ttriangles;
      assert old(solidVerts) + [] == old(solidVerts) && old(liquidVerts) + [] == old(liquidVerts);
      if ltriangles == [] && ttriangles == [] { return false, ltris, ttris; }
      Resolve(portion, ltriangles, ttriangles, cells);
      loaded := solidTris != [] || liquidTris != [];
    }

    /** The loop that settles, for each half square, whether terrain, liquid, both or neither is kept. */
    method Resolve(portion: Spot, ltriangles: seq<int>, ttriangles: seq<int>, cells: Cells)
      requires Valid() && InRange(ltriangles, 0, |liquidVerts| / 3) && InRange(ttriangles, 0, |solidVerts| / 3)
      requires ltriangles == [] || |ltriangles| == 6 * Squares(portion)
      requires ttriangles == [] || |ttriangles| == 12 * Squares(portion)
      modifies this`liquidVerts, this`liquidTris, this`liquidType, this`solidTris
      ensures Valid()
      ensures State() == ResolvedUpto(old(State()), portion, 2 * Squares(portion), ltriangles, ttriangles, cells)
      ensures |liquidVerts| == |old(liquidVerts)|
      ensures old(solidTris) <= solidTris && old(liquidTris) <= liquidTris && old(liquidType) <= liquidType
      ensures ltriangles == [] || !cells.typesLoaded ==> liquidTris == old(liquidTris)
      ensures ttriangles == [] ==> solidTris == old(solidTris)
    {
      hide TrianglesOk, SquareAt, InRange, Resolved, ResolvedUpto;
      var copy := liquidVerts;
      var loop := GetLoopVars(portion);
      var i, ltIdx, ttIdx := loop.first, 0, 0;
      ghost var n := 0;
      FirstSquare(portion);
      ResolvedNone(old(State()), portion, ltriangles, ttriangles, cells);
      while i < loop.end
        invariant n <= Squares(portion) && i == SquareAt(portion, n) && ltIdx == 6 * n && ttIdx == 12 * n
        invariant Valid() && |liquidVerts| == |copy|
        invariant State() == ResolvedUpto(old(State()), portion, 2 * n, ltriangles, ttriangles, cells)
        decreases Squares(portion) - n
      {
        SquareBound(portion, n);
        for j := 0 to 2
          invariant ltIdx == 6 * n + 3 * j && ttIdx == 12 * n + 6 * j
          invariant Valid() && |liquidVerts| == |copy|
          invariant State() == ResolvedUpto(old(State()), portion, 2 * n + j, ltriangles, ttriangles, cells)
        {
          ResolvedNext(old(State()), portion, n, j, ltriangles, ttriangles, cells);
          ResolveHalf(i, ltriangles, ltIdx, ttriangles, ttIdx, copy, cells);
          ltIdx, ttIdx := ltIdx + 3, ttIdx + 6;
        }
        i, n := i + loop.step, n + 1;
      }
      SquareBound(portion, n);
      ResolvedKeeps(old(State()), portion, 2 * Squares(portion), ltriangles, ttriangles, cells);
    }

    /**
     One half of square `i`.  Liquid is kept as one whole triangle with its area, terrain as two whole triangles;
     deep water drops both, a hole drops the terrain.
     */
    method ResolveHalf(i: nat, ltriangles: seq<int>, ltIdx: nat, ttriangles: seq<int>, ttIdx: nat, copy: seq<real>,
                       cells: Cells)
      requires Valid() && InRange(ltriangles, 0, |liquidVerts| / 3) && InRange(ttriangles, 0, |solidVerts| / 3)
      requires (ltriangles == [] || ltIdx + 3 <= |ltriangles|) && (ttriangles == [] || ttIdx + 6 <= |ttriangles|)
      requires |copy| == |liquidVerts|
      modifies this`liquidVerts, this`liquidTris, this`liquidType, this`solidTris
      ensures Valid() && |liquidVerts| == |copy|
      ensures forall h: nat | ltIdx == 3 * h && ttIdx == 6 * h ::
                State() == Resolved(old(State()), i, h, ltriangles, ttriangles, copy, cells)
    {
      hide TrianglesOk, CountKnown, Patched, Below, Bit;
      var useTerrain, useLiquid, area := true, true, 0;
      if !cells.typesLoaded || liquidVerts == [] || ltriangles == [] {
        useLiquid := false;
      } else {
        area := cells.flagAt(i);
        AreaByMask(area);
        if area & DEEP_WATER != 0 {
          useTerrain, useLiquid := false, false;
        } else if area & (WATER | OCEAN) != 0 {
          area := AREA_WATER;
        } else if area & (MAGMA | SLIME) != 0 {
          area := AREA_MAGMA_SLIME;
        } else {
          useLiquid := false;
        }
      }
      if ttriangles == [] { useTerrain := false; }
      if useLiquid && ltIdx + 2 < |ltriangles| {
        useLiquid := PatchHeights(ltriangles[ltIdx..ltIdx + 3], copy);
      }
      if useTerrain { useTerrain := !cells.hole(i); }
      if useTerrain && useLiquid {
        useLiquid := LiquidAbove(ltriangles[ltIdx..ltIdx + 3], ttriangles[ttIdx..ttIdx + 6]);
      }
      if useLiquid {
        KeepTriangles(liquidVerts, liquidTris, ltriangles, ltIdx, 3);
        liquidType := liquidType + [area];
        liquidTris := liquidTris + ltriangles[ltIdx..ltIdx + 3];
      }
      if useTerrain {
        KeepTriangles(solidVerts, solidTris, ttriangles, ttIdx, 6);
        solidTris := solidTris + ttriangles[ttIdx..ttIdx + 6];
      }
    }

    /** Missing heights of a liquid triangle become the mean of the known ones; false if none is known. */
    method PatchHeights(tri: seq<int>, copy: seq<real>) returns (some: bool)
      requires Valid() && |tri| == 3 && InRange(tri, 0, |liquidVerts| / 3) && |copy| == |liquidVerts|
      modifies this`liquidVerts
      ensures Valid() && liquidVerts == Patched(old(liquidVerts), tri, copy)
      ensures some <==> CountKnown(copy, tri) > 0
    {
      hide TrianglesOk, HeightKnown, Missing;
      VertsWhole(liquidVerts, liquidTris);
      var quadHeight, validCount := 0.0, 0;
      for idx := 0 to 3
        modifies {}
        invariant validCount == CountKnown(copy, tri[..idx]) <= idx && quadHeight == SumKnown(copy, tri[..idx])
      {
        HeightKnownIs(copy, tri[idx]);
        assert tri[..idx + 1][..idx] == tri[..idx];
        var h := copy[tri[idx] * 3 + 1];
        if h != NO_HEIGHT && h < MAX_HEIGHT {
          quadHeight, validCount := quadHeight + h, validCount + 1;
        }
      }
      assert tri[..3] == tri;
      some := validCount > 0;
      if 0 < validCount < 3 {
        quadHeight := quadHeight / (validCount as real);
        PatchCorners(tri, quadHeight);
      }
      SameSizeOk(old(liquidVerts), liquidVerts, liquidTris);
    }

    method PatchCorners(tri: seq<int>, mean: real)
      requires |tri| == 3 && InRange(tri, 0, |liquidVerts| / 3)
      modifies this`liquidVerts
      ensures liquidVerts == Filled(old(liquidVerts), tri, mean)
    {
      for idx := 0 to 3
        invariant liquidVerts == Filled(old(liquidVerts), tri[..idx], mean)
      {
        var at := tri[idx] * 3 + 1;
        assert at % 3 == 1 && at / 3 == tri[idx] && tri[..idx + 1] == tri[..idx] + [tri[idx]];
        if liquidVerts[at] == NO_HEIGHT || liquidVerts[at] > MAX_HEIGHT {
          liquidVerts := liquidVerts[at := mean];
        }
      }
      assert tri[..3] == tri;
    }

    /** The highest liquid corner against the lowest terrain corner. */
    method LiquidAbove(ltri: seq<int>, ttris: seq<int>) returns (above: bool)
      requires Valid() && |ltri| == 3 && InRange(ltri, 0, |liquidVerts| / 3) && |ttris| == 6
      requires InRange(ttris, 0, |solidVerts| / 3)
      ensures above <==> !Below(liquidVerts, ltri, solidVerts, ttris)
    {
      hide TrianglesOk, Height;
      VertsWhole(liquidVerts, liquidTris);
      VertsWhole(solidVerts, solidTris);
      var maxLiquid, minTerrain := NO_HEIGHT, MAX_HEIGHT;
      for x := 0 to 3
        invariant NO_HEIGHT <= maxLiquid && forall k | 0 <= k < x :: Height(liquidVerts, ltri[k]) <= maxLiquid
        invariant maxLiquid == NO_HEIGHT || exists k :: 0 <= k < x && Height(liquidVerts, ltri[k]) == maxLiquid
      {
        var h := liquidVerts[ltri[x] * 3 + 1];
        HeightIs(liquidVerts, ltri[x]);
        if maxLiquid < h { maxLiquid := h; }
      }
      for x := 0 to 6
        invariant minTerrain <= MAX_HEIGHT && forall k | 0 <= k < x :: minTerrain <= Height(solidVerts, ttris[k])
        invariant minTerrain == MAX_HEIGHT || exists k :: 0 <= k < x && Height(solidVerts, ttris[k]) == minTerrain
      {
        var h := solidVerts[ttris[x] * 3 + 1];
        HeightIs(solidVerts, ttris[x]);
        if minTerrain > h { minTerrain := h; }
      }
      above := !(minTerrain > maxLiquid);
      if above { assert !Below(liquidVerts, ltri, solidVerts, ttris); }
    }
  }

  ghost predicate HeightKnown(verts: seq<real>, v: int) {
    0 <= v * 3 && v * 3 + 1 < |verts| && verts[v * 3 + 1] != NO_HEIGHT && verts[v * 3 + 1] < MAX_HEIGHT
  }

  ghost function CountKnown(verts: seq<real>, tri: seq<int>): nat {
    if tri == [] then 0
    else CountKnown(verts, tri[..|tri| - 1]) + if HeightKnown(verts, tri[|tri| - 1]) then 1 else 0
  }

  ghost function SumKnown(verts: seq<real>, tri: seq<int>): real {
    if tri == [] then 0.0
    else SumKnown(verts, tri[..|tri| - 1]) + if HeightKnown(verts, tri[|tri| - 1]) then Height(verts, tri[|tri| - 1])
        else 0.0
  }

  ghost predicate Missing(h: real) { h == NO_HEIGHT || h > MAX_HEIGHT }

  /** The missing heights of the vertices in `tri` replaced by `mean`. */
  ghost function Filled(verts: seq<real>, tri: seq<int>, mean: real): (r: seq<real>)
    ensures |r| == |verts|
  {
    seq(|verts|, k requires 0 <= k < |verts| => if k % 3 == 1 && k / 3 in tri && Missing(verts[k]) then mean
        else verts[k])
  }

  /** A triangle with some heights known in `copy` gets the mean of those for the missing ones. */
  ghost function Patched(verts: seq<real>, tri: seq<int>, copy: seq<real>): (r: seq<real>)
    ensures |r| == |verts|
  {
    var known := CountKnown(copy, tri);
    if 0 < known < 3 then Filled(verts, tri, SumKnown(copy, tri) / (known as real)) else verts
  }

  ghost function Height(verts: seq<real>, v: int): real {
    if 0 <= v * 3 && v * 3 + 1 < |verts| then verts[v * 3 + 1] else 0.0
  }

  lemma HeightIs(verts: seq<real>, v: int)
    requires 0 <= v && v * 3 + 1 < |verts|
    ensures Height(verts, v) == verts[v * 3 + 1]
  {
  }

  /**
   All terrain corners lie above the missing-height mark and above all liquid corners, and those below the ceiling.
   */
  ghost predicate Below(liquidVerts: seq<real>, ltri: seq<int>, solidVerts: seq<real>, ttris: seq<int>) {
    && (forall y | 0 <= y < |ttris| :: Height(solidVerts, ttris[y]) > NO_HEIGHT)
    && (forall x | 0 <= x < |ltri| :: Height(liquidVerts, ltri[x]) < MAX_HEIGHT)
    && (forall x, y | 0 <= x < |ltri| && 0 <= y < |ttris| ::
        Height(liquidVerts, ltri[x]) < Height(solidVerts, ttris[y]))
  }

  lemma HeightKnownIs(verts: seq<real>, v: int)
    requires 0 <= v && v * 3 + 1 < |verts|
    ensures HeightKnown(verts, v) <==> verts[v * 3 + 1] != NO_HEIGHT && verts[v * 3 + 1] < MAX_HEIGHT
  {
  }

  lemma VertsWhole(verts: seq<real>, tris: seq<int>)
    requires TrianglesOk(verts, tris)
    ensures |verts| == 3 * (|verts| / 3)
  {
  }

  lemma SameSizeOk(verts: seq<real>, verts': seq<real>, tris: seq<int>)
    requires TrianglesOk(verts, tris) && |verts'| == |verts|
    ensures TrianglesOk(verts', tris)
  {
  }

  lemma KeepTriangles(verts: seq<real>, tris: seq<int>, all: seq<int>, at: nat, n: nat)
    requires TrianglesOk(verts, tris) && at + n <= |all| && n % 3 == 0 && InRange(all, 0, |verts| / 3)
    ensures TrianglesOk(verts, tris + all[at..at + n])
  {
    var more := all[at..at + n];
    forall i | 0 <= i < |more| ensures 0 <= more[i] < |verts| / 3 { assert more[i] == all[at + i]; }
    TrianglesGrow(verts, tris, [], more);
    assert verts + [] == verts;
  }

  /** Appending vertices keeps the triangles and makes room for indices counted from the old end. */
  lemma Counted(verts: seq<real>, tris: seq<int>, more: seq<real>)
    requires TrianglesOk(verts, tris) && |more| % 3 == 0
    ensures TrianglesOk(verts + more, tris) && |verts + more| / 3 == |verts| / 3 + |more| / 3
  {
    TrianglesGrow(verts, tris, more, []);
    assert tris + [] == tris;
  }

  lemma TerrainRange(portion: Spot, count: nat, tris: seq<int>)
    requires TerrainSquares(portion, count, Squares(portion), tris)
    ensures |tris| == 12 * Squares(portion) && InRange(tris, 0, count + V9 * V9 + V8 * V8)
  {
  }

  lemma LiquidRange(portion: Spot, count: nat, tris: seq<int>)
    requires LiquidSquares(portion, count, Squares(portion), tris)
    ensures |tris| == 6 * Squares(portion) && InRange(tris, 0, count + V9 * V9)
  {
  }

  lemma GridSize(l: ModelLiquid, place: (nat, nat, real) -> Point, ps: seq<Point>)
    requires GridPlaced(l, place, ps, l.tilesX + 1, 0)
    ensures |ps| == VertexAt(l.tilesY, l.tilesX + 1, 0)
  {
  }

  lemma SolidGrows(verts: seq<real>, solid: seq<int>, ps: seq<Point>, tris: seq<(nat, nat, nat)>, flip: bool)
    requires TrianglesOk(verts, solid)
    ensures var offset := |verts| / 3;
            TrianglesOk(verts + Flat(ps), solid + AllCorners(tris, flip, offset)) <==> Named(tris, offset, |ps|)
  {
    hide Flat, AllCorners, Named;
    var offset := |verts| / 3;
    var more := AllCorners(tris, flip, offset);
    CornersInRange(tris, flip, offset, |ps|);
    Offset(verts, solid, ps);
    RangeOfSum(solid, more, 0, offset + |ps|);
    Counted(verts, solid, Flat(ps));
  }

  lemma Offset(verts: seq<real>, tris: seq<int>, ps: seq<Point>)
    requires TrianglesOk(verts, tris)
    ensures |verts| == 3 * (|verts| / 3) && (|verts| + |Flat(ps)|) / 3 == |verts| / 3 + |ps| && |Flat(ps)| % 3 == 0
  {
  }
}

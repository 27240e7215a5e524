/** The tile grid and its collision query (Map::checkCollision): the box is
    turned into an inclusive range of tile indices by truncating division,
    the range is clamped to the grid, and the cells of the range are scanned
    row by row; every wall cell yields its 32x32 tile rectangle. */
module TileQuery {
  import opened Geometry

  /** Side of a square tile, in pixels. */
  const TILE_SIZE: real := 32.0

  /** Rows of cells; 1 is a wall, 0 is empty. Rows may differ in length. */
  type Grid = seq<seq<int>>

  /** Grid coordinates: column x, row y. */
  datatype Cell = Cell(x: int, y: int)

  /** The inclusive index range the query scans. */
  datatype Span = Span(left: int, top: int, right: int, bottom: int)

  /** The cell exists in its (possibly ragged) row and holds a wall. */
  predicate IsWall(g: Grid, x: int, y: int) {
    0 <= y < |g| && 0 <= x < |g[y]| && g[y][x] == 1
  }

  /** The rectangle a cell occupies in world coordinates. */
  function TileRect(c: Cell): Rect {
    Rect(c.x as real * TILE_SIZE, c.y as real * TILE_SIZE, TILE_SIZE, TILE_SIZE)
  }

  /** Row-major order: rows top to bottom, then columns left to right. */
  predicate Before(a: Cell, b: Cell) {
    a.y < b.y || (a.y == b.y && a.x < b.x)
  }

  predicate RowMajor(cells: seq<Cell>) {
    forall i, j :: 0 <= i < j < |cells| ==> Before(cells[i], cells[j])
  }

  /** The scanned range: the box's corners divided by the tile size and
      truncated, the low ends raised to 0, the high ends lowered to the last
      column of row 0 and the last row. Row 0 is read without a guard, so the
      grid must have a row. */
  function ScanRange(g: Grid, box: Rect): (s: Span)
    requires |g| > 0
    ensures 0 <= s.left && 0 <= s.top
    ensures s.right < |g[0]| && s.bottom < |g|
  {
    var left := Trunc(box.x / TILE_SIZE);
    var top := Trunc(box.y / TILE_SIZE);
    var right := Trunc(box.Right() / TILE_SIZE);
    var bottom := Trunc(box.Bottom() / TILE_SIZE);
    Span(if left < 0 then 0 else left,
         if top < 0 then 0 else top,
         if right >= |g[0]| then |g[0]| - 1 else right,
         if bottom >= |g| then |g| - 1 else bottom)
  }

  /** Wall cells of row y in columns left .. xEnd-1, left to right. */
  function RowHits(g: Grid, y: int, left: int, xEnd: int): seq<Cell>
    decreases xEnd - left
  {
    if xEnd <= left then []
    else RowHits(g, y, left, xEnd - 1) +
         (if IsWall(g, xEnd - 1, y) then [Cell(xEnd - 1, y)] else [])
  }

  /** Wall cells of rows top .. yEnd-1 and columns left .. right, row-major. */
  function SpanHits(g: Grid, left: int, right: int, top: int, yEnd: int): seq<Cell>
    decreases yEnd - top
  {
    if yEnd <= top then []
    else SpanHits(g, left, right, top, yEnd - 1) + RowHits(g, yEnd - 1, left, right + 1)
  }

  /** The cells the query reports for a box, in scan order. */
  function HitCells(g: Grid, box: Rect): seq<Cell>
    requires |g| > 0
  {
    var s := ScanRange(g, box);
    SpanHits(g, s.left, s.right, s.top, s.bottom + 1)
  }

  function TileRects(cells: seq<Cell>): (r: seq<Rect>)
    ensures |r| == |cells|
  {
    seq(|cells|, i requires 0 <= i < |cells| => TileRect(cells[i]))
  }

  /** The rectangles Map::checkCollision returns for a box. */
  function Collisions(g: Grid, box: Rect): seq<Rect>
    requires |g| > 0
  {
    TileRects(HitCells(g, box))
  }

  /** A collision query as a value: the wall rectangles reported for each
      box. */
  type Query = Rect -> seq<Rect>

  /** q reports, for every box, what the scan of grid g reports (a grid
      without rows has no defined answers: the scan reads row 0). */
  ghost predicate Answers(q: Query, g: Grid) {
    |g| > 0 ==> forall box {:trigger Collisions(g, box)} :: q(box) == Collisions(g, box)
  }

  /** The query of grid g: the scan, or nothing for a grid without rows. */
  function QueryOf(g: Grid): Query {
    (box: Rect) => if |g| > 0 then Collisions(g, box) else []
  }

  /** The query of a grid answers as its scan does. */
  lemma QueryOfAnswers(g: Grid)
    ensures Answers(QueryOf(g), g)
  {
  }

  /** The tile of cell c meets the box: it starts before the box's right
      and bottom edges (touching counts) and ends after its left and top
      edges (touching does not count). */
  predicate Meets(c: Cell, box: Rect) {
    box.x < (c.x + 1) as real * TILE_SIZE && c.x as real * TILE_SIZE <= box.Right() &&
    box.y < (c.y + 1) as real * TILE_SIZE && c.y as real * TILE_SIZE <= box.Bottom()
  }

  // ---------------------------------------------------------------------
  // The scan

  lemma {:induction false} RowHitsMember(g: Grid, y: int, left: int, xEnd: int, c: Cell)
    ensures c in RowHits(g, y, left, xEnd) <==>
              c.y == y && left <= c.x < xEnd && IsWall(g, c.x, y)
    decreases xEnd - left
  {
    if xEnd > left {
      RowHitsMember(g, y, left, xEnd - 1, c);
    }
  }

  lemma {:induction false} RowHitsOrdered(g: Grid, y: int, left: int, xEnd: int)
    ensures forall i :: 0 <= i < |RowHits(g, y, left, xEnd)| ==>
              RowHits(g, y, left, xEnd)[i].y == y && RowHits(g, y, left, xEnd)[i].x < xEnd
    ensures forall i, j :: 0 <= i < j < |RowHits(g, y, left, xEnd)| ==>
              RowHits(g, y, left, xEnd)[i].x < RowHits(g, y, left, xEnd)[j].x
    decreases xEnd - left
  {
    if xEnd > left {
      RowHitsOrdered(g, y, left, xEnd - 1);
    }
  }

  lemma {:induction false} SpanHitsMember(g: Grid, left: int, right: int, top: int, yEnd: int, c: Cell)
    ensures c in SpanHits(g, left, right, top, yEnd) <==>
              top <= c.y < yEnd && left <= c.x <= right && IsWall(g, c.x, c.y)
    decreases yEnd - top
  {
    if yEnd > top {
      SpanHitsMember(g, left, right, top, yEnd - 1, c);
      RowHitsMember(g, yEnd - 1, left, right + 1, c);
    }
  }

  lemma {:induction false} SpanHitsOrdered(g: Grid, left: int, right: int, top: int, yEnd: int)
    ensures forall i :: 0 <= i < |SpanHits(g, left, right, top, yEnd)| ==>
              SpanHits(g, left, right, top, yEnd)[i].y < yEnd
    ensures RowMajor(SpanHits(g, left, right, top, yEnd))
    decreases yEnd - top
  {
    if yEnd > top {
      SpanHitsOrdered(g, left, right, top, yEnd - 1);
      RowHitsOrdered(g, yEnd - 1, left, right + 1);
    }
  }

  /** The query reports exactly the wall cells of the clamped range, each
      once, in row-major order. Cells of any value other than 1, and cells a
      short row does not have, never appear. */
  lemma QueryReportsRangeWalls(g: Grid, box: Rect, c: Cell)
    requires |g| > 0
    ensures c in HitCells(g, box) <==>
              ScanRange(g, box).left <= c.x <= ScanRange(g, box).right &&
              ScanRange(g, box).top <= c.y <= ScanRange(g, box).bottom &&
              IsWall(g, c.x, c.y)
    ensures RowMajor(HitCells(g, box))
  {
    var s := ScanRange(g, box);
    SpanHitsMember(g, s.left, s.right, s.top, s.bottom + 1, c);
    SpanHitsOrdered(g, s.left, s.right, s.top, s.bottom + 1);
  }

  /** Row-major order leaves no room for a cell to be reported twice. */
  lemma RowMajorDistinct(cells: seq<Cell>)
    requires RowMajor(cells)
    ensures forall i, j :: 0 <= i < j < |cells| ==> cells[i] != cells[j]
  {
  }

  /** Every reported rectangle is the 32x32 tile of a wall cell, placed at
      that cell's column and row times the tile size. */
  lemma CollisionsAreWallTiles(g: Grid, box: Rect, i: int)
    requires |g| > 0 && 0 <= i < |Collisions(g, box)|
    ensures var c := HitCells(g, box)[i];
            IsWall(g, c.x, c.y) &&
            Collisions(g, box)[i] == Rect(c.x as real * 32.0, c.y as real * 32.0, 32.0, 32.0)
  {
    QueryReportsRangeWalls(g, box, HitCells(g, box)[i]);
  }

  // ---------------------------------------------------------------------
  // The geometry the range stands for

  /** For a box whose right and bottom edges are not left of or above the
      grid's origin, the query reports exactly the wall cells within the
      width of row 0 whose tiles meet the box, so a wall merely touching the
      right or bottom edge is reported. */
  lemma QueryMatchesGeometry(g: Grid, box: Rect, c: Cell)
    requires |g| > 0
    requires box.Right() >= 0.0 && box.Bottom() >= 0.0
    ensures c in HitCells(g, box) <==> IsWall(g, c.x, c.y) && c.x < |g[0]| && Meets(c, box)
  {
    QueryReportsRangeWalls(g, box, c);
    var s := ScanRange(g, box);
    var l := Trunc(box.x / TILE_SIZE);
    var t := Trunc(box.y / TILE_SIZE);
    var r := Trunc(box.Right() / TILE_SIZE);
    var b := Trunc(box.Bottom() / TILE_SIZE);
    if IsWall(g, c.x, c.y) {
      assert s.left <= c.x <==> box.x < (c.x + 1) as real * TILE_SIZE by {
        if box.x >= 0.0 {
          assert l as real <= box.x / TILE_SIZE < l as real + 1.0;
        }
      }
      assert s.top <= c.y <==> box.y < (c.y + 1) as real * TILE_SIZE by {
        if box.y >= 0.0 {
          assert t as real <= box.y / TILE_SIZE < t as real + 1.0;
        }
      }
      assert (c.x <= s.right <==> c.x < |g[0]| && c.x as real * TILE_SIZE <= box.Right()) by {
        assert r as real <= box.Right() / TILE_SIZE < r as real + 1.0;
      }
      assert (c.y <= s.bottom <==> c.y as real * TILE_SIZE <= box.Bottom()) by {
        assert b as real <= box.Bottom() / TILE_SIZE < b as real + 1.0;
      }
    }
  }

  /** A wall that only touches the box's right edge is reported. */
  lemma TouchingRightEdgeIsReported(g: Grid, box: Rect, c: Cell)
    requires |g| > 0 && box.w > 0.0 && box.Bottom() >= 0.0
    requires IsWall(g, c.x, c.y) && c.x < |g[0]| && c.x as real * TILE_SIZE == box.Right()
    requires box.y < (c.y + 1) as real * TILE_SIZE && c.y as real * TILE_SIZE <= box.Bottom()
    ensures c in HitCells(g, box)
  {
    QueryMatchesGeometry(g, box, c);
  }

  /** A box in an all-empty region gets no collisions. */
  lemma EmptyRegionHasNoCollisions(g: Grid, box: Rect)
    requires |g| > 0 && box.Right() >= 0.0 && box.Bottom() >= 0.0
    requires forall x, y :: IsWall(g, x, y) && x < |g[0]| ==> !Meets(Cell(x, y), box)
    ensures Collisions(g, box) == []
  {
    if HitCells(g, box) != [] {
      var c := HitCells(g, box)[0];
      QueryMatchesGeometry(g, box, c);
      assert false;
    }
  }

  /** Truncation toward zero: a box lying wholly left of the grid, but less
      than one tile away, still has column 0 scanned and reports its walls,
      although no tile meets it. */
  lemma TruncationReachesColumnZero(g: Grid)
    requires |g| > 0 && |g[0]| > 0 && g[0][0] == 1
    ensures Cell(0, 0) in HitCells(g, Rect(-40.0, 0.0, 30.0, 10.0))
    ensures !Meets(Cell(0, 0), Rect(-40.0, 0.0, 30.0, 10.0))
  {
    var box := Rect(-40.0, 0.0, 30.0, 10.0);
    assert Trunc(box.Right() / TILE_SIZE) == 0;
    assert Trunc(box.x / TILE_SIZE) == -1;
    QueryReportsRangeWalls(g, box, Cell(0, 0));
  }
}

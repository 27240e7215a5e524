/** class Map: the grid of the current level, its start position and its
    finish areas, with the loader that replaces them and the queries the
    entities and hosts make. */
module TileMap {
  import opened Geometry
  import opened Wrappers
  import opened TileQuery
  import opened LevelText

  /** The content of an opened level file: its text lines and the finish
      rectangles its object layer declares. */
  datatype LevelFile = LevelFile(lines: seq<string>, finishAreas: seq<Rect>)

  /** Whether the bounds strictly intersect one of the finish areas. */
  predicate InFinishArea(areas: seq<Rect>, bounds: Rect) {
    exists i :: 0 <= i < |areas| && Intersects(bounds, areas[i])
  }

  /** How far below a map's bottom edge both hosts let a fall go before
      they respawn. */
  const FALL_MARGIN: real := 200.0

  /** The y a position must pass to count as fallen off a map of grid g. */
  function DeathLine(g: Grid): real {
    |g| as real * TILE_SIZE + FALL_MARGIN
  }

  /** The start position a map has until a load assigns one. */
  const DEFAULT_START: Vec2 := Vec2(100.0, 100.0)

  class Map {
    var grid: Grid
    var startPosition: Vec2
    var finishAreas: seq<Rect>
    /** checkCollision as a value, for the specifications of its callers. */
    ghost var query: Query

    /** The query answers as the scan of the current grid. */
    ghost predicate Valid()
      reads this
    {
      Answers(query, grid)
    }

    constructor ()
      ensures grid == [] && startPosition == DEFAULT_START && finishAreas == []
      ensures Valid()
    {
      grid := [];
      startPosition := DEFAULT_START;
      finishAreas := [];
      query := QueryOf([]);
      QueryOfAnswers([]);
    }

    /** Width in pixels: that of row 0, or 0 without rows. */
    function Width(): (w: real)
      reads this
      ensures w >= 0.0
      ensures w == 0.0 <==> grid == [] || grid[0] == []
    {
      if grid == [] then 0.0 else |grid[0]| as real * TILE_SIZE
    }

    /** Height in pixels. */
    function Height(): (h: real)
      reads this
      ensures h >= 0.0
      ensures h == 0.0 <==> grid == []
    {
      |grid| as real * TILE_SIZE
    }

    function GetStartPosition(): (p: Vec2)
      reads this
      ensures p == startPosition
    {
      startPosition
    }

    /** Whether the bounds intersect one of the finish areas. */
    predicate CheckFinish(bounds: Rect)
      reads this
    {
      InFinishArea(finishAreas, bounds)
    }

    /** Replaces the level by the parse of the file. A file that could not
        be opened changes nothing; otherwise the grid is cleared and rebuilt
        line by line, and each '*' overwrites the start position. */
    method LoadFromFile(file: Option<LevelFile>) returns (ok: bool)
      requires Valid()
      modifies this
      ensures Valid()
      ensures ok == file.Some?
      ensures !ok ==> grid == old(grid) && startPosition == old(startPosition) &&
                      finishAreas == old(finishAreas)
      ensures ok ==> Level(grid, startPosition) ==
                       ParseLines(file.value.lines, |file.value.lines|, old(startPosition))
      ensures ok ==> finishAreas == file.value.finishAreas
    {
      if file.None? {
        return false;
      }
      var lines := file.value.lines;
      grid := [];
      var y := 0;
      for i := 0 to |lines|
        invariant Level(grid, startPosition) == ParseLines(lines, i, old(startPosition))
        invariant y == |grid|
      {
        var line := lines[i];
        ghost var prev := Level(grid, startPosition);
        var row := ScanLine(line, y);
        if row != [] {
          grid := grid + [row];
          y := y + 1;
        }
        assert ParseLines(lines, i + 1, old(startPosition)) ==
               Level(if |line| > 0 then prev.grid + [ParseRow(line)] else prev.grid,
                     LineStart(line, |line|, |prev.grid|, prev.start));
      }
      finishAreas := file.value.finishAreas;
      query := QueryOf(grid);
      QueryOfAnswers(grid);
      ok := true;
    }

    /** The inner loop of loadFromFile: the row one line becomes, with each
        '*' of the line moving the start position to its cell on row y. */
    method ScanLine(line: string, y: int) returns (row: seq<int>)
      modifies this
      ensures row == ParseRow(line)
      ensures startPosition == LineStart(line, |line|, y, old(startPosition))
      ensures grid == old(grid) && finishAreas == old(finishAreas) && query == old(query)
    {
      row := [];
      for x := 0 to |line|
        invariant row == ParseRow(line[..x])
        invariant startPosition == LineStart(line, x, y, old(startPosition))
        invariant grid == old(grid) && finishAreas == old(finishAreas) && query == old(query)
      {
        var c := line[x];
        if c == '#' {
          row := row + [1];
        } else if c == '*' {
          row := row + [0];
          startPosition := Vec2(x as real * TILE_SIZE, y as real * TILE_SIZE);
        } else {
          row := row + [0];
        }
      }
      assert line[..|line|] == line;
    }

    /** The wall rectangles a box collides with, scanned row by row over the
        clamped tile range. */
    method CheckCollision(bounds: Rect) returns (collisions: seq<Rect>)
      requires grid != [] && Valid()
      ensures collisions == query(bounds)
    {
      // The clamped tile range; ScanRange spells out the casts and the clamps.
      var range := ScanRange(grid, bounds);
      var leftTile, topTile, rightTile, bottomTile := range.left, range.top, range.right, range.bottom;

      collisions := [];
      ghost var cells: seq<Cell> := [];
      var y := topTile;
      while y <= bottomTile
        invariant topTile <= y && (y <= bottomTile + 1 || y == topTile)
        invariant cells == SpanHits(grid, leftTile, rightTile, topTile, y)
        invariant collisions == TileRects(cells)
      {
        ghost var rowCells;
        var rowHits;
        rowHits, rowCells := ScanRow(y, leftTile, rightTile);
        TileRectsConcat(cells, rowCells);
        collisions := collisions + rowHits;
        cells := cells + rowCells;
        y := y + 1;
      }
      assert collisions == Collisions(grid, bounds);
    }

    /** The inner loop of checkCollision: the walls of row y between the
        columns left and right, in column order. */
    method ScanRow(y: int, left: int, right: int) returns (hits: seq<Rect>, ghost cells: seq<Cell>)
      ensures cells == RowHits(grid, y, left, right + 1)
      ensures hits == TileRects(cells)
    {
      hits := [];
      cells := [];
      var x := left;
      while x <= right
        invariant left <= x && (x <= right + 1 || x == left)
        invariant cells == RowHits(grid, y, left, x)
        invariant hits == TileRects(cells)
      {
        if 0 <= y < |grid| && 0 <= x < |grid[y]| {
          if grid[y][x] == 1 {
            hits := hits + [TileRect(Cell(x, y))];
            TileRectsAppend(cells, Cell(x, y));
            cells := cells + [Cell(x, y)];
          }
        }
        assert RowHits(grid, y, left, x + 1) ==
               RowHits(grid, y, left, x) + (if IsWall(grid, x, y) then [Cell(x, y)] else []);
        x := x + 1;
      }
    }
  }

  lemma TileRectsConcat(cells: seq<Cell>, more: seq<Cell>)
    ensures TileRects(cells + more) == TileRects(cells) + TileRects(more)
  {
  }

  lemma TileRectsAppend(cells: seq<Cell>, c: Cell)
    ensures TileRects(cells + [c]) == TileRects(cells) + [TileRect(c)]
  {
  }

  /** Once a non-empty file is loaded, the map is as high as 32 times its
      number of non-empty lines and as wide as 32 times the length of the
      first non-empty line. */
  lemma LoadedDimensions(m: Map, lines: seq<string>, s: Vec2, j: nat)
    requires m.grid == ParseLines(lines, |lines|, s).grid
    requires j < |lines| && |lines[j]| > 0
    requires forall i :: 0 <= i < j ==> |lines[i]| == 0
    ensures m.Height() == NonEmptyBefore(lines, |lines|) as real * 32.0
    ensures m.Width() == |lines[j]| as real * 32.0
  {
    ParseLinesRows(lines, |lines|, s);
    NoRowsBefore(lines, j);
  }

  lemma {:induction false} NoRowsBefore(lines: seq<string>, j: nat)
    requires j <= |lines|
    requires forall i :: 0 <= i < j ==> |lines[i]| == 0
    ensures NonEmptyBefore(lines, j) == 0
  {
    if j > 0 {
      NoRowsBefore(lines, j - 1);
    }
  }
}

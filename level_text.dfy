/** The per-line parse of Map::loadFromFile for text levels: '#' is a wall,
    every other character (the spawn marker '*' included) is empty, a '*'
    moves the start position to its cell's top-left corner, and a line
    without characters adds no row. */
module LevelText {
  import opened Geometry
  import opened TileQuery

  /** What a parse produces: the grid and the start position. */
  datatype Level = Level(grid: Grid, start: Vec2)

  /** The row a line becomes: one cell per character, 1 exactly for '#'. */
  function ParseRow(line: string): (row: seq<int>)
    ensures |row| == |line|
    ensures forall i :: 0 <= i < |line| ==> (row[i] == 1 <==> line[i] == '#')
    ensures forall i :: 0 <= i < |line| ==> (row[i] == 0 <==> line[i] != '#')
  {
    seq(|line|, i requires 0 <= i < |line| => if line[i] == '#' then 1 else 0)
  }

  /** The start position after the first n characters of a line that is
      parsed as row y, starting from s. */
  function LineStart(line: string, n: nat, y: int, s: Vec2): Vec2
    requires n <= |line|
    decreases n
  {
    if n == 0 then s
    else if line[n - 1] == '*' then Vec2((n - 1) as real * TILE_SIZE, y as real * TILE_SIZE)
    else LineStart(line, n - 1, y, s)
  }

  /** The level after the first n lines, starting from start position s. */
  function ParseLines(lines: seq<string>, n: nat, s: Vec2): Level
    requires n <= |lines|
    decreases n
  {
    if n == 0 then Level([], s)
    else
      var prev := ParseLines(lines, n - 1, s);
      var line := lines[n - 1];
      Level(if |line| > 0 then prev.grid + [ParseRow(line)] else prev.grid,
            LineStart(line, |line|, |prev.grid|, prev.start))
  }

  /** How many of the first n lines have characters. */
  function NonEmptyBefore(lines: seq<string>, n: nat): (k: nat)
    requires n <= |lines|
    ensures k <= n
  {
    if n == 0 then 0 else NonEmptyBefore(lines, n - 1) + (if |lines[n - 1]| > 0 then 1 else 0)
  }

  // ---------------------------------------------------------------------

  /** A line without '*' leaves the start position as it was; otherwise the
      last '*' of the line wins, at its column and the line's row. */
  lemma {:induction false} LineStartIsLastStar(line: string, n: nat, y: int, s: Vec2, k: int)
    requires n <= |line|
    requires 0 <= k < n && line[k] == '*'
    requires forall j :: k < j < n ==> line[j] != '*'
    ensures LineStart(line, n, y, s) == Vec2(k as real * 32.0, y as real * 32.0)
    decreases n
  {
    if n - 1 != k {
      LineStartIsLastStar(line, n - 1, y, s, k);
    }
  }

  lemma {:induction false} LineWithoutStarKeepsStart(line: string, n: nat, y: int, s: Vec2)
    requires n <= |line|
    requires forall j :: 0 <= j < n ==> line[j] != '*'
    ensures LineStart(line, n, y, s) == s
    decreases n
  {
    if n > 0 {
      LineWithoutStarKeepsStart(line, n - 1, y, s);
    }
  }

  /** The grid has one row per non-empty line, in order; row i is the parse
      of the (i+1)-th non-empty line, so each row is as long as its line and
      no row is empty. */
  lemma ParseLinesRows(lines: seq<string>, n: nat, s: Vec2)
    requires n <= |lines|
    ensures |ParseLines(lines, n, s).grid| == NonEmptyBefore(lines, n)
    ensures forall i :: 0 <= i < n && |lines[i]| > 0 ==>
              NonEmptyBefore(lines, i) < |ParseLines(lines, n, s).grid| &&
              ParseLines(lines, n, s).grid[NonEmptyBefore(lines, i)] == ParseRow(lines[i])
    ensures forall r :: r in ParseLines(lines, n, s).grid ==> |r| > 0
  {
    RowCount(lines, n, s);
    NoEmptyRow(lines, n, s);
    forall i | 0 <= i < n && |lines[i]| > 0
      ensures NonEmptyBefore(lines, i) < |ParseLines(lines, n, s).grid| &&
              ParseLines(lines, n, s).grid[NonEmptyBefore(lines, i)] == ParseRow(lines[i])
    {
      RowOfLine(lines, n, s, i);
    }
  }

  lemma {:induction false} RowCount(lines: seq<string>, n: nat, s: Vec2)
    requires n <= |lines|
    ensures |ParseLines(lines, n, s).grid| == NonEmptyBefore(lines, n)
    decreases n
  {
    if n > 0 {
      RowCount(lines, n - 1, s);
    }
  }

  lemma {:induction false} NoEmptyRow(lines: seq<string>, n: nat, s: Vec2)
    requires n <= |lines|
    ensures forall r :: r in ParseLines(lines, n, s).grid ==> |r| > 0
    decreases n
  {
    if n > 0 {
      NoEmptyRow(lines, n - 1, s);
    }
  }

  lemma {:induction false} RowOfLine(lines: seq<string>, n: nat, s: Vec2, i: nat)
    requires i < n <= |lines| && |lines[i]| > 0
    ensures NonEmptyBefore(lines, i) < |ParseLines(lines, n, s).grid|
    ensures ParseLines(lines, n, s).grid[NonEmptyBefore(lines, i)] == ParseRow(lines[i])
    decreases n
  {
    RowCount(lines, n - 1, s);
    if i < n - 1 {
      RowOfLine(lines, n - 1, s, i);
    }
  }

  /** The start position is the top-left corner of the last '*' in the
      file: its column, and as its row the number of non-empty lines before
      it, since only those add rows. A later '*' overwrites an earlier one. */
  lemma {:induction false} StartIsLastStar(lines: seq<string>, n: nat, s: Vec2, j: nat, k: nat)
    requires n <= |lines| && j < n && k < |lines[j]| && lines[j][k] == '*'
    requires forall x :: k < x < |lines[j]| ==> lines[j][x] != '*'
    requires forall i, x :: j < i < n && 0 <= x < |lines[i]| ==> lines[i][x] != '*'
    ensures ParseLines(lines, n, s).start ==
              Vec2(k as real * 32.0, NonEmptyBefore(lines, j) as real * 32.0)
    decreases n
  {
    var prev := ParseLines(lines, n - 1, s);
    if n - 1 == j {
      RowCount(lines, j, s);
      LineStartIsLastStar(lines[j], |lines[j]|, |prev.grid|, prev.start, k);
    } else {
      StartIsLastStar(lines, n - 1, s, j, k);
      LineWithoutStarKeepsStart(lines[n - 1], |lines[n - 1]|, |prev.grid|, prev.start);
    }
  }

  /** A file without '*' keeps the start position it had before the load. */
  lemma {:induction false} NoStarKeepsStart(lines: seq<string>, n: nat, s: Vec2)
    requires n <= |lines|
    requires forall i, x :: 0 <= i < n && 0 <= x < |lines[i]| ==> lines[i][x] != '*'
    ensures ParseLines(lines, n, s).start == s
    decreases n
  {
    if n > 0 {
      NoStarKeepsStart(lines, n - 1, s);
      LineWithoutStarKeepsStart(lines[n - 1], |lines[n - 1]|,
                                |ParseLines(lines, n - 1, s).grid|, ParseLines(lines, n - 1, s).start);
    }
  }

  /** A line's start position is the one it was given or a cell of that line. */
  lemma {:induction false} LineStartOnLine(line: string, n: nat, y: int, s: Vec2)
    requires n <= |line|
    ensures var p := LineStart(line, n, y, s);
            p == s || (p.y == y as real * TILE_SIZE && 0.0 <= p.x < n as real * TILE_SIZE)
    decreases n
  {
    if n > 0 && line[n - 1] != '*' {
      LineStartOnLine(line, n - 1, y, s);
    }
  }

  /** The start position of a parsed level is the one it was given or the
      top-left corner of a cell in one of its rows. */
  lemma {:induction false} StartOnGrid(lines: seq<string>, n: nat, s: Vec2)
    requires n <= |lines|
    ensures var l := ParseLines(lines, n, s);
            l.start == s || (0.0 <= l.start.x && 0.0 <= l.start.y < |l.grid| as real * TILE_SIZE)
    decreases n
  {
    if n > 0 {
      var prev := ParseLines(lines, n - 1, s);
      var line := lines[n - 1];
      StartOnGrid(lines, n - 1, s);
      LineStartOnLine(line, |line|, |prev.grid|, prev.start);
    }
  }
}

/** The 4×4 board of script.js as a value: the four slides of `moveTiles`,
    the empty-cell list and tile placement of `addRandomTile`, and the end
    condition of `checkGameOver`. */
module Grid {
  import opened Lines
  import opened Optional

  /** `grid[r][c]`, row-major; 0 is an empty cell. */
  type Board = seq<seq<int>>

  datatype Direction = Up | Down | Left | Right

  datatype Cell = Cell(r: int, c: int)

  /** The two `Math.random()` results `addRandomTile` consumes: one picks the
      empty cell, the other decides between a 2 and a 4. */
  datatype Draw = Draw(cell: real, value: real)

  predicate ValidDraw(d: Draw) {
    0.0 <= d.cell < 1.0 && 0.0 <= d.value < 1.0
  }

  predicate IsBoard(g: Board) {
    |g| == SIZE && forall r :: 0 <= r < SIZE ==> |g[r]| == SIZE
  }

  /** Every cell is empty or holds a power of two at least 2. */
  predicate AllTilesBoard(g: Board)
    requires IsBoard(g)
  {
    forall r :: 0 <= r < SIZE ==> AllTiles(g[r])
  }

  /** `Array(4).fill(null).map(() => Array(4).fill(0))` */
  function EmptyBoard(): (g: Board)
    ensures IsBoard(g)
    ensures forall r, c :: 0 <= r < SIZE && 0 <= c < SIZE ==> g[r][c] == 0
  {
    seq(SIZE, _ => Zeros(SIZE))
  }

  /** Rows become columns; `Transpose(g)[c]` is column `c`. */
  function Transpose(g: Board): (t: Board)
    requires IsBoard(g)
    ensures IsBoard(t)
    ensures forall r, c :: 0 <= r < SIZE && 0 <= c < SIZE ==> t[r][c] == g[c][r]
  {
    seq(SIZE, r requires 0 <= r < SIZE => seq(SIZE, c requires 0 <= c < SIZE => g[c][r]))
  }

  /** A board whose cell (r, c) is cell (c, r) of another is its transpose. */
  lemma TransposeOf(g: Board, h: Board)
    requires IsBoard(g) && IsBoard(h)
    requires forall r, c :: 0 <= r < SIZE && 0 <= c < SIZE ==> g[r][c] == h[c][r]
    ensures g == Transpose(h)
  {
    var t := Transpose(h);
    forall r | 0 <= r < SIZE
      ensures g[r] == t[r]
    {
    }
  }

  /** The column `c`, top to bottom, as `moveTiles` gathers it with `col.push(grid[r][c])`. */
  function Column(g: Board, c: int): (col: seq<int>)
    requires IsBoard(g) && 0 <= c < SIZE
    ensures |col| == SIZE && forall r :: 0 <= r < SIZE ==> col[r] == g[r][c]
  {
    Transpose(g)[c]
  }

  /** One line through the collapse toward its start (left, up) or its end (right, down). */
  function CollapseLine(line: seq<int>, toStart: bool): (r: seq<int>)
    ensures |r| == |line|
  {
    if toStart then CollapseLeft(line) else CollapseRight(line)
  }

  function CollapseRows(g: Board, toStart: bool): (h: Board)
    requires IsBoard(g)
    ensures IsBoard(h)
  {
    seq(SIZE, r requires 0 <= r < SIZE => CollapseLine(g[r], toStart))
  }

  /** Board `g` with column `c` replaced by `col` (`grid[r][c] = col[r]` for every row). */
  function SetColumn(g: Board, c: int, col: seq<int>): (h: Board)
    requires IsBoard(g) && 0 <= c < SIZE && |col| == SIZE
    ensures IsBoard(h)
    ensures forall r, k :: 0 <= r < SIZE && 0 <= k < SIZE ==> h[r][k] == if k == c then col[r] else g[r][k]
  {
    seq(SIZE, r requires 0 <= r < SIZE => g[r][c := col[r]])
  }

  /** The board part-way through the column loop of an up or down move:
      the columns before `c` collapsed, the others as in `g`. */
  ghost function PartlySlid(g: Board, toStart: bool, c: int): (h: Board)
    requires IsBoard(g)
    ensures IsBoard(h)
  {
    seq(SIZE, r requires 0 <= r < SIZE =>
      seq(SIZE, k requires 0 <= k < SIZE =>
        if k < c then CollapseLine(Column(g, k), toStart)[r] else g[r][k]))
  }

  lemma PartlySlidStart(g: Board, toStart: bool)
    requires IsBoard(g)
    ensures PartlySlid(g, toStart, 0) == g
  {
    var h := PartlySlid(g, toStart, 0);
    forall r | 0 <= r < SIZE
      ensures h[r] == g[r]
    {
    }
  }

  /** Writing back the next collapsed column advances the loop by one column. */
  lemma PartlySlidStep(g: Board, toStart: bool, c: int)
    requires IsBoard(g) && 0 <= c < SIZE
    ensures SetColumn(PartlySlid(g, toStart, c), c, CollapseLine(Column(g, c), toStart))
         == PartlySlid(g, toStart, c + 1)
  {
    var h := SetColumn(PartlySlid(g, toStart, c), c, CollapseLine(Column(g, c), toStart));
    var n := PartlySlid(g, toStart, c + 1);
    forall r | 0 <= r < SIZE
      ensures h[r] == n[r]
    {
    }
  }

  /** The column the loop reads next is still the original one. */
  lemma PartlySlidNext(g: Board, toStart: bool, c: int)
    requires IsBoard(g) && 0 <= c < SIZE
    ensures Column(PartlySlid(g, toStart, c), c) == Column(g, c)
  {
    var h := PartlySlid(g, toStart, c);
    forall r | 0 <= r < SIZE
      ensures Column(h, c)[r] == Column(g, c)[r]
    {
    }
  }

  /** After the last column the loop has made the up or down slide. */
  lemma PartlySlidAll(g: Board, toStart: bool)
    requires IsBoard(g)
    ensures PartlySlid(g, toStart, SIZE) == Transpose(CollapseRows(Transpose(g), toStart))
  {
    var h := PartlySlid(g, toStart, SIZE);
    var lines := CollapseRows(Transpose(g), toStart);
    forall r, k | 0 <= r < SIZE && 0 <= k < SIZE
      ensures h[r][k] == lines[k][r]
    {
      assert Column(g, k) == Transpose(g)[k];
    }
    TransposeOf(h, lines);
  }

  /** The board after the line collapses of `moveTiles` in direction `d`:
      rows for left and right, columns (written back in place) for up and down. */
  function Slide(g: Board, d: Direction): (h: Board)
    requires IsBoard(g)
    ensures IsBoard(h)
  {
    match d
    case Left => CollapseRows(g, true)
    case Right => CollapseRows(g, false)
    case Up => Transpose(CollapseRows(Transpose(g), true))
    case Down => Transpose(CollapseRows(Transpose(g), false))
  }

  /** Points scored by collapsing `lines`, in order. */
  function GainOf(lines: seq<seq<int>>, toStart: bool): int {
    if lines == [] then 0
    else
      var last := lines[|lines| - 1];
      GainOf(lines[..|lines| - 1], toStart) + (if toStart then LeftGain(last) else RightGain(last))
  }

  /** One more line adds its own gain. */
  lemma GainOfSnoc(lines: seq<seq<int>>, n: nat, toStart: bool)
    requires n < |lines|
    ensures GainOf(lines[..n + 1], toStart) ==
              GainOf(lines[..n], toStart) + (if toStart then LeftGain(lines[n]) else RightGain(lines[n]))
  {
    assert lines[..n + 1][..n] == lines[..n];
  }

  /** What a move in direction `d` adds to `score`. */
  function SlideGain(g: Board, d: Direction): int
    requires IsBoard(g)
  {
    match d
    case Left => GainOf(g, true)
    case Right => GainOf(g, false)
    case Up => GainOf(Transpose(g), true)
    case Down => GainOf(Transpose(g), false)
  }

  /** Sum of all cells, row by row. */
  function BoardSum(rows: seq<seq<int>>): int {
    if rows == [] then 0 else BoardSum(rows[..|rows| - 1]) + Sum(rows[|rows| - 1])
  }

  /** Number of tiles on the board. */
  function TileCount(rows: seq<seq<int>>): int {
    if rows == [] then 0 else TileCount(rows[..|rows| - 1]) + Count(rows[|rows| - 1])
  }

  /** The end condition of `checkGameOver`: no empty cell and no two equal
      cells side by side, horizontally or vertically. */
  predicate IsStuck(g: Board)
    requires IsBoard(g)
  {
    (forall r, c :: 0 <= r < SIZE && 0 <= c < SIZE ==> g[r][c] != 0) &&
    (forall r :: 0 <= r < SIZE ==> NoEqualNeighbours(g[r])) &&
    (forall c :: 0 <= c < SIZE ==> NoEqualNeighbours(Column(g, c)))
  }

  /** The two comparisons `checkGameOver` makes at one cell: with its right
      neighbour and with the one below. */
  predicate NoMergeAt(g: Board, r: int, c: int)
    requires IsBoard(g) && 0 <= r < SIZE && 0 <= c < SIZE
  {
    (c < SIZE - 1 ==> g[r][c] != g[r][c + 1]) && (r < SIZE - 1 ==> g[r][c] != g[r + 1][c])
  }

  /** The row-and-column form of the end condition is the cell-by-cell scan. */
  lemma StuckByCells(g: Board)
    requires IsBoard(g)
    ensures IsStuck(g) <==>
              (forall r, c :: 0 <= r < SIZE && 0 <= c < SIZE ==> g[r][c] != 0) &&
              (forall r, c :: 0 <= r < SIZE && 0 <= c < SIZE ==> NoMergeAt(g, r, c))
  {
    if forall r, c :: 0 <= r < SIZE && 0 <= c < SIZE ==> NoMergeAt(g, r, c) {
      forall r | 0 <= r < SIZE
        ensures NoEqualNeighbours(g[r])
      {
        forall i | 0 <= i < SIZE - 1
          ensures g[r][i] != g[r][i + 1]
        {
          assert NoMergeAt(g, r, i);
        }
      }
      forall c | 0 <= c < SIZE
        ensures NoEqualNeighbours(Column(g, c))
      {
        var col := Column(g, c);
        forall i | 0 <= i < SIZE - 1
          ensures col[i] != col[i + 1]
        {
          assert NoMergeAt(g, i, c);
        }
      }
    }
    if IsStuck(g) {
      forall r, c | 0 <= r < SIZE && 0 <= c < SIZE
        ensures NoMergeAt(g, r, c)
      {
        if c < SIZE - 1 {
          assert NoEqualNeighbours(g[r]);
        }
        if r < SIZE - 1 {
          var col := Column(g, c);
          assert NoEqualNeighbours(col);
          assert col[r] != col[r + 1];
        }
      }
    }
  }

  // ---------------------------------------------------------------------------
  // Spawning a tile (addRandomTile)

  /** The empty cells among the first `n` cells of row `r`, left to right. */
  function RowEmptyCells(row: seq<int>, r: int, n: nat): (cells: seq<Cell>)
    requires n <= |row|
    ensures forall i :: 0 <= i < |cells| ==> cells[i].r == r && 0 <= cells[i].c < n && row[cells[i].c] == 0
  {
    if n == 0 then []
    else RowEmptyCells(row, r, n - 1) + (if row[n - 1] == 0 then [Cell(r, n - 1)] else [])
  }

  /** The empty cells of the first `n` rows, in the row-major order of `emptyCells`. */
  function EmptyCellsBefore(g: Board, n: nat): (cells: seq<Cell>)
    requires IsBoard(g) && n <= SIZE
    ensures forall i :: 0 <= i < |cells| ==>
              0 <= cells[i].r < n && 0 <= cells[i].c < SIZE && g[cells[i].r][cells[i].c] == 0
  {
    if n == 0 then [] else EmptyCellsBefore(g, n - 1) + RowEmptyCells(g[n - 1], n - 1, SIZE)
  }

  function EmptyCells(g: Board): (cells: seq<Cell>)
    requires IsBoard(g)
    ensures forall i :: 0 <= i < |cells| ==>
              0 <= cells[i].r < SIZE && 0 <= cells[i].c < SIZE && g[cells[i].r][cells[i].c] == 0
  {
    EmptyCellsBefore(g, SIZE)
  }

  /** `Math.floor(Math.random() * n)`: an index below `n`. */
  function Pick(u: real, n: nat): (i: nat)
    requires 0.0 <= u < 1.0 && n > 0
    ensures i < n
  {
    assert u * (n as real) < n as real;
    (u * (n as real)).Floor
  }

  /** `Math.random() < 0.9 ? 2 : 4` */
  function NewTileValue(v: real): (t: int)
    ensures t == 2 || t == 4
    ensures IsPowerOfTwo(t)
    ensures t == 2 <==> v < 0.9
  {
    if v < 0.9 then 2 else 4
  }

  /** The cell `addRandomTile` fills, or `None` (its `null`) when no cell is empty. */
  function SpawnCell(g: Board, draw: Draw): (cell: Option<Cell>)
    requires IsBoard(g) && ValidDraw(draw)
    ensures cell.None? <==> EmptyCells(g) == []
    ensures cell.Some? ==> cell.value in EmptyCells(g)
  {
    var empty := EmptyCells(g);
    if empty == [] then None else Some(empty[Pick(draw.cell, |empty|)])
  }

  /** The board after `addRandomTile`. */
  function Spawn(g: Board, draw: Draw): (h: Board)
    requires IsBoard(g) && ValidDraw(draw)
    ensures IsBoard(h)
  {
    match SpawnCell(g, draw)
    case None => g
    case Some(cell) => g[cell.r := g[cell.r][cell.c := NewTileValue(draw.value)]]
  }

  // ---------------------------------------------------------------------------
  // Lemmas about whole boards

  lemma TransposeTwice(g: Board)
    requires IsBoard(g)
    ensures Transpose(Transpose(g)) == g
  {
    var t := Transpose(Transpose(g));
    forall r | 0 <= r < SIZE
      ensures t[r] == g[r]
    {
    }
  }

  lemma {:induction false} BoardSumPointwise(a: seq<seq<int>>, b: seq<seq<int>>)
    requires |a| == |b|
    requires forall k :: 0 <= k < |a| ==> Sum(a[k]) == Sum(b[k])
    ensures BoardSum(a) == BoardSum(b)
  {
    if a != [] {
      BoardSumPointwise(a[..|a| - 1], b[..|b| - 1]);
    }
  }

  lemma {:induction false} TileCountPointwise(a: seq<seq<int>>, b: seq<seq<int>>)
    requires |a| == |b|
    requires forall k :: 0 <= k < |a| ==> Count(a[k]) <= Count(b[k])
    ensures TileCount(a) <= TileCount(b)
  {
    if a != [] {
      TileCountPointwise(a[..|a| - 1], b[..|b| - 1]);
    }
  }

  lemma Sum4(s: seq<int>)
    requires |s| == 4
    ensures Sum(s) == s[0] + s[1] + s[2] + s[3]
  {
    assert Sum(s[3..]) == s[3] by { assert s[3..][1..] == []; }
    assert Sum(s[2..]) == s[2] + Sum(s[3..]) by { assert s[2..][1..] == s[3..]; }
    assert Sum(s[1..]) == s[1] + Sum(s[2..]) by { assert s[1..][1..] == s[2..]; }
  }

  function Mark(v: int): int {
    if v != 0 then 1 else 0
  }

  lemma Count4(s: seq<int>)
    requires |s| == 4
    ensures Count(s) == Mark(s[0]) + Mark(s[1]) + Mark(s[2]) + Mark(s[3])
  {
    assert Count(s[3..]) == Mark(s[3]) by { assert s[3..][1..] == []; }
    assert Count(s[2..]) == Mark(s[2]) + Count(s[3..]) by { assert s[2..][1..] == s[3..]; }
    assert Count(s[1..]) == Mark(s[1]) + Count(s[2..]) by { assert s[1..][1..] == s[2..]; }
  }

  lemma Rows4(g: Board)
    requires IsBoard(g)
    ensures BoardSum(g) == Sum(g[0]) + Sum(g[1]) + Sum(g[2]) + Sum(g[3])
    ensures TileCount(g) == Count(g[0]) + Count(g[1]) + Count(g[2]) + Count(g[3])
  {
    assert g[..3][..2] == g[..2] && g[..3][2] == g[2];
    assert g[..2][..1] == g[..1] && g[..2][1] == g[1];
    assert g[..1][..0] == [] && g[..1][0] == g[0];
    assert BoardSum(g[..1]) == Sum(g[0]) && TileCount(g[..1]) == Count(g[0]);
    assert BoardSum(g[..2]) == BoardSum(g[..1]) + Sum(g[1]);
    assert TileCount(g[..2]) == TileCount(g[..1]) + Count(g[1]);
    assert BoardSum(g[..3]) == BoardSum(g[..2]) + Sum(g[2]);
    assert TileCount(g[..3]) == TileCount(g[..2]) + Count(g[2]);
    assert g[..3] == g[..|g| - 1];
  }

  /** Adding up the cells by columns gives the same total as by rows. */
  lemma TransposeKeepsTotals(g: Board)
    requires IsBoard(g)
    ensures BoardSum(Transpose(g)) == BoardSum(g)
    ensures TileCount(Transpose(g)) == TileCount(g)
  {
    var t := Transpose(g);
    Rows4(g);
    Rows4(t);
    forall r | 0 <= r < SIZE
      ensures Sum(g[r]) == g[r][0] + g[r][1] + g[r][2] + g[r][3]
      ensures Sum(t[r]) == g[0][r] + g[1][r] + g[2][r] + g[3][r]
      ensures Count(g[r]) == Mark(g[r][0]) + Mark(g[r][1]) + Mark(g[r][2]) + Mark(g[r][3])
      ensures Count(t[r]) == Mark(g[0][r]) + Mark(g[1][r]) + Mark(g[2][r]) + Mark(g[3][r])
    {
      Sum4(g[r]);
      Sum4(t[r]);
      Count4(g[r]);
      Count4(t[r]);
    }
  }

  lemma CollapseRowsSum(g: Board, toStart: bool)
    requires IsBoard(g)
    ensures BoardSum(CollapseRows(g, toStart)) == BoardSum(g)
    ensures TileCount(CollapseRows(g, toStart)) <= TileCount(g)
  {
    var h := CollapseRows(g, toStart);
    forall k | 0 <= k < SIZE
      ensures Sum(h[k]) == Sum(g[k]) && Count(h[k]) <= Count(g[k])
    {
      CollapseLeftSum(g[k]);
      CollapseRightSum(g[k]);
      CollapseLeftCount(g[k]);
      CollapseRightCount(g[k]);
    }
    BoardSumPointwise(h, g);
    TileCountPointwise(h, g);
  }

  /** A move keeps the total of the board and never adds tiles; merges only
      replace two equal tiles by one of their sum. */
  lemma SlideConserves(g: Board, d: Direction)
    requires IsBoard(g)
    ensures BoardSum(Slide(g, d)) == BoardSum(g)
    ensures TileCount(Slide(g, d)) <= TileCount(g)
  {
    match d
    case Left => CollapseRowsSum(g, true);
    case Right => CollapseRowsSum(g, false);
    case Up =>
      var t := Transpose(g);
      CollapseRowsSum(t, true);
      TransposeKeepsTotals(g);
      TransposeKeepsTotals(CollapseRows(t, true));
    case Down =>
      var t := Transpose(g);
      CollapseRowsSum(t, false);
      TransposeKeepsTotals(g);
      TransposeKeepsTotals(CollapseRows(t, false));
  }

  lemma TransposeKeepsTiles(g: Board)
    requires IsBoard(g) && AllTilesBoard(g)
    ensures AllTilesBoard(Transpose(g))
  {
    var t := Transpose(g);
    forall r, c | 0 <= r < SIZE && 0 <= c < SIZE
      ensures IsTile(t[r][c])
    {
      assert IsTile(g[c][r]);
    }
  }

  lemma CollapseRowsTiles(g: Board, toStart: bool)
    requires IsBoard(g) && AllTilesBoard(g)
    ensures AllTilesBoard(CollapseRows(g, toStart))
  {
    forall r | 0 <= r < SIZE
      ensures AllTiles(CollapseRows(g, toStart)[r])
    {
      CollapseLeftTiles(g[r]);
      CollapseRightTiles(g[r]);
    }
  }

  /** After a move every cell is still empty or a power of two at least 2. */
  lemma SlideKeepsTiles(g: Board, d: Direction)
    requires IsBoard(g) && AllTilesBoard(g)
    ensures AllTilesBoard(Slide(g, d))
  {
    match d
    case Left => CollapseRowsTiles(g, true);
    case Right => CollapseRowsTiles(g, false);
    case Up =>
      TransposeKeepsTiles(g);
      CollapseRowsTiles(Transpose(g), true);
      TransposeKeepsTiles(CollapseRows(Transpose(g), true));
    case Down =>
      TransposeKeepsTiles(g);
      CollapseRowsTiles(Transpose(g), false);
      TransposeKeepsTiles(CollapseRows(Transpose(g), false));
  }

  lemma {:induction false} GainOfNonNegative(lines: seq<seq<int>>, toStart: bool)
    requires forall k :: 0 <= k < |lines| ==> AllTiles(lines[k])
    ensures GainOf(lines, toStart) >= 0
  {
    if lines != [] {
      GainOfNonNegative(lines[..|lines| - 1], toStart);
      GainNonNegative(lines[|lines| - 1]);
    }
  }

  /** A move never lowers the score. */
  lemma SlideGainNonNegative(g: Board, d: Direction)
    requires IsBoard(g) && AllTilesBoard(g)
    ensures SlideGain(g, d) >= 0
  {
    TransposeKeepsTiles(g);
    if d == Left || d == Right {
      GainOfNonNegative(g, d == Left);
    } else {
      GainOfNonNegative(Transpose(g), d == Up);
    }
  }

  lemma {:induction false} GainOfUnchanged(lines: seq<seq<int>>, toStart: bool)
    requires forall k :: 0 <= k < |lines| ==>
               (if toStart then CollapseLeft(lines[k]) else CollapseRight(lines[k])) == lines[k]
    ensures GainOf(lines, toStart) == 0
  {
    if lines != [] {
      GainOfUnchanged(lines[..|lines| - 1], toStart);
      var last := lines[|lines| - 1];
      if toStart {
        UnchangedLeftScoresNothing(last);
      } else {
        UnchangedRightScoresNothing(last);
      }
    }
  }

  /** A move that changes no cell scores nothing, so `score` is untouched when `moved` is false. */
  lemma UnmovedScoresNothing(g: Board, d: Direction)
    requires IsBoard(g) && Slide(g, d) == g
    ensures SlideGain(g, d) == 0
  {
    match d
    case Left =>
      assert forall k :: 0 <= k < SIZE ==> CollapseRows(g, true)[k] == g[k];
      GainOfUnchanged(g, true);
    case Right =>
      assert forall k :: 0 <= k < SIZE ==> CollapseRows(g, false)[k] == g[k];
      GainOfUnchanged(g, false);
    case Up =>
      var t := Transpose(g);
      TransposeTwice(CollapseRows(t, true));
      assert CollapseRows(t, true) == t;
      assert forall k :: 0 <= k < SIZE ==> CollapseRows(t, true)[k] == t[k];
      GainOfUnchanged(t, true);
    case Down =>
      var t := Transpose(g);
      TransposeTwice(CollapseRows(t, false));
      assert CollapseRows(t, false) == t;
      assert forall k :: 0 <= k < SIZE ==> CollapseRows(t, false)[k] == t[k];
      GainOfUnchanged(t, false);
  }

  lemma StuckRowsFixed(g: Board)
    requires IsBoard(g)
    requires forall r, c :: 0 <= r < SIZE && 0 <= c < SIZE ==> g[r][c] != 0
    requires forall r :: 0 <= r < SIZE ==> NoEqualNeighbours(g[r])
    ensures CollapseRows(g, true) == g && CollapseRows(g, false) == g
  {
    forall r | 0 <= r < SIZE
      ensures CollapseLeft(g[r]) == g[r] && CollapseRight(g[r]) == g[r]
    {
      FullLineIsFixed(g[r]);
    }
  }

  /** On a board `checkGameOver` accepts, no direction changes any cell. */
  lemma StuckIsFixed(g: Board, d: Direction)
    requires IsBoard(g) && IsStuck(g)
    ensures Slide(g, d) == g
  {
    StuckRowsFixed(g);
    var t := Transpose(g);
    assert forall r :: 0 <= r < SIZE ==> t[r] == Column(g, r);
    StuckRowsFixed(t);
    TransposeTwice(g);
  }

  /** A board whose neighbours all differ is stuck; one empty cell is enough to go on. */
  lemma StuckExamples(g: Board, h: Board)
    requires g == [[2, 4, 2, 4], [4, 2, 4, 2], [2, 4, 2, 4], [4, 2, 4, 2]]
    requires h == [[2, 4, 2, 4], [4, 2, 4, 2], [2, 4, 0, 4], [4, 2, 4, 2]]
    ensures IsBoard(g) && IsStuck(g)
    ensures IsBoard(h) && !IsStuck(h)
  {
    assert h[2][2] == 0;
  }

  // ---------------------------------------------------------------------------
  // Lemmas about the empty-cell list and tile placement

  lemma {:induction false} RowEmptyCellsComplete(row: seq<int>, r: int, n: nat, c: int)
    requires n <= |row| && 0 <= c < n && row[c] == 0
    ensures Cell(r, c) in RowEmptyCells(row, r, n)
  {
    if c < n - 1 {
      RowEmptyCellsComplete(row, r, n - 1, c);
    }
  }

  lemma {:induction false} EmptyCellsBeforeComplete(g: Board, n: nat, r: int, c: int)
    requires IsBoard(g) && n <= SIZE && 0 <= r < n && 0 <= c < SIZE && g[r][c] == 0
    ensures Cell(r, c) in EmptyCellsBefore(g, n)
  {
    if r < n - 1 {
      EmptyCellsBeforeComplete(g, n - 1, r, c);
    } else {
      RowEmptyCellsComplete(g[r], r, SIZE, c);
    }
  }

  /** `emptyCells` lists every empty cell. */
  lemma EmptyCellsComplete(g: Board, r: int, c: int)
    requires IsBoard(g) && 0 <= r < SIZE && 0 <= c < SIZE && g[r][c] == 0
    ensures Cell(r, c) in EmptyCells(g)
  {
    EmptyCellsBeforeComplete(g, SIZE, r, c);
  }

  lemma {:induction false} RowEmptyCellsLength(row: seq<int>, r: int, n: nat)
    requires n <= |row|
    ensures |RowEmptyCells(row, r, n)| + Count(row[..n]) == n
  {
    if n > 0 {
      RowEmptyCellsLength(row, r, n - 1);
      assert row[..n] == row[..n - 1] + [row[n - 1]];
      NonZeroConcat(row[..n - 1], [row[n - 1]]);
    }
  }

  lemma {:induction false} EmptyCellsBeforeLength(g: Board, n: nat)
    requires IsBoard(g) && n <= SIZE
    ensures |EmptyCellsBefore(g, n)| + TileCount(g[..n]) == SIZE * n
  {
    if n > 0 {
      EmptyCellsBeforeLength(g, n - 1);
      RowEmptyCellsLength(g[n - 1], n - 1, SIZE);
      assert g[..n][..n - 1] == g[..n - 1];
      assert g[n - 1][..SIZE] == g[n - 1];
    }
  }

  /** There are as many empty cells as cells without a tile. */
  lemma EmptyCellsLength(g: Board)
    requires IsBoard(g)
    ensures |EmptyCells(g)| == SIZE * SIZE - TileCount(g)
  {
    EmptyCellsBeforeLength(g, SIZE);
    assert g[..SIZE] == g;
  }

  lemma {:induction false} CountSet(row: seq<int>, c: int, v: int)
    requires 0 <= c < |row| && row[c] == 0 && v != 0
    ensures Count(row[c := v]) == Count(row) + 1
  {
    if c > 0 {
      CountSet(row[1..], c - 1, v);
      assert row[c := v][1..] == row[1..][c - 1 := v];
    } else {
      assert row[c := v][1..] == row[1..];
    }
  }

  lemma {:induction false} TileCountSetRow(rows: seq<seq<int>>, r: int, row: seq<int>)
    requires 0 <= r < |rows|
    ensures TileCount(rows[r := row]) == TileCount(rows) - Count(rows[r]) + Count(row)
  {
    var n := |rows|;
    if r < n - 1 {
      TileCountSetRow(rows[..n - 1], r, row);
      assert rows[r := row][..n - 1] == rows[..n - 1][r := row];
    } else {
      assert rows[r := row][..n - 1] == rows[..n - 1];
    }
  }

  /** `addRandomTile` on a board with an empty cell fills exactly that cell,
      the one its draw picks from the row-major list, with a 2 or a 4; every
      other cell is kept and the board gains one tile. On a full board it
      changes nothing. */
  lemma SpawnEffect(g: Board, draw: Draw)
    requires IsBoard(g) && ValidDraw(draw)
    ensures SpawnCell(g, draw).None? <==> TileCount(g) == SIZE * SIZE
    ensures SpawnCell(g, draw).None? ==> Spawn(g, draw) == g
    ensures SpawnCell(g, draw).Some? ==>
              var cell := SpawnCell(g, draw).value;
              0 <= cell.r < SIZE && 0 <= cell.c < SIZE && g[cell.r][cell.c] == 0 &&
              Spawn(g, draw)[cell.r][cell.c] == NewTileValue(draw.value) &&
              (forall r, c :: 0 <= r < SIZE && 0 <= c < SIZE && (r, c) != (cell.r, cell.c) ==>
                 Spawn(g, draw)[r][c] == g[r][c]) &&
              TileCount(Spawn(g, draw)) == TileCount(g) + 1
  {
    EmptyCellsLength(g);
    match SpawnCell(g, draw)
    case None =>
    case Some(cell) =>
      assert cell in EmptyCells(g);
      var row := g[cell.r][cell.c := NewTileValue(draw.value)];
      CountSet(g[cell.r], cell.c, NewTileValue(draw.value));
      TileCountSetRow(g, cell.r, row);
  }

  /** A new tile keeps every cell a tile. */
  lemma SpawnKeepsTiles(g: Board, draw: Draw)
    requires IsBoard(g) && ValidDraw(draw) && AllTilesBoard(g)
    ensures AllTilesBoard(Spawn(g, draw))
  {
    SpawnEffect(g, draw);
    var h := Spawn(g, draw);
    forall r, c | 0 <= r < SIZE && 0 <= c < SIZE
      ensures IsTile(h[r][c])
    {
      assert IsTile(g[r][c]);
    }
  }

  /** Every cell is empty, a 2 or a 4: the values a new tile can take. */
  predicate SmallTilesBoard(g: Board)
    requires IsBoard(g)
  {
    forall r, c :: 0 <= r < SIZE && 0 <= c < SIZE ==> g[r][c] == 0 || g[r][c] == 2 || g[r][c] == 4
  }

  /** A new tile is a 2 or a 4, so a board of such cells stays one. */
  lemma SpawnKeepsSmallTiles(g: Board, draw: Draw)
    requires IsBoard(g) && ValidDraw(draw) && SmallTilesBoard(g)
    ensures SmallTilesBoard(Spawn(g, draw))
  {
    SpawnEffect(g, draw);
  }

  /** A board without an empty cell holds sixteen tiles, so `emptyCells` is empty. */
  lemma FullBoardHasNoEmptyCell(g: Board)
    requires IsBoard(g)
    requires forall r, c :: 0 <= r < SIZE && 0 <= c < SIZE ==> g[r][c] != 0
    ensures TileCount(g) == SIZE * SIZE
    ensures EmptyCells(g) == []
  {
    Rows4(g);
    forall r | 0 <= r < SIZE
      ensures Count(g[r]) == SIZE
    {
      Count4(g[r]);
    }
    EmptyCellsLength(g);
  }

  /** The fresh board of `initGame` holds no tile and adds up to 0. */
  lemma EmptyBoardHasNoTiles()
    ensures TileCount(EmptyBoard()) == 0 && BoardSum(EmptyBoard()) == 0
  {
    var g := EmptyBoard();
    Rows4(g);
    forall r | 0 <= r < SIZE
      ensures Count(g[r]) == 0 && Sum(g[r]) == 0
    {
      Count4(g[r]);
      Sum4(g[r]);
    }
  }
}

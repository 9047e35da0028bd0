/** The occupancy grid of a board: collision, falling, counting cells, and locking a piece into it
    (the value-level meaning of Client/TetrisBoard.cpp's CheckCollision, hard drop and LockBlock). */
module Grids {
  import opened Shapes

  type Row = seq<bool>
  type Grid = seq<Row>

  /** Where a block is: its four matrices, which of them is in use, and the board cell of its matrix corner. */
  datatype Piece = Piece(kind: ShapeType, shape: seq<Mask>, rot: int, x: int, y: int)

  ghost predicate GoodPiece(p: Piece) {
    GoodShape(p.shape) && 0 <= p.rot < ROTATION_COUNT && |p.shape[0]| == MatrixSize(p.kind)
  }

  function MaskOf(p: Piece): Mask
    requires |p.shape| == ROTATION_COUNT && 0 <= p.rot < ROTATION_COUNT
  {
    p.shape[p.rot]
  }

  predicate Clear(g: Grid, r: int, c: int) {
    0 <= r < |g| && 0 <= c < |g[r]| && !g[r][c]
  }

  /** No cell of the piece is outside the board or on a filled cell. */
  ghost predicate Free(g: Grid, p: Piece)
    requires GoodPiece(p)
  {
    forall i, j :: On(MaskOf(p), i, j) ==> Clear(g, p.y + i, p.x + j)
  }

  /** The piece covers board cell (r, c). */
  predicate Covers(p: Piece, r: int, c: int)
    requires |p.shape| == ROTATION_COUNT && 0 <= p.rot < ROTATION_COUNT
  {
    On(MaskOf(p), r - p.y, c - p.x)
  }

  function Down(p: Piece): Piece {
    p.(y := p.y + 1)
  }

  lemma FreeIsInside(g: Grid, p: Piece)
    requires GoodPiece(p) && Free(g, p)
    ensures p.y < |g|
  {
    var i, j := SomeCell(MaskOf(p), |MaskOf(p)|);
  }

  /** The lowest position reached by falling straight down while the next row is free. */
  ghost function Drop(g: Grid, p: Piece): (q: Piece)
    requires GoodPiece(p)
    ensures q == p.(y := q.y) && p.y <= q.y
    ensures Free(g, p) ==> Free(g, q) && !Free(g, Down(q))
    decreases if p.y < |g| then |g| - p.y else 0
  {
    if Free(g, Down(p)) then
      FreeIsInside(g, Down(p));
      Drop(g, Down(p))
    else p
  }

  // ----- counting filled cells -----

  function Count(s: Row): nat {
    if s == [] then 0 else Count(s[..|s| - 1]) + (if s[|s| - 1] then 1 else 0)
  }

  /** Filled cells of a row, walls (first and last column) excluded. */
  function Fill(row: Row): nat
    requires |row| >= 2
  {
    Count(row[1..|row| - 1])
  }

  lemma {:induction false} CountBounds(s: Row)
    ensures Count(s) <= |s|
    ensures Count(s) == |s| <==> forall k :: 0 <= k < |s| ==> s[k]
    ensures Count(s) == 0 <==> forall k :: 0 <= k < |s| ==> !s[k]
  {
    if s != [] {
      var t := s[..|s| - 1];
      CountBounds(t);
      assert forall k :: 0 <= k < |t| ==> s[k] == t[k];
    }
  }

  lemma {:induction false} CountSet(s: Row, i: nat)
    requires i < |s|
    ensures Count(s[i := true]) == Count(s) + (if s[i] then 0 else 1)
  {
    var t := s[..|s| - 1];
    if i == |s| - 1 {
      assert s[i := true][..|s| - 1] == t;
    } else {
      assert s[i := true][..|s| - 1] == t[i := true];
      CountSet(t, i);
    }
  }

  lemma {:induction false} CountConcat(a: Row, b: Row)
    ensures Count(a + b) == Count(a) + Count(b)
  {
    if b == [] {
      assert a + b == a;
    } else {
      CountConcat(a, b[..|b| - 1]);
      assert (a + b)[..|a + b| - 1] == a + b[..|b| - 1];
    }
  }

  lemma FillWithWalls(row: Row)
    requires |row| >= 2 && row[0] && row[|row| - 1]
    ensures Fill(row) == Count(row) - 2
  {
    var inner := row[1..|row| - 1];
    assert row == row[..1] + inner + row[|row| - 1..];
    CountConcat(row[..1] + inner, row[|row| - 1..]);
    CountConcat(row[..1], inner);
    assert Count(row[..1]) == 1;
    assert Count(row[|row| - 1..]) == 1;
  }

  predicate EmptyRow(row: Row) {
    forall c :: 0 < c < |row| - 1 ==> !row[c]
  }

  predicate FullRow(row: Row) {
    forall c :: 0 < c < |row| - 1 ==> row[c]
  }

  lemma FillMeaning(row: Row)
    requires |row| >= 2
    ensures Fill(row) <= |row| - 2
    ensures Fill(row) == 0 <==> EmptyRow(row)
    ensures Fill(row) == |row| - 2 <==> FullRow(row)
  {
    var inner := row[1..|row| - 1];
    CountBounds(inner);
    assert forall c :: 0 < c < |row| - 1 ==> row[c] == inner[c - 1];
    assert forall k :: 0 <= k < |inner| ==> inner[k] == row[k + 1];
  }

  // ----- walls and the per-row index -----

  predicate Solid(row: Row) {
    forall c :: 0 <= c < |row| ==> row[c]
  }

  /** The outline InitBoard draws: both side columns and the bottom row are filled. */
  ghost predicate Walled(g: Grid, width: nat) {
    && |g| >= 1 && width >= 2
    && (forall r :: 0 <= r < |g| ==> |g[r]| == width && g[r][0] && g[r][width - 1])
    && Solid(g[|g| - 1])
  }

  /** rowCounts agrees with the grid on every playable row. */
  ghost predicate Index(g: Grid, counts: seq<int>)
    requires forall r :: 0 <= r < |g| ==> |g[r]| >= 2
  {
    |counts| == |g| && forall r :: 0 <= r < |g| - 1 ==> counts[r] == Fill(g[r])
  }

  lemma FreeIsInterior(g: Grid, width: nat, p: Piece, i: int, j: int)
    requires Walled(g, width) && GoodPiece(p) && Free(g, p) && On(MaskOf(p), i, j)
    ensures 0 <= p.y + i < |g| - 1 && 0 < p.x + j < width - 1 && !g[p.y + i][p.x + j]
  {
    assert Clear(g, p.y + i, p.x + j);
  }

  // ----- locking a piece into the grid -----

  /** `row` with the first `k` cells of matrix row `cells`, placed at column `x`, filled in. */
  function RowLock(row: Row, cells: seq<int>, x: int, k: nat): (s: Row)
    requires k <= |cells|
    ensures |s| == |row|
  {
    if k == 0 then row else
      var s := RowLock(row, cells, x, k - 1);
      if cells[k - 1] != 0 && 0 <= x + k - 1 < |row| then s[x + k - 1 := true] else s
  }

  /** How many of the first `k` cells of that matrix row land inside a row of width `w`. */
  function RowWeight(cells: seq<int>, x: int, w: nat, k: nat): nat
    requires k <= |cells|
  {
    if k == 0 then 0 else
      RowWeight(cells, x, w, k - 1) + (if cells[k - 1] != 0 && 0 <= x + k - 1 < w then 1 else 0)
  }

  /** The grid after the first `k` matrix rows of a piece at (x, y) are locked in. */
  function GridLock(g: Grid, m: Mask, x: int, y: int, k: nat): (h: Grid)
    requires k <= |m|
    ensures |h| == |g|
    ensures forall r :: 0 <= r < |g| ==> |h[r]| == |g[r]|
  {
    if k == 0 then g else
      var h := GridLock(g, m, x, y, k - 1);
      var r := y + k - 1;
      if 0 <= r < |g| then h[r := RowLock(h[r], m[k - 1], x, |m[k - 1]|)] else h
  }

  /** The row counts after the first `k` matrix rows are locked in. */
  function CountsLock(counts: seq<int>, w: nat, m: Mask, x: int, y: int, k: nat): (d: seq<int>)
    requires k <= |m|
    ensures |d| == |counts|
  {
    if k == 0 then counts else
      var d := CountsLock(counts, w, m, x, y, k - 1);
      var r := y + k - 1;
      if 0 <= r < |counts| then d[r := d[r] + RowWeight(m[k - 1], x, w, |m[k - 1]|)] else d
  }

  function LockGrid(g: Grid, p: Piece): Grid
    requires |p.shape| == ROTATION_COUNT && 0 <= p.rot < ROTATION_COUNT
  {
    GridLock(g, MaskOf(p), p.x, p.y, |MaskOf(p)|)
  }

  function LockCounts(counts: seq<int>, w: nat, p: Piece): seq<int>
    requires |p.shape| == ROTATION_COUNT && 0 <= p.rot < ROTATION_COUNT
  {
    CountsLock(counts, w, MaskOf(p), p.x, p.y, |MaskOf(p)|)
  }

  lemma {:induction false} RowLockAt(row: Row, cells: seq<int>, x: int, k: nat, c: int)
    requires k <= |cells| && 0 <= c < |row|
    ensures RowLock(row, cells, x, k)[c] == (row[c] || (0 <= c - x < k && cells[c - x] != 0))
  {
    if k > 0 {
      RowLockAt(row, cells, x, k - 1, c);
    }
  }

  lemma {:induction false} GridLockRow(g: Grid, m: Mask, x: int, y: int, k: nat, r: int)
    requires k <= |m| && 0 <= r < |g|
    ensures GridLock(g, m, x, y, k)[r] == if y <= r < y + k then RowLock(g[r], m[r - y], x, |m[r - y]|) else g[r]
  {
    if k > 0 {
      GridLockRow(g, m, x, y, k - 1, r);
    }
  }

  lemma {:induction false} CountsLockRow(counts: seq<int>, w: nat, m: Mask, x: int, y: int, k: nat, r: int)
    requires k <= |m| && 0 <= r < |counts|
    ensures CountsLock(counts, w, m, x, y, k)[r]
         == counts[r] + if y <= r < y + k then RowWeight(m[r - y], x, w, |m[r - y]|) else 0
  {
    if k > 0 {
      CountsLockRow(counts, w, m, x, y, k - 1, r);
    }
  }

  /** LockBlock fills exactly the cells the piece covers, and leaves every other cell as it was. */
  lemma LockGridAt(g: Grid, p: Piece, r: int, c: int)
    requires GoodPiece(p) && 0 <= r < |g| && 0 <= c < |g[r]|
    ensures |LockGrid(g, p)| == |g| && |LockGrid(g, p)[r]| == |g[r]|
    ensures LockGrid(g, p)[r][c] == (g[r][c] || Covers(p, r, c))
  {
    GridLockRow(g, MaskOf(p), p.x, p.y, |MaskOf(p)|, r);
    if 0 <= r - p.y < |MaskOf(p)| {
      RowLockAt(g[r], MaskOf(p)[r - p.y], p.x, |MaskOf(p)[r - p.y]|, c);
    }
  }

  ghost predicate NoOverlap(row: Row, cells: seq<int>, x: int, k: nat)
    requires k <= |cells|
  {
    forall j :: 0 <= j < k && cells[j] != 0 && 0 <= x + j < |row| ==> !row[x + j]
  }

  /** The count added for a matrix row is right exactly when the row covers no filled cell; otherwise it is too big. */
  lemma {:induction false} RowLockCount(row: Row, cells: seq<int>, x: int, k: nat)
    requires k <= |cells|
    ensures Count(RowLock(row, cells, x, k)) <= Count(row) + RowWeight(cells, x, |row|, k)
    ensures Count(RowLock(row, cells, x, k)) == Count(row) + RowWeight(cells, x, |row|, k)
       <==> NoOverlap(row, cells, x, k)
  {
    if k > 0 {
      RowLockCount(row, cells, x, k - 1);
      NoOverlapStep(row, cells, x, k);
      var c := x + k - 1;
      if cells[k - 1] != 0 && 0 <= c < |row| {
        RowLockAt(row, cells, x, k - 1, c);
        CountSet(RowLock(row, cells, x, k - 1), c);
      }
    }
  }

  lemma {:induction false} NoOverlapStep(row: Row, cells: seq<int>, x: int, k: nat)
    requires 0 < k <= |cells|
    ensures NoOverlap(row, cells, x, k) <==>
      NoOverlap(row, cells, x, k - 1) && !(cells[k - 1] != 0 && 0 <= x + k - 1 < |row| && row[x + k - 1])
  {
  }

  lemma LockKeepsWalls(g: Grid, width: nat, p: Piece)
    requires Walled(g, width) && GoodPiece(p)
    ensures Walled(LockGrid(g, p), width)
  {
    var h := LockGrid(g, p);
    forall r | 0 <= r < |h| ensures |h[r]| == width && h[r][0] && h[r][width - 1] {
      LockGridAt(g, p, r, 0);
      LockGridAt(g, p, r, width - 1);
    }
    var floor := h[|h| - 1];
    forall c | 0 <= c < |floor| ensures floor[c] {
      LockGridAt(g, p, |g| - 1, c);
    }
  }

  lemma OverlapByRow(g: Grid, width: nat, p: Piece, r: int)
    requires GoodPiece(p) && 0 <= r < |g| && |g[r]| == width && 0 <= r - p.y < |MaskOf(p)|
    ensures var cells := MaskOf(p)[r - p.y];
      NoOverlap(g[r], cells, p.x, |cells|) <==> forall c :: 0 <= c < width && Covers(p, r, c) ==> !g[r][c]
  {
    var cells := MaskOf(p)[r - p.y];
    if forall c :: 0 <= c < width && Covers(p, r, c) ==> !g[r][c] {
      forall j | 0 <= j < |cells| && cells[j] != 0 && 0 <= p.x + j < width ensures !g[r][p.x + j] {
        assert Covers(p, r, p.x + j);
      }
    }
    if NoOverlap(g[r], cells, p.x, |cells|) {
      forall c | 0 <= c < width && Covers(p, r, c) ensures !g[r][c] {
        assert cells[c - p.x] != 0 && g[r][c] == g[r][p.x + (c - p.x)];
      }
    }
  }

  /** What LockBlock adds to one playable row and to its count. */
  lemma LockRowCount(g: Grid, width: nat, counts: seq<int>, p: Piece, r: int)
    requires Walled(g, width) && GoodPiece(p) && Index(g, counts) && 0 <= r < |g| - 1
    ensures |LockGrid(g, p)| == |g| && |LockCounts(counts, width, p)| == |g| && |LockGrid(g, p)[r]| == width
    ensures LockCounts(counts, width, p)[r] == Fill(LockGrid(g, p)[r])
       <==> forall c :: 0 <= c < width && Covers(p, r, c) ==> !g[r][c]
  {
    var m := MaskOf(p);
    var h := LockGrid(g, p);
    LockKeepsWalls(g, width, p);
    GridLockRow(g, m, p.x, p.y, |m|, r);
    CountsLockRow(counts, width, m, p.x, p.y, |m|, r);
    FillWithWalls(g[r]);
    FillWithWalls(h[r]);
    if 0 <= r - p.y < |m| {
      RowLockCount(g[r], m[r - p.y], p.x, |m[r - p.y]|);
      OverlapByRow(g, width, p, r);
    } else {
      assert forall c :: !Covers(p, r, c);
    }
  }

  /** LockBlock keeps rowCounts in step with the grid if and only if the block covers no filled playable cell. */
  lemma LockKeepsIndexIff(g: Grid, width: nat, counts: seq<int>, p: Piece)
    requires Walled(g, width) && GoodPiece(p) && Index(g, counts)
    ensures Walled(LockGrid(g, p), width)
    ensures Index(LockGrid(g, p), LockCounts(counts, width, p))
       <==> forall r, c :: 0 <= r < |g| - 1 && 0 <= c < width && Covers(p, r, c) ==> !g[r][c]
  {
    LockKeepsWalls(g, width, p);
    forall r | 0 <= r < |g| - 1
      ensures LockCounts(counts, width, p)[r] == Fill(LockGrid(g, p)[r])
         <==> forall c :: 0 <= c < width && Covers(p, r, c) ==> !g[r][c]
    {
      LockRowCount(g, width, counts, p, r);
    }
  }
}

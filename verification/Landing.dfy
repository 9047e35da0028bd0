/** What one lock and one clearing pass do to the whole stack (Client/TetrisBoard.cpp, LockBlock, CheckLines). */
module Landing {
  import opened Common
  import opened Shapes
  import opened Grids
  import opened Lines

  // ----- falling -----

  /** From any position on the fall path of a free piece the fall ends in the same place. */
  lemma {:induction false} DropFromPath(g: Grid, p: Piece, y: int)
    requires GoodPiece(p) && Free(g, p) && p.y <= y <= Drop(g, p).y
    ensures GoodPiece(p.(y := y)) && Free(g, p.(y := y))
    ensures Drop(g, p.(y := y)) == Drop(g, p)
    decreases y - p.y
  {
    if y > p.y {
      assert Free(g, Down(p));
      DropFromPath(g, Down(p), y);
      assert Down(p).(y := y) == p.(y := y);
    } else {
      assert p.(y := y) == p;
    }
  }

  // ----- locking -----

  /** Number of lines whose count is `full`. */
  function FullLines(ls: seq<Line>, full: int): nat {
    if ls == [] then 0 else FullLines(ls[..|ls| - 1], full) + (if ls[|ls| - 1].1 == full then 1 else 0)
  }

  lemma {:induction false} SumUpdate(ls: seq<Line>, r: nat, l: Line, full: int)
    requires r < |ls|
    ensures Sum(ls[r := l]) == Sum(ls) - ls[r].1 + l.1
    ensures FullLines(ls[r := l], full) <= FullLines(ls, full) + 1
  {
    var t := ls[..|ls| - 1];
    if r == |ls| - 1 {
      assert ls[r := l][..|ls| - 1] == t;
    } else {
      assert ls[r := l][..|ls| - 1] == t[r := l];
      SumUpdate(t, r, l, full);
    }
  }

  lemma {:induction false} WeightIsCells(g: Grid, width: nat, p: Piece, i: nat, k: nat)
    requires Walled(g, width) && GoodPiece(p) && Free(g, p)
    requires i < |MaskOf(p)| && k <= |MaskOf(p)[i]|
    ensures RowWeight(MaskOf(p)[i], p.x, width, k) == RowCells(MaskOf(p)[i], k)
    ensures RowCells(MaskOf(p)[i], k) > 0 ==> 0 <= p.y + i < |g| - 1
  {
    if k > 0 {
      WeightIsCells(g, width, p, i, k - 1);
      if MaskOf(p)[i][k - 1] != 0 {
        FreeIsInterior(g, width, p, i, k - 1);
      }
    }
  }

  lemma {:induction false} UnusedRowLock(row: Row, cells: seq<int>, x: int, k: nat)
    requires k <= |cells| && RowCells(cells, k) == 0
    ensures RowLock(row, cells, x, k) == row
  {
    if k > 0 {
      UnusedRowLock(row, cells, x, k - 1);
    }
  }

  /** Locking the first `k` matrix rows of a free piece adds their cells to the stack, and fills at most that many
      rows. */
  lemma {:induction false} LockLines(g: Grid, width: nat, counts: seq<int>, p: Piece, k: nat)
    requires Walled(g, width) && GoodPiece(p) && Free(g, p) && |counts| == |g| && k <= |MaskOf(p)|
    ensures var m := MaskOf(p);
      var ls := LinesOf(GridLock(g, m, p.x, p.y, k), CountsLock(counts, width, m, p.x, p.y, k));
      && Sum(ls) == Sum(LinesOf(g, counts)) + MaskCells(m, k)
      && FullLines(ls, width - 2) <= FullLines(LinesOf(g, counts), width - 2) + MaskCells(m, k)
  {
    hide Walled, GoodMask, Free;
    if k > 0 {
      LockLines(g, width, counts, p, k - 1);
      LockLinesStep(g, width, counts, p, k);
    }
  }

  lemma LockLinesStep(g: Grid, width: nat, counts: seq<int>, p: Piece, k: nat)
    requires Walled(g, width) && GoodPiece(p) && Free(g, p) && |counts| == |g| && 0 < k <= |MaskOf(p)|
    ensures var m := MaskOf(p);
      var before := LinesOf(GridLock(g, m, p.x, p.y, k - 1), CountsLock(counts, width, m, p.x, p.y, k - 1));
      var after := LinesOf(GridLock(g, m, p.x, p.y, k), CountsLock(counts, width, m, p.x, p.y, k));
      var n := RowCells(m[k - 1], |m[k - 1]|);
      && Sum(after) == Sum(before) + n
      && FullLines(after, width - 2) <= FullLines(before, width - 2) + n
  {
    hide GoodMask, Free, FullLines, Sum;
    var m := MaskOf(p);
    var cells := m[k - 1];
    var h, d := GridLock(g, m, p.x, p.y, k - 1), CountsLock(counts, width, m, p.x, p.y, k - 1);
    var h', d' := GridLock(g, m, p.x, p.y, k), CountsLock(counts, width, m, p.x, p.y, k);
    var r := p.y + k - 1;
    WeightIsCells(g, width, p, k - 1, |cells|);
    if RowCells(cells, |cells|) == 0 {
      if 0 <= r < |g| {
        UnusedRowLock(h[r], cells, p.x, |cells|);
      }
      assert LinesOf(h', d') == LinesOf(h, d);
    } else {
      var l := (h'[r], d'[r]);
      assert LinesOf(h', d') == LinesOf(h, d)[r := l];
      SumUpdate(LinesOf(h, d), r, l, width - 2);
    }
  }

  /** The cell that stops the fall: a cell of the piece with the floor or a filled cell right below it. */
  lemma Support(g: Grid, width: nat, p: Piece) returns (i: int, j: int)
    requires Walled(g, width) && GoodPiece(p) && Free(g, p) && !Free(g, Down(p))
    ensures On(MaskOf(p), i, j)
    ensures 0 <= p.y + i < |g| - 1 && 0 < p.x + j < width - 1
    ensures p.y + i + 1 == |g| - 1 || !EmptyRow(g[p.y + i + 1])
  {
    i, j :| On(MaskOf(Down(p)), i, j) && !Clear(g, p.y + 1 + i, p.x + j);
    FreeIsInterior(g, width, p, i, j);
    if p.y + i + 1 < |g| - 1 {
      assert g[p.y + i + 1][p.x + j];
    }
  }

  lemma LockedRowUsed(g: Grid, width: nat, p: Piece, i: int)
    requires Walled(g, width) && GoodPiece(p) && Free(g, p) && RowUsed(MaskOf(p), i)
    ensures 0 <= p.y + i < |g| - 1 && |LockGrid(g, p)| == |g| && !EmptyRow(LockGrid(g, p)[p.y + i])
  {
    var j := SomeCellInRow(MaskOf(p)[i], |MaskOf(p)[i]|);
    FreeIsInterior(g, width, p, i, j);
    LockGridAt(g, p, p.y + i, p.x + j);
  }

  /** A row that is still empty after the lock was empty before, and the piece has no cell in it. */
  lemma EmptyAfterLock(g: Grid, width: nat, p: Piece, r: int)
    requires Walled(g, width) && GoodPiece(p) && Free(g, p) && 0 <= r < |g| - 1
    requires |LockGrid(g, p)| == |g| && EmptyRow(LockGrid(g, p)[r])
    ensures EmptyRow(g[r]) && !RowUsed(MaskOf(p), r - p.y)
  {
    forall c | 0 < c < width - 1 ensures !g[r][c] {
      LockGridAt(g, p, r, c);
    }
    if RowUsed(MaskOf(p), r - p.y) {
      LockedRowUsed(g, width, p, r - p.y);
    }
  }

  /** A block locks only where one step lower collides, so locking leaves no empty row beneath a non-empty one. */
  lemma LockKeepsSettled(g: Grid, width: nat, p: Piece)
    requires Walled(g, width) && GoodPiece(p) && Free(g, p) && !Free(g, Down(p)) && Settled(g)
    ensures Settled(LockGrid(g, p))
  {
    LockKeepsWalls(g, width, p);
    var h := LockGrid(g, p);
    var m := MaskOf(p);
    LockGridAt(g, p, 0, 0);
    var i, j := Support(g, width, p);
    UsedByCell(m, i, j);
    forall r, q | 0 <= r < q < |h| - 1 && EmptyRow(h[q]) ensures EmptyRow(h[r]) {
      EmptyAfterLock(g, width, p, q);
      EmptyAbove(g, width, p, i, q, r);
    }
  }

  lemma EmptyAbove(g: Grid, width: nat, p: Piece, i: int, q: int, r: int)
    requires Walled(g, width) && GoodPiece(p) && Settled(g)
    requires RowUsed(MaskOf(p), i) && 0 <= p.y + i < |g| - 1
    requires p.y + i + 1 == |g| - 1 || !EmptyRow(g[p.y + i + 1])
    requires 0 <= r < q < |g| - 1 && EmptyRow(g[q]) && !RowUsed(MaskOf(p), q - p.y)
    ensures |LockGrid(g, p)| == |g| && EmptyRow(LockGrid(g, p)[r])
  {
    var m := MaskOf(p);
    LockKeepsWalls(g, width, p);
    LockGridAt(g, p, 0, 0);
    assert q < p.y + i + 1;
    assert q - p.y < i;
    assert !RowUsed(m, r - p.y);
    assert EmptyRow(g[r]);
    forall c | 0 < c < width - 1 ensures !LockGrid(g, p)[r][c] {
      LockGridAt(g, p, r, c);
      if Covers(p, r, c) {
        UsedByCell(m, r - p.y, c - p.x);
      }
    }
  }

  // ----- clearing -----

  lemma NoLines(full: int)
    ensures Filter([], NotFull(full)) == [] && FullLines([], full) == 0 && Sum([]) == 0
  {
  }

  lemma {:induction false} FilterTotals(ls: seq<Line>, full: int)
    ensures |Filter(ls, NotFull(full))| + FullLines(ls, full) == |ls|
    ensures Sum(Filter(ls, NotFull(full))) + full * FullLines(ls, full) == Sum(ls)
  {
    hide Filter, Sum, FullLines;
    if ls == [] {
      NoLines(full);
    } else {
      FilterTotals(ls[..|ls| - 1], full);
      FilterTotalsStep(ls[..|ls| - 1], ls[|ls| - 1], full);
      assert ls == ls[..|ls| - 1] + [ls[|ls| - 1]];
    }
  }

  lemma FilterTotalsStep(t: seq<Line>, last: Line, full: int)
    ensures FullLines(t + [last], full) == FullLines(t, full) + (if last.1 == full then 1 else 0)
    ensures Sum(t + [last]) == Sum(t) + last.1
    ensures |Filter(t + [last], NotFull(full))| == |Filter(t, NotFull(full))| + (if last.1 == full then 0 else 1)
    ensures Sum(Filter(t + [last], NotFull(full)))
         == Sum(Filter(t, NotFull(full))) + (if last.1 == full then 0 else last.1)
  {
    var kept := Filter(t, NotFull(full));
    assert (t + [last])[..|t|] == t;
    assert Filter(t + [last], NotFull(full)) == kept + (if last.1 == full then [] else [last]);
    assert (kept + [last])[..|kept|] == kept;
    assert kept + [] == kept;
  }

  lemma {:induction false} SumPadded(n: nat, z: Line, kept: seq<Line>)
    requires z.1 == 0
    ensures Sum(Repeat(z, n) + kept) == Sum(kept)
  {
    if kept == [] {
      assert Repeat(z, n) + kept == Repeat(z, n);
      if n > 0 {
        assert Repeat(z, n)[..n - 1] == Repeat(z, n - 1) + kept;
        SumPadded(n - 1, z, kept);
      }
    } else {
      var s := Repeat(z, n) + kept;
      assert s[..|s| - 1] == Repeat(z, n) + kept[..|kept| - 1];
      SumPadded(n, z, kept[..|kept| - 1]);
    }
  }

  /** No playable row is full. */
  ghost predicate NoFullRow(g: Grid) {
    forall r :: 0 <= r < |g| - 1 ==> !FullRow(g[r])
  }

  /** A line that was kept is one of the old lines, and not full. */
  lemma KeptLine(g: Grid, width: nat, counts: seq<int>, i: nat)
    requires width >= 3 && |g| >= 2 && Walled(g, width) && Index(g, counts)
    requires i < |Filter(LinesOf(g, counts), NotFull(width - 2))|
    ensures var l := Filter(LinesOf(g, counts), NotFull(width - 2))[i];
      |l.0| == width && l.1 == Fill(l.0) && l.1 != width - 2
  {
    hide Filter, Fill, Solid;
    var ls, f := LinesOf(g, counts), NotFull(width - 2);
    FilterMember(ls, f, i);
    assert f(Filter(ls, f)[i]);
  }

  /** A line of the stack after CheckLines is blank or one of the old lines that was not full. */
  lemma LineOrigin(g: Grid, width: nat, counts: seq<int>, r: int)
    requires width >= 3 && |g| >= 2 && Walled(g, width) && Index(g, counts) && Settled(g) && 0 <= r < |g| - 1
    ensures var (h, d) := CheckedLines(g, counts, width);
      |h| == |g| && |d| == |g| && |h[r]| == width && d[r] == Fill(h[r]) && d[r] != width - 2
  {
    hide Filter, Fill, Solid, Settled, CheckedLines, EmptyRow, NotFull;
    CheckLinesDeletesFullRows(g, width, counts);
    var (h, d) := CheckedLines(g, counts, width);
    var kept := Filter(LinesOf(g, counts), NotFull(width - 2));
    var n := |g| - 1 - |kept|;
    assert LinesOf(h, d)[r] == (h[r], d[r]);
    if r < n {
      BlankIsCleared(Blank(width));
    } else {
      KeptLine(g, width, counts, r - n);
    }
  }

  /** CheckLines keeps the index right and the stack settled, leaves no full row, and removes width - 2 cells for
      every row that was full. */
  lemma CheckLinesKeeps(g: Grid, width: nat, counts: seq<int>)
    requires width >= 3 && |g| >= 2 && Walled(g, width) && Index(g, counts) && Settled(g)
    ensures var (h, d) := CheckedLines(g, counts, width);
      var n := FullLines(LinesOf(g, counts), width - 2);
      && Walled(h, width) && |h| == |g| && Index(h, d) && Settled(h) && NoFullRow(h)
      && Sum(LinesOf(h, d)) == Sum(LinesOf(g, counts)) - (width - 2) * n
  {
    CheckLinesDeletesFullRows(g, width, counts);
    var (h, d) := CheckedLines(g, counts, width);
    forall r | 0 <= r < |g| - 1 ensures d[r] == Fill(h[r]) && !FullRow(h[r]) {
      LineOrigin(g, width, counts, r);
      FillMeaning(h[r]);
    }
    var ls := LinesOf(g, counts);
    var kept := Filter(ls, NotFull(width - 2));
    FilterTotals(ls, width - 2);
    SumPadded(|g| - 1 - |kept|, (Blank(width), 0), kept);
    CheckLinesSettled(g, width, counts, h, d);
  }

  lemma CheckLinesSettled(g: Grid, width: nat, counts: seq<int>, h: Grid, d: seq<int>)
    requires width >= 3 && |g| >= 2 && Walled(g, width) && Index(g, counts) && Settled(g)
    requires Walled(h, width) && |h| == |d| == |g| && Index(h, d)
    requires var kept := Filter(LinesOf(g, counts), NotFull(width - 2));
      |kept| <= |g| - 1 && LinesOf(h, d) == Repeat((Blank(width), 0), |g| - 1 - |kept|) + kept
    ensures Settled(h)
  {
    hide Walled, Index, Settled, EmptyRow, Filter, ClearFullGrid, ClearFullCounts, PackedAt;
    ClearedFacts(g, width, counts);
    ClearedFacts(h, width, d);
    var k := SettledIsPacked(g, counts);
    KeptIsPacked(g, width, counts, k);
    var kept := Filter(LinesOf(g, counts), NotFull(width - 2));
    var used := Filter(kept, Used());
    var a := |g| - 1 - |kept| + k;
    forall i | 0 <= i < |used| ensures used[i].1 != 0 {
      FilterMember(kept, Used(), i);
      assert Used()(used[i]);
    }
    forall r | 0 <= r < |g| - 1 ensures d[r] == 0 <==> r < a {
      assert LinesOf(h, d)[r] == (h[r], d[r]);
      if r >= a {
        assert LinesOf(h, d)[r] == used[r - a];
      }
    }
    EmptyOnTop(h, d, a);
  }

  lemma EmptyOnTop(h: Grid, d: seq<int>, a: int)
    requires |h| >= 1 && ZeroExact(h, d) && forall r :: 0 <= r < |h| - 1 ==> (d[r] == 0 <==> r < a)
    ensures Settled(h)
  {
    hide EmptyRow;
  }
}

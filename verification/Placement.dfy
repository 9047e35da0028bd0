/** The AI's search for a landing place (Client/TetrisBoardAI.cpp, FindBestPlacement to SimulateHardDrop). */
module Placement {
  import opened Shapes
  import opened Grids
  import opened Landing
  import opened Rotation
  import opened Blocks
  import opened Boards

  const INT_MIN := -0x8000_0000
  const INT_MAX := 0x7fff_ffff

  /** Column `c` exists in every row. */
  ghost predicate Wide(g: Grid, c: int) {
    0 <= c && forall k :: 0 <= k < |g| ==> |g[k]| > c
  }

  predicate Within(lo: int, r: int, hi: int) {
    lo <= r < hi
  }

  ghost function Interval(lo: int, hi: int): set<int> {
    set r | lo <= r < hi && Within(lo, r, hi)
  }

  // ----- what a placement is worth, declared by sets of rows -----

  /** Full rows among rows 1 to |g| - 2, those before row `hi`. */
  ghost function FullSet(g: Grid, hi: int): set<int>
    requires hi <= |g| - 1
  {
    set r | 1 <= r < hi && FullRow(g[r])
  }

  ghost predicate FilledAbove(g: Grid, r: int, c: int)
    requires r <= |g| && Wide(g, c)
  {
    exists q :: 1 <= q < r && g[q][c]
  }

  /** Empty cells of column `c` with a filled cell somewhere above them, rows 1 to |g| - 2, before row `hi`. */
  ghost function HoleSet(g: Grid, c: int, hi: int): set<int>
    requires hi <= |g| - 1 && Wide(g, c)
  {
    set r | 1 <= r < hi && !g[r][c] && FilledAbove(g, r, c)
  }

  ghost function FilledSet(g: Grid, c: int): set<int>
    requires |g| >= 1 && Wide(g, c)
  {
    set r | 1 <= r < |g| - 1 && g[r][c]
  }

  /** `h` is the height of column `c`: measured from the topmost filled cell of rows 1 to |g| - 2, 0 without one. */
  ghost predicate IsHeight(g: Grid, c: int, h: int)
    requires |g| >= 1 && Wide(g, c)
  {
    if FilledAbove(g, |g| - 1, c) then
      1 <= |g| - h < |g| - 1 && g[|g| - h][c] && !FilledAbove(g, |g| - h, c)
    else h == 0
  }

  ghost function Height(g: Grid, c: int): (h: int)
    requires |g| >= 2 && Wide(g, c)
    ensures IsHeight(g, c, h)
  {
    HeightExists(g, c, 1);
    var h :| IsHeight(g, c, h);
    h
  }

  lemma {:induction false} HeightExists(g: Grid, c: int, r: int)
    requires |g| >= 2 && Wide(g, c)
    requires 1 <= r <= |g| - 1 && !FilledAbove(g, r, c)
    ensures exists h :: IsHeight(g, c, h)
    decreases |g| - r
  {
    if r == |g| - 1 {
      assert IsHeight(g, c, 0);
    } else if g[r][c] {
      assert FilledAbove(g, |g| - 1, c);
      assert IsHeight(g, c, |g| - r);
    } else {
      HeightExists(g, c, r + 1);
    }
  }

  lemma HeightUnique(g: Grid, c: int, h: int)
    requires |g| >= 2 && Wide(g, c)
    requires IsHeight(g, c, h)
    ensures Height(g, c) == h
  {
    var k := Height(g, c);
    if FilledAbove(g, |g| - 1, c) {
      assert g[|g| - k][c] && g[|g| - h][c];
    }
  }

  lemma {:induction false} IntervalSize(lo: int, hi: int)
    requires lo <= hi
    ensures |Interval(lo, hi)| == hi - lo
    decreases hi - lo
  {
    if lo < hi {
      IntervalSize(lo, hi - 1);
      assert Within(lo, hi - 1, hi);
      assert forall r :: Within(lo, r, hi - 1) ==> Within(lo, r, hi);
      assert Interval(lo, hi) == Interval(lo, hi - 1) + {hi - 1};
    } else {
      assert Interval(lo, hi) == {};
    }
  }

  /** In every column the filled cells and the holes together make up everything below the top: height - 1 cells. */
  lemma FilledAndHoles(g: Grid, c: int)
    requires |g| >= 2 && Wide(g, c)
    ensures |FilledSet(g, c)| + |HoleSet(g, c, |g| - 1)|
         == if Height(g, c) >= 1 then Height(g, c) - 1 else 0
  {
    var h := Height(g, c);
    var filled, holes := FilledSet(g, c), HoleSet(g, c, |g| - 1);
    assert filled !! holes;
    assert |filled + holes| == |filled| + |holes|;
    if FilledAbove(g, |g| - 1, c) {
      var top := |g| - h;
      forall r | 1 <= r < |g| - 1 ensures (r in filled + holes) <==> Within(top, r, |g| - 1) {
        if r < top {
          assert !g[r][c] && !FilledAbove(g, r, c);
        } else if r > top {
          assert FilledAbove(g, r, c);
        }
      }
      assert filled + holes == Interval(top, |g| - 1);
      IntervalSize(top, |g| - 1);
    } else {
      assert filled + holes == {};
    }
  }

  /** Holes of the columns 1 to `c` - 1. */
  ghost function Holes(g: Grid, c: int): nat
    requires |g| >= 2 && 1 <= c && Wide(g, c - 1)
  {
    if c == 1 then 0 else Holes(g, c - 1) + |HoleSet(g, c - 1, |g| - 1)|
  }

  function Abs(v: int): int {
    if v < 0 then -v else v
  }

  /** Height differences of neighbouring columns, the pairs starting at columns 1 to `c` - 1. */
  ghost function Bumps(g: Grid, c: int): int
    requires |g| >= 2 && 1 <= c && Wide(g, c)
  {
    if c == 1 then 0 else Bumps(g, c - 1) + Abs(Height(g, c - 1) - Height(g, c))
  }

  /** Sum of the heights of columns 1 to `c` - 1. */
  ghost function Heights(g: Grid, c: int): int
    requires |g| >= 2 && 1 <= c && Wide(g, c)
  {
    if c == 1 then 0 else Heights(g, c - 1) + Height(g, c - 1)
  }

  /** The weighted score of a grid and a landing row. The last interior column counts neither in the sum of heights nor
      as the start of a pair. */
  ghost function Score(g: Grid, width: nat, y: int): int
    requires |g| >= 2 && width >= 3 && forall k :: 0 <= k < |g| ==> |g[k]| == width
  {
    1000 * |FullSet(g, |g| - 1)| - 50 * Holes(g, width - 1) - 3 * Bumps(g, width - 2) - 2 * Heights(g, width - 2) + y
  }

  // ----- bounds -----

  lemma MulStep(a: int, b: int)
    ensures a * b == (a - 1) * b + b
  {
  }

  lemma HoleBound(g: Grid, c: int)
    requires |g| >= 2 && Wide(g, c)
    ensures 0 <= Height(g, c) < |g| && |HoleSet(g, c, |g| - 1)| < |g|
  {
    FilledAndHoles(g, c);
  }

  lemma {:induction false} HolesBound(g: Grid, c: int)
    requires |g| >= 2 && 1 <= c && Wide(g, c - 1)
    ensures 0 <= Holes(g, c) <= (c - 1) * |g|
  {
    if c > 1 {
      MulStep(c - 1, |g|);
      HolesBound(g, c - 1);
      HoleBound(g, c - 1);
    }
  }

  lemma {:induction false} HeightsBound(g: Grid, c: int)
    requires |g| >= 2 && 1 <= c && Wide(g, c)
    ensures 0 <= Bumps(g, c) <= (c - 1) * |g|
    ensures 0 <= Heights(g, c) <= (c - 1) * |g|
  {
    if c > 1 {
      MulStep(c - 1, |g|);
      HeightsBound(g, c - 1);
      HoleBound(g, c - 1);
      HoleBound(g, c);
    }
  }

  lemma FullBound(g: Grid)
    requires |g| >= 2
    ensures |FullSet(g, |g| - 1)| <= |g| - 2
  {
    IntervalSize(1, |g| - 1);
    forall r | 1 <= r < |g| - 1 && FullRow(g[r]) ensures r in Interval(1, |g| - 1) {
      assert Within(1, r, |g| - 1);
    }
    SubsetSize(FullSet(g, |g| - 1), Interval(1, |g| - 1));
  }

  lemma SubsetSize(a: set<int>, b: set<int>)
    requires a <= b
    ensures |a| <= |b|
  {
    assert b == a + (b - a);
  }

  /** Board sizes for which no partial sum of the score leaves a 32-bit int; the 12 by 24 boards of the game are far
      inside. */
  predicate ScoreFits(width: nat, height: nat) {
    1001 * height + 55 * (width * height) < INT_MAX
  }

  /** With such a size every weighted term, and every sum of some of them, is strictly inside the 32-bit range. */
  lemma ScoreIsInt32(g: Grid, width: nat, y: int)
    requires |g| >= 2 && width >= 3 && forall k :: 0 <= k < |g| ==> |g[k]| == width
    requires ScoreFits(width, |g|) && -|g| <= y <= |g|
    ensures var full := 1000 * |FullSet(g, |g| - 1)|;
      var lost := 50 * Holes(g, width - 1) + 3 * Bumps(g, width - 2) + 2 * Heights(g, width - 2);
      0 <= full && 0 <= lost && full + |g| < INT_MAX && -lost - |g| > INT_MIN
    ensures INT_MIN < Score(g, width, y) < INT_MAX
  {
    hide FullSet, Holes, Bumps, Heights;
    FullBound(g);
    HolesBound(g, width - 1);
    HeightsBound(g, width - 2);
    MulStep(width, |g|);
    MulStep(width - 1, |g|);
    MulStep(width - 2, |g|);
    WeighedBound(|FullSet(g, |g| - 1)|, Holes(g, width - 1), Bumps(g, width - 2), Heights(g, width - 2),
      |g|, width * |g|);
  }

  lemma WeighedBound(full: nat, holes: nat, bumps: int, heights: int, height: nat, area: int)
    requires full <= height && holes <= area && 0 <= bumps <= area && 0 <= heights <= area
    requires 1001 * height + 55 * area < INT_MAX
    ensures 1000 * full + height < INT_MAX && -(50 * holes + 3 * bumps + 2 * heights) - height > INT_MIN
  {
  }

  // ----- EvaluatePlacement, loop by loop -----

  /** One matrix row of the block, filled into its row of the grid. */
  method OverlayRow(tmp: Block, g: Grid, width: nat, i: nat, size: nat) returns (grid: Grid)
    requires tmp.Valid() && size == |MaskOf(tmp.Pose())| && i < size
    requires forall r :: 0 <= r < |g| ==> |g[r]| == width
    ensures var cells, gy := MaskOf(tmp.Pose())[i], tmp.y + i;
      grid == if 0 <= gy < |g| then g[gy := RowLock(g[gy], cells, tmp.x, size)] else g
  {
    grid := g;
    var gy := tmp.y + i;
    var j := 0;
    while j < size
      invariant 0 <= j <= size && |grid| == |g|
      invariant grid == if 0 <= gy < |g| then g[gy := RowLock(g[gy], MaskOf(tmp.Pose())[i], tmp.x, j)] else g
    {
      var v := tmp.GetValue(i, j);
      if v != 0 {
        var gx := tmp.x + j;
        if 0 <= gx < width && 0 <= gy < |grid| {
          grid := grid[gy := grid[gy][gx := true]];
        }
      }
      j := j + 1;
    }
  }

  /** The snapshot with the block's cells filled in. */
  method Overlay(tmp: Block, snapshot: Grid, width: nat) returns (grid: Grid)
    requires tmp.Valid() && forall r :: 0 <= r < |snapshot| ==> |snapshot[r]| == width
    ensures grid == LockGrid(snapshot, tmp.Pose())
  {
    grid := snapshot;
    var size := tmp.GetMatrixSize();
    ghost var p := tmp.Pose();
    var i := 0;
    while i < size
      invariant 0 <= i <= size
      invariant grid == GridLock(snapshot, MaskOf(p), p.x, p.y, i)
    {
      grid := OverlayRow(tmp, grid, width, i, size);
      i := i + 1;
    }
  }

  method CountFilled(row: Row) returns (filled: nat)
    requires |row| >= 2
    ensures filled == Fill(row)
  {
    filled := 0;
    var c := 1;
    while c < |row| - 1
      invariant 1 <= c <= |row| - 1
      invariant filled == Count(row[1..c])
    {
      assert row[1..c + 1][..c - 1] == row[1..c];
      filled := filled + (if row[c] then 1 else 0);
      c := c + 1;
    }
  }

  method CountFullLines(grid: Grid, width: nat) returns (fullLines: nat)
    requires |grid| >= 2 && width >= 2 && forall r :: 0 <= r < |grid| ==> |grid[r]| == width
    ensures fullLines == |FullSet(grid, |grid| - 1)|
  {
    fullLines := 0;
    var r := 1;
    assert FullSet(grid, 1) == {};
    while r < |grid| - 1
      invariant 1 <= r <= |grid| - 1
      invariant fullLines == |FullSet(grid, r)|
    {
      var filled := CountFilled(grid[r]);
      FillMeaning(grid[r]);
      if filled == width - 2 {
        fullLines := fullLines + 1;
        assert FullSet(grid, r + 1) == FullSet(grid, r) + {r};
      } else {
        assert FullSet(grid, r + 1) == FullSet(grid, r);
      }
      r := r + 1;
    }
  }

  method CountColumnHoles(grid: Grid, c: nat) returns (holes: nat)
    requires |grid| >= 2 && Wide(grid, c)
    ensures holes == |HoleSet(grid, c, |grid| - 1)|
  {
    holes := 0;
    var seenBlock := false;
    var r := 1;
    assert HoleSet(grid, c, 1) == {};
    while r < |grid| - 1
      invariant 1 <= r <= |grid| - 1
      invariant seenBlock <==> FilledAbove(grid, r, c)
      invariant holes == |HoleSet(grid, c, r)|
    {
      ghost var before := HoleSet(grid, c, r);
      if grid[r][c] {
        seenBlock := true;
        assert HoleSet(grid, c, r + 1) == before;
      } else if seenBlock && !grid[r][c] {
        holes := holes + 1;
        assert HoleSet(grid, c, r + 1) == before + {r};
      } else {
        assert HoleSet(grid, c, r + 1) == before;
      }
      r := r + 1;
    }
  }

  method CountHoles(grid: Grid, width: nat) returns (holes: nat)
    requires |grid| >= 2 && width >= 3 && forall r :: 0 <= r < |grid| ==> |grid[r]| == width
    ensures holes == Holes(grid, width - 1)
  {
    holes := 0;
    var c := 1;
    while c < width - 1
      invariant 1 <= c <= width - 1
      invariant holes == Holes(grid, c)
    {
      var h := CountColumnHoles(grid, c);
      holes := holes + h;
      c := c + 1;
    }
  }

  method ColumnHeight(grid: Grid, c: nat) returns (h: int)
    requires |grid| >= 2 && Wide(grid, c)
    ensures h == Height(grid, c)
  {
    h := 0;
    var r := 1;
    while r < |grid| - 1
      invariant 1 <= r <= |grid| - 1
      invariant !FilledAbove(grid, r, c)
    {
      if grid[r][c] {
        h := |grid| - r;
        assert FilledAbove(grid, |grid| - 1, c);
        assert |grid| - h == r;
        HeightUnique(grid, c, h);
        return;
      }
      r := r + 1;
    }
    HeightUnique(grid, c, 0);
  }

  method ColumnHeights(grid: Grid, width: nat) returns (heights: seq<int>)
    requires |grid| >= 2 && width >= 3 && forall r :: 0 <= r < |grid| ==> |grid[r]| == width
    ensures |heights| == width
    ensures forall c :: 1 <= c < width - 1 ==> heights[c] == Height(grid, c)
  {
    heights := seq(width, _ => |grid|);
    var c := 1;
    while c < width - 1
      invariant 1 <= c <= width - 1 && |heights| == width
      invariant forall k :: 1 <= k < c ==> heights[k] == Height(grid, k)
    {
      var h := ColumnHeight(grid, c);
      heights := heights[c := h];
      c := c + 1;
    }
  }

  method Roughness(grid: Grid, width: nat, heights: seq<int>) returns (bump: int, sumH: int)
    requires |grid| >= 2 && width >= 3 && forall r :: 0 <= r < |grid| ==> |grid[r]| == width
    requires |heights| == width && forall c :: 1 <= c < width - 1 ==> heights[c] == Height(grid, c)
    ensures bump == Bumps(grid, width - 2) && sumH == Heights(grid, width - 2)
  {
    bump, sumH := 0, 0;
    var c := 1;
    while c < width - 2
      invariant 1 <= c <= width - 2
      invariant bump == Bumps(grid, c) && sumH == Heights(grid, c)
    {
      bump := bump + Abs(heights[c] - heights[c + 1]);
      sumH := sumH + heights[c];
      c := c + 1;
    }
  }

  /** EvaluatePlacement: the score of the grid with the block locked where it is. */
  method EvaluatePlacement(tmp: Block, snapshot: Grid, width: nat) returns (score: int)
    requires tmp.Valid() && |snapshot| >= 2 && width >= 3
    requires forall r :: 0 <= r < |snapshot| ==> |snapshot[r]| == width
    requires ScoreFits(width, |snapshot|)
    ensures score == Score(LockGrid(snapshot, tmp.Pose()), width, tmp.y)
  {
    var grid := Overlay(tmp, snapshot, width);
    var fullLines := CountFullLines(grid, width);
    var holes := CountHoles(grid, width);
    var heights := ColumnHeights(grid, width);
    var bump, sumH := Roughness(grid, width, heights);
    score := 0;
    score := score + fullLines * 1000;
    score := score - holes * 50;
    score := score - bump * 3;
    score := score - sumH * 2;
    score := score + tmp.y * 1;
  }

  // ----- FindBestPlacement -----

  /** The block turned clockwise `rot` times, at column `x`, with its matrix at the top of the board. */
  function Candidate(p: Piece, rot: int, x: int): Piece {
    p.(rot := (p.rot + rot) % ROTATION_COUNT, x := x, y := 0)
  }

  lemma CandidateGood(p: Piece, rot: int, x: int)
    requires GoodPiece(p) && 0 <= rot
    ensures GoodPiece(Candidate(p, rot, x)) && |MaskOf(Candidate(p, rot, x))| == |MaskOf(p)|
  {
  }

  /** The walls confine every collision-free candidate to the columns the search visits. */
  lemma FreeCandidateIsVisited(g: Grid, width: nat, p: Piece)
    requires Walled(g, width) && GoodPiece(p) && Free(g, p)
    ensures 1 - |MaskOf(p)| <= p.x <= width - 2
  {
    var i, j := SomeCell(MaskOf(p), |MaskOf(p)|);
    FreeIsInterior(g, width, p, i, j);
  }

  /** What the search gives candidate (rot, x): the score of the grid after its simulated hard drop. */
  ghost function Worth(g: Grid, width: nat, p: Piece, rot: int, x: int): int
    requires Playable(g, width) && GoodPiece(p) && 0 <= rot
  {
    CandidateGood(p, rot, x);
    var rest := Drop(g, Candidate(p, rot, x));
    Score(LockGrid(g, rest), width, rest.y)
  }

  ghost predicate Playable(g: Grid, width: nat) {
    |g| >= 2 && width >= 3 && forall r :: 0 <= r < |g| ==> |g[r]| == width
  }

  ghost predicate Placeable(g: Grid, p: Piece, rot: int, x: int)
    requires GoodPiece(p) && 0 <= rot
  {
    CandidateGood(p, rot, x);
    Free(g, Candidate(p, rot, x))
  }

  predicate Precedes(rot: int, x: int, rot': int, x': int) {
    rot < rot' || (rot == rot' && x < x')
  }

  datatype Eval = Eval(targetX: int, rotateCW: int, score: int)

  /** `best` is the first, in (rotation, column) order, of the best-scoring placeable candidates before (rot, x);
      without any it is the initial value. */
  ghost predicate BestBefore(g: Grid, width: nat, p: Piece, best: Eval, rot: int, x: int)
    requires Playable(g, width) && GoodPiece(p)
  {
    if best.score == INT_MIN then
      && best == Eval(p.x, 0, INT_MIN)
      && forall r, c :: 0 <= r < ROTATION_COUNT && Precedes(r, c, rot, x) ==> !Placeable(g, p, r, c)
    else
      && 0 <= best.rotateCW < ROTATION_COUNT && Precedes(best.rotateCW, best.targetX, rot, x)
      && Placeable(g, p, best.rotateCW, best.targetX)
      && best.score == Worth(g, width, p, best.rotateCW, best.targetX)
      && (forall r, c :: 0 <= r < ROTATION_COUNT && Precedes(r, c, rot, x) && Placeable(g, p, r, c) ==>
            Worth(g, width, p, r, c) <= best.score)
      && (forall r, c ::
            0 <= r < ROTATION_COUNT && Precedes(r, c, best.rotateCW, best.targetX) && Placeable(g, p, r, c) ==>
            Worth(g, width, p, r, c) < best.score)
  }

  lemma WorthIsInt32(g: Grid, width: nat, p: Piece, rot: int, x: int)
    requires Playable(g, width) && GoodPiece(p) && 0 <= rot && Placeable(g, p, rot, x) && ScoreFits(width, |g|)
    ensures INT_MIN < Worth(g, width, p, rot, x) < INT_MAX
  {
    CandidateGood(p, rot, x);
    var rest := Drop(g, Candidate(p, rot, x));
    FreeIsInside(g, rest);
    ScoreIsInt32(LockGrid(g, rest), width, rest.y);
  }

  /** Candidates outside the visited columns do not matter: they collide. */
  lemma SkipColumns(g: Grid, width: nat, p: Piece, best: Eval, rot: int, x: int, rot': int, x': int)
    requires Playable(g, width) && Walled(g, width) && GoodPiece(p) && 0 <= rot <= rot'
    requires BestBefore(g, width, p, best, rot, x)
    requires
      || (rot' == rot && x' == 1 - |MaskOf(p)| && x <= x')
      || (rot' == rot + 1 && x > width - 2 && x' <= 1 - |MaskOf(p)|)
    ensures BestBefore(g, width, p, best, rot', x')
  {
    forall r, c | 0 <= r && Precedes(r, c, rot', x') && !Precedes(r, c, rot, x) ensures !Placeable(g, p, r, c) {
      CandidateGood(p, r, c);
      if Placeable(g, p, r, c) {
        FreeCandidateIsVisited(g, width, Candidate(p, r, c));
      }
    }
  }

  lemma NothingBefore(g: Grid, width: nat, p: Piece)
    requires Playable(g, width) && Walled(g, width) && GoodPiece(p)
    ensures BestBefore(g, width, p, Eval(p.x, 0, INT_MIN), 0, 1 - |MaskOf(p)|)
  {
    forall r, c | 0 <= r && Precedes(r, c, 0, 1 - |MaskOf(p)|) ensures !Placeable(g, p, r, c) {
      CandidateGood(p, r, c);
      if Placeable(g, p, r, c) {
        FreeCandidateIsVisited(g, width, Candidate(p, r, c));
      }
    }
  }

  /** One visit: a candidate that collides is skipped, a strictly better one replaces the best so far. */
  lemma VisitKeepsBest(g: Grid, width: nat, p: Piece, best: Eval, rot: int, x: int, best': Eval)
    requires Playable(g, width) && GoodPiece(p) && 0 <= rot < ROTATION_COUNT && ScoreFits(width, |g|)
    requires BestBefore(g, width, p, best, rot, x)
    requires best' == if Placeable(g, p, rot, x) && Worth(g, width, p, rot, x) > best.score
      then Eval(x, rot, Worth(g, width, p, rot, x)) else best
    ensures BestBefore(g, width, p, best', rot, x + 1)
  {
    hide Worth, Placeable, GoodPiece, ScoreFits;
    if Placeable(g, p, rot, x) {
      WorthIsInt32(g, width, p, rot, x);
    }
    forall r, c | Precedes(r, c, rot, x + 1) && !Precedes(r, c, rot, x) ensures r == rot && c == x {
    }
  }

  /** `best` is the result of a complete search. */
  ghost predicate IsBest(g: Grid, width: nat, p: Piece, best: Eval)
    requires Playable(g, width) && GoodPiece(p)
  {
    BestBefore(g, width, p, best, ROTATION_COUNT, 0)
  }

  lemma AllRotationsSearched(g: Grid, width: nat, p: Piece, best: Eval, x: int)
    requires Playable(g, width) && GoodPiece(p) && BestBefore(g, width, p, best, ROTATION_COUNT, x)
    ensures 0 <= best.rotateCW < ROTATION_COUNT && IsBest(g, width, p, best)
  {
    assert forall r, c :: r < ROTATION_COUNT ==> Precedes(r, c, ROTATION_COUNT, x) && Precedes(r, c, ROTATION_COUNT, 0);
  }

  /** What the search result means: if any rotation has a column, anywhere on the integers, at which the block is
      collision-free at the top, the result is such a place, no other scores higher, and none that comes earlier scores
      as high. */
  lemma SearchIsOptimal(g: Grid, width: nat, p: Piece, best: Eval, rot: int, x: int)
    requires Playable(g, width) && GoodPiece(p) && 0 <= rot < ROTATION_COUNT && Placeable(g, p, rot, x)
    requires ScoreFits(width, |g|)
    requires IsBest(g, width, p, best)
    ensures 0 <= best.rotateCW < ROTATION_COUNT && Placeable(g, p, best.rotateCW, best.targetX)
    ensures best.score == Worth(g, width, p, best.rotateCW, best.targetX)
    ensures Worth(g, width, p, rot, x) <= best.score
    ensures Precedes(rot, x, best.rotateCW, best.targetX) ==> Worth(g, width, p, rot, x) < best.score
  {
    assert Precedes(rot, x, ROTATION_COUNT, 0);
  }

  /** A live block that has the candidate's rotation and column, at any height on the simulated fall path, comes to rest
      exactly where the simulation did, and locking it there gives exactly the grid that was scored. */
  lemma LandsAsScored(g: Grid, width: nat, p: Piece, rot: int, x: int, live: Piece)
    requires Playable(g, width) && GoodPiece(p) && 0 <= rot && Placeable(g, p, rot, x)
    requires GoodPiece(Candidate(p, rot, x))
    requires live == Candidate(p, rot, x).(y := live.y) && 0 <= live.y <= Drop(g, Candidate(p, rot, x)).y
    ensures GoodPiece(live) && Free(g, live)
    ensures Drop(g, live) == Drop(g, Candidate(p, rot, x))
    ensures Score(LockGrid(g, Drop(g, live)), width, Drop(g, live).y) == Worth(g, width, p, rot, x)
  {
    DropFromPath(g, Candidate(p, rot, x), live.y);
  }
}

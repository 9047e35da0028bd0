/** What the score of a grid prefers, and what that means for the AI's search (Client/TetrisBoardAI.cpp,
    EvaluatePlacement). Every grid comes from the empty one by filling cells one at a time, each time a hole or a cell
    with nothing at or above it, so EmptyScore, FillHole and TopCell settle the score of every grid. */
module Scoring {
  import opened Shapes
  import opened Grids
  import opened Lines
  import opened Boards
  import opened Placement

  // ----- the terms -----

  ghost function FullRows(g: Grid): nat
    requires |g| >= 2
  {
    |FullSet(g, |g| - 1)|
  }

  /** With everything else equal a full row is worth 1000, a hole costs 50, a unit of difference between neighbours 3, a
      unit of height 2, and a row deeper is worth 1. */
  lemma ScoreCompares(g: Grid, h: Grid, width: nat, y: int, z: int)
    requires Playable(g, width) && Playable(h, width)
    ensures Score(g, width, y) - Score(h, width, z) ==
      1000 * (FullRows(g) - FullRows(h)) - 50 * (Holes(g, width - 1) - Holes(h, width - 1))
      - 3 * (Bumps(g, width - 2) - Bumps(h, width - 2)) - 2 * (Heights(g, width - 2) - Heights(h, width - 2)) + (y - z)
  {
    hide FullSet, Holes, Bumps, Heights;
  }

  // ----- the empty board -----

  lemma EmptyColumn(g: Grid, c: int)
    requires |g| >= 2 && Wide(g, c) && forall r :: 1 <= r < |g| - 1 ==> !g[r][c]
    ensures Height(g, c) == 0 && HoleSet(g, c, |g| - 1) == {}
  {
    HeightUnique(g, c, 0);
  }

  lemma {:induction false} EmptySums(g: Grid, width: nat, c: int)
    requires Playable(g, width) && 1 <= c < width
    requires forall r, k :: 1 <= r < |g| - 1 && 1 <= k < width - 1 ==> !g[r][k]
    ensures Holes(g, c) == 0
    ensures c < width - 1 ==> Bumps(g, c) == 0 && Heights(g, c) == 0
  {
    if c > 1 {
      EmptySums(g, width, c - 1);
      EmptyColumn(g, c - 1);
      if c < width - 1 {
        EmptyColumn(g, c);
      }
    }
  }

  /** On an empty field the score is the landing row. */
  lemma EmptyScore(g: Grid, width: nat, y: int)
    requires Playable(g, width)
    requires forall r, c :: 1 <= r < |g| - 1 && 1 <= c < width - 1 ==> !g[r][c]
    ensures Score(g, width, y) == y
  {
    EmptySums(g, width, width - 1);
    EmptySums(g, width, width - 2);
    forall r | 1 <= r < |g| - 1 ensures !FullRow(g[r]) {
      assert !g[r][1];
    }
    assert FullSet(g, |g| - 1) == {};
  }

  // ----- one more cell -----

  function Filled(g: Grid, r: nat, c: nat): (h: Grid)
    requires r < |g| && c < |g[r]|
    ensures |h| == |g|
  {
    g[r := g[r][c := true]]
  }

  /** A cell of the field that is still empty. */
  ghost predicate EmptyCell(g: Grid, width: nat, r: nat, c: nat) {
    Playable(g, width) && 1 <= r < |g| - 1 && 1 <= c < width - 1 && !g[r][c]
  }

  lemma OtherColumn(g: Grid, width: nat, r: nat, c: nat, k: nat)
    requires EmptyCell(g, width, r, c) && k < width && k != c
    ensures Wide(g, k) && Wide(Filled(g, r, c), k)
    ensures HoleSet(Filled(g, r, c), k, |g| - 1) == HoleSet(g, k, |g| - 1)
    ensures Height(Filled(g, r, c), k) == Height(g, k)
  {
    var h := Filled(g, r, c);
    forall q | 0 <= q <= |g| ensures FilledAbove(h, q, k) == FilledAbove(g, q, k) {
      assert forall p :: 1 <= p < q && p < |g| ==> h[p][k] == g[p][k];
    }
    assert IsHeight(h, k, Height(g, k));
    HeightUnique(h, k, Height(g, k));
  }

  lemma OneRowApart(g: Grid, h: Grid, r: nat)
    requires 1 <= r < |g| - 1 && |h| == |g| && !FullRow(g[r])
    requires forall q :: 0 <= q < |g| && q != r ==> h[q] == g[q]
    ensures FullRows(h) == FullRows(g) + (if FullRow(h[r]) then 1 else 0)
  {
    hide FullRow;
    if FullRow(h[r]) {
      assert FullSet(h, |h| - 1) == FullSet(g, |g| - 1) + {r};
    } else {
      assert FullSet(h, |h| - 1) == FullSet(g, |g| - 1);
    }
  }

  /** The row of the new cell may have become full. */
  lemma FullAfter(g: Grid, width: nat, r: nat, c: nat)
    requires EmptyCell(g, width, r, c)
    ensures FullRows(Filled(g, r, c)) == FullRows(g) + (if FullRow(Filled(g, r, c)[r]) then 1 else 0)
  {
    OneRowApart(g, Filled(g, r, c), r);
  }

  /** Sums over columns change by what column `c` changes. */
  lemma {:induction false} SumsAfter(g: Grid, width: nat, r: nat, c: nat, k: int)
    requires EmptyCell(g, width, r, c) && 1 <= k < width
    ensures var h := Filled(g, r, c);
      && Playable(h, width)
      && Holes(h, k) - Holes(g, k) ==
           (if c < k then |HoleSet(h, c, |g| - 1)| - |HoleSet(g, c, |g| - 1)| else 0)
      && (k < width - 1 ==> Heights(h, k) - Heights(g, k) == (if c < k then Height(h, c) - Height(g, c) else 0))
  {
    hide HoleSet, Height;
    if k > 1 {
      SumsAfter(g, width, r, c, k - 1);
      if c != k - 1 {
        OtherColumn(g, width, r, c, k - 1);
      }
    }
  }

  ghost function Gap(g: Grid, a: int, b: int): int
    requires |g| >= 2 && Wide(g, a) && Wide(g, b)
  {
    Abs(Height(g, a) - Height(g, b))
  }

  /** The pairs that column `c` is part of, among those that start before column `k`. */
  ghost function GapsAt(g: Grid, width: nat, c: nat, k: int): int
    requires Playable(g, width) && 1 <= c < width - 1
  {
    (if 1 < c && c - 1 < k then Gap(g, c - 1, c) else 0) + (if c < k then Gap(g, c, c + 1) else 0)
  }

  lemma BumpsStep(g: Grid, k: int)
    requires |g| >= 2 && 1 < k && Wide(g, k) && Wide(g, k - 1)
    ensures Bumps(g, k) == Bumps(g, k - 1) + Gap(g, k - 1, k)
  {
  }

  lemma GapsStep(g: Grid, width: nat, c: nat, k: int)
    requires Playable(g, width) && 1 <= c < width - 1 && 1 < k < width - 1
    ensures Wide(g, k - 1) && Wide(g, k)
    ensures GapsAt(g, width, c, k)
      == GapsAt(g, width, c, k - 1) + (if c == k || c == k - 1 then Gap(g, k - 1, k) else 0)
  {
    hide Gap;
  }

  lemma OtherGap(g: Grid, width: nat, r: nat, c: nat, k: nat)
    requires EmptyCell(g, width, r, c) && 1 <= k < width && k != c && k - 1 != c
    ensures var h := Filled(g, r, c);
      Wide(g, k - 1) && Wide(g, k) && Wide(h, k - 1) && Wide(h, k) && Gap(h, k - 1, k) == Gap(g, k - 1, k)
  {
    OtherColumn(g, width, r, c, k - 1);
    OtherColumn(g, width, r, c, k);
    hide *;
  }

  lemma StillPlayable(g: Grid, width: nat, r: nat, c: nat)
    requires EmptyCell(g, width, r, c)
    ensures Playable(Filled(g, r, c), width)
  {
  }

  lemma {:induction false} BumpsAfter(g: Grid, width: nat, r: nat, c: nat, k: int)
    requires EmptyCell(g, width, r, c) && 1 <= k < width - 1
    ensures var h := Filled(g, r, c);
      && Playable(h, width)
      && Bumps(h, k) - Bumps(g, k) == GapsAt(h, width, c, k) - GapsAt(g, width, c, k)
  {
    hide Bumps, GapsAt, Gap, Filled;
    StillPlayable(g, width, r, c);
    var h := Filled(g, r, c);
    if k > 1 {
      BumpsAfter(g, width, r, c, k - 1);
      BumpsStep(g, k);
      BumpsStep(h, k);
      GapsStep(g, width, c, k);
      GapsStep(h, width, c, k);
      if c != k && c != k - 1 {
        OtherGap(g, width, r, c, k);
      }
    } else {
      NoBumps(g, width, c);
      NoBumps(h, width, c);
    }
  }

  lemma NoBumps(g: Grid, width: nat, c: nat)
    requires Playable(g, width) && 1 <= c < width - 1
    ensures Bumps(g, 1) == 0 && GapsAt(g, width, c, 1) == 0
  {
  }

  /** Filling a hole is worth 50, and 1000 when it completes its row. */
  lemma FillHole(g: Grid, width: nat, r: nat, c: nat, y: int)
    requires EmptyCell(g, width, r, c) && FilledAbove(g, r, c)
    ensures Playable(Filled(g, r, c), width)
    ensures Score(Filled(g, r, c), width, y) ==
      Score(g, width, y) + 50 + (if FullRow(Filled(g, r, c)[r]) then 1000 else 0)
  {
    hide FullRows, Holes, Bumps, Heights, HoleSet, Height, GapsAt, Filled, FilledAbove, FullRow, Score;
    var h := Filled(g, r, c);
    StillPlayable(g, width, r, c);
    HoleColumn(g, width, r, c);
    FullAfter(g, width, r, c);
    SumsAfter(g, width, r, c, width - 1);
    SumsAfter(g, width, r, c, width - 2);
    BumpsAfter(g, width, r, c, width - 2);
    SameGaps(g, width, r, c, width - 2);
    ScoreCompares(h, g, width, y, y);
  }

  lemma SameGaps(g: Grid, width: nat, r: nat, c: nat, k: int)
    requires EmptyCell(g, width, r, c) && Playable(Filled(g, r, c), width)
    requires Wide(g, c) && Wide(Filled(g, r, c), c) && Height(Filled(g, r, c), c) == Height(g, c)
    ensures GapsAt(Filled(g, r, c), width, c, k) == GapsAt(g, width, c, k)
  {
    OtherColumn(g, width, r, c, c - 1);
    OtherColumn(g, width, r, c, c + 1);
    hide Height, Abs;
  }

  lemma HoleColumn(g: Grid, width: nat, r: nat, c: nat)
    requires EmptyCell(g, width, r, c) && FilledAbove(g, r, c)
    ensures var h := Filled(g, r, c);
      && Wide(g, c) && Wide(h, c) && Height(h, c) == Height(g, c)
      && |HoleSet(h, c, |g| - 1)| == |HoleSet(g, c, |g| - 1)| - 1
  {
    var h := Filled(g, r, c);
    forall q | 0 <= q <= |g| ensures FilledAbove(h, q, c) == FilledAbove(g, q, c) {
      assert forall p :: 1 <= p < |g| && p != r ==> h[p][c] == g[p][c];
      if FilledAbove(g, q, c) {
        var p :| 1 <= p < q && g[p][c];
        assert h[p][c];
      }
      if FilledAbove(h, q, c) && r < q {
        var p :| 1 <= p < r && g[p][c];
        assert g[p][c];
      }
    }
    assert IsHeight(h, c, Height(g, c));
    HeightUnique(h, c, Height(g, c));
    assert r in HoleSet(g, c, |g| - 1);
    assert HoleSet(h, c, |g| - 1) == HoleSet(g, c, |g| - 1) - {r};
  }

  /** Below a new topmost cell in row `r`, every empty cell down to the old top, or to the floor, becomes a hole. */
  lemma TopColumn(g: Grid, width: nat, r: nat, c: nat)
    requires EmptyCell(g, width, r, c) && !FilledAbove(g, r, c)
    ensures var h, was := Filled(g, r, c), Height(g, c);
      && Wide(g, c) && Wide(h, c) && Height(h, c) == |g| - r
      && |HoleSet(h, c, |g| - 1)| - |HoleSet(g, c, |g| - 1)| == |g| - r - 2 - (if was >= 1 then was - 1 else 0)
  {
    var h := Filled(g, r, c);
    assert !FilledAbove(h, r, c);
    assert FilledAbove(h, |g| - 1, c) by {
      assert h[r][c];
    }
    assert |g| - (|g| - r) == r;
    HeightUnique(h, c, |g| - r);
    FilledAndHoles(g, c);
    FilledAndHoles(h, c);
    assert FilledSet(h, c) == FilledSet(g, c) + {r};
  }

  lemma TopGaps(g: Grid, width: nat, r: nat, c: nat)
    requires EmptyCell(g, width, r, c) && Playable(Filled(g, r, c), width)
    ensures Wide(g, c - 1) && Wide(g, c) && Wide(g, c + 1) && Wide(Filled(g, r, c), c)
    ensures var h := Filled(g, r, c);
      var was, now, left, right := Height(g, c), Height(h, c), Height(g, c - 1), Height(g, c + 1);
      GapsAt(h, width, c, width - 2) - GapsAt(g, width, c, width - 2) ==
        (if c > 1 then Abs(left - now) - Abs(left - was) else 0)
        + (if c < width - 2 then Abs(now - right) - Abs(was - right) else 0)
  {
    hide Height, HoleSet, Abs, Filled, Wide;
    StillPlayable(g, width, r, c);
    ColumnsAreWide(g, width);
    ColumnsAreWide(Filled(g, r, c), width);
    OtherColumn(g, width, r, c, c - 1);
    OtherColumn(g, width, r, c, c + 1);
  }

  lemma ColumnsAreWide(g: Grid, width: nat)
    requires Playable(g, width)
    ensures forall k: nat :: k < width ==> Wide(g, k)
  {
  }

  /** A cell on top of column `c` in row `r` costs 50 for each hole it leaves below, 2 for each unit of height it adds
      unless the column is the last, and 3 for each unit by which it roughens the pairs that the column is part of. */
  lemma TopCell(g: Grid, width: nat, r: nat, c: nat, y: int)
    requires EmptyCell(g, width, r, c) && !FilledAbove(g, r, c)
    ensures Playable(Filled(g, r, c), width) && Wide(g, c - 1) && Wide(g, c) && Wide(g, c + 1)
    ensures var was, now := Height(g, c), |g| - r;
      var left, right := Height(g, c - 1), Height(g, c + 1);
      Score(Filled(g, r, c), width, y) == Score(g, width, y)
        - 50 * (now - 2 - (if was >= 1 then was - 1 else 0))
        - (if c < width - 2 then 2 * (now - was) else 0)
        - 3 * ((if c > 1 then Abs(left - now) - Abs(left - was) else 0)
               + (if c < width - 2 then Abs(now - right) - Abs(was - right) else 0))
        + (if FullRow(Filled(g, r, c)[r]) then 1000 else 0)
  {
    hide FullRows, Holes, Bumps, Heights, HoleSet, Height, GapsAt, Filled, FilledAbove, FullRow, Score, Abs;
    var h := Filled(g, r, c);
    StillPlayable(g, width, r, c);
    TopColumn(g, width, r, c);
    FullAfter(g, width, r, c);
    SumsAfter(g, width, r, c, width - 1);
    SumsAfter(g, width, r, c, width - 2);
    BumpsAfter(g, width, r, c, width - 2);
    TopGaps(g, width, r, c);
    ScoreCompares(h, g, width, y, y);
  }

  // ----- the search -----

  /** Where the candidate comes to rest. */
  ghost function Rest(g: Grid, p: Piece, rot: int, x: int): (q: Piece)
    requires GoodPiece(p) && 0 <= rot
    ensures GoodPiece(q)
  {
    CandidateGood(p, rot, x);
    Drop(g, Candidate(p, rot, x))
  }

  lemma WorthIs(g: Grid, width: nat, p: Piece, rot: int, x: int)
    requires Playable(g, width) && GoodPiece(p) && 0 <= rot
    ensures var q := Rest(g, p, rot, x);
      && |q.shape| == ROTATION_COUNT && 0 <= q.rot < ROTATION_COUNT && Playable(LockGrid(g, q), width)
      && Worth(g, width, p, rot, x) == Score(LockGrid(g, q), width, q.y)
  {
    hide Score, Drop;
  }

  /** Placed as well as `b` or better in every respect. */
  ghost predicate NoWorse(a: Grid, y: int, b: Grid, z: int, width: nat)
    requires Playable(a, width) && Playable(b, width)
  {
    && FullRows(a) >= FullRows(b) && Holes(a, width - 1) <= Holes(b, width - 1)
    && Bumps(a, width - 2) <= Bumps(b, width - 2) && Heights(a, width - 2) <= Heights(b, width - 2) && y >= z
  }

  /** No place is better than the result in one respect and no worse in the others: one that is no worse in any is
      equal in all. In particular none differs from the result in having fewer holes alone. */
  lemma NothingDominates(g: Grid, width: nat, p: Piece, best: Eval, rot: int, x: int)
    requires Playable(g, width) && GoodPiece(p) && 0 <= rot < ROTATION_COUNT && Placeable(g, p, rot, x)
    requires ScoreFits(width, |g|) && IsBest(g, width, p, best)
    ensures 0 <= best.rotateCW && Playable(LockGrid(g, Rest(g, p, rot, x)), width)
    ensures Playable(LockGrid(g, Rest(g, p, best.rotateCW, best.targetX)), width)
    ensures var mine, chosen := Rest(g, p, rot, x), Rest(g, p, best.rotateCW, best.targetX);
      NoWorse(LockGrid(g, mine), mine.y, LockGrid(g, chosen), chosen.y, width) ==>
        NoWorse(LockGrid(g, chosen), chosen.y, LockGrid(g, mine), mine.y, width)
  {
    hide FullRows, Holes, Bumps, Heights, Score, IsBest, ScoreFits, Placeable, Worth, Playable, LockGrid, Rest;
    hide GoodPiece;
    SearchIsOptimal(g, width, p, best, rot, x);
    var mine, chosen := Rest(g, p, rot, x), Rest(g, p, best.rotateCW, best.targetX);
    WorthIs(g, width, p, rot, x);
    WorthIs(g, width, p, best.rotateCW, best.targetX);
    ScoreCompares(LockGrid(g, mine), LockGrid(g, chosen), width, mine.y, chosen.y);
  }

  /** The square block is never turned: its four matrices are equal, and the first of equals wins. */
  lemma SquareIsNotTurned(g: Grid, width: nat, p: Piece, best: Eval)
    requires Playable(g, width) && GoodPiece(p) && ScoreFits(width, |g|) && IsBest(g, width, p, best)
    requires forall k :: 0 <= k < ROTATION_COUNT ==> p.shape[k] == p.shape[0]
    ensures best.rotateCW == 0
  {
    if best.score != INT_MIN && best.rotateCW != 0 {
      SameDrop(g, Candidate(p, best.rotateCW, best.targetX), Candidate(p, 0, best.targetX));
      SearchIsOptimal(g, width, p, best, 0, best.targetX);
    }
  }

  lemma SameFree(g: Grid, p: Piece, q: Piece)
    requires GoodPiece(p) && GoodPiece(q) && MaskOf(p) == MaskOf(q) && (p.x, p.y) == (q.x, q.y)
    ensures Free(g, p) == Free(g, q) && LockGrid(g, p) == LockGrid(g, q)
  {
    hide GoodMask;
  }

  lemma {:induction false} SameDrop(g: Grid, p: Piece, q: Piece)
    requires GoodPiece(p) && GoodPiece(q) && MaskOf(p) == MaskOf(q) && (p.x, p.y) == (q.x, q.y)
    ensures Free(g, p) == Free(g, q) && Drop(g, p).y == Drop(g, q).y
    ensures LockGrid(g, Drop(g, p)) == LockGrid(g, Drop(g, q))
    decreases if p.y < |g| then |g| - p.y else 0
  {
    hide Free, LockGrid, GoodMask;
    SameFree(g, p, q);
    SameFree(g, Down(p), Down(q));
    if Free(g, Down(p)) {
      FreeIsInside(g, Down(p));
      SameDrop(g, Down(p), Down(q));
    }
  }
}

/** Clearing full rows and compacting the stack (Client/TetrisBoard.cpp, ClearLine to MoveLines), on values.
    A line is a playable row together with its entry of rowCounts. */
module Lines {
  import opened Common
  import opened Grids

  type Line = (Row, int)

  function Blank(width: nat): Row
    requires width >= 2
  {
    [true] + seq(width - 2, _ => false) + [true]
  }

  /** A row after ClearLine: everything between the two end columns is emptied. */
  function ClearedRow(row: Row): Row
    requires |row| >= 2
  {
    [row[0]] + seq(|row| - 2, _ => false) + [row[|row| - 1]]
  }

  /** The lines above the floor. */
  function LinesOf(g: Grid, counts: seq<int>): seq<Line>
    requires |counts| == |g| >= 1
  {
    seq(|g| - 1, r requires 0 <= r < |g| - 1 => (g[r], counts[r]))
  }

  /** The lines of `s` that satisfy `keep`, in their original order. */
  function Filter<T>(s: seq<T>, keep: T -> bool): seq<T> {
    if s == [] then [] else
      Filter(s[..|s| - 1], keep) + (if keep(s[|s| - 1]) then [s[|s| - 1]] else [])
  }

  function Used(): Line -> bool {
    (l: Line) => l.1 != 0
  }

  function NotFull(full: int): Line -> bool {
    (l: Line) => l.1 != full
  }

  function Sum(ls: seq<Line>): int {
    if ls == [] then 0 else Sum(ls[..|ls| - 1]) + ls[|ls| - 1].1
  }

  // ----- MoveLines -----

  /** One MoveLine call: row `s` with its count goes to row `t`, and row `s` is cleared. */
  function MoveGrid(g: Grid, t: int, s: int): Grid
    requires 0 <= s < t < |g| && |g[s]| >= 2
  {
    g[t := g[s]][s := ClearedRow(g[s])]
  }

  function MoveCounts(counts: seq<int>, t: int, s: int): seq<int>
    requires 0 <= s < t < |counts|
  {
    counts[t := counts[s]][s := 0]
  }

  /** The two-pointer loop of MoveLines from targetLine `t` and sourceLine `s`. */
  function MoveLoop(g: Grid, counts: seq<int>, t: int, s: int): (Grid, seq<int>)
    requires |counts| == |g| && -1 <= s < t < |g|
    requires forall r :: 0 <= r < |g| ==> |g[r]| >= 2
    decreases s + 1
  {
    if s < 0 then (g, counts)
    else if counts[t] != 0 then MoveLoop(g, counts, t - 1, s - 1)
    else if counts[s] != 0 then MoveLoop(MoveGrid(g, t, s), MoveCounts(counts, t, s), t - 1, s - 1)
    else MoveLoop(g, counts, t, s - 1)
  }

  lemma {:induction false} MoveLoopSizes(g: Grid, counts: seq<int>, t: int, s: int, width: nat)
    requires width >= 2 && |counts| == |g| && -1 <= s < t < |g|
    requires forall r :: 0 <= r < |g| ==> |g[r]| == width
    ensures var (h, d) := MoveLoop(g, counts, t, s);
      |h| == |g| && |d| == |g| && forall r :: 0 <= r < |g| ==> |h[r]| == width
    decreases s + 1
  {
    if s >= 0 {
      if counts[t] != 0 {
        MoveLoopSizes(g, counts, t - 1, s - 1, width);
      } else if counts[s] != 0 {
        MoveLoopSizes(MoveGrid(g, t, s), MoveCounts(counts, t, s), t - 1, s - 1, width);
      } else {
        MoveLoopSizes(g, counts, t, s - 1, width);
      }
    }
  }

  /** rowCounts is zero exactly on the empty playable rows. */
  ghost predicate ZeroExact(g: Grid, counts: seq<int>) {
    |counts| == |g| && forall r :: 0 <= r < |g| - 1 ==> (counts[r] == 0 <==> EmptyRow(g[r]))
  }

  /** The first `k` lines have count zero and the rest do not. */
  ghost predicate PackedAt(ls: seq<Line>, k: nat) {
    && k <= |ls|
    && (forall r :: 0 <= r < k ==> ls[r].1 == 0)
    && (forall r :: k <= r < |ls| ==> ls[r].1 != 0)
  }

  lemma {:induction false} FilterConcat<T>(a: seq<T>, b: seq<T>, keep: T -> bool)
    ensures Filter(a + b, keep) == Filter(a, keep) + Filter(b, keep)
  {
    if b == [] {
      assert a + b == a;
    } else {
      FilterConcat(a, b[..|b| - 1], keep);
      assert (a + b)[..|a + b| - 1] == a + b[..|b| - 1];
    }
  }

  lemma {:induction false} FilterNone<T>(s: seq<T>, keep: T -> bool)
    requires forall i :: 0 <= i < |s| ==> !keep(s[i])
    ensures Filter(s, keep) == []
  {
    if s != [] {
      FilterNone(s[..|s| - 1], keep);
    }
  }

  lemma {:induction false} FilterAll<T>(s: seq<T>, keep: T -> bool)
    requires forall i :: 0 <= i < |s| ==> keep(s[i])
    ensures Filter(s, keep) == s
  {
    if s != [] {
      FilterAll(s[..|s| - 1], keep);
    }
  }

  lemma {:induction false} FilterMember<T>(s: seq<T>, keep: T -> bool, i: nat)
    requires i < |Filter(s, keep)|
    ensures keep(Filter(s, keep)[i]) && Filter(s, keep)[i] in s
  {
    if i < |Filter(s[..|s| - 1], keep)| {
      FilterMember(s[..|s| - 1], keep, i);
    }
  }

  /** The two sequences cut at the moved line. */
  lemma MovedParts(ls: seq<Line>, s: nat, t: nat, z: Line)
    requires s < t < |ls|
    ensures var p, e, q := ls[..s], ls[s + 1..t], ls[t + 1..];
      && ls == p + [ls[s]] + (e + [ls[t]]) + q
      && ls[t := ls[s]][s := z] == p + ([z] + e) + [ls[s]] + q
  {
  }

  /** Dropping unused lines before and after a used one. */
  lemma UsedOfParts(p: seq<Line>, a: seq<Line>, l: Line, b: seq<Line>, q: seq<Line>)
    requires (forall i :: 0 <= i < |a| ==> a[i].1 == 0) && (forall i :: 0 <= i < |b| ==> b[i].1 == 0)
    ensures Filter(p + a + [l] + b + q, Used()) == Filter(p, Used()) + Filter([l], Used()) + Filter(q, Used())
  {
    forall i | 0 <= i < |a| ensures !Used()(a[i]) {
    }
    forall i | 0 <= i < |b| ensures !Used()(b[i]) {
    }
    hide Filter, Used;
    FilterNone(a, Used());
    FilterNone(b, Used());
    FilterConcat(p + a + [l] + b, q, Used());
    FilterConcat(p + a + [l], b, Used());
    FilterConcat(p + a, [l], Used());
    FilterConcat(p, a, Used());
  }

  /** Moving a used line down over unused ones does not change the sequence of used lines. */
  lemma MoveKeepsUsed(ls: seq<Line>, s: nat, t: nat, z: Line)
    requires s < t < |ls| && z.1 == 0
    requires forall r :: s < r <= t ==> ls[r].1 == 0
    ensures Filter(ls[t := ls[s]][s := z], Used()) == Filter(ls, Used())
  {
    hide Filter, Used;
    var p, e, q := ls[..s], ls[s + 1..t], ls[t + 1..];
    MovedParts(ls, s, t, z);
    UsedOfParts(p, [], ls[s], e + [ls[t]], q);
    UsedOfParts(p, [z] + e, ls[s], [], q);
    assert p + [] + [ls[s]] == p + [ls[s]];
    assert p + ([z] + e) + [ls[s]] + [] == p + ([z] + e) + [ls[s]];
  }

  lemma BlankIsCleared(row: Row)
    requires |row| >= 2 && row[0] && row[|row| - 1]
    ensures ClearedRow(row) == Blank(|row|)
    ensures EmptyRow(row) <==> row == Blank(|row|)
    ensures Fill(Blank(|row|)) == 0
  {
    FillMeaning(Blank(|row|));
  }

  lemma MoveStep(g: Grid, width: nat, counts: seq<int>, t: nat, s: nat)
    requires Walled(g, width) && ZeroExact(g, counts)
    requires s < t < |g| - 1
    requires counts[s] != 0 && forall r :: s < r <= t ==> counts[r] == 0
    ensures var g', c' := MoveGrid(g, t, s), MoveCounts(counts, t, s);
      && Walled(g', width) && ZeroExact(g', c') && g'[|g| - 1] == g[|g| - 1]
      && Filter(LinesOf(g', c'), Used()) == Filter(LinesOf(g, counts), Used())
  {
    var g', c' := MoveGrid(g, t, s), MoveCounts(counts, t, s);
    BlankIsCleared(g[s]);
    var ls := LinesOf(g, counts);
    assert LinesOf(g', c') == ls[t := ls[s]][s := (g'[s], 0)];
    MoveKeepsUsed(ls, s, t, (g'[s], 0));
  }

  lemma WalledSizes(g: Grid, width: nat, counts: seq<int>)
    requires Walled(g, width) && ZeroExact(g, counts)
    ensures |counts| == |g| && width >= 2 && forall r :: 0 <= r < |g| ==> |g[r]| == width
  {
  }

  lemma PackedHere(g: Grid, counts: seq<int>, k: nat)
    requires |counts| == |g| >= 1 && k <= |g| - 1
    requires (forall r :: 0 <= r < k ==> counts[r] == 0) && (forall r :: k <= r < |g| - 1 ==> counts[r] != 0)
    ensures PackedAt(LinesOf(g, counts), k)
  {
  }

  /** The loop invariant of MoveLines carries through to its end: everything below `t` is settled; when the
      pointers are more than one apart, all rows above the source up to the target are empty. */
  lemma {:induction false} MoveLoopCompacts(g: Grid, width: nat, counts: seq<int>, t: int, s: int) returns (k: nat)
    requires Walled(g, width) && ZeroExact(g, counts)
    requires -1 <= s < t < |g| - 1
    requires forall r :: t < r < |g| - 1 ==> counts[r] != 0
    requires t - s > 1 ==> forall r :: s < r <= t ==> counts[r] == 0
    ensures var (h, d) := MoveLoop(g, counts, t, s);
      && Walled(h, width) && |h| == |g| && ZeroExact(h, d) && h[|g| - 1] == g[|g| - 1]
      && Filter(LinesOf(h, d), Used()) == Filter(LinesOf(g, counts), Used())
      && PackedAt(LinesOf(h, d), k)
    decreases s + 1
  {
    hide Filter, Used, EmptyRow, Solid, LinesOf, ZeroExact, PackedAt;
    WalledSizes(g, width, counts);
    if s < 0 {
      k := if counts[t] == 0 then t + 1 else 0;
      PackedHere(g, counts, k);
    } else if counts[t] != 0 {
      k := MoveLoopCompacts(g, width, counts, t - 1, s - 1);
    } else if counts[s] != 0 {
      MoveStep(g, width, counts, t, s);
      k := MoveLoopCompacts(MoveGrid(g, t, s), width, MoveCounts(counts, t, s), t - 1, s - 1);
    } else {
      k := MoveLoopCompacts(g, width, counts, t, s - 1);
    }
  }

  lemma PackedSplit(ls: seq<Line>, k: nat, z: Line)
    requires PackedAt(ls, k) && forall r :: 0 <= r < k ==> ls[r] == z
    ensures ls == Repeat(z, k) + Filter(ls, Used())
  {
    assert ls == ls[..k] + ls[k..];
    assert ls[..k] == Repeat(z, k);
    FilterConcat(ls[..k], ls[k..], Used());
    FilterNone(ls[..k], Used());
    FilterAll(ls[k..], Used());
  }

  lemma ZeroIsBlank(g: Grid, width: nat, counts: seq<int>, r: int)
    requires Walled(g, width) && ZeroExact(g, counts) && 0 <= r < |g| - 1 && counts[r] == 0
    ensures LinesOf(g, counts)[r] == (Blank(width), 0)
  {
    BlankIsCleared(g[r]);
  }

  /** MoveLines is a stable compaction: the used lines, each with its count, end contiguous at the bottom in their
      original order, under as many blank lines as are needed. */
  lemma MoveLinesCompacts(g: Grid, width: nat, counts: seq<int>)
    requires |g| >= 2 && Walled(g, width) && ZeroExact(g, counts)
    ensures var (h, d) := MoveLoop(g, counts, |g| - 2, |g| - 3);
      var used := Filter(LinesOf(g, counts), Used());
      && Walled(h, width) && |h| == |g| && |d| == |g| && h[|g| - 1] == g[|g| - 1]
      && |used| <= |g| - 1
      && LinesOf(h, d) == Repeat((Blank(width), 0), |g| - 1 - |used|) + used
  {
    var k := MoveLoopCompacts(g, width, counts, |g| - 2, |g| - 3);
    var (h, d) := MoveLoop(g, counts, |g| - 2, |g| - 3);
    forall r | 0 <= r < k ensures LinesOf(h, d)[r] == (Blank(width), 0) {
      assert LinesOf(h, d)[r].1 == 0;
      ZeroIsBlank(h, width, d, r);
    }
    PackedSplit(LinesOf(h, d), k, (Blank(width), 0));
  }

  // ----- CheckLines -----

  predicate IsFullAt(counts: seq<int>, width: nat, r: int) {
    0 <= r < |counts| - 1 && counts[r] == width - 2
  }

  /** The grid after every playable row whose count is width - 2 has been cleared. */
  function ClearFullGrid(g: Grid, counts: seq<int>, width: nat): (h: Grid)
    requires |counts| == |g| && forall r :: 0 <= r < |g| ==> |g[r]| >= 2
    ensures |h| == |g| && forall r :: 0 <= r < |g| ==> |h[r]| == |g[r]|
  {
    seq(|g|, r requires 0 <= r < |g| => if IsFullAt(counts, width, r) then ClearedRow(g[r]) else g[r])
  }

  function ClearFullCounts(counts: seq<int>, width: nat): (d: seq<int>)
    ensures |d| == |counts|
  {
    seq(|counts|, r requires 0 <= r < |counts| => if IsFullAt(counts, width, r) then 0 else counts[r])
  }

  /** CheckLines as the code does it: clear by count, then run the MoveLines loop if anything was cleared. */
  ghost function CheckedLines(g: Grid, counts: seq<int>, width: nat): (Grid, seq<int>)
    requires |counts| == |g| >= 2 && forall r :: 0 <= r < |g| ==> |g[r]| >= 2
  {
    if exists r :: IsFullAt(counts, width, r) then
      MoveLoop(ClearFullGrid(g, counts, width), ClearFullCounts(counts, width), |g| - 2, |g| - 3)
    else (g, counts)
  }

  /** No empty row lies beneath a non-empty one. */
  ghost predicate Settled(g: Grid) {
    forall r, q :: 0 <= r < q < |g| - 1 && EmptyRow(g[q]) ==> EmptyRow(g[r])
  }

  lemma {:induction false} FilterNarrows<T>(s: seq<T>, keep: T -> bool)
    ensures |Filter(s, keep)| <= |s|
  {
    if s != [] {
      FilterNarrows(s[..|s| - 1], keep);
    }
  }

  lemma FilterLast<T>(s: seq<T>, keep: T -> bool)
    requires s != []
    ensures Filter(s, keep) ==
      Filter(s[..|s| - 1], keep) + (if keep(s[|s| - 1]) then [s[|s| - 1]] else [])
  {
  }

  lemma FilterOne<T>(l: T, keep: T -> bool)
    ensures Filter([l], keep) == if keep(l) then [l] else []
  {
    assert [l][..0] == [];
  }

  /** Clearing the full lines and then keeping the used ones keeps the used ones among the lines that were not full. */
  lemma {:induction false} ClearThenKeep(ls: seq<Line>, cl: seq<Line>, full: int)
    requires full != 0 && |ls| == |cl|
    requires forall r :: 0 <= r < |ls| ==> if ls[r].1 == full then cl[r].1 == 0 else cl[r] == ls[r]
    ensures Filter(cl, Used()) == Filter(Filter(ls, NotFull(full)), Used())
  {
    hide Filter;
    if ls == [] {
      FilterNone(ls, NotFull(full));
      FilterNone(cl, Used());
    } else {
      var last := ls[|ls| - 1];
      var ls', cl' := ls[..|ls| - 1], cl[..|cl| - 1];
      ClearThenKeep(ls', cl', full);
      FilterLast(ls, NotFull(full));
      FilterLast(cl, Used());
      if last.1 != full {
        FilterConcat(Filter(ls', NotFull(full)), [last], Used());
        FilterOne(last, Used());
        assert Filter(ls, NotFull(full)) == Filter(ls', NotFull(full)) + [last];
      } else {
        assert Filter(ls, NotFull(full)) == Filter(ls', NotFull(full));
        assert Filter(cl, Used()) == Filter(cl', Used());
      }
    }
  }

  lemma SettledIsPacked(g: Grid, counts: seq<int>) returns (k: nat)
    requires |g| >= 1 && ZeroExact(g, counts) && Settled(g)
    ensures PackedAt(LinesOf(g, counts), k)
  {
    k := 0;
    while k < |g| - 1 && counts[k] == 0
      invariant k <= |g| - 1
      invariant forall r :: 0 <= r < k ==> counts[r] == 0
    {
      k := k + 1;
    }
    if k < |g| - 1 {
      forall r | k <= r < |g| - 1 ensures counts[r] != 0 {
        assert !EmptyRow(g[k]);
      }
    }
  }

  lemma ClearedFacts(g: Grid, width: nat, counts: seq<int>)
    requires width >= 3 && Walled(g, width) && Index(g, counts)
    ensures Walled(ClearFullGrid(g, counts, width), width)
    ensures ZeroExact(ClearFullGrid(g, counts, width), ClearFullCounts(counts, width))
    ensures ClearFullGrid(g, counts, width)[|g| - 1] == g[|g| - 1]
    ensures ZeroExact(g, counts)
  {
    forall r | 0 <= r < |g|
      ensures counts[r] == Fill(g[r]) ==> (counts[r] == 0 <==> EmptyRow(g[r]))
      ensures ClearedRow(g[r]) == Blank(width) && EmptyRow(Blank(width))
    {
      BlankIsCleared(g[r]);
      FillMeaning(g[r]);
    }
  }

  /** CheckLines with MoveLines deletes exactly the full rows, keeps the others in order with their counts, and adds
      as many blank rows on top. */
  lemma CheckLinesDeletesFullRows(g: Grid, width: nat, counts: seq<int>)
    requires width >= 3 && |g| >= 2 && Walled(g, width) && Index(g, counts) && Settled(g)
    ensures var (h, d) := CheckedLines(g, counts, width);
      var kept := Filter(LinesOf(g, counts), NotFull(width - 2));
      && Walled(h, width) && |h| == |g| && |d| == |g| && h[|g| - 1] == g[|g| - 1]
      && |kept| <= |g| - 1
      && LinesOf(h, d) == Repeat((Blank(width), 0), |g| - 1 - |kept|) + kept
  {
    var ls := LinesOf(g, counts);
    var kept := Filter(ls, NotFull(width - 2));
    FilterNarrows(ls, NotFull(width - 2));
    if exists r :: IsFullAt(counts, width, r) {
      ClearedFacts(g, width, counts);
      SomeFullDeleted(g, width, counts, ClearFullGrid(g, counts, width), ClearFullCounts(counts, width));
    } else {
      forall r | 0 <= r < |ls| ensures NotFull(width - 2)(ls[r]) {
        assert !IsFullAt(counts, width, r);
      }
      FilterAll(ls, NotFull(width - 2));
    }
  }

  /** `g1` is `g` with the lines of count width - 2 blanked. */
  ghost predicate Blanked(g: Grid, width: nat, counts: seq<int>, g1: Grid, c1: seq<int>) {
    && |g| == |counts| == |g1| == |c1| >= 1
    && (forall r :: 0 <= r < |g| - 1 ==>
          if counts[r] == width - 2 then c1[r] == 0 else g1[r] == g[r] && c1[r] == counts[r])
  }

  lemma SomeFullDeleted(g: Grid, width: nat, counts: seq<int>, g1: Grid, c1: seq<int>)
    requires width >= 3 && |g| >= 2 && Walled(g, width) && ZeroExact(g, counts) && Settled(g)
    requires Blanked(g, width, counts, g1, c1) && Walled(g1, width) && ZeroExact(g1, c1)
    ensures var (h, d) := MoveLoop(g1, c1, |g| - 2, |g| - 3);
      var kept := Filter(LinesOf(g, counts), NotFull(width - 2));
      && Walled(h, width) && |h| == |g| && |d| == |g| && h[|g| - 1] == g1[|g| - 1]
      && |kept| <= |g| - 1
      && LinesOf(h, d) == Repeat((Blank(width), 0), |g| - 1 - |kept|) + kept
  {
    var kept := Filter(LinesOf(g, counts), NotFull(width - 2));
    var k := SettledIsPacked(g, counts);
    KeptIsPacked(g, width, counts, k);
    FilterNarrows(LinesOf(g, counts), NotFull(width - 2));
    Repad(|g| - 1, k, (Blank(width), 0), kept, Filter(kept, Used()));
    MoveLinesCompacts(g1, width, c1);
    ClearThenKeep(LinesOf(g, counts), LinesOf(g1, c1), width - 2);
  }

  lemma Repad<T>(n: nat, k: nat, z: T, kept: seq<T>, used: seq<T>)
    requires |kept| == k + |used| <= n && kept == Repeat(z, k) + used
    ensures Repeat(z, n - |used|) + used == Repeat(z, n - |kept|) + kept
  {
    assert Repeat(z, n - |used|) == Repeat(z, n - |kept|) + Repeat(z, k);
  }

  /** The lines that survive clearing still start with the `k` blank lines the stack started with. */
  lemma KeptIsPacked(g: Grid, width: nat, counts: seq<int>, k: nat)
    requires width >= 3 && |g| >= 1 && Walled(g, width) && ZeroExact(g, counts) && PackedAt(LinesOf(g, counts), k)
    ensures var kept := Filter(LinesOf(g, counts), NotFull(width - 2));
      var used := Filter(kept, Used());
      |kept| == k + |used| && kept == Repeat((Blank(width), 0), k) + used
  {
    hide Filter;
    var ls := LinesOf(g, counts);
    var f := NotFull(width - 2);
    forall r | 0 <= r < k ensures ls[r] == (Blank(width), 0) {
      BlankIsCleared(g[r]);
    }
    hide LinesOf, Walled, ZeroExact;
    assert ls == ls[..k] + ls[k..];
    assert ls[..k] == Repeat((Blank(width), 0), k);
    FilterConcat(ls[..k], ls[k..], f);
    FilterAll(ls[..k], f);
    var tail := Filter(ls[k..], f);
    forall i | 0 <= i < |tail| ensures Used()(tail[i]) {
      FilterMember(ls[k..], f, i);
    }
    FilterConcat(ls[..k], tail, Used());
    FilterNone(ls[..k], Used());
    FilterAll(tail, Used());
  }
}

/** What is on screen: panels stacked in the order they were added, with marks for the cells that need printing
    (Common/Libs/Console/Console.cpp, Panel/Panel.cpp). A screen changes by adding, editing and closing panels and by
    refreshing; every cell whose picture changed since the last refresh stays marked until the next one. */
module Screens {
  import opened Common
  import opened Cells

  /** A panel: its place on the console, its cells and its marks. */
  datatype Pane = Pane(top: nat, left: nat, height: nat, width: nat, cells: seq<Cell>, dirty: seq<bool>)

  /** The panels from the bottom up, the console's own marks, and the picture at the last refresh. */
  datatype Screen = Screen(height: nat, width: nat, panes: seq<Pane>, dirty: seq<bool>, shown: seq<Cell>)

  predicate GoodPane(p: Pane) {
    IsGrid(p.cells, p.height, p.width) && IsGrid(p.dirty, p.height, p.width)
  }

  predicate GoodPanes(ps: seq<Pane>) {
    forall i :: 0 <= i < |ps| ==> GoodPane(ps[i])
  }

  predicate GoodScreen(s: Screen) {
    IsGrid(s.dirty, s.height, s.width) && IsGrid(s.shown, s.height, s.width) && GoodPanes(s.panes)
  }

  predicate Covers(p: Pane, y: nat, x: nat) {
    p.top <= y < p.top + p.height && p.left <= x < p.left + p.width
  }

  function CellOf(p: Pane, y: nat, x: nat): Cell
    requires GoodPane(p) && Covers(p, y, x)
  {
    At(p.cells, p.height, p.width, y - p.top, x - p.left)
  }

  predicate MarkOf(p: Pane, y: nat, x: nat)
    requires GoodPane(p)
  {
    Covers(p, y, x) && At(p.dirty, p.height, p.width, y - p.top, x - p.left)
  }

  /** The picture: the content of the last-added panel over the cell, or a blank. */
  function Composed(ps: seq<Pane>, y: nat, x: nat): Cell
    requires GoodPanes(ps)
  {
    if ps == [] then DEFAULT_CELL
    else
      var last := ps[|ps| - 1];
      if Covers(last, y, x) then CellOf(last, y, x) else Composed(ps[..|ps| - 1], y, x)
  }

  /** Some panel over the cell has it marked. */
  predicate Marked(ps: seq<Pane>, y: nat, x: nat)
    requires GoodPanes(ps)
  {
    exists i :: 0 <= i < |ps| && MarkOf(ps[i], y, x)
  }

  /** The marks that the printer gets at a refresh. */
  predicate Printed(s: Screen, y: nat, x: nat)
    requires GoodScreen(s) && y < s.height && x < s.width
  {
    At(s.dirty, s.height, s.width, y, x) || Marked(s.panes, y, x)
  }

  /** Every cell whose picture differs from the one last printed will be printed at the next refresh. */
  ghost predicate Tracked(s: Screen)
    requires GoodScreen(s)
  {
    forall y: nat, x: nat ::
      y < s.height && x < s.width && Composed(s.panes, y, x) != At(s.shown, s.height, s.width, y, x) ==>
        Printed(s, y, x)
  }

  // ----- steps -----

  /** What changed is marked, and no mark is lost. */
  predicate CellsEdited(b: seq<Cell>, d: seq<bool>, b': seq<Cell>, d': seq<bool>) {
    && |b| == |d| == |b'| == |d'|
    && (forall i :: 0 <= i < |b| ==> b[i] != b'[i] ==> d'[i])
    && (forall i :: 0 <= i < |b| ==> d[i] ==> d'[i])
  }

  /** Any edit of a panel leaves it where it is. */
  predicate EditOK(p: Pane, q: Pane) {
    && (p.top, p.left, p.height, p.width) == (q.top, q.left, q.height, q.width)
    && CellsEdited(p.cells, p.dirty, q.cells, q.dirty)
  }

  predicate AddStep(s: Screen, s': Screen) {
    && |s'.panes| > 0 && s' == s.(panes := s.panes + [s'.panes[|s'.panes| - 1]])
    && var p := s'.panes[|s'.panes| - 1]; p.dirty == Repeat(true, |p.dirty|)
  }

  predicate EditStep(s: Screen, s': Screen, i: nat) {
    i < |s.panes| == |s'.panes| && EditOK(s.panes[i], s'.panes[i]) && s' == s.(panes := s.panes[i := s'.panes[i]])
  }

  /** The marks and everything under the panel. */
  predicate MarkedUnder(d: seq<bool>, d': seq<bool>, h: nat, w: nat, p: Pane)
    requires IsGrid(d, h, w) && IsGrid(d', h, w)
  {
    forall y: nat, x: nat :: y < h && x < w ==> At(d', h, w, y, x) == (At(d, h, w, y, x) || Covers(p, y, x))
  }

  predicate CloseStep(s: Screen, s': Screen, i: nat)
    requires GoodScreen(s) && GoodScreen(s')
  {
    && i < |s.panes| && s' == s.(panes := s.panes[..i] + s.panes[i + 1..], dirty := s'.dirty)
    && MarkedUnder(s.dirty, s'.dirty, s.height, s.width, s.panes[i])
  }

  /** The picture is printed and every mark is cleared. */
  predicate RefreshStep(s: Screen, s': Screen)
    requires GoodScreen(s) && GoodScreen(s')
  {
    && s' == s.(panes := s'.panes, dirty := Repeat(false, |s.dirty|), shown := s'.shown)
    && |s'.panes| == |s.panes|
    && (forall i :: 0 <= i < |s.panes| ==> s'.panes[i] == s.panes[i].(dirty := Repeat(false, |s.panes[i].dirty|)))
    && (forall y: nat, x: nat :: y < s.height && x < s.width ==>
          At(s'.shown, s.height, s.width, y, x) == Composed(s.panes, y, x))
  }

  ghost predicate Step(s: Screen, s': Screen)
    requires GoodScreen(s) && GoodScreen(s')
  {
    AddStep(s, s') || (exists i :: EditStep(s, s', i)) || (exists i :: CloseStep(s, s', i)) || RefreshStep(s, s')
  }

  // ----- the picture -----

  lemma {:induction false} ComposedAdd(ps: seq<Pane>, p: Pane, y: nat, x: nat)
    requires GoodPanes(ps) && GoodPane(p)
    ensures GoodPanes(ps + [p])
    ensures Composed(ps + [p], y, x) == if Covers(p, y, x) then CellOf(p, y, x) else Composed(ps, y, x)
  {
    assert (ps + [p])[..|ps|] == ps;
  }

  /** The last-added panel over a cell decides. */
  lemma {:induction false} ComposedIsTop(ps: seq<Pane>, i: nat, y: nat, x: nat)
    requires GoodPanes(ps) && i < |ps| && Covers(ps[i], y, x)
    requires forall j :: i < j < |ps| ==> !Covers(ps[j], y, x)
    ensures Composed(ps, y, x) == CellOf(ps[i], y, x)
  {
    if i < |ps| - 1 {
      ComposedIsTop(ps[..|ps| - 1], i, y, x);
    }
  }

  /** A cell under no panel is blank. */
  lemma {:induction false} ComposedIsBlank(ps: seq<Pane>, y: nat, x: nat)
    requires GoodPanes(ps) && forall i :: 0 <= i < |ps| ==> !Covers(ps[i], y, x)
    ensures Composed(ps, y, x) == DEFAULT_CELL
  {
    if ps != [] {
      ComposedIsBlank(ps[..|ps| - 1], y, x);
    }
  }

  /** Changing one panel's cells changes the picture only where that panel's own cell changed. */
  lemma {:induction false} ComposedEdit(ps: seq<Pane>, i: nat, q: Pane, y: nat, x: nat)
    requires GoodPanes(ps) && i < |ps| && GoodPane(q)
    requires (ps[i].top, ps[i].left, ps[i].height, ps[i].width) == (q.top, q.left, q.height, q.width)
    ensures GoodPanes(ps[i := q])
    ensures Composed(ps[i := q], y, x) != Composed(ps, y, x) ==>
      Covers(q, y, x) && CellOf(q, y, x) != CellOf(ps[i], y, x)
  {
    var n := |ps| - 1;
    if i < n {
      ComposedEdit(ps[..n], i, q, y, x);
      assert ps[i := q][..n] == ps[..n][i := q];
    } else {
      assert ps[i := q][..n] == ps[..n];
    }
  }

  /** Taking a panel away changes the picture only under it. */
  lemma {:induction false} ComposedRemove(ps: seq<Pane>, i: nat, y: nat, x: nat)
    requires GoodPanes(ps) && i < |ps| && !Covers(ps[i], y, x)
    ensures GoodPanes(ps[..i] + ps[i + 1..])
    ensures Composed(ps[..i] + ps[i + 1..], y, x) == Composed(ps, y, x)
  {
    var n := |ps| - 1;
    if i < n {
      ComposedRemove(ps[..n], i, y, x);
      assert (ps[..i] + ps[i + 1..])[..n - 1] == ps[..n][..i] + ps[..n][i + 1..];
    } else {
      assert ps[..i] + ps[i + 1..] == ps[..n];
    }
  }

  /** Marks do not matter to the picture. */
  lemma {:induction false} ComposedIgnoresMarks(ps: seq<Pane>, qs: seq<Pane>, y: nat, x: nat)
    requires GoodPanes(ps) && GoodPanes(qs) && |qs| == |ps|
    requires forall i :: 0 <= i < |ps| ==> qs[i] == ps[i].(dirty := qs[i].dirty)
    ensures Composed(qs, y, x) == Composed(ps, y, x)
  {
    if ps != [] {
      var n := |ps| - 1;
      assert qs[n] == ps[n].(dirty := qs[n].dirty);
      ComposedIgnoresMarks(ps[..n], qs[..n], y, x);
    }
  }

  // ----- what every step keeps -----

  lemma AddKeepsTracked(s: Screen, s': Screen)
    requires GoodScreen(s) && GoodScreen(s') && Tracked(s) && AddStep(s, s')
    ensures Tracked(s')
  {
    var n := |s.panes|;
    var p := s'.panes[n];
    forall y: nat, x: nat | y < s.height && x < s.width
      && Composed(s'.panes, y, x) != At(s'.shown, s'.height, s'.width, y, x)
      ensures Printed(s', y, x)
    {
      ComposedAdd(s.panes, p, y, x);
      if Covers(p, y, x) {
        IndexFits(p.height, p.width, y - p.top, x - p.left);
        assert MarkOf(s'.panes[n], y, x);
      } else if Marked(s.panes, y, x) {
        var i :| 0 <= i < n && MarkOf(s.panes[i], y, x);
        assert MarkOf(s'.panes[i], y, x);
      }
    }
  }

  lemma EditKeepsTracked(s: Screen, s': Screen, i: nat)
    requires GoodScreen(s) && GoodScreen(s') && Tracked(s) && EditStep(s, s', i)
    ensures Tracked(s')
  {
    var p, q := s.panes[i], s'.panes[i];
    forall y: nat, x: nat | y < s.height && x < s.width
      && Composed(s'.panes, y, x) != At(s'.shown, s'.height, s'.width, y, x)
      ensures Printed(s', y, x)
    {
      ComposedEdit(s.panes, i, q, y, x);
      EditMarks(p, q, y, x);
      if Composed(s'.panes, y, x) != Composed(s.panes, y, x) {
        assert MarkOf(s'.panes[i], y, x);
      } else if Marked(s.panes, y, x) {
        var j :| 0 <= j < |s.panes| && MarkOf(s.panes[j], y, x);
        assert MarkOf(s'.panes[j], y, x);
      }
    }
  }

  lemma EditMarks(p: Pane, q: Pane, y: nat, x: nat)
    requires GoodPane(p) && GoodPane(q) && EditOK(p, q)
    ensures MarkOf(p, y, x) ==> MarkOf(q, y, x)
    ensures Covers(p, y, x) && CellOf(q, y, x) != CellOf(p, y, x) ==> MarkOf(q, y, x)
  {
    if Covers(p, y, x) {
      IndexFits(p.height, p.width, y - p.top, x - p.left);
    }
  }

  lemma CloseKeepsTracked(s: Screen, s': Screen, i: nat)
    requires GoodScreen(s) && GoodScreen(s') && Tracked(s) && CloseStep(s, s', i)
    ensures Tracked(s')
  {
    var p := s.panes[i];
    forall y: nat, x: nat | y < s.height && x < s.width
      && Composed(s'.panes, y, x) != At(s'.shown, s'.height, s'.width, y, x)
      ensures Printed(s', y, x)
    {
      if !Covers(p, y, x) {
        ComposedRemove(s.panes, i, y, x);
        if Marked(s.panes, y, x) {
          var j :| 0 <= j < |s.panes| && MarkOf(s.panes[j], y, x);
          assert j != i;
          assert MarkOf(s'.panes[if j < i then j else j - 1], y, x);
        }
      }
    }
  }

  lemma RefreshKeepsTracked(s: Screen, s': Screen)
    requires GoodScreen(s) && GoodScreen(s') && RefreshStep(s, s')
    ensures Tracked(s')
  {
    forall y: nat, x: nat | y < s.height && x < s.width
      ensures Composed(s'.panes, y, x) == At(s'.shown, s'.height, s'.width, y, x)
    {
      ComposedIgnoresMarks(s.panes, s'.panes, y, x);
    }
  }

  lemma StepKeepsTracked(s: Screen, s': Screen)
    requires GoodScreen(s) && GoodScreen(s') && Tracked(s) && Step(s, s')
    ensures Tracked(s')
  {
    hide AddStep, EditStep, CloseStep, RefreshStep, Tracked;
    if AddStep(s, s') {
      AddKeepsTracked(s, s');
    } else if RefreshStep(s, s') {
      RefreshKeepsTracked(s, s');
    } else if i :| EditStep(s, s', i) {
      EditKeepsTracked(s, s', i);
    } else {
      var i :| CloseStep(s, s', i);
      CloseKeepsTracked(s, s', i);
    }
  }

  // ----- runs -----

  /** An empty screen, before anything was printed on a blank terminal. */
  function Blank(h: nat, w: nat): (s: Screen)
    ensures GoodScreen(s)
  {
    Screen(h, w, [], Repeat(false, h * w), Repeat(DEFAULT_CELL, h * w))
  }

  ghost predicate Run(h: nat, w: nat, run: seq<Screen>) {
    && |run| > 0 && run[0] == Blank(h, w)
    && (forall k :: 0 <= k < |run| ==> GoodScreen(run[k]))
    && (forall k :: 0 <= k < |run| - 1 ==> Step(run[k], run[k + 1]))
  }

  lemma {:induction false} RunIsTracked(h: nat, w: nat, run: seq<Screen>, k: nat)
    requires Run(h, w, run) && k < |run|
    ensures Tracked(run[k])
  {
    if k == 0 {
      forall y: nat, x: nat | y < h && x < w ensures At(run[0].shown, h, w, y, x) == DEFAULT_CELL {
        IndexFits(h, w, y, x);
      }
    } else {
      RunIsTracked(h, w, run, k - 1);
      StepKeepsTracked(run[k - 1], run[k]);
    }
  }

  /** In any run, a refresh prints the last-added panel's content everywhere it differs from what was printed before. */
  lemma EveryRefreshIsFaithful(h: nat, w: nat, run: seq<Screen>, k: nat, y: nat, x: nat)
    requires Run(h, w, run) && k + 1 < |run| && RefreshStep(run[k], run[k + 1])
    requires y < run[k].height && x < run[k].width
    ensures At(run[k + 1].shown, run[k].height, run[k].width, y, x) == Composed(run[k].panes, y, x)
    ensures At(run[k + 1].shown, run[k].height, run[k].width, y, x)
        != At(run[k].shown, run[k].height, run[k].width, y, x)
      ==> Printed(run[k], y, x)
  {
    RunIsTracked(h, w, run, k);
  }
}

/** What every run of the board keeps, for any keys, gravity ticks and block types, as long as the active block is
    collision-free whenever MoveBlockDown is entered. */
module BoardRuns {
  import opened Common
  import opened Shapes
  import opened Grids
  import opened Lines
  import opened Landing
  import opened Rotation
  import opened Blocks
  import opened Boards
  import opened Placement

  /** The board together with how many blocks have been locked and how many rows cleared since the start. */
  datatype Tally = Tally(state: BoardState, locked: nat, cleared: nat)

  /** Filled interior cells of the playable rows, by rowCounts. */
  ghost function CellTotal(s: BoardState): int
    requires GoodState(s)
  {
    Sum(LinesOf(s.grid, s.counts))
  }

  /** Playable rows that rowCounts says are full. */
  ghost function FullCount(s: BoardState): nat
    requires GoodState(s)
  {
    FullLines(LinesOf(s.grid, s.counts), s.width - 2)
  }

  ghost predicate GridInvariant(s: BoardState)
    requires GoodState(s)
  {
    && s.width >= 3 && Walled(s.grid, s.width)
    && Index(s.grid, s.counts) && Settled(s.grid)
  }

  /** What holds between two frames. */
  ghost predicate Invariant(t: Tally) {
    var s := t.state;
    && GoodState(s) && GridInvariant(s) && NoFullRow(s.grid) && !s.ready
    && (s.current.Some? ==> Free(s.grid, s.current.value) && s.shadow == Some(Shadow(s.grid, s.current.value)))
    && CellTotal(s) == 4 * t.locked - (s.width - 2) * t.cleared
  }

  /** What holds between LockBlock and CheckLines, when full rows may stand. */
  ghost predicate JustLocked(s: BoardState, locked: nat, cleared: nat) {
    && GoodState(s) && GridInvariant(s) && s.current.None? && !s.ready
    && CellTotal(s) == 4 * locked - (s.width - 2) * cleared
  }

  /** The state right before MoveBlockDown. */
  ghost function Aimed(s: BoardState, inp: Input): (s': BoardState)
    requires GoodState(s)
    ensures GoodState(s') && s'.current.Some?
  {
    Handled(Active(s, inp.next), inp.key, inp.downHeld)
  }

  /** A block brought in by this frame does not collide where it appears. */
  ghost predicate SpawnClear(s: BoardState, inp: Input)
    requires GoodState(s)
  {
    s.current.None? ==> Free(s.grid, Active(s, inp.next).current.value)
  }

  /** The run hypothesis: after this frame's input the active block does not collide. A blocked spawn that the key moves
      to a free place meets it. */
  ghost predicate AimClear(s: BoardState, inp: Input)
    requires GoodState(s)
  {
    Free(s.grid, Aimed(s, inp).current.value)
  }

  /** An unblocked spawn is enough for it. */
  lemma SpawnClearSuffices(t: Tally, inp: Input)
    requires Invariant(t) && SpawnClear(t.state, inp)
    ensures AimClear(t.state, inp)
  {
  }

  ghost function Advance(t: Tally, inp: Input): (t': Tally)
    requires GoodState(t.state)
    ensures GoodState(t'.state)
  {
    var s1 := Aimed(t.state, inp);
    var s2 := Fallen(s1, inp.gravity);
    if Locks(s1, inp.gravity) then
      Tally(Stepped(t.state, inp), t.locked + 1, t.cleared + FullCount(s2))
    else Tally(Stepped(t.state, inp), t.locked, t.cleared)
  }

  ghost function Run(t: Tally, inputs: seq<Input>): (t': Tally)
    requires GoodState(t.state)
    ensures GoodState(t'.state)
  {
    if inputs == [] then t else Advance(Run(t, inputs[..|inputs| - 1]), inputs[|inputs| - 1])
  }

  ghost predicate AimsClear(t: Tally, inputs: seq<Input>)
    requires GoodState(t.state)
  {
    inputs == [] || (
      var before := inputs[..|inputs| - 1];
      AimsClear(t, before) && AimClear(Run(t, before).state, inputs[|inputs| - 1]))
  }

  // ----- one frame -----

  /** HandleInput leaves the grid alone, and the shadow is where the block will rest. */
  lemma AimedKeepsGrid(s: BoardState, inp: Input)
    requires GoodState(s)
    ensures var s1 := Aimed(s, inp);
      && s1.grid == s.grid && s1.counts == s.counts && s1.width == s.width && s1.table == s.table
      && s1.shadow == Some(Shadow(s.grid, s1.current.value))
      && s1.ready == (s.ready || inp.key.KeySpace?)
  {
  }

  /** A state in which a block may lock: the grid is good, and the block rests on something. */
  ghost predicate AboutToLock(s: BoardState, locked: nat, cleared: nat) {
    && GoodState(s) && GridInvariant(s) && NoFullRow(s.grid) && s.current.Some?
    && Free(s.grid, s.current.value) && !Free(s.grid, Down(s.current.value))
    && CellTotal(s) == 4 * locked - (s.width - 2) * cleared
  }

  /** Locking a free block that rests on something adds four cells, keeps the index and the settled stack, and fills at
      most four rows. */
  lemma AfterLock(s: BoardState, locked: nat, cleared: nat, gravity: bool)
    requires AboutToLock(s, locked, cleared) && (s.ready || gravity)
    ensures JustLocked(Fallen(s, gravity), locked + 1, cleared)
    ensures FullCount(Fallen(s, gravity)) <= 4
  {
    hide Settled, NoFullRow, Free, Index, Sum, FullLines, LinesOf, GridLock, CountsLock;
    var p := s.current.value;
    LockOfFree(s.grid, s.width, s.counts, p);
    LockKeepsSettled(s.grid, s.width, p);
    LockLines(s.grid, s.width, s.counts, p, |MaskOf(p)|);
    NoFullLines(s.grid, s.width, s.counts);
  }

  lemma AimedRests(t: Tally, inp: Input)
    requires Invariant(t) && AimClear(t.state, inp) && Locks(Aimed(t.state, inp), inp.gravity)
    ensures AboutToLock(Aimed(t.state, inp), t.locked, t.cleared)
    ensures Aimed(t.state, inp).ready || inp.gravity
  {
    AimedKeepsGrid(t.state, inp);
  }

  lemma LockOfFree(g: Grid, width: nat, counts: seq<int>, p: Piece)
    requires Walled(g, width) && GoodPiece(p) && Index(g, counts) && Free(g, p)
    ensures Walled(LockGrid(g, p), width)
    ensures Index(LockGrid(g, p), LockCounts(counts, width, p))
  {
    LockKeepsIndexIff(g, width, counts, p);
    forall r, c | 0 <= r < |g| - 1 && 0 <= c < width && Covers(p, r, c) ensures !g[r][c] {
      assert Clear(g, p.y + (r - p.y), p.x + (c - p.x));
    }
  }

  lemma NoFullLines(g: Grid, width: nat, counts: seq<int>)
    requires Walled(g, width) && Index(g, counts) && NoFullRow(g)
    ensures FullLines(LinesOf(g, counts), width - 2) == 0
  {
    var ls := LinesOf(g, counts);
    forall r | 0 <= r < |ls| ensures ls[r].1 != width - 2 {
      FillMeaning(g[r]);
    }
    NoneFull(ls, width - 2);
  }

  lemma {:induction false} NoneFull(ls: seq<Line>, full: int)
    requires forall r :: 0 <= r < |ls| ==> ls[r].1 != full
    ensures FullLines(ls, full) == 0
  {
    if ls != [] {
      NoneFull(ls[..|ls| - 1], full);
    }
  }

  lemma CheckedGrid(s: BoardState)
    requires GoodState(s) && GridInvariant(s)
    ensures var s' := Checked(s);
      && GridInvariant(s') && NoFullRow(s'.grid)
      && CellTotal(s') == CellTotal(s) - (s.width - 2) * FullCount(s)
  {
    CheckLinesKeeps(s.grid, s.width, s.counts);
  }

  lemma Distribute(a: int, b: int, c: int)
    ensures a * (b + c) == a * b + a * c
  {
  }

  /** CheckLines turns the state right after a lock into one that holds between frames. */
  lemma CheckedIsGood(s: BoardState, locked: nat, cleared: nat)
    requires JustLocked(s, locked, cleared)
    ensures Invariant(Tally(Checked(s), locked, cleared + FullCount(s)))
  {
    CheckedGrid(s);
    Distribute(s.width - 2, cleared, FullCount(s));
    CheckedKeepsRest(s);
  }

  lemma CheckedKeepsRest(s: BoardState)
    requires GoodState(s)
    ensures var s' := Checked(s); s'.width == s.width && s'.current == s.current && s'.ready == s.ready
  {
  }

  /** A frame without a lock: the block stays or falls one row, and its resting place does not change. */
  lemma UnlockedIsGood(t: Tally, inp: Input)
    requires Invariant(t) && AimClear(t.state, inp) && !Locks(Aimed(t.state, inp), inp.gravity)
    ensures Invariant(Tally(Fallen(Aimed(t.state, inp), inp.gravity), t.locked, t.cleared))
    ensures Fallen(Aimed(t.state, inp), inp.gravity).current.Some?
  {
    var s := t.state;
    var s1 := Aimed(s, inp);
    AimedKeepsGrid(s, inp);
    NotReadyWithoutLock(s, inp);
    if inp.gravity {
      assert Drop(s.grid, s1.current.value) == Drop(s.grid, Down(s1.current.value));
    }
  }

  /** A hard drop always locks in the same frame, so the ready flag never survives one. */
  lemma NotReadyWithoutLock(s: BoardState, inp: Input)
    requires GoodState(s) && AimClear(s, inp) && !s.ready
    requires !Locks(Aimed(s, inp), inp.gravity)
    ensures !Aimed(s, inp).ready
  {
  }

  lemma SteppedByAim(s: BoardState, inp: Input)
    requires GoodState(s)
    ensures var s2 := Fallen(Aimed(s, inp), inp.gravity);
      Stepped(s, inp) == if s2.current.None? then Checked(s2) else s2
  {
  }

  lemma LocksLeavesNone(s: BoardState, gravity: bool)
    requires GoodState(s) && s.current.Some?
    ensures Fallen(s, gravity).current.None? <==> Locks(s, gravity)
  {
  }

  lemma AdvanceByCase(t: Tally, inp: Input)
    requires GoodState(t.state)
    ensures var s1 := Aimed(t.state, inp);
      var s2 := Fallen(s1, inp.gravity);
      Advance(t, inp) == if Locks(s1, inp.gravity)
        then Tally(Checked(s2), t.locked + 1, t.cleared + FullCount(s2))
        else Tally(s2, t.locked, t.cleared)
  {
    hide GoodState, Aimed, Fallen, Locks, Checked, FullCount, Stepped;
    SteppedByAim(t.state, inp);
    LocksLeavesNone(Aimed(t.state, inp), inp.gravity);
  }

  /** One Update from a good state ends in a good state, and clears at most four rows. */
  lemma FrameKeepsInvariant(t: Tally, inp: Input)
    requires GoodState(t.state) && Invariant(t) && AimClear(t.state, inp)
    ensures Invariant(Advance(t, inp))
    ensures Advance(t, inp).cleared <= t.cleared + 4
  {
    hide *;
    if Locks(Aimed(t.state, inp), inp.gravity) {
      AimedRests(t, inp);
      AfterLock(Aimed(t.state, inp), t.locked, t.cleared, inp.gravity);
      CheckedIsGood(Fallen(Aimed(t.state, inp), inp.gravity), t.locked + 1, t.cleared);
    } else {
      UnlockedIsGood(t, inp);
    }
    AdvanceByCase(t, inp);
  }

  // ----- whole runs -----

  /** A new board, before the first frame. */
  function Start(table: Table, width: nat, height: nat, first: ShapeType, second: ShapeType): Tally {
    Tally(InitialState(table, width, height, first, second), 0, 0)
  }

  lemma {:induction false} AllZero(ls: seq<Line>)
    requires forall r :: 0 <= r < |ls| ==> ls[r].1 == 0
    ensures Sum(ls) == 0
  {
    if ls != [] {
      AllZero(ls[..|ls| - 1]);
    }
  }

  lemma InitialGridIsGood(width: nat, height: nat)
    requires width >= 3 && height >= 2
    ensures var g, d := InitialGrid(width, height), InitialCounts(height);
      Walled(g, width) && Index(g, d) && Settled(g) && NoFullRow(g) && Sum(LinesOf(g, d)) == 0
  {
    var g, d := InitialGrid(width, height), InitialCounts(height);
    forall r | 0 <= r < height - 1 ensures d[r] == Fill(g[r]) && EmptyRow(g[r]) && !FullRow(g[r]) {
      FillMeaning(g[r]);
      assert !g[r][1];
    }
    AllZero(LinesOf(g, d));
  }

  lemma StartIsGood(table: Table, width: nat, height: nat, first: ShapeType, second: ShapeType)
    requires GoodTable(table) && width >= 3 && height >= 2
    ensures Invariant(Start(table, width, height, first, second))
  {
    InitialGridIsGood(width, height);
  }

  lemma {:induction false} RunKeepsInvariant(t: Tally, inputs: seq<Input>)
    requires Invariant(t) && AimsClear(t, inputs)
    ensures Invariant(Run(t, inputs))
  {
    if inputs != [] {
      var before := inputs[..|inputs| - 1];
      RunKeepsInvariant(t, before);
      FrameKeepsInvariant(Run(t, before), inputs[|inputs| - 1]);
    }
  }

  /** Every run from a new board in which the active block never overlaps after input, for any good table of shapes. */
  lemma EveryRun(table: Table, width: nat, height: nat, first: ShapeType, second: ShapeType, inputs: seq<Input>)
    requires GoodTable(table) && width >= 3 && height >= 2
    requires AimsClear(Start(table, width, height, first, second), inputs)
    ensures Invariant(Run(Start(table, width, height, first, second), inputs))
  {
    StartIsGood(table, width, height, first, second);
    RunKeepsInvariant(Start(table, width, height, first, second), inputs);
  }

  // ----- hard drop and ghost -----

  lemma HardDropAims(t: Tally, inp: Input)
    requires Invariant(t) && t.state.current.Some? && inp.key.KeySpace?
    ensures t.state.shadow.Some? && GoodPiece(t.state.shadow.value)
    ensures Aimed(t.state, inp) ==
      t.state.(current := t.state.shadow, ready := true, soft := t.state.soft && inp.downHeld)
    ensures Locks(Aimed(t.state, inp), inp.gravity)
  {
    var s := t.state;
    var rest := Drop(s.grid, s.current.value);
    assert Free(s.grid, rest) && !Free(s.grid, Down(rest));
    assert Drop(s.grid, rest) == rest;
  }

  /** The state in which the shown ghost has been locked and CheckLines is about to run. */
  function GhostLocked(s: BoardState, inp: Input): BoardState
    requires s.shadow.Some? && |s.shadow.value.shape| == ROTATION_COUNT && 0 <= s.shadow.value.rot < ROTATION_COUNT
  {
    s.(grid := LockGrid(s.grid, s.shadow.value), counts := LockCounts(s.counts, s.width, s.shadow.value),
       current := None, soft := s.soft && inp.downHeld)
  }

  /** Pressing the hard-drop key locks in the same Update, on exactly the cells of the ghost shown by the frame before,
      whether or not gravity moved the block since. */
  lemma HardDropFillsGhost(t: Tally, inp: Input)
    requires Invariant(t) && t.state.current.Some? && inp.key.KeySpace?
    ensures t.state.shadow.Some? && GoodPiece(t.state.shadow.value)
    ensures GoodState(GhostLocked(t.state, inp)) && Stepped(t.state, inp) == Checked(GhostLocked(t.state, inp))
  {
    HardDropAims(t, inp);
    SteppedByAim(t.state, inp);
    assert Fallen(Aimed(t.state, inp), inp.gravity) == GhostLocked(t.state, inp);
  }

  /** Whatever makes a block lock, in any state at all, it locks on the cells of its ghost. */
  lemma EveryLockFillsGhost(s: BoardState, inp: Input)
    requires GoodState(s) && Locks(Aimed(s, inp), inp.gravity)
    ensures Aimed(s, inp).shadow == Aimed(s, inp).current
  {
    AimedKeepsGrid(s, inp);
  }

  // ----- where the AI's plan lands -----

  /** If the active block has reached the planned rotation and column, at any height on the simulated fall path, then a
      hard drop locks it in the same Update, and the grid it leaves for CheckLines is the one the search scored. */
  lemma PlannedDropMatchesScore(t: Tally, inp: Input, p: Piece, rot: int, x: int)
    requires Invariant(t) && t.state.current.Some? && inp.key.KeySpace?
    requires GoodPiece(p) && 0 <= rot && Placeable(t.state.grid, p, rot, x) && GoodPiece(Candidate(p, rot, x))
    requires var live := t.state.current.value;
      live == Candidate(p, rot, x).(y := live.y) && 0 <= live.y <= Drop(t.state.grid, Candidate(p, rot, x)).y
    ensures t.state.shadow.Some? && GoodPiece(t.state.shadow.value) && GoodState(GhostLocked(t.state, inp))
    ensures Stepped(t.state, inp) == Checked(GhostLocked(t.state, inp))
    ensures GhostLocked(t.state, inp).grid == LockGrid(t.state.grid, Drop(t.state.grid, Candidate(p, rot, x)))
  {
    HardDropFillsGhost(t, inp);
    LandsAsScored(t.state.grid, t.state.width, p, rot, x, t.state.current.value);
  }
}

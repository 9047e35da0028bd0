/** Blocked spawns (Client/TetrisBoard.cpp, Instantiate and IsFull). The game-over test does not look at every row where
    blocks appear, so a block can appear on filled cells. This is exactly when that breaks rowCounts. */
module Spawns {
  import opened Common
  import opened Shapes
  import opened Grids
  import opened Lines
  import opened Landing
  import opened Rotation
  import opened Blocks
  import opened Boards
  import opened BoardRuns

  /** Where Instantiate puts a block of type `t`. */
  function SpawnPiece(t: ShapeType, width: nat): Piece {
    NewPiece(ModelPointers, t, SPAWN_X, SPAWN_Y).(x := width / 2 - 2)
  }

  lemma SpawnPieceGood(t: ShapeType, width: nat)
    ensures GoodPiece(SpawnPiece(t, width)) && |MaskOf(SpawnPiece(t, width))| <= 4
  {
    ModelPointersGood(t);
  }

  /** When IsFull says no, a spawn is unblocked if and only if none of the block's row-3 cells is filled. */
  lemma SpawnUnblockedIff(g: Grid, width: nat, t: ShapeType)
    requires Walled(g, width) && width >= 6 && |g| >= 5 && !TopRowsFilled(g)
    ensures GoodPiece(SpawnPiece(t, width))
    ensures Free(g, SpawnPiece(t, width)) <==>
      forall c :: 0 <= c < width && Covers(SpawnPiece(t, width), 3, c) ==> !g[3][c]
  {
    SpawnPieceGood(t, width);
    SpawnRow3(g, width, t, SpawnPiece(t, width));
  }

  lemma SpawnRow3(g: Grid, width: nat, t: ShapeType, p: Piece)
    requires Walled(g, width) && width >= 6 && |g| >= 5 && !TopRowsFilled(g)
    requires GoodPiece(p) && |MaskOf(p)| <= 4 && p == SpawnPiece(t, width)
    ensures Free(g, p) <==> forall c :: 0 <= c < width && Covers(p, 3, c) ==> !g[3][c]
  {
    forall i, j | On(MaskOf(p), i, j)
      ensures 0 <= i <= 1 && 0 < p.x + j < width - 1
    {
      SpawnRows(t, i, j);
    }
    if Free(g, p) {
      forall c | 0 <= c < width && Covers(p, 3, c) ensures !g[3][c] {
        assert Clear(g, p.y + 1, p.x + (c - p.x));
      }
    }
    if forall c :: 0 <= c < width && Covers(p, 3, c) ==> !g[3][c] {
      forall i, j | On(MaskOf(p), i, j) ensures Clear(g, p.y + i, p.x + j) {
        if i == 1 {
          assert Covers(p, 3, p.x + j);
        }
      }
    }
  }

  // ----- exactly when rowCounts breaks -----

  /** The queued blocks are as Initalize made them. */
  ghost predicate Queued(s: BoardState) {
    && s.table == ModelPointers
    && s.second == NewPiece(ModelPointers, s.second.kind, SPAWN_X, SPAWN_Y)
    && s.third == NewPiece(ModelPointers, s.third.kind, SPAWN_X, SPAWN_Y)
  }

  /** The block collides with nothing, or it has not moved from where it appeared. */
  ghost predicate FreeOrSpawned(s: BoardState, p: Piece)
    requires GoodPiece(p)
  {
    Free(s.grid, p) || p == SpawnPiece(p.kind, s.width)
  }

  /** What holds between two frames whether or not blocks overlap, as long as none locks while it does. */
  ghost predicate LooseInvariant(t: Tally) {
    var s := t.state;
    && GoodState(s) && GridInvariant(s) && NoFullRow(s.grid) && Queued(s) && s.width >= 6 && |s.grid| >= 5
    && (s.current.Some? ==> FreeOrSpawned(s, s.current.value))
    && CellTotal(s) == 4 * t.locked - (s.width - 2) * t.cleared
  }

  /** This frame does not lock a block that overlaps filled cells. */
  ghost predicate LockClear(s: BoardState, inp: Input)
    requires GoodState(s)
  {
    Locks(Aimed(s, inp), inp.gravity) ==> Free(s.grid, Aimed(s, inp).current.value)
  }

  /** rowCounts agrees with the grid when MoveBlockDown returns. */
  ghost predicate IndexKept(s: BoardState, inp: Input)
    requires GoodState(s)
  {
    var s2 := Fallen(Aimed(s, inp), inp.gravity);
    Index(s2.grid, s2.counts)
  }

  lemma SteeredFreeOrSame(g: Grid, p: Piece, key: Key)
    requires GoodPiece(p)
    ensures Free(g, Steered(g, p, key)) || Steered(g, p, key) == p
  {
  }

  /** A block that collides when MoveBlockDown is entered still stands where it appeared. */
  lemma AimedFreeOrSpawned(t: Tally, inp: Input)
    requires LooseInvariant(t)
    ensures FreeOrSpawned(t.state, Aimed(t.state, inp).current.value)
  {
    var p := Active(t.state, inp.next).current.value;
    SteeredFreeOrSame(t.state.grid, p, inp.key);
    hide Steered, Free;
  }

  /** A block that collides where it appeared covers a filled playable cell. */
  lemma SpawnOverlap(g: Grid, width: nat, t: ShapeType)
    requires Walled(g, width) && width >= 6 && |g| >= 5
    ensures GoodPiece(SpawnPiece(t, width))
    ensures !Free(g, SpawnPiece(t, width)) ==>
      exists r, c :: 0 <= r < |g| - 1 && 0 <= c < width && Covers(SpawnPiece(t, width), r, c) && g[r][c]
  {
    SpawnPieceGood(t, width);
    var p := SpawnPiece(t, width);
    if !Free(g, p) {
      var i, j :| On(MaskOf(p), i, j) && !Clear(g, p.y + i, p.x + j);
      SpawnRows(t, i, j);
      assert Covers(p, p.y + i, p.x + j) && g[p.y + i][p.x + j];
    }
  }

  lemma AimedKeepsQueue(s: BoardState, inp: Input)
    requires GoodState(s) && Queued(s)
    ensures Queued(Aimed(s, inp))
  {
  }

  lemma FallenKeepsQueue(s: BoardState, gravity: bool)
    requires GoodState(s) && s.current.Some? && Queued(s)
    ensures var s' := Fallen(s, gravity);
      Queued(s') && s'.width == s.width && |s'.grid| == |s.grid|
  {
  }

  lemma CheckedKeepsQueue(s: BoardState)
    requires GoodState(s) && Queued(s)
    ensures Queued(Checked(s)) && |Checked(s).grid| == |s.grid| && Checked(s).width == s.width
  {
    MoveLoopSizes(ClearFullGrid(s.grid, s.counts, s.width), ClearFullCounts(s.counts, s.width),
      |s.grid| - 2, |s.grid| - 3, s.width);
  }

  lemma InvariantIsLoose(t: Tally)
    requires Invariant(t) && Queued(t.state) && t.state.width >= 6 && |t.state.grid| >= 5
    ensures LooseInvariant(t)
  {
  }

  lemma LooseParts(t: Tally, inp: Input)
    requires LooseInvariant(t)
    ensures GoodState(t.state) && Queued(t.state) && t.state.width >= 6 && |t.state.grid| >= 5
    ensures Locks(Aimed(t.state, inp), inp.gravity) && Free(t.state.grid, Aimed(t.state, inp).current.value)
      ==> AboutToLock(Aimed(t.state, inp), t.locked, t.cleared)
  {
    hide Aimed, Queued, NoFullRow, Walled, Index, Settled;
    AimedKeepsGrid(t.state, inp);
  }

  /** A frame without a lock leaves grid and counts alone, and moves a block only to where it is free. */
  lemma UnlockedKeepsGrid(s: BoardState, gravity: bool)
    requires GoodState(s) && s.current.Some? && !Locks(s, gravity)
    ensures var s' := Fallen(s, gravity);
      && s'.grid == s.grid && s'.counts == s.counts && s'.width == s.width && s'.current.Some?
      && (FreeOrSpawned(s, s.current.value) ==> FreeOrSpawned(s', s'.current.value))
  {
    hide GoodState, Free;
  }

  lemma LooseAgain(t: Tally, s: BoardState)
    requires LooseInvariant(t) && GoodState(s) && Queued(s)
    requires s.grid == t.state.grid && s.counts == t.state.counts && s.width == t.state.width
    requires s.current.Some? ==> FreeOrSpawned(s, s.current.value)
    ensures LooseInvariant(Tally(s, t.locked, t.cleared))
  {
    hide Queued, NoFullRow, Walled, Index, Settled, Free;
  }

  lemma UnlockedIsLoose(t: Tally, inp: Input)
    requires LooseInvariant(t) && !Locks(Aimed(t.state, inp), inp.gravity)
    ensures LooseInvariant(Tally(Fallen(Aimed(t.state, inp), inp.gravity), t.locked, t.cleared))
    ensures Fallen(Aimed(t.state, inp), inp.gravity).current.Some?
  {
    hide *;
    LooseParts(t, inp);
    var s1 := Aimed(t.state, inp);
    AimedKeepsGrid(t.state, inp);
    AimedSpawned(t, inp);
    AimedKeepsQueue(t.state, inp);
    UnlockedKeepsGrid(s1, inp.gravity);
    FallenKeepsQueue(s1, inp.gravity);
    LooseAgain(t, Fallen(s1, inp.gravity));
  }

  lemma AimedSpawned(t: Tally, inp: Input)
    requires LooseInvariant(t)
    ensures FreeOrSpawned(Aimed(t.state, inp), Aimed(t.state, inp).current.value)
  {
    AimedFreeOrSpawned(t, inp);
    AimedKeepsGrid(t.state, inp);
    hide *;
  }

  /** A lock keeps rowCounts right exactly when the block is free. */
  lemma LockIndexIff(t: Tally, inp: Input)
    requires LooseInvariant(t) && GoodPiece(Aimed(t.state, inp).current.value)
    ensures var s, p := t.state, Aimed(t.state, inp).current.value;
      Index(LockGrid(s.grid, p), LockCounts(s.counts, s.width, p)) <==> Free(s.grid, p)
  {
    var s, p := t.state, Aimed(t.state, inp).current.value;
    AimedFreeOrSpawned(t, inp);
    hide Aimed, Queued, NoFullRow, Settled, LockGrid, LockCounts;
    LockKeepsIndexIff(s.grid, s.width, s.counts, p);
    if Free(s.grid, p) {
      LockOfFree(s.grid, s.width, s.counts, p);
    } else {
      SpawnOverlap(s.grid, s.width, p.kind);
    }
  }

  lemma LockedGrid(s: BoardState, gravity: bool)
    requires GoodState(s) && s.current.Some? && Locks(s, gravity)
    ensures var s', p := Fallen(s, gravity), s.current.value;
      GoodPiece(p) && s'.grid == LockGrid(s.grid, p) && s'.counts == LockCounts(s.counts, s.width, p)
  {
  }

  /** From any state that a run of locks without overlap can leave: the frame keeps rowCounts right if and only if it
      does not lock an overlapping block. */
  lemma FrameKeepsIndexIff(t: Tally, inp: Input)
    requires LooseInvariant(t)
    ensures IndexKept(t.state, inp) <==> LockClear(t.state, inp)
  {
    hide Aimed, Fallen, Locks, Free, Index, Queued, NoFullRow, Walled, Settled, FreeOrSpawned, LockGrid, LockCounts;
    var s1 := Aimed(t.state, inp);
    AimedKeepsGrid(t.state, inp);
    if Locks(s1, inp.gravity) {
      LockedGrid(s1, inp.gravity);
      LockIndexIff(t, inp);
    } else {
      UnlockedKeepsGrid(s1, inp.gravity);
    }
  }

  lemma LockedIsLoose(t: Tally, inp: Input)
    requires LooseInvariant(t) && Locks(Aimed(t.state, inp), inp.gravity)
    requires Free(t.state.grid, Aimed(t.state, inp).current.value)
    ensures var s2 := Fallen(Aimed(t.state, inp), inp.gravity);
      LooseInvariant(Tally(Checked(s2), t.locked + 1, t.cleared + FullCount(s2)))
  {
    hide *;
    LooseParts(t, inp);
    AimedKeepsGrid(t.state, inp);
    AimedKeepsQueue(t.state, inp);
    var s1 := Aimed(t.state, inp);
    var s2 := Fallen(s1, inp.gravity);
    LockIsReady(s1, inp.gravity);
    AfterLock(s1, t.locked, t.cleared, inp.gravity);
    FallenKeepsQueue(s1, inp.gravity);
    CheckedIsGood(s2, t.locked + 1, t.cleared);
    CheckedKeepsQueue(s2);
    InvariantIsLoose(Tally(Checked(s2), t.locked + 1, t.cleared + FullCount(s2)));
  }

  lemma LockIsReady(s: BoardState, gravity: bool)
    requires GoodState(s) && s.current.Some? && Locks(s, gravity)
    ensures (s.ready || gravity) && !Free(s.grid, Down(s.current.value))
  {
  }

  /** Such a frame leads to such a state again. */
  lemma FrameKeepsLoose(t: Tally, inp: Input)
    requires LooseInvariant(t) && LockClear(t.state, inp)
    ensures LooseInvariant(Advance(t, inp))
  {
    assert GoodState(t.state);
    hide LooseInvariant, Advance, Fallen, Aimed, Checked;
    AdvanceByCase(t, inp);
    if Locks(Aimed(t.state, inp), inp.gravity) {
      LockedIsLoose(t, inp);
    } else {
      UnlockedIsLoose(t, inp);
    }
  }

  ghost predicate LocksClear(t: Tally, inputs: seq<Input>)
    requires GoodState(t.state)
  {
    inputs == [] || (
      var before := inputs[..|inputs| - 1];
      LocksClear(t, before) && LockClear(Run(t, before).state, inputs[|inputs| - 1]))
  }

  ghost predicate IndexAlwaysKept(t: Tally, inputs: seq<Input>)
    requires GoodState(t.state)
  {
    inputs == [] || (
      var before := inputs[..|inputs| - 1];
      IndexAlwaysKept(t, before) && IndexKept(Run(t, before).state, inputs[|inputs| - 1]))
  }

  lemma {:induction false} RunKeepsIndexIff(t: Tally, inputs: seq<Input>)
    requires LooseInvariant(t)
    ensures IndexAlwaysKept(t, inputs) <==> LocksClear(t, inputs)
    ensures LocksClear(t, inputs) ==> LooseInvariant(Run(t, inputs))
  {
    if inputs != [] {
      var before := inputs[..|inputs| - 1];
      RunKeepsIndexIff(t, before);
      if LocksClear(t, before) {
        FrameKeepsIndexIff(Run(t, before), inputs[|inputs| - 1]);
        if LockClear(Run(t, before).state, inputs[|inputs| - 1]) {
          FrameKeepsLoose(Run(t, before), inputs[|inputs| - 1]);
        }
      }
    }
  }

  /** Over every run of a new board with the game's shapes: rowCounts is right after every frame's fall and lock if and
      only if no block ever locks where it overlaps filled cells. */
  lemma IndexKeptIff(width: nat, height: nat, first: ShapeType, second: ShapeType, inputs: seq<Input>)
    requires width >= 6 && height >= 5
    ensures GoodState(Start(ModelPointers, width, height, first, second).state)
    ensures var t := Start(ModelPointers, width, height, first, second);
      && (IndexAlwaysKept(t, inputs) <==> LocksClear(t, inputs))
      && (LocksClear(t, inputs) ==> LooseInvariant(Run(t, inputs)))
  {
    ModelPointersIsGoodTable();
    StartIsGood(ModelPointers, width, height, first, second);
    RunKeepsIndexIff(Start(ModelPointers, width, height, first, second), inputs);
  }
}

/** A run of the 12 by 24 game board, from its start, that breaks rowCounts: five upright long blocks are stacked in
    column 5, the game-over test still passes, and the next block appears on filled cells and locks there
    (Client/TetrisBoard.cpp, Update, Instantiate, IsFull). */
module Towers {
  import opened Common
  import opened Shapes
  import opened Grids
  import opened Lines
  import opened Landing
  import opened Rotation
  import opened Blocks
  import opened Boards
  import opened BoardRuns
  import opened Spawns

  /** The board with the lowest 4n cells of column 5 filled. */
  function TowerGrid(n: nat): Grid {
    seq(24, r requires 0 <= r < 24 =>
      seq(12, c requires 0 <= c < 12 => r == 23 || c == 0 || c == 11 || (c == 5 && 23 - 4 * n <= r)))
  }

  /** Between frames, with a tower of n blocks, no active block, and blocks of types `a` and `b` queued. */
  ghost predicate TowerLooks(t: Tally, n: nat, a: ShapeType, b: ShapeType) {
    var s := t.state;
    && Invariant(t) && Queued(s) && s.width == 12 && s.grid == TowerGrid(n) && s.current.None?
    && s.second.kind == a && s.third.kind == b
  }

  // ----- one block on the tower -----

  /** The long block upright, with its matrix at column `x` and row `y`. */
  function Upright(x: int, y: int): Piece {
    Piece(ShapeI, ModelPointers(ShapeI), 1, x, y)
  }

  lemma UprightCells(x: int, y: int)
    ensures GoodPiece(Upright(x, y)) && |MaskOf(Upright(x, y))| == 4
    ensures forall i, j :: On(MaskOf(Upright(x, y)), i, j) <==> 0 <= i < 4 && j == 2
  {
    ModelPointersGood(ShapeI);
  }

  /** Where an upright block fits. */
  lemma UprightFree(n: nat, x: int, y: int)
    requires n <= 5 && 0 <= x + 2 < 12
    ensures GoodPiece(Upright(x, y))
    ensures Free(TowerGrid(n), Upright(x, y)) <==>
      0 < x + 2 < 11 && 0 <= y && y + 3 <= (if x + 2 == 5 then 22 - 4 * n else 22)
  {
    hide TowerGrid, Clear, On, GoodPiece;
    UprightCells(x, y);
    var g, p := TowerGrid(n), Upright(x, y);
    TowerCell(n, y, x + 2);
    TowerCell(n, y + 3, x + 2);
    assert On(MaskOf(p), 0, 2) && On(MaskOf(p), 3, 2);
    if Free(g, p) {
      assert Clear(g, p.y + 0, p.x + 2) && Clear(g, p.y + 3, p.x + 2);
    } else {
      var i, j :| On(MaskOf(p), i, j) && !Clear(g, p.y + i, p.x + j);
      TowerCell(n, y + i, x + 2);
    }
  }

  lemma TowerCell(n: nat, r: int, c: int)
    requires n <= 5 && 0 <= c < 12
    ensures Clear(TowerGrid(n), r, c) <==> 0 < c < 11 && 0 <= r && r <= (if c == 5 then 22 - 4 * n else 22)
  {
  }

  lemma {:induction false} UprightDrops(n: nat, y: int)
    requires n <= 4 && 0 <= y <= 19 - 4 * n
    ensures GoodPiece(Upright(3, y)) && Drop(TowerGrid(n), Upright(3, y)) == Upright(3, 19 - 4 * n)
    decreases 19 - 4 * n - y
  {
    hide TowerGrid, Free, ModelPointers;
    UprightFree(n, 3, y);
    UprightFree(n, 3, y + 1);
    assert Down(Upright(3, y)) == Upright(3, y + 1);
    if y < 19 - 4 * n {
      UprightDrops(n, y + 1);
    }
  }

  lemma TowerGrowsAt(n: nat, r: nat, c: nat)
    requires n <= 4 && r < 24 && c < 12
    ensures var p := Upright(3, 19 - 4 * n);
      && GoodPiece(p) && |LockGrid(TowerGrid(n), p)| == 24 && |LockGrid(TowerGrid(n), p)[r]| == 12
      && LockGrid(TowerGrid(n), p)[r][c] == TowerGrid(n + 1)[r][c]
  {
    hide LockGrid, ModelPointers, On;
    UprightCells(3, 19 - 4 * n);
    LockGridAt(TowerGrid(n), Upright(3, 19 - 4 * n), r, c);
  }

  lemma TowerGrows(n: nat)
    requires n <= 4
    ensures GoodPiece(Upright(3, 19 - 4 * n)) && LockGrid(TowerGrid(n), Upright(3, 19 - 4 * n)) == TowerGrid(n + 1)
  {
    hide LockGrid, ModelPointers;
    TowerGrowsAt(n, 0, 0);
    var h := LockGrid(TowerGrid(n), Upright(3, 19 - 4 * n));
    forall r: nat | r < 24 ensures h[r] == TowerGrid(n + 1)[r] {
      TowerGrowsAt(n, r, 0);
      forall c: nat | c < 12 ensures h[r][c] == TowerGrid(n + 1)[r][c] {
        TowerGrowsAt(n, r, c);
      }
    }
  }

  function Press(key: Key, next: ShapeType): Input {
    Input(key, false, false, next)
  }

  /** The long block that has just appeared turns upright at the first try. */
  lemma SpawnTurns(n: nat)
    requires n <= 4
    ensures GoodPiece(SpawnPiece(ShapeI, 12)) && GoodPiece(Upright(4, 2)) && Free(TowerGrid(n), Upright(4, 2))
    ensures TryRotate(TowerGrid(n), SpawnPiece(ShapeI, 12), true) == Attempt(true, Upright(4, 2))
  {
    hide TowerGrid, Free, ModelPointers;
    SpawnPieceGood(ShapeI, 12);
    assert Kicked(SpawnPiece(ShapeI, 12), true, 0) == Upright(4, 2);
    UprightFree(n, 4, 2);
  }

  /** After the first frame: the block has appeared and stands upright. */
  lemma FrameTurns(t: Tally, n: nat, b: ShapeType, next: ShapeType)
    requires TowerLooks(t, n, ShapeI, b) && n <= 4
    ensures var inp := Press(KeyUp, next); var t' := Advance(t, inp);
      && AimClear(t.state, inp) && Invariant(t') && Queued(t'.state)
      && t'.state.width == 12 && t'.state.grid == TowerGrid(n) && t'.state.current == Some(Upright(4, 2))
      && t'.state.second.kind == b && t'.state.third.kind == next && !t'.state.ready
  {
    hide Free, TowerGrid, TryRotate, ModelPointers, Walled, Index, Settled, NoFullRow, Upright;
    var inp := Press(KeyUp, next);
    SpawnTurns(n);
    assert Active(t.state, next).current.value == SpawnPiece(ShapeI, 12);
    AimedIs(t.state, inp, Upright(4, 2));
    AdvanceByCase(t, inp);
    FrameKeepsInvariant(t, inp);
  }

  /** What HandleInput makes of the state, once the new pose is known. */
  lemma AimedIs(s: BoardState, inp: Input, q: Piece)
    requires GoodState(s) && GoodPiece(q) && Steered(s.grid, Active(s, inp.next).current.value, inp.key) == q
    ensures Aimed(s, inp) == Active(s, inp.next).(current := Some(q), ready := s.ready || inp.key.KeySpace?,
      soft := (s.soft || inp.key.KeyDown?) && inp.downHeld, shadow := Some(Shadow(s.grid, q)))
  {
  }

  /** After the second frame it stands over the tower. */
  lemma FrameShifts(t: Tally, n: nat, inp: Input)
    requires Invariant(t) && Queued(t.state) && n <= 4 && inp == Press(KeyLeft, inp.next)
    requires t.state.width == 12 && t.state.grid == TowerGrid(n) && t.state.current == Some(Upright(4, 2))
    ensures var t' := Advance(t, inp);
      && AimClear(t.state, inp) && Invariant(t') && Queued(t'.state)
      && t'.state.width == 12 && t'.state.grid == TowerGrid(n) && t'.state.current == Some(Upright(3, 2))
      && t'.state.second == t.state.second && t'.state.third == t.state.third
  {
    hide Free, TowerGrid, ModelPointers, Walled, Index, Settled, NoFullRow;
    UprightFree(n, 3, 2);
    assert Upright(4, 2).(x := 3) == Upright(3, 2);
    AimedIs(t.state, inp, Upright(3, 2));
    AdvanceByCase(t, inp);
    FrameKeepsInvariant(t, inp);
  }

  /** After the third frame it has become part of the tower. */
  lemma FrameDrops(t: Tally, n: nat, inp: Input)
    requires Invariant(t) && Queued(t.state) && n <= 4 && inp == Press(KeySpace, inp.next)
    requires t.state.width == 12 && t.state.grid == TowerGrid(n) && t.state.current == Some(Upright(3, 2))
    ensures AimClear(t.state, inp)
    ensures TowerLooks(Advance(t, inp), n + 1, t.state.second.kind, t.state.third.kind)
  {
    hide Free, TowerGrid, LockGrid, LockCounts, Drop, ModelPointers, Queued, Walled, Index, Settled, NoFullRow;
    var s := t.state;
    var rest := Upright(3, 19 - 4 * n);
    UprightFree(n, 3, 2);
    UprightDrops(n, 2);
    UprightFree(n, 3, 19 - 4 * n);
    UprightFree(n, 3, 20 - 4 * n);
    assert Down(rest) == Upright(3, 20 - 4 * n);
    AimedIs(s, inp, rest);
    AdvanceByCase(t, inp);
    FrameKeepsInvariant(t, inp);
    TowerGrows(n);
    LockOfFree(s.grid, 12, s.counts, rest);
    NoneIsFull(n + 1, LockCounts(s.counts, 12, rest));
    QueueKept(s, inp);
  }

  lemma QueueKept(s: BoardState, inp: Input)
    requires GoodState(s) && Queued(s) && s.current.Some?
    ensures Queued(Stepped(s, inp))
    ensures Stepped(s, inp).second == s.second && Stepped(s, inp).third == s.third && Stepped(s, inp).width == s.width
  {
    SteppedByAim(s, inp);
    AimedKeepsQueue(s, inp);
    FallenKeepsQueue(Aimed(s, inp), inp.gravity);
  }

  /** No row of the tower board is full. */
  lemma NoneIsFull(n: nat, counts: seq<int>)
    requires n <= 5 && Index(TowerGrid(n), counts)
    ensures forall r :: !IsFullAt(counts, 12, r)
  {
    forall r | 0 <= r < 23 ensures counts[r] != 10 {
      FillMeaning(TowerGrid(n)[r]);
      assert !TowerGrid(n)[r][1];
    }
  }

  // ----- the run -----

  /** The keys that put one long block on the tower; `next` is the type that comes into the queue. */
  function OneBlock(next: ShapeType): seq<Input> {
    [Press(KeyUp, next), Press(KeyLeft, next), Press(KeySpace, next)]
  }

  function TowerRun(): seq<Input> {
    OneBlock(ShapeI) + OneBlock(ShapeI) + OneBlock(ShapeI) + OneBlock(ShapeO) + OneBlock(ShapeO)
  }

  function GameStart(): (t: Tally)
    ensures GoodState(t.state)
  {
    GameStartGood();
    Start(ModelPointers, 12, 24, ShapeI, ShapeI)
  }

  lemma GameStartGood()
    ensures Invariant(Start(ModelPointers, 12, 24, ShapeI, ShapeI))
  {
    ModelPointersIsGoodTable();
    StartIsGood(ModelPointers, 12, 24, ShapeI, ShapeI);
  }

  /** The state that the run below reaches. */
  ghost function TowerEnd(): (t: Tally)
    ensures GoodState(t.state)
  {
    Run(GameStart(), TowerRun())
  }

  lemma GameStartLooks()
    ensures TowerLooks(GameStart(), 0, ShapeI, ShapeI)
  {
    hide InitialGrid, TowerGrid, ModelPointers, Invariant, GoodState;
    GameStartGood();
    InitialIsTower();
  }

  lemma InitialIsTower()
    ensures InitialGrid(12, 24) == TowerGrid(0)
  {
    forall r | 0 <= r < 24 ensures InitialGrid(12, 24)[r] == TowerGrid(0)[r] {
      forall c | 0 <= c < 12 ensures InitialGrid(12, 24)[r][c] == TowerGrid(0)[r][c] {
      }
    }
  }

  lemma RunMore(t: Tally, inputs: seq<Input>, inp: Input)
    requires GoodState(t.state)
    ensures Run(t, inputs + [inp]) == Advance(Run(t, inputs), inp)
    ensures AimsClear(t, inputs + [inp]) <==> AimsClear(t, inputs) && AimClear(Run(t, inputs).state, inp)
  {
    hide Advance, AimClear, GoodState;
    assert (inputs + [inp])[..|inputs|] == inputs;
  }

  /** The run so far is free of overlaps and has built a tower. */
  ghost predicate Built(inputs: seq<Input>, n: nat, a: ShapeType, b: ShapeType) {
    AimsClear(GameStart(), inputs) && TowerLooks(Run(GameStart(), inputs), n, a, b)
  }

  lemma BuildOne(inputs: seq<Input>, n: nat, b: ShapeType, next: ShapeType)
    requires Built(inputs, n, ShapeI, b) && n <= 4
    ensures Built(inputs + OneBlock(next), n + 1, b, next)
  {
    hide GameStart, Run, AimsClear, AimClear, Advance, TowerGrid, Invariant, Queued, TowerLooks, GoodState;
    var t := GameStart();
    var up, left, space := Press(KeyUp, next), Press(KeyLeft, next), Press(KeySpace, next);
    assert inputs + OneBlock(next) == inputs + [up] + [left] + [space];
    RunMore(t, inputs, up);
    RunMore(t, inputs + [up], left);
    RunMore(t, inputs + [up] + [left], space);
    FrameTurns(Run(t, inputs), n, b, next);
    FrameShifts(Run(t, inputs + [up]), n, left);
    FrameDrops(Run(t, inputs + [up] + [left]), n, space);
  }

  lemma NothingBuilt()
    ensures Built([], 0, ShapeI, ShapeI)
  {
    hide TowerLooks, GameStart, GoodState;
    GameStartLooks();
  }

  lemma TowerIsBuilt()
    ensures Built(TowerRun(), 5, ShapeO, ShapeO)
  {
    hide Built, OneBlock, GameStart, GoodState;
    NothingBuilt();
    var i, o := OneBlock(ShapeI), OneBlock(ShapeO);
    assert [] + i == i;
    BuildOne([], 0, ShapeI, ShapeI);
    BuildOne(i, 1, ShapeI, ShapeI);
    BuildOne(i + i, 2, ShapeI, ShapeI);
    BuildOne(i + i + i, 3, ShapeI, ShapeO);
    BuildOne(i + i + i + o, 4, ShapeO, ShapeO);
  }

  // ----- what happens then -----

  function Tick(key: Key): Input {
    Input(key, false, true, ShapeO)
  }

  /** The square block at column `x` and row `y`. */
  function Square(x: int, y: int): Piece {
    Piece(ShapeO, ModelPointers(ShapeO), 0, x, y)
  }

  lemma SquareCells(x: int, y: int)
    ensures GoodPiece(Square(x, y)) && |MaskOf(Square(x, y))| == 2
    ensures forall i, j :: On(MaskOf(Square(x, y)), i, j) <==> 0 <= i < 2 && 0 <= j < 2
  {
    ModelPointersGood(ShapeO);
  }

  /** The square block that appears on the tower, the same one row lower, and one column to the left. */
  lemma SquareOnTower()
    ensures SpawnPiece(ShapeO, 12) == Square(4, 2)
    ensures GoodPiece(Square(4, 2)) && GoodPiece(Square(4, 3)) && GoodPiece(Square(3, 2))
    ensures !Free(TowerGrid(5), Square(4, 2)) && !Free(TowerGrid(5), Square(4, 3)) && Free(TowerGrid(5), Square(3, 2))
  {
    SquareCells(4, 2);
    SquareCells(4, 3);
    SquareCells(3, 2);
    TowerCell(5, 3, 5);
    assert On(MaskOf(Square(4, 2)), 1, 1) && !Clear(TowerGrid(5), Square(4, 2).y + 1, Square(4, 2).x + 1);
    assert On(MaskOf(Square(4, 3)), 0, 1) && !Clear(TowerGrid(5), Square(4, 3).y + 0, Square(4, 3).x + 1);
    forall i, j | On(MaskOf(Square(3, 2)), i, j) ensures Clear(TowerGrid(5), Square(3, 2).y + i, Square(3, 2).x + j) {
      TowerCell(5, 2 + i, 3 + j);
    }
  }

  lemma TopRowsOpen()
    ensures !TopRowsFilled(TowerGrid(5))
  {
  }

  /** A run from the start of the game, without any overlap so far, after which the game-over test passes, the next
      block appears on filled cells and locks there, and rowCounts no longer agrees with the grid. */
  lemma BlockedSpawnBreaksIndex()
    ensures var t, inp := TowerEnd(), Tick(NoKey);
      && AimsClear(GameStart(), TowerRun()) && Invariant(t) && !TopRowsFilled(t.state.grid)
      && !SpawnClear(t.state, inp) && !LockClear(t.state, inp)
      && !Index(Stepped(t.state, inp).grid, Stepped(t.state, inp).counts)
  {
    hide GameStart, TowerRun, TowerGrid, AimsClear, SpawnClear, LockClear, Stepped, TopRowsFilled, Queued, Run;
    TowerIsBuilt();
    TopRowsOpen();
    TowerSpawnBlocks(TowerEnd());
    TowerIndexBreaks(TowerEnd());
  }

  lemma TowerSpawnBlocks(t: Tally)
    requires TowerLooks(t, 5, ShapeO, ShapeO)
    ensures var s1 := Aimed(t.state, Tick(NoKey));
      && !SpawnClear(t.state, Tick(NoKey)) && !LockClear(t.state, Tick(NoKey))
      && Locks(s1, true) && s1.current == Some(Square(4, 2))
  {
    hide TowerGrid, Free, ModelPointers;
    SquareOnTower();
    assert Down(Square(4, 2)) == Square(4, 3);
    AimedIs(t.state, Tick(NoKey), Square(4, 2));
  }

  lemma TowerIndexBreaks(t: Tally)
    requires TowerLooks(t, 5, ShapeO, ShapeO)
    ensures var inp := Tick(NoKey); !Index(Stepped(t.state, inp).grid, Stepped(t.state, inp).counts)
  {
    var s, inp, p := t.state, Tick(NoKey), Square(4, 2);
    TowerSpawnBlocks(t);
    AimedKeepsGrid(s, inp);
    FrameKeepsIndexIff(t, inp);
    SquareCells(4, 2);
    FewInEveryRow(5, s.counts, p);
    LockWithoutClear(s, inp, p);
    assert Fallen(Aimed(s, inp), true).grid == LockGrid(s.grid, p);
    assert Fallen(Aimed(s, inp), true).counts == LockCounts(s.counts, s.width, p);
  }

  /** A lock on the tower board fills no row, by rowCounts. */
  lemma FewInEveryRow(n: nat, counts: seq<int>, p: Piece)
    requires n <= 5 && Index(TowerGrid(n), counts) && GoodPiece(p) && |MaskOf(p)| <= 4
    ensures forall r :: !IsFullAt(LockCounts(counts, 12, p), 12, r)
  {
    hide TowerGrid, Fill, CountsLock, RowWeight;
    TowerSize(n);
    var d := LockCounts(counts, 12, p);
    forall r | 0 <= r < 23 ensures d[r] <= 5 {
      TowerFill(n, r);
      CountsLockRow(counts, 12, MaskOf(p), p.x, p.y, |MaskOf(p)|, r);
      if p.y <= r < p.y + |MaskOf(p)| {
        WeightBound(MaskOf(p)[r - p.y], p.x, 12, |MaskOf(p)[r - p.y]|);
      }
    }
  }

  lemma TowerSize(n: nat)
    ensures |TowerGrid(n)| == 24 && forall r :: 0 <= r < 24 ==> |TowerGrid(n)[r]| == 12
  {
  }

  lemma TowerFill(n: nat, r: int)
    requires n <= 5 && 0 <= r < 23
    ensures Fill(TowerGrid(n)[r]) <= 1
  {
    var inner := TowerGrid(n)[r][1..11];
    var none := seq(10, _ => false);
    CountBounds(none);
    CountSet(none, 4);
    if 23 - 4 * n <= r {
      assert inner == none[4 := true];
    } else {
      assert inner == none;
    }
  }

  lemma {:induction false} WeightBound(cells: seq<int>, x: int, w: nat, k: nat)
    requires k <= |cells|
    ensures RowWeight(cells, x, w, k) <= k
  {
    if k > 0 {
      WeightBound(cells, x, w, k - 1);
    }
  }

  /** What a locking frame leaves when rowCounts shows no full row. */
  lemma LockWithoutClear(s: BoardState, inp: Input, p: Piece)
    requires GoodState(s) && GoodPiece(p)
    requires Locks(Aimed(s, inp), inp.gravity) && Aimed(s, inp).current == Some(p)
    requires Aimed(s, inp).grid == s.grid && Aimed(s, inp).counts == s.counts && Aimed(s, inp).width == s.width
    requires forall r :: !IsFullAt(LockCounts(s.counts, s.width, p), s.width, r)
    ensures Stepped(s, inp).grid == LockGrid(s.grid, p)
    ensures Stepped(s, inp).counts == LockCounts(s.counts, s.width, p)
  {
    SteppedByAim(s, inp);
    hide Handled, Active, Stepped, Aimed, LockGrid, LockCounts;
  }

  /** A blocked spawn alone breaks nothing: on the same board the key can move the block off the tower in time. */
  lemma BlockedSpawnCanEscape()
    ensures var t, inp := TowerEnd(), Tick(KeyLeft);
      !SpawnClear(t.state, inp) && AimClear(t.state, inp) && Invariant(Advance(t, inp))
  {
    hide GameStart, TowerRun, TowerGrid, AimsClear, SpawnClear, AimClear, Run, Advance, Queued;
    TowerIsBuilt();
    TowerSpawnEscapes(TowerEnd());
    FrameKeepsInvariant(TowerEnd(), Tick(KeyLeft));
  }

  lemma TowerSpawnEscapes(t: Tally)
    requires TowerLooks(t, 5, ShapeO, ShapeO)
    ensures !SpawnClear(t.state, Tick(KeyLeft)) && AimClear(t.state, Tick(KeyLeft))
  {
    hide TowerGrid, Free, ModelPointers;
    SquareOnTower();
    assert Square(4, 2).(x := 3) == Square(3, 2);
    AimedIs(t.state, Tick(KeyLeft), Square(3, 2));
  }
}

/** The AI player (Client/TetrisBoardAI.cpp): planning for the current block and feeding keys to the board. */
module BoardAI {
  import opened Common
  import opened Shapes
  import opened Grids
  import opened Lines
  import opened Landing
  import opened Rotation
  import opened Blocks
  import opened Boards
  import opened Placement
  import opened AiPlan

  /** The input queue shared with the key poller (Client/Managers/InputManager.cpp). */
  class InputManager {
    var mInputQueue: seq<Key>

    constructor ()
      ensures mInputQueue == []
    {
      mInputQueue := [];
    }

    method EnqueueInput(key: Key)
      modifies this
      ensures mInputQueue == old(mInputQueue) + [key]
    {
      mInputQueue := mInputQueue + [key];
    }

    method DequeueInput() returns (key: Key)
      modifies this
      ensures if old(mInputQueue) == [] then key == NoKey && mInputQueue == []
        else [key] + mInputQueue == old(mInputQueue)
    {
      if mInputQueue == [] {
        return NoKey;
      }
      key := mInputQueue[0];
      mInputQueue := mInputQueue[1..];
    }
  }

  /** What DequeueInput returns. */
  function NextKey(queue: seq<Key>): Key {
    if queue == [] then NoKey else queue[0]
  }

  /** At most one key was put behind the queue, and then the first one taken. */
  predicate Pushes(before: seq<Key>, pushed: Key, key: Key, after: seq<Key>) {
    var queue := before + (if pushed.NoKey? then [] else [pushed]);
    key == NextKey(queue) && after == if queue == [] then [] else queue[1..]
  }

  class TetrisBoardAI {
    const board: TetrisBoard
    const mInputManager: InputManager
    var mDelay: Delays
    var mPlan: seq<Action>
    var mCurrentActionDelay: int
    var mJustPlanned: bool
    var mPostPlanDelayFrames: int
    var mPostPlanCounter: int
    var mPreHardDropDelayFrames: int
    var mPreHardDropCounter: int

    constructor (board: TetrisBoard, im: InputManager, level: Level)
      ensures this.board == board && mInputManager == im
      ensures mDelay == RebuildDelays(level) && Configured()
      ensures Plan() == PlanState([], 0, false, 0, 0)
    {
      this.board, mInputManager := board, im;
      mPlan, mCurrentActionDelay, mJustPlanned, mPostPlanCounter, mPreHardDropCounter := [], 0, false, 0, 0;
      mDelay := RebuildDelays(level);
      mPostPlanDelayFrames := RebuildDelays(level).postPlan;
      mPreHardDropDelayFrames := RebuildDelays(level).preDrop;
    }

    ghost predicate Configured()
      reads this
    {
      mPostPlanDelayFrames == mDelay.postPlan && mPreHardDropDelayFrames == mDelay.preDrop
    }

    function Plan(): PlanState
      reads this
    {
      PlanState(mPlan, mCurrentActionDelay, mJustPlanned, mPostPlanCounter, mPreHardDropCounter)
    }

    method SetLevel(level: Level)
      modifies this
      ensures mDelay == RebuildDelays(level) && Configured() && Plan() == old(Plan())
    {
      mDelay := RebuildDelays(level);
      mPostPlanDelayFrames := mDelay.postPlan;
      mPreHardDropDelayFrames := mDelay.preDrop;
    }

    /** SimulateHardDrop: leaves the block on the last free row of its fall. */
    method SimulateHardDrop(tmp: Block)
      requires board.Sized() && tmp.Valid()
      requires Free(board.isFilled, tmp.Pose())
      modifies tmp
      ensures tmp.Pose() == Drop(board.isFilled, old(tmp.Pose()))
    {
      board.FallUntilCollision(tmp);
      tmp.Rollback();
    }

    /** One candidate of FindBestPlacement's inner loop: None when it collides at the top. */
    method TryColumn(tmp: Block, snapshot: Grid, ghost rot: nat, ghost p: Piece, x: int) returns (score: Option<int>)
      requires board.Sized() && board.mWidth >= 3 && snapshot == board.isFilled
      requires ScoreFits(board.mWidth, board.mHeight)
      requires GoodPiece(p) && tmp.Valid() && tmp.Pose() == p.(rot := (p.rot + rot) % ROTATION_COUNT)
      ensures score.Some? <==> Placeable(snapshot, p, rot, x)
      ensures score.Some? ==> score.value == Worth(snapshot, board.mWidth, p, rot, x)
    {
      var t := new Block.CopyOf(tmp);
      t.SetPosition(x, 0);
      assert t.Pose() == Candidate(p, rot, x);
      CandidateGood(p, rot, x);
      var hit := board.CheckCollision(t);
      if hit {
        return None;
      }
      SimulateHardDrop(t);
      var sc := EvaluatePlacement(t, snapshot, board.mWidth);
      return Some(sc);
    }

    /** The copy of the current block turned clockwise `rot` times. */
    method Turned(rot: nat) returns (tmp: Block)
      requires board.mCurrentBlock != null && board.mCurrentBlock.Valid()
      ensures fresh(tmp) && tmp.Valid()
      ensures var p := board.mCurrentBlock.Pose(); tmp.Pose() == p.(rot := (p.rot + rot) % ROTATION_COUNT)
    {
      tmp := new Block.CopyOf(board.mCurrentBlock);
      ghost var p := board.mCurrentBlock.Pose();
      var i := 0;
      while i < rot
        invariant 0 <= i <= rot && fresh(tmp)
        invariant board.mCurrentBlock.Pose() == p
        invariant tmp.Pose() == p.(rot := (p.rot + i) % ROTATION_COUNT)
      {
        tmp.Rotate(true);
        i := i + 1;
      }
    }

    /** The body of FindBestPlacement's inner loop. */
    method VisitColumn(tmp: Block, snapshot: Grid, rot: nat, ghost p: Piece, x: int, best0: Eval) returns (best: Eval)
      requires board.Sized() && board.mWidth >= 3 && snapshot == board.isFilled && rot < ROTATION_COUNT
      requires ScoreFits(board.mWidth, board.mHeight)
      requires GoodPiece(p) && tmp.Valid() && tmp.Pose() == p.(rot := (p.rot + rot) % ROTATION_COUNT)
      requires BestBefore(snapshot, board.mWidth, p, best0, rot, x)
      ensures BestBefore(snapshot, board.mWidth, p, best, rot, x + 1)
    {
      var sc := TryColumn(tmp, snapshot, rot, p, x);
      best := if sc.Some? && sc.value > best0.score then Eval(x, rot, sc.value) else best0;
      VisitKeepsBest(snapshot, board.mWidth, p, best0, rot, x, best);
    }

    /** The inner loop of FindBestPlacement: every column for one rotation. */
    method SearchColumns(tmp: Block, snapshot: Grid, rot: nat, ghost p: Piece, best0: Eval) returns (best: Eval)
      requires board.Sized() && board.mWidth >= 3 && snapshot == board.isFilled && rot < ROTATION_COUNT
      requires ScoreFits(board.mWidth, board.mHeight) && Walled(snapshot, board.mWidth)
      requires GoodPiece(p) && tmp.Valid() && tmp.Pose() == p.(rot := (p.rot + rot) % ROTATION_COUNT)
      requires BestBefore(snapshot, board.mWidth, p, best0, rot, 1 - |MaskOf(p)|)
      ensures BestBefore(snapshot, board.mWidth, p, best, rot + 1, 1 - |MaskOf(p)|)
    {
      hide BestBefore, Walled, ScoreFits;
      best := best0;
      var size := tmp.GetMatrixSize();
      var minX, maxX := 1 - (size as int), board.mWidth - 2;
      var x: int := minX;
      while x <= maxX
        invariant minX <= x
        invariant BestBefore(snapshot, board.mWidth, p, best, rot, x)
      {
        best := VisitColumn(tmp, snapshot, rot, p, x, best);
        x := x + 1;
      }
      SkipColumns(snapshot, board.mWidth, p, best, rot, x, rot + 1, minX);
    }

    /** FindBestPlacement: over all four rotations and every integer column at which the block is collision-free at the
        top, the result is the first candidate with the highest score. */
    method FindBestPlacement() returns (best: Eval)
      requires board.Sized() && board.mWidth >= 3 && Walled(board.isFilled, board.mWidth)
      requires board.mCurrentBlock != null && board.mCurrentBlock.Valid()
      requires ScoreFits(board.mWidth, board.mHeight)
      ensures 0 <= best.rotateCW < ROTATION_COUNT
      ensures IsBest(board.isFilled, board.mWidth, board.mCurrentBlock.Pose(), best)
    {
      var snapshot := board.isFilled;
      ghost var p := board.mCurrentBlock.Pose();
      best := Eval(board.mCurrentBlock.x, 0, INT_MIN);
      NothingBefore(snapshot, board.mWidth, p);
      var rot := 0;
      while rot < ROTATION_COUNT
        invariant 0 <= rot <= ROTATION_COUNT && board.mCurrentBlock.Pose() == p
        invariant BestBefore(snapshot, board.mWidth, p, best, rot, 1 - |MaskOf(p)|)
      {
        var tmp := Turned(rot);
        best := SearchColumns(tmp, snapshot, rot, p, best);
        rot := rot + 1;
      }
      AllRotationsSearched(snapshot, board.mWidth, p, best, 1 - |MaskOf(p)|);
    }

    method PushActions(n: int, a: Action)
      modifies this`mPlan
      ensures mPlan == old(mPlan) + Copies(n, a)
    {
      var i := 0;
      assert mPlan == mPlan + Copies(0, a);
      while i < n
        invariant 0 <= i && (i <= n || (n < 0 && i == 0))
        invariant mPlan == old(mPlan) + Copies(i, a)
      {
        mPlan := mPlan + [a];
        assert Copies(i + 1, a) == Copies(i, a) + [a];
        i := i + 1;
      }
    }

    /** MakePlan: the actions that lead from the current column to the best placement; without a block, no plan. */
    method MakePlan() returns (ok: bool, ghost best: Eval)
      requires board.Sized() && board.mWidth >= 3 && Walled(board.isFilled, board.mWidth)
      requires board.mCurrentBlock != null ==> board.mCurrentBlock.Valid()
      requires ScoreFits(board.mWidth, board.mHeight)
      modifies this`mPlan
      ensures ok <==> board.mCurrentBlock != null
      ensures !ok ==> mPlan == old(mPlan)
      ensures ok ==>
        && 0 <= best.rotateCW < ROTATION_COUNT
        && IsBest(board.isFilled, board.mWidth, board.mCurrentBlock.Pose(), best)
        && mPlan == old(mPlan) + PlanFor(best.rotateCW, best.targetX, board.mCurrentBlock.x)
    {
      hide TetrisBoard.Sized, GoodPiece, IsBest, Walled, ScoreFits, Copies;
      best := Eval(0, 0, 0);
      if board.mCurrentBlock == null {
        return false, best;
      }
      var found := FindBestPlacement();
      best := found;
      PushActions(found.rotateCW, RotateCW);
      var curX := board.mCurrentBlock.x;
      if found.targetX < curX {
        PushActions(curX - found.targetX, MoveLeft);
      } else if found.targetX > curX {
        PushActions(found.targetX - curX, MoveRight);
      }
      mPlan := mPlan + [HardDrop];
      NoCopies(curX - found.targetX, MoveLeft);
      NoCopies(found.targetX - curX, MoveRight);
      ok := true;
    }

    ghost predicate Playing()
      reads this, board, board.Owned()
    {
      && Configured() && GoodDelays(mDelay)
      && board.Valid() && board.mCurrentBlock != null
      && board.mWidth >= 3 && Walled(board.isFilled, board.mWidth) && ScoreFits(board.mWidth, board.mHeight)
    }

    /** The start of HandleInput: a new plan when the old one is used up. */
    method PlanIfNeeded() returns (ghost best: Eval)
      requires Playing()
      modifies this`mPlan, this`mJustPlanned, this`mPostPlanCounter, this`mPreHardDropCounter
      ensures Playing()
      ensures 0 <= best.rotateCW < ROTATION_COUNT
      ensures old(mPlan) == [] ==>
        IsBest(board.isFilled, board.mWidth, board.mCurrentBlock.Pose(), best)
      ensures Plan() == Adopted(old(Plan()), PlanFor(best.rotateCW, best.targetX, board.mCurrentBlock.x), mDelay)
    {
      hide TetrisBoard.Sized, GoodState, GoodPiece, IsBest, Walled, ScoreFits, PlanFor;
      best := Eval(0, 0, 0);
      board.CurrentIsGood();
      if mPlan == [] {
        var ok;
        ok, best := MakePlan();
        assert mPlan == PlanFor(best.rotateCW, best.targetX, board.mCurrentBlock.x);
        mJustPlanned := true;
        mPostPlanCounter := mPostPlanDelayFrames;
        mPreHardDropCounter := 0;
      }
    }

    /** The middle of HandleInput: wait, or take the next action and push its key. */
    method Act(k: Picks)
      requires Configured()
      modifies this, mInputManager
      ensures Configured() && mDelay == old(mDelay)
      ensures var (s, key) := Tick(old(Plan()), mDelay, k);
        && Plan() == s
        && mInputManager.mInputQueue == old(mInputManager.mInputQueue) + (if key.NoKey? then [] else [key])
    {
      if mJustPlanned {
        mPostPlanCounter := mPostPlanCounter - 1;
        if mPostPlanCounter + 1 > 0 {
          return;
        }
        mJustPlanned := false;
      }
      if mCurrentActionDelay > 0 {
        mCurrentActionDelay := mCurrentActionDelay - 1;
        return;
      }
      if mPlan != [] {
        var a := mPlan[0];
        if a.HardDrop? {
          if mPreHardDropCounter < mPreHardDropDelayFrames {
            mPreHardDropCounter := mPreHardDropCounter + 1;
            return;
          }
        }
        mPlan := mPlan[1..];
        match a {
          case RotateCW =>
            mCurrentActionDelay := k.rot;
            mInputManager.EnqueueInput(KeyUp);
          case MoveLeft =>
            mCurrentActionDelay := k.move;
            mInputManager.EnqueueInput(KeyLeft);
          case MoveRight =>
            mCurrentActionDelay := k.move;
            mInputManager.EnqueueInput(KeyRight);
          case HardDrop =>
            mCurrentActionDelay := k.drop;
            mInputManager.EnqueueInput(KeySpace);
        }
      }
    }

    /** HandleInput: plan, act, then let the board handle the next key of the shared queue. */
    method HandleInput(k: Picks, downHeld: bool) returns (ghost best: Eval)
      requires Playing() && InRange(k, mDelay)
      modifies this, mInputManager, board.mCurrentBlock, board.mGhostBlock, board`mIsBlockReadyToLock,
        board`mIsSoftDropping
      ensures board.Valid() && board.mCurrentBlock != null && Configured() && mDelay == old(mDelay)
      ensures old(mPlan) == [] ==>
        IsBest(old(board.isFilled), board.mWidth, old(board.mCurrentBlock.Pose()), best)
      ensures var plan := PlanFor(best.rotateCW, best.targetX, old(board.mCurrentBlock.x));
        var (s, key) := Tick(Adopted(old(Plan()), plan, mDelay), mDelay, k);
        var queue := old(mInputManager.mInputQueue) + (if key.NoKey? then [] else [key]);
        && Plan() == s
        && board.State() == Handled(old(board.State()), NextKey(queue), downHeld)
        && mInputManager.mInputQueue == if queue == [] then [] else queue[1..]
    {
      best := PlanIfNeeded();
      Act(k);
      var key := mInputManager.DequeueInput();
      board.HandleInput(key, downHeld);
    }

    /** The board is one that the AI can plan for. */
    ghost predicate Ready()
      reads this, board, board.Owned()
    {
      && Configured() && GoodDelays(mDelay) && board.Valid()
      && board.mWidth >= 3 && Walled(board.isFilled, board.mWidth) && ScoreFits(board.mWidth, board.mHeight)
    }

    /** One frame of an AI's board: Update with the AI's HandleInput. Whatever the AI does, the board makes an ordinary
        step, with the key that heads the queue after the AI has pushed its own. */
    method Update(k: Picks, downHeld: bool, gravity: bool, next: ShapeType) returns (ghost key: Key)
      requires Ready() && InRange(k, mDelay)
      modifies this, mInputManager, board, board.Owned()
      ensures board.Valid() && Configured() && mDelay == old(mDelay)
      ensures fresh(board.Owned() - old(board.Owned()))
      ensures board.State() == Stepped(old(board.State()), Input(key, downHeld, gravity, next))
      ensures exists pushed :: Pushes(old(mInputManager.mInputQueue), pushed, key, mInputManager.mInputQueue)
    {
      hide GoodState, TetrisBoard.Sized, Active, Handled, Fallen, Swept;
      hide Tick, Adopted, PlanFor, IsBest, Walled, ScoreFits;
      ghost var queue := mInputManager.mInputQueue;
      board.InstantiateIfInactive(next);
      ghost var before := Plan();
      ghost var x := board.mCurrentBlock.x;
      ghost var best := HandleInput(k, downHeld);
      ghost var pushed := Tick(Adopted(before, PlanFor(best.rotateCW, best.targetX, x), mDelay), mDelay, k).1;
      key := NextKey(queue + (if pushed.NoKey? then [] else [pushed]));
      assert Pushes(queue, pushed, key, mInputManager.mInputQueue);
      board.FallAndCheck(gravity);
    }
  }
}

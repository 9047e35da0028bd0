/** Where a block gets to over many frames: falling with the ticks, moving and turning with the keys, and where the
    keys of an AI plan lead (Client/TetrisBoard.cpp, Update; Client/TetrisBoardAI.cpp, MakePlan, HandleInput). */
module Guidance {
  import opened Common
  import opened Shapes
  import opened Grids
  import opened Lines
  import opened Landing
  import opened Blocks
  import opened Boards
  import opened BoardRuns
  import opened Steering
  import opened Placement
  import opened AiPlan

  // ----- the way that keys and ticks ask for -----

  /** What a key asks for. The square block does not turn. */
  function Pressed(p: Piece, key: Key): Piece {
    match key
    case KeyLeft => p.(x := p.x - 1)
    case KeyRight => p.(x := p.x + 1)
    case KeyUp => if p.kind.ShapeO? then p else p.(rot := (p.rot + 1) % 4)
    case _ => p
  }

  /** One frame's key and tick, with nothing in the way. */
  function Pushed(p: Piece, inp: Input): Piece {
    var q := Pressed(p, inp.key);
    if inp.gravity then q.(y := q.y + 1) else q
  }

  function PoseAfter(p: Piece, inputs: seq<Input>): Piece {
    if inputs == [] then p else Pushed(PoseAfter(p, inputs[..|inputs| - 1]), inputs[|inputs| - 1])
  }

  lemma PushedGood(p: Piece, inp: Input)
    requires GoodPiece(p)
    ensures GoodPiece(Pressed(p, inp.key)) && GoodPiece(Pushed(p, inp))
  {
  }

  lemma {:induction false} PoseAfterGood(p: Piece, inputs: seq<Input>)
    requires GoodPiece(p)
    ensures GoodPiece(PoseAfter(p, inputs))
  {
    if inputs != [] {
      PoseAfterGood(p, inputs[..|inputs| - 1]);
      PushedGood(PoseAfter(p, inputs[..|inputs| - 1]), inputs[|inputs| - 1]);
    }
  }

  /** The places that a frame's key and tick ask for are free, and the key is not the hard drop. */
  ghost predicate FrameFree(g: Grid, p: Piece, inp: Input)
    requires GoodPiece(p)
  {
    PushedGood(p, inp);
    !inp.key.KeySpace? && Free(g, Pressed(p, inp.key)) && Free(g, Pushed(p, inp))
  }

  ghost predicate WayFree(g: Grid, p: Piece, inputs: seq<Input>)
    requires GoodPiece(p)
  {
    inputs == [] || (
      var before := inputs[..|inputs| - 1];
      PoseAfterGood(p, before);
      WayFree(g, p, before) && FrameFree(g, PoseAfter(p, before), inputs[|inputs| - 1]))
  }

  /** A state in which everything but the block, its ghost and the soft-drop flag is as before. */
  ghost predicate OnlyMoved(s: BoardState, s': BoardState) {
    s' == s.(current := s'.current, shadow := s'.shadow, soft := s'.soft)
  }

  lemma LeadsThere(g: Grid, p: Piece, key: Key, q: Piece)
    requires GoodPiece(p) && GoodPiece(Pressed(p, key)) && Free(g, Pressed(p, key)) && Leads(g, p, key, q)
    requires !key.KeySpace?
    ensures q == Pressed(p, key)
  {
    if key.KeyUp? && !p.kind.ShapeO? {
      assert TurnedBy(p, true, 0) == Pressed(p, key);
      assert FirstTurn(g, p, true, 0);
    }
  }

  lemma StepOfInvariant(t: Tally, inp: Input)
    requires Invariant(t) && t.state.current.Some?
    ensures GoodState(t.state) && !t.state.ready && ActivePose(t.state) == t.state.current.value
    ensures GoodPiece(t.state.current.value) && Free(t.state.grid, t.state.current.value)
  {
  }

  lemma AdvanceMeans(t: Tally, inp: Input)
    requires GoodState(t.state)
    ensures Advance(t, inp).state == Stepped(t.state, inp)
    ensures Advance(t, inp).locked == t.locked + (if Stepped(t.state, inp).current.None? then 1 else 0)
    ensures Stepped(t.state, inp).current.Some? ==> Advance(t, inp).cleared == t.cleared
  {
    hide GoodState, Aimed, Fallen, Checked, Locks, Stepped, FullCount;
    AdvanceByCase(t, inp);
    SteppedByAim(t.state, inp);
    LocksLeavesNone(Aimed(t.state, inp), inp.gravity);
    NoneStaysNone(Fallen(Aimed(t.state, inp), inp.gravity));
  }

  lemma NoneStaysNone(s: BoardState)
    requires GoodState(s)
    ensures Checked(s).current == s.current
  {
  }

  /** One frame on a free way. */
  lemma FollowsFrame(t: Tally, inp: Input)
    requires Invariant(t) && t.state.current.Some? && GoodPiece(t.state.current.value)
    requires FrameFree(t.state.grid, t.state.current.value, inp)
    ensures var t' := Advance(t, inp);
      && AimClear(t.state, inp) && Invariant(t') && OnlyMoved(t.state, t'.state)
      && t'.state.current == Some(Pushed(t.state.current.value, inp))
      && t'.locked == t.locked && t'.cleared == t.cleared
  {
    hide Invariant, GoodState, GoodShape, Free, Leads, Aimed, Stepped, Advance, LocksAt;
    var s, p := t.state, t.state.current.value;
    StepOfInvariant(t, inp);
    KeyLeadsTo(s, inp);
    PushedGood(p, inp);
    LeadsThere(s.grid, p, inp.key, Aimed(s, inp).current.value);
    FrameMeans(s, inp);
    AdvanceMeans(t, inp);
    FrameKeepsInvariant(t, inp);
  }

  /** Over any frames whose keys and ticks ask for free places only, the block is where they ask for, and nothing else
      on the board changes. */
  lemma {:induction false} FollowsWay(t: Tally, inputs: seq<Input>)
    requires Invariant(t) && t.state.current.Some? && GoodPiece(t.state.current.value)
    requires WayFree(t.state.grid, t.state.current.value, inputs)
    ensures GoodState(t.state)
    ensures var t' := Run(t, inputs);
      && AimsClear(t, inputs) && Invariant(t') && OnlyMoved(t.state, t'.state)
      && t'.state.current == Some(PoseAfter(t.state.current.value, inputs))
      && t'.locked == t.locked && t'.cleared == t.cleared
  {
    StepOfInvariant(t, Input(NoKey, false, false, ShapeO));
    hide Invariant, GoodState, GoodPiece, FrameFree, Advance, AimClear, Pushed;
    if inputs != [] {
      var before := inputs[..|inputs| - 1];
      PoseAfterGood(t.state.current.value, before);
      FollowsWay(t, before);
      FollowsFrame(Run(t, before), inputs[|inputs| - 1]);
    }
  }

  /** The frame in which a block appears: the key and the tick already move it. */
  lemma SpawnFrame(t: Tally, inp: Input)
    requires Invariant(t) && t.state.current.None?
    ensures GoodState(t.state) && GoodPiece(ActivePose(t.state))
    ensures var s, p := t.state, ActivePose(t.state);
      p == s.second.(x := s.width / 2 - 2)
      && (Free(s.grid, p) && FrameFree(s.grid, p, inp) ==>
            && Advance(t, inp).state.current == Some(Pushed(p, inp)) && Advance(t, inp).state.grid == s.grid
            && Advance(t, inp).state.second == s.third && Advance(t, inp).locked == t.locked)
  {
    hide Invariant, GoodState, GoodPiece, Free, Leads, Aimed, Stepped, Advance, LocksAt, Pressed, NewPiece;
    BetweenBlocks(t);
    var s, p := t.state, ActivePose(t.state);
    PushedGood(p, inp);
    if Free(s.grid, p) && FrameFree(s.grid, p, inp) {
      KeyLeadsTo(s, inp);
      LeadsThere(s.grid, p, inp.key, Aimed(s, inp).current.value);
      FrameMeans(s, inp);
      AdvanceMeans(t, inp);
    }
  }

  lemma BetweenBlocks(t: Tally)
    requires Invariant(t)
    ensures GoodState(t.state) && !t.state.ready && GoodPiece(ActivePose(t.state))
  {
  }

  /** Right and then left, or left and then right, with room for it, is back at the start. */
  lemma ThereAndBack(t: Tally, there: Input, back: Input)
    requires Invariant(t) && t.state.current.Some? && GoodPiece(t.state.current.value)
    requires (there.key, back.key) == (KeyRight, KeyLeft) || (there.key, back.key) == (KeyLeft, KeyRight)
    requires !there.gravity && !back.gravity
    requires GoodPiece(Pressed(t.state.current.value, there.key))
    requires Free(t.state.grid, Pressed(t.state.current.value, there.key))
    ensures GoodState(t.state)
    ensures Advance(t, there).state.current == Some(Pressed(t.state.current.value, there.key))
    ensures Advance(Advance(t, there), back).state.current == t.state.current
  {
    hide Invariant, GoodState, GoodPiece, Free, Advance, AimClear;
    var p := t.state.current.value;
    StepOfInvariant(t, there);
    assert Pressed(Pressed(p, there.key), back.key) == p;
    FrameIsFree(t.state.grid, p, there);
    FollowsFrame(t, there);
    FrameIsFree(t.state.grid, Pressed(p, there.key), back);
    FollowsFrame(Advance(t, there), back);
  }

  lemma FrameIsFree(g: Grid, p: Piece, inp: Input)
    requires GoodPiece(p) && GoodPiece(Pressed(p, inp.key)) && Free(g, Pressed(p, inp.key))
    requires !inp.gravity && !inp.key.KeySpace?
    ensures FrameFree(g, p, inp)
  {
  }

  // ----- falling -----

  function TicksOf(inputs: seq<Input>): nat {
    if inputs == [] then 0
    else TicksOf(inputs[..|inputs| - 1]) + (if inputs[|inputs| - 1].gravity then 1 else 0)
  }

  /** Frames without a key that moves anything. */
  predicate Idle(inputs: seq<Input>) {
    forall i :: 0 <= i < |inputs| ==> inputs[i].key.NoKey? || inputs[i].key.KeyOther? || inputs[i].key.KeyDown?
  }

  lemma {:induction false} IdleWay(g: Grid, p: Piece, inputs: seq<Input>)
    requires GoodPiece(p) && Free(g, p) && Idle(inputs) && p.y + TicksOf(inputs) <= Drop(g, p).y
    ensures WayFree(g, p, inputs) && PoseAfter(p, inputs) == p.(y := p.y + TicksOf(inputs))
  {
    hide Free, Drop, GoodPiece;
    if inputs == [] {
      assert p.(y := p.y + 0) == p;
    } else {
      var before := inputs[..|inputs| - 1];
      IdleWay(g, p, before);
      DropFromPath(g, p, p.y + TicksOf(before));
      DropFromPath(g, p, p.y + TicksOf(inputs));
    }
  }

  /** Without keys the block is one row lower for every tick, until it has come to rest ... */
  lemma FallsWithTicks(t: Tally, inputs: seq<Input>)
    requires Invariant(t) && t.state.current.Some? && GoodPiece(t.state.current.value) && Idle(inputs)
    requires var p := t.state.current.value; p.y + TicksOf(inputs) <= Drop(t.state.grid, p).y
    ensures GoodState(t.state)
    ensures var p, t' := t.state.current.value, Run(t, inputs);
      && Invariant(t') && OnlyMoved(t.state, t'.state) && t'.locked == t.locked
      && t'.state.current == Some(p.(y := p.y + TicksOf(inputs)))
  {
    hide Invariant, GoodState, GoodPiece, WayFree, PoseAfter, AimsClear, Free, Drop, TicksOf, Idle, Run, OnlyMoved;
    StepOfInvariant(t, Input(NoKey, false, false, ShapeO));
    IdleWay(t.state.grid, t.state.current.value, inputs);
    FollowsWay(t, inputs);
  }

  /** A frame without keys for a block that rests on something. */
  lemma RestingFrame(t: Tally, inp: Input)
    requires Invariant(t) && t.state.current.Some? && GoodPiece(t.state.current.value) && Idle([inp])
    requires !Free(t.state.grid, Down(t.state.current.value))
    ensures var s, q, t' := t.state, t.state.current.value, Advance(t, inp);
      && GoodState(s)
      && (inp.gravity ==> LocksAt(s, q, t'.state) && t'.locked == t.locked + 1)
      && (!inp.gravity ==> t'.state.current == Some(q))
  {
    hide Invariant, GoodState, GoodShape, Free, Aimed, Stepped, Advance, LocksAt;
    assert [inp][0].key == inp.key;
    assert Down(t.state.current.value) == t.state.current.value.(y := t.state.current.value.y + 1);
    StepOfInvariant(t, inp);
    KeyLeadsTo(t.state, inp);
    FrameMeans(t.state, inp);
    AdvanceMeans(t, inp);
    assert inp.gravity ==> LocksAt(t.state, t.state.current.value, Stepped(t.state, inp));
    LockTakesBlock(t.state, t.state.current.value, Stepped(t.state, inp));
  }

  lemma LockTakesBlock(s: BoardState, q: Piece, s': BoardState)
    requires GoodState(s) && GoodPiece(q)
    ensures LocksAt(s, q, s') ==> s'.current == None
  {
  }

  /** ... and the next tick locks it there. */
  lemma LocksAtRest(t: Tally, inputs: seq<Input>, inp: Input)
    requires Invariant(t) && t.state.current.Some? && GoodPiece(t.state.current.value) && Idle(inputs) && Idle([inp])
    requires var p := t.state.current.value; p.y + TicksOf(inputs) == Drop(t.state.grid, p).y
    ensures GoodState(t.state)
    ensures var s, t' := t.state, Run(t, inputs);
      && (inp.gravity ==>
            && LocksAt(s, Drop(s.grid, s.current.value), Advance(t', inp).state)
            && Advance(t', inp).locked == t.locked + 1)
      && (!inp.gravity ==> Advance(t', inp).state.current == Some(Drop(s.grid, s.current.value)))
  {
    hide Invariant, GoodState, GoodShape, Free, Drop, TicksOf, Advance, LocksAt, Run, Idle;
    StepOfInvariant(t, inp);
    var s, t' := t.state, Run(t, inputs);
    var q := Drop(s.grid, s.current.value);
    FallsWithTicks(t, inputs);
    RestsAtDrop(s.grid, s.current.value);
    StepOfInvariant(t', inp);
    assert t'.state.current == Some(q);
    RestingFrame(t', inp);
    SameLock(s, t'.state, q, Advance(t', inp).state);
  }

  lemma RestsAtDrop(g: Grid, p: Piece)
    requires GoodPiece(p) && Free(g, p)
    ensures Drop(g, p) == p.(y := Drop(g, p).y) && GoodPiece(Down(Drop(g, p))) && !Free(g, Down(Drop(g, p)))
  {
  }

  /** A lock depends on the grid, the counts and the width alone. */
  lemma SameLock(s: BoardState, m: BoardState, q: Piece, s': BoardState)
    requires GoodState(s) && GoodState(m) && GoodPiece(q) && OnlyMoved(s, m)
    ensures LocksAt(m, q, s') <==> LocksAt(s, q, s')
  {
    hide LockGrid, LockCounts, CheckedLines;
  }

  // ----- the keys of a plan -----

  /** The keys read by a run, frames without one left out. */
  function TakenKeys(inputs: seq<Input>): seq<Key> {
    if inputs == [] then []
    else
      var key := inputs[|inputs| - 1].key;
      TakenKeys(inputs[..|inputs| - 1]) + (if key.NoKey? then [] else [key])
  }

  function KeyCount(keys: seq<Key>, key: Key): nat {
    if keys == [] then 0 else (if keys[0] == key then 1 else 0) + KeyCount(keys[1..], key)
  }

  lemma {:induction false} KeyCountMore(keys: seq<Key>, last: Key, key: Key)
    ensures KeyCount(keys + [last], key) == KeyCount(keys, key) + (if last == key then 1 else 0)
  {
    if keys == [] {
      assert [last][1..] == [];
    } else {
      assert (keys + [last])[1..] == keys[1..] + [last];
      KeyCountMore(keys[1..], last, key);
    }
  }

  lemma {:induction false} PlanKeyCount(plan: seq<Action>, a: Action)
    ensures KeyCount(KeysOf(plan), KeyOf(a)) == AiPlan.Tally(plan, a)
  {
    if plan != [] {
      PlanKeyCount(plan[1..], a);
      assert KeysOf(plan)[1..] == KeysOf(plan[1..]);
    }
  }

  lemma TakenCount(inputs: seq<Input>, key: Key)
    requires inputs != [] && !key.NoKey?
    ensures KeyCount(TakenKeys(inputs), key) ==
      KeyCount(TakenKeys(inputs[..|inputs| - 1]), key) + (if inputs[|inputs| - 1].key == key then 1 else 0)
  {
    hide KeyCount;
    var before, last := TakenKeys(inputs[..|inputs| - 1]), inputs[|inputs| - 1].key;
    if last.NoKey? {
      assert TakenKeys(inputs) == before;
    } else {
      KeyCountMore(before, last, key);
    }
  }

  /** A quarter turn per up key, a column per left or right key, a row per tick. */
  function Counted(p: Piece, ups: nat, lefts: nat, rights: nat, ticks: nat): Piece {
    p.(rot := if p.kind.ShapeO? then p.rot else (p.rot + ups) % 4, x := p.x - lefts + rights, y := p.y + ticks)
  }

  lemma {:induction false} PoseAfterCounts(p: Piece, inputs: seq<Input>)
    requires 0 <= p.rot < 4
    ensures var keys := TakenKeys(inputs);
      PoseAfter(p, inputs) ==
        Counted(p, KeyCount(keys, KeyUp), KeyCount(keys, KeyLeft), KeyCount(keys, KeyRight), TicksOf(inputs))
  {
    hide KeyCount, TakenKeys;
    if inputs == [] {
      NothingCounted(p);
    } else {
      var before := inputs[..|inputs| - 1];
      PoseAfterCounts(p, before);
      TakenCount(inputs, KeyUp);
      TakenCount(inputs, KeyLeft);
      TakenCount(inputs, KeyRight);
      TurnOnce(p.rot, KeyCount(TakenKeys(before), KeyUp));
    }
  }

  lemma NothingCounted(p: Piece)
    requires 0 <= p.rot < 4
    ensures forall key :: KeyCount(TakenKeys([]), key) == 0
    ensures Counted(p, 0, 0, 0, TicksOf([])) == p
  {
  }

  lemma TurnOnce(rot: int, n: nat)
    requires 0 <= rot < 4
    ensures ((rot + n) % 4 + 1) % 4 == (rot + (n + 1)) % 4
  {
  }

  /** The keys before the hard drop of a plan, however many frames lie between them and whenever the ticks come, bring
      the block to the planned rotation and column, if every place on the way is free. */
  lemma PlanLeads(t: Tally, inputs: seq<Input>, rot: nat, x: int)
    requires Invariant(t) && t.state.current.Some? && GoodPiece(t.state.current.value)
    requires WayFree(t.state.grid, t.state.current.value, inputs)
    requires TakenKeys(inputs) + [KeySpace] == KeysOf(PlanFor(rot, x, t.state.current.value.x))
    ensures GoodState(t.state)
    ensures var p, t' := t.state.current.value, Run(t, inputs);
      && Invariant(t') && OnlyMoved(t.state, t'.state) && t'.locked == t.locked
      && t'.state.current == Some(p.(
           rot := if p.kind.ShapeO? then p.rot else (p.rot + rot) % 4, x := x, y := p.y + TicksOf(inputs)))
  {
    hide Invariant, GoodState, GoodShape, WayFree, PoseAfter, AimsClear, Free, TicksOf, Run, OnlyMoved;
    hide AiPlan.Tally, KeyCount, TakenKeys, KeysOf, PlanFor;
    StepOfInvariant(t, Input(NoKey, false, false, ShapeO));
    FollowsWay(t, inputs);
    PoseAfterCounts(t.state.current.value, inputs);
    PlanCounts(TakenKeys(inputs), rot, x, t.state.current.value.x);
  }

  /** How often each key stands in a plan. */
  lemma PlanCounts(keys: seq<Key>, rot: nat, x: int, curX: int)
    requires keys + [KeySpace] == KeysOf(PlanFor(rot, x, curX))
    ensures KeyCount(keys, KeyUp) == rot && curX - KeyCount(keys, KeyLeft) + KeyCount(keys, KeyRight) == x
  {
    hide KeyCount, KeysOf, AiPlan.Tally, PlanFor;
    var plan := PlanFor(rot, x, curX);
    PlanShape(rot, x, curX);
    PlanKeyCount(plan, RotateCW);
    PlanKeyCount(plan, MoveLeft);
    PlanKeyCount(plan, MoveRight);
    KeyCountMore(keys, KeySpace, KeyUp);
    KeyCountMore(keys, KeySpace, KeyLeft);
    KeyCountMore(keys, KeySpace, KeyRight);
  }

  /** Where the simulation puts a candidate. */
  ghost function RestOf(g: Grid, p: Piece, rot: nat, x: int): (q: Piece)
    requires GoodPiece(p)
    ensures GoodPiece(q)
  {
    CandidateGood(p, rot, x);
    Drop(g, Candidate(p, rot, x))
  }

  /** Row `y` is on the candidate's simulated fall path. */
  ghost predicate OnFallPath(g: Grid, p: Piece, rot: nat, x: int, y: int)
    requires GoodPiece(p)
  {
    Placeable(g, p, rot, x) && 0 <= y <= RestOf(g, p, rot, x).y
  }

  /** The whole plan: the hard drop that ends it locks the block, in the same frame, into the grid that the search
      scored, as long as the block was still on the simulated fall path. */
  lemma PlanLocksAsScored(t: Tally, inputs: seq<Input>, inp: Input, rot: nat, x: int)
    requires Invariant(t) && t.state.current.Some? && GoodPiece(t.state.current.value) && inp.key.KeySpace?
    requires var p := t.state.current.value;
      && WayFree(t.state.grid, p, inputs) && TakenKeys(inputs + [inp]) == KeysOf(PlanFor(rot, x, p.x))
      && (p.kind.ShapeO? ==> rot == 0)
      && OnFallPath(t.state.grid, p, rot, x, p.y + TicksOf(inputs))
    ensures GoodState(t.state)
    ensures LocksAt(t.state, RestOf(t.state.grid, t.state.current.value, rot, x), Run(t, inputs + [inp]).state)
  {
    hide Invariant, GoodState, GoodShape, WayFree, Free, TicksOf, Drop, OnFallPath, PlanFor, LocksAt, Advance, KeysOf;
    hide RestOf;
    var s, p := t.state, t.state.current.value;
    assert (inputs + [inp])[..|inputs|] == inputs;
    StepOfInvariant(t, inp);
    PlanLeads(t, inputs, rot, x);
    var t' := Run(t, inputs);
    FullTurn(p, rot);
    DropLocks(t', inp, p, rot, x);
    SameLock(s, t'.state, RestOf(s.grid, p, rot, x), Advance(t', inp).state);
  }

  lemma FullTurn(p: Piece, rot: nat)
    requires GoodPiece(p)
    ensures rot == 0 ==> (p.rot + rot) % 4 == p.rot
  {
  }

  /** The hard drop of a block on the simulated fall path. */
  lemma DropLocks(t: Tally, inp: Input, p: Piece, rot: nat, x: int)
    requires Invariant(t) && t.state.current.Some? && inp.key.KeySpace? && GoodPiece(p)
    requires var live := t.state.current.value;
      live == Candidate(p, rot, x).(y := live.y) && OnFallPath(t.state.grid, p, rot, x, live.y)
    ensures GoodState(t.state)
    ensures LocksAt(t.state, RestOf(t.state.grid, p, rot, x), Advance(t, inp).state)
  {
    hide Invariant, GoodState, GoodMask, Free, Drop, Advance, CheckedLines;
    StepOfInvariant(t, inp);
    CandidateGood(p, rot, x);
    PlannedDropMatchesScore(t, inp, p, rot, x);
    AdvanceMeans(t, inp);
    GhostIsRest(t, p, rot, x);
    CheckedMeans(GhostLocked(t.state, inp));
  }

  lemma GhostIsRest(t: Tally, p: Piece, rot: nat, x: int)
    requires Invariant(t) && t.state.current.Some? && GoodPiece(p)
    requires var live := t.state.current.value;
      live == Candidate(p, rot, x).(y := live.y) && OnFallPath(t.state.grid, p, rot, x, live.y)
    ensures t.state.shadow == Some(RestOf(t.state.grid, p, rot, x))
  {
    CandidateGood(p, rot, x);
    LandsAsScored(t.state.grid, t.state.width, p, rot, x, t.state.current.value);
  }
}

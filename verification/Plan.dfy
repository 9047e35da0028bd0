/** The AI's action plan and its delayed execution (Client/TetrisBoardAI.cpp, RebuildDelays, HandleInput, MakePlan),
    on values. */
module AiPlan {
  import opened Boards

  datatype Level = Easy | Normal | Hard

  datatype Action = RotateCW | MoveLeft | MoveRight | HardDrop

  datatype Delays = Delays(
    rotMin: int, rotMax: int,
    moveMin: int, moveMax: int,
    dropMin: int, dropMax: int,
    postPlan: int, preDrop: int)

  /** lround(v * mul) for non-negative values. */
  function Scale(v: nat, mul: real): int {
    (v as real * mul + 0.5).Floor
  }

  function Multiplier(level: Level): real {
    match level
    case Easy => 2.3
    case Normal => 2.0
    case Hard => 1.5
  }

  function RebuildDelays(level: Level): Delays {
    var mul := Multiplier(level);
    Delays(Scale(12, mul), Scale(20, mul), Scale(6, mul), Scale(12, mul), Scale(0, mul), Scale(4, mul),
      Scale(10, mul), Scale(18, mul))
  }

  predicate GoodDelays(d: Delays) {
    0 <= d.rotMin <= d.rotMax && 0 <= d.moveMin <= d.moveMax && 0 <= d.dropMin <= d.dropMax
    && 0 <= d.postPlan && 0 <= d.preDrop
  }

  lemma LevelsGiveGoodDelays(level: Level)
    ensures GoodDelays(RebuildDelays(level))
  {
  }

  /** The delays in frames: lround takes 27.6 up and 9.2 down. Only the least wait for a drop is the same at every
      level; every other delay is shorter at a harder one. */
  lemma DelaysAre()
    ensures RebuildDelays(Easy) == Delays(28, 46, 14, 28, 0, 9, 23, 41)
    ensures RebuildDelays(Normal) == Delays(24, 40, 12, 24, 0, 8, 20, 36)
    ensures RebuildDelays(Hard) == Delays(18, 30, 9, 18, 0, 6, 15, 27)
  {
  }

  /** What RandomInRange would return in one call of HandleInput, for each kind of action. */
  datatype Picks = Picks(rot: int, move: int, drop: int)

  predicate InRange(k: Picks, d: Delays) {
    d.rotMin <= k.rot <= d.rotMax && d.moveMin <= k.move <= d.moveMax && d.dropMin <= k.drop <= d.dropMax
  }

  datatype PlanState = PlanState(plan: seq<Action>, delay: int, justPlanned: bool, post: int, pre: int)

  function DelayOf(a: Action, k: Picks): int {
    match a
    case RotateCW => k.rot
    case MoveLeft => k.move
    case MoveRight => k.move
    case HardDrop => k.drop
  }

  function MaxDelay(a: Action, d: Delays): int {
    DelayOf(a, Picks(d.rotMax, d.moveMax, d.dropMax))
  }

  function KeyOf(a: Action): Key {
    match a
    case RotateCW => KeyUp
    case MoveLeft => KeyLeft
    case MoveRight => KeyRight
    case HardDrop => KeySpace
  }

  /** The part of HandleInput after planning: the new state, and the key pushed, if any. */
  function Tick(s: PlanState, d: Delays, k: Picks): (PlanState, Key) {
    if s.justPlanned && s.post > 0 then (s.(post := s.post - 1), NoKey)
    else
      var s1 := if s.justPlanned then s.(justPlanned := false, post := s.post - 1) else s;
      if s1.delay > 0 then (s1.(delay := s1.delay - 1), NoKey)
      else if s1.plan == [] then (s1, NoKey)
      else if s1.plan[0].HardDrop? && s1.pre < d.preDrop then (s1.(pre := s1.pre + 1), NoKey)
      else (s1.(plan := s1.plan[1..], delay := DelayOf(s1.plan[0], k)), KeyOf(s1.plan[0]))
  }

  /** A new plan is adopted when the old one is used up. */
  function Adopted(s: PlanState, newPlan: seq<Action>, d: Delays): PlanState {
    if s.plan == [] then PlanState(newPlan, s.delay, true, d.postPlan, 0) else s
  }

  // ----- the shape of a plan -----

  function Copies(n: int, a: Action): seq<Action> {
    if n <= 0 then [] else seq(n, _ => a)
  }

  lemma NoCopies(n: int, a: Action)
    ensures n <= 0 ==> Copies(n, a) == []
  {
  }

  /** Rotations, then moves in one direction, then one hard drop. */
  function PlanFor(rotateCW: int, targetX: int, curX: int): seq<Action> {
    Copies(rotateCW, RotateCW) + Copies(curX - targetX, MoveLeft) + Copies(targetX - curX, MoveRight) + [HardDrop]
  }

  function Tally(plan: seq<Action>, a: Action): nat {
    if plan == [] then 0 else (if plan[0] == a then 1 else 0) + Tally(plan[1..], a)
  }

  lemma {:induction false} TallyCopies(n: int, b: Action, rest: seq<Action>, a: Action)
    ensures Tally(Copies(n, b) + rest, a) == Tally(rest, a) + (if n > 0 && a == b then n else 0)
  {
    if n <= 0 {
      assert Copies(n, b) + rest == rest;
    } else {
      assert (Copies(n, b) + rest)[1..] == Copies(n - 1, b) + rest;
      TallyCopies(n - 1, b, rest, a);
    }
  }

  /** How often an action stands in a plan. */
  lemma PlanTally(rotateCW: nat, targetX: int, curX: int, a: Action)
    ensures Tally(PlanFor(rotateCW, targetX, curX), a) == (if a == HardDrop then 1 else 0)
      + (if targetX > curX && a == MoveRight then targetX - curX else 0)
      + (if curX > targetX && a == MoveLeft then curX - targetX else 0)
      + (if rotateCW > 0 && a == RotateCW then rotateCW else 0)
  {
    var drop: seq<Action> := [HardDrop];
    var right := Copies(targetX - curX, MoveRight) + drop;
    var left := Copies(curX - targetX, MoveLeft) + right;
    assert PlanFor(rotateCW, targetX, curX) == Copies(rotateCW, RotateCW) + left;
    TallyCopies(targetX - curX, MoveRight, drop, a);
    TallyCopies(curX - targetX, MoveLeft, right, a);
    TallyCopies(rotateCW, RotateCW, left, a);
    assert drop[1..] == [];
  }

  /** A plan turns and moves exactly as often as it takes to get from the current column to the target, never both left
      and right, with all rotations first and the only hard drop last. */
  lemma PlanShape(rotateCW: nat, targetX: int, curX: int)
    ensures var plan := PlanFor(rotateCW, targetX, curX);
      && |plan| >= 1 && plan[|plan| - 1] == HardDrop
      && Tally(plan, HardDrop) == 1 && Tally(plan, RotateCW) == rotateCW
      && curX - Tally(plan, MoveLeft) + Tally(plan, MoveRight) == targetX
      && (Tally(plan, MoveLeft) == 0 || Tally(plan, MoveRight) == 0)
      && forall i, j :: 0 <= i < j < |plan| && plan[j] == RotateCW ==> plan[i] == RotateCW
  {
    PlanTally(rotateCW, targetX, curX, HardDrop);
    PlanTally(rotateCW, targetX, curX, RotateCW);
    PlanTally(rotateCW, targetX, curX, MoveLeft);
    PlanTally(rotateCW, targetX, curX, MoveRight);
    hide Tally;
  }

  // ----- draining -----

  /** Calls the actions of a plan can take at most: each may have to wait out the longest delay set before it. */
  function PlanCost(plan: seq<Action>, d: Delays): int {
    if plan == [] then 0 else 1 + MaxDelay(plan[0], d) + PlanCost(plan[1..], d)
  }

  /** An explicit bound on the calls of HandleInput until the plan is used up. */
  function Potential(s: PlanState, d: Delays): int {
    (if s.justPlanned && s.post > 0 then s.post else 0)
    + (if s.delay > 0 then s.delay else 0)
    + (if s.pre < d.preDrop then d.preDrop - s.pre else 0)
    + PlanCost(s.plan, d)
  }

  lemma {:induction false} PotentialBounds(plan: seq<Action>, d: Delays)
    requires GoodDelays(d)
    ensures PlanCost(plan, d) >= |plan|
  {
    if plan != [] {
      PotentialBounds(plan[1..], d);
    }
  }

  /** Whatever delays are picked, every call with actions left brings the bound down. */
  lemma TickDecreases(s: PlanState, d: Delays, k: Picks)
    requires GoodDelays(d) && InRange(k, d) && s.plan != []
    ensures 0 <= Potential(Tick(s, d, k).0, d) < Potential(s, d)
  {
    PotentialBounds(s.plan[1..], d);
    PotentialBounds(s.plan, d);
  }

  /** The lexicographic measure (plan length, post-plan counter, action delay, pre-drop frames left). */
  function PostLeft(s: PlanState): int {
    if s.justPlanned && s.post >= 0 then s.post + 1 else 0
  }

  lemma TickDecreasesLexicographically(s: PlanState, d: Delays, k: Picks)
    requires GoodDelays(d) && InRange(k, d) && s.plan != [] && s.delay >= 0
    ensures var t := Tick(s, d, k).0;
      || |t.plan| < |s.plan|
      || (t.plan == s.plan && PostLeft(t) < PostLeft(s))
      || (t.plan == s.plan && PostLeft(t) == PostLeft(s) && 0 <= t.delay < s.delay)
      || (t.plan == s.plan && PostLeft(t) == PostLeft(s) && t.delay == s.delay
            && 0 <= d.preDrop - t.pre < d.preDrop - s.pre)
  {
  }

  function KeysOf(plan: seq<Action>): seq<Key> {
    if plan == [] then [] else [KeyOf(plan[0])] + KeysOf(plan[1..])
  }

  /** Calls of HandleInput until the plan is used up or the picks are: the final state and the keys pushed. */
  function Ticks(s: PlanState, d: Delays, ks: seq<Picks>): (PlanState, seq<Key>)
    decreases |ks|
  {
    if ks == [] || s.plan == [] then (s, [])
    else
      var (s1, key) := Tick(s, d, ks[0]);
      var (s2, keys) := Ticks(s1, d, ks[1..]);
      (s2, (if key.NoKey? then [] else [key]) + keys)
  }

  /** The plan is used up within Potential calls, and the keys pushed are its actions, in order, each exactly once. */
  lemma {:induction false} PlanDrains(s: PlanState, d: Delays, ks: seq<Picks>)
    requires GoodDelays(d) && forall i :: 0 <= i < |ks| ==> InRange(ks[i], d)
    ensures Ticks(s, d, ks).1 + KeysOf(Ticks(s, d, ks).0.plan) == KeysOf(s.plan)
    ensures |ks| >= Potential(s, d) ==> Ticks(s, d, ks).0.plan == []
    decreases |ks|
  {
    hide Tick, PlanCost, InRange, DelayOf;
    PotentialBounds(s.plan, d);
    if ks != [] && s.plan != [] {
      TickDecreases(s, d, ks[0]);
      var (s1, key) := Tick(s, d, ks[0]);
      PlanDrains(s1, d, ks[1..]);
      TickKeepsKeys(s, d, ks[0]);
    }
  }

  lemma TickKeepsKeys(s: PlanState, d: Delays, k: Picks)
    requires s.plan != []
    ensures var (s1, key) := Tick(s, d, k);
      (if key.NoKey? then [] else [key]) + KeysOf(s1.plan) == KeysOf(s.plan)
  {
  }

  /** How many calls of HandleInput pass before the next action, from the countdowns alone: those of the pause after
      planning, then those of the action delay, and before a hard drop those of the last look at the board. */
  function Wait(s: PlanState, d: Delays): nat
    requires s.plan != []
  {
    (if s.justPlanned && s.post > 0 then s.post else 0)
    + (if s.delay > 0 then s.delay else 0)
    + (if s.plan[0].HardDrop? && s.pre < d.preDrop then d.preDrop - s.pre else 0)
  }

  /** The first action waits exactly that long: for that many calls nothing is pushed and the plan stays, the next call
      pushes its key, and the delay until the one after is the one picked for this kind of action. */
  lemma {:induction false} ActsAfterWait(s: PlanState, d: Delays, ks: seq<Picks>)
    requires s.plan != [] && |ks| == Wait(s, d) + 1
    ensures Ticks(s, d, ks[..|ks| - 1]).0.plan == s.plan && Ticks(s, d, ks[..|ks| - 1]).1 == []
    ensures var (t, keys) := Ticks(s, d, ks);
      t.plan == s.plan[1..] && t.delay == DelayOf(s.plan[0], ks[|ks| - 1]) && keys == [KeyOf(s.plan[0])]
    decreases |ks|
  {
    var s1 := Tick(s, d, ks[0]).0;
    if Wait(s, d) == 0 {
      assert ks[1..] == [];
    } else {
      WaitDrops(s, d, ks[0]);
      assert ks[1..][..|ks| - 2] == ks[..|ks| - 1][1..];
      ActsAfterWait(s1, d, ks[1..]);
    }
  }

  lemma WaitDrops(s: PlanState, d: Delays, k: Picks)
    requires s.plan != []
    ensures var (t, key) := Tick(s, d, k);
      if Wait(s, d) > 0 then t.plan == s.plan && key == NoKey && Wait(t, d) == Wait(s, d) - 1
      else t.plan == s.plan[1..] && key == KeyOf(s.plan[0]) && t.delay == DelayOf(s.plan[0], k)
  {
  }

  lemma {:induction false} CostCopies(n: nat, a: Action, rest: seq<Action>, d: Delays)
    ensures PlanCost(Copies(n, a) + rest, d) == n * (1 + MaxDelay(a, d)) + PlanCost(rest, d)
  {
    if n == 0 {
      assert Copies(n, a) + rest == rest;
    } else {
      assert (Copies(n, a) + rest)[1..] == Copies(n - 1, a) + rest;
      CostCopies(n - 1, a, rest, d);
    }
  }

  /** The bound for a plan just made, in the terms of the plan. */
  lemma NewPlanBound(s: PlanState, rotateCW: nat, targetX: int, curX: int, d: Delays)
    requires GoodDelays(d) && s.plan == [] && s.delay >= 0
    ensures var dist := if targetX < curX then curX - targetX else targetX - curX;
      Potential(Adopted(s, PlanFor(rotateCW, targetX, curX), d), d) == d.postPlan + s.delay + d.preDrop
        + rotateCW * (1 + d.rotMax) + dist * (1 + d.moveMax) + 1 + d.dropMax
  {
    var drop: seq<Action> := [HardDrop];
    assert drop[1..] == [];
    if targetX < curX {
      CostCopies(curX - targetX, MoveLeft, drop, d);
      assert PlanFor(rotateCW, targetX, curX)
          == Copies(rotateCW, RotateCW) + (Copies(curX - targetX, MoveLeft) + drop);
      CostCopies(rotateCW, RotateCW, Copies(curX - targetX, MoveLeft) + drop, d);
    } else {
      CostCopies(targetX - curX, MoveRight, drop, d);
      assert PlanFor(rotateCW, targetX, curX)
          == Copies(rotateCW, RotateCW) + (Copies(targetX - curX, MoveRight) + drop);
      CostCopies(rotateCW, RotateCW, Copies(targetX - curX, MoveRight) + drop, d);
    }
  }
}

/** What one frame does to the active block, key by key and tick by tick, in rows and columns of the board
    (Client/TetrisBoard.cpp, HandleInput, MoveBlockDown, TryRotateWithWallKick). */
module Steering {
  import opened Common
  import opened Shapes
  import opened Grids
  import opened Lines
  import opened Landing
  import opened Rotation
  import opened Blocks
  import opened Boards
  import opened BoardRuns

  // ----- rotations on the board -----

  /** The rotation one turn on. */
  function Turned(rot: int, clockwise: bool): int {
    if clockwise then (rot + 1) % 4 else (rot + 3) % 4
  }

  /** Kick tests in columns to the right and rows down. A kick goes left into rotation 1 and out of 3, right
      otherwise; into an upright rotation the third test goes one row up and the last two go two rows down, out of one
      the other way. */
  function Offset(rot: int, next: int, k: int): (int, int) {
    var side := if next == 1 || rot == 3 then -1 else 1;
    var down := if next % 2 == 1 then 1 else -1;
    if k == 0 then (0, 0)
    else if k == 1 then (side, 0)
    else if k == 2 then (side, -down)
    else if k == 3 then (0, 2 * down)
    else (side, 2 * down)
  }

  function TurnedBy(p: Piece, clockwise: bool, k: int): Piece {
    var next := Turned(p.rot, clockwise);
    p.(rot := next, x := p.x + Offset(p.rot, next, k).0, y := p.y + Offset(p.rot, next, k).1)
  }

  lemma KickMeans(p: Piece, clockwise: bool, k: int)
    requires GoodPiece(p) && 0 <= k < NUM_OF_KICK_TEST
    ensures Kicked(p, clockwise, k) == TurnedBy(p, clockwise, k) && GoodPiece(TurnedBy(p, clockwise, k))
  {
    KickOffset(p.rot, clockwise, k);
    hide KickAt, Offset;
  }

  lemma KickOffset(rot: int, clockwise: bool, k: int)
    requires 0 <= rot < ROTATION_COUNT && 0 <= k < NUM_OF_KICK_TEST
    ensures NextRotation(rot, clockwise) == Turned(rot, clockwise)
    ensures var there := Offset(rot, Turned(rot, clockwise), k);
      KickAt(rot, clockwise, k).0 == there.0 && KickAt(rot, clockwise, k).1 == -there.1
  {
  }

  /** The first kick test, counted in board rows and columns, at which the turned block is free. */
  ghost predicate FirstTurn(g: Grid, p: Piece, clockwise: bool, k: int)
    requires GoodPiece(p)
  {
    && 0 <= k < NUM_OF_KICK_TEST && FreeTurn(g, p, clockwise, k)
    && forall j :: 0 <= j < k ==> !FreeTurn(g, p, clockwise, j)
  }

  ghost predicate FreeTurn(g: Grid, p: Piece, clockwise: bool, k: int)
    requires GoodPiece(p) && 0 <= k < NUM_OF_KICK_TEST
  {
    KickMeans(p, clockwise, k);
    Free(g, TurnedBy(p, clockwise, k))
  }

  lemma TurnMeans(g: Grid, p: Piece, clockwise: bool)
    requires GoodPiece(p) && !p.kind.ShapeO?
    ensures forall k :: FirstTurn(g, p, clockwise, k) ==>
      TryRotate(g, p, clockwise) == Attempt(true, TurnedBy(p, clockwise, k))
    ensures (forall k :: 0 <= k < NUM_OF_KICK_TEST ==> !FreeTurn(g, p, clockwise, k)) ==>
      TryRotate(g, p, clockwise) == Attempt(false, p)
  {
    hide TurnedBy, Kicked, Free, GoodShape;
    forall k | 0 <= k < NUM_OF_KICK_TEST
      ensures GoodPiece(Kicked(p, clockwise, k)) && FreeTurn(g, p, clockwise, k) == Free(g, Kicked(p, clockwise, k))
    {
      KickMeans(p, clockwise, k);
    }
    forall k | FirstTurn(g, p, clockwise, k)
      ensures TryRotate(g, p, clockwise) == Attempt(true, TurnedBy(p, clockwise, k))
    {
      KickMeans(p, clockwise, k);
      TryKicksIsFirst(g, p, clockwise, 0, k);
    }
    TryKicksIsFirst(g, p, clockwise, 0, 0);
  }

  // ----- keys -----

  /** The block that this frame's input meets: the active one, or the queued one where it appears. */
  function ActivePose(s: BoardState): Piece {
    if s.current.Some? then s.current.value else s.second.(x := s.width / 2 - 2)
  }

  /** `q` is the lowest place below `p` with no filled cell in between. */
  ghost predicate Lowest(g: Grid, p: Piece, q: Piece)
    requires GoodPiece(p)
  {
    && q == p.(y := q.y) && p.y <= q.y
    && (forall y :: p.y <= y <= q.y ==> Free(g, p.(y := y)))
    && !Free(g, p.(y := q.y + 1))
  }

  lemma DropIsLowest(g: Grid, p: Piece)
    requires GoodPiece(p) && Free(g, p)
    ensures Lowest(g, p, Drop(g, p))
  {
    forall y | p.y <= y <= Drop(g, p).y ensures GoodPiece(p.(y := y)) && Free(g, p.(y := y)) {
      DropFromPath(g, p, y);
    }
    assert Down(Drop(g, p)) == p.(y := Drop(g, p).y + 1);
  }

  lemma LowestParts(g: Grid, p: Piece, q: Piece, y: int)
    requires GoodPiece(p) && Lowest(g, p, q)
    ensures GoodPiece(p.(y := y)) && q == p.(y := q.y) && p.y <= q.y
    ensures (p.y <= y <= q.y ==> Free(g, p.(y := y))) && (y == q.y + 1 ==> !Free(g, p.(y := y)))
  {
  }

  /** There is one lowest place only. */
  lemma LowestIsDrop(g: Grid, p: Piece, q: Piece)
    requires GoodPiece(p) && Free(g, p) && Lowest(g, p, q)
    ensures q == Drop(g, p)
  {
    hide Lowest, GoodPiece, Free;
    DropIsLowest(g, p);
    var d := Drop(g, p);
    LowestParts(g, p, q, d.y + 1);
    LowestParts(g, p, d, d.y + 1);
    LowestParts(g, p, q, q.y + 1);
    LowestParts(g, p, d, q.y + 1);
  }

  /** Where a key puts a free block: one column to its side if it is free there, turned clockwise to the first free kick
      offset, at the bottom, or nowhere else. */
  ghost predicate Leads(g: Grid, p: Piece, key: Key, q: Piece)
    requires GoodPiece(p)
  {
    var left, right := p.(x := p.x - 1), p.(x := p.x + 1);
    match key
    case KeyLeft => q == if Free(g, left) then left else p
    case KeyRight => q == if Free(g, right) then right else p
    case KeyUp =>
      if p.kind.ShapeO? then q == p
      else
        && (forall k :: FirstTurn(g, p, true, k) ==> q == TurnedBy(p, true, k))
        && ((forall k :: 0 <= k < NUM_OF_KICK_TEST ==> !FreeTurn(g, p, true, k)) ==> q == p)
    case KeySpace => Lowest(g, p, q)
    case _ => q == p
  }

  lemma SteeredLeads(g: Grid, p: Piece, key: Key)
    requires GoodPiece(p) && Free(g, p)
    ensures Leads(g, p, key, Steered(g, p, key))
  {
    hide GoodShape, Free, Lowest, FirstTurn, FreeTurn, TurnedBy, TryRotate;
    DropIsLowest(g, p);
    if !p.kind.ShapeO? {
      TurnMeans(g, p, true);
    } else {
      SquareStays(g, p);
    }
  }

  /** HandleInput, for every key, on a block that is free. */
  lemma KeyLeadsTo(s: BoardState, inp: Input)
    requires GoodState(s) && GoodPiece(ActivePose(s)) && Free(s.grid, ActivePose(s))
    ensures var s1 := Aimed(s, inp);
      && Leads(s.grid, ActivePose(s), inp.key, s1.current.value)
      && GoodPiece(s1.current.value) && Free(s.grid, s1.current.value)
      && s1.soft == (inp.downHeld && (s.soft || inp.key.KeyDown?)) && s1.ready == (s.ready || inp.key.KeySpace?)
  {
    hide Free, Steered, Leads, GoodShape;
    SteeredLeads(s.grid, ActivePose(s), inp.key);
  }

  lemma SquareStays(g: Grid, p: Piece)
    requires GoodPiece(p) && p.kind.ShapeO?
    ensures TryRotate(g, p, true) == Attempt(true, p)
  {
  }

  // ----- ticks -----

  /** The block has become part of the grid at `q`, and the full rows have been cleared. */
  ghost predicate LocksAt(s: BoardState, q: Piece, s': BoardState)
    requires GoodState(s) && GoodPiece(q)
  {
    && s'.current == None
    && |LockCounts(s.counts, s.width, q)| == |LockGrid(s.grid, q)|
    && (s'.grid, s'.counts) == CheckedLines(LockGrid(s.grid, q), LockCounts(s.counts, s.width, q), s.width)
  }

  /** The rest of a frame for a block that the input has put at `q` without asking for a lock: on a tick it falls one
      row, or it locks where it is when that row is taken; without a tick it stays. */
  lemma FrameMeans(s: BoardState, inp: Input)
    requires GoodState(s) && GoodPiece(ActivePose(s)) && !s.ready && !inp.key.KeySpace?
    ensures var q, s' := Aimed(s, inp).current.value, Stepped(s, inp);
      var below := q.(y := q.y + 1);
      && GoodPiece(q) && GoodPiece(below)
      && (if !inp.gravity then s'.current == Some(q) && s'.grid == s.grid && s'.counts == s.counts
          else if Free(s.grid, below) then s'.current == Some(below) && s'.grid == s.grid && s'.counts == s.counts
          else LocksAt(s, q, s'))
      && s'.width == s.width && s'.table == s.table && !s'.ready
      && (s.current.Some? ==> s'.second == s.second && s'.third == s.third)
      && (s.current.None? ==> s'.second == s.third && s'.third == NewPiece(s.table, inp.next, SPAWN_X, SPAWN_Y))
  {
    hide Free, GoodShape, LockGrid, LockCounts, Steered, Shadow;
    SteppedByAim(s, inp);
    AimedKeepsGrid(s, inp);
    AimedKeepsRest(s, inp);
    FallenMeans(Aimed(s, inp), inp.gravity);
    if Locks(Aimed(s, inp), inp.gravity) {
      CheckedMeans(Fallen(Aimed(s, inp), inp.gravity));
    }
  }

  lemma AimedKeepsRest(s: BoardState, inp: Input)
    requires GoodState(s)
    ensures var s1 := Aimed(s, inp);
      && (s.current.Some? ==> s1.second == s.second && s1.third == s.third)
      && (s.current.None? ==> s1.second == s.third && s1.third == NewPiece(s.table, inp.next, SPAWN_X, SPAWN_Y))
  {
    hide Steered, Shadow, NewPiece;
  }

  lemma FallenMeans(s: BoardState, gravity: bool)
    requires GoodState(s) && s.current.Some? && !s.ready
    ensures var q := s.current.value; var below := q.(y := q.y + 1);
      && GoodPiece(q) && GoodPiece(below) && (Locks(s, gravity) <==> gravity && !Free(s.grid, below))
      && Fallen(s, gravity) ==
           if !gravity then s
           else if Free(s.grid, below) then s.(current := Some(below))
           else s.(grid := LockGrid(s.grid, q), counts := LockCounts(s.counts, s.width, q), current := None)
  {
    hide Free;
    assert Down(s.current.value) == s.current.value.(y := s.current.value.y + 1);
  }

  lemma CheckedMeans(s: BoardState)
    requires GoodState(s)
    ensures |s.counts| == |s.grid| >= 2 && forall r :: 0 <= r < |s.grid| ==> |s.grid[r]| >= 2
    ensures var s' := Checked(s);
      && (s'.grid, s'.counts) == CheckedLines(s.grid, s.counts, s.width)
      && s' == s.(grid := s'.grid, counts := s'.counts)
  {
  }
}

/** Rotation with wall kicks (Client/TetrisBoard.cpp, TryRotateWithWallKick), on values. */
module Rotation {
  import opened Shapes
  import opened Grids

  datatype Attempt = Attempt(ok: bool, pose: Piece)

  /** The pose of kick test `k`: rotated, then shifted by the kick offset (the table's y axis points up). */
  function Kicked(p: Piece, clockwise: bool, k: int): Piece
    requires 0 <= p.rot < ROTATION_COUNT && 0 <= k < NUM_OF_KICK_TEST
  {
    var kick := KickAt(p.rot, clockwise, k);
    p.(rot := NextRotation(p.rot, clockwise), x := p.x + kick.0, y := p.y - kick.1)
  }

  /** The kick tests from number `k` on. */
  ghost function TryKicks(g: Grid, p: Piece, clockwise: bool, k: int): (a: Attempt)
    requires GoodPiece(p) && 0 <= k <= NUM_OF_KICK_TEST
    ensures GoodPiece(a.pose)
    ensures a.ok ==> Free(g, a.pose)
    ensures !a.ok ==> a.pose == p
    decreases NUM_OF_KICK_TEST - k
  {
    if k == NUM_OF_KICK_TEST then Attempt(false, p)
    else if Free(g, Kicked(p, clockwise, k)) then Attempt(true, Kicked(p, clockwise, k))
    else TryKicks(g, p, clockwise, k + 1)
  }

  ghost function TryRotate(g: Grid, p: Piece, clockwise: bool): (a: Attempt)
    requires GoodPiece(p)
    ensures GoodPiece(a.pose)
  {
    if p.kind.ShapeO? then Attempt(true, p) else TryKicks(g, p, clockwise, 0)
  }

  /** A kick test that succeeds is the first free one, counted from `k`. */
  ghost predicate FirstFree(g: Grid, p: Piece, clockwise: bool, k: int, i: int)
    requires GoodPiece(p) && 0 <= k
  {
    && k <= i < NUM_OF_KICK_TEST && Free(g, Kicked(p, clockwise, i))
    && forall j :: k <= j < i ==> !Free(g, Kicked(p, clockwise, j))
  }

  lemma {:induction false} TryKicksIsFirst(g: Grid, p: Piece, clockwise: bool, k: int, i: int)
    requires GoodPiece(p) && 0 <= k <= NUM_OF_KICK_TEST
    ensures FirstFree(g, p, clockwise, k, i) ==>
      TryKicks(g, p, clockwise, k) == Attempt(true, Kicked(p, clockwise, i))
    ensures TryKicks(g, p, clockwise, k).ok <==>
      exists j :: k <= j < NUM_OF_KICK_TEST && Free(g, Kicked(p, clockwise, j))
    decreases NUM_OF_KICK_TEST - k
  {
    if k < NUM_OF_KICK_TEST {
      TryKicksIsFirst(g, p, clockwise, k + 1, i);
    }
  }

  lemma {:induction false} FindFirst(g: Grid, p: Piece, clockwise: bool, k: int) returns (i: int)
    requires GoodPiece(p) && 0 <= k <= NUM_OF_KICK_TEST && TryKicks(g, p, clockwise, k).ok
    ensures FirstFree(g, p, clockwise, k, i)
    decreases NUM_OF_KICK_TEST - k
  {
    if Free(g, Kicked(p, clockwise, k)) {
      i := k;
    } else {
      i := FindFirst(g, p, clockwise, k + 1);
    }
  }

  /** Undoing kick test `k` by test `k` of the opposite rotation lands on the starting pose. */
  lemma KickedBack(p: Piece, clockwise: bool, k: int)
    requires GoodPiece(p) && 0 <= k < NUM_OF_KICK_TEST
    ensures GoodPiece(Kicked(p, clockwise, k)) && Kicked(p, clockwise, k).kind == p.kind
    ensures Kicked(Kicked(p, clockwise, k), !clockwise, k) == p
  {
    KicksAreInverse(p.rot, clockwise, k);
  }

  /** Success takes the first free offset; failure means every offset collides, and leaves the pose alone. */
  lemma RotationTakesFirstFreeKick(g: Grid, p: Piece, clockwise: bool)
    requires GoodPiece(p) && !p.kind.ShapeO?
    ensures var a := TryRotate(g, p, clockwise);
      if a.ok then exists i :: FirstFree(g, p, clockwise, 0, i) && a.pose == Kicked(p, clockwise, i)
      else a.pose == p && forall i :: 0 <= i < NUM_OF_KICK_TEST ==> !Free(g, Kicked(p, clockwise, i))
  {
    if TryRotate(g, p, clockwise).ok {
      var i := FindFirst(g, p, clockwise, 0);
      TryKicksIsFirst(g, p, clockwise, 0, i);
    } else {
      TryKicksIsFirst(g, p, clockwise, 0, 0);
    }
  }

  /** On any board: a rotation that succeeds from a collision-free pose can be followed by one the other way. */
  lemma RotationIsReversible(g: Grid, p: Piece, clockwise: bool)
    requires GoodPiece(p) && Free(g, p) && TryRotate(g, p, clockwise).ok
    ensures TryRotate(g, TryRotate(g, p, clockwise).pose, !clockwise).ok
  {
    if !p.kind.ShapeO? {
      var i := FindFirst(g, p, clockwise, 0);
      TryKicksIsFirst(g, p, clockwise, 0, i);
      var q := Kicked(p, clockwise, i);
      KickedBack(p, clockwise, i);
      assert Free(g, Kicked(q, !clockwise, i));
      TryKicksIsFirst(g, q, !clockwise, 0, i);
    }
  }

  lemma KickedDistinct(p: Piece, clockwise: bool, j: int, k: int)
    requires GoodPiece(p) && 0 <= j < k < NUM_OF_KICK_TEST
    ensures Kicked(p, clockwise, j) != Kicked(p, clockwise, k)
  {
    KicksAreDistinct(p.rot, clockwise, j, k);
  }

  /** The way back ends on the starting pose if and only if no earlier kick of the way back is free. */
  lemma RotationReturnsIff(g: Grid, p: Piece, clockwise: bool, i: int)
    requires GoodPiece(p) && Free(g, p) && !p.kind.ShapeO? && FirstFree(g, p, clockwise, 0, i)
    ensures var q, back := TryRotate(g, p, clockwise).pose, !clockwise;
      && q == Kicked(p, clockwise, i)
      && (TryRotate(g, q, back).pose == p <==> forall j :: 0 <= j < i ==> !Free(g, Kicked(q, back, j)))
  {
    hide GoodShape, Free, Kicked, TryKicks;
    TryKicksIsFirst(g, p, clockwise, 0, i);
    var q := Kicked(p, clockwise, i);
    KickedBack(p, clockwise, i);
    TryKicksIsFirst(g, q, !clockwise, 0, i);
    var j := FindFirst(g, q, !clockwise, 0);
    TryKicksIsFirst(g, q, !clockwise, 0, j);
    if j < i {
      KickedDistinct(q, !clockwise, j, i);
    }
  }
}

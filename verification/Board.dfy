/** The board engine (Client/TetrisBoard.cpp): a mutable class, and the step function on values that it implements. */
module Boards {
  import opened Common
  import opened Shapes
  import opened Grids
  import opened Lines
  import opened Rotation
  import opened Blocks

  /** What DequeueInput returned: a key the board reacts to, another key, or -1. */
  datatype Key = KeyLeft | KeyRight | KeyUp | KeySpace | KeyDown | KeyOther | NoKey

  /** One call of Update: the key read, whether the down key is held, whether the drop timer has run out, and the type
      of the next random block. */
  datatype Input = Input(key: Key, downHeld: bool, gravity: bool, next: ShapeType)

  datatype BoardState = BoardState(
    table: Table,
    width: nat,
    grid: Grid,
    counts: seq<int>,
    current: Option<Piece>,
    second: Piece,
    third: Piece,
    shadow: Option<Piece>,
    ready: bool,
    soft: bool)

  const SPAWN_X := 2
  const SPAWN_Y := 2

  ghost predicate GoodState(s: BoardState) {
    && GoodTable(s.table) && s.width >= 2 && |s.grid| >= 2
    && |s.counts| == |s.grid|
    && (forall r :: 0 <= r < |s.grid| ==> |s.grid[r]| == s.width)
    && GoodPiece(s.second) && GoodPiece(s.third)
    && (s.current.Some? ==> GoodPiece(s.current.value))
  }

  /** InitBoard's outline on an otherwise empty grid. */
  function InitialGrid(width: nat, height: nat): Grid {
    seq(height, r requires 0 <= r < height =>
      seq(width, c requires 0 <= c < width => r == height - 1 || c == 0 || c == width - 1))
  }

  /** The bottom edge or a side of the rectangle. */
  predicate OnOutline(x: int, y: int, width: int, height: int, r: int, c: int) {
    (r == y + height - 1 && x <= c < x + width) || (y <= r < y + height && (c == x || c == x + width - 1))
  }

  function UnfilledGrid(width: nat, height: nat): Grid {
    seq(height, _ => seq(width, _ => false))
  }

  function InitialCounts(height: nat): seq<int> {
    seq(height, _ => 0)
  }

  function InitialState(table: Table, width: nat, height: nat, first: ShapeType, second: ShapeType): BoardState {
    BoardState(table, width, InitialGrid(width, height), InitialCounts(height), None,
      NewPiece(table, first, SPAWN_X, SPAWN_Y), NewPiece(table, second, SPAWN_X, SPAWN_Y), None, false, false)
  }

  // ----- the step function -----

  function Spawned(s: BoardState, next: ShapeType): BoardState {
    var p := s.second.(x := s.width / 2 - 2);
    s.(current := Some(p), second := s.third, third := NewPiece(s.table, next, SPAWN_X, SPAWN_Y), shadow := Some(p))
  }

  lemma SpawnedIsGood(s: BoardState, next: ShapeType)
    requires GoodState(s)
    ensures GoodState(Spawned(s, next))
  {
  }

  lemma InitialIsGood(table: Table, width: nat, height: nat, first: ShapeType, second: ShapeType)
    requires GoodTable(table) && width >= 2 && height >= 2
    ensures GoodState(InitialState(table, width, height, first, second))
  {
  }

  /** InitBoard's outline, drawn on an empty grid. */
  lemma OutlineIsInitial(g: Grid, width: nat, height: nat)
    requires |g| == height && forall r :: 0 <= r < height ==> |g[r]| == width
    requires forall r, c :: 0 <= r < height && 0 <= c < width ==> g[r][c] == OnOutline(0, 0, width, height, r, c)
    ensures g == InitialGrid(width, height)
  {
    forall r | 0 <= r < height ensures g[r] == InitialGrid(width, height)[r] {
      assert forall c :: 0 <= c < width ==> g[r][c] == OnOutline(0, 0, width, height, r, c);
    }
  }

  /** The pose the key leads to. A move or rotation that would collide is undone. */
  ghost function Steered(g: Grid, p: Piece, key: Key): (q: Piece)
    requires GoodPiece(p)
    ensures GoodPiece(q)
    ensures Free(g, p) ==> Free(g, q)
  {
    match key
    case KeyLeft => if Free(g, p.(x := p.x - 1)) then p.(x := p.x - 1) else p
    case KeyRight => if Free(g, p.(x := p.x + 1)) then p.(x := p.x + 1) else p
    case KeyUp => TryRotate(g, p, true).pose
    case KeySpace => if Free(g, p) then Drop(g, p) else p
    case _ => p
  }

  ghost function Shadow(g: Grid, p: Piece): (q: Piece)
    requires GoodPiece(p)
    ensures GoodPiece(q)
  {
    if Free(g, p) then Drop(g, p) else p
  }

  ghost function Handled(s: BoardState, key: Key, downHeld: bool): (s': BoardState)
    requires GoodState(s) && s.current.Some?
    ensures GoodState(s') && s'.current.Some?
  {
    var q := Steered(s.grid, s.current.value, key);
    s.(current := Some(q), ready := s.ready || key.KeySpace?, soft := (s.soft || key.KeyDown?) && downHeld,
       shadow := Some(Shadow(s.grid, q)))
  }

  /** This MoveBlockDown call ends with LockBlock. */
  ghost predicate Locks(s: BoardState, gravity: bool)
    requires GoodState(s) && s.current.Some?
  {
    (s.ready || gravity) && !Free(s.grid, Down(s.current.value))
  }

  ghost function Fallen(s: BoardState, gravity: bool): (s': BoardState)
    requires GoodState(s) && s.current.Some?
    ensures GoodState(s')
  {
    if Locks(s, gravity) then
      s.(grid := LockGrid(s.grid, s.current.value), counts := LockCounts(s.counts, s.width, s.current.value),
         current := None, ready := false)
    else if s.ready || gravity then s.(current := Some(Down(s.current.value)))
    else s
  }

  ghost function Checked(s: BoardState): (s': BoardState)
    requires GoodState(s)
    ensures GoodState(s')
  {
    MoveLoopSizes(ClearFullGrid(s.grid, s.counts, s.width), ClearFullCounts(s.counts, s.width),
      |s.grid| - 2, |s.grid| - 3, s.width);
    var (g, d) := CheckedLines(s.grid, s.counts, s.width);
    s.(grid := g, counts := d)
  }

  /** CheckLines runs when the block has locked. */
  ghost function Swept(s: BoardState): (s': BoardState)
    requires GoodState(s)
    ensures GoodState(s')
  {
    if s.current.None? then Checked(s) else s
  }

  /** The state in which HandleInput runs: a new block is brought in if there is none. */
  ghost function Active(s: BoardState, next: ShapeType): (s': BoardState)
    requires GoodState(s)
    ensures GoodState(s') && s'.current.Some?
  {
    if s.current.None? then Spawned(s, next) else s
  }

  /** HandleInput, MoveBlockDown, and CheckLines when the block has locked. */
  ghost function Played(s: BoardState, inp: Input): (s': BoardState)
    requires GoodState(s) && s.current.Some?
    ensures GoodState(s')
  {
    Swept(Fallen(Handled(s, inp.key, inp.downHeld), inp.gravity))
  }

  ghost function Stepped(s: BoardState, inp: Input): (s': BoardState)
    requires GoodState(s)
    ensures GoodState(s')
  {
    Played(Active(s, inp.next), inp)
  }

  /** The progress of CheckLines' first loop: the rows below `i` are done, the others untouched. */
  ghost predicate ClearedBelow(g: Grid, d: seq<int>, width: nat, i: int, h: Grid, e: seq<int>) {
    && |d| == |g| == |h| == |e|
    && (forall r :: 0 <= r < |g| ==> |g[r]| >= 2)
    && (forall r :: 0 <= r < |g| ==> h[r] == if i < r && IsFullAt(d, width, r) then ClearedRow(g[r]) else g[r])
    && (forall r :: 0 <= r < |g| ==> e[r] == if i < r && IsFullAt(d, width, r) then 0 else d[r])
  }

  lemma ClearedStep(g: Grid, d: seq<int>, width: nat, i: nat, h: Grid, e: seq<int>, h': Grid, e': seq<int>)
    requires ClearedBelow(g, d, width, i, h, e) && i < |g| - 1
    requires if e[i] == width - 2 then h' == h[i := ClearedRow(h[i])] && e' == e[i := 0] else h' == h && e' == e
    ensures e[i] == d[i] && ClearedBelow(g, d, width, i - 1, h', e')
  {
    hide ClearedRow;
    assert IsFullAt(d, width, i) <==> e[i] == width - 2;
  }

  lemma ClearedNone(g: Grid, d: seq<int>, width: nat)
    requires |d| == |g| >= 1 && forall r :: 0 <= r < |g| ==> |g[r]| >= 2
    ensures ClearedBelow(g, d, width, |g| - 2, g, d)
  {
  }

  lemma ClearedAll(g: Grid, d: seq<int>, width: nat, h: Grid, e: seq<int>)
    requires ClearedBelow(g, d, width, -1, h, e)
    ensures h == ClearFullGrid(g, d, width) && e == ClearFullCounts(d, width)
  {
  }

  /** A row after the cells between the walls were copied from another. */
  function CopiedRow(target: Row, source: Row): (r: Row)
    requires |source| == |target|
    ensures |r| == |target|
  {
    seq(|target|, c requires 0 <= c < |target| => if 0 < c < |target| - 1 then source[c] else target[c])
  }

  /** A playable cell of rows 0 to 2 is filled. */
  predicate TopRowsFilled(g: Grid) {
    exists r, c :: 0 <= r < 3 && r < |g| && 0 < c < |g[r]| - 1 && g[r][c]
  }

  // ----- the class -----

  function One(b: Block?): set<object> {
    if b == null then {} else {b as object}
  }

  class TetrisBoard {
    const modelPointers: Table
    const mWidth: nat
    const mHeight: nat
    const maxVerticalPixels: int
    const maxHorizontalPixels: int
    var isFilled: Grid
    var rowCounts: seq<int>
    var mIsBlockActive: bool
    var mIsBlockReadyToLock: bool
    var mIsSoftDropping: bool
    var mCurrentBlock: Block?
    var mSecondBlock: Block
    var mThirdBlock: Block
    var mGhostBlock: Block?

    /** The blocks this board owns. */
    ghost function Owned(): set<object>
      reads this
    {
      {mSecondBlock, mThirdBlock} + One(mCurrentBlock) + One(mGhostBlock)
    }

    ghost function State(): BoardState
      reads this, Owned()
    {
      BoardState(modelPointers, mWidth, isFilled, rowCounts,
        if mCurrentBlock == null then None else Some(mCurrentBlock.Pose()),
        mSecondBlock.Pose(), mThirdBlock.Pose(),
        if mGhostBlock == null then None else Some(mGhostBlock.Pose()),
        mIsBlockReadyToLock, mIsSoftDropping)
    }

    ghost predicate Distinct()
      reads this`mCurrentBlock, this`mGhostBlock, this`mSecondBlock, this`mThirdBlock
    {
      && mSecondBlock != mThirdBlock
      && mCurrentBlock != mSecondBlock && mCurrentBlock != mThirdBlock
      && mGhostBlock != mSecondBlock && mGhostBlock != mThirdBlock
      && (mCurrentBlock != null ==> mGhostBlock != null && mGhostBlock != mCurrentBlock)
    }

    ghost predicate Sized()
      reads this`isFilled, this`rowCounts
    {
      && mWidth >= 2 && mHeight >= 2
      && maxVerticalPixels == mHeight - 1 && maxHorizontalPixels == mWidth - 2
      && |isFilled| == mHeight && |rowCounts| == mHeight
      && (forall r :: 0 <= r < mHeight ==> |isFilled[r]| == mWidth)
    }

    ghost predicate Valid()
      reads this, Owned()
    {
      && Sized()
      && (mIsBlockActive <==> mCurrentBlock != null)
      && Distinct() && GoodState(State())
    }

    lemma CurrentIsGood()
      requires Valid()
      ensures Sized() && GoodTable(modelPointers) && (mCurrentBlock != null ==> mCurrentBlock.Valid())
    {
    }

    constructor (table: Table, width: nat, height: nat, first: ShapeType, second: ShapeType)
      requires GoodTable(table) && width >= 2 && height >= 2
      ensures Valid() && fresh(Owned())
      ensures State() == InitialState(table, width, height, first, second)
    {
      hide GoodState, GoodPiece, GoodTable, NewPiece, InitialGrid, OnOutline;
      modelPointers, mWidth, mHeight := table, width, height;
      maxVerticalPixels, maxHorizontalPixels := height - 1, width - 2;
      isFilled := UnfilledGrid(width, height);
      rowCounts := InitialCounts(height);
      mIsBlockActive, mIsBlockReadyToLock, mIsSoftDropping := false, false, false;
      mSecondBlock := new Block(table, SPAWN_X, SPAWN_Y, first);
      mThirdBlock := new Block(table, SPAWN_X, SPAWN_Y, second);
      mCurrentBlock, mGhostBlock := null, null;
      new;
      assert Sized();
      InitBoard(0, 0, width, height);
      OutlineIsInitial(isFilled, width, height);
      InitialIsGood(table, width, height, first, second);
    }

    /** InitBoard reaches the loops only when neither guard returns; then every index must be in range. */
    predicate OutlineFits(x: int, y: int, width: int, height: int) {
      x >= mWidth || y >= mHeight || x + width <= 0 || y + height <= 0 || (
        && (width > 0 ==> 0 < y + height <= mHeight && 0 <= x && x + width <= mWidth)
        && (height > 0 ==> 0 <= y && y + height <= mHeight && 0 <= x && 0 <= x + width - 1 < mWidth))
    }

    /** InitBoard: fills the bottom edge and the two sides of a rectangle. */
    method InitBoard(x: int, y: int, width: int, height: int)
      requires Sized() && OutlineFits(x, y, width, height)
      modifies this`isFilled
      ensures Sized()
      ensures forall r, c :: 0 <= r < mHeight && 0 <= c < mWidth ==>
        isFilled[r][c] == (old(isFilled)[r][c]
          || (x < mWidth && y < mHeight && x + width > 0 && y + height > 0 && OnOutline(x, y, width, height, r, c)))
    {
      if x >= mWidth || y >= mHeight {
        return;
      }
      if x + width <= 0 || y + height <= 0 {
        return;
      }
      ghost var g := isFilled;
      var i := 0;
      while i < width
        invariant 0 <= i && (i <= width || i == 0) && Sized()
        invariant forall r, c :: 0 <= r < mHeight && 0 <= c < mWidth ==>
          isFilled[r][c] == (g[r][c] || (r == y + height - 1 && x <= c < x + i))
      {
        var bottom := y + height - 1;
        isFilled := isFilled[bottom := isFilled[bottom][x + i := true]];
        i := i + 1;
      }
      var j := 0;
      while j < height
        invariant 0 <= j && (j <= height || j == 0) && Sized()
        invariant forall r, c :: 0 <= r < mHeight && 0 <= c < mWidth ==>
          isFilled[r][c] == (g[r][c] || (r == y + height - 1 && x <= c < x + width)
            || (y <= r < y + j && (c == x || c == x + width - 1)))
      {
        isFilled := isFilled[y + j := isFilled[y + j][x := true]];
        isFilled := isFilled[y + j := isFilled[y + j][x + width - 1 := true]];
        j := j + 1;
      }
    }

    method CheckCollision(block: Block) returns (hit: bool)
      requires Sized() && block.Valid()
      ensures hit <==> !Free(isFilled, block.Pose())
    {
      var worldX, worldY := block.x, block.y;
      var size := block.GetMatrixSize();
      ghost var p := block.Pose();
      var i := 0;
      while i < size
        invariant 0 <= i <= size
        invariant forall a, b :: On(MaskOf(p), a, b) && a < i ==> Clear(isFilled, p.y + a, p.x + b)
      {
        var j := 0;
        while j < size
          invariant 0 <= j <= size
          invariant forall a, b :: On(MaskOf(p), a, b) && (a < i || (a == i && b < j)) ==>
            Clear(isFilled, p.y + a, p.x + b)
        {
          var v := block.GetValue(i, j);
          if v != 0 {
            var boardX, boardY := worldX + j, worldY + i;
            assert On(MaskOf(p), i, j);
            if boardX < 0 || boardX >= mWidth || boardY < 0 || boardY >= mHeight {
              return true;
            }
            if isFilled[boardY][boardX] {
              return true;
            }
          }
          j := j + 1;
        }
        i := i + 1;
      }
      return false;
    }

    /** Runs `while (!CheckCollision(block)) { UpdatePos; MoveDown; }`, the loop that the hard drop, the ghost block and
        the AI's simulation share. */
    method FallUntilCollision(block: Block)
      requires Sized() && block.Valid()
      modifies block
      ensures block.Valid()
      ensures !Free(isFilled, block.Pose())
      ensures if old(Free(isFilled, block.Pose()))
        then block.Saved() == Drop(isFilled, old(block.Pose()))
        else block.Pose() == old(block.Pose()) && block.Saved() == old(block.Saved())
    {
      ghost var p := block.Pose();
      var hit := CheckCollision(block);
      while !hit
        invariant Sized() && block.Valid()
        invariant hit <==> !Free(isFilled, block.Pose())
        invariant block.Pose() == p.(y := block.y) && block.y >= p.y
        invariant Free(isFilled, p) && !hit ==> Drop(isFilled, block.Pose()) == Drop(isFilled, p)
        invariant Free(isFilled, p) && hit ==> block.Saved() == Drop(isFilled, p)
        invariant !Free(isFilled, p) ==> hit && block.Pose() == p && block.Saved() == old(block.Saved())
        decreases !hit, if block.y < mHeight then mHeight - block.y else 0
      {
        FreeIsInside(isFilled, block.Pose());
        block.UpdatePos();
        block.MoveDown();
        hit := CheckCollision(block);
      }
    }

    /** Without a current block nothing happens. */
    method UpdateGhostBlock()
      requires Sized()
      requires mCurrentBlock != null ==>
        && mGhostBlock != null && mGhostBlock != mCurrentBlock && mCurrentBlock.Valid()
        && (!Free(isFilled, mCurrentBlock.Pose()) ==> mCurrentBlock.Saved() == mCurrentBlock.Pose())
      modifies if mCurrentBlock == null then {} else One(mGhostBlock)
      ensures mCurrentBlock != null ==> mGhostBlock.Pose() == Shadow(isFilled, mCurrentBlock.Pose())
    {
      if mCurrentBlock == null {
        return;
      }
      mGhostBlock.CopyFrom(mCurrentBlock);
      FallUntilCollision(mGhostBlock);
      mGhostBlock.Rollback();
    }

    /** One kick test: the block is rotated and shifted, and rolled back when it collides. */
    method TestKick(clockwise: bool, originalX: int, originalY: int, kick: (int, int), ghost k: nat) returns (ok: bool)
      requires Sized() && mCurrentBlock != null && mCurrentBlock.Valid() && k < NUM_OF_KICK_TEST
      requires originalX == mCurrentBlock.x && originalY == mCurrentBlock.y
      requires kick == KickAt(mCurrentBlock.rotation, clockwise, k)
      modifies mCurrentBlock
      ensures ok == Free(isFilled, Kicked(old(mCurrentBlock.Pose()), clockwise, k))
      ensures mCurrentBlock.Pose() ==
        if ok then Kicked(old(mCurrentBlock.Pose()), clockwise, k) else old(mCurrentBlock.Pose())
      ensures mCurrentBlock.Saved() == old(mCurrentBlock.Pose())
    {
      hide Sized, GoodShape, Free, KickAt;
      mCurrentBlock.UpdatePos();
      mCurrentBlock.Rotate(clockwise);
      mCurrentBlock.SetPosition(originalX + kick.0, originalY - kick.1);
      assert mCurrentBlock.Pose() == Kicked(old(mCurrentBlock.Pose()), clockwise, k);
      var hit := CheckCollision(mCurrentBlock);
      if hit {
        mCurrentBlock.Rollback();
      }
      ok := !hit;
    }

    /** TryRotateWithWallKick: up to five offsets, each undone by rollback when it collides; the square block and a
        missing block are left alone. */
    method TryRotateWithWallKick(clockwise: bool) returns (ok: bool)
      requires Sized() && (mCurrentBlock != null ==> mCurrentBlock.Valid())
      modifies One(mCurrentBlock)
      ensures mCurrentBlock == null ==> !ok
      ensures mCurrentBlock != null ==>
        var a := TryRotate(isFilled, old(mCurrentBlock.Pose()), clockwise);
        && ok == a.ok && mCurrentBlock.Pose() == a.pose
        && mCurrentBlock.Saved() ==
          if a.pose.kind.ShapeO? then old(mCurrentBlock.Saved()) else old(mCurrentBlock.Pose())
    {
      hide Sized, GoodShape, Free, Transition, NextRotation, KickAt, Kicked;
      if mCurrentBlock == null {
        return false;
      }
      var block := mCurrentBlock;
      var currentRotation := block.rotation;
      var nextRotation := NextRotation(currentRotation, clockwise);
      if block.kind.ShapeO? {
        return true;
      }
      var originalX, originalY := block.x, block.y;
      KicksOfRow(currentRotation, clockwise);
      var kicks := SRS_KICK_DATA_JLSTZ[Transition(currentRotation, nextRotation)];
      ghost var p := block.Pose();
      var i := 0;
      while i < NUM_OF_KICK_TEST
        invariant 0 <= i <= NUM_OF_KICK_TEST
        invariant Sized() && block.Pose() == p && (i > 0 ==> block.Saved() == p)
        invariant TryKicks(isFilled, p, clockwise, i) == TryKicks(isFilled, p, clockwise, 0)
      {
        ok := TestKick(clockwise, originalX, originalY, kicks[i], i);
        if ok {
          return true;
        }
        i := i + 1;
      }
      return false;
    }

    method Instantiate(next: ShapeType)
      requires Valid() && mCurrentBlock == null
      modifies this, mSecondBlock
      ensures Valid() && mCurrentBlock == old(mSecondBlock) && mSecondBlock == old(mThirdBlock)
      ensures fresh({mThirdBlock} + One(mGhostBlock))
      ensures State() == Spawned(old(State()), next)
    {
      hide Sized, GoodState, GoodPiece, GoodTable, NewPiece;
      CurrentIsGood();
      ghost var s := State();
      SpawnedIsGood(s, next);
      mCurrentBlock := mSecondBlock;
      mSecondBlock := mThirdBlock;
      mThirdBlock := new Block(modelPointers, SPAWN_X, SPAWN_Y, next);
      mCurrentBlock.SetPosition(mWidth / 2 - 2, mCurrentBlock.y);
      mGhostBlock := new Block.CopyOf(mCurrentBlock);
      mIsBlockActive := true;
      assert State() == Spawned(s, next);
    }

    /** The part of HandleInput that moves the current block. */
    method Steer(key: Key)
      requires Sized() && mCurrentBlock != null && mCurrentBlock.Valid()
      modifies mCurrentBlock, this`mIsBlockReadyToLock, this`mIsSoftDropping
      ensures mCurrentBlock.Valid()
      ensures (if Free(isFilled, mCurrentBlock.Pose()) then mCurrentBlock.Pose() else mCurrentBlock.Saved())
        == Steered(isFilled, old(mCurrentBlock.Pose()), key)
      ensures !Free(isFilled, Steered(isFilled, old(mCurrentBlock.Pose()), key)) ==>
        mCurrentBlock.Saved() == Steered(isFilled, old(mCurrentBlock.Pose()), key)
      ensures mIsBlockReadyToLock == (old(mIsBlockReadyToLock) || key.KeySpace?)
      ensures mIsSoftDropping == (old(mIsSoftDropping) || key.KeyDown?)
    {
      mCurrentBlock.UpdatePos();
      match key {
        case KeyLeft => mCurrentBlock.MoveLeft();
        case KeyRight => mCurrentBlock.MoveRight();
        case KeyUp => var _ := TryRotateWithWallKick(true);
        case KeySpace =>
          FallUntilCollision(mCurrentBlock);
          mIsBlockReadyToLock := true;
        case KeyDown => mIsSoftDropping := true;
        case _ =>
      }
    }

    /** The end of HandleInput: a collision is undone. */
    method UndoCollision()
      requires Sized() && mCurrentBlock != null && mCurrentBlock.Valid()
      modifies mCurrentBlock
      ensures mCurrentBlock.Pose() ==
        if old(Free(isFilled, mCurrentBlock.Pose())) then old(mCurrentBlock.Pose()) else old(mCurrentBlock.Saved())
      ensures mCurrentBlock.Saved() == old(mCurrentBlock.Saved())
    {
      var hit := CheckCollision(mCurrentBlock);
      if hit {
        mCurrentBlock.Rollback();
      }
    }

    /** HandleInput up to the ghost block. */
    method SteerSafely(key: Key, downHeld: bool)
      requires Sized() && mCurrentBlock != null && mCurrentBlock.Valid()
      modifies mCurrentBlock, this`mIsBlockReadyToLock, this`mIsSoftDropping
      ensures mCurrentBlock.Valid() && mCurrentBlock.Pose() == Steered(isFilled, old(mCurrentBlock.Pose()), key)
      ensures !Free(isFilled, mCurrentBlock.Pose()) ==> mCurrentBlock.Saved() == mCurrentBlock.Pose()
      ensures mIsBlockReadyToLock == (old(mIsBlockReadyToLock) || key.KeySpace?)
      ensures mIsSoftDropping == ((old(mIsSoftDropping) || key.KeyDown?) && downHeld)
    {
      hide Sized, GoodPiece, Free, Steered;
      Steer(key);
      if !downHeld {
        mIsSoftDropping := false;
      }
      UndoCollision();
    }

    /** HandleInput with the dequeued key, and whether the down key is held, as parameters. */
    method HandleInput(key: Key, downHeld: bool)
      requires Valid() && mCurrentBlock != null
      modifies mCurrentBlock, mGhostBlock, this`mIsBlockReadyToLock, this`mIsSoftDropping
      ensures Valid()
      ensures State() == Handled(old(State()), key, downHeld)
    {
      hide Sized, GoodState, GoodPiece, Free, Steered, Shadow;
      CurrentIsGood();
      ghost var s := State();
      SteerSafely(key, downHeld);
      UpdateGhostBlock();
      assert State() == Handled(s, key, downHeld);
    }

    /** MoveBlockDown with "the drop timer has run out" as a parameter. */
    method MoveBlockDown(gravity: bool)
      requires Valid() && mCurrentBlock != null
      modifies this`isFilled, this`rowCounts, this`mCurrentBlock, this`mIsBlockActive, this`mIsBlockReadyToLock,
        mCurrentBlock
      ensures Valid()
      ensures mCurrentBlock == old(mCurrentBlock) || mCurrentBlock == null
      ensures State() == Fallen(old(State()), gravity)
    {
      hide Sized, GoodState, GoodShape, GoodTable, Free, LockGrid, LockCounts;
      CurrentIsGood();
      ghost var s := State();
      if mIsBlockReadyToLock || gravity {
        mCurrentBlock.UpdatePos();
        mCurrentBlock.MoveDown();
        var hit := CheckCollision(mCurrentBlock);
        if hit {
          mCurrentBlock.Rollback();
          LockBlock();
          mCurrentBlock := null;
          mIsBlockActive := false;
          mIsBlockReadyToLock := false;
        }
      }
      assert State() == Fallen(s, gravity);
    }

    method LockBlock()
      requires Sized() && mCurrentBlock != null && mCurrentBlock.Valid()
      modifies this`isFilled, this`rowCounts
      ensures Sized()
      ensures isFilled == LockGrid(old(isFilled), mCurrentBlock.Pose())
      ensures rowCounts == LockCounts(old(rowCounts), mWidth, mCurrentBlock.Pose())
    {
      var size := mCurrentBlock.GetMatrixSize();
      ghost var p := mCurrentBlock.Pose();
      var i := 0;
      while i < size
        invariant 0 <= i <= size && Sized()
        invariant isFilled == GridLock(old(isFilled), MaskOf(p), p.x, p.y, i)
        invariant rowCounts == CountsLock(old(rowCounts), mWidth, MaskOf(p), p.x, p.y, i)
      {
        LockMatrixRow(i, size);
        i := i + 1;
      }
    }

    /** One pass of LockBlock's inner loop. */
    method LockMatrixRow(i: nat, size: nat)
      requires Sized() && mCurrentBlock != null && mCurrentBlock.Valid()
      requires i < size == |MaskOf(mCurrentBlock.Pose())|
      modifies this`isFilled, this`rowCounts
      ensures Sized()
      ensures var p := mCurrentBlock.Pose();
        var cells, r := MaskOf(p)[i], p.y + i;
        if 0 <= r < mHeight then
          && isFilled == old(isFilled)[r := RowLock(old(isFilled)[r], cells, p.x, |cells|)]
          && rowCounts == old(rowCounts)[r := old(rowCounts)[r] + RowWeight(cells, p.x, mWidth, |cells|)]
        else isFilled == old(isFilled) && rowCounts == old(rowCounts)
    {
      var worldX := mCurrentBlock.x;
      var boardY := mCurrentBlock.y + i;
      ghost var cells := MaskOf(mCurrentBlock.Pose())[i];
      ghost var g, d := isFilled, rowCounts;
      var j := 0;
      while j < size
        invariant 0 <= j <= size && Sized()
        invariant if 0 <= boardY < mHeight
          then isFilled == g[boardY := RowLock(g[boardY], cells, worldX, j)]
            && rowCounts == d[boardY := d[boardY] + RowWeight(cells, worldX, mWidth, j)]
          else isFilled == g && rowCounts == d
      {
        var v := mCurrentBlock.GetValue(i, j);
        if v != 0 {
          var boardX := worldX + j;
          if 0 <= boardX < mWidth && 0 <= boardY < mHeight {
            isFilled := isFilled[boardY := isFilled[boardY][boardX := true]];
            rowCounts := rowCounts[boardY := rowCounts[boardY] + 1];
          }
        }
        j := j + 1;
      }
    }

    method ClearLine(row: nat)
      requires Sized() && row < mHeight
      modifies this`isFilled, this`rowCounts
      ensures Sized()
      ensures isFilled == old(isFilled)[row := ClearedRow(old(isFilled)[row])]
      ensures rowCounts == old(rowCounts)[row := 0]
    {
      rowCounts := rowCounts[row := 0];
      var line := isFilled[row];
      var i := 1;
      while i < mWidth - 1
        invariant 1 <= i <= mWidth && |line| == mWidth
        invariant forall c :: 0 <= c < mWidth ==> line[c] == (isFilled[row][c] && !(1 <= c < i && c < mWidth - 1))
      {
        line := line[i := false];
        i := i + 1;
      }
      assert line == ClearedRow(isFilled[row]);
      isFilled := isFilled[row := line];
    }

    /** Copies the cells between the walls, and the count, of one row to another, then clears the source row. */
    method MoveLine(targetLine: nat, sourceLine: nat)
      requires Sized() && sourceLine < mHeight && targetLine < mHeight
      modifies this`isFilled, this`rowCounts
      ensures Sized()
      ensures var g := old(isFilled)[targetLine := CopiedRow(old(isFilled)[targetLine], old(isFilled)[sourceLine])];
        isFilled == g[sourceLine := ClearedRow(g[sourceLine])]
      ensures rowCounts == old(rowCounts)[targetLine := old(rowCounts)[sourceLine]][sourceLine := 0]
    {
      ghost var g := isFilled;
      var i := 1;
      while i < mWidth - 1
        invariant 1 <= i && Sized() && rowCounts == old(rowCounts)
        invariant forall r :: 0 <= r < mHeight && r != targetLine ==> isFilled[r] == g[r]
        invariant forall c :: 0 <= c < mWidth ==>
          isFilled[targetLine][c] == (if 0 < c < i && c < mWidth - 1 then g[sourceLine][c] else g[targetLine][c])
      {
        isFilled := isFilled[targetLine := isFilled[targetLine][i := isFilled[sourceLine][i]]];
        i := i + 1;
      }
      assert isFilled[targetLine] == CopiedRow(g[targetLine], g[sourceLine]);
      assert isFilled == g[targetLine := CopiedRow(g[targetLine], g[sourceLine])];
      rowCounts := rowCounts[targetLine := rowCounts[sourceLine]];
      ClearLine(sourceLine);
    }

    method MoveLines()
      requires Sized()
      modifies this`isFilled, this`rowCounts
      ensures Sized()
      ensures (isFilled, rowCounts) == MoveLoop(old(isFilled), old(rowCounts), mHeight - 2, mHeight - 3)
    {
      var targetLine := maxVerticalPixels - 1;
      var sourceLine := targetLine - 1;
      while sourceLine >= 0
        invariant Sized() && -1 <= sourceLine < targetLine < mHeight
        invariant MoveLoop(isFilled, rowCounts, targetLine, sourceLine)
               == MoveLoop(old(isFilled), old(rowCounts), mHeight - 2, mHeight - 3)
      {
        if rowCounts[targetLine] != 0 {
          targetLine := targetLine - 1;
          sourceLine := sourceLine - 1;
        } else if rowCounts[sourceLine] != 0 {
          PullDown(targetLine, sourceLine);
          targetLine := targetLine - 1;
          sourceLine := sourceLine - 1;
        } else {
          sourceLine := sourceLine - 1;
        }
      }
    }

    /** The branch of MoveLines that moves a row. */
    method PullDown(targetLine: nat, sourceLine: nat)
      requires Sized() && sourceLine < targetLine < mHeight
      modifies this`isFilled, this`rowCounts
      ensures Sized()
      ensures isFilled == MoveGrid(old(isFilled), targetLine, sourceLine)
      ensures rowCounts == MoveCounts(old(rowCounts), targetLine, sourceLine)
    {
      isFilled := isFilled[targetLine := isFilled[sourceLine]];
      rowCounts := rowCounts[targetLine := rowCounts[sourceLine]];
      ghost var g := isFilled;
      MoveLine(targetLine, sourceLine);
      assert CopiedRow(g[targetLine], g[sourceLine]) == g[targetLine];
      assert g[targetLine := g[targetLine]] == g;
      assert isFilled == MoveGrid(old(isFilled), targetLine, sourceLine);
    }

    /** The first loop of CheckLines. */
    method ClearFullLines() returns (isAnyLineCleared: bool)
      requires Sized()
      modifies this`isFilled, this`rowCounts
      ensures Sized()
      ensures isAnyLineCleared <==> exists r :: IsFullAt(old(rowCounts), mWidth, r)
      ensures isFilled == ClearFullGrid(old(isFilled), old(rowCounts), mWidth)
      ensures rowCounts == ClearFullCounts(old(rowCounts), mWidth)
    {
      hide ClearedBelow, ClearedRow, ClearFullGrid, ClearFullCounts;
      isAnyLineCleared := false;
      ghost var g, d := isFilled, rowCounts;
      ClearedNone(g, d, mWidth);
      var i := maxVerticalPixels - 1;
      while i >= 0
        invariant -1 <= i < mHeight - 1 && Sized()
        invariant isAnyLineCleared <==> exists r :: i < r && IsFullAt(d, mWidth, r)
        invariant ClearedBelow(g, d, mWidth, i, isFilled, rowCounts)
      {
        ghost var h, e := isFilled, rowCounts;
        if rowCounts[i] == maxHorizontalPixels {
          isAnyLineCleared := true;
          ClearLine(i);
        }
        ClearedStep(g, d, mWidth, i, h, e, isFilled, rowCounts);
        assert IsFullAt(d, mWidth, i) == (d[i] == maxHorizontalPixels);
        i := i - 1;
      }
      ClearedAll(g, d, mWidth, isFilled, rowCounts);
    }

    method CheckLines()
      requires Sized()
      modifies this`isFilled, this`rowCounts
      ensures Sized()
      ensures (isFilled, rowCounts) == CheckedLines(old(isFilled), old(rowCounts), mWidth)
    {
      var isAnyLineCleared := ClearFullLines();
      if isAnyLineCleared {
        MoveLines();
      } else {
        assert isFilled == old(isFilled);
        assert rowCounts == old(rowCounts);
      }
    }

    /** The game-over test: looks at rows 0 to 2 only. */
    method IsFull() returns (full: bool)
      requires Sized() && mHeight >= 3
      ensures full <==> TopRowsFilled(isFilled)
    {
      var i := 0;
      while i < 3
        invariant 0 <= i <= 3
        invariant forall r, c :: 0 <= r < i && 0 < c < mWidth - 1 ==> !isFilled[r][c]
      {
        var j := 1;
        while j < mWidth - 1
          invariant 1 <= j
          invariant forall c :: 0 < c < j && c < mWidth - 1 ==> !isFilled[i][c]
        {
          if isFilled[i][j] {
            return true;
          }
          j := j + 1;
        }
        i := i + 1;
      }
      return false;
    }

    /** The start of Update. */
    method InstantiateIfInactive(next: ShapeType)
      requires Valid()
      modifies this, mSecondBlock
      ensures Valid() && mCurrentBlock != null && fresh(Owned() - old(Owned()))
      ensures State() == Active(old(State()), next) && isFilled == old(isFilled)
    {
      if !mIsBlockActive {
        Instantiate(next);
      }
    }

    /** The end of Update. */
    method CheckLinesIfInactive()
      requires Valid()
      modifies this`isFilled, this`rowCounts
      ensures Valid()
      ensures State() == Swept(old(State()))
    {
      if !mIsBlockActive {
        CheckLines();
      }
    }

    /** The rest of Update after HandleInput. */
    method FallAndCheck(gravity: bool)
      requires Valid() && mCurrentBlock != null
      modifies this`isFilled, this`rowCounts, this`mCurrentBlock, this`mIsBlockActive, this`mIsBlockReadyToLock,
        mCurrentBlock
      ensures Valid() && Owned() <= old(Owned())
      ensures State() == Swept(Fallen(old(State()), gravity))
    {
      hide GoodState, Sized, Fallen, Checked;
      MoveBlockDown(gravity);
      CheckLinesIfInactive();
    }

    /** Update once there is an active block. */
    method Play(inp: Input)
      requires Valid() && mCurrentBlock != null
      modifies mCurrentBlock, mGhostBlock, this`mIsBlockReadyToLock, this`mIsSoftDropping, this`isFilled,
        this`rowCounts, this`mCurrentBlock, this`mIsBlockActive
      ensures Valid() && Owned() <= old(Owned())
      ensures State() == Played(old(State()), inp)
    {
      hide GoodState, Sized, Handled, Fallen, Swept;
      HandleInput(inp.key, inp.downHeld);
      FallAndCheck(inp.gravity);
    }

    /** One frame. */
    method Update(inp: Input)
      requires Valid()
      modifies this, Owned()
      ensures Valid() && fresh(Owned() - old(Owned()))
      ensures State() == Stepped(old(State()), inp)
    {
      InstantiateIfInactive(inp.next);
      Play(inp);
    }
  }
}

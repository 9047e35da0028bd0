/** The moving block (Client/Block.cpp): a position, a rotation, and a saved copy of both for rollback. */
module Blocks {
  import opened Shapes
  import opened Grids

  /** The global shape table that InitializeModelPointers fills. Everything about the board holds for any good one. */
  type Table = ShapeType -> seq<Mask>

  ghost predicate GoodTable(table: Table) {
    forall t :: GoodShape(table(t)) && |table(t)[0]| == MatrixSize(t)
  }

  lemma ModelPointersIsGoodTable()
    ensures GoodTable(ModelPointers)
  {
    forall t ensures GoodShape(ModelPointers(t)) && |ModelPointers(t)[0]| == MatrixSize(t) {
      ModelPointersGood(t);
    }
  }

  /** A freshly initialised block: rotation 0 at the given position. */
  function NewPiece(table: Table, t: ShapeType, x: int, y: int): Piece {
    Piece(t, table(t), 0, x, y)
  }

  class Block {
    var kind: ShapeType
    var rotation: int
    var prevRotate: int
    var currentShape: seq<Mask>
    var prevX: int
    var prevY: int
    var x: int
    var y: int

    function Pose(): Piece
      reads this
    {
      Piece(kind, currentShape, rotation, x, y)
    }

    /** The pose that rollback restores. */
    function Saved(): Piece
      reads this
    {
      Piece(kind, currentShape, prevRotate, prevX, prevY)
    }

    ghost predicate Valid()
      reads this
    {
      GoodPiece(Pose())
    }

    /** The constructor and Initalize together; the random type is a parameter. */
    constructor (modelPointers: Table, posX: int, posY: int, t: ShapeType)
      requires GoodTable(modelPointers)
      ensures Pose() == NewPiece(modelPointers, t, posX, posY) && Valid()
    {
      x, y := posX, posY;
      kind, rotation, currentShape := t, 0, modelPointers(t);
    }

    /** An uninitialised block right after CopyFrom(other). */
    constructor CopyOf(other: Block)
      ensures Pose() == other.Pose() && Saved() == other.Saved()
    {
      kind, rotation, prevRotate, currentShape := other.kind, other.rotation, other.prevRotate, other.currentShape;
      prevX, prevY := other.prevX, other.prevY;
      x, y := other.x, other.y;
    }

    method CopyFrom(other: Block)
      modifies this
      ensures Pose() == old(other.Pose()) && Saved() == old(other.Saved())
    {
      kind, rotation, prevRotate, currentShape := other.kind, other.rotation, other.prevRotate, other.currentShape;
      prevX, prevY := other.prevX, other.prevY;
      x, y := other.x, other.y;
    }

    method UpdatePos()
      modifies this
      ensures Pose() == old(Pose()) && Saved() == old(Pose())
    {
      prevRotate := rotation;
      prevX := x;
      prevY := y;
    }

    method Rollback()
      modifies this
      ensures Pose() == old(Saved()) && Saved() == old(Saved())
    {
      rotation := prevRotate;
      x := prevX;
      y := prevY;
    }

    method MoveLeft()
      modifies this
      ensures Pose() == old(Pose()).(x := old(x) - 1) && Saved() == old(Saved())
    {
      x := x - 1;
    }

    method MoveRight()
      modifies this
      ensures Pose() == old(Pose()).(x := old(x) + 1) && Saved() == old(Saved())
    {
      x := x + 1;
    }

    /** MoveDown; Update has the same body. */
    method MoveDown()
      modifies this
      ensures Pose() == Down(old(Pose())) && Saved() == old(Saved())
    {
      y := y + 1;
    }

    method Rotate(clockwise: bool)
      modifies this
      ensures Pose() == old(Pose()).(rot := NextRotation(old(rotation), clockwise)) && Saved() == old(Saved())
    {
      rotation := if clockwise then (rotation + 1) % ROTATION_COUNT else (rotation + 3) % ROTATION_COUNT;
    }

    method SetPosition(newX: int, newY: int)
      modifies this
      ensures Pose() == old(Pose()).(x := newX, y := newY) && Saved() == old(Saved())
    {
      x := newX;
      y := newY;
    }

    method GetMatrixSize() returns (size: nat)
      requires Valid()
      ensures size == |MaskOf(Pose())|
    {
      if kind.ShapeO? {
        size := 2;
      } else if kind.ShapeI? {
        size := 4;
      } else {
        size := 3;
      }
    }

    method GetValue(i: nat, j: nat) returns (v: int)
      requires Valid() && i < |MaskOf(Pose())| && j < |MaskOf(Pose())|
      ensures v != 0 <==> On(MaskOf(Pose()), i, j)
    {
      v := currentShape[rotation][i][j];
    }
  }
}

/** The shape matrices and the wall-kick table (Client/ModelPointer.cpp, Client/ModelPointer.h). */
module Shapes {

  datatype ShapeType = ShapeI | ShapeJ | ShapeL | ShapeO | ShapeS | ShapeT | ShapeZ

  /** A square matrix of 0/1 entries; the cell (i, j) is in row i, column j. */
  type Mask = seq<seq<int>>

  const ROTATION_COUNT := 4
  const NUM_OF_KICK_TEST := 5

  function MatrixSize(t: ShapeType): nat {
    if t.ShapeO? then 2 else if t.ShapeI? then 4 else 3
  }

  predicate On(m: Mask, i: int, j: int) {
    0 <= i < |m| && 0 <= j < |m[i]| && m[i][j] != 0
  }

  /** Number of non-zero entries among the first `k` of a matrix row. */
  function RowCells(row: seq<int>, k: nat): nat
    requires k <= |row|
  {
    if k == 0 then 0 else RowCells(row, k - 1) + (if row[k - 1] != 0 then 1 else 0)
  }

  /** Number of non-zero entries in the first `k` rows. */
  function MaskCells(m: Mask, k: nat): nat
    requires k <= |m|
  {
    if k == 0 then 0 else MaskCells(m, k - 1) + RowCells(m[k - 1], |m[k - 1]|)
  }

  predicate RowUsed(m: Mask, i: int) {
    0 <= i < |m| && RowCells(m[i], |m[i]|) > 0
  }

  /** What the board needs of a matrix: square, four cells, and no unused row between two used ones. */
  predicate GoodMask(m: Mask) {
    && 1 <= |m|
    && (forall i :: 0 <= i < |m| ==> |m[i]| == |m|)
    && MaskCells(m, |m|) == 4
    && (forall a, b, c :: 0 <= a < b < c < |m| && RowUsed(m, a) && RowUsed(m, c) ==> RowUsed(m, b))
  }

  predicate GoodShape(shape: seq<Mask>) {
    && |shape| == ROTATION_COUNT
    && (forall k :: 0 <= k < ROTATION_COUNT ==> GoodMask(shape[k]))
    && (forall k :: 0 <= k < ROTATION_COUNT ==> |shape[k]| == |shape[0]|)
  }

  /** The four rotations of each shape. */
  function ModelPointers(t: ShapeType): seq<Mask> {
    match t
    case ShapeO => [
      [[1, 1], [1, 1]],
      [[1, 1], [1, 1]],
      [[1, 1], [1, 1]],
      [[1, 1], [1, 1]]]
    case ShapeJ => [
      [[1, 0, 0], [1, 1, 1], [0, 0, 0]],
      [[0, 1, 1], [0, 1, 0], [0, 1, 0]],
      [[0, 0, 0], [1, 1, 1], [0, 0, 1]],
      [[0, 1, 0], [0, 1, 0], [1, 1, 0]]]
    case ShapeL => [
      [[0, 0, 1], [1, 1, 1], [0, 0, 0]],
      [[0, 1, 0], [0, 1, 0], [0, 1, 1]],
      [[0, 0, 0], [1, 1, 1], [1, 0, 0]],
      [[1, 1, 0], [0, 1, 0], [0, 1, 0]]]
    case ShapeS => [
      [[0, 1, 1], [1, 1, 0], [0, 0, 0]],
      [[0, 1, 0], [0, 1, 1], [0, 0, 1]],
      [[0, 1, 1], [1, 1, 0], [0, 0, 0]],
      [[0, 1, 0], [0, 1, 1], [0, 0, 1]]]
    case ShapeT => [
      [[0, 1, 0], [1, 1, 1], [0, 0, 0]],
      [[0, 1, 0], [0, 1, 1], [0, 1, 0]],
      [[0, 0, 0], [1, 1, 1], [0, 1, 0]],
      [[0, 1, 0], [1, 1, 0], [0, 1, 0]]]
    case ShapeZ => [
      [[1, 1, 0], [0, 1, 1], [0, 0, 0]],
      [[0, 0, 1], [0, 1, 1], [0, 1, 0]],
      [[1, 1, 0], [0, 1, 1], [0, 0, 0]],
      [[0, 0, 1], [0, 1, 1], [0, 1, 0]]]
    case ShapeI => [
      [[0, 0, 0, 0], [1, 1, 1, 1], [0, 0, 0, 0], [0, 0, 0, 0]],
      [[0, 0, 1, 0], [0, 0, 1, 0], [0, 0, 1, 0], [0, 0, 1, 0]],
      [[0, 0, 0, 0], [0, 0, 0, 0], [1, 1, 1, 1], [0, 0, 0, 0]],
      [[0, 1, 0, 0], [0, 1, 0, 0], [0, 1, 0, 0], [0, 1, 0, 0]]]
  }

  /** The matrix a quarter turn clockwise on. */
  function QuarterTurn(m: Mask): (t: Mask)
    requires forall i :: 0 <= i < |m| ==> |m[i]| == |m|
  {
    seq(|m|, i requires 0 <= i < |m| => seq(|m|, j requires 0 <= j < |m| => m[|m| - 1 - j][i]))
  }

  /** The matrix with left and right exchanged. */
  function Mirrored(m: Mask): (t: Mask)
    requires forall i :: 0 <= i < |m| ==> |m[i]| == |m|
  {
    seq(|m|, i requires 0 <= i < |m| => seq(|m|, j requires 0 <= j < |m| => m[i][|m| - 1 - j]))
  }

  predicate TwoState(t: ShapeType) {
    t.ShapeS? || t.ShapeZ?
  }

  lemma TurnedThree(m: Mask, n: Mask)
    requires |m| == 3 && |m[0]| == |m[1]| == |m[2]| == 3
    requires |n| == 3 && |n[0]| == |n[1]| == |n[2]| == 3
    ensures n == QuarterTurn(m) <==>
      && (n[0][0], n[0][1], n[0][2]) == (m[2][0], m[1][0], m[0][0])
      && (n[1][0], n[1][1], n[1][2]) == (m[2][1], m[1][1], m[0][1])
      && (n[2][0], n[2][1], n[2][2]) == (m[2][2], m[1][2], m[0][2])
  {
    var t := QuarterTurn(m);
    assert n == t <==> n[0] == t[0] && n[1] == t[1] && n[2] == t[2];
  }

  lemma ThreeTurns(t: ShapeType, k: nat)
    requires !t.ShapeO? && !t.ShapeI? && k < ROTATION_COUNT
    ensures ModelPointers(t)[(k + 1) % ROTATION_COUNT] == QuarterTurn(ModelPointers(t)[k])
            <==> !(TwoState(t) && k % 2 == 1)
  {
    hide QuarterTurn;
    TurnedThree(ModelPointers(t)[k], ModelPointers(t)[(k + 1) % ROTATION_COUNT]);
  }

  lemma LongTurns(k: nat)
    requires k < ROTATION_COUNT
    ensures ModelPointers(ShapeI)[(k + 1) % ROTATION_COUNT] == QuarterTurn(ModelPointers(ShapeI)[k])
  {
    var m, n := ModelPointers(ShapeI)[k], ModelPointers(ShapeI)[(k + 1) % ROTATION_COUNT];
    forall i | 0 <= i < 4 ensures n[i] == QuarterTurn(m)[i] {
      assert forall j :: 0 <= j < 4 ==> n[i][j] == m[3 - j][i];
    }
  }

  lemma Squares(t: ShapeType, k: nat)
    requires k < ROTATION_COUNT
    ensures |ModelPointers(t)| == ROTATION_COUNT
    ensures forall i :: 0 <= i < |ModelPointers(t)[k]| ==> |ModelPointers(t)[k][i]| == |ModelPointers(t)[k]|
    ensures TwoState(t) ==> ModelPointers(t)[k] == ModelPointers(t)[k % 2]
  {
  }

  /** Each matrix is the one before turned clockwise by a quarter, all the way round, except that S and Z go back to
      their first matrix where a third one would come. */
  lemma QuarterTurns(t: ShapeType, k: nat)
    requires k < ROTATION_COUNT
    ensures |ModelPointers(t)| == ROTATION_COUNT
    ensures forall i :: 0 <= i < |ModelPointers(t)[k]| ==> |ModelPointers(t)[k][i]| == |ModelPointers(t)[k]|
    ensures ModelPointers(t)[(k + 1) % ROTATION_COUNT] == QuarterTurn(ModelPointers(t)[k])
            <==> !(TwoState(t) && k % 2 == 1)
    ensures TwoState(t) ==> ModelPointers(t)[k] == ModelPointers(t)[k % 2]
  {
    Squares(t, k);
    if t.ShapeI? {
      LongTurns(k);
    } else if t.ShapeO? {
      assert QuarterTurn(ModelPointers(ShapeO)[k])[0] == [1, 1] == QuarterTurn(ModelPointers(ShapeO)[k])[1];
    } else {
      ThreeTurns(t, k);
    }
  }

  /** J and L mirror each other, and so do S and Z; the turns then go the other way round. */
  lemma MirrorImages(k: nat)
    requires k < ROTATION_COUNT
    ensures |ModelPointers(ShapeJ)[k]| == 3 && forall i :: 0 <= i < 3 ==> |ModelPointers(ShapeJ)[k][i]| == 3
    ensures Mirrored(ModelPointers(ShapeJ)[k]) == ModelPointers(ShapeL)[(ROTATION_COUNT - k) % ROTATION_COUNT]
    ensures |ModelPointers(ShapeS)[0]| == 3 && forall i :: 0 <= i < 3 ==> |ModelPointers(ShapeS)[0][i]| == 3
    ensures Mirrored(ModelPointers(ShapeS)[0]) == ModelPointers(ShapeZ)[0]
  {
    var m, n := ModelPointers(ShapeJ)[k], ModelPointers(ShapeL)[(ROTATION_COUNT - k) % ROTATION_COUNT];
    forall i | 0 <= i < 3 ensures n[i] == Mirrored(m)[i] {
      assert forall j :: 0 <= j < 3 ==> n[i][j] == m[i][2 - j];
    }
    forall i | 0 <= i < 3 ensures ModelPointers(ShapeZ)[0][i] == Mirrored(ModelPointers(ShapeS)[0])[i] {
      assert forall j :: 0 <= j < 3 ==> ModelPointers(ShapeZ)[0][i][j] == ModelPointers(ShapeS)[0][i][2 - j];
    }
  }

  // ----- wall kicks -----

  /** The row of the kick table for a change of rotation; the last row also serves every remaining pair. */
  function Transition(current: int, next: int): nat {
    if current == 0 && next == 1 then 0
    else if current == 1 && next == 0 then 1
    else if current == 1 && next == 2 then 2
    else if current == 2 && next == 1 then 3
    else if current == 2 && next == 3 then 4
    else if current == 3 && next == 2 then 5
    else if current == 3 && next == 0 then 6
    else 7
  }

  /** The kick table for J, L, S, T and Z; the board uses it for I as well. */
  const SRS_KICK_DATA_JLSTZ: seq<seq<(int, int)>> := [
    [(0, 0), (-1, 0), (-1, 1), (0, -2), (-1, -2)],
    [(0, 0), (1, 0), (1, -1), (0, 2), (1, 2)],
    [(0, 0), (1, 0), (1, -1), (0, 2), (1, 2)],
    [(0, 0), (-1, 0), (-1, 1), (0, -2), (-1, -2)],
    [(0, 0), (1, 0), (1, 1), (0, -2), (1, -2)],
    [(0, 0), (-1, 0), (-1, -1), (0, 2), (-1, 2)],
    [(0, 0), (-1, 0), (-1, -1), (0, 2), (-1, 2)],
    [(0, 0), (1, 0), (1, 1), (0, -2), (1, -2)]]

  function NextRotation(rot: int, clockwise: bool): int {
    if clockwise then (rot + 1) % ROTATION_COUNT else (rot + 3) % ROTATION_COUNT
  }

  function KickAt(rot: int, clockwise: bool, k: int): (int, int)
    requires 0 <= rot < ROTATION_COUNT && 0 <= k < NUM_OF_KICK_TEST
  {
    SRS_KICK_DATA_JLSTZ[Transition(rot, NextRotation(rot, clockwise))][k]
  }

  lemma KicksOfRow(rot: int, clockwise: bool)
    requires 0 <= rot < ROTATION_COUNT
    ensures var t := Transition(rot, NextRotation(rot, clockwise));
      && t < |SRS_KICK_DATA_JLSTZ| && |SRS_KICK_DATA_JLSTZ[t]| == NUM_OF_KICK_TEST
      && forall k :: 0 <= k < NUM_OF_KICK_TEST ==> SRS_KICK_DATA_JLSTZ[t][k] == KickAt(rot, clockwise, k)
  {
  }

  /** The table's rows come in pairs, one for each rotation and its way back. */
  lemma RowsNegate(pair: nat, k: nat)
    requires pair < 4 && k < NUM_OF_KICK_TEST
    ensures |SRS_KICK_DATA_JLSTZ| == 8 && |SRS_KICK_DATA_JLSTZ[2 * pair]| == |SRS_KICK_DATA_JLSTZ[2 * pair + 1]| == 5
    ensures var there, back := SRS_KICK_DATA_JLSTZ[2 * pair][k], SRS_KICK_DATA_JLSTZ[2 * pair + 1][k];
      there.0 == -back.0 && there.1 == -back.1
  {
  }

  lemma RowsOfPair(rot: int, clockwise: bool)
    requires 0 <= rot < ROTATION_COUNT
    ensures var next := NextRotation(rot, clockwise); var pair := if clockwise then rot else next;
      && 0 <= next < ROTATION_COUNT && NextRotation(next, !clockwise) == rot
      && Transition(rot, next) == (if clockwise then 2 * pair else 2 * pair + 1)
      && Transition(next, rot) == (if clockwise then 2 * pair + 1 else 2 * pair)
  {
  }

  /** The kicks of a rotation and of the rotation back are negations of each other, test by test. */
  lemma KicksAreInverse(rot: int, clockwise: bool, k: int)
    requires 0 <= rot < ROTATION_COUNT && 0 <= k < NUM_OF_KICK_TEST
    ensures NextRotation(NextRotation(rot, clockwise), !clockwise) == rot
    ensures 0 <= NextRotation(rot, clockwise) < ROTATION_COUNT
    ensures KickAt(NextRotation(rot, clockwise), !clockwise, k).0 == -KickAt(rot, clockwise, k).0
    ensures KickAt(NextRotation(rot, clockwise), !clockwise, k).1 == -KickAt(rot, clockwise, k).1
  {
    hide Transition, NextRotation;
    RowsOfPair(rot, clockwise);
    RowsNegate(if clockwise then rot else NextRotation(rot, clockwise), k);
  }

  lemma KicksAreDistinct(rot: int, clockwise: bool, j: int, k: int)
    requires 0 <= rot < ROTATION_COUNT && 0 <= j < k < NUM_OF_KICK_TEST
    ensures KickAt(rot, clockwise, j) != KickAt(rot, clockwise, k)
  {
  }

  function Bit(v: int): nat {
    if v != 0 then 1 else 0
  }

  lemma RowCells3(row: seq<int>)
    requires |row| == 3
    ensures RowCells(row, 3) == Bit(row[0]) + Bit(row[1]) + Bit(row[2])
  {
    assert RowCells(row, 1) == Bit(row[0]);
    assert RowCells(row, 2) == Bit(row[0]) + Bit(row[1]);
  }

  lemma GoodMask3(m: Mask)
    requires |m| == 3 && |m[0]| == |m[1]| == |m[2]| == 3
    requires Bit(m[0][0]) + Bit(m[0][1]) + Bit(m[0][2]) + Bit(m[1][0]) + Bit(m[1][1]) + Bit(m[1][2])
          + Bit(m[2][0]) + Bit(m[2][1]) + Bit(m[2][2]) == 4
    requires m[1][0] != 0 || m[1][1] != 0 || m[1][2] != 0
    ensures GoodMask(m)
  {
    RowCells3(m[0]);
    RowCells3(m[1]);
    RowCells3(m[2]);
    assert MaskCells(m, 1) == RowCells(m[0], 3);
    assert MaskCells(m, 2) == RowCells(m[0], 3) + RowCells(m[1], 3);
    assert RowUsed(m, 1);
  }

  lemma PointerSizes(t: ShapeType)
    ensures |ModelPointers(t)| == ROTATION_COUNT
    ensures forall k :: 0 <= k < ROTATION_COUNT ==> |ModelPointers(t)[k]| == MatrixSize(t)
  {
  }

  lemma ThreeGood(t: ShapeType, k: nat)
    requires !t.ShapeO? && !t.ShapeI? && k < ROTATION_COUNT
    ensures |ModelPointers(t)| == ROTATION_COUNT && GoodMask(ModelPointers(t)[k])
  {
    hide GoodMask;
    GoodMask3(ModelPointers(t)[k]);
  }

  /** Every matrix of the table is good, and has the size that GetMatrixSize reports for its type. */
  lemma ModelPointersGood(t: ShapeType)
    ensures GoodShape(ModelPointers(t))
    ensures forall k :: 0 <= k < ROTATION_COUNT ==> |ModelPointers(t)[k]| == MatrixSize(t)
  {
    hide GoodMask, ModelPointers;
    PointerSizes(t);
    if t.ShapeO? {
      OGood();
    } else if t.ShapeI? {
      IGood();
    } else {
      ThreeGood(t, 0);
      ThreeGood(t, 1);
      ThreeGood(t, 2);
      ThreeGood(t, 3);
    }
  }

  lemma OGood()
    ensures forall k :: 0 <= k < ROTATION_COUNT ==> GoodMask(ModelPointers(ShapeO)[k])
  {
    var m: Mask := [[1, 1], [1, 1]];
    assert RowCells([1, 1], 1) == 1 && RowCells([1, 1], 2) == 2;
    assert MaskCells(m, 1) == 2;
    assert GoodMask(m);
  }

  lemma RowCells4(row: seq<int>)
    requires |row| == 4
    ensures RowCells(row, 4) == Bit(row[0]) + Bit(row[1]) + Bit(row[2]) + Bit(row[3])
  {
    assert RowCells(row, 1) == Bit(row[0]);
    assert RowCells(row, 2) == Bit(row[0]) + Bit(row[1]);
    assert RowCells(row, 3) == Bit(row[0]) + Bit(row[1]) + Bit(row[2]);
  }

  lemma GoodMask4(m: Mask, a: nat, b: nat, c: nat, d: nat)
    requires |m| == 4 && |m[0]| == |m[1]| == |m[2]| == |m[3]| == 4
    requires a == Bit(m[0][0]) + Bit(m[0][1]) + Bit(m[0][2]) + Bit(m[0][3])
    requires b == Bit(m[1][0]) + Bit(m[1][1]) + Bit(m[1][2]) + Bit(m[1][3])
    requires c == Bit(m[2][0]) + Bit(m[2][1]) + Bit(m[2][2]) + Bit(m[2][3])
    requires d == Bit(m[3][0]) + Bit(m[3][1]) + Bit(m[3][2]) + Bit(m[3][3])
    requires a + b + c + d == 4
    requires a == b == c == d || (a == c == d == 0) || (a == b == d == 0)
    ensures GoodMask(m)
  {
    RowCells4(m[0]);
    RowCells4(m[1]);
    RowCells4(m[2]);
    RowCells4(m[3]);
    assert MaskCells(m, 1) == a;
    assert MaskCells(m, 2) == a + b;
    assert MaskCells(m, 3) == a + b + c;
  }

  lemma IGood()
    ensures forall k :: 0 <= k < ROTATION_COUNT ==> GoodMask(ModelPointers(ShapeI)[k])
  {
    var p := ModelPointers(ShapeI);
    GoodMask4(p[0], 0, 4, 0, 0);
    GoodMask4(p[1], 1, 1, 1, 1);
    GoodMask4(p[2], 0, 0, 4, 0);
    GoodMask4(p[3], 1, 1, 1, 1);
  }

  /** At rotation 0, the rotation a block spawns with, no shape has a cell below the second matrix row. */
  lemma SpawnRows(t: ShapeType, i: int, j: int)
    requires On(ModelPointers(t)[0], i, j)
    ensures 0 <= i <= 1
  {
    if t.ShapeO? {
    } else if t.ShapeI? {
    } else {
    }
  }

  lemma SomeCell(m: Mask, k: nat) returns (i: int, j: int)
    requires k <= |m| && MaskCells(m, k) > 0
    ensures On(m, i, j)
  {
    if RowCells(m[k - 1], |m[k - 1]|) > 0 {
      i := k - 1;
      j := SomeCellInRow(m[k - 1], |m[k - 1]|);
    } else {
      i, j := SomeCell(m, k - 1);
    }
  }

  lemma SomeCellInRow(row: seq<int>, k: nat) returns (j: int)
    requires k <= |row| && RowCells(row, k) > 0
    ensures 0 <= j < k && row[j] != 0
  {
    if row[k - 1] != 0 {
      j := k - 1;
    } else {
      j := SomeCellInRow(row, k - 1);
    }
  }

  lemma UsedByCell(m: Mask, i: int, j: int)
    requires On(m, i, j)
    ensures RowUsed(m, i)
  {
    RowCellsMonotone(m[i], j + 1, |m[i]|);
  }

  lemma RowCellsMonotone(row: seq<int>, j: nat, k: nat)
    requires j <= k <= |row|
    ensures RowCells(row, j) <= RowCells(row, k)
  {
    if j < k {
      RowCellsMonotone(row, j, k - 1);
    }
  }
}

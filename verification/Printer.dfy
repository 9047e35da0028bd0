/** Which cells the Windows console writes at a refresh (Common/Libs/Console/ConsoleWin32.cpp): fully marked rows in
    blocks, the marked stretches of other rows one by one. After a row that is not fully marked the next block starts
    one row too early, so the marked cells are not always all printed; it is proved exactly when they are. */
module Printer {
  import opened Cells
  import opened Panels

  /** Some printed rectangle holds the cell. */
  predicate Drawn(rects: seq<Rect>, y: nat, x: nat) {
    exists k :: 0 <= k < |rects| && Inside(rects[k], y, x)
  }

  lemma DrawnAdd(rects: seq<Rect>, rect: Rect, y: nat, x: nat)
    ensures Drawn(rects + [rect], y, x) == (Drawn(rects, y, x) || Inside(rect, y, x))
  {
    var all := rects + [rect];
    if Drawn(rects, y, x) {
      var k :| 0 <= k < |rects| && Inside(rects[k], y, x);
      assert Inside(all[k], y, x);
    }
    if Inside(rect, y, x) {
      assert Inside(all[|rects|], y, x);
    }
  }

  lemma DrawnJoin(a: seq<Rect>, b: seq<Rect>, y: nat, x: nat)
    ensures Drawn(a + b, y, x) == (Drawn(a, y, x) || Drawn(b, y, x))
  {
    var all := a + b;
    if Drawn(a, y, x) {
      var k :| 0 <= k < |a| && Inside(a[k], y, x);
      assert Inside(all[k], y, x);
    }
    if Drawn(b, y, x) {
      var k :| 0 <= k < |b| && Inside(b[k], y, x);
      assert Inside(all[|a| + k], y, x);
    }
  }

  /** Every cell of the row is marked. */
  predicate Full(marks: seq<bool>, h: nat, w: nat, y: nat)
    requires IsGrid(marks, h, w) && y < h
  {
    forall x: nat :: x < w ==> At(marks, h, w, y, x)
  }

  /** The first n rows are fully marked. */
  predicate FullFrom(marks: seq<bool>, h: nat, w: nat, n: nat)
    requires IsGrid(marks, h, w) && n <= h
  {
    forall y: nat :: y < n ==> Full(marks, h, w, y)
  }

  /** The rows that blocks print: those of the run at the top, and those just before a row of any later run. */
  predicate BlockRow(marks: seq<bool>, h: nat, w: nat, y: nat)
    requires IsGrid(marks, h, w) && y < h
  {
    FullFrom(marks, h, w, y + 1) || (y + 1 < h && Full(marks, h, w, y + 1) && !FullFrom(marks, h, w, y + 2))
  }

  /** std::find in a row, from a position on. */
  method FindFrom(row: seq<bool>, start: nat, value: bool) returns (i: nat)
    requires start <= |row|
    ensures start <= i <= |row|
    ensures forall j :: start <= j < i ==> row[j] != value
    ensures i < |row| ==> row[i] == value
  {
    i := start;
    while i < |row| && row[i] != value
      invariant start <= i <= |row|
      invariant forall j :: start <= j < i ==> row[j] != value
    {
      i := i + 1;
    }
  }

  /** printDirtyCellsInRow: exactly the marked cells of the row. */
  method PrintDirtyCellsInRow(y0: nat, row: seq<bool>) returns (rects: seq<Rect>)
    ensures forall y: nat, x: nat :: Drawn(rects, y, x) <==> y == y0 && x < |row| && row[x]
  {
    rects := [];
    var start := FindFrom(row, 0, true);
    while start < |row|
      invariant 0 <= start <= |row| && (start < |row| ==> row[start])
      invariant forall y: nat, x: nat :: Drawn(rects, y, x) <==> y == y0 && x < start && row[x]
      decreases |row| - start
    {
      var end := FindFrom(row, start, false);
      var rect := Rect(y0, start, 1, end - start);
      forall y: nat, x: nat ensures Drawn(rects + [rect], y, x) == (Drawn(rects, y, x) || Inside(rect, y, x)) {
        DrawnAdd(rects, rect, y, x);
      }
      rects := rects + [rect];
      start := FindFrom(row, end, true);
    }
  }

  /** What is drawn of a row once the loop has passed it; `p` is the last row so far that was not fully marked. */
  predicate Passed(marks: seq<bool>, h: nat, w: nat, p: int, y: nat, x: nat)
    requires IsGrid(marks, h, w) && y < h && x < w
  {
    y <= p && ((y < p && BlockRow(marks, h, w, y)) || (!Full(marks, h, w, y) && At(marks, h, w, y, x)))
  }

  ghost predicate SoFar(marks: seq<bool>, h: nat, w: nat, p: int, rects: seq<Rect>)
    requires IsGrid(marks, h, w)
  {
    forall y: nat, x: nat :: y < h && x < w ==> (Drawn(rects, y, x) <==> Passed(marks, h, w, p, y, x))
  }

  /** Where the open block stands before a row. */
  ghost predicate OpenBlock(marks: seq<bool>, h: nat, w: nat, p: int, row: nat, start: nat, end: nat)
    requires IsGrid(marks, h, w) && row <= h && -1 <= p < row
  {
    && (p == -1 ==> start == 0 && end == row)
    && (p >= 0 ==> start == p && end == row - 1 && !Full(marks, h, w, p))
    && (forall y: nat :: p < y < row ==> Full(marks, h, w, y))
  }

  /** The rows of the open block are the ones that BlockRow says, up to the row before. */
  lemma OpenBlockRows(marks: seq<bool>, h: nat, w: nat, p: int, row: nat, start: nat, end: nat, y: nat)
    requires IsGrid(marks, h, w) && row <= h && -1 <= p < row && OpenBlock(marks, h, w, p, row, start, end)
    requires y < h && (row < h ==> !Full(marks, h, w, row))
    ensures p <= y < row ==> (start <= y < end <==> BlockRow(marks, h, w, y))
    ensures start <= y < end ==> y >= p && y < row
  {
    if p >= 0 {
      assert y >= p ==> !FullFrom(marks, h, w, y + 1);
      assert y >= p && y + 1 < h ==> !FullFrom(marks, h, w, y + 2);
    }
  }

  lemma RowCloses(marks: seq<bool>, h: nat, w: nat, p: int, row: nat, start: nat, end: nat, rects: seq<Rect>,
                  cells: seq<Rect>)
    requires IsGrid(marks, h, w) && row < h && -1 <= p < row && OpenBlock(marks, h, w, p, row, start, end)
    requires !Full(marks, h, w, row) && SoFar(marks, h, w, p, rects)
    requires forall y: nat, x: nat :: y < h && x < w ==> (Drawn(cells, y, x) <==> y == row && At(marks, h, w, y, x))
    ensures start <= end && SoFar(marks, h, w, row, rects + [Rect(start, 0, end - start, w)] + cells)
  {
    hide At, BlockRow, Drawn;
    var block := Rect(start, 0, end - start, w);
    forall y: nat, x: nat | y < h && x < w
      ensures Drawn(rects + [block] + cells, y, x) <==> Passed(marks, h, w, row, y, x)
    {
      DrawnAdd(rects, block, y, x);
      DrawnJoin(rects + [block], cells, y, x);
      OpenBlockRows(marks, h, w, p, row, start, end, y);
    }
  }

  /** What is printed, in terms of the marks. */
  ghost predicate PrintsBlocksAndMarks(marks: seq<bool>, h: nat, w: nat, rects: seq<Rect>)
    requires IsGrid(marks, h, w)
  {
    forall y: nat, x: nat :: y < h && x < w ==>
      (Drawn(rects, y, x) <==> BlockRow(marks, h, w, y) || (!Full(marks, h, w, y) && At(marks, h, w, y, x)))
  }

  lemma EndCloses(marks: seq<bool>, h: nat, w: nat, p: int, start: nat, end: nat, rects: seq<Rect>)
    requires IsGrid(marks, h, w) && -1 <= p < h && OpenBlock(marks, h, w, p, h, start, end)
    requires SoFar(marks, h, w, p, rects)
    ensures start <= end
    ensures PrintsBlocksAndMarks(marks, h, w, rects + [Rect(start, 0, end - start, w)])
  {
    hide At, BlockRow, Drawn;
    var block := Rect(start, 0, end - start, w);
    forall y: nat, x: nat | y < h && x < w
      ensures Drawn(rects + [block], y, x)
        <==> BlockRow(marks, h, w, y) || (!Full(marks, h, w, y) && At(marks, h, w, y, x))
    {
      DrawnAdd(rects, block, y, x);
      OpenBlockRows(marks, h, w, p, h, start, end, y);
    }
  }

  /** Every marked cell is printed. */
  predicate AllMarkedPrinted(marks: seq<bool>, h: nat, w: nat)
    requires IsGrid(marks, h, w)
  {
    forall y: nat, x: nat :: y < h && x < w && At(marks, h, w, y, x) ==>
      BlockRow(marks, h, w, y) || !Full(marks, h, w, y)
  }

  /** No fully marked row comes after one that is not. */
  predicate FullRowsLead(marks: seq<bool>, h: nat, w: nat)
    requires IsGrid(marks, h, w)
  {
    forall y: nat :: y < h && Full(marks, h, w, y) ==> FullFrom(marks, h, w, y)
  }

  /** The marked cells are all printed exactly when no fully marked row comes after one that is not. */
  lemma AllMarkedPrintedIff(marks: seq<bool>, h: nat, w: nat)
    requires IsGrid(marks, h, w)
    ensures AllMarkedPrinted(marks, h, w) <==> FullRowsLead(marks, h, w)
  {
    if w > 0 && AllMarkedPrinted(marks, h, w) {
      forall y: nat | y < h && Full(marks, h, w, y) ensures FullFrom(marks, h, w, y) {
        LastOfRunIsMissed(marks, h, w, y);
      }
    }
  }

  lemma {:induction false} LastOfRunIsMissed(marks: seq<bool>, h: nat, w: nat, y: nat)
    requires IsGrid(marks, h, w) && w > 0 && AllMarkedPrinted(marks, h, w) && y < h && Full(marks, h, w, y)
    ensures FullFrom(marks, h, w, y)
    decreases h - y
  {
    assert At(marks, h, w, y, 0);
    assert BlockRow(marks, h, w, y);
    if !FullFrom(marks, h, w, y + 1) {
      LastOfRunIsMissed(marks, h, w, y + 1);
    }
  }

  lemma RowIsFull(marks: seq<bool>, h: nat, w: nat, row: nat, hole: nat)
    requires IsGrid(marks, h, w) && row < h && hole <= w
    requires forall j: nat :: j < hole ==> At(marks, h, w, row, j)
    requires hole < w ==> !At(marks, h, w, row, hole)
    ensures Full(marks, h, w, row) <==> hole == w
  {
    hide At;
  }

  lemma OpensAt(marks: seq<bool>, h: nat, w: nat, row: nat)
    requires IsGrid(marks, h, w) && row < h && !Full(marks, h, w, row)
    ensures OpenBlock(marks, h, w, row, row + 1, row, row)
  {
    hide Full;
  }

  lemma OpenBlockGrows(marks: seq<bool>, h: nat, w: nat, p: int, row: nat, start: nat, end: nat)
    requires IsGrid(marks, h, w) && row < h && -1 <= p < row && OpenBlock(marks, h, w, p, row, start, end)
    requires Full(marks, h, w, row)
    ensures OpenBlock(marks, h, w, p, row + 1, start, end + 1)
  {
    hide Full;
  }

  lemma PrintedIff(marks: seq<bool>, h: nat, w: nat, rects: seq<Rect>)
    requires IsGrid(marks, h, w) && PrintsBlocksAndMarks(marks, h, w, rects)
    ensures (forall y: nat, x: nat :: y < h && x < w && At(marks, h, w, y, x) ==> Drawn(rects, y, x))
      <==> FullRowsLead(marks, h, w)
  {
    hide At, BlockRow, Full, Drawn, FullRowsLead;
    AllMarkedPrintedIff(marks, h, w);
  }

  /** The rectangles written: exactly the rows of blocks and the marked cells of rows that are not fully marked. They
      hold every marked cell if and only if no fully marked row comes after one that is not. */
  method PrintDirtyBuffer(marks: seq<bool>, h: nat, w: nat) returns (rects: seq<Rect>)
    requires IsGrid(marks, h, w)
    ensures forall y: nat, x: nat :: y < h && x < w ==>
      (Drawn(rects, y, x) <==> BlockRow(marks, h, w, y) || (!Full(marks, h, w, y) && At(marks, h, w, y, x)))
    ensures (forall y: nat, x: nat :: y < h && x < w && At(marks, h, w, y, x) ==> Drawn(rects, y, x))
      <==> FullRowsLead(marks, h, w)
  {
    hide Full, BlockRow, Drawn, At, OpenBlock, SoFar, FullRowsLead;
    rects := [];
    var blockStartRow, blockEndRow := 0, 0;
    ghost var p := -1;
    var row := 0;
    Undrawn(marks, h, w);
    while row < h
      invariant 0 <= row <= h && -1 <= p < row
      invariant OpenBlock(marks, h, w, p, row, blockStartRow, blockEndRow) && SoFar(marks, h, w, p, rects)
    {
      var current := RowOf(marks, h, w, row, w);
      var hole := FindFrom(current, 0, false);
      RowIsFull(marks, h, w, row, hole);
      if hole == w {
        OpenBlockGrows(marks, h, w, p, row, blockStartRow, blockEndRow);
        blockEndRow := blockEndRow + 1;
      } else {
        var cells := PrintDirtyCellsInRow(row, current);
        RowCloses(marks, h, w, p, row, blockStartRow, blockEndRow, rects, cells);
        rects := rects + [Rect(blockStartRow, 0, blockEndRow - blockStartRow, w)] + cells;
        blockStartRow, blockEndRow := row, row;
        p := row;
        OpensAt(marks, h, w, row);
      }
      row := row + 1;
    }
    EndCloses(marks, h, w, p, blockStartRow, blockEndRow, rects);
    rects := rects + [Rect(blockStartRow, 0, blockEndRow - blockStartRow, w)];
    PrintedIff(marks, h, w, rects);
  }

  lemma Undrawn(marks: seq<bool>, h: nat, w: nat)
    requires IsGrid(marks, h, w)
    ensures SoFar(marks, h, w, -1, []) && OpenBlock(marks, h, w, -1, 0, 0, 0)
  {
  }

  /** Two rows of one cell, only the lower one marked: the upper row is printed instead. */
  lemma MarkedRowIsMissed()
    ensures var marks := [false, true];
      IsGrid(marks, 2, 1) && At(marks, 2, 1, 1, 0) && BlockRow(marks, 2, 1, 0)
      && !BlockRow(marks, 2, 1, 1) && Full(marks, 2, 1, 1) && !AllMarkedPrinted(marks, 2, 1)
  {
    var marks := [false, true];
    assert !At(marks, 2, 1, 0, 0) && At(marks, 2, 1, 1, 0);
    assert !Full(marks, 2, 1, 0);
    assert !FullFrom(marks, 2, 1, 2) && !FullFrom(marks, 2, 1, 1);
  }
}

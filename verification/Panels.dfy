/** The console and its panels as objects (Common/Libs/Console/Console.cpp, Panel/Panel.cpp). Every edit of a panel is
    proved to write the cells it should and to mark them; the console's methods are proved to be steps of Screens. */
module Panels {
  import opened Common
  import opened Cells
  import opened Screens

  datatype Rect = Rect(top: nat, left: nat, height: nat, width: nat)

  predicate Inside(rect: Rect, r: nat, c: nat) {
    rect.top <= r < rect.top + rect.height && rect.left <= c < rect.left + rect.width
  }

  /** The rows that text takes. */
  function LinesFor(length: nat, width: nat): nat
    requires width > 0
  {
    length / width + 1
  }

  /** Text as cells. */
  function Inked(text: string, fgColor: Color, bgColor: Color): (r: seq<Cell>)
    ensures |r| == |text| && forall i :: 0 <= i < |text| ==> r[i] == Cell(text[i], fgColor, bgColor)
  {
    seq(|text|, i requires 0 <= i < |text| => Cell(text[i], fgColor, bgColor))
  }

  /** A cell after text was written over the last n rows. */
  function Appended(b: seq<Cell>, h: nat, w: nat, n: nat, text: string, fgColor: Color, bgColor: Color, r: nat,
                    c: nat): Cell
    requires IsGrid(b, h, w) && n <= h && r < h && c < w
  {
    if r + n >= h && LineOffset(w, h - n, r, c) < |text| then Cell(text[LineOffset(w, h - n, r, c)], fgColor, bgColor)
    else At(b, h, w, r, c)
  }

  /** A cell after the rows moved up by n and text came in at the bottom. */
  function AppendedLine(b: seq<Cell>, h: nat, w: nat, n: nat, text: string, fgColor: Color, bgColor: Color, r: nat,
                        c: nat): Cell
    requires IsGrid(b, h, w) && n <= h && r < h && c < w
  {
    if r + n < h then At(b, h, w, r + n, c)
    else
      var k := LineOffset(w, h - n, r, c);
      if k < |text| then Cell(text[k], fgColor, bgColor) else DEFAULT_CELL
  }

  lemma AppendedLinesAre(b0: seq<Cell>, b1: seq<Cell>, b2: seq<Cell>, h: nat, w: nat, n: nat, text: string,
                         fgColor: Color, bgColor: Color)
    requires IsGrid(b0, h, w) && IsGrid(b1, h, w) && IsGrid(b2, h, w) && n <= h
    requires forall r: nat, c: nat :: r < h && c < w ==>
      At(b1, h, w, r, c) == if r + n < h then At(b0, h, w, r + n, c) else DEFAULT_CELL
    requires forall r: nat, c: nat :: r < h && c < w ==>
      At(b2, h, w, r, c) == Appended(b1, h, w, n, text, fgColor, bgColor, r, c)
    ensures forall r: nat, c: nat :: r < h && c < w ==>
      At(b2, h, w, r, c) == AppendedLine(b0, h, w, n, text, fgColor, bgColor, r, c)
  {
    hide At, LineOffset, IsGrid;
  }

  /** The rows that text takes are enough to leave at least one cell free after it, and one row fewer is not. */
  lemma LinesForIsLeast(length: nat, width: nat)
    requires width > 0
    ensures LinesFor(length, width) >= 1
    ensures (LinesFor(length, width) - 1) * width <= length < LinesFor(length, width) * width
  {
  }

  /** Appended text is cut only where it is longer than the panel: the character at position k of the text stands in
      column k % w, k / w rows below where the text starts, and what follows the text is blank. */
  lemma AppendKeepsText(b: seq<Cell>, h: nat, w: nat, text: string, fgColor: Color, bgColor: Color, k: nat)
    requires IsGrid(b, h, w) && w > 0 && k < h * w
    ensures var n := Min(h, LinesFor(|text|, w)); var r := h - n + k / w;
      if k < |text| then
        r < h && AppendedLine(b, h, w, n, text, fgColor, bgColor, r, k % w) == Cell(text[k], fgColor, bgColor)
      else
        r < h ==> AppendedLine(b, h, w, n, text, fgColor, bgColor, r, k % w) == DEFAULT_CELL
  {
    var n := Min(h, LinesFor(|text|, w));
    LinesForIsLeast(|text|, w);
    DivBelow(k, w, h);
    if k < |text| {
      DivBelow(k, w, LinesFor(|text|, w));
    }
  }

  lemma DivBelow(k: nat, w: nat, n: nat)
    requires w > 0 && k < n * w
    ensures 0 <= k / w < n && (k / w) * w + k % w == k && k % w < w
  {
  }

  /** Whatever an edit writes, marking every cell is enough. */
  lemma AllMarkedIsEdit(p: Pane, q: Pane)
    requires GoodPane(p) && GoodPane(q) && q.dirty == Repeat(true, |q.dirty|)
    requires (p.top, p.left, p.height, p.width) == (q.top, q.left, q.height, q.width)
    ensures EditOK(p, q)
  {
  }

  lemma AppendedAt(b: seq<Cell>, h: nat, w: nat, n: nat, text: string, fgColor: Color, bgColor: Color, r: nat, c: nat)
    requires IsGrid(b, h, w) && n <= h && r < h && c < w
    ensures (h - n) * w + Min(|text|, n * w) <= |b|
    ensures At(Overlaid(b, (h - n) * w, Inked(text[..Min(|text|, n * w)], fgColor, bgColor)), h, w, r, c)
      == Appended(b, h, w, n, text, fgColor, bgColor, r, c)
  {
    hide LineOffset, At, Overlaid;
    LinesFit(h, w, h - n, n);
    OverlayLinesAt(b, h, w, h - n, Inked(text[..Min(|text|, n * w)], fgColor, bgColor), r, c);
    if r >= h - n {
      LineOrder(w, h - n, r, c, n);
    }
  }

  /** Writing both ends of a marked stretch is an edit. */
  lemma EndsAreEdit(b: seq<Cell>, d: seq<bool>, start: nat, n: nat, cell: Cell)
    requires |d| == |b| && 0 < n && start + n <= |b|
    ensures CellsEdited(b, d, b[start := cell][start + n - 1 := cell], Overlaid(d, start, Repeat(true, n)))
  {
  }

  lemma SetAt(b: seq<Cell>, h: nat, w: nat, r0: nat, c0: nat, cell: Cell, r: nat, c: nat)
    requires IsGrid(b, h, w) && r0 < h && c0 < w && r < h && c < w
    ensures r0 * w + c0 < h * w
    ensures At(b[r0 * w + c0 := cell], h, w, r, c) == if r == r0 && c == c0 then cell else At(b, h, w, r, c)
  {
    IndexFits(h, w, r0, c0);
    assert b[r0 * w + c0 := cell] == Overlaid(b, r0 * w + c0, [cell]);
    OverlayAt(b, h, w, r0, c0, [cell], r, c);
    hide At, Overlaid;
  }

  lemma EndsAt(b: seq<Cell>, d: seq<bool>, h: nat, w: nat, row: nat, column: nat, start: nat, n: nat, cell: Cell,
               r: nat, c: nat)
    requires IsGrid(b, h, w) && IsGrid(d, h, w) && row < h && 0 < n && column + n <= w && r < h && c < w
    requires start == row * w + column && start + n <= |b| && |d| == |b|
    ensures At(b[start := cell][start + n - 1 := cell], h, w, r, c)
      == (if r == row && (c == column || c == column + n - 1) then cell else At(b, h, w, r, c))
    ensures At(Overlaid(d, start, Repeat(true, n)), h, w, r, c)
      == ((r == row && column <= c < column + n) || At(d, h, w, r, c))
  {
    hide At, Overlaid;
    SetAt(b, h, w, row, column, cell, r, c);
    SetAt(b[start := cell], h, w, row, column + n - 1, cell, r, c);
    OverlayAt(d, h, w, row, column, Repeat(true, n), r, c);
  }

  /** Writing cells together with their marks is an edit. */
  lemma OverlayIsEdit(b: seq<Cell>, d: seq<bool>, b1: seq<Cell>, d1: seq<bool>, start: nat, t: seq<Cell>)
    requires CellsEdited(b, d, b1, d1) && start + |t| <= |b1|
    ensures CellsEdited(b, d, Overlaid(b1, start, t), Overlaid(d1, start, Repeat(true, |t|)))
  {
  }

  class Panel {
    const mTop: nat
    const mLeft: nat
    const mHeight: nat
    const mWidth: nat
    var mClosed: bool
    var mParentConsole: Console?
    var mBuffer: seq<Cell>
    var mDirtyCells: seq<bool>

    predicate Valid()
      reads this
    {
      IsGrid(mBuffer, mHeight, mWidth) && IsGrid(mDirtyCells, mHeight, mWidth)
    }

    function View(): (p: Pane)
      reads this
    {
      Pane(mTop, mLeft, mHeight, mWidth, mBuffer, mDirtyCells)
    }

    function GetInfo(): Rect {
      Rect(mTop, mLeft, mHeight, mWidth)
    }

    function CellAt(r: nat, c: nat): Cell
      requires Valid() && r < mHeight && c < mWidth
      reads this
    {
      At(mBuffer, mHeight, mWidth, r, c)
    }

    function DirtyAt(r: nat, c: nat): bool
      requires Valid() && r < mHeight && c < mWidth
      reads this
    {
      At(mDirtyCells, mHeight, mWidth, r, c)
    }

    constructor (top: nat, left: nat, height: nat, width: nat, parent: Console)
      ensures View() ==
        Pane(top, left, height, width, Repeat(DEFAULT_CELL, height * width), Repeat(true, height * width))
      ensures Valid() && !mClosed && mParentConsole == parent
    {
      mTop, mLeft, mHeight, mWidth := top, left, height, width;
      mClosed, mParentConsole := false, parent;
      mBuffer, mDirtyCells := Repeat(DEFAULT_CELL, height * width), Repeat(true, height * width);
    }

    method Clear()
      requires Valid()
      modifies this`mBuffer, this`mDirtyCells
      ensures Valid() && EditOK(old(View()), View())
      ensures mBuffer == Repeat(DEFAULT_CELL, |mBuffer|) && mDirtyCells == Repeat(true, |mDirtyCells|)
    {
      mBuffer, mDirtyCells := Repeat(DEFAULT_CELL, |mBuffer|), Repeat(true, |mDirtyCells|);
    }

    /** Outside the panel, SetCell does nothing. */
    method SetCell(row: nat, column: nat, cell: Cell)
      requires Valid()
      modifies this`mBuffer, this`mDirtyCells
      ensures Valid() && EditOK(old(View()), View())
      ensures forall r: nat, c: nat :: r < mHeight && c < mWidth ==>
        && CellAt(r, c) == (if (r, c) == (row, column) then cell else old(CellAt(r, c)))
        && DirtyAt(r, c) == ((r, c) == (row, column) || old(DirtyAt(r, c)))
    {
      if row >= mHeight || column >= mWidth {
        return;
      }
      IndexFits(mHeight, mWidth, row, column);
      ghost var b, d := mBuffer, mDirtyCells;
      mBuffer := mBuffer[row * mWidth + column := cell];
      mDirtyCells := mDirtyCells[row * mWidth + column := true];
      assert mBuffer == Overlaid(b, row * mWidth + column, [cell]);
      assert mDirtyCells == Overlaid(d, row * mWidth + column, [true]);
      forall r: nat, c: nat | r < mHeight && c < mWidth
        ensures CellAt(r, c) == (if (r, c) == (row, column) then cell else At(b, mHeight, mWidth, r, c))
        ensures DirtyAt(r, c) == ((r, c) == (row, column) || At(d, mHeight, mWidth, r, c))
      {
        OverlayAt(b, mHeight, mWidth, row, column, [cell], r, c);
        OverlayAt(d, mHeight, mWidth, row, column, [true], r, c);
      }
    }

    /** The part of a row from `column` on becomes the given cells, with marks. */
    method WriteRow(row: nat, column: nat, cells: seq<Cell>)
      requires Valid() && row < mHeight && column + |cells| <= mWidth
      modifies this`mBuffer, this`mDirtyCells
      ensures Valid() && EditOK(old(View()), View())
      ensures forall r: nat, c: nat :: r < mHeight && c < mWidth ==>
        && CellAt(r, c) == (if r == row && column <= c < column + |cells| then cells[c - column] else old(CellAt(r, c)))
        && DirtyAt(r, c) == ((r == row && column <= c < column + |cells|) || old(DirtyAt(r, c)))
    {
      RowFits(mHeight, mWidth, row, column, |cells|);
      ghost var b, d := mBuffer, mDirtyCells;
      var start := row * mWidth + column;
      OverlayIsEdit(b, d, b, d, start, cells);
      mBuffer := Overlaid(mBuffer, start, cells);
      mDirtyCells := Overlaid(mDirtyCells, start, Repeat(true, |cells|));
      forall r: nat, c: nat | r < mHeight && c < mWidth
        ensures CellAt(r, c) ==
          (if r == row && column <= c < column + |cells| then cells[c - column] else At(b, mHeight, mWidth, r, c))
        ensures DirtyAt(r, c) == ((r == row && column <= c < column + |cells|) || At(d, mHeight, mWidth, r, c))
      {
        OverlayAt(b, mHeight, mWidth, row, column, cells, r, c);
        OverlayAt(d, mHeight, mWidth, row, column, Repeat(true, |cells|), r, c);
      }
    }

    /** Prints on one row and cuts what does not fit. */
    method PrintAt(row: nat, column: nat, text: string, fgColor: Color, bgColor: Color)
      requires Valid()
      modifies this`mBuffer, this`mDirtyCells
      ensures Valid() && EditOK(old(View()), View())
      ensures forall r: nat, c: nat :: r < mHeight && c < mWidth ==>
        && CellAt(r, c) == (if r == row && column <= c < column + |text| then Cell(text[c - column], fgColor, bgColor)
                            else old(CellAt(r, c)))
        && DirtyAt(r, c) == ((r == row && column <= c < column + |text|) || old(DirtyAt(r, c)))
    {
      if row >= mHeight || column >= mWidth {
        return;
      }
      var printSize := Min(|text|, mWidth - column);
      WriteRow(row, column, Inked(text[..printSize], fgColor, bgColor));
    }

    /** Rows from `row` on become the given cells, line after line, with marks. */
    method WriteLines(row: nat, cells: seq<Cell>)
      requires Valid() && row * mWidth + |cells| <= mHeight * mWidth
      modifies this`mBuffer, this`mDirtyCells
      ensures Valid() && EditOK(old(View()), View())
      ensures forall r: nat, c: nat :: r < mHeight && c < mWidth ==>
        && CellAt(r, c) == (if r >= row && LineOffset(mWidth, row, r, c) < |cells|
                            then cells[LineOffset(mWidth, row, r, c)]
                            else old(CellAt(r, c)))
        && DirtyAt(r, c) == ((r >= row && LineOffset(mWidth, row, r, c) < |cells|) || old(DirtyAt(r, c)))
    {
      ghost var b, d := mBuffer, mDirtyCells;
      var start := row * mWidth;
      OverlayIsEdit(b, d, b, d, start, cells);
      mBuffer := Overlaid(mBuffer, start, cells);
      mDirtyCells := Overlaid(mDirtyCells, start, Repeat(true, |cells|));
      forall r: nat, c: nat | r < mHeight && c < mWidth
        ensures CellAt(r, c) == (if r >= row && LineOffset(mWidth, row, r, c) < |cells|
                                 then cells[LineOffset(mWidth, row, r, c)]
                                 else At(b, mHeight, mWidth, r, c))
        ensures DirtyAt(r, c) == ((r >= row && LineOffset(mWidth, row, r, c) < |cells|) || At(d, mHeight, mWidth, r, c))
      {
        OverlayLinesAt(b, mHeight, mWidth, row, cells, r, c);
        OverlayLinesAt(d, mHeight, mWidth, row, Repeat(true, |cells|), r, c);
      }
    }

    /** Prints from a row on, over as many rows as the text takes, and cuts it at the panel's end. */
    method PrintLines(row: nat, text: string, fgColor: Color, bgColor: Color)
      requires Valid()
      modifies this`mBuffer, this`mDirtyCells
      ensures Valid() && EditOK(old(View()), View())
      ensures forall r: nat, c: nat :: r < mHeight && c < mWidth ==>
        && CellAt(r, c) == (if r >= row && LineOffset(mWidth, row, r, c) < |text|
                            then Cell(text[LineOffset(mWidth, row, r, c)], fgColor, bgColor) else old(CellAt(r, c)))
        && DirtyAt(r, c) == ((r >= row && LineOffset(mWidth, row, r, c) < |text|) || old(DirtyAt(r, c)))
    {
      if row >= mHeight {
        return;
      }
      hide LineOffset, At;
      LinesFit(mHeight, mWidth, row, 0);
      ghost var room := mHeight * mWidth - row * mWidth;
      var printSize := Min(|mBuffer| - row * mWidth, |text|);
      WriteLines(row, Inked(text[..printSize], fgColor, bgColor));
      forall r: nat, c: nat | r < mHeight && c < mWidth && r >= row ensures LineOffset(mWidth, row, r, c) < room {
        LineIndex(mHeight, mWidth, row, r, c);
      }
    }

    method ClearLines(startRow: nat, numLines: nat)
      requires Valid()
      modifies this`mBuffer, this`mDirtyCells
      ensures Valid() && EditOK(old(View()), View())
      ensures forall r: nat, c: nat :: r < mHeight && c < mWidth ==>
        && CellAt(r, c) == (if startRow <= r < startRow + numLines then DEFAULT_CELL else old(CellAt(r, c)))
        && DirtyAt(r, c) == (startRow <= r < startRow + numLines || old(DirtyAt(r, c)))
    {
      if startRow >= mHeight {
        return;
      }
      hide LineOffset, At;
      var printNumLines := Min(numLines, mHeight - startRow);
      var printSize := printNumLines * mWidth;
      LinesFit(mHeight, mWidth, startRow, printNumLines);
      WriteLines(startRow, Repeat(DEFAULT_CELL, printSize));
      forall r: nat, c: nat | r < mHeight && c < mWidth && r >= startRow
        ensures LineOffset(mWidth, startRow, r, c) < printSize <==> r < startRow + numLines
      {
        LineOrder(mWidth, startRow, r, c, printNumLines);
      }
    }

    method SetBackground(bgColor: Color)
      requires Valid()
      modifies this`mBuffer, this`mDirtyCells
      ensures Valid() && EditOK(old(View()), View())
      ensures forall i :: 0 <= i < |mBuffer| ==> mBuffer[i] == old(mBuffer[i]).(bgColor := bgColor)
      ensures mDirtyCells == Repeat(true, |mDirtyCells|)
    {
      ghost var b := mBuffer;
      var i := 0;
      while i < |mBuffer|
        invariant 0 <= i <= |mBuffer| == |b| && mDirtyCells == old(mDirtyCells)
        invariant forall j :: 0 <= j < i ==> mBuffer[j] == b[j].(bgColor := bgColor)
        invariant forall j :: i <= j < |b| ==> mBuffer[j] == b[j]
      {
        mBuffer := mBuffer[i := mBuffer[i].(bgColor := bgColor)];
        i := i + 1;
      }
      mDirtyCells := Repeat(true, |mDirtyCells|);
    }

    /** The rows move up; blank rows come in at the bottom. */
    method Scroll(numLines: nat)
      requires Valid()
      modifies this`mBuffer, this`mDirtyCells
      ensures Valid() && EditOK(old(View()), View())
      ensures forall r: nat, c: nat :: r < mHeight && c < mWidth ==>
        At(mBuffer, mHeight, mWidth, r, c) ==
          if r + numLines < mHeight then At(old(mBuffer), mHeight, mWidth, r + numLines, c) else DEFAULT_CELL
      ensures mDirtyCells == Repeat(true, |mDirtyCells|)
    {
      if numLines >= mHeight {
        Clear();
        RepeatAllAre(DEFAULT_CELL, mHeight, mWidth);
        return;
      }
      hide At, Scrolled;
      ghost var b := mBuffer;
      mBuffer := Scrolled(mBuffer, mHeight, mWidth, numLines, DEFAULT_CELL);
      mDirtyCells := Repeat(true, |mDirtyCells|);
      forall r: nat, c: nat | r < mHeight && c < mWidth
        ensures At(mBuffer, mHeight, mWidth, r, c) ==
          if r + numLines < mHeight then At(b, mHeight, mWidth, r + numLines, c) else DEFAULT_CELL
      {
        ScrolledAt(b, mHeight, mWidth, numLines, DEFAULT_CELL, r, c);
      }
    }

    /** The rows move up to make room for the text, which is printed at the bottom. The width must not be zero: the
        number of rows is a division by it. */
    method AppendLines(text: string, fgColor: Color, bgColor: Color)
      requires Valid() && mWidth > 0
      modifies this`mBuffer, this`mDirtyCells
      ensures Valid() && EditOK(old(View()), View())
      ensures var n := Min(mHeight, LinesFor(|text|, mWidth));
        forall r: nat, c: nat :: r < mHeight && c < mWidth ==>
          CellAt(r, c) ==
            AppendedLine(old(mBuffer), mHeight, mWidth, n, text, fgColor, bgColor, r, c)
      ensures mDirtyCells == Repeat(true, |mDirtyCells|)
    {
      hide At, LinesFor, Appended, AppendedLine, CellsEdited, IsGrid, Repeat;
      var numLines := Min(mHeight, LinesFor(|text|, mWidth));
      ghost var b0 := mBuffer;
      Scroll(numLines);
      ghost var b1 := mBuffer;
      InkBottom(numLines, text, fgColor, bgColor);
      AllMarkedIsEdit(old(View()), View());
      AppendedLinesAre(b0, b1, mBuffer, mHeight, mWidth, numLines, text, fgColor, bgColor);
    }

    /** The end of AppendLines: the text over the last rows. */
    method InkBottom(numLines: nat, text: string, fgColor: Color, bgColor: Color)
      requires Valid() && numLines <= mHeight
      modifies this`mBuffer
      ensures Valid()
      ensures forall r: nat, c: nat :: r < mHeight && c < mWidth ==>
        At(mBuffer, mHeight, mWidth, r, c)
          == Appended(old(mBuffer), mHeight, mWidth, numLines, text, fgColor, bgColor, r, c)
    {
      hide Appended, At, Overlaid, Inked;
      ghost var b := mBuffer;
      LinesFit(mHeight, mWidth, mHeight - numLines, numLines);
      var printSize := Min(|text|, numLines * mWidth);
      var startPosition := (mHeight - numLines) * mWidth;
      mBuffer := Overlaid(mBuffer, startPosition, Inked(text[..printSize], fgColor, bgColor));
      forall r: nat, c: nat | r < mHeight && c < mWidth
        ensures At(mBuffer, mHeight, mWidth, r, c)
          == Appended(b, mHeight, mWidth, numLines, text, fgColor, bgColor, r, c)
      {
        AppendedAt(b, mHeight, mWidth, numLines, text, fgColor, bgColor, r, c);
      }
    }

    method FillRectangle(rect: Rect, cell: Cell)
      requires Valid() && rect.top <= mHeight && rect.left <= mWidth
      modifies this`mBuffer, this`mDirtyCells
      ensures Valid() && EditOK(old(View()), View())
      ensures forall r: nat, c: nat :: r < mHeight && c < mWidth ==>
        && CellAt(r, c) == (if Inside(rect, r, c) then cell else old(CellAt(r, c)))
        && DirtyAt(r, c) == (Inside(rect, r, c) || old(DirtyAt(r, c)))
    {
      var numFillRows := Min(rect.height, mHeight - rect.top);
      var numFillColumns := Min(rect.width, mWidth - rect.left);
      var row := 0;
      while row < numFillRows
        invariant 0 <= row <= numFillRows && Valid() && EditOK(old(View()), View())
        invariant forall r: nat, c: nat :: r < mHeight && c < mWidth ==>
          && CellAt(r, c) == (if Inside(rect, r, c) && r < rect.top + row then cell else old(CellAt(r, c)))
          && DirtyAt(r, c) == ((Inside(rect, r, c) && r < rect.top + row) || old(DirtyAt(r, c)))
      {
        WriteRow(rect.top + row, rect.left, Repeat(cell, numFillColumns));
        row := row + 1;
      }
    }

    /** Both ends of a row of a rectangle become the cell, and the whole row is marked. */
    method WriteEnds(row: nat, column: nat, n: nat, cell: Cell)
      requires Valid() && row < mHeight && 0 < n && column + n <= mWidth
      modifies this`mBuffer, this`mDirtyCells
      ensures Valid() && EditOK(old(View()), View())
      ensures forall r: nat, c: nat :: r < mHeight && c < mWidth ==>
        && CellAt(r, c) == (if r == row && (c == column || c == column + n - 1) then cell else old(CellAt(r, c)))
        && DirtyAt(r, c) == ((r == row && column <= c < column + n) || old(DirtyAt(r, c)))
    {
      hide At, Overlaid, CellsEdited;
      RowFits(mHeight, mWidth, row, column, n);
      var start := row * mWidth + column;
      ghost var b, d := mBuffer, mDirtyCells;
      EndsAreEdit(b, d, start, n, cell);
      mBuffer := mBuffer[start := cell];
      mBuffer := mBuffer[start + n - 1 := cell];
      mDirtyCells := Overlaid(mDirtyCells, start, Repeat(true, n));
      forall r: nat, c: nat | r < mHeight && c < mWidth
        ensures CellAt(r, c) ==
          (if r == row && (c == column || c == column + n - 1) then cell else At(b, mHeight, mWidth, r, c))
        ensures DirtyAt(r, c) == ((r == row && column <= c < column + n) || At(d, mHeight, mWidth, r, c))
      {
        EndsAt(b, d, mHeight, mWidth, row, column, start, n, cell, r, c);
      }
    }

    /** The outline of the part of the rectangle inside the panel; the inside keeps its cells but is marked. */
    method DrawRectangle(rect: Rect, cell: Cell)
      requires Valid() && rect.top <= mHeight && rect.left <= mWidth
      modifies this`mBuffer, this`mDirtyCells
      ensures Valid() && EditOK(old(View()), View())
      ensures forall r: nat, c: nat :: r < mHeight && c < mWidth ==>
        && CellAt(r, c) == (if Outline(Clipped(rect), r, c) then cell else old(CellAt(r, c)))
        && DirtyAt(r, c) == (Inside(rect, r, c) || old(DirtyAt(r, c)))
    {
      var numFillRows := Min(rect.height, mHeight - rect.top);
      var numFillColumns := Min(rect.width, mWidth - rect.left);
      if numFillRows == 0 || numFillColumns == 0 {
        return;
      }
      hide CellsEdited;
      ghost var first := View();
      WriteRow(rect.top, rect.left, Repeat(cell, numFillColumns));
      ghost var second := View();
      WriteRow(rect.top + numFillRows - 1, rect.left, Repeat(cell, numFillColumns));
      EditsCompose(first, second, View());
      if numFillRows <= 2 {
        return;
      }
      var row := rect.top + 1;
      while row < rect.top + numFillRows - 1
        invariant rect.top < row < rect.top + numFillRows && Valid() && EditOK(first, View())
        invariant forall r: nat, c: nat :: r < mHeight && c < mWidth ==>
          && CellAt(r, c) == (if Outline(Clipped(rect), r, c) && !(row <= r < rect.top + numFillRows - 1) then cell
                              else old(CellAt(r, c)))
          && DirtyAt(r, c) == ((Inside(rect, r, c) && !(row <= r < rect.top + numFillRows - 1)) || old(DirtyAt(r, c)))
      {
        ghost var before := View();
        WriteEnds(row, rect.left, numFillColumns, cell);
        EditsCompose(first, before, View());
        row := row + 1;
      }
    }

    /** The part of a rectangle that is inside the panel. */
    function Clipped(rect: Rect): Rect
      requires rect.top <= mHeight && rect.left <= mWidth
    {
      Rect(rect.top, rect.left, Min(rect.height, mHeight - rect.top), Min(rect.width, mWidth - rect.left))
    }

    /** Closing blanks the panel on the console, marks the cells it covered, and takes it off the stack; a panel whose
        console is gone (mParentConsole is a weak pointer) only notes that it is closed. */
    method ClosePanel(console: Console?, ghost index: nat)
      requires Valid() && console == mParentConsole
      requires !mClosed && console != null ==>
        && console.Valid() && index < |console.mPanels| && console.mPanels[index] == this
        && mTop <= console.mHeight && mLeft <= console.mWidth
      modifies this, if mClosed || console == null then {} else {console}
      ensures mClosed
      ensures old(mClosed) || console == null ==> View() == old(View()) && mParentConsole == console
      ensures !old(mClosed) && console != null ==>
        mParentConsole == null && console.Valid() && CloseStep(old(console.View()), console.View(), index)
    {
      if mClosed {
        return;
      }
      mClosed := true;
      if console != null {
        EraseFrom(console, index);
        mParentConsole := null;
      }
    }

    /** The panel's place on the console becomes blank and marked. */
    method BlankOn(console: Console)
      requires Valid() && mTop <= console.mHeight && mLeft <= console.mWidth
      requires IsGrid(console.mBuffer, console.mHeight, console.mWidth)
      requires AllAre(console.mBuffer, console.mHeight, console.mWidth, DEFAULT_CELL)
      requires IsGrid(console.mDirtyCells, console.mHeight, console.mWidth)
      modifies this`mBuffer, this`mDirtyCells, console`mBuffer, console`mDirtyCells
      ensures IsGrid(console.mBuffer, console.mHeight, console.mWidth)
      ensures AllAre(console.mBuffer, console.mHeight, console.mWidth, DEFAULT_CELL)
      ensures IsGrid(console.mDirtyCells, console.mHeight, console.mWidth)
      ensures MarkedUnder(old(console.mDirtyCells), console.mDirtyCells, console.mHeight, console.mWidth, old(View()))
    {
      hide CellsEdited, At, MarkedUnder, AllAre;
      ghost var was := View();
      ghost var b, d := console.mBuffer, console.mDirtyCells;
      Clear();
      RepeatAllAre(DEFAULT_CELL, mHeight, mWidth);
      RepeatAllAre(true, mHeight, mWidth);
      ghost var cells, flags := mBuffer, mDirtyCells;
      mDirtyCells := console.WriteRegion(GetInfo(), mBuffer, mDirtyCells);
      BlankUnder(b, d, console.mBuffer, console.mDirtyCells, console.mHeight, console.mWidth, was, cells, flags);
    }

    /** What ClosePanel does on the console. */
    method EraseFrom(console: Console, ghost index: nat)
      requires Valid() && mClosed && console.ValidBut(this)
      requires index < |console.mPanels| && console.mPanels[index] == this
      requires mTop <= console.mHeight && mLeft <= console.mWidth
      modifies this`mBuffer, this`mDirtyCells, console`mBuffer, console`mDirtyCells, console`mPanels
      ensures console.Valid() && CloseStep(old(console.View()), console.View(), index)
    {
      hide At, MarkedUnder, AllAre, IsGrid;
      BlankOn(console);
      console.RemovePanel(this, index);
    }
  }

  predicate Outline(rect: Rect, r: nat, c: nat) {
    && Inside(rect, r, c)
    && (r == rect.top || r == rect.top + rect.height - 1 || c == rect.left || c == rect.left + rect.width - 1)
  }

  lemma EditsCompose(p: Pane, q: Pane, r: Pane)
    requires EditOK(p, q) && EditOK(q, r)
    ensures EditOK(p, r)
  {
  }

  class Console {
    const mHeight: nat
    const mWidth: nat
    var mBuffer: seq<Cell>
    var mDirtyCells: seq<bool>
    var mPanels: seq<Panel>
    /** The picture at the last refresh. */
    ghost var shown: seq<Cell>

    /** Between refreshes the console's own buffer is blank, and its panels are open. */
    ghost predicate Valid()
      reads this, mPanels
    {
      ValidBut(null)
    }

    /** The same, while one panel is being closed. */
    ghost predicate ValidBut(closing: Panel?)
      reads this, mPanels
    {
      && IsGrid(mBuffer, mHeight, mWidth) && AllAre(mBuffer, mHeight, mWidth, DEFAULT_CELL)
      && IsGrid(mDirtyCells, mHeight, mWidth) && IsGrid(shown, mHeight, mWidth)
      && (forall i :: 0 <= i < |mPanels| ==>
            mPanels[i].Valid() && (mPanels[i] != closing ==> !mPanels[i].mClosed))
      && (forall i, j :: 0 <= i < j < |mPanels| ==> mPanels[i] != mPanels[j])
    }

    /** Every panel starts on the console; WriteRegion's lengths would wrap around otherwise. */
    predicate StartsInside()
      reads this, mPanels
    {
      forall i :: 0 <= i < |mPanels| ==> mPanels[i].mTop <= mHeight && mPanels[i].mLeft <= mWidth
    }

    ghost function Panes(): (ps: seq<Pane>)
      reads this, mPanels
      ensures |ps| == |mPanels| && forall i :: 0 <= i < |ps| ==> ps[i] == mPanels[i].View()
    {
      seq(|mPanels|, i requires 0 <= i < |mPanels| reads this, mPanels => mPanels[i].View())
    }

    ghost function View(): (s: Screen)
      reads this, mPanels
      ensures Valid() ==> GoodScreen(s)
    {
      Screen(mHeight, mWidth, Panes(), mDirtyCells, shown)
    }

    constructor (height: nat, width: nat)
      ensures Valid() && View() == Blank(height, width)
    {
      mHeight, mWidth := height, width;
      mBuffer, mDirtyCells := Repeat(DEFAULT_CELL, height * width), Repeat(false, height * width);
      mPanels, shown := [], Repeat(DEFAULT_CELL, height * width);
      RepeatAllAre(DEFAULT_CELL, height, width);
    }

    method AddPanel(top: nat, left: nat, height: nat, width: nat) returns (panel: Panel)
      requires Valid()
      modifies this`mPanels
      ensures Valid() && fresh(panel) && mPanels == old(mPanels) + [panel] && panel.mParentConsole == this
      ensures panel.View() ==
        Pane(top, left, height, width, Repeat(DEFAULT_CELL, height * width), Repeat(true, height * width))
      ensures AddStep(old(View()), View())
    {
      ghost var before := Panes();
      panel := new Panel(top, left, height, width, this);
      mPanels := mPanels + [panel];
      assert Panes() == before + [panel.View()];
    }

    /** std::find and erase. */
    method RemovePanel(panel: Panel, ghost index: nat)
      requires index < |mPanels| && mPanels[index] == panel
      requires forall i, j :: 0 <= i < j < |mPanels| ==> mPanels[i] != mPanels[j]
      modifies this`mPanels
      ensures mPanels == old(mPanels)[..index] + old(mPanels)[index + 1..]
    {
      var i := 0;
      while mPanels[i] != panel
        invariant 0 <= i <= index && mPanels == old(mPanels)
        decreases index - i
      {
        i := i + 1;
      }
      mPanels := mPanels[..i] + mPanels[i + 1..];
    }

    /** Copies a panel's cells, as far as they are on the console, and adds its marks; the caller's marks go. */
    method WriteRegion(rect: Rect, buffer: seq<Cell>, dirtyFlags: seq<bool>) returns (cleared: seq<bool>)
      requires IsGrid(mBuffer, mHeight, mWidth) && IsGrid(mDirtyCells, mHeight, mWidth)
      requires IsGrid(buffer, rect.height, rect.width) && IsGrid(dirtyFlags, rect.height, rect.width)
      requires rect.top <= mHeight && rect.left <= mWidth
      modifies this`mBuffer, this`mDirtyCells
      ensures IsGrid(mBuffer, mHeight, mWidth) && IsGrid(mDirtyCells, mHeight, mWidth)
      ensures forall y: nat, x: nat :: y < mHeight && x < mWidth ==>
        && At(mBuffer, mHeight, mWidth, y, x) ==
          (if Inside(rect, y, x) then At(buffer, rect.height, rect.width, y - rect.top, x - rect.left)
           else At(old(mBuffer), mHeight, mWidth, y, x))
        && At(mDirtyCells, mHeight, mWidth, y, x) ==
          ((Inside(rect, y, x) && At(dirtyFlags, rect.height, rect.width, y - rect.top, x - rect.left))
           || At(old(mDirtyCells), mHeight, mWidth, y, x))
      ensures cleared == Repeat(false, |dirtyFlags|)
    {
      var numCopyRows := Min(rect.height, mHeight - rect.top);
      var numCopyColumns := Min(rect.width, mWidth - rect.left);
      var row := 0;
      while row < numCopyRows
        invariant 0 <= row <= numCopyRows
        invariant IsGrid(mBuffer, mHeight, mWidth) && IsGrid(mDirtyCells, mHeight, mWidth)
        invariant forall y: nat, x: nat :: y < mHeight && x < mWidth ==>
          && At(mBuffer, mHeight, mWidth, y, x) ==
            (if Inside(rect, y, x) && y < rect.top + row
             then At(buffer, rect.height, rect.width, y - rect.top, x - rect.left)
             else At(old(mBuffer), mHeight, mWidth, y, x))
          && At(mDirtyCells, mHeight, mWidth, y, x) ==
            ((Inside(rect, y, x) && y < rect.top + row
              && At(dirtyFlags, rect.height, rect.width, y - rect.top, x - rect.left))
             || At(old(mDirtyCells), mHeight, mWidth, y, x))
      {
        var cells := RowOf(buffer, rect.height, rect.width, row, numCopyColumns);
        var marks := RowOf(dirtyFlags, rect.height, rect.width, row, numCopyColumns);
        CopyRow(rect.top + row, rect.left, cells, marks);
        row := row + 1;
      }
      cleared := Repeat(false, |dirtyFlags|);
    }

    /** One row of WriteRegion. */
    method CopyRow(y0: nat, x0: nat, cells: seq<Cell>, marks: seq<bool>)
      requires IsGrid(mBuffer, mHeight, mWidth) && IsGrid(mDirtyCells, mHeight, mWidth)
      requires y0 < mHeight && x0 + |cells| <= mWidth && |marks| == |cells|
      modifies this`mBuffer, this`mDirtyCells
      ensures IsGrid(mBuffer, mHeight, mWidth) && IsGrid(mDirtyCells, mHeight, mWidth)
      ensures forall y: nat, x: nat :: y < mHeight && x < mWidth ==>
        && At(mBuffer, mHeight, mWidth, y, x) ==
          (if y == y0 && x0 <= x < x0 + |cells| then cells[x - x0] else At(old(mBuffer), mHeight, mWidth, y, x))
        && At(mDirtyCells, mHeight, mWidth, y, x) ==
          ((y == y0 && x0 <= x < x0 + |cells| && marks[x - x0]) || At(old(mDirtyCells), mHeight, mWidth, y, x))
    {
      hide At, Overlaid, Merged;
      ghost var b, d := mBuffer, mDirtyCells;
      RowFits(mHeight, mWidth, y0, x0, |cells|);
      var start := y0 * mWidth + x0;
      mBuffer := Overlaid(mBuffer, start, cells);
      mDirtyCells := Overlaid(mDirtyCells, start, Merged(mDirtyCells, start, marks));
      forall y: nat, x: nat | y < mHeight && x < mWidth
        ensures At(mBuffer, mHeight, mWidth, y, x) ==
          (if y == y0 && x0 <= x < x0 + |cells| then cells[x - x0] else At(b, mHeight, mWidth, y, x))
        ensures At(mDirtyCells, mHeight, mWidth, y, x) ==
          ((y == y0 && x0 <= x < x0 + |cells| && marks[x - x0]) || At(d, mHeight, mWidth, y, x))
      {
        OverlayAt(b, mHeight, mWidth, y0, x0, cells, y, x);
        MergedAt(d, mHeight, mWidth, y0, x0, marks, y, x);
      }
    }

    /** One panel is written over the ones below it. */
    method WritePanel(panel: Panel, ghost was: Screen, ghost i: nat)
      requires GoodScreen(was) && was.height == mHeight && was.width == mWidth
      requires i < |was.panes| && panel.Valid() && panel.View() == was.panes[i]
      requires panel.mTop <= mHeight && panel.mLeft <= mWidth
      requires IsGrid(mBuffer, mHeight, mWidth) && IsGrid(mDirtyCells, mHeight, mWidth)
      requires Pictured(mBuffer, mDirtyCells, was, i)
      modifies this`mBuffer, this`mDirtyCells, panel`mDirtyCells
      ensures IsGrid(mBuffer, mHeight, mWidth) && IsGrid(mDirtyCells, mHeight, mWidth)
      ensures Pictured(mBuffer, mDirtyCells, was, i + 1) && panel.Valid()
      ensures panel.mDirtyCells == Repeat(false, |was.panes[i].dirty|)
    {
      hide Composed, Marked, At;
      ghost var b, d := mBuffer, mDirtyCells;
      panel.mDirtyCells := WriteRegion(panel.GetInfo(), panel.mBuffer, panel.mDirtyCells);
      PanelIsPictured(b, d, mBuffer, mDirtyCells, was, i);
    }

    /** The loop of Refresh: every panel is written over the ones below it. */
    method WritePanels(ghost was: Screen)
      requires Valid() && StartsInside() && was == View()
      modifies this`mBuffer, this`mDirtyCells, mPanels
      ensures IsGrid(mBuffer, mHeight, mWidth) && IsGrid(mDirtyCells, mHeight, mWidth)
      ensures forall j :: 0 <= j < |mPanels| ==>
        && mPanels[j].Valid() && !mPanels[j].mClosed
        && mPanels[j].View() == was.panes[j].(dirty := Repeat(false, |was.panes[j].dirty|))
      ensures forall y: nat, x: nat :: y < mHeight && x < mWidth ==>
        && At(mBuffer, mHeight, mWidth, y, x) == Composed(was.panes, y, x)
        && At(mDirtyCells, mHeight, mWidth, y, x) == Printed(was, y, x)
    {
      NothingPictured(mBuffer, mDirtyCells, was);
      hide Composed, Marked, At, IsGrid;
      var i := 0;
      while i < |mPanels|
        invariant 0 <= i <= |mPanels|
        invariant IsGrid(mBuffer, mHeight, mWidth) && IsGrid(mDirtyCells, mHeight, mWidth)
        invariant forall j :: 0 <= j < |mPanels| ==> mPanels[j].Valid() && !mPanels[j].mClosed
        invariant forall j :: i <= j < |mPanels| ==> mPanels[j].View() == was.panes[j]
        invariant forall j :: 0 <= j < i ==>
          mPanels[j].View() == was.panes[j].(dirty := Repeat(false, |was.panes[j].dirty|))
        invariant Pictured(mBuffer, mDirtyCells, was, i)
      {
        WritePanel(mPanels[i], was, i);
        i := i + 1;
      }
      assert was.panes[..i] == was.panes;
    }

    /** Composes the picture, hands it with its marks to the printer, and clears both. */
    method Refresh() returns (picture: seq<Cell>, marks: seq<bool>)
      requires Valid() && StartsInside()
      modifies this, mPanels
      ensures Valid() && RefreshStep(old(View()), View())
      ensures IsGrid(picture, mHeight, mWidth) && IsGrid(marks, mHeight, mWidth)
      ensures forall y: nat, x: nat :: y < mHeight && x < mWidth ==>
        && At(picture, mHeight, mWidth, y, x) == Composed(old(View()).panes, y, x)
        && At(marks, mHeight, mWidth, y, x) == Printed(old(View()), y, x)
    {
      ghost var was := View();
      WritePanels(was);
      picture, marks := mBuffer, mDirtyCells;
      shown := mBuffer;
      mBuffer := Repeat(DEFAULT_CELL, |mBuffer|);
      mDirtyCells := Repeat(false, |mDirtyCells|);
      RepeatAllAre(DEFAULT_CELL, mHeight, mWidth);
      hide At, Composed, Marked;
    }
  }

  /** A blank and fully marked panel, written on a blank console, leaves it blank and marks what it covers. */
  lemma BlankUnder(b: seq<Cell>, d: seq<bool>, b': seq<Cell>, d': seq<bool>, h: nat, w: nat, p: Pane, cells: seq<Cell>,
                   flags: seq<bool>)
    requires IsGrid(b, h, w) && IsGrid(d, h, w) && IsGrid(b', h, w) && IsGrid(d', h, w)
    requires IsGrid(cells, p.height, p.width) && IsGrid(flags, p.height, p.width)
    requires AllAre(b, h, w, DEFAULT_CELL) && AllAre(cells, p.height, p.width, DEFAULT_CELL)
    requires AllAre(flags, p.height, p.width, true)
    requires forall y: nat, x: nat :: y < h && x < w ==>
      && At(b', h, w, y, x) == (if Covers(p, y, x) then At(cells, p.height, p.width, y - p.top, x - p.left)
                                else At(b, h, w, y, x))
      && At(d', h, w, y, x) == ((Covers(p, y, x) && At(flags, p.height, p.width, y - p.top, x - p.left))
                                || At(d, h, w, y, x))
    ensures AllAre(b', h, w, DEFAULT_CELL) && MarkedUnder(d, d', h, w, p)
  {
    hide At, IsGrid;
  }

  /** An edit of one open panel, with nothing else changed, is a step of the screen. */
  twostate lemma PanelEditIsStep(console: Console, index: nat)
    requires old(console.Valid()) && console.Valid() && index < |console.mPanels|
    requires unchanged(console) && old(allocated(console.mPanels))
    requires forall i :: 0 <= i < |console.mPanels| && i != index ==> unchanged(console.mPanels[i])
    requires EditOK(old(console.mPanels[index].View()), console.mPanels[index].View())
    ensures EditStep(old(console.View()), console.View(), index)
  {
    var before, after := old(console.View()), console.View();
    assert after.panes == before.panes[index := after.panes[index]];
  }

  /** The buffers hold the picture and the marks of the lowest n panels. */
  ghost predicate Pictured(b: seq<Cell>, d: seq<bool>, s: Screen, n: nat)
    requires GoodScreen(s) && n <= |s.panes| && IsGrid(b, s.height, s.width) && IsGrid(d, s.height, s.width)
  {
    forall y: nat, x: nat :: y < s.height && x < s.width ==>
      && At(b, s.height, s.width, y, x) == Composed(s.panes[..n], y, x)
      && At(d, s.height, s.width, y, x) == (At(s.dirty, s.height, s.width, y, x) || Marked(s.panes[..n], y, x))
  }

  lemma NothingPictured(b: seq<Cell>, d: seq<bool>, s: Screen)
    requires GoodScreen(s) && IsGrid(b, s.height, s.width) && AllAre(b, s.height, s.width, DEFAULT_CELL) && d == s.dirty
    ensures Pictured(b, d, s, 0)
  {
  }

  lemma PanelIsPictured(b: seq<Cell>, d: seq<bool>, b': seq<Cell>, d': seq<bool>, s: Screen, n: nat)
    requires GoodScreen(s) && n < |s.panes| && IsGrid(b, s.height, s.width) && IsGrid(d, s.height, s.width)
    requires IsGrid(b', s.height, s.width) && IsGrid(d', s.height, s.width) && Pictured(b, d, s, n)
    requires var p := s.panes[n];
      forall y: nat, x: nat :: y < s.height && x < s.width ==>
        && At(b', s.height, s.width, y, x) ==
          (if Covers(p, y, x) then CellOf(p, y, x) else At(b, s.height, s.width, y, x))
        && At(d', s.height, s.width, y, x) == (MarkOf(p, y, x) || At(d, s.height, s.width, y, x))
    ensures Pictured(b', d', s, n + 1)
  {
    hide Composed, Marked, At;
    var p := s.panes[n];
    assert s.panes[..n + 1] == s.panes[..n] + [p];
    forall y: nat, x: nat | y < s.height && x < s.width
      ensures Composed(s.panes[..n + 1], y, x) ==
        if Covers(p, y, x) then CellOf(p, y, x) else Composed(s.panes[..n], y, x)
      ensures Marked(s.panes[..n + 1], y, x) == (Marked(s.panes[..n], y, x) || MarkOf(p, y, x))
    {
      ComposedAdd(s.panes[..n], p, y, x);
      MarkedAdd(s.panes[..n], p, y, x);
    }
  }

  lemma MarkedAdd(ps: seq<Pane>, p: Pane, y: nat, x: nat)
    requires GoodPanes(ps) && GoodPane(p)
    ensures GoodPanes(ps + [p])
    ensures Marked(ps + [p], y, x) == (Marked(ps, y, x) || MarkOf(p, y, x))
  {
    var qs := ps + [p];
    if Marked(ps, y, x) {
      var i :| 0 <= i < |ps| && MarkOf(ps[i], y, x);
      assert MarkOf(qs[i], y, x);
    }
    if MarkOf(p, y, x) {
      assert MarkOf(qs[|ps|], y, x);
    }
  }

  /** The first n cells of a row. */
  function RowOf<T>(b: seq<T>, h: nat, w: nat, row: nat, n: nat): (r: seq<T>)
    requires IsGrid(b, h, w) && row < h && n <= w
    ensures |r| == n && forall c :: 0 <= c < n ==> r[c] == At(b, h, w, row, c)
  {
    RowFits(h, w, row, 0, n);
    b[row * w..row * w + n]
  }
}

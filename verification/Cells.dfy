/** Row-major cell buffers, as the panels and the console keep them (Common/Libs/Console/ConsoleTypes.h). */
module Cells {
  import opened Common

  datatype Color = Black | Red | Green | Yellow | Blue | Magenta | Cyan | White | DefaultColor

  datatype Cell = Cell(character: char, fgColor: Color, bgColor: Color)

  const DEFAULT_CELL := Cell(' ', DefaultColor, Black)

  predicate IsGrid<T>(b: seq<T>, h: nat, w: nat) {
    |b| == h * w
  }

  lemma IndexFits(h: nat, w: nat, r: nat, c: nat)
    requires r < h && c < w
    ensures r * w + c < h * w
  {
    assert (r + 1) * w <= h * w;
  }

  /** The element at a row and a column. */
  function At<T>(b: seq<T>, h: nat, w: nat, r: nat, c: nat): T
    requires IsGrid(b, h, w) && r < h && c < w
  {
    IndexFits(h, w, r, c);
    b[r * w + c]
  }

  /** The buffer after std::copy, std::fill or std::transform wrote `t` from `start` on. */
  function Overlaid<T>(b: seq<T>, start: nat, t: seq<T>): (r: seq<T>)
    requires start + |t| <= |b|
    ensures |r| == |b|
  {
    b[..start] + t + b[start + |t|..]
  }

  /** Every cell is the same. */
  predicate AllAre<T(==)>(b: seq<T>, h: nat, w: nat, v: T)
    requires IsGrid(b, h, w)
  {
    forall r: nat, c: nat :: r < h && c < w ==> At(b, h, w, r, c) == v
  }

  lemma RepeatAllAre<T>(v: T, h: nat, w: nat)
    ensures AllAre(Repeat(v, h * w), h, w, v)
  {
    forall r: nat, c: nat | r < h && c < w ensures At(Repeat(v, h * w), h, w, r, c) == v {
      IndexFits(h, w, r, c);
    }
  }

  lemma IndexOrder(w: nat, r: nat, c: nat, r0: nat)
    requires c < w
    ensures r < r0 ==> r * w + c < r0 * w
    ensures r > r0 ==> r * w + c >= r0 * w + w
  {
    if r < r0 {
      assert (r + 1) * w <= r0 * w;
    } else if r > r0 {
      assert r * w >= (r0 + 1) * w;
    }
  }

  lemma RowFits(h: nat, w: nat, r: nat, c: nat, n: nat)
    requires r < h && c + n <= w
    ensures r * w + c + n <= h * w
  {
    assert (r + 1) * w <= h * w;
  }

  /** Writing inside one row changes that stretch of the row and nothing else. */
  lemma OverlayAt<T>(b: seq<T>, h: nat, w: nat, r0: nat, c0: nat, t: seq<T>, r: nat, c: nat)
    requires IsGrid(b, h, w) && r0 < h && c0 + |t| <= w && r0 * w + c0 + |t| <= |b| && r < h && c < w
    ensures At(Overlaid(b, r0 * w + c0, t), h, w, r, c)
      == if r == r0 && c0 <= c < c0 + |t| then t[c - c0] else At(b, h, w, r, c)
  {
    IndexFits(h, w, r, c);
    IndexOrder(w, r, c, r0);
  }

  /** How far a cell is from the start of a row, counted line after line. */
  function LineOffset(w: nat, row: nat, r: nat, c: nat): nat
    requires row <= r
  {
    (r - row) * w + c
  }

  /** Writing from the start of a row on, line after line. */
  lemma OverlayLinesAt<T>(b: seq<T>, h: nat, w: nat, r0: nat, t: seq<T>, r: nat, c: nat)
    requires IsGrid(b, h, w) && r0 * w + |t| <= |b| && r < h && c < w
    ensures At(Overlaid(b, r0 * w, t), h, w, r, c)
      == if r >= r0 && LineOffset(w, r0, r, c) < |t| then t[LineOffset(w, r0, r, c)] else At(b, h, w, r, c)
  {
    IndexFits(h, w, r, c);
    IndexOrder(w, r, c, r0);
    if r >= r0 {
      assert r * w + c == r0 * w + ((r - r0) * w + c);
    }
  }

  lemma LineIndex(h: nat, w: nat, row: nat, r: nat, c: nat)
    requires row <= r < h && c < w
    ensures row * w + LineOffset(w, row, r, c) < h * w
  {
    IndexFits(h, w, r, c);
    assert r * w == row * w + (r - row) * w;
  }

  /** The first n lines from a row on are the offsets below n * w. */
  lemma LineOrder(w: nat, row: nat, r: nat, c: nat, n: nat)
    requires row <= r && c < w
    ensures LineOffset(w, row, r, c) < n * w <==> r < row + n
  {
    IndexOrder(w, r - row, c, n);
  }

  lemma LinesFit(h: nat, w: nat, row: nat, n: nat)
    requires row + n <= h
    ensures row * w + n * w <= h * w
  {
    assert (row + n) * w <= h * w;
    assert (row + n) * w == row * w + n * w;
  }

  /** The buffer after its first n rows went and n rows of `v` came in behind. */
  function Scrolled<T>(b: seq<T>, h: nat, w: nat, n: nat, v: T): (r: seq<T>)
    requires IsGrid(b, h, w) && n <= h
    ensures IsGrid(r, h, w)
  {
    LinesFit(h, w, 0, n);
    b[n * w..] + Repeat(v, n * w)
  }

  lemma ScrolledAt<T>(b: seq<T>, h: nat, w: nat, n: nat, v: T, r: nat, c: nat)
    requires IsGrid(b, h, w) && n <= h && r < h && c < w
    ensures At(Scrolled(b, h, w, n, v), h, w, r, c) == if r + n < h then At(b, h, w, r + n, c) else v
  {
    IndexFits(h, w, r, c);
    LinesFit(h, w, 0, n);
    ScrolledIndex(h, w, n, r, c);
  }

  lemma ScrolledIndex(h: nat, w: nat, n: nat, r: nat, c: nat)
    requires n <= h && r < h && c < w
    ensures r + n < h ==> n * w + (r * w + c) == (r + n) * w + c && (r + n) * w + c < h * w
    ensures r + n >= h ==> h * w - n * w <= r * w + c < h * w
  {
    IndexFits(h, w, r, c);
    assert (r + n) * w == r * w + n * w;
    if r + n < h {
      IndexFits(h, w, r + n, c);
    } else {
      assert h * w <= (r + n) * w;
    }
  }

  /** Marks added to the ones already there. */
  function Merged(there: seq<bool>, start: nat, marks: seq<bool>): (r: seq<bool>)
    requires start + |marks| <= |there|
    ensures |r| == |marks| && forall i :: 0 <= i < |r| ==> r[i] == (marks[i] || there[start + i])
  {
    seq(|marks|, i requires 0 <= i < |marks| => marks[i] || there[start + i])
  }

  lemma MergedAt(d: seq<bool>, h: nat, w: nat, r0: nat, c0: nat, marks: seq<bool>, r: nat, c: nat)
    requires IsGrid(d, h, w) && r0 < h && c0 + |marks| <= w && r0 * w + c0 + |marks| <= |d| && r < h && c < w
    ensures At(Overlaid(d, r0 * w + c0, Merged(d, r0 * w + c0, marks)), h, w, r, c)
      == ((r == r0 && c0 <= c < c0 + |marks| && marks[c - c0]) || At(d, h, w, r, c))
  {
    OverlayAt(d, h, w, r0, c0, Merged(d, r0 * w + c0, marks), r, c);
    if r == r0 && c0 <= c < c0 + |marks| {
      assert r0 * w + c0 + (c - c0) == r * w + c;
    }
  }
}

/**
 * The two image-walking helpers of _util.py: pad_mat, which copies an image
 * into a zero array grown to a whole number of kernels, and strt_end_gen,
 * which walks the window positions of an image in row-major order.
 */
module UtilGrid {
  import opened Results
  import opened Arith
  import opened UtilArith

  /** The value of the padded image at (i, j): the source pixel when (i, j)
      falls inside the copy at offset (yPad, xPad), zero elsewhere. */
  function PaddedAt<T>(src: array2<T>, zero: T, xPad: nat, yPad: nat, i: int, j: int): T
    reads src
  {
    if yPad <= i < yPad + src.Length0 && xPad <= j < xPad + src.Length1
    then src[i - yPad, j - xPad] else zero
  }

  /**
   * pad_mat (_util.py:438-443): the image (rows by columns, one pixel per
   * cell) is copied into a fresh array with yPad rows of zeros above and
   * below and xPad columns of zeros left and right, where the pads are the
   * amounts that make the width a multiple of kx and the height a multiple
   * of ky.  The source is not changed.
   */
  method PadMat<T>(src: array2<T>, zero: T, kx: int, ky: int) returns (padded: array2<T>, xPad: nat, yPad: nat)
    requires kx > 0 && ky > 0
    ensures xPad == PadAmount(src.Length1, kx) && yPad == PadAmount(src.Length0, ky)
    ensures fresh(padded)
    ensures padded.Length0 == src.Length0 + 2 * yPad && padded.Length1 == src.Length1 + 2 * xPad
    ensures forall i, j :: 0 <= i < padded.Length0 && 0 <= j < padded.Length1 ==>
      padded[i, j] == PaddedAt(src, zero, xPad, yPad, i, j)
  {
    xPad := PadAmount(src.Length1, kx);
    yPad := PadAmount(src.Length0, ky);
    padded := new T[src.Length0 + 2 * yPad, src.Length1 + 2 * xPad]((i, j) => zero);
    for r := 0 to src.Length0
      invariant forall i, j :: 0 <= i < padded.Length0 && 0 <= j < padded.Length1 ==>
        padded[i, j] == (if i < yPad + r then PaddedAt(src, zero, xPad, yPad, i, j) else zero)
    {
      for c := 0 to src.Length1
        invariant forall i, j :: 0 <= i < padded.Length0 && 0 <= j < padded.Length1 ==>
          padded[i, j] == (if i < yPad + r || (i == yPad + r && j < xPad + c) then PaddedAt(src, zero, xPad, yPad, i, j) else zero)
      {
        padded[yPad + r, xPad + c] := src[r, c];
      }
    }
  }

  /** The ValueError range raises for a step of zero. */
  datatype RangeError = StepZero

  /** range(0, stop, step) for a non-zero step: the multiples of step below
      stop when step is positive, nothing when it is negative. */
  function Range(stop: nat, step: int): (xs: seq<nat>)
    requires step != 0
    ensures step < 0 ==> xs == []
    ensures step > 0 ==> |xs| == CeilDiv(stop, step)
    ensures step > 0 ==> forall i :: 0 <= i < |xs| ==> xs[i] == i * step < stop
  {
    if step < 0 then []
    else
      var n := CeilDiv(stop, step);
      assert forall i :: 0 <= i < n ==> i * step < stop by {
        forall i | 0 <= i < n ensures i * step < stop {
          CeilDivBelow(stop, step, i);
        }
      }
      seq(n, i requires 0 <= i < n => i * step)
  }

  /** The window strt_end_gen yields at column c, row r: the numpy slice
      src[r:r+ky, c:c+kx], whose ends are cut at the image's edges. */
  datatype Window = Window(col: nat, row: nat, colEnd: nat, rowEnd: nat)

  function Min(a: nat, b: nat): nat { if a < b then a else b }

  function WindowAt(h: nat, w: nat, kx: nat, ky: nat, c: nat, r: nat): Window
  {
    Window(c, r, Min(c + kx, w), Min(r + ky, h))
  }

  /** The windows of one row, left to right. */
  function RowWindows(h: nat, w: nat, kx: nat, ky: nat, r: nat, cols: seq<nat>): (ws: seq<Window>)
    ensures |ws| == |cols| && forall j :: 0 <= j < |cols| ==> ws[j] == WindowAt(h, w, kx, ky, cols[j], r)
  {
    seq(|cols|, j requires 0 <= j < |cols| => WindowAt(h, w, kx, ky, cols[j], r))
  }

  /** The windows of the given rows, row after row. */
  function Grid(h: nat, w: nat, kx: nat, ky: nat, rows: seq<nat>, cols: seq<nat>): seq<Window>
  {
    if rows == [] then []
    else Grid(h, w, kx, ky, rows[..|rows| - 1], cols) + RowWindows(h, w, kx, ky, rows[|rows| - 1], cols)
  }

  /**
   * strt_end_gen (_util.py:445-449) collected into a sequence: for each row
   * r of range(0, h, sv), for each column c of range(0, w, sh), the window
   * at (c, r).  A zero vertical step fails at once; a zero horizontal step
   * fails as soon as there is a row to walk.
   */
  method StrtEndGen(h: nat, w: nat, kx: nat, ky: nat, sh: int, sv: int) returns (r: Result<seq<Window>, RangeError>)
    ensures sv == 0 ==> r == Failure(StepZero)
    ensures sv != 0 && sh == 0 ==> r == (if Range(h, sv) == [] then Success([]) else Failure(StepZero))
    ensures sv != 0 && sh != 0 ==> r == Success(Grid(h, w, kx, ky, Range(h, sv), Range(w, sh)))
  {
    if sv == 0 {
      return Failure(StepZero);
    }
    var rows := Range(h, sv);
    var out: seq<Window> := [];
    for i := 0 to |rows|
      invariant sh != 0 ==> out == Grid(h, w, kx, ky, rows[..i], Range(w, sh))
      invariant sh == 0 ==> i == 0 && out == []
    {
      if sh == 0 {
        return Failure(StepZero);
      }
      var cols := Range(w, sh);
      var line: seq<Window> := [];
      for j := 0 to |cols|
        invariant line == RowWindows(h, w, kx, ky, rows[i], cols[..j])
      {
        line := line + [WindowAt(h, w, kx, ky, cols[j], rows[i])];
      }
      assert cols[..|cols|] == cols;
      assert rows[..i + 1][..i] == rows[..i];
      out := out + line;
    }
    assert rows[..|rows|] == rows;
    return Success(out);
  }

  /** The grid holds one window per (row, column) pair. */
  lemma {:induction false} GridLength(h: nat, w: nat, kx: nat, ky: nat, rows: seq<nat>, cols: seq<nat>)
    ensures |Grid(h, w, kx, ky, rows, cols)| == |rows| * |cols|
  {
    if rows != [] {
      GridLength(h, w, kx, ky, rows[..|rows| - 1], cols);
      assert |rows| * |cols| == (|rows| - 1) * |cols| + |cols|;
    }
  }

  /** Row-major order: the window for row i and column j is at i * |cols| + j. */
  lemma {:induction false} GridIndex(h: nat, w: nat, kx: nat, ky: nat, rows: seq<nat>, cols: seq<nat>, i: nat, j: nat)
    requires i < |rows| && j < |cols|
    ensures i * |cols| + j < |Grid(h, w, kx, ky, rows, cols)|
    ensures Grid(h, w, kx, ky, rows, cols)[i * |cols| + j] == WindowAt(h, w, kx, ky, cols[j], rows[i])
  {
    var last := |rows| - 1;
    GridLength(h, w, kx, ky, rows[..last], cols);
    GridLength(h, w, kx, ky, rows, cols);
    assert last * |cols| + |cols| == |rows| * |cols|;
    if i < last {
      GridIndex(h, w, kx, ky, rows[..last], cols, i, j);
      MulMono(i + 1, last, |cols|);
      assert (i + 1) * |cols| == i * |cols| + |cols|;
    }
  }

  /** Every (row, column) pair has its window in the grid. */
  lemma {:induction false} GridHas(h: nat, w: nat, kx: nat, ky: nat, rows: seq<nat>, cols: seq<nat>, i: nat, j: nat)
    requires i < |rows| && j < |cols|
    ensures WindowAt(h, w, kx, ky, cols[j], rows[i]) in Grid(h, w, kx, ky, rows, cols)
  {
    var last := |rows| - 1;
    var line := RowWindows(h, w, kx, ky, rows[last], cols);
    if i < last {
      GridHas(h, w, kx, ky, rows[..last], cols, i, j);
      assert rows[..last][i] == rows[i];
    } else {
      assert line[j] == WindowAt(h, w, kx, ky, cols[j], rows[i]);
    }
  }

  /** Every multiple of a positive step below stop is in the range, at
      its quotient. */
  lemma RangeAt(stop: nat, step: int, m: nat)
    requires step > 0 && m < stop && m % step == 0
    ensures m / step < |Range(stop, step)| && Range(stop, step)[m / step] == m
  {
    var q := m / step;
    assert m == q * step;
    CeilDivBelow(stop, step, q);
  }

  /** Every window starts inside the image, and spans a whole kernel
      unless the image's edge cuts it short. */
  lemma {:induction false} GridInBounds(h: nat, w: nat, kx: nat, ky: nat, rows: seq<nat>, cols: seq<nat>)
    requires forall i :: 0 <= i < |rows| ==> rows[i] < h
    requires forall j :: 0 <= j < |cols| ==> cols[j] < w
    ensures forall win :: win in Grid(h, w, kx, ky, rows, cols) ==>
      && win.col < w && win.row < h
      && win.col <= win.colEnd <= w && (win.colEnd == win.col + kx || win.colEnd == w < win.col + kx)
      && win.row <= win.rowEnd <= h && (win.rowEnd == win.row + ky || win.rowEnd == h < win.row + ky)
  {
    if rows != [] {
      GridInBounds(h, w, kx, ky, rows[..|rows| - 1], cols);
    }
  }

  /** The windows strt_end_gen yields all start inside the image. */
  lemma StrtEndGenInBounds(h: nat, w: nat, kx: nat, ky: nat, sh: int, sv: int)
    requires sh > 0 && sv > 0
    ensures forall win :: win in Grid(h, w, kx, ky, Range(h, sv), Range(w, sh)) ==>
      && win.col < w && win.row < h
      && win.col <= win.colEnd <= w && (win.colEnd == win.col + kx || win.colEnd == w < win.col + kx)
      && win.row <= win.rowEnd <= h && (win.rowEnd == win.row + ky || win.rowEnd == h < win.row + ky)
  {
    GridInBounds(h, w, kx, ky, Range(h, sv), Range(w, sh));
  }

  /** Every position the image's step grid contains is visited: each column
      c < w that is a multiple of sh, with each row r < h that is a
      multiple of sv. */
  lemma StrtEndGenComplete(h: nat, w: nat, kx: nat, ky: nat, sh: int, sv: int, c: nat, r: nat)
    requires sh > 0 && sv > 0 && c < w && r < h && c % sh == 0 && r % sv == 0
    ensures WindowAt(h, w, kx, ky, c, r) in Grid(h, w, kx, ky, Range(h, sv), Range(w, sh))
  {
    RangeAt(h, sv, r);
    RangeAt(w, sh, c);
    GridHas(h, w, kx, ky, Range(h, sv), Range(w, sh), r / sv, c / sh);
  }
}

/**
 `BoxBlurArgb`: an O(1)-per-pixel sliding-window blur, in place, first along rows into a scratch
 buffer and then along columns back. Its meaning is the naive edge-clamped box mean.
 */
module BoxBlur {
  import opened Arith
  import opened Pixels

  // ----- Windows over one line -----

  /** Sum of `count` samples of an edge-clamped line of `n` samples, starting at position `from`. */
  function Window(line: int -> int, n: int, from: int, count: nat): int {
    if count == 0 then 0 else Window(line, n, from, count - 1) + line(Clamp(from + count - 1, 0, n - 1))
  }

  /** Moving the window one step admits one sample and retires one. */
  lemma {:induction false} WindowSlides(line: int -> int, n: int, from: int, count: nat)
    ensures Window(line, n, from + 1, count) + line(Clamp(from, 0, n - 1))
            == Window(line, n, from, count) + line(Clamp(from + count, 0, n - 1))
  {
    if count != 0 {
      WindowSlides(line, n, from, count - 1);
    }
  }

  lemma {:induction false} WindowBounds(line: int -> int, n: int, from: int, count: nat, lo: int, hi: int)
    requires n >= 1 && forall i | 0 <= i < n :: lo <= line(i) <= hi
    ensures lo * count <= Window(line, n, from, count) <= hi * count
  {
    if count != 0 {
      WindowBounds(line, n, from, count - 1, lo, hi);
      assert lo * count == lo * (count - 1) + lo && hi * count == hi * (count - 1) + hi;
    }
  }

  lemma {:induction false} WindowCongruence(line: int -> int, other: int -> int, n: int, from: int, count: nat)
    requires n >= 1 && forall i | 0 <= i < n :: line(i) == other(i)
    ensures Window(line, n, from, count) == Window(other, n, from, count)
  {
    if count != 0 {
      WindowCongruence(line, other, n, from, count - 1);
    }
  }

  /** Mean of the `2 * radius + 1` samples around position `i`, rounded down. */
  function Mean(line: int -> int, n: int, i: int, radius: nat): int {
    Window(line, n, i - radius, 2 * radius + 1) / (2 * radius + 1)
  }

  lemma MeanBounds(line: int -> int, n: int, i: int, radius: nat, lo: int, hi: int)
    requires n >= 1 && forall j | 0 <= j < n :: lo <= line(j) <= hi
    ensures lo <= Mean(line, n, i, radius) <= hi
  {
    var div := 2 * radius + 1;
    var sum := Window(line, n, i - radius, div);
    WindowBounds(line, n, i - radius, div, lo, hi);
    QuotientBounds(sum, div, lo, hi);
  }

  // ----- The naive two-pass box mean -----

  /** One channel of the pixel at row `y`, column `x`. */
  function Sample(pixels: seq<Word>, w: int, c: Channel, y: int, x: int): Byte {
    var i := y * w + x;
    if 0 <= i < |pixels| then Get(pixels[i], c) else 0
  }

  function Row(pixels: seq<Word>, w: int, c: Channel, y: int): int -> int {
    x => Sample(pixels, w, c, y, x)
  }

  function Column(pixels: seq<Word>, w: int, c: Channel, x: int): int -> int {
    y => Sample(pixels, w, c, y, x)
  }

  /** Box mean along the row. */
  function RowMean(pixels: seq<Word>, w: int, radius: nat, c: Channel, y: int, x: int): int {
    Mean(Row(pixels, w, c, y), w, x, radius)
  }

  function RowMeans(pixels: seq<Word>, w: int, radius: nat, c: Channel, x: int): int -> int {
    y => RowMean(pixels, w, radius, c, y, x)
  }

  /** Box mean along the column of the row means: the blurred channel at (y, x). */
  function Blurred(pixels: seq<Word>, w: int, h: int, radius: nat, c: Channel, y: int, x: int): int {
    Mean(RowMeans(pixels, w, radius, c, x), h, y, radius)
  }

  /** Blurring never leaves the range of the channel it blurs. */
  lemma BlurStaysInRange(pixels: seq<Word>, w: int, h: int, radius: nat, c: Channel, y: int, x: int, lo: int, hi: int)
    requires w >= 1 && h >= 1
    requires forall y', x' | 0 <= y' < h && 0 <= x' < w :: lo <= Sample(pixels, w, c, y', x') <= hi
    ensures lo <= Blurred(pixels, w, h, radius, c, y, x) <= hi
  {
    forall y' | 0 <= y' < h
      ensures lo <= RowMeans(pixels, w, radius, c, x)(y') <= hi
    {
      MeanBounds(Row(pixels, w, c, y'), w, x, radius, lo, hi);
    }
    MeanBounds(RowMeans(pixels, w, radius, c, x), h, y, radius, lo, hi);
  }

  // ----- The blur of a single point -----

  /** How many of the `count` positions from `from` read sample `p` of a line of `n`: its ends stand for all beyond. */
  function Reads(n: int, p: int, from: int, count: nat): nat {
    var first := if p == 0 then from else Max(from, p);
    var last := if p == n - 1 then from + count else Min(from + count, p + 1);
    if first < last then last - first else 0
  }

  /** A line that is `v` at `p` and 0 elsewhere. */
  ghost predicate IsPoint(line: int -> int, n: int, p: int, v: int) {
    forall j | 0 <= j < n :: line(j) == if j == p then v else 0
  }

  lemma {:induction false} PointWindow(line: int -> int, n: int, p: int, v: int, from: int, count: nat)
    requires 0 <= p < n && IsPoint(line, n, p, v)
    ensures Window(line, n, from, count) == v * Reads(n, p, from, count)
  {
    if count != 0 {
      PointWindow(line, n, p, v, from, count - 1);
      var before := Reads(n, p, from, count - 1);
      assert Reads(n, p, from, count) == before + if Clamp(from + count - 1, 0, n - 1) == p then 1 else 0;
      MulDistrib(before, 1, v);
    }
  }

  /** The mean at `i` of such a line: the share of the window's samples that read the point. */
  function PointMean(n: int, p: int, v: int, i: int, radius: nat): int {
    v * Reads(n, p, i - radius, 2 * radius + 1) / (2 * radius + 1)
  }

  lemma MeanOfPoint(line: int -> int, n: int, p: int, v: int, i: int, radius: nat)
    requires 0 <= p < n && IsPoint(line, n, p, v)
    ensures Mean(line, n, i, radius) == PointMean(n, p, v, i, radius)
  {
    PointWindow(line, n, p, v, i - radius, 2 * radius + 1);
  }

  /** One channel is `v` in the pixel at (py, px) and 0 in every other. */
  ghost predicate IsPointImage(pixels: seq<Word>, w: int, c: Channel, py: int, px: int, v: Byte) {
    forall i | 0 <= i < |pixels| :: Get(pixels[i], c) == if i == py * w + px then v else 0
  }

  lemma PointRow(pixels: seq<Word>, w: int, h: int, c: Channel, py: int, px: int, v: Byte, y: int)
    requires w >= 1 && |pixels| == w * h && 0 <= py < h && 0 <= px < w && 0 <= y < h
    requires IsPointImage(pixels, w, c, py, px, v)
    ensures IsPoint(Row(pixels, w, c, y), w, px, if y == py then v else 0)
  {
    forall x | 0 <= x < w
      ensures Row(pixels, w, c, y)(x) == if x == px && y == py then v else 0
    {
      RowMajorInRange(y, x, h, w);
      if y * w + x == py * w + px {
        DigitsUnique(y, x, py, px, w);
      }
    }
  }

  /** The means of the rows of such an image are a point again, in the column through `x`. */
  lemma PointRowMeans(pixels: seq<Word>, w: int, h: int, radius: nat, c: Channel, py: int, px: int, v: Byte, x: int)
    requires w >= 1 && |pixels| == w * h && 0 <= py < h && 0 <= px < w
    requires IsPointImage(pixels, w, c, py, px, v)
    ensures IsPoint(RowMeans(pixels, w, radius, c, x), h, py, PointMean(w, px, v, x, radius))
  {
    forall y | 0 <= y < h
      ensures RowMeans(pixels, w, radius, c, x)(y) == if y == py then PointMean(w, px, v, x, radius) else 0
    {
      PointRow(pixels, w, h, c, py, px, v, y);
      if y == py {
        MeanOfPoint(Row(pixels, w, c, y), w, px, v, x, radius);
      } else {
        MeanBounds(Row(pixels, w, c, y), w, x, radius, 0, 0);
      }
    }
  }

  /** What the blur makes of a single point: in each direction, the share of the window's samples that read it. */
  lemma PointSpreads(pixels: seq<Word>, w: int, h: int, radius: nat, c: Channel, py: int, px: int, v: Byte, y: int,
        x: int)
    requires w >= 1 && |pixels| == w * h && 0 <= py < h && 0 <= px < w
    requires IsPointImage(pixels, w, c, py, px, v)
    ensures Blurred(pixels, w, h, radius, c, y, x) == PointMean(h, py, PointMean(w, px, v, x, radius), y, radius)
  {
    PointRowMeans(pixels, w, h, radius, c, py, px, v, x);
    MeanOfPoint(RowMeans(pixels, w, radius, c, x), h, py, PointMean(w, px, v, x, radius), y, radius);
  }

  /** Off the edges a window reads a sample once if it is within the radius, and otherwise never. */
  lemma OffTheEdges(n: int, p: int, v: nat, i: int, radius: nat)
    requires 0 < p < n - 1
    ensures 0 <= PointMean(n, p, v, i, radius) == if i - radius <= p <= i + radius then v / (2 * radius + 1) else 0
  {
    var times := Reads(n, p, i - radius, 2 * radius + 1);
    assert times == if i - radius <= p <= i + radius then 1 else 0;
    assert v * times == if times == 1 then v else 0;
  }

  /** A point off the edges is spread evenly over the square around it, and over nothing else. */
  lemma PointBecomesSquare(pixels: seq<Word>, w: int, h: int, radius: nat, c: Channel, py: int, px: int, v: Byte,
        y: int, x: int)
    requires |pixels| == w * h && 0 < py < h - 1 && 0 < px < w - 1
    requires IsPointImage(pixels, w, c, py, px, v)
    ensures Blurred(pixels, w, h, radius, c, y, x) ==
              if y - radius <= py <= y + radius && x - radius <= px <= x + radius
              then v / (2 * radius + 1) / (2 * radius + 1) else 0
  {
    PointSpreads(pixels, w, h, radius, c, py, px, v, y, x);
    OffTheEdges(w, px, v, x, radius);
    OffTheEdges(h, py, PointMean(w, px, v, x, radius), y, radius);
  }

  // ----- The sliding loops -----

  ghost predicate IsImage(pixels: seq<Word>, w: int, h: int) {
    w >= 1 && h >= 1 && |pixels| == w * h
  }

  /** A packed pixel holding the means of the three channels of three lines. */
  ghost predicate HoldsMeans(px: Word, r: int -> int, g: int -> int, b: int -> int, n: int, i: int, radius: nat) {
    && px / 0x100_0000 == 0xFF
    && Get(px, Red) == Mean(r, n, i, radius)
    && Get(px, Green) == Mean(g, n, i, radius)
    && Get(px, Blue) == Mean(b, n, i, radius)
  }

  ghost predicate IsByteLine(line: int -> int, n: int) {
    forall i | 0 <= i < n :: 0 <= line(i) < 0x100
  }

  /** The three running sums of the window centred on position `i`. */
  ghost predicate Sums(r: int -> int, g: int -> int, b: int -> int, n: int, i: int, radius: nat, rSum: int, gSum: int,
        bSum: int) {
    && rSum == Window(r, n, i - radius, 2 * radius + 1)
    && gSum == Window(g, n, i - radius, 2 * radius + 1)
    && bSum == Window(b, n, i - radius, 2 * radius + 1)
  }

  /** Packing the three quotients is packing the three means. */
  lemma PackMeans(r: int -> int, g: int -> int, b: int -> int, n: int, i: int, radius: nat, rSum: int, gSum: int,
        bSum: int)
    requires n >= 1 && IsByteLine(r, n) && IsByteLine(g, n) && IsByteLine(b, n)
    requires Sums(r, g, b, n, i, radius, rSum, gSum, bSum)
    ensures var div := 2 * radius + 1;
            0 <= rSum / div < 0x100 && 0 <= gSum / div < 0x100 && 0 <= bSum / div < 0x100
            && HoldsMeans(Pack(rSum / div, gSum / div, bSum / div), r, g, b, n, i, radius)
  {
    MeanBounds(r, n, i, radius, 0, 0xFF);
    MeanBounds(g, n, i, radius, 0, 0xFF);
    MeanBounds(b, n, i, radius, 0, 0xFF);
  }

  lemma SumsSlide(r: int -> int, g: int -> int, b: int -> int, n: int, i: int, radius: nat, rSum: int, gSum: int,
        bSum: int)
    requires Sums(r, g, b, n, i, radius, rSum, gSum, bSum)
    ensures var leaving, entering := Clamp(i - radius, 0, n - 1), Clamp(i + radius + 1, 0, n - 1);
            Sums(r, g, b, n, i + 1, radius,
                 rSum + r(entering) - r(leaving), gSum + g(entering) - g(leaving), bSum + b(entering) - b(leaving))
  {
    WindowSlides(r, n, i - radius, 2 * radius + 1);
    WindowSlides(g, n, i - radius, 2 * radius + 1);
    WindowSlides(b, n, i - radius, 2 * radius + 1);
  }

  /** Sums of the window centred on the first pixel of a row. */
  method FirstRowWindow(pixels: seq<Word>, w: nat, h: nat, y: nat, radius: nat)
    returns (rSum: int, gSum: int, bSum: int)
    requires IsImage(pixels, w, h) && y < h
    ensures Sums(Row(pixels, w, Red, y), Row(pixels, w, Green, y), Row(pixels, w, Blue, y),
                 w, 0, radius, rSum, gSum, bSum)
  {
    GridInRange(w, h);
    rSum, gSum, bSum := 0, 0, 0;
    for j := 0 to 2 * radius + 1
      invariant rSum == Window(Row(pixels, w, Red, y), w, 0 - radius, j)
      invariant gSum == Window(Row(pixels, w, Green, y), w, 0 - radius, j)
      invariant bSum == Window(Row(pixels, w, Blue, y), w, 0 - radius, j)
    {
      var k := j - radius;
      var xx := Clamp(k, 0, w - 1);
      assert 0 <= At(w, y, xx) < w * h;
      var px := pixels[y * w + xx];
      rSum, gSum, bSum := rSum + Get(px, Red), gSum + Get(px, Green), bSum + Get(px, Blue);
    }
  }

  /** Sums of the window centred on the first pixel of a column. */
  method FirstColumnWindow(tmp: seq<Word>, w: nat, h: nat, x: nat, radius: nat)
    returns (rSum: int, gSum: int, bSum: int)
    requires IsImage(tmp, w, h) && x < w
    ensures Sums(Column(tmp, w, Red, x), Column(tmp, w, Green, x), Column(tmp, w, Blue, x),
                 h, 0, radius, rSum, gSum, bSum)
  {
    GridInRange(w, h);
    rSum, gSum, bSum := 0, 0, 0;
    for j := 0 to 2 * radius + 1
      invariant rSum == Window(Column(tmp, w, Red, x), h, 0 - radius, j)
      invariant gSum == Window(Column(tmp, w, Green, x), h, 0 - radius, j)
      invariant bSum == Window(Column(tmp, w, Blue, x), h, 0 - radius, j)
    {
      var k := j - radius;
      var yy := Clamp(k, 0, h - 1);
      assert 0 <= At(w, yy, x) < w * h;
      var px := tmp[yy * w + x];
      rSum, gSum, bSum := rSum + Get(px, Red), gSum + Get(px, Green), bSum + Get(px, Blue);
    }
  }

  /** The row window moves one pixel on: the entering pixel is added, the leaving one subtracted. */
  method SlideRowWindow(pixels: seq<Word>, w: nat, h: nat, y: nat, x: nat, radius: nat, rSum: int, gSum: int, bSum: int)
    returns (r: int, g: int, b: int)
    requires IsImage(pixels, w, h) && y < h && x < w
    requires Sums(Row(pixels, w, Red, y), Row(pixels, w, Green, y), Row(pixels, w, Blue, y),
                 w, x, radius, rSum, gSum, bSum)
    ensures Sums(Row(pixels, w, Red, y), Row(pixels, w, Green, y), Row(pixels, w, Blue, y), w, x + 1, radius, r, g, b)
  {
    var leaving := Clamp(x - radius, 0, w - 1);
    var entering := Clamp(x + radius + 1, 0, w - 1);
    GridInRange(w, h);
    assert 0 <= At(w, y, leaving) < w * h && 0 <= At(w, y, entering) < w * h;
    var pxOut := pixels[At(w, y, leaving)];
    var pxIn := pixels[At(w, y, entering)];
    SumsSlide(Row(pixels, w, Red, y), Row(pixels, w, Green, y), Row(pixels, w, Blue, y),
                 w, x, radius, rSum, gSum, bSum);
    r := rSum + (Get(pxIn, Red) - Get(pxOut, Red));
    g := gSum + (Get(pxIn, Green) - Get(pxOut, Green));
    b := bSum + (Get(pxIn, Blue) - Get(pxOut, Blue));
  }

  /** The column window moves one pixel on: the entering pixel is added, the leaving one subtracted. */
  method SlideColumnWindow(tmp: seq<Word>, w: nat, h: nat, x: nat, y: nat, radius: nat, rSum: int, gSum: int, bSum: int)
    returns (r: int, g: int, b: int)
    requires IsImage(tmp, w, h) && x < w && y < h
    requires Sums(Column(tmp, w, Red, x), Column(tmp, w, Green, x), Column(tmp, w, Blue, x),
                 h, y, radius, rSum, gSum, bSum)
    ensures Sums(Column(tmp, w, Red, x), Column(tmp, w, Green, x), Column(tmp, w, Blue, x), h, y + 1, radius, r, g, b)
  {
    var leaving := Clamp(y - radius, 0, h - 1);
    var entering := Clamp(y + radius + 1, 0, h - 1);
    GridInRange(w, h);
    assert 0 <= At(w, leaving, x) < w * h && 0 <= At(w, entering, x) < w * h;
    var pxOut := tmp[At(w, leaving, x)];
    var pxIn := tmp[At(w, entering, x)];
    SumsSlide(Column(tmp, w, Red, x), Column(tmp, w, Green, x), Column(tmp, w, Blue, x),
                 h, y, radius, rSum, gSum, bSum);
    r := rSum + (Get(pxIn, Red) - Get(pxOut, Red));
    g := gSum + (Get(pxIn, Green) - Get(pxOut, Green));
    b := bSum + (Get(pxIn, Blue) - Get(pxOut, Blue));
  }

  /** First pass over one row: `pixels` is read, `tmp` receives the row means. */
  method BlurRow(pixels: seq<Word>, tmp: array<Word>, w: nat, h: nat, y: nat, radius: nat)
    requires IsImage(pixels, w, h) && tmp.Length == w * h && y < h
    modifies tmp
    ensures forall x | 0 <= x < w ::
              0 <= At(w, y, x) < tmp.Length
              && HoldsMeans(tmp[At(w, y, x)], Row(pixels, w, Red, y), Row(pixels, w, Green, y), Row(pixels, w, Blue, y),
                   w, x, radius)
    ensures forall i | 0 <= i < tmp.Length && !(y * w <= i < y * w + w) :: tmp[i] == old(tmp[i])
  {
    var div := radius * 2 + 1;
    var row := y * w;
    ghost var r, g, b := Row(pixels, w, Red, y), Row(pixels, w, Green, y), Row(pixels, w, Blue, y);
    RowMajorInRange(y, 0, h, w);
    RowMajorInRange(y, w - 1, h, w);
    var rSum, gSum, bSum := FirstRowWindow(pixels, w, h, y, radius);
    for x := 0 to w
      invariant Sums(r, g, b, w, x, radius, rSum, gSum, bSum)
      invariant forall x' | 0 <= x' < x :: HoldsMeans(tmp[At(w, y, x')], r, g, b, w, x', radius)
      invariant forall i | 0 <= i < tmp.Length && !(row <= i < row + w) :: tmp[i] == old(tmp[i])
    {
      PackMeans(r, g, b, w, x, radius, rSum, gSum, bSum);
      tmp[At(w, y, x)] := Pack(rSum / div, gSum / div, bSum / div);
      rSum, gSum, bSum := SlideRowWindow(pixels, w, h, y, x, radius, rSum, gSum, bSum);
    }
  }

  /** Second pass over one column: `tmp` is read, the column of `pixels` receives the means. */
  method BlurColumn(tmp: seq<Word>, pixels: array<Word>, w: nat, h: nat, x: nat, radius: nat)
    requires IsImage(tmp, w, h) && pixels.Length == w * h && x < w
    modifies pixels
    ensures forall y | 0 <= y < h ::
              0 <= At(w, y, x) < pixels.Length
              && HoldsMeans(pixels[At(w, y, x)],
                            Column(tmp, w, Red, x), Column(tmp, w, Green, x), Column(tmp, w, Blue, x), h, y, radius)
    ensures forall y', x' | 0 <= y' < h && 0 <= x' < w && x' != x ::
              0 <= At(w, y', x') < pixels.Length && pixels[At(w, y', x')] == old(pixels[At(w, y', x')])
  {
    var div := radius * 2 + 1;
    ghost var r, g, b := Column(tmp, w, Red, x), Column(tmp, w, Green, x), Column(tmp, w, Blue, x);
    GridInRange(w, h);
    var rSum, gSum, bSum := FirstColumnWindow(tmp, w, h, x, radius);
    for y := 0 to h
      invariant Sums(r, g, b, h, y, radius, rSum, gSum, bSum)
      invariant forall y' | 0 <= y' < y :: HoldsMeans(pixels[At(w, y', x)], r, g, b, h, y', radius)
      invariant forall y', x' | 0 <= y' < h && 0 <= x' < w && x' != x ::
          pixels[At(w, y', x')] == old(pixels[At(w, y', x')])
    {
      PackMeans(r, g, b, h, y, radius, rSum, gSum, bSum);
      AtInjective(w, h, y, x);
      pixels[At(w, y, x)] := Pack(rSum / div, gSum / div, bSum / div);
      rSum, gSum, bSum := SlideColumnWindow(tmp, w, h, x, y, radius, rSum, gSum, bSum);
    }
  }

  ghost predicate HoldsRowMeans(pixels: seq<Word>, tmp: seq<Word>, w: nat, h: nat, radius: nat, y: int, x: int)
    requires |tmp| == w * h && 0 <= At(w, y, x) < w * h
  {
    HoldsMeans(tmp[At(w, y, x)], Row(pixels, w, Red, y), Row(pixels, w, Green, y), Row(pixels, w, Blue, y),
               w, x, radius)
  }

  ghost predicate HoldsBlur(before: seq<Word>, after: seq<Word>, w: nat, h: nat, radius: nat, y: int, x: int) {
    && |after| == w * h && 0 <= At(w, y, x) < w * h
    && after[At(w, y, x)] / 0x100_0000 == 0xFF
    && forall c: Channel :: Get(after[At(w, y, x)], c) == Blurred(before, w, h, radius, c, y, x)
  }

  /** Column means of the row means are the blur. */
  lemma ColumnOfRowMeans(before: seq<Word>, tmp: seq<Word>, w: nat, h: nat, radius: nat, c: Channel, y: int, x: int)
    requires IsImage(before, w, h) && |tmp| == w * h && 0 <= x < w
    requires forall y', x' | 0 <= y' < h && 0 <= x' < w ::
        0 <= At(w, y', x') < w * h && HoldsRowMeans(before, tmp, w, h, radius, y', x')
    ensures Mean(Column(tmp, w, c, x), h, y, radius) == Blurred(before, w, h, radius, c, y, x)
  {
    forall y' | 0 <= y' < h
      ensures Column(tmp, w, c, x)(y') == RowMeans(before, w, radius, c, x)(y')
    {
      assert HoldsRowMeans(before, tmp, w, h, radius, y', x);
    }
    WindowCongruence(Column(tmp, w, c, x), RowMeans(before, w, radius, c, x), h, y - radius, 2 * radius + 1);
  }

  /**
   The whole blur, in place. Every radius is accepted, including one larger than the image; a radius
   below 1 leaves the pixels alone.
   */
  method BoxBlurArgb(pixels: array<Word>, w: nat, h: nat, radius: int)
    requires IsImage(pixels[..], w, h)
    modifies pixels
    ensures radius < 1 ==> pixels[..] == old(pixels[..])
    ensures radius >= 1 ==>
              forall y, x | 0 <= y < h && 0 <= x < w :: HoldsBlur(old(pixels[..]), pixels[..], w, h, radius, y, x)
  {
    if radius < 1 {
      return;
    }
    ghost var before := pixels[..];
    GridInRange(w, h);
    var tmp := new Word[pixels.Length];
    for y := 0 to h
      invariant pixels[..] == before
      invariant forall y', x | 0 <= y' < y && 0 <= x < w :: HoldsRowMeans(before, tmp[..], w, h, radius, y', x)
    {
      ghost var earlier := tmp[..];
      BlurRow(pixels[..], tmp, w, h, y, radius);
      forall y', x | 0 <= y' <= y && 0 <= x < w
        ensures HoldsRowMeans(before, tmp[..], w, h, radius, y', x)
      {
        if y' < y {
          RowsApart(w, y', x, y);
          assert HoldsRowMeans(before, earlier, w, h, radius, y', x);
        } else {
          assert 0 <= At(w, y, x) < tmp.Length;
        }
      }
    }
    ghost var rows := tmp[..];
    for x := 0 to w
      invariant tmp[..] == rows
      invariant forall y, x' | 0 <= y < h && 0 <= x' < x :: HoldsBlur(before, pixels[..], w, h, radius, y, x')
    {
      ghost var earlier := pixels[..];
      BlurColumn(tmp[..], pixels, w, h, x, radius);
      forall y, x' | 0 <= y < h && 0 <= x' <= x
        ensures HoldsBlur(before, pixels[..], w, h, radius, y, x')
      {
        if x' < x {
          assert HoldsBlur(before, earlier, w, h, radius, y, x');
          assert 0 <= At(w, y, x') < pixels.Length;
        } else {
          assert 0 <= At(w, y, x) < pixels.Length;
          ColumnOfRowMeans(before, rows, w, h, radius, Red, y, x);
          ColumnOfRowMeans(before, rows, w, h, radius, Green, y, x);
          ColumnOfRowMeans(before, rows, w, h, radius, Blue, y, x);
        }
      }
    }
  }
}

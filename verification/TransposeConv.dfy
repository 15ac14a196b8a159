/**
 The custom TFLite operator: a strided, padded transposed convolution with a folded bias. Its loops
 scatter every input sample into the flat output; its meaning is a gather, cell by cell. Samples are
 exact reals.
 */
module TransposeConv {
  import opened Arith
  import opened Sums

  // ----- Parameters and shapes -----

  datatype Padding = Same | Valid

  /** Total padding of one axis; the operator puts half of it (rounded down) at the low end. */
  function TotalPadding(padding: Padding, extent: int, stride: int, filter: int): int
    requires stride > 0
  {
    if padding.Valid? then 0 else Max(0, filter - TruncRem(extent - 1, stride) - 1)
  }

  /** Output extent of one axis, as the operator sizes its output tensor. */
  function OutputExtent(padding: Padding, extent: int, stride: int, filter: int): int
    requires stride > 0
  {
    stride * (extent - 1) + filter - TotalPadding(padding, extent, stride, filter)
  }

  /** Full scatter extent of one axis: the rows touched when nothing is clipped. */
  function ScatterExtent(extent: int, stride: int, filter: int): int {
    stride * (extent - 1) + filter
  }

  lemma OutputExtentMeaning(padding: Padding, extent: int, stride: int, filter: int)
    requires extent >= 1 && stride >= 1 && filter >= 1
    ensures OutputExtent(padding, extent, stride, filter) >= 1
    ensures padding.Valid? ==> OutputExtent(padding, extent, stride, filter) == ScatterExtent(extent, stride, filter)
    ensures padding.Same? ==>
              OutputExtent(padding, extent, stride, filter)
              == stride * (extent - 1) + Min(filter, (extent - 1) % stride + 1)
    ensures padding.Same? ==>
              (OutputExtent(padding, extent, stride, filter) == stride * extent
               <==> filter >= stride && extent % stride == 0)
  {
    assert stride * (extent - 1) >= 0;
    assert stride * extent == stride * (extent - 1) + stride;
    NextRemainder(extent - 1, stride);
  }

  /**
   Clipping, exactly: the row that input row `i` and filter row `f` reach is dropped if and only if
   it is one of the first `pad / 2` or the last `pad - pad / 2` rows of the full scatter extent. In
   VALID mode `pad` is 0, so nothing is ever dropped.
   */
  lemma ClippingDropsPadding(padding: Padding, extent: int, stride: int, filter: int, i: int, f: int)
    requires stride >= 1 && 0 <= i < extent && 0 <= f < filter
    ensures var pad := TotalPadding(padding, extent, stride, filter);
            var full := ScatterExtent(extent, stride, filter);
            var row := i * stride + f;
            0 <= pad / 2 <= pad - pad / 2 <= filter
            && 0 <= row < full
            && (0 <= row - pad / 2 < OutputExtent(padding, extent, stride, filter)
                <==> pad / 2 <= row < full - (pad - pad / 2))
            && (padding.Valid? ==> 0 <= row - pad / 2 < OutputExtent(padding, extent, stride, filter))
  {
    assert i * stride <= (extent - 1) * stride;
    assert 0 <= i * stride;
  }

  // ----- Flat tensors -----

  /** Position of a cell in a row-major tensor whose last three extents are `h`, `w` and `c`. */
  function Flat(b: int, y: int, x: int, ch: int, h: int, w: int, c: int): int {
    b * (h * w * c) + (y * w + x) * c + ch
  }

  predicate InBox(y: int, x: int, ch: int, h: int, w: int, c: int) {
    0 <= y < h && 0 <= x < w && 0 <= ch < c
  }

  lemma FlatInRange(n: int, b: int, y: int, x: int, ch: int, h: int, w: int, c: int)
    requires 0 <= b < n && InBox(y, x, ch, h, w, c)
    ensures 0 <= Flat(b, y, x, ch, h, w, c) < n * (h * w * c)
    ensures 0 <= (y * w + x) * c + ch < h * w * c
  {
    RowMajorInRange(y, x, h, w);
    RowMajorInRange(y * w + x, ch, h * w, c);
    RowMajorInRange(b, (y * w + x) * c + ch, n, h * w * c);
  }

  /** Distinct cells never share a flat index. */
  lemma FlatNeverAliases(b: int, y: int, x: int, ch: int, b': int, y': int, x': int, ch': int, h: int, w: int, c: int)
    requires 0 <= b && 0 <= b' && InBox(y, x, ch, h, w, c) && InBox(y', x', ch', h, w, c)
    requires Flat(b, y, x, ch, h, w, c) == Flat(b', y', x', ch', h, w, c)
    ensures b == b' && y == y' && x == x' && ch == ch'
  {
    FlatInRange(b + 1, b, y, x, ch, h, w, c);
    FlatInRange(b' + 1, b', y', x', ch', h, w, c);
    DigitsUnique(b, (y * w + x) * c + ch, b', (y' * w + x') * c + ch', h * w * c);
    DigitsUnique(y * w + x, ch, y' * w + x', ch', c);
    DigitsUnique(y, x, y', x', w);
  }

  /** One invocation: geometry, the read-only tensors, and the size of the output tensor. */
  datatype Conv = Conv(
    batches: nat, inH: nat, inW: nat, inC: nat,
    fH: nat, fW: nat, outC: nat,
    strideH: nat, strideW: nat, padH: nat, padW: nat,
    outH: nat, outW: nat,
    input: seq<real>, filter: seq<real>, bias: seq<real>)
  {
    /** The tensors have the sizes their shapes say. */
    ghost predicate Shaped() {
      && |input| == batches * (inH * inW * inC)
      && |filter| == outC * (fH * fW * inC)
      && |bias| == outC
    }

    /** Input sample (NHWC). */
    function X(b: int, y: int, x: int, ic: int): real {
      var i := Flat(b, y, x, ic, inH, inW, inC);
      if 0 <= i < |input| then input[i] else 0.0
    }

    /** Filter tap (OHWI). */
    function W(oc: int, fy: int, fx: int, ic: int): real {
      var i := Flat(oc, fy, fx, ic, fH, fW, inC);
      if 0 <= i < |filter| then filter[i] else 0.0
    }

    function Bias(oc: int): real { if 0 <= oc < |bias| then bias[oc] else 0.0 }

    /** Output row (column) that an input row (column) reaches through a filter row (column). */
    function TargetY(iy: int, fy: int): int { iy * strideH - padH + fy }

    function TargetX(ix: int, fx: int): int { ix * strideW - padW + fx }

    function Cell(b: int, y: int, x: int, oc: int): int { Flat(b, y, x, oc, outH, outW, outC) }

    predicate IsCell(b: int, y: int, x: int, oc: int) {
      0 <= b < batches && InBox(y, x, oc, outH, outW, outC)
    }

    // ----- The gather specification -----

    /** What one input sample and one filter tap contribute to one output cell. */
    function Term(b: int, iy: int, ix: int, fy: int, fx: int, ic: int, y: int, x: int, oc: int): real {
      if TargetY(iy, fy) == y && TargetX(ix, fx) == x then X(b, iy, ix, ic) * W(oc, fy, fx, ic) else 0.0
    }

    function PerChannel(b: int, iy: int, ix: int, fy: int, fx: int, y: int, x: int, oc: int): int -> real {
      ic => Term(b, iy, ix, fy, fx, ic, y, x, oc)
    }

    function PerFx(b: int, iy: int, ix: int, fy: int, y: int, x: int, oc: int): int -> real {
      fx => Sum(inC, PerChannel(b, iy, ix, fy, fx, y, x, oc))
    }

    function PerFy(b: int, iy: int, ix: int, y: int, x: int, oc: int): int -> real {
      fy => Sum(fW, PerFx(b, iy, ix, fy, y, x, oc))
    }

    function PerIx(b: int, iy: int, y: int, x: int, oc: int): int -> real {
      ix => Sum(fH, PerFy(b, iy, ix, y, x, oc))
    }

    function PerIy(b: int, y: int, x: int, oc: int): int -> real {
      iy => Sum(inW, PerIx(b, iy, y, x, oc))
    }

    /** Everything the input contributes to one output cell, over all five scatter indices. */
    function Gathered(b: int, y: int, x: int, oc: int): real {
      Sum(inH, PerIy(b, y, x, oc))
    }

    // The same sums cut short, as images of the output plane: the states the scatter loops pass through.

    function UpToIc(b: int, iy: int, ix: int, fy: int, fx: int, n: nat): (int, int, int) -> real {
      (y, x, oc) => Sum(n, PerChannel(b, iy, ix, fy, fx, y, x, oc))
    }

    function UpToFx(b: int, iy: int, ix: int, fy: int, n: nat): (int, int, int) -> real {
      (y, x, oc) => Sum(n, PerFx(b, iy, ix, fy, y, x, oc))
    }

    function UpToFy(b: int, iy: int, ix: int, n: nat): (int, int, int) -> real {
      (y, x, oc) => Sum(n, PerFy(b, iy, ix, y, x, oc))
    }

    function UpToIx(b: int, iy: int, n: nat): (int, int, int) -> real {
      (y, x, oc) => Sum(n, PerIx(b, iy, y, x, oc))
    }

    function UpToIy(b: int, n: nat): (int, int, int) -> real {
      (y, x, oc) => Sum(n, PerIy(b, y, x, oc))
    }
  }

  // ----- Accumulating images into the flat output -----

  predicate CellInRange(k: Conv, b: int, y: int, x: int, oc: int) {
    0 <= k.Cell(b, y, x, oc) < k.batches * (k.outH * k.outW * k.outC)
  }

  lemma CellsInRange(k: Conv)
    ensures forall b, y, x, oc | k.IsCell(b, y, x, oc) :: CellInRange(k, b, y, x, oc)
  {
    forall b, y, x, oc | k.IsCell(b, y, x, oc)
      ensures CellInRange(k, b, y, x, oc)
    {
      FlatInRange(k.batches, b, y, x, oc, k.outH, k.outW, k.outC);
    }
  }

  /** The flat output went from `before` to `after` by adding `image` onto the plane of batch `b`. */
  ghost predicate Accumulated(k: Conv, before: seq<real>, after: seq<real>, b: int, image: (int, int, int) -> real) {
    && |before| == |after| == k.batches * (k.outH * k.outW * k.outC)
    && forall b', y, x, oc | k.IsCell(b', y, x, oc) ::
         CellInRange(k, b', y, x, oc)
         && after[k.Cell(b', y, x, oc)]
            == before[k.Cell(b', y, x, oc)] + if b' == b then image(y, x, oc) else 0.0
  }

  ghost predicate ZeroImage(k: Conv, image: (int, int, int) -> real) {
    forall y, x, oc | InBox(y, x, oc, k.outH, k.outW, k.outC) :: image(y, x, oc) == 0.0
  }

  ghost predicate SumImage(k: Conv, first: (int, int, int) -> real, second: (int, int, int) -> real,
        both: (int, int, int) -> real) {
    forall y, x, oc | InBox(y, x, oc, k.outH, k.outW, k.outC) :: both(y, x, oc) == first(y, x, oc) + second(y, x, oc)
  }

  lemma AccumulateNothing(k: Conv, s: seq<real>, b: int, image: (int, int, int) -> real)
    requires |s| == k.batches * (k.outH * k.outW * k.outC) && ZeroImage(k, image)
    ensures Accumulated(k, s, s, b, image)
  {
    CellsInRange(k);
  }

  lemma AccumulateTwice(k: Conv, s0: seq<real>, s1: seq<real>, s2: seq<real>, b: int,
                        first: (int, int, int) -> real, second: (int, int, int) -> real, both: (int, int, int) -> real)
    requires Accumulated(k, s0, s1, b, first) && Accumulated(k, s1, s2, b, second)
    requires SumImage(k, first, second, both)
    ensures Accumulated(k, s0, s2, b, both)
  {
  }

  /** Adding onto the contiguous channels of one pixel touches that pixel's cells and no other. */
  lemma AccumulatePixel(k: Conv, before: seq<real>, after: seq<real>, b: nat, y: nat, x: nat,
        image: (int, int, int) -> real)
    requires |before| == |after| == k.batches * (k.outH * k.outW * k.outC)
    requires b < k.batches && y < k.outH && x < k.outW
    requires forall i | 0 <= i < |after| ::
               var oc := i - k.Cell(b, y, x, 0);
               after[i] == before[i] + if 0 <= oc < k.outC then image(y, x, oc) else 0.0
    requires forall y', x', oc | InBox(y', x', oc, k.outH, k.outW, k.outC) && (y' != y || x' != x) ::
        image(y', x', oc) == 0.0
    ensures Accumulated(k, before, after, b, image)
  {
    CellsInRange(k);
    forall b', y', x', oc' | k.IsCell(b', y', x', oc')
      ensures after[k.Cell(b', y', x', oc')]
              == before[k.Cell(b', y', x', oc')] + if b' == b then image(y', x', oc') else 0.0
    {
      assert CellInRange(k, b', y', x', oc');
      var oc := k.Cell(b', y', x', oc') - k.Cell(b, y, x, 0);
      if b' == b && y' == y && x' == x {
        assert oc == oc';
      } else if 0 <= oc < k.outC {
        FlatNeverAliases(b', y', x', oc', b, y, x, oc, k.outH, k.outW, k.outC);
      }
    }
  }

  // ----- The scatter loops, innermost first -----

  /** `out_pixel[out_c] += value * tap[out_c * tap_stride]` for every output channel. */
  method AddTaps(k: Conv, out: array<real>, outPixel: nat, fy: nat, fx: nat, ic: nat, value: real)
    requires k.Shaped() && outPixel + k.outC <= out.Length
    requires fy < k.fH && fx < k.fW && ic < k.inC
    modifies out
    ensures forall i | 0 <= i < out.Length ::
              out[i] == old(out[i]) + if 0 <= i - outPixel < k.outC then value * k.W(i - outPixel, fy, fx, ic) else 0.0
  {
    var tap := (fy * k.fW + fx) * k.inC + ic;
    var tapStride := k.fH * k.fW * k.inC;
    for oc := 0 to k.outC
      invariant forall i | 0 <= i < out.Length ::
                  out[i] == old(out[i]) + if 0 <= i - outPixel < oc then value * k.W(i - outPixel, fy, fx, ic) else 0.0
    {
      FlatInRange(k.outC, oc, fy, fx, ic, k.fH, k.fW, k.inC);
      assert tap + oc * tapStride == Flat(oc, fy, fx, ic, k.fH, k.fW, k.inC);
      out[outPixel + oc] := out[outPixel + oc] + value * k.filter[tap + oc * tapStride];
    }
  }

  lemma InputSample(k: Conv, b: nat, iy: nat, ix: nat, ic: nat, inPixel: int)
    requires k.Shaped() && b < k.batches && iy < k.inH && ix < k.inW && ic < k.inC
    requires inPixel == Flat(b, iy, ix, 0, k.inH, k.inW, k.inC)
    ensures 0 <= inPixel + ic < |k.input| && k.input[inPixel + ic] == k.X(b, iy, ix, ic)
  {
    FlatInRange(k.batches, b, iy, ix, ic, k.inH, k.inW, k.inC);
  }

  /** One input pixel through one filter position: all input channels, zero samples skipped. */
  method AddInputPixel(k: Conv, out: array<real>, b: nat, iy: nat, ix: nat, fy: nat, fx: nat)
    requires k.Shaped() && out.Length == k.batches * (k.outH * k.outW * k.outC)
    requires b < k.batches && iy < k.inH && ix < k.inW && fy < k.fH && fx < k.fW
    requires 0 <= k.TargetY(iy, fy) < k.outH && 0 <= k.TargetX(ix, fx) < k.outW
    modifies out
    ensures Accumulated(k, old(out[..]), out[..], b, k.UpToIc(b, iy, ix, fy, fx, k.inC))
  {
    var y, x := k.TargetY(iy, fy), k.TargetX(ix, fx);
    var outPixel := k.Cell(b, y, x, 0);
    var inPixel := Flat(b, iy, ix, 0, k.inH, k.inW, k.inC);
    PixelFits(k, b, y, x);
    for ic := 0 to k.inC
      invariant forall i | 0 <= i < out.Length ::
                  out[i] == old(out[i]) + if 0 <= i - outPixel < k.outC
                      then k.UpToIc(b, iy, ix, fy, fx, ic)(y, x, i - outPixel) else 0.0
    {
      InputSample(k, b, iy, ix, ic, inPixel);
      var value := k.input[inPixel + ic];
      ghost var before := out[..];
      if value != 0.0 {
        AddTaps(k, out, outPixel, fy, fx, ic, value);
      }
      forall i | 0 <= i < out.Length
        ensures out[i] == before[i] + if 0 <= i - outPixel < k.outC then value * k.W(i - outPixel, fy, fx, ic) else 0.0
      {
      }
    }
    OffTargetIsZero(k, b, iy, ix, fy, fx, k.inC);
    AccumulatePixel(k, old(out[..]), out[..], b, y, x, k.UpToIc(b, iy, ix, fy, fx, k.inC));
  }

  lemma PixelFits(k: Conv, b: nat, y: nat, x: nat)
    requires b < k.batches && y < k.outH && x < k.outW
    ensures 0 <= k.Cell(b, y, x, 0) && k.Cell(b, y, x, 0) + k.outC <= k.batches * (k.outH * k.outW * k.outC)
  {
    if k.outC > 0 {
      FlatInRange(k.batches, b, y, x, k.outC - 1, k.outH, k.outW, k.outC);
      FlatInRange(k.batches, b, y, x, 0, k.outH, k.outW, k.outC);
    }
  }

  /** A filter position contributes nothing to pixels other than its target. */
  lemma OffTargetIsZero(k: Conv, b: int, iy: int, ix: int, fy: int, fx: int, n: nat)
    ensures forall y, x, oc | y != k.TargetY(iy, fy) || x != k.TargetX(ix, fx) ::
              k.UpToIc(b, iy, ix, fy, fx, n)(y, x, oc) == 0.0
  {
    forall y, x, oc | y != k.TargetY(iy, fy) || x != k.TargetX(ix, fx)
      ensures k.UpToIc(b, iy, ix, fy, fx, n)(y, x, oc) == 0.0
    {
      SumZero(n, k.PerChannel(b, iy, ix, fy, fx, y, x, oc));
    }
  }

  /** One input pixel through one filter row; columns that land outside the output are skipped. */
  method AddFilterRow(k: Conv, out: array<real>, b: nat, iy: nat, ix: nat, fy: nat)
    requires k.Shaped() && out.Length == k.batches * (k.outH * k.outW * k.outC)
    requires b < k.batches && iy < k.inH && ix < k.inW && fy < k.fH
    requires 0 <= k.TargetY(iy, fy) < k.outH
    modifies out
    ensures Accumulated(k, old(out[..]), out[..], b, k.UpToFx(b, iy, ix, fy, k.fW))
  {
    AccumulateNothing(k, out[..], b, k.UpToFx(b, iy, ix, fy, 0));
    for fx := 0 to k.fW
      invariant Accumulated(k, old(out[..]), out[..], b, k.UpToFx(b, iy, ix, fy, fx))
    {
      ghost var before := out[..];
      var x := k.TargetX(ix, fx);
      if x < 0 || x >= k.outW {
        OffTargetIsZero(k, b, iy, ix, fy, fx, k.inC);
        AccumulateNothing(k, out[..], b, k.UpToIc(b, iy, ix, fy, fx, k.inC));
      } else {
        AddInputPixel(k, out, b, iy, ix, fy, fx);
      }
      AccumulateTwice(k, old(out[..]), before, out[..], b,
                      k.UpToFx(b, iy, ix, fy, fx), k.UpToIc(b, iy, ix, fy, fx, k.inC), k.UpToFx(b, iy, ix, fy, fx + 1));
    }
  }

  /** One input pixel through the whole filter; rows that land outside the output are skipped. */
  method AddFilter(k: Conv, out: array<real>, b: nat, iy: nat, ix: nat)
    requires k.Shaped() && out.Length == k.batches * (k.outH * k.outW * k.outC)
    requires b < k.batches && iy < k.inH && ix < k.inW
    modifies out
    ensures Accumulated(k, old(out[..]), out[..], b, k.UpToFy(b, iy, ix, k.fH))
  {
    AccumulateNothing(k, out[..], b, k.UpToFy(b, iy, ix, 0));
    for fy := 0 to k.fH
      invariant Accumulated(k, old(out[..]), out[..], b, k.UpToFy(b, iy, ix, fy))
    {
      ghost var before := out[..];
      var y := k.TargetY(iy, fy);
      if y < 0 || y >= k.outH {
        ClippedRowIsZero(k, b, iy, ix, fy);
        AccumulateNothing(k, out[..], b, k.UpToFx(b, iy, ix, fy, k.fW));
      } else {
        AddFilterRow(k, out, b, iy, ix, fy);
      }
      AccumulateTwice(k, old(out[..]), before, out[..], b,
                      k.UpToFy(b, iy, ix, fy), k.UpToFx(b, iy, ix, fy, k.fW), k.UpToFy(b, iy, ix, fy + 1));
    }
  }

  lemma ClippedRowIsZero(k: Conv, b: int, iy: int, ix: int, fy: int)
    requires k.TargetY(iy, fy) < 0 || k.TargetY(iy, fy) >= k.outH
    ensures ZeroImage(k, k.UpToFx(b, iy, ix, fy, k.fW))
  {
    forall y, x, oc | InBox(y, x, oc, k.outH, k.outW, k.outC)
      ensures k.UpToFx(b, iy, ix, fy, k.fW)(y, x, oc) == 0.0
    {
      forall fx | 0 <= fx < k.fW
        ensures k.PerFx(b, iy, ix, fy, y, x, oc)(fx) == 0.0
      {
        SumZero(k.inC, k.PerChannel(b, iy, ix, fy, fx, y, x, oc));
      }
      SumZero(k.fW, k.PerFx(b, iy, ix, fy, y, x, oc));
    }
  }

  method AddInputRow(k: Conv, out: array<real>, b: nat, iy: nat)
    requires k.Shaped() && out.Length == k.batches * (k.outH * k.outW * k.outC)
    requires b < k.batches && iy < k.inH
    modifies out
    ensures Accumulated(k, old(out[..]), out[..], b, k.UpToIx(b, iy, k.inW))
  {
    AccumulateNothing(k, out[..], b, k.UpToIx(b, iy, 0));
    for ix := 0 to k.inW
      invariant Accumulated(k, old(out[..]), out[..], b, k.UpToIx(b, iy, ix))
    {
      ghost var before := out[..];
      AddFilter(k, out, b, iy, ix);
      AccumulateTwice(k, old(out[..]), before, out[..], b,
                      k.UpToIx(b, iy, ix), k.UpToFy(b, iy, ix, k.fH), k.UpToIx(b, iy, ix + 1));
    }
  }

  method AddInputPlane(k: Conv, out: array<real>, b: nat)
    requires k.Shaped() && out.Length == k.batches * (k.outH * k.outW * k.outC)
    requires b < k.batches
    modifies out
    ensures Accumulated(k, old(out[..]), out[..], b, k.UpToIy(b, k.inH))
  {
    AccumulateNothing(k, out[..], b, k.UpToIy(b, 0));
    for iy := 0 to k.inH
      invariant Accumulated(k, old(out[..]), out[..], b, k.UpToIy(b, iy))
    {
      ghost var before := out[..];
      AddInputRow(k, out, b, iy);
      AccumulateTwice(k, old(out[..]), before, out[..], b,
                      k.UpToIy(b, iy), k.UpToIx(b, iy, k.inW), k.UpToIy(b, iy + 1));
    }
  }

  /** Bias seeded at an offset within a batch plane: pixels repeat the bias channels. */
  function SeedAt(k: Conv, offset: int): real {
    if k.outC > 0 then k.Bias(offset % k.outC) else 0.0
  }

  ghost predicate SeededUpTo(k: Conv, before: seq<real>, after: seq<real>, from: int, n: int) {
    && |before| == |after|
    && forall j | 0 <= j < |after| ::
         after[j] == if from <= j < from + n then SeedAt(k, j - from) else before[j]
  }

  lemma SeedMore(k: Conv, s0: seq<real>, s1: seq<real>, s2: seq<real>, from: int, n: nat)
    requires SeededUpTo(k, s0, s1, from, n) && |s2| == |s1|
    requires forall oc | 0 <= oc < k.outC :: SeedAt(k, n + oc) == k.Bias(oc)
    requires forall j | 0 <= j < |s2| ::
               s2[j] == if from + n <= j < from + n + k.outC then k.Bias(j - from - n) else s1[j]
    ensures SeededUpTo(k, s0, s2, from, n + k.outC)
  {
    forall j | 0 <= j < |s2| && from + n <= j < from + n + k.outC
      ensures s2[j] == SeedAt(k, j - from)
    {
      var oc := j - from - n;
      assert SeedAt(k, n + oc) == k.Bias(oc);
    }
  }

  /** `std::copy` of the bias onto one pixel. */
  method CopyBias(k: Conv, out: array<real>, at: nat)
    requires k.Shaped() && at + k.outC <= out.Length
    modifies out
    ensures forall j | 0 <= j < out.Length :: out[j] == if at <= j < at + k.outC then k.Bias(j - at) else old(out[j])
  {
    for oc := 0 to k.outC
      invariant forall j | 0 <= j < out.Length :: out[j] == if at <= j < at + oc then k.Bias(j - at) else old(out[j])
    {
      out[at + oc] := k.bias[oc];
    }
  }

  /** Where pixel `i` of batch `b` starts, and what its channels are seeded with. */
  lemma SeedSegment(k: Conv, b: nat, i: nat, start: int)
    requires b < k.batches && i < k.outH * k.outW && start == i * k.outC
    ensures 0 <= start && 0 <= b * (k.outH * k.outW * k.outC)
    ensures b * (k.outH * k.outW * k.outC) + start + k.outC <= k.batches * (k.outH * k.outW * k.outC)
    ensures start + k.outC == (i + 1) * k.outC
    ensures forall oc | 0 <= oc < k.outC :: SeedAt(k, start + oc) == k.Bias(oc)
  {
    var pixels := k.outH * k.outW;
    MulMono(0, i, k.outC);
    MulMono(i + 1, pixels, k.outC);
    MulDistrib(i, 1, k.outC);
    MulMono(0, b, pixels * k.outC);
    MulMono(b + 1, k.batches, pixels * k.outC);
    MulDistrib(b, 1, pixels * k.outC);
    forall oc | 0 <= oc < k.outC
      ensures SeedAt(k, start + oc) == k.Bias(oc)
    {
      RemainderUnique(i, oc, k.outC);
    }
  }

  /** Copies the bias over every pixel of one batch plane. */
  method SeedBias(k: Conv, out: array<real>, b: nat)
    requires k.Shaped() && out.Length == k.batches * (k.outH * k.outW * k.outC)
    requires b < k.batches
    modifies out
    ensures Seeded(k, old(out[..]), out[..], b)
  {
    var pixels := k.outH * k.outW;
    var outBatch := b * (k.outH * k.outW * k.outC);
    ghost var seeded := 0;
    for i := 0 to pixels
      invariant seeded == i * k.outC
      invariant SeededUpTo(k, old(out[..]), out[..], outBatch, seeded)
    {
      var start := i * k.outC;
      SeedSegment(k, b, i, start);
      ghost var before := out[..];
      CopyBias(k, out, outBatch + start);
      SeedMore(k, old(out[..]), before, out[..], outBatch, start);
      seeded := seeded + k.outC;
    }
    SeededPlane(k, old(out[..]), out[..], b);
  }

  /** Batch `b` of `after` holds the bias in every cell; all other batches are as in `before`. */
  ghost predicate Seeded(k: Conv, before: seq<real>, after: seq<real>, b: int) {
    && |before| == |after| == k.batches * (k.outH * k.outW * k.outC)
    && forall b', y, x, oc | k.IsCell(b', y, x, oc) ::
         CellInRange(k, b', y, x, oc)
         && after[k.Cell(b', y, x, oc)] == if b' == b then k.Bias(oc) else before[k.Cell(b', y, x, oc)]
  }

  /** Where a cell lies relative to the plane of batch `b`, and what it was seeded with. */
  lemma CellInPlane(k: Conv, b: nat, b': int, y: int, x: int, oc: int)
    requires k.IsCell(b', y, x, oc)
    ensures var plane := k.outH * k.outW * k.outC;
            var i := k.Cell(b', y, x, oc);
            && (b' == b <==> b * plane <= i < b * plane + plane)
            && (b' == b ==> SeedAt(k, i - b * plane) == k.Bias(oc))
  {
    var plane := k.outH * k.outW * k.outC;
    var offset := (y * k.outW + x) * k.outC + oc;
    FlatInRange(k.batches, b', y, x, oc, k.outH, k.outW, k.outC);
    RemainderUnique(y * k.outW + x, oc, k.outC);
    PlanesApart(b, b', plane, offset);
  }

  lemma PlanesApart(b: int, b': int, plane: int, offset: int)
    requires 0 <= offset < plane
    ensures b' == b <==> b * plane <= b' * plane + offset < b * plane + plane
  {
    if b' < b {
      MulMono(b' + 1, b, plane);
      MulDistrib(b', 1, plane);
    } else if b < b' {
      MulMono(b + 1, b', plane);
      MulDistrib(b, 1, plane);
    }
  }

  lemma SeededPlane(k: Conv, before: seq<real>, after: seq<real>, b: nat)
    requires |before| == |after| == k.batches * (k.outH * k.outW * k.outC)
    requires SeededUpTo(k, before, after, b * (k.outH * k.outW * k.outC), k.outH * k.outW * k.outC)
    ensures Seeded(k, before, after, b)
  {
    CellsInRange(k);
    forall b', y, x, oc | k.IsCell(b', y, x, oc)
      ensures after[k.Cell(b', y, x, oc)] == if b' == b then k.Bias(oc) else before[k.Cell(b', y, x, oc)]
    {
      assert CellInRange(k, b', y, x, oc);
      CellInPlane(k, b, b', y, x, oc);
    }
  }

  /** The cells of the first `n` batches hold the gather, bias included; the others are as in `before`. */
  ghost predicate Computed(k: Conv, before: seq<real>, after: seq<real>, n: int) {
    && |before| == |after| == k.batches * (k.outH * k.outW * k.outC)
    && forall b, y, x, oc | k.IsCell(b, y, x, oc) ::
         CellInRange(k, b, y, x, oc)
         && after[k.Cell(b, y, x, oc)]
            == if b < n then k.Bias(oc) + k.Gathered(b, y, x, oc) else before[k.Cell(b, y, x, oc)]
  }

  lemma ComputedNext(k: Conv, s0: seq<real>, s1: seq<real>, s2: seq<real>, s3: seq<real>, b: nat)
    requires Computed(k, s0, s1, b) && Seeded(k, s1, s2, b)
    requires Accumulated(k, s2, s3, b, k.UpToIy(b, k.inH))
    ensures Computed(k, s0, s3, b + 1)
  {
  }

  // ----- What the buffers hold for one nonzero sample -----

  /** Position in a tensor of extents (_, h, w, c), last index fastest. */
  function Index(n: int, y: int, x: int, ch: int, h: int, w: int, c: int): int {
    ((n * h + y) * w + x) * c + ch
  }

  lemma IndexIsFlat(n: int, y: int, x: int, ch: int, h: int, w: int, c: int)
    ensures Index(n, y, x, ch, h, w, c) == Flat(n, y, x, ch, h, w, c)
  {
    MulDistrib(n * h, y, w);
    MulDistrib(n * h * w, y * w + x, c);
    assert (n * h + y) * w + x == n * h * w + (y * w + x);
    assert n * h * w * c == n * (h * w * c);
  }

  /** The input tensor is `v` at one position and zero everywhere else. */
  ghost predicate IsImpulse(k: Conv, b: int, iy: int, ix: int, ic: int, v: real) {
    && 0 <= b < k.batches && InBox(iy, ix, ic, k.inH, k.inW, k.inC)
    && forall i | 0 <= i < |k.input| :: k.input[i] == if i == Index(b, iy, ix, ic, k.inH, k.inW, k.inC) then v else 0.0
  }

  /**
   The output tensor holds the bias everywhere, plus `v` times the filter, channel `ic`, laid down with its corner at
   the strided, padded position of the impulse and clipped to the output.
   */
  ghost predicate HoldsResponse(k: Conv, out: seq<real>, b: int, iy: int, ix: int, ic: int, v: real) {
    forall b', y, x, oc | 0 <= b' < k.batches && InBox(y, x, oc, k.outH, k.outW, k.outC) ::
      RespondsAt(k, out, b, iy, ix, ic, v, b', y, x, oc)
  }

  predicate RespondsAt(k: Conv, out: seq<real>, b: int, iy: int, ix: int, ic: int, v: real, b': int, y: int, x: int,
                       oc: int) {
    var fy, fx := y - (iy * k.strideH - k.padH), x - (ix * k.strideW - k.padW);
    var at, tap := Index(b', y, x, oc, k.outH, k.outW, k.outC), Index(oc, fy, fx, ic, k.fH, k.fW, k.inC);
    && 0 <= at < |out| && 0 <= oc < |k.bias|
    && if b' == b && 0 <= fy < k.fH && 0 <= fx < k.fW
       then 0 <= tap < |k.filter| && out[at] == k.bias[oc] + v * k.filter[tap]
       else out[at] == k.bias[oc]
  }

  /** Every cell is its bias: what an input of zeros leaves. */
  ghost predicate HoldsBias(k: Conv, out: seq<real>) {
    forall b, y, x, oc | 0 <= b < k.batches && InBox(y, x, oc, k.outH, k.outW, k.outC) ::
      var at := Index(b, y, x, oc, k.outH, k.outW, k.outC);
      0 <= at < |out| && 0 <= oc < |k.bias| && out[at] == k.bias[oc]
  }

  /** Every cell is its bias plus its gather. */
  ghost predicate Gathers(k: Conv, out: seq<real>) {
    forall b, y, x, oc | k.IsCell(b, y, x, oc) ::
      0 <= k.Cell(b, y, x, oc) < |out| && out[k.Cell(b, y, x, oc)] == k.Bias(oc) + k.Gathered(b, y, x, oc)
  }

  lemma {:induction false} ImpulseSample(k: Conv, b: int, iy: int, ix: int, ic: int, v: real, b': int, y: int, x: int,
                                         c: int)
    requires k.Shaped() && IsImpulse(k, b, iy, ix, ic, v)
    requires 0 <= b' < k.batches && InBox(y, x, c, k.inH, k.inW, k.inC)
    ensures k.X(b', y, x, c) == if b' == b && y == iy && x == ix && c == ic then v else 0.0
  {
    FlatInRange(k.batches, b', y, x, c, k.inH, k.inW, k.inC);
    IndexIsFlat(b, iy, ix, ic, k.inH, k.inW, k.inC);
    if Flat(b', y, x, c, k.inH, k.inW, k.inC) == Flat(b, iy, ix, ic, k.inH, k.inW, k.inC) {
      FlatNeverAliases(b', y, x, c, b, iy, ix, ic, k.inH, k.inW, k.inC);
    }
  }

  /** Away from the impulse every sum over the filter vanishes. */
  lemma {:induction false} QuietPixel(k: Conv, b': int, y': int, x': int, y: int, x: int, oc: int)
    requires forall c | 0 <= c < k.inC :: k.X(b', y', x', c) == 0.0
    ensures k.PerIx(b', y', y, x, oc)(x') == 0.0
  {
    forall fy | 0 <= fy < k.fH
      ensures k.PerFy(b', y', x', y, x, oc)(fy) == 0.0
    {
      forall fx | 0 <= fx < k.fW
        ensures k.PerFx(b', y', x', fy, y, x, oc)(fx) == 0.0
      {
        SumZero(k.inC, k.PerChannel(b', y', x', fy, fx, y, x, oc));
      }
      SumZero(k.fW, k.PerFx(b', y', x', fy, y, x, oc));
    }
    SumZero(k.fH, k.PerFy(b', y', x', y, x, oc));
  }

  /** A filter position that does not reach the cell adds nothing. */
  lemma {:induction false} MissingTap(k: Conv, b: int, iy: int, ix: int, gy: int, gx: int, y: int, x: int, oc: int)
    requires k.TargetY(iy, gy) != y || k.TargetX(ix, gx) != x
    ensures k.PerFx(b, iy, ix, gy, y, x, oc)(gx) == 0.0
  {
    SumZero(k.inC, k.PerChannel(b, iy, ix, gy, gx, y, x, oc));
  }

  lemma {:induction false} MissingRow(k: Conv, b: int, iy: int, ix: int, gy: int, y: int, x: int, oc: int)
    requires k.TargetY(iy, gy) != y
    ensures k.PerFy(b, iy, ix, y, x, oc)(gy) == 0.0
  {
    forall gx
      ensures k.PerFx(b, iy, ix, gy, y, x, oc)(gx) == 0.0
    {
      MissingTap(k, b, iy, ix, gy, gx, y, x, oc);
    }
    SumZero(k.fW, k.PerFx(b, iy, ix, gy, y, x, oc));
  }

  /** The one that does adds, of the impulse's pixel, the impulse. */
  lemma {:induction false} LoudTap(k: Conv, b: int, iy: int, ix: int, ic: int, gy: int, gx: int, y: int, x: int,
                                   oc: int)
    requires 0 <= ic < k.inC && k.TargetY(iy, gy) == y && k.TargetX(ix, gx) == x
    requires forall c | 0 <= c < k.inC && c != ic :: k.X(b, iy, ix, c) == 0.0
    ensures k.PerFx(b, iy, ix, gy, y, x, oc)(gx) == k.X(b, iy, ix, ic) * k.W(oc, gy, gx, ic)
  {
    var f := k.PerChannel(b, iy, ix, gy, gx, y, x, oc);
    forall c | 0 <= c < k.inC && c != ic
      ensures f(c) == 0.0
    {
      assert f(c) == k.Term(b, iy, ix, gy, gx, c, y, x, oc);
    }
    SumSingle(k.inC, ic, f);
    assert f(ic) == k.Term(b, iy, ix, gy, gx, ic, y, x, oc);
  }

  lemma {:induction false} LoudRow(k: Conv, b: int, iy: int, ix: int, ic: int, gy: int, gx: int, y: int, x: int,
                                   oc: int)
    requires 0 <= ic < k.inC && k.TargetY(iy, gy) == y && k.TargetX(ix, gx) == x
    requires forall c | 0 <= c < k.inC && c != ic :: k.X(b, iy, ix, c) == 0.0
    ensures k.PerFy(b, iy, ix, y, x, oc)(gy)
            == if 0 <= gx < k.fW then k.X(b, iy, ix, ic) * k.W(oc, gy, gx, ic) else 0.0
  {
    forall fx | fx != gx
      ensures k.PerFx(b, iy, ix, gy, y, x, oc)(fx) == 0.0
    {
      MissingTap(k, b, iy, ix, gy, fx, y, x, oc);
    }
    LoudTap(k, b, iy, ix, ic, gy, gx, y, x, oc);
    SumSingle(k.fW, gx, k.PerFx(b, iy, ix, gy, y, x, oc));
  }

  /** At the impulse only the tap that reaches the cell remains. */
  lemma {:induction false} LoudPixel(k: Conv, b: int, iy: int, ix: int, ic: int, gy: int, gx: int, y: int, x: int,
                                     oc: int)
    requires 0 <= ic < k.inC && k.TargetY(iy, gy) == y && k.TargetX(ix, gx) == x
    requires forall c | 0 <= c < k.inC && c != ic :: k.X(b, iy, ix, c) == 0.0
    ensures k.PerIx(b, iy, y, x, oc)(ix)
            == if 0 <= gy < k.fH && 0 <= gx < k.fW then k.X(b, iy, ix, ic) * k.W(oc, gy, gx, ic) else 0.0
  {
    forall fy | fy != gy
      ensures k.PerFy(b, iy, ix, y, x, oc)(fy) == 0.0
    {
      MissingRow(k, b, iy, ix, fy, y, x, oc);
    }
    LoudRow(k, b, iy, ix, ic, gy, gx, y, x, oc);
    SumSingle(k.fH, gy, k.PerFy(b, iy, ix, y, x, oc));
  }

  /** A batch of zeros gathers nothing anywhere. */
  lemma {:induction false} QuietBatch(k: Conv, b: int, y: int, x: int, oc: int)
    requires forall y', x', c | InBox(y', x', c, k.inH, k.inW, k.inC) :: k.X(b, y', x', c) == 0.0
    ensures k.Gathered(b, y, x, oc) == 0.0
  {
    forall y' | 0 <= y' < k.inH
      ensures k.PerIy(b, y, x, oc)(y') == 0.0
    {
      QuietLine(k, b, y', y, x, oc);
    }
    SumZero(k.inH, k.PerIy(b, y, x, oc));
  }

  lemma {:induction false} QuietLine(k: Conv, b: int, y': int, y: int, x: int, oc: int)
    requires forall x', c | 0 <= x' < k.inW && 0 <= c < k.inC :: k.X(b, y', x', c) == 0.0
    ensures k.PerIy(b, y, x, oc)(y') == 0.0
  {
    forall x' | 0 <= x' < k.inW
      ensures k.PerIx(b, y', y, x, oc)(x') == 0.0
    {
      QuietPixel(k, b, y', x', y, x, oc);
    }
    SumZero(k.inW, k.PerIx(b, y', y, x, oc));
  }

  /** In its own batch an impulse is gathered through the one tap that reaches the cell. */
  lemma {:induction false} LoudBatch(k: Conv, b: int, iy: int, ix: int, ic: int, gy: int, gx: int, y: int, x: int,
                                     oc: int)
    requires InBox(iy, ix, ic, k.inH, k.inW, k.inC) && k.TargetY(iy, gy) == y && k.TargetX(ix, gx) == x
    requires forall y', x', c | InBox(y', x', c, k.inH, k.inW, k.inC) && !(y' == iy && x' == ix && c == ic) ::
               k.X(b, y', x', c) == 0.0
    ensures k.Gathered(b, y, x, oc)
            == if 0 <= gy < k.fH && 0 <= gx < k.fW then k.X(b, iy, ix, ic) * k.W(oc, gy, gx, ic) else 0.0
  {
    forall x' | 0 <= x' < k.inW && x' != ix
      ensures k.PerIx(b, iy, y, x, oc)(x') == 0.0
    {
      QuietPixel(k, b, iy, x', y, x, oc);
    }
    LoudPixel(k, b, iy, ix, ic, gy, gx, y, x, oc);
    SumSingle(k.inW, ix, k.PerIx(b, iy, y, x, oc));
    forall y' | 0 <= y' < k.inH && y' != iy
      ensures k.PerIy(b, y, x, oc)(y') == 0.0
    {
      QuietLine(k, b, y', y, x, oc);
    }
    SumSingle(k.inH, iy, k.PerIy(b, y, x, oc));
  }

  lemma {:induction false} GatheredImpulse(k: Conv, b: int, iy: int, ix: int, ic: int, v: real, b': int, y: int, x: int,
                                           oc: int)
    requires k.Shaped() && IsImpulse(k, b, iy, ix, ic, v) && 0 <= b' < k.batches
    ensures var fy, fx := y - (iy * k.strideH - k.padH), x - (ix * k.strideW - k.padW);
            k.Gathered(b', y, x, oc)
            == if b' == b && 0 <= fy < k.fH && 0 <= fx < k.fW then v * k.W(oc, fy, fx, ic) else 0.0
  {
    forall y', x', c | InBox(y', x', c, k.inH, k.inW, k.inC)
      ensures k.X(b', y', x', c) == if b' == b && y' == iy && x' == ix && c == ic then v else 0.0
    {
      ImpulseSample(k, b, iy, ix, ic, v, b', y', x', c);
    }
    if b' == b {
      var fy, fx := y - (iy * k.strideH - k.padH), x - (ix * k.strideW - k.padW);
      LoudBatch(k, b, iy, ix, ic, fy, fx, y, x, oc);
    } else {
      QuietBatch(k, b', y, x, oc);
    }
  }

  /** The impulse law: the whole layout of input, filter, bias and output, pinned on the flat tensors. */
  lemma {:induction false} ImpulseResponse(k: Conv, out: seq<real>, b: int, iy: int, ix: int, ic: int, v: real)
    requires k.Shaped() && Gathers(k, out) && IsImpulse(k, b, iy, ix, ic, v)
    ensures HoldsResponse(k, out, b, iy, ix, ic, v)
  {
    forall b', y, x, oc | 0 <= b' < k.batches && InBox(y, x, oc, k.outH, k.outW, k.outC)
      ensures RespondsAt(k, out, b, iy, ix, ic, v, b', y, x, oc)
    {
      assert k.IsCell(b', y, x, oc);
      IndexIsFlat(b', y, x, oc, k.outH, k.outW, k.outC);
      GatheredImpulse(k, b, iy, ix, ic, v, b', y, x, oc);
      var fy, fx := y - (iy * k.strideH - k.padH), x - (ix * k.strideW - k.padW);
      if b' == b && 0 <= fy < k.fH && 0 <= fx < k.fW {
        IndexIsFlat(oc, fy, fx, ic, k.fH, k.fW, k.inC);
        FlatInRange(k.outC, oc, fy, fx, ic, k.fH, k.fW, k.inC);
      }
    }
  }

  lemma {:induction false} ZeroResponse(k: Conv, out: seq<real>)
    requires k.Shaped() && Gathers(k, out) && forall i | 0 <= i < |k.input| :: k.input[i] == 0.0
    ensures HoldsBias(k, out)
  {
    forall b, y, x, oc | 0 <= b < k.batches && InBox(y, x, oc, k.outH, k.outW, k.outC)
      ensures var at := Index(b, y, x, oc, k.outH, k.outW, k.outC);
              0 <= at < |out| && 0 <= oc < |k.bias| && out[at] == k.bias[oc]
    {
      assert k.IsCell(b, y, x, oc);
      IndexIsFlat(b, y, x, oc, k.outH, k.outW, k.outC);
      QuietBatch(k, b, y, x, oc);
    }
  }

  /** The impulse law for every impulse, and the law of zeros. */
  ghost predicate RespondsToImpulses(k: Conv, out: seq<real>) {
    && ((forall i | 0 <= i < |k.input| :: k.input[i] == 0.0) ==> HoldsBias(k, out))
    && forall b, iy, ix, ic, v | IsImpulse(k, b, iy, ix, ic, v) :: HoldsResponse(k, out, b, iy, ix, ic, v)
  }

  lemma {:induction false} EveryImpulse(k: Conv, out: seq<real>)
    requires k.Shaped() && Gathers(k, out)
    ensures RespondsToImpulses(k, out)
  {
    if forall i | 0 <= i < |k.input| :: k.input[i] == 0.0 {
      ZeroResponse(k, out);
    }
    forall b, iy, ix, ic, v | IsImpulse(k, b, iy, ix, ic, v)
      ensures HoldsResponse(k, out, b, iy, ix, ic, v)
    {
      ImpulseResponse(k, out, b, iy, ix, ic, v);
    }
  }

  /** `Invoke`: whatever the output buffer held, every cell ends as its bias plus the gather sum. */
  method Invoke(k: Conv, out: array<real>)
    requires k.Shaped() && out.Length == k.batches * (k.outH * k.outW * k.outC)
    modifies out
    ensures forall b, y, x, oc | k.IsCell(b, y, x, oc) ::
              CellInRange(k, b, y, x, oc)
              && out[k.Cell(b, y, x, oc)] == k.Bias(oc) + k.Gathered(b, y, x, oc)
    ensures RespondsToImpulses(k, out[..])
  {
    CellsInRange(k);
    for batch := 0 to k.batches
      invariant Computed(k, old(out[..]), out[..], batch)
    {
      ghost var before := out[..];
      SeedBias(k, out, batch);
      ghost var seeded := out[..];
      AddInputPlane(k, out, batch);
      ComputedNext(k, old(out[..]), before, seeded, out[..], batch);
    }
    ghost var after := out[..];
    assert Computed(k, old(out[..]), after, k.batches);
    EveryImpulse(k, after);
  }

  /** The geometry `Prepare` and `Invoke` derive from the operator's parameters and tensor shapes. */
  function Operator(padding: Padding, batches: nat, inH: nat, inW: nat, inC: nat, fH: nat, fW: nat, outC: nat,
                    strideH: nat, strideW: nat, input: seq<real>, filter: seq<real>, bias: seq<real>): (k: Conv)
    requires inH >= 1 && inW >= 1 && fH >= 1 && fW >= 1 && 1 <= strideH <= 64 && 1 <= strideW <= 64
    ensures k.strideH == strideH && k.strideW == strideW
    ensures k.inH == inH && k.inW == inW && k.fH == fH && k.fW == fW
    ensures forall iy, fy | 0 <= iy < inH && 0 <= fy < fH :: RowKept(k, padding, iy, fy)
    ensures forall ix, fx | 0 <= ix < inW && 0 <= fx < fW :: ColumnKept(k, padding, ix, fx)
  {
    OutputExtentMeaning(padding, inH, strideH, fH);
    OutputExtentMeaning(padding, inW, strideW, fW);
    var k := Conv(batches, inH, inW, inC, fH, fW, outC, strideH, strideW,
                  TotalPadding(padding, inH, strideH, fH) / 2, TotalPadding(padding, inW, strideW, fW) / 2,
                  OutputExtent(padding, inH, strideH, fH), OutputExtent(padding, inW, strideW, fW),
                  input, filter, bias);
    assert forall iy, fy | 0 <= iy < inH && 0 <= fy < fH :: RowKept(k, padding, iy, fy) by {
      forall iy, fy | 0 <= iy < inH && 0 <= fy < fH ensures RowKept(k, padding, iy, fy) {
        ClippingDropsPadding(padding, inH, strideH, fH, iy, fy);
      }
    }
    assert forall ix, fx | 0 <= ix < inW && 0 <= fx < fW :: ColumnKept(k, padding, ix, fx) by {
      forall ix, fx | 0 <= ix < inW && 0 <= fx < fW ensures ColumnKept(k, padding, ix, fx) {
        ClippingDropsPadding(padding, inW, strideW, fW, ix, fx);
      }
    }
    k
  }

  /** A filter row is dropped exactly when it falls in the padding, and never in VALID mode. */
  predicate RowKept(k: Conv, padding: Padding, iy: int, fy: int)
    requires k.strideH > 0
  {
    var pad := TotalPadding(padding, k.inH, k.strideH, k.fH);
    var row := iy * k.strideH + fy;
    var kept := 0 <= k.TargetY(iy, fy) < k.outH;
    (padding.Valid? ==> kept) && (kept <==> pad / 2 <= row < ScatterExtent(k.inH, k.strideH, k.fH) - (pad - pad / 2))
  }

  predicate ColumnKept(k: Conv, padding: Padding, ix: int, fx: int)
    requires k.strideW > 0
  {
    var pad := TotalPadding(padding, k.inW, k.strideW, k.fW);
    var column := ix * k.strideW + fx;
    var kept := 0 <= k.TargetX(ix, fx) < k.outW;
    (padding.Valid? ==> kept) && (kept <==> pad / 2 <= column < ScatterExtent(k.inW, k.strideW, k.fW) - (pad - pad / 2))
  }

  // ----- Superposition: with the impulse law, this determines every output -----

  /** `both` differs from `first` and `second` in its input only, which is the sum of theirs. */
  ghost predicate Superposed(first: Conv, second: Conv, both: Conv) {
    && second == first.(input := second.input) && both == first.(input := both.input)
    && |first.input| == |second.input| == |both.input|
    && forall i | 0 <= i < |both.input| :: both.input[i] == first.input[i] + second.input[i]
  }

  lemma {:induction false} SuperposedPixel(first: Conv, second: Conv, both: Conv, b: int, iy: int, ix: int, y: int,
                                           x: int, oc: int)
    requires Superposed(first, second, both)
    ensures both.PerIx(b, iy, y, x, oc)(ix) == first.PerIx(b, iy, y, x, oc)(ix) + second.PerIx(b, iy, y, x, oc)(ix)
  {
    forall fy
      ensures both.PerFy(b, iy, ix, y, x, oc)(fy)
              == first.PerFy(b, iy, ix, y, x, oc)(fy) + second.PerFy(b, iy, ix, y, x, oc)(fy)
    {
      forall fx
        ensures both.PerFx(b, iy, ix, fy, y, x, oc)(fx)
                == first.PerFx(b, iy, ix, fy, y, x, oc)(fx) + second.PerFx(b, iy, ix, fy, y, x, oc)(fx)
      {
        forall ic
          ensures both.Term(b, iy, ix, fy, fx, ic, y, x, oc)
                  == first.Term(b, iy, ix, fy, fx, ic, y, x, oc) + second.Term(b, iy, ix, fy, fx, ic, y, x, oc)
        {
          SuperposedTerm(first, second, both, b, iy, ix, fy, fx, ic, y, x, oc);
        }
        SumAdd(both.inC, first.PerChannel(b, iy, ix, fy, fx, y, x, oc), second.PerChannel(b, iy, ix, fy, fx, y, x, oc),
               both.PerChannel(b, iy, ix, fy, fx, y, x, oc));
      }
      SumAdd(both.fW, first.PerFx(b, iy, ix, fy, y, x, oc), second.PerFx(b, iy, ix, fy, y, x, oc),
             both.PerFx(b, iy, ix, fy, y, x, oc));
    }
    SumAdd(both.fH, first.PerFy(b, iy, ix, y, x, oc), second.PerFy(b, iy, ix, y, x, oc),
           both.PerFy(b, iy, ix, y, x, oc));
  }

  lemma SuperposedTerm(first: Conv, second: Conv, both: Conv, b: int, iy: int, ix: int, fy: int, fx: int, ic: int,
                       y: int, x: int, oc: int)
    requires Superposed(first, second, both)
    ensures both.Term(b, iy, ix, fy, fx, ic, y, x, oc)
            == first.Term(b, iy, ix, fy, fx, ic, y, x, oc) + second.Term(b, iy, ix, fy, fx, ic, y, x, oc)
  {
    var p, q, w := first.X(b, iy, ix, ic), second.X(b, iy, ix, ic), both.W(oc, fy, fx, ic);
    assert both.X(b, iy, ix, ic) == p + q;
    assert (p + q) * w == p * w + q * w;
  }

  /** The outputs for two inputs add up to the output for their sum; the bias counts once. */
  lemma {:induction false} Superposition(first: Conv, second: Conv, both: Conv, out1: seq<real>, out2: seq<real>,
                                         out: seq<real>)
    requires Superposed(first, second, both)
    requires Gathers(first, out1) && Gathers(second, out2) && Gathers(both, out)
    ensures forall b, y, x, oc | both.IsCell(b, y, x, oc) ::
              var at := both.Cell(b, y, x, oc);
              && 0 <= at < |out| && at < |out1| && at < |out2|
              && out[at] == out1[at] + out2[at] - both.Bias(oc)
  {
    forall b, y, x, oc | both.IsCell(b, y, x, oc)
      ensures var at := both.Cell(b, y, x, oc);
              && 0 <= at < |out| && at < |out1| && at < |out2|
              && out[at] == out1[at] + out2[at] - both.Bias(oc)
    {
      assert first.IsCell(b, y, x, oc) && second.IsCell(b, y, x, oc);
      forall iy
        ensures both.PerIy(b, y, x, oc)(iy) == first.PerIy(b, y, x, oc)(iy) + second.PerIy(b, y, x, oc)(iy)
      {
        forall ix
          ensures both.PerIx(b, iy, y, x, oc)(ix)
                  == first.PerIx(b, iy, y, x, oc)(ix) + second.PerIx(b, iy, y, x, oc)(ix)
        {
          SuperposedPixel(first, second, both, b, iy, ix, y, x, oc);
        }
        SumAdd(both.inW, first.PerIx(b, iy, y, x, oc), second.PerIx(b, iy, y, x, oc), both.PerIx(b, iy, y, x, oc));
      }
      SumAdd(both.inH, first.PerIy(b, y, x, oc), second.PerIy(b, y, x, oc), both.PerIy(b, y, x, oc));
    }
  }
}

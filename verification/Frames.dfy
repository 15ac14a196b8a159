/**
 What the desktop compositor does to a frame on its way in and out: target size, plane sampling and colour
 conversion. Scaling factors are exact rationals.
 */
module Frames {
  import opened Arith
  import opened Pixels
  import opened Raster

  // ----- Target size -----

  const PROCESSING_LONG_SIDE := 1280

  function Even(v: int): int { TruncDiv(v, 2) * 2 }

  function TargetSize(srcW: nat, srcH: nat, cap: int): (int, int) {
    var longSide := Max(srcW, srcH);
    if cap <= 0 || longSide <= cap then (Even(srcW), Even(srcH))
    else (Even(srcW * cap / longSide), Even(srcH * cap / longSide))
  }

  lemma ScaledAtMost(v: nat, cap: nat, longSide: nat)
    requires 0 < longSide && v <= longSide && cap < longSide
    ensures 0 <= v * cap / longSide <= v && v * cap / longSide <= cap
    ensures v == longSide ==> v * cap / longSide == cap
  {
    MulMono(0, v, cap);
    MulMono(v, longSide, cap);
    MulMono(cap, longSide, v);
    QuotientBounds(v * cap, longSide, 0, v);
    QuotientBounds(v * cap, longSide, 0, cap);
    if v == longSide {
      QuotientBounds(v * cap, longSide, cap, cap);
    }
  }

  lemma EvenMeaning(v: nat)
    ensures Even(v) % 2 == 0 && v - 1 <= Even(v) <= v
  {
  }

  /** Both target sides are even, never larger than the source, and capped; a scaled frame meets the cap exactly. */
  lemma TargetSizeMeaning(srcW: nat, srcH: nat)
    ensures var (w, h) := TargetSize(srcW, srcH, PROCESSING_LONG_SIDE);
            && w % 2 == 0 && h % 2 == 0 && 0 <= w <= srcW && 0 <= h <= srcH
            && Max(w, h) <= PROCESSING_LONG_SIDE
            && (Max(srcW, srcH) > PROCESSING_LONG_SIDE ==> Max(w, h) == PROCESSING_LONG_SIDE)
            && (Max(srcW, srcH) <= PROCESSING_LONG_SIDE ==> srcW - 1 <= w && srcH - 1 <= h)
  {
    var longSide := Max(srcW, srcH);
    if longSide > PROCESSING_LONG_SIDE {
      ScaledAtMost(srcW, PROCESSING_LONG_SIDE, longSide);
      ScaledAtMost(srcH, PROCESSING_LONG_SIDE, longSide);
      EvenMeaning(srcW * PROCESSING_LONG_SIDE / longSide);
      EvenMeaning(srcH * PROCESSING_LONG_SIDE / longSide);
    } else {
      EvenMeaning(srcW);
      EvenMeaning(srcH);
    }
  }

  /** Scaling keeps the aspect ratio: neither side is two short of the exact proportion, and none is over it. */
  lemma {:induction false} AspectKept(srcW: nat, srcH: nat)
    requires Max(srcW, srcH) > PROCESSING_LONG_SIDE
    ensures var (w, h) := TargetSize(srcW, srcH, PROCESSING_LONG_SIDE);
            var longSide := Max(srcW, srcH);
            && w * longSide <= srcW * PROCESSING_LONG_SIDE < (w + 2) * longSide
            && h * longSide <= srcH * PROCESSING_LONG_SIDE < (h + 2) * longSide
  {
    var longSide := Max(srcW, srcH);
    EvenPart(srcW * PROCESSING_LONG_SIDE, longSide);
    EvenPart(srcH * PROCESSING_LONG_SIDE, longSide);
  }

  lemma EvenPart(n: nat, d: nat)
    requires d > 0
    ensures Even(n / d) * d <= n < (Even(n / d) + 2) * d
  {
    var q := n / d;
    assert n == q * d + n % d;
    EvenMeaning(q);
    MulMono(Even(q), q, d);
    MulMono(q + 1, Even(q) + 2, d);
    MulDistrib(q, 1, d);
  }

  /**
   The scale and the product are single precision in the source. Their rounding can cost a scaled frame its last even
   size, and no more: a long side whose computed value is within one part in a million of the cap is 1280 or 1278.
   */
  lemma RoundedLongSide(p: real)
    requires 1279.999 <= p <= 1280.001
    ensures Even(p.Floor) == PROCESSING_LONG_SIDE || Even(p.Floor) == PROCESSING_LONG_SIDE - 2
  {
  }

  // ----- Planes -----

  /** Nearest sampling of a strided plane of `sw` by `sh` samples. */
  function PlaneAt(src: seq<Byte>, stride: nat, sw: nat, sh: nat, dw: nat, dh: nat): (int, int) -> Byte {
    (y, x) =>
      if dw > 0 && dh > 0 && 0 <= At(stride, y * sh / dh, x * sw / dw) < |src|
      then src[At(stride, y * sh / dh, x * sw / dw)]
      else 0
  }

  /** The plane covers `sh` rows of `sw` samples at the given stride. */
  predicate PlaneHolds(src: seq<Byte>, stride: nat, sw: nat, sh: nat) {
    sw <= stride && (sw > 0 && sh > 0 ==> (sh - 1) * stride + sw <= |src|)
  }

  lemma PlaneReadInBounds(src: seq<Byte>, stride: nat, sw: nat, sh: nat, dw: nat, dh: nat, y: nat, x: nat)
    requires PlaneHolds(src, stride, sw, sh) && 0 < sw && 0 < sh && y < dh && x < dw
    ensures 0 <= y * sh / dh < sh && 0 <= x * sw / dw < sw
    ensures 0 <= At(stride, y * sh / dh, x * sw / dw) < |src|
  {
    ScaledIndexInRange(y, sh, dh);
    ScaledIndexInRange(x, sw, dw);
    MulMono(0, y * sh / dh, stride);
    MulMono(y * sh / dh, sh - 1, stride);
  }

  /** Which sample of the plane a position shows: the one of whose part of the frame it starts in. */
  lemma PlaneCell(src: seq<Byte>, stride: nat, sw: nat, sh: nat, dw: nat, dh: nat, y: int, x: int, sy: int, sx: int)
    requires PlaneHolds(src, stride, sw, sh) && StartsIn(y, dh, sy, sh) && StartsIn(x, dw, sx, sw)
    ensures 0 <= y * dw + x < dw * dh && 0 <= sy * stride + sx < |src|
    ensures Draw(dw, dh, PlaneAt(src, stride, sw, sh, dw, dh))[y * dw + x] == src[sy * stride + sx]
  {
    QuotientIs(y * sh, dh, sy);
    QuotientIs(x * sw, dw, sx);
    PlaneReadInBounds(src, stride, sw, sh, dw, dh, y, x);
    DrawAt(dw, dh, PlaneAt(src, stride, sw, sh, dw, dh), y, x);
  }

  /** Every read is in bounds as soon as the stride is at least the plane's width. */
  method SamplePlane(src: seq<Byte>, stride: nat, sw: nat, sh: nat, dw: nat, dh: nat) returns (dst: array<Byte>)
    requires PlaneHolds(src, stride, sw, sh) && 0 < sw && 0 < sh
    ensures fresh(dst) && dst[..] == Draw(dw, dh, PlaneAt(src, stride, sw, sh, dw, dh))
  {
    ghost var f := PlaneAt(src, stride, sw, sh, dw, dh);
    dst := new Byte[dw * dh];
    GridInRange(dw, dh);
    for y := 0 to dh
      invariant FilledTo(dst[..], dw, dh, f, y, 0)
    {
      var sy := y * sh / dh;
      for x := 0 to dw
        invariant FilledTo(dst[..], dw, dh, f, y, x)
      {
        var sx := x * sw / dw;
        PlaneReadInBounds(src, stride, sw, sh, dw, dh, y, x);
        assert 0 <= At(dw, y, x) < dw * dh;
        ghost var before := dst[..];
        dst[At(dw, y, x)] := src[At(stride, sy, sx)];
        FillNext(before, dst[..], dw, dh, f, y, x);
      }
      FillRowDone(dst[..], dw, dh, f, y);
    }
    FilledIsDrawn(dst[..], dw, dh, f);
  }

  // ----- Colour conversion -----

  function ClampByte(v: int): Byte { Clamp(v, 0, 0xFF) }

  /** The three channels of a limited-range YUV sample; `>> 8` on a signed value rounds down. */
  function RedOf(yv: Byte, vv: Byte): int { (298 * (yv - 16) + 409 * (vv - 128) + 128) / 256 }

  function GreenOf(yv: Byte, uv: Byte, vv: Byte): int {
    (298 * (yv - 16) - 100 * (uv - 128) - 208 * (vv - 128) + 128) / 256
  }

  function BlueOf(yv: Byte, uv: Byte): int { (298 * (yv - 16) + 516 * (uv - 128) + 128) / 256 }

  /** Limited-range YUV to an opaque pixel. */
  function YuvToArgb(yv: Byte, uv: Byte, vv: Byte): Word {
    Pack(ClampByte(RedOf(yv, vv)), ClampByte(GreenOf(yv, uv, vv)), ClampByte(BlueOf(yv, uv)))
  }

  function LumaOf(px: Word): Byte {
    ClampByte((66 * Get(px, Red) + 129 * Get(px, Green) + 25 * Get(px, Blue) + 128) / 256 + 16)
  }

  function ChromaUOf(px: Word): Byte {
    ClampByte((-38 * Get(px, Red) - 74 * Get(px, Green) + 112 * Get(px, Blue) + 128) / 256 + 128)
  }

  function ChromaVOf(px: Word): Byte {
    ClampByte((112 * Get(px, Red) - 94 * Get(px, Green) - 18 * Get(px, Blue) + 128) / 256 + 128)
  }

  /** On every pixel the conversion stays inside the video range by itself: its clamps never fire. */
  lemma OutputConversionNeverClamps(px: Word)
    ensures 16 <= LumaOf(px) <= 235 && 16 <= ChromaUOf(px) <= 240 && 16 <= ChromaVOf(px) <= 240
    ensures LumaOf(px) == (66 * Get(px, Red) + 129 * Get(px, Green) + 25 * Get(px, Blue) + 128) / 256 + 16
    ensures ChromaUOf(px) == (-38 * Get(px, Red) - 74 * Get(px, Green) + 112 * Get(px, Blue) + 128) / 256 + 128
    ensures ChromaVOf(px) == (112 * Get(px, Red) - 94 * Get(px, Green) - 18 * Get(px, Blue) + 128) / 256 + 128
  {
  }

  /** A grey sample in the video range survives the trip through ARGB and back to within one step. */
  lemma GreyRoundTrip(yv: Byte)
    requires 16 <= yv <= 235
    ensures var px := YuvToArgb(yv, 128, 128);
            && Get(px, Red) == Get(px, Green) == Get(px, Blue)
            && -1 <= LumaOf(px) - yv <= 1 && ChromaUOf(px) == 128 && ChromaVOf(px) == 128
  {
  }

  /** A scaled value whose error stays within three steps is within three steps once scaled down. */
  lemma ScaledBack(n: int, x: int, error: int)
    requires 256 * n == 65536 * x + error && -3 * 65536 <= error < 4 * 65536
    ensures -3 <= n / 256 - x <= 3
  {
  }

  /** The conversions there and back on one pixel, before clamping. */
  lemma ColourBack(r: Byte, g: Byte, b: Byte, yv: Byte, uv: Byte, vv: Byte)
    requires yv == (66 * r + 129 * g + 25 * b + 128) / 256 + 16
    requires uv == (-38 * r - 74 * g + 112 * b + 128) / 256 + 128
    requires vv == (112 * r - 94 * g - 18 * b + 128) / 256 + 128
    ensures -3 <= RedOf(yv, vv) - r <= 3 && -3 <= GreenOf(yv, uv, vv) - g <= 3 && -3 <= BlueOf(yv, uv) - b <= 3
  {
    var y, u, v := yv - 16, uv - 128, vv - 128;
    var ey := 66 * r + 129 * g + 25 * b + 128 - 256 * y;
    var eu := -38 * r - 74 * g + 112 * b + 128 - 256 * u;
    var ev := 112 * r - 94 * g - 18 * b + 128 - 256 * v;
    assert 0 <= ey < 256 && 0 <= eu < 256 && 0 <= ev < 256;
    ScaledBack(298 * y + 409 * v + 128, r, -60 * r - 4 * g + 88 * b + 123264 - 298 * ey - 409 * ev);
    ScaledBack(298 * y - 100 * u - 208 * v + 128, g,
        172 * r - 142 * g - 6 * b + 31488 - 298 * ey + 100 * eu + 208 * ev);
    ScaledBack(298 * y + 516 * u + 128, b, 60 * r + 258 * g - 294 * b + 136960 - 298 * ey - 516 * eu);
  }

  /** Packing clamped channels brings none further from its byte. */
  lemma PackedNear(r: int, g: int, b: int, px: Word, c: Channel)
    requires -3 <= r - Get(px, Red) <= 3 && -3 <= g - Get(px, Green) <= 3 && -3 <= b - Get(px, Blue) <= 3
    ensures -3 <= Get(Pack(ClampByte(r), ClampByte(g), ClampByte(b)), c) - Get(px, c) <= 3
  {
  }

  /** Every colour survives conversion to video range and back to within three steps a channel. */
  lemma ColourRoundTrip(px: Word, c: Channel)
    ensures -3 <= Get(YuvToArgb(LumaOf(px), ChromaUOf(px), ChromaVOf(px)), c) - Get(px, c) <= 3
  {
    var yv, uv, vv := LumaOf(px), ChromaUOf(px), ChromaVOf(px);
    OutputConversionNeverClamps(px);
    ColourBack(Get(px, Red), Get(px, Green), Get(px, Blue), yv, uv, vv);
    PackedNear(RedOf(yv, vv), GreenOf(yv, uv, vv), BlueOf(yv, uv), px, c);
  }

  function ArgbAt(ys: seq<Byte>, us: seq<Byte>, vs: seq<Byte>, w: nat): (int, int) -> Word {
    (y, x) =>
      if 0 <= At(w, y, x) < |ys| && 0 <= At(w / 2, y / 2, x / 2) < |us| && 0 <= At(w / 2, y / 2, x / 2) < |vs|
      then YuvToArgb(ys[At(w, y, x)], us[At(w / 2, y / 2, x / 2)], vs[At(w / 2, y / 2, x / 2)])
      else 0
  }

  /** The three planes of an even-sized frame. */
  ghost predicate IsI420(ys: seq<Byte>, us: seq<Byte>, vs: seq<Byte>, w: nat, h: nat) {
    w % 2 == 0 && h % 2 == 0 && |ys| == w * h && |us| == |vs| == (w / 2) * (h / 2)
  }

  lemma HalfCell(w: nat, h: nat, y: nat, x: nat)
    requires w % 2 == 0 && h % 2 == 0 && y < h && x < w
    ensures 0 <= At(w / 2, y / 2, x / 2) < (w / 2) * (h / 2)
  {
    RowMajorInRange(y / 2, x / 2, h / 2, w / 2);
  }

  method I420ToArgb(ys: seq<Byte>, us: seq<Byte>, vs: seq<Byte>, w: nat, h: nat) returns (argb: array<Word>)
    requires IsI420(ys, us, vs, w, h)
    ensures fresh(argb) && argb[..] == Draw(w, h, ArgbAt(ys, us, vs, w))
    ensures ConvertsPlanes(ys, us, vs, w, h, argb[..])
  {
    ghost var f := ArgbAt(ys, us, vs, w);
    argb := new Word[w * h];
    GridInRange(w, h);
    for y := 0 to h
      invariant FilledTo(argb[..], w, h, f, y, 0)
    {
      for x := 0 to w
        invariant FilledTo(argb[..], w, h, f, y, x)
      {
        assert 0 <= At(w, y, x) < w * h;
        HalfCell(w, h, y, x);
        var chroma := At(w / 2, y / 2, x / 2);
        ghost var before := argb[..];
        argb[At(w, y, x)] := YuvToArgb(ys[At(w, y, x)], us[chroma], vs[chroma]);
        FillNext(before, argb[..], w, h, f, y, x);
      }
      FillRowDone(argb[..], w, h, f, y);
    }
    FilledIsDrawn(argb[..], w, h, f);
    DrawnConverts(ys, us, vs, w, h);
  }

  /** Every pixel is made of the luma sample at its position and of the chroma samples of its 2x2 block. */
  ghost predicate ConvertsPlanes(ys: seq<Byte>, us: seq<Byte>, vs: seq<Byte>, w: nat, h: nat, argb: seq<Word>) {
    forall y, x | 0 <= y < h && 0 <= x < w :: ConvertsPixel(ys, us, vs, w, argb, y, x)
  }

  predicate ConvertsPixel(ys: seq<Byte>, us: seq<Byte>, vs: seq<Byte>, w: nat, argb: seq<Word>, y: int, x: int) {
    var i, j := y * w + x, y / 2 * (w / 2) + x / 2;
    && 0 <= i < |argb| && i < |ys| && 0 <= j < |us| && j < |vs|
    && argb[i] == YuvToArgb(ys[i], us[j], vs[j])
  }

  lemma DrawnPixel(ys: seq<Byte>, us: seq<Byte>, vs: seq<Byte>, w: nat, h: nat, y: int, x: int)
    requires IsI420(ys, us, vs, w, h) && 0 <= y < h && 0 <= x < w
    ensures ConvertsPixel(ys, us, vs, w, Draw(w, h, ArgbAt(ys, us, vs, w)), y, x)
  {
    RowMajorInRange(y, x, h, w);
    HalfCell(w, h, y, x);
    DrawAt(w, h, ArgbAt(ys, us, vs, w), y, x);
  }

  lemma DrawnConverts(ys: seq<Byte>, us: seq<Byte>, vs: seq<Byte>, w: nat, h: nat)
    requires IsI420(ys, us, vs, w, h)
    ensures ConvertsPlanes(ys, us, vs, w, h, Draw(w, h, ArgbAt(ys, us, vs, w)))
  {
    forall y, x | 0 <= y < h && 0 <= x < w
      ensures ConvertsPixel(ys, us, vs, w, Draw(w, h, ArgbAt(ys, us, vs, w)), y, x)
    {
      DrawnPixel(ys, us, vs, w, h, y, x);
    }
  }

  lemma Channels(px: Word, r: Byte, g: Byte, b: Byte)
    requires px == 0xFF00_0000 + 0x1_0000 * r + 0x100 * g + b
    ensures Get(px, Red) == r && Get(px, Green) == g && Get(px, Blue) == b
  {
    DivideTwice(px);
    LowByte(0xFF_0000 + 0x100 * r + g, b);
    LowByte(0xFF00 + r, g);
  }

  /** The primaries in video range: which plane is which on the way out. */
  lemma PrimariesOut()
    ensures LumaOf(0xFFFF_0000) == 82 && ChromaUOf(0xFFFF_0000) == 90 && ChromaVOf(0xFFFF_0000) == 240
    ensures LumaOf(0xFF00_FF00) == 144 && ChromaUOf(0xFF00_FF00) == 54 && ChromaVOf(0xFF00_FF00) == 34
    ensures LumaOf(0xFF00_00FF) == 41 && ChromaUOf(0xFF00_00FF) == 240 && ChromaVOf(0xFF00_00FF) == 110
  {
    Channels(0xFFFF_0000, 255, 0, 0);
    Channels(0xFF00_FF00, 0, 255, 0);
    Channels(0xFF00_00FF, 0, 0, 255);
    OutputConversionNeverClamps(0xFFFF_0000);
    OutputConversionNeverClamps(0xFF00_FF00);
    OutputConversionNeverClamps(0xFF00_00FF);
  }

  /** And on the way in: red from the V plane, blue from the U plane, and the two ends of the grey scale. */
  lemma PrimariesIn()
    ensures YuvToArgb(81, 90, 240) == 0xFFFF_0000 && YuvToArgb(41, 240, 110) == 0xFF00_00FF
    ensures YuvToArgb(235, 128, 128) == 0xFFFF_FFFF && YuvToArgb(16, 128, 128) == 0xFF00_0000
  {
  }

  function LumaAt(argb: seq<Word>, w: nat): (int, int) -> Byte {
    (y, x) => if 0 <= At(w, y, x) < |argb| then LumaOf(argb[At(w, y, x)]) else 0
  }

  function ChromaUAt(argb: seq<Word>, w: nat): (int, int) -> Byte {
    (y, x) => if 0 <= At(w, 2 * y, 2 * x) < |argb| then ChromaUOf(argb[At(w, 2 * y, 2 * x)]) else 0
  }

  function ChromaVAt(argb: seq<Word>, w: nat): (int, int) -> Byte {
    (y, x) => if 0 <= At(w, 2 * y, 2 * x) < |argb| then ChromaVOf(argb[At(w, 2 * y, 2 * x)]) else 0
  }

  /** The chroma loops visit every second row and column, so each chroma sample once, from its top-left pixel. */
  method ArgbToI420(argb: seq<Word>, w: nat, h: nat) returns (ys: array<Byte>, us: array<Byte>, vs: array<Byte>)
    requires w % 2 == 0 && h % 2 == 0 && |argb| == w * h
    ensures fresh(ys) && fresh(us) && fresh(vs)
    ensures ys[..] == Draw(w, h, LumaAt(argb, w))
    ensures us[..] == Draw(w / 2, h / 2, ChromaUAt(argb, w)) && vs[..] == Draw(w / 2, h / 2, ChromaVAt(argb, w))
    ensures forall y, x | 0 <= y < h && 0 <= x < w :: HoldsLuma(argb, ys[..], w, y, x)
    ensures forall cy, cx | 0 <= cy < h / 2 && 0 <= cx < w / 2 :: HoldsChroma(argb, us[..], vs[..], w, cy, cx)
  {
    ys := LumaPlane(argb, w, h);
    us, vs := ChromaPlanes(argb, w, h);
    forall y, x | 0 <= y < h && 0 <= x < w
      ensures HoldsLuma(argb, ys[..], w, y, x)
    {
      DrawAt(w, h, LumaAt(argb, w), y, x);
    }
    forall cy, cx | 0 <= cy < h / 2 && 0 <= cx < w / 2
      ensures HoldsChroma(argb, us[..], vs[..], w, cy, cx)
    {
      DrawnChroma(argb, w, h, cy, cx);
    }
  }

  /** The luma sample at (y, x) is that of the pixel there. */
  predicate HoldsLuma(argb: seq<Word>, ys: seq<Byte>, w: nat, y: int, x: int) {
    var i := y * w + x;
    0 <= i < |argb| && i < |ys| && ys[i] == LumaOf(argb[i])
  }

  /** The chroma samples at (cy, cx) are those of the top-left pixel of block (cy, cx). */
  predicate HoldsChroma(argb: seq<Word>, us: seq<Byte>, vs: seq<Byte>, w: nat, cy: int, cx: int) {
    var i, j := 2 * cy * w + 2 * cx, cy * (w / 2) + cx;
    && 0 <= i < |argb| && 0 <= j < |us| && j < |vs|
    && us[j] == ChromaUOf(argb[i]) && vs[j] == ChromaVOf(argb[i])
  }

  lemma DrawnChroma(argb: seq<Word>, w: nat, h: nat, cy: int, cx: int)
    requires w % 2 == 0 && h % 2 == 0 && |argb| == w * h && 0 <= cy < h / 2 && 0 <= cx < w / 2
    ensures HoldsChroma(argb, Draw(w / 2, h / 2, ChromaUAt(argb, w)), Draw(w / 2, h / 2, ChromaVAt(argb, w)), w, cy, cx)
  {
    RowMajorInRange(2 * cy, 2 * cx, h, w);
    DrawAt(w / 2, h / 2, ChromaUAt(argb, w), cy, cx);
    DrawAt(w / 2, h / 2, ChromaVAt(argb, w), cy, cx);
  }

  /** Whether every pixel equals the top-left pixel of its 2x2 block. */
  predicate BlockConstant(image: seq<Word>, w: nat, h: nat)
    requires |image| == w * h
  {
    forall y, x | 0 <= y < h && 0 <= x < w ::
      var block := 2 * (y / 2) * w + 2 * (x / 2);
      0 <= y * w + x < |image| && 0 <= block < |image| && image[y * w + x] == image[block]
  }

  /** The pixel of `back` at (y, x) is within three steps a channel of the one of `image` there. */
  predicate NearPixel(image: seq<Word>, back: seq<Word>, w: nat, y: int, x: int, c: Channel) {
    var i := y * w + x;
    0 <= i < |image| && i < |back| && -3 <= Get(back[i], c) - Get(image[i], c) <= 3
  }

  /** A frame whose 2x2 blocks are of one colour goes out and comes back as itself, every pixel at its own position. */
  method ThereAndBack(image: seq<Word>, w: nat, h: nat) returns (back: array<Word>)
    requires w % 2 == 0 && h % 2 == 0 && |image| == w * h && BlockConstant(image, w, h)
    ensures back.Length == w * h
    ensures forall y, x, c | 0 <= y < h && 0 <= x < w :: NearPixel(image, back[..], w, y, x, c)
  {
    var ys, us, vs := ArgbToI420(image, w, h);
    back := I420ToArgb(ys[..], us[..], vs[..], w, h);
    ghost var after := back[..];
    forall y, x, c | 0 <= y < h && 0 <= x < w
      ensures NearPixel(image, after, w, y, x, c)
    {
      assert ConvertsPixel(ys[..], us[..], vs[..], w, after, y, x);
      PixelComesBack(image, ys[..], us[..], vs[..], w, h, y, x);
      ColourRoundTrip(image[y * w + x], c);
    }
  }

  /** The planes of such a frame hold, where a pixel looks, its own luma and chroma. */
  lemma PixelComesBack(image: seq<Word>, ys: seq<Byte>, us: seq<Byte>, vs: seq<Byte>, w: nat, h: nat, y: int, x: int)
    requires w % 2 == 0 && h % 2 == 0 && |image| == w * h && BlockConstant(image, w, h)
    requires ys == Draw(w, h, LumaAt(image, w))
    requires us == Draw(w / 2, h / 2, ChromaUAt(image, w)) && vs == Draw(w / 2, h / 2, ChromaVAt(image, w))
    requires 0 <= y < h && 0 <= x < w
    ensures var i, j := y * w + x, y / 2 * (w / 2) + x / 2;
            && 0 <= i < |image| && i < |ys| && 0 <= j < |us| && j < |vs|
            && ys[i] == LumaOf(image[i]) && us[j] == ChromaUOf(image[i]) && vs[j] == ChromaVOf(image[i])
  {
    DrawAt(w, h, LumaAt(image, w), y, x);
    DrawAt(w / 2, h / 2, ChromaUAt(image, w), y / 2, x / 2);
    DrawAt(w / 2, h / 2, ChromaVAt(image, w), y / 2, x / 2);
  }

  method LumaPlane(argb: seq<Word>, w: nat, h: nat) returns (ys: array<Byte>)
    requires |argb| == w * h
    ensures fresh(ys) && ys[..] == Draw(w, h, LumaAt(argb, w))
  {
    ghost var f := LumaAt(argb, w);
    ys := new Byte[w * h];
    GridInRange(w, h);
    for y := 0 to h
      invariant FilledTo(ys[..], w, h, f, y, 0)
    {
      for x := 0 to w
        invariant FilledTo(ys[..], w, h, f, y, x)
      {
        assert 0 <= At(w, y, x) < w * h;
        ghost var before := ys[..];
        ys[At(w, y, x)] := LumaOf(argb[At(w, y, x)]);
        FillNext(before, ys[..], w, h, f, y, x);
      }
      FillRowDone(ys[..], w, h, f, y);
    }
    FilledIsDrawn(ys[..], w, h, f);
  }

  /** Both chroma samples of one 2x2 block. */
  method StoreChroma(px: Word, us: array<Byte>, vs: array<Byte>, cw: nat, ch: nat, cy: nat, cx: nat,
                     ghost fu: (int, int) -> Byte, ghost fv: (int, int) -> Byte)
    requires us != vs && cy < ch && cx < cw
    requires fu(cy, cx) == ChromaUOf(px) && fv(cy, cx) == ChromaVOf(px)
    requires FilledTo(us[..], cw, ch, fu, cy, cx) && FilledTo(vs[..], cw, ch, fv, cy, cx)
    modifies us, vs
    ensures FilledTo(us[..], cw, ch, fu, cy, cx + 1) && FilledTo(vs[..], cw, ch, fv, cy, cx + 1)
  {
    RowMajorInRange(cy, cx, ch, cw);
    ghost var beforeU, beforeV := us[..], vs[..];
    us[At(cw, cy, cx)] := ChromaUOf(px);
    vs[At(cw, cy, cx)] := ChromaVOf(px);
    FillNext(beforeU, us[..], cw, ch, fu, cy, cx);
    FillNext(beforeV, vs[..], cw, ch, fv, cy, cx);
  }

  /** An even row and column are the top-left corner of the block whose chroma they give. */
  lemma ChromaCell(argb: seq<Word>, w: nat, h: nat, y: nat, x: nat)
    requires w % 2 == 0 && h % 2 == 0 && |argb| == w * h && y < h && x < w && y % 2 == 0 && x % 2 == 0
    ensures y / 2 < h / 2 && x / 2 < w / 2 && x + 2 <= w && (x + 2) / 2 == x / 2 + 1
    ensures 0 <= At(w, y, x) < |argb|
    ensures ChromaUAt(argb, w)(y / 2, x / 2) == ChromaUOf(argb[At(w, y, x)])
    ensures ChromaVAt(argb, w)(y / 2, x / 2) == ChromaVOf(argb[At(w, y, x)])
  {
    RowMajorInRange(y, x, h, w);
    assert 2 * (y / 2) == y && 2 * (x / 2) == x;
  }

  /** Of the positions with even row and column, exactly one stores a given chroma sample. */
  lemma ChromaStoredOnce(w: nat, h: nat, cy: nat, cx: nat)
    requires w % 2 == 0 && h % 2 == 0 && cy < h / 2 && cx < w / 2
    ensures 2 * cy < h && 2 * cx < w
    ensures forall y: nat, x: nat | y < h && x < w && y % 2 == 0 && x % 2 == 0 ::
              At(w / 2, y / 2, x / 2) == At(w / 2, cy, cx) <==> y == 2 * cy && x == 2 * cx
  {
    forall y: nat, x: nat | y < h && x < w && y % 2 == 0 && x % 2 == 0
      ensures At(w / 2, y / 2, x / 2) == At(w / 2, cy, cx) <==> y == 2 * cy && x == 2 * cx
    {
      if At(w / 2, y / 2, x / 2) == At(w / 2, cy, cx) {
        DigitsUnique(y / 2, x / 2, cy, cx, w / 2);
      }
    }
  }

  method ChromaRow(argb: seq<Word>, us: array<Byte>, vs: array<Byte>, w: nat, h: nat, y: nat)
    requires us != vs && w % 2 == 0 && h % 2 == 0 && |argb| == w * h && y < h && y % 2 == 0
    requires FilledTo(us[..], w / 2, h / 2, ChromaUAt(argb, w), y / 2, 0)
    requires FilledTo(vs[..], w / 2, h / 2, ChromaVAt(argb, w), y / 2, 0)
    modifies us, vs
    ensures FilledTo(us[..], w / 2, h / 2, ChromaUAt(argb, w), y / 2 + 1, 0)
    ensures FilledTo(vs[..], w / 2, h / 2, ChromaVAt(argb, w), y / 2 + 1, 0)
  {
    ghost var fu, fv := ChromaUAt(argb, w), ChromaVAt(argb, w);
    var cw, ch := w / 2, h / 2;
    var x := 0;
    while x < w
      invariant 0 <= x <= w && x % 2 == 0
      invariant FilledTo(us[..], cw, ch, fu, y / 2, x / 2) && FilledTo(vs[..], cw, ch, fv, y / 2, x / 2)
    {
      ChromaCell(argb, w, h, y, x);
      var px := argb[At(w, y, x)];
      StoreChroma(px, us, vs, cw, ch, y / 2, x / 2, fu, fv);
      x := x + 2;
    }
    FillRowDone(us[..], cw, ch, fu, y / 2);
    FillRowDone(vs[..], cw, ch, fv, y / 2);
  }

  method ChromaPlanes(argb: seq<Word>, w: nat, h: nat) returns (us: array<Byte>, vs: array<Byte>)
    requires w % 2 == 0 && h % 2 == 0 && |argb| == w * h
    ensures fresh(us) && fresh(vs)
    ensures us[..] == Draw(w / 2, h / 2, ChromaUAt(argb, w)) && vs[..] == Draw(w / 2, h / 2, ChromaVAt(argb, w))
  {
    var cw, ch := w / 2, h / 2;
    us, vs := new Byte[cw * ch], new Byte[cw * ch];
    var y := 0;
    while y < h
      invariant 0 <= y <= h && y % 2 == 0
      invariant FilledTo(us[..], cw, ch, ChromaUAt(argb, w), y / 2, 0)
      invariant FilledTo(vs[..], cw, ch, ChromaVAt(argb, w), y / 2, 0)
    {
      ChromaRow(argb, us, vs, w, h, y);
      y := y + 2;
    }
    FilledIsDrawn(us[..], cw, ch, ChromaUAt(argb, w));
    FilledIsDrawn(vs[..], cw, ch, ChromaVAt(argb, w));
  }
}

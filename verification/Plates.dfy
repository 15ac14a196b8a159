/**
 The images the compositor mixes: nearest and cover resampling, the blurred plate, the obscuring veil, and
 the blend. Scaling factors are exact rationals.
 */
module Plates {
  import opened Arith
  import opened Pixels
  import opened Raster
  import opened Erosion
  import opened BoxBlur
  import opened Frames

  // ----- Nearest resampling -----

  function NearestAt(src: seq<Word>, sw: nat, sh: nat, dw: nat, dh: nat): (int, int) -> Word {
    (y, x) =>
      if dw > 0 && dh > 0 && 0 <= At(sw, y * sh / dh, x * sw / dw) < |src|
      then src[At(sw, y * sh / dh, x * sw / dw)]
      else 0
  }

  function Nearest(src: seq<Word>, sw: nat, sh: nat, dw: nat, dh: nat): (dst: seq<Word>) {
    Draw(dw, dh, NearestAt(src, sw, sh, dw, dh))
  }

  /** Every resampled pixel is some source pixel. */
  lemma NearestReads(src: seq<Word>, sw: nat, sh: nat, dw: nat, dh: nat, y: nat, x: nat)
    requires |src| == sw * sh && 0 < sw && 0 < sh && y < dh && x < dw
    ensures 0 <= y * sh / dh < sh && 0 <= x * sw / dw < sw
    ensures 0 <= At(sw, y * sh / dh, x * sw / dw) < |src|
    ensures NearestAt(src, sw, sh, dw, dh)(y, x) == src[At(sw, y * sh / dh, x * sw / dw)]
  {
    ScaledIndexInRange(y, sh, dh);
    ScaledIndexInRange(x, sw, dw);
    RowMajorInRange(y * sh / dh, x * sw / dw, sh, sw);
  }

  /** Which source pixel a position shows: the one of whose part of the destination it starts in. */
  lemma NearestCell(src: seq<Word>, sw: nat, sh: nat, dw: nat, dh: nat, y: int, x: int, sy: int, sx: int)
    requires |src| == sw * sh && StartsIn(y, dh, sy, sh) && StartsIn(x, dw, sx, sw)
    ensures 0 <= y * dw + x < dw * dh && 0 <= sy * sw + sx < sw * sh
    ensures Nearest(src, sw, sh, dw, dh)[y * dw + x] == src[sy * sw + sx]
  {
    QuotientIs(y * sh, dh, sy);
    QuotientIs(x * sw, dw, sx);
    NearestReads(src, sw, sh, dw, dh, y, x);
    DrawAt(dw, dh, NearestAt(src, sw, sh, dw, dh), y, x);
  }

  method ResizeArgbNearest(src: seq<Word>, sw: nat, sh: nat, dw: nat, dh: nat) returns (dst: array<Word>)
    requires |src| == sw * sh && 0 < sw && 0 < sh
    ensures fresh(dst) && dst[..] == Nearest(src, sw, sh, dw, dh)
  {
    ghost var f := NearestAt(src, sw, sh, dw, dh);
    dst := new Word[dw * dh];
    GridInRange(dw, dh);
    for y := 0 to dh
      invariant FilledTo(dst[..], dw, dh, f, y, 0)
    {
      var sy := y * sh / dh;
      for x := 0 to dw
        invariant FilledTo(dst[..], dw, dh, f, y, x)
      {
        var sx := x * sw / dw;
        NearestReads(src, sw, sh, dw, dh, y, x);
        assert 0 <= At(dw, y, x) < dw * dh;
        ghost var before := dst[..];
        dst[At(dw, y, x)] := src[At(sw, sy, sx)];
        FillNext(before, dst[..], dw, dh, f, y, x);
      }
      FillRowDone(dst[..], dw, dh, f, y);
    }
    FilledIsDrawn(dst[..], dw, dh, f);
  }

  /** Resampling to the same size changes nothing. */
  lemma NearestSameSize(src: seq<Word>, w: nat, h: nat)
    requires |src| == w * h
    ensures Nearest(src, w, h, w, h) == src
  {
    forall i | 0 <= i < w * h
      ensures Nearest(src, w, h, w, h)[i] == src[i]
    {
      GridCovers(w, h, i);
      RemainderUnique(i / w, 0, h);
      RemainderUnique(i % w, 0, w);
    }
  }

  // ----- Cover resampling -----

  function CoverScale(sw: nat, sh: nat, dw: nat, dh: nat): real
    requires sw > 0 && sh > 0
  {
    var a, b := dw as real / sw as real, dh as real / sh as real;
    if a < b then b else a
  }

  /** Unclamped source coordinate of destination coordinate `i`: centred, then scaled down. */
  function CoverSource(i: int, s: nat, d: nat, scale: real): real
    requires scale > 0.0
  {
    (i as real + (s as real * scale - d as real) * 0.5) / scale
  }

  function CoverIndex(i: int, s: nat, d: nat, scale: real): int
    requires s > 0 && scale > 0.0
  {
    Clamp(Trunc(CoverSource(i, s, d, scale)), 0, s - 1)
  }

  /** The scale covers both axes, so no destination pixel falls outside the source: the clamps never fire. */
  lemma CoverNeverClamps(i: nat, s: nat, d: nat, scale: real)
    requires s > 0 && i < d && scale > 0.0 && s as real * scale >= d as real
    ensures 0.0 <= CoverSource(i, s, d, scale) < s as real
    ensures 0 <= CoverIndex(i, s, d, scale) < s && CoverIndex(i, s, d, scale) == Trunc(CoverSource(i, s, d, scale))
  {
    var n := i as real + (s as real * scale - d as real) * 0.5;
    assert 0.0 <= n < s as real * scale;
    QuotientRange(n, s as real, scale);
  }

  lemma QuotientRange(n: real, bound: real, scale: real)
    requires scale > 0.0 && 0.0 <= n < bound * scale
    ensures 0.0 <= n / scale < bound
  {
    var q := n / scale;
    assert n == q * scale;
  }

  lemma CoverScaleCovers(sw: nat, sh: nat, dw: nat, dh: nat)
    requires sw > 0 && sh > 0
    ensures sw as real * CoverScale(sw, sh, dw, dh) >= dw as real
    ensures sh as real * CoverScale(sw, sh, dw, dh) >= dh as real
    ensures dw > 0 || dh > 0 ==> CoverScale(sw, sh, dw, dh) > 0.0
  {
    DivideBack(dw as real, sw as real, CoverScale(sw, sh, dw, dh));
    DivideBack(dh as real, sh as real, CoverScale(sw, sh, dw, dh));
  }

  lemma DivideBack(d: real, s: real, scale: real)
    requires s > 0.0 && d >= 0.0 && scale >= d / s
    ensures s * scale >= d && (d > 0.0 ==> scale > 0.0)
  {
    assert s * (d / s) == d;
    assert s * scale >= s * (d / s);
  }

  function CoverAt(src: seq<Word>, sw: nat, sh: nat, dw: nat, dh: nat): (int, int) -> Word {
    (y, x) =>
      if sw > 0 && sh > 0 && CoverScale(sw, sh, dw, dh) > 0.0 then
        var scale := CoverScale(sw, sh, dw, dh);
        var i := At(sw, CoverIndex(y, sh, dh, scale), CoverIndex(x, sw, dw, scale));
        if 0 <= i < |src| then src[i] else 0
      else 0xFF00_0000
  }

  /** Aspect-fill of an image; black when there is no image. */
  function Cover(src: seq<Word>, sw: nat, sh: nat, dw: nat, dh: nat): (dst: seq<Word>) {
    Draw(dw, dh, CoverAt(src, sw, sh, dw, dh))
  }

  /** Every position shows some pixel of the image. */
  lemma CoverReads(src: seq<Word>, sw: nat, sh: nat, dw: nat, dh: nat, y: nat, x: nat)
    requires |src| == sw * sh && sw > 0 && sh > 0 && CoverScale(sw, sh, dw, dh) > 0.0
    ensures var scale := CoverScale(sw, sh, dw, dh);
            var i := At(sw, CoverIndex(y, sh, dh, scale), CoverIndex(x, sw, dw, scale));
            0 <= i < |src| && CoverAt(src, sw, sh, dw, dh)(y, x) == src[i]
  {
    var scale := CoverScale(sw, sh, dw, dh);
    RowMajorInRange(CoverIndex(y, sh, dh, scale), CoverIndex(x, sw, dw, scale), sh, sw);
  }

  method ResizeArgbCover(src: seq<Word>, sw: nat, sh: nat, dw: nat, dh: nat) returns (dst: seq<Word>)
    requires |src| == sw * sh
    ensures dst == Cover(src, sw, sh, dw, dh)
  {
    ghost var f := CoverAt(src, sw, sh, dw, dh);
    var buffer := new Word[dw * dh](_ => 0xFF00_0000);
    GridInRange(dw, dh);
    if sw <= 0 || sh <= 0 {
      FilledIsDrawn(buffer[..], dw, dh, f);
      return buffer[..];
    }
    CoverScaleCovers(sw, sh, dw, dh);
    var scale := CoverScale(sw, sh, dw, dh);
    for y := 0 to dh
      invariant FilledTo(buffer[..], dw, dh, f, y, 0)
    {
      for x := 0 to dw
        invariant FilledTo(buffer[..], dw, dh, f, y, x)
      {
        var sy, sx := CoverIndex(y, sh, dh, scale), CoverIndex(x, sw, dw, scale);
        CoverReads(src, sw, sh, dw, dh, y, x);
        assert 0 <= At(dw, y, x) < dw * dh;
        ghost var before := buffer[..];
        buffer[At(dw, y, x)] := src[At(sw, sy, sx)];
        FillNext(before, buffer[..], dw, dh, f, y, x);
      }
      FillRowDone(buffer[..], dw, dh, f, y);
    }
    FilledIsDrawn(buffer[..], dw, dh, f);
    dst := buffer[..];
  }

  lemma CoverIdentity(i: nat, s: nat)
    requires i < s
    ensures CoverIndex(i, s, s, 1.0) == i
  {
    assert CoverSource(i, s, s, 1.0) == i as real;
  }

  /** An image of the frame's own size covers it pixel by pixel. */
  lemma CoverSameSize(src: seq<Word>, w: nat, h: nat)
    requires |src| == w * h
    ensures Cover(src, w, h, w, h) == src
  {
    forall y, x | 0 <= y < h && 0 <= x < w
      ensures 0 <= At(w, y, x) < w * h && src[At(w, y, x)] == CoverAt(src, w, h, w, h)(y, x)
    {
      RowMajorInRange(y, x, h, w);
      assert w as real / w as real == 1.0 && h as real / h as real == 1.0;
      assert CoverScale(w, h, w, h) == 1.0;
      assert At(w, CoverIndex(y, h, h, 1.0), CoverIndex(x, w, w, 1.0)) == At(w, y, x) by {
        CoverIdentity(y, h);
        CoverIdentity(x, w);
      }
    }
    FilledIsDrawn(src, w, h, CoverAt(src, w, h, w, h));
  }

  /** The crop is centred: pixel edges mirrored in the frame are scaled to edges mirrored in the image. */
  lemma CoverCentred(i: int, s: nat, d: nat, scale: real)
    requires scale > 0.0
    ensures CoverSource(i, s, d, scale) + CoverSource(d - i, s, d, scale) == s as real
  {
    var margin := (s as real * scale - d as real) * 0.5;
    var a, b := i as real + margin, (d - i) as real + margin;
    assert a + b == s as real * scale;
    assert a / scale + b / scale == (a + b) / scale;
  }

  /**
   Along the axis that decides the scale the image fills the frame exactly; along the other its middle does, the margins
   cut off on both sides being equal: in units of half a frame pixel, position `i` starts
   `2 * i * fs + (s * fd - d * fs)` into an image whose pixels are `2 * fd` wide.
   */
  predicate CoverStartsIn(i: int, s: nat, d: nat, part: int, fs: nat, fd: nat) {
    && 0 <= i < d && 0 <= part < s
    && 2 * (part * fd) <= 2 * (i * fs) + s * fd - d * fs < 2 * ((part + 1) * fd)
  }

  /** The offset into the image, cleared of its denominators. */
  lemma MarginCleared(i: real, s: real, d: real, scale: real, fs: real, fd: real)
    requires scale * fs == fd
    ensures (i + (s * scale - d) * 0.5) * (2.0 * fs) == 2.0 * (i * fs) + s * fd - d * fs
  {
    assert s * scale * fs == s * fd;
  }

  lemma ProductAsReal(a: int, b: int)
    ensures (a * b) as real == a as real * b as real
  {
  }

  lemma StartAsReal(i: nat, s: nat, d: nat, fs: nat, fd: nat, scale: real)
    requires scale * fs as real == fd as real
    ensures (i as real + (s as real * scale - d as real) * 0.5) * (2.0 * fs as real)
            == (2 * (i * fs) + s * fd - d * fs) as real
  {
    MarginCleared(i as real, s as real, d as real, scale, fs as real, fd as real);
    ProductAsReal(i, fs);
    ProductAsReal(s, fd);
    ProductAsReal(d, fs);
  }

  lemma ScaledBetween(n: real, part: int, scale: real, fs: nat, fd: nat, start: int)
    requires fs > 0 && scale > 0.0 && scale * fs as real == fd as real
    requires n * (2.0 * fs as real) == start as real && 2 * (part * fd) <= start < 2 * ((part + 1) * fd)
    ensures part as real <= n / scale < (part + 1) as real
  {
    var q, f := n / scale, fd as real;
    assert n == q * scale;
    assert n * fs as real == q * f;
    ProductAsReal(part, fd);
    ProductAsReal(part + 1, fd);
    assert 2.0 * (q * f) == start as real;
    assert 2.0 * (part as real * f) <= start as real < 2.0 * ((part + 1) as real * f);
    assert f > 0.0;
    FactorBetween(part as real, q, (part + 1) as real, f);
  }

  lemma FactorBetween(a: real, q: real, b: real, f: real)
    requires f > 0.0 && a * f <= q * f < b * f
    ensures a <= q < b
  {
  }

  /** Which pixel an index is, when the scale is the frame's `fd` over the image's `fs` along the deciding axis. */
  lemma CoverIndexIs(i: nat, s: nat, d: nat, part: nat, fs: nat, fd: nat, scale: real)
    requires fs > 0 && fd > 0 && scale > 0.0 && scale * fs as real == fd as real && s as real * scale >= d as real
    requires CoverStartsIn(i, s, d, part, fs, fd)
    ensures CoverIndex(i, s, d, scale) == part
  {
    StartAsReal(i, s, d, fs, fd, scale);
    ScaledBetween(i as real + (s as real * scale - d as real) * 0.5, part, scale, fs, fd,
        2 * (i * fs) + s * fd - d * fs);
    CoverNeverClamps(i, s, d, scale);
  }

  /** The axis along which the frame is relatively the longer decides. */
  predicate CoverShows(sw: nat, sh: nat, dw: nat, dh: nat, y: int, x: int, sy: int, sx: int) {
    if dw * sh >= dh * sw then CoverStartsIn(y, sh, dh, sy, sw, dw) && CoverStartsIn(x, sw, dw, sx, sw, dw)
    else CoverStartsIn(y, sh, dh, sy, sh, dh) && CoverStartsIn(x, sw, dw, sx, sh, dh)
  }

  lemma BothIndices(sw: nat, sh: nat, dw: nat, dh: nat, y: int, x: int, sy: int, sx: int, fs: nat, fd: nat, scale: real)
    requires fs > 0 && fd > 0 && scale > 0.0 && scale * fs as real == fd as real
    requires sw as real * scale >= dw as real && sh as real * scale >= dh as real
    requires CoverStartsIn(y, sh, dh, sy, fs, fd) && CoverStartsIn(x, sw, dw, sx, fs, fd)
    ensures CoverIndex(y, sh, dh, scale) == sy && CoverIndex(x, sw, dw, scale) == sx
  {
    CoverIndexIs(y, sh, dh, sy, fs, fd, scale);
    CoverIndexIs(x, sw, dw, sx, fs, fd, scale);
  }

  /** The deciding axis, and the scale it gives. */
  lemma Deciding(sw: nat, sh: nat, dw: nat, dh: nat) returns (fs: nat, fd: nat, scale: real)
    requires sw > 0 && sh > 0 && dw > 0 && dh > 0
    ensures if dw * sh >= dh * sw then fs == sw && fd == dw else fs == sh && fd == dh
    ensures scale > 0.0 && scale == CoverScale(sw, sh, dw, dh) && scale * fs as real == fd as real
    ensures sw as real * scale >= dw as real && sh as real * scale >= dh as real
  {
    CoverScaleIs(sw, sh, dw, dh);
    CoverScaleCovers(sw, sh, dw, dh);
    scale := CoverScale(sw, sh, dw, dh);
    fs, fd := if dw * sh >= dh * sw then sw else sh, if dw * sh >= dh * sw then dw else dh;
  }

  lemma CoverIndices(sw: nat, sh: nat, dw: nat, dh: nat, y: int, x: int, sy: int, sx: int)
    requires CoverShows(sw, sh, dw, dh, y, x, sy, sx)
    ensures sw > 0 && sh > 0 && CoverScale(sw, sh, dw, dh) > 0.0
    ensures 0 <= sy < sh && 0 <= sx < sw && 0 <= y < dh && 0 <= x < dw
    ensures CoverIndex(y, sh, dh, CoverScale(sw, sh, dw, dh)) == sy
    ensures CoverIndex(x, sw, dw, CoverScale(sw, sh, dw, dh)) == sx
  {
    var fs, fd, scale := Deciding(sw, sh, dw, dh);
    BothIndices(sw, sh, dw, dh, y, x, sy, sx, fs, fd, scale);
  }

  /** Which pixel of the image a position of the frame shows. */
  lemma CoverCell(src: seq<Word>, sw: nat, sh: nat, dw: nat, dh: nat, y: int, x: int, sy: int, sx: int)
    requires |src| == sw * sh && CoverShows(sw, sh, dw, dh, y, x, sy, sx)
    ensures 0 <= y * dw + x < dw * dh && 0 <= sy * sw + sx < sw * sh
    ensures Cover(src, sw, sh, dw, dh)[y * dw + x] == src[sy * sw + sx]
  {
    CoverIndices(sw, sh, dw, dh, y, x, sy, sx);
    RowMajorInRange(sy, sx, sh, sw);
    DrawAt(dw, dh, CoverAt(src, sw, sh, dw, dh), y, x);
  }

  /** The scale is that of the axis along which the frame is relatively the longer. */
  lemma CoverScaleIs(sw: nat, sh: nat, dw: nat, dh: nat)
    requires sw > 0 && sh > 0
    ensures if dw * sh >= dh * sw then CoverScale(sw, sh, dw, dh) * sw as real == dw as real
            else CoverScale(sw, sh, dw, dh) * sh as real == dh as real
  {
    var a, b := dw as real / sw as real, dh as real / sh as real;
    var both := sw as real * sh as real;
    assert both > 0.0 && a * sw as real == dw as real && b * sh as real == dh as real;
    assert a * both == (dw * sh) as real && b * both == (dh * sw) as real;
    if a < b {
      assert a * both < b * both;
    } else if a > b {
      assert a * both > b * both;
    }
  }

  // ----- The blurred plate -----

  function BlurAt(pixels: seq<Word>, w: nat, h: nat, radius: nat): (int, int) -> Word {
    (y, x) => Pack(ClampByte(Blurred(pixels, w, h, radius, Red, y, x)),
                   ClampByte(Blurred(pixels, w, h, radius, Green, y, x)),
                   ClampByte(Blurred(pixels, w, h, radius, Blue, y, x)))
  }

  function BlurImage(pixels: seq<Word>, w: nat, h: nat, radius: nat): (after: seq<Word>)
    requires |pixels| == w * h
    ensures |after| == w * h
  {
    Draw(w, h, BlurAt(pixels, w, h, radius))
  }

  /** The pixels the sliding blur leaves are exactly the naive image. */
  lemma BlurIsImage(before: seq<Word>, after: seq<Word>, w: nat, h: nat, radius: nat)
    requires IsImage(before, w, h) && |after| == w * h
    requires forall y, x | 0 <= y < h && 0 <= x < w :: HoldsBlur(before, after, w, h, radius, y, x)
    ensures after == BlurImage(before, w, h, radius)
  {
    var f := BlurAt(before, w, h, radius);
    forall y, x | 0 <= y < h && 0 <= x < w
      ensures 0 <= At(w, y, x) < w * h && after[At(w, y, x)] == f(y, x)
    {
      assert HoldsBlur(before, after, w, h, radius, y, x);
      OpaqueExtensional(after[At(w, y, x)], f(y, x));
    }
    FilledIsDrawn(after, w, h, f);
  }

  /** Every channel of `after` is the box mean of `before` around it. */
  ghost predicate IsBlurOf(before: seq<Word>, after: seq<Word>, w: nat, h: nat, radius: nat) {
    forall y, x | 0 <= y < h && 0 <= x < w :: HoldsBlur(before, after, w, h, radius, y, x)
  }

  lemma BlurImageIsBlur(pixels: seq<Word>, w: nat, h: nat, radius: nat)
    requires IsImage(pixels, w, h)
    ensures IsBlurOf(pixels, BlurImage(pixels, w, h, radius), w, h, radius)
  {
    forall y, x | 0 <= y < h && 0 <= x < w
      ensures HoldsBlur(pixels, BlurImage(pixels, w, h, radius), w, h, radius, y, x)
    {
      DrawAt(w, h, BlurAt(pixels, w, h, radius), y, x);
      BlurStaysInRange(pixels, w, h, radius, Red, y, x, 0, 0xFF);
      BlurStaysInRange(pixels, w, h, radius, Green, y, x, 0, 0xFF);
      BlurStaysInRange(pixels, w, h, radius, Blue, y, x, 0, 0xFF);
    }
  }

  // ----- Resampling and blurring stay within the range of the frame -----

  ghost predicate ChannelInRange(pixels: seq<Word>, c: Channel, lo: int, hi: int) {
    forall i | 0 <= i < |pixels| :: lo <= Get(pixels[i], c) <= hi
  }

  lemma NearestKeepsRange(src: seq<Word>, sw: nat, sh: nat, dw: nat, dh: nat, c: Channel, lo: int, hi: int)
    requires |src| == sw * sh && 0 < sw && 0 < sh && ChannelInRange(src, c, lo, hi)
    ensures ChannelInRange(Nearest(src, sw, sh, dw, dh), c, lo, hi)
  {
    forall i | 0 <= i < dw * dh
      ensures lo <= Get(Nearest(src, sw, sh, dw, dh)[i], c) <= hi
    {
      GridCovers(dw, dh, i);
      NearestReads(src, sw, sh, dw, dh, i / dw, i % dw);
    }
  }

  lemma BlurImageKeepsRange(pixels: seq<Word>, w: nat, h: nat, radius: nat, c: Channel, lo: int, hi: int)
    requires IsImage(pixels, w, h) && ChannelInRange(pixels, c, lo, hi) && 0 <= lo && hi <= 0xFF
    ensures ChannelInRange(BlurImage(pixels, w, h, radius), c, lo, hi)
  {
    forall y, x | 0 <= y < h && 0 <= x < w
      ensures lo <= Sample(pixels, w, c, y, x) <= hi
    {
      RowMajorInRange(y, x, h, w);
    }
    forall i | 0 <= i < w * h
      ensures lo <= Get(BlurImage(pixels, w, h, radius)[i], c) <= hi
    {
      GridCovers(w, h, i);
      BlurStaysInRange(pixels, w, h, radius, c, i / w, i % w, lo, hi);
    }
  }

  // ----- The veil -----

  const VEIL_R := 115
  const VEIL_G := 115
  const VEIL_B := 122
  const BACKGROUND_DESATURATION := 0.5

  /** An opacity as a byte: scaled, rounded to nearest, clamped. */
  function OpacityByte(opacity: real): Byte { ClampByte(Trunc(opacity * 255.0 + 0.5)) }

  /** No other byte is nearer to the opacity, and the two ends are exact. */
  lemma OpacityNearest(opacity: real)
    requires 0.0 <= opacity <= 1.0
    ensures -0.5 <= OpacityByte(opacity) as real - opacity * 255.0 <= 0.5
    ensures OpacityByte(0.0) == 0 && OpacityByte(1.0) == 0xFF
  {
  }

  function Desaturated(v: int, luma: int, desat: int): int {
    v + TruncDiv((luma - v) * desat, 255)
  }

  function Tinted(v: int, tint: int, veil: int): int {
    (v * (255 - veil) + tint * veil) / 255
  }

  /** `result` is `share` 255ths of the way from one value to another, rounded down. */
  predicate IsShare(from: int, to: int, share: Byte, result: int) {
    0 <= from * 255 + (to - from) * share - result * 255 < 255
  }

  /** The same, less than one step off either way. */
  predicate NearShare(from: int, to: int, share: Byte, result: int) {
    -255 < from * 255 + (to - from) * share - result * 255 < 255
  }

  /** Moving a channel part of the way towards another value stays between the two. */
  lemma DesaturatedBetween(v: Byte, luma: Byte, desat: Byte)
    ensures v <= luma ==> v <= Desaturated(v, luma, desat) <= luma
    ensures luma <= v ==> luma <= Desaturated(v, luma, desat) <= v
  {
    var gap := if luma >= v then luma - v else v - luma;
    MulMono(0, desat, gap);
    MulMono(desat, 255, gap);
    QuotientBounds(gap * desat, 255, 0, gap);
    assert (luma - v) * desat == if luma >= v then gap * desat else -(gap * desat);
  }

  lemma WeightedBetween(p: Byte, q: Byte, a: Byte, lo: int, hi: int)
    requires lo <= p <= hi && lo <= q <= hi
    ensures lo <= (p * a + q * (255 - a)) / 255 <= hi
  {
    MulMono(lo, p, a);
    MulMono(p, hi, a);
    MulMono(lo, q, 255 - a);
    MulMono(q, hi, 255 - a);
    MulDistrib(a, 255 - a, lo);
    MulDistrib(a, 255 - a, hi);
    QuotientBounds(p * a + q * (255 - a), 255, lo, hi);
  }

  lemma VeiledChannelIsByte(v: Byte, luma: Byte, tint: Byte, veil: Byte, desat: Byte)
    ensures 0 <= Tinted(Desaturated(v, luma, desat), tint, veil) <= 0xFF
    ensures 0 <= Desaturated(v, luma, desat) <= 0xFF
  {
    DesaturatedBetween(v, luma, desat);
    WeightedBetween(Desaturated(v, luma, desat), tint, 255 - veil, 0, 0xFF);
  }

  function Luma(px: Word): Byte { (77 * Get(px, Red) + 150 * Get(px, Green) + 29 * Get(px, Blue)) / 256 }

  /** The primaries by brightness: green before red before blue. White is full and a grey is itself. */
  lemma LumaOfPrimaries()
    ensures Luma(0xFFFF_0000) == 76 && Luma(0xFF00_FF00) == 149 && Luma(0xFF00_00FF) == 28
    ensures forall v: Byte :: Luma(Pack(v, v, v)) == v
  {
    Channels(0xFFFF_0000, 255, 0, 0);
    Channels(0xFF00_FF00, 0, 255, 0);
    Channels(0xFF00_00FF, 0, 0, 255);
  }

  /** One pixel under the veil: desaturated towards its luma, then tinted. */
  function Veiled(px: Word, veil: Byte, desat: Byte): Word {
    if veil == 0 && desat == 0 then px
    else
      var luma := Luma(px);
      VeiledChannelIsByte(Get(px, Red), luma, VEIL_R, veil, desat);
      VeiledChannelIsByte(Get(px, Green), luma, VEIL_G, veil, desat);
      VeiledChannelIsByte(Get(px, Blue), luma, VEIL_B, veil, desat);
      Pack(Tinted(Desaturated(Get(px, Red), luma, desat), VEIL_R, veil),
           Tinted(Desaturated(Get(px, Green), luma, desat), VEIL_G, veil),
           Tinted(Desaturated(Get(px, Blue), luma, desat), VEIL_B, veil))
  }

  function Tint(c: Channel): Byte {
    match c case Red => VEIL_R case Green => VEIL_G case Blue => VEIL_B
  }

  lemma TintedMeaning(v: Byte, luma: Byte, tint: Byte, veil: Byte, desat: Byte)
    ensures var grey := Desaturated(v, luma, desat);
            && Min(grey, tint) <= Tinted(grey, tint, veil) <= Max(grey, tint)
            && (veil == 0xFF ==> Tinted(grey, tint, veil) == tint)
            && (veil == 0 ==> Tinted(grey, tint, veil) == grey)
            && (desat == 0 ==> grey == v) && (desat == 0xFF ==> grey == luma)
  {
    VeiledChannelIsByte(v, luma, tint, veil, desat);
    var grey := Desaturated(v, luma, desat);
    WeightedBetween(grey, tint, 255 - veil, Min(grey, tint), Max(grey, tint));
  }

  lemma TintedShares(v: Byte, luma: Byte, tint: Byte, veil: Byte, desat: Byte)
    ensures var grey := Desaturated(v, luma, desat);
            NearShare(v, luma, desat, grey) && IsShare(grey, tint, veil, Tinted(grey, tint, veil))
    ensures veil == 0 && desat == 0 ==> Tinted(Desaturated(v, luma, desat), tint, veil) == v
  {
  }

  lemma VeiledChannel(px: Word, veil: Byte, desat: Byte, c: Channel)
    requires veil != 0 || desat != 0
    ensures Get(Veiled(px, veil, desat), c) == Tinted(Desaturated(Get(px, c), Luma(px), desat), Tint(c), veil)
  {
    VeiledChannelIsByte(Get(px, Red), Luma(px), VEIL_R, veil, desat);
    VeiledChannelIsByte(Get(px, Green), Luma(px), VEIL_G, veil, desat);
    VeiledChannelIsByte(Get(px, Blue), Luma(px), VEIL_B, veil, desat);
  }

  /**
   Each channel under the veil lies between the desaturated channel and the veil's own; a full veil is all one sees,
   and without a veil full desaturation leaves grey and none leaves the pixel.
   */
  lemma VeilMeaning(px: Word, veil: Byte, desat: Byte, c: Channel)
    ensures var veiled, grey := Get(Veiled(px, veil, desat), c), Desaturated(Get(px, c), Luma(px), desat);
            && Min(grey, Tint(c)) <= veiled <= Max(grey, Tint(c))
            && (veil == 0xFF ==> veiled == Tint(c))
            && (veil == 0 && desat == 0xFF ==> veiled == Luma(px))
            && (veil == 0 && desat == 0 ==> veiled == Get(px, c))
  {
    TintedMeaning(Get(px, c), Luma(px), Tint(c), veil, desat);
    if veil != 0 || desat != 0 {
      VeiledChannel(px, veil, desat, c);
    }
  }

  /** Between the extremes: the desaturation's share of the way to the luma, then the veil's share to its colour. */
  lemma VeilShares(px: Word, veil: Byte, desat: Byte, c: Channel)
    ensures var grey := Desaturated(Get(px, c), Luma(px), desat);
            && NearShare(Get(px, c), Luma(px), desat, grey)
            && IsShare(grey, Tint(c), veil, Get(Veiled(px, veil, desat), c))
  {
    var v, luma := Get(px, c), Luma(px);
    TintedShares(v, luma, Tint(c), veil, desat);
    if veil != 0 || desat != 0 {
      VeiledChannel(px, veil, desat, c);
    }
  }

  function VeiledAll(pixels: seq<Word>, veil: Byte, desat: Byte): (after: seq<Word>)
    ensures |after| == |pixels|
  {
    seq(|pixels|, i requires 0 <= i < |pixels| => Veiled(pixels[i], veil, desat))
  }

  /** The veil in place; with no opacity and no desaturation the plate is left alone. */
  method ApplyObscureVeil(plate: array<Word>, opacity: real)
    modifies plate
    ensures plate[..] == VeiledAll(old(plate[..]), OpacityByte(opacity), OpacityByte(BACKGROUND_DESATURATION))
  {
    var veil := OpacityByte(opacity);
    var desat := OpacityByte(BACKGROUND_DESATURATION);
    if veil == 0 && desat == 0 {
      return;
    }
    for i := 0 to plate.Length
      invariant forall j | 0 <= j < plate.Length ::
          plate[j] == if j < i then Veiled(old(plate[j]), veil, desat) else old(plate[j])
    {
      plate[i] := Veiled(plate[i], veil, desat);
    }
  }

  // ----- The blend -----

  function BlendChannel(fg: Byte, bg: Byte, a: Byte): Byte {
    WeightedBetween(fg, bg, a, 0, 0xFF);
    (fg * a + bg * (255 - a)) / 255
  }

  function Blend(fg: Word, bg: Word, a: Byte): Word {
    Pack(BlendChannel(Get(fg, Red), Get(bg, Red), a),
         BlendChannel(Get(fg, Green), Get(bg, Green), a),
         BlendChannel(Get(fg, Blue), Get(bg, Blue), a))
  }

  lemma BlendChannelMeaning(fg: Byte, bg: Byte, a: Byte)
    ensures Min(fg, bg) <= BlendChannel(fg, bg, a) <= Max(fg, bg)
    ensures a == 0xFF ==> BlendChannel(fg, bg, a) == fg
    ensures a == 0 ==> BlendChannel(fg, bg, a) == bg
    ensures IsShare(bg, fg, a, BlendChannel(fg, bg, a))
  {
    WeightedBetween(fg, bg, a, Min(fg, bg), Max(fg, bg));
  }

  /**
   Each channel lies between camera and plate, the mask's share of the way from the one to the other, rounded down; a
   full mask gives the camera pixel and an empty one the plate.
   */
  lemma BlendMeaning(fg: Word, bg: Word, a: Byte, c: Channel)
    ensures Min(Get(fg, c), Get(bg, c)) <= Get(Blend(fg, bg, a), c) <= Max(Get(fg, c), Get(bg, c))
    ensures a == 0xFF ==> Get(Blend(fg, bg, a), c) == Get(fg, c)
    ensures a == 0 ==> Get(Blend(fg, bg, a), c) == Get(bg, c)
    ensures IsShare(Get(bg, c), Get(fg, c), a, Get(Blend(fg, bg, a), c))
  {
    BlendChannelMeaning(Get(fg, c), Get(bg, c), a);
    assert Get(Blend(fg, bg, a), c) == BlendChannel(Get(fg, c), Get(bg, c), a);
  }

  /** Nearest upscaling of the mask, with the compositor's own clamps. */
  function MaskUpAt(mask: seq<Byte>, mw: nat, mh: nat, w: nat, h: nat): (int, int) -> Byte {
    (y, x) =>
      var i := At(mw, Clamp(y * mh / Max(h, 1), 0, mh - 1), Clamp(x * mw / Max(w, 1), 0, mw - 1));
      if 0 <= i < |mask| then mask[i] else 0
  }

  /** Which mask sample a pixel of the frame gets: the one of whose part of the frame it starts in. */
  lemma MaskUpCell(mask: seq<Byte>, mw: nat, mh: nat, w: nat, h: nat, y: int, x: int, my: int, mx: int)
    requires |mask| == mw * mh && StartsIn(y, h, my, mh) && StartsIn(x, w, mx, mw)
    ensures 0 <= y * w + x < w * h && 0 <= my * mw + mx < mw * mh
    ensures Draw(w, h, MaskUpAt(mask, mw, mh, w, h))[y * w + x] == mask[my * mw + mx]
  {
    QuotientIs(y * mh, h, my);
    QuotientIs(x * mw, w, mx);
    RowMajorInRange(my, mx, mh, mw);
    DrawAt(w, h, MaskUpAt(mask, mw, mh, w, h), y, x);
  }

  /** A mask of the frame's own size is used as it is. */
  lemma MaskUpSameSize(mask: seq<Byte>, w: nat, h: nat)
    requires |mask| == w * h
    ensures Draw(w, h, MaskUpAt(mask, w, h, w, h)) == mask
  {
    forall i | 0 <= i < w * h
      ensures Draw(w, h, MaskUpAt(mask, w, h, w, h))[i] == mask[i]
    {
      GridCovers(w, h, i);
      StartsInItself(i / w, h);
      StartsInItself(i % w, w);
      MaskUpCell(mask, w, h, w, h, i / w, i % w, i / w, i % w);
    }
  }

  function Composed(input: seq<Word>, plate: seq<Word>, mask: seq<Byte>, mw: nat, mh: nat, w: nat, h: nat)
    : (out: seq<Word>)
    requires |input| == |plate| == w * h
    ensures |out| == w * h
  {
    var maskUp := Draw(w, h, MaskUpAt(mask, mw, mh, w, h));
    seq(w * h, i requires 0 <= i < w * h => Blend(input[i], plate[i], maskUp[i]))
  }

  method UpscaleMask(mask: seq<Byte>, mw: nat, mh: nat, w: nat, h: nat) returns (maskUp: array<Byte>)
    requires |mask| == mw * mh && 0 < mw && 0 < mh
    ensures fresh(maskUp) && maskUp[..] == Draw(w, h, MaskUpAt(mask, mw, mh, w, h))
  {
    ghost var f := MaskUpAt(mask, mw, mh, w, h);
    maskUp := new Byte[w * h];
    GridInRange(w, h);
    for y := 0 to h
      invariant FilledTo(maskUp[..], w, h, f, y, 0)
    {
      for x := 0 to w
        invariant FilledTo(maskUp[..], w, h, f, y, x)
      {
        var sx := Clamp(x * mw / Max(w, 1), 0, mw - 1);
        var sy := Clamp(y * mh / Max(h, 1), 0, mh - 1);
        RowMajorInRange(sy, sx, mh, mw);
        assert 0 <= At(w, y, x) < w * h;
        ghost var before := maskUp[..];
        maskUp[At(w, y, x)] := mask[At(mw, sy, sx)];
        FillNext(before, maskUp[..], w, h, f, y, x);
      }
      FillRowDone(maskUp[..], w, h, f, y);
    }
    FilledIsDrawn(maskUp[..], w, h, f);
  }

  method Compose(input: seq<Word>, plate: seq<Word>, mask: seq<Byte>, mw: nat, mh: nat, w: nat, h: nat)
    returns (out: array<Word>)
    requires |input| == |plate| == w * h && |mask| == mw * mh && 0 < mw && 0 < mh
    ensures fresh(out) && out[..] == Composed(input, plate, mask, mw, mh, w, h)
  {
    var maskUp := UpscaleMask(mask, mw, mh, w, h);
    out := BlendAll(input, plate, maskUp[..]);
  }

  method BlendAll(input: seq<Word>, plate: seq<Word>, maskUp: seq<Byte>) returns (out: array<Word>)
    requires |input| == |plate| == |maskUp|
    ensures fresh(out) && out.Length == |input|
    ensures forall j | 0 <= j < |input| :: out[j] == Blend(input[j], plate[j], maskUp[j])
  {
    out := new Word[|input|];
    for i := 0 to |input|
      invariant forall j | 0 <= j < i :: out[j] == Blend(input[j], plate[j], maskUp[j])
    {
      out[i] := Blend(input[i], plate[i], maskUp[i]);
    }
  }
}

/**
 The desktop effects engine: settings pushed by the caller, two caches derived from them, and the per-frame
 pipeline. The caches are invisible: every frame is what it would be if nothing were cached. The segmenter,
 the feathering blur and the gamma curve are foreign functions.
 */
module EffectsEngine {
  import opened Wrappers
  import opened Arith
  import opened Pixels
  import opened Raster
  import opened Erosion
  import opened BoxBlur
  import opened Frames
  import opened Plates

  const SEGMENTER_SIZE := 256
  const MASK_FEATHER_SIGMA_FLOOR := 0.9
  const DEFAULT_BLUR_SIGMA := 128.0
  const BLUR_RADIUS := 8

  datatype Mode = BlurMode | ImageMode

  datatype Tuning = Tuning(feather: real, erode: real, slope: real, midpoint: real, gamma: real)

  /** What the model is given rather than computes. */
  datatype Foreign = Foreign(segment: seq<Word> -> seq<Byte>, feather: (seq<Byte>, real) -> seq<Byte>,
        gammaCurve: (int, real) -> Byte)
  {
    ghost predicate Valid() {
      && (forall image :: |segment(image)| == SEGMENTER_SIZE * SEGMENTER_SIZE)
      && (forall mask, sigma :: |feather(mask, sigma)| == |mask|)
    }
  }

  function ClampReal(v: real, lo: real, hi: real): real { if v < lo then lo else if v > hi then hi else v }

  function Clamped(t: Tuning): Tuning {
    Tuning(ClampReal(t.feather, 0.0, 0.05), ClampReal(t.erode, 0.0, 0.05), ClampReal(t.slope, 1.0, 16.0),
           ClampReal(t.midpoint, 0.2, 0.8), ClampReal(t.gamma, 0.5, 3.0))
  }

  /** The result is in range, and on the way from the value to every number that is. */
  lemma ClampNearest(v: real, lo: real, hi: real, u: real)
    requires lo <= u <= hi
    ensures var r := ClampReal(v, lo, hi);
            lo <= r <= hi && (v <= r <= u || u <= r <= v)
  {
  }

  /** The permitted tunings, and every one of them is kept as it is. */
  lemma ClampedMeaning(t: Tuning)
    ensures Permitted(Clamped(t)) && (Permitted(t) ==> Clamped(t) == t)
  {
  }

  predicate Permitted(t: Tuning) {
    && 0.0 <= t.feather <= 0.05 && 0.0 <= t.erode <= 0.05 && 1.0 <= t.slope <= 16.0
    && 0.2 <= t.midpoint <= 0.8 && 0.5 <= t.gamma <= 3.0
  }

  // ----- Tone tables -----

  /** The stretch about the midpoint; a slope of 1 disables it. */
  function Response(edge: Tuning, p: real): real {
    if edge.slope > 1.0 then edge.slope * p + (0.5 - edge.slope * edge.midpoint) else p
  }

  function SolidifyEntry(edge: Tuning, i: int): Byte {
    ClampByte(Trunc(Response(edge, i as real / 255.0) * 255.0))
  }

  function SolidifyLut(edge: Tuning): seq<Byte> { seq(256, i => SolidifyEntry(edge, i)) }

  function GammaEntry(f: Foreign, edge: Tuning, i: int): Byte { f.gammaCurve(i, edge.gamma) }

  function GammaLut(f: Foreign, edge: Tuning): seq<Byte> { seq(256, i => GammaEntry(f, edge, i)) }

  lemma ResponseMono(edge: Tuning, p: real, q: real)
    requires edge.slope >= 1.0 && p <= q
    ensures Response(edge, p) <= Response(edge, q)
  {
    assert edge.slope * p <= edge.slope * q;
  }

  lemma TruncMono(a: real, b: real)
    requires a <= b
    ensures Trunc(a) <= Trunc(b)
  {
  }

  /** More confidence never means less coverage. */
  lemma SolidifyMonotone(edge: Tuning, i: int, j: int)
    requires 0 <= i <= j <= 255 && edge.slope >= 1.0
    ensures SolidifyEntry(edge, i) <= SolidifyEntry(edge, j)
  {
    ResponseMono(edge, i as real / 255.0, j as real / 255.0);
    TruncMono(Response(edge, i as real / 255.0) * 255.0, Response(edge, j as real / 255.0) * 255.0);
  }

  /**
   The stretch leaves the midpoint at half coverage and multiplies distances from it by the slope, until the mask is
   empty or full; a slope of 1 leaves every value alone, whatever the midpoint.
   */
  lemma SolidifyMeaning(edge: Tuning, i: Byte)
    ensures var stretched := 127.5 + edge.slope * (i as real - 255.0 * edge.midpoint);
            edge.slope > 1.0 ==>
              && (stretched < 1.0 ==> SolidifyEntry(edge, i) == 0)
              && (stretched >= 255.0 ==> SolidifyEntry(edge, i) == 0xFF)
              && (0.0 <= stretched < 256.0 ==> SolidifyEntry(edge, i) as real <= stretched)
              && (0.0 <= stretched < 255.0 ==> stretched < SolidifyEntry(edge, i) as real + 1.0)
    ensures edge.slope <= 1.0 ==> SolidifyEntry(edge, i) == i
  {
    var p := i as real / 255.0;
    assert p * 255.0 == i as real;
    if edge.slope > 1.0 {
      assert edge.slope * p * 255.0 == edge.slope * i as real;
      assert Response(edge, p) * 255.0 == 127.5 + edge.slope * (i as real - 255.0 * edge.midpoint);
    }
  }

  function Lookup(mask: seq<Byte>, lut: seq<Byte>): (after: seq<Byte>)
    requires |lut| == 256
    ensures |after| == |mask|
  {
    seq(|mask|, i requires 0 <= i < |mask| => lut[mask[i]])
  }

  // ----- Settings, and the frame they determine -----

  datatype Settings = Settings(mode: Mode, sigma: real, opacity: real, edge: Tuning, image: seq<Word>, imageW: nat,
        imageH: nat)
  {
    ghost predicate Valid() { |image| == imageW * imageH }

    predicate UsesImage() { mode.ImageMode? && imageW > 0 && imageH > 0 }
  }

  function Defaults(): Settings {
    Settings(BlurMode, DEFAULT_BLUR_SIGMA, 0.1, Tuning(0.010, 0.002, 6.0, 0.55, 1.0), [], 0, 0)
  }

  /** Erode, solidify, feather. */
  function Softened(f: Foreign, erode: real, slope: real, feather: real, mask: seq<Byte>, solidify: seq<Byte>)
    : (soft: seq<Byte>)
    requires f.Valid() && |mask| == SEGMENTER_SIZE * SEGMENTER_SIZE && |solidify| == 256
    ensures |soft| == SEGMENTER_SIZE * SEGMENTER_SIZE
  {
    var eroded := Eroded(mask, SEGMENTER_SIZE, SEGMENTER_SIZE, Trunc(erode * SEGMENTER_SIZE as real + 0.5));
    var solid := if slope > 1.0 then Lookup(eroded, solidify) else eroded;
    var sigma := feather * SEGMENTER_SIZE as real;
    f.feather(solid, if sigma < MASK_FEATHER_SIGMA_FLOOR then MASK_FEATHER_SIGMA_FLOOR else sigma)
  }

  /** Erode, solidify, feather, gamma, with given tables. */
  function ShapedWith(f: Foreign, edge: Tuning, mask: seq<Byte>, solidify: seq<Byte>, gamma: seq<Byte>)
    : (shaped: seq<Byte>)
    requires f.Valid() && |mask| == SEGMENTER_SIZE * SEGMENTER_SIZE && |solidify| == |gamma| == 256
    ensures |shaped| == SEGMENTER_SIZE * SEGMENTER_SIZE
  {
    var soft := Softened(f, edge.erode, edge.slope, edge.feather, mask, solidify);
    if edge.gamma != 1.0 then Lookup(soft, gamma) else soft
  }

  // ----- The dials one by one -----

  /** The feather always runs, at a sigma in mask pixels that never falls below the floor. */
  predicate FeathersBy(edge: Tuning, sigma: real) {
    && sigma >= 0.9 && sigma >= edge.feather * 256.0
    && (sigma == 0.9 || sigma == edge.feather * 256.0)
  }

  /** What a tuning does in which only one of erosion, solidifying and gamma, or none of them, is active. */
  lemma OneDial(f: Foreign, edge: Tuning, raw: seq<Byte>, solidify: seq<Byte>, gamma: seq<Byte>, sigma: real)
    requires f.Valid() && |raw| == SEGMENTER_SIZE * SEGMENTER_SIZE && |solidify| == |gamma| == 256
    requires edge.erode >= 0.0 && FeathersBy(edge, sigma)
    ensures var shaped := ShapedWith(f, edge, raw, solidify, gamma);
            var eroding, solidifying, grading := edge.erode * 256.0 >= 0.5, edge.slope > 1.0, edge.gamma != 1.0;
            && (!eroding && !solidifying && !grading ==> shaped == f.feather(raw, sigma))
            && (eroding && !solidifying && !grading ==>
                  shaped == f.feather(Eroded(raw, 256, 256, Trunc(edge.erode * 256.0 + 0.5)), sigma))
            && (!eroding && solidifying && !grading ==>
                  shaped == f.feather(seq(|raw|, i requires 0 <= i < |raw| => solidify[raw[i]]), sigma))
            && (!eroding && !solidifying && grading ==>
                  forall i | 0 <= i < |raw| :: shaped[i] == gamma[f.feather(raw, sigma)[i]])
  {
    var given := edge.feather * SEGMENTER_SIZE as real;
    assert sigma == if given < MASK_FEATHER_SIGMA_FLOOR then MASK_FEATHER_SIGMA_FLOOR else given;
  }

  /** With several active, erosion comes first. */
  lemma ErosionFirst(f: Foreign, edge: Tuning, raw: seq<Byte>, solidify: seq<Byte>, gamma: seq<Byte>)
    requires f.Valid() && |raw| == SEGMENTER_SIZE * SEGMENTER_SIZE && |solidify| == |gamma| == 256
    ensures var eroded := Eroded(raw, 256, 256, Trunc(edge.erode * 256.0 + 0.5));
            ShapedWith(f, edge, raw, solidify, gamma) == ShapedWith(f, edge.(erode := 0.0), eroded, solidify, gamma)
  {
    SoftenedOnceEroded(f, edge.erode, edge.slope, edge.feather, raw, solidify);
  }

  lemma SoftenedOnceEroded(f: Foreign, erode: real, slope: real, feather: real, raw: seq<Byte>, solidify: seq<Byte>)
    requires f.Valid() && |raw| == SEGMENTER_SIZE * SEGMENTER_SIZE && |solidify| == 256
    ensures var eroded := Eroded(raw, 256, 256, Trunc(erode * 256.0 + 0.5));
            Softened(f, erode, slope, feather, raw, solidify) == Softened(f, 0.0, slope, feather, eroded, solidify)
  {
    var eroded := Eroded(raw, 256, 256, Trunc(erode * 256.0 + 0.5));
    assert Trunc(0.0 * 256.0 + 0.5) == 0;
    assert Eroded(eroded, 256, 256, 0) == eroded;
  }

  /** Solidifying comes next, before the feather. */
  lemma SolidifyingNext(f: Foreign, edge: Tuning, raw: seq<Byte>, solidify: seq<Byte>, gamma: seq<Byte>)
    requires f.Valid() && |raw| == SEGMENTER_SIZE * SEGMENTER_SIZE && |solidify| == |gamma| == 256
    requires edge.erode == 0.0 && edge.slope > 1.0
    ensures ShapedWith(f, edge, raw, solidify, gamma)
            == ShapedWith(f, edge.(slope := 1.0), Lookup(raw, solidify), solidify, gamma)
  {
    assert Trunc(0.0 * 256.0 + 0.5) == 0;
  }

  /** Gamma comes last, after the feather. */
  lemma GammaLast(f: Foreign, edge: Tuning, raw: seq<Byte>, solidify: seq<Byte>, gamma: seq<Byte>)
    requires f.Valid() && |raw| == SEGMENTER_SIZE * SEGMENTER_SIZE && |solidify| == |gamma| == 256
    requires edge.gamma != 1.0
    ensures var soft := ShapedWith(f, edge.(gamma := 1.0), raw, solidify, gamma);
            var shaped := ShapedWith(f, edge, raw, solidify, gamma);
            forall i | 0 <= i < |raw| :: shaped[i] == gamma[soft[i]]
  {
    var soft := ShapedWith(f, edge.(gamma := 1.0), raw, solidify, gamma);
    assert ShapedWith(f, edge, raw, solidify, gamma) == Lookup(soft, gamma);
  }

  /** The radius of the erosion: the fraction of the mask's side, rounded to the nearest pixel. */
  lemma ErodeRadius(erode: real)
    requires erode >= 0.0
    ensures var r := Trunc(erode * 256.0 + 0.5);
            r >= 0 && r as real - 0.5 <= erode * 256.0 < r as real + 0.5
  {
  }

  /** One mask pixel of radius for every 16 of sigma, between 1 and 96: the default sigma blurs by 8. */
  lemma BlurRadiusMeaning(sigma: real)
    requires 4.0 <= sigma <= 256.0
    ensures var r := BlurRadiusForSigma(sigma);
            && 1 <= r <= 16 && sigma < 16.0 * (r as real + 1.0) && (sigma >= 16.0 ==> 16.0 * r as real <= sigma)
    ensures BlurRadiusForSigma(DEFAULT_BLUR_SIGMA) == 8
  {
    assert sigma / DEFAULT_BLUR_SIGMA * BLUR_RADIUS as real == sigma / 16.0;
  }

  function BlurRadiusForSigma(sigma: real): nat {
    Clamp(Trunc(sigma / DEFAULT_BLUR_SIGMA * BLUR_RADIUS as real), 1, 96)
  }

  /** One side of the downsampled blur plate: a quarter, but at least 8. */
  function SmallSide(v: nat): nat { Max(8, v / 4) }

  function BlurPlate(s: Settings, input: seq<Word>, w: nat, h: nat): (plate: seq<Word>)
    requires |input| == w * h
    ensures |plate| == w * h
  {
    var sw, sh, radius := SmallSide(w), SmallSide(h), BlurRadiusForSigma(s.sigma);
    var small := Nearest(input, w, h, sw, sh);
    var blurred := BlurImage(BlurImage(BlurImage(small, sw, sh, radius), sw, sh, radius), sw, sh, radius);
    VeiledAll(Nearest(blurred, sw, sh, w, h), OpacityByte(s.opacity), OpacityByte(BACKGROUND_DESATURATION))
  }

  /** The plate behind the person: a fresh cover-resize of the chosen image, or the veiled blur of the frame. */
  function FreshPlate(s: Settings, input: seq<Word>, w: nat, h: nat): (plate: seq<Word>)
    requires |input| == w * h
    ensures |plate| == w * h
  {
    if s.UsesImage() then Cover(s.image, s.imageW, s.imageH, w, h) else BlurPlate(s, input, w, h)
  }

  function FreshMask(f: Foreign, s: Settings, input: seq<Word>, w: nat, h: nat): (mask: seq<Byte>)
    requires f.Valid()
    ensures |mask| == SEGMENTER_SIZE * SEGMENTER_SIZE
  {
    ShapedWith(f, s.edge, f.segment(Nearest(input, w, h, SEGMENTER_SIZE, SEGMENTER_SIZE)), SolidifyLut(s.edge),
        GammaLut(f, s.edge))
  }

  /** The composed frame, with nothing cached. */
  function FreshFrame(f: Foreign, s: Settings, input: seq<Word>, w: nat, h: nat): (frame: seq<Word>)
    requires f.Valid() && |input| == w * h
    ensures |frame| == w * h
  {
    Composed(input, FreshPlate(s, input, w, h), FreshMask(f, s, input, w, h), SEGMENTER_SIZE, SEGMENTER_SIZE, w, h)
  }

  /** Before the veil, the blurred plate stays within the range of the frame it was made from. */
  lemma BlurredPlateInRange(s: Settings, input: seq<Word>, w: nat, h: nat, c: Channel, lo: int, hi: int)
    requires |input| == w * h && 0 < w && 0 < h && ChannelInRange(input, c, lo, hi) && 0 <= lo && hi <= 0xFF
    ensures var sw, sh, radius := SmallSide(w), SmallSide(h), BlurRadiusForSigma(s.sigma);
            var small := Nearest(input, w, h, sw, sh);
            var blurred := BlurImage(BlurImage(BlurImage(small, sw, sh, radius), sw, sh, radius), sw, sh, radius);
            ChannelInRange(Nearest(blurred, sw, sh, w, h), c, lo, hi)
  {
    var sw, sh, radius := SmallSide(w), SmallSide(h), BlurRadiusForSigma(s.sigma);
    var small := Nearest(input, w, h, sw, sh);
    NearestKeepsRange(input, w, h, sw, sh, c, lo, hi);
    BlurImageKeepsRange(small, sw, sh, radius, c, lo, hi);
    var once := BlurImage(small, sw, sh, radius);
    BlurImageKeepsRange(once, sw, sh, radius, c, lo, hi);
    var twice := BlurImage(once, sw, sh, radius);
    BlurImageKeepsRange(twice, sw, sh, radius, c, lo, hi);
    NearestKeepsRange(BlurImage(twice, sw, sh, radius), sw, sh, w, h, c, lo, hi);
  }

  /** In a frame the solidify table is the stretch of the settings and the gamma table the curve for their exponent. */
  lemma FreshMaskByDial(f: Foreign, s: Settings, input: seq<Word>, w: nat, h: nat, sigma: real)
    requires f.Valid() && 0.0 <= s.edge.erode < 0.5 / 256.0 && FeathersBy(s.edge, sigma)
    ensures var raw := f.segment(Nearest(input, w, h, 256, 256));
            var mask := FreshMask(f, s, input, w, h);
            && |raw| == 256 * 256
            && (s.edge.slope > 1.0 && s.edge.gamma == 1.0 ==>
                  mask == f.feather(seq(|raw|, i requires 0 <= i < |raw| => SolidifyEntry(s.edge, raw[i])), sigma))
            && (s.edge.slope <= 1.0 && s.edge.gamma != 1.0 ==>
                  forall i | 0 <= i < |raw| :: mask[i] == f.gammaCurve(f.feather(raw, sigma)[i], s.edge.gamma))
  {
    var raw := f.segment(Nearest(input, w, h, 256, 256));
    var solidify, gamma := SolidifyLut(s.edge), GammaLut(f, s.edge);
    OneDial(f, s.edge, raw, solidify, gamma, sigma);
    assert seq(|raw|, i requires 0 <= i < |raw| => solidify[raw[i]])
        == seq(|raw|, i requires 0 <= i < |raw| => SolidifyEntry(s.edge, raw[i]));
  }

  // ----- What is behind the person -----

  /** The blurred room: a quarter of the frame's size, or 8, three box blurs, full size again, then the veil. */
  lemma RoomIsBlurredThrice(s: Settings, input: seq<Word>, w: nat, h: nat)
    returns (small: seq<Word>, once: seq<Word>, twice: seq<Word>, thrice: seq<Word>)
    requires |input| == w * h && 0 < w && 0 < h
    ensures var sw, sh := if w < 32 then 8 else w / 4, if h < 32 then 8 else h / 4;
            var radius := BlurRadiusForSigma(s.sigma);
            && small == Nearest(input, w, h, sw, sh)
            && IsBlurOf(small, once, sw, sh, radius) && IsBlurOf(once, twice, sw, sh, radius)
            && IsBlurOf(twice, thrice, sw, sh, radius)
            && BlurPlate(s, input, w, h) == VeiledAll(Nearest(thrice, sw, sh, w, h), OpacityByte(s.opacity), 128)
  {
    var sw, sh, radius := SmallSide(w), SmallSide(h), BlurRadiusForSigma(s.sigma);
    small := Nearest(input, w, h, sw, sh);
    BlurImageIsBlur(small, sw, sh, radius);
    once := BlurImage(small, sw, sh, radius);
    BlurImageIsBlur(once, sw, sh, radius);
    twice := BlurImage(once, sw, sh, radius);
    BlurImageIsBlur(twice, sw, sh, radius);
    thrice := BlurImage(twice, sw, sh, radius);
  }

  lemma VeiledAlike(p: Word, q: Word, veil: Byte, desat: Byte)
    requires desat != 0 && forall c: Channel :: Get(p, c) == Get(q, c)
    ensures Veiled(p, veil, desat) == Veiled(q, veil, desat)
  {
    assert Get(p, Red) == Get(q, Red) && Get(p, Green) == Get(q, Green) && Get(p, Blue) == Get(q, Blue);
    VeiledChannelIsByte(Get(p, Red), Luma(p), VEIL_R, veil, desat);
    VeiledChannelIsByte(Get(p, Green), Luma(p), VEIL_G, veil, desat);
    VeiledChannelIsByte(Get(p, Blue), Luma(p), VEIL_B, veil, desat);
  }

  /** A flat room stays flat under the blur and is veiled like any pixel of it. */
  lemma FlatRoom(s: Settings, px: Word, w: nat, h: nat, i: nat)
    requires i < w * h
    ensures BlurPlate(s, seq(w * h, _ => px), w, h)[i] == Veiled(px, OpacityByte(s.opacity), 128)
  {
    var input := seq(w * h, _ => px);
    GridCovers(w, h, i);
    var sw, sh, radius := SmallSide(w), SmallSide(h), BlurRadiusForSigma(s.sigma);
    var small := Nearest(input, w, h, sw, sh);
    var blurred := BlurImage(BlurImage(BlurImage(small, sw, sh, radius), sw, sh, radius), sw, sh, radius);
    var large := Nearest(blurred, sw, sh, w, h);
    forall c: Channel
      ensures Get(large[i], c) == Get(px, c)
    {
      BlurredPlateInRange(s, input, w, h, c, Get(px, c), Get(px, c));
    }
    VeiledAlike(large[i], px, OpacityByte(s.opacity), 128);
  }

  /** In image mode, with a picture, the plate is that picture covering the frame; otherwise it is the blurred room. */
  lemma PlateByMode(s: Settings, input: seq<Word>, w: nat, h: nat)
    requires s.Valid() && |input| == w * h
    ensures s.mode == ImageMode && s.imageW > 0 && s.imageH > 0 ==>
              FreshPlate(s, input, w, h) == Cover(s.image, s.imageW, s.imageH, w, h)
    ensures s.mode == ImageMode && s.imageW == w && s.imageH == h && w > 0 && h > 0 ==>
              FreshPlate(s, input, w, h) == s.image
    ensures s.mode == BlurMode || s.imageW == 0 || s.imageH == 0 ==>
              FreshPlate(s, input, w, h) == BlurPlate(s, input, w, h)
  {
    if s.imageW == w && s.imageH == h {
      CoverSameSize(s.image, w, h);
    }
  }

  /** How much of the camera each pixel shows: the shaped mask at the size of the frame. */
  function Coverage(f: Foreign, s: Settings, input: seq<Word>, w: nat, h: nat): (coverage: seq<Byte>)
    requires f.Valid()
    ensures |coverage| == w * h
  {
    Draw(w, h, MaskUpAt(FreshMask(f, s, input, w, h), SEGMENTER_SIZE, SEGMENTER_SIZE, w, h))
  }

  /**
   Every composed pixel lies, channel by channel, between the camera pixel and the plate pixel; it is the camera's where
   the mask is full and the plate's where it is empty.
   */
  lemma FrameBetweenCameraAndPlate(f: Foreign, s: Settings, input: seq<Word>, w: nat, h: nat, i: nat, c: Channel)
    requires f.Valid() && |input| == w * h && i < w * h
    ensures var plate, frame := FreshPlate(s, input, w, h), FreshFrame(f, s, input, w, h);
            var coverage := Coverage(f, s, input, w, h)[i];
            && Min(Get(input[i], c), Get(plate[i], c)) <= Get(frame[i], c) <= Max(Get(input[i], c), Get(plate[i], c))
            && (coverage == 0xFF ==> Get(frame[i], c) == Get(input[i], c))
            && (coverage == 0 ==> Get(frame[i], c) == Get(plate[i], c))
  {
    var maskUp := Coverage(f, s, input, w, h);
    BlendMeaning(input[i], FreshPlate(s, input, w, h)[i], maskUp[i], c);
  }

  // ----- Replacement images -----

  /** Four bytes a pixel in, one opaque word out. */
  function ImageFromRgba(rgba: seq<Byte>, count: nat): (image: seq<Word>)
    requires 4 * count <= |rgba|
    ensures |image| == count
  {
    seq(count, i requires 0 <= i < count => Pack(rgba[4 * i], rgba[4 * i + 1], rgba[4 * i + 2]))
  }

  /** A word as the R, G, B, A bytes a texture expects. */
  function RgbaOf(image: seq<Word>): (rgba: seq<Byte>)
    ensures |rgba| == 4 * |image|
  {
    seq(4 * |image|, j requires 0 <= j < 4 * |image| =>
      var px := image[j / 4];
      if j % 4 == 0 then Get(px, Red) else if j % 4 == 1 then Get(px, Green) else if j % 4 == 2 then Get(px, Blue)
      else px / 0x100_0000)
  }

  lemma RgbaAt(image: seq<Word>, i: nat)
    requires i < |image|
    ensures RgbaOf(image)[4 * i] == Get(image[i], Red) && RgbaOf(image)[4 * i + 1] == Get(image[i], Green)
    ensures RgbaOf(image)[4 * i + 2] == Get(image[i], Blue) && RgbaOf(image)[4 * i + 3] == image[i] / 0x100_0000
  {
    RemainderUnique(i, 0, 4);
    RemainderUnique(i, 1, 4);
    RemainderUnique(i, 2, 4);
    RemainderUnique(i, 3, 4);
  }

  lemma RepackOpaque(px: Word)
    requires px / 0x100_0000 == 0xFF
    ensures Pack(Get(px, Red), Get(px, Green), Get(px, Blue)) == px
  {
    OpaqueExtensional(Pack(Get(px, Red), Get(px, Green), Get(px, Blue)), px);
  }

  lemma OpaqueRoundTrip(image: seq<Word>)
    requires forall i | 0 <= i < |image| :: image[i] / 0x100_0000 == 0xFF
    ensures ImageFromRgba(RgbaOf(image), |image|) == image
  {
    forall i | 0 <= i < |image|
      ensures ImageFromRgba(RgbaOf(image), |image|)[i] == image[i]
    {
      RgbaAt(image, i);
      RepackOpaque(image[i]);
    }
  }

  /** Every composed frame is opaque, so copied out and set as the replacement image it is the same picture. */
  lemma CopiedFrameRoundTrip(f: Foreign, s: Settings, input: seq<Word>, w: nat, h: nat)
    requires f.Valid() && |input| == w * h
    ensures var frame := FreshFrame(f, s, input, w, h);
            && (forall i | 0 <= i < w * h :: frame[i] / 0x100_0000 == 0xFF)
            && ImageFromRgba(RgbaOf(frame), w * h) == frame
  {
    OpaqueRoundTrip(FreshFrame(f, s, input, w, h));
  }

  /** A request to set the image, or to clear it; a null or empty picture clears. */
  function WithImage(s: Settings, rgba: Option<seq<Byte>>, width: int, height: int): Settings
    requires rgba.Some? && width > 0 && height > 0 ==> 4 * (width * height) <= |rgba.value|
  {
    if rgba.None? || width <= 0 || height <= 0 then s.(image := [], imageW := 0, imageH := 0)
    else
      MulMono(0, width, height);
      s.(image := ImageFromRgba(rgba.value, width * height), imageW := width, imageH := height)
  }

  // ----- The caches -----

  datatype Caches = Caches(plate: seq<Word>, plateW: nat, plateH: nat, lutsValid: bool, lutEdge: Tuning,
        solidify: seq<Byte>, gamma: seq<Byte>)

  /** What the caches hold is what recomputing from the current settings would give. */
  ghost predicate Coherent(f: Foreign, s: Settings, c: Caches) {
    && s.Valid()
    && c.plate == Cover(s.image, s.imageW, s.imageH, c.plateW, c.plateH)
    && |c.solidify| == |c.gamma| == 256
    && (c.lutsValid ==> c.solidify == SolidifyLut(c.lutEdge) && c.gamma == GammaLut(f, c.lutEdge))
  }

  function NoPlate(c: Caches): Caches { c.(plate := [], plateW := 0, plateH := 0) }

  /** An invalidated plate is coherent with any image. */
  lemma NoPlateCoherent(f: Foreign, s: Settings, t: Settings, c: Caches)
    requires Coherent(f, s, c) && t.Valid()
    ensures Coherent(f, t, NoPlate(c))
  {
  }

  function EnsuredLuts(f: Foreign, s: Settings, c: Caches): Caches {
    if c.lutsValid && c.lutEdge == s.edge then c
    else c.(solidify := SolidifyLut(s.edge), gamma := GammaLut(f, s.edge), lutEdge := s.edge, lutsValid := true)
  }

  function EnsuredPlate(s: Settings, c: Caches, w: nat, h: nat): Caches {
    if s.UsesImage() && (c.plateW != w || c.plateH != h)
    then c.(plate := Cover(s.image, s.imageW, s.imageH, w, h), plateW := w, plateH := h)
    else c
  }

  /** The composed frame as the engine computes it, from its caches. */
  function CachedFrame(f: Foreign, s: Settings, c: Caches, input: seq<Word>, w: nat, h: nat): (frame: seq<Word>)
    requires f.Valid() && |input| == w * h && Coherent(f, s, c)
  {
    var ready := EnsuredPlate(s, EnsuredLuts(f, s, c), w, h);
    var raw := f.segment(Nearest(input, w, h, SEGMENTER_SIZE, SEGMENTER_SIZE));
    var mask := ShapedWith(f, s.edge, raw, ready.solidify, ready.gamma);
    var plate := if s.UsesImage() then ready.plate else BlurPlate(s, input, w, h);
    Composed(input, plate, mask, SEGMENTER_SIZE, SEGMENTER_SIZE, w, h)
  }

  lemma CachedIsFresh(f: Foreign, s: Settings, c: Caches, input: seq<Word>, w: nat, h: nat)
    requires f.Valid() && |input| == w * h && Coherent(f, s, c)
    ensures CachedFrame(f, s, c, input, w, h) == FreshFrame(f, s, input, w, h)
    ensures Coherent(f, s, EnsuredPlate(s, EnsuredLuts(f, s, c), w, h))
  {
  }

  // ----- Every sequence of calls -----

  datatype Call =
    | SetMode(mode: Mode)
    | SetBlur(sigma: real, opacity: real)
    | SetEdge(edge: Tuning)
    | SetImage(rgba: Option<seq<Byte>>, width: int, height: int)
    | Process(input: seq<Word>, w: nat, h: nat)
  {
    ghost predicate Valid() {
      && (SetImage? && rgba.Some? && width > 0 && height > 0 ==> 4 * (width * height) <= |rgba.value|)
      && (Process? ==> |input| == w * h)
    }
  }

  ghost predicate AllValid(calls: seq<Call>) {
    forall k | 0 <= k < |calls| :: calls[k].Valid()
  }

  /** What a call does to the settings. */
  function Configured(s: Settings, call: Call): Settings
    requires call.Valid()
  {
    match call
    case SetMode(mode) => s.(mode := mode)
    case SetBlur(sigma, opacity) => s.(sigma := ClampReal(sigma, 4.0, 256.0), opacity := ClampReal(opacity, 0.0, 1.0))
    case SetEdge(edge) => s.(edge := Clamped(edge))
    case SetImage(rgba, width, height) => WithImage(s, rgba, width, height)
    case Process(_, _, _) => s
  }

  /** What a call does to the caches. */
  function Recached(f: Foreign, s: Settings, c: Caches, call: Call): Caches
    requires call.Valid()
  {
    match call
    case SetImage(_, _, _) => NoPlate(c)
    case Process(_, w, h) => EnsuredPlate(s, EnsuredLuts(f, s, c), w, h)
    case _ => c
  }

  lemma ConfiguredValid(s: Settings, call: Call)
    requires s.Valid() && call.Valid()
    ensures Configured(s, call).Valid()
  {
  }

  lemma CallKeepsCoherence(f: Foreign, s: Settings, c: Caches, call: Call)
    requires Coherent(f, s, c) && call.Valid()
    ensures Coherent(f, Configured(s, call), Recached(f, s, c, call))
  {
    ConfiguredValid(s, call);
    if call.SetImage? {
      NoPlateCoherent(f, s, Configured(s, call), c);
    }
  }

  /** The frames a sequence of calls produces when nothing is cached. */
  function FreshRun(f: Foreign, s: Settings, calls: seq<Call>): seq<seq<Word>>
    requires f.Valid() && AllValid(calls)
    decreases |calls|
  {
    if calls == [] then []
    else
      assert calls[0].Valid();
      (if calls[0].Process? then [FreshFrame(f, s, calls[0].input, calls[0].w, calls[0].h)] else [])
      + FreshRun(f, Configured(s, calls[0]), calls[1..])
  }

  /** The frames the engine produces, caches and all. */
  function CachedRun(f: Foreign, s: Settings, c: Caches, calls: seq<Call>): seq<seq<Word>>
    requires f.Valid() && Coherent(f, s, c) && AllValid(calls)
    decreases |calls|
  {
    if calls == [] then []
    else
      CallKeepsCoherence(f, s, c, calls[0]);
      (if calls[0].Process? then [CachedFrame(f, s, c, calls[0].input, calls[0].w, calls[0].h)] else [])
      + CachedRun(f, Configured(s, calls[0]), Recached(f, s, c, calls[0]), calls[1..])
  }

  /** Over every sequence of calls, with frames of any sizes, the caches are invisible. */
  lemma {:induction false} CachesInvisible(f: Foreign, s: Settings, c: Caches, calls: seq<Call>)
    requires f.Valid() && Coherent(f, s, c) && AllValid(calls)
    ensures CachedRun(f, s, c, calls) == FreshRun(f, s, calls)
    decreases |calls|
  {
    if calls != [] {
      CallKeepsCoherence(f, s, c, calls[0]);
      if calls[0].Process? {
        CachedIsFresh(f, s, c, calls[0].input, calls[0].w, calls[0].h);
      }
      CachesInvisible(f, Configured(s, calls[0]), Recached(f, s, c, calls[0]), calls[1..]);
    }
  }

  // ----- One frame, from planes to planes -----

  /** The working frame: both chroma planes and the luma plane sampled to the target size, then converted. */
  function WorkingFrame(ys: seq<Byte>, strideY: nat, us: seq<Byte>, strideU: nat, vs: seq<Byte>, strideV: nat,
                        width: nat, height: nat, tw: nat, th: nat): (input: seq<Word>)
    ensures |input| == tw * th
  {
    Draw(tw, th, ArgbAt(Draw(tw, th, PlaneAt(ys, strideY, width, height, tw, th)),
                        Draw(tw / 2, th / 2, PlaneAt(us, strideU, width / 2, height / 2, tw / 2, th / 2)),
                        Draw(tw / 2, th / 2, PlaneAt(vs, strideV, width / 2, height / 2, tw / 2, th / 2)), tw))
  }

  /**
   Which samples make a pixel of the working frame: of each plane, the one of whose part of the frame the pixel, or its
   2x2 block, starts in.
   */
  lemma WorkingPixel(ys: seq<Byte>, strideY: nat, us: seq<Byte>, strideU: nat, vs: seq<Byte>, strideV: nat,
                     width: nat, height: nat, tw: nat, th: nat, y: int, x: int, sy: int, sx: int, cy: int, cx: int)
    requires PlanesHold(ys, strideY, us, strideU, vs, strideV, width, height) && tw % 2 == 0 && th % 2 == 0
    requires StartsIn(y, th, sy, height) && StartsIn(x, tw, sx, width)
    requires StartsIn(y / 2, th / 2, cy, height / 2) && StartsIn(x / 2, tw / 2, cx, width / 2)
    ensures 0 <= sy * strideY + sx < |ys|
    ensures 0 <= cy * strideU + cx < |us| && 0 <= cy * strideV + cx < |vs| && 0 <= y * tw + x < tw * th
    ensures WorkingFrame(ys, strideY, us, strideU, vs, strideV, width, height, tw, th)[y * tw + x]
            == YuvToArgb(ys[sy * strideY + sx], us[cy * strideU + cx], vs[cy * strideV + cx])
  {
    var inY := Draw(tw, th, PlaneAt(ys, strideY, width, height, tw, th));
    var inU := Draw(tw / 2, th / 2, PlaneAt(us, strideU, width / 2, height / 2, tw / 2, th / 2));
    var inV := Draw(tw / 2, th / 2, PlaneAt(vs, strideV, width / 2, height / 2, tw / 2, th / 2));
    PlaneCell(ys, strideY, width, height, tw, th, y, x, sy, sx);
    PlaneCell(us, strideU, width / 2, height / 2, tw / 2, th / 2, y / 2, x / 2, cy, cx);
    PlaneCell(vs, strideV, width / 2, height / 2, tw / 2, th / 2, y / 2, x / 2, cy, cx);
    SampledPixel(inY, inU, inV, tw, th, y, x, ys[sy * strideY + sx], us[cy * strideU + cx], vs[cy * strideV + cx]);
  }

  lemma SampledPixel(inY: seq<Byte>, inU: seq<Byte>, inV: seq<Byte>, tw: nat, th: nat, y: int, x: int, yv: Byte,
                     uv: Byte, vv: Byte)
    requires IsI420(inY, inU, inV, tw, th) && 0 <= y < th && 0 <= x < tw
    requires var i, j := y * tw + x, y / 2 * (tw / 2) + x / 2;
             && 0 <= i < |inY| && 0 <= j < |inU|
             && inY[i] == yv && inU[j] == uv && inV[j] == vv
    ensures 0 <= y * tw + x < tw * th
    ensures Draw(tw, th, ArgbAt(inY, inU, inV, tw))[y * tw + x] == YuvToArgb(yv, uv, vv)
  {
    DrawnPixel(inY, inU, inV, tw, th, y, x);
  }

  /** The source's planes are as large as its dimensions and strides say. */
  predicate PlanesHold(ys: seq<Byte>, strideY: nat, us: seq<Byte>, strideU: nat, vs: seq<Byte>, strideV: nat,
        width: nat, height: nat) {
    && PlaneHolds(ys, strideY, width, height)
    && PlaneHolds(us, strideU, width / 2, height / 2)
    && PlaneHolds(vs, strideV, width / 2, height / 2)
  }

  /** What a caller can check of a frame: no side below 2, nor scaled below 2 by an extreme aspect ratio. */
  predicate UsableFrame(width: nat, height: nat) {
    var longSide := Max(width, height);
    && width >= 2 && height >= 2
    && (longSide > PROCESSING_LONG_SIDE ==> Min(width, height) * PROCESSING_LONG_SIDE >= 2 * longSide)
  }

  /** Exactly when a frame has a target of at least 2x2. */
  lemma UsableTargetIff(width: nat, height: nat)
    ensures var (tw, th) := TargetSize(width, height, PROCESSING_LONG_SIDE);
            tw >= 2 && th >= 2 <==> UsableFrame(width, height)
  {
    var longSide := Max(width, height);
    if longSide > PROCESSING_LONG_SIDE {
      AtLeastTwo(width * PROCESSING_LONG_SIDE, longSide);
      AtLeastTwo(height * PROCESSING_LONG_SIDE, longSide);
    }
  }

  /** Where the segmenter's input reads the working frame. */
  function SegmenterRead(tw: nat, th: nat, y: nat, x: nat): int {
    At(tw, y * th / SEGMENTER_SIZE, x * tw / SEGMENTER_SIZE)
  }

  /**
   The source has no guard for the other frames. Exactly on them the working frame is empty, and every read that the
   segmenter's input makes of it, the first at index 0, is out of its bounds.
   */
  lemma ReadsOutsideIff(ys: seq<Byte>, strideY: nat, us: seq<Byte>, strideU: nat, vs: seq<Byte>, strideV: nat,
                        width: nat, height: nat)
    ensures var (tw, th) := TargetSize(width, height, PROCESSING_LONG_SIDE);
            && tw >= 0 && th >= 0
            && var frame := WorkingFrame(ys, strideY, us, strideU, vs, strideV, width, height, tw, th);
               && (!UsableFrame(width, height) <==> frame == [])
               && SegmenterRead(tw, th, 0, 0) == 0
               && (forall y: nat, x: nat | y < SEGMENTER_SIZE && x < SEGMENTER_SIZE ::
                     (0 <= SegmenterRead(tw, th, y, x) < |frame| <==> UsableFrame(width, height)))
  {
    TargetSizeMeaning(width, height);
    UsableTargetIff(width, height);
    var (tw, th) := TargetSize(width, height, PROCESSING_LONG_SIDE);
    MulMono(0, tw, th);
    if UsableFrame(width, height) {
      MulMono(1, tw, th);
      forall y: nat, x: nat | y < SEGMENTER_SIZE && x < SEGMENTER_SIZE
        ensures 0 <= SegmenterRead(tw, th, y, x) < tw * th
      {
        ScaledIndexInRange(y, th, SEGMENTER_SIZE);
        ScaledIndexInRange(x, tw, SEGMENTER_SIZE);
        RowMajorInRange(y * th / SEGMENTER_SIZE, x * tw / SEGMENTER_SIZE, th, tw);
      }
    }
  }

  /** Concrete frames without a target: a single pixel, and a strip whose short side is scaled away. */
  lemma NoTarget()
    ensures TargetSize(1, 1, PROCESSING_LONG_SIDE) == (0, 0) && !UsableFrame(1, 1)
    ensures TargetSize(2562, 2, PROCESSING_LONG_SIDE) == (1280, 0) && !UsableFrame(2562, 2)
  {
  }

  lemma AtLeastTwo(n: nat, d: nat)
    requires d > 0
    ensures Even(n / d) >= 2 <==> n >= 2 * d
  {
    var q := n / d;
    assert n == q * d + n % d;
    if q >= 2 {
      MulMono(2, q, d);
    } else {
      MulMono(q, 1, d);
    }
  }

  class Engine {
    const f: Foreign
    var mode: Mode
    var sigma: real
    var opacity: real
    var maskEdge: Tuning
    var replacementArgb: seq<Word>
    var replacementWidth: nat
    var replacementHeight: nat

    var toneLutsValid: bool
    var toneLutEdge: Tuning
    var solidifyLut: seq<Byte>
    var gammaLut: seq<Byte>
    var replacementPlate: seq<Word>
    var replacementPlateWidth: nat
    var replacementPlateHeight: nat

    function Current(): Settings
      reads this
    {
      Settings(mode, sigma, opacity, maskEdge, replacementArgb, replacementWidth, replacementHeight)
    }

    function Cached(): Caches
      reads this
    {
      Caches(replacementPlate, replacementPlateWidth, replacementPlateHeight, toneLutsValid, toneLutEdge, solidifyLut,
          gammaLut)
    }

    ghost predicate Valid()
      reads this
    {
      f.Valid() && Coherent(f, Current(), Cached())
    }

    constructor (f: Foreign)
      requires f.Valid()
      ensures Valid() && this.f == f && Current() == Defaults()
    {
      this.f := f;
      mode, sigma, opacity := BlurMode, DEFAULT_BLUR_SIGMA, 0.1;
      maskEdge := Tuning(0.010, 0.002, 6.0, 0.55, 1.0);
      replacementArgb, replacementWidth, replacementHeight := [], 0, 0;
      toneLutsValid, toneLutEdge := false, Tuning(0.010, 0.002, 6.0, 0.55, 1.0);
      solidifyLut, gammaLut := seq(256, _ => 0), seq(256, _ => 0);
      replacementPlate, replacementPlateWidth, replacementPlateHeight := [], 0, 0;
    }

    method SetBackgroundMode(m: Mode)
      requires Valid()
      modifies this
      ensures Valid() && Current() == Configured(old(Current()), SetMode(m)) && Cached() == old(Cached())
      ensures mode == m
    {
      mode := m;
    }

    method SetBlurConfig(blurSigma: real, obscureOpacity: real)
      requires Valid()
      modifies this
      ensures Valid() && Current() == Configured(old(Current()), SetBlur(blurSigma, obscureOpacity))
      ensures Cached() == old(Cached())
      ensures sigma == ClampReal(blurSigma, 4.0, 256.0) && opacity == ClampReal(obscureOpacity, 0.0, 1.0)
    {
      sigma := ClampReal(blurSigma, 4.0, 256.0);
      opacity := ClampReal(obscureOpacity, 0.0, 1.0);
    }

    method SetMaskEdgeTuning(edge: Tuning)
      requires Valid()
      modifies this
      ensures Valid() && Current() == Configured(old(Current()), SetEdge(edge)) && Cached() == old(Cached())
      ensures Permitted(maskEdge) && (Permitted(edge) ==> maskEdge == edge)
    {
      maskEdge := Clamped(edge);
    }

    method InvalidateReplacementPlate()
      modifies this`replacementPlate, this`replacementPlateWidth, this`replacementPlateHeight
      ensures Cached() == NoPlate(old(Cached())) && Current() == old(Current())
    {
      replacementPlate, replacementPlateWidth, replacementPlateHeight := [], 0, 0;
    }

    /** Clearing succeeds; a picture with no pixels clears too but is reported as unusable. */
    method SetReplacementImage(rgba: Option<seq<Byte>>, width: int, height: int) returns (ok: bool)
      requires Valid() && SetImage(rgba, width, height).Valid()
      modifies this
      ensures Valid()
      ensures Current() == Configured(old(Current()), SetImage(rgba, width, height))
      ensures Cached() == Recached(f, old(Current()), old(Cached()), SetImage(rgba, width, height))
      ensures ok == (rgba.None? || (width > 0 && height > 0))
    {
      CallKeepsCoherence(f, Current(), Cached(), SetImage(rgba, width, height));
      if rgba.None? || width <= 0 || height <= 0 {
        replacementArgb, replacementWidth, replacementHeight := [], 0, 0;
        InvalidateReplacementPlate();
        return rgba.None?;
      }
      MulMono(0, width, height);
      var count := width * height;
      replacementArgb := ImageFromRgba(rgba.value, count);
      replacementWidth, replacementHeight := width, height;
      InvalidateReplacementPlate();
      return true;
    }

    method EnsureToneLuts()
      requires Valid()
      modifies this`toneLutsValid, this`toneLutEdge, this`solidifyLut, this`gammaLut
      ensures Valid() && Current() == old(Current())
      ensures Cached() == EnsuredLuts(f, Current(), old(Cached()))
      ensures solidifyLut == SolidifyLut(maskEdge) && gammaLut == GammaLut(f, maskEdge)
    {
      if toneLutsValid && toneLutEdge == maskEdge {
        return;
      }
      solidifyLut := SolidifyLut(maskEdge);
      gammaLut := GammaLut(f, maskEdge);
      toneLutEdge := maskEdge;
      toneLutsValid := true;
    }

    method ErodeRaw(raw: seq<Byte>, radius: real) returns (mask: seq<Byte>)
      requires |raw| == SEGMENTER_SIZE * SEGMENTER_SIZE
      ensures mask == Eroded(raw, SEGMENTER_SIZE, SEGMENTER_SIZE, Trunc(radius + 0.5))
    {
      var small := new Byte[|raw|](i requires 0 <= i < |raw| => raw[i]);
      assert small[..] == raw;
      ErodeMask(small, SEGMENTER_SIZE, SEGMENTER_SIZE, radius);
      if Trunc(radius + 0.5) >= 1 {
        ErosionIsEroded(raw, small[..], SEGMENTER_SIZE, SEGMENTER_SIZE, Trunc(radius + 0.5));
      }
      mask := small[..];
    }

    /** Erode, solidify, feather, gamma, with the cached tables. */
    method ShapeMaskEdge(raw: seq<Byte>) returns (mask: seq<Byte>)
      requires Valid() && |raw| == SEGMENTER_SIZE * SEGMENTER_SIZE
      modifies this`toneLutsValid, this`toneLutEdge, this`solidifyLut, this`gammaLut
      ensures Valid() && Current() == old(Current()) && Cached() == EnsuredLuts(f, Current(), old(Cached()))
      ensures |mask| == SEGMENTER_SIZE * SEGMENTER_SIZE
      ensures mask == ShapedWith(f, maskEdge, raw, SolidifyLut(maskEdge), GammaLut(f, maskEdge))
    {
      EnsureToneLuts();
      mask := ShapeRaw(raw, maskEdge, solidifyLut, gammaLut);
    }

    /** The four stages, in their order. */
    method ShapeRaw(raw: seq<Byte>, edge: Tuning, solidify: seq<Byte>, gamma: seq<Byte>) returns (mask: seq<Byte>)
      requires f.Valid() && |raw| == SEGMENTER_SIZE * SEGMENTER_SIZE && |solidify| == |gamma| == 256
      ensures mask == ShapedWith(f, edge, raw, solidify, gamma)
    {
      mask := ErodeRaw(raw, edge.erode * SEGMENTER_SIZE as real);
      if edge.slope > 1.0 {
        mask := Lookup(mask, solidify);
      }
      var sigma := edge.feather * SEGMENTER_SIZE as real;
      mask := f.feather(mask, if sigma < MASK_FEATHER_SIGMA_FLOOR then MASK_FEATHER_SIGMA_FLOOR else sigma);
      if edge.gamma != 1.0 {
        mask := Lookup(mask, gamma);
      }
    }

    /** The blurred plate: down, three blurs in place, up again, veil. */
    method BlurredPlate(input: seq<Word>, w: nat, h: nat) returns (plate: seq<Word>)
      requires |input| == w * h && 0 < w && 0 < h
      ensures plate == BlurPlate(Current(), input, w, h)
    {
      var sw, sh := SmallSide(w), SmallSide(h);
      var small := ResizeArgbNearest(input, w, h, sw, sh);
      var radius := BlurRadiusForSigma(sigma);
      BlurOnce(small, sw, sh, radius);
      BlurOnce(small, sw, sh, radius);
      BlurOnce(small, sw, sh, radius);
      var blurredWork := ResizeArgbNearest(small[..], sw, sh, w, h);
      ApplyObscureVeil(blurredWork, opacity);
      plate := blurredWork[..];
    }

    method BlurOnce(pixels: array<Word>, w: nat, h: nat, radius: nat)
      requires IsImage(pixels[..], w, h) && radius >= 1
      modifies pixels
      ensures pixels[..] == BlurImage(old(pixels[..]), w, h, radius)
    {
      BoxBlurArgb(pixels, w, h, radius);
      BlurIsImage(old(pixels[..]), pixels[..], w, h, radius);
    }

    /** The plate used is a fresh one, even when it comes from the cache. */
    method BackgroundPlate(input: seq<Word>, w: nat, h: nat) returns (plate: seq<Word>)
      requires Valid() && |input| == w * h && 0 < w && 0 < h
      modifies this`replacementPlate, this`replacementPlateWidth, this`replacementPlateHeight
      ensures Valid() && Current() == old(Current()) && Cached() == EnsuredPlate(Current(), old(Cached()), w, h)
      ensures plate == FreshPlate(Current(), input, w, h)
      ensures mode == ImageMode && replacementWidth > 0 && replacementHeight > 0 ==>
                plate == Cover(replacementArgb, replacementWidth, replacementHeight, w, h)
      ensures mode == BlurMode || replacementWidth == 0 || replacementHeight == 0 ==>
                plate == BlurPlate(Current(), input, w, h)
    {
      if Current().UsesImage() {
        if replacementPlateWidth != w || replacementPlateHeight != h {
          replacementPlate := ResizeArgbCover(replacementArgb, replacementWidth, replacementHeight, w, h);
          replacementPlateWidth, replacementPlateHeight := w, h;
        }
        return replacementPlate;
      }
      plate := BlurredPlate(input, w, h);
    }

    /** Composes a working frame: segment, shape, choose the plate, blend. */
    method ComposeFrame(input: seq<Word>, w: nat, h: nat) returns (composed: array<Word>)
      requires Valid() && |input| == w * h && 0 < w && 0 < h
      modifies this
      ensures Valid() && Current() == old(Current())
      ensures Cached() == Recached(f, Current(), old(Cached()), Process(input, w, h))
      ensures fresh(composed) && composed[..] == FreshFrame(f, Current(), input, w, h)
    {
      var small := ResizeArgbNearest(input, w, h, SEGMENTER_SIZE, SEGMENTER_SIZE);
      var mask := ShapeMaskEdge(f.segment(small[..]));
      var plate := BackgroundPlate(input, w, h);
      composed := Compose(input, plate, mask, SEGMENTER_SIZE, SEGMENTER_SIZE, w, h);
    }

    /** One camera frame, I420 in and out. */
    method ProcessI420(ys: seq<Byte>, strideY: nat, us: seq<Byte>, strideU: nat, vs: seq<Byte>, strideV: nat,
          width: nat, height: nat)
      returns (outY: array<Byte>, outU: array<Byte>, outV: array<Byte>, tw: nat, th: nat)
      requires Valid() && PlanesHold(ys, strideY, us, strideU, vs, strideV, width, height)
      requires UsableFrame(width, height)
      modifies this
      ensures Valid() && Current() == old(Current())
      ensures (tw, th) == TargetSize(width, height, PROCESSING_LONG_SIDE)
      ensures var input := WorkingFrame(ys, strideY, us, strideU, vs, strideV, width, height, tw, th);
              var frame := FreshFrame(f, Current(), input, tw, th);
              && outY[..] == Draw(tw, th, LumaAt(frame, tw))
              && outU[..] == Draw(tw / 2, th / 2, ChromaUAt(frame, tw))
              && outV[..] == Draw(tw / 2, th / 2, ChromaVAt(frame, tw))
    {
      TargetSizeMeaning(width, height);
      UsableTargetIff(width, height);
      var size := TargetSize(width, height, PROCESSING_LONG_SIDE);
      tw, th := size.0, size.1;
      var inY := SamplePlane(ys, strideY, width, height, tw, th);
      var inU := SamplePlane(us, strideU, width / 2, height / 2, tw / 2, th / 2);
      var inV := SamplePlane(vs, strideV, width / 2, height / 2, tw / 2, th / 2);
      var work := I420ToArgb(inY[..], inU[..], inV[..], tw, th);
      var composed := ComposeFrame(work[..], tw, th);
      outY, outU, outV := ArgbToI420(composed[..], tw, th);
    }
  }
}

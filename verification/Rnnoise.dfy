/**
 The RNNoise processor on interleaved samples, in place. The batch path re-aligns a denoiser that runs one
 frame behind. Samples are exact reals.
 */
module Rnnoise {
  import opened Arith

  type Sample = real

  type Frame = seq<Sample>

  const MAX_FRAME := 512

  /**
   The denoiser: the frame it returns, and the voice activity, may depend on every frame fed before and on
   the one being fed.
   */
  datatype Denoiser = Denoiser(size: nat, output: (seq<Frame>, Frame) -> Frame, vad: (seq<Frame>, Frame) -> real)
  {
    ghost predicate Valid() {
      forall fed, frame :: |output(fed, frame)| == size
    }

    /** One frame behind: what comes out is some `g` of the frame fed before. */
    ghost predicate OneBehind(g: Frame -> Frame) {
      forall fed: seq<Frame>, frame | fed != [] :: output(fed, frame) == g(fed[|fed| - 1])
    }
  }

  // ----- Interleaved buffers, one channel at a time -----

  function Channel(samples: seq<Sample>, channels: nat, ch: nat): (view: seq<Sample>)
    requires channels > 0 && ch < channels && |samples| % channels == 0
    ensures |view| == |samples| / channels
  {
    seq(|samples| / channels, j requires 0 <= j < |samples| / channels =>
      InterleavedInRange(|samples|, channels, ch, j); samples[j * channels + ch])
  }

  lemma InterleavedInRange(n: nat, channels: nat, ch: nat, j: int)
    requires channels > 0 && ch < channels && n % channels == 0 && 0 <= j < n / channels
    ensures 0 <= j * channels + ch < n
  {
    RowMajorInRange(j, ch, n / channels, channels);
  }

  /** `samples` with the frame at `start` of one channel replaced. */
  function WithFrame(view: seq<Sample>, start: nat, frame: Frame): (after: seq<Sample>)
    requires start + |frame| <= |view|
    ensures |after| == |view|
  {
    view[..start] + frame + view[start + |frame|..]
  }

  method ReadFrame(samples: array<Sample>, channels: nat, ch: nat, start: nat, size: nat) returns (frame: Frame)
    requires channels > 0 && ch < channels && samples.Length % channels == 0
    requires start + size <= samples.Length / channels
    ensures frame == Channel(samples[..], channels, ch)[start..start + size]
  {
    frame := [];
    for i := 0 to size
      invariant frame == Channel(samples[..], channels, ch)[start..start + i]
    {
      InterleavedInRange(samples.Length, channels, ch, start + i);
      frame := frame + [samples[(start + i) * channels + ch]];
    }
  }

  /** Writing one sample changes one position of one channel. */
  lemma StoreSample(before: seq<Sample>, after: seq<Sample>, channels: nat, ch: nat, j: nat, v: Sample)
    requires channels > 0 && ch < channels && |before| % channels == 0 && j < |before| / channels
    requires 0 <= j * channels + ch < |before| && after == before[j * channels + ch := v]
    ensures Channel(after, channels, ch) == Channel(before, channels, ch)[j := v]
    ensures forall c | 0 <= c < channels && c != ch :: Channel(after, channels, c) == Channel(before, channels, c)
  {
    forall c, k | 0 <= c < channels && 0 <= k < |before| / channels
      ensures Channel(after, channels, c)[k] == if c == ch && k == j then v else Channel(before, channels, c)[k]
    {
      InterleavedInRange(|before|, channels, c, k);
      if k * channels + c == j * channels + ch {
        DigitsUnique(k, c, j, ch, channels);
      }
    }
    forall c | 0 <= c < channels && c != ch
      ensures Channel(after, channels, c) == Channel(before, channels, c)
    {
      assert forall k | 0 <= k < |before| / channels ::
          Channel(after, channels, c)[k] == Channel(before, channels, c)[k];
    }
  }

  /** Every channel but `ch` reads the same. */
  ghost predicate OthersKept(before: seq<Sample>, after: seq<Sample>, channels: nat, ch: nat)
    requires channels > 0 && |before| == |after| && |before| % channels == 0
  {
    forall c | 0 <= c < channels && c != ch :: Channel(after, channels, c) == Channel(before, channels, c)
  }

  method WriteFrame(samples: array<Sample>, channels: nat, ch: nat, start: nat, frame: Frame)
    requires channels > 0 && ch < channels && samples.Length % channels == 0
    requires start + |frame| <= samples.Length / channels
    modifies samples
    ensures Channel(samples[..], channels, ch) == WithFrame(Channel(old(samples[..]), channels, ch), start, frame)
    ensures OthersKept(old(samples[..]), samples[..], channels, ch)
  {
    ghost var view := Channel(samples[..], channels, ch);
    for i := 0 to |frame|
      invariant Channel(samples[..], channels, ch) == WithFrame(view, start, frame[..i])
      invariant OthersKept(old(samples[..]), samples[..], channels, ch)
    {
      InterleavedInRange(samples.Length, channels, ch, start + i);
      ghost var before := samples[..];
      samples[(start + i) * channels + ch] := frame[i];
      StoreSample(before, samples[..], channels, ch, start + i, frame[i]);
      assert WithFrame(view, start, frame[..i])[start + i := frame[i]] == WithFrame(view, start, frame[..i + 1]);
    }
    assert frame[..|frame|] == frame;
  }

  // ----- What the batch path does to one channel -----

  function FrameAt(view: seq<Sample>, size: nat, k: nat): Frame
    requires size > 0 && k < |view| / size
  {
    WholeFrame(view, size, k);
    view[k * size..k * size + size]
  }

  lemma WholeFrame(view: seq<Sample>, size: nat, k: nat)
    requires size > 0 && k < |view| / size
    ensures 0 <= k * size && k * size + size <= |view|
  {
    MulMono(k + 1, |view| / size, size);
    MulDistrib(k, 1, size);
  }

  /** The first `n` frames of a channel. */
  function Frames(view: seq<Sample>, size: nat, n: nat): (frames: seq<Frame>)
    requires size > 0 && n <= |view| / size
    ensures |frames| == n
  {
    seq(n, k requires 0 <= k < n => FrameAt(view, size, k))
  }

  function Zero(size: nat): Frame { seq(size, _ => 0.0) }

  /** What is fed right after frame `k`: the next frame, or the silent frame that flushes the last one. */
  function Following(view: seq<Sample>, size: nat, k: nat): Frame
    requires size > 0 && k < |view| / size
  {
    if k + 1 < |view| / size then FrameAt(view, size, k + 1) else Zero(size)
  }

  /** What frame `k` is replaced with: the denoiser's answer to the frame after it. */
  function Replacement(d: Denoiser, fed: seq<Frame>, view: seq<Sample>, k: nat): Frame
    requires d.size > 0 && k < |view| / d.size
  {
    d.output(fed + Frames(view, d.size, k + 1), Following(view, d.size, k))
  }

  /** A channel with its first `n` frames replaced. */
  ghost function Replaced(d: Denoiser, fed: seq<Frame>, view: seq<Sample>, n: nat): (after: seq<Sample>)
    requires d.size > 0 && d.Valid() && n <= |view| / d.size
    ensures |after| == |view|
  {
    if n == 0 then view
    else
      WholeFrame(view, d.size, n - 1);
      WithFrame(Replaced(d, fed, view, n - 1), (n - 1) * d.size, Replacement(d, fed, view, n - 1))
  }

  /** Everything the batch path feeds for one channel: its whole frames, then one silent frame if there were any. */
  function FedBy(d: Denoiser, view: seq<Sample>): seq<Frame>
    requires d.size > 0
  {
    var n := |view| / d.size;
    Frames(view, d.size, n) + if n > 0 then [Zero(d.size)] else []
  }

  /** One more frame replaced: the frames before it stay, it is the replacement, the rest is untouched. */
  lemma {:induction false} FramesWritten(before: seq<Sample>, size: nat, n: nat, frame: Frame)
    requires size > 0 && 1 <= n <= |before| / size && |frame| == size
    requires (n - 1) * size + size <= |before|
    ensures var after := WithFrame(before, (n - 1) * size, frame);
            && 0 <= n * size <= |before| && after[n * size..] == before[n * size..]
            && FrameAt(after, size, n - 1) == frame
            && forall k | 0 <= k < n - 1 :: FrameAt(after, size, k) == FrameAt(before, size, k)
  {
    MulDistrib(n, 1, size);
    WholeFrame(before, size, n - 1);
    forall k | 0 <= k < n - 1
      ensures FrameAt(WithFrame(before, (n - 1) * size, frame), size, k) == FrameAt(before, size, k)
    {
      WholeFrame(before, size, k);
      MulMono(k + 1, n - 1, size);
      MulDistrib(k, 1, size);
    }
  }

  lemma {:induction false} SuffixShrinks(a: seq<Sample>, b: seq<Sample>, p: nat, q: nat)
    requires p <= q <= |a| == |b| && a[p..] == b[p..]
    ensures a[q..] == b[q..]
  {
    assert a[q..] == a[p..][q - p..];
    assert b[q..] == b[p..][q - p..];
  }

  /** Exactly the first `n` frames are replaced; everything after them is as it was. */
  lemma {:induction false} ReplacedFrames(d: Denoiser, fed: seq<Frame>, view: seq<Sample>, n: nat)
    requires d.size > 0 && d.Valid() && n <= |view| / d.size
    ensures 0 <= n * d.size <= |view| && Replaced(d, fed, view, n)[n * d.size..] == view[n * d.size..]
    ensures forall k | 0 <= k < n :: FrameAt(Replaced(d, fed, view, n), d.size, k) == Replacement(d, fed, view, k)
  {
    if n != 0 {
      var earlier := Replaced(d, fed, view, n - 1);
      ReplacedFrames(d, fed, view, n - 1);
      WholeFrame(view, d.size, n - 1);
      FramesWritten(earlier, d.size, n, Replacement(d, fed, view, n - 1));
      MulDistrib(n, 1, d.size);
      SuffixShrinks(earlier, view, (n - 1) * d.size, n * d.size);
    }
  }

  /** While frame `k` has not been overtaken, it still reads as the original. */
  lemma {:induction false} NextFrameIntact(d: Denoiser, fed: seq<Frame>, view: seq<Sample>, n: nat, k: nat)
    requires d.size > 0 && d.Valid() && n <= k < |view| / d.size
    ensures FrameAt(Replaced(d, fed, view, n), d.size, k) == FrameAt(view, d.size, k)
  {
    ReplacedFrames(d, fed, view, n);
    WholeFrame(view, d.size, k);
    MulMono(n, k, d.size);
    var skip, offset := n * d.size, k * d.size - n * d.size;
    assert view[k * d.size..k * d.size + d.size] == view[skip..][offset..offset + d.size];
  }

  // ----- The loops -----

  /** Where the batch loop stands after feeding `j` frames: all but the last have been written back. */
  ghost predicate BatchState(d: Denoiser, before: seq<Sample>, after: seq<Sample>, channels: nat, ch: nat,
                             fed: seq<Frame>, fed': seq<Frame>, j: nat)
    requires d.size > 0 && d.Valid() && channels > 0 && ch < channels && |before| == |after| && |before| % channels == 0
  {
    var view := Channel(before, channels, ch);
    && j <= |view| / d.size
    && fed' == fed + Frames(view, d.size, j)
    && Channel(after, channels, ch) == Replaced(d, fed, view, if j > 0 then j - 1 else 0)
    && OthersKept(before, after, channels, ch)
  }

  /** The voice activity reported is that of the frame fed last, and 0 when there was none. */
  ghost predicate VadOfLast(d: Denoiser, perChannel: nat, fed: seq<Frame>, vad: real) {
    if perChannel < d.size then vad == 0.0
    else fed != [] && vad == d.vad(fed[..|fed| - 1], fed[|fed| - 1])
  }

  lemma LastFed(d: Denoiser, perChannel: nat, fed: seq<Frame>, frame: Frame)
    requires perChannel >= d.size
    ensures VadOfLast(d, perChannel, fed + [frame], d.vad(fed, frame))
  {
    assert (fed + [frame])[..|fed|] == fed;
  }

  /** The replacement of a frame is what the denoiser returns for the frame after it. */
  lemma {:induction false} AnswerIsReplacement(d: Denoiser, fed: seq<Frame>, view: seq<Sample>, j: nat, next: Frame)
    requires d.size > 0 && 1 <= j <= |view| / d.size
    requires next == if j < |view| / d.size then FrameAt(view, d.size, j) else Zero(d.size)
    ensures d.output(fed + Frames(view, d.size, j), next) == Replacement(d, fed, view, j - 1)
  {
  }

  /** Feeds frame `j` and writes the answer back over frame `j - 1`. */
  method FeedFrame(d: Denoiser, samples: array<Sample>, channels: nat, ch: nat, fed': seq<Frame>, frameStart: nat,
                   prevFrameStart: nat, hasPrevFrame: bool, ghost before: seq<Sample>, ghost fed: seq<Frame>,
                   ghost j: nat)
    returns (inFrame: Frame, vad: real)
    requires d.Valid() && 0 < d.size && channels > 0 && ch < channels && samples.Length % channels == 0
    requires |before| == samples.Length && BatchState(d, before, samples[..], channels, ch, fed, fed', j)
    requires frameStart == j * d.size && frameStart + d.size <= samples.Length / channels
    requires hasPrevFrame == (j > 0) && (j > 0 ==> prevFrameStart == (j - 1) * d.size)
    modifies samples
    ensures BatchState(d, before, samples[..], channels, ch, fed, fed' + [inFrame], j + 1)
  {
    ghost var view := Channel(before, channels, ch);
    FrameFits(view, d.size, j);
    NextFrameIntact(d, fed, view, if j > 0 then j - 1 else 0, j);
    inFrame := ReadFrame(samples, channels, ch, frameStart, d.size);
    assert inFrame == FrameAt(view, d.size, j);
    var outFrame := d.output(fed', inFrame);
    vad := d.vad(fed', inFrame);
    if hasPrevFrame {
      AnswerIsReplacement(d, fed, view, j, inFrame);
      WholeFrame(view, d.size, j - 1);
      WriteFrame(samples, channels, ch, prevFrameStart, outFrame);
    }
    assert fed + Frames(view, d.size, j) + [inFrame] == fed + Frames(view, d.size, j + 1);
  }

  /** One channel of the batch path. */
  method BatchChannel(d: Denoiser, samples: array<Sample>, channels: nat, ch: nat, fed: seq<Frame>)
    returns (fed': seq<Frame>, vad: real)
    requires d.Valid() && 0 < d.size <= MAX_FRAME
    requires channels > 0 && ch < channels && samples.Length % channels == 0
    modifies samples
    ensures var view := Channel(old(samples[..]), channels, ch);
            && Channel(samples[..], channels, ch) == Replaced(d, fed, view, |view| / d.size)
            && fed' == fed + FedBy(d, view)
    ensures OthersKept(old(samples[..]), samples[..], channels, ch)
    ensures VadOfLast(d, samples.Length / channels, fed', vad)
  {
    ghost var before := samples[..];
    ghost var view := Channel(before, channels, ch);
    fed', vad := fed, 0.0;
    var prevFrameStart: nat, hasPrevFrame := 0, false;
    var frameStart: nat := 0;
    ghost var j: nat := 0;
    assert fed + Frames(view, d.size, 0) == fed;
    while frameStart + d.size <= samples.Length / channels
      invariant frameStart == j * d.size && hasPrevFrame == (j > 0)
      invariant j > 0 ==> prevFrameStart == (j - 1) * d.size
      invariant BatchState(d, before, samples[..], channels, ch, fed, fed', j) && (j == 0 ==> vad == 0.0)
      decreases samples.Length / channels - frameStart
    {
      var inFrame;
      inFrame, vad := FeedFrame(d, samples, channels, ch, fed', frameStart, prevFrameStart, hasPrevFrame,
        before, fed, j);
      fed' := fed' + [inFrame];
      prevFrameStart, hasPrevFrame := frameStart, true;
      MulDistrib(j, 1, d.size);
      frameStart := frameStart + d.size;
      j := j + 1;
    }
    AllFramesRead(|view|, d.size, j);
    assert j == 0 ==> fed' == fed + FedBy(d, view);
    if hasPrevFrame {
      fed', vad := FlushLast(d, samples, channels, ch, fed', prevFrameStart, before, fed, j);
    }
  }

  /** Feeds one silent frame to bring out the answer for the last whole frame. */
  method FlushLast(d: Denoiser, samples: array<Sample>, channels: nat, ch: nat, fed': seq<Frame>, prevFrameStart: nat,
                   ghost before: seq<Sample>, ghost fed: seq<Frame>, ghost n: nat)
    returns (fed'': seq<Frame>, vad: real)
    requires d.Valid() && 0 < d.size && channels > 0 && ch < channels && samples.Length % channels == 0
    requires |before| == samples.Length && BatchState(d, before, samples[..], channels, ch, fed, fed', n)
    requires n == |Channel(before, channels, ch)| / d.size && n > 0 && prevFrameStart == (n - 1) * d.size
    modifies samples
    ensures Channel(samples[..], channels, ch) == Replaced(d, fed, Channel(before, channels, ch), n)
    ensures fed'' == fed + FedBy(d, Channel(before, channels, ch))
    ensures OthersKept(before, samples[..], channels, ch)
    ensures VadOfLast(d, samples.Length / channels, fed'', vad)
  {
    ghost var view := Channel(before, channels, ch);
    var flush := Zero(d.size);
    AnswerIsReplacement(d, fed, view, n, flush);
    var outFrame := d.output(fed', flush);
    vad := d.vad(fed', flush);
    WholeFrame(view, d.size, n - 1);
    WriteFrame(samples, channels, ch, prevFrameStart, outFrame);
    assert fed + Frames(view, d.size, n) + [flush] == fed + FedBy(d, view);
    fed'' := fed' + [flush];
    WholeFrame(view, d.size, 0);
    LastFed(d, samples.Length / channels, fed', flush);
  }

  lemma {:induction false} FrameFits(view: seq<Sample>, size: nat, j: nat)
    requires size > 0 && j * size + size <= |view|
    ensures j < |view| / size
  {
    assert |view| == (|view| / size) * size + |view| % size;
    if j >= |view| / size {
      MulMono(|view| / size, j, size);
    }
  }

  lemma {:induction false} AllFramesRead(n: nat, size: nat, j: nat)
    requires size > 0 && j <= n / size && j * size + size > n
    ensures j == n / size
  {
    assert n == (n / size) * size + n % size;
    if j < n / size {
      MulMono(j + 1, n / size, size);
      MulDistrib(j, 1, size);
    }
  }

  /** What one channel ends as, given everything fed before it, and what it adds to that. */
  ghost function ChannelResult(d: Denoiser, fed: seq<Frame>, view: seq<Sample>): seq<Sample>
    requires d.size > 0 && d.Valid()
  {
    if |view| == d.size then d.output(fed, view) else Replaced(d, fed, view, |view| / d.size)
  }

  function ChannelFeeds(d: Denoiser, view: seq<Sample>): seq<Frame>
    requires d.size > 0
  {
    if |view| == d.size then [view] else FedBy(d, view)
  }

  /** Everything fed by the time the first `ch` channels are done: one denoiser serves them all. */
  function FedBefore(d: Denoiser, fed: seq<Frame>, samples: seq<Sample>, channels: nat, ch: nat): seq<Frame>
    requires d.size > 0 && 0 < channels && ch <= channels && |samples| % channels == 0
  {
    if ch == 0 then fed
    else FedBefore(d, fed, samples, channels, ch - 1) + ChannelFeeds(d, Channel(samples, channels, ch - 1))
  }

  /** One channel, by whichever path its length selects. */
  method ProcessChannel(d: Denoiser, samples: array<Sample>, channels: nat, ch: nat, fed: seq<Frame>)
    returns (fed': seq<Frame>, vad: real)
    requires d.Valid() && 0 < d.size <= MAX_FRAME
    requires channels > 0 && ch < channels && samples.Length % channels == 0
    modifies samples
    ensures var view := Channel(old(samples[..]), channels, ch);
            && Channel(samples[..], channels, ch) == ChannelResult(d, fed, view)
            && fed' == fed + ChannelFeeds(d, view)
    ensures OthersKept(old(samples[..]), samples[..], channels, ch)
    ensures VadOfLast(d, samples.Length / channels, fed', vad)
  {
    if samples.Length / channels == d.size {
      var inFrame := ReadFrame(samples, channels, ch, 0, d.size);
      assert inFrame == Channel(samples[..], channels, ch);
      var outFrame := d.output(fed, inFrame);
      vad := d.vad(fed, inFrame);
      WriteFrame(samples, channels, ch, 0, outFrame);
      assert WithFrame(inFrame, 0, outFrame) == outFrame;
      fed' := fed + [inFrame];
      LastFed(d, samples.Length / channels, fed, inFrame);
    } else {
      fed', vad := BatchChannel(d, samples, channels, ch, fed);
    }
  }

  /** The channels before `c` are done, the others untouched. */
  ghost predicate DoneUpTo(d: Denoiser, fed: seq<Frame>, before: seq<Sample>, after: seq<Sample>, channels: nat, n: nat)
    requires d.size > 0 && d.Valid() && channels > 0 && n <= channels && |before| == |after| && |before| % channels == 0
  {
    forall c | 0 <= c < channels ::
      Channel(after, channels, c)
      == if c < n then ChannelResult(d, FedBefore(d, fed, before, channels, c), Channel(before, channels, c))
         else Channel(before, channels, c)
  }

  lemma {:induction false} DoneNext(d: Denoiser, fed: seq<Frame>, before: seq<Sample>, s1: seq<Sample>, s2: seq<Sample>,
        channels: nat, n: nat)
    requires d.size > 0 && d.Valid() && n < channels && |before| == |s1| == |s2| && |before| % channels == 0
    requires DoneUpTo(d, fed, before, s1, channels, n) && OthersKept(s1, s2, channels, n)
    requires Channel(s2, channels, n) == ChannelResult(d, FedBefore(d, fed, before, channels, n), 
              Channel(s1, channels, n))
    ensures DoneUpTo(d, fed, before, s2, channels, n + 1)
  {
  }

  /** `ProcessInterleavedFixed` for a given channel count. */
  method ProcessInterleavedFixed(d: Denoiser, samples: array<Sample>, channels: nat, fed: seq<Frame>)
    returns (fed': seq<Frame>, vad: real)
    requires d.Valid() && channels > 0
    modifies samples
    ensures d.size == 0 || samples.Length % channels != 0 || d.size > MAX_FRAME ==>
              samples[..] == old(samples[..]) && fed' == fed && vad == 0.0
    ensures 0 < d.size <= MAX_FRAME && samples.Length % channels == 0 ==>
              && fed' == FedBefore(d, fed, old(samples[..]), channels, channels)
              && DoneUpTo(d, fed, old(samples[..]), samples[..], channels, channels)
              && VadOfLast(d, samples.Length / channels, fed', vad)
  {
    if d.size == 0 || samples.Length % channels != 0 || d.size > MAX_FRAME {
      return fed, 0.0;
    }
    fed', vad := ProcessChannels(d, samples, channels, fed);
  }

  /** The loop over channels; a frame too long for the scratch arrays has stopped it before it starts. */
  method ProcessChannels(d: Denoiser, samples: array<Sample>, channels: nat, fed: seq<Frame>)
    returns (fed': seq<Frame>, vad: real)
    requires d.Valid() && 0 < d.size <= MAX_FRAME && channels > 0 && samples.Length % channels == 0
    modifies samples
    ensures fed' == FedBefore(d, fed, old(samples[..]), channels, channels)
    ensures DoneUpTo(d, fed, old(samples[..]), samples[..], channels, channels)
    ensures VadOfLast(d, samples.Length / channels, fed', vad)
  {
    fed', vad := fed, 0.0;
    ghost var before := samples[..];
    for ch := 0 to channels
      invariant fed' == FedBefore(d, fed, before, channels, ch)
      invariant DoneUpTo(d, fed, before, samples[..], channels, ch)
      invariant ch > 0 ==> VadOfLast(d, samples.Length / channels, fed', vad)
    {
      ghost var current := samples[..];
      fed', vad := ProcessChannel(d, samples, channels, ch, fed');
      DoneNext(d, fed, before, current, samples[..], channels, ch);
    }
  }

  // ----- What that means for a denoiser that runs one frame behind -----

  /**
   The batch path is aligned: whatever had been fed before, and whatever is in the other channels, whole
   frame `k` becomes `g` of whole frame `k`, and the trailing partial frame is unchanged.
   */
  lemma {:induction false} BatchIsAligned(d: Denoiser, g: Frame -> Frame, fed: seq<Frame>, view: seq<Sample>)
    requires d.size > 0 && d.Valid() && d.OneBehind(g) && |view| != d.size
    ensures var after, n := ChannelResult(d, fed, view), |view| / d.size;
            && |after| == |view|
            && (forall k | 0 <= k < n :: FrameAt(after, d.size, k) == g(FrameAt(view, d.size, k)))
            && 0 <= n * d.size <= |view| && after[n * d.size..] == view[n * d.size..]
  {
    var n := |view| / d.size;
    ReplacedFrames(d, fed, view, n);
    forall k | 0 <= k < n
      ensures Replacement(d, fed, view, k) == g(FrameAt(view, d.size, k))
    {
      var all := fed + Frames(view, d.size, k + 1);
      assert all[|all| - 1] == FrameAt(view, d.size, k);
    }
  }

  /** Frame `k` of channel `ch`, sample by sample in the interleaved buffer. */
  ghost predicate IsFrameOf(samples: seq<Sample>, channels: nat, ch: nat, size: nat, k: nat, frame: Frame) {
    && |frame| == size
    && forall i | 0 <= i < size :: IsSampleOf(samples, (k * size + i) * channels + ch, frame[i])
  }

  predicate IsSampleOf(samples: seq<Sample>, at: int, v: Sample) { 0 <= at < |samples| && samples[at] == v }

  lemma {:induction false} FrameInPlace(samples: seq<Sample>, channels: nat, ch: nat, size: nat, k: nat)
    requires channels > 0 && ch < channels && |samples| % channels == 0 && size > 0
    requires k < |samples| / channels / size
    ensures IsFrameOf(samples, channels, ch, size, k, FrameAt(Channel(samples, channels, ch), size, k))
  {
    var view := Channel(samples, channels, ch);
    WholeFrame(view, size, k);
    forall i | 0 <= i < size
      ensures IsSampleOf(samples, (k * size + i) * channels + ch, FrameAt(view, size, k)[i])
    {
      InterleavedInRange(|samples|, channels, ch, k * size + i);
      assert FrameAt(view, size, k)[i] == view[k * size + i];
    }
  }

  /** The same in the interleaved buffer that a batch call leaves: every channel's frames, each in its own place. */
  lemma {:induction false} BatchAlignedInPlace(d: Denoiser, g: Frame -> Frame, fed: seq<Frame>, before: seq<Sample>,
      after: seq<Sample>, channels: nat, ch: nat, k: nat) returns (frame: Frame)
    requires d.size > 0 && d.Valid() && d.OneBehind(g) && channels > 0 && ch < channels
    requires |before| == |after| && |before| % channels == 0 && |before| / channels != d.size
    requires DoneUpTo(d, fed, before, after, channels, channels) && k < |before| / channels / d.size
    ensures IsFrameOf(before, channels, ch, d.size, k, frame)
    ensures IsFrameOf(after, channels, ch, d.size, k, g(frame))
  {
    var view := Channel(before, channels, ch);
    frame := FrameAt(view, d.size, k);
    FrameInPlace(before, channels, ch, d.size, k);
    FrameInPlace(after, channels, ch, d.size, k);
    BatchIsAligned(d, g, FedBefore(d, fed, before, channels, ch), view);
  }

  /**
   The single-frame path is not: with one denoiser for both channels, the left channel comes out as `g` of
   the last frame of the previous call and the right channel as `g` of the left input.
   */
  lemma {:induction false} LiveStereoCrossesChannels(d: Denoiser, g: Frame -> Frame, fed: seq<Frame>,
        samples: seq<Sample>)
    requires 0 < d.size <= MAX_FRAME && d.Valid() && d.OneBehind(g) && |samples| == 2 * d.size && fed != []
    ensures var left, right := Channel(samples, 2, 0), Channel(samples, 2, 1);
            && ChannelResult(d, FedBefore(d, fed, samples, 2, 0), left) == g(fed[|fed| - 1])
            && ChannelResult(d, FedBefore(d, fed, samples, 2, 1), right) == g(left)
            && FedBefore(d, fed, samples, 2, 2) == fed + [left, right]
  {
    var left, right := Channel(samples, 2, 0), Channel(samples, 2, 1);
    assert FedBefore(d, fed, samples, 2, 1) == FedBefore(d, fed, samples, 2, 0) + [left] == fed + [left];
    assert (fed + [left])[|fed + [left]| - 1] == left;
  }

  /** Mono is aligned on that path, one call late: what comes out is `g` of the previous call's input. */
  lemma {:induction false} LiveMonoIsOneCallLate(d: Denoiser, g: Frame -> Frame, before: seq<Frame>,
      previous: seq<Sample>, samples: seq<Sample>)
    requires 0 < d.size <= MAX_FRAME && d.Valid() && d.OneBehind(g) && |previous| == |samples| == d.size
    ensures var fed := FedBefore(d, before, previous, 1, 1);
            ChannelResult(d, FedBefore(d, fed, samples, 1, 0), Channel(samples, 1, 0)) == g(Channel(previous, 1, 0))
  {
    var fed, last := FedBefore(d, before, previous, 1, 1), Channel(previous, 1, 0);
    assert FedBefore(d, before, previous, 1, 0) == before;
    assert fed == before + [last] && fed[|fed| - 1] == last;
  }

  /** Whether every channel of a live call is `g` of the same channel of the call before. */
  ghost predicate OneCallLate(d: Denoiser, g: Frame -> Frame, fed: seq<Frame>, previous: seq<Sample>,
        samples: seq<Sample>)
    requires d.size > 0 && d.Valid() && |previous| == |samples| == 2 * d.size
  {
    forall ch | 0 <= ch < 2 ::
      ChannelResult(d, FedBefore(d, fed, samples, 2, ch), Channel(samples, 2, ch)) == g(Channel(previous, 2, ch))
  }

  /**
   In stereo that holds only by coincidence: exactly when the denoiser makes the same of the two channels of the
   previous call and of the left channel of this one.
   */
  lemma {:induction false} LiveStereoAlignedIff(d: Denoiser, g: Frame -> Frame, before: seq<Frame>,
      previous: seq<Sample>, samples: seq<Sample>)
    requires 0 < d.size <= MAX_FRAME && d.Valid() && d.OneBehind(g) && |previous| == |samples| == 2 * d.size
    ensures var fed := FedBefore(d, before, previous, 2, 2);
            OneCallLate(d, g, fed, previous, samples) <==>
              && g(Channel(previous, 2, 0)) == g(Channel(previous, 2, 1))
              && g(Channel(samples, 2, 0)) == g(Channel(previous, 2, 1))
  {
    var fed, last := FedBefore(d, before, previous, 2, 2), Channel(previous, 2, 1);
    assert fed == FedBefore(d, before, previous, 2, 1) + [last] && fed[|fed| - 1] == last;
    LiveStereoCrossesChannels(d, g, fed, samples);
    assert 0 <= 0 < 2 && 0 <= 1 < 2;
  }

  /** A denoiser that only delays by one frame. */
  function Delay(size: nat): Denoiser {
    Denoiser(size, (fed: seq<Frame>, frame: Frame) =>
      if fed != [] && |fed[|fed| - 1]| == size then fed[|fed| - 1] else Zero(size), (fed, frame) => 0.0)
  }

  /** The interleaved buffer of one call: a constant left channel and a silent right one. */
  function LeftOnly(size: nat): seq<Sample> { seq(2 * size, i => if i % 2 == 0 then 1.0 else 0.0) }

  /** A concrete stereo call: with nothing but a delay, a silent right channel comes out as the left one. */
  lemma {:induction false} SilentRightIsOverwritten()
    ensures var samples := LeftOnly(480);
            && Channel(samples, 2, 1) == Zero(480)
            && Delay(480).Valid()
            && ChannelResult(Delay(480), FedBefore(Delay(480), [], samples, 2, 1), Channel(samples, 2, 1))
               == Channel(samples, 2, 0) != Zero(480)
  {
    var samples, d := LeftOnly(480), Delay(480);
    var left, right := Channel(samples, 2, 0), Channel(samples, 2, 1);
    assert forall j | 0 <= j < 480 :: left[j] == samples[j * 2] == 1.0 && right[j] == samples[j * 2 + 1] == 0.0;
    assert left[0] != Zero(480)[0];
    assert FedBefore(d, [], samples, 2, 0) == [];
    assert FedBefore(d, [], samples, 2, 1) == [] + [left];
  }

  // ----- The processor -----

  class RnnoiseProcessor {
    const d: Denoiser
    var enabled: bool
    var fed: seq<Frame>

    constructor (d: Denoiser)
      ensures this.d == d && !enabled && fed == []
    {
      this.d, enabled, fed := d, false, [];
    }

    method Enable()
      modifies this`enabled
      ensures enabled
    {
      enabled := true;
    }

    method Disable()
      modifies this`enabled
      ensures !enabled
    {
      enabled := false;
    }

    /** Mono and stereo are processed; anything else, or a disabled processor, leaves the samples alone. */
    method ProcessInterleaved(samples: array<Sample>, numChannels: int) returns (vad: real)
      requires d.Valid()
      modifies this`fed, samples
      ensures !enabled || samples.Length == 0 || !(1 <= numChannels <= 2) ==>
                samples[..] == old(samples[..]) && fed == old(fed) && vad == 0.0
      ensures enabled && 0 < samples.Length && 1 <= numChannels <= 2
              && 0 < d.size <= MAX_FRAME && samples.Length % numChannels == 0 ==>
                && fed == FedBefore(d, old(fed), old(samples[..]), numChannels, numChannels)
                && DoneUpTo(d, old(fed), old(samples[..]), samples[..], numChannels, numChannels)
                && VadOfLast(d, samples.Length / numChannels, fed, vad)
    {
      if !enabled || samples.Length == 0 || numChannels <= 0 {
        return 0.0;
      }
      if numChannels == 1 {
        fed, vad := ProcessInterleavedFixed(d, samples, 1, fed);
      } else if numChannels == 2 {
        fed, vad := ProcessInterleavedFixed(d, samples, 2, fed);
      } else {
        vad := 0.0;
      }
    }
  }
}

/**
 The DTLN ring buffers: arbitrary chunks at 16 kHz are re-blocked into 512-sample frames for the denoiser,
 and its output is drained into chunks of the sizes that came in, padded with silence. Samples are exact
 reals.
 */
module DtlnRing {
  import opened Wrappers

  const FRAME := 512

  type Sample = real

  type Block = seq<Sample>

  ghost predicate KeepsLength(d: seq<Block> -> Option<Block>) {
    forall fed :: d(fed).Some? ==> |d(fed).value| == FRAME
  }

  /** The native denoiser: what it returns for a block may depend on every block fed so far, and it may fail. */
  type Denoiser = d: seq<Block> -> Option<Block> | KeepsLength(d) witness (fed: seq<Block>) => None

  function Silence(n: nat): (s: seq<Sample>)
    ensures |s| == n
  {
    seq(n, _ => 0.0)
  }

  // ----- One call -----

  /** Both rings, and the blocks the denoiser has been fed. */
  datatype State = State(input: seq<Sample>, output: seq<Sample>, fed: seq<Block>)

  /** Feeds whole frames until too few samples are left or the denoiser fails. */
  function Pump(d: Denoiser, s: State): (State, bool)
    decreases |s.input|
  {
    if |s.input| < FRAME then (s, true)
    else
      var fed := s.fed + [s.input[..FRAME]];
      match d(fed)
      case None => (State(s.input[FRAME..], s.output, fed), false)
      case Some(block) => Pump(d, State(s.input[FRAME..], s.output + block, fed))
  }

  /** What a call leaves and returns; `heard` are the returned samples that came from the denoiser. */
  datatype Call = Call(state: State, returned: seq<Sample>, heard: seq<Sample>)

  function Process(d: Denoiser, s: State, chunk: seq<Sample>): Call {
    if chunk == [] then Call(s, [], [])
    else
      var (t, ok) := Pump(d, s.(input := s.input + chunk));
      if !ok then Call(t, Silence(|chunk|), [])
      else
        var n := if |chunk| < |t.output| then |chunk| else |t.output|;
        Call(t.(output := t.output[n..]), t.output[..n] + Silence(|chunk| - n), t.output[..n])
  }

  /** The web-parity state of one capture stream. */
  class WebParityState {
    var inputRing: seq<Sample>
    var outputRing: seq<Sample>
    var fed: seq<Block>  // the denoiser handle's memory

    ghost function Now(): State
      reads this
    {
      State(inputRing, outputRing, fed)
    }

    constructor ()
      ensures Now() == State([], [], [])
    {
      inputRing, outputRing, fed := [], [], [];
    }

    /** Drops both rings. */
    method Reset()
      modifies this
      ensures Now() == State([], [], old(fed))
    {
      inputRing, outputRing := [], [];
    }

    /** Takes up to `count` samples from the output ring and fills the rest with silence. */
    method DrainSilencePadded(count: nat) returns (out: seq<Sample>)
      modifies this`outputRing
      ensures var n := if count < |old(outputRing)| then count else |old(outputRing)|;
              out == old(outputRing)[..n] + Silence(count - n) && outputRing == old(outputRing)[n..]
    {
      out := Silence(count);
      var available := if count < |outputRing| then count else |outputRing|;
      if available > 0 {
        out := outputRing[..available] + out[available..];
        outputRing := outputRing[available..];
      }
    }

    /** Without a handle, or with nothing to do, the chunk passes through. */
    method ProcessAt16k(d: Option<Denoiser>, at16k: seq<Sample>) returns (out: seq<Sample>)
      modifies this
      ensures d.None? ==> out == at16k && Now() == old(Now())
      ensures d.Some? ==> out == Process(d.value, old(Now()), at16k).returned
                          && Now() == Process(d.value, old(Now()), at16k).state
    {
      if d.None? || at16k == [] {
        return at16k;
      }
      inputRing := inputRing + at16k;
      ghost var start := Now();
      while |inputRing| >= FRAME
        invariant Pump(d.value, Now()) == Pump(d.value, start)
        decreases |inputRing|
      {
        var block := inputRing[..FRAME];
        inputRing := inputRing[FRAME..];
        fed := fed + [block];
        var denoised := d.value(fed);
        if denoised.None? {
          return Silence(|at16k|);
        }
        outputRing := outputRing + denoised.value;
      }
      out := DrainSilencePadded(|at16k|);
    }
  }

  // ----- Whole streams -----

  /** A stream so far: the state, everything received, everything heard, and what each call returned. */
  datatype Stream = Stream(state: State, received: seq<Sample>, heard: seq<Sample>, returned: seq<seq<Sample>>)

  function After(d: Denoiser, chunks: seq<seq<Sample>>): Stream {
    if chunks == [] then Stream(State([], [], []), [], [], [])
    else
      var before, chunk := After(d, chunks[..|chunks| - 1]), chunks[|chunks| - 1];
      var call := Process(d, before.state, chunk);
      Stream(call.state, before.received + chunk, before.heard + call.heard, before.returned + [call.returned])
  }

  function Flat(blocks: seq<Block>): seq<Sample> {
    if blocks == [] then [] else Flat(blocks[..|blocks| - 1]) + blocks[|blocks| - 1]
  }

  /** Everything the denoiser produced for a sequence of blocks, failed blocks left out. */
  function Denoised(d: Denoiser, fed: seq<Block>): seq<Sample> {
    if fed == [] then []
    else Denoised(d, fed[..|fed| - 1]) + if d(fed).Some? then d(fed).value else []
  }

  function Failures(d: Denoiser, fed: seq<Block>): nat {
    if fed == [] then 0
    else Failures(d, fed[..|fed| - 1]) + if d(fed).Some? then 0 else 1
  }

  /** How many samples of silence have been returned. */
  function Silent(s: Stream): int { Total(s.returned) - |s.heard| }

  function Total(chunks: seq<seq<Sample>>): nat {
    if chunks == [] then 0 else Total(chunks[..|chunks| - 1]) + |chunks[|chunks| - 1]|
  }

  /** The largest remainder modulo the frame size that the total received has had after any call. */
  function PeakRemainder(chunks: seq<seq<Sample>>): nat {
    if chunks == [] then 0
    else
      var before, now := PeakRemainder(chunks[..|chunks| - 1]), Total(chunks) % FRAME;
      if before < now then now else before
  }

  // ----- What pumping keeps -----

  /** The samples in flight: fed to the denoiser or still in the input ring, in order. */
  function Taken(s: State): seq<Sample> { Flat(s.fed) + s.input }

  ghost predicate Framed(s: State) {
    forall k | 0 <= k < |s.fed| :: |s.fed[k]| == FRAME
  }

  lemma Reassociate(a: seq<Sample>, b: seq<Sample>, c: seq<Sample>)
    ensures (a + b) + c == a + (b + c)
  {
  }

  /** Feeding one block moves it from the input ring to the denoiser. */
  lemma {:induction false} FeedMeaning(d: Denoiser, s: State)
    requires Framed(s) && |s.input| >= FRAME
    ensures var block := s.input[..FRAME];
            var fed := s.fed + [block];
            && (forall k | 0 <= k < |fed| :: |fed[k]| == FRAME)
            && Flat(fed) + s.input[FRAME..] == Taken(s)
            && Denoised(d, fed) == Denoised(d, s.fed) + (if d(fed).Some? then d(fed).value else [])
            && Failures(d, fed) == Failures(d, s.fed) + if d(fed).Some? then 0 else 1
  {
    var block := s.input[..FRAME];
    var fed := s.fed + [block];
    assert fed[..|fed| - 1] == s.fed && fed[|fed| - 1] == block;
    Reassociate(Flat(s.fed), block, s.input[FRAME..]);
    assert block + s.input[FRAME..] == s.input;
  }

  lemma {:induction false} PumpMeaning(d: Denoiser, s: State, emitted: seq<Sample>)
    requires Framed(s) && emitted + s.output == Denoised(d, s.fed)
    ensures var (t, ok) := Pump(d, s);
            && Framed(t) && Taken(t) == Taken(s) && emitted + t.output == Denoised(d, t.fed)
            && s.output <= t.output && s.fed <= t.fed
            && (ok ==> |t.input| < FRAME && Failures(d, t.fed) == Failures(d, s.fed))
            && (!ok ==> Failures(d, t.fed) == Failures(d, s.fed) + 1)
    decreases |s.input|
  {
    if |s.input| >= FRAME {
      var fed := s.fed + [s.input[..FRAME]];
      FeedMeaning(d, s);
      if d(fed).Some? {
        Reassociate(emitted, s.output, d(fed).value);
        PumpMeaning(d, State(s.input[FRAME..], s.output + d(fed).value, fed), emitted);
      }
    }
  }

  lemma {:induction false} FlatLength(blocks: seq<Block>)
    requires forall k | 0 <= k < |blocks| :: |blocks[k]| == FRAME
    ensures |Flat(blocks)| == FRAME * |blocks|
  {
    if blocks != [] {
      FlatLength(blocks[..|blocks| - 1]);
    }
  }

  lemma {:induction false} DenoisedLength(d: Denoiser, fed: seq<Block>)
    ensures |Denoised(d, fed)| + FRAME * Failures(d, fed) == FRAME * |fed|
  {
    if fed != [] {
      DenoisedLength(d, fed[..|fed| - 1]);
    }
  }

  // ----- Laws of every stream -----

  /** Nothing is lost, duplicated or reordered between the chunks, the denoiser and the listener. */
  ghost predicate Accounted(d: Denoiser, s: Stream) {
    && Framed(s.state)
    && s.received == Taken(s.state)
    && s.heard + s.state.output == Denoised(d, s.state.fed)
    && Total(s.returned) == |s.received|
    && (Failures(d, s.state.fed) == 0 ==> |s.state.input| < FRAME)
  }

  lemma {:induction false} CallLength(d: Denoiser, s: Stream, chunk: seq<Sample>)
    ensures |Process(d, s.state, chunk).returned| == |chunk|
    ensures Total(s.returned + [Process(d, s.state, chunk).returned]) == Total(s.returned) + |chunk|
  {
    var all := s.returned + [Process(d, s.state, chunk).returned];
    assert all[..|all| - 1] == s.returned;
  }

  lemma {:induction false} CallAccounted(d: Denoiser, s: Stream, chunk: seq<Sample>)
    requires Accounted(d, s)
    ensures var call := Process(d, s.state, chunk);
            && |call.returned| == |chunk|
            && Accounted(d, Stream(call.state, s.received + chunk, s.heard + call.heard, s.returned + [call.returned]))
            && Failures(d, s.state.fed) <= Failures(d, call.state.fed)
  {
    CallLength(d, s, chunk);
    if chunk != [] {
      var start := s.state.(input := s.state.input + chunk);
      PumpMeaning(d, start, s.heard);
      assert Taken(start) == s.received + chunk;
      var (t, ok) := Pump(d, start);
      if ok {
        var n := if |chunk| < |t.output| then |chunk| else |t.output|;
        assert t.output[..n] + t.output[n..] == t.output;
        assert s.heard + t.output[..n] + t.output[n..] == s.heard + t.output;
      } else {
        assert s.heard + [] == s.heard;
      }
    } else {
      assert s.received + chunk == s.received && s.heard + [] == s.heard;
    }
  }

  /**
   For every denoiser and every way of cutting the input into chunks, failures included: the denoiser has
   been fed consecutive frames of the received stream, the samples heard are a prefix of what it produced,
   and each call has returned as many samples as it was given.
   */
  lemma {:induction false} StreamAccounted(d: Denoiser, chunks: seq<seq<Sample>>)
    ensures Accounted(d, After(d, chunks))
  {
    if chunks != [] {
      StreamAccounted(d, chunks[..|chunks| - 1]);
      CallAccounted(d, After(d, chunks[..|chunks| - 1]), chunks[|chunks| - 1]);
    }
  }

  /** Conservation: the silence returned is what the two rings hold, plus one frame for every failure. */
  lemma {:induction false} SilenceConserved(d: Denoiser, chunks: seq<seq<Sample>>)
    ensures var s := After(d, chunks);
            Silent(s) == |s.state.input| + |s.state.output| + FRAME * Failures(d, s.state.fed)
  {
    StreamAccounted(d, chunks);
    var s := After(d, chunks);
    FlatLength(s.state.fed);
    DenoisedLength(d, s.state.fed);
    assert |s.heard + s.state.output| == |s.heard| + |s.state.output|;
  }

  lemma {:induction false} FailuresAccumulate(d: Denoiser, chunks: seq<seq<Sample>>)
    requires chunks != []
    ensures Failures(d, After(d, chunks[..|chunks| - 1]).state.fed) <= Failures(d, After(d, chunks).state.fed)
  {
    StreamAccounted(d, chunks[..|chunks| - 1]);
    CallAccounted(d, After(d, chunks[..|chunks| - 1]), chunks[|chunks| - 1]);
  }

  /** Without failures the input ring holds exactly what is left over from whole frames. */
  lemma {:induction false} RemainderInRing(d: Denoiser, chunks: seq<seq<Sample>>)
    requires Failures(d, After(d, chunks).state.fed) == 0
    ensures |After(d, chunks).received| % FRAME == |After(d, chunks).state.input|
  {
    StreamAccounted(d, chunks);
    var s := After(d, chunks);
    FlatLength(s.state.fed);
    WholeFramesAside(|s.state.fed|, |s.state.input|, |s.received|);
  }

  lemma WholeFramesAside(frames: nat, rest: nat, total: nat)
    requires rest < FRAME && total == FRAME * frames + rest
    ensures total % FRAME == rest
  {
  }

  /** A call that does not fail either fills its chunk from the ring or empties the ring. */
  lemma {:induction false} CallDrains(d: Denoiser, s: Stream, chunk: seq<Sample>)
    requires Accounted(d, s) && Failures(d, Process(d, s.state, chunk).state.fed) == 0
    ensures var call := Process(d, s.state, chunk);
            |call.heard| <= |chunk| && (|call.heard| == |chunk| || call.state.output == [])
  {
    if chunk != [] {
      PumpMeaning(d, s.state.(input := s.state.input + chunk), s.heard);
    }
  }

  /** One call of a stream without failures: silence grows just enough to cover the new remainder. */
  lemma {:induction false} CallSilence(d: Denoiser, chunks: seq<seq<Sample>>)
    requires chunks != [] && Failures(d, After(d, chunks).state.fed) == 0
    ensures var before, now := After(d, chunks[..|chunks| - 1]), After(d, chunks);
            var remainder := |now.received| % FRAME;
            Silent(now) == if Silent(before) < remainder then remainder else Silent(before)
  {
    var front, chunk := chunks[..|chunks| - 1], chunks[|chunks| - 1];
    StreamAccounted(d, front);
    RemainderInRing(d, chunks);
    CallDrains(d, After(d, front), chunk);
    CallAccounted(d, After(d, front), chunk);
    SilenceConserved(d, chunks);
  }

  lemma {:induction false} ReceivedTotal(d: Denoiser, chunks: seq<seq<Sample>>)
    ensures |After(d, chunks).received| == Total(chunks)
  {
    if chunks != [] {
      ReceivedTotal(d, chunks[..|chunks| - 1]);
    }
  }

  /** Without failures, the silence returned is the peak remainder: the ring delays by exactly that much. */
  lemma {:induction false} SilenceIsPeakRemainder(d: Denoiser, chunks: seq<seq<Sample>>)
    requires Failures(d, After(d, chunks).state.fed) == 0
    ensures Silent(After(d, chunks)) == PeakRemainder(chunks) <= FRAME - 1
  {
    if chunks != [] {
      FailuresAccumulate(d, chunks);
      SilenceIsPeakRemainder(d, chunks[..|chunks| - 1]);
      CallSilence(d, chunks);
      ReceivedTotal(d, chunks);
    }
  }

  /** The latency bound holds exactly as long as no frame has failed. */
  lemma {:induction false} LatencyBoundIffNoFailure(d: Denoiser, chunks: seq<seq<Sample>>)
    ensures Silent(After(d, chunks)) <= FRAME - 1 <==> Failures(d, After(d, chunks).state.fed) == 0
  {
    SilenceConserved(d, chunks);
    if Failures(d, After(d, chunks).state.fed) == 0 {
      SilenceIsPeakRemainder(d, chunks);
    }
  }

  /** A first call of one frame, which fails. */
  lemma {:induction false} FirstFrameFails(d: Denoiser, chunk: seq<Sample>)
    requires |chunk| == FRAME && d([chunk]).None?
    ensures var call := Process(d, State([], [], []), chunk);
            call.returned == Silence(FRAME) && call.heard == []
  {
    var started := State([] + chunk, [], []);
    assert started.input[..FRAME] == chunk && [] + [chunk] == [chunk];
    assert !Pump(d, started).1;
  }

  /** One frame that fails already costs a frame of silence: a concrete stream past the bound. */
  lemma {:induction false} FailedFrameIsSilence()
    ensures var d: Denoiser := (fed: seq<Block>) => None;
            Silent(After(d, [Silence(FRAME)])) == FRAME
  {
    var d: Denoiser := (fed: seq<Block>) => None;
    var chunk := Silence(FRAME);
    FirstFrameFails(d, chunk);
    assert After(d, [chunk][..0]) == Stream(State([], [], []), [], [], []);
    var s := After(d, [chunk]);
    assert s.returned == [] + [Silence(FRAME)] && s.heard == [] + [];
    assert Total(s.returned[..0]) == 0;
  }

  // ----- What the listener gets -----

  /** Whether the last call of a stream met a failure. */
  predicate LastFailed(d: Denoiser, chunks: seq<seq<Sample>>)
    requires chunks != []
  {
    Failures(d, After(d, chunks[..|chunks| - 1]).state.fed) < Failures(d, After(d, chunks).state.fed)
  }

  /** Everything the denoiser has produced by the end of a stream. */
  function Produced(d: Denoiser, chunks: seq<seq<Sample>>): seq<Sample> { Denoised(d, After(d, chunks).state.fed) }

  /**
   How much of it has been returned: each call that does not fail goes on as far as its chunk or the supply allows.
   */
  function Delivered(d: Denoiser, chunks: seq<seq<Sample>>): int {
    if chunks == [] then 0
    else
      var before, chunk := Delivered(d, chunks[..|chunks| - 1]), chunks[|chunks| - 1];
      if LastFailed(d, chunks) then before
      else
        var available := |Produced(d, chunks)| - before;
        before + if |chunk| < available then |chunk| else available
  }

  /** Samples `from` to `to` of the supply, then silence. */
  predicate IsServed(out: seq<Sample>, supply: seq<Sample>, from: int, to: int) {
    && 0 <= from <= to <= |supply| && to - from <= |out|
    && out[..to - from] == supply[from..to]
    && forall i | to - from <= i < |out| :: out[i] == 0.0
  }

  lemma {:induction false} DenoisedGrows(d: Denoiser, fed: seq<Block>, more: seq<Block>)
    requires fed <= more
    ensures Denoised(d, fed) <= Denoised(d, more)
    decreases |more|
  {
    if |fed| < |more| {
      DenoisedGrows(d, fed, more[..|more| - 1]);
    } else {
      assert fed == more;
    }
  }

  /** What one call feeds only adds to what was fed before. */
  lemma {:induction false} FedGrows(d: Denoiser, chunks: seq<seq<Sample>>)
    requires chunks != []
    ensures After(d, chunks[..|chunks| - 1]).state.fed <= After(d, chunks).state.fed
  {
    var before, chunk := After(d, chunks[..|chunks| - 1]), chunks[|chunks| - 1];
    StreamAccounted(d, chunks[..|chunks| - 1]);
    if chunk != [] {
      PumpMeaning(d, before.state.(input := before.state.input + chunk), before.heard);
    }
  }

  /** The last call of a stream, sample by sample. */
  lemma {:induction false} LastCallServed(d: Denoiser, chunks: seq<seq<Sample>>)
    requires chunks != []
    requires Delivered(d, chunks[..|chunks| - 1]) == |After(d, chunks[..|chunks| - 1]).heard|
    ensures var s := After(d, chunks);
            && Delivered(d, chunks) == |s.heard|
            && |s.returned| == |After(d, chunks[..|chunks| - 1]).returned| + 1
            && |s.returned[|s.returned| - 1]| == |chunks[|chunks| - 1]|
            && IsServed(s.returned[|s.returned| - 1], Produced(d, chunks), Delivered(d, chunks[..|chunks| - 1]),
                 Delivered(d, chunks))
  {
    var front, chunk := chunks[..|chunks| - 1], chunks[|chunks| - 1];
    var before, s := After(d, front), After(d, chunks);
    StreamAccounted(d, front);
    StreamAccounted(d, chunks);
    var all := Produced(d, chunks);
    assert s.heard == all[..|s.heard|] && before.heard <= s.heard;
    if chunk == [] {
      assert s.state == before.state;
    } else {
      CallServed(d, before, chunk);
    }
  }

  /** A call that is given samples returns the head of its ring, and silence for the rest or on failure. */
  lemma {:induction false} CallServed(d: Denoiser, s: Stream, chunk: seq<Sample>)
    requires Accounted(d, s) && chunk != []
    ensures var call := Process(d, s.state, chunk);
            var failed := Failures(d, s.state.fed) < Failures(d, call.state.fed);
            var available := |call.heard| + |call.state.output|;
            && |call.heard| <= |chunk|
            && (failed ==> call.heard == [])
            && (!failed ==> |call.heard| == if |chunk| < available then |chunk| else available)
            && call.returned == call.heard + Silence(|chunk| - |call.heard|)
  {
    PumpMeaning(d, s.state.(input := s.state.input + chunk), s.heard);
    assert [] + Silence(|chunk|) == Silence(|chunk|);
  }

  lemma {:induction false} ReturnedStays(d: Denoiser, chunks: seq<seq<Sample>>, j: nat)
    requires j < |chunks|
    ensures |After(d, chunks).returned| == |chunks| && |After(d, chunks[..j + 1]).returned| == j + 1
    ensures After(d, chunks).returned[j] == After(d, chunks[..j + 1]).returned[j]
    ensures Produced(d, chunks[..j + 1]) <= Produced(d, chunks)
    decreases |chunks|
  {
    var front := chunks[..|chunks| - 1];
    CallCount(d, chunks);
    CallCount(d, chunks[..j + 1]);
    if j + 1 == |chunks| {
      assert chunks[..j + 1] == chunks;
    } else {
      assert front[..j + 1] == chunks[..j + 1];
      ReturnedStays(d, front, j);
      FedGrows(d, chunks);
      DenoisedGrows(d, After(d, front).state.fed, After(d, chunks).state.fed);
    }
  }

  lemma {:induction false} CallCount(d: Denoiser, chunks: seq<seq<Sample>>)
    ensures |After(d, chunks).returned| == |chunks|
  {
    if chunks != [] {
      CallCount(d, chunks[..|chunks| - 1]);
    }
  }

  lemma {:induction false} DeliveredIsHeard(d: Denoiser, chunks: seq<seq<Sample>>)
    ensures Delivered(d, chunks) == |After(d, chunks).heard|
  {
    if chunks != [] {
      DeliveredIsHeard(d, chunks[..|chunks| - 1]);
      LastCallServed(d, chunks);
    }
  }

  /**
   What the listener gets from every call of every stream: as many samples as it gave, first the next ones of what the
   denoiser produced, in order and continuing where the call before stopped, then silence. A call that does not fail
   returns as many of them as its chunk or the supply allows, and one that fails returns none.
   */
  lemma {:induction false} ReturnedSamples(d: Denoiser, chunks: seq<seq<Sample>>, j: nat)
    requires j < |chunks|
    ensures |After(d, chunks).returned| == |chunks|
    ensures var out := After(d, chunks).returned[j];
            |out| == |chunks[j]|
            && IsServed(out, Produced(d, chunks), Delivered(d, chunks[..j]), Delivered(d, chunks[..j + 1]))
  {
    var upTo := chunks[..j + 1];
    assert upTo[..j] == chunks[..j];
    ReturnedStays(d, chunks, j);
    DeliveredIsHeard(d, chunks[..j]);
    LastCallServed(d, upTo);
    var from, to := Delivered(d, chunks[..j]), Delivered(d, upTo);
    assert Produced(d, chunks)[from..to] == Produced(d, upTo)[from..to];
  }

  // ----- Chunking does not matter -----

  lemma {:induction false} FramesUnique(a: seq<Block>, b: seq<Block>, restA: seq<Sample>, restB: seq<Sample>)
    requires forall k | 0 <= k < |a| :: |a[k]| == FRAME
    requires forall k | 0 <= k < |b| :: |b[k]| == FRAME
    requires |a| == |b| && Flat(a) + restA == Flat(b) + restB
    ensures a == b && restA == restB
  {
    FlatLength(a);
    FlatLength(b);
    if a != [] {
      var n := |a| - 1;
      var whole := Flat(a) + restA;
      FlatLength(a[..n]);
      FlatLength(b[..n]);
      assert whole == Flat(a[..n]) + (a[n] + restA);
      assert whole == Flat(b[..n]) + (b[n] + restB);
      FramesUnique(a[..n], b[..n], a[n] + restA, b[n] + restB);
      assert (a[n] + restA)[..FRAME] == a[n] && (b[n] + restB)[..FRAME] == b[n];
      assert (a[n] + restA)[FRAME..] == restA && (b[n] + restB)[FRAME..] == restB;
      assert a == a[..n] + [a[n]] && b == b[..n] + [b[n]];
    } else {
      assert Flat(a) + restA == restA && Flat(b) + restB == restB;
    }
  }

  /**
   Two ways of cutting the same samples into chunks feed a denoiser that does not fail the same frames,
   and what is heard in one is a prefix of what is heard in the other, or the other way round.
   */
  lemma {:induction false} ChunkingIrrelevant(d: Denoiser, chunks: seq<seq<Sample>>, others: seq<seq<Sample>>)
    requires After(d, chunks).received == After(d, others).received
    requires Failures(d, After(d, chunks).state.fed) == 0 && Failures(d, After(d, others).state.fed) == 0
    ensures After(d, chunks).state.fed == After(d, others).state.fed
    ensures After(d, chunks).heard <= After(d, others).heard || After(d, others).heard <= After(d, chunks).heard
  {
    StreamAccounted(d, chunks);
    StreamAccounted(d, others);
    var s, t := After(d, chunks), After(d, others);
    FlatLength(s.state.fed);
    FlatLength(t.state.fed);
    assert |s.state.fed| == |t.state.fed|;
    FramesUnique(s.state.fed, t.state.fed, s.state.input, t.state.input);
    var all := Denoised(d, s.state.fed);
    assert s.heard == all[..|s.heard|] && t.heard == all[..|t.heard|];
  }
}

/**
 The state the capture thread, the inference queue, the watchdog queue and reloads share, and the
 critical sections that touch it. Times are nanoseconds of an unsigned 64-bit clock.
 */
module VisionStore {
  import opened Wrappers

  const CLOCK_LIMIT := 0x1_0000_0000_0000_0000
  const MASK_MAX_AGE_NS := 500_000_000
  const INFERENCE_TIMEOUT_NS := 750_000_000
  const DRAIN_TIMEOUT_NS := 350_000_000

  /** A stored mask: the capture time it carries, and the generation its inference was dispatched under. */
  datatype Mask = Mask(capturedAt: nat, generation: nat)

  datatype Shared = Shared(inFlight: bool, mask: Option<Mask>, inFlightCapturedAt: nat, generation: nat)

  /** The age of a mask, by the clock's wrapping subtraction. */
  function Age(now: nat, capturedAt: nat): nat {
    (now - capturedAt) % CLOCK_LIMIT
  }

  function Begun(s: Shared, now: nat): Shared {
    if s.inFlight then s else s.(inFlight := true, inFlightCapturedAt := now)
  }

  function Cleared(s: Shared): Shared { s.(inFlight := false) }

  function WasReset(s: Shared): Shared { s.(mask := None, inFlight := false) }

  /** Keeps the stored mask monotonic in capture time. */
  function NewerMask(existing: Option<Mask>, snapshot: Mask): Mask {
    if existing.Some? && snapshot.capturedAt <= existing.value.capturedAt then existing.value else snapshot
  }

  /** A result is stored only under the generation it was dispatched for. */
  function Stored(s: Shared, generation: nat, capturedAt: nat, result: bool): Shared {
    if result && generation == s.generation
    then s.(mask := Some(NewerMask(s.mask, Mask(capturedAt, generation))))
    else s
  }

  /** The same store when the generation moved on between its check and its write. */
  function StoredRacing(s: Shared, generation: nat, capturedAt: nat): Shared {
    s.(mask := Some(NewerMask(s.mask, Mask(capturedAt, generation))))
  }

  /** The mask a frame may composite with: none, rather than one that is too old. */
  function Usable(s: Shared, now: nat): Option<Mask> {
    if s.mask.Some? && Age(now, s.mask.value.capturedAt) <= MASK_MAX_AGE_NS then s.mask else None
  }

  class MaskStore {
    var inferenceInFlight: bool
    var currentMask: Option<Mask>
    var inFlightFrameCapturedAtNs: nat
    var segmentationGeneration: nat

    function Now(): Shared
      reads this
    {
      Shared(inferenceInFlight, currentMask, inFlightFrameCapturedAtNs, segmentationGeneration)
    }

    constructor ()
      ensures Now() == Shared(false, None, 0, 0)
    {
      inferenceInFlight, currentMask, inFlightFrameCapturedAtNs, segmentationGeneration := false, None, 0, 0;
    }

    /** The first critical section of a frame: claims the single inference slot if it is free. */
    method BeginFrame(frameStartNs: nat) returns (canDispatch: bool)
      modifies this
      ensures Now() == Begun(old(Now()), frameStartNs) && canDispatch == !old(inferenceInFlight)
      ensures inferenceInFlight && currentMask == old(currentMask)
      ensures inFlightFrameCapturedAtNs == if canDispatch then frameStartNs else old(inFlightFrameCapturedAtNs)
    {
      canDispatch := !inferenceInFlight;
      if canDispatch {
        inferenceInFlight := true;
        inFlightFrameCapturedAtNs := frameStartNs;
      }
    }

    method ClearInferenceInFlight()
      modifies this
      ensures Now() == Cleared(old(Now()))
      ensures !inferenceInFlight && currentMask == old(currentMask)
    {
      inferenceInFlight := false;
    }

    method ResetSegmentationState()
      modifies this
      ensures Now() == WasReset(old(Now()))
      ensures !inferenceInFlight && currentMask == None && segmentationGeneration == old(segmentationGeneration)
    {
      currentMask := None;
      inferenceInFlight := false;
    }

    method StoreMaskIfNewerLocked(snapshot: Mask)
      modifies this
      ensures Now() == old(Now()).(mask := Some(NewerMask(old(currentMask), snapshot)))
      ensures currentMask == if old(currentMask).Some? && snapshot.capturedAt <= old(currentMask).value.capturedAt
                             then old(currentMask) else Some(snapshot)
    {
      if currentMask.Some? && snapshot.capturedAt <= currentMask.value.capturedAt {
        return;
      }
      currentMask := Some(snapshot);
    }

    /** The critical section that ends an inference. */
    method StoreResult(generation: nat, capturedAt: nat, result: bool)
      modifies this
      ensures Now() == Stored(old(Now()), generation, capturedAt, result)
      ensures currentMask == Some(Mask(capturedAt, generation)) || currentMask == old(currentMask)
      ensures result && generation == segmentationGeneration ==>
                currentMask.Some? && currentMask.value.capturedAt >= capturedAt
      ensures !result || generation != segmentationGeneration ==> currentMask == old(currentMask)
    {
      if generation == segmentationGeneration && result {
        StoreMaskIfNewerLocked(Mask(capturedAt, generation));
      }
    }

    /** The critical section that picks the mask to composite with. */
    method ReadMask(now: nat) returns (snapshot: Option<Mask>)
      ensures snapshot == Usable(Now(), now)
      ensures currentMask.Some? && currentMask.value.capturedAt <= now < CLOCK_LIMIT ==>
                snapshot == if now - currentMask.value.capturedAt <= 500_000_000 then currentMask else None
      ensures currentMask.None? ==> snapshot.None?
    {
      if currentMask.None? {
        return None;
      }
      var age := Age(now, currentMask.value.capturedAt);
      return if age > MASK_MAX_AGE_NS then None else currentMask;
    }
  }
}

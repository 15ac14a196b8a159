/**
 The Apple Vision segmentation path as interleaved atomic steps of the capture thread, the serial
 inference queue, the watchdog queue, resets and reloads.
 */
module VisionMachine {
  import opened Wrappers
  import opened VisionStore

  // ----- The threads -----

  /** Where the capture thread is within one frame that started at `at`. */
  datatype Capture =
    | Idle
    | Claimed(at: nat)
    | HasGeneration(at: nat, generation: nat)
    | HasTime(at: nat, generation: nat, capturedAt: nat)
    | HasWatchdog(at: nat)
    | InlineRunning(at: nat, generation: nat)
    | InlineFinished(at: nat)
    | Reading(at: nat)
    | Compositing(at: nat, snapshot: Option<Mask>, readAt: nat, generationAtRead: nat, behind: bool)

  datatype Watchdog = Armed(deadline: nat) | Firing | Fired | Cancelled

  datatype Job = Unqueued | Waiting | Running | Finishing | Clearing | Done

  /** One asynchronous dispatch: its inference job and its watchdog. */
  datatype Dispatch = Dispatch(generation: nat, capturedAt: nat, armedAt: nat, watchdog: Watchdog, job: Job)

  datatype Reload = NoReload | Draining(deadline: nat) | Drained | Bumped | MaskCleared

  /**
   What has happened since the last bump: whether no critical section was entered, and whether a result of the new
   generation has replaced the stored mask.
   */
  datatype Window = Window(untouched: bool, renewed: bool)

  datatype State = State(
    now: nat,
    shared: Shared,
    capture: Capture,
    dispatches: seq<Dispatch>,
    head: nat,
    reload: Reload,
    window: Window,
    returned: nat)

  function Init(): State {
    State(0, Shared(false, None, 0, 0), Idle, [], 0, NoReload, Window(false, false), 0)
  }

  datatype Step =
    | Tick(to: nat)
    // capture thread
    | BeginFrame | CopyFails | ReadGeneration | ReadCapturedAt | ArmWatchdog | Enqueue
    | InlineStart | InlineStore(found: bool) | InlineStoreRacing | InlineClear
    | ReadMask | Composite
    // inference queue: `head` is the oldest unfinished job, and only it may run
    | JobStart | JobStore(result: bool) | JobStoreRacing | JobCancelWatchdog | JobClear
    // watchdog queue
    | WatchdogFires(k: nat) | WatchdogClears(k: nat)
    // any thread, and the reload
    | Reset
    | ReloadStarts | ReloadDrained | ReloadDrainTimesOut | ReloadBumps | ReloadClears | ReloadReturns

  predicate HeadJob(s: State, job: Job) {
    s.head < |s.dispatches| && s.dispatches[s.head].job == job
  }

  /**
   A store whose generation check came just before a reload's bump: check and store share a critical section, which the
   bump does not enter, so no other section can have come in between.
   */
  predicate JustBumped(s: State, generation: nat) {
    s.reload.Bumped? && s.window.untouched && generation + 1 == s.shared.generation
  }

  /** Whether a step enters a critical section; a result that is not there may be dropped outside one. */
  predicate Locks(step: Step) {
    || step.BeginFrame? || step.CopyFails? || step.ReadCapturedAt? || step.ReadMask?
    || step.InlineStoreRacing? || step.InlineClear? || (step.InlineStore? && step.found)
    || step.JobStoreRacing? || step.JobClear? || (step.JobStore? && step.result)
    || step.WatchdogClears? || step.Reset? || step.ReloadDrained? || step.ReloadDrainTimesOut? || step.ReloadClears?
  }

  /** Whether a result of the given generation and capture time will replace the stored mask. */
  predicate Replaces(s: Shared, generation: nat, capturedAt: nat) {
    generation == s.generation && (s.mask.Some? ==> s.mask.value.capturedAt < capturedAt)
  }

  predicate Renews(s: State, step: Step)
    requires Enabled(s, step)
  {
    match step
    case InlineStore(found) => found && Replaces(s.shared, s.capture.generation, s.capture.at)
    case JobStore(result) =>
      var d := s.dispatches[s.head];
      result && Replaces(s.shared, d.generation, d.capturedAt)
    case _ => false
  }

  function WindowAfter(s: State, step: Step): Window
    requires Enabled(s, step)
  {
    if step.ReloadBumps? then Window(true, false)
    else Window(s.window.untouched && !Locks(step), s.window.renewed || Renews(s, step))
  }

  predicate Enabled(s: State, step: Step) {
    match step
    case Tick(to) => s.now <= to < CLOCK_LIMIT
    case BeginFrame => s.capture.Idle?
    case CopyFails => s.capture.Claimed?
    case ReadGeneration => s.capture.Claimed?
    case ReadCapturedAt => s.capture.HasGeneration?
    case ArmWatchdog => s.capture.HasTime?
    case Enqueue => s.capture.HasWatchdog? && s.dispatches != []
    case InlineStart => s.capture.Claimed?
    case InlineStore(_) => s.capture.InlineRunning?
    case InlineStoreRacing => s.capture.InlineRunning? && JustBumped(s, s.capture.generation)
    case InlineClear => s.capture.InlineFinished?
    case ReadMask => s.capture.Reading?
    case Composite => s.capture.Compositing?
    case JobStart => HeadJob(s, Waiting)
    case JobStore(_) => HeadJob(s, Running)
    case JobStoreRacing => HeadJob(s, Running) && JustBumped(s, s.dispatches[s.head].generation)
    case JobCancelWatchdog => HeadJob(s, Finishing)
    case JobClear => HeadJob(s, Clearing)
    case WatchdogFires(k) => k < |s.dispatches| && s.dispatches[k].watchdog.Armed?
        && s.dispatches[k].watchdog.deadline <= s.now
    case WatchdogClears(k) => k < |s.dispatches| && s.dispatches[k].watchdog.Firing?
    case Reset => true
    case ReloadStarts => s.reload.NoReload?
    case ReloadDrained => s.reload.Draining? && !s.shared.inFlight
    case ReloadDrainTimesOut => s.reload.Draining? && s.reload.deadline <= s.now
    case ReloadBumps => s.reload.Drained?
    case ReloadClears => s.reload.Bumped?
    case ReloadReturns => s.reload.MaskCleared?
  }

  /** Between a reload's bump and its clear, before a result of the new generation has replaced the mask. */
  predicate Behind(s: State) { s.reload.Bumped? && !s.window.renewed }

  function WithJob(s: State, k: nat, job: Job): State
    requires k < |s.dispatches|
  {
    s.(dispatches := s.dispatches[k := s.dispatches[k].(job := job)])
  }

  function WithWatchdog(s: State, k: nat, watchdog: Watchdog): State
    requires k < |s.dispatches|
  {
    s.(dispatches := s.dispatches[k := s.dispatches[k].(watchdog := watchdog)])
  }

  function Next(s: State, step: Step): State
    requires Enabled(s, step)
  {
    Effect(s, step).(window := WindowAfter(s, step))
  }

  function Effect(s: State, step: Step): State
    requires Enabled(s, step)
  {
    match step
    case Tick(to) => s.(now := to)
    case BeginFrame =>
      s.(shared := Begun(s.shared, s.now), capture := if s.shared.inFlight then Reading(s.now) else Claimed(s.now))
    case CopyFails => s.(shared := Cleared(s.shared), capture := Reading(s.capture.at))
    case ReadGeneration => s.(capture := HasGeneration(s.capture.at, s.shared.generation))
    case ReadCapturedAt =>
      s.(capture := HasTime(s.capture.at, s.capture.generation, s.shared.inFlightCapturedAt))
    case ArmWatchdog =>
      var d := Dispatch(s.capture.generation, s.capture.capturedAt, s.now, Armed(s.now + INFERENCE_TIMEOUT_NS),
          Unqueued);
      s.(dispatches := s.dispatches + [d], capture := HasWatchdog(s.capture.at))
    case Enqueue =>
      WithJob(s, |s.dispatches| - 1, Waiting).(capture := Reading(s.capture.at))
    case InlineStart => s.(capture := InlineRunning(s.capture.at, s.shared.generation))
    case InlineStore(found) =>
      s.(shared := Stored(s.shared, s.capture.generation, s.capture.at, found), capture := InlineFinished(s.capture.at))
    case InlineStoreRacing =>
      s.(shared := StoredRacing(s.shared, s.capture.generation, s.capture.at), capture := InlineFinished(s.capture.at))
    case InlineClear => s.(shared := Cleared(s.shared), capture := Reading(s.capture.at))
    case ReadMask =>
      s.(capture := Compositing(s.capture.at, Usable(s.shared, s.now), s.now, s.shared.generation, Behind(s)))
    case Composite => s.(capture := Idle)
    case JobStart =>
      WithJob(s, s.head, if s.dispatches[s.head].generation == s.shared.generation then Running else Finishing)
    case JobStore(result) =>
      var d := s.dispatches[s.head];
      WithJob(s, s.head, Finishing).(shared := Stored(s.shared, d.generation, d.capturedAt, result))
    case JobStoreRacing =>
      var d := s.dispatches[s.head];
      WithJob(s, s.head, Finishing).(shared := StoredRacing(s.shared, d.generation, d.capturedAt))
    case JobCancelWatchdog =>
      var t := WithJob(s, s.head, Clearing);
      if s.dispatches[s.head].watchdog.Armed? then WithWatchdog(t, s.head, Cancelled) else t
    case JobClear =>
      WithJob(s, s.head, Done).(shared := Cleared(s.shared), head := s.head + 1)
    case WatchdogFires(k) => WithWatchdog(s, k, Firing)
    case WatchdogClears(k) => WithWatchdog(s, k, Fired).(shared := Cleared(s.shared))
    case Reset => s.(shared := WasReset(s.shared))
    case ReloadStarts => s.(reload := Draining(s.now + DRAIN_TIMEOUT_NS))
    case ReloadDrained => s.(reload := Drained)
    case ReloadDrainTimesOut => s.(reload := Drained, shared := Cleared(s.shared))
    case ReloadBumps => s.(reload := Bumped, shared := s.shared.(generation := s.shared.generation + 1))
    case ReloadClears => s.(reload := MaskCleared, shared := WasReset(s.shared))
    case ReloadReturns => s.(reload := NoReload, returned := s.shared.generation)
  }

  // ----- Runs -----

  /** The state a schedule leads to, or nothing if some step is not enabled when its turn comes. */
  function Run(s: State, steps: seq<Step>): Option<State> {
    if steps == [] then Some(s)
    else
      var before, last := Run(s, steps[..|steps| - 1]), steps[|steps| - 1];
      if before.Some? && Enabled(before.value, last) then Some(Next(before.value, last)) else None
  }

  // ----- The slot is never lost -----

  /** The capture thread holds the slot and has not handed it to a watchdog. */
  predicate HoldsSlot(c: Capture) {
    c.Claimed? || c.HasGeneration? || c.HasTime? || c.InlineRunning? || c.InlineFinished?
  }

  predicate MidDispatch(c: Capture) {
    HoldsSlot(c) || c.HasWatchdog?
  }

  /** A dispatch that is still going to free the slot without the inference finishing. */
  predicate WillFree(d: Dispatch) {
    d.watchdog.Armed? || d.watchdog.Firing? || d.job.Clearing?
  }

  function Latest(s: State): Dispatch
    requires s.dispatches != []
  {
    s.dispatches[|s.dispatches| - 1]
  }

  predicate SlotOwned(s: State) {
    s.shared.inFlight ==> HoldsSlot(s.capture) || (s.dispatches != [] && WillFree(Latest(s)))
  }

  /** The inference queue is serial: finished jobs, then the head, then jobs that wait. */
  predicate SerialQueue(s: State) {
    && s.head <= |s.dispatches|
    && (forall k | 0 <= k < s.head :: s.dispatches[k].job.Done?)
    && (forall k | s.head <= k < |s.dispatches| :: !s.dispatches[k].job.Done?)
    && (forall k | s.head < k < |s.dispatches| :: s.dispatches[k].job.Waiting? || s.dispatches[k].job.Unqueued?)
  }

  /** Only a dispatch still being set up is not queued, and only a finished inference cancels its watchdog. */
  predicate Marked(s: State) {
    && (s.capture.HasWatchdog? ==> s.dispatches != [])
    && (forall k | 0 <= k < |s.dispatches| ::
          s.dispatches[k].job.Unqueued? <==> s.capture.HasWatchdog? && k == |s.dispatches| - 1)
    && (forall k | 0 <= k < |s.dispatches| && s.dispatches[k].watchdog.Cancelled? ::
          s.dispatches[k].job.Clearing? || s.dispatches[k].job.Done?)
  }

  /** Every armed watchdog is due one timeout after it was armed. */
  predicate WatchdogsTimely(s: State) {
    forall k | 0 <= k < |s.dispatches| :: DispatchTimely(s.now, s.dispatches[k])
  }

  predicate DispatchTimely(now: nat, d: Dispatch) {
    && d.armedAt <= now && d.capturedAt <= now
    && (d.watchdog.Armed? ==> d.watchdog.deadline == d.armedAt + INFERENCE_TIMEOUT_NS)
  }

  /** No clock reading lies in the future, and the in-flight capture time is that of the frame holding the slot. */
  predicate Timely(s: State) {
    && s.now < CLOCK_LIMIT
    && (!s.capture.Idle? ==> s.capture.at <= s.now)
    && s.shared.inFlightCapturedAt <= s.now
    && (HoldsSlot(s.capture) ==> s.shared.inFlightCapturedAt == s.capture.at)
    && (s.capture.HasTime? ==> s.capture.capturedAt == s.capture.at)
    && (s.shared.mask.Some? ==> s.shared.mask.value.capturedAt <= s.now)
  }

  // ----- Generations and freshness -----

  /** The stored mask is of the current generation, or of the one before while it is behind. */
  predicate CurrentMask(s: State) {
    && (s.shared.mask.Some? ==> s.shared.mask.value.generation + (if Behind(s) then 1 else 0) == s.shared.generation)
    && (s.reload.Bumped? && s.window.renewed ==> !s.window.untouched)
    && s.returned <= s.shared.generation
    && (s.reload.NoReload? ==> s.returned == s.shared.generation)
  }

  /** What the capture thread read is what it will composite: young when read, and of the generation it then had. */
  predicate FreshSnapshot(s: State) {
    s.capture.Compositing? && s.capture.snapshot.Some? ==>
      var mask := s.capture.snapshot.value;
      && mask.capturedAt <= s.capture.readAt <= s.now
      && s.capture.readAt - mask.capturedAt <= MASK_MAX_AGE_NS
      && s.capture.generationAtRead <= s.shared.generation
      && mask.generation + (if s.capture.behind then 1 else 0) == s.capture.generationAtRead
  }

  predicate Inv(s: State) {
    SlotOwned(s) && SerialQueue(s) && Marked(s) && WatchdogsTimely(s) && Timely(s) && CurrentMask(s) && FreshSnapshot(s)
  }

  lemma StepKeepsSlot(s: State, step: Step)
    requires SlotOwned(s) && SerialQueue(s) && Marked(s) && Enabled(s, step)
    ensures SlotOwned(Next(s, step))
  {
  }

  /** The steps that change the list of dispatches. */
  predicate OnDispatches(step: Step) {
    || step.ArmWatchdog? || step.Enqueue? || step.WatchdogFires? || step.WatchdogClears?
    || step.JobStart? || step.JobStore? || step.JobStoreRacing? || step.JobCancelWatchdog? || step.JobClear?
  }

  lemma OtherStep(s: State, step: Step)
    requires Enabled(s, step) && !OnDispatches(step)
    ensures var t := Next(s, step);
            t.dispatches == s.dispatches && t.head == s.head && t.now >= s.now
            && (t.capture.HasWatchdog? <==> s.capture.HasWatchdog?)
  {
  }

  lemma DispatchStepKeepsQueue(s: State, step: Step)
    requires SerialQueue(s) && Marked(s) && Enabled(s, step) && OnDispatches(step)
    ensures SerialQueue(Next(s, step))
  {
  }

  lemma StepKeepsQueue(s: State, step: Step)
    requires SerialQueue(s) && Marked(s) && Enabled(s, step)
    ensures SerialQueue(Next(s, step))
  {
    if OnDispatches(step) {
      DispatchStepKeepsQueue(s, step);
    } else {
      OtherStep(s, step);
    }
  }

  lemma DispatchStepKeepsMarks(s: State, step: Step)
    requires SerialQueue(s) && Marked(s) && Enabled(s, step) && OnDispatches(step)
    ensures Marked(Next(s, step))
  {
  }

  lemma StepKeepsMarks(s: State, step: Step)
    requires SerialQueue(s) && Marked(s) && Enabled(s, step)
    ensures Marked(Next(s, step))
  {
    if OnDispatches(step) {
      DispatchStepKeepsMarks(s, step);
    } else {
      OtherStep(s, step);
    }
  }

  lemma DispatchStepKeepsWatchdogs(s: State, step: Step)
    requires Timely(s) && WatchdogsTimely(s) && Enabled(s, step) && OnDispatches(step)
    ensures WatchdogsTimely(Next(s, step))
  {
  }

  lemma StepKeepsWatchdogs(s: State, step: Step)
    requires Timely(s) && WatchdogsTimely(s) && Enabled(s, step)
    ensures WatchdogsTimely(Next(s, step))
  {
    if OnDispatches(step) {
      DispatchStepKeepsWatchdogs(s, step);
    } else {
      OtherStep(s, step);
    }
  }

  /** The steps that may store a mask. */
  predicate OnMask(step: Step) {
    step.InlineStore? || step.InlineStoreRacing? || step.JobStore? || step.JobStoreRacing?
  }

  lemma StoreKeepsTime(s: State, step: Step)
    requires Timely(s) && WatchdogsTimely(s) && Enabled(s, step) && OnMask(step)
    ensures Timely(Next(s, step))
  {
  }

  lemma OtherKeepsTime(s: State, step: Step)
    requires Timely(s) && Enabled(s, step) && !OnMask(step)
    ensures Timely(Next(s, step))
  {
  }

  lemma StepKeepsTime(s: State, step: Step)
    requires Timely(s) && WatchdogsTimely(s) && Enabled(s, step)
    ensures Timely(Next(s, step))
  {
    if OnMask(step) {
      StoreKeepsTime(s, step);
    } else {
      OtherKeepsTime(s, step);
    }
  }

  lemma StoreKeepsMask(s: State, step: Step)
    requires CurrentMask(s) && Enabled(s, step) && OnMask(step)
    ensures CurrentMask(Next(s, step))
  {
  }

  /** The steps of a reload. */
  predicate OnReload(step: Step) {
    || step.ReloadStarts? || step.ReloadDrained? || step.ReloadDrainTimesOut?
    || step.ReloadBumps? || step.ReloadClears? || step.ReloadReturns?
  }

  lemma ReloadKeepsMask(s: State, step: Step)
    requires CurrentMask(s) && Enabled(s, step) && OnReload(step)
    ensures CurrentMask(Next(s, step))
  {
  }

  lemma OtherKeepsMask(s: State, step: Step)
    requires CurrentMask(s) && Enabled(s, step) && !OnMask(step) && !OnReload(step)
    ensures CurrentMask(Next(s, step))
  {
  }

  lemma StepKeepsMask(s: State, step: Step)
    requires CurrentMask(s) && Enabled(s, step)
    ensures CurrentMask(Next(s, step))
  {
    if OnMask(step) {
      StoreKeepsMask(s, step);
    } else if OnReload(step) {
      ReloadKeepsMask(s, step);
    } else {
      OtherKeepsMask(s, step);
    }
  }

  /** Only reading the mask starts a composition, and neither the clock nor the generation goes back. */
  lemma SnapshotStays(s: State, step: Step)
    requires Enabled(s, step) && !step.ReadMask?
    ensures var t := Next(s, step);
            (t.capture.Compositing? ==> t.capture == s.capture)
            && t.now >= s.now && t.shared.generation >= s.shared.generation
  {
  }

  lemma StepKeepsSnapshot(s: State, step: Step)
    requires Timely(s) && CurrentMask(s) && FreshSnapshot(s) && Enabled(s, step)
    ensures FreshSnapshot(Next(s, step))
  {
    if !step.ReadMask? {
      SnapshotStays(s, step);
    }
  }

  lemma StepKeepsInv(s: State, step: Step)
    requires Inv(s) && Enabled(s, step)
    ensures Inv(Next(s, step))
  {
    StepKeepsSlot(s, step);
    StepKeepsQueue(s, step);
    StepKeepsMarks(s, step);
    StepKeepsWatchdogs(s, step);
    StepKeepsTime(s, step);
    StepKeepsMask(s, step);
    StepKeepsSnapshot(s, step);
  }

  lemma {:induction false} RunKeepsInv(s: State, steps: seq<Step>)
    requires Inv(s) && Run(s, steps).Some?
    ensures Inv(Run(s, steps).value)
  {
    if steps != [] {
      RunKeepsInv(s, steps[..|steps| - 1]);
      StepKeepsInv(Run(s, steps[..|steps| - 1]).value, steps[|steps| - 1]);
    }
  }

  /** Every reachable state of every interleaving satisfies the invariant. */
  lemma {:induction false} ReachableInv(steps: seq<Step>)
    requires Run(Init(), steps).Some?
    ensures Inv(Run(Init(), steps).value)
  {
    RunKeepsInv(Init(), steps);
  }

  // ----- Main results -----

  /**
   While the slot is taken, either the capture thread is mid-dispatch, or the latest dispatch's watchdog
   is armed and due within one timeout, or it is firing, or that dispatch's job is about to clear the slot.
   */
  lemma {:induction false} NeverWedged(steps: seq<Step>)
    requires Run(Init(), steps).Some? && Run(Init(), steps).value.shared.inFlight
    ensures var s := Run(Init(), steps).value;
            || MidDispatch(s.capture)
            || (s.dispatches != []
                && var d := Latest(s);
                   || (d.watchdog.Armed? && d.watchdog.deadline <= s.now + INFERENCE_TIMEOUT_NS)
                   || d.watchdog.Firing?
                   || d.job.Clearing?)
  {
    ReachableInv(steps);
  }

  /** A step that needs neither the capture thread nor any inference to make progress. */
  predicate Autonomous(step: Step) {
    step.Tick? || step.WatchdogFires? || step.WatchdogClears? || step.JobClear?
  }

  lemma {:induction false} RunAppend(s: State, steps: seq<Step>, last: Step)
    requires Run(s, steps).Some? && Enabled(Run(s, steps).value, last)
    ensures Run(s, steps + [last]) == Some(Next(Run(s, steps).value, last))
  {
    assert (steps + [last])[..|steps|] == steps;
  }

  lemma {:induction false} RunConcat(s: State, first: seq<Step>, second: seq<Step>)
    requires Run(s, first).Some?
    ensures Run(s, first + second) == Run(Run(s, first).value, second)
  {
    if second == [] {
      assert first + second == first;
    } else {
      var front := second[..|second| - 1];
      RunConcat(s, first, front);
      assert (first + second)[..|first + second| - 1] == first + front;
    }
  }

  /** The slot is free and nothing else the capture thread sees has changed. */
  predicate FreedWithin(s: State, rescue: seq<Step>, limit: nat) {
    && (forall step | step in rescue :: Autonomous(step))
    && var t := Run(s, rescue);
       t.Some? && !t.value.shared.inFlight && t.value.capture == s.capture && t.value.now <= limit
  }

  lemma {:induction false} ClearingFrees(s: State) returns (rescue: seq<Step>)
    requires Inv(s) && s.dispatches != [] && Latest(s).job.Clearing?
    ensures FreedWithin(s, rescue, s.now)
  {
    assert s.head == |s.dispatches| - 1;
    RunAppend(s, [], JobClear);
    rescue := [] + [JobClear];
  }

  lemma {:induction false} FiringFrees(s: State) returns (rescue: seq<Step>)
    requires s.dispatches != [] && Latest(s).watchdog.Firing?
    ensures FreedWithin(s, rescue, s.now)
  {
    RunAppend(s, [], WatchdogClears(|s.dispatches| - 1));
    rescue := [] + [WatchdogClears(|s.dispatches| - 1)];
  }

  /** Once due, the latest watchdog fires. */
  lemma {:induction false} ArmedFires(s: State) returns (waiting: seq<Step>, t: State)
    requires Inv(s) && s.dispatches != [] && Latest(s).watchdog.Armed?
    requires s.now + INFERENCE_TIMEOUT_NS < CLOCK_LIMIT
    ensures Run(s, waiting) == Some(t) && (forall step <- waiting :: Autonomous(step))
    ensures t.capture == s.capture && t.now <= s.now + INFERENCE_TIMEOUT_NS
    ensures t.dispatches != [] && Latest(t).watchdog.Firing?
  {
    var k, deadline := |s.dispatches| - 1, Latest(s).watchdog.deadline;
    assert DispatchTimely(s.now, s.dispatches[k]);
    var due := if deadline <= s.now then s.now else deadline;
    RunAppend(s, [], Tick(due));
    waiting, t := [] + [Tick(due)], Next(s, Tick(due));
    RunAppend(s, waiting, WatchdogFires(k));
    waiting, t := waiting + [WatchdogFires(k)], Next(t, WatchdogFires(k));
  }

  lemma {:induction false} ArmedFrees(s: State) returns (rescue: seq<Step>)
    requires Inv(s) && s.dispatches != [] && Latest(s).watchdog.Armed?
    requires s.now + INFERENCE_TIMEOUT_NS < CLOCK_LIMIT
    ensures FreedWithin(s, rescue, s.now + INFERENCE_TIMEOUT_NS)
  {
    var waiting, t := ArmedFires(s);
    var freeing := FiringFrees(t);
    RunConcat(s, waiting, freeing);
    rescue := waiting + freeing;
  }

  /** Unless the capture thread itself holds the slot, watchdogs and the clock alone free it within one timeout. */
  lemma {:induction false} WatchdogsFree(s: State) returns (rescue: seq<Step>)
    requires Inv(s) && !HoldsSlot(s.capture) && s.now + INFERENCE_TIMEOUT_NS < CLOCK_LIMIT
    ensures FreedWithin(s, rescue, s.now + INFERENCE_TIMEOUT_NS)
  {
    if !s.shared.inFlight {
      rescue := [];
    } else if Latest(s).job.Clearing? {
      rescue := ClearingFrees(s);
    } else if Latest(s).watchdog.Firing? {
      rescue := FiringFrees(s);
    } else {
      rescue := ArmedFrees(s);
    }
  }

  /** A step of the capture thread that waits for nobody. */
  predicate OwnStep(step: Step) {
    || step.ReadGeneration? || step.ReadCapturedAt? || step.ArmWatchdog? || step.Enqueue?
    || step.InlineClear? || step.ReadMask? || step.Composite?
  }

  /** A schedule in which no inference makes progress, save one that the capture thread of `s` is itself waiting for. */
  predicate Unaided(s: State, rescue: seq<Step>) {
    forall step <- rescue ::
      Autonomous(step) || OwnStep(step) || (step == InlineStore(false) && s.capture.InlineRunning?)
  }

  /** `own` leads from `s` to `t` at once, by the capture thread alone. */
  ghost predicate LeadsTo(s: State, own: seq<Step>, t: State) {
    Run(s, own) == Some(t) && t.now == s.now && Unaided(s, own)
  }

  lemma {:induction false} LeadsFurther(s: State, own: seq<Step>, t: State, step: Step)
    requires LeadsTo(s, own, t) && Enabled(t, step) && OwnStep(step)
    ensures LeadsTo(s, own + [step], Next(t, step))
  {
    RunAppend(s, own, step);
  }

  /** A capture thread that holds the slot for an asynchronous dispatch arms a watchdog for it. */
  lemma {:induction false} Arms(s: State) returns (own: seq<Step>, t: State)
    requires s.capture.Claimed? || s.capture.HasGeneration? || s.capture.HasTime?
    ensures LeadsTo(s, own, t) && t.capture.HasWatchdog?
  {
    own, t := [], s;
    if t.capture.Claimed? {
      LeadsFurther(s, own, t, ReadGeneration);
      own, t := own + [ReadGeneration], Next(t, ReadGeneration);
    }
    if t.capture.HasGeneration? {
      LeadsFurther(s, own, t, ReadCapturedAt);
      own, t := own + [ReadCapturedAt], Next(t, ReadCapturedAt);
    }
    LeadsFurther(s, own, t, ArmWatchdog);
    own, t := own + [ArmWatchdog], Next(t, ArmWatchdog);
  }

  /** Inline, it clears the slot as soon as its inference has returned. */
  lemma {:induction false} InlineEnds(s: State) returns (own: seq<Step>, t: State)
    requires s.capture.InlineRunning? || s.capture.InlineFinished?
    ensures LeadsTo(s, own, t) && !HoldsSlot(t.capture)
  {
    own, t := [], s;
    if t.capture.InlineRunning? {
      RunAppend(s, own, InlineStore(false));
      own, t := own + [InlineStore(false)], Next(t, InlineStore(false));
    }
    LeadsFurther(s, own, t, InlineClear);
    own, t := own + [InlineClear], Next(t, InlineClear);
  }

  /** From wherever the capture thread is, it lets go of the slot by itself. */
  lemma {:induction false} LetsGo(s: State) returns (own: seq<Step>, t: State)
    ensures LeadsTo(s, own, t) && !HoldsSlot(t.capture)
  {
    if !HoldsSlot(s.capture) {
      own, t := [], s;
    } else if s.capture.InlineRunning? || s.capture.InlineFinished? {
      own, t := InlineEnds(s);
    } else {
      own, t := Arms(s);
    }
  }

  /** Once it holds the slot no more, it finishes its frame and leaves a free slot free. */
  lemma {:induction false} FinishesFrame(s: State) returns (own: seq<Step>, t: State)
    requires !HoldsSlot(s.capture) && !s.shared.inFlight && (s.capture.HasWatchdog? ==> s.dispatches != [])
    ensures LeadsTo(s, own, t) && t.capture.Idle? && !t.shared.inFlight
  {
    own, t := [], s;
    if t.capture.HasWatchdog? {
      LeadsFurther(s, own, t, Enqueue);
      own, t := own + [Enqueue], Next(t, Enqueue);
    }
    if t.capture.Reading? {
      LeadsFurther(s, own, t, ReadMask);
      own, t := own + [ReadMask], Next(t, ReadMask);
    }
    if t.capture.Compositing? {
      LeadsFurther(s, own, t, Composite);
      own, t := own + [Composite], Next(t, Composite);
    }
  }

  /**
   The schedule ends within `limit` with the capture thread idle and the slot free, so that the next frame claims it.
   */
  predicate Redispatches(s: State, rescue: seq<Step>, limit: nat) {
    && Unaided(s, rescue)
    && var t := Run(s, rescue);
       && t.Some? && t.value.now <= limit && t.value.capture.Idle? && !t.value.shared.inFlight
       && Next(t.value, BeginFrame).capture.Claimed?
  }

  lemma {:induction false} Assembled(s: State, own: seq<Step>, t: State, waiting: seq<Step>, u: State, rest: seq<Step>,
        v: State)
    requires LeadsTo(s, own, t) && Run(t, waiting) == Some(u) && LeadsTo(u, rest, v)
    requires (forall step <- waiting :: Autonomous(step)) && !u.capture.InlineRunning?
    ensures Run(s, own + waiting + rest) == Some(v) && Unaided(s, own + waiting + rest)
  {
    RunConcat(s, own, waiting);
    RunConcat(s, own + waiting, rest);
  }

  /**
   From every reachable state, even if every inference is stuck, there is a schedule that frees the slot within one
   timeout, lets the capture thread finish its frame, and lets the next frame dispatch. No inference needs to make
   progress in it, except one that the capture thread itself is running inline, where by design nobody can help.
   */
  lemma {:induction false} SlotComesFree(steps: seq<Step>) returns (rescue: seq<Step>)
    requires Run(Init(), steps).Some? && Run(Init(), steps).value.now + INFERENCE_TIMEOUT_NS < CLOCK_LIMIT
    ensures var s := Run(Init(), steps).value;
            Redispatches(s, rescue, s.now + INFERENCE_TIMEOUT_NS)
  {
    ReachableInv(steps);
    var s := Run(Init(), steps).value;
    var own, t := LetsGo(s);
    RunKeepsInv(s, own);
    var waiting := WatchdogsFree(t);
    RunKeepsInv(t, waiting);
    var u := Run(t, waiting).value;
    var rest, v := FinishesFrame(u);
    Assembled(s, own, t, waiting, u, rest, v);
    rescue := own + waiting + rest;
  }

  /** Whether a step drops the stored mask. */
  predicate Clears(step: Step) {
    step.Reset? || step.ReloadClears?
  }

  /** `later` is `earlier` or a strictly fresher mask. */
  predicate Advances(earlier: Option<Mask>, later: Option<Mask>) {
    earlier.Some? ==> later.Some? && (later == earlier || earlier.value.capturedAt < later.value.capturedAt)
  }

  /** Between clears, under any interleaving of late, wedged and inline results, the stored mask only gets fresher. */
  lemma {:induction false} MaskOnlyAdvances(s: State, steps: seq<Step>)
    requires Run(s, steps).Some? && forall step | step in steps :: !Clears(step)
    ensures Advances(s.shared.mask, Run(s, steps).value.shared.mask)
  {
    if steps != [] {
      var front, last := steps[..|steps| - 1], steps[|steps| - 1];
      assert forall step | step in front :: step in steps;
      MaskOnlyAdvances(s, front);
      var before := Run(s, front).value;
      assert last in steps && !Clears(last);
      assert Advances(before.shared.mask, Next(before, last).shared.mask);
    }
  }

  /**
   What a frame composites with, in every interleaving: a mask at most 500 ms old when it was read, and then of the
   current generation, or of the one before if a reload had bumped, not yet cleared, and no result of the new generation
   had replaced the mask. So it is outdated at composite time exactly when it was behind or a reload has bumped since.
   */
  lemma {:induction false} CompositedMask(steps: seq<Step>)
    requires Run(Init(), steps).Some? && Run(Init(), steps).value.capture.Compositing?
    requires Run(Init(), steps).value.capture.snapshot.Some?
    ensures var s := Run(Init(), steps).value;
            var c := s.capture;
            var mask := c.snapshot.value;
            && mask.capturedAt <= c.readAt <= s.now && c.readAt - mask.capturedAt <= MASK_MAX_AGE_NS
            && mask.generation == c.generationAtRead - (if c.behind then 1 else 0)
            && (mask.generation < s.shared.generation <==> c.behind || c.generationAtRead < s.shared.generation)
            && (mask.generation < s.returned <==>
                  c.generationAtRead < s.returned || (c.behind && c.generationAtRead == s.returned))
  {
    ReachableInv(steps);
  }

  /** No subtraction wraps: the clock reading is never behind a capture time. */
  lemma {:induction false} UsableMeaning(s: State)
    requires Timely(s)
    ensures Usable(s.shared, s.now) ==
              if s.shared.mask.Some? && s.now - s.shared.mask.value.capturedAt <= 500_000_000 then s.shared.mask
              else None
  {
  }

  /** In every interleaving a frame uses the stored mask exactly when there is one that is at most 500 ms old. */
  lemma {:induction false} ReadMaskIff(steps: seq<Step>)
    requires Run(Init(), steps).Some? && Enabled(Run(Init(), steps).value, ReadMask)
    ensures var s := Run(Init(), steps).value;
            var c := Next(s, ReadMask).capture;
            && (c.snapshot.Some? <==> s.shared.mask.Some? && s.now - s.shared.mask.value.capturedAt <= 500_000_000)
            && (c.snapshot.Some? ==> c.snapshot == s.shared.mask)
            && c.readAt == s.now
  {
    ReachableInv(steps);
    UsableMeaning(Run(Init(), steps).value);
  }

  /** A result is stored exactly when it is of the current generation and fresher than what is there. */
  lemma {:induction false} FresherIsStored(s: State, step: Step)
    requires Enabled(s, step) && (step == JobStore(true) || step == InlineStore(true))
    ensures var mine := if step.JobStore? then s.dispatches[s.head].generation else s.capture.generation;
            var at := if step.JobStore? then s.dispatches[s.head].capturedAt else s.capture.at;
            var mask := s.shared.mask;
            Next(s, step).shared.mask ==
              if mine == s.shared.generation && (mask.None? || mask.value.capturedAt < at) then Some(Mask(at, mine))
              else mask
  {
  }

  /**
   What reading records: whether the stored mask is behind, which is exactly whether it is of the generation before.
   */
  lemma {:induction false} ReadBehindIff(steps: seq<Step>)
    requires Run(Init(), steps).Some? && Enabled(Run(Init(), steps).value, ReadMask)
    requires Run(Init(), steps).value.shared.mask.Some?
    ensures var s := Run(Init(), steps).value;
            var c := Next(s, ReadMask).capture;
            && c.behind == Behind(s) && (c.behind <==> s.shared.mask.value.generation + 1 == s.shared.generation)
            && (!c.behind <==> s.shared.mask.value.generation == s.shared.generation)
  {
    ReachableInv(steps);
  }

  // ----- A mask of an earlier generation can be composited after a reload has returned -----

  lemma {:induction false} Extend(steps: seq<Step>, t: State, last: Step)
    requires Run(Init(), steps) == Some(t) && Enabled(t, last)
    ensures Run(Init(), steps + [last]) == Some(Next(t, last))
  {
    RunAppend(Init(), steps, last);
  }

  /** A frame dispatches; its thread is about to read the mask. */
  lemma {:induction false} FrameDispatched() returns (steps: seq<Step>, s: State)
    ensures Run(Init(), steps) == Some(s) && s.capture == Reading(0) && s.reload.NoReload? && s.now == 0
    ensures s.dispatches == [Dispatch(0, 0, 0, Armed(INFERENCE_TIMEOUT_NS), Waiting)] && s.head == 0
    ensures s.shared == Shared(true, None, 0, 0)
  {
    steps, s := [], Init();
    Extend(steps, s, BeginFrame);
    steps, s := steps + [BeginFrame], Next(s, BeginFrame);
    Extend(steps, s, ReadGeneration);
    steps, s := steps + [ReadGeneration], Next(s, ReadGeneration);
    Extend(steps, s, ReadCapturedAt);
    steps, s := steps + [ReadCapturedAt], Next(s, ReadCapturedAt);
    Extend(steps, s, ArmWatchdog);
    steps, s := steps + [ArmWatchdog], Next(s, ArmWatchdog);
    Extend(steps, s, Enqueue);
    steps, s := steps + [Enqueue], Next(s, Enqueue);
  }

  /** Its inference finishes at once and stores a mask. */
  lemma {:induction false} MaskStored() returns (steps: seq<Step>, s: State)
    ensures Run(Init(), steps) == Some(s) && s.capture == Reading(0) && s.reload.NoReload? && s.now == 0
    ensures s.shared == Shared(true, Some(Mask(0, 0)), 0, 0) && HeadJob(s, Finishing)
  {
    steps, s := FrameDispatched();
    Extend(steps, s, JobStart);
    steps, s := steps + [JobStart], Next(s, JobStart);
    Extend(steps, s, JobStore(true));
    steps, s := steps + [JobStore(true)], Next(s, JobStore(true));
  }

  /** The frame picks up its own mask. */
  lemma {:induction false} MaskPickedUp() returns (steps: seq<Step>, s: State)
    ensures Run(Init(), steps) == Some(s)
    ensures s.capture == Compositing(0, Some(Mask(0, 0)), 0, 0, false) && s.now == 0
    ensures s.reload.NoReload? && s.shared == Shared(false, Some(Mask(0, 0)), 0, 0)
  {
    steps, s := MaskStored();
    Extend(steps, s, JobCancelWatchdog);
    steps, s := steps + [JobCancelWatchdog], Next(s, JobCancelWatchdog);
    Extend(steps, s, JobClear);
    steps, s := steps + [JobClear], Next(s, JobClear);
    Extend(steps, s, ReadMask);
    steps, s := steps + [ReadMask], Next(s, ReadMask);
  }

  /** The next frame comes 33 ms later and dispatches its own inference. */
  lemma {:induction false} NextFrameComes() returns (steps: seq<Step>, s: State)
    ensures Run(Init(), steps) == Some(s) && s.now == 33_000_000 && s.capture == Claimed(33_000_000)
    ensures s.reload.NoReload? && s.shared == Shared(true, Some(Mask(0, 0)), 33_000_000, 0)
  {
    steps, s := MaskPickedUp();
    Extend(steps, s, Composite);
    steps, s := steps + [Composite], Next(s, Composite);
    Extend(steps, s, Tick(33_000_000));
    steps, s := steps + [Tick(33_000_000)], Next(s, Tick(33_000_000));
    Extend(steps, s, BeginFrame);
    steps, s := steps + [BeginFrame], Next(s, BeginFrame);
  }

  lemma {:induction false} NextFrameArms() returns (steps: seq<Step>, s: State)
    ensures Run(Init(), steps) == Some(s) && s.now == 33_000_000 && s.capture == HasWatchdog(33_000_000)
    ensures s.shared == Shared(true, Some(Mask(0, 0)), 33_000_000, 0) && s.reload.NoReload? && s.dispatches != []
  {
    steps, s := NextFrameComes();
    Extend(steps, s, ReadGeneration);
    steps, s := steps + [ReadGeneration], Next(s, ReadGeneration);
    Extend(steps, s, ReadCapturedAt);
    steps, s := steps + [ReadCapturedAt], Next(s, ReadCapturedAt);
    Extend(steps, s, ArmWatchdog);
    steps, s := steps + [ArmWatchdog], Next(s, ArmWatchdog);
  }

  /** Before that inference has even started, the frame composites with the mask of the frame before: one schedule. */
  lemma {:induction false} EarlierMaskComposited() returns (steps: seq<Step>)
    ensures var t := Run(Init(), steps);
            && t.Some? && Enabled(t.value, Composite)
            && t.value.capture == Compositing(33_000_000, Some(Mask(0, 0)), 33_000_000, 0, false)
  {
    var s;
    steps, s := NextFrameArms();
    Extend(steps, s, Enqueue);
    steps, s := steps + [Enqueue], Next(s, Enqueue);
    Extend(steps, s, ReadMask);
    steps, s := steps + [ReadMask], Next(s, ReadMask);
  }

  lemma {:induction false} ReloadBegins(before: seq<Step>, s: State) returns (steps: seq<Step>, t: State)
    requires Run(Init(), before) == Some(s) && s.reload.NoReload? && !s.shared.inFlight
    ensures Run(Init(), steps) == Some(t)
    ensures t.capture == s.capture && t.reload.Bumped? && t.shared.generation == s.shared.generation + 1
  {
    steps, t := before, s;
    Extend(steps, t, ReloadStarts);
    steps, t := steps + [ReloadStarts], Next(t, ReloadStarts);
    Extend(steps, t, ReloadDrained);
    steps, t := steps + [ReloadDrained], Next(t, ReloadDrained);
    Extend(steps, t, ReloadBumps);
    steps, t := steps + [ReloadBumps], Next(t, ReloadBumps);
  }

  /** A whole reload with nothing in flight, whatever the capture thread is doing. */
  lemma {:induction false} Reloads(before: seq<Step>, s: State) returns (steps: seq<Step>, t: State)
    requires Run(Init(), before) == Some(s) && s.reload.NoReload? && !s.shared.inFlight
    ensures Run(Init(), steps) == Some(t)
    ensures t.capture == s.capture && t.reload.NoReload? && t.returned == s.shared.generation + 1
  {
    steps, t := ReloadBegins(before, s);
    Extend(steps, t, ReloadClears);
    steps, t := steps + [ReloadClears], Next(t, ReloadClears);
    Extend(steps, t, ReloadReturns);
    steps, t := steps + [ReloadReturns], Next(t, ReloadReturns);
  }

  /** A whole reload then runs before the frame composites: one such schedule. */
  lemma {:induction false} StaleCompositeExists() returns (steps: seq<Step>)
    ensures var t := Run(Init(), steps);
            && t.Some? && t.value.capture.Compositing? && t.value.capture.snapshot.Some?
            && Enabled(t.value, Composite) && t.value.reload.NoReload?
            && t.value.capture.snapshot.value.generation < t.value.returned
  {
    var read, s := MaskPickedUp();
    var t;
    steps, t := Reloads(read, s);
  }

  /** Once a reload has returned and until the next one bumps, the stored mask is of the reloaded generation. */
  lemma {:induction false} ReloadedMask(steps: seq<Step>)
    requires Run(Init(), steps).Some? && Run(Init(), steps).value.reload.NoReload?
    ensures var s := Run(Init(), steps).value;
            s.shared.mask.Some? ==> s.shared.mask.value.generation == s.returned == s.shared.generation
  {
    ReachableInv(steps);
  }
}

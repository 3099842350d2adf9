/**
 * The audio callback and the engine thread as interleaved steps over the shared queue
 * and counters. The callback's three effects (read, advance the clock, count underruns)
 * are separate steps, so engine steps can come between them.
 */
module PlaybackProtocol {
  import opened Strides
  import opened PreviewAudio

  /** Where the callback stands: `total` frames asked for, `got` frames delivered by its read. */
  datatype Phase = Idle | HasRead(total: nat, got: nat) | Clocked(total: nat, got: nat)

  /**
   * What has happened since the clock was last restarted. `written` starts with the bytes queued
   * then, `consumed` are the bytes taken off the queue, read or dropped; `base` is how far the
   * clock and the counters disagreed then; `taken` are the underrun frames the engine collected
   * and `dropped` the frames it took off the queue.
   */
  datatype Epoch =
    Epoch(base: int, written: seq<Byte>, consumed: seq<Byte>, played: nat, taken: int, dropped: nat)

  datatype System = System(device: Shared, phase: Phase, epoch: Epoch)

  datatype Step =
    | Write(bytes: seq<Byte>)
    | CallbackRead(total: nat)
    | CallbackClock
    | CallbackUnderrun
    | TakeUnderruns
    | DropFront(frames: int)
    | Clear
    | ResetClock

  function ClockInFlight(phase: Phase): nat {
    if phase.HasRead? then phase.total else 0
  }

  function UnderrunsInFlight(phase: Phase): nat {
    if phase.Idle? || phase.total <= phase.got then 0 else phase.total - phase.got
  }

  /** The epoch that starts at this point of a run. */
  function Restarted(device: Shared, phase: Phase): System {
    System(device, phase,
           Epoch(device.clock + ClockInFlight(phase) - device.underruns - UnderrunsInFlight(phase),
                 device.queue, [], 0, 0, 0))
  }

  /** One step with frames of `bpf` bytes. A step that is not possible in the callback's phase changes nothing. */
  function Next(s: System, step: Step, bpf: nat): System
    requires bpf > 0
  {
    var d, e := s.device, s.epoch;
    match step
    case Write(bytes) => s.(device := d.(queue := d.queue + bytes), epoch := e.(written := e.written + bytes))
    case CallbackRead(total) =>
      if !s.phase.Idle? then s
      else
        var copied := Copied(d, Stride(total, bpf));
        var got := Quotient(copied, bpf);
        System(AfterRead(d, Stride(total, bpf)), HasRead(total, got),
               e.(consumed := e.consumed + d.queue[..copied], played := e.played + got))
    case CallbackClock =>
      if !s.phase.HasRead? then s
      else s.(device := d.(clock := d.clock + s.phase.total), phase := Clocked(s.phase.total, s.phase.got))
    case CallbackUnderrun =>
      if !s.phase.Clocked? then s
      else s.(device := d.(underruns := d.underruns + UnderrunsInFlight(s.phase)), phase := Idle)
    case TakeUnderruns => s.(device := d.(underruns := 0), epoch := e.(taken := e.taken + d.underruns))
    case DropFront(frames) =>
      s.(device := AfterDrop(d, frames, bpf),
         epoch := e.(consumed := e.consumed + d.queue[..DroppedBytes(d, frames, bpf)],
                     dropped := e.dropped + DroppedFrames(d, frames, bpf)))
    case Clear => Restarted(AfterClear(d), s.phase)
    case ResetClock => Restarted(d.(clock := 0), s.phase)
  }

  /** The state after the first `n` steps of a schedule. */
  function After(s: System, steps: seq<Step>, n: nat, bpf: nat): System
    requires bpf > 0 && n <= |steps|
  {
    if n == 0 then s else Next(After(s, steps, n - 1, bpf), steps[n - 1], bpf)
  }

  /**
   * The three steps of a callback in a row have the effect `OutputCallback.OnOutput` promises for `total` whole frames.
   */
  lemma CallbackIsThreeSteps(s: System, total: nat, bpf: nat)
    requires bpf > 0 && s.phase.Idle?
    ensures var t := Next(Next(Next(s, CallbackRead(total), bpf), CallbackClock, bpf), CallbackUnderrun, bpf);
      var got := Quotient(Copied(s.device, Stride(total, bpf)), bpf);
      && t.phase.Idle?
      && t.device == AfterRead(s.device, Stride(total, bpf))
           .(clock := s.device.clock + total, underruns := s.device.underruns + if total > got then total - got else 0)
  {
  }

  /** A callback that no engine step disturbs takes the device through the three steps. */
  method CallbackTakesThreeSteps(callback: OutputCallback, out: array<real>, device: PreviewAudioDevice,
                                 channels: nat, decode: Decoder, ghost total: nat, ghost s: System)
    requires channels > 0 && out.Length == Stride(total, channels) && s.phase.Idle? && s.device == device.State()
    modifies callback`scratch, out, device`buffer, device`bytesRead, device`callbackInstalled, device`notified,
      device`outputFramesConsumed, device`underrunFrames
    ensures var bpf := 4 * channels;
      device.State() ==
        Next(Next(Next(s, CallbackRead(total), bpf), CallbackClock, bpf), CallbackUnderrun, bpf).device
  {
    FramesOfBlock(total, channels, out.Length);
    CallbackIsThreeSteps(s, total, 4 * channels);
    callback.OnOutput(out, device, channels, decode);
  }

  lemma FramesOfBlock(total: nat, channels: nat, length: nat)
    requires channels > 0 && length == Stride(total, channels)
    ensures Stride(total, 4 * channels) == 4 * length && Quotient(length, channels) == total
  {
    StrideIsProduct(total, channels);
    StrideIsProduct(total, 4 * channels);
    DivisionOfStride(total, 0, channels);
  }

  /** Device and callback are at rest, as after construction. */
  predicate AtStart(s: System) {
    && s.phase.Idle? && s.epoch == Epoch(0, [], [], 0, 0, 0)
    && s.device.queue == [] && s.device.bytesRead == 0 && s.device.clock == 0 && s.device.underruns == 0
  }

  // ----- accounting -----

  /** A callback never got more frames than it asked for. */
  predicate PhaseOk(phase: Phase) {
    phase.Idle? || phase.got <= phase.total
  }

  /** Clock and in-flight frames are the frames played plus every underrun, wherever it is counted. */
  predicate Accounted(s: System) {
    s.device.clock + ClockInFlight(s.phase)
      == s.epoch.base + s.epoch.played + s.epoch.taken + s.device.underruns + UnderrunsInFlight(s.phase)
  }

  lemma ReadGetsAtMost(d: Shared, total: nat, bpf: nat)
    requires bpf > 0
    ensures Quotient(Copied(d, Stride(total, bpf)), bpf) <= total
  {
    QuotientMonotone(Copied(d, Stride(total, bpf)), Stride(total, bpf), bpf);
    DivisionOfStride(total, 0, bpf);
  }

  lemma StepAccounts(s: System, step: Step, bpf: nat)
    requires bpf > 0 && PhaseOk(s.phase) && Accounted(s)
    ensures PhaseOk(Next(s, step, bpf).phase) && Accounted(Next(s, step, bpf))
  {
    if step.CallbackRead? { ReadGetsAtMost(s.device, step.total, bpf); }
  }

  /** The accounting equation holds in every state of every interleaving. */
  lemma {:induction false} EveryRunAccounts(s: System, steps: seq<Step>, n: nat, bpf: nat)
    requires bpf > 0 && n <= |steps| && PhaseOk(s.phase) && Accounted(s)
    ensures PhaseOk(After(s, steps, n, bpf).phase) && Accounted(After(s, steps, n, bpf))
  {
    if n > 0 {
      EveryRunAccounts(s, steps, n - 1, bpf);
      StepAccounts(After(s, steps, n - 1, bpf), steps[n - 1], bpf);
    }
  }

  // ----- the history of the queue -----

  /** What was written is what was consumed, in order, followed by what is queued. */
  predicate HistoryKept(s: System) {
    s.epoch.written == s.epoch.consumed + s.device.queue
  }

  lemma StepKeepsHistory(s: System, step: Step, bpf: nat)
    requires bpf > 0 && HistoryKept(s)
    ensures HistoryKept(Next(s, step, bpf))
  {
    var d := s.device;
    match step
    case Write(bytes) => Moved(s.epoch.consumed, d.queue, bytes);
    case CallbackRead(total) => SplitOff(s.epoch.consumed, d.queue, Copied(d, Stride(total, bpf)));
    case DropFront(frames) => SplitOff(s.epoch.consumed, d.queue, DroppedBytes(d, frames, bpf));
    case _ =>
  }

  lemma Moved(front: seq<Byte>, queue: seq<Byte>, more: seq<Byte>)
    ensures (front + queue) + more == front + (queue + more)
  {
  }

  lemma SplitOff(front: seq<Byte>, queue: seq<Byte>, n: nat)
    requires n <= |queue|
    ensures front + queue == (front + queue[..n]) + queue[n..]
  {
    assert queue == queue[..n] + queue[n..];
  }

  /** In every state of every interleaving the bytes taken off the queue and the queue make up what was written. */
  lemma {:induction false} EveryRunKeepsHistory(s: System, steps: seq<Step>, n: nat, bpf: nat)
    requires bpf > 0 && n <= |steps| && HistoryKept(s)
    ensures HistoryKept(After(s, steps, n, bpf))
  {
    if n > 0 {
      EveryRunKeepsHistory(s, steps, n - 1, bpf);
      StepKeepsHistory(After(s, steps, n - 1, bpf), steps[n - 1], bpf);
    }
  }

  /** Bytes the first `n` steps write, one after the other. */
  function BytesWritten(steps: seq<Step>, n: nat): seq<Byte>
    requires n <= |steps|
  {
    if n == 0 then []
    else BytesWritten(steps, n - 1) + if steps[n - 1].Write? then steps[n - 1].bytes else []
  }

  /** Steps of one epoch. */
  predicate NoRestart(steps: seq<Step>) {
    forall k :: 0 <= k < |steps| ==> !steps[k].Clear? && !steps[k].ResetClock?
  }

  lemma {:induction false} RunWrites(s: System, steps: seq<Step>, n: nat, bpf: nat)
    requires bpf > 0 && n <= |steps| && NoRestart(steps)
    ensures After(s, steps, n, bpf).epoch.written == s.epoch.written + BytesWritten(steps, n)
  {
    if n > 0 {
      RunWrites(s, steps, n - 1, bpf);
      if steps[n - 1].Write? { Moved(s.epoch.written, BytesWritten(steps, n - 1), steps[n - 1].bytes); }
    }
  }

  /** A clear drops every queued byte and restarts the counters, all but the pending underruns. */
  lemma ClearForgetsTheQueue(s: System, bpf: nat)
    requires bpf > 0
    ensures var t := Next(s, Clear, bpf);
      && t.device.queue == [] && t.device.bytesRead == 0 && t.device.clock == 0
      && t.device.underruns == s.device.underruns && t.phase == s.phase
      && t.epoch.written == [] && t.epoch.consumed == []
  {
  }

  /** A clock reset touches the clock alone. */
  lemma ResetKeepsTheQueue(s: System, bpf: nat)
    requires bpf > 0
    ensures var t := Next(s, ResetClock, bpf);
      && t.device.queue == s.device.queue && t.device.bytesRead == s.device.bytesRead && t.device.clock == 0
      && t.device.underruns == s.device.underruns && t.phase == s.phase
      && t.epoch.written == s.device.queue && t.epoch.consumed == []
  {
  }

  /**
   * After a clear, and any steps without a restart, the bytes taken off the queue and those still
   * on it are exactly the bytes written since, in order: nothing from before is ever played.
   */
  lemma NothingStaleAfterClear(s: System, steps: seq<Step>, n: nat, bpf: nat, t: System)
    requires bpf > 0 && n <= |steps| && NoRestart(steps) && t == After(Next(s, Clear, bpf), steps, n, bpf)
    ensures t.epoch.consumed + t.device.queue == BytesWritten(steps, n)
  {
    var r := Next(s, Clear, bpf);
    ClearForgetsTheQueue(s, bpf);
    assert HistoryKept(r);
    EveryRunKeepsHistory(r, steps, n, bpf);
    RunWrites(r, steps, n, bpf);
  }

  // ----- whole frames -----

  predicate WholeFrames(bytes: nat, bpf: nat)
    requires bpf > 0
  {
    bytes == Stride(Quotient(bytes, bpf), bpf)
  }

  predicate WholeFrameWrites(steps: seq<Step>, bpf: nat)
    requires bpf > 0
  {
    forall k :: 0 <= k < |steps| && steps[k].Write? ==> WholeFrames(|steps[k].bytes|, bpf)
  }

  /** The queue holds whole frames, and the bytes consumed are the frames played and dropped. */
  predicate FrameAligned(s: System, bpf: nat)
    requires bpf > 0
  {
    WholeFrames(|s.device.queue|, bpf) && |s.epoch.consumed| == Stride(s.epoch.played + s.epoch.dropped, bpf)
  }

  lemma WholeSum(a: nat, b: nat, bpf: nat)
    requires bpf > 0 && WholeFrames(a, bpf) && WholeFrames(b, bpf)
    ensures WholeFrames(a + b, bpf)
  {
    StridePlus(Quotient(a, bpf), Quotient(b, bpf), bpf);
    DivisionOfStride(Quotient(a, bpf) + Quotient(b, bpf), 0, bpf);
  }

  lemma WholeDifference(a: nat, b: nat, bpf: nat)
    requires bpf > 0 && b <= a && WholeFrames(a, bpf) && WholeFrames(b, bpf)
    ensures WholeFrames(a - b, bpf)
  {
    var p, q := Quotient(a, bpf), Quotient(b, bpf);
    QuotientMonotone(b, a, bpf);
    StridePlus(q, p - q, bpf);
    DivisionOfStride(p - q, 0, bpf);
  }

  lemma WholeStride(frames: nat, bpf: nat)
    requires bpf > 0
    ensures WholeFrames(Stride(frames, bpf), bpf)
  {
    DivisionOfStride(frames, 0, bpf);
  }

  /** Taking up to `frames` frames off an aligned queue takes whole frames and leaves whole frames. */
  lemma TakesWholeFrames(queued: nat, frames: nat, bpf: nat, taken: nat)
    requires bpf > 0 && WholeFrames(queued, bpf) && taken == Shorter(Stride(frames, bpf), queued)
    ensures WholeFrames(taken, bpf) && WholeFrames(queued - taken, bpf)
  {
    if taken == queued {
      WholeStride(0, bpf);
    } else {
      WholeStride(frames, bpf);
      WholeDifference(queued, taken, bpf);
    }
  }

  lemma StepKeepsAlignment(s: System, step: Step, bpf: nat)
    requires bpf > 0 && FrameAligned(s, bpf) && (step.Write? ==> WholeFrames(|step.bytes|, bpf))
    ensures FrameAligned(Next(s, step, bpf), bpf)
  {
    var queued, moved := |s.device.queue|, s.epoch.played + s.epoch.dropped;
    if step.Write? {
      WholeSum(queued, |step.bytes|, bpf);
    } else if step.CallbackRead? && s.phase.Idle? {
      TakesWholeFrames(queued, step.total, bpf, Copied(s.device, Stride(step.total, bpf)));
      StridePlus(moved, Quotient(Copied(s.device, Stride(step.total, bpf)), bpf), bpf);
    } else if step.DropFront? && step.frames > 0 {
      TakesWholeFrames(queued, step.frames, bpf, DroppedBytes(s.device, step.frames, bpf));
      StridePlus(moved, DroppedFrames(s.device, step.frames, bpf), bpf);
    }
  }

  lemma {:induction false} EveryRunStaysAligned(s: System, steps: seq<Step>, n: nat, bpf: nat)
    requires bpf > 0 && n <= |steps| && WholeFrameWrites(steps, bpf) && FrameAligned(s, bpf)
    ensures FrameAligned(After(s, steps, n, bpf), bpf)
  {
    if n > 0 {
      EveryRunStaysAligned(s, steps, n - 1, bpf);
      StepKeepsAlignment(After(s, steps, n - 1, bpf), steps[n - 1], bpf);
    }
  }

  // ----- where the queue stands against the clock -----

  /** Frames by which the clock is ahead of the front of the queue while the callback is idle. */
  function Drift(s: System): int {
    s.epoch.base + s.epoch.taken + s.device.underruns - s.epoch.dropped
  }

  /** The next frame to play is the one the clock stands at. */
  predicate FrontAtClock(s: System, bpf: nat) {
    s.device.clock >= 0 && Stride(s.device.clock, bpf) <= |s.epoch.written|
      && s.epoch.written[Stride(s.device.clock, bpf)..] == s.device.queue
  }

  predicate Consistent(s: System, bpf: nat)
    requires bpf > 0
  {
    PhaseOk(s.phase) && Accounted(s) && HistoryKept(s) && FrameAligned(s, bpf)
  }

  lemma RunStaysConsistent(s: System, steps: seq<Step>, n: nat, bpf: nat)
    requires bpf > 0 && n <= |steps| && WholeFrameWrites(steps, bpf) && Consistent(s, bpf)
    ensures Consistent(After(s, steps, n, bpf), bpf)
  {
    EveryRunAccounts(s, steps, n, bpf);
    EveryRunKeepsHistory(s, steps, n, bpf);
    EveryRunStaysAligned(s, steps, n, bpf);
  }

  /** Every epoch starts consistent, with the queue it finds. */
  lemma RestartIsConsistent(device: Shared, phase: Phase, bpf: nat)
    requires bpf > 0 && PhaseOk(phase) && WholeFrames(|device.queue|, bpf)
    ensures Consistent(Restarted(device, phase), bpf)
  {
    assert [] + device.queue == device.queue;
  }

  lemma FrontExactlyWithoutDrift(s: System, bpf: nat)
    requires bpf > 0 && s.phase.Idle? && Consistent(s, bpf)
    ensures FrontAtClock(s, bpf) <==> Drift(s) == 0
  {
    assert s.epoch.written[|s.epoch.consumed|..] == s.device.queue;
    if FrontAtClock(s, bpf) {
      assert |s.epoch.written| - Stride(s.device.clock, bpf) == |s.epoch.written| - |s.epoch.consumed|;
      StrideInjective(s.device.clock, s.epoch.played + s.epoch.dropped, bpf);
    }
  }

  lemma StrideInjective(p: nat, q: nat, width: nat)
    requires width > 0 && Stride(p, width) == Stride(q, width)
    ensures p == q
  {
    DivisionOfStride(p, 0, width);
    DivisionOfStride(q, 0, width);
  }

  /**
   * In every idle state of every run of whole-frame writes the clock leads by the drift, and
   * the front of the queue is at the clock exactly when there is none.
   */
  lemma IdleFrontIsAtClock(s0: System, steps: seq<Step>, n: nat, bpf: nat, s: System)
    requires bpf > 0 && n <= |steps| && WholeFrameWrites(steps, bpf) && Consistent(s0, bpf)
    requires s == After(s0, steps, n, bpf) && s.phase.Idle?
    ensures s.device.clock == s.epoch.played + s.epoch.dropped + Drift(s)
    ensures FrontAtClock(s, bpf) <==> Drift(s) == 0
  {
    RunStaysConsistent(s0, steps, n, bpf);
    FrontExactlyWithoutDrift(s, bpf);
  }

  // ----- restarting the clock -----

  lemma {:induction false} BaseStays(s: System, steps: seq<Step>, n: nat, bpf: nat)
    requires bpf > 0 && n <= |steps| && NoRestart(steps)
    ensures After(s, steps, n, bpf).epoch.base == s.epoch.base
  {
    if n > 0 { BaseStays(s, steps, n - 1, bpf); }
  }

  /** `t` ends an epoch's work: the callback is idle, no underrun is pending and every one taken was dropped. */
  predicate Settled(t: System) {
    t.phase.Idle? && t.device.underruns == 0 && t.epoch.taken == t.epoch.dropped
  }

  lemma StartIsConsistent(bpf: nat, s0: System)
    requires bpf > 0 && AtStart(s0)
    ensures Consistent(s0, bpf) && s0.epoch.base == 0
  {
    WholeStride(0, bpf);
    RestartIsConsistent(s0.device, s0.phase, bpf);
  }

  lemma RunFromBase(s0: System, steps: seq<Step>, n: nat, bpf: nat, s: System)
    requires bpf > 0 && n <= |steps| && WholeFrameWrites(steps, bpf) && NoRestart(steps)
    requires Consistent(s0, bpf) && s == After(s0, steps, n, bpf) && s.phase.Idle?
    ensures s.device.clock == s0.epoch.base + s.epoch.played + s.epoch.taken + s.device.underruns
    ensures FrontAtClock(s, bpf) <==> s0.epoch.base + s.epoch.taken + s.device.underruns == s.epoch.dropped
  {
    IdleFrontIsAtClock(s0, steps, n, bpf, s);
    BaseStays(s0, steps, n, bpf);
  }

  /**
   * From the start of playback on, in every idle state without a restart, the clock has counted
   * the frames played and every underrun, and the front of the queue is at the clock exactly
   * when every underrun was made up for by a dropped frame.
   */
  lemma EveryRunFromStart(s0: System, steps: seq<Step>, n: nat, bpf: nat, s: System)
    requires bpf > 0 && n <= |steps| && WholeFrameWrites(steps, bpf) && NoRestart(steps) && AtStart(s0)
    requires s == After(s0, steps, n, bpf) && s.phase.Idle?
    ensures s.device.clock == s.epoch.played + s.epoch.taken + s.device.underruns
    ensures FrontAtClock(s, bpf) <==> s.epoch.taken + s.device.underruns == s.epoch.dropped
  {
    assert Consistent(s0, bpf) && s0.epoch.base == 0 by { StartIsConsistent(bpf, s0); }
    RunFromBase(s0, steps, n, bpf, s);
  }

  /**
   * Restarting the clock, with `clear` or on its own, is exact only between callbacks: in every
   * settled state of every run that follows, the queue front is at the clock exactly when the
   * callback's effects still to come and the underruns still pending cancelled at the restart.
   */
  lemma RestartedFrontIsAtClockExactly(s: System, restart: Step, steps: seq<Step>, n: nat, bpf: nat, t: System)
    requires bpf > 0 && n <= |steps| && NoRestart(steps) && WholeFrameWrites(steps, bpf)
    requires PhaseOk(s.phase) && WholeFrames(|s.device.queue|, bpf) && (restart.Clear? || restart.ResetClock?)
    requires t == After(Next(s, restart, bpf), steps, n, bpf) && Settled(t)
    ensures FrontAtClock(t, bpf) <==> ClockInFlight(s.phase) == UnderrunsInFlight(s.phase) + s.device.underruns
  {
    var r := RestartedAt(s, restart, bpf);
    RunAfterRestart(r, steps, n, bpf, t);
  }

  lemma RestartedAt(s: System, restart: Step, bpf: nat) returns (r: System)
    requires bpf > 0 && PhaseOk(s.phase) && WholeFrames(|s.device.queue|, bpf)
    requires restart.Clear? || restart.ResetClock?
    ensures r == Next(s, restart, bpf) && Consistent(r, bpf) && r.epoch.taken == r.epoch.dropped == 0
    ensures r.epoch.base == ClockInFlight(s.phase) - s.device.underruns - UnderrunsInFlight(s.phase)
  {
    var device := if restart.Clear? then AfterClear(s.device) else s.device.(clock := 0);
    WholeStride(0, bpf);
    RestartIsConsistent(device, s.phase, bpf);
    r := Restarted(device, s.phase);
  }

  lemma RunAfterRestart(r: System, steps: seq<Step>, n: nat, bpf: nat, t: System)
    requires bpf > 0 && n <= |steps| && NoRestart(steps) && WholeFrameWrites(steps, bpf) && Consistent(r, bpf)
    requires t == After(r, steps, n, bpf) && Settled(t)
    ensures FrontAtClock(t, bpf) <==> r.epoch.base == 0
  {
    IdleFrontIsAtClock(r, steps, n, bpf, t);
    BaseStays(r, steps, n, bpf);
  }

  /**
   * Schedules that fail it, from any idle state with an empty queue and no underrun: one frame is
   * written and read, and the queue is cleared before the callback advances the clock. The state
   * they end in is settled, with the clock at 1 and nothing written or played since the clear.
   */
  lemma ClearMidCallbackLeavesTheClockAhead(s: System, frame: seq<Byte>, bpf: nat, t: System)
    requires |frame| == bpf > 0 && s.phase.Idle? && s.device.queue == [] && s.device.underruns == 0
    requires t == AfterRestOfCallback(Next(AfterFrameRead(s, frame, bpf), Clear, bpf), bpf)
    ensures Settled(t) && t.device.clock == 1 && t.epoch.written == [] && !FrontAtClock(t, bpf)
  {
    FrameReadIsInFlight(s, frame, bpf);
    CallbackEndsAfterClear(Next(AfterFrameRead(s, frame, bpf), Clear, bpf), 1, bpf);
  }

  lemma CallbackEndsAfterClear(s: System, total: nat, bpf: nat)
    requires bpf > 0 && total > 0 && s.phase == HasRead(total, total) && s.device.clock == 0 && s.device.underruns == 0
    requires s.epoch.written == [] && s.epoch.taken == s.epoch.dropped
    ensures var t := AfterRestOfCallback(s, bpf);
      Settled(t) && t.device.clock == total && t.epoch.written == [] && !FrontAtClock(t, bpf)
  {
    assert Stride(total, bpf) >= bpf;
  }

  function AfterFrameRead(s: System, frame: seq<Byte>, bpf: nat): System
    requires bpf > 0
  {
    Next(Next(s, Write(frame), bpf), CallbackRead(1), bpf)
  }

  function AfterRestOfCallback(s: System, bpf: nat): System
    requires bpf > 0
  {
    Next(Next(s, CallbackClock, bpf), CallbackUnderrun, bpf)
  }

  lemma FrameReadIsInFlight(s: System, frame: seq<Byte>, bpf: nat)
    requires |frame| == bpf > 0 && s.phase.Idle? && s.device.queue == []
    ensures AfterFrameRead(s, frame, bpf).phase == HasRead(1, 1)
    ensures AfterFrameRead(s, frame, bpf).device.underruns == s.device.underruns
  {
    assert Stride(1, bpf) == bpf;
    DivisionOfStride(1, 0, bpf);
  }

  // ----- healing -----

  const HEAL_THRESHOLD := 480

  /**
   * The engine's tick: it collects the underruns and, unless they are few or the last drop was
   * recent, drops that many frames. `between` is what the callback and other writers do
   * between the two calls.
   */
  predicate Heals(underruns: int, cooldownOk: bool) {
    cooldownOk && underruns > HEAL_THRESHOLD
  }

  function TakenAndDisturbed(s: System, between: seq<Step>, bpf: nat): System
    requires bpf > 0
  {
    After(Next(s, TakeUnderruns, bpf), between, |between|, bpf)
  }

  function Healed(m: System, underruns: int, cooldownOk: bool, bpf: nat): System
    requires bpf > 0
  {
    if Heals(underruns, cooldownOk) then Next(m, DropFront(underruns), bpf) else m
  }

  /** Steps that neither collect underruns nor drop frames: the callback's own, and writes. */
  predicate OnlyCallbackAndWrites(steps: seq<Step>) {
    forall k :: 0 <= k < |steps| ==>
      steps[k].Write? || steps[k].CallbackRead? || steps[k].CallbackClock? || steps[k].CallbackUnderrun?
  }

  /** Such steps move the drift by the underruns they count, and never down. */
  lemma {:induction false} CallbackMovesDrift(s: System, steps: seq<Step>, n: nat, bpf: nat)
    requires bpf > 0 && n <= |steps| && OnlyCallbackAndWrites(steps)
    ensures var t := After(s, steps, n, bpf);
      t.device.underruns >= s.device.underruns && Drift(t) - Drift(s) == t.device.underruns - s.device.underruns
  {
    if n > 0 { CallbackMovesDrift(s, steps, n - 1, bpf); }
  }

  lemma HealedIsConsistent(s: System, between: seq<Step>, cooldownOk: bool, bpf: nat)
    requires bpf > 0 && WholeFrameWrites(between, bpf) && Consistent(s, bpf)
    ensures var m := TakenAndDisturbed(s, between, bpf);
      Consistent(m, bpf) && Consistent(Healed(m, s.device.underruns, cooldownOk, bpf), bpf)
  {
    NextIsConsistent(s, TakeUnderruns, bpf);
    RunStaysConsistent(Next(s, TakeUnderruns, bpf), between, |between|, bpf);
    NextIsConsistent(TakenAndDisturbed(s, between, bpf), DropFront(s.device.underruns), bpf);
  }

  lemma NextIsConsistent(s: System, step: Step, bpf: nat)
    requires bpf > 0 && Consistent(s, bpf) && !step.Write?
    ensures Consistent(Next(s, step, bpf), bpf)
  {
    StepAccounts(s, step, bpf);
    StepKeepsHistory(s, step, bpf);
    StepKeepsAlignment(s, step, bpf);
  }

  /** What a tick leaves of the drift, whatever the callback does meanwhile: `m` is the state it drops in. */
  lemma DriftAfterHeal(s: System, between: seq<Step>, cooldownOk: bool, bpf: nat, m: System)
    requires bpf > 0 && WholeFrameWrites(between, bpf) && OnlyCallbackAndWrites(between) && Consistent(s, bpf)
    requires m == TakenAndDisturbed(s, between, bpf)
    ensures m.device.underruns >= 0
    ensures var u := s.device.underruns;
      Drift(Healed(m, u, cooldownOk, bpf)) == Drift(s) + m.device.underruns
        - if cooldownOk && u > 480 then Shorter(u, Quotient(|m.device.queue|, bpf)) else 0
  {
    CallbackMovesDrift(Next(s, TakeUnderruns, bpf), between, |between|, bpf);
    HealedIsConsistent(s, between, cooldownOk, bpf);
    if Heals(s.device.underruns, cooldownOk) { DroppedFramesAre(m.device, s.device.underruns, bpf); }
  }

  /**
   * A tick in a run without older drift, with any callback steps and writes between taking the
   * underruns and dropping the frames: no drift is left exactly when no further underrun was
   * counted meanwhile and there was nothing to heal, or it dropped and enough was still queued.
   * Underruns it takes without dropping are forgotten, and so is what the queue could not give.
   */
  lemma HealRemovesDriftExactly(s: System, between: seq<Step>, cooldownOk: bool, bpf: nat, m: System, t: System)
    requires bpf > 0 && WholeFrameWrites(between, bpf) && OnlyCallbackAndWrites(between) && Consistent(s, bpf)
    requires s.device.underruns >= 0 && Drift(s) == s.device.underruns
    requires m == TakenAndDisturbed(s, between, bpf) && t == Healed(m, s.device.underruns, cooldownOk, bpf)
    ensures var u := s.device.underruns;
      Drift(t) == 0 <==>
        m.device.underruns == 0 && (u == 0 || (cooldownOk && u > 480 && u <= Quotient(|m.device.queue|, bpf)))
    ensures t.phase.Idle? ==> (FrontAtClock(t, bpf) <==> Drift(t) == 0)
  {
    DriftAfterHeal(s, between, cooldownOk, bpf, m);
    HealedIsConsistent(s, between, cooldownOk, bpf);
    if t.phase.Idle? { FrontExactlyWithoutDrift(t, bpf); }
  }

  /** The same for a tick no callback step disturbs: what is queued when it starts decides. */
  lemma HealRemovesDrift(s: System, cooldownOk: bool, bpf: nat)
    requires bpf > 0 && Consistent(s, bpf) && s.device.underruns >= 0 && Drift(s) == s.device.underruns
    ensures var u := s.device.underruns;
      Drift(Healed(Next(s, TakeUnderruns, bpf), u, cooldownOk, bpf)) == 0 <==>
        u == 0 || (cooldownOk && u > 480 && u <= Quotient(|s.device.queue|, bpf))
  {
    var m := Next(s, TakeUnderruns, bpf);
    assert TakenAndDisturbed(s, [], bpf) == m;
    HealRemovesDriftExactly(s, [], cooldownOk, bpf, m, Healed(m, s.device.underruns, cooldownOk, bpf));
  }

  /**
   * Schedules that leave a drift although enough was queued when the tick started: the callback
   * reads one frame of a queue of exactly the underruns before the tick drops them. The state
   * after the callback has ended is idle, and the clock is one frame ahead of the queue.
   */
  lemma ReadBeforeDropLeavesDrift(s: System, u: nat, bpf: nat, t: System)
    requires bpf > 0 && u > 480 && Consistent(s, bpf) && s.phase.Idle?
    requires s.device.underruns == u == Drift(s) && |s.device.queue| == Stride(u, bpf)
    requires t == AfterRestOfCallback(Healed(TakenAndDisturbed(s, [CallbackRead(1)], bpf), u, true, bpf), bpf)
    ensures t.phase.Idle? && Drift(t) == 1 && !FrontAtClock(t, bpf)
  {
    var between, m := [CallbackRead(1)], TakenAndDisturbed(s, [CallbackRead(1)], bpf);
    var h := Healed(m, u, true, bpf);
    OneFrameRead(s, u, bpf, m);
    DriftAfterHeal(s, between, true, bpf, m);
    HealedIsConsistent(s, between, true, bpf);
    NextIsConsistent(h, CallbackClock, bpf);
    NextIsConsistent(Next(h, CallbackClock, bpf), CallbackUnderrun, bpf);
    FrontExactlyWithoutDrift(t, bpf);
  }

  lemma OneFrameRead(s: System, u: nat, bpf: nat, m: System)
    requires bpf > 0 && u > 0 && s.phase.Idle? && |s.device.queue| == Stride(u, bpf)
    requires m == TakenAndDisturbed(s, [CallbackRead(1)], bpf)
    ensures m.phase == HasRead(1, 1) && m.device.underruns == 0 && Quotient(|m.device.queue|, bpf) == u - 1
  {
    var taken := Next(s, TakeUnderruns, bpf);
    assert m == Next(taken, CallbackRead(1), bpf) by { assert After(taken, [CallbackRead(1)], 0, bpf) == taken; }
    assert Stride(1, bpf) == bpf && Stride(u, bpf) == Stride(u - 1, bpf) + bpf;
    DivisionOfStride(1, 0, bpf);
    DivisionOfStride(u - 1, 0, bpf);
  }

  lemma DroppedFramesAre(d: Shared, frames: nat, bpf: nat)
    requires bpf > 0 && frames > 0 && WholeFrames(|d.queue|, bpf)
    ensures DroppedFrames(d, frames, bpf) == Shorter(frames, Quotient(|d.queue|, bpf))
  {
    DivisionOfStride(frames, 0, bpf);
    if Stride(frames, bpf) < |d.queue| {
      QuotientMonotone(Stride(frames, bpf), |d.queue|, bpf);
    } else {
      QuotientMonotone(|d.queue|, Stride(frames, bpf), bpf);
    }
  }
}

// The buffered executor, version 1: admits setpoints into the queue, interpolates between
// the last applied one and the next, and accounts for how late each was applied.
module BufferedExecutor {
  import opened Words
  import opened Lerp
  import opened SetpointQueue

  datatype Phase = Priming | Running | Hold | Succeeded | Canceled | Aborted

  datatype Reason = NoReason | PlannedHold | OperatorCancel | QueueUnderflow | MissedApplyTick | ConnectionLoss | TrackingError

  datatype Status = ExecOk | Output | Terminal | BadState | NotPrimed | QueueRejected | InvalidAnchor

  type Histogram = h: seq<u32> | |h| == 6 witness [0, 0, 0, 0, 0, 0]

  datatype Diagnostics = Diagnostics(
    phase: Phase, reason: Reason, lastQueue: QueueResult, queued: nat, peak: nat, accepted: u32, applied: u32,
    lastAppliedTick: u32, lastLateness: u32, maximumLateness: u32, maximumLatenessIndex: u32, histogram: Histogram,
    terminalTick: u32, inputComplete: bool, safeStopRequired: bool)

  datatype Executor = Executor(
    queue: seq<Setpoint>, anchor: Setpoint, anchorValid: bool, minimumStart: nat, latenessLimit: u32, diag: Diagnostics)

  const NEW_DIAGNOSTICS: Diagnostics := Diagnostics(
    Priming, NoReason, QueueOk, 0, 0, 0, 0, 0, 0, 0, 0, [0, 0, 0, 0, 0, 0], 0, false, false)

  function NewExecutor(minimumStart: nat, latenessLimit: u32): Executor {
    Executor([], NO_SETPOINT, false, minimumStart, latenessLimit, NEW_DIAGNOSTICS)
  }

  predicate Accepting(p: Phase) {
    p == Priming || p == Running
  }

  function Counted(d: Diagnostics, queue: seq<Setpoint>): Diagnostics {
    d.(queued := |queue|, peak := if |queue| > d.peak then |queue| else d.peak)
  }

  function Ended(e: Executor, phase: Phase, reason: Reason, safeStop: bool, now: u32): Executor {
    e.(queue := [],
       diag := Counted(e.diag.(phase := phase, reason := reason, safeStopRequired := safeStop, terminalTick := now), []))
  }

  function SaturatingAdd(a: u32, n: nat): u32 {
    if a + n > U32_MAX then U32_MAX else a + n
  }

  // ---- admission and start --------------------------------------------------

  function AdmittedBatch(e: Executor, batch: seq<Setpoint>, lead: Lead, limits: Limits): (Executor, Status) {
    if !Accepting(e.diag.phase) || e.diag.inputComplete then (e, BadState)
    else
      var (q, r) := PushedBatch(e.queue, batch, lead, limits);
      var noted := e.(queue := q, diag := Counted(e.diag.(lastQueue := r), q));
      if r != QueueOk then (noted, QueueRejected)
      else (noted.(diag := noted.diag.(accepted := SaturatingAdd(noted.diag.accepted, |batch|))), ExecOk)
  }

  function Completed(e: Executor): (Executor, Status) {
    if !Accepting(e.diag.phase) then (e, BadState) else (e.(diag := e.diag.(inputComplete := true)), ExecOk)
  }

  function StartedAt(e: Executor, tick: u32, position: Pose, limits: Limits): (Executor, Status) {
    if e.diag.phase != Priming then (e, BadState)
    else if e.queue == [] || (|e.queue| < e.minimumStart && !e.diag.inputComplete) then (e, NotPrimed)
    else if !After(e.queue[0].applyTick, tick) || !WithinLimits(position, limits) then (e, InvalidAnchor)
    else (e.(anchor := Setpoint(tick, position), anchorValid := true, diag := e.diag.(phase := Running)), ExecOk)
  }

  // ---- step -----------------------------------------------------------------

  function Bucket(lateness: u32): nat {
    if lateness >= 6 then 5 else lateness
  }

  function Tallied(h: Histogram, b: nat): Histogram
    requires b < 6
  {
    if h[b] < U32_MAX then h[b := h[b] + 1] else h
  }

  function Noted(d: Diagnostics, lateness: u32, now: u32): Diagnostics {
    var applied := Saturate(d.applied);
    d.(lastQueue := QueueOk, lastAppliedTick := now, lastLateness := lateness, applied := applied,
       maximumLateness := if lateness > d.maximumLateness then lateness else d.maximumLateness,
       maximumLatenessIndex := if lateness > d.maximumLateness then applied else d.maximumLatenessIndex,
       histogram := Tallied(d.histogram, Bucket(lateness)))
  }

  /** What the executor does once the queue has run dry. */
  function RanDry(e: Executor, now: u32): Executor {
    if e.queue != [] then e
    else if e.diag.inputComplete then e.(diag := e.diag.(phase := Succeeded, terminalTick := now))
    else Ended(e, Hold, QueueUnderflow, true, now)
  }

  function AppliedFront(e: Executor, now: u32): Executor
    requires e.queue != []
  {
    var next := e.queue[0];
    var rest := e.queue[1..];
    RanDry(e.(queue := rest, anchor := next, diag := Counted(Noted(e.diag, Sub(now, next.applyTick), now), rest)), now)
  }

  /** The expression the firmware evaluates, with its wraps. */
  function Between(a: i32, b: i32, elapsed: u32, span: u32): i32
    requires span > 0
  {
    ToI32(a + TruncDiv(ToI64((b - a) * elapsed), span))
  }

  function BetweenAll(a: Setpoint, b: Setpoint, elapsed: u32): Pose
    requires Sub(b.applyTick, a.applyTick) > 0
  {
    seq(6, j requires 0 <= j < 6 => Between(a.position[j], b.position[j], elapsed, Sub(b.applyTick, a.applyTick)))
  }

  /** The ways out of a step. */
  datatype Exit =
    | NotRunning
    | DrySucceeded
    | DryUnderflow
    | TooLate
    | TakeFailed
    | Applied
    | BeforeAnchor
    | PastSegment
    | Interpolated

  function StepExit(e: Executor, now: u32): Exit {
    if e.diag.phase != Running || !e.anchorValid then NotRunning
    else if e.queue == [] then if e.diag.inputComplete then DrySucceeded else DryUnderflow
    else
      var next := e.queue[0];
      if now == next.applyTick || After(now, next.applyTick) then
        if Sub(now, next.applyTick) > e.latenessLimit then TooLate
        else if TakenDue(e.queue, next.applyTick).1.result != QueueOk then TakeFailed
        else Applied
      else if now != e.anchor.applyTick && !After(now, e.anchor.applyTick) then BeforeAnchor
      else if Sub(now, e.anchor.applyTick) > Sub(next.applyTick, e.anchor.applyTick) then PastSegment
      else Interpolated
  }

  datatype StepResult = StepResult(status: Status, pose: Pose)

  function Silent(s: Status): StepResult {
    StepResult(s, NO_SETPOINT.position)
  }

  function Stepped(e: Executor, now: u32): (Executor, StepResult) {
    match StepExit(e, now)
    case NotRunning => (e, Silent(BadState))
    case DrySucceeded => (Ended(e, Succeeded, NoReason, false, now), Silent(Terminal))
    case DryUnderflow => (Ended(e, Hold, QueueUnderflow, true, now), Silent(Terminal))
    case TooLate => (Ended(e, Hold, MissedApplyTick, true, now), Silent(Terminal))
    case TakeFailed =>
      (e.(diag := e.diag.(lastQueue := TakenDue(e.queue, e.queue[0].applyTick).1.result)), Silent(QueueRejected))
    case Applied => (AppliedFront(e, now), StepResult(Output, e.queue[0].position))
    case BeforeAnchor => (e, Silent(InvalidAnchor))
    case PastSegment => (Ended(e, Hold, MissedApplyTick, true, now), Silent(Terminal))
    case Interpolated =>
      (e, StepResult(Output, BetweenAll(e.anchor, e.queue[0], Sub(now, e.anchor.applyTick))))
  }

  // ---- stopping -------------------------------------------------------------

  datatype StopCause = PlannedStop | CancelStop | LossStop | TrackingStop

  function StopPhase(c: StopCause): Phase {
    match c
    case PlannedStop => Hold
    case CancelStop => Canceled
    case LossStop => Aborted
    case TrackingStop => Aborted
  }

  function StopReason(c: StopCause): Reason {
    match c
    case PlannedStop => PlannedHold
    case CancelStop => OperatorCancel
    case LossStop => ConnectionLoss
    case TrackingStop => TrackingError
  }

  function StoppedFor(e: Executor, c: StopCause, now: u32): (Executor, Status) {
    if !Accepting(e.diag.phase) then (e, BadState)
    else (Ended(e, StopPhase(c), StopReason(c), c != PlannedStop, now), Terminal)
  }

  // ---- the executor object --------------------------------------------------

  class ExecutorObject {
    const queue: Queue
    var anchor: Setpoint
    var anchorValid: bool
    const minimumStart: nat
    const latenessLimit: u32
    var diag: Diagnostics

    ghost predicate Valid()
      reads queue
    {
      queue.Valid()
    }

    ghost function State(): Executor
      requires Valid()
      reads this, queue, queue.samples
    {
      Executor(queue.Contents(), anchor, anchorValid, minimumStart, latenessLimit, diag)
    }

    constructor (start: nat, lateness: u32)
      requires 0 < start <= CAPACITY
      ensures Valid() && fresh(queue) && fresh(queue.samples) && State() == NewExecutor(start, lateness)
    {
      queue := new Queue();
      anchor, anchorValid, minimumStart, latenessLimit, diag := NO_SETPOINT, false, start, lateness, NEW_DIAGNOSTICS;
    }

    method CountQueue()
      requires Valid()
      modifies this
      ensures State() == old(State()).(diag := Counted(old(diag), queue.Contents()))
    {
      diag := diag.(queued := queue.count);
      if queue.count > diag.peak {
        diag := diag.(peak := queue.count);
      }
    }

    method End(phase: Phase, reason: Reason, safeStop: bool, now: u32)
      requires Valid()
      modifies this, queue
      ensures Valid() && State() == Ended(old(State()), phase, reason, safeStop, now)
    {
      queue.Clear();
      diag := diag.(phase := phase, reason := reason, safeStopRequired := safeStop, terminalTick := now);
      CountQueue();
    }

    method Admit(batch: seq<Setpoint>, lead: Lead, limits: Limits) returns (s: Status)
      requires Valid()
      modifies this, queue, queue.samples
      ensures Valid() && (State(), s) == AdmittedBatch(old(State()), batch, lead, limits)
    {
      hide PushedBatch;
      if (diag.phase != Priming && diag.phase != Running) || diag.inputComplete { return BadState; }
      var r := queue.PushBatch(batch, lead, limits);
      diag := diag.(lastQueue := r);
      CountQueue();
      if r != QueueOk { return QueueRejected; }
      diag := diag.(accepted := if |batch| > U32_MAX - diag.accepted then U32_MAX else diag.accepted + |batch|);
      s := ExecOk;
    }

    method MarkComplete() returns (s: Status)
      requires Valid()
      modifies this
      ensures Valid() && (State(), s) == Completed(old(State()))
    {
      if diag.phase != Priming && diag.phase != Running { return BadState; }
      diag := diag.(inputComplete := true);
      s := ExecOk;
    }

    method Start(tick: u32, position: Pose, limits: Limits) returns (s: Status)
      requires Valid()
      modifies this
      ensures Valid() && (State(), s) == StartedAt(old(State()), tick, position, limits)
    {
      hide WithinLimits;
      if diag.phase != Priming { return BadState; }
      if queue.count == 0 || (queue.count < minimumStart && !diag.inputComplete) { return NotPrimed; }
      var first := queue.Peek();
      if first.result != QueueOk || !After(first.sample.applyTick, tick) { return InvalidAnchor; }
      var within := queue.IsWithin(position, limits);
      if !within { return InvalidAnchor; }
      anchor, anchorValid := Setpoint(tick, position), true;
      diag := diag.(phase := Running);
      s := ExecOk;
    }

    method NoteApplied(lateness: u32, now: u32)
      modifies this
      ensures diag == Noted(old(diag), lateness, now)
      ensures anchor == old(anchor) && anchorValid == old(anchorValid)
    {
      diag := diag.(lastQueue := QueueOk, lastAppliedTick := now, lastLateness := lateness);
      if diag.applied < U32_MAX {
        diag := diag.(applied := diag.applied + 1);
      }
      if lateness > diag.maximumLateness {
        diag := diag.(maximumLateness := lateness, maximumLatenessIndex := diag.applied);
      }
      var bucket := if lateness >= 6 then 5 else lateness;
      if diag.histogram[bucket] < U32_MAX {
        diag := diag.(histogram := diag.histogram[bucket := diag.histogram[bucket] + 1]);
      }
    }

    method FinishDry(now: u32)
      requires Valid()
      modifies this, queue
      ensures Valid() && State() == RanDry(old(State()), now)
    {
      hide Ended;
      if queue.count != 0 { return; }
      assert queue.Contents() == [];
      if diag.inputComplete {
        diag := diag.(phase := Succeeded, terminalTick := now);
      } else {
        End(Hold, QueueUnderflow, true, now);
      }
    }

    method Apply(next: Setpoint, now: u32) returns (r: StepResult)
      requires Valid() && queue.Contents() != [] && next == queue.Contents()[0]
      modifies this, queue
      ensures Valid() && State() == AppliedFront(old(State()), now) && r == StepResult(Output, next.position)
    {
      hide RanDry, Noted;
      var taken := queue.TakeDue(next.applyTick);
      r := StepResult(Output, next.position);
      anchor := taken.sample;
      NoteApplied(Sub(now, next.applyTick), now);
      CountQueue();
      FinishDry(now);
    }

    method Interpolate(next: Setpoint, elapsed: u32) returns (pose: Pose)
      requires Sub(next.applyTick, anchor.applyTick) > 0
      ensures pose == BetweenAll(anchor, next, elapsed)
    {
      hide Between;
      var out: seq<i32> := [];
      for j := 0 to 6
        invariant |out| == j
        invariant forall k :: 0 <= k < j ==>
                    out[k] == Between(anchor.position[k], next.position[k], elapsed, Sub(next.applyTick, anchor.applyTick))
      {
        out := out + [Between(anchor.position[j], next.position[j], elapsed, Sub(next.applyTick, anchor.applyTick))];
      }
      pose := out;
    }

    method Step(now: u32) returns (r: StepResult)
      requires Valid()
      modifies this, queue
      ensures Valid() && (State(), r) == Stepped(old(State()), now)
    {
      hide AppliedFront, Ended, BetweenAll;
      if diag.phase != Running || !anchorValid { return Silent(BadState); }
      if queue.count == 0 {
        assert queue.Contents() == [];
        if diag.inputComplete {
          End(Succeeded, NoReason, false, now);
        } else {
          End(Hold, QueueUnderflow, true, now);
        }
        return Silent(Terminal);
      }
      var front := queue.Peek();
      var next := front.sample;
      if now == next.applyTick || After(now, next.applyTick) {
        if Sub(now, next.applyTick) > latenessLimit {
          End(Hold, MissedApplyTick, true, now);
          return Silent(Terminal);
        }
        r := Apply(next, now);
        return;
      }
      if now != anchor.applyTick && !After(now, anchor.applyTick) { return Silent(InvalidAnchor); }
      var segment, elapsed := Sub(next.applyTick, anchor.applyTick), Sub(now, anchor.applyTick);
      // The tests above already rule out elapsed > segment, which would end the run.
      var pose := Interpolate(next, elapsed);
      r := StepResult(Output, pose);
    }

    method StopFor(c: StopCause, now: u32) returns (s: Status)
      requires Valid()
      modifies this, queue
      ensures Valid() && (State(), s) == StoppedFor(old(State()), c, now)
    {
      if diag.phase != Priming && diag.phase != Running { return BadState; }
      End(StopPhase(c), StopReason(c), c != PlannedStop, now);
      s := Terminal;
    }
  }
}

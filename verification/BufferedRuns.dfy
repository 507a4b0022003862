// Whole runs of the buffered executor: while it runs its queue is a nonempty, strictly
// later chain from the anchor, its outputs keep to the limits, and its counters add up.
module BufferedRuns {
  import opened Words
  import opened Lerp
  import opened SetpointQueue
  import opened BufferedExecutor

  datatype Op =
    | Admit(batch: seq<Setpoint>, lead: Lead)
    | Complete
    | Start(tick: u32, position: Pose)
    | Step(now: u32)
    | Stop(cause: StopCause, now: u32)

  function Do(e: Executor, limits: Limits, op: Op): Executor {
    match op
    case Admit(batch, lead) => AdmittedBatch(e, batch, lead, limits).0
    case Complete => Completed(e).0
    case Start(tick, position) => StartedAt(e, tick, position, limits).0
    case Step(now) => Stepped(e, now).0
    case Stop(cause, now) => StoppedFor(e, cause, now).0
  }

  function Run(e: Executor, limits: Limits, ops: seq<Op>): Executor
    decreases |ops|
  {
    if ops == [] then e else Run(Do(e, limits, ops[0]), limits, ops[1..])
  }

  // ---- the chain ------------------------------------------------------------

  /** Running means: anchored, more to come, and each setpoint strictly later than the one
      before it, the first than the anchor. A finished executor has nothing left. */
  predicate Chained(e: Executor) {
    && Later(e.queue)
    && (e.diag.phase == Running ==> e.anchorValid && e.queue != [] && After(e.queue[0].applyTick, e.anchor.applyTick))
    && (!Accepting(e.diag.phase) ==> e.queue == [])
  }

  predicate Bounded(e: Executor, limits: Limits) {
    AllWithin(e.queue, limits) && (e.anchorValid ==> WithinLimits(e.anchor.position, limits))
  }

  function Sum(h: Histogram): int {
    h[0] as int + h[1] as int + h[2] as int + h[3] as int + h[4] as int + h[5] as int
  }

  /** Until a counter saturates, the histogram accounts for every applied sample, and every
      accepted sample has been applied or is still queued (or was dropped by an ending). */
  predicate Counts(e: Executor) {
    && (e.diag.applied < U32_MAX ==> Sum(e.diag.histogram) == e.diag.applied)
    && (e.diag.accepted < U32_MAX && (Accepting(e.diag.phase) || e.diag.phase == Succeeded) ==>
          e.diag.accepted == e.diag.applied as int + |e.queue|)
    && e.diag.queued == |e.queue| <= e.diag.peak
  }

  predicate Sound(e: Executor, limits: Limits) {
    Chained(e) && Bounded(e, limits) && Counts(e)
  }

  // ---- what a step can do ---------------------------------------------------

  /** In a running executor the empty queue, the failed take and the overrun segment are
      unreachable: a step applies, interpolates, is too late, or precedes the anchor. */
  lemma StepExitsAreFew(e: Executor, now: u32)
    requires Chained(e) && e.diag.phase == Running
    ensures var x := StepExit(e, now); x == Applied || x == Interpolated || x == TooLate || x == BeforeAnchor
    ensures StepExit(e, now) == Interpolated ==>
              0 <= Sub(now, e.anchor.applyTick) < Sub(e.queue[0].applyTick, e.anchor.applyTick) < HALF
  {
  }

  /** No wrap shows: the firmware's value is the exact one, between its end points. */
  lemma BetweenIsExact(a: i32, b: i32, elapsed: u32, span: u32)
    requires elapsed <= span < HALF && span > 0
    ensures Between(a, b, elapsed, span) == Exact(a, b, elapsed, span)
    ensures a <= b ==> a <= Between(a, b, elapsed, span) <= b
    ensures b <= a ==> b <= Between(a, b, elapsed, span) <= a
  {
    ProductFits(b - a, elapsed);
    ExactBetween(a, b, elapsed, span);
    NarrowIsSame(a + TruncDiv((b - a) * elapsed, span));
  }

  lemma NarrowIsSame(x: int)
    requires -HALF <= x < HALF
    ensures ToI32(x) == x
  {
  }

  /** Every pose a step outputs keeps to the limits the setpoints and the anchor keep to. */
  lemma OutputIsWithin(e: Executor, limits: Limits, now: u32)
    requires Sound(e, limits) && Stepped(e, now).1.status == Output
    ensures WithinLimits(Stepped(e, now).1.pose, limits)
  {
    hide Between, AppliedFront, Counts;
    if e.diag.phase == Running {
      StepExitsAreFew(e, now);
      if StepExit(e, now) == Interpolated {
        var next, elapsed := e.queue[0], Sub(now, e.anchor.applyTick);
        assert WithinLimits(next.position, limits);
        forall j | 0 <= j < 6
          ensures limits[j].minimum <= BetweenAll(e.anchor, next, elapsed)[j] <= limits[j].maximum
        {
          BetweenIsExact(e.anchor.position[j], next.position[j], elapsed, Sub(next.applyTick, e.anchor.applyTick));
        }
      } else {
        assert WithinLimits(e.queue[0].position, limits);
      }
    }
  }

  // ---- every operation ------------------------------------------------------

  lemma EndIsSound(e: Executor, limits: Limits, phase: Phase, reason: Reason, safeStop: bool, now: u32)
    requires Sound(e, limits) && !Accepting(phase) && (phase == Succeeded ==> e.queue == [] && Accepting(e.diag.phase))
    ensures Sound(Ended(e, phase, reason, safeStop, now), limits)
  {
    hide WithinLimits, Sum;
  }

  lemma TallyAddsOne(h: Histogram, b: nat)
    requires b < 6 && Sum(h) < U32_MAX
    ensures Sum(Tallied(h, b)) == Sum(h) + 1
  {
  }

  lemma LaterTail(queue: seq<Setpoint>, limits: Limits)
    requires Later(queue) && queue != []
    ensures Later(queue[1..]) && (|queue| > 1 ==> After(queue[1].applyTick, queue[0].applyTick))
    ensures AllWithin(queue, limits) ==> AllWithin(queue[1..], limits) && WithinLimits(queue[0].position, limits)
  {
    hide WithinLimits;
    forall i | 0 < i < |queue| - 1 ensures After(queue[1..][i].applyTick, queue[1..][i - 1].applyTick) {
      assert After(queue[i + 1].applyTick, queue[i].applyTick);
    }
  }

  lemma ApplyIsSound(e: Executor, limits: Limits, now: u32)
    requires Sound(e, limits) && e.diag.phase == Running
    ensures Sound(AppliedFront(e, now), limits)
  {
    hide WithinLimits, Sum, Later, AllWithin, Tallied;
    var next, rest := e.queue[0], e.queue[1..];
    LaterTail(e.queue, limits);
    if e.diag.applied < U32_MAX { TallyAddsOne(e.diag.histogram, Bucket(Sub(now, next.applyTick))); }
    EmptyIsFine(limits);
  }

  lemma EmptyIsFine(limits: Limits)
    ensures Later([]) && AllWithin([], limits)
  {
  }

  lemma StepIsSound(e: Executor, limits: Limits, now: u32)
    requires Sound(e, limits)
    ensures Sound(Stepped(e, now).0, limits)
  {
    hide Ended, AppliedFront, WithinLimits, Sum, BetweenAll;
    if e.diag.phase == Running {
      StepExitsAreFew(e, now);
      if StepExit(e, now) == TooLate { EndIsSound(e, limits, Hold, MissedApplyTick, true, now); }
      if StepExit(e, now) == Applied { ApplyIsSound(e, limits, now); }
    }
  }

  lemma AdmitIsSound(e: Executor, limits: Limits, batch: seq<Setpoint>, lead: Lead)
    requires Sound(e, limits)
    ensures Sound(AdmittedBatch(e, batch, lead, limits).0, limits)
  {
    hide WithinLimits, Sum, PushedBatch, Later, AllWithin;
    PushIsExact(e.queue, batch, lead, limits);
  }

  lemma DoIsSound(e: Executor, limits: Limits, op: Op)
    requires Sound(e, limits)
    ensures Sound(Do(e, limits, op), limits)
  {
    hide Ended, Stepped, AdmittedBatch, WithinLimits, Sum;
    match op {
      case Admit(batch, lead) => AdmitIsSound(e, limits, batch, lead);
      case Step(now) => StepIsSound(e, limits, now);
      case Stop(cause, now) =>
        if Accepting(e.diag.phase) {
          EndIsSound(e, limits, StopPhase(cause), StopReason(cause), cause != PlannedStop, now);
        }
      case _ =>
    }
  }

  /** In every run: running means a nonempty strictly later chain from the anchor, setpoints
      keep to the limits, and the counters add up. */
  lemma {:induction false} RunIsSound(minimumStart: nat, latenessLimit: u32, limits: Limits, ops: seq<Op>)
    ensures Sound(Run(NewExecutor(minimumStart, latenessLimit), limits, ops), limits)
  {
    SoundRun(NewExecutor(minimumStart, latenessLimit), limits, ops);
  }

  lemma {:induction false} SoundRun(e: Executor, limits: Limits, ops: seq<Op>)
    requires Sound(e, limits)
    ensures Sound(Run(e, limits, ops), limits)
    decreases |ops|
  {
    hide Do, Sound;
    if ops != [] {
      DoIsSound(e, limits, ops[0]);
      SoundRun(Do(e, limits, ops[0]), limits, ops[1..]);
    }
  }

  /** All the poses a run outputs. */
  function Poses(e: Executor, limits: Limits, ops: seq<Op>): seq<Pose>
    decreases |ops|
  {
    if ops == [] then []
    else
      (if ops[0].Step? && Stepped(e, ops[0].now).1.status == Output then [Stepped(e, ops[0].now).1.pose] else [])
      + Poses(Do(e, limits, ops[0]), limits, ops[1..])
  }

  /** Every pose output in any run is within the limits. */
  lemma {:induction false} PosesStayWithin(e: Executor, limits: Limits, ops: seq<Op>)
    requires Sound(e, limits)
    ensures forall i :: 0 <= i < |Poses(e, limits, ops)| ==> WithinLimits(Poses(e, limits, ops)[i], limits)
    decreases |ops|
  {
    hide Do, Sound, Stepped, WithinLimits;
    if ops != [] {
      DoIsSound(e, limits, ops[0]);
      PosesStayWithin(Do(e, limits, ops[0]), limits, ops[1..]);
      if ops[0].Step? && Stepped(e, ops[0].now).1.status == Output { OutputIsWithin(e, limits, ops[0].now); }
    }
  }
}

// Trajectory streaming, timing: what one control step, one appended batch and one spliced
// batch do to a run that is stepped once per control tick, and when such a run is on pace,
// so that it never moves a joint faster than the policy's step bound.
module StreamTiming {
  import opened Words
  import opened Division
  import opened Optional
  import opened Lerp
  import opened StreamContract
  import opened StreamSession
  import opened StreamExecutor

  // ---- offsets from the control epoch ---------------------------------------

  /** Index of the control tick, counted from the epoch, on which a tick is due. */
  function Due(epoch: u32, tick: u32): nat {
    (Sub(tick, epoch) + 4) / 5
  }

  /** The setpoints lie within half a word of the epoch, so their readings are in true order. */
  predicate InSpan(epoch: u32, q: seq<Setpoint>) {
    forall i :: 0 <= i < |q| ==> Sub(q[i].applyTick, epoch) < HALF
  }

  /** Neighbours are ordered, whole control ticks apart and within the step bound. */
  predicate Chained(q: seq<Setpoint>, step: Joints) {
    forall i :: 0 < i < |q| ==> After(q[i].applyTick, q[i - 1].applyTick) && Continuous(q[i - 1], q[i], step)
  }

  lemma FirstControlTickIsDue(epoch: u32, tick: u32)
    requires Sub(tick, epoch) < HALF
    ensures Sub(FirstControlTick(epoch, tick), epoch) == 5 * Due(epoch, tick)
    ensures Sub(tick, epoch) <= 5 * Due(epoch, tick) < Sub(tick, epoch) + 5
  {
  }

  /** Readings measured from one epoch subtract like their offsets. */
  lemma SubFromEpoch(epoch: u32, a: u32, b: u32)
    requires Sub(a, epoch) >= Sub(b, epoch)
    ensures Sub(a, b) == Sub(a, epoch) - Sub(b, epoch)
  {
  }

  /** Chained neighbours in span are due exactly their gap in control ticks apart. */
  lemma DueAdvances(epoch: u32, a: Setpoint, b: Setpoint, step: Joints)
    requires Sub(a.applyTick, epoch) < HALF && Sub(b.applyTick, epoch) < HALF
    requires After(b.applyTick, a.applyTick) && Continuous(a, b, step)
    ensures Due(epoch, b.applyTick) > Due(epoch, a.applyTick)
    ensures StepBounded(a.position, b.position, step, Due(epoch, b.applyTick) - Due(epoch, a.applyTick))
  {
    var delta := Sub(b.applyTick, a.applyTick);
    assert Sub(b.applyTick, epoch) == Sub(a.applyTick, epoch) + delta;
    assert delta == 5 * (delta / 5);
    assert Due(epoch, b.applyTick) == Due(epoch, a.applyTick) + delta / 5;
  }

  // ---- queues on the control timeline ---------------------------------------

  /** Neighbours fall due on different control ticks, in order. */
  predicate DueOrdered(epoch: u32, q: seq<Setpoint>) {
    forall i :: 0 < i < |q| ==> Due(epoch, q[i - 1].applyTick) < Due(epoch, q[i].applyTick)
  }

  /** From a to b within the step bound, in the control ticks between their due ticks. */
  predicate Fits(epoch: u32, a: Setpoint, b: Setpoint, step: Joints) {
    && Due(epoch, a.applyTick) < Due(epoch, b.applyTick)
    && StepBounded(a.position, b.position, step, Due(epoch, b.applyTick) - Due(epoch, a.applyTick))
  }

  predicate Spaced(epoch: u32, q: seq<Setpoint>, step: Joints) {
    forall i :: 0 < i < |q| ==> Fits(epoch, q[i - 1], q[i], step)
  }

  /** A chained queue in span is spaced. */
  lemma ChainedIsSpaced(epoch: u32, q: seq<Setpoint>, step: Joints)
    requires InSpan(epoch, q) && Chained(q, step)
    ensures DueOrdered(epoch, q) && Spaced(epoch, q, step)
  {
    hide Fits;
    forall i | 0 < i < |q| ensures Fits(epoch, q[i - 1], q[i], step) {
      DueAdvances(epoch, q[i - 1], q[i], step);
      assert Fits(epoch, q[i - 1], q[i], step) by { NeighboursFit(epoch, q[i - 1], q[i], step); }
    }
    SpacedIsOrdered(epoch, q, step);
  }

  lemma NeighboursFit(epoch: u32, a: Setpoint, b: Setpoint, step: Joints)
    requires Sub(a.applyTick, epoch) < HALF && Sub(b.applyTick, epoch) < HALF
    requires After(b.applyTick, a.applyTick) && Continuous(a, b, step)
    ensures Fits(epoch, a, b, step)
  {
    DueAdvances(epoch, a, b, step);
  }

  lemma SpacedIsOrdered(epoch: u32, q: seq<Setpoint>, step: Joints)
    requires Spaced(epoch, q, step)
    ensures DueOrdered(epoch, q)
  {
  }

  /** The join between a queue and a batch behind it. */
  predicate JoinFits(epoch: u32, q: seq<Setpoint>, b: seq<Setpoint>, step: Joints) {
    q != [] && b != [] ==> Fits(epoch, Tail(q), b[0], step)
  }

  predicate JoinOrdered(epoch: u32, q: seq<Setpoint>, b: seq<Setpoint>) {
    q != [] && b != [] ==> Due(epoch, Tail(q).applyTick) < Due(epoch, b[0].applyTick)
  }

  lemma ConcatOrdered(epoch: u32, q: seq<Setpoint>, b: seq<Setpoint>)
    requires DueOrdered(epoch, q) && DueOrdered(epoch, b)
    ensures DueOrdered(epoch, q + b) <==> JoinOrdered(epoch, q, b)
  {
    var r := q + b;
    forall i | 0 < i < |r| && i != |q|
      ensures Due(epoch, r[i - 1].applyTick) < Due(epoch, r[i].applyTick)
    {
      if i < |q| { assert r[i] == q[i] && r[i - 1] == q[i - 1]; } else { assert r[i] == b[i - |q|] && r[i - 1] == b[i - |q| - 1]; }
    }
    if q != [] && b != [] { assert r[|q|] == b[0] && r[|q| - 1] == Tail(q); }
  }

  lemma ConcatSpaced(epoch: u32, q: seq<Setpoint>, b: seq<Setpoint>, step: Joints)
    requires Spaced(epoch, b, step)
    ensures Spaced(epoch, q + b, step) <==> Spaced(epoch, q, step) && JoinFits(epoch, q, b, step)
  {
    hide Fits;
    var r := q + b;
    forall i | 0 < i < |r| && i != |q|
      ensures Fits(epoch, r[i - 1], r[i], step) <==> i > |q| || Fits(epoch, q[i - 1], q[i], step)
    {
      if i < |q| {
        assert r[i] == q[i] && r[i - 1] == q[i - 1];
      } else {
        assert r[i] == b[i - |q|] && r[i - 1] == b[i - |q| - 1];
        assert Fits(epoch, b[i - |q| - 1], b[i - |q|], step);
      }
    }
    if q != [] && b != [] { assert r[|q|] == b[0] && r[|q| - 1] == Tail(q); }
    if Spaced(epoch, r, step) {
      forall i | 0 < i < |q| ensures Fits(epoch, q[i - 1], q[i], step) { assert Fits(epoch, r[i - 1], r[i], step); }
      if q != [] && b != [] { assert Fits(epoch, r[|q| - 1], r[|q|], step); }
    }
  }

  /** Any stretch of an ordered, spaced queue is so too. */
  lemma StretchKeeps(epoch: u32, q: seq<Setpoint>, lo: nat, hi: nat, step: Joints)
    requires lo <= hi <= |q|
    ensures DueOrdered(epoch, q) ==> DueOrdered(epoch, q[lo..hi])
    ensures Spaced(epoch, q, step) ==> Spaced(epoch, q[lo..hi], step)
  {
    hide Fits;
    var r := q[lo..hi];
    if DueOrdered(epoch, q) {
      forall i | 0 < i < |r| ensures Due(epoch, r[i - 1].applyTick) < Due(epoch, r[i].applyTick) {
        assert r[i - 1] == q[lo + i - 1] && r[i] == q[lo + i];
        assert Due(epoch, q[lo + i - 1].applyTick) < Due(epoch, q[lo + i].applyTick);
      }
    }
    if Spaced(epoch, q, step) {
      forall i | 0 < i < |r| ensures Fits(epoch, r[i - 1], r[i], step) {
        assert r[i - 1] == q[lo + i - 1] && r[i] == q[lo + i];
        assert Fits(epoch, q[lo + i - 1], q[lo + i], step);
      }
    }
  }

  // ---- the pacing invariant -------------------------------------------------

  /** The last commanded pose: the start pose until the first output. */
  function Previous(e: Executor): Joints {
    if e.outputValid then e.lastOutput else e.anchor.position
  }

  function AnchorDue(e: Executor): nat {
    Due(e.controlEpochTick, e.anchor.applyTick)
  }

  function HeadDue(e: Executor): nat
    requires e.session.queue != []
  {
    Due(e.controlEpochTick, e.session.queue[0].applyTick)
  }

  /** The executor runs on its timeline, stepped on control tick k: anchored in the past,
      with a queue that falls due in order and whose head is still ahead. Nothing is said
      about poses. */
  predicate Timed(e: Executor, k: nat) {
    && e.diag.state == Running && e.anchorValid && e.lastStepValid
    && 5 * k < HALF && Sub(e.lastStepTick, e.controlEpochTick) == 5 * k
    && Sub(e.anchor.applyTick, e.controlEpochTick) <= 5 * k && AnchorDue(e) <= k
    && (forall j :: 0 <= j < JOINTS ==> e.session.policy.maximumStep[j] > 0)
    && e.session.open
    && InSpan(e.controlEpochTick, e.session.queue) && DueOrdered(e.controlEpochTick, e.session.queue)
    && (e.session.queue != [] ==> k < HeadDue(e))
  }

  /** Control ticks of the segment from the anchor to the head. */
  function SegmentTicks(e: Executor): int
    requires e.session.queue != []
  {
    HeadDue(e) - AnchorDue(e)
  }

  /** Pose of a segment of that many control ticks, after so many: interpolated, and at its
      end the end itself. */
  function SegmentAt(a: Joints, b: Joints, done: nat, ticks: nat): Joints
    requires done <= ticks && 0 < 5 * ticks < WORD
  {
    if done == ticks then b else LerpJoints(a, b, 5 * done, 5 * ticks)
  }

  /** Pose of the segment from the anchor to the head on control tick k. */
  function SegmentPose(e: Executor, k: nat): Joints
    requires e.session.queue != [] && AnchorDue(e) <= k <= HeadDue(e) && 0 < 5 * SegmentTicks(e) < WORD
  {
    SegmentAt(e.anchor.position, e.session.queue[0].position, k - AnchorDue(e), SegmentTicks(e))
  }

  lemma SegmentFits(e: Executor, k: nat)
    requires Timed(e, k) && e.session.queue != []
    ensures 0 < 5 * SegmentTicks(e) <= HALF + 4
  {
  }

  /** The next pose is within the step bound of the last, and from there the head of the
      queue is within reach of the control ticks left. */
  predicate CanReach(e: Executor, k: nat) {
    && e.session.queue != [] && AnchorDue(e) <= k < HeadDue(e) && 5 * SegmentTicks(e) < WORD
    && WithinStep(Previous(e), SegmentPose(e, k + 1), e.session.policy.maximumStep)
    && StepBounded(SegmentPose(e, k + 1), e.session.queue[0].position, e.session.policy.maximumStep, HeadDue(e) - k - 1)
  }

  /** On pace: the queue is spaced, and its head within reach or, with nothing queued, the
      run stands at its anchor. */
  predicate Paced(e: Executor, k: nat) {
    && Timed(e, k) && Spaced(e.controlEpochTick, e.session.queue, e.session.policy.maximumStep)
    && if e.session.queue == [] then Previous(e) == e.anchor.position else CanReach(e, k)
  }

  /** Every joint moves by at most the step bound. */
  predicate WithinStep(a: Joints, b: Joints, step: Joints) {
    StepBounded(a, b, step, 1)
  }

  lemma LerpJointsStart(a: Joints, b: Joints, span: u32)
    requires 0 < span
    ensures LerpJoints(a, b, 0, span) == a
  {
    forall j | 0 <= j < JOINTS
      ensures Interpolate(a[j], b[j], 0, span) == a[j]
    {
      InterpolateExact(a[j], b[j], 0, span);
      ExactBetween(a[j], b[j], 0, span);
    }
  }

  lemma ScaleToMilliseconds(d: nat, step: int, ticks: nat)
    requires d <= step * ticks
    ensures d * 5 <= step * (5 * ticks)
  {
    assert step * (5 * ticks) == 5 * (step * ticks);
  }

  lemma ExactTickStep(a: int, b: int, step: int, done: nat, ticks: nat)
    requires done < ticks && Distance(b, a) <= step * ticks
    ensures Distance(Exact(a, b, 5 * (done + 1), 5 * ticks), Exact(a, b, 5 * done, 5 * ticks)) <= step
  {
    StepIsNonNegative(Distance(b, a), step, ticks);
    ScaleToMilliseconds(Distance(b, a), step, ticks);
    ExactStep(a, b, 5 * done, 5, 5 * ticks, step);
  }

  lemma JointStep(a: i32, b: i32, step: int, done: nat, ticks: nat)
    requires done < ticks && 5 * (done + 1) <= HALF && 5 * ticks < WORD
    requires Distance(b, a) <= step * ticks
    ensures Distance(Interpolate(a, b, 5 * (done + 1), 5 * ticks), Interpolate(a, b, 5 * done, 5 * ticks)) <= step
  {
    ExactTickStep(a, b, step, done, ticks);
    InterpolateExact(a, b, 5 * done, 5 * ticks);
    InterpolateExact(a, b, 5 * (done + 1), 5 * ticks);
  }

  lemma StepIsNonNegative(d: nat, step: int, ticks: nat)
    requires ticks > 0 && d <= step * ticks
    ensures step >= 0
  {
  }

  /** One control tick along a segment moves each joint by at most its step bound. */
  lemma SegmentStep(a: Joints, b: Joints, step: Joints, done: nat, ticks: nat)
    requires done < ticks && 5 * (done + 1) <= HALF && 5 * ticks < WORD
    requires StepBounded(a, b, step, ticks)
    ensures WithinStep(LerpJoints(a, b, 5 * done, 5 * ticks), LerpJoints(a, b, 5 * (done + 1), 5 * ticks), step)
  {
    forall j | 0 <= j < JOINTS
      ensures Distance(LerpJoints(a, b, 5 * (done + 1), 5 * ticks)[j], LerpJoints(a, b, 5 * done, 5 * ticks)[j])
              <= (step[j] as int) * 1
    {
      JointStep(a[j], b[j], step[j], done, ticks);
    }
  }

  /** While the end of a segment is within reach of its pose, the next control tick moves
      each joint by at most its step bound and leaves the end within reach. */
  lemma SegmentReach(a: Joints, b: Joints, step: Joints, done: nat, ticks: nat)
    requires done < ticks && 5 * ticks <= HALF + 4
    requires forall j :: 0 <= j < JOINTS ==> step[j] > 0
    requires StepBounded(SegmentAt(a, b, done, ticks), b, step, ticks - done)
    ensures WithinStep(SegmentAt(a, b, done, ticks), SegmentAt(a, b, done + 1, ticks), step)
    ensures StepBounded(SegmentAt(a, b, done + 1, ticks), b, step, ticks - done - 1)
  {
    hide Exact, Interpolate;
    var x, y := SegmentAt(a, b, done, ticks), SegmentAt(a, b, done + 1, ticks);
    if done + 1 < ticks {
      forall j | 0 <= j < JOINTS
        ensures Distance(y[j], x[j]) <= (step[j] as int) * 1
        ensures Distance(b[j], y[j]) <= (step[j] as int) * (ticks - done - 1)
      {
        InterpolateExact(a[j], b[j], 5 * done, 5 * ticks);
        InterpolateExact(a[j], b[j], 5 * (done + 1), 5 * ticks);
        assert Distance(b[j], x[j]) <= (step[j] as int) * (ticks - done);
        ExactReach(a[j], b[j], step[j], done, ticks);
      }
    }
  }

  /** A segment that keeps to the step bound as a whole can be started from its anchor. */
  lemma SegmentStarts(a: Joints, b: Joints, step: Joints, ticks: nat)
    requires 0 < ticks && 5 * ticks <= HALF + 4 && StepBounded(a, b, step, ticks)
    requires forall j :: 0 <= j < JOINTS ==> step[j] > 0
    ensures WithinStep(a, SegmentAt(a, b, 1, ticks), step)
    ensures StepBounded(SegmentAt(a, b, 1, ticks), b, step, ticks - 1)
  {
    hide LerpJoints, WithinStep, StepBounded;
    LerpJointsStart(a, b, 5 * ticks);
    SegmentReach(a, b, step, 0, ticks);
  }

  // ---- start, step and append keep the pace ---------------------------------

  /** Start from an acceptable pose puts the executor on pace at control tick 0. */
  lemma StartPaces(e: Executor, now: u32, position: Joints)
    requires e.session.open && !e.outputValid
    requires forall j :: 0 <= j < JOINTS ==> e.session.policy.maximumStep[j] > 0
    requires InSpan(now, e.session.queue) && Chained(e.session.queue, e.session.policy.maximumStep)
    requires StartExecutor(e, now, position).1 == ExecutorOk
    ensures Paced(StartExecutor(e, now, position).0, 0)
    ensures Previous(StartExecutor(e, now, position).0) == position
  {
    hide LerpJoints, WithinStep, Spaced, DueOrdered;
    var r := StartExecutor(e, now, position).0;
    assert AnchorDue(r) == 0;
    ChainedIsSpaced(now, e.session.queue, e.session.policy.maximumStep);
    if r.session.queue != [] {
      assert CeilTicks(Sub(r.session.queue[0].applyTick, now)) == HeadDue(r);
      SegmentStarts(position, r.session.queue[0].position, r.session.policy.maximumStep, HeadDue(r));
    }
  }

  /** The reading of the next control tick. */
  function NextTick(e: Executor): u32 {
    Add(e.lastStepTick, CONTROL_TICK_MS)
  }

  function StepNext(e: Executor): Outcome {
    StepExecutor(e, NextTick(e))
  }

  /** On pace the step passes its timeline guards. */
  lemma TimelineHolds(e: Executor, k: nat)
    requires Timed(e, k) && 5 * (k + 1) < HALF
    ensures Sub(NextTick(e), e.controlEpochTick) == 5 * (k + 1)
    ensures StepNext(e) == StepTimed(e.(lastStepTick := NextTick(e), lastStepValid := true), NextTick(e))
  {
    assert !After(e.lastStepTick, NextTick(e));
    assert !After(e.anchor.applyTick, NextTick(e));
  }

  predicate TimedOut(e: Executor, now: u32) {
    e.session.horizonEndTick == 0 && Sub(now, e.diag.lastCommandTick) > e.session.policy.commandTimeoutMs
  }

  /** Before the head is due, the step emits the segment's pose. */
  lemma TimedBetween(e: Executor, k: nat)
    requires Timed(e, k) && 5 * (k + 1) < HALF && e.session.queue != [] && k + 1 < HeadDue(e)
    requires !TimedOut(e, NextTick(e))
    ensures 0 < 5 * SegmentTicks(e) < WORD
    ensures var o := StepNext(e);
            && o.result == OutputReady && o.output == Some(SegmentPose(e, k + 1)) && Timed(o.exec, k + 1)
            && Previous(o.exec) == o.output.value
            && o.exec.session == e.session && o.exec.anchor == e.anchor && o.exec.controlEpochTick == e.controlEpochTick
            && o.exec.diag == e.diag.(outputs := o.exec.diag.outputs)
  {
    hide StepExecutor, FirstControlTick, LerpJoints;
    TimelineHolds(e, k);
    var now, head := NextTick(e), e.session.queue[0];
    var e1 := e.(lastStepTick := now, lastStepValid := true);
    FirstControlTickIsDue(e.controlEpochTick, head.applyTick);
    FirstControlTickIsDue(e.controlEpochTick, e.anchor.applyTick);
    SubFromEpoch(e.controlEpochTick, DueTick(e1), now);
    SubFromEpoch(e.controlEpochTick, DueTick(e1), AnchorTick(e1));
    SubFromEpoch(e.controlEpochTick, now, AnchorTick(e1));
    assert After(DueTick(e1), now);
    var ticks, done := HeadDue(e) - AnchorDue(e), k - AnchorDue(e);
    assert Sub(DueTick(e1), AnchorTick(e1)) == 5 * ticks && Sub(now, AnchorTick(e1)) == 5 * (done + 1);
  }

  /** On its due tick the head is applied without lateness and becomes the anchor. */
  lemma TimedOnto(e: Executor, k: nat)
    requires Timed(e, k) && 5 * (k + 1) < HALF && e.session.queue != [] && k + 1 == HeadDue(e)
    requires !TimedOut(e, NextTick(e))
    ensures var o := StepNext(e);
            && o.output == Some(e.session.queue[0].position)
            && Previous(o.exec) == o.output.value && o.exec.controlEpochTick == e.controlEpochTick
            && o.exec.anchor == e.session.queue[0]
            && o.exec.session == e.session.(queue := e.session.queue[1..])
            && o.exec.diag.applied == Add(e.diag.applied, 1) && o.exec.diag.accepted == e.diag.accepted
            && o.exec.diag.maximumLateness == e.diag.maximumLateness
            && o.exec.diag.lastCommandTick == e.diag.lastCommandTick
            && (if HorizonReached(o.exec)
                then o.result == Terminal && o.exec.diag.state == Succeeded && o.exec.diag.reason == PlannedHorizon
                else o.result == OutputReady && Timed(o.exec, k + 1) && o.exec.diag.reason == e.diag.reason)
  {
    hide StepExecutor, FirstControlTick, LerpJoints;
    TimelineHolds(e, k);
    var now, q := NextTick(e), e.session.queue;
    var e1 := e.(lastStepTick := now, lastStepValid := true);
    FirstControlTickIsDue(e.controlEpochTick, q[0].applyTick);
    assert DueTick(e1) == now by { SubIsInjective(e.controlEpochTick, DueTick(e1), now); }
    var rest := q[1..];
    if rest != [] { assert rest[0] == q[1] && Due(e.controlEpochTick, q[0].applyTick) < Due(e.controlEpochTick, q[1].applyTick); }
    assert q[1..|q|] == rest;
    StretchKeeps(e.controlEpochTick, q, 1, |q|, e.session.policy.maximumStep);
  }

  /** Before the head is due, a paced step interpolates and stays on pace. */
  lemma StepBetween(e: Executor, k: nat)
    requires Paced(e, k) && 5 * (k + 1) < HALF && e.session.queue != [] && k + 1 < HeadDue(e)
    requires !TimedOut(e, NextTick(e))
    ensures var o := StepNext(e);
            && o.result == OutputReady && o.output.Some? && Paced(o.exec, k + 1)
            && Previous(o.exec) == o.output.value
            && WithinStep(Previous(e), o.output.value, e.session.policy.maximumStep)
  {
    hide StepExecutor, Timed, WithinStep, Spaced, SegmentAt;
    StepsArePositive(e, k);
    SegmentFits(e, k);
    TimedBetween(e, k);
    ReachGoesOn(e, StepNext(e).exec, k);
  }

  /** From a pose of the segment from which the head is within reach, the next is too. */
  lemma ReachGoesOn(e: Executor, e1: Executor, k: nat)
    requires Timed(e, k) && e.session.queue != [] && k + 1 < HeadDue(e)
    requires e1.session == e.session && e1.anchor == e.anchor && e1.controlEpochTick == e.controlEpochTick
    requires AnchorDue(e) <= k && 0 < 5 * SegmentTicks(e) < WORD && Previous(e1) == SegmentPose(e, k + 1)
    requires StepBounded(SegmentPose(e, k + 1), e.session.queue[0].position, e.session.policy.maximumStep, HeadDue(e) - k - 1)
    ensures CanReach(e1, k + 1)
  {
    hide SegmentAt, StepBounded, WithinStep, Timed, Due, Previous;
    StepsArePositive(e, k);
    SegmentFits(e, k);
    SegmentReach(e.anchor.position, e.session.queue[0].position, e.session.policy.maximumStep, k + 1 - AnchorDue(e), SegmentTicks(e));
  }

  /** On its due tick the head of a paced run is within the step bound of the last pose, and
      the run goes on pace towards the next setpoint. */
  lemma StepOnto(e: Executor, k: nat)
    requires Paced(e, k) && 5 * (k + 1) < HALF && e.session.queue != [] && k + 1 == HeadDue(e)
    ensures WithinStep(Previous(e), e.session.queue[0].position, e.session.policy.maximumStep)
    ensures !TimedOut(e, NextTick(e)) && StepNext(e).result == OutputReady ==> Paced(StepNext(e).exec, k + 1)
  {
    hide LerpJoints, WithinStep, StepExecutor, Timed, StepNext, Fits;
    SegmentFits(e, k);
    StepsArePositive(e, k);
    if !TimedOut(e, NextTick(e)) && StepNext(e).result == OutputReady {
      TimedOnto(e, k);
      var r := StepNext(e).exec;
      var q := e.session.queue;
      assert q[1..|q|] == q[1..];
      StretchKeeps(e.controlEpochTick, q, 1, |q|, e.session.policy.maximumStep);
      if r.session.queue != [] {
        assert r.session.queue[0] == q[1] && Fits(e.controlEpochTick, q[0], q[1], e.session.policy.maximumStep);
        AnchoredReaches(r, k + 1);
      }
    }
  }

  /** A run standing at its anchor, on the anchor's tick, reaches the head exactly when the
      two fit. */
  lemma AnchoredReaches(e: Executor, k: nat)
    requires Timed(e, k) && e.session.queue != [] && AnchorDue(e) == k && Previous(e) == e.anchor.position
    ensures 0 < 5 * SegmentTicks(e) < WORD
    ensures CanReach(e, k) <==> Fits(e.controlEpochTick, e.anchor, e.session.queue[0], e.session.policy.maximumStep)
  {
    hide LerpJoints, Timed;
    StepsArePositive(e, k);
    SegmentFits(e, k);
    var a, b, step, n := e.anchor.position, e.session.queue[0].position, e.session.policy.maximumStep, SegmentTicks(e);
    if StepBounded(a, b, step, n) { SegmentStarts(a, b, step, n); }
    if CanReach(e, k) { TwoBounds(a, SegmentAt(a, b, 1, n), b, step, n - 1); }
  }

  lemma TwoBounds(a: Joints, x: Joints, b: Joints, step: Joints, ticks: nat)
    requires WithinStep(a, x, step) && StepBounded(x, b, step, ticks)
    ensures StepBounded(a, b, step, ticks + 1)
  {
    forall j | 0 <= j < JOINTS ensures Distance(b[j], a[j]) <= (step[j] as int) * (ticks + 1) {
      assert Distance(b[j], x[j]) <= (step[j] as int) * ticks && Distance(x[j], a[j]) <= (step[j] as int) * 1;
      assert (step[j] as int) * (ticks + 1) == (step[j] as int) * ticks + step[j];
    }
  }

  lemma SubIsInjective(epoch: u32, a: u32, b: u32)
    requires Sub(a, epoch) == Sub(b, epoch)
    ensures a == b
  {
  }

  /** With nothing queued an open-ended run holds its pose. */
  lemma StepIdle(e: Executor, k: nat)
    requires Paced(e, k) && 5 * (k + 1) < HALF && e.session.queue == []
    requires e.session.horizonEndTick == 0 && !TimedOut(e, NextTick(e))
    ensures var o := StepNext(e);
            && o.result == OutputReady && o.output == Some(Previous(e)) && Paced(o.exec, k + 1)
            && Previous(o.exec) == Previous(e)
            && o.exec.session == e.session && o.exec.controlEpochTick == e.controlEpochTick
  {
    TimelineHolds(e, k);
  }

  // ---- resuming an emptied queue --------------------------------------------

  /** Moving e of s milliseconds from a towards b stays within the bound exactly when the
      distance is small enough. */
  lemma ResumeDistance(a: int, b: int, e: nat, s: nat, bound: nat)
    requires 0 < s
    ensures Distance(Exact(a, b, e, s), a) <= bound <==> Distance(b, a) * e < (bound + 1) * s
  {
    var m := Distance(b, a) * e;
    assert m >= 0;
    assert (b - a) * e == m || (b - a) * e == -m by { SignedProduct(b - a, e); }
    QuotientBelow(m, s, bound);
  }

  /** The distances that can be entered after `elapsed` of `span` ticks in one pose. */
  predicate NearEnough(a: Joints, b: Joints, step: Joints, elapsed: int, span: int) {
    forall j :: 0 <= j < JOINTS ==> Distance(b[j], a[j]) * elapsed < (step[j] as int + 1) * span
  }

  /** The first pose on a segment is within the step bound of its anchor exactly when the
      anchor is near enough to the end. */
  lemma FirstPoseNear(a: Joints, b: Joints, step: Joints, elapsed: nat, span: nat)
    requires 0 < span && elapsed <= span && 5 * span <= HALF + 4
    requires forall j :: 0 <= j < JOINTS ==> step[j] > 0
    ensures WithinStep(a, SegmentAt(a, b, elapsed, span), step) <==> NearEnough(a, b, step, elapsed, span)
  {
    hide Exact, Interpolate;
    forall j | 0 <= j < JOINTS
      ensures Distance(SegmentAt(a, b, elapsed, span)[j], a[j]) <= (step[j] as int) * 1 <==>
              Distance(b[j], a[j]) * elapsed < (step[j] as int + 1) * span
    {
      if elapsed < span {
        InterpolateExact(a[j], b[j], 5 * elapsed, 5 * span);
        ResumeDistance(a[j], b[j], 5 * elapsed, 5 * span, step[j]);
        FivefoldOrder(Distance(b[j], a[j]), elapsed, step[j] as int + 1, span);
      } else {
        TimesOrder(Distance(b[j], a[j]), step[j] as int + 1, span);
      }
    }
  }

  lemma TimesOrder(x: int, y: int, n: int)
    requires n > 0
    ensures x * n < y * n <==> x < y
  {
  }

  lemma FivefoldOrder(d: int, elapsed: int, bound: int, span: int)
    ensures d * (5 * elapsed) < bound * (5 * span) <==> d * elapsed < bound * span
  {
    assert d * (5 * elapsed) == 5 * (d * elapsed) && bound * (5 * span) == 5 * (bound * span);
  }

  /** A batch put on an empty queue can be joined from the held pose: with its head n ticks
      after the anchor and the next tick m ticks after it, every joint is near enough. On
      the first tick after the anchor the segment's speed decides; later the held pose has
      fallen behind the segment, and the first move decides. */
  predicate SafeToResume(e: Executor, k: nat)
    requires e.session.queue != []
  {
    var m, n := k + 1 - AnchorDue(e), SegmentTicks(e);
    forall j :: 0 <= j < JOINTS ==>
      NearForJoint(Distance(e.session.queue[0].position[j], e.anchor.position[j]), e.session.policy.maximumStep[j], m, n)
  }

  predicate NearForJoint(d: nat, step: int, m: int, n: int) {
    if m == 1 then d <= step * n else d * m < (step + 1) * n
  }

  /** A joint is near enough exactly when both the segment's speed and the first move fit. */
  lemma NearMeansBoth(d: nat, step: int, m: nat, n: nat)
    requires step > 0 && 1 <= m <= n
    ensures NearForJoint(d, step, m, n) <==> d <= step * n && d * m < (step + 1) * n
  {
    assert (step + 1) * n == step * n + n;
    if m >= 2 && d > step * n {
      assert d * m >= d * 2;
      assert step * n >= n;
    }
  }

  lemma SafeMeansBoth(e: Executor, k: nat)
    requires Timed(e, k) && e.session.queue != []
    ensures SafeToResume(e, k) <==>
            && StepBounded(e.anchor.position, e.session.queue[0].position, e.session.policy.maximumStep, SegmentTicks(e))
            && NearEnough(e.anchor.position, e.session.queue[0].position, e.session.policy.maximumStep,
                          k + 1 - AnchorDue(e), SegmentTicks(e))
  {
    hide NearForJoint, Chained, InSpan;
    var a, b, step, n := e.anchor.position, e.session.queue[0].position, e.session.policy.maximumStep, SegmentTicks(e);
    forall j | 0 <= j < JOINTS
      ensures NearForJoint(Distance(b[j], a[j]), step[j], k + 1 - AnchorDue(e), n) <==>
              Distance(b[j], a[j]) <= (step[j] as int) * n && Distance(b[j], a[j]) * (k + 1 - AnchorDue(e)) < (step[j] as int + 1) * n
    {
      NearMeansBoth(Distance(b[j], a[j]), step[j], k + 1 - AnchorDue(e), n);
    }
  }

  /** What keeps to the step bound as a whole does so from any tick on. */
  lemma {:induction false} ReachAt(a: Joints, b: Joints, step: Joints, done: nat, ticks: nat)
    requires done <= ticks && 0 < ticks && 5 * ticks <= HALF + 4 && StepBounded(a, b, step, ticks)
    requires forall j :: 0 <= j < JOINTS ==> step[j] > 0
    ensures StepBounded(SegmentAt(a, b, done, ticks), b, step, ticks - done)
    decreases done
  {
    hide LerpJoints, StepBounded, WithinStep;
    if done == 0 {
      LerpJointsStart(a, b, 5 * ticks);
    } else {
      ReachAt(a, b, step, done - 1, ticks);
      SegmentReach(a, b, step, done - 1, ticks);
    }
  }

  /** For a run that stands at its anchor, near enough is exactly what reaching the head
      takes. */
  lemma SafeMeansReach(e: Executor, k: nat)
    requires Timed(e, k) && e.session.queue != [] && Previous(e) == e.anchor.position
    ensures 0 < 5 * SegmentTicks(e) < WORD && AnchorDue(e) <= k < HeadDue(e)
    ensures SafeToResume(e, k) <==> CanReach(e, k)
  {
    hide LerpJoints, StepBounded, NearEnough, Timed, SafeToResume;
    var a, b, step := e.anchor.position, e.session.queue[0].position, e.session.policy.maximumStep;
    var m, n := k + 1 - AnchorDue(e), SegmentTicks(e);
    SegmentFits(e, k);
    StepsArePositive(e, k);
    SafeMeansBoth(e, k);
    FirstPoseNear(a, b, step, m, n);
    if StepBounded(a, b, step, n) { ReachAt(a, b, step, m, n); }
    if CanReach(e, k) {
      if m == 1 { TwoBounds(a, SegmentAt(a, b, 1, n), b, step, n - 1); }
      NearEnoughIsSafe(e, k);
    }
  }

  lemma NearEnoughIsSafe(e: Executor, k: nat)
    requires Timed(e, k) && e.session.queue != []
    requires NearEnough(e.anchor.position, e.session.queue[0].position, e.session.policy.maximumStep,
                        k + 1 - AnchorDue(e), SegmentTicks(e))
    requires k + 1 - AnchorDue(e) == 1 ==>
               StepBounded(e.anchor.position, e.session.queue[0].position, e.session.policy.maximumStep, SegmentTicks(e))
    ensures SafeToResume(e, k)
  {
    hide Timed;
    StepsArePositive(e, k);
  }

  lemma StepsArePositive(e: Executor, k: nat)
    requires Timed(e, k)
    ensures AnchorDue(e) <= k && (e.session.queue != [] ==> k < HeadDue(e))
    ensures forall j :: 0 <= j < JOINTS ==> e.session.policy.maximumStep[j] > 0
  {
  }

  lemma StandingStillIsWithin(a: Joints, step: Joints)
    requires forall j :: 0 <= j < JOINTS ==> step[j] > 0
    ensures WithinStep(a, a, step)
  {
  }

  // ---- every step -----------------------------------------------------------

  /** What a step of a timed run does, whatever the pose. */
  lemma TimedStep(e: Executor, k: nat)
    requires Timed(e, k) && 5 * (k + 1) < HALF
    ensures var o := StepNext(e);
            && o.exec.session.policy == e.session.policy && o.exec.controlEpochTick == e.controlEpochTick
            && o.exec.session.horizonEndTick == e.session.horizonEndTick
            && o.exec.diag.accepted == e.diag.accepted && o.exec.diag.maximumLateness == e.diag.maximumLateness
            && (o.result == OutputReady || o.result == Terminal)
            && (o.result == OutputReady ==> Timed(o.exec, k + 1) && o.output.Some? && Previous(o.exec) == o.output.value
                                            && o.exec.diag.reason == e.diag.reason)
            && (o.result == Terminal ==> o.exec.diag.state in {Succeeded, Hold, Aborted})
            && (o.result == Terminal && o.exec.diag.state == Hold ==> o.exec.diag.reason == CommandTimeout)
            && (o.result == Terminal && o.exec.diag.state == Aborted ==> o.output.None? && o.exec.diag.reason == QueueUnderflow)
            && ((o.exec.session.queue == e.session.queue && o.exec.diag.applied == e.diag.applied)
                || (e.session.queue != [] && o.exec.session.queue == e.session.queue[1..]
                    && o.exec.diag.applied == Add(e.diag.applied, 1)))
  {
    hide StepExecutor, ApplyDue, InterpolateStep, SegmentPose;
    TimelineHolds(e, k);
    if TimedOut(e, NextTick(e)) {
    } else if e.session.queue == [] {
    } else if k + 1 < HeadDue(e) {
      TimedBetween(e, k);
    } else {
      TimedOnto(e, k);
    }
  }

  /** Every step of a paced run either emits a pose within the step bound of the last one
      and stays on pace, or stops without output, or is the command-timeout stop. */
  lemma StepKeepsPace(e: Executor, k: nat)
    requires Paced(e, k) && 5 * (k + 1) < HALF
    ensures var o := StepNext(e);
            && (o.result == OutputReady ==> Paced(o.exec, k + 1))
            && (o.output.Some? && o.exec.diag.state != Hold ==>
                  WithinStep(Previous(e), o.output.value, e.session.policy.maximumStep))
  {
    hide StepExecutor, ApplyDue, InterpolateStep, WithinStep, CanReach, Spaced;
    TimelineHolds(e, k);
    if TimedOut(e, NextTick(e)) {
    } else if e.session.queue == [] {
      if e.session.horizonEndTick == 0 {
        StepIdle(e, k);
        StandingStillIsWithin(Previous(e), e.session.policy.maximumStep);
      }
    } else if k + 1 == HeadDue(e) {
      TimedOnto(e, k);
      StepOnto(e, k);
    } else {
      StepBetween(e, k);
    }
  }

  // ---- what acceptance of a batch means -------------------------------------

  lemma ChainedConcat(q: seq<Setpoint>, b: seq<Setpoint>, step: Joints)
    requires Chained(q, step) && Chained(b, step)
    requires q != [] && b != [] ==> After(b[0].applyTick, Tail(q).applyTick) && Continuous(Tail(q), b[0], step)
    ensures Chained(q + b, step)
  {
    var r := q + b;
    forall i | 0 < i < |r|
      ensures After(r[i].applyTick, r[i - 1].applyTick) && Continuous(r[i - 1], r[i], step)
    {
      if i < |q| {
        assert r[i] == q[i] && r[i - 1] == q[i - 1];
      } else if i == |q| {
        assert r[i] == b[0] && r[i - 1] == Tail(q);
      } else {
        assert r[i] == b[i - |q|] && r[i - 1] == b[i - |q| - 1];
      }
    }
  }

  /** The queued setpoints a batch leaves in place. */
  function Kept(e: Executor, batch: Batch, kind: BatchKind): seq<Setpoint> {
    e.session.queue[..Retained(e.session, kind, batch.spliceAtTick)]
  }

  /** An accepted batch is chained in itself, lies ahead of the clock, stands behind the
      setpoints it keeps, and continues from the queue's tail if it was appended. */
  lemma AcceptedShape(e: Executor, payload: seq<u8>, kind: BatchKind, now: u32)
    requires e.session.open && AdmitBatch(e, payload, kind, now).1 == ExecutorOk
    ensures DecodeBatch(payload, kind).Accepted?
    ensures var r := AdmitBatch(e, payload, kind, now).0;
            var batch := DecodeBatch(payload, kind).value;
            && r == e.(session := r.session, diag := r.diag)
            && r.session.queue == Kept(e, batch, kind) + batch.samples
            && r.session.policy == e.session.policy && r.session.open
            && r.session.horizonEndTick == batch.horizonEndTick
            && r.diag.state == e.diag.state && r.diag.reason == e.diag.reason && r.diag.lastCommandTick == now
            && r.diag.accepted == Wrap(e.diag.accepted + |batch.samples|) && r.diag.applied == e.diag.applied
            && r.diag.maximumLateness == e.diag.maximumLateness
            && batch.samples != [] && Chained(batch.samples, e.session.policy.maximumStep)
            && After(batch.samples[0].applyTick, now)
            && (kind == Append && e.session.queue != [] ==>
                  && After(batch.samples[0].applyTick, Tail(e.session.queue).applyTick)
                  && Continuous(Tail(e.session.queue), batch.samples[0], e.session.policy.maximumStep))
  {
    hide DecodeBatch, StepBounded, CountBefore;
    var batch := DecodeBatch(payload, kind).value;
    DecodedBatchIsOrdered(payload, kind);
    VerdictOfAccepted(e, batch, payload, kind, now);
    assert BatchContinuous(batch.samples, e.session.policy.maximumStep);
  }

  lemma VerdictOfAccepted(e: Executor, batch: Batch, payload: seq<u8>, kind: BatchKind, now: u32)
    requires e.session.open && DecodeBatch(payload, kind) == Accepted(batch) && |batch.samples| > 0
    requires AdmitBatch(e, payload, kind, now).1 == ExecutorOk
    ensures !ContinuityBroken(e.session, batch, kind)
    ensures exists at :: BatchVerdict(e.session, batch, kind, now, at) == ContractOk
    ensures AdmitBatch(e, payload, kind, now).0.session == Extend(e.session, batch, kind)
    ensures var r := AdmitBatch(e, payload, kind, now).0;
            && r == e.(session := r.session, diag := r.diag)
            && r.diag.state == e.diag.state && r.diag.reason == e.diag.reason && r.diag.lastCommandTick == now
            && r.diag.accepted == Wrap(e.diag.accepted + |batch.samples|) && r.diag.applied == e.diag.applied
            && r.diag.maximumLateness == e.diag.maximumLateness
  {
    hide DecodeBatch, BatchVerdict, ContinuityBroken, Extend, PositionAt;
    var join := JoinPosition(e.session, batch, kind);
    assert join.Some? && OfferBatch(e.session, payload, kind, now) == OfferDecoded(e.session, batch, kind, now, join.value);
    assert BatchVerdict(e.session, batch, kind, now, join.value) == ContractOk;
  }

  /** An accepted append puts the decoded batch behind the queue, and the longer queue is
      still chained: the continuity check covers the join, the transition rules the rest. */
  lemma AppendKeepsChain(e: Executor, payload: seq<u8>, now: u32)
    requires e.session.open && Chained(e.session.queue, e.session.policy.maximumStep)
    requires AdmitBatch(e, payload, Append, now).1 == ExecutorOk
    ensures DecodeBatch(payload, Append).Accepted?
    ensures var r := AdmitBatch(e, payload, Append, now).0;
            && r.session.queue == e.session.queue + DecodeBatch(payload, Append).value.samples
            && Chained(r.session.queue, r.session.policy.maximumStep)
  {
    hide AdmitBatch, DecodeBatch, Continuous;
    AcceptedShape(e, payload, Append, now);
    var batch := DecodeBatch(payload, Append).value;
    assert Kept(e, batch, Append) == e.session.queue;
    ChainedConcat(e.session.queue, batch.samples, e.session.policy.maximumStep);
  }
}

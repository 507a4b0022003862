// Trajectory streaming, where batches join a run: a run on its timeline keeps the step
// bound through its queue exactly when it is on pace, so an accepted batch can be followed
// exactly when it is smooth; and runs from open on that accept batches which are not.
module StreamJoins {
  import opened Words
  import opened Optional
  import opened Division
  import opened Lerp
  import opened StreamContract
  import opened StreamSession
  import opened StreamExecutor
  import opened StreamTiming
  import opened StreamRuns

  function Ticks(n: nat): (events: seq<Event>)
    ensures |events| == n
  {
    if n == 0 then [] else [Tick] + Ticks(n - 1)
  }

  /** None of the next n control steps is the command-timeout stop. */
  predicate NoTimeout(e: Executor, n: nat) {
    forall i :: 0 < i <= n ==> !TimedOut(e, LaterTick(e, i))
  }

  /** The reading of the i-th control tick from now. */
  function LaterTick(e: Executor, i: nat): u32 {
    Wrap(e.lastStepTick + 5 * i)
  }

  lemma NoTimeoutNext(e: Executor, n: nat)
    requires NoTimeout(e, n) && n > 0
    ensures !TimedOut(e, NextTick(e))
    ensures var e1 := StepNext(e).exec;
            && e1.lastStepTick == NextTick(e) && e1.diag.lastCommandTick == e.diag.lastCommandTick
            && e1.session.policy == e.session.policy && e1.session.horizonEndTick == e.session.horizonEndTick
            ==> NoTimeout(e1, n - 1)
  {
    hide StepExecutor, TimedOut, LaterTick, NextTick;
    LaterTicks(e, e, 0);
    var e1 := StepNext(e).exec;
    if e1.lastStepTick == NextTick(e) && e1.diag.lastCommandTick == e.diag.lastCommandTick
       && e1.session.policy == e.session.policy && e1.session.horizonEndTick == e.session.horizonEndTick {
      forall i | 0 < i <= n - 1 ensures !TimedOut(e1, LaterTick(e1, i)) {
        LaterTicks(e, e1, i);
        SameTimeout(e, e1, LaterTick(e, i + 1));
      }
    }
  }

  lemma LaterTicks(e: Executor, e1: Executor, i: nat)
    ensures LaterTick(e, 1) == NextTick(e)
    ensures e1.lastStepTick == NextTick(e) ==> LaterTick(e1, i) == LaterTick(e, i + 1)
  {
    var t := e.lastStepTick + 5;
    if t >= WORD {
      ModAddMultiple(t - WORD, 1, WORD);
      ModAddMultiple(t - WORD + 5 * i, 1, WORD);
    }
  }

  lemma SameTimeout(e: Executor, e1: Executor, t: u32)
    requires e1.diag.lastCommandTick == e.diag.lastCommandTick
    requires e1.session.policy == e.session.policy && e1.session.horizonEndTick == e.session.horizonEndTick
    ensures TimedOut(e1, t) <==> TimedOut(e, t)
  {
  }

  // ---- outputs in stretches -------------------------------------------------

  lemma {:induction false} TicksAdd(m: nat, n: nat)
    ensures Ticks(m + n) == Ticks(m) + Ticks(n)
    decreases m
  {
    if m == 0 {
      assert [] + Ticks(n) == Ticks(n);
    } else {
      TicksAdd(m - 1, n);
      assert [Tick] + (Ticks(m - 1) + Ticks(n)) == ([Tick] + Ticks(m - 1)) + Ticks(n);
    }
  }

  lemma {:induction false} OutputsSplit(e: Executor, m: nat, n: nat)
    ensures Outputs(e, Ticks(m + n)) == Outputs(e, Ticks(m)) + Outputs(StepMany(e, m), Ticks(n))
    decreases m
  {
    hide StepExecutor;
    TicksAdd(m, n);
    if m == 0 {
      assert Outputs(e, Ticks(0)) == [];
    } else {
      assert Ticks(m + n)[0] == Tick && Ticks(m + n)[1..] == Ticks(m - 1 + n);
      assert Ticks(m)[0] == Tick && Ticks(m)[1..] == Ticks(m - 1);
      OutputsSplit(StepNext(e).exec, m - 1, n);
    }
  }

  /** A stretch of poses and the next one keep the bound exactly when each does, the second
      counted from the last pose of the first. */
  lemma RateBoundedSplits(start: Joints, a: seq<Joints>, b: seq<Joints>, step: Joints)
    requires a != []
    ensures RateBounded(start, a + b, step) <==> RateBounded(start, a, step) && RateBounded(a[|a| - 1], b, step)
  {
    hide WithinStep;
    var all, last := a + b, a[|a| - 1];
    forall i | 0 <= i < |a| ensures all[i] == a[i] && Preceding(start, all, i) == Preceding(start, a, i) {}
    forall i | 0 <= i < |b| ensures all[|a| + i] == b[i] && Preceding(start, all, |a| + i) == Preceding(last, b, i) {}
    if RateBounded(start, a, step) && RateBounded(last, b, step) {
      forall i | 0 <= i < |all| ensures WithinStep(Preceding(start, all, i), all[i], step) {
        if i >= |a| {
          assert all[|a| + (i - |a|)] == b[i - |a|] && Preceding(start, all, i) == Preceding(last, b, i - |a|);
        }
      }
    }
    if RateBounded(start, all, step) {
      forall i | 0 <= i < |b| ensures WithinStep(Preceding(last, b, i), b[i], step) {
        assert WithinStep(Preceding(start, all, |a| + i), all[|a| + i], step);
      }
    }
  }

  /** Poses within the step bound of each other get no further than that many steps. */
  lemma {:induction false} RateBoundedTravels(start: Joints, outputs: seq<Joints>, step: Joints)
    requires RateBounded(start, outputs, step) && outputs != []
    ensures StepBounded(start, outputs[|outputs| - 1], step, |outputs|)
    decreases |outputs|
  {
    hide StepBounded, RateBounded, WithinStep;
    var first, rest := outputs[0], outputs[1..];
    FirstIsBounded(start, outputs, step);
    if rest == [] {
      assert WithinStep(start, first, step);
      OneStepIsBound(start, first, step);
    } else {
      assert outputs == [first] + rest;
      RateBoundedSplits(start, [first], rest, step);
      RateBoundedTravels(first, rest, step);
      TwoBounds(start, first, rest[|rest| - 1], step, |rest|);
    }
  }

  lemma OneStepIsBound(a: Joints, b: Joints, step: Joints)
    requires WithinStep(a, b, step)
    ensures StepBounded(a, b, step, 1)
  {
  }

  lemma FirstIsBounded(start: Joints, outputs: seq<Joints>, step: Joints)
    requires RateBounded(start, outputs, step) && outputs != []
    ensures WithinStep(start, outputs[0], step)
  {
    assert WithinStep(Preceding(start, outputs, 0), outputs[0], step);
  }

  // ---- the run up to the head -----------------------------------------------

  lemma StepAdvancesClock(e: Executor, k: nat)
    requires Timed(e, k) && 5 * (k + 1) < HALF
    ensures StepNext(e).exec.lastStepTick == NextTick(e) && StepNext(e).exec.limits == e.limits
  {
    TimelineHolds(e, k);
  }

  /** What n control steps leave as they were. */
  predicate Since(e: Executor, r: Executor, n: nat) {
    && r.controlEpochTick == e.controlEpochTick && r.limits == e.limits && r.diag.lastCommandTick == e.diag.lastCommandTick
    && r.session.policy == e.session.policy && r.session.horizonEndTick == e.session.horizonEndTick
    && r.lastStepTick == LaterTick(e, n)
  }

  /** Stepped up to its head, a timed run applies it and stands there. */
  lemma {:induction false} StepsOntoHead(e: Executor, k: nat)
    requires Timed(e, k) && e.session.queue != [] && 5 * HeadDue(e) < HALF && NoTimeout(e, HeadDue(e) - k)
    ensures var r := StepMany(e, HeadDue(e) - k);
            && Since(e, r, HeadDue(e) - k) && r.anchor == e.session.queue[0] && Previous(r) == e.session.queue[0].position
            && r.session == e.session.(queue := e.session.queue[1..])
            && (!HorizonReached(r) ==> Timed(r, HeadDue(e)))
    decreases HeadDue(e) - k
  {
    hide StepExecutor, Timed, NoTimeout, TimedOut, SegmentPose, Previous, LaterTick, NextTick, HorizonReached;
    StepsArePositive(e, k);
    NoTimeoutNext(e, HeadDue(e) - k);
    StepAdvancesClock(e, k);
    LaterTicks(e, StepNext(e).exec, HeadDue(e) - k - 1);
    if k + 1 < HeadDue(e) {
      TimedBetween(e, k);
      StepsOntoHead(StepNext(e).exec, k + 1);
    } else {
      TimedOnto(e, k);
      assert StepMany(e, 1) == StepMany(StepNext(e).exec, 0);
    }
  }

  /** It emits one pose per tick, first the segment's pose on the next tick, last the head's
      position; and while the head is within reach, it keeps the step bound. */
  lemma {:induction false} OutputsReachHead(e: Executor, k: nat)
    requires Timed(e, k) && e.session.queue != [] && 5 * HeadDue(e) < HALF && NoTimeout(e, HeadDue(e) - k)
    ensures AnchorDue(e) <= k && 0 < 5 * SegmentTicks(e) < WORD
    ensures var out := Outputs(e, Ticks(HeadDue(e) - k));
            && |out| == HeadDue(e) - k
            && out[0] == SegmentPose(e, k + 1) && out[|out| - 1] == e.session.queue[0].position
            && (CanReach(e, k) ==> RateBounded(Previous(e), out, e.session.policy.maximumStep))
    decreases HeadDue(e) - k
  {
    hide StepExecutor, SegmentAt, Timed, TimedOut, NoTimeout, WithinStep, StepBounded, RateBounded;
    SegmentFits(e, k);
    StepsArePositive(e, k);
    NoTimeoutNext(e, HeadDue(e) - k);
    var n := HeadDue(e) - k;
    assert Ticks(n)[0] == Tick && Ticks(n)[1..] == Ticks(n - 1);
    var e1 := StepNext(e).exec;
    if k + 1 < HeadDue(e) {
      TimedBetween(e, k);
      TimedIsOnTick(e1, k + 1);
      StepAdvancesClock(e, k);
      OutputsReachHead(e1, k + 1);
      if CanReach(e, k) {
        ReachGoesOn(e, e1, k);
        RateBoundedPrepend(Previous(e), SegmentPose(e, k + 1), Outputs(e1, Ticks(n - 1)), e.session.policy.maximumStep);
      }
    } else {
      TimedOnto(e, k);
      if !HorizonReached(e1) { TimedIsOnTick(e1, k + 1); }
      EndsAtHead(e);
      assert Outputs(e1, []) == [];
      if CanReach(e, k) {
        NothingIsBounded(e.session.queue[0].position, e.session.policy.maximumStep);
        RateBoundedPrepend(Previous(e), e.session.queue[0].position, [], e.session.policy.maximumStep);
      }
    }
  }

  lemma EndsAtHead(e: Executor)
    requires e.session.queue != [] && AnchorDue(e) < HeadDue(e) && 5 * SegmentTicks(e) < WORD
    ensures SegmentPose(e, HeadDue(e)) == e.session.queue[0].position
  {
  }

  lemma NothingIsBounded(start: Joints, step: Joints)
    ensures RateBounded(start, [], step)
  {
  }

  /** A timed run keeps the step bound up to its head exactly when it can reach it. */
  lemma ReachIsExact(e: Executor, k: nat)
    requires Timed(e, k) && e.session.queue != [] && 5 * HeadDue(e) < HALF && NoTimeout(e, HeadDue(e) - k)
    ensures RateBounded(Previous(e), Outputs(e, Ticks(HeadDue(e) - k)), e.session.policy.maximumStep) <==> CanReach(e, k)
  {
    hide StepExecutor, SegmentAt, Timed, NoTimeout, WithinStep, StepBounded, RateBounded, Outputs;
    OutputsReachHead(e, k);
    StepsArePositive(e, k);
    var out, step := Outputs(e, Ticks(HeadDue(e) - k)), e.session.policy.maximumStep;
    if RateBounded(Previous(e), out, step) {
      assert WithinStep(Preceding(Previous(e), out, 0), out[0], step) by { FirstIsBounded(Previous(e), out, step); }
      if |out| > 1 {
        assert out == out[..1] + out[1..];
        RateBoundedSplits(Previous(e), out[..1], out[1..], step);
        RateBoundedTravels(out[0], out[1..], step);
      } else {
        StandsStill(out[0], step);
      }
    }
  }

  lemma StandsStill(a: Joints, step: Joints)
    ensures StepBounded(a, a, step, 0)
  {
  }

  // ---- the run through its queue --------------------------------------------

  function LastDue(e: Executor): nat
    requires e.session.queue != []
  {
    QueueDue(e, |e.session.queue| - 1)
  }

  /** The end of the queue is reached without a command timeout. */
  predicate MayEmptyQueue(e: Executor, k: nat) {
    e.session.queue != [] && 5 * LastDue(e) < HALF && (k < LastDue(e) ==> NoTimeout(e, LastDue(e) - k))
  }

  /** The poses emitted up to and including the last queued setpoint. */
  function ThroughQueue(e: Executor, k: nat): seq<Joints> {
    if e.session.queue != [] && k < LastDue(e) then Outputs(e, Ticks(LastDue(e) - k)) else []
  }

  lemma HeadBeforeLast(e: Executor, k: nat)
    requires Timed(e, k) && e.session.queue != []
    ensures k < HeadDue(e) <= LastDue(e) && (|e.session.queue| > 1 ==> HeadDue(e) < LastDue(e))
  {
    if |e.session.queue| > 1 { DueIncreases(e, 0, |e.session.queue| - 1); }
  }

  lemma SpacedHead(epoch: u32, q: seq<Setpoint>, step: Joints)
    requires |q| > 1
    ensures Spaced(epoch, q, step) <==> Fits(epoch, q[0], q[1], step) && Spaced(epoch, q[1..], step)
  {
    hide Fits;
    assert q == q[..1] + q[1..];
    if Spaced(epoch, q[1..], step) { ConcatSpaced(epoch, q[..1], q[1..], step); }
    StretchKeeps(epoch, q, 1, |q|, step);
  }

  lemma LaterTimeouts(e: Executor, r: Executor, m: nat, n: nat)
    requires NoTimeout(e, m + n) && Since(e, r, m)
    ensures NoTimeout(r, n) && NoTimeout(e, m)
  {
    hide TimedOut;
    forall i | 0 < i <= n ensures !TimedOut(r, LaterTick(r, i)) {
      LaterStill(e, r, m, i);
      SameTimeout(e, r, LaterTick(e, m + i));
    }
  }

  lemma LaterStill(e: Executor, r: Executor, m: nat, i: nat)
    requires r.lastStepTick == LaterTick(e, m)
    ensures LaterTick(r, i) == LaterTick(e, m + i)
  {
    var t := e.lastStepTick + 5 * m;
    assert t == t % WORD + (t / WORD) * WORD;
    ModAddMultiple(t % WORD + 5 * i, t / WORD, WORD);
  }

  /** Pace is exact. Stepped through its whole queue without a command timeout, a timed run
      keeps the step bound exactly when it is on pace. */
  lemma {:induction false} PaceIsExact(e: Executor, k: nat)
    requires Timed(e, k) && MayEmptyQueue(e, k)
    ensures k < LastDue(e)
    ensures RateBounded(Previous(e), ThroughQueue(e, k), e.session.policy.maximumStep) <==> Paced(e, k)
    decreases |e.session.queue|
  {
    hide StepExecutor, SegmentAt, Timed, NoTimeout, RateBounded, Outputs, StepMany, CanReach, Fits, Spaced, LaterTick,
         Previous, HorizonReached;
    HeadBeforeLast(e, k);
    var n, more := HeadDue(e) - k, LastDue(e) - HeadDue(e);
    var q, step := e.session.queue, e.session.policy.maximumStep;
    NoTimeoutBefore(e, n, n + more);
    ReachIsExact(e, k);
    if |q| == 1 {
      OneIsSpaced(e.controlEpochTick, q, step);
    } else {
      StepsOntoHead(e, k);
      var r := StepMany(e, n);
      NotAtHorizon(r);
      LaterTimeouts(e, r, n, more);
      SameLastDue(e, r);
      PaceIsExact(r, HeadDue(e));
      AnchoredReaches(r, HeadDue(e));
      SpacedHead(e.controlEpochTick, q, step);
      OutputsSplit(e, n, more);
      OutputsReachHead(e, k);
      RateBoundedSplits(Previous(e), Outputs(e, Ticks(n)), Outputs(r, Ticks(more)), step);
    }
  }

  lemma NoTimeoutBefore(e: Executor, m: nat, n: nat)
    requires NoTimeout(e, n) && m <= n
    ensures NoTimeout(e, m)
  {
  }

  lemma OneIsSpaced(epoch: u32, q: seq<Setpoint>, step: Joints)
    requires |q| == 1
    ensures Spaced(epoch, q, step)
  {
  }

  lemma NotAtHorizon(e: Executor)
    requires e.session.queue != []
    ensures !HorizonReached(e)
  {
  }

  lemma SameLastDue(e: Executor, r: Executor)
    requires |e.session.queue| > 1 && r.session.queue == e.session.queue[1..] && r.controlEpochTick == e.controlEpochTick
    ensures LastDue(r) == LastDue(e) && HeadDue(r) == QueueDue(e, 1)
  {
  }

  // ---- where a batch joins --------------------------------------------------

  /** Smoothness is exact. After any batch accepted in time by a paced run, appended or
      spliced, the run stepped on through its new queue without a command timeout keeps the
      step bound, from its last pose on, exactly when the batch is smooth. */
  lemma {:induction false} SmoothIsExact(e: Executor, k: nat, event: Event)
    requires Paced(e, k) && Accepts(e, event) && OfferedInTime(e, event)
    requires MayEmptyQueue(After1(e, event), k)
    ensures var r := After1(e, event);
            && k < LastDue(r)
            && (RateBounded(Previous(e), ThroughQueue(r, k), e.session.policy.maximumStep) <==> SmoothOffer(e, r, event))
  {
    hide After1, DecodeBatch, Timed, NoTimeout, RateBounded, Outputs, SmoothOffer, CanReach, Spaced, OfferedInTime, Accepts;
    OfferKeepsTimed(e, k, event);
    HeadBeforeLast(After1(e, event), k);
    SmoothMeansPaced(e, k, event);
    PaceIsExact(After1(e, event), k);
  }

  /** The head of the queue is reached without a command timeout. */
  predicate MayReachHead(e: Executor, k: nat) {
    e.session.queue != [] && 5 * HeadDue(e) < HALF && (k < HeadDue(e) ==> NoTimeout(e, HeadDue(e) - k))
  }

  /** The poses emitted up to and including the head. */
  function ToHead(e: Executor, k: nat): seq<Joints> {
    if e.session.queue != [] && k < HeadDue(e) then Outputs(e, Ticks(HeadDue(e) - k)) else []
  }

  /** Where the continuity check is skipped. A batch accepted onto the empty queue of a paced
      run, stepped on to its head, keeps the step bound, from the held pose to the head,
      exactly when every joint of the head is near enough for the ticks it comes after the
      anchor and after the next tick. */
  lemma {:induction false} ResumeIsBoundedIff(e: Executor, k: nat, event: Event)
    requires Paced(e, k) && e.session.queue == [] && Accepts(e, event) && event.kind == Append && OfferedInTime(e, event)
    requires MayReachHead(After1(e, event), k)
    ensures var r := After1(e, event);
            var out := ToHead(r, k);
            && |out| == HeadDue(r) - k > 0 && out[|out| - 1] == r.session.queue[0].position
            && (RateBounded(Previous(e), out, e.session.policy.maximumStep) <==> SafeToResume(r, k))
  {
    hide After1, DecodeBatch, WithinStep, Timed, NoTimeout, Outputs, RateBounded, SafeToResume, CanReach, OfferedInTime, Accepts;
    OfferKeepsTimed(e, k, event);
    var r := After1(e, event);
    StepsArePositive(r, k);
    OutputsReachHead(r, k);
    ReachIsExact(r, k);
    SafeMeansReach(r, k);
  }

  /** What happens when a splice shares its control tick with the last setpoint it keeps: on
      that tick the kept one is applied, and the next step finds the splice one control
      period late, which ends the run or is counted as lateness. */
  lemma SharedTickIsLate(e: Executor, k: nat)
    requires e.session.queue != [] && Timed(e.(session := e.session.(queue := [])), k) && 5 * (k + 1) < HALF
    requires Sub(e.session.queue[0].applyTick, e.controlEpochTick) < HALF && HeadDue(e) == k
    requires !TimedOut(e, NextTick(e))
    ensures var o := StepNext(e);
            if e.session.policy.maximumApplyLatenessMs < 5
            then o.result == Terminal && o.exec.diag.state == Aborted && o.exec.diag.reason == MissedApplyTick && o.output.None?
            else o.output == Some(e.session.queue[0].position) && o.exec.diag.maximumLateness >= 5
  {
    var bare := e.(session := e.session.(queue := []));
    TimelineHolds(bare, k);
    var now := NextTick(e);
    assert !After(e.lastStepTick, now) && !After(e.anchor.applyTick, now);
    var e1 := e.(lastStepTick := now, lastStepValid := true);
    FirstControlTickIsDue(e.controlEpochTick, e.session.queue[0].applyTick);
    SubFromEpoch(e.controlEpochTick, now, DueTick(e1));
    assert Sub(now, DueTick(e1)) == 5;
  }

  /** The only other way for an accepted splice to miss the order of control ticks is to
      share one. */
  lemma SpliceOrSharesTick(e: Executor, k: nat, event: Event)
    requires Timed(e, k) && Accepts(e, event) && event.kind == Splice
    requires InSpan(e.controlEpochTick, DecodeBatch(event.payload, event.kind).value.samples)
    ensures var batch := DecodeBatch(event.payload, event.kind).value;
            var kept := Kept(e, batch, Splice);
            && batch.samples != []
            && (kept != [] ==> Due(e.controlEpochTick, Tail(kept).applyTick) <= Due(e.controlEpochTick, batch.samples[0].applyTick))
  {
    hide AdmitBatch, DecodeBatch;
    AcceptedShape(e, event.payload, event.kind, event.now);
    SpliceStartsAt(e, event);
    var batch := DecodeBatch(event.payload, event.kind).value;
    var kept := Kept(e, batch, Splice);
    if kept != [] {
      assert After(batch.spliceAtTick, e.session.queue[|kept| - 1].applyTick);
    }
  }

  lemma SpliceStartsAt(e: Executor, event: Event)
    requires e.session.open && Accepts(e, event) && event.kind == Splice
    ensures var batch := DecodeBatch(event.payload, event.kind).value;
            batch.samples != [] && batch.samples[0].applyTick == batch.spliceAtTick
  {
    hide DecodeBatch;
    var batch := DecodeBatch(event.payload, event.kind).value;
    DecodedBatchIsOrdered(event.payload, event.kind);
    VerdictOfAccepted(e, batch, event.payload, event.kind, event.now);
  }

  // ---- the command-timeout stop ---------------------------------------------

  lemma WithinTurns(a: Joints, b: Joints, step: Joints)
    ensures WithinStep(a, b, step) <==> WithinStep(b, a, step)
  {
    assert forall j :: 0 <= j < JOINTS ==> Distance(a[j], b[j]) == Distance(b[j], a[j]);
  }

  /** The pose the command-timeout stop emits is the anchor's, behind the last one on the
      segment. It is within the step bound of that exactly when, m ticks into a segment of n,
      every joint's distance times m is below its step and one, times n. */
  lemma TimeoutStopIff(e: Executor, k: nat)
    requires Timed(e, k) && 5 * (k + 1) < HALF && e.session.queue != [] && TimedOut(e, NextTick(e))
    requires AnchorDue(e) <= k < HeadDue(e) && 0 < 5 * SegmentTicks(e) < WORD && Previous(e) == SegmentPose(e, k)
    ensures var o := StepNext(e);
            && o.output == Some(e.anchor.position) && o.exec.diag.state == Hold && o.exec.diag.reason == CommandTimeout
            && o.exec.diag.safeStop
            && (WithinStep(Previous(e), e.anchor.position, e.session.policy.maximumStep) <==>
                NearEnough(e.anchor.position, e.session.queue[0].position, e.session.policy.maximumStep,
                           k - AnchorDue(e), SegmentTicks(e)))
  {
    hide StepExecutor, SegmentAt, WithinStep, NearEnough, Previous;
    TimelineHolds(e, k);
    StepsArePositive(e, k);
    SegmentFits(e, k);
    FirstPoseNear(e.anchor.position, e.session.queue[0].position, e.session.policy.maximumStep, k - AnchorDue(e), SegmentTicks(e));
    WithinTurns(Previous(e), e.anchor.position, e.session.policy.maximumStep);
  }

  /** Part of the way along its segment. */
  lemma {:induction false} StepsAlong(e: Executor, k: nat, m: nat)
    requires Timed(e, k) && e.session.queue != [] && k + m < HeadDue(e) && NoTimeout(e, m)
    ensures AnchorDue(e) <= k && 0 < 5 * SegmentTicks(e) < WORD
    ensures var r := StepMany(e, m);
            && Since(e, r, m) && Timed(r, k + m) && r.session == e.session && r.anchor == e.anchor
            && (m > 0 ==> Previous(r) == SegmentPose(e, k + m))
    decreases m
  {
    hide StepExecutor, Timed, NoTimeout, TimedOut, SegmentAt, Previous, LaterTick, NextTick;
    StepsArePositive(e, k);
    SegmentFits(e, k);
    HeadTick(e, k);
    LaterTicks(e, e, 0);
    if m == 0 {
      NowIsLater(e);
    } else {
      NoTimeoutNext(e, m);
      StepAdvancesClock(e, k);
      LaterTicks(e, StepNext(e).exec, m - 1);
      TimedBetween(e, k);
      StepsAlong(StepNext(e).exec, k + 1, m - 1);
    }
  }

  lemma NowIsLater(e: Executor)
    ensures LaterTick(e, 0) == e.lastStepTick
  {
  }

  lemma HeadTick(e: Executor, k: nat)
    requires Timed(e, k) && e.session.queue != []
    ensures 5 * (HeadDue(e) - 1) < HALF
  {
  }
}

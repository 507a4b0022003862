// Trajectory streaming, each executor operation in every case: when opening, a batch and the
// start are accepted and what they leave behind, and what a step does that comes late or
// out of time.
module StreamLaws {
  import opened Words
  import opened Optional
  import opened Lerp
  import opened StreamContract
  import opened StreamSession
  import opened StreamExecutor
  import opened StreamTiming

  /** Opening. It takes a policy that decodes and is accepted, and an executor that is not
      running; it clears everything but caps and limits. A refusal touches at most the
      recorded verdict. */
  lemma OpeningIsExact(e: Executor, payload: seq<u8>, now: u32)
    ensures var (n, r) := OpenExecutor(e, payload, now);
            var d := DecodePolicy(payload);
            && (r == ExecutorOk <==> && e.diag.state != Running && d.Accepted? && ValidatePolicy(d.value, e.caps, now) == ContractOk)
            && (r == ExecutorOk ==>
                  && n.session == SessionState(true, false, d.value, 0, d.value.horizonEndTick, [])
                  && n.diag.state == Priming && n.diag.reason == NoReason && !n.diag.safeStop
                  && n.diag.accepted == n.diag.applied == n.diag.outputs == n.diag.splices == n.diag.maximumLateness == 0
                  && n.diag.queued == n.diag.peakQueued == 0 && n.diag.lastCommandTick == 0
                  && n.diag.lastStatus == StatusValidationOnly && n.diag.lastContract == ContractOk
                  && n.diag.terminalTick == 0 && n.anchor == Setpoint(0, seq(12, _ => 0))
                  && !n.anchorValid && !n.outputValid && !n.lastStepValid && n.caps == e.caps && n.limits == e.limits)
            && (e.diag.state == Running <==> r == BadState) && (r == BadState ==> n == e)
            && (r != ExecutorOk && r != BadState ==>
                  && r == ContractRejected
                  && n == e.(diag := e.diag.(lastStatus := StatusContractRejected,
                                             lastContract := if d.Rejected? then d.reason else ValidatePolicy(d.value, e.caps, now))))
  {
    hide DecodePolicy, ValidatePolicy;
    RefusalHasReason(payload);
  }

  lemma RefusalHasReason(payload: seq<u8>)
    ensures DecodePolicy(payload).Rejected? ==> DecodePolicy(payload).reason != ContractOk
  {
  }

  /** Every joint of every setpoint lies inside its limits. */
  predicate AllInside(limits: Limits, samples: seq<Setpoint>) {
    forall i, j :: 0 <= i < |samples| && 0 <= j < JOINTS ==> limits[j].minimum <= samples[i].position[j] <= limits[j].maximum
  }

  lemma AllInsideIsWithin(limits: Limits, samples: seq<Setpoint>)
    ensures AllInside(limits, samples) <==> BatchWithinLimits(limits, samples)
  {
    if BatchWithinLimits(limits, samples) {
      forall i, j | 0 <= i < |samples| && 0 <= j < JOINTS
        ensures limits[j].minimum <= samples[i].position[j] <= limits[j].maximum
      {
        assert WithinLimits(limits, samples[i].position);
      }
    }
  }

  /** An append to a queue continues from its last setpoint: if it is later, then by whole
      control ticks, and no faster than the step bound. */
  predicate ContinuesQueue(q: seq<Setpoint>, b: Batch, step: Joints)
    requires b.samples != []
  {
    q != [] && 0 < Sub(b.firstApplyTick, q[|q| - 1].applyTick) < HALF ==>
      var delta := Sub(b.firstApplyTick, q[|q| - 1].applyTick);
      delta % 5 == 0
      && forall j :: 0 <= j < 12 ==> Distance(b.samples[0].position[j], q[|q| - 1].position[j]) <= (step[j] as int) * (delta / 5)
  }

  /** Admission. A batch is accepted exactly while priming or running, if it decodes, keeps to
      the limits, continues the queue if it is appended, and the session accepts it. It is
      counted, with its splice and the time it came; the queue's length and its peak are
      noted. */
  lemma AdmissionIsExact(e: Executor, payload: seq<u8>, kind: BatchKind, now: u32)
    ensures var (n, r) := AdmitBatch(e, payload, kind, now);
            var d := DecodeBatch(payload, kind);
            var (s, offered) := OfferBatch(e.session, payload, kind, now);
            var open := e.diag.state == Priming || e.diag.state == Running;
            && (r == ExecutorOk <==>
                  && open && d.Accepted? && AllInside(e.limits, d.value.samples)
                  && (kind == Append && d.value.samples != [] ==> ContinuesQueue(e.session.queue, d.value, e.session.policy.maximumStep))
                  && AcceptedBy(offered))
            && (!open ==> r == BadState) && (open && d.Rejected? ==> r == ContractRejected)
            && (open && d.Accepted? && !AllInside(e.limits, d.value.samples) ==> r == JointLimitRejected)
            && (r == ExecutorOk ==>
                  && n == e.(session := s, diag := n.diag) && n.diag.state == e.diag.state && n.diag.reason == e.diag.reason
                  && n.diag.accepted == Wrap(e.diag.accepted + |d.value.samples|) && n.diag.applied == e.diag.applied
                  && n.diag.splices == (if kind == Splice then Wrap(e.diag.splices + 1) else e.diag.splices)
                  && n.diag.lastCommandTick == now && n.diag.queued == |s.queue|
                  && n.diag.peakQueued == (if |s.queue| > e.diag.peakQueued then |s.queue| else e.diag.peakQueued)
                  && n.diag.safeStop == e.diag.safeStop
                  && n.diag.lastStatus == offered.status && n.diag.lastContract == offered.contract)
            && (r == BadState || r == JointLimitRejected ==> n == e)
            && (open && d.Rejected? ==> n == e.(diag := e.diag.(lastContract := d.reason)))
            && (r == BatchRejected ==>
                  if d.value.samples != [] && kind == Append && !ContinuesQueue(e.session.queue, d.value, e.session.policy.maximumStep)
                  then n == e.(diag := e.diag.(lastContract := SampleDiscontinuity))
                  else n == e.(diag := e.diag.(lastStatus := offered.status, lastContract := offered.contract)))
            && r in [ExecutorOk, BadState, ContractRejected, JointLimitRejected, BatchRejected]
  {
    hide DecodeBatch, OfferBatch, BatchWithinLimits, AllInside, Distance;
    RejectedLeavesSession(e.session, payload, kind, now);
    if DecodeBatch(payload, kind).Accepted? {
      var d := DecodeBatch(payload, kind).value;
      AllInsideIsWithin(e.limits, d.samples);
      assert Add(e.diag.splices, 1) == Wrap(e.diag.splices + 1);
    }
  }

  /** Start. It takes a priming executor with enough setpoints, at least one, a pose inside
      the limits, and a first setpoint still ahead and close enough for the control ticks
      until it, rounded up. It anchors the run at that pose and time. */
  lemma StartIsExact(e: Executor, now: u32, pose: Joints)
    ensures var (n, r) := StartExecutor(e, now, pose);
            var q := e.session.queue;
            && (r == ExecutorOk <==>
                  && e.diag.state == Priming && |q| >= e.session.policy.minimumStartSamples && q != []
                  && (forall j :: 0 <= j < 12 ==> e.limits[j].minimum <= pose[j] <= e.limits[j].maximum)
                  && 0 < Sub(q[0].applyTick, now) < HALF
                  && forall j :: 0 <= j < 12 ==>
                       Distance(q[0].position[j], pose[j]) <= (e.session.policy.maximumStep[j] as int) * ((Sub(q[0].applyTick, now) + 4) / 5))
            && (r == ExecutorOk ==>
                  n == e.(anchor := Setpoint(now, pose), anchorValid := true, controlEpochTick := now, lastStepTick := now,
                          lastStepValid := true, diag := e.diag.(state := Running)))
            && (r != ExecutorOk ==> n == e)
            && (e.diag.state == Priming && |q| < e.session.policy.minimumStartSamples ==> r == InsufficientPrime)
  {
    hide Distance;
  }

  // ---- steps at any time ----------------------------------------------------

  /** A running executor with a pose to start from. */
  predicate InMotion(e: Executor) {
    e.diag.state == Running && e.anchorValid
  }

  /** The reading lies before the last step's, or before the anchor's. */
  predicate BackInTime(e: Executor, now: u32) {
    (e.lastStepValid && 0 < Sub(e.lastStepTick, now) < HALF) || 0 < Sub(e.anchor.applyTick, now) < HALF
  }

  /** Time runs forward. A step back in time aborts and asks for the safe stop, without a
      pose; before the start a step waits, and after the end it does nothing. */
  lemma StepsGoForward(e: Executor, now: u32)
    ensures var o := StepExecutor(e, now);
            && (e.diag.state == Priming ==> o == Outcome(e, Waiting, None))
            && (e.diag.state != Priming && !InMotion(e) ==> o == Outcome(e, BadState, None))
            && (InMotion(e) && BackInTime(e, now) ==>
                  && o.result == Terminal && o.output == None && o.exec.diag.state == Aborted
                  && o.exec.diag.reason == InvalidTimeline && o.exec.diag.safeStop && o.exec.session == e.session)
            && (InMotion(e) && !BackInTime(e, now) ==> o.exec.lastStepTick == now && o.exec.lastStepValid)
  {
    hide DueTick, AnchorTick, LerpJoints;
  }

  /** Lateness. A step at a true offset from the start at or past the head's control tick
      applies the head, late by what has passed since, and records the largest such
      lateness; past the policy's limit it applies nothing and aborts instead. */
  lemma LateStepsAreExact(e: Executor, now: u32)
    requires InMotion(e) && !BackInTime(e, now) && e.session.queue != []
    requires !(e.session.horizonEndTick == 0 && Sub(now, e.diag.lastCommandTick) > e.session.policy.commandTimeoutMs)
    requires Sub(e.session.queue[0].applyTick, e.controlEpochTick) < HALF
    requires 5 * HeadDue(e) <= Sub(now, e.controlEpochTick) < HALF
    ensures var o := StepExecutor(e, now);
            var late := Sub(now, e.controlEpochTick) - 5 * HeadDue(e);
            && (late > e.session.policy.maximumApplyLatenessMs ==>
                  && o.result == Terminal && o.output == None && o.exec.diag.state == Aborted
                  && o.exec.diag.reason == MissedApplyTick && o.exec.diag.safeStop && o.exec.session == e.session)
            && (late <= e.session.policy.maximumApplyLatenessMs ==>
                  && o.output == Some(e.session.queue[0].position) && o.exec.anchor == e.session.queue[0]
                  && o.exec.session == e.session.(queue := e.session.queue[1..])
                  && o.exec.diag.applied == Wrap(e.diag.applied + 1) && o.exec.diag.outputs == Wrap(e.diag.outputs + 1)
                  && o.exec.diag.queued == |e.session.queue| - 1
                  && o.exec.diag.maximumLateness == (if late > e.diag.maximumLateness then late else e.diag.maximumLateness))
  {
    hide LerpJoints, FirstControlTick;
    FirstControlTickIsDue(e.controlEpochTick, e.session.queue[0].applyTick);
    var e1 := e.(lastStepTick := now, lastStepValid := true);
    SubFromEpoch(e.controlEpochTick, now, DueTick(e1));
    assert !After(DueTick(e1), now);
  }
}

// Trajectory streaming, how runs end: every control step of a run on its timeline goes on,
// succeeds, aborts or holds, each in exactly one case; and a run that is fed no more reaches
// its one ending on exactly one control tick.
module StreamEndings {
  import opened Words
  import opened Optional
  import opened StreamContract
  import opened StreamSession
  import opened StreamExecutor
  import opened StreamTiming
  import opened StreamRuns
  import opened StreamJoins

  /** The last setpoint of a finite-horizon run, at its horizon, is due on this control tick. */
  predicate AtItsHorizon(e: Executor, tick: nat) {
    && e.session.horizonEndTick != 0 && |e.session.queue| == 1 && e.session.queue[0].applyTick == e.session.horizonEndTick
    && HeadDue(e) == tick
  }

  /** A finite-horizon run with nothing queued. */
  predicate RunDry(e: Executor) {
    e.session.horizonEndTick != 0 && e.session.queue == []
  }

  /** How a control step ends a run. It aborts for underflow exactly when a finite-horizon
      run has nothing queued, without a pose and asking for the safe stop. It succeeds exactly
      when it applies the horizon's setpoint as the last. It holds, at the anchor and asking
      for the safe stop, exactly when an open-ended run has heard nothing for longer than its
      command timeout. Otherwise it goes on. */
  lemma StepEndings(e: Executor, k: nat)
    requires Timed(e, k) && 5 * (k + 1) < HALF
    ensures var o := StepNext(e);
            var d := o.exec.diag;
            var timedOut := e.session.horizonEndTick == 0 && Sub(NextTick(e), e.diag.lastCommandTick) > e.session.policy.commandTimeoutMs;
            && (d.state == Aborted <==> RunDry(e))
            && (RunDry(e) ==> o.result == Terminal && o.output == None && d.reason == QueueUnderflow && d.safeStop
                              && d.terminalTick == NextTick(e) && o.exec.session == e.session && d.applied == e.diag.applied)
            && (d.state == Succeeded <==> AtItsHorizon(e, k + 1))
            && (AtItsHorizon(e, k + 1) ==> o.result == Terminal && o.output == Some(e.session.queue[0].position)
                                           && d.reason == PlannedHorizon && !d.safeStop && d.terminalTick == NextTick(e))
            && (d.state == Hold <==> timedOut)
            && (timedOut ==> o.result == Terminal && o.output == Some(e.anchor.position) && d.reason == CommandTimeout
                             && d.safeStop && d.terminalTick == NextTick(e) && o.exec.session == e.session)
            && (!RunDry(e) && !AtItsHorizon(e, k + 1) && !timedOut ==>
                  d.state == Running && o.result == OutputReady && o.output.Some? && d.safeStop == e.diag.safeStop)
  {
    hide StepExecutor, ApplyDue, InterpolateStep, SegmentPose, Timed;
    TimelineHolds(e, k);
    StepsArePositive(e, k);
    TimedIsOnTick(e, k);
    if TimedOut(e, NextTick(e)) {
    } else if e.session.queue == [] {
    } else if k + 1 < HeadDue(e) {
      TimedBetween(e, k);
    } else {
      AppliesOnto(e, k);
    }
  }

  lemma AppliesOnto(e: Executor, k: nat)
    requires Timed(e, k) && 5 * (k + 1) < HALF && e.session.queue != [] && k + 1 == HeadDue(e) && !TimedOut(e, NextTick(e))
    ensures var o := StepNext(e);
            && (o.exec.diag.state == Succeeded <==> AtItsHorizon(e, k + 1))
            && o.exec.diag.state in {Running, Succeeded} && o.output == Some(e.session.queue[0].position)
            && (AtItsHorizon(e, k + 1) ==> o.result == Terminal && o.exec.diag.reason == PlannedHorizon
                                           && !o.exec.diag.safeStop && o.exec.diag.terminalTick == NextTick(e))
            && (!AtItsHorizon(e, k + 1) ==> o.result == OutputReady && o.exec.diag.safeStop == e.diag.safeStop)
  {
    hide StepExecutor, FirstControlTick;
    TimelineHolds(e, k);
    FirstControlTickIsDue(e.controlEpochTick, e.session.queue[0].applyTick);
    var e1 := e.(lastStepTick := NextTick(e), lastStepValid := true);
    assert DueTick(e1) == NextTick(e) by { SubIsInjective(e.controlEpochTick, DueTick(e1), NextTick(e)); }
  }

  // ---- underflow ------------------------------------------------------------

  /** A finite-horizon run whose queue ends short of the horizon. */
  predicate FallsShort(e: Executor) {
    && e.session.horizonEndTick != 0
    && (e.session.queue != [] ==> Tail(e.session.queue).applyTick != e.session.horizonEndTick)
  }

  /** The control tick on which the queue is used up. */
  function QueueEnd(e: Executor, k: nat): nat {
    if e.session.queue == [] then k else LastDue(e)
  }

  /** Aborted for underflow, with everything accepted applied or replaced by a splice. */
  predicate DriedUp(e: Executor, removed: nat) {
    && e.diag.state == Aborted && e.diag.reason == QueueUnderflow && e.diag.safeStop && e.session.queue == []
    && e.diag.accepted == Wrap(e.diag.applied + removed) && e.diag.maximumLateness == 0
  }

  lemma StepTowardsUnderflow(e: Executor, k: nat, removed: nat)
    requires Balanced(e, k, removed) && FallsShort(e) && 5 * (QueueEnd(e, k) + 1) < HALF
    ensures k <= QueueEnd(e, k)
    ensures var e1 := StepNext(e).exec;
            if e.session.queue == [] then DriedUp(e1, removed)
            else Balanced(e1, k + 1, removed) && FallsShort(e1) && QueueEnd(e1, k + 1) == QueueEnd(e, k)
  {
    hide StepExecutor, Timed, StepNext, SegmentPose;
    BalancedIsTimed(e, k, removed);
    StepsArePositive(e, k);
    if e.session.queue != [] { HeadBeforeLast(e, k); }
    StepEndings(e, k);
    StepKeepsBalance(e, k, removed);
    TimedStep(e, k);
    if e.session.queue != [] {
      if k + 1 < HeadDue(e) { TimedBetween(e, k); } else { TimedOnto(e, k); }
    }
  }

  lemma {:induction false} RunDriesUp(e: Executor, k: nat, removed: nat, events: seq<Event>)
    requires Balanced(e, k, removed) && FallsShort(e) && 5 * (QueueEnd(e, k) + 1) < HALF && NothingAccepted(e, events)
    ensures k <= QueueEnd(e, k)
    ensures if TickCount(events) <= QueueEnd(e, k) - k then Run(e, events).diag.state == Running
            else DriedUp(Run(e, events), removed)
    decreases |events|
  {
    hide StepExecutor, AdmitBatch, Timed, FallsShort, StepNext, Accepts;
    StepTowardsUnderflow(e, k, removed);
    BalancedIsTimed(e, k, removed);
    TimedIsOnTick(e, k);
    if events != [] {
      var e1 := After1(e, events[0]);
      if events[0].Tick? {
        if e.session.queue != [] {
          RunDriesUp(e1, k + 1, removed, events[1..]);
        } else {
          StoppedStays(e1, events[1..]);
        }
      } else {
        RefusedKeepsPace(e, k, events[0]);
        RefusedKeepsShort(e, k, removed, events[0]);
        RunDriesUp(e1, k, removed, events[1..]);
      }
    }
  }

  lemma RefusedKeepsShort(e: Executor, k: nat, removed: nat, event: Event)
    requires Balanced(e, k, removed) && FallsShort(e) && event.Offer? && !Accepts(e, event)
    ensures var r := After1(e, event); Balanced(r, k, removed) && FallsShort(r) && QueueEnd(r, k) == QueueEnd(e, k)
  {
    hide After1, Accepts, Timed;
    BalancedIsTimed(e, k, removed);
    RefusedKeepsPace(e, k, event);
  }

  /** Underflow. However a finite-horizon run was fed, once nothing more is accepted and its
      queue ends short of the horizon, it runs through that queue and aborts on exactly the
      control tick after the last setpoint's, asking for the safe stop. */
  lemma {:induction false} FedRunDriesUp(
    e: Executor, open: seq<u8>, openedAt: u32, primes: seq<Prime>, startAt: u32, pose: Joints,
    feeding: seq<Event>, rest: seq<Event>)
    requires OpenExecutor(e, open, openedAt).1 == ExecutorOk
    requires Launched(e, open, openedAt, primes, startAt, pose).1 == ExecutorOk
    requires InSpan(startAt, Launched(e, open, openedAt, primes, startAt, pose).0.session.queue)
    requires WellTimed(Launched(e, open, openedAt, primes, startAt, pose).0, feeding)
    requires var fed := Run(Launched(e, open, openedAt, primes, startAt, pose).0, feeding);
             && fed.diag.state == Running && FallsShort(fed) && 5 * (QueueEnd(fed, StepIndex(fed)) + 1) < HALF
             && NothingAccepted(fed, rest)
    ensures var r := Launched(e, open, openedAt, primes, startAt, pose).0;
            var fed := Run(r, feeding);
            var left := QueueEnd(fed, StepIndex(fed)) - StepIndex(fed);
            && left >= 0
            && (TickCount(rest) <= left ==> Run(fed, rest).diag.state == Running)
            && (TickCount(rest) > left ==> DriedUp(Run(fed, rest), Removed(r, feeding)))
  {
    hide Launched, OpenExecutor, StepExecutor, WellTimed, FallsShort, NothingAccepted, Timed, Removed, QueueEnd;
    LaunchIsPaced(e, open, openedAt, primes, startAt, pose);
    var r := Launched(e, open, openedAt, primes, startAt, pose).0;
    RunKeepsBalance(r, 0, 0, feeding);
    var fed := Run(r, feeding);
    RunDriesUp(fed, StepIndex(fed), Removed(r, feeding), rest);
  }

  // ---- silence --------------------------------------------------------------

  /** The n-th control step from now is the first that finds the command timeout run out. */
  predicate SilentFor(e: Executor, n: nat) {
    n > 0 && NoTimeout(e, n - 1) && TimedOut(e, LaterTick(e, n))
  }

  lemma SilenceGoesOn(e: Executor, k: nat, n: nat)
    requires Timed(e, k) && 5 * (k + 1) < HALF && SilentFor(e, n) && n > 1
    ensures SilentFor(StepNext(e).exec, n - 1)
  {
    hide StepExecutor, TimedOut, LaterTick, NextTick, Timed;
    NoTimeoutNext(e, n - 1);
    StepAdvancesClock(e, k);
    StepLeavesCommand(e, k);
    var e1 := StepNext(e).exec;
    LaterTicks(e, e1, n - 1);
    SameTimeout(e, e1, LaterTick(e, n));
  }

  lemma StepLeavesCommand(e: Executor, k: nat)
    requires Timed(e, k) && 5 * (k + 1) < HALF
    ensures var e1 := StepNext(e).exec;
            && e1.diag.lastCommandTick == e.diag.lastCommandTick && e1.session.policy == e.session.policy
            && e1.session.horizonEndTick == e.session.horizonEndTick
  {
    hide DueTick, FirstControlTick, LerpJoints;
    TimelineHolds(e, k);
  }

  /** Held for silence, asking for the safe stop. */
  predicate Silent(e: Executor) {
    e.diag.state == Hold && e.diag.reason == CommandTimeout && e.diag.safeStop
  }

  /** Silence. From any control tick of an open-ended run on its timeline, with nothing more
      accepted, it runs until the first control step that finds the command timeout run out,
      and on that one holds and asks for the safe stop. */
  lemma {:induction false} RunHoldsInSilence(e: Executor, k: nat, n: nat, events: seq<Event>)
    requires Timed(e, k) && e.session.horizonEndTick == 0 && SilentFor(e, n) && 5 * (k + n) < HALF
    requires NothingAccepted(e, events)
    ensures if TickCount(events) < n then Run(e, events).diag.state == Running else Silent(Run(e, events))
    decreases |events|
  {
    hide StepExecutor, AdmitBatch, Timed, StepNext, Accepts, SilentFor, TimedOut;
    TimedIsOnTick(e, k);
    FirstOfSilence(e, n);
    if events != [] {
      var e1 := After1(e, events[0]);
      if events[0].Tick? {
        StepEndings(e, k);
        if n > 1 {
          TimedStep(e, k);
          SilenceGoesOn(e, k, n);
          RunHoldsInSilence(e1, k + 1, n - 1, events[1..]);
        } else {
          StoppedStays(e1, events[1..]);
        }
      } else {
        RefusedKeepsPace(e, k, events[0]);
        RefusedKeepsSilence(e, e1, n);
        RunHoldsInSilence(e1, k, n, events[1..]);
      }
    }
  }

  lemma FirstOfSilence(e: Executor, n: nat)
    requires SilentFor(e, n)
    ensures n > 0 && (TimedOut(e, NextTick(e)) <==> n == 1)
    ensures TimedOut(e, NextTick(e)) <==>
              e.session.horizonEndTick == 0 && Sub(NextTick(e), e.diag.lastCommandTick) > e.session.policy.commandTimeoutMs
  {
    LaterTicks(e, e, 0);
  }

  lemma RefusedKeepsSilence(e: Executor, r: Executor, n: nat)
    requires SilentFor(e, n) && r == e.(diag := r.diag) && r.diag.lastCommandTick == e.diag.lastCommandTick
    ensures SilentFor(r, n)
  {
    forall i | 0 < i <= n ensures TimedOut(r, LaterTick(r, i)) == TimedOut(e, LaterTick(e, i)) {}
  }

  /** However an open-ended run was fed, once nothing more is accepted it holds for silence
      on exactly the first control step that finds the command timeout run out. */
  lemma {:induction false} FedRunHoldsInSilence(
    e: Executor, open: seq<u8>, openedAt: u32, primes: seq<Prime>, startAt: u32, pose: Joints,
    feeding: seq<Event>, rest: seq<Event>, n: nat)
    requires OpenExecutor(e, open, openedAt).1 == ExecutorOk
    requires Launched(e, open, openedAt, primes, startAt, pose).1 == ExecutorOk
    requires InSpan(startAt, Launched(e, open, openedAt, primes, startAt, pose).0.session.queue)
    requires WellTimed(Launched(e, open, openedAt, primes, startAt, pose).0, feeding)
    requires var fed := Run(Launched(e, open, openedAt, primes, startAt, pose).0, feeding);
             && fed.diag.state == Running && fed.session.horizonEndTick == 0 && SilentFor(fed, n)
             && 5 * (StepIndex(fed) + n) < HALF && NothingAccepted(fed, rest)
    ensures var fed := Run(Launched(e, open, openedAt, primes, startAt, pose).0, feeding);
            if TickCount(rest) < n then Run(fed, rest).diag.state == Running else Silent(Run(fed, rest))
  {
    hide Launched, OpenExecutor, StepExecutor, WellTimed, NothingAccepted, Timed, Balanced, SilentFor;
    LaunchIsPaced(e, open, openedAt, primes, startAt, pose);
    var r := Launched(e, open, openedAt, primes, startAt, pose).0;
    assert Balanced(r, 0, 0) by { LaunchIsBalanced(r); }
    RunKeepsBalance(r, 0, 0, feeding);
    var fed := Run(r, feeding);
    BalancedIsTimed(fed, StepIndex(fed), Removed(r, feeding));
    RunHoldsInSilence(fed, StepIndex(fed), n, rest);
  }

  lemma LaunchIsBalanced(r: Executor)
    requires Paced(r, 0) && r.diag.applied == 0 && r.diag.maximumLateness == 0 && r.diag.reason == NoReason
    requires r.diag.accepted == Wrap(|r.session.queue|)
    ensures Balanced(r, 0, 0)
  {
  }
}

// The stop latch: once the output has stopped, only stop packets are sent until a
// successful rearm, whatever happens in between; and a refused rearm changes nothing.
module OutputLatch {
  import opened Words
  import opened Optional
  import opened SharedBus
  import opened BusRouter
  import opened MobileOutput
  import opened MotorPackets
  import opened OutputRuns
  import Plan = BusSchedule
  import Sup = MobileSupervisor

  predicate WellConfigured(o: Output) {
    ValidConfig(o.config) && o.schedule.config == o.config.schedule
  }

  lemma PollKeepsConfig(o: Output, us: u32, ms: u32, epoch: u32)
    requires WellConfigured(o)
    ensures var p := PollOutput(o, us, ms, epoch); WellConfigured(p) && p.config == o.config
  {
    assert o.schedule.config.armPeriodUs > 0;
    hide ValidConfig, Checked, Guarded, Motion, Quieted, Stopped;
    var c := Checked(o, us, ms);
    SchedulingKeepsConfig(c, us, epoch);
  }

  lemma SchedulingKeepsConfig(o: Output, us: u32, epoch: u32)
    requires o.schedule.config.armPeriodUs > 0
    ensures var (s, w) := Scheduling(o, us, epoch); s.config == o.config && s.schedule.config == o.schedule.config
  {
    hide Stopped;
  }

  lemma StepKeepsConfig(o: Output, a: Act)
    requires WellConfigured(o)
    ensures WellConfigured(Step(o, a)) && Step(o, a).config == o.config
  {
    hide ValidConfig, PollOutput, Stopped, LiftStep, SupervisorStep, RouterStep, MayRearm, Resumed, Sup.Armed;
    match a.event {
      case Poll(epoch) => PollKeepsConfig(o, a.us, a.ms, epoch);
      case LiftRequest(_) => LiftStepIsLocal(o, a.ms, a.event);
      case LiftSample(_) => LiftStepIsLocal(o, a.ms, a.event);
      case LiftTick => LiftStepIsLocal(o, a.ms, a.event);
      case SetInterlock(_, _) => LiftStepIsLocal(o, a.ms, a.event);
      case _ =>
    }
  }

  lemma LiftStepIsLocal(o: Output, ms: u32, e: Event)
    ensures o.lift.Some? ==> var s := LiftStep(o, ms, e); s.lift.Some? && s == o.(lift := s.lift)
  {
  }

  /** The output after a run of acts. */
  function Run(o: Output, acts: seq<Act>): Output
    requires WellConfigured(o)
    decreases |acts|
  {
    if acts == [] then o
    else
      StepKeepsConfig(o, acts[0]);
      Run(Step(o, acts[0]), acts[1..])
  }

  /** The packets handed to the bus during a run, in order. */
  function Packets(o: Output, acts: seq<Act>): seq<Dispatch>
    requires WellConfigured(o)
    decreases |acts|
  {
    if acts == [] then []
    else
      StepKeepsConfig(o, acts[0]);
      var first := Sent(o, acts[0]);
      (if first.Dispatch? then [first] else []) + Packets(Step(o, acts[0]), acts[1..])
  }

  predicate NeverRearms(o: Output, acts: seq<Act>)
    requires WellConfigured(o)
    decreases |acts|
  {
    acts == [] ||
    (!Rearms(o, acts[0]) && (StepKeepsConfig(o, acts[0]); NeverRearms(Step(o, acts[0]), acts[1..])))
  }

  /** Closed to everything but stops: by the output itself, or by the system stop. */
  predicate Closed(o: Output) {
    o.router.inhibited
  }

  predicate Latched(o: Output) {
    o.stopRequested && Closed(o)
  }

  // ---- one act --------------------------------------------------------------

  lemma ExpireKeepsClosed(o: Output, i: nat, us: u32)
    requires i <= 5 && Closed(o)
    ensures Closed(ExpireFrom(o, i, us))
    decreases 5 - i
  {
    if i < 5 { ExpireKeepsClosed(ExpireJob(o, i, us), i + 1, us); }
  }

  lemma SubmitKeepsInhibit(r: RouterState, kind: Work, bytes: seq<u8>, now: u32, deadline: u32, budget: u32)
    ensures r.inhibited ==> Submitted(r, kind, bytes, now, deadline, budget).0.inhibited
  {
  }

  lemma StoppedIsLatched(o: Output, fault: OutputFault)
    ensures Latched(Stopped(o, fault))
  {
  }

  lemma SchedulingKeepsClosed(o: Output, us: u32, epoch: u32)
    requires o.schedule.config.armPeriodUs > 0 && Closed(o)
    ensures Closed(Scheduling(o, us, epoch).0)
  {
    hide Stopped, Plan.PollSchedule;
    var late := if Sub(us, epoch) >= o.schedule.config.armPeriodUs then Stopped(o, ScheduleFault) else o;
    StoppedIsLatched(o, ScheduleFault);
    var s := Plan.PollSchedule(Realigned(o.schedule, us, epoch), us).0;
    StoppedIsLatched(late.(schedule := s), ScheduleFault);
  }

  lemma GuardedIsLatched(o: Output)
    requires Closed(o)
    ensures Latched(Guarded(o))
  {
    hide Stopped;
    StoppedIsLatched(o, TransportFault);
    StoppedIsLatched(o, OutputOk);
    StoppedIsLatched(Stopped(o, TransportFault), OutputOk);
  }

  lemma QuietedIsHalted(o: Output, us: u32)
    requires Latched(o)
    ensures var q := Quieted(o, us); Latched(q) && q.supervisor == Sup.Halted(o.supervisor)
  {
    hide Submitted, Sup.Halted;
    var h := o.(supervisor := Sup.Halted(o.supervisor));
    SubmitKeepsInhibit(h.router, STOP, StopFrame(), us, Add(us, h.config.jobLifetimeUs), h.config.stopBudgetUs);
  }

  /** A poll of a closed output latches it, whoever closed it: the supervisor is stopped at
      rest. */
  lemma LatchedPoll(o: Output, us: u32, ms: u32, epoch: u32)
    requires WellConfigured(o) && Closed(o)
    ensures var p := PollOutput(o, us, ms, epoch);
            Latched(p) && p.supervisor.state == Sup.StopLatched && p.supervisor.target == Sup.AT_REST
  {
    assert o.schedule.config.armPeriodUs > 0;
    hide ValidConfig, Motion, ExpireFrom, Scheduling, Quieted, Guarded, Sup.Watched, Polled;
    var o1 := o.(feedbackDue := false, availableUs := 0, supervisor := Sup.Watched(o.supervisor, ms),
                 router := o.router.(bus := Polled(o.router.bus, us)));
    ExpireKeepsClosed(o1, 0, us);
    SchedulingKeepsClosed(Checked(o, us, ms), us, epoch);
    GuardedIsLatched(Scheduling(Checked(o, us, ms), us, epoch).0);
    QuietedIsHalted(Guarded(Scheduling(Checked(o, us, ms), us, epoch).0), us);
  }

  lemma LatchedRouterStep(r: RouterState, us: u32, e: Event)
    requires r.inhibited
    ensures RouterStep(r, us, e).inhibited
    ensures e.Take? && Next(r, us, e.availableUs).1.Dispatch? ==> Next(r, us, e.availableUs).1.kind == STOP
  {
    hide Submitted, Next, Finished, Recovered;
    match e {
      case Submit(kind, bytes, deadline, budget) => SubmitKeepsInhibit(r, kind, bytes, us, deadline, budget);
      case Take(available) => InhibitedDispatchesStopOnly(r, us, available);
      case Finish(token, ok) => assert Finished(r, token, us, ok).0.inhibited by { FinishKeepsInhibit(r, token, us, ok); }
      case _ =>
    }
  }

  /** One act on a closed output: no packet but a stop, and it stays closed, and latched if
      it was, unless this very act is a granted rearm. */
  lemma LatchedStep(o: Output, a: Act)
    requires WellConfigured(o) && Closed(o)
    ensures Sent(o, a).Dispatch? ==> Sent(o, a).kind == STOP
    ensures !Rearms(o, a) ==> Closed(Step(o, a)) && (o.stopRequested ==> Latched(Step(o, a)))
  {
    hide ValidConfig, PollOutput, LiftStep, SupervisorStep, RouterStep, Next, Sup.Halted, WithoutMotion, CompletedOutput;
    LiftStepIsLocal(o, a.ms, a.event);
    LatchedRouterStep(o.router, a.us, a.event);
    match a.event {
      case Poll(epoch) => LatchedPoll(o, a.us, a.ms, epoch);
      case Rearm(session, epoch, proof) => RearmIsAllOrNothing(o, session, epoch, a.ms, proof);
      case Report(kind) => ReportKeepsLatch(o, kind, a.ms);
      case _ =>
    }
  }

  lemma ReportKeepsLatch(o: Output, kind: Work, ms: u32)
    ensures CompletedOutput(o, kind, ms).router == o.router
    ensures CompletedOutput(o, kind, ms).stopRequested == o.stopRequested
  {
  }

  // ---- whole runs -----------------------------------------------------------

  /** The latch. From the moment the output is closed, over any run without a granted
      rearm, every packet sent is a stop, and at the end the output is still closed, and
      latched if it was. */
  lemma {:induction false} OnlyStopUntilRearm(o: Output, acts: seq<Act>)
    requires WellConfigured(o) && Closed(o) && NeverRearms(o, acts)
    ensures Closed(Run(o, acts)) && (o.stopRequested ==> Latched(Run(o, acts)))
    ensures forall i :: 0 <= i < |Packets(o, acts)| ==> Packets(o, acts)[i].Dispatch? && Packets(o, acts)[i].kind == STOP
    decreases |acts|
  {
    assert o.schedule.config.armPeriodUs > 0;
    hide Step, Sent, Rearms, WellConfigured, Closed;
    if acts != [] {
      var a := acts[0];
      StepKeepsConfig(o, a);
      LatchedStep(o, a);
      OnlyStopUntilRearm(Step(o, a), acts[1..]);
    }
  }

  /** The same, counted from the system stop closing the shared bus under the output; the
      output's next poll then latches it. */
  lemma SilenceHoldsUntilRearm(o: Output, us: u32, ms: u32, acts: seq<Act>)
    requires WellConfigured(o) && NeverRearms(Step(o, Act(us, ms, Silence)), acts)
    ensures var s := Step(o, Act(us, ms, Silence));
            && Closed(Run(s, acts))
            && (forall i :: 0 <= i < |Packets(s, acts)| ==> Packets(s, acts)[i].Dispatch? && Packets(s, acts)[i].kind == STOP)
            && ((exists k :: 0 <= k < |acts| && acts[k].event.Poll?) ==> Latched(Run(s, acts)))
  {
    hide Run, Packets, NeverRearms;
    var s := Step(o, Act(us, ms, Silence));
    OnlyStopUntilRearm(s, acts);
    if k :| 0 <= k < |acts| && acts[k].event.Poll? {
      PollMeansLatched(s, acts, k);
    }
  }

  lemma {:induction false} PollMeansLatched(o: Output, acts: seq<Act>, k: nat)
    requires WellConfigured(o) && Closed(o) && NeverRearms(o, acts) && k < |acts| && acts[k].event.Poll?
    ensures Latched(Run(o, acts))
    decreases |acts|
  {
    assert o.schedule.config.armPeriodUs > 0;
    hide Step, Sent, Rearms, WellConfigured, Closed, PollOutput;
    StepKeepsConfig(o, acts[0]);
    LatchedStep(o, acts[0]);
    if k == 0 {
      PollLatches(o, acts[0]);
      OnlyStopUntilRearm(Step(o, acts[0]), acts[1..]);
    } else {
      PollMeansLatched(Step(o, acts[0]), acts[1..], k - 1);
    }
  }

  lemma PollLatches(o: Output, a: Act)
    requires WellConfigured(o) && Closed(o) && a.event.Poll?
    ensures Latched(Step(o, a))
  {
    hide PollOutput, ValidConfig;
    LatchedPoll(o, a.us, a.ms, a.event.armEpoch);
  }

  /** The same, counted from a call to stop with any fault. */
  lemma StopHoldsUntilRearm(o: Output, fault: OutputFault, acts: seq<Act>)
    requires WellConfigured(o) && NeverRearms(Stopped(o, fault), acts)
    ensures var s := Stopped(o, fault);
            && Latched(Run(s, acts))
            && forall i :: 0 <= i < |Packets(s, acts)| ==> Packets(s, acts)[i].Dispatch? && Packets(s, acts)[i].kind == STOP
  {
    hide Sup.Halted, WithoutMotion, Run, Packets, NeverRearms;
    OnlyStopUntilRearm(Stopped(o, fault), acts);
  }

  // ---- rearm ----------------------------------------------------------------

  /** Rearm is all or nothing: it is granted exactly when its own checks pass, because they
      imply that neither the router nor the supervisor can refuse; a refusal changes nothing. */
  lemma RearmIsAllOrNothing(o: Output, session: u32, epoch: u32, ms: u32, proof: bool)
    requires ValidConfig(o.config)
    ensures var (r, ok) := Rearmed(o, session, epoch, ms, proof);
            && (ok <==> MayRearm(o, session, ms, proof))
            && (!ok ==> r == o)
            && (ok ==> !r.stopRequested && !r.stopWritten && !r.router.inhibited && r.router.jobs == o.router.jobs
                       && r.supervisor.state == Sup.Ready && r.supervisor.target == Sup.AT_REST
                       && r.supervisor.session == session > o.supervisor.session && !r.supervisor.haveSequence)
  {
    hide Sup.MeasuredStopped;
  }
}

// What one poll of the output does in every case: exactly when it stops, what it leaves then,
// and what it queues when it goes on; and that a stop it asks for goes out.
module OutputPolls {
  import opened Words
  import opened Division
  import opened SharedBus
  import opened BusRouter
  import opened MobileOutput
  import opened OutputRuns
  import opened OutputLatch
  import opened OutputLaws
  import Plan = BusSchedule
  import Sup = MobileSupervisor

  // ---- the whole poll -------------------------------------------------------

  /** Someone has stopped or closed the output, the bus is faulted or overrun, the supervisor
      stops on this look, a motion job came too late, or the poll did. */
  predicate Closes(o: Output, us: u32, ms: u32, armEpoch: u32) {
    || o.stopRequested || o.router.inhibited || o.router.bus.stopPending || o.router.bus.faulted
    || Overrun(o.router.bus, us) || Sup.Watched(o.supervisor, ms).state == Sup.StopLatched
    || MotionLapsed(o.router, us, 0) || LatePoll(o, us, armEpoch)
  }

  /** The router without a stop that is too late. */
  function StopWithdrawn(r: RouterState, us: u32): RouterState {
    if r.jobs[0].pending && Expired(r.jobs[0], us) then
      r.(jobs := r.jobs[0 := r.jobs[0].(pending := false)], expired := if r.expired == U32_MAX then U32_MAX else r.expired + 1)
    else r
  }

  function Window(o: Output, us: u32, armEpoch: u32): Plan.Window
    requires o.schedule.config.armPeriodUs > 0
  {
    Plan.PollSchedule(Realigned(o.schedule, us, armEpoch), us).1
  }

  /** What the checks leave of an output they do not stop. */
  function Unstopped(o: Output, us: u32, armEpoch: u32): Output
    requires o.schedule.config.armPeriodUs > 0
  {
    o.(feedbackDue := Window(o, us, armEpoch).due[2], availableUs := Window(o, us, armEpoch).availableUs,
       schedule := Plan.PollSchedule(Realigned(o.schedule, us, armEpoch), us).0, router := StopWithdrawn(o.router, us))
  }

  /** A latched output is closed, with no motion job waiting. */
  predicate Clear(o: Output) {
    o.stopRequested ==> Closed(o) && forall k :: 1 <= k < 5 ==> !o.router.jobs[k].pending
  }

  lemma WatchedOn(s: Sup.Supervisor, ms: u32)
    ensures Sup.Watched(s, ms).state != Sup.StopLatched ==> Sup.Watched(s, ms) == s
  {
    hide Sup.Healthy, Sup.LiftInside, Sup.AgainstLimit;
  }

  lemma {:induction false} ExpiryKeepsStop(o: Output, i: nat, us: u32)
    requires 1 <= i <= 5
    ensures ExpireFrom(o, i, us).router.jobs[0] == o.router.jobs[0]
    ensures Clear(o) ==> Clear(ExpireFrom(o, i, us))
    decreases 5 - i
  {
    hide Expired, Sup.Halted, StopLift;
    if i < 5 { ExpiryKeepsStop(ExpireJob(o, i, us), i + 1, us); }
  }

  lemma CheckedIsExact(o: Output, us: u32, ms: u32)
    requires Clear(o)
    ensures var c := Checked(o, us, ms);
            && Clear(c) && c.router.jobs[0] == StopWithdrawn(o.router, us).jobs[0]
            && (c.stopRequested <==> o.stopRequested || MotionLapsed(o.router, us, 0))
            && (!MotionLapsed(o.router, us, 0) ==>
                  c == o.(feedbackDue := false, availableUs := 0, supervisor := Sup.Watched(o.supervisor, ms),
                          router := StopWithdrawn(o.router, us).(bus := Polled(o.router.bus, us))))
  {
    hide Expired, Sup.Watched, MotionLapsed, Sup.Halted, StopLift;
    var o1 := o.(feedbackDue := false, availableUs := 0, supervisor := Sup.Watched(o.supervisor, ms),
                 router := o.router.(bus := Polled(o.router.bus, us)));
    var s := ExpireJob(o1, 0, us);
    SameLapse(o.router, s.router, us, 0);
    assert s == o1.(router := StopWithdrawn(o.router, us).(bus := Polled(o.router.bus, us)));
    ExpiryKeepsStop(s, 1, us);
    ExpiryStops(s, 1, us);
    if !MotionLapsed(o.router, us, 0) { FromOne(s, us); }
  }

  lemma FromOne(s: Output, us: u32)
    requires !MotionLapsed(s.router, us, 1) && (s.router.jobs[0].pending ==> !Expired(s.router.jobs[0], us))
    ensures ExpireFrom(s, 1, us) == s
  {
    hide Expired, Sup.Halted, StopLift, MotionLapsed;
    NoLapseAt(s.router, us, 1, 1);
    NoLapseAt(s.router, us, 1, 2);
    NoLapseAt(s.router, us, 1, 3);
    NoLapseAt(s.router, us, 1, 4);
    assert ExpireFrom(s, 5, us) == s;
    assert ExpireFrom(s, 4, us) == s;
    assert ExpireFrom(s, 3, us) == s;
    assert ExpireFrom(s, 2, us) == s;
  }

  lemma SchedulingRests(o: Output, us: u32, armEpoch: u32)
    requires o.schedule.config.armPeriodUs > 0 && Clear(o)
    ensures var s := Scheduling(o, us, armEpoch).0; Clear(s) && s.router.jobs[0] == o.router.jobs[0] && s.config == o.config
    ensures Scheduling(o, us, armEpoch).1 == Window(o, us, armEpoch)
    ensures !LatePoll(o, us, armEpoch) ==>
              Scheduling(o, us, armEpoch).0.schedule == Plan.PollSchedule(Realigned(o.schedule, us, armEpoch), us).0
  {
    hide Sup.Halted, StopLift, Stopped, Plan.PollSchedule;
    StoppedRests(o, ScheduleFault);
    var late := if Sub(us, armEpoch) >= o.schedule.config.armPeriodUs then Stopped(o, ScheduleFault) else o;
    StoppedRests(late.(schedule := Plan.PollSchedule(Realigned(o.schedule, us, armEpoch), us).0), ScheduleFault);
  }

  lemma GuardRests(o: Output)
    requires Clear(o)
    ensures var g := Guarded(o); Clear(g) && g.router.jobs[0] == o.router.jobs[0]
  {
    hide Stopped;
    StoppedRests(o, TransportFault);
    StoppedRests(o, OutputOk);
    StoppedRests(Stopped(o, TransportFault), OutputOk);
  }

  lemma ChecksAreExact(o: Output, us: u32, ms: u32, armEpoch: u32)
    requires o.schedule.config.armPeriodUs > 0 && Clear(o)
    ensures var g := Guarded(Scheduling(Checked(o, us, ms), us, armEpoch).0);
            && (g.stopRequested <==> Closes(o, us, ms, armEpoch))
            && Clear(g) && g.router.jobs[0] == StopWithdrawn(o.router, us).jobs[0] && g.config == o.config
            && (!Closes(o, us, ms, armEpoch) ==>
                  g == Unstopped(o, us, armEpoch).(feedbackDue := false, availableUs := 0) && OpenRouter(g.router, us))
    ensures Scheduling(Checked(o, us, ms), us, armEpoch).1 == Window(o, us, armEpoch)
  {
    hide Checked, Scheduling, Guarded, MotionLapsed, LatePoll, Sup.Watched, Expired, Plan.PollSchedule, Realigned, Clear;
    var c := Checked(o, us, ms);
    CheckedIsExact(o, us, ms);
    WatchedOn(o.supervisor, ms);
    assert LatePoll(c, us, armEpoch) == LatePoll(o, us, armEpoch) && Window(c, us, armEpoch) == Window(o, us, armEpoch) by {
      SameLateness(o, c, us, armEpoch);
    }
    SchedulingStops(c, us, armEpoch);
    SchedulingRests(c, us, armEpoch);
    var s := Scheduling(c, us, armEpoch).0;
    GuardStops(s);
    GuardRests(s);
  }

  lemma SameLateness(o: Output, c: Output, us: u32, armEpoch: u32)
    requires o.schedule.config.armPeriodUs > 0 && c.schedule == o.schedule
    ensures LatePoll(c, us, armEpoch) == LatePoll(o, us, armEpoch) && Window(c, us, armEpoch) == Window(o, us, armEpoch)
  {
  }

  lemma QuietRests(g: Output, us: u32)
    requires ValidConfig(g.config) && Clear(g) && g.stopRequested
    ensures var p := Quieted(g, us);
            Rests(p) && StopIsSure(p) && p.router.jobs[0] in [g.router.jobs[0], NewStop(g.config, us)]
  {
    hide StopQueued, StopIsSure, NewStop, ValidConfig;
    StopQueuedIsExact(g.(supervisor := Sup.Halted(g.supervisor)), us);
  }

  /** A poll, in every case. It stops exactly when something closes the output, or motion
      fails: the lease broken or refused, or the permission behind it ending, or a due group
      that cannot be queued. Then everything rests, and the zero frame is sure to follow
      unless the bus is faulted. Otherwise a driving output has each due group's speeds
      queued, and an idle one has only its clocks and lease looked at. */
  lemma PollIsExact(o: Output, us: u32, ms: u32, armEpoch: u32)
    requires WellConfigured(o) && Clear(o)
    ensures o.schedule.config.armPeriodUs > 0
    ensures var p := PollOutput(o, us, ms, armEpoch);
            var k := Unstopped(o, us, armEpoch);
            var d, due := Looked(k, ms), Window(o, us, armEpoch).due;
            && (p.stopRequested <==> Closes(o, us, ms, armEpoch) || MotionFails(k, due, ms))
            && (p.stopRequested ==>
                  Rests(p) && StopIsSure(p) && p.router.jobs[0] in [StopWithdrawn(o.router, us).jobs[0], NewStop(o.config, us)])
            && (!p.stopRequested && !Driving(d) ==> p == d)
            && (!p.stopRequested && Driving(d) ==> 0 <= JobLife(d, ms) < WORD && p == WithGroups(d, due, us, ms))
  {
    assert o.schedule.config.armPeriodUs > 0;
    hide Checked, Scheduling, Guarded, Motion, Quieted, Closes, MotionFails, ValidConfig, Rests, StopIsSure, NewStop, Clear;
    hide WithGroups, Driving, StopsFrom, Expired, Realigned, Plan.PollSchedule;
    ChecksAreExact(o, us, ms, armEpoch);
    var g := Guarded(Scheduling(Checked(o, us, ms), us, armEpoch).0);
    var w := Window(o, us, armEpoch);
    if g.stopRequested {
      QuietRests(g, us);
      assert Quieted(g, us).stopRequested by { RestsMeansStopped(Quieted(g, us)); }
    } else {
      MotionIsExact(g, w, us, ms);
      var k := Unstopped(o, us, armEpoch);
      assert k == g.(availableUs := w.availableUs, feedbackDue := w.due[2]);
      var p := Motion(g, w, us, ms);
      if MotionFails(k, w.due, ms) {
        StopsFromRests(g, p, us);
        RestsMeansStopped(p);
      } else {
        LookedKeeps(k, ms);
        if Driving(Looked(k, ms)) { WithGroupsKeeps(Looked(k, ms), w.due, us, ms); }
      }
    }
  }

  lemma RestsMeansStopped(p: Output)
    ensures Rests(p) ==> p.stopRequested
  {
  }

  lemma WithGroupsKeeps(o: Output, due: Plan.DueBits, us: u32, ms: u32)
    requires (due[0] ==> !GroupFails(o, 0, ms)) && (due[1] ==> !GroupFails(o, 1, ms)) && 0 <= JobLife(o, ms) < WORD
    ensures WithGroups(o, due, us, ms).stopRequested == o.stopRequested
  {
    hide GroupFails, GroupPacket, JobLife;
  }

  // ---- runs -----------------------------------------------------------------

  lemma RouterKeepsClear(r: RouterState, us: u32, e: Event)
    requires r.inhibited && forall k :: 1 <= k < 5 ==> !r.jobs[k].pending
    ensures forall k :: 1 <= k < 5 ==> !RouterStep(r, us, e).jobs[k].pending
  {
    hide NextFrom, Expired;
    match e {
      case Submit(kind, bytes, deadline, budget) =>
        SubmitIsExact(r, kind, bytes, us, deadline, budget);
        hide Submitted;
      case Take(available) =>
        var p := r.(bus := Polled(r.bus, us));
        if !p.bus.active && !p.bus.faulted { DispatchIsSound(p, 0, us, available); }
      case _ =>
    }
  }

  /** Acts that leave the router and the latch alone. */
  lemma AsideKeepsClear(o: Output, n: Output)
    requires Clear(o) && n.router == o.router && n.stopRequested == o.stopRequested
    ensures Clear(n)
  {
  }

  lemma StopClears(o: Output, fault: OutputFault)
    ensures Clear(Stopped(o, fault))
  {
    hide Stopped;
    StoppedRests(o, fault);
  }

  predicate IsAside(e: Event) {
    e.Host? || e.Feed? || e.ArmHost? || e.LiftRequest? || e.LiftSample? || e.LiftTick? || e.SetInterlock? || e.BindLift?
  }

  lemma AsideSteps(o: Output, a: Act)
    requires WellConfigured(o) && Clear(o) && IsAside(a.event)
    ensures Clear(Step(o, a))
  {
    assert o.schedule.config.armPeriodUs > 0;
    hide WellConfigured, LiftStep, SupervisorStep, MayBind, Clear;
    LiftStepIsLocal(o, a.ms, a.event);
    AsideKeepsClear(o, Step(o, a));
  }

  predicate IsRouting(e: Event) {
    e.Submit? || e.Take? || e.Finish? || e.Recover? || e.Silence?
  }

  lemma RoutingSteps(o: Output, a: Act)
    requires WellConfigured(o) && IsRouting(a.event)
    ensures Step(o, a) == o.(router := RouterStep(o.router, a.us, a.event))
  {
    assert o.schedule.config.armPeriodUs > 0;
    hide WellConfigured, RouterStep;
  }

  lemma OwnSteps(o: Output, a: Act)
    requires WellConfigured(o) && !IsRouting(a.event) && !IsAside(a.event)
    ensures match a.event
            case Poll(epoch) => Step(o, a) == PollOutput(o, a.us, a.ms, epoch)
            case Report(kind) => Step(o, a) == CompletedOutput(o, kind, a.ms)
            case Stop(fault) => Step(o, a) == Stopped(o, fault)
            case Rearm(session, epoch, proof) => Step(o, a) == Rearmed(o, session, epoch, a.ms, proof).0
            case _ => false
  {
    assert o.schedule.config.armPeriodUs > 0;
    hide WellConfigured, PollOutput, CompletedOutput, Stopped, Rearmed;
  }

  /** In every run a latched output is closed with no motion job waiting. */
  lemma StepKeepsClear(o: Output, a: Act)
    requires WellConfigured(o) && Clear(o)
    ensures Clear(Step(o, a))
  {
    hide Step, WellConfigured, PollOutput, Stopped, Rearmed, CompletedOutput, Clear, RouterStep;
    if IsAside(a.event) {
      AsideSteps(o, a);
    } else if IsRouting(a.event) {
      RoutingSteps(o, a);
      RouterClears(o, a);
    } else {
      OwnSteps(o, a);
      match a.event {
        case Poll(epoch) => PollClears(o, a.us, a.ms, epoch);
        case Stop(fault) => StopClears(o, fault);
        case Rearm(session, epoch, proof) => RearmClears(o, session, epoch, a.ms, proof);
        case Report(kind) =>
          ReportKeepsLatch(o, kind, a.ms);
          AsideKeepsClear(o, CompletedOutput(o, kind, a.ms));
      }
    }
  }

  lemma PollClears(o: Output, us: u32, ms: u32, epoch: u32)
    requires WellConfigured(o) && Clear(o)
    ensures o.schedule.config.armPeriodUs > 0 && Clear(PollOutput(o, us, ms, epoch))
  {
    hide PollOutput, MotionFails, Closes, WithGroups, Looked, Unstopped, Window, Driving, JobLife, StopIsSure, NewStop, StopWithdrawn;
    PollIsExact(o, us, ms, epoch);
  }

  lemma RearmClears(o: Output, session: u32, epoch: u32, ms: u32, proof: bool)
    requires WellConfigured(o) && Clear(o)
    ensures Clear(Rearmed(o, session, epoch, ms, proof).0)
  {
    hide Rearmed, MayRearm;
    RearmIsAllOrNothing(o, session, epoch, ms, proof);
  }

  lemma RouterClears(o: Output, a: Act)
    requires Clear(o)
    ensures Clear(o.(router := RouterStep(o.router, a.us, a.event)))
  {
    hide RouterStep;
    if o.stopRequested {
      RouterKeepsClear(o.router, a.us, a.event);
      LatchedRouterStep(o.router, a.us, a.event);
    }
  }

  lemma {:induction false} RunKeepsClear(o: Output, acts: seq<Act>)
    requires WellConfigured(o) && Clear(o)
    ensures Clear(Run(o, acts))
    decreases |acts|
  {
    assert o.schedule.config.armPeriodUs > 0;
    hide Step, WellConfigured, Clear;
    if acts != [] {
      StepKeepsConfig(o, acts[0]);
      StepKeepsClear(o, acts[0]);
      RunKeepsClear(Step(o, acts[0]), acts[1..]);
    }
  }

  /** The stop goes out. A poll that stops, on a bus not faulted and not yet served, leaves the
      stop queued; the next turn that finds the bus free while its budget fits sends it,
      whatever the window. */
  lemma StoppingPollSendsStop(o: Output, us: u32, ms: u32, armEpoch: u32, now: u32, available: u32)
    requires WellConfigured(o) && Clear(o) && o.schedule.config.armPeriodUs > 0
    requires var p := PollOutput(o, us, ms, armEpoch);
             && p.stopRequested && !p.stopWritten && Free(p.router) && available < HALF
             && p.router.jobs[0].budgetUs < Sub(p.router.jobs[0].deadlineUs, now) < HALF
             && 0 < p.router.jobs[0].budgetUs
    ensures var p := PollOutput(o, us, ms, armEpoch);
            && p.router.jobs[0].pending
            && Next(p.router, now, available).1 == Dispatch(STOP, p.router.jobs[0].bytes, p.router.bus.token + 1)
            && Next(p.router, now, available).0.activeBytes == p.router.jobs[0].bytes
            && (p.router.jobs[0] != StopWithdrawn(o.router, us).jobs[0] ==> p.router.jobs[0] == NewStop(o.config, us))
  {
    hide PollOutput, MotionFails, Closes, WithGroups, Looked, Unstopped, Window, Driving, JobLife, NewStop, StopWithdrawn, Next;
    PollIsExact(o, us, ms, armEpoch);
    StopGoesFirst(PollOutput(o, us, ms, armEpoch).router, now, available);
  }

  // ---- the window behind a poll ---------------------------------------------

  /** The window follows the arm. A poll in time measures from the arm's latest interrupt:
      outside the arm's own time and its guard, the whole rest before the guard is offered. */
  lemma WindowFollowsArm(o: Output, us: u32, armEpoch: u32)
    requires WellConfigured(o) && !LatePoll(o, us, armEpoch)
    ensures o.schedule.config.armPeriodUs > 0
    ensures var w, c, since := Window(o, us, armEpoch), o.config.schedule, Sub(us, armEpoch);
            var open := c.armReservedUs <= since && c.guardUs < c.armPeriodUs - since;
            && (w.armReserved <==> since < c.armReservedUs)
            && w.availableUs == (if open then c.armPeriodUs - since - c.guardUs else 0)
            && (!open ==> forall i :: 0 <= i < 3 ==> !w.due[i])
  {
    hide Plan.Advanced, Plan.Reloaded, Plan.DueNow, Plan.PollSchedule;
    var s, since, elapsed := o.schedule, Sub(us, armEpoch), Sub(us, o.schedule.lastPollUs);
    var r := Realigned(s, us, armEpoch);
    RealignedPhase(since, elapsed, s.config.armPeriodUs);
    assert r.phaseUs < s.config.armPeriodUs && (r.phaseUs + elapsed) % s.config.armPeriodUs == since;
    PolledAtPhase(r, us, since);
  }

  lemma PolledAtPhase(s: Plan.ScheduleState, us: u32, since: nat)
    requires Plan.ValidConfig(s.config) && !s.faulted && Sub(us, s.lastPollUs) <= s.config.maximumPollGapUs
    requires s.phaseUs < s.config.armPeriodUs && (s.phaseUs + Sub(us, s.lastPollUs)) % s.config.armPeriodUs == since
    ensures var w, c := Plan.PollSchedule(s, us).1, s.config;
            var open := c.armReservedUs <= since && c.guardUs < c.armPeriodUs - since;
            && (w.armReserved <==> since < c.armReservedUs)
            && w.availableUs == (if open then c.armPeriodUs - since - c.guardUs else 0)
            && (!open ==> forall i :: 0 <= i < 3 ==> !w.due[i])
  {
    hide Plan.CountedDown, Plan.Reloaded, Plan.DueNow;
    assert Plan.Advanced(s, us).phaseUs == since by {
      assert Add(s.phaseUs, Sub(us, s.lastPollUs)) == s.phaseUs + Sub(us, s.lastPollUs);
    }
  }

  /** Realigning by the time since the last poll makes the next one land on the phase. */
  lemma RealignedPhase(since: nat, elapsed: nat, period: nat)
    requires since < period
    ensures ((since + period - elapsed % period) % period + elapsed) % period == since
  {
    var q, r := elapsed / period, elapsed % period;
    assert elapsed == q * period + r && 0 <= r < period;
    Wrapped(since - r, period);
    Landed(since, q, r, period);
  }

  lemma Landed(since: nat, q: nat, r: nat, period: nat)
    requires since < period && r < period
    ensures ((if since >= r then since - r else since - r + period) + q * period + r) % period == since
  {
    SmallRemainder(since, period);
    if since >= r {
      SameRemainder(since, q, period, since - r + q * period + r);
    } else {
      Distribute(q, period);
      SameRemainder(since, q + 1, period, since - r + period + q * period + r);
    }
  }

  lemma SmallRemainder(x: nat, d: nat)
    requires x < d
    ensures x % d == x
  {
  }

  lemma SameRemainder(x: int, k: int, d: nat, y: int)
    requires d > 0 && y == x + k * d
    ensures y % d == x % d
  {
    ModAddMultiple(x, k, d);
  }

  lemma Distribute(q: int, d: int)
    ensures (q + 1) * d == q * d + d
  {
  }

  lemma Wrapped(x: int, d: int)
    requires d > 0 && -d < x < d
    ensures (x + d) % d == if x >= 0 then x else x + d
  {
    if x >= 0 { ModAddMultiple(x, 1, d); }
  }
}

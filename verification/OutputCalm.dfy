// What one poll or other act can do to the motors at most: withdraw work, end or fault
// the transaction, drop a command or a lease; and what a poll that queues speeds queues.
module OutputCalm {
  import opened Words
  import opened Optional
  import opened SharedBus
  import opened BusRouter
  import opened MobileOutput
  import opened MotorPackets
  import Plan = BusSchedule
  import Sup = MobileSupervisor
  import Lifts = LiftController
  import opened LiftEndpoint

  // ---- supervisor -----------------------------------------------------------

  /** No new command: an active command can only be the one that was active before. */
  predicate Carried(s: Sup.Supervisor, n: Sup.Supervisor) {
    && n.config == s.config
    && (n.state == Sup.Active ==> s.state == Sup.Active && n.commandMs == s.commandMs
                                  && n.commandValidForMs == s.commandValidForMs && n.target == s.target)
  }

  lemma WatchCarries(s: Sup.Supervisor, now: u32)
    ensures Carried(s, Sup.Watched(s, now))
  {
    hide Sup.Healthy, Sup.LiftInside, Sup.AgainstLimit;
  }

  lemma FeedCarries(s: Sup.Supervisor, f: Sup.Feedback, now: u32)
    ensures Carried(s, Sup.Observed(s, f, now).0)
  {
    hide Sup.Watched, Sup.AcceptableFeedback;
    var w := Sup.Watched(s, now);
    WatchCarries(s, now);
    WatchCarries(w.(feedback := f, haveFeedback := true), now);
  }

  lemma ArmCarries(s: Sup.Supervisor, session: u32, now: u32)
    ensures Carried(s, Sup.Armed(s, session, now).0)
  {
    hide Sup.Watched, Sup.MeasuredStopped;
    WatchCarries(s, now);
  }

  /** A message that is not an accepted velocity brings no new command. */
  lemma MessageCarries(s: Sup.Supervisor, m: Sup.Message, now: u32)
    requires !(m.opcode == Sup.VelocityOp && Sup.Applied(s, m, now).1)
    ensures Carried(s, Sup.Applied(s, m, now).0)
  {
    hide Sup.Watched, Sup.Armed, Sup.WithinMaximum, Sup.AgainstLimit;
    var w := Sup.Watched(s, now);
    WatchCarries(s, now);
    WatchCarries(w, now);
    WatchCarries(Sup.Watched(w, now), now);
    ArmCarries(w, m.session, now);
  }

  lemma VelocityIsTaken(s: Sup.Supervisor, m: Sup.Message, now: u32)
    requires m.opcode == Sup.VelocityOp && Sup.Applied(s, m, now).1
    ensures var n := Sup.Applied(s, m, now).0;
            && n.config == s.config && n.state == Sup.Active && n.target == m.velocity && n.commandMs == now
            && n.commandValidForMs == Sub(m.validUntilMs, now) && n.commandValidForMs > 0
  {
    hide Sup.Watched, Sup.WithinMaximum, Sup.AgainstLimit;
    var w := Sup.Watched(s, now);
    WatchCarries(s, now);
    WatchCarries(w, now);
    WatchCarries(Sup.Watched(w, now), now);
  }

  // ---- lift -----------------------------------------------------------------

  /** No new lease. */
  predicate LeaseCarried(e: LiftEndpointState, n: LiftEndpointState) {
    && n.leaseMaxMs == e.leaseMaxMs
    && (n.active ==> e.active && n.validUntilMs == e.validUntilMs)
  }

  lemma LiftPollCarries(e: LiftEndpointState, now: u32)
    ensures LeaseCarried(e, PolledEndpoint(e, now))
    ensures PolledEndpoint(e, now).active ==> LeaseRunning(PolledEndpoint(e, now), now)
  {
    hide Lifts.PollLift, Interlocked;
  }

  lemma RefusedRequestCarries(e: LiftEndpointState, r: Request, now: u32)
    requires !Exchanged(e, r, now).1 || r.op == StatusOp
    ensures LeaseCarried(e, Exchanged(e, r, now).0)
  {
    hide PolledEndpoint, Interlocked, Lifts.HomeLift, Lifts.MoveLift, Lifts.CancelLift, Lifts.ResetLift, AtRest;
    LiftPollCarries(e, now);
  }

  lemma AcceptedRequestLeases(e: LiftEndpointState, r: Request, now: u32)
    requires Exchanged(e, r, now).1 && r.op != StatusOp
    ensures var n := Exchanged(e, r, now).0;
            n.leaseMaxMs == e.leaseMaxMs && n.validUntilMs == r.deadlineMs && 0 < Sub(r.deadlineMs, now) <= e.leaseMaxMs
  {
    hide PolledEndpoint, Interlocked, Lifts.HomeLift, Lifts.MoveLift, Lifts.CancelLift, Lifts.ResetLift, AtRest;
    LiftPollCarries(e, now);
  }

  // ---- router ---------------------------------------------------------------

  /** The transaction on the bus stays, ends or faults. */
  predicate BusCalmer(r: RouterState, n: RouterState) {
    n.bus.active ==>
      && r.bus.active && n.bus.owner == r.bus.owner && n.bus.startedUs == r.bus.startedUs
      && n.bus.budgetUs == r.bus.budgetUs && n.activeBytes == r.activeBytes && (r.bus.faulted ==> n.bus.faulted)
  }

  /** Nothing new for the motors either: motion jobs stay or are withdrawn. */
  predicate Calmer(r: RouterState, n: RouterState) {
    && BusCalmer(r, n)
    && (n.jobs[WHEELS].pending ==> n.jobs[WHEELS] == r.jobs[WHEELS])
    && (n.jobs[LIFT].pending ==> n.jobs[LIFT] == r.jobs[LIFT])
  }

  lemma CalmerSubmit(r: RouterState, kind: Work, bytes: seq<u8>, now: u32, deadline: u32, budget: u32)
    requires kind != WHEELS && kind != LIFT
    ensures Calmer(r, Submitted(r, kind, bytes, now, deadline, budget).0)
  {
    hide SubmitWellFormed;
  }

  lemma CalmerFinish(r: RouterState, token: u32, now: u32, ok: bool, idle: bool)
    ensures Calmer(r, Finished(r, token, now, ok).0)
    ensures Calmer(r, r.(bus := Recovered(r.bus, idle).0))
  {
  }

  lemma CalmerSilence(r: RouterState)
    ensures Calmer(r, Silenced(r))
  {
  }

  // ---- poll: what it can do -------------------------------------------------

  predicate LiftCarried(a: Option<LiftEndpointState>, b: Option<LiftEndpointState>) {
    a.None? == b.None? && (a.Some? ==> LeaseCarried(a.value, b.value))
  }

  /** Nothing but calming: no new work, no new command, no new lease. */
  predicate Quieter(o: Output, p: Output) {
    && p.config == o.config && Calmer(o.router, p.router) && LiftCarried(o.lift, p.lift)
    && (p.supervisor == o.supervisor || p.supervisor == Sup.Halted(o.supervisor))
  }

  predicate NoMotion(r: RouterState) {
    !r.jobs[WHEELS].pending && !r.jobs[LIFT].pending
  }

  lemma QuieterIsTransitive(a: Output, b: Output, c: Output)
    requires Quieter(a, b) && Quieter(b, c)
    ensures Quieter(a, c)
  {
  }

  lemma StoppedIsQuieter(o: Output, fault: OutputFault)
    ensures Quieter(o, Stopped(o, fault)) && NoMotion(Stopped(o, fault).router)
  {
    hide Sup.Halted, Lifts.CancelLift;
  }

  lemma StopQueuedIsQuieter(o: Output, us: u32)
    ensures Quieter(o, StopQueued(o, us)) && (NoMotion(o.router) ==> NoMotion(StopQueued(o, us).router))
  {
    hide SubmitWellFormed, StopFrame, StopUnderWay, Sup.Halted;
  }

  lemma StopAndQueueIsQuieter(o: Output, fault: OutputFault, us: u32)
    ensures var p := StoppedAndQueued(o, fault, us); Quieter(o, p) && NoMotion(p.router)
  {
    hide Stopped, StopQueued, Quieter, NoMotion;
    StoppedIsQuieter(o, fault);
    StopQueuedIsQuieter(Stopped(o, fault), us);
    QuieterIsTransitive(o, Stopped(o, fault), StopQueued(Stopped(o, fault), us));
  }

  lemma ExpireJobIsQuieter(o: Output, k: Work, us: u32)
    ensures var p := ExpireJob(o, k, us);
            Quieter(o, p) && (p.router.jobs[k].pending ==> !Expired(p.router.jobs[k], us))
  {
    hide Sup.Halted, Lifts.CancelLift, Expired;
  }

  predicate ExpiryDone(r: RouterState, i: nat, us: u32) {
    && (WHEELS < i && r.jobs[WHEELS].pending ==> !Expired(r.jobs[WHEELS], us))
    && (LIFT < i && r.jobs[LIFT].pending ==> !Expired(r.jobs[LIFT], us))
  }

  lemma {:induction false} ExpireIsQuieter(o: Output, i: nat, us: u32)
    requires i <= 5 && ExpiryDone(o.router, i, us)
    ensures Quieter(o, ExpireFrom(o, i, us)) && ExpiryDone(ExpireFrom(o, i, us).router, 5, us)
    decreases 5 - i
  {
    hide ExpireJob, Expired, Sup.Halted, BusCalmer, LeaseCarried;
    QuieterToSelf(o, o.schedule);
    if i < 5 {
      var p := ExpireJob(o, i, us);
      ExpireJobIsQuieter(o, i, us);
      ExpireIsQuieter(p, i + 1, us);
      QuieterIsTransitive(o, p, ExpireFrom(p, i + 1, us));
    }
  }

  lemma SchedulingIsQuieter(o: Output, us: u32, epoch: u32)
    requires o.schedule.config.armPeriodUs > 0
    ensures Quieter(o, Scheduling(o, us, epoch).0)
  {
    hide Stopped, Plan.PollSchedule, Quieter;
    var late := if Sub(us, epoch) >= o.schedule.config.armPeriodUs then Stopped(o, ScheduleFault) else o;
    var (s, w) := Plan.PollSchedule(Realigned(o.schedule, us, epoch), us);
    StoppedIsQuieter(o, ScheduleFault);
    QuieterToSelf(o, o.schedule);
    QuieterToSelf(late, s);
    StoppedIsQuieter(late.(schedule := s), ScheduleFault);
    QuieterIsTransitive(late, late.(schedule := s), Stopped(late.(schedule := s), ScheduleFault));
    QuieterIsTransitive(o, late, Scheduling(o, us, epoch).0);
  }

  lemma QuieterToSelf(o: Output, s: Plan.ScheduleState)
    ensures Quieter(o, o.(schedule := s))
    ensures Quieter(o, o)
  {
    hide Sup.Halted;
  }

  lemma GuardedIsQuieter(o: Output)
    ensures Quieter(o, Guarded(o))
  {
    hide Stopped, Quieter;
    QuieterToSelf(o, o.schedule);
    StoppedIsQuieter(o, TransportFault);
    StoppedIsQuieter(o, OutputOk);
    var s := Stopped(o, TransportFault);
    StoppedIsQuieter(s, OutputOk);
    QuieterIsTransitive(o, s, Stopped(s, OutputOk));
  }

  lemma QuietedIsQuieter(o: Output, us: u32)
    ensures Quieter(o, Quieted(o, us))
  {
    hide StopQueued, Quieter;
    var h := o.(supervisor := Sup.Halted(o.supervisor));
    assert Quieter(o, h) by { HaltedIsQuieter(o); }
    StopQueuedIsQuieter(h, us);
    QuieterIsTransitive(o, h, StopQueued(h, us));
  }

  lemma HaltedIsQuieter(o: Output)
    ensures Quieter(o, o.(supervisor := Sup.Halted(o.supervisor)))
  {
    hide Sup.Halted;
  }

  lemma DisengagedIsQuieter(o: Output, us: u32, ms: u32)
    ensures Quieter(o, Disengaged(o, us, ms).o)
  {
    hide StoppedAndQueued, Sup.Halted, HoldCompleted;
    StopAndQueueIsQuieter(o, OutputOk, us);
  }

  /** After this stage a running lease is one just checked, and excludes a command. */
  lemma EngagedIsQuieter(o: Output, us: u32, ms: u32)
    ensures var e := Engaged(o, us, ms);
            && Quieter(o, e.o)
            && (e.Go? && LiftActive(e.o) ==> LeaseRunning(e.o.lift.value, ms) && e.o.supervisor.state != Sup.Active)
  {
    hide StoppedAndQueued, PolledEndpoint, Sup.Halted, LeaseRunning;
    if LiftActive(o) {
      LiftPollCarries(o.lift.value, ms);
      var o1 := o.(liftEngaged := true, lift := Some(PolledEndpoint(o.lift.value, ms)));
      assert Quieter(o, o1);
      StopAndQueueIsQuieter(o1, TransportFault, us);
      QuieterIsTransitive(o, o1, StoppedAndQueued(o1, TransportFault, us));
    }
  }

  // ---- poll: queueing speeds ------------------------------------------------

  /** A job made now, carrying these speeds for this long. */
  predicate FreshJob(c: OutputConfig, job: Job, i: nat, v: seq<int>, lifetime: u32, us: u32)
    requires i < 2 && |v| == 4
  {
    && GroupBudget(c, i) < lifetime && SpeedsFit(GroupOf(v, i))
    && job == Job(true, SpeedFrame(GroupIds(i), GroupOf(v, i)), Add(us, lifetime), GroupBudget(c, i))
  }

  predicate Queueing(o: Output, p: Output, v: seq<int>, lifetime: u32, us: u32)
    requires |v| == 4
  {
    && p == o.(router := p.router) && BusCalmer(o.router, p.router)
    && (p.router.jobs[WHEELS] == o.router.jobs[WHEELS] || FreshJob(o.config, p.router.jobs[WHEELS], 0, v, lifetime, us))
    && (p.router.jobs[LIFT] == o.router.jobs[LIFT] || FreshJob(o.config, p.router.jobs[LIFT], 1, v, lifetime, us))
  }

  lemma SubmitGroupQueues(o: Output, i: nat, v: seq<int>, lifetime: u32, us: u32)
    requires |v| == 4 && i < 2
    ensures var s := SubmitGroup(o, i, v, lifetime, us);
            if s.Go? then Queueing(o, s.o, v, lifetime, us) else Quieter(o, s.o) && NoMotion(s.o.router)
  {
    hide StoppedAndQueued, SpeedFrame, Sup.Halted, SpeedsFit;
    StopAndQueueIsQuieter(o, QueueFault, us);
    if SpeedsFit(GroupOf(v, i)) {
      var r := Submitted(o.router, GroupKind(i), SpeedFrame(GroupIds(i), GroupOf(v, i)), us, Add(us, lifetime),
                         GroupBudget(o.config, i)).0;
      StopAndQueueIsQuieter(o.(router := r), QueueFault, us);
      if !SubmitGroup(o, i, v, lifetime, us).Go? && lifetime > GroupBudget(o.config, i) {
        assert Quieter(o, o.(router := r));
        QuieterIsTransitive(o, o.(router := r), StoppedAndQueued(o.(router := r), QueueFault, us));
      }
    }
  }

  lemma QueueingIsTransitive(o: Output, g: Output, p: Output, v: seq<int>, lifetime: u32, us: u32)
    requires |v| == 4 && Queueing(o, g, v, lifetime, us) && Queueing(g, p, v, lifetime, us)
    ensures Queueing(o, p, v, lifetime, us)
  {
    hide FreshJob;
  }

  lemma SilencedAfterQueueing(o: Output, g: Output, p: Output, v: seq<int>, lifetime: u32, us: u32)
    requires |v| == 4 && Queueing(o, g, v, lifetime, us) && Quieter(g, p) && NoMotion(p.router)
    ensures Quieter(o, p)
  {
    hide FreshJob, Sup.Halted;
  }

  lemma QueueingToSelf(o: Output, v: seq<int>, lifetime: u32, us: u32)
    requires |v| == 4
    ensures Queueing(o, o, v, lifetime, us)
  {
    hide FreshJob;
  }

  /** Either every due group's speeds are queued, or the whole output is stopped. */
  lemma {:induction false} SubmitQueues(o: Output, i: nat, due: Plan.DueBits, v: seq<int>, lifetime: u32, us: u32)
    requires |v| == 4 && i <= 2
    ensures var p := SubmitFrom(o, i, due, v, lifetime, us);
            Queueing(o, p, v, lifetime, us) || (Quieter(o, p) && NoMotion(p.router))
    decreases 2 - i
  {
    hide SubmitGroup, Queueing, Quieter;
    QueueingToSelf(o, v, lifetime, us);
    if i < 2 && !due[i] {
      SubmitQueues(o, i + 1, due, v, lifetime, us);
    } else if i < 2 {
      SubmitGroupQueues(o, i, v, lifetime, us);
      var s := SubmitGroup(o, i, v, lifetime, us);
      if s.Go? {
        var p := SubmitFrom(s.o, i + 1, due, v, lifetime, us);
        SubmitQueues(s.o, i + 1, due, v, lifetime, us);
        if Queueing(s.o, p, v, lifetime, us) {
          QueueingIsTransitive(o, s.o, p, v, lifetime, us);
        } else {
          SilencedAfterQueueing(o, s.o, p, v, lifetime, us);
        }
      }
    }
  }

  /** A motion job that a poll queues: it carries the present speeds, for no longer than
      the present command and lease allow. */
  predicate MovesNow(p: Output, i: nat, us: u32, ms: u32)
    requires i < 2
  {
    var active := LiftActive(p);
    var life := Lifetime(p, active, ms);
    && life.Some? && FreshJob(p.config, p.router.jobs[GroupKind(i)], i, MotorSpeeds(p, active), life.value, us)
    && (if active then LeaseRunning(p.lift.value, ms) else p.supervisor.state == Sup.Ready || p.supervisor.state == Sup.Active)
  }

  predicate JobAfter(o: Output, p: Output, i: nat, us: u32, ms: u32)
    requires i < 2
  {
    var k := GroupKind(i);
    p.router.jobs[k].pending ==> p.router.jobs[k] == o.router.jobs[k] || MovesNow(p, i, us, ms)
  }

  predicate Quickened(o: Output, p: Output, us: u32, ms: u32) {
    && p.config == o.config && BusCalmer(o.router, p.router) && LiftCarried(o.lift, p.lift)
    && (p.supervisor == o.supervisor || p.supervisor == Sup.Halted(o.supervisor))
    && JobAfter(o, p, 0, us, ms) && JobAfter(o, p, 1, us, ms)
  }

  lemma QuieterIsQuickened(o: Output, p: Output, us: u32, ms: u32)
    requires Quieter(o, p)
    ensures Quickened(o, p, us, ms)
  {
    hide MovesNow, Sup.Halted;
  }

  lemma QuickenedAfterQuieter(o: Output, g: Output, p: Output, us: u32, ms: u32)
    requires Quieter(o, g) && Quickened(g, p, us, ms)
    ensures Quickened(o, p, us, ms)
  {
    hide MovesNow;
  }

  lemma DriveQuickens(o: Output, due: Plan.DueBits, us: u32, ms: u32)
    requires LiftActive(o) ==> LeaseRunning(o.lift.value, ms)
    ensures Quickened(o, Drive(o, LiftActive(o), due, us, ms), us, ms)
  {
    hide Queueing, Quieter, NoMotion, StoppedAndQueued, SubmitFrom, LeaseRunning, Lifetime, MotorSpeeds, Quickened;
    var active := LiftActive(o);
    QuieterToSelf(o, o.schedule);
    QuieterIsQuickened(o, o, us, ms);
    var life := Lifetime(o, active, ms);
    if life.None? {
      StopAndQueueIsQuieter(o, CommandExpiring, us);
      QuieterIsQuickened(o, StoppedAndQueued(o, CommandExpiring, us), us, ms);
    } else {
      var v := MotorSpeeds(o, active);
      var p := SubmitFrom(o, 0, due, v, life.value, us);
      SubmitQueues(o, 0, due, v, life.value, us);
      if Queueing(o, p, v, life.value, us) {
        if active || o.supervisor.state == Sup.Ready || o.supervisor.state == Sup.Active {
          QueueingQuickens(o, p, us, ms);
        }
      } else {
        QuieterIsQuickened(o, p, us, ms);
      }
    }
  }

  lemma QueueingQuickens(o: Output, p: Output, us: u32, ms: u32)
    requires var life := Lifetime(o, LiftActive(o), ms);
             life.Some? && Queueing(o, p, MotorSpeeds(o, LiftActive(o)), life.value, us)
    requires if LiftActive(o) then LeaseRunning(o.lift.value, ms)
             else o.supervisor.state == Sup.Ready || o.supervisor.state == Sup.Active
    ensures Quickened(o, p, us, ms)
  {
    hide FreshJob, Sup.Halted, BusCalmer, LeaseRunning;
    assert Lifetime(p, LiftActive(p), ms) == Lifetime(o, LiftActive(o), ms);
    assert MotorSpeeds(p, LiftActive(p)) == MotorSpeeds(o, LiftActive(o));
  }

  lemma MotionQuickens(o: Output, w: Plan.Window, us: u32, ms: u32)
    ensures Quickened(o, Motion(o, w, us, ms), us, ms)
  {
    hide Disengaged, Engaged, Drive, Quieter, Quickened, LeaseRunning;
    var o1 := o.(availableUs := w.availableUs, feedbackDue := w.due[2]);
    WindowIsQuieter(o, w);
    var d := Disengaged(o1, us, ms);
    DisengagedIsQuieter(o1, us, ms);
    QuieterIsTransitive(o, o1, d.o);
    if d.Halt? {
      QuieterIsQuickened(o, d.o, us, ms);
    } else {
      var e := Engaged(d.o, us, ms);
      EngagedIsQuieter(d.o, us, ms);
      QuieterIsTransitive(o, d.o, e.o);
      if e.Halt? {
        QuieterIsQuickened(o, e.o, us, ms);
      } else {
        DriveQuickens(e.o, w.due, us, ms);
        QuickenedAfterQuieter(o, e.o, Drive(e.o, LiftActive(e.o), w.due, us, ms), us, ms);
      }
    }
  }

  lemma WindowIsQuieter(o: Output, w: Plan.Window)
    ensures Quieter(o, o.(availableUs := w.availableUs, feedbackDue := w.due[2]))
  {
    hide Sup.Halted;
  }

  /** The whole poll, seen from the state its checks leave. */
  lemma PollQuickens(o: Output, us: u32, ms: u32, epoch: u32)
    requires o.schedule.config.armPeriodUs > 0
    ensures var c := Checked(o, us, ms);
            && Quickened(c, PollOutput(o, us, ms, epoch), us, ms)
            && Quieter(o.(supervisor := Sup.Watched(o.supervisor, ms)), c) && ExpiryDone(c.router, 5, us)
            && (c.router.bus.active && !c.router.bus.faulted ==> Sub(us, c.router.bus.startedUs) < c.router.bus.budgetUs)
  {
    hide Scheduling, Guarded, Quieted, Motion, ExpireFrom, Quieter, Quickened, Sup.Watched;
    var c := Checked(o, us, ms);
    var (s, w) := Scheduling(c, us, epoch);
    var g := Guarded(s);
    CheckedIsQuieter(o, us, ms);
    SchedulingIsQuieter(c, us, epoch);
    GuardedIsQuieter(s);
    QuieterIsTransitive(c, s, g);
    if g.stopRequested {
      QuietedIsQuieter(g, us);
      QuieterIsTransitive(c, g, Quieted(g, us));
      QuieterIsQuickened(c, Quieted(g, us), us, ms);
    } else {
      MotionQuickens(g, w, us, ms);
      QuickenedAfterQuieter(c, g, Motion(g, w, us, ms), us, ms);
    }
  }

  lemma CheckedIsQuieter(o: Output, us: u32, ms: u32)
    ensures var c := Checked(o, us, ms);
            && Quieter(o.(supervisor := Sup.Watched(o.supervisor, ms)), c) && ExpiryDone(c.router, 5, us)
            && (c.router.bus.active && !c.router.bus.faulted ==> Sub(us, c.router.bus.startedUs) < c.router.bus.budgetUs)
  {
    hide Sup.Watched, Sup.Halted, Expired, ExpireFrom, LeaseCarried;
    var w := o.(supervisor := Sup.Watched(o.supervisor, ms));
    var o1 := o.(feedbackDue := false, availableUs := 0, supervisor := Sup.Watched(o.supervisor, ms),
                 router := o.router.(bus := Polled(o.router.bus, us)));
    assert LiftCarried(w.lift, o1.lift) by { QuieterToSelf(o, o.schedule); }
    assert Quieter(w, o1);
    ExpireIsQuieter(o1, 0, us);
    QuieterIsTransitive(w, o1, Checked(o, us, ms));
  }

  // ---- poll: as a whole -----------------------------------------------------

  lemma ActiveIsUnexpired(s: Sup.Supervisor, now: u32)
    requires Sup.Watched(s, now).state == Sup.Active
    ensures Sup.Watched(s, now) == s && Sub(now, s.commandMs) < s.commandValidForMs
  {
    hide Sup.Healthy, Sup.LiftInside, Sup.AgainstLimit;
  }

  lemma LifetimeIsCapped(o: Output, active: bool, ms: u32)
    requires (active ==> o.lift.Some?) && Lifetime(o, active, ms).Some?
    ensures var life := Lifetime(o, active, ms).value;
            && life <= o.config.jobLifetimeUs
            && (o.supervisor.state == Sup.Active ==>
                  CommandRemaining(o, ms) > 1 && life <= (CommandRemaining(o, ms) - 1) * 1000)
            && (active ==> LeaseRemaining(o, ms) > 1 && life <= (LeaseRemaining(o, ms) - 1) * 1000)
  {
    hide CommandRemaining, LeaseRemaining;
  }

  predicate JobAfterPoll(o: Output, p: Output, i: nat, us: u32, ms: u32)
    requires i < 2
  {
    var k := GroupKind(i);
    p.router.jobs[k].pending ==>
      (p.router.jobs[k] == o.router.jobs[k] && !Expired(o.router.jobs[k], us)) || MovesNow(p, i, us, ms)
  }

  lemma PollEffects(o: Output, us: u32, ms: u32, epoch: u32)
    requires o.schedule.config.armPeriodUs > 0
    ensures var p := PollOutput(o, us, ms, epoch);
            var w := Sup.Watched(o.supervisor, ms);
            && JobAfterPoll(o, p, 0, us, ms) && JobAfterPoll(o, p, 1, us, ms)
            && BusCalmer(o.router, p.router) && LiftCarried(o.lift, p.lift)
            && (p.supervisor == w || p.supervisor == Sup.Halted(w) || p.supervisor == Sup.Halted(Sup.Halted(w)))
            && (p.router.bus.active && !p.router.bus.faulted ==> Sub(us, p.router.bus.startedUs) < p.router.bus.budgetUs)
  {
    hide Checked, PollOutput, Sup.Watched, Sup.Halted, MovesNow, Expired;
    PollQuickens(o, us, ms, epoch);
  }
}

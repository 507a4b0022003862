// The stages of one poll of the output, in every case: what makes each stop, what a stop
// leaves behind, and what motor packets are queued.
module OutputLaws {
  import opened Words
  import opened Optional
  import opened SharedBus
  import opened BusRouter
  import opened MobileOutput
  import opened MotorPackets
  import opened OutputLatch
  import Plan = BusSchedule
  import Sup = MobileSupervisor
  import Lifts = LiftController
  import opened LiftEndpoint

  // ---- what makes a poll stop -----------------------------------------------

  /** A motion job waits that can no longer finish in time. */
  predicate MotionLapsed(r: RouterState, us: u32, i: nat) {
    exists k :: 1 <= k < 5 && k >= i && r.jobs[k].pending && Expired(r.jobs[k], us)
  }

  lemma {:induction false} ExpiryStops(o: Output, i: nat, us: u32)
    requires i <= 5
    ensures ExpireFrom(o, i, us).stopRequested <==> o.stopRequested || MotionLapsed(o.router, us, i)
    ensures ExpireFrom(o, i, us).stopRequested && !o.stopRequested ==> Latched(ExpireFrom(o, i, us))
    ensures o.router.bus.faulted ==> ExpireFrom(o, i, us).router.bus.faulted
    decreases 5 - i
  {
    hide Expired, Sup.Halted;
    if i < 5 {
      var p := ExpireJob(o, i, us);
      ExpiryStops(p, i + 1, us);
      if i > 0 && o.router.jobs[i].pending && Expired(o.router.jobs[i], us) {
        ExpireKeepsClosed(p, i + 1, us);
        assert MotionLapsed(o.router, us, i);
      } else {
        assert p.stopRequested == o.stopRequested && forall k :: 1 <= k < 5 ==> p.router.jobs[k] == o.router.jobs[k];
        SameLapse(o.router, p.router, us, i);
      }
    }
  }

  lemma SameLapse(r: RouterState, n: RouterState, us: u32, i: nat)
    requires forall k :: 1 <= k < 5 ==> n.jobs[k] == r.jobs[k]
    requires i > 0 ==> !(i < 5 && r.jobs[i].pending && Expired(r.jobs[i], us))
    ensures MotionLapsed(n, us, i + 1) == MotionLapsed(r, us, i)
  {
    hide Expired;
    if MotionLapsed(r, us, i) {
      var k :| 1 <= k < 5 && k >= i && r.jobs[k].pending && Expired(r.jobs[k], us);
      assert n.jobs[k] == r.jobs[k];
    }
    if MotionLapsed(n, us, i + 1) {
      var k :| 1 <= k < 5 && k >= i + 1 && n.jobs[k].pending && Expired(n.jobs[k], us);
      assert n.jobs[k] == r.jobs[k];
    }
  }

  lemma NoLapseAt(r: RouterState, us: u32, i: nat, k: Work)
    requires 1 <= k && k >= i && !MotionLapsed(r, us, i)
    ensures !(r.jobs[k].pending && Expired(r.jobs[k], us))
  {
    hide Expired;
    assert k < 5;
  }

  /** The poll comes too long after the arm's interrupt, or after the last poll. */
  predicate LatePoll(o: Output, us: u32, armEpoch: u32) {
    || Sub(us, armEpoch) >= o.schedule.config.armPeriodUs
    || o.schedule.faulted || Sub(us, o.schedule.lastPollUs) > o.schedule.config.maximumPollGapUs
  }

  lemma SchedulingStops(o: Output, us: u32, armEpoch: u32)
    requires o.schedule.config.armPeriodUs > 0
    ensures var s := Scheduling(o, us, armEpoch).0;
            && (s.stopRequested <==> o.stopRequested || LatePoll(o, us, armEpoch))
            && (LatePoll(o, us, armEpoch) ==> Latched(s))
            && (!LatePoll(o, us, armEpoch) ==> s == o.(schedule := s.schedule))
            && (o.router.bus.faulted <==> s.router.bus.faulted)
  {
    hide Sup.Halted, StopLift, WithoutMotion, Plan.Advanced, Plan.WindowOpen, Plan.Reloaded, Plan.DueNow;
  }

  /** Someone has closed the bus, or it is faulted, or the supervisor has stopped. */
  predicate MustStop(o: Output) {
    o.stopRequested || o.router.inhibited || o.router.bus.stopPending || o.router.bus.faulted || o.supervisor.state == Sup.StopLatched
  }

  lemma GuardStops(o: Output)
    ensures Guarded(o).stopRequested <==> MustStop(o)
    ensures !MustStop(o) ==> Guarded(o) == o
    ensures !o.stopRequested && MustStop(o) ==> Latched(Guarded(o))
    ensures o.router.bus.faulted <==> Guarded(o).router.bus.faulted
  {
    hide StopLift, WithoutMotion, Sup.Halted;
    HaltStops(o.supervisor);
  }

  lemma HaltStops(s: Sup.Supervisor)
    ensures Sup.Halted(s).state == Sup.StopLatched
  {
  }

  // ---- motion ---------------------------------------------------------------

  /** The lease has ended without a proven hold. */
  predicate LeaseBroken(o: Output, ms: u32) {
    o.liftEngaged && !LiftActive(o) && !HoldProven(o, ms)
  }

  /** The lift holds, has told its motor zero, commands nothing, and has fresh feedback. */
  predicate HoldProven(o: Output, ms: u32) {
    && o.lift.Some?
    && var l := o.lift.value.lift;
    && l.state == Lifts.Holding && l.zeroSent && l.command == 0
    && l.haveSample && Sub(ms, l.observedMs) < l.config.feedbackTimeoutMs
  }

  /** A running lease that does not survive this look, or meets an active base command. */
  predicate LeaseRefused(o: Output, ms: u32) {
    LiftActive(o) && (!PolledEndpoint(o.lift.value, ms).active || o.supervisor.state == Sup.Active)
  }

  /** The output may drive now: under a lease, or with the base ready or active. */
  predicate Driving(o: Output) {
    LiftActive(o) || o.supervisor.state == Sup.Ready || o.supervisor.state == Sup.Active
  }

  /** Milliseconds the active base command still has. */
  function CommandLeft(o: Output, ms: u32): u32 {
    Sub(o.supervisor.commandValidForMs, Sub(ms, o.supervisor.commandMs))
  }

  function LeaseLeft(o: Output, ms: u32): u32
    requires LiftActive(o)
  {
    Sub(o.lift.value.validUntilMs, ms)
  }

  /** A permission about to end leaves no time for a job. */
  predicate Ending(o: Output, ms: u32) {
    || (o.supervisor.state == Sup.Active && CommandLeft(o, ms) <= 1)
    || (LiftActive(o) && LeaseLeft(o, ms) <= 1)
  }

  function Least(a: int, b: int): int {
    if a < b then a else b
  }

  /** Microseconds a job may live: the configured time, but a whole millisecond less than what
      the command or lease behind it has left. */
  function JobLife(o: Output, ms: u32): int {
    var base := o.config.jobLifetimeUs as int;
    var byCommand := if o.supervisor.state == Sup.Active then Least(base, (CommandLeft(o, ms) as int - 1) * 1000) else base;
    if LiftActive(o) then Least(byCommand, (LeaseLeft(o, ms) as int - 1) * 1000) else byCommand
  }

  lemma LifeIsExact(o: Output, ms: u32)
    ensures Lifetime(o, LiftActive(o), ms).None? <==> Ending(o, ms)
    ensures !Ending(o, ms) ==> Lifetime(o, LiftActive(o), ms).value == JobLife(o, ms)
  {
  }

  /** The speed one motor gets: under a lease the lift's own command for the lift and nothing
      for the wheels; otherwise the base's target; each in its configured direction. */
  function Speed(o: Output, i: nat): int
    requires i < 4
  {
    var asked := if LiftActive(o) then (if i == 3 then o.lift.value.lift.command as int else 0) else o.supervisor.target[i];
    asked * o.config.direction[i]
  }

  /** The packet of a group: wheels 0, 1, 2, or the lift column 3. */
  function GroupPacket(o: Output, i: nat): seq<u8>
    requires i < 2 && GroupFits(o, i)
  {
    if i == 0 then SpeedFrame(WHEEL_IDS, [Speed(o, 0), Speed(o, 1), Speed(o, 2)]) else SpeedFrame(LIFT_IDS, [Speed(o, 3)])
  }

  /** A speed a motor's register can hold. */
  predicate Holdable(v: int) {
    -32767 <= v <= 32767
  }

  predicate GroupFits(o: Output, i: nat)
    requires i < 2
  {
    if i == 0 then Holdable(Speed(o, 0)) && Holdable(Speed(o, 1)) && Holdable(Speed(o, 2)) else Holdable(Speed(o, 3))
  }

  function Budget(c: OutputConfig, i: nat): u32 {
    if i == 0 then c.wheelsBudgetUs else c.liftBudgetUs
  }

  /** A due group cannot be queued: its job could not live long enough, or a speed does not
      fit a register. */
  predicate GroupFails(o: Output, i: nat, ms: u32)
    requires i < 2
  {
    JobLife(o, ms) <= Budget(o.config, i) || !GroupFits(o, i)
  }

  lemma SpeedsAreExact(o: Output)
    ensures MotorSpeeds(o, LiftActive(o)) == [Speed(o, 0), Speed(o, 1), Speed(o, 2), Speed(o, 3)]
    ensures var v := MotorSpeeds(o, LiftActive(o));
            GroupOf(v, 0) == [Speed(o, 0), Speed(o, 1), Speed(o, 2)] && GroupOf(v, 1) == [Speed(o, 3)]
  {
  }

  /** An open, healthy router that is asked for nothing else. */
  predicate OpenRouter(r: RouterState, us: u32) {
    !r.inhibited && !r.bus.stopPending && !r.bus.faulted && !Overrun(r.bus, us)
  }

  lemma GroupIsQueued(o: Output, i: nat, us: u32, ms: u32)
    requires ValidConfig(o.config) && i < 2 && !Ending(o, ms) && OpenRouter(o.router, us)
    ensures var s := SubmitGroup(o, i, MotorSpeeds(o, LiftActive(o)), JobLife(o, ms), us);
            && (s.Go? <==> !GroupFails(o, i, ms))
            && (s.Halt? ==> s.o == StoppedAndQueued(o, QueueFault, us))
            && (s.Go? ==> s.o == o.(router := o.router.(jobs := o.router.jobs[GroupKind(i) :=
                                 Job(true, GroupPacket(o, i), Add(us, JobLife(o, ms)), Budget(o.config, i))])))
  {
    hide SpeedFrame, StoppedAndQueued, Lifetime;
    SpeedsAreExact(o);
    LifeIsExact(o, ms);
    LifeIsBounded(o, ms);
    if !GroupFails(o, i, ms) {
      FrameHasLength(o, i);
      SubmitIsExact(o.router, GroupKind(i), GroupPacket(o, i), us, Add(us, JobLife(o, ms)), Budget(o.config, i));
      AddSubBack(us, JobLife(o, ms));
      JobsAgree(o.router.jobs, Submitted(o.router, GroupKind(i), GroupPacket(o, i), us, Add(us, JobLife(o, ms)), Budget(o.config, i)).0.jobs, GroupKind(i));
    }
  }

  lemma LifeIsBounded(o: Output, ms: u32)
    requires ValidConfig(o.config) && !Ending(o, ms)
    ensures 0 <= JobLife(o, ms) <= 1000000
  {
  }

  lemma AddSubBack(us: u32, life: u32)
    ensures Sub(Add(us, life), us) == life
  {
  }

  lemma JobsAgree(a: Jobs, b: Jobs, k: Work)
    requires forall j :: 0 <= j < 5 && j != k ==> b[j] == a[j]
    ensures b == a[k := b[k]]
  {
  }

  lemma FrameHasLength(o: Output, i: nat)
    requires i < 2 && GroupFits(o, i)
    ensures 0 < |GroupPacket(o, i)| <= 32
  {
    hide SyncWrite;
  }

  // ---- the lease, and the groups --------------------------------------------

  /** What looking at the lease leaves of an output it does not stop: a running lease is
      polled and noted; one that ended in a proven hold takes its motion jobs with it. */
  function Looked(o: Output, ms: u32): Output {
    if LiftActive(o) then o.(liftEngaged := true, lift := Some(PolledEndpoint(o.lift.value, ms)))
    else if o.liftEngaged then
      o.(liftEngaged := false,
         router := o.router.(jobs := o.router.jobs[2 := o.router.jobs[2].(pending := false)][3 := o.router.jobs[3].(pending := false)]))
    else o
  }

  /** The output once its stop was asked for and queued. */
  ghost predicate StopsFrom(o: Output, p: Output, us: u32) {
    exists x: Output, f ::
      && p == StoppedAndQueued(x, f, us) && x.config == o.config && x.stopWritten == o.stopWritten
      && x.router == o.router.(jobs := x.router.jobs) && x.router.jobs[0] == o.router.jobs[0]
  }

  lemma LeasesAreExact(o: Output, us: u32, ms: u32)
    ensures var s := Leased(o, us, ms);
            && (s.Halt? <==> LeaseBroken(o, ms) || LeaseRefused(o, ms))
            && (s.Go? ==> s.o == Looked(o, ms))
            && (s.Halt? ==> StopsFrom(o, s.o, us))
  {
    hide StoppedAndQueued, PolledEndpoint;
    if LeaseBroken(o, ms) {
      assert Leased(o, us, ms).o == StoppedAndQueued(o, OutputOk, us);
    } else if LeaseRefused(o, ms) {
      assert Leased(o, us, ms).o == StoppedAndQueued(Looked(o, ms), TransportFault, us);
    }
  }

  /** The groups' jobs: each due group gets its packet, for the life and within the budget;
      nothing else changes. */
  function WithGroups(o: Output, due: Plan.DueBits, us: u32, ms: u32): Output
    requires (due[0] ==> !GroupFails(o, 0, ms)) && (due[1] ==> !GroupFails(o, 1, ms)) && 0 <= JobLife(o, ms) < WORD
  {
    var jobs := o.router.jobs;
    var wheels := if due[0] then jobs[2 := Job(true, GroupPacket(o, 0), Add(us, JobLife(o, ms)), o.config.wheelsBudgetUs)] else jobs;
    var both := if due[1] then wheels[3 := Job(true, GroupPacket(o, 1), Add(us, JobLife(o, ms)), o.config.liftBudgetUs)] else wheels;
    o.(router := o.router.(jobs := both))
  }

  /** A driving output that cannot go on: its permission is ending, or a due group cannot be
      queued. */
  predicate DriveFails(o: Output, due: Plan.DueBits, ms: u32) {
    Ending(o, ms) || (due[0] && GroupFails(o, 0, ms)) || (due[1] && GroupFails(o, 1, ms))
  }

  lemma DriveIsExact(o: Output, due: Plan.DueBits, us: u32, ms: u32)
    requires ValidConfig(o.config) && OpenRouter(o.router, us)
    ensures var p := Drive(o, LiftActive(o), due, us, ms);
            && (!Driving(o) ==> p == o)
            && (Driving(o) && DriveFails(o, due, ms) ==> StopsFrom(o, p, us))
            && (Driving(o) && !DriveFails(o, due, ms) ==> 0 <= JobLife(o, ms) < WORD && p == WithGroups(o, due, us, ms))
  {
    hide StoppedAndQueued, SubmitGroup, MotorSpeeds, Lifetime, GroupPacket, GroupFits, JobLife;
    LifeIsExact(o, ms);
    if !Driving(o) {
    } else if Ending(o, ms) {
      assert Drive(o, LiftActive(o), due, us, ms) == StoppedAndQueued(o, CommandExpiring, us);
    } else {
      LifeIsBounded(o, ms);
      GroupsAreExact(o, due, us, ms);
    }
  }

  lemma GroupsAreExact(o: Output, due: Plan.DueBits, us: u32, ms: u32)
    requires ValidConfig(o.config) && OpenRouter(o.router, us) && !Ending(o, ms) && 0 <= JobLife(o, ms) < WORD
    ensures var p := SubmitFrom(o, 0, due, MotorSpeeds(o, LiftActive(o)), JobLife(o, ms), us);
            && (DriveFails(o, due, ms) ==> StopsFrom(o, p, us))
            && (!DriveFails(o, due, ms) ==> p == WithGroups(o, due, us, ms))
  {
    hide StoppedAndQueued, SubmitGroup, MotorSpeeds, Lifetime, GroupPacket, GroupFits, ValidConfig, Ending, SpeedFrame;
    var v := MotorSpeeds(o, LiftActive(o));
    GroupIsQueued(o, 0, us, ms);
    var first := if due[0] then SubmitGroup(o, 0, v, JobLife(o, ms), us) else Go(o);
    if first.Halt? {
      assert StopsFrom(o, StoppedAndQueued(o, QueueFault, us), us);
    } else {
      var n := first.o;
      SameGroup(o, n, 1, ms);
      GroupIsQueued(n, 1, us, ms);
      if due[1] && GroupFails(o, 1, ms) {
        assert StopsFrom(o, StoppedAndQueued(n, QueueFault, us), us);
      }
    }
  }

  lemma SameGroup(o: Output, n: Output, i: nat, ms: u32)
    requires i < 2 && n == o.(router := n.router)
    ensures LiftActive(n) == LiftActive(o) && MotorSpeeds(n, LiftActive(o)) == MotorSpeeds(o, LiftActive(o))
    ensures JobLife(n, ms) == JobLife(o, ms) && Ending(n, ms) == Ending(o, ms)
    ensures GroupFits(n, i) == GroupFits(o, i) && GroupFails(n, i, ms) == GroupFails(o, i, ms)
    ensures GroupFits(o, i) ==> GroupPacket(n, i) == GroupPacket(o, i)
  {
    hide SpeedFrame;
  }

  /** What makes motion stop: the lease broken or refused, or the drive failing. */
  predicate MotionFails(o: Output, due: Plan.DueBits, ms: u32) {
    || LeaseBroken(o, ms) || LeaseRefused(o, ms)
    || (Driving(Looked(o, ms)) && DriveFails(Looked(o, ms), due, ms))
  }

  lemma MotionIsExact(o: Output, w: Plan.Window, us: u32, ms: u32)
    requires ValidConfig(o.config) && OpenRouter(o.router, us)
    ensures var p := Motion(o, w, us, ms);
            var k := o.(availableUs := w.availableUs, feedbackDue := w.due[2]);
            var d := Looked(k, ms);
            && (MotionFails(k, w.due, ms) ==> StopsFrom(o, p, us))
            && (!MotionFails(k, w.due, ms) && !Driving(d) ==> p == d)
            && (!MotionFails(k, w.due, ms) && Driving(d) ==> 0 <= JobLife(d, ms) < WORD && p == WithGroups(d, w.due, us, ms))
  {
    hide LeaseBroken, LeaseRefused, Leased, Drive, StopsFrom, ValidConfig, WithGroups, DriveFails;
    var k := o.(availableUs := w.availableUs, feedbackDue := w.due[2]);
    var d := Looked(k, ms);
    LeasesAreExact(k, us, ms);
    if LeaseBroken(k, ms) || LeaseRefused(k, ms) {
      StopsAlike(o, k, Motion(o, w, us, ms), us);
    } else {
      LookedKeeps(k, ms);
      DriveIsExact(d, w.due, us, ms);
      assert Motion(o, w, us, ms) == Drive(d, LiftActive(d), w.due, us, ms);
      if Driving(d) && DriveFails(d, w.due, ms) { StopsAlike(o, d, Motion(o, w, us, ms), us); }
    }
  }

  lemma StopsAlike(o: Output, d: Output, p: Output, us: u32)
    requires StopsFrom(d, p, us) && d.config == o.config && d.stopWritten == o.stopWritten
    requires d.router == o.router.(jobs := d.router.jobs) && d.router.jobs[0] == o.router.jobs[0]
    ensures StopsFrom(o, p, us)
  {
    hide StoppedAndQueued;
  }

  lemma LookedKeeps(o: Output, ms: u32)
    ensures var d := Looked(o, ms);
            && d.config == o.config && d.stopWritten == o.stopWritten && d.stopRequested == o.stopRequested
            && d.supervisor == o.supervisor
            && d.router == o.router.(jobs := d.router.jobs) && d.router.jobs[0] == o.router.jobs[0]
  {
    hide PolledEndpoint;
  }

  // ---- a stop ---------------------------------------------------------------

  /** Everything rests: the output is latched, its supervisor stopped with nothing to drive,
      and no motion job waits. */
  predicate Rests(p: Output) {
    && Latched(p) && p.supervisor.state == Sup.StopLatched && p.supervisor.target == [0, 0, 0, 0]
    && forall k :: 1 <= k < 5 ==> !p.router.jobs[k].pending
  }

  /** The stop is taken care of: written, on the bus, or queued, unless the bus is faulted. */
  predicate StopIsSure(p: Output) {
    || p.router.bus.faulted || p.stopWritten || p.router.jobs[0].pending
    || (p.router.bus.active && p.router.bus.owner == STOP)
  }

  /** A stop queued now: the zero frame, for the configured life and budget. */
  function NewStop(c: OutputConfig, us: u32): Job {
    Job(true, StopFrame(), Add(us, c.jobLifetimeUs), c.stopBudgetUs)
  }

  lemma StopQueuedIsExact(o: Output, us: u32)
    requires ValidConfig(o.config)
    ensures var p := StopQueued(o, us);
            && StopIsSure(p) && p.router.jobs[0] in [o.router.jobs[0], NewStop(o.config, us)]
            && (Rests(o) ==> Rests(p))
  {
    hide StopFrame, Expired;
    AddSubBack(us, o.config.jobLifetimeUs);
    SubmitIsExact(o.router, STOP, StopFrame(), us, Add(us, o.config.jobLifetimeUs), o.config.stopBudgetUs);
  }

  lemma StoppedRests(o: Output, fault: OutputFault)
    ensures var s := Stopped(o, fault); Rests(s) && s.router.jobs[0] == o.router.jobs[0]
  {
    hide StopLift;
  }

  lemma StopsFromRests(o: Output, p: Output, us: u32)
    requires ValidConfig(o.config) && StopsFrom(o, p, us)
    ensures Rests(p) && StopIsSure(p) && p.router.jobs[0] in [o.router.jobs[0], NewStop(o.config, us)]
  {
    hide Stopped, StopQueued, Rests, StopIsSure, NewStop, ValidConfig;
    var x, f :| p == StoppedAndQueued(x, f, us) && x.config == o.config && x.router.jobs[0] == o.router.jobs[0];
    StoppedRests(x, f);
    StopQueuedIsExact(Stopped(x, f), us);
  }
}

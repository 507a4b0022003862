// One concrete run that does drive the wheels: feedback, arm, a velocity message, a poll,
// a dispatch and a completion. It meets every hypothesis of the deadline theorem.
module OutputExample {
  import opened Words
  import opened Optional
  import opened SharedBus
  import opened BusRouter
  import opened MobileOutput
  import opened MotorPackets
  import opened OutputRuns
  import opened OutputLatch
  import opened OutputDeadline
  import Plan = BusSchedule
  import Sup = MobileSupervisor

  const SUPERVISOR: Sup.MobileConfig := Sup.MobileConfig([100, 100, 100, 100], 5, 100, 100, -1000, 1000)
  const OUTPUT: OutputConfig := OutputConfig(
    Plan.ScheduleConfig(20000, 5000, 1000, 20000, 20000, 20000, 20000), 2000, 2000, 2000, 10000, [1, 1, 1, 1])

  const STILL: Sup.Feedback := Sup.Feedback(1, [0, 0, 0, 0], 0, true, true, true)
  const FORWARD: Sup.Message := Sup.Message(Sup.VelocityOp, 1, 1, 52, [10, 0, 0, 0])

  function Rested(): Sup.Supervisor {
    Sup.Configured(SUPERVISOR).(feedback := STILL, haveFeedback := true)
  }

  function Armed(): Sup.Supervisor {
    Rested().(session := 1, state := Sup.Ready)
  }

  function Commanded(): Sup.Supervisor {
    Armed().(target := [10, 0, 0, 0], sequence := 1, haveSequence := true, commandMs := 3, commandValidForMs := 49,
             state := Sup.Active)
  }

  lemma FeedbackIsTaken()
    ensures Sup.Observed(Sup.Configured(SUPERVISOR), STILL, 1) == (Rested(), true)
  {
  }

  lemma SessionIsArmed()
    ensures Sup.Armed(Rested(), 1, 2) == (Armed(), true)
  {
  }

  lemma VelocityIsAccepted()
    ensures Sup.Applied(Armed(), FORWARD, 3) == (Commanded(), true)
  {
    assert Sup.WithinMaximum(FORWARD.velocity, SUPERVISOR.maxVelocity);
  }

  lemma CommandIsWatched()
    ensures Sup.Watched(Commanded(), 10) == Commanded()
  {
  }

  function Driving(): Output {
    Fresh(Commanded(), OUTPUT, 0)
  }

  lemma {:induction false} NothingExpires(o: Output, i: nat, us: u32)
    requires i <= 5 && forall k :: 0 <= k < 5 ==> !o.router.jobs[k].pending
    ensures ExpireFrom(o, i, us) == o
    decreases 5 - i
  {
    if i < 5 { NothingExpires(o, i + 1, us); }
  }

  lemma ScheduleIsOpen()
    ensures var (s, w) := Plan.PollSchedule(Realigned(Driving().schedule, 10000, 0), 10000);
            w.availableUs == 9000 && w.due == [true, true, true] && !w.stopRequired
  {
    var r := Realigned(Driving().schedule, 10000, 0);
    assert r == Driving().schedule;
    var a := Plan.Advanced(r, 10000);
    assert a.phaseUs == 10000 && a.dueIn == [0, 0, 0];
    assert Plan.DueNow(a) == [true, true, true];
  }

  function WheelSpeeds(): seq<int> {
    [10, 0, 0]
  }

  lemma CommandAllowsTenMs(o: Output)
    requires o.supervisor == Commanded() && o.config == OUTPUT
    ensures Lifetime(o, false, 10) == Some(10000)
    ensures MotorSpeeds(o, false) == [10, 0, 0, 0]
  {
    hide Sup.Configured;
  }

  lemma WheelFrameFits()
    ensures |SpeedFrame(WHEEL_IDS, WheelSpeeds())| == 17 && SpeedFrame(WHEEL_IDS, WheelSpeeds()) != ZeroFrame(WHEEL_IDS)
  {
    hide SpeedFrame, ZeroFrame;
    ZeroFrameMeansRest(WHEEL_IDS, WheelSpeeds());
    assert WheelSpeeds()[0] == 10;
    FrameLength(WHEEL_IDS, WheelSpeeds());
  }

  lemma FrameLength(ids: seq<u8>, v: seq<int>)
    requires |ids| == |v| <= 6 && SpeedsFit(v)
    ensures |SpeedFrame(ids, v)| == 8 + 3 * |ids|
  {
    hide SyncWrite;
  }

  predicate Open(o: Output) {
    && o.supervisor == Commanded() && o.config == OUTPUT && o.lift.None?
    && !o.router.bus.active && !o.router.bus.faulted && !o.router.bus.stopPending && !o.router.inhibited
    && o.router.bus.token == 0 && o.router.cursor == 0
    && !o.router.jobs[STOP].pending && !o.router.jobs[ARM].pending
  }

  /** The wheels' packet is waiting, and nothing stands in its way. */
  predicate Queued(o: Output) {
    Open(o) && o.router.jobs[WHEELS] == Job(true, SpeedFrame(WHEEL_IDS, WheelSpeeds()), 20000, 2000)
  }

  /** One group's speeds go into its slot. */
  lemma GroupIsQueued(o: Output, i: nat, v: seq<int>, lifetime: u32, us: u32)
    requires Open(o) && i < 2 && |v| == 4 && SpeedsFit(GroupOf(v, i)) && lifetime == us == 10000
    ensures var s := SubmitGroup(o, i, v, lifetime, us);
            && s == Go(o.(router := s.o.router)) && Open(s.o)
            && s.o.router.jobs == o.router.jobs[GroupKind(i) := Job(true, SpeedFrame(GroupIds(i), GroupOf(v, i)), 20000, 2000)]
  {
    hide SpeedFrame, Commanded, SpeedsFit;
    FrameLength(GroupIds(i), GroupOf(v, i));
  }

  /** Both groups are queued; the wheels carry the command. */
  lemma GroupsAreQueued(o: Output, due: Plan.DueBits, v: seq<int>, lifetime: u32, us: u32)
    requires Open(o) && lifetime == us == 10000 && v == [10, 0, 0, 0] && due == [true, true, true]
    ensures Queued(SubmitFrom(o, 0, due, v, lifetime, us))
  {
    hide SpeedFrame, Open, SubmitGroup;
    assert GroupOf(v, 0) == WheelSpeeds() && GroupOf(v, 1) == [0];
    GroupIsQueued(o, 0, v, lifetime, us);
    var wheels := SubmitGroup(o, 0, v, lifetime, us).o;
    GroupIsQueued(wheels, 1, v, lifetime, us);
    var lift := SubmitGroup(wheels, 1, v, lifetime, us).o;
    assert SubmitFrom(lift, 2, due, v, lifetime, us) == lift;
    assert SubmitFrom(wheels, 1, due, v, lifetime, us) == lift;
  }

  predicate Started(o: Output) {
    o == Driving()
  }

  lemma PollQueuesWheels(o: Output, us: u32, ms: u32, epoch: u32)
    requires o.schedule.config.armPeriodUs > 0 && Started(o) && us == 10000 && ms == 10 && epoch == 0
    ensures var p := PollOutput(o, us, ms, epoch);
            Queued(p)
  {
    hide SubmitFrom, Lifetime, MotorSpeeds, Sup.Watched, Plan.PollSchedule, Realigned, ExpireFrom, SpeedFrame;
    CommandIsWatched();
    NothingExpires(o, 0, 10000);
    assert Checked(o, 10000, 10) == o;
    ScheduleIsOpen();
    var (s, w) := Scheduling(o, 10000, 0);
    assert s == o.(schedule := s.schedule);
    assert Guarded(s) == s;
    var m := s.(availableUs := 9000, feedbackDue := true);
    assert Leased(m, 10000, 10) == Go(m);
    CommandAllowsTenMs(m);
    GroupsAreQueued(m, [true, true, true], [10, 0, 0, 0], 10000, 10000);
  }

  lemma WheelsAreSent(r: RouterState, o: Output)
    requires Open(o) && r == o.router && r.jobs[WHEELS] == Job(true, SpeedFrame(WHEEL_IDS, WheelSpeeds()), 20000, 2000)
    ensures var (n, d) := Next(r, 10000, 9000);
            && d.Dispatch? && n.bus.active && !n.bus.faulted && n.bus.owner == WHEELS && n.bus.token == 1
            && n.bus.startedUs == 10000 && n.bus.budgetUs == 2000 && n.activeBytes == SpeedFrame(WHEEL_IDS, WheelSpeeds())
  {
    hide SpeedFrame, Commanded;
    assert SlotIndex(0, 0) == STOP && SlotIndex(0, 1) == ARM && SlotIndex(0, 2) == WHEELS;
    var p := r.(bus := Polled(r.bus, 10000));
    assert p == r;
    assert NextFrom(r, 0, 10000, 9000) == NextFrom(r, 1, 10000, 9000);
    assert NextFrom(r, 1, 10000, 9000) == NextFrom(r, 2, 10000, 9000);
  }

  const DRIVE: seq<Happening> := [
    Happening(1000, Feed(STILL)), Happening(2000, ArmHost(1)), Happening(3000, Host(FORWARD)),
    Happening(10000, Poll(0)), Happening(10000, Take(9000))]

  lemma LiveAppends(x: Timeline, hs: seq<Happening>, h: Happening)
    requires WellConfigured(x.output)
    ensures Live(x, 0, hs + [h]) == Advance(Live(x, 0, hs), h.t, 0, h.event)
    ensures RegularRun(x, 0, 0, hs + [h]) <==>
              RegularRun(x, 0, 0, hs) && Regular(Live(x, 0, hs), LastTime(0, hs), h.t, 0, h.event)
  {
    hide Advance, Regular, WellConfigured;
    assert (hs + [h])[..|hs|] == hs;
  }

  /** An act on the supervisor alone. */
  lemma SupervisorAct(x: Timeline, t: int, e: Event, n: Sup.Supervisor)
    requires WellConfigured(x.output) && (e.Feed? || e.ArmHost? || e.Host?) && x.lastPoll == 0 && 0 <= t <= 0x4000_0000
    requires SupervisorStep(x.output.supervisor, Wrap(Ms(t, 0)), e) == n
    ensures var y := Advance(x, t, 0, e);
            && y.output == x.output.(supervisor := n) && y.lastPoll == 0 && WellConfigured(y.output)
    ensures forall now :: now <= t ==> Regular(x, now, t, 0, e)
  {
    hide SupervisorStep, ValidConfig;
  }

  lemma PollAct(x: Timeline, t: int)
    requires WellConfigured(x.output) && x.lastPoll == 0 && 3000 <= t <= 0x4000_0000 && !LiftActive(x.output)
    requires Queued(PollOutput(x.output, Wrap(t), Wrap(Ms(t, 0)), 0))
    ensures var y := Advance(x, t, 0, Poll(0)); Queued(y.output) && y.lastPoll == t && WellConfigured(y.output)
    ensures Regular(x, 3000, t, 0, Poll(0))
  {
    hide PollOutput, Step, ValidConfig, WellConfigured, Advance, Queued, LiftActive, NextTag;
    PollHistory(x, t, 0, 0);
  }

  lemma TakeAct(x: Timeline, t: int, available: u32)
    requires WellConfigured(x.output) && x.lastPoll == t
    ensures var y := Advance(x, t, 0, Take(available));
            y.output.router == Next(x.output.router, Wrap(t), available).0 && y.lastPoll == t
    ensures Regular(x, t, t, 0, Take(available))
  {
    hide Next, ValidConfig;
  }

  lemma WheelsFinish(r: RouterState, o: Output, t: int)
    requires Queued(o) && r == Next(o.router, 10000, 9000).0 && t == 11000
    ensures Finished(r, 1, Wrap(t), true).1 && r.bus.owner == WHEELS && r.activeBytes == SpeedFrame(WHEEL_IDS, WheelSpeeds())
  {
    WheelsAreSent(o.router, o);
    hide SpeedFrame, Next;
  }

  lemma StartsIdle(o: Output)
    requires Started(o)
    ensures !LiftActive(o) && o.schedule.config.armPeriodUs > 0
  {
  }

  lemma BeginsConfigured()
    ensures var s := Sup.Configured(SUPERVISOR);
            MayBegin(s, OUTPUT, None) && WellConfigured(Begin(s, OUTPUT, None, 0).output)
    ensures Begin(Sup.Configured(SUPERVISOR), OUTPUT, None, 0).output.(supervisor := Commanded()) == Driving()
  {
    assert Plan.ValidConfig(OUTPUT.schedule);
  }

  /** The run meets the deadline theorem's hypotheses, and its packet is a nonzero wheel
      packet whose completion is accepted. */
  lemma WheelsDoMove()
    ensures var (s, x) := (Sup.Configured(SUPERVISOR), Begin(Sup.Configured(SUPERVISOR), OUTPUT, None, 0));
            && MayBegin(s, OUTPUT, None) && WellConfigured(x.output) && RegularRun(x, 0, 0, DRIVE)
            && Regular(Live(x, 0, DRIVE), LastTime(0, DRIVE), 11000, 0, Finish(1, true))
            && var r := Live(x, 0, DRIVE).output.router;
            && Finished(r, 1, 11000, true).1 && r.bus.owner == WHEELS && r.activeBytes != ZeroFrame(WHEEL_IDS)
  {
    hide Sup.Observed, Sup.Armed, Sup.Applied, SpeedFrame, ZeroFrame, Sup.Configured, Rested, Armed, Commanded, Driving,
         Advance, Live, RegularRun, LastTime, MayBegin, WellConfigured, Queued, Finished, PollOutput, LiftActive, Next;
    var x0 := Begin(Sup.Configured(SUPERVISOR), OUTPUT, None, 0);
    BeginsConfigured();
    FeedbackIsTaken();
    SessionIsArmed();
    VelocityIsAccepted();
    WheelFrameFits();
    SupervisorAct(x0, 1000, Feed(STILL), Rested());
    var x1 := Advance(x0, 1000, 0, Feed(STILL));
    SupervisorAct(x1, 2000, ArmHost(1), Armed());
    var x2 := Advance(x1, 2000, 0, ArmHost(1));
    SupervisorAct(x2, 3000, Host(FORWARD), Commanded());
    var x3 := Advance(x2, 3000, 0, Host(FORWARD));
    StartsIdle(x3.output);
    PollQueuesWheels(x3.output, 10000, 10, 0);
    PollAct(x3, 10000);
    var x4 := Advance(x3, 10000, 0, Poll(0));
    TakeAct(x4, 10000, 9000);
    var x5 := Advance(x4, 10000, 0, Take(9000));
    WheelsFinish(x5.output.router, x4.output, 11000);
    Unrolled(x0, x1, x2, x3, x4, x5);
  }

  /** The five acts of the run, one after the other. */
  lemma Unrolled(x0: Timeline, x1: Timeline, x2: Timeline, x3: Timeline, x4: Timeline, x5: Timeline)
    requires WellConfigured(x0.output) && WellConfigured(x1.output) && WellConfigured(x2.output)
    requires WellConfigured(x3.output) && WellConfigured(x4.output)
    requires x1 == Advance(x0, 1000, 0, Feed(STILL)) && x2 == Advance(x1, 2000, 0, ArmHost(1))
    requires x3 == Advance(x2, 3000, 0, Host(FORWARD)) && x4 == Advance(x3, 10000, 0, Poll(0))
    requires x5 == Advance(x4, 10000, 0, Take(9000))
    requires Regular(x0, 0, 1000, 0, Feed(STILL)) && Regular(x1, 1000, 2000, 0, ArmHost(1))
    requires Regular(x2, 2000, 3000, 0, Host(FORWARD)) && Regular(x3, 3000, 10000, 0, Poll(0))
    requires Regular(x4, 10000, 10000, 0, Take(9000))
    ensures Live(x0, 0, DRIVE) == x5 && RegularRun(x0, 0, 0, DRIVE) && LastTime(0, DRIVE) == 10000
  {
    hide Advance, Regular, WellConfigured;
    var h1 := [Happening(1000, Feed(STILL))];
    var h2 := h1 + [Happening(2000, ArmHost(1))];
    var h3 := h2 + [Happening(3000, Host(FORWARD))];
    var h4 := h3 + [Happening(10000, Poll(0))];
    assert [] + h1 == h1 && DRIVE == h4 + [Happening(10000, Take(9000))];
    LiveAppends(x0, [], h1[0]);
    LiveAppends(x0, h1, Happening(2000, ArmHost(1)));
    LiveAppends(x0, h2, Happening(3000, Host(FORWARD)));
    LiveAppends(x0, h3, Happening(10000, Poll(0)));
    LiveAppends(x0, h4, Happening(10000, Take(9000)));
  }
}

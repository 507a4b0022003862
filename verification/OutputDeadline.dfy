// Deadlines across the whole output: every wheel or lift packet that carries a nonzero
// speed ends on the bus before the host command or lift lease it was queued under expires.
// Both clocks read one time source: at true microsecond t they read t and (t + skew)/1000,
// each modulo 2^32.
module OutputDeadline {
  import opened Words
  import opened Optional
  import opened SharedBus
  import opened BusRouter
  import opened MobileOutput
  import opened MotorPackets
  import opened OutputRuns
  import opened OutputCalm
  import opened OutputLatch
  import Plan = BusSchedule
  import Sup = MobileSupervisor
  import Lifts = LiftController
  import opened LiftEndpoint

  /** Where permission to move came from: an accepted host velocity message, or an accepted
      lift request, at a true millisecond. */
  datatype Origin =
    | NoOrigin
    | Velocity(atMs: int, message: Sup.Message)
    | Lease(atMs: int, request: Request)

  /** The true millisecond at which the permission ends. */
  function Until(o: Origin): int {
    match o
    case NoOrigin => 0
    case Velocity(at, m) => at + Sub(m.validUntilMs, Wrap(at))
    case Lease(at, r) => at + Sub(r.deadlineMs, Wrap(at))
  }

  /** True deadline of a queued packet, the permission it was queued under, and under a
      lease the lift's command at that time. */
  datatype Tag = Tag(deadline: int, origin: Origin, speed: int)

  /** The output with the history its 32-bit clocks cannot show. */
  datatype Timeline = Timeline(
    output: Output, lastPoll: int, command: Origin, lease: Origin, wheels: Tag, lift: Tag, sending: Tag, sentAt: int)

  function Ms(t: int, skew: int): int {
    (t + skew) / 1000
  }

  function ActAt(t: int, skew: int, e: Event): Act {
    Act(Wrap(t), Wrap(Ms(t, skew)), e)
  }

  /** A poll leaves a motion job alone, withdraws it, or queues a fresh one. */
  function NextTag(tag: Tag, before: Job, after: Job, t: int, origin: Origin, speed: int): Tag {
    if after == before then tag else Tag(t + Sub(after.deadlineUs, Wrap(t)), origin, speed)
  }

  /** The polled lift controller's command, while its lease runs. */
  function LeasedSpeed(o: Output): int {
    if LiftActive(o) then o.lift.value.lift.command else 0
  }

  predicate AcceptsVelocity(o: Output, ms: u32, e: Event) {
    e.Host? && e.message.opcode == Sup.VelocityOp && Sup.Applied(o.supervisor, e.message, ms).1
  }

  predicate AcceptsLease(o: Output, ms: u32, e: Event) {
    e.LiftRequest? && e.request.op != StatusOp && o.lift.Some? && Exchanged(o.lift.value, e.request, ms).1
  }

  function Advance(x: Timeline, t: int, skew: int, e: Event): Timeline
    requires WellConfigured(x.output)
  {
    var a := ActAt(t, skew, e);
    var next := x.(output := Step(x.output, a));
    match e
    case Host(m) => if AcceptsVelocity(x.output, a.ms, e) then next.(command := Velocity(Ms(t, skew), m)) else next
    case LiftRequest(r) => if AcceptsLease(x.output, a.ms, e) then next.(lease := Lease(Ms(t, skew), r)) else next
    case Take(_) =>
      var d := Sent(x.output, a);
      if d.NoDispatch? then next
      else next.(sentAt := t, sending := if d.kind == WHEELS then x.wheels else if d.kind == LIFT then x.lift else x.sending)
    case Poll(_) =>
      next.(lastPoll := t,
            wheels := NextTag(x.wheels, x.output.router.jobs[WHEELS], next.output.router.jobs[WHEELS], t, x.command, 0),
            lift := NextTag(x.lift, x.output.router.jobs[LIFT], next.output.router.jobs[LIFT], t,
                            if LiftActive(next.output) then x.lease else x.command, LeasedSpeed(next.output)))
    case _ => next
  }

  // ---- what is kept ---------------------------------------------------------

  /** The packet that carries a velocity message's speeds to one motor group. */
  function CommandFrame(c: OutputConfig, i: nat, m: Sup.Message): seq<u8>
    requires i < 2
  {
    var v := GroupOf(seq(4, k requires 0 <= k < 4 => m.velocity[k] * c.direction[k]), i);
    if SpeedsFit(v) then SpeedFrame(GroupIds(i), v) else []
  }

  /** The packet that carries the lift controller's own command to the lift motor. */
  function LeaseFrame(c: OutputConfig, command: int): seq<u8> {
    if SpeedsFit([command * c.direction[3]]) then SpeedFrame(LIFT_IDS, [command * c.direction[3]]) else []
  }

  /** A packet with a nonzero speed is backed: its deadline lies before the permission ends;
      under a velocity message it carries exactly that message's speeds, and under a lease,
      which moves the lift alone, exactly the lift controller's command. */
  predicate Backed(c: OutputConfig, i: nat, bytes: seq<u8>, tag: Tag, skew: int)
    requires i < 2
  {
    bytes != ZeroFrame(GroupIds(i)) ==>
      && !tag.origin.NoOrigin? && tag.deadline + skew < 1000 * Until(tag.origin)
      && (tag.origin.Velocity? ==> bytes == CommandFrame(c, i, tag.origin.message))
      && (tag.origin.Lease? ==> i == 1 && bytes == LeaseFrame(c, tag.speed))
  }

  predicate QueueTimely(x: Timeline, i: nat, tag: Tag, skew: int)
    requires i < 2
  {
    var job := x.output.router.jobs[GroupKind(i)];
    job.pending ==>
      && 0 < job.budgetUs <= 1000000 && job.deadlineUs == Wrap(tag.deadline)
      && x.lastPoll + job.budgetUs < tag.deadline <= x.lastPoll + 1000000
      && Backed(x.output.config, i, job.bytes, tag, skew)
  }

  predicate SendTimely(x: Timeline, skew: int) {
    var b := x.output.router.bus;
    b.active && !b.faulted && (b.owner == WHEELS || b.owner == LIFT) ==>
      && 0 < b.budgetUs <= 1000000 && b.startedUs == Wrap(x.sentAt)
      && x.sentAt + b.budgetUs < x.sending.deadline && x.lastPoll - x.sentAt < b.budgetUs
      && Backed(x.output.config, if b.owner == WHEELS then 0 else 1, x.output.router.activeBytes, x.sending, skew)
  }

  predicate CommandTimely(x: Timeline, skew: int) {
    var s := x.output.supervisor;
    && Sup.Safe(s, s.config)
    && (s.state == Sup.Active ==>
          && x.command.Velocity? && s.commandMs == Wrap(x.command.atMs) && s.target == x.command.message.velocity
          && s.commandValidForMs == Sub(x.command.message.validUntilMs, Wrap(x.command.atMs))
          && Ms(x.lastPoll, skew) - x.command.atMs < s.commandValidForMs)
  }

  predicate LeaseTimely(x: Timeline) {
    var l := x.output.lift;
    l.Some? ==>
      && l.value.leaseMaxMs <= 1000
      && (l.value.active ==> x.lease.Lease? && l.value.validUntilMs == x.lease.request.deadlineMs
                             && Until(x.lease) <= x.lease.atMs + 1000)
  }

  predicate InPast(x: Timeline, now: int, skew: int) {
    && x.lastPoll <= now && x.sentAt <= now
    && (x.command.Velocity? ==> x.command.atMs <= Ms(now, skew))
    && (x.lease.Lease? ==> x.lease.atMs <= Ms(now, skew))
  }

  predicate Timely(x: Timeline, now: int, skew: int) {
    && WellConfigured(x.output) && InPast(x, now, skew) && CommandTimely(x, skew) && LeaseTimely(x)
    && QueueTimely(x, 0, x.wheels, skew) && QueueTimely(x, 1, x.lift, skew) && SendTimely(x, skew)
  }

  /** What a run is assumed to keep: time moves forward, a poll comes at least every 2^30
      microseconds, only the output queues wheel and lift work, a lift that is bound leases
      for at most a second, and no running lease is left unexamined for 2^31 milliseconds
      past its end. */
  predicate Regular(x: Timeline, now: int, t: int, skew: int, e: Event) {
    && now <= t <= x.lastPoll + 0x4000_0000
    && (e.Submit? ==> e.kind != WHEELS && e.kind != LIFT)
    && (e.BindLift? ==> e.endpoint.leaseMaxMs <= 1000)
    && (e.Poll? && LiftActive(x.output) ==> Ms(t, skew) < Until(x.lease) + HALF)
  }

  // ---- acts other than a poll -----------------------------------------------

  lemma SupervisorStepKeepsTimely(x: Timeline, now: int, t: int, skew: int, e: Event)
    requires Timely(x, now, skew) && Regular(x, now, t, skew, e) && (e.Host? || e.Feed? || e.ArmHost?)
    ensures Timely(Advance(x, t, skew, e), t, skew)
  {
    hide QueueTimely, SendTimely, LeaseTimely, Sup.Safe, Sup.Applied, Sup.Observed, Sup.Armed, ValidConfig, AcceptsLease;
    var ms := Wrap(Ms(t, skew));
    var s := x.output.supervisor;
    var y := Advance(x, t, skew, e);
    SameQueues(x, y, skew);
    match e {
      case Host(m) =>
        Sup.MessageKeepsSafe(s, m, ms);
        if AcceptsVelocity(x.output, ms, e) {
          VelocityIsTaken(s, m, ms);
        } else {
          MessageCarries(s, m, ms);
        }
      case Feed(f) =>
        Sup.FeedKeepsSafe(s, f, ms);
        FeedCarries(s, f, ms);
      case ArmHost(session) =>
        Sup.ArmKeepsSafe(s, session, ms);
        ArmCarries(s, session, ms);
    }
  }

  /** Queue, bus and lease facts depend only on what they mention. */
  lemma SameQueues(x: Timeline, y: Timeline, skew: int)
    requires y.output.router == x.output.router && y.output.config == x.output.config && y.lastPoll == x.lastPoll
    requires y.wheels == x.wheels && y.lift == x.lift && y.sending == x.sending && y.sentAt == x.sentAt
    ensures QueueTimely(x, 0, x.wheels, skew) ==> QueueTimely(y, 0, y.wheels, skew)
    ensures QueueTimely(x, 1, x.lift, skew) ==> QueueTimely(y, 1, y.lift, skew)
    ensures SendTimely(x, skew) ==> SendTimely(y, skew)
    ensures y.output.lift == x.output.lift && y.lease == x.lease && LeaseTimely(x) ==> LeaseTimely(y)
  {
    hide Backed;
  }

  lemma LiftStepKeepsTimely(x: Timeline, now: int, t: int, skew: int, e: Event)
    requires Timely(x, now, skew) && Regular(x, now, t, skew, e)
    requires e.LiftRequest? || e.LiftSample? || e.LiftTick? || e.SetInterlock?
    ensures Timely(Advance(x, t, skew, e), t, skew)
  {
    hide QueueTimely, SendTimely, CommandTimely, Exchanged, PolledEndpoint, Lifts.ObserveLift, ValidConfig;
    var ms := Wrap(Ms(t, skew));
    var y := Advance(x, t, skew, e);
    SameQueues(x, y, skew);
    SameCommand(x, y, skew);
    if x.output.lift.Some? {
      var l := x.output.lift.value;
      match e {
        case LiftRequest(r) =>
          if AcceptsLease(x.output, ms, e) {
            AcceptedRequestLeases(l, r, ms);
          } else {
            RefusedRequestCarries(l, r, ms);
          }
        case LiftTick => LiftPollCarries(l, ms);
        case _ =>
      }
    }
  }

  /** A lift is bound without a lease. */
  lemma BindKeepsTimely(x: Timeline, now: int, t: int, skew: int, endpoint: LiftEndpointState)
    requires Timely(x, now, skew) && Regular(x, now, t, skew, BindLift(endpoint))
    ensures Timely(Advance(x, t, skew, BindLift(endpoint)), t, skew)
  {
    hide QueueTimely, SendTimely, CommandTimely, ValidConfig;
    var y := Advance(x, t, skew, BindLift(endpoint));
    SameQueues(x, y, skew);
    SameCommand(x, y, skew);
  }

  lemma SameCommand(x: Timeline, y: Timeline, skew: int)
    requires y.output.supervisor == x.output.supervisor && y.lastPoll == x.lastPoll && y.command == x.command
    ensures CommandTimely(x, skew) ==> CommandTimely(y, skew)
  {
    hide Sup.Safe;
  }

  lemma CalmerIsTimely(x: Timeline, y: Timeline, skew: int)
    requires y == x.(output := y.output) && y.output.config == x.output.config
    requires Calmer(x.output.router, y.output.router)
    ensures QueueTimely(x, 0, x.wheels, skew) ==> QueueTimely(y, 0, y.wheels, skew)
    ensures QueueTimely(x, 1, x.lift, skew) ==> QueueTimely(y, 1, y.lift, skew)
    ensures SendTimely(x, skew) ==> SendTimely(y, skew)
  {
    hide Backed;
  }

  lemma RouterStepKeepsTimely(x: Timeline, now: int, t: int, skew: int, e: Event)
    requires Timely(x, now, skew) && Regular(x, now, t, skew, e) && (e.Submit? || e.Finish? || e.Recover? || e.Silence?)
    ensures Timely(Advance(x, t, skew, e), t, skew)
  {
    hide QueueTimely, SendTimely, CommandTimely, LeaseTimely, Submitted, Finished, Recovered, ValidConfig, Calmer, Until;
    var y := Advance(x, t, skew, e);
    var r := x.output.router;
    SameCommand(x, y, skew);
    SameLease(x, y);
    match e {
      case Submit(kind, bytes, deadline, budget) => CalmerSubmit(r, kind, bytes, Wrap(t), deadline, budget);
      case Finish(token, ok) => CalmerFinish(r, token, Wrap(t), ok, false);
      case Recover(idle) => CalmerFinish(r, 0, Wrap(t), false, idle);
      case Silence => CalmerSilence(r);
    }
    CalmerIsTimely(x, y, skew);
  }

  lemma SameLease(x: Timeline, y: Timeline)
    requires y.output.lift == x.output.lift && y.lease == x.lease
    ensures LeaseTimely(x) ==> LeaseTimely(y)
  {
  }

  /** A packet leaves the router only while the whole budget still fits before its
      deadline; the jobs that stay keep theirs. */
  lemma TakeKeepsTimely(x: Timeline, now: int, t: int, skew: int, available: u32)
    requires Timely(x, now, skew) && Regular(x, now, t, skew, Take(available))
    ensures Timely(Advance(x, t, skew, Take(available)), t, skew)
  {
    hide CommandTimely, LeaseTimely, ValidConfig, NextFrom, Expired, Backed;
    var y := Advance(x, t, skew, Take(available));
    var r := x.output.router;
    SameCommand(x, y, skew);
    SameLease(x, y);
    var p := r.(bus := Polled(r.bus, Wrap(t)));
    if !p.bus.active && !p.bus.faulted {
      DispatchIsSound(p, 0, Wrap(t), available);
      var d := Next(r, Wrap(t), available).1;
      if d.Dispatch? && d.kind == WHEELS {
        NotExpired(r.jobs[WHEELS], x.wheels.deadline, x.lastPoll, t);
      } else if d.Dispatch? && d.kind == LIFT {
        NotExpired(r.jobs[LIFT], x.lift.deadline, x.lastPoll, t);
      }
    }
  }

  /** The expiry test on readings, in true time. */
  lemma NotExpired(job: Job, deadline: int, lastPoll: int, t: int)
    requires job.deadlineUs == Wrap(deadline) && !Expired(job, Wrap(t))
    requires lastPoll <= t <= lastPoll + 0x4000_0000 && lastPoll < deadline <= lastPoll + 1000000
    ensures t + job.budgetUs < deadline
  {
    SubWrap(deadline, t);
  }

  // ---- poll -----------------------------------------------------------------

  lemma PolledCommand(x: Timeline, now: int, t: int, skew: int, epoch: u32)
    requires Timely(x, now, skew) && Regular(x, now, t, skew, Poll(epoch))
    requires var (s, p) := (x.output.supervisor, Advance(x, t, skew, Poll(epoch)).output.supervisor);
             var w := Sup.Watched(s, Wrap(Ms(t, skew)));
             p == w || p == Sup.Halted(w) || p == Sup.Halted(Sup.Halted(w))
    ensures CommandTimely(Advance(x, t, skew, Poll(epoch)), skew)
  {
    hide Sup.Safe, PollOutput, QueueTimely, SendTimely, LeaseTimely, ValidConfig, WellConfigured;
    var s, p := x.output.supervisor, Advance(x, t, skew, Poll(epoch)).output.supervisor;
    var ms := Ms(t, skew);
    var w := Sup.Watched(s, Wrap(ms));
    Sup.WatchIsSafe(s, Wrap(ms));
    SafeConfig(w, s.config);
    Sup.HaltKeepsSafe(w);
    Sup.HaltKeepsSafe(Sup.Halted(w));
    if p.state == Sup.Active {
      ActiveIsUnexpired(s, Wrap(ms));
      SafeTimeout(s);
      SubWrap(ms, x.command.atMs);
    }
  }

  lemma SafeConfig(s: Sup.Supervisor, c: Sup.MobileConfig)
    requires Sup.Safe(s, c)
    ensures s.config == c && Sup.Safe(s, s.config)
  {
  }

  lemma SafeTimeout(s: Sup.Supervisor)
    requires Sup.Safe(s, s.config) && s.state == Sup.Active
    ensures s.commandValidForMs < HALF
  {
  }

  /** With this much of a permission left, and a millisecond for the phase between the
      clocks, the packet's deadline precedes the end of the permission. */
  lemma CappedBeforeEnd(t: int, skew: int, until: int, lifetime: int)
    requires lifetime <= (until - Ms(t, skew) - 1) * 1000
    ensures t + lifetime + skew < 1000 * until
  {
  }

  /** The tag of a job queued by a poll. */
  function FreshTag(y: Timeline, i: nat, deadline: int): Tag {
    if i == 1 then Tag(deadline, if LiftActive(y.output) then y.lease else y.command, LeasedSpeed(y.output))
    else Tag(deadline, y.command, 0)
  }

  /** What a poll queues is backed by the permission it looked at. */
  lemma FreshIsBacked(y: Timeline, i: nat, t: int, skew: int)
    requires i < 2 && CommandTimely(y, skew) && LeaseTimely(y) && InPast(y, t, skew) && y.lastPoll == t
    requires LiftActive(y.output) ==> Ms(t, skew) < Until(y.lease) + HALF
    requires MovesNow(y.output, i, Wrap(t), Wrap(Ms(t, skew)))
    ensures var life := Lifetime(y.output, LiftActive(y.output), Wrap(Ms(t, skew))).value;
            Backed(y.output.config, i, y.output.router.jobs[GroupKind(i)].bytes,
                   FreshTag(y, i, t + life), skew)
  {
    hide Lifetime, SpeedFrame, Sup.Healthy;
    var p, active, ms := y.output, LiftActive(y.output), Ms(t, skew);
    var life := Lifetime(p, active, Wrap(ms)).value;
    LifetimeIsCapped(p, active, Wrap(ms));
    var v := MotorSpeeds(p, active);
    ZeroFrameMeansRest(GroupIds(i), GroupOf(v, i));
    if SpeedFrame(GroupIds(i), GroupOf(v, i)) != ZeroFrame(GroupIds(i)) {
      if active {
        LeaseBacks(y, t, skew);
        CappedBeforeEnd(t, skew, Until(y.lease), life);
      } else {
        MovingIsActive(y, i);
        CommandBacks(y, t, skew);
        CappedBeforeEnd(t, skew, Until(y.command), life);
      }
    }
  }

  /** Without a lease, nonzero speeds mean an active command, and are its speeds. */
  lemma MovingIsActive(y: Timeline, i: nat)
    requires i < 2 && Sup.TargetSafe(y.output.supervisor) && !AllZero(GroupOf(MotorSpeeds(y.output, false), i))
    ensures y.output.supervisor.state == Sup.Active
  {
    var s := y.output.supervisor;
    if s.state != Sup.Active {
      assert s.target == Sup.AT_REST;
      assert forall k :: 0 <= k < 4 ==> MotorSpeeds(y.output, false)[k] == 0;
    }
  }

  lemma LeaseBacks(y: Timeline, t: int, skew: int)
    requires LeaseTimely(y) && InPast(y, t, skew) && LiftActive(y.output) && Ms(t, skew) < Until(y.lease) + HALF
    requires LeaseRunning(y.output.lift.value, Wrap(Ms(t, skew)))
    ensures LeaseRemaining(y.output, Wrap(Ms(t, skew))) == Until(y.lease) - Ms(t, skew)
  {
    var at := y.lease.atMs;
    var r := y.lease.request;
    assert Wrap(Until(y.lease)) == r.deadlineMs by { UntilWraps(at, r.deadlineMs); }
    SubWrap(Until(y.lease), Ms(t, skew));
  }

  lemma UntilWraps(at: int, word: u32)
    ensures Wrap(at + Sub(word, Wrap(at))) == word
  {
  }

  lemma CommandBacks(y: Timeline, t: int, skew: int)
    requires CommandTimely(y, skew) && InPast(y, t, skew) && y.lastPoll == t && y.output.supervisor.state == Sup.Active
    ensures CommandRemaining(y.output, Wrap(Ms(t, skew))) == Until(y.command) - Ms(t, skew)
  {
    hide Sup.Safe;
    SubWrap(Ms(t, skew), y.command.atMs);
  }

  /** A job this poll queued, under the tag it gets. */
  lemma MovedIsTimely(y: Timeline, i: nat, t: int, skew: int)
    requires i < 2 && WellConfigured(y.output) && y.lastPoll == t
    requires CommandTimely(y, skew) && LeaseTimely(y) && InPast(y, t, skew)
    requires LiftActive(y.output) ==> Ms(t, skew) < Until(y.lease) + HALF
    requires MovesNow(y.output, i, Wrap(t), Wrap(Ms(t, skew)))
    ensures var job := y.output.router.jobs[GroupKind(i)];
            QueueTimely(y, i, FreshTag(y, i, t + Sub(job.deadlineUs, Wrap(t))), skew)
  {
    hide CommandTimely, LeaseTimely, Lifetime, SpeedFrame, LeaseRunning, MotorSpeeds, Backed, Until, InPast;
    var life := Lifetime(y.output, LiftActive(y.output), Wrap(Ms(t, skew))).value;
    LifetimeIsCapped(y.output, LiftActive(y.output), Wrap(Ms(t, skew)));
    FreshIsBacked(y, i, t, skew);
    AddWrap(t, life);
    SubWrap(t + life, t);
  }

  /** Two tags of one job: the same deadline word within the horizon is the same deadline. */
  lemma TagIsDetermined(job: Job, a: Tag, b: Tag, t: int, lastPoll: int)
    requires job.deadlineUs == Wrap(a.deadline) && job.deadlineUs == Wrap(b.deadline)
    requires lastPoll <= t <= lastPoll + 0x4000_0000
    requires lastPoll < a.deadline <= lastPoll + 1000000 && t < b.deadline <= t + 1000000
    ensures a.deadline == b.deadline
  {
  }

  lemma QueuedIsTimely(x: Timeline, y: Timeline, i: nat, tag: Tag, t: int, skew: int)
    requires i < 2 && WellConfigured(y.output) && y.output.config == x.output.config && y.lastPoll == t
    requires QueueTimely(x, i, tag, skew) && x.lastPoll <= t <= x.lastPoll + 0x4000_0000
    requires CommandTimely(y, skew) && LeaseTimely(y) && InPast(y, t, skew)
    requires LiftActive(y.output) ==> Ms(t, skew) < Until(y.lease) + HALF
    requires JobAfterPoll(x.output, y.output, i, Wrap(t), Wrap(Ms(t, skew)))
    ensures var made := FreshTag(y, i, 0);
            QueueTimely(y, i, NextTag(tag, x.output.router.jobs[GroupKind(i)], y.output.router.jobs[GroupKind(i)], t,
                                      made.origin, made.speed), skew)
  {
    hide CommandTimely, LeaseTimely, Expired, Backed, MovesNow, InPast, Until, Ms, LiftActive, WellConfigured;
    var before, after := x.output.router.jobs[GroupKind(i)], y.output.router.jobs[GroupKind(i)];
    if after.pending {
      if after == before && !Expired(before, Wrap(t)) {
        NotExpired(before, tag.deadline, x.lastPoll, t);
      } else {
        MovedIsTimely(y, i, t, skew);
        var made := FreshTag(y, i, t + Sub(after.deadlineUs, Wrap(t)));
        if after == before { TagIsDetermined(after, tag, made, t, x.lastPoll); }
      }
    }
  }

  lemma PolledBus(x: Timeline, y: Timeline, t: int, skew: int)
    requires SendTimely(x, skew) && x.lastPoll <= t <= x.lastPoll + 0x4000_0000 && x.sentAt <= t && y.lastPoll == t
    requires BusCalmer(x.output.router, y.output.router) && y.output.config == x.output.config
    requires y.sentAt == x.sentAt && y.sending == x.sending
    requires var b := y.output.router.bus; b.active && !b.faulted ==> Sub(Wrap(t), b.startedUs) < b.budgetUs
    ensures SendTimely(y, skew)
  {
    hide Backed;
    SubWrap(t, x.sentAt);
  }

  /** The history after a poll, spelled out. */
  lemma PollHistory(x: Timeline, t: int, skew: int, epoch: u32)
    requires WellConfigured(x.output)
    ensures var y := Advance(x, t, skew, Poll(epoch));
            && WellConfigured(y.output) && y.output.config == x.output.config
            && y.output == PollOutput(x.output, Wrap(t), Wrap(Ms(t, skew)), epoch) && y.lastPoll == t
            && y.command == x.command && y.lease == x.lease && y.sending == x.sending && y.sentAt == x.sentAt
            && y.wheels == NextTag(x.wheels, x.output.router.jobs[WHEELS], y.output.router.jobs[WHEELS], t, x.command, 0)
            && y.lift == NextTag(x.lift, x.output.router.jobs[LIFT], y.output.router.jobs[LIFT], t,
                                 if LiftActive(y.output) then x.lease else x.command, LeasedSpeed(y.output))
  {
    StepKeepsConfig(x.output, ActAt(t, skew, Poll(epoch)));
    hide PollOutput, WellConfigured, LiftActive;
  }

  lemma LeaseStaysTimely(x: Timeline, y: Timeline)
    requires LeaseTimely(x) && LiftCarried(x.output.lift, y.output.lift) && y.lease == x.lease
    ensures LeaseTimely(y) && (LiftActive(y.output) ==> LiftActive(x.output))
  {
    hide Until;
  }

  lemma PastMoves(x: Timeline, y: Timeline, now: int, t: int, skew: int)
    requires InPast(x, now, skew) && now <= t && y.lastPoll == t
    requires y.sentAt == x.sentAt && y.command == x.command && y.lease == x.lease
    ensures InPast(y, t, skew)
  {
  }

  lemma PollKeepsTimely(x: Timeline, now: int, t: int, skew: int, epoch: u32)
    requires Timely(x, now, skew) && Regular(x, now, t, skew, Poll(epoch))
    ensures Timely(Advance(x, t, skew, Poll(epoch)), t, skew)
  {
    assert x.output.schedule.config.armPeriodUs > 0 && x.sentAt <= now;
    hide Step, PollOutput, QueueTimely, SendTimely, CommandTimely, JobAfterPoll, BusCalmer, WellConfigured, Sup.Watched,
         Sup.Halted, Advance, NextTag, LeaseTimely, LiftCarried, InPast, LiftActive, Until, Ms;
    var y := Advance(x, t, skew, Poll(epoch));
    PollHistory(x, t, skew, epoch);
    PollEffects(x.output, Wrap(t), Wrap(Ms(t, skew)), epoch);
    LeaseStaysTimely(x, y);
    PastMoves(x, y, now, t, skew);
    PolledCommand(x, now, t, skew, epoch);
    PolledBus(x, y, t, skew);
    QueuedIsTimely(x, y, 0, x.wheels, t, skew);
    QueuedIsTimely(x, y, 1, x.lift, t, skew);
  }

  // ---- every act ------------------------------------------------------------

  lemma QuietActIsTimely(x: Timeline, y: Timeline, now: int, t: int, skew: int)
    requires Timely(x, now, skew) && now <= t && y == x.(output := y.output) && WellConfigured(y.output)
    requires y.output.config == x.output.config && Calmer(x.output.router, y.output.router)
    requires LiftCarried(x.output.lift, y.output.lift)
    requires Carried(x.output.supervisor, y.output.supervisor) && Sup.Safe(y.output.supervisor, y.output.supervisor.config)
    ensures Timely(y, t, skew)
  {
    hide QueueTimely, SendTimely, WellConfigured, Calmer, Sup.Safe;
    CalmerIsTimely(x, y, skew);
  }

  lemma StopKeepsTimely(x: Timeline, now: int, t: int, skew: int, fault: OutputFault)
    requires Timely(x, now, skew) && Regular(x, now, t, skew, Stop(fault))
    ensures Timely(Advance(x, t, skew, Stop(fault)), t, skew)
  {
    StoppedIsQuieter(x.output, fault);
    Sup.HaltKeepsSafe(x.output.supervisor);
    var y := Advance(x, t, skew, Stop(fault));
    assert y == x.(output := Stopped(x.output, fault));
    assert Sup.Halted(x.output.supervisor).state != Sup.Active && y.output.supervisor == Sup.Halted(x.output.supervisor);
    assert Sup.Halted(x.output.supervisor).config == x.output.supervisor.config;
    hide Stopped, QueueTimely, SendTimely, CommandTimely, LeaseTimely, LiftCarried, Calmer, Sup.Safe, Sup.Halted;
    assert Sup.Safe(x.output.supervisor, x.output.supervisor.config) by { CommandIsSafe(x, skew); }
    QuietActIsTimely(x, y, now, t, skew);
  }

  lemma CommandIsSafe(x: Timeline, skew: int)
    requires CommandTimely(x, skew)
    ensures Sup.Safe(x.output.supervisor, x.output.supervisor.config)
  {
  }

  lemma ReportKeepsTimely(x: Timeline, now: int, t: int, skew: int, kind: Work)
    requires Timely(x, now, skew) && Regular(x, now, t, skew, Report(kind))
    ensures Timely(Advance(x, t, skew, Report(kind)), t, skew)
  {
    var y := Advance(x, t, skew, Report(kind));
    hide QueueTimely, SendTimely, Lifts.ZeroReported, ZeroLiftFrame, CommandTimely;
    SameQueues(x, y, skew);
    SameCommand(x, y, skew);
  }

  lemma RearmKeepsTimely(x: Timeline, now: int, t: int, skew: int, session: u32, epoch: u32, proof: bool)
    requires Timely(x, now, skew) && Regular(x, now, t, skew, Rearm(session, epoch, proof))
    ensures Timely(Advance(x, t, skew, Rearm(session, epoch, proof)), t, skew)
  {
    var e := Rearm(session, epoch, proof);
    var y := Advance(x, t, skew, e);
    var ms := Wrap(Ms(t, skew));
    hide QueueTimely, SendTimely, Sup.Safe, Sup.Armed, MayRearm, LeaseTimely;
    RearmIsAllOrNothing(x.output, session, epoch, ms, proof);
    Sup.ArmKeepsSafe(x.output.supervisor, session, ms);
    ArmCarries(x.output.supervisor, session, ms);
    QuietActIsTimely(x, y, now, t, skew);
  }

  lemma AdvanceKeepsTimely(x: Timeline, now: int, t: int, skew: int, e: Event)
    requires Timely(x, now, skew) && Regular(x, now, t, skew, e)
    ensures Timely(Advance(x, t, skew, e), t, skew)
  {
    hide Timely, Regular, Advance;
    assert WellConfigured(x.output) by { TimelyIsConfigured(x, now, skew); }
    match e {
      case Host(_) => SupervisorStepKeepsTimely(x, now, t, skew, e);
      case Feed(_) => SupervisorStepKeepsTimely(x, now, t, skew, e);
      case ArmHost(_) => SupervisorStepKeepsTimely(x, now, t, skew, e);
      case LiftRequest(_) => LiftStepKeepsTimely(x, now, t, skew, e);
      case LiftSample(_) => LiftStepKeepsTimely(x, now, t, skew, e);
      case LiftTick => LiftStepKeepsTimely(x, now, t, skew, e);
      case SetInterlock(_, _) => LiftStepKeepsTimely(x, now, t, skew, e);
      case Submit(_, _, _, _) => RouterStepKeepsTimely(x, now, t, skew, e);
      case Take(available) => TakeKeepsTimely(x, now, t, skew, available);
      case Finish(_, _) => RouterStepKeepsTimely(x, now, t, skew, e);
      case Recover(_) => RouterStepKeepsTimely(x, now, t, skew, e);
      case Silence => RouterStepKeepsTimely(x, now, t, skew, e);
      case BindLift(endpoint) => BindKeepsTimely(x, now, t, skew, endpoint);
      case Report(kind) => ReportKeepsTimely(x, now, t, skew, kind);
      case Poll(epoch) => PollKeepsTimely(x, now, t, skew, epoch);
      case Stop(fault) => StopKeepsTimely(x, now, t, skew, fault);
      case Rearm(session, epoch, proof) => RearmKeepsTimely(x, now, t, skew, session, epoch, proof);
    }
  }

  lemma TimelyIsConfigured(x: Timeline, now: int, skew: int)
    requires Timely(x, now, skew)
    ensures WellConfigured(x.output)
  {
  }

  // ---- every run ------------------------------------------------------------

  datatype Happening = Happening(t: int, event: Event)

  lemma AdvanceKeepsConfig(x: Timeline, t: int, skew: int, e: Event)
    requires WellConfigured(x.output)
    ensures WellConfigured(Advance(x, t, skew, e).output)
  {
    StepKeepsConfig(x.output, ActAt(t, skew, e));
    hide Step, WellConfigured;
  }

  /** The history after everything in `hs` has happened. */
  function Live(x: Timeline, skew: int, hs: seq<Happening>): (y: Timeline)
    requires WellConfigured(x.output)
    ensures WellConfigured(y.output)
    decreases |hs|
  {
    if hs == [] then x
    else
      var h, before := hs[|hs| - 1], Live(x, skew, hs[..|hs| - 1]);
      AdvanceKeepsConfig(before, h.t, skew, h.event);
      Advance(before, h.t, skew, h.event)
  }

  function LastTime(now: int, hs: seq<Happening>): int {
    if hs == [] then now else hs[|hs| - 1].t
  }

  predicate RegularRun(x: Timeline, now: int, skew: int, hs: seq<Happening>)
    requires WellConfigured(x.output)
    decreases |hs|
  {
    hs == [] ||
    var before, h := hs[..|hs| - 1], hs[|hs| - 1];
    RegularRun(x, now, skew, before) && Regular(Live(x, skew, before), LastTime(now, before), h.t, skew, h.event)
  }

  lemma {:induction false} RunIsTimely(x: Timeline, now: int, skew: int, hs: seq<Happening>)
    requires Timely(x, now, skew) && RegularRun(x, now, skew, hs)
    ensures Timely(Live(x, skew, hs), LastTime(now, hs), skew)
    decreases |hs|
  {
    hide Advance, Regular, Timely;
    TimelyIsConfigured(x, now, skew);
    if hs != [] {
      var before, h := hs[..|hs| - 1], hs[|hs| - 1];
      RunIsTimely(x, now, skew, before);
      AdvanceKeepsTimely(Live(x, skew, before), LastTime(now, before), h.t, skew, h.event);
    }
  }

  /** The j-th happening granted this permission: the supervisor accepted the message, or
      the lift endpoint the request, at that very time. */
  predicate GrantedAt(x: Timeline, skew: int, hs: seq<Happening>, j: nat, o: Origin)
    requires WellConfigured(x.output) && j < |hs|
  {
    var at := Live(x, skew, hs[..j]).output;
    var ms := Ms(hs[j].t, skew);
    match o
    case NoOrigin => false
    case Velocity(m, message) => hs[j].event == Host(message) && AcceptsVelocity(at, Wrap(ms), hs[j].event) && m == ms
    case Lease(m, request) => hs[j].event == LiftRequest(request) && AcceptsLease(at, Wrap(ms), hs[j].event) && m == ms
  }

  predicate Granted(x: Timeline, skew: int, hs: seq<Happening>, o: Origin)
    requires WellConfigured(x.output)
  {
    o.NoOrigin? || exists j :: 0 <= j < |hs| && GrantedAt(x, skew, hs, j, o)
  }

  predicate NoHistory(x: Timeline) {
    x.command.NoOrigin? && x.lease.NoOrigin? && x.wheels.origin.NoOrigin? && x.lift.origin.NoOrigin? && x.sending.origin.NoOrigin?
  }

  lemma GrantedLater(x: Timeline, skew: int, hs: seq<Happening>, h: Happening, o: Origin)
    requires WellConfigured(x.output) && Granted(x, skew, hs, o)
    ensures Granted(x, skew, hs + [h], o)
  {
    hide Live, AcceptsVelocity, AcceptsLease, WellConfigured;
    if !o.NoOrigin? {
      var j :| 0 <= j < |hs| && GrantedAt(x, skew, hs, j, o);
      assert (hs + [h])[..j] == hs[..j];
      assert GrantedAt(x, skew, hs + [h], j, o);
    }
  }

  predicate AllGranted(x: Timeline, skew: int, hs: seq<Happening>, y: Timeline)
    requires WellConfigured(x.output)
  {
    && Granted(x, skew, hs, y.command) && Granted(x, skew, hs, y.lease) && Granted(x, skew, hs, y.wheels.origin)
    && Granted(x, skew, hs, y.lift.origin) && Granted(x, skew, hs, y.sending.origin)
  }

  /** An act moves permissions around and adds at most the one it grants. */
  lemma AdvanceMovesOrigins(y: Timeline, t: int, skew: int, e: Event)
    requires WellConfigured(y.output)
    ensures var n := Advance(y, t, skew, e);
            && (n.command == y.command || (e.Host? && AcceptsVelocity(y.output, Wrap(Ms(t, skew)), e)
                                           && n.command == Velocity(Ms(t, skew), e.message)))
            && (n.lease == y.lease || (e.LiftRequest? && AcceptsLease(y.output, Wrap(Ms(t, skew)), e)
                                       && n.lease == Lease(Ms(t, skew), e.request)))
            && n.wheels.origin in [y.wheels.origin, y.command]
            && n.lift.origin in [y.lift.origin, y.command, y.lease]
            && n.sending.origin in [y.sending.origin, y.wheels.origin, y.lift.origin]
  {
    hide Step, AcceptsVelocity, AcceptsLease, LiftActive, Next;
  }

  /** Every permission in the history was granted by an event of the run. */
  lemma {:induction false} OriginsAreGranted(x: Timeline, skew: int, hs: seq<Happening>)
    requires WellConfigured(x.output) && NoHistory(x)
    ensures AllGranted(x, skew, hs, Live(x, skew, hs))
    decreases |hs|
  {
    hide Advance, WellConfigured, AcceptsVelocity, AcceptsLease, GrantedAt, Ms;
    if hs != [] {
      var before, h := hs[..|hs| - 1], hs[|hs| - 1];
      var y := Live(x, skew, before);
      OriginsAreGranted(x, skew, before);
      AdvanceMovesOrigins(y, h.t, skew, h.event);
      assert hs == before + [h];
      OldOriginsStay(x, skew, before, h, y);
      NewOriginIsGranted(x, skew, before, h);
    }
  }

  lemma OldOriginsStay(x: Timeline, skew: int, before: seq<Happening>, h: Happening, y: Timeline)
    requires WellConfigured(x.output) && AllGranted(x, skew, before, y)
    ensures AllGranted(x, skew, before + [h], y)
  {
    hide Granted, WellConfigured;
    GrantedLater(x, skew, before, h, y.command);
    GrantedLater(x, skew, before, h, y.lease);
    GrantedLater(x, skew, before, h, y.wheels.origin);
    GrantedLater(x, skew, before, h, y.lift.origin);
    GrantedLater(x, skew, before, h, y.sending.origin);
  }

  lemma NewOriginIsGranted(x: Timeline, skew: int, before: seq<Happening>, h: Happening)
    requires WellConfigured(x.output)
    ensures var (o, ms) := (Live(x, skew, before).output, Ms(h.t, skew));
            && (AcceptsVelocity(o, Wrap(ms), h.event) ==>
                  Granted(x, skew, before + [h], Velocity(ms, h.event.message)))
            && (AcceptsLease(o, Wrap(ms), h.event) ==>
                  Granted(x, skew, before + [h], Lease(ms, h.event.request)))
  {
    hide Live, WellConfigured, Ms, Exchanged, Sup.Applied;
    var hs := before + [h];
    assert hs[..|before|] == before;
    var (o, ms) := (Live(x, skew, before).output, Ms(h.t, skew));
    if AcceptsVelocity(o, Wrap(ms), h.event) {
      assert GrantedAt(x, skew, hs, |before|, Velocity(ms, h.event.message));
    }
    if AcceptsLease(o, Wrap(ms), h.event) {
      assert GrantedAt(x, skew, hs, |before|, Lease(ms, h.event.request));
    }
  }

  // ---- whose speed a lease carries ------------------------------------------

  /** The j-th happening is a poll that left a lease running with this lift command. */
  predicate CommandedAt(x: Timeline, skew: int, hs: seq<Happening>, j: nat, speed: int)
    requires WellConfigured(x.output) && j < |hs|
  {
    var at := Live(x, skew, hs[..j + 1]).output;
    hs[j].event.Poll? && LiftActive(at) && at.lift.value.lift.command == speed
  }

  predicate Commanded(x: Timeline, skew: int, hs: seq<Happening>, tag: Tag)
    requires WellConfigured(x.output)
  {
    tag.origin.Lease? ==> exists j :: 0 <= j < |hs| && CommandedAt(x, skew, hs, j, tag.speed)
  }

  lemma CommandedLater(x: Timeline, skew: int, hs: seq<Happening>, h: Happening, tag: Tag)
    requires WellConfigured(x.output) && Commanded(x, skew, hs, tag)
    ensures Commanded(x, skew, hs + [h], tag)
  {
    hide Live, WellConfigured, LiftActive;
    if tag.origin.Lease? {
      var j :| 0 <= j < |hs| && CommandedAt(x, skew, hs, j, tag.speed);
      assert (hs + [h])[..j + 1] == hs[..j + 1];
      assert CommandedAt(x, skew, hs + [h], j, tag.speed);
    }
  }

  /** An act tags the lift's packet with a lease only in a poll that leaves the lease running
      with the command tagged; wheels are never tagged with one. */
  lemma AdvanceMovesTags(y: Timeline, t: int, skew: int, e: Event)
    requires WellConfigured(y.output)
    ensures var n := Advance(y, t, skew, e);
            && (y.command.Lease? || !n.command.Lease?)
            && (n.wheels == y.wheels || n.wheels.origin == y.command)
            && (n.lift == y.lift || n.lift.origin == y.command
                || (e.Poll? && LiftActive(n.output) && n.lift.speed == n.output.lift.value.lift.command))
            && n.sending in [y.sending, y.wheels, y.lift]
  {
    hide Step, AcceptsVelocity, AcceptsLease, Next;
  }

  predicate NoLeases(y: Timeline) {
    !y.command.Lease? && !y.wheels.origin.Lease?
  }

  /** Every speed a lease put on the bus or in the queue was the lift's command at a poll of
      the run. */
  lemma {:induction false} SpeedsAreCommanded(x: Timeline, skew: int, hs: seq<Happening>)
    requires WellConfigured(x.output) && NoHistory(x)
    ensures var y := Live(x, skew, hs); NoLeases(y) && Commanded(x, skew, hs, y.lift) && Commanded(x, skew, hs, y.sending)
    decreases |hs|
  {
    hide Advance, WellConfigured, LiftActive;
    if hs != [] {
      var before, h := hs[..|hs| - 1], hs[|hs| - 1];
      var y, n := Live(x, skew, before), Live(x, skew, hs);
      SpeedsAreCommanded(x, skew, before);
      AdvanceMovesTags(y, h.t, skew, h.event);
      assert hs == before + [h] && hs[..|before| + 1] == hs;
      CommandedLater(x, skew, before, h, y.lift);
      CommandedLater(x, skew, before, h, y.sending);
      if n.lift != y.lift && n.lift.origin != y.command {
        assert CommandedAt(x, skew, hs, |before|, n.lift.speed);
      }
    }
  }

  // ---- the theorem ----------------------------------------------------------

  /** An output at the start: supervisor disabled, any lift attached but not active. */
  function Begin(s: Sup.Supervisor, c: OutputConfig, lift: Option<LiftEndpointState>, t: int): Timeline {
    Timeline(Fresh(s, c, Wrap(t)).(lift := lift), t, NoOrigin, NoOrigin, Tag(0, NoOrigin, 0), Tag(0, NoOrigin, 0),
             Tag(0, NoOrigin, 0), t)
  }

  predicate MayBegin(s: Sup.Supervisor, c: OutputConfig, lift: Option<LiftEndpointState>) {
    && ValidConfig(c) && Sup.Safe(s, s.config) && s.state == Sup.Disabled
    && (lift.Some? ==> !lift.value.active && lift.value.leaseMaxMs <= 1000)
  }

  lemma BeginIsTimely(s: Sup.Supervisor, c: OutputConfig, lift: Option<LiftEndpointState>, t: int, skew: int)
    requires MayBegin(s, c, lift)
    ensures Timely(Begin(s, c, lift, t), t, skew) && NoHistory(Begin(s, c, lift, t))
  {
    hide Sup.Safe, ValidConfig;
  }

  /** Deadline transfer. In any regular run from the start, a wheel or lift packet with a
      nonzero speed whose completion is accepted has ended, by the true clock, before the
      end of a permission granted by an event of that run. Under a velocity message it
      carried exactly that message's speeds. Under a lease it is a lift packet, and carried
      exactly the lift controller's command, in the configured direction, at a poll of the
      run that found the lease running. */
  lemma {:induction false} MotionEndsInTime(
    s: Sup.Supervisor, c: OutputConfig, lift: Option<LiftEndpointState>, start: int, skew: int,
    hs: seq<Happening>, t: int, token: u32, ok: bool)
    requires MayBegin(s, c, lift)
    requires var x := Begin(s, c, lift, start);
             && WellConfigured(x.output) && RegularRun(x, start, skew, hs)
             && Regular(Live(x, skew, hs), LastTime(start, hs), t, skew, Finish(token, ok))
    ensures var x := Begin(s, c, lift, start);
            var y := Live(x, skew, hs);
            var r := y.output.router;
            var i := if r.bus.owner == WHEELS then 0 else 1;
            Finished(r, token, Wrap(t), ok).1 && (r.bus.owner == WHEELS || r.bus.owner == LIFT)
            && r.activeBytes != ZeroFrame(GroupIds(i))
            ==>
              && Ms(t, skew) < Until(y.sending.origin)
              && (exists j :: 0 <= j < |hs| && GrantedAt(x, skew, hs, j, y.sending.origin))
              && (y.sending.origin.Velocity? ==>
                    r.activeBytes == CommandFrame(y.output.config, i, y.sending.origin.message))
              && (y.sending.origin.Lease? ==>
                    && r.bus.owner == LIFT && r.activeBytes == LeaseFrame(y.output.config, y.sending.speed)
                    && exists j :: 0 <= j < |hs| && CommandedAt(x, skew, hs, j, y.sending.speed))
  {
    hide Live, GrantedAt, CommandedAt, Advance, ZeroFrame, CommandFrame, LeaseFrame, MayBegin, RegularRun, QueueTimely, CommandTimely, LeaseTimely;
    var x := Begin(s, c, lift, start);
    var y := Live(x, skew, hs);
    BeginIsTimely(s, c, lift, start, skew);
    RunIsTimely(x, start, skew, hs);
    OriginsAreGranted(x, skew, hs);
    SpeedsAreCommanded(x, skew, hs);
    if Finished(y.output.router, token, Wrap(t), ok).1 {
      CompletionIsWithinBudget(y.output.router.bus, token, Wrap(t), ok);
      SubWrap(t, y.sentAt);
    }
  }
}

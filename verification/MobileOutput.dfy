// Ties supervisor, lift lease, bus schedule and router together: each poll checks
// deadlines and clocks, keeps the stop latch, and otherwise queues fresh wheel and lift
// speeds that can only be sent while the command behind them is valid.
module MobileOutput {
  import opened Words
  import opened Optional
  import opened SharedBus
  import opened BusRouter
  import Plan = BusSchedule
  import Sup = MobileSupervisor
  import Lifts = LiftController
  import opened LiftEndpoint
  import opened MotorPackets

  datatype OutputFault = OutputOk | ScheduleFault | QueueFault | TransportFault | CommandExpiring

  type Directions = d: seq<int> | |d| == 4 && forall i :: 0 <= i < 4 ==> d[i] == 1 || d[i] == -1 witness [1, 1, 1, 1]

  datatype OutputConfig = OutputConfig(
    schedule: Plan.ScheduleConfig, wheelsBudgetUs: u32, liftBudgetUs: u32, stopBudgetUs: u32, jobLifetimeUs: u32,
    direction: Directions)

  datatype Output = Output(
    supervisor: Sup.Supervisor, config: OutputConfig, schedule: Plan.ScheduleState, router: RouterState,
    fault: OutputFault, stopRequested: bool, stopWritten: bool, feedbackDue: bool, availableUs: u32,
    writesCompleted: u32, stopWrittenMs: u32, lift: Option<LiftEndpointState>, liftEngaged: bool)

  predicate ValidConfig(c: OutputConfig) {
    && Plan.ValidConfig(c.schedule)
    && var window := c.schedule.armPeriodUs - c.schedule.armReservedUs - c.schedule.guardUs;
    && 0 < c.wheelsBudgetUs <= window && 0 < c.liftBudgetUs <= window && 0 < c.stopBudgetUs < HALF
    && c.wheelsBudgetUs < c.jobLifetimeUs && c.liftBudgetUs < c.jobLifetimeUs && c.stopBudgetUs < c.jobLifetimeUs
    && c.jobLifetimeUs <= 1000000
  }

  function Fresh(s: Sup.Supervisor, c: OutputConfig, epoch: u32): Output {
    Output(s, c, Plan.Scheduled(c.schedule, epoch), EMPTY_ROUTER, OutputOk, false, false, false, 0, 0, 0, None, false)
  }

  /** The lift is not faster than the supervisor's limit for its axis. */
  predicate MayBind(o: Output, e: LiftEndpointState) {
    && o.lift.None? && o.supervisor.state == Sup.Disabled && !e.active
    && e.lift.config.maximumSpeed <= o.supervisor.config.maxVelocity[3]
  }

  // ---- stopping -------------------------------------------------------------

  function StopLift(lift: Option<LiftEndpointState>): Option<LiftEndpointState> {
    if lift.Some? then Some(Released(lift.value)) else None
  }

  /** Closes the router to motion. A stop already written in this episode is not asked for
      again. */
  function Inhibited(r: RouterState, stopWritten: bool): RouterState {
    r.(inhibited := true, bus := if stopWritten then r.bus else StopRequested(r.bus), jobs := WithoutMotion(r.jobs))
  }

  /** The first stop names the fault; every stop halts the supervisor. */
  function SupervisorStopped(o: Output, fault: OutputFault): (r: Output)
    ensures r == o.(fault := r.fault, supervisor := r.supervisor, stopRequested := true)
  {
    o.(fault := if o.fault == OutputOk then fault else o.fault, supervisor := Sup.Halted(o.supervisor), stopRequested := true)
  }

  /** Latches the whole output: nothing but a stop may be sent any more. */
  function Stopped(o: Output, fault: OutputFault): (r: Output)
    ensures r.schedule == o.schedule && r.config == o.config && r.stopRequested
  {
    SupervisorStopped(o, fault).(lift := StopLift(o.lift), router := Inhibited(o.router, o.stopWritten))
  }

  predicate StopUnderWay(o: Output) {
    o.stopWritten || o.router.jobs[0].pending || (o.router.bus.active && o.router.bus.owner == STOP)
  }

  function StopQueued(o: Output, us: u32): (r: Output)
    ensures r.schedule == o.schedule && r.config == o.config
  {
    if StopUnderWay(o) then o
    else
      var (r, ok) := Submitted(o.router, STOP, StopFrame(), us, Add(us, o.config.jobLifetimeUs), o.config.stopBudgetUs);
      o.(router := r, fault := if !ok && o.fault == OutputOk then QueueFault else o.fault)
  }

  // ---- poll: checks ---------------------------------------------------------

  /** Withdraws job k if it cannot finish in time any more; a lost motion job stops all. */
  function ExpireJob(o: Output, k: Work, us: u32): (r: Output)
    ensures r.schedule == o.schedule && r.config == o.config
  {
    if !o.router.jobs[k].pending || !Expired(o.router.jobs[k], us) then o
    else
      var dropped := o.(router := o.router.(jobs := o.router.jobs[k := o.router.jobs[k].(pending := false)],
                                            expired := Saturate(o.router.expired)));
      if k == STOP then dropped else Stopped(dropped, QueueFault)
  }

  function ExpireFrom(o: Output, i: nat, us: u32): (r: Output)
    requires i <= 5
    ensures r.schedule == o.schedule && r.config == o.config
    decreases 5 - i
  {
    if i == 5 then o else ExpireFrom(ExpireJob(o, i, us), i + 1, us)
  }

  /** Re-aligns the schedule's phase to the latest arm interrupt, then polls it. */
  function Realigned(s: Plan.ScheduleState, us: u32, armEpoch: u32): Plan.ScheduleState
    requires s.config.armPeriodUs > 0
  {
    var period := s.config.armPeriodUs;
    var phase := Sub(us, armEpoch);
    if phase < period then s.(phaseUs := (phase + period - Sub(us, s.lastPollUs) % period) % period)
    else s
  }

  function Scheduling(o: Output, us: u32, armEpoch: u32): (Output, Plan.Window)
    requires o.schedule.config.armPeriodUs > 0
  {
    var late := if Sub(us, armEpoch) >= o.schedule.config.armPeriodUs then Stopped(o, ScheduleFault) else o;
    var (s, w) := Plan.PollSchedule(Realigned(o.schedule, us, armEpoch), us);
    var polled := late.(schedule := s);
    (if w.stopRequired then Stopped(polled, ScheduleFault) else polled, w)
  }

  function Checked(o: Output, us: u32, ms: u32): (r: Output)
    ensures r.schedule == o.schedule && r.config == o.config
  {
    var o1 := o.(feedbackDue := false, availableUs := 0, supervisor := Sup.Watched(o.supervisor, ms),
                 router := o.router.(bus := Polled(o.router.bus, us)));
    ExpireFrom(o1, 0, us)
  }

  function Guarded(o: Output): (r: Output)
    ensures r.schedule == o.schedule && r.config == o.config
  {
    var o1 := if o.router.bus.faulted || (!o.stopRequested && (o.router.inhibited || o.router.bus.stopPending))
              then Stopped(o, TransportFault) else o;
    if o1.supervisor.state == Sup.StopLatched && !o1.stopRequested then Stopped(o1, OutputOk) else o1
  }

  // ---- poll: motion ---------------------------------------------------------

  function StoppedAndQueued(o: Output, fault: OutputFault, us: u32): (r: Output)
    ensures r.schedule == o.schedule && r.config == o.config
  {
    StopQueued(Stopped(o, fault), us)
  }

  datatype Stage = Halt(o: Output) | Go(o: Output)

  predicate LiftActive(o: Output) {
    o.lift.Some? && o.lift.value.active
  }

  predicate HoldCompleted(o: Output, ms: u32) {
    && o.lift.Some?
    && var l := o.lift.value.lift;
    && l.state == Lifts.Holding && l.zeroSent && l.command == 0 && Lifts.Fresh(l, ms)
  }

  /** The lease has ended: fine after a proven hold, otherwise a stop. */
  function Disengaged(o: Output, us: u32, ms: u32): (r: Stage)
    ensures r.o.schedule == o.schedule && r.o.config == o.config
  {
    if !o.liftEngaged || LiftActive(o) then Go(o)
    else if HoldCompleted(o, ms) then
      Go(o.(liftEngaged := false, router := o.router.(
        jobs := o.router.jobs[WHEELS := o.router.jobs[WHEELS].(pending := false)][LIFT := o.router.jobs[LIFT].(pending := false)])))
    else Halt(StoppedAndQueued(o, OutputOk, us))
  }

  /** A running lease is polled and excludes an active mobile command. */
  function Engaged(o: Output, us: u32, ms: u32): (r: Stage)
    ensures r.o.schedule == o.schedule && r.o.config == o.config
  {
    if !LiftActive(o) then Go(o)
    else
      var o1 := o.(liftEngaged := true, lift := Some(PolledEndpoint(o.lift.value, ms)));
      if !LiftActive(o1) || o1.supervisor.state == Sup.Active then Halt(StoppedAndQueued(o1, TransportFault, us))
      else Go(o1)
  }

  /** Microseconds a command that still has `remainingMs` may be carried by a job, keeping a
      millisecond for the phase between the two clocks. */
  function CappedLifetime(lifetime: u32, remainingMs: u32): u32
    requires remainingMs > 1
  {
    if (remainingMs - 1) * 1000 < lifetime then (remainingMs - 1) * 1000 else lifetime
  }

  /** Remaining life of the active mobile command. */
  function CommandRemaining(o: Output, ms: u32): u32 {
    Sub(o.supervisor.commandValidForMs, Sub(ms, o.supervisor.commandMs))
  }

  function LeaseRemaining(o: Output, ms: u32): u32
    requires o.lift.Some?
  {
    Sub(o.lift.value.validUntilMs, ms)
  }

  /** Motor speeds to send: the active command's, or the lift's alone. */
  function MotorSpeeds(o: Output, liftActive: bool): (v: seq<int>)
    requires liftActive ==> o.lift.Some?
    ensures |v| == 4
  {
    if liftActive then [0, 0, 0, o.lift.value.lift.command * o.config.direction[3]]
    else seq(4, i requires 0 <= i < 4 => o.supervisor.target[i] * o.config.direction[i])
  }

  function GroupIds(i: nat): (ids: seq<u8>)
    requires i < 2
    ensures |ids| == if i == 0 then 3 else 1
  {
    if i == 0 then WHEEL_IDS else LIFT_IDS
  }

  function GroupOf(v: seq<int>, i: nat): (g: seq<int>)
    requires |v| == 4 && i < 2
    ensures |g| == |GroupIds(i)|
  {
    if i == 0 then v[..3] else v[3..]
  }

  function GroupKind(i: nat): Work
    requires i < 2
  {
    if i == 0 then WHEELS else LIFT
  }

  function GroupBudget(c: OutputConfig, i: nat): u32 {
    if i == 0 then c.wheelsBudgetUs else c.liftBudgetUs
  }

  function SubmitGroup(o: Output, i: nat, v: seq<int>, lifetime: u32, us: u32): (r: Stage)
    requires |v| == 4 && i < 2
    ensures r.o.schedule == o.schedule && r.o.config == o.config
  {
    if lifetime <= GroupBudget(o.config, i) || !SpeedsFit(GroupOf(v, i)) then Halt(StoppedAndQueued(o, QueueFault, us))
    else
      var (r, ok) := Submitted(o.router, GroupKind(i), SpeedFrame(GroupIds(i), GroupOf(v, i)), us, Add(us, lifetime),
                               GroupBudget(o.config, i));
      if !ok then Halt(StoppedAndQueued(o.(router := r), QueueFault, us)) else Go(o.(router := r))
  }

  function SubmitFrom(o: Output, i: nat, due: Plan.DueBits, v: seq<int>, lifetime: u32, us: u32): (r: Output)
    requires |v| == 4 && i <= 2
    ensures r.schedule == o.schedule && r.config == o.config
    decreases 2 - i
  {
    if i == 2 then o
    else if !due[i] then SubmitFrom(o, i + 1, due, v, lifetime, us)
    else
      match SubmitGroup(o, i, v, lifetime, us)
      case Halt(h) => h
      case Go(g) => SubmitFrom(g, i + 1, due, v, lifetime, us)
  }

  /** The lifetime allowed by the active command and by the lease, or none. */
  function Lifetime(o: Output, liftActive: bool, ms: u32): Option<u32>
    requires liftActive ==> o.lift.Some?
  {
    if o.supervisor.state == Sup.Active && CommandRemaining(o, ms) <= 1 then None
    else
      var base := if o.supervisor.state == Sup.Active then CappedLifetime(o.config.jobLifetimeUs, CommandRemaining(o, ms))
                  else o.config.jobLifetimeUs;
      if !liftActive then Some(base)
      else if LeaseRemaining(o, ms) <= 1 then None
      else Some(CappedLifetime(base, LeaseRemaining(o, ms)))
  }

  function Drive(o: Output, liftActive: bool, due: Plan.DueBits, us: u32, ms: u32): (r: Output)
    requires liftActive ==> o.lift.Some?
    ensures r.schedule == o.schedule && r.config == o.config
  {
    if !liftActive && o.supervisor.state != Sup.Ready && o.supervisor.state != Sup.Active then o
    else
      match Lifetime(o, liftActive, ms)
      case None => StoppedAndQueued(o, CommandExpiring, us)
      case Some(lifetime) => SubmitFrom(o, 0, due, MotorSpeeds(o, liftActive), lifetime, us)
  }

  /** Both lease stages, in order. */
  function Leased(o: Output, us: u32, ms: u32): (r: Stage)
    ensures r.o.schedule == o.schedule && r.o.config == o.config
  {
    match Disengaged(o, us, ms)
    case Halt(h) => Halt(h)
    case Go(g) => Engaged(g, us, ms)
  }

  function Motion(o: Output, w: Plan.Window, us: u32, ms: u32): (r: Output)
    ensures r.schedule == o.schedule && r.config == o.config
  {
    match Leased(o.(availableUs := w.availableUs, feedbackDue := w.due[2]), us, ms)
    case Halt(h) => h
    case Go(g) => Drive(g, LiftActive(g), w.due, us, ms)
  }

  function Quieted(o: Output, us: u32): (r: Output)
    ensures r.schedule == o.schedule && r.config == o.config
  {
    StopQueued(o.(supervisor := Sup.Halted(o.supervisor)), us)
  }

  function PollOutput(o: Output, us: u32, ms: u32, armEpoch: u32): Output
    requires o.schedule.config.armPeriodUs > 0
  {
    var (s, w) := Scheduling(Checked(o, us, ms), us, armEpoch);
    var g := Guarded(s);
    if g.stopRequested then Quieted(g, us) else Motion(g, w, us, ms)
  }

  // ---- completion and rearm -------------------------------------------------

  /** The completed frame told the lift motor to stand still. */
  predicate ZeroLiftFrame(kind: Work, p: seq<u8>) {
    (kind == LIFT && |p| == 11 && p[5] == 46 && p[7] == LIFT_ID && p[8] == 0 && p[9] == 0) ||
    (kind == STOP && |p| == 20 && p[5] == 46 && p[16] == LIFT_ID && p[17] == 0 && p[18] == 0)
  }

  function LiftToldZero(lift: Option<LiftEndpointState>, ms: u32): Option<LiftEndpointState> {
    if lift.Some? then Some(lift.value.(lift := Lifts.ZeroReported(lift.value.lift, ms))) else None
  }

  function CompletedOutput(o: Output, kind: Work, ms: u32): Output {
    if o.router.bus.active || o.router.bus.faulted || kind != o.router.bus.owner then o
    else
      var p := o.router.activeBytes;
      var stopFrame := kind == STOP && |p| == 20 && p[5] == 46;
      o.(lift := if ZeroLiftFrame(kind, p) then LiftToldZero(o.lift, ms) else o.lift,
         writesCompleted := Saturate(o.writesCompleted),
         stopWritten := stopFrame || o.stopWritten, stopWrittenMs := if stopFrame then ms else o.stopWrittenMs)
  }

  predicate MayRearm(o: Output, session: u32, ms: u32, proof: bool) {
    && proof && o.stopWritten && o.stopRequested
    && !o.router.bus.active && !o.router.bus.faulted && !o.router.bus.stopPending && !o.router.jobs[0].pending
    && o.supervisor.state == Sup.StopLatched && Sup.MeasuredStopped(o.supervisor, ms)
    && 0 < Sub(o.supervisor.feedback.observedMs, o.stopWrittenMs) < HALF
    && session > o.supervisor.session && session != 0
  }

  /** A new episode: no stop is latched, none written, and the schedule starts over. */
  function Renewed(o: Output, epoch: u32): Output {
    o.(schedule := Plan.Scheduled(o.config.schedule, epoch), stopRequested := false, stopWritten := false,
       fault := OutputOk, liftEngaged := false)
  }

  /** Rearm as the source runs it: after the checks, resume the router, then arm the
      supervisor, giving up where one of them refuses. */
  function Rearmed(o: Output, session: u32, epoch: u32, ms: u32, proof: bool): (Output, bool) {
    if !MayRearm(o, session, ms, proof) || !Plan.ValidConfig(o.config.schedule) then (o, false)
    else
      var (r, resumed) := Resumed(o.router, true);
      if !resumed then (o.(router := r), false)
      else
        var (s, armed) := Sup.Armed(o.supervisor, session, ms);
        if !armed then (o.(router := r, supervisor := s), false)
        else (Renewed(o.(router := r, supervisor := s), epoch), true)
  }

  // ---- the output object ----------------------------------------------------

  class MobileOutputObject {
    const supervisor: Sup.MobileSupervisorObject
    const config: OutputConfig
    const schedule: Plan.Schedule
    const router: Router
    var fault: OutputFault
    var stopRequested: bool
    var stopWritten: bool
    var feedbackDue: bool
    var availableUs: u32
    var writesCompleted: u32
    var stopWrittenMs: u32
    var lift: LiftEndpointObject?
    var liftEngaged: bool

    ghost predicate Valid()
      reads this, schedule, lift
    {
      && router.Valid() && schedule.Valid() && ValidConfig(config) && schedule.config == config.schedule
      && (lift != null ==> lift.Valid())
    }

    ghost function LiftState(): Option<LiftEndpointState>
      reads this, lift, if lift != null then {lift.lift} else {}
    {
      if lift == null then None else Some(lift.State())
    }

    ghost function State(): Output
      requires Valid()
      reads this, supervisor, schedule, schedule.dueIn, router, router.bus, router.jobs,
            lift, if lift != null then {lift.lift} else {}
    {
      Output(supervisor.State(), config, schedule.State(), router.State(), fault, stopRequested, stopWritten,
             feedbackDue, availableUs, writesCompleted, stopWrittenMs, LiftState(), liftEngaged)
    }

    /** Everything the output's methods may change. */
    ghost function Parts(): set<object>
      reads this, lift
    {
      {this, supervisor, schedule, schedule.dueIn, router, router.bus, router.jobs}
      + if lift != null then {lift, lift.lift} else {}
    }

    constructor (s: Sup.MobileSupervisorObject, c: OutputConfig, epoch: u32)
      requires ValidConfig(c) && s.state == Sup.Disabled
      ensures Valid() && supervisor == s && lift == null
      ensures State() == Fresh(s.State(), c, epoch)
    {
      supervisor, config := s, c;
      schedule := new Plan.Schedule(c.schedule, epoch);
      router := new Router();
      fault, stopRequested, stopWritten, feedbackDue, availableUs := OutputOk, false, false, false, 0;
      writesCompleted, stopWrittenMs, lift, liftEngaged := 0, 0, null, false;
    }

    /** Puts a lift under this output, once, before the first session. */
    method BindLift(e: LiftEndpointObject) returns (ok: bool)
      requires Valid() && e.Valid()
      modifies this
      ensures Valid() && ok == MayBind(old(State()), e.State())
      ensures lift == if ok then e else old(lift)
      ensures State() == if ok then old(State()).(lift := Some(e.State())) else old(State())
    {
      if lift != null || supervisor.state != Sup.Disabled || e.active ||
         e.lift.config.maximumSpeed > supervisor.config.maxVelocity[3] {
        return false;
      }
      lift := e;
      ok := true;
    }

    /** Closes the router to motion, and asks for a stop unless one is already written. */
    method InhibitRouter()
      requires Valid()
      modifies router, router.bus, router.jobs
      ensures Valid()
      ensures State() == old(State()).(router := Inhibited(old(router.State()), stopWritten))
    {
      router.inhibited := true;
      if !stopWritten {
        router.bus.RequestStop();
      }
      router.ClearMotion();
    }

    method StopLease()
      requires Valid()
      modifies if lift != null then {lift, lift.lift} else {}
      ensures Valid()
      ensures State() == old(State()).(lift := StopLift(old(LiftState())))
    {
      hide Released;
      if lift != null {
        lift.Stop();
      }
    }

    /** The lease ends and the router closes. */
    method Withdraw()
      requires Valid()
      modifies router, router.bus, router.jobs, if lift != null then {lift, lift.lift} else {}
      ensures Valid()
      ensures State() == old(State()).(lift := StopLift(old(LiftState())), router := Inhibited(old(router.State()), stopWritten))
    {
      hide StopLift, Inhibited;
      StopLease();
      InhibitRouter();
    }

    method StopSupervisor(why: OutputFault)
      requires Valid()
      modifies this`fault, this`stopRequested, supervisor
      ensures Valid()
      ensures State() == SupervisorStopped(old(State()), why)
    {
      hide Sup.Halted;
      if fault == OutputOk {
        fault := why;
      }
      supervisor.Stop();
      stopRequested := true;
    }

    method Stop(why: OutputFault)
      requires Valid()
      modifies Parts()
      ensures Valid() && lift == old(lift)
      ensures State() == Stopped(old(State()), why)
    {
      hide SupervisorStopped, StopLift, Inhibited;
      StopSupervisor(why);
      Withdraw();
    }

    method QueueStop(us: u32)
      requires Valid()
      modifies Parts()
      ensures Valid() && lift == old(lift)
      ensures State() == StopQueued(old(State()), us)
    {
      hide Submitted, StopFrame;
      assert router.jobs[0] == State().router.jobs[0];
      if stopWritten || router.jobs[0].pending || (router.bus.active && router.bus.owner == STOP) { return; }
      var ok := router.Submit(STOP, StopFrame(), us, Add(us, config.jobLifetimeUs), config.stopBudgetUs);
      if !ok && fault == OutputOk {
        fault := QueueFault;
      }
    }

    method ExpireOne(i: Work, us: u32)
      requires Valid()
      modifies Parts()
      ensures Valid() && lift == old(lift)
      ensures State() == ExpireJob(old(State()), i, us)
    {
      var job := router.jobs[i];
      assert job == State().router.jobs[i];
      var remaining := Sub(job.deadlineUs, us);
      if job.pending && (remaining == 0 || remaining >= HALF || remaining <= job.budgetUs) {
        router.jobs[i] := job.(pending := false);
        router.expired := Saturate(router.expired);
        if i != STOP {
          Stop(QueueFault);
        }
      }
    }

    method ExpireJobs(us: u32)
      requires Valid()
      modifies Parts()
      ensures Valid() && lift == old(lift)
      ensures State() == ExpireFrom(old(State()), 0, us)
    {
      hide ExpireJob;
      for i := 0 to 5
        invariant Valid() && lift == old(lift)
        invariant ExpireFrom(old(State()), 0, us) == ExpireFrom(State(), i, us)
      {
        ExpireOne(i, us);
      }
    }

    /** Sets the schedule's phase so that its next poll, at `us`, lands on the time since the
        latest arm interrupt. */
    method Realign(us: u32, armEpoch: u32)
      requires Valid()
      modifies schedule`phaseUs
      ensures Valid()
      ensures State() == old(State()).(schedule := Realigned(old(schedule.State()), us, armEpoch))
    {
      var phase, period := Sub(us, armEpoch), config.schedule.armPeriodUs;
      if phase < period {
        schedule.phaseUs := (phase + period - Sub(us, schedule.lastPollUs) % period) % period;
      }
    }

    method PollWindow(us: u32) returns (w: Plan.Window)
      requires Valid()
      modifies schedule, schedule.dueIn
      ensures Valid()
      ensures (schedule.State(), w) == Plan.PollSchedule(old(schedule.State()), us)
      ensures State() == old(State()).(schedule := schedule.State())
    {
      hide Plan.PollSchedule;
      w := schedule.Poll(us);
    }

    method PollSchedule(us: u32, armEpoch: u32) returns (w: Plan.Window)
      requires Valid()
      modifies Parts()
      ensures Valid() && lift == old(lift)
      ensures (State(), w) == Scheduling(old(State()), us, armEpoch)
    {
      hide Stopped, Plan.PollSchedule, Realigned;
      if Sub(us, armEpoch) >= config.schedule.armPeriodUs {
        Stop(ScheduleFault);
      }
      Realign(us, armEpoch);
      w := PollWindow(us);
      if w.stopRequired {
        Stop(ScheduleFault);
      }
    }

    method GuardLatch()
      requires Valid()
      modifies Parts()
      ensures Valid() && lift == old(lift)
      ensures State() == Guarded(old(State()))
    {
      hide Stopped;
      if router.bus.faulted || (!stopRequested && (router.inhibited || router.bus.stopPending)) {
        Stop(TransportFault);
      }
      if supervisor.state == Sup.StopLatched && !stopRequested {
        Stop(OutputOk);
      }
    }

    method Disengage(us: u32, ms: u32) returns (halted: bool)
      requires Valid()
      modifies Parts()
      ensures Valid() && lift == old(lift)
      ensures (if halted then Halt(State()) else Go(State())) == Disengaged(old(State()), us, ms)
    {
      hide Stopped, StopQueued;
      if !liftEngaged || (lift != null && lift.active) { return false; }
      if lift != null && lift.lift.state == Lifts.Holding && lift.lift.zeroSent && lift.lift.command == 0 &&
         lift.lift.haveSample && Sub(ms, lift.lift.observedMs) < lift.lift.config.feedbackTimeoutMs {
        router.jobs[WHEELS] := router.jobs[WHEELS].(pending := false);
        router.jobs[LIFT] := router.jobs[LIFT].(pending := false);
        liftEngaged := false;
        return false;
      }
      Stop(OutputOk);
      QueueStop(us);
      halted := true;
    }

    method Engage(us: u32, ms: u32) returns (halted: bool)
      requires Valid()
      modifies Parts()
      ensures Valid() && lift == old(lift)
      ensures (if halted then Halt(State()) else Go(State())) == Engaged(old(State()), us, ms)
    {
      hide Stopped, StopQueued, PolledEndpoint;
      if lift == null || !lift.active { return false; }
      liftEngaged := true;
      lift.Poll(ms);
      if !lift.active || supervisor.state == Sup.Active {
        Stop(TransportFault);
        QueueStop(us);
        return true;
      }
      halted := false;
    }

    method SubmitSpeeds(i: nat, v: seq<int>, lifetime: u32, us: u32) returns (halted: bool)
      requires Valid() && |v| == 4 && i < 2
      modifies Parts()
      ensures Valid() && lift == old(lift)
      ensures (if halted then Halt(State()) else Go(State())) == SubmitGroup(old(State()), i, v, lifetime, us)
    {
      hide Stopped, StopQueued, Submitted, SpeedFrame;
      var budget := GroupBudget(config, i);
      var frame := GroupSpeeds(if i == 0 then Wheels else LiftColumn, GroupOf(v, i));
      if lifetime <= budget || frame.Refused? {
        Stop(QueueFault);
        QueueStop(us);
        return true;
      }
      var ok := router.Submit(GroupKind(i), frame.bytes, us, Add(us, lifetime), budget);
      if !ok {
        Stop(QueueFault);
        QueueStop(us);
        return true;
      }
      halted := false;
    }

    method Speeds(liftActive: bool) returns (v: seq<int>)
      requires Valid() && (liftActive ==> lift != null)
      ensures v == MotorSpeeds(State(), liftActive)
    {
      v := [];
      for i := 0 to 4
        invariant |v| == i
        invariant forall k :: 0 <= k < i ==> v[k] == if liftActive then 0 else supervisor.target[k] * config.direction[k]
      {
        v := v + [if liftActive then 0 else supervisor.target[i] * config.direction[i]];
      }
      if liftActive {
        v := v[3 := lift.lift.command * config.direction[3]];
      }
    }

    method JobLifetime(liftActive: bool, ms: u32) returns (lifetime: Option<u32>)
      requires Valid() && (liftActive ==> lift != null)
      ensures lifetime == Lifetime(State(), liftActive, ms)
    {
      var life := config.jobLifetimeUs;
      if supervisor.state == Sup.Active {
        var remaining := Sub(supervisor.commandValidForMs, Sub(ms, supervisor.commandMs));
        if remaining <= 1 { return None; }
        life := CappedLifetime(life, remaining);
      }
      if liftActive {
        var remaining := Sub(lift.validUntilMs, ms);
        if remaining <= 1 { return None; }
        life := CappedLifetime(life, remaining);
      }
      lifetime := Some(life);
    }

    method SubmitDue(due: Plan.DueBits, v: seq<int>, lifetime: u32, us: u32)
      requires Valid() && |v| == 4
      modifies Parts()
      ensures Valid() && lift == old(lift)
      ensures State() == SubmitFrom(old(State()), 0, due, v, lifetime, us)
    {
      hide SubmitGroup;
      for i := 0 to 2
        invariant Valid() && lift == old(lift)
        invariant SubmitFrom(old(State()), 0, due, v, lifetime, us) == SubmitFrom(State(), i, due, v, lifetime, us)
      {
        if due[i] {
          var halted := SubmitSpeeds(i, v, lifetime, us);
          if halted { return; }
        }
      }
    }

    method DriveMotors(liftActive: bool, due: Plan.DueBits, us: u32, ms: u32)
      requires Valid() && (liftActive ==> lift != null)
      modifies Parts()
      ensures Valid() && lift == old(lift)
      ensures State() == Drive(old(State()), liftActive, due, us, ms)
    {
      hide Stopped, StopQueued, SubmitFrom, MotorSpeeds, Lifetime;
      if !liftActive && supervisor.state != Sup.Ready && supervisor.state != Sup.Active { return; }
      var lifetime := JobLifetime(liftActive, ms);
      if lifetime.None? {
        Stop(CommandExpiring);
        QueueStop(us);
        return;
      }
      var v := Speeds(liftActive);
      SubmitDue(due, v, lifetime.value, us);
    }

    method Check(us: u32, ms: u32)
      requires Valid()
      modifies Parts()
      ensures Valid() && lift == old(lift)
      ensures State() == Checked(old(State()), us, ms)
    {
      hide ExpireFrom, Sup.Watched, Polled;
      feedbackDue, availableUs := false, 0;
      supervisor.Poll(ms);
      router.bus.Poll(us);
      ExpireJobs(us);
    }

    method SettleLease(us: u32, ms: u32) returns (halted: bool)
      requires Valid()
      modifies Parts()
      ensures Valid() && lift == old(lift)
      ensures (if halted then Halt(State()) else Go(State())) == Leased(old(State()), us, ms)
    {
      hide Disengaged, Engaged;
      halted := Disengage(us, ms);
      if halted { return; }
      halted := Engage(us, ms);
    }

    method Move(w: Plan.Window, us: u32, ms: u32)
      requires Valid()
      modifies Parts()
      ensures Valid() && lift == old(lift)
      ensures State() == Motion(old(State()), w, us, ms)
    {
      hide Leased, Drive;
      availableUs, feedbackDue := w.availableUs, w.due[2];
      var halted := SettleLease(us, ms);
      if halted { return; }
      DriveMotors(lift != null && lift.active, w.due, us, ms);
    }

    method Poll(us: u32, ms: u32, armEpoch: u32)
      requires Valid()
      modifies Parts()
      ensures Valid() && lift == old(lift)
      ensures State() == PollOutput(old(State()), us, ms, armEpoch)
    {
      hide Checked, Scheduling, Guarded, Motion, StopQueued, Sup.Halted;
      Check(us, ms);
      var w := PollSchedule(us, armEpoch);
      GuardLatch();
      if stopRequested {
        supervisor.Stop();
        QueueStop(us);
        return;
      }
      Move(w, us, ms);
    }

    method Completed(kind: Work, ms: u32)
      requires Valid()
      modifies Parts()
      ensures Valid() && lift == old(lift)
      ensures State() == CompletedOutput(old(State()), kind, ms)
    {
      hide Lifts.ZeroReported;
      if router.bus.active || router.bus.faulted || kind != router.bus.owner { return; }
      var p := router.activeBytes;
      if lift != null {
        var zeroLift := kind == LIFT && |p| == 11 && p[5] == 46 && p[7] == LIFT_ID && p[8] == 0 && p[9] == 0;
        var zeroAll := kind == STOP && |p| == 20 && p[5] == 46 && p[16] == LIFT_ID && p[17] == 0 && p[18] == 0;
        if zeroLift || zeroAll {
          lift.lift.ReportZero(ms);
        }
      }
      writesCompleted := Saturate(writesCompleted);
      if kind == STOP && |p| == 20 && p[5] == 46 {
        stopWritten, stopWrittenMs := true, ms;
      }
    }

    method CanRearm(session: u32, ms: u32, proof: bool) returns (ok: bool)
      requires Valid()
      ensures ok <==> MayRearm(State(), session, ms, proof)
    {
      hide Sup.MeasuredStopped;
      assert router.jobs[0] == State().router.jobs[0];
      var stopped := supervisor.IsMeasuredStopped(ms);
      ok := !(!proof || !stopWritten || !stopRequested || router.bus.active || router.bus.faulted ||
              router.bus.stopPending || router.jobs[0].pending || supervisor.state != Sup.StopLatched || !stopped ||
              Sub(supervisor.feedback.observedMs, stopWrittenMs) == 0 ||
              Sub(supervisor.feedback.observedMs, stopWrittenMs) >= HALF ||
              session <= supervisor.session || session == 0);
    }

    method Renew(epoch: u32)
      requires Valid()
      modifies this, schedule, schedule.dueIn
      ensures Valid() && lift == old(lift)
      ensures State() == Renewed(old(State()), epoch)
    {
      schedule.Restart(epoch);
      stopRequested, stopWritten, fault, liftEngaged := false, false, OutputOk, false;
    }

    method Rearm(session: u32, epoch: u32, ms: u32, proof: bool) returns (ok: bool)
      requires Valid()
      modifies Parts()
      ensures Valid() && lift == old(lift)
      ensures (State(), ok) == Rearmed(old(State()), session, epoch, ms, proof)
    {
      hide Sup.Armed, MayRearm, Resumed, Renewed;
      var may := CanRearm(session, ms, proof);
      if !may { return false; }
      var resumed := router.Resume(true);
      if !resumed { return false; }
      var armed := supervisor.Arm(session, ms);
      if !armed { return false; }
      Renew(epoch);
      ok := true;
    }
  }
}

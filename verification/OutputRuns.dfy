// Everything that can happen to the output, in any order: host messages, feedback, lift
// requests, polls, other owners' bus work, dispatches, completions, faults, stops, rearms,
// the lift being bound, and the system stop closing the shared bus.
module OutputRuns {
  import opened Words
  import opened Optional
  import opened SharedBus
  import opened BusRouter
  import opened MobileOutput
  import Sup = MobileSupervisor
  import Lifts = LiftController
  import opened LiftEndpoint

  datatype Event =
    | Host(message: Sup.Message)
    | Feed(feedback: Sup.Feedback)
    | ArmHost(session: u32)
    | LiftRequest(request: Request)
    | LiftSample(sample: Lifts.LiftFeedback)
    | LiftTick
    | SetInterlock(interlock: Interlock, ready: bool)
    | Submit(kind: Work, bytes: seq<u8>, deadlineUs: u32, budgetUs: u32)
    | Take(availableUs: u32)
    | Finish(token: u32, transportOk: bool)
    | Report(reported: Work)
    | Recover(uartIdle: bool)
    | Silence
    | BindLift(endpoint: LiftEndpointState)
    | Poll(armEpoch: u32)
    | Stop(fault: OutputFault)
    | Rearm(newSession: u32, epoch: u32, proof: bool)

  /** An event and the two clock readings it happens at. */
  datatype Act = Act(us: u32, ms: u32, event: Event)

  function OnLift(o: Output, e: LiftEndpointState): Output {
    o.(lift := Some(e))
  }

  /** What happens to the lift alone. */
  function LiftStep(o: Output, ms: u32, e: Event): Output
    requires o.lift.Some?
  {
    var l := o.lift.value;
    match e
    case LiftRequest(r) => OnLift(o, Exchanged(l, r, ms).0)
    case LiftSample(f) => OnLift(o, l.(lift := Lifts.ObserveLift(l.lift, f, ms).0))
    case LiftTick => OnLift(o, PolledEndpoint(l, ms))
    case SetInterlock(i, ready) => OnLift(o, l.(interlock := i, haveInterlock := true, transportReady := ready))
    case _ => o
  }

  /** What happens to the supervisor alone. */
  function SupervisorStep(s: Sup.Supervisor, ms: u32, e: Event): Sup.Supervisor {
    match e
    case Host(m) => Sup.Applied(s, m, ms).0
    case Feed(f) => Sup.Observed(s, f, ms).0
    case ArmHost(session) => Sup.Armed(s, session, ms).0
    case _ => s
  }

  /** What happens to the router alone. */
  function RouterStep(r: RouterState, us: u32, e: Event): RouterState {
    match e
    case Submit(kind, bytes, deadline, budget) => Submitted(r, kind, bytes, us, deadline, budget).0
    case Take(available) => Next(r, us, available).0
    case Finish(token, ok) => Finished(r, token, us, ok).0
    case Recover(idle) => r.(bus := Recovered(r.bus, idle).0)
    case Silence => Silenced(r)
    case _ => r
  }

  function Step(o: Output, a: Act): Output
    requires o.schedule.config.armPeriodUs > 0
  {
    match a.event
    case Host(_) => o.(supervisor := SupervisorStep(o.supervisor, a.ms, a.event))
    case Feed(_) => o.(supervisor := SupervisorStep(o.supervisor, a.ms, a.event))
    case ArmHost(_) => o.(supervisor := SupervisorStep(o.supervisor, a.ms, a.event))
    case LiftRequest(_) => if o.lift.Some? then LiftStep(o, a.ms, a.event) else o
    case LiftSample(_) => if o.lift.Some? then LiftStep(o, a.ms, a.event) else o
    case LiftTick => if o.lift.Some? then LiftStep(o, a.ms, a.event) else o
    case SetInterlock(_, _) => if o.lift.Some? then LiftStep(o, a.ms, a.event) else o
    case Submit(_, _, _, _) => o.(router := RouterStep(o.router, a.us, a.event))
    case Take(_) => o.(router := RouterStep(o.router, a.us, a.event))
    case Finish(_, _) => o.(router := RouterStep(o.router, a.us, a.event))
    case Recover(_) => o.(router := RouterStep(o.router, a.us, a.event))
    case Silence => o.(router := RouterStep(o.router, a.us, a.event))
    case BindLift(endpoint) => if MayBind(o, endpoint) then OnLift(o, endpoint) else o
    case Report(kind) => CompletedOutput(o, kind, a.ms)
    case Poll(epoch) => PollOutput(o, a.us, a.ms, epoch)
    case Stop(fault) => Stopped(o, fault)
    case Rearm(session, epoch, proof) => Rearmed(o, session, epoch, a.ms, proof).0
  }

  /** The packet handed to the bus by this act, if any. */
  function Sent(o: Output, a: Act): Dispatch {
    if a.event.Take? then Next(o.router, a.us, a.event.availableUs).1 else NoDispatch
  }

  predicate Rearms(o: Output, a: Act) {
    a.event.Rearm? && Rearmed(o, a.event.newSession, a.event.epoch, a.ms, a.event.proof).1
  }
}

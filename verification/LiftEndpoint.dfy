// The lift's own command channel: sessions and sequence numbers in order, a short lease
// that must be kept alive, and an interlock that must hold while it is.
module LiftEndpoint {
  import opened Words
  import opened LiftController

  datatype Interlock = Interlock(observedMs: u32, baseStopped: bool, armsSafe: bool, modeOk: bool, hardwareOk: bool)

  datatype LiftEndpointState = LiftEndpointState(
    lift: Lift, interlock: Interlock, bootId: u32, session: u32, sequence: u32, validUntilMs: u32, leaseMaxMs: u32,
    rejected: u32, active: bool, haveInterlock: bool, transportReady: bool)

  datatype LiftOp = HomeOp | MoveOp | CancelOp | StatusOp | KeepAliveOp | ResetOp

  /** A request whose frame and checksum were good; `clean` says its spare bytes are zero. */
  datatype Request = Request(
    op: LiftOp, session: u32, sequence: u32, deadlineMs: u32, target: i32, boot: u32, clean: bool)

  const NO_INTERLOCK: Interlock := Interlock(0, false, false, false, false)

  function Attached(l: Lift, boot: u32, lease: u32): LiftEndpointState {
    LiftEndpointState(l, NO_INTERLOCK, boot, 0, 0, 0, lease, 0, false, false, false)
  }

  predicate Interlocked(e: LiftEndpointState, now: u32) {
    && e.transportReady && e.haveInterlock && Sub(now, e.interlock.observedMs) < e.lift.config.feedbackTimeoutMs
    && e.interlock.baseStopped && e.interlock.armsSafe && e.interlock.modeOk && e.interlock.hardwareOk
  }

  function Released(e: LiftEndpointState): LiftEndpointState {
    e.(lift := CancelLift(e.lift), active := false)
  }

  predicate LeaseRunning(e: LiftEndpointState, now: u32) {
    0 < Sub(e.validUntilMs, now) <= e.leaseMaxMs
  }

  function PolledEndpoint(e: LiftEndpointState, now: u32): LiftEndpointState {
    var p := e.(lift := PollLift(e.lift, now));
    if !p.active then p
    else if !LeaseRunning(p, now) || !Interlocked(p, now) then
      p.(lift := InhibitLift(p.lift, BadFeedback), active := false)
    else if p.lift.state == Holding || p.lift.state == LiftFault then p.(active := false)
    else p
  }

  predicate NewerThanLast(e: LiftEndpointState, r: Request) {
    (r.session == e.session && r.sequence > e.sequence) || r.session > e.session
  }

  predicate Addressed(e: LiftEndpointState, r: Request) {
    r.clean && r.session != 0 && r.boot == e.bootId && (r.op == MoveOp || r.target == 0)
  }

  predicate AtRest(l: Lift, now: u32) {
    Fresh(l, now) && l.feedback.healthy && Stopped(l)
  }

  /** A home or move request: starts the motion and takes the lease. */
  function StartMotion(e: LiftEndpointState, r: Request, now: u32): (LiftEndpointState, bool) {
    if e.active || !Interlocked(e, now) || !NewerThanLast(e, r) then (e, false)
    else
      var (lift, ok) := if r.op == HomeOp then HomeLift(e.lift, now) else MoveLift(e.lift, r.target, now);
      if !ok then (e.(lift := lift), false)
      else (e.(lift := lift, active := true, session := r.session), true)
  }

  /** A request within the running session. */
  function Continue(e: LiftEndpointState, r: Request, now: u32): (LiftEndpointState, bool) {
    if r.session != e.session || r.sequence <= e.sequence then (e, false)
    else
      match r.op
      case CancelOp => (Released(e), true)
      case KeepAliveOp => (e, e.active && Interlocked(e, now))
      case ResetOp =>
        if e.active || !Interlocked(e, now) || !AtRest(e.lift, now) then (e, false)
        else (e.(lift := ResetLift(e.lift)), true)
      case _ => (e, true)
  }

  function Handled(e: LiftEndpointState, r: Request, now: u32): (LiftEndpointState, bool) {
    if !Addressed(e, r) then (e, false)
    else if r.op == StatusOp then (e, r.deadlineMs == 0)
    else if !(0 < Sub(r.deadlineMs, now) <= e.leaseMaxMs) then (e, false)
    else
      var (h, ok) := if r.op == HomeOp || r.op == MoveOp then StartMotion(e, r, now) else Continue(e, r, now);
      if !ok then (h, false) else (h.(sequence := r.sequence, validUntilMs := r.deadlineMs), true)
  }

  function Exchanged(e: LiftEndpointState, r: Request, now: u32): (LiftEndpointState, bool) {
    var (h, ok) := Handled(PolledEndpoint(e, now), r, now);
    (if ok then h else h.(rejected := Saturate(h.rejected)), ok)
  }

  class LiftEndpointObject {
    const lift: LiftObject
    var interlock: Interlock
    const bootId: u32
    var session: u32
    var sequence: u32
    var validUntilMs: u32
    const leaseMaxMs: u32
    var rejected: u32
    var active: bool
    var haveInterlock: bool
    var transportReady: bool

    ghost predicate Valid() {
      ValidConfig(lift.config)
    }

    ghost function State(): LiftEndpointState
      reads this, lift
    {
      LiftEndpointState(lift.State(), interlock, bootId, session, sequence, validUntilMs, leaseMaxMs, rejected,
                        active, haveInterlock, transportReady)
    }

    constructor (l: LiftObject, boot: u32, lease: u32)
      requires ValidConfig(l.config) && boot != 0 && 0 < lease <= 1000
      ensures Valid() && lift == l
      ensures State() == Attached(l.State(), boot, lease)
    {
      lift, interlock, bootId, leaseMaxMs := l, NO_INTERLOCK, boot, lease;
      session, sequence, validUntilMs, rejected := 0, 0, 0, 0;
      active, haveInterlock, transportReady := false, false, false;
    }

    method IsInterlocked(now: u32) returns (ok: bool)
      ensures ok <==> Interlocked(State(), now)
    {
      ok := transportReady && haveInterlock && Sub(now, interlock.observedMs) < lift.config.feedbackTimeoutMs &&
            interlock.baseStopped && interlock.armsSafe && interlock.modeOk && interlock.hardwareOk;
    }

    method Stop()
      modifies this, lift
      ensures State() == Released(old(State()))
    {
      lift.Cancel();
      active := false;
    }

    method Poll(now: u32)
      requires Valid()
      modifies this, lift
      ensures State() == PolledEndpoint(old(State()), now)
    {
      hide PollLift;
      lift.Poll(now);
      if active {
        var remaining := Sub(validUntilMs, now);
        var locked := IsInterlocked(now);
        if remaining == 0 || remaining > leaseMaxMs || !locked {
          lift.Inhibit(BadFeedback);
          active := false;
        } else if lift.state == Holding || lift.state == LiftFault {
          active := false;
        }
      }
    }

    method Begin(r: Request, now: u32) returns (ok: bool)
      requires Valid() && (r.op == HomeOp || r.op == MoveOp)
      modifies this, lift
      ensures (State(), ok) == StartMotion(old(State()), r, now)
    {
      hide HomeLift, MoveLift, Interlocked;
      var locked := IsInterlocked(now);
      if active || !locked || !((r.session == session && r.sequence > sequence) || r.session > session) { return false; }
      if r.op == HomeOp {
        ok := lift.Home(now);
      } else {
        ok := lift.Move(r.target, now);
      }
      if ok {
        active, session := true, r.session;
      }
    }

    method InSession(r: Request, now: u32) returns (ok: bool)
      requires Valid()
      modifies this, lift
      ensures (State(), ok) == Continue(old(State()), r, now)
    {
      hide Interlocked;
      if r.session != session || r.sequence <= sequence { return false; }
      var locked := IsInterlocked(now);
      match r.op {
        case CancelOp =>
          Stop();
          ok := true;
        case KeepAliveOp => ok := active && locked;
        case ResetOp =>
          if active || !locked || !lift.haveSample || Sub(now, lift.observedMs) >= lift.config.feedbackTimeoutMs ||
             !lift.feedback.healthy || !Slow(lift.feedback.velocityRaw, lift.config.stoppedSpeed) {
            return false;
          }
          lift.Reset();
          ok := true;
        case _ => ok := true;
      }
    }

    method Handle(r: Request, now: u32) returns (ok: bool)
      requires Valid()
      modifies this, lift
      ensures (State(), ok) == Handled(old(State()), r, now)
    {
      hide StartMotion, Continue;
      if !r.clean || r.session == 0 || r.boot != bootId || !(r.op == MoveOp || r.target == 0) { return false; }
      if r.op == StatusOp { return r.deadlineMs == 0; }
      var remaining := Sub(r.deadlineMs, now);
      if remaining == 0 || remaining > leaseMaxMs { return false; }
      if r.op == HomeOp || r.op == MoveOp {
        ok := Begin(r, now);
      } else {
        ok := InSession(r, now);
      }
      if ok {
        sequence, validUntilMs := r.sequence, r.deadlineMs;
      }
    }

    method Exchange(r: Request, now: u32) returns (ok: bool)
      requires Valid()
      modifies this, lift
      ensures (State(), ok) == Exchanged(old(State()), r, now)
    {
      hide Handled, PolledEndpoint;
      Poll(now);
      ok := Handle(r, now);
      if !ok && rejected != U32_MAX {
        rejected := rejected + 1;
      }
    }
  }
}

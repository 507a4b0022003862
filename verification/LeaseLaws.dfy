// What the lift's command channel does in every case: when a lease ends, which requests are
// granted, and what each leaves behind.
module LeaseLaws {
  import opened Words
  import opened LiftController
  import opened LiftEndpoint

  /** The interlock is met on recent evidence. */
  predicate Locked(e: LiftEndpointState, now: u32) {
    && e.transportReady && e.haveInterlock && Sub(now, e.interlock.observedMs) < e.lift.config.feedbackTimeoutMs
    && e.interlock.baseStopped && e.interlock.armsSafe && e.interlock.modeOk && e.interlock.hardwareOk
  }

  predicate Expired(e: LiftEndpointState, now: u32) {
    !(0 < Sub(e.validUntilMs, now) <= e.leaseMaxMs)
  }

  /** How a lease ends. A poll polls the lift. A lease that has expired or lost its interlock
      faults the lift as well; one whose lift holds or has faulted just ends; any other goes
      on, and nothing but the lift and the lease changes. */
  lemma LeaseEndsExactly(e: LiftEndpointState, now: u32)
    ensures var p := PolledEndpoint(e, now);
            var lift := PollLift(e.lift, now);
            var lost := e.active && (Expired(e, now) || !Locked(e.(lift := lift), now));
            && (lost ==> p == e.(lift := lift.(state := LiftFault, fault := BadFeedback, command := 0, homed := false),
                                 active := false))
            && (!lost ==> p == e.(lift := lift, active := e.active && lift.state != Holding && lift.state != LiftFault))
  {
    hide PollLift;
  }

  /** A stop cancels the lift and drops the lease. */
  lemma StopIsExact(e: LiftEndpointState)
    ensures Released(e) == e.(lift := CancelLift(e.lift), active := false)
  {
  }

  /** Meant for this endpoint in this boot, with nothing spare and a height only in a move. */
  predicate ForUs(e: LiftEndpointState, r: Request) {
    r.clean && r.session != 0 && r.boot == e.bootId && (r.op == MoveOp || r.target == 0)
  }

  /** A later session, or a later number in this one. */
  predicate Later(e: LiftEndpointState, r: Request) {
    r.session > e.session || (r.session == e.session && r.sequence > e.sequence)
  }

  predicate Continues(e: LiftEndpointState, r: Request) {
    r.session == e.session && r.sequence > e.sequence
  }

  predicate StandsWell(l: Lift, now: u32) {
    && l.haveSample && Sub(now, l.observedMs) < l.config.feedbackTimeoutMs && l.feedback.healthy
    && -(l.config.stoppedSpeed as int) <= l.feedback.velocityRaw <= l.config.stoppedSpeed
  }

  /** Whether the request is granted, by the state the poll before it left. A status asks for
      no lease. Anything else must name a deadline within the lease. Homing and moving need no
      lease running, the interlock, a later number and a lift that agrees; cancelling needs
      the session; keeping alive also a lease and the interlock; resetting no lease, the
      interlock and a lift standing well. */
  predicate Grants(p: LiftEndpointState, r: Request, now: u32) {
    && ForUs(p, r)
    && (r.op == StatusOp ==> r.deadlineMs == 0)
    && (r.op != StatusOp ==> 0 < Sub(r.deadlineMs, now) <= p.leaseMaxMs)
    && (r.op == HomeOp || r.op == MoveOp ==> !p.active && Locked(p, now) && Later(p, r))
    && (r.op == HomeOp ==> HomeLift(p.lift, now).1)
    && (r.op == MoveOp ==> MoveLift(p.lift, r.target, now).1)
    && (r.op == CancelOp || r.op == KeepAliveOp || r.op == ResetOp ==> Continues(p, r))
    && (r.op == KeepAliveOp ==> p.active && Locked(p, now))
    && (r.op == ResetOp ==> !p.active && Locked(p, now) && StandsWell(p.lift, now))
  }

  /** What a granted request does to the lift and the lease. */
  function Granted(p: LiftEndpointState, r: Request, now: u32): LiftEndpointState {
    match r.op
    case StatusOp => p
    case HomeOp =>
      p.(lift := HomeLift(p.lift, now).0, active := true, session := r.session, sequence := r.sequence, validUntilMs := r.deadlineMs)
    case MoveOp =>
      p.(lift := MoveLift(p.lift, r.target, now).0, active := true, session := r.session, sequence := r.sequence,
         validUntilMs := r.deadlineMs)
    case CancelOp => p.(lift := CancelLift(p.lift), active := false, sequence := r.sequence, validUntilMs := r.deadlineMs)
    case KeepAliveOp => p.(sequence := r.sequence, validUntilMs := r.deadlineMs)
    case ResetOp => p.(lift := ResetLift(p.lift), sequence := r.sequence, validUntilMs := r.deadlineMs)
  }

  /** Requests, in every case. A refused one is counted, and otherwise changes at most the
      lift, by looking at it. */
  lemma RequestsAreExact(e: LiftEndpointState, r: Request, now: u32)
    ensures var p := PolledEndpoint(e, now);
            var (n, ok) := Exchanged(e, r, now);
            && (ok <==> Grants(p, r, now))
            && (ok ==> n == Granted(p, r, now))
            && (!ok ==> n == p.(lift := n.lift, rejected := if p.rejected == U32_MAX then U32_MAX else p.rejected + 1))
            && (!ok ==> n.lift in [p.lift, HomeLift(p.lift, now).0, MoveLift(p.lift, r.target, now).0])
  {
    hide PolledEndpoint, HomeLift, MoveLift, CancelLift, ResetLift;
  }
}

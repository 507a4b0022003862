// Stopping the whole system over two buses: zero speeds on the left bus, then the left
// arm's hold; the right arm's hold on the right bus; and a stop that counts as confirmed
// only while fresh measurements newer than those writes say so.
module SystemStop {
  import opened Words
  import opened Optional
  import opened SharedBus
  import opened BusRouter
  import opened MotorPackets

  datatype StopPhase = Idle | Pending | Confirmed | Unconfirmed

  datatype StopConfig = StopConfig(
    jobLifetimeUs: u32, zeroBudgetUs: u32, holdBudgetUs: u32, timeoutMs: u32, feedbackMaxAgeMs: u32)

  /** What was measured, and when. */
  datatype Proof = Proof(observedMs: u32, baseStopped: bool, liftHolding: bool, armsHolding: bool, loadRetained: bool)

  datatype StopState = StopState(
    phase: StopPhase, startedMs: u32, preserveLoad: bool, armFeedbackValid: bool, leftHoldQueued: bool,
    actionsCompleted: bool, actionsCompletedMs: u32, leftPose: ArmPose, rightPose: ArmPose, config: StopConfig,
    leftZeroAfter: u32, leftHoldAfter: u32, rightHoldAfter: u32)

  const NO_POSE: ArmPose := [0, 0, 0, 0, 0, 0]
  const IDLE_STOP: StopState := StopState(
    Idle, 0, false, false, false, false, 0, NO_POSE, NO_POSE, StopConfig(0, 0, 0, 0, 0), 0, 0, 0)

  predicate ValidStopConfig(c: StopConfig) {
    && 0 < c.timeoutMs < HALF && 0 < c.feedbackMaxAgeMs < HALF && 0 < c.zeroBudgetUs && 0 < c.holdBudgetUs
    && c.zeroBudgetUs < c.jobLifetimeUs < HALF && c.holdBudgetUs < c.jobLifetimeUs
  }

  predicate Reachable(p: ArmPose) {
    forall i :: 0 <= i < 6 ==> p[i] < 4096
  }

  // ---- begin ----------------------------------------------------------------

  function StopSubmitted(r: RouterState, frame: seq<u8>, us: u32, lifetime: u32, budget: u32): (RouterState, bool) {
    Submitted(r, STOP, frame, us, Add(us, lifetime), budget)
  }

  datatype Both = Both(stop: StopState, left: RouterState, right: RouterState)

  function Forgotten(s: StopState): StopState {
    s.(armFeedbackValid := false, leftHoldQueued := false, actionsCompleted := false, actionsCompletedMs := 0,
       leftPose := NO_POSE, rightPose := NO_POSE, leftHoldAfter := 0)
  }

  function Started(b: Both, preserve: bool, ms: u32, c: StopConfig): StopState {
    Forgotten(b.stop).(phase := Pending, startedMs := ms, config := c, preserveLoad := preserve,
                       leftZeroAfter := b.left.bus.token, rightHoldAfter := b.right.bus.token)
  }

  /** Both buses are closed to motion in any case; without a usable arm pose only the
      zero speeds are queued. */
  function Begun(b: Both, lp: ArmPose, rp: ArmPose, valid: bool, preserve: bool, us: u32, ms: u32, c: StopConfig): (Both, bool) {
    if b.stop.phase != Idle || !ValidStopConfig(c) then (b, false)
    else
      var s := Started(b, preserve, ms, c);
      var (left, zeroQueued) := StopSubmitted(Silenced(b.left), StopFrame(), us, c.jobLifetimeUs, c.zeroBudgetUs);
      if !valid || !Reachable(lp) || !Reachable(rp) then (Both(s, left, Silenced(b.right)), false)
      else
        var (right, holdQueued) := StopSubmitted(Silenced(b.right), HoldFrame(rp), us, c.jobLifetimeUs, c.holdBudgetUs);
        (Both(s.(leftPose := lp, rightPose := rp, armFeedbackValid := true), left, right), holdQueued && zeroQueued)
  }

  // ---- poll -----------------------------------------------------------------

  /** The last completed transfer was this stop frame, under a token later than `after`. */
  predicate Received(r: RouterState, after: u32, frame: seq<u8>) {
    && !r.bus.active && !r.bus.faulted && r.receipt.token > after && r.receipt.kind == STOP && r.receipt.bytes == frame
  }

  predicate LeftHoldDue(s: StopState, left: RouterState) {
    && s.armFeedbackValid && !s.leftHoldQueued && !left.jobs[0].pending && Received(left, s.leftZeroAfter, StopFrame())
  }

  /** The zero speeds have gone out: the left arm's hold is next. */
  function LeftHoldQueued(b: Both, us: u32): Both {
    if !LeftHoldDue(b.stop, b.left) then b
    else
      var (left, ok) := StopSubmitted(b.left, HoldFrame(b.stop.leftPose), us, b.stop.config.jobLifetimeUs,
                                      b.stop.config.holdBudgetUs);
      b.(stop := b.stop.(leftHoldAfter := b.left.bus.token, leftHoldQueued := ok), left := left)
  }

  predicate Written(b: Both) {
    && b.stop.leftHoldQueued && !b.left.jobs[0].pending && !b.right.jobs[0].pending
    && Received(b.left, b.stop.leftHoldAfter, HoldFrame(b.stop.leftPose))
    && Received(b.right, b.stop.rightHoldAfter, HoldFrame(b.stop.rightPose))
  }

  predicate ProofHolds(s: StopState, p: Proof, now: u32) {
    && Sub(now, p.observedMs) < s.config.feedbackMaxAgeMs && After(p.observedMs, s.actionsCompletedMs)
    && p.baseStopped && p.liftHolding && p.armsHolding && (s.preserveLoad ==> p.loadRetained)
  }

  function Marked(s: StopState, written: bool, now: u32): StopState {
    if written && !s.actionsCompleted then s.(actionsCompleted := true, actionsCompletedMs := now) else s
  }

  function Judged(s: StopState, written: bool, proof: Option<Proof>, now: u32): StopState {
    if written && proof.Some? && ProofHolds(s, proof.value, now) then s.(phase := Confirmed)
    else if s.phase == Confirmed || Sub(now, s.startedMs) >= s.config.timeoutMs then s.(phase := Unconfirmed)
    else s
  }

  function PolledStop(b: Both, proof: Option<Proof>, us: u32, now: u32): Both {
    if b.stop.phase == Idle then b
    else
      var q := LeftHoldQueued(b, us);
      q.(stop := Judged(Marked(q.stop, Written(q), now), Written(q), proof, now))
  }

  // ---- the stop object ------------------------------------------------------

  class SystemStopObject {
    const left: Router
    const right: Router
    var phase: StopPhase
    var startedMs: u32
    var preserveLoad: bool
    var armFeedbackValid: bool
    var leftHoldQueued: bool
    var actionsCompleted: bool
    var actionsCompletedMs: u32
    var leftPose: ArmPose
    var rightPose: ArmPose
    var config: StopConfig
    var leftZeroAfter: u32
    var leftHoldAfter: u32
    var rightHoldAfter: u32

    /** Two separate buses. */
    ghost predicate Valid() {
      && left.Valid() && right.Valid() && left != right && left.bus != right.bus && left.jobs != right.jobs
    }

    ghost function Own(): StopState
      reads this
    {
      StopState(phase, startedMs, preserveLoad, armFeedbackValid, leftHoldQueued, actionsCompleted, actionsCompletedMs,
                leftPose, rightPose, config, leftZeroAfter, leftHoldAfter, rightHoldAfter)
    }

    ghost function State(): Both
      requires Valid()
      reads this, left, left.bus, left.jobs, right, right.bus, right.jobs
    {
      Both(Own(), left.State(), right.State())
    }

    constructor (l: Router, r: Router)
      requires l.Valid() && r.Valid() && l != r && l.bus != r.bus && l.jobs != r.jobs
      ensures Valid() && left == l && right == r && State() == Both(IDLE_STOP, l.State(), r.State())
    {
      left, right, phase, startedMs, preserveLoad, armFeedbackValid := l, r, Idle, 0, false, false;
      leftHoldQueued, actionsCompleted, actionsCompletedMs, leftPose, rightPose := false, false, 0, NO_POSE, NO_POSE;
      config, leftZeroAfter, leftHoldAfter, rightHoldAfter := StopConfig(0, 0, 0, 0, 0), 0, 0, 0;
    }

    method Silence(r: Router)
      requires r.Valid()
      modifies r, r.bus
      ensures r.State() == Silenced(old(r.State()))
    {
      r.inhibited := true;
      r.bus.RequestStop();
    }

    method IsReachable(p: ArmPose) returns (ok: bool)
      ensures ok <==> Reachable(p)
    {
      for i := 0 to 6
        invariant forall k :: 0 <= k < i ==> p[k] < 4096
      {
        if p[i] >= 4096 { return false; }
      }
      ok := true;
    }

    /** Forgets the progress of any earlier stop. */
    method Forget()
      modifies this
      ensures Own() == Forgotten(old(Own()))
    {
      armFeedbackValid, leftHoldQueued, actionsCompleted, actionsCompletedMs := false, false, false, 0;
      leftPose, rightPose, leftHoldAfter := NO_POSE, NO_POSE, 0;
    }

    method Start(preserve: bool, ms: u32, c: StopConfig)
      requires Valid()
      modifies this
      ensures State() == Both(Started(old(State()), preserve, ms, c), old(left.State()), old(right.State()))
    {
      Forget();
      phase, startedMs, preserveLoad, config := Pending, ms, preserve, c;
      leftZeroAfter, rightHoldAfter := left.bus.token, right.bus.token;
    }

    /** Keeps both poses and queues the right arm's hold. */
    method QueueRightHold(lp: ArmPose, rp: ArmPose, us: u32) returns (ok: bool)
      requires Valid()
      modifies this, right, right.bus, right.jobs
      ensures var (r, held) := StopSubmitted(old(right.State()), HoldFrame(rp), us, config.jobLifetimeUs, config.holdBudgetUs);
              && ok == held
              && State() == Both(old(Own()).(leftPose := lp, rightPose := rp, armFeedbackValid := true), old(left.State()), r)
    {
      hide Submitted, HoldFrame;
      leftPose, rightPose, armFeedbackValid := lp, rp, true;
      var hold := HoldPacket(RightArm, rp);
      ok := right.Submit(STOP, hold, us, Add(us, config.jobLifetimeUs), config.holdBudgetUs);
    }

    method Begin(lp: ArmPose, rp: ArmPose, valid: bool, preserve: bool, us: u32, ms: u32, c: StopConfig) returns (ok: bool)
      requires Valid()
      modifies this, left, left.bus, left.jobs, right, right.bus, right.jobs
      ensures (State(), ok) == Begun(old(State()), lp, rp, valid, preserve, us, ms, c)
    {
      hide Submitted, StopFrame, HoldFrame, Reachable, Forgotten, Silenced;
      if phase != Idle || !ValidStopConfig(c) { return false; }
      Start(preserve, ms, c);
      Silence(left);
      Silence(right);
      ok := left.Submit(STOP, StopFrame(), us, Add(us, c.jobLifetimeUs), c.zeroBudgetUs);
      var leftOk := IsReachable(lp);
      var rightOk := IsReachable(rp);
      if !valid || !leftOk || !rightOk { return false; }
      var held := QueueRightHold(lp, rp, us);
      ok := held && ok;
    }

    method QueueLeftHold(us: u32)
      requires Valid()
      modifies this, left, left.bus, left.jobs
      ensures State() == LeftHoldQueued(old(State()), us)
    {
      hide Submitted, StopFrame, HoldFrame;
      assert left.jobs[0] == State().left.jobs[0];
      if !armFeedbackValid || leftHoldQueued || left.jobs[0].pending { return; }
      if left.bus.active || left.bus.faulted || left.receipt.token <= leftZeroAfter ||
         left.receipt.kind != STOP || left.receipt.bytes != StopFrame() {
        return;
      }
      leftHoldAfter := left.bus.token;
      var hold := HoldPacket(LeftArm, leftPose);
      leftHoldQueued := left.Submit(STOP, hold, us, Add(us, config.jobLifetimeUs), config.holdBudgetUs);
    }

    method IsWritten() returns (written: bool)
      requires Valid()
      ensures written <==> Written(State())
    {
      hide HoldFrame;
      assert left.jobs[0] == State().left.jobs[0] && right.jobs[0] == State().right.jobs[0];
      written := leftHoldQueued && !left.jobs[0].pending && !right.jobs[0].pending;
      written := written && !left.bus.active && !left.bus.faulted && left.receipt.token > leftHoldAfter &&
                 left.receipt.kind == STOP && left.receipt.bytes == HoldFrame(leftPose);
      written := written && !right.bus.active && !right.bus.faulted && right.receipt.token > rightHoldAfter &&
                 right.receipt.kind == STOP && right.receipt.bytes == HoldFrame(rightPose);
    }

    /** Notes when the writes were first complete, then confirms or revokes. */
    method Judge(written: bool, proof: Option<Proof>, now: u32)
      modifies this
      ensures Own() == Judged(Marked(old(Own()), written, now), written, proof, now)
    {
      if written && !actionsCompleted {
        actionsCompleted, actionsCompletedMs := true, now;
      }
      if written && proof.Some? {
        var p := proof.value;
        if Sub(now, p.observedMs) < config.feedbackMaxAgeMs && Sub(p.observedMs, actionsCompletedMs) != 0 &&
           Sub(p.observedMs, actionsCompletedMs) < HALF && p.baseStopped && p.liftHolding && p.armsHolding &&
           (!preserveLoad || p.loadRetained) {
          phase := Confirmed;
          return;
        }
      }
      if phase == Confirmed || Sub(now, startedMs) >= config.timeoutMs {
        phase := Unconfirmed;
      }
    }

    method Poll(proof: Option<Proof>, us: u32, now: u32)
      requires Valid()
      modifies this, left, left.bus, left.jobs
      ensures State() == PolledStop(old(State()), proof, us, now)
    {
      hide LeftHoldQueued, Written, Judged, Marked;
      if phase == Idle { return; }
      QueueLeftHold(us);
      var written := IsWritten();
      Judge(written, proof, now);
    }
  }
}

// The lift column: a single-turn encoder accumulated into a height, homing against a
// contact current, moves with a slow-down, and holding that must be evidenced.
module LiftController {
  import opened Words

  datatype LiftConfig = LiftConfig(
    umPerTurn: i32, maximumHeightUm: i32, toleranceUm: i32, maximumSpeed: i32, homingSpeed: i32, stoppedSpeed: i32,
    slowdownDistanceUm: i32, homeCurrentMa: i32, maximumCurrentMa: i32,
    feedbackTimeoutMs: u32, homingTimeoutMs: u32, contactDwellMs: u32, maximumEncoderStep: u16, encoderUp: int)

  datatype LiftFeedback = LiftFeedback(
    observedMs: u32, positionRaw: u16, velocityRaw: i32, currentMa: i32, healthy: bool, holdVerified: bool)

  datatype LiftState = Unhomed | Homing | LiftReady | Moving | HoldPending | Holding | LiftFault

  datatype LiftReason = LiftOk | BadFeedback | HomingTimeout | EncoderJump | TravelLimit | OverCurrent

  datatype Lift = Lift(
    config: LiftConfig, state: LiftState, fault: LiftReason, haveSample: bool, homed: bool, contactTracking: bool,
    observedMs: u32, homingStartedMs: u32, contactStartedMs: u32, previousRaw: u16,
    accumulated: int, home: int, heightUm: i32, targetUm: i32, command: i32,
    feedback: LiftFeedback, zeroSent: bool, zeroSentMs: u32)

  predicate ValidConfig(c: LiftConfig) {
    && 0 < c.umPerTurn <= 10000000 && 0 < c.maximumHeightUm <= 10000000
    && 0 < c.toleranceUm < c.maximumHeightUm
    && 0 < c.maximumSpeed <= 32767 && 0 < c.homingSpeed <= c.maximumSpeed
    && 0 <= c.stoppedSpeed < c.homingSpeed && c.slowdownDistanceUm > c.toleranceUm
    && 0 < c.homeCurrentMa < c.maximumCurrentMa
    && 0 < c.feedbackTimeoutMs < HALF && 0 < c.homingTimeoutMs < HALF
    && 0 < c.contactDwellMs < c.homingTimeoutMs
    && 0 < c.maximumEncoderStep < 2048 && (c.encoderUp == 1 || c.encoderUp == -1)
  }

  const NO_SAMPLE: LiftFeedback := LiftFeedback(0, 0, 0, 0, false, false)

  function Configured(c: LiftConfig): Lift {
    Lift(c, Unhomed, LiftOk, false, false, false, 0, 0, 0, 0, 0, 0, 0, 0, 0, NO_SAMPLE, false, 0)
  }

  predicate Fresh(l: Lift, now: u32) {
    l.haveSample && Sub(now, l.observedMs) < l.config.feedbackTimeoutMs
  }

  predicate Slow(velocity: i32, bound: i32) {
    -(bound as int) <= velocity <= bound
  }

  predicate Stopped(l: Lift) {
    Slow(l.feedback.velocityRaw, l.config.stoppedSpeed)
  }

  function Faulted(l: Lift, reason: LiftReason): Lift {
    l.(fault := reason, state := LiftFault, command := 0, homed := false)
  }

  function ResetLift(l: Lift): Lift {
    l.(state := Unhomed, fault := LiftOk, command := 0, homed := false, haveSample := false,
       contactTracking := false, accumulated := 0, home := 0)
  }

  // ---- poll -----------------------------------------------------------------

  /** Speed towards the target: proportional inside the slow-down distance, at least one
      unit, at most the maximum. */
  function ApproachSpeed(c: LiftConfig, magnitude: nat): int {
    var speed := if c.slowdownDistanceUm > 0 then TruncDiv(c.maximumSpeed * magnitude, c.slowdownDistanceUm) else 0;
    var limited := if speed > c.maximumSpeed then c.maximumSpeed as int else speed;
    if limited < 1 then 1 else limited
  }

  function MoveStep(l: Lift): Lift {
    var error := l.targetUm as int - l.heightUm;
    if Abs(error) <= l.config.toleranceUm then l.(state := HoldPending, command := 0, zeroSent := false)
    else
      var speed := ApproachSpeed(l.config, Abs(error));
      l.(command := ToI32(if error < 0 then -speed else speed))
  }

  predicate OutsideTravel(l: Lift) {
    l.homed && (l.heightUm < -(l.config.toleranceUm as int) || l.heightUm > l.config.maximumHeightUm)
  }

  /** The hold evidence: a reported zero, then a strictly newer sample at rest. */
  predicate HoldProven(l: Lift) {
    l.zeroSent && 0 < Sub(l.observedMs, l.zeroSentMs) < HALF && Stopped(l) && l.feedback.holdVerified
  }

  predicate HoldBroken(l: Lift) {
    !Stopped(l) || !l.feedback.holdVerified || Distance(l.heightUm, l.targetUm) > l.config.toleranceUm
  }

  function Drive(l: Lift, now: u32): Lift {
    if l.state == Homing then
      if Sub(now, l.homingStartedMs) >= l.config.homingTimeoutMs then Faulted(l, HomingTimeout)
      else l.(command := ToI32(-(l.config.homingSpeed as int)))
    else if OutsideTravel(l) then Faulted(l, TravelLimit)
    else if l.state == Moving then MoveStep(l)
    else l
  }

  function Settle(l: Lift): Lift {
    var s := if l.state == HoldPending && HoldProven(l) then l.(state := Holding, command := 0) else l;
    if (s.state == Holding || s.state == LiftReady) && HoldBroken(s) then Faulted(s, BadFeedback) else s
  }

  function PollLift(l: Lift, now: u32): Lift {
    if l.state == LiftFault || l.state == Unhomed then l
    else if !Fresh(l, now) || !l.feedback.healthy then Faulted(l, BadFeedback)
    else if l.feedback.currentMa > l.config.maximumCurrentMa then Faulted(l, OverCurrent)
    else
      var d := Drive(l, now);
      if l.state == Homing && d.state == LiftFault then d else Settle(d)
  }

  // ---- observe --------------------------------------------------------------

  predicate AcceptableSample(l: Lift, f: LiftFeedback, now: u32) {
    && f.positionRaw < 4096 && -32767 <= f.velocityRaw <= 32767 && f.currentMa >= 0
    && Sub(now, f.observedMs) < l.config.feedbackTimeoutMs
    && (l.haveSample ==> 0 < Sub(f.observedMs, l.observedMs) < HALF)
  }

  /** Encoder difference folded into half a turn either way. */
  function EncoderDelta(now: int, before: int): int {
    var delta := now - before;
    if delta > 2048 then delta - 4096 else if delta < -2048 then delta + 4096 else delta
  }

  predicate JumpedTo(l: Lift, raw: u16) {
    Abs(EncoderDelta(raw, l.previousRaw)) > l.config.maximumEncoderStep || Abs(l.accumulated) > 1000000000
  }

  predicate Jumped(l: Lift, f: LiftFeedback) {
    l.haveSample && JumpedTo(l, f.positionRaw)
  }

  function NextCount(l: Lift, raw: u16): int {
    l.accumulated + EncoderDelta(raw, l.previousRaw) * l.config.encoderUp
  }

  function Height(l: Lift): int {
    TruncDiv((l.accumulated - l.home) * l.config.umPerTurn, 4096)
  }

  /** The sample taken in, before any reaction to it. */
  function Sampled(l: Lift, f: LiftFeedback): Lift {
    l.(accumulated := if l.haveSample then NextCount(l, f.positionRaw) else l.accumulated,
       previousRaw := f.positionRaw, observedMs := f.observedMs, feedback := f, haveSample := true)
  }

  predicate InContact(l: Lift, f: LiftFeedback) {
    f.healthy && Slow(f.velocityRaw, l.config.stoppedSpeed) && l.config.homeCurrentMa <= f.currentMa <= l.config.maximumCurrentMa
  }

  function TrackContact(l: Lift, f: LiftFeedback): Lift {
    if !InContact(l, f) then l.(contactTracking := false)
    else if !l.contactTracking then l.(contactTracking := true, contactStartedMs := f.observedMs)
    else if Sub(f.observedMs, l.contactStartedMs) >= l.config.contactDwellMs then
      l.(home := l.accumulated, heightUm := 0, targetUm := 0, homed := true, state := HoldPending, command := 0,
         zeroSent := false)
    else l
  }

  function Measured(l: Lift, f: LiftFeedback): Lift {
    var s := Sampled(l, f);
    if s.homed then s.(heightUm := ToI32(Height(s))) else s
  }

  /** An acceptable sample taken in, unless it is a jump or leaves the height's range. */
  function Absorbed(l: Lift, f: LiftFeedback): (Lift, bool) {
    if Jumped(l, f) then (Faulted(l, EncoderJump), false)
    else if l.homed && !(-HALF <= Height(Sampled(l, f)) < HALF) then (Faulted(Sampled(l, f), TravelLimit), false)
    else (Measured(l, f), true)
  }

  function ObserveLift(l: Lift, f: LiftFeedback, now: u32): (Lift, bool) {
    var p := PollLift(l, now);
    if !AcceptableSample(p, f, now) then (p, false)
    else
      var (m, ok) := Absorbed(p, f);
      if !ok then (m, false) else (PollLift(if m.state == Homing then TrackContact(m, f) else m, now), true)
  }

  // ---- commands -------------------------------------------------------------

  function HomeLift(l: Lift, now: u32): (Lift, bool) {
    var p := PollLift(l, now);
    if p.state != Unhomed || !Fresh(p, now) || !p.feedback.healthy || !Stopped(p) ||
       p.feedback.currentMa > p.config.maximumCurrentMa then (p, false)
    else (p.(homingStartedMs := now, contactTracking := false, state := Homing,
             command := ToI32(-(p.config.homingSpeed as int))), true)
  }

  function MoveLift(l: Lift, height: i32, now: u32): (Lift, bool) {
    var p := PollLift(l, now);
    if !p.homed || (p.state != LiftReady && p.state != Holding) || height < 0 || height > p.config.maximumHeightUm ||
       !Fresh(p, now) then (p, false)
    else (PollLift(p.(targetUm := height, state := Moving), now), true)
  }

  function CancelLift(l: Lift): Lift {
    if l.state == LiftFault || l.state == HoldPending || l.state == Holding then l
    else l.(command := 0, contactTracking := false, targetUm := l.heightUm,
            state := if l.homed then HoldPending else Unhomed, zeroSent := false)
  }

  function InhibitLift(l: Lift, reason: LiftReason): Lift {
    Faulted(l, if reason == LiftOk then BadFeedback else reason)
  }

  function ZeroReported(l: Lift, now: u32): Lift {
    if l.state == HoldPending && !l.zeroSent then l.(zeroSent := true, zeroSentMs := now) else l
  }

  // ---- the lift object ------------------------------------------------------

  class LiftObject {
    const config: LiftConfig
    var state: LiftState
    var fault: LiftReason
    var haveSample: bool
    var homed: bool
    var contactTracking: bool
    var observedMs: u32
    var homingStartedMs: u32
    var contactStartedMs: u32
    var previousRaw: u16
    var accumulated: int
    var home: int
    var heightUm: i32
    var targetUm: i32
    var command: i32
    var feedback: LiftFeedback
    var zeroSent: bool
    var zeroSentMs: u32

    ghost function State(): Lift
      reads this
    {
      Lift(config, state, fault, haveSample, homed, contactTracking, observedMs, homingStartedMs, contactStartedMs,
           previousRaw, accumulated, home, heightUm, targetUm, command, feedback, zeroSent, zeroSentMs)
    }

    constructor (c: LiftConfig)
      requires ValidConfig(c)
      ensures State() == Configured(c)
    {
      config, state, fault, haveSample, homed, contactTracking := c, Unhomed, LiftOk, false, false, false;
      observedMs, homingStartedMs, contactStartedMs, previousRaw, accumulated, home := 0, 0, 0, 0, 0, 0;
      heightUm, targetUm, command, feedback, zeroSent, zeroSentMs := 0, 0, 0, NO_SAMPLE, false, 0;
    }

    /** Enters a state without motion or origin. */
    method Clear(next: LiftState, reason: LiftReason)
      modifies this
      ensures State() == old(State()).(state := next, fault := reason, command := 0, homed := false)
    {
      state, fault, command, homed := next, reason, 0, false;
    }

    method Fault(reason: LiftReason)
      modifies this
      ensures State() == Faulted(old(State()), reason)
    {
      Clear(LiftFault, reason);
    }

    method Reset()
      modifies this
      ensures State() == ResetLift(old(State()))
    {
      Clear(Unhomed, LiftOk);
      haveSample, contactTracking, accumulated, home := false, false, 0, 0;
    }

    /** Commands no motion and waits for a reported zero. */
    method AwaitHold(known: bool)
      modifies this
      ensures State() == old(State()).(state := HoldPending, command := 0, zeroSent := false, homed := known)
    {
      state, command, zeroSent, homed := HoldPending, 0, false, known;
    }

    method DriveTowards(now: u32)
      requires ValidConfig(config)
      modifies this
      ensures State() == Drive(old(State()), now)
    {
      if state == Homing {
        if Sub(now, homingStartedMs) >= config.homingTimeoutMs {
          Fault(HomingTimeout);
        } else {
          command := ToI32(-(config.homingSpeed as int));
        }
      } else if homed && (heightUm < -(config.toleranceUm as int) || heightUm > config.maximumHeightUm) {
        Fault(TravelLimit);
      } else if state == Moving {
        var error := targetUm as int - heightUm;
        if Abs(error) <= config.toleranceUm {
          AwaitHold(homed);
        } else {
          var speed := ApproachSpeed(config, Abs(error));
          command := ToI32(if error < 0 then -speed else speed);
        }
      }
    }

    method Poll(now: u32)
      requires ValidConfig(config)
      modifies this
      ensures State() == PollLift(old(State()), now)
    {
      hide ApproachSpeed;
      if state == LiftFault || state == Unhomed { return; }
      if !haveSample || Sub(now, observedMs) >= config.feedbackTimeoutMs || !feedback.healthy {
        Fault(BadFeedback);
        return;
      }
      if feedback.currentMa > config.maximumCurrentMa {
        Fault(OverCurrent);
        return;
      }
      var homing := state == Homing;
      DriveTowards(now);
      if homing && state == LiftFault { return; }
      SettleHold();
    }

    method SettleHold()
      modifies this
      ensures State() == Settle(old(State()))
    {
      if state == HoldPending && zeroSent && Sub(observedMs, zeroSentMs) != 0 && Sub(observedMs, zeroSentMs) < HALF &&
         Slow(feedback.velocityRaw, config.stoppedSpeed) && feedback.holdVerified {
        state, command := Holding, 0;
      }
      if (state == Holding || state == LiftReady) &&
         (!Slow(feedback.velocityRaw, config.stoppedSpeed) || !feedback.holdVerified ||
          heightUm as int - targetUm > config.toleranceUm || targetUm as int - heightUm > config.toleranceUm) {
        Fault(BadFeedback);
      }
    }

    /** Accumulates the folded encoder difference, unless it is a jump. */
    method Accumulate(raw: u16) returns (ok: bool)
      requires haveSample
      modifies this
      ensures ok == !JumpedTo(old(State()), raw)
      ensures State() == if ok then old(State()).(accumulated := NextCount(old(State()), raw))
                         else Faulted(old(State()), EncoderJump)
    {
      var delta := EncoderDelta(raw, previousRaw);
      if Abs(delta) > config.maximumEncoderStep || accumulated > 1000000000 || accumulated < -1000000000 {
        Fault(EncoderJump);
        return false;
      }
      accumulated := accumulated + delta * config.encoderUp;
      ok := true;
    }

    /** Takes an acceptable sample in. */
    method Absorb(f: LiftFeedback) returns (ok: bool)
      modifies this
      ensures (State(), ok) == Absorbed(old(State()), f)
    {
      hide JumpedTo, NextCount;
      if haveSample {
        var steady := Accumulate(f.positionRaw);
        if !steady { return false; }
      }
      previousRaw, observedMs, feedback, haveSample := f.positionRaw, f.observedMs, f, true;
      if homed {
        var height := TruncDiv((accumulated - home) * config.umPerTurn, 4096);
        if height < -HALF || height >= HALF {
          Fault(TravelLimit);
          return false;
        }
        heightUm := ToI32(height);
      }
      ok := true;
    }

    method Observe(f: LiftFeedback, now: u32) returns (ok: bool)
      requires ValidConfig(config)
      modifies this
      ensures (State(), ok) == ObserveLift(old(State()), f, now)
    {
      hide PollLift, Absorbed, TrackContact;
      Poll(now);
      if f.positionRaw >= 4096 || f.velocityRaw < -32767 || f.velocityRaw > 32767 || f.currentMa < 0 ||
         Sub(now, f.observedMs) >= config.feedbackTimeoutMs ||
         (haveSample && (Sub(f.observedMs, observedMs) == 0 || Sub(f.observedMs, observedMs) >= HALF)) {
        return false;
      }
      ok := Absorb(f);
      if !ok { return; }
      if state == Homing {
        Track(f);
      }
      Poll(now);
    }

    method Track(f: LiftFeedback)
      modifies this
      ensures State() == TrackContact(old(State()), f)
    {
      if f.healthy && Slow(f.velocityRaw, config.stoppedSpeed) && f.currentMa >= config.homeCurrentMa &&
         f.currentMa <= config.maximumCurrentMa {
        if !contactTracking {
          contactTracking, contactStartedMs := true, f.observedMs;
        } else if Sub(f.observedMs, contactStartedMs) >= config.contactDwellMs {
          home, heightUm, targetUm := accumulated, 0, 0;
          AwaitHold(true);
        }
      } else {
        contactTracking := false;
      }
    }

    method Home(now: u32) returns (ok: bool)
      requires ValidConfig(config)
      modifies this
      ensures (State(), ok) == HomeLift(old(State()), now)
    {
      hide PollLift;
      Poll(now);
      if state != Unhomed || !haveSample || Sub(now, observedMs) >= config.feedbackTimeoutMs || !feedback.healthy ||
         !Slow(feedback.velocityRaw, config.stoppedSpeed) || feedback.currentMa > config.maximumCurrentMa {
        return false;
      }
      homingStartedMs, contactTracking, state, command := now, false, Homing, ToI32(-(config.homingSpeed as int));
      ok := true;
    }

    method Move(height: i32, now: u32) returns (ok: bool)
      requires ValidConfig(config)
      modifies this
      ensures (State(), ok) == MoveLift(old(State()), height, now)
    {
      hide PollLift;
      Poll(now);
      if !homed || (state != LiftReady && state != Holding) || height < 0 || height > config.maximumHeightUm ||
         !haveSample || Sub(now, observedMs) >= config.feedbackTimeoutMs {
        return false;
      }
      targetUm, state := height, Moving;
      Poll(now);
      ok := true;
    }

    method Cancel()
      modifies this
      ensures State() == CancelLift(old(State()))
    {
      if state == LiftFault || state == HoldPending || state == Holding { return; }
      command, contactTracking, targetUm := 0, false, heightUm;
      state, zeroSent := if homed then HoldPending else Unhomed, false;
    }

    method Inhibit(reason: LiftReason)
      modifies this
      ensures State() == InhibitLift(old(State()), reason)
    {
      Fault(if reason == LiftOk then BadFeedback else reason);
    }

    method ReportZero(now: u32)
      modifies this
      ensures State() == ZeroReported(old(State()), now)
    {
      if state == HoldPending && !zeroSent {
        zeroSent, zeroSentMs := true, now;
      }
    }
  }
}

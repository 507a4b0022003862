// What each lift operation does in every case: when it is granted, when it faults and why,
// which way and how fast a move drives, and what the height means.
module LiftLaws {
  import opened Words
  import opened Division
  import opened Lerp
  import opened LiftController
  import opened LiftEvidence

  // ---- polling --------------------------------------------------------------

  /** States in which the lift is watched. */
  predicate Watched(l: Lift) {
    l.state != LiftFault && l.state != Unhomed
  }

  predicate Stale(l: Lift, now: u32) {
    !l.haveSample || Sub(now, l.observedMs) >= l.config.feedbackTimeoutMs || !l.feedback.healthy
  }

  predicate Still(l: Lift) {
    -(l.config.stoppedSpeed as int) <= l.feedback.velocityRaw <= l.config.stoppedSpeed
  }

  /** A pending hold is proven: a zero was reported, and a strictly newer sample stands still
      with the hold verified. */
  predicate Proven(l: Lift) {
    && l.state == HoldPending && l.zeroSent && 0 < Sub(l.observedMs, l.zeroSentMs) < HALF
    && Still(l) && l.feedback.holdVerified
  }

  /** Away from the target by more than the tolerance. */
  predicate OffTarget(l: Lift) {
    !(-(l.config.toleranceUm as int) <= l.heightUm as int - l.targetUm <= l.config.toleranceUm)
  }

  predicate BeyondTravel(l: Lift) {
    l.homed && !(-(l.config.toleranceUm as int) <= l.heightUm <= l.config.maximumHeightUm)
  }

  predicate HomingLate(l: Lift, now: u32) {
    l.state == Homing && Sub(now, l.homingStartedMs) >= l.config.homingTimeoutMs
  }

  /** A hold, present or just proven, that does not hold. */
  predicate HoldFails(l: Lift) {
    && (l.state == Holding || l.state == LiftReady || Proven(l))
    && (!Still(l) || !l.feedback.holdVerified || OffTarget(l))
  }

  predicate Sound(l: Lift, now: u32) {
    Watched(l) && !Stale(l, now) && l.feedback.currentMa <= l.config.maximumCurrentMa
  }

  /** Faults. A watched lift faults in a poll exactly for one of these causes: stale or
      unhealthy feedback or too much current, homing for too long, a height outside the
      travel, a hold that does not hold. A faulted lift commands nothing and has lost its
      origin; one that is not watched is left alone. */
  lemma PollFaultsExactly(l: Lift, now: u32)
    ensures var p := PollLift(l, now);
            && (!Watched(l) ==> p == l)
            && (Watched(l) ==> (p.state == LiftFault <==>
                  !Sound(l, now) || HomingLate(l, now) || (l.state != Homing && (BeyondTravel(l) || HoldFails(l)))))
            && (p.state == LiftFault && Watched(l) ==> p.command == 0 && !p.homed)
            && (p.state != LiftFault ==> p.fault == l.fault && p.homed == l.homed)
  {
    hide Drive, Settle, HoldFails;
    if Sound(l, now) {
      DriveOutcome(l, now);
      if Drive(l, now).state != LiftFault { SettleOutcome(Drive(l, now)); } else { FaultedSettles(Drive(l, now)); }
    }
  }

  lemma DriveOutcome(l: Lift, now: u32)
    requires Watched(l)
    ensures var d := Drive(l, now);
            && (d.state == LiftFault <==> HomingLate(l, now) || (l.state != Homing && BeyondTravel(l)))
            && (d.state == LiftFault ==> d.command == 0 && !d.homed)
            && (d.state != LiftFault ==> d.fault == l.fault && d.homed == l.homed && (HoldFails(d) <==> l.state != Homing && HoldFails(l)))
  {
    hide ApproachSpeed, ToI32;
  }

  lemma SettleOutcome(d: Lift)
    requires d.state != LiftFault
    ensures var s := Settle(d);
            && (s.state == LiftFault <==> HoldFails(d))
            && (s.state == LiftFault ==> s.command == 0 && !s.homed)
            && (s.state != LiftFault ==> s.fault == d.fault && s.homed == d.homed)
  {
  }

  lemma FaultedSettles(d: Lift)
    requires d.state == LiftFault
    ensures Settle(d) == d
  {
  }

  /** The reason recorded is the first that applies, in this order. */
  lemma PollNamesCause(l: Lift, now: u32)
    requires Watched(l)
    ensures var p := PollLift(l, now);
            if Stale(l, now) then p.fault == BadFeedback
            else if l.feedback.currentMa > l.config.maximumCurrentMa then p.fault == OverCurrent
            else if HomingLate(l, now) then p.fault == HomingTimeout
            else if l.state != Homing && BeyondTravel(l) then p.fault == TravelLimit
            else if l.state != Homing && HoldFails(l) then p.fault == BadFeedback
            else p.fault == l.fault
  {
    hide ApproachSpeed, ToI32;
  }

  /** What a poll that does not fault does: homing drives down at the homing speed; a move
      within the tolerance ends in a pending hold; a proven hold is held. */
  lemma PollGoesOn(l: Lift, now: u32)
    requires Watched(l) && PollLift(l, now).state != LiftFault
    ensures var p := PollLift(l, now);
            && (l.state == Homing ==> p == l.(command := ToI32(-(l.config.homingSpeed as int))))
            && (l.state == Moving && !OffTarget(l) ==> p == l.(state := HoldPending, command := 0, zeroSent := false))
            && (l.state == Moving && OffTarget(l) ==> p == l.(command := p.command))
            && (Proven(l) ==> p == l.(state := Holding, command := 0))
            && (l.state in {HoldPending, Holding, LiftReady} && !Proven(l) ==> p == l)
  {
    hide ApproachSpeed;
  }

  /** Which way and how fast. A move that goes on drives towards its target: at the maximum
      speed from the slow-down distance on, below it in proportion to what is left, rounded
      down but never to nothing. */
  lemma MovesTowardsTarget(l: Lift, now: u32)
    requires ValidConfig(l.config) && l.state == Moving && OffTarget(l) && PollLift(l, now).state != LiftFault
    ensures var p := PollLift(l, now);
            var left := Distance(l.targetUm, l.heightUm);
            var speed := Abs(p.command);
            && p.state == Moving && speed > 0
            && (p.command > 0 <==> l.targetUm > l.heightUm)
            && (left >= l.config.slowdownDistanceUm ==> speed == l.config.maximumSpeed)
            && (left < l.config.slowdownDistanceUm ==>
                  && speed <= l.config.maximumSpeed
                  && (speed > 1 ==> speed * l.config.slowdownDistanceUm <= l.config.maximumSpeed * left)
                  && l.config.maximumSpeed * left < (speed + 1) * l.config.slowdownDistanceUm)
  {
    hide ApproachSpeed, PollLift, MoveStep;
    PollIsMove(l, now);
    MoveCommands(l);
    ApproachIsBounded(l.config, Distance(l.targetUm, l.heightUm));
    ApproachIsProportional(l.config, Distance(l.targetUm, l.heightUm));
  }

  lemma PollIsMove(l: Lift, now: u32)
    requires l.state == Moving && OffTarget(l) && PollLift(l, now).state != LiftFault
    ensures PollLift(l, now) == MoveStep(l) && MoveStep(l).state == Moving
  {
    hide ApproachSpeed;
  }

  lemma MoveCommands(l: Lift)
    requires ValidConfig(l.config) && OffTarget(l)
    ensures var speed := ApproachSpeed(l.config, Distance(l.targetUm, l.heightUm));
            MoveStep(l).command == if l.targetUm > l.heightUm then speed else -speed
  {
    hide ApproachSpeed;
    ApproachIsBounded(l.config, Distance(l.targetUm, l.heightUm));
  }

  lemma ApproachIsProportional(c: LiftConfig, left: nat)
    requires ValidConfig(c)
    ensures var speed := ApproachSpeed(c, left);
            && (left >= c.slowdownDistanceUm ==> speed == c.maximumSpeed)
            && (left < c.slowdownDistanceUm ==>
                  && (speed > 1 ==> speed * c.slowdownDistanceUm <= c.maximumSpeed * left)
                  && c.maximumSpeed * left < (speed + 1) * c.slowdownDistanceUm)
  {
    var m, s := c.maximumSpeed as int, c.slowdownDistanceUm as int;
    var q := (m * left) / s;
    assert m * left >= 0;
    assert m * left == q * s + (m * left) % s;
    if left >= s {
      DivMonotone(m * s, m * left, s);
      DivUnique(m * s, s, m, 0);
    } else {
      assert q * s <= m * left < (q + 1) * s;
      ProductBelow(m, left, m, s);
      assert (m + 1) * s == m * s + s;
      QuotientBelow(m * left, s, m);
      if q == 0 { assert (q + 1) * s <= 2 * s; }
    }
  }

  // ---- commands -------------------------------------------------------------

  /** Homing is granted exactly to an unhomed lift with a fresh, healthy sample, standing
      still and within its current limit; it starts the clock and drives down. */
  lemma HomeIsExact(l: Lift, now: u32)
    ensures var (h, ok) := HomeLift(l, now);
            && (ok <==> l.state == Unhomed && !Stale(l, now) && Still(l) && l.feedback.currentMa <= l.config.maximumCurrentMa)
            && (ok ==> h == l.(state := Homing, homingStartedMs := now, contactTracking := false,
                               command := ToI32(-(l.config.homingSpeed as int))))
            && (!ok ==> h == PollLift(l, now))
  {
    hide Drive, Settle;
    PollKeepsMeasurement(l, now);
    PollNeverUnhomes(l, now);
  }

  lemma PollNeverUnhomes(l: Lift, now: u32)
    ensures PollLift(l, now).state == Unhomed <==> l.state == Unhomed
  {
    hide ApproachSpeed, HoldProven, HoldBroken, OutsideTravel, Fresh;
  }

  /** A move is granted exactly when the poll before it leaves the lift homed and held, or
      ready, on a fresh sample, and the height lies in the travel. */
  lemma MoveIsExact(l: Lift, height: i32, now: u32)
    ensures var p := PollLift(l, now);
            var (m, ok) := MoveLift(l, height, now);
            && (ok <==> && p.homed && (p.state == Holding || p.state == LiftReady) && 0 <= height <= l.config.maximumHeightUm
                        && p.haveSample && Sub(now, p.observedMs) < p.config.feedbackTimeoutMs)
            && (ok ==> m == PollLift(p.(targetUm := height, state := Moving), now))
            && (!ok ==> m == p)
  {
    hide PollLift;
    PollKeepsMeasurement(l, now);
  }

  /** Cancelling ends any motion at the present height: in a pending hold if the lift is
      homed, else back at the start. It is idempotent. */
  lemma CancelIsExact(l: Lift)
    ensures var c := CancelLift(l);
            && (l.state in {LiftFault, HoldPending, Holding} ==> c == l)
            && (l.state !in {LiftFault, HoldPending, Holding} ==>
                  c == l.(command := 0, contactTracking := false, targetUm := l.heightUm, zeroSent := false,
                          state := if l.homed then HoldPending else Unhomed))
            && (l.homed ==> CancelLift(c) == c)
  {
  }

  /** Only the first zero reported in a pending hold counts. */
  lemma ZeroIsExact(l: Lift, now: u32)
    ensures var z := ZeroReported(l, now);
            if l.state == HoldPending && !l.zeroSent then z == l.(zeroSent := true, zeroSentMs := now) else z == l
  {
  }

  /** Inhibiting faults the lift, always with a cause; a reset forgets origin and samples. */
  lemma InhibitAndReset(l: Lift, reason: LiftReason)
    ensures var i := InhibitLift(l, reason);
            && i.state == LiftFault && i.fault != LiftOk && i.command == 0 && !i.homed
            && (reason != LiftOk ==> i.fault == reason) && (reason == LiftOk ==> i.fault == BadFeedback)
    ensures var r := ResetLift(l);
            && r.state == Unhomed && r.fault == LiftOk && r.command == 0 && !r.homed && !r.haveSample && !r.contactTracking
            && r.accumulated == 0 && r.home == 0
  {
  }

  // ---- samples --------------------------------------------------------------

  /** In range, fresh, and strictly newer than the last. */
  predicate GoodSample(l: Lift, f: LiftFeedback, now: u32) {
    && f.positionRaw < 4096 && -32767 <= f.velocityRaw <= 32767 && f.currentMa >= 0
    && Sub(now, f.observedMs) < l.config.feedbackTimeoutMs
    && (l.haveSample ==> 0 < Sub(f.observedMs, l.observedMs) < HALF)
  }

  /** The encoder moved further than allowed, the shorter way round, or the count is too
      large already. */
  predicate TooFar(l: Lift, f: LiftFeedback) {
    var d := f.positionRaw as int - l.previousRaw;
    var folded := if d > 2048 then d - 4096 else if d < -2048 then d + 4096 else d;
    l.haveSample && (Abs(folded) > l.config.maximumEncoderStep || Abs(l.accumulated) > 1000000000)
  }

  /** What a sample does: a bad one only polls; one that jumps faults; otherwise it is taken
      in, unless the height leaves 32 bits, and the lift is polled again. */
  lemma ObserveIsExact(l: Lift, f: LiftFeedback, now: u32)
    ensures var p := PollLift(l, now);
            var (m, ok) := ObserveLift(l, f, now);
            && (!GoodSample(p, f, now) ==> !ok && m == p)
            && (GoodSample(p, f, now) && TooFar(p, f) ==>
                  !ok && m == p.(fault := EncoderJump, state := LiftFault, command := 0, homed := false))
            && (GoodSample(p, f, now) && !TooFar(p, f) && !ok ==>
                  p.homed && m.state == LiftFault && m.fault == TravelLimit && m.command == 0 && !m.homed)
            && (GoodSample(p, f, now) && !TooFar(p, f) ==>
                  (ok <==> !p.homed || -HALF <= Height(Sampled(p, f)) < HALF))
            && (ok && !p.homed && p.state != Homing ==> m.heightUm == p.heightUm)
            && (ok ==> GoodSample(p, f, now) && !TooFar(p, f) && m.feedback == f && m.observedMs == f.observedMs
                       && m.previousRaw == f.positionRaw && m.haveSample)
  {
    hide PollLift, Height, NextCount, TrackContact;
    PollKeepsMeasurement(l, now);
    var p := PollLift(l, now);
    if GoodSample(p, f, now) {
      AbsorbedEffect(p, f);
      var m := Absorbed(p, f).0;
      ContactEffect(m, f);
      PollKeepsMeasurement(if m.state == Homing then TrackContact(m, f) else m, now);
    }
  }

  /** While homing, what a sample taken in means: one out of contact ends the dwell, the
      first in contact starts it, and one that completes it sets the origin there, at height
      zero, into a pending hold. */
  lemma ContactIsExact(m: Lift, f: LiftFeedback)
    ensures var t := TrackContact(m, f);
            var contact := && f.healthy && -(m.config.stoppedSpeed as int) <= f.velocityRaw <= m.config.stoppedSpeed
                           && m.config.homeCurrentMa <= f.currentMa <= m.config.maximumCurrentMa;
            var dwelt := m.contactTracking && Sub(f.observedMs, m.contactStartedMs) >= m.config.contactDwellMs;
            && (!contact ==> t == m.(contactTracking := false))
            && (contact && !m.contactTracking ==> t == m.(contactTracking := true, contactStartedMs := f.observedMs))
            && (contact && m.contactTracking && !dwelt ==> t == m)
            && (contact && dwelt ==> t == m.(home := m.accumulated, heightUm := 0, targetUm := 0, homed := true,
                                             state := HoldPending, command := 0, zeroSent := false))
  {
  }

  // ---- height ---------------------------------------------------------------

  /** True position of the shaft where it was last homed. */
  function NextHome(l: Lift, home: int, e: Event): int {
    if e.Sample? && Step(l, e).homed && !l.homed then e.position else home
  }

  function FinalHome(l: Lift, home: int, events: seq<Event>): int
    decreases |events|
  {
    if events == [] then home else FinalHome(Step(l, events[0]), NextHome(l, home, events[0]), events[1..])
  }

  /** The height belongs to the present count. */
  predicate HeightHonest(l: Lift) {
    l.homed ==>
      && l.haveSample && l.state != Homing && l.state != Unhomed
      && l.heightUm == TruncDiv((l.accumulated - l.home) * l.config.umPerTurn, 4096)
  }

  lemma PollKeepsHeight(l: Lift, now: u32)
    requires HeightHonest(l)
    ensures HeightHonest(PollLift(l, now)) && (PollLift(l, now).homed ==> l.homed)
  {
    hide PollLift;
    PollKeepsMeasurement(l, now);
    PollKeepsHoming(l, now);
    PollNeverUnhomes(l, now);
  }

  lemma PollKeepsHoming(l: Lift, now: u32)
    ensures PollLift(l, now).state == Homing ==> l.state == Homing
  {
    hide ApproachSpeed, HoldProven, HoldBroken, OutsideTravel, Fresh;
  }

  lemma SampleKeepsHeight(l: Lift, f: LiftFeedback, now: u32)
    requires HeightHonest(l)
    ensures var s := ObserveLift(l, f, now).0;
            && HeightHonest(s) && (s.homed && !l.homed ==> s.home == s.accumulated && Taken(l, f, now))
            && (s.homed && l.homed ==> s.home == l.home)
  {
    hide PollLift, AcceptableSample, Jumped, InContact;
    PollKeepsHeight(l, now);
    PollKeepsMeasurement(l, now);
    var p := PollLift(l, now);
    if AcceptableSample(p, f, now) {
      AbsorbedHeight(p, f);
      var (m, ok) := Absorbed(p, f);
      if ok {
        var t := if m.state == Homing then TrackContact(m, f) else m;
        ZeroHeight(m);
        PollKeepsHeight(t, now);
        PollKeepsMeasurement(t, now);
      }
    }
  }

  lemma ZeroHeight(l: Lift)
    ensures TruncDiv((l.accumulated - l.accumulated) * l.config.umPerTurn, 4096) == 0
  {
    assert (l.accumulated - l.accumulated) * l.config.umPerTurn == 0;
  }

  lemma AbsorbedHeight(p: Lift, f: LiftFeedback)
    requires HeightHonest(p)
    ensures var (m, ok) := Absorbed(p, f);
            && HeightHonest(m) && m.home == p.home && (ok ==> m.homed == p.homed) && (!ok ==> !m.homed)
  {
    hide Jumped, NextCount;
  }

  lemma StepKeepsHeight(l: Lift, e: Event)
    requires HeightHonest(l)
    ensures HeightHonest(Step(l, e))
    ensures !e.Sample? && Step(l, e).homed ==> l.homed && Step(l, e).home == l.home && Step(l, e).heightUm == l.heightUm
    ensures !e.Sample? && Step(l, e).homed ==> Step(l, e).haveSample && Step(l, e).accumulated == l.accumulated
    ensures e.Sample? ==> var s := Step(l, e);
                          && (s.homed && !l.homed ==> s.home == s.accumulated && Taken(l, e.feedback, e.now))
                          && (s.homed && l.homed ==> s.home == l.home)
  {
    hide PollLift, ObserveLift, Fresh;
    match e {
      case Sample(f, _, now) => SampleKeepsHeight(l, f, now);
      case Tick(now) => PollKeepsHeight(l, now); PollKeepsMeasurement(l, now);
      case GoHome(now) => PollKeepsHeight(l, now); PollKeepsMeasurement(l, now); HomedIsNotUnhomed(l, now);
      case GoTo(height, now) =>
        PollKeepsHeight(l, now);
        PollKeepsMeasurement(l, now);
        var p := PollLift(l, now).(targetUm := height, state := Moving);
        PollKeepsHeight(p, now);
        PollKeepsMeasurement(p, now);
      case _ =>
    }
  }

  /** Homing again needs an unhomed lift, whose origin is gone. */
  lemma HomedIsNotUnhomed(l: Lift, now: u32)
    requires HeightHonest(l)
    ensures HeightHonest(HomeLift(l, now).0) && (HomeLift(l, now).0.homed ==> !HomeLift(l, now).1)
  {
    hide PollLift;
    PollKeepsHeight(l, now);
  }

  /** The samples since the last reset, and the position last homed at, are the true ones. */
  predicate TrueHome(l: Lift, t: Truth, home: int) {
    l.homed ==> l.home == l.config.encoderUp * (home - t.first)
  }

  lemma StepKeepsHome(l: Lift, t: Truth, home: int, e: Event)
    requires TrueCount(l, t) && Faithful(l, t, e) && HeightHonest(l) && TrueHome(l, t, home)
    ensures TrueHome(Step(l, e), NextTruth(l, t, e), NextHome(l, home, e))
    ensures Step(l, e).config == l.config
  {
    hide Step, HeightHonest, TrueCount, Taken;
    StepKeepsHeight(l, e);
    StepKeepsTruth(l, t, e);
    StepKeepsConfig(l, e);
    if e.Sample? && Step(l, e).homed && !l.homed {
      CountOfSample(l, t, e);
    } else if e.Sample? && Taken(l, e.feedback, e.now) && l.homed {
      assert l.haveSample by { HomedHasSample(l); }
    }
  }

  lemma HomedHasSample(l: Lift)
    requires HeightHonest(l) && l.homed
    ensures l.haveSample
  {
  }

  lemma StepKeepsConfig(l: Lift, e: Event)
    ensures Step(l, e).config == l.config
  {
    hide PollLift, ObserveLift, Fresh;
    match e {
      case Sample(f, _, now) => SampleEffect(l, f, now);
      case Tick(now) => PollKeepsMeasurement(l, now);
      case GoHome(now) => PollKeepsMeasurement(l, now);
      case GoTo(height, now) =>
        PollKeepsMeasurement(l, now);
        PollKeepsMeasurement(PollLift(l, now).(targetUm := height, state := Moving), now);
      case _ =>
    }
  }

  lemma CountOfSample(l: Lift, t: Truth, e: Event)
    requires TrueCount(l, t) && Faithful(l, t, e) && e.Sample? && Taken(l, e.feedback, e.now)
    ensures var n := NextTruth(l, t, e);
            n.latest == e.position && Step(l, e).accumulated == l.config.encoderUp * (e.position - n.first)
  {
    hide ObserveLift, Taken;
    StepKeepsTruth(l, t, e);
    SampleEffect(l, e.feedback, e.now);
  }

  /** Height. In every run in which the shaft moves at most the configured step between the
      samples taken, a homed lift's height is its true displacement from where it was homed,
      in the configured direction and scale, truncated. */
  lemma {:induction false} HeightIsTrue(l: Lift, t: Truth, home: int, events: seq<Event>)
    requires TrueCount(l, t) && FaithfulRun(l, t, events) && HeightHonest(l) && TrueHome(l, t, home)
    ensures var r := Run(l, events);
            r.homed ==> r.heightUm == TruncDiv(r.config.encoderUp * (FinalTruth(l, t, events).latest - FinalHome(l, home, events))
                                               * r.config.umPerTurn, 4096)
    decreases |events|
  {
    hide Step, TrueCount, Faithful, NextTruth, HeightHonest, TrueHome, NextHome;
    if events == [] {
      if l.homed { HeightFromCount(l, t, home); }
    } else {
      StepKeepsTruth(l, t, events[0]);
      StepKeepsHeight(l, events[0]);
      StepKeepsHome(l, t, home, events[0]);
      HeightIsTrue(Step(l, events[0]), NextTruth(l, t, events[0]), NextHome(l, home, events[0]), events[1..]);
    }
  }

  lemma HeightFromCount(l: Lift, t: Truth, home: int)
    requires TrueCount(l, t) && HeightHonest(l) && TrueHome(l, t, home) && l.homed
    ensures l.heightUm == TruncDiv(l.config.encoderUp * (t.latest - home) * l.config.umPerTurn, 4096)
  {
    assert l.accumulated - l.home == l.config.encoderUp * (t.latest - home);
  }

  /** A configured lift starts with it. */
  lemma ConfiguredHeight(c: LiftConfig, home: int)
    ensures HeightHonest(Configured(c)) && TrueHome(Configured(c), Truth(0, 0), home)
  {
  }
}

// What the lift's numbers and states are evidence of, over every sequence of samples,
// polls, commands and reports.
module LiftEvidence {
  import opened Words
  import opened Lerp
  import opened Division
  import opened LiftController

  /** A sample comes with the true position of the encoder shaft, in counts. */
  datatype Event =
    | Sample(feedback: LiftFeedback, position: int, now: u32)
    | Tick(now: u32)
    | GoHome(now: u32)
    | GoTo(heightUm: i32, now: u32)
    | Cancel
    | Inhibit(reason: LiftReason)
    | Zero(now: u32)
    | Reset

  function Step(l: Lift, e: Event): Lift {
    match e
    case Sample(f, _, now) => ObserveLift(l, f, now).0
    case Tick(now) => PollLift(l, now)
    case GoHome(now) => HomeLift(l, now).0
    case GoTo(height, now) => MoveLift(l, height, now).0
    case Cancel => CancelLift(l)
    case Inhibit(reason) => InhibitLift(l, reason)
    case Zero(now) => ZeroReported(l, now)
    case Reset => ResetLift(l)
  }

  function Run(l: Lift, events: seq<Event>): Lift
    decreases |events|
  {
    if events == [] then l else Run(Step(l, events[0]), events[1..])
  }

  /** The sample is used: acceptable and without an encoder jump. */
  predicate Taken(l: Lift, f: LiftFeedback, now: u32) {
    AcceptableSample(PollLift(l, now), f, now) && !Jumped(PollLift(l, now), f)
  }

  // ---- what polling leaves alone --------------------------------------------

  /** Nothing measured differs, and the state moved only towards a stop. */
  predicate SameMeasurement(l: Lift, p: Lift) {
    && p.config == l.config && p.haveSample == l.haveSample && p.observedMs == l.observedMs
    && p.previousRaw == l.previousRaw && p.accumulated == l.accumulated && p.home == l.home
    && p.heightUm == l.heightUm && p.feedback == l.feedback && p.targetUm == l.targetUm
    && p.contactTracking == l.contactTracking && p.contactStartedMs == l.contactStartedMs
    && (p.homed ==> l.homed) && (p.state == l.state || p.state in {LiftFault, HoldPending, Holding})
    && (p.state == Unhomed ==> p.homed == l.homed)
  }

  lemma DriveKeepsMeasurement(l: Lift, now: u32)
    ensures SameMeasurement(l, Drive(l, now))
  {
    hide ApproachSpeed, OutsideTravel;
  }

  lemma SettleKeepsMeasurement(l: Lift)
    ensures SameMeasurement(l, Settle(l))
  {
    hide HoldProven, HoldBroken;
  }

  /** Polling reacts to the sample but never touches what was measured. */
  lemma PollKeepsMeasurement(l: Lift, now: u32)
    ensures SameMeasurement(l, PollLift(l, now))
  {
    hide Drive, Settle, Fresh;
    DriveKeepsMeasurement(l, now);
    SettleKeepsMeasurement(Drive(l, now));
  }

  /** Taking a sample in changes what it measures, and at most faults the lift. */
  lemma AbsorbedEffect(p: Lift, f: LiftFeedback)
    ensures var (m, ok) := Absorbed(p, f);
            && m.config == p.config && m.home == p.home && m.zeroSent == p.zeroSent && m.zeroSentMs == p.zeroSentMs
            && m.targetUm == p.targetUm
            && (ok ==> m.state == p.state && m.homed == p.homed && m.command == p.command)
            && (!ok ==> m.state == LiftFault && m.command == 0 && !m.homed)
            && (if Jumped(p, f) then
                  !ok && m.haveSample == p.haveSample && m.previousRaw == p.previousRaw && m.accumulated == p.accumulated
                  && m.feedback == p.feedback && m.observedMs == p.observedMs
                else m.haveSample && m.previousRaw == f.positionRaw && m.accumulated == Sampled(p, f).accumulated
                     && m.feedback == f && m.observedMs == f.observedMs)
  {
    hide Jumped, Height, NextCount;
  }

  /** Contact tracking touches the origin, and then stops and waits for the hold. */
  lemma ContactEffect(m: Lift, f: LiftFeedback)
    ensures var t := TrackContact(m, f);
            && t.config == m.config && t.haveSample == m.haveSample && t.previousRaw == m.previousRaw
            && t.accumulated == m.accumulated && t.feedback == m.feedback && t.observedMs == m.observedMs
            && (t.home == m.home || t.home == m.accumulated)
            && (if t.state == m.state then t.command == m.command || t.command == 0
                else t.state == HoldPending && t.command == 0)
            && (t.zeroSent ==> m.zeroSent && t.zeroSentMs == m.zeroSentMs)
            && (m.state == Homing ==> t.state == HoldPending || (t.state == Homing && t.command == m.command))
  {
    hide InContact;
  }

  lemma SampleEffect(l: Lift, f: LiftFeedback, now: u32)
    ensures var s := ObserveLift(l, f, now).0;
            var t := Sampled(l, f);
            && s.config == l.config
            && (if Taken(l, f, now) then
                  s.haveSample && s.previousRaw == f.positionRaw && s.accumulated == t.accumulated && s.feedback == f
                  && s.observedMs == f.observedMs && (s.home == l.home || s.home == t.accumulated)
                else s.haveSample == l.haveSample && s.previousRaw == l.previousRaw && s.accumulated == l.accumulated
                     && s.home == l.home && s.feedback == l.feedback && s.observedMs == l.observedMs)
  {
    hide PollLift, AcceptableSample, Jumped, Absorbed, TrackContact, Sampled;
    PollKeepsMeasurement(l, now);
    var p := PollLift(l, now);
    AbsorbedEffect(p, f);
    SampledCount(l, p, f);
    var m := Absorbed(p, f).0;
    ContactEffect(m, f);
    PollKeepsMeasurement(if m.state == Homing then TrackContact(m, f) else m, now);
  }

  /** Polling first does not change what a sample counts. */
  lemma SampledCount(l: Lift, p: Lift, f: LiftFeedback)
    requires SameMeasurement(l, p)
    ensures Sampled(p, f).accumulated == Sampled(l, f).accumulated
  {
    hide EncoderDelta;
  }

  // ---- truth ----------------------------------------------------------------

  /** True positions of the first and the latest sample taken since the last reset. */
  datatype Truth = Truth(first: int, latest: int)

  function NextTruth(l: Lift, t: Truth, e: Event): Truth {
    if e.Sample? && Taken(l, e.feedback, e.now) then
      if l.haveSample then Truth(t.first, e.position) else Truth(e.position, e.position)
    else t
  }

  /** Readings come from the shaft, and it moves less than the allowed step between samples
      that are taken. */
  predicate Faithful(l: Lift, t: Truth, e: Event) {
    e.Sample? && Taken(l, e.feedback, e.now) ==>
      && e.feedback.positionRaw == e.position % 4096
      && (l.haveSample ==> Distance(e.position, t.latest) <= l.config.maximumEncoderStep)
  }

  predicate FaithfulRun(l: Lift, t: Truth, events: seq<Event>)
    decreases |events|
  {
    events == [] || (Faithful(l, t, events[0]) && FaithfulRun(Step(l, events[0]), NextTruth(l, t, events[0]), events[1..]))
  }

  function FinalTruth(l: Lift, t: Truth, events: seq<Event>): Truth
    decreases |events|
  {
    if events == [] then t else FinalTruth(Step(l, events[0]), NextTruth(l, t, events[0]), events[1..])
  }

  /** The accumulated count is the signed true displacement since the first sample, and
      stays far inside 64 bits, as does every product formed from it. */
  predicate TrueCount(l: Lift, t: Truth) {
    && ValidConfig(l.config)
    && (if l.haveSample then l.previousRaw == t.latest % 4096 && l.accumulated == l.config.encoderUp * (t.latest - t.first)
        else l.accumulated == 0)
    && Abs(l.accumulated) <= 1000002047 && Abs(l.home) <= 1000002047
  }

  /** Half-turn folding recovers any move of less than half a turn. */
  lemma DeltaIsTrueMove(p: int, q: int)
    requires Distance(p, q) < 2048
    ensures EncoderDelta(p % 4096, q % 4096) == p - q
  {
  }

  lemma StepKeepsTruth(l: Lift, t: Truth, e: Event)
    requires TrueCount(l, t) && Faithful(l, t, e)
    ensures TrueCount(Step(l, e), NextTruth(l, t, e))
  {
    hide PollLift, AcceptableSample, ObserveLift;
    match e {
      case Sample(f, position, now) =>
        SampleEffect(l, f, now);
        PollKeepsMeasurement(l, now);
        if Taken(l, f, now) && l.haveSample {
          DeltaIsTrueMove(position, t.latest);
          SignedSum(l.config.encoderUp, t.latest - t.first, position - t.latest);
        }
      case Tick(now) => PollKeepsMeasurement(l, now);
      case GoHome(now) => PollKeepsMeasurement(l, now);
      case GoTo(height, now) =>
        PollKeepsMeasurement(l, now);
        PollKeepsMeasurement(PollLift(l, now).(targetUm := height, state := Moving), now);
      case _ =>
    }
  }

  lemma SignedSum(up: int, a: int, b: int)
    requires up == 1 || up == -1
    ensures up * a + b * up == up * (a + b)
    ensures Abs(b * up) == Abs(b)
  {
  }

  /** Truth. While the shaft moves less than the configured step between samples taken,
      the accumulated count is exactly the signed true displacement. */
  lemma {:induction false} CountsAreTrue(l: Lift, t: Truth, events: seq<Event>)
    requires TrueCount(l, t) && FaithfulRun(l, t, events)
    ensures TrueCount(Run(l, events), FinalTruth(l, t, events))
    decreases |events|
  {
    hide Step, TrueCount, Faithful, NextTruth;
    if events != [] {
      StepKeepsTruth(l, t, events[0]);
      CountsAreTrue(Step(l, events[0]), NextTruth(l, t, events[0]), events[1..]);
    }
  }

  /** The height product never leaves 64 bits. */
  lemma HeightNeverOverflows(l: Lift, t: Truth)
    requires TrueCount(l, t)
    ensures var product := (l.accumulated - l.home) * l.config.umPerTurn;
            -0x8000_0000_0000_0000 <= product < 0x8000_0000_0000_0000
  {
    var d := l.accumulated - l.home;
    ProductBelow(Abs(d), l.config.umPerTurn, 2000004094, 10000000);
    SignedProduct(d, l.config.umPerTurn);
  }

  // ---- homing ---------------------------------------------------------------

  /** Samples taken while homing, since homing last started. */
  function NextContact(l: Lift, h: seq<LiftFeedback>, e: Event): seq<LiftFeedback> {
    if e.GoHome? && HomeLift(l, e.now).1 then []
    else if e.Sample? && Taken(l, e.feedback, e.now) then h + [e.feedback]
    else h
  }

  predicate ContactSample(c: LiftConfig, f: LiftFeedback) {
    f.healthy && Slow(f.velocityRaw, c.stoppedSpeed) && c.homeCurrentMa <= f.currentMa <= c.maximumCurrentMa
  }

  /** From index k on every sample was stopped, healthy and in the contact band. */
  predicate UnbrokenFrom(c: LiftConfig, h: seq<LiftFeedback>, k: nat) {
    k < |h| && forall i :: k <= i < |h| ==> ContactSample(c, h[i])
  }

  /** The contact timer runs only on an unbroken tail of the history. */
  ghost predicate ContactHonest(l: Lift, h: seq<LiftFeedback>) {
    l.state == Homing && l.contactTracking ==>
      exists k: nat :: UnbrokenFrom(l.config, h, k) && h[k].observedMs == l.contactStartedMs
  }

  /** The evidence for an origin: an unbroken run of contact samples spanning the dwell. */
  ghost predicate OriginProven(c: LiftConfig, h: seq<LiftFeedback>) {
    exists k: nat :: UnbrokenFrom(c, h, k) && Sub(h[|h| - 1].observedMs, h[k].observedMs) >= c.contactDwellMs
  }

  /** An accepted homing sample either keeps the timer honest or proves the origin. */
  lemma HomingSample(l: Lift, f: LiftFeedback, now: u32, h: seq<LiftFeedback>)
    requires ContactHonest(l, h) && Taken(l, f, now)
    ensures var s := ObserveLift(l, f, now).0;
            && ContactHonest(s, h + [f])
            && (s.homed && !l.homed ==> OriginProven(l.config, h + [f]))
  {
    hide PollLift, AcceptableSample, Jumped;
    PollKeepsMeasurement(l, now);
    var p := PollLift(l, now);
    var m := Measured(p, f);
    PollKeepsMeasurement(if m.state == Homing then TrackContact(m, f) else m, now);
    var g := h + [f];
    if m.state == Homing && InContact(m, f) {
      if !m.contactTracking {
        assert UnbrokenFrom(l.config, g, |h|);
      } else {
        var k: nat :| UnbrokenFrom(l.config, h, k) && h[k].observedMs == l.contactStartedMs;
        assert UnbrokenFrom(l.config, g, k) && g[k] == h[k];
      }
    }
  }

  lemma StepIsHonest(l: Lift, e: Event, h: seq<LiftFeedback>)
    requires ContactHonest(l, h)
    ensures ContactHonest(Step(l, e), NextContact(l, h, e))
    ensures Step(l, e).homed && !l.homed ==> e.Sample? && OriginProven(l.config, NextContact(l, h, e))
    ensures Step(l, e).config == l.config
  {
    hide PollLift, ObserveLift, UnbrokenFrom, Jumped, AcceptableSample;
    match e {
      case Sample(f, position, now) =>
        SampleEffect(l, f, now);
        if Taken(l, f, now) { HomingSample(l, f, now, h); } else { UntakenSample(l, f, now); }
      case Tick(now) => PollKeepsMeasurement(l, now);
      case GoHome(now) => PollKeepsMeasurement(l, now);
      case GoTo(height, now) =>
        PollKeepsMeasurement(l, now);
        PollKeepsMeasurement(PollLift(l, now).(targetUm := height, state := Moving), now);
      case _ =>
    }
  }

  lemma UntakenSample(l: Lift, f: LiftFeedback, now: u32)
    requires !Taken(l, f, now)
    ensures var s := ObserveLift(l, f, now).0;
            && (s.homed ==> l.homed) && (s.state == Homing ==> l.state == Homing)
            && s.contactTracking == l.contactTracking && s.contactStartedMs == l.contactStartedMs
  {
    hide PollLift, Jumped, AcceptableSample;
    PollKeepsMeasurement(l, now);
  }

  /** Every origin set during a run is proven by the contact samples taken up to then. */
  ghost predicate OriginsProven(l: Lift, h: seq<LiftFeedback>, events: seq<Event>)
    decreases |events|
  {
    events == [] ||
    (&& (Step(l, events[0]).homed && !l.homed ==> OriginProven(l.config, NextContact(l, h, events[0])))
     && OriginsProven(Step(l, events[0]), NextContact(l, h, events[0]), events[1..]))
  }

  /** Origin. In every run the origin is set only by an unbroken run of stopped, healthy
      samples in the contact current band that spans the dwell time. */
  lemma {:induction false} OriginNeedsDwell(l: Lift, h: seq<LiftFeedback>, events: seq<Event>)
    requires ContactHonest(l, h)
    ensures OriginsProven(l, h, events)
    decreases |events|
  {
    hide Step, ContactHonest, OriginProven, NextContact;
    if events != [] {
      StepIsHonest(l, events[0], h);
      OriginNeedsDwell(Step(l, events[0]), NextContact(l, h, events[0]), events[1..]);
    }
  }

  // ---- holding --------------------------------------------------------------

  /** Zero reports counted since the lift last began to wait for hold evidence, and the
      samples taken. */
  datatype HoldRecord = HoldRecord(zeroMs: seq<u32>, samples: seq<LiftFeedback>)

  function NextRecord(l: Lift, r: HoldRecord, e: Event): HoldRecord {
    HoldRecord(
      if !Step(l, e).zeroSent then []
      else if e.Zero? && l.state == HoldPending && !l.zeroSent then [e.now]
      else r.zeroMs,
      if e.Sample? && Taken(l, e.feedback, e.now) then r.samples + [e.feedback] else r.samples)
  }

  /** The current sample and the counted zero report are among those seen. */
  predicate RecordHonest(l: Lift, r: HoldRecord) {
    && (l.haveSample ==> l.feedback in r.samples && l.feedback.observedMs == l.observedMs)
    && (l.zeroSent ==> l.zeroSentMs in r.zeroMs)
    && (l.state != LiftFault && l.state != Unhomed ==> l.haveSample)
    && (l.state == Unhomed ==> !l.homed)
  }

  /** A zero packet was reported completed and a strictly newer sample was stopped with the
      hold verified. */
  ghost predicate HoldEvidenced(c: LiftConfig, r: HoldRecord) {
    exists z, f :: z in r.zeroMs && f in r.samples && 0 < Sub(f.observedMs, z) < HALF
                   && Slow(f.velocityRaw, c.stoppedSpeed) && f.holdVerified
  }

  /** Entering HOLDING takes the evidence; nothing in a poll creates a zero report. */
  predicate HoldStep(l: Lift, p: Lift) {
    && (p.state == Holding && l.state != Holding ==>
          l.zeroSent && 0 < Sub(l.observedMs, l.zeroSentMs) < HALF
          && Slow(l.feedback.velocityRaw, l.config.stoppedSpeed) && l.feedback.holdVerified && p.zeroSent)
    && (p.zeroSent ==> l.zeroSent && p.zeroSentMs == l.zeroSentMs)
    && (p.state == Holding ==> p.zeroSent == l.zeroSent)
  }

  lemma DriveHolding(l: Lift, now: u32)
    ensures HoldStep(l, Drive(l, now))
    ensures Drive(l, now).state == Holding ==> l.state == Holding
  {
    hide ApproachSpeed, OutsideTravel;
  }

  lemma SettleHolding(l: Lift)
    ensures HoldStep(l, Settle(l))
  {
    hide HoldBroken;
  }

  lemma PollHolding(l: Lift, now: u32)
    ensures HoldStep(l, PollLift(l, now))
    ensures var p := PollLift(l, now); p.state != LiftFault && p.state != Unhomed ==> l.haveSample
  {
    hide Drive, Settle;
    DriveHolding(l, now);
    DriveKeepsMeasurement(l, now);
    SettleHolding(Drive(l, now));
  }

  lemma PollKeepsRecord(l: Lift, r: HoldRecord, now: u32)
    requires l.haveSample ==> l.feedback in r.samples && l.feedback.observedMs == l.observedMs
    requires l.zeroSent ==> l.zeroSentMs in r.zeroMs
    requires l.state == Unhomed ==> !l.homed
    ensures RecordHonest(PollLift(l, now), r)
    ensures PollLift(l, now).state == Holding && l.state != Holding ==>
      HoldEvidenced(l.config, r) && PollLift(l, now).zeroSent
    ensures PollLift(l, now).state == Holding ==> PollLift(l, now).zeroSent == l.zeroSent
    ensures PollLift(l, now).config == l.config
  {
    hide PollLift;
    PollKeepsMeasurement(l, now);
    PollHolding(l, now);
  }

  lemma SampleKeepsRecord(l: Lift, r: HoldRecord, f: LiftFeedback, now: u32)
    requires RecordHonest(l, r)
    ensures var s := ObserveLift(l, f, now).0;
            var r' := HoldRecord(r.zeroMs, if Taken(l, f, now) then r.samples + [f] else r.samples);
            RecordHonest(s, r') && (s.state == Holding && l.state != Holding ==> HoldEvidenced(l.config, r') && s.zeroSent)
  {
    hide PollLift, AcceptableSample, Jumped, HoldEvidenced, Absorbed, TrackContact;
    PollKeepsMeasurement(l, now);
    PollKeepsRecord(l, r, now);
    var p := PollLift(l, now);
    AbsorbedEffect(p, f);
    if Taken(l, f, now) {
      var r' := HoldRecord(r.zeroMs, r.samples + [f]);
      var m := Absorbed(p, f).0;
      ContactEffect(m, f);
      PollKeepsRecord(if m.state == Homing then TrackContact(m, f) else m, r', now);
      MoreSamples(l.config, r, f);
    }
  }

  lemma MoreSamples(c: LiftConfig, r: HoldRecord, f: LiftFeedback)
    ensures HoldEvidenced(c, r) ==> HoldEvidenced(c, HoldRecord(r.zeroMs, r.samples + [f]))
  {
    if HoldEvidenced(c, r) {
      var z, g :| z in r.zeroMs && g in r.samples && 0 < Sub(g.observedMs, z) < HALF
                  && Slow(g.velocityRaw, c.stoppedSpeed) && g.holdVerified;
      assert g in r.samples + [f];
    }
  }

  lemma StepKeepsRecord(l: Lift, r: HoldRecord, e: Event)
    requires RecordHonest(l, r)
    ensures RecordHonest(Step(l, e), NextRecord(l, r, e))
    ensures Step(l, e).state == Holding && l.state != Holding ==> HoldEvidenced(l.config, NextRecord(l, r, e))
  {
    hide PollLift, ObserveLift, HoldEvidenced, Taken;
    match e {
      case Sample(f, position, now) => SampleKeepsRecord(l, r, f, now);
      case Tick(now) => PollKeepsRecord(l, r, now);
      case GoHome(now) => PollKeepsRecord(l, r, now);
      case GoTo(height, now) =>
        PollKeepsRecord(l, r, now);
        PollKeepsRecord(PollLift(l, now).(targetUm := height, state := Moving), r, now);
      case _ =>
    }
  }

  /** Each time the lift enters HOLDING during a run the evidence is on record. */
  ghost predicate HoldsEvidenced(l: Lift, r: HoldRecord, events: seq<Event>)
    decreases |events|
  {
    events == [] ||
    (&& (Step(l, events[0]).state == Holding && l.state != Holding ==> HoldEvidenced(l.config, NextRecord(l, r, events[0])))
     && HoldsEvidenced(Step(l, events[0]), NextRecord(l, r, events[0]), events[1..]))
  }

  /** Holding. In every run the lift reports HOLDING only after a zero-speed packet was
      reported completed and a strictly newer, stopped, hold-verified sample arrived. */
  lemma {:induction false} HoldingNeedsEvidence(l: Lift, r: HoldRecord, events: seq<Event>)
    requires RecordHonest(l, r)
    ensures HoldsEvidenced(l, r, events)
    decreases |events|
  {
    hide Step, RecordHonest, HoldEvidenced, NextRecord;
    if events != [] {
      StepKeepsRecord(l, r, events[0]);
      HoldingNeedsEvidence(Step(l, events[0]), NextRecord(l, r, events[0]), events[1..]);
    }
  }

  // ---- speed ----------------------------------------------------------------

  /** Commands stay within the maximum and exist only while homing or moving. */
  predicate Tame(l: Lift) {
    && ValidConfig(l.config) && Abs(l.command) <= l.config.maximumSpeed
    && (l.command != 0 ==> l.state == Homing || l.state == Moving)
    && (l.state == Homing ==> l.command < 0)
  }

  lemma ApproachIsBounded(c: LiftConfig, magnitude: nat)
    requires ValidConfig(c)
    ensures 1 <= ApproachSpeed(c, magnitude) <= c.maximumSpeed
  {
  }

  lemma MoveStepIsTame(l: Lift)
    requires Tame(l) && l.state == Moving
    ensures Tame(MoveStep(l))
  {
    hide ApproachSpeed;
    ApproachIsBounded(l.config, Distance(l.targetUm, l.heightUm));
  }

  lemma DriveIsTame(l: Lift, now: u32)
    requires Tame(l)
    ensures Tame(Drive(l, now))
  {
    hide MoveStep, OutsideTravel;
    if l.state == Moving { MoveStepIsTame(l); }
  }

  lemma SettleIsTame(l: Lift)
    requires Tame(l)
    ensures Tame(Settle(l))
  {
    hide HoldProven, HoldBroken, ValidConfig;
  }

  lemma PollIsTame(l: Lift, now: u32)
    requires Tame(l)
    ensures Tame(PollLift(l, now))
  {
    hide Drive, Settle, Fresh, ValidConfig;
    DriveIsTame(l, now);
    SettleIsTame(Drive(l, now));
  }

  lemma HomeIsTame(l: Lift, now: u32)
    requires Tame(l)
    ensures Tame(HomeLift(l, now).0)
  {
    hide PollLift;
    PollIsTame(l, now);
  }

  lemma StepIsTame(l: Lift, e: Event)
    requires Tame(l)
    ensures Tame(Step(l, e))
  {
    hide PollLift, HomeLift, AcceptableSample, Absorbed, TrackContact, ValidConfig;
    match e {
      case Sample(f, position, now) =>
        PollIsTame(l, now);
        var p := PollLift(l, now);
        AbsorbedEffect(p, f);
        var m := Absorbed(p, f).0;
        ContactEffect(m, f);
        PollIsTame(if m.state == Homing then TrackContact(m, f) else m, now);
      case Tick(now) => PollIsTame(l, now);
      case GoHome(now) => HomeIsTame(l, now);
      case GoTo(height, now) =>
        PollIsTame(l, now);
        PollIsTame(PollLift(l, now).(targetUm := height, state := Moving), now);
      case _ =>
    }
  }

  /** In every run the speed command stays within the configured maximum, and is nonzero
      only while homing (downwards) or moving. */
  lemma {:induction false} CommandsStayTame(l: Lift, events: seq<Event>)
    requires Tame(l)
    ensures Tame(Run(l, events))
    decreases |events|
  {
    hide Step, Tame;
    if events != [] {
      StepIsTame(l, events[0]);
      CommandsStayTame(Step(l, events[0]), events[1..]);
    }
  }

  /** A configured lift starts with every invariant in place. */
  lemma ConfiguredIsSound(c: LiftConfig)
    requires ValidConfig(c)
    ensures var l := Configured(c);
            TrueCount(l, Truth(0, 0)) && ContactHonest(l, []) && RecordHonest(l, HoldRecord([], [])) && Tame(l)
  {
  }
}

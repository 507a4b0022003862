// Concrete runs, from open on, that accept batches they cannot follow within the step
// bound: onto an emptied queue, where the continuity check is skipped, and as a splice,
// which is checked at its own tick only.
module StreamExamples {
  import opened Words
  import opened Optional
  import opened Lerp
  import opened StreamContract
  import opened StreamSession
  import opened StreamExecutor
  import opened StreamTiming
  import opened StreamRuns
  import opened StreamJoins

  function All(v: i32): Joints {
    [v, v, v, v, v, v, v, v, v, v, v, v]
  }

  lemma WordReads(p: seq<u8>, at: nat, v: u32)
    requires at + 4 <= |p| && forall c :: 0 <= c < 4 ==> p[at + c] == Bytes32(v)[c]
    ensures Read32(p, at) == v
  {
    hide Bytes32;
    var b := Bytes32(v);
    assert p[at] == p[at + 0] == b[0];
    assert p[at + 1] == b[1] && p[at + 2] == b[2] && p[at + 3] == b[3];
    ReadBytes32([], v, []);
    assert [] + b + [] == b;
  }

  lemma JointsOfEqualWords(p: seq<u8>, at: nat, v: u32)
    requires v < HALF && at + 48 <= |p|
    requires forall i :: 0 <= i < 48 ==> p[at + i] == Bytes32(v)[i % 4]
    ensures JointsAt(p, at) == All(v)
  {
    hide Bytes32, Read32;
    forall j | 0 <= j < 12 ensures ReadI32(p, at + 4 * j) == v {
      forall c | 0 <= c < 4 ensures p[at + 4 * j + c] == Bytes32(v)[c] {
        assert p[at + (4 * j + c)] == Bytes32(v)[(4 * j + c) % 4];
      }
      WordReads(p, at + 4 * j, v);
    }
  }

  /** Open-ended: one sample suffices to start, leads from 20 to 400 ms, a command timeout
      of 100 ms, and at most 9000 microradians for each joint and tick. */
  const SLOW: Policy := Policy(1, 20, 0, 400, 100, 5, All(9000), All(9000), 3)

  const OPEN_HEADER: seq<u8> := [1, 0, 3, 0, 20, 0, 0, 0, 0, 0, 0, 0, 144, 1, 0, 0, 100, 0, 0, 0, 5, 0, 0, 0]

  function OpenPayload(): seq<u8> {
    seq(120, i requires 0 <= i < 120 => if i < 24 then OPEN_HEADER[i] else Bytes32(9000)[i % 4])
  }

  /** A batch of one setpoint, every joint at `v`. */
  function OneSetpoint(kind: BatchKind, tick: u32, v: u32): seq<u8> {
    seq(72, i requires 0 <= i < 72 =>
      if i < 4 then Bytes32(tick)[i]
      else if 12 <= i < 16 && kind == Splice then Bytes32(tick)[i - 12]
      else if i == 16 then 1
      else if i == 17 then 3
      else if i < 24 then 0
      else Bytes32(v)[i % 4])
  }

  function OneBatch(kind: BatchKind, tick: u32, v: i32): Batch {
    Batch(tick, 0, 0, if kind == Splice then tick else 0, 3, [Setpoint(tick, All(v))])
  }

  lemma OpenPayloadDecodes()
    ensures DecodePolicy(OpenPayload()) == Accepted(SLOW)
  {
    hide JointsAt, Bytes32;
    var p := OpenPayload();
    JointsOfEqualWords(p, 24, 9000);
    JointsOfEqualWords(p, 72, 9000);
    assert forall i :: 0 <= i < 24 ==> p[i] == OPEN_HEADER[i];
  }

  lemma OneSetpointReads(kind: BatchKind, tick: u32, v: u32)
    requires v < HALF
    ensures var p := OneSetpoint(kind, tick, v);
            && |p| == 72 && Read32(p, 0) == tick && Read32(p, 4) == 0 && Read32(p, 8) == 0
            && Read32(p, 12) == (if kind == Splice then tick else 0)
            && p[16] == 1 && p[17] == 3 && p[18] == 0 && p[19] == 0 && Read32(p, 20) == 0 && JointsAt(p, 24) == All(v)
  {
    hide JointsAt, Bytes32, Read32;
    var p := OneSetpoint(kind, tick, v);
    WordReads(p, 0, tick);
    JointsOfEqualWords(p, 24, v);
    ZeroWord(p, 4); ZeroWord(p, 8); ZeroWord(p, 20);
    if kind == Splice { WordReads(p, 12, tick); } else { ZeroWord(p, 12); }
  }

  lemma OneSetpointDecodes(kind: BatchKind, tick: u32, v: u32)
    requires v < HALF && tick != 0
    ensures DecodeBatch(OneSetpoint(kind, tick, v), kind) == Accepted(OneBatch(kind, tick, v))
  {
    hide JointsAt, OneSetpoint, Read32;
    var p := OneSetpoint(kind, tick, v);
    OneSetpointReads(kind, tick, v);
    assert SampleAt(p, 0) == Setpoint(tick, All(v));
    assert SamplesUpTo(p, 1) == SamplesUpTo(p, 0) + [SampleAt(p, 0)] == [SampleAt(p, 0)];
    assert InOrderUpTo(p, 0) && SampleInOrder(p, 0);
    assert InOrderUpTo(p, 1);
  }

  lemma ZeroWord(p: seq<u8>, i: nat)
    requires i + 4 <= |p| && p[i] == p[i + 1] == p[i + 2] == p[i + 3] == 0
    ensures Read32(p, i) == 0
  {
  }

  const WIDE: Limit := Limit(-1000000, 1000000)

  /** An executor whose caps admit that policy, before anything was sent to it. */
  function Idle(): Executor {
    Initial(HardCaps(20, 400, 500, 100, 5, All(1000000), All(1000000)),
            [WIDE, WIDE, WIDE, WIDE, WIDE, WIDE, WIDE, WIDE, WIDE, WIDE, WIDE, WIDE])
  }

  /** An executor under that policy, open-ended, whose queue is empty. */
  predicate Hungry(e: Executor) {
    && e.diag.state in {Priming, Running} && e.limits == Idle().limits
    && e.session.open && e.session.policy == SLOW && e.session.horizonEndTick == 0 && e.session.queue == []
    && (e.session.epochEstablished ==> e.session.arbiterEpoch == 0)
  }

  lemma WithinWide(kind: BatchKind, tick: u32, v: i32)
    requires Abs(v) <= 1000000
    ensures BatchWithinLimits(Idle().limits, OneBatch(kind, tick, v).samples)
  {
  }

  lemma OneSetpointIsAccepted(e: Executor, tick: u32, v: u32, now: u32)
    requires Hungry(e) && v <= 1000000 && now + 20 <= tick <= now + 400
    ensures DecodeBatch(OneSetpoint(Append, tick, v), Append) == Accepted(OneBatch(Append, tick, v))
    ensures AdmitBatch(e, OneSetpoint(Append, tick, v), Append, now).1 == ExecutorOk
    ensures var r := AdmitBatch(e, OneSetpoint(Append, tick, v), Append, now).0;
            && r == e.(session := r.session, diag := r.diag) && r.diag.state == e.diag.state && r.diag.lastCommandTick == now
            && r.session == SessionState(true, true, SLOW, 0, 0, [Setpoint(tick, All(v))])
  {
    hide DecodeBatch, OneSetpoint, All, BatchWithinLimits, Idle;
    OneSetpointDecodes(Append, tick, v);
    WithinWide(Append, tick, v);
    var batch, p, s := OneBatch(Append, tick, v), OneSetpoint(Append, tick, v), e.session;
    assert BatchVerdict(s, batch, Append, now, ZERO_JOINTS) == ContractOk;
    assert OfferBatch(s, p, Append, now) == OfferDecoded(s, batch, Append, now, ZERO_JOINTS);
    assert s.queue[..0] + batch.samples == batch.samples;
  }

  /** Opened at 0, primed with one setpoint and started at 0 from the zero pose. */
  function Started(tick: u32, v: u32): Executor {
    Launched(Idle(), OpenPayload(), 0, [Prime(OneSetpoint(Append, tick, v), 0)], 0, ZERO_JOINTS).0
  }

  lemma OpenIsAccepted()
    ensures OpenExecutor(Idle(), OpenPayload(), 0).1 == ExecutorOk
    ensures Hungry(OpenExecutor(Idle(), OpenPayload(), 0).0) && OpenExecutor(Idle(), OpenPayload(), 0).0.diag.state == Priming
  {
    hide DecodePolicy, OpenPayload;
    OpenPayloadDecodes();
    var caps := Idle().caps;
    assert JointCapViolation(SLOW, caps, 12) == ContractOk;
    CapsHold(caps, 0);
    assert ValidatePolicy(SLOW, caps, 0) == ContractOk;
  }

  lemma {:induction false} CapsHold(caps: HardCaps, joint: nat)
    requires caps == Idle().caps && joint <= 12
    ensures JointCapViolation(SLOW, caps, joint) == ContractOk
    decreases 12 - joint
  {
    if joint < 12 { CapsHold(caps, joint + 1); }
  }

  lemma PrimedStarts(e: Executor, tick: u32, v: u32)
    requires e.diag.state == Priming && e.limits == Idle().limits && 20 <= tick <= 400 && v <= 9000 * (tick / 5)
    requires e.session == SessionState(true, true, SLOW, 0, 0, [Setpoint(tick, All(v))])
    ensures var (r, verdict) := StartExecutor(e, 0, ZERO_JOINTS);
            && verdict == ExecutorOk && r.session == e.session && r.limits == e.limits
            && r.diag.lastCommandTick == e.diag.lastCommandTick && r.controlEpochTick == 0
  {
  }

  lemma StartIsAccepted(tick: u32, v: u32)
    requires 20 <= tick <= 400 && v <= 9000 * (tick / 5)
    ensures OpenExecutor(Idle(), OpenPayload(), 0).1 == ExecutorOk
    ensures Launched(Idle(), OpenPayload(), 0, [Prime(OneSetpoint(Append, tick, v), 0)], 0, ZERO_JOINTS).1 == ExecutorOk
    ensures var r := Started(tick, v);
            && Paced(r, 0) && r.session == SessionState(true, true, SLOW, 0, 0, [Setpoint(tick, All(v))])
            && r.diag.lastCommandTick == 0 && r.controlEpochTick == 0 && r.limits == Idle().limits
            && r.anchor.applyTick == 0 && Previous(r) == ZERO_JOINTS == r.anchor.position
  {
    hide OpenExecutor, AdmitBatch, DecodeBatch, OneSetpoint, OpenPayload, Paced, All;
    OpenIsAccepted();
    var ready := OpenExecutor(Idle(), OpenPayload(), 0).0;
    var primes := [Prime(OneSetpoint(Append, tick, v), 0)];
    OneSetpointIsAccepted(ready, tick, v, 0);
    var primed := AdmitBatch(ready, primes[0].payload, Append, primes[0].now).0;
    assert primes[1..] == [];
    assert Primed(ready, primes) == Primed(primed, primes[1..]) == primed;
    PrimedStarts(primed, tick, v);
    LaunchIsPaced(Idle(), OpenPayload(), 0, primes, 0, ZERO_JOINTS);
  }

  lemma InTime(e: Executor, now: u32, n: nat)
    requires e.session.policy == SLOW && e.diag.lastCommandTick == e.lastStepTick == now
    requires n <= 20 && now + 100 < HALF
    ensures NoTimeout(e, n)
  {
  }

  lemma PacedIsTimed(e: Executor, k: nat)
    requires Paced(e, k)
    ensures Timed(e, k) && e.diag.state == Running && (e.session.queue == [] ==> Previous(e) == e.anchor.position)
    ensures e.controlEpochTick == 0 ==> e.lastStepTick == 5 * k
  {
  }

  lemma EmptyIsPaced(e: Executor, k: nat)
    requires Timed(e, k) && e.session.queue == [] && Previous(e) == e.anchor.position
    ensures Paced(e, k)
  {
  }

  // ---- onto an emptied queue ------------------------------------------------

  /** Primed with the zero pose at 25 ms and stepped five times: the only setpoint is
      applied, the queue empty. */
  function Drained(): Executor {
    StepMany(Started(25, 0), 5)
  }

  /** A run whose only setpoint is due on its n-th control tick is hungry from then on. */
  lemma DrainsItsQueue(e: Executor, n: nat)
    requires Paced(e, 0) && e.limits == Idle().limits && e.session.queue != [] && n == HeadDue(e) <= 20
    requires e.session == SessionState(true, true, SLOW, 0, 0, [e.session.queue[0]])
    requires e.controlEpochTick == 0 == e.diag.lastCommandTick
    ensures var d := StepMany(e, n);
            && Paced(d, n) && Previous(d) == d.anchor.position && d.anchor == e.session.queue[0]
            && Hungry(d) && d.diag.lastCommandTick == 0 && d.controlEpochTick == 0
  {
    hide Paced, StepMany, Timed, Previous, NoTimeout, All, Idle;
    PacedIsTimed(e, 0);
    InTime(e, 0, n);
    StepsOntoHead(e, 0);
    var d := StepMany(e, n);
    assert e.session.queue[1..] == [];
    EmptyIsPaced(d, n);
    PacedIsTimed(d, n);
  }

  lemma DrainedFacts()
    ensures Paced(Drained(), 5) && Previous(Drained()) == All(0) && Drained().anchor == Setpoint(25, All(0))
    ensures Hungry(Drained()) && Drained().diag.lastCommandTick == 0 && Drained().controlEpochTick == 0
  {
    hide Paced, StepMany, Started, Hungry, Previous, All, Idle;
    StartIsAccepted(25, 0);
    DrainsItsQueue(Started(25, 0), 5);
  }

  /** Further setpoints, offered at 25 ms. */
  function More(tick: u32, v: u32): Event {
    Offer(Append, OneSetpoint(Append, tick, v), 25)
  }

  /** The drained run accepts one further setpoint, and may be stepped on to it. */
  lemma DrainedAccepts(tick: u32, v: u32)
    requires v <= 1000000 && tick in {45, 50}
    ensures var r := After1(Drained(), More(tick, v));
            && Accepts(Drained(), More(tick, v)) && OfferedInTime(Drained(), More(tick, v))
            && r.session.queue == [Setpoint(tick, All(v))]
            && r.anchor == Setpoint(25, All(0)) && AnchorDue(r) == 5 && HeadDue(r) == tick / 5
            && Timed(r, 5) && Previous(r) == All(0) && r.session.policy == SLOW && NoTimeout(r, HeadDue(r) - 5)
  {
    hide Drained, AdmitBatch, OneSetpoint, DecodeBatch, Paced, Timed, All, Idle;
    DrainedFacts();
    var e := Drained();
    OneSetpointIsAccepted(e, tick, v, 25);
    PacedIsTimed(e, 5);
    OfferKeepsTimed(e, 5, More(tick, v));
    InTime(After1(e, More(tick, v)), 25, HeadDue(After1(e, More(tick, v))) - 5);
  }

  /** The next pose can jump: 0.2 rad in one control tick, against a bound of 0.009 rad,
      after a batch accepted 25 ms ahead on the queue of a run that has drained it. */
  lemma EmptyQueueResumeJumps()
    ensures Paced(Drained(), 5) && Drained().session.queue == [] && Accepts(Drained(), More(50, 1000000))
    ensures var r := After1(Drained(), More(50, 1000000));
            && StepNext(r).output == Some(All(200000))
            && !WithinStep(Previous(r), All(200000), r.session.policy.maximumStep)
  {
    hide Drained, After1, OneSetpoint, Paced, StepExecutor, Timed, LerpJoints, All, WithinStep, NoTimeout, TimedOut, Previous,
         Accepts, More, Idle;
    DrainedFacts();
    DrainedAccepts(50, 1000000);
    var r := After1(Drained(), More(50, 1000000));
    NoTimeoutNext(r, 5);
    TimedBetween(r, 5);
    FifthOfMillion();
  }

  lemma FifthOfMillion()
    ensures LerpJoints(All(0), All(1000000), 5, 25) == All(200000)
    ensures !WithinStep(All(0), All(200000), SLOW.maximumStep)
  {
    assert Distance(All(200000)[0], All(0)[0]) > SLOW.maximumStep[0];
  }

  /** The jump can come on the last tick instead: with the head at 36001 microradians four
      ticks on, three poses keep the bound of 9000 and the head breaks it by one. */
  lemma EmptyQueueResumeArrivesLate()
    ensures Accepts(Drained(), More(45, 36001))
    ensures var r := After1(Drained(), More(45, 36001));
            && StepNext(r).output.Some?
            && WithinStep(Previous(r), StepNext(r).output.value, r.session.policy.maximumStep)
            && r.session.queue != [] && HeadDue(r) == 9
            && !RateBounded(Previous(r), Outputs(r, Ticks(4)), r.session.policy.maximumStep)
  {
    hide Drained, After1, OneSetpoint, Paced, StepExecutor, Timed, SegmentAt, Outputs, RateBounded, DecodeBatch,
         All, Previous, NoTimeout, TimedOut, OfferedInTime, SafeToResume, NearEnough, WithinStep, StepNext, Idle, Accepts;
    DrainedFacts();
    DrainedAccepts(45, 36001);
    var r := After1(Drained(), More(45, 36001));
    NoTimeoutNext(r, 4);
    TimedBetween(r, 5);
    OneTooFar(r, 5);
    ResumeIsBoundedIff(Drained(), 5, More(45, 36001));
  }

  lemma OneTooFar(e: Executor, k: nat)
    requires e.session.queue == [Setpoint(45, All(36001))] && e.anchor.position == All(0) && e.session.policy == SLOW
    requires AnchorDue(e) == k && HeadDue(e) == k + 4
    ensures WithinStep(All(0), SegmentAt(All(0), All(36001), 1, 4), SLOW.maximumStep)
    ensures !SafeToResume(e, k)
  {
    hide WithinStep, SegmentAt;
    FirstPoseNear(All(0), All(36001), All(9000), 1, 4);
    assert !NearForJoint(Distance(All(36001)[0], All(0)[0]), All(9000)[0], 1, 4);
  }

  // ---- as a splice ----------------------------------------------------------

  /** A splice of one setpoint at the very tick of the queued one, offered at 0. */
  function Further(tick: u32, v: u32): Event {
    Offer(Splice, OneSetpoint(Splice, tick, v), 0)
  }

  /** A started run with one setpoint queued. */
  predicate OneQueued(e: Executor, tick: u32, u: i32) {
    && e.diag.state == Running && e.limits == Idle().limits && e.controlEpochTick == 0 && e.lastStepTick == 0
    && e.session == SessionState(true, true, SLOW, 0, 0, [Setpoint(tick, All(u))])
  }

  lemma SpliceIsAccepted(e: Executor, tick: u32, u: i32, v: u32)
    requires OneQueued(e, tick, u) && v <= 1000000 && Distance(v, u) <= 9000 && 20 <= tick <= 400
    ensures DecodeBatch(OneSetpoint(Splice, tick, v), Splice) == Accepted(OneBatch(Splice, tick, v))
    ensures AdmitBatch(e, OneSetpoint(Splice, tick, v), Splice, 0).1 == ExecutorOk
    ensures Kept(e, OneBatch(Splice, tick, v), Splice) == []
    ensures var r := AdmitBatch(e, OneSetpoint(Splice, tick, v), Splice, 0).0;
            && r == e.(session := r.session, diag := r.diag) && OneQueued(r, tick, v) && r.diag.lastCommandTick == 0
  {
    hide DecodeBatch, OneSetpoint;
    OneSetpointDecodes(Splice, tick, v);
    var batch, p, s := OneBatch(Splice, tick, v), OneSetpoint(Splice, tick, v), e.session;
    assert PositionAt(s.queue, 0, tick) == Some(All(u));
    assert CountBefore(s.queue, 0, tick) == 0;
    assert BatchVerdict(s, batch, Splice, 0, All(u)) == ContractOk;
    assert OfferBatch(s, p, Splice, 0) == OfferDecoded(s, batch, Splice, 0, All(u));
    assert s.queue[..0] + batch.samples == batch.samples;
  }

  lemma SpliceJoins(e: Executor, tick: u32, u: i32, v: u32)
    requires OneQueued(e, tick, u) && v <= 1000000 && Distance(v, u) <= 9000 && 20 <= tick <= 400 && Timed(e, 0)
    ensures Accepts(e, Further(tick, v)) && OfferedInTime(e, Further(tick, v))
    ensures var r := After1(e, Further(tick, v));
            && Timed(r, 0) && OneQueued(r, tick, v) && NoTimeout(r, 1) && r == e.(session := r.session, diag := r.diag)
  {
    hide AdmitBatch, OneSetpoint, Timed, All, DecodeBatch, Idle, NoTimeout, Kept;
    SpliceIsAccepted(e, tick, u, v);
    OfferKeepsTimed(e, 0, Further(tick, v));
    InTime(After1(e, Further(tick, v)), 0, 1);
  }

  /** A splice within the step bound of what it replaces can be beyond the bound for the
      whole segment. Here the last setpoint, at 400 ms and as far off as the bound allows, is
      moved one step further: the run would have to move 9112 microradians a tick, not 9000. */
  lemma SpliceBreaksBound()
    ensures Paced(Started(400, 720000), 0) && Accepts(Started(400, 720000), Further(400, 729000))
    ensures OfferedInTime(Started(400, 720000), Further(400, 729000))
    ensures var r := After1(Started(400, 720000), Further(400, 729000));
            && StepNext(r).output == Some(All(9112))
            && !WithinStep(Previous(r), All(9112), r.session.policy.maximumStep)
  {
    hide Started, Paced, Timed, All, Idle, Further, Accepts, OfferedInTime, After1, StepNext, WithinStep, Previous;
    StartIsAccepted(400, 720000);
    var e := Started(400, 720000);
    PacedIsTimed(e, 0);
    SpliceJoins(e, 400, 720000, 729000);
    TooFarAtOnce(e, After1(e, Further(400, 729000)), 400, 729000);
  }

  lemma TooFarAtOnce(e: Executor, r: Executor, tick: u32, v: u32)
    requires tick == 400 && v == 729000
    requires Timed(r, 0) && OneQueued(r, tick, v) && NoTimeout(r, 1) && r == e.(session := r.session, diag := r.diag)
    requires Previous(e) == ZERO_JOINTS == e.anchor.position && e.anchor.applyTick == 0
    ensures StepNext(r).output == Some(All(9112)) && !WithinStep(Previous(r), All(9112), r.session.policy.maximumStep)
  {
    hide All, LerpJoints, WithinStep, Timed, NoTimeout, StepNext;
    NoTimeoutNext(r, 1);
    TimedBetween(r, 0);
    EightiethTooFar();
  }

  lemma EightiethTooFar()
    ensures LerpJoints(ZERO_JOINTS, All(729000), 5, 400) == All(9112)
    ensures !WithinStep(ZERO_JOINTS, All(9112), SLOW.maximumStep)
  {
    assert Distance(All(9112)[0], ZERO_JOINTS[0]) > SLOW.maximumStep[0];
  }

  // ---- the command-timeout stop ---------------------------------------------

  /** The same start, stepped for 100 ms of its one long segment. */
  function Stale(): Executor {
    StepMany(Started(400, 720000), 20)
  }

  /** The command-timeout stop emits the anchor again: here the pose springs back by 0.18 rad,
      the whole way of 20 ticks, against a bound of 0.009 rad a tick. */
  lemma TimeoutStopSpringsBack()
    ensures StepNext(Stale()).output == Some(ZERO_JOINTS) && Previous(Stale()) == All(180000)
    ensures StepNext(Stale()).exec.diag.reason == CommandTimeout
    ensures !WithinStep(Previous(Stale()), ZERO_JOINTS, Stale().session.policy.maximumStep)
  {
    hide Started, Paced, Timed, All, Idle, StepNext, WithinStep, Previous, StepMany;
    StartIsAccepted(400, 720000);
    PacedIsTimed(Started(400, 720000), 0);
    SpringsBack(Started(400, 720000), 400, 720000, 20);
  }

  lemma SpringsBack(e: Executor, tick: u32, v: u32, n: nat)
    requires tick == 400 && v == 720000 && n == 20 && OneQueued(e, tick, v) && Timed(e, 0)
    requires e.anchor.applyTick == 0 && e.anchor.position == ZERO_JOINTS && e.diag.lastCommandTick == 0
    ensures var r := StepMany(e, n);
            && StepNext(r).output == Some(ZERO_JOINTS) && StepNext(r).exec.diag.reason == CommandTimeout
            && Previous(r) == All(180000) && r.session.policy == SLOW && !WithinStep(Previous(r), ZERO_JOINTS, SLOW.maximumStep)
  {
    hide All, LerpJoints, WithinStep, Timed, NoTimeout, StepNext, StepMany, NearEnough, Idle, Previous;
    InTime(e, 0, n);
    StepsAlong(e, 0, n);
    var r := StepMany(e, n);
    LaterStill(e, r, n, 1);
    LaterTicks(r, r, 0);
    TimeoutStopIff(r, n);
    QuarterIsFar();
  }

  lemma QuarterIsFar()
    ensures LerpJoints(ZERO_JOINTS, All(720000), 100, 400) == All(180000)
    ensures !NearEnough(ZERO_JOINTS, All(720000), SLOW.maximumStep, 20, 80)
  {
    assert Distance(All(720000)[0], ZERO_JOINTS[0]) * 20 >= (SLOW.maximumStep[0] as int + 1) * 80;
  }
}

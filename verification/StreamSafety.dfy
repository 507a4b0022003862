// Trajectory streaming, arbitrary runs: opens, appends, splices, starts and steps at
// any times. Every pose emitted lies inside the joint limits, and no accepted
// setpoint is lost or applied twice.
module StreamSafety {
  import opened Words
  import opened Optional
  import opened Lerp
  import opened StreamContract
  import opened StreamSession
  import opened StreamExecutor
  import opened StreamRuns

  datatype Command =
    | OpenStream(payload: seq<u8>, now: u32)
    | Admit(payload: seq<u8>, kind: BatchKind, now: u32)
    | Begin(now: u32, pose: Joints)
    | Control(now: u32)

  function Apply(e: Executor, c: Command): Executor {
    match c
    case OpenStream(payload, now) => OpenExecutor(e, payload, now).0
    case Admit(payload, kind, now) => AdmitBatch(e, payload, kind, now).0
    case Begin(now, pose) => StartExecutor(e, now, pose).0
    case Control(now) => StepExecutor(e, now).exec
  }

  function Emitted(e: Executor, c: Command): Option<Joints> {
    match c
    case Control(now) => StepExecutor(e, now).output
    case _ => None
  }

  // ---- joint limits ---------------------------------------------------------

  /** Ordered limits at most 2^31 apart: the 64-bit interpolation product cannot wrap. */
  predicate SaneLimits(limits: Limits) {
    forall j :: 0 <= j < JOINTS ==> limits[j].minimum <= limits[j].maximum <= limits[j].minimum + HALF
  }

  predicate Bounded(e: Executor) {
    && SaneLimits(e.limits)
    && BatchWithinLimits(e.limits, e.session.queue)
    && (e.anchorValid ==> WithinLimits(e.limits, e.anchor.position))
  }

  lemma LerpStaysWithin(limits: Limits, a: Joints, b: Joints, elapsed: u32, span: u32)
    requires SaneLimits(limits) && WithinLimits(limits, a) && WithinLimits(limits, b)
    requires 0 < span && elapsed <= span
    ensures WithinLimits(limits, LerpJoints(a, b, elapsed, span))
  {
    forall j | 0 <= j < JOINTS
      ensures limits[j].minimum <= Interpolate(a[j], b[j], elapsed, span) <= limits[j].maximum
    {
      InterpolateExact(a[j], b[j], elapsed, span);
      ExactBetween(a[j], b[j], elapsed, span);
    }
  }

  lemma StepStaysWithin(e: Executor, now: u32)
    requires Bounded(e)
    ensures Bounded(StepExecutor(e, now).exec)
    ensures StepExecutor(e, now).output.Some? ==> WithinLimits(e.limits, StepExecutor(e, now).output.value)
  {
    hide LerpJoints, WithinLimits, FirstControlTick;
    if e.diag.state == Running && e.anchorValid && e.session.queue != [] {
      var e1 := e.(lastStepTick := now, lastStepValid := true);
      var head := e.session.queue[0];
      assert BatchWithinLimits(e.limits, e.session.queue[1..]);
      var span, elapsed := Sub(DueTick(e1), AnchorTick(e1)), Sub(now, AnchorTick(e1));
      if 0 < span && elapsed <= span {
        LerpStaysWithin(e.limits, e.anchor.position, head.position, elapsed, span);
      }
    }
  }

  lemma AdmitStaysWithin(e: Executor, payload: seq<u8>, kind: BatchKind, now: u32)
    requires Bounded(e)
    ensures Bounded(AdmitBatch(e, payload, kind, now).0)
  {
    hide AdmitBatch, WithinLimits;
    if AdmitBatch(e, payload, kind, now).1 == ExecutorOk {
      AcceptedQueue(e, payload, kind, now);
    } else {
      RejectedOfferLeavesRun(e, payload, kind, now);
    }
  }

  /** An accepted batch replaces everything from its splice point on, or is appended. */
  lemma AcceptedQueue(e: Executor, payload: seq<u8>, kind: BatchKind, now: u32)
    requires AdmitBatch(e, payload, kind, now).1 == ExecutorOk
    ensures DecodeBatch(payload, kind).Accepted?
    ensures var r := AdmitBatch(e, payload, kind, now).0;
            var batch := DecodeBatch(payload, kind).value;
            && r == e.(session := r.session, diag := r.diag)
            && r.session == Extend(e.session, batch, kind)
            && BatchWithinLimits(e.limits, batch.samples)
            && r.diag.accepted == Wrap(e.diag.accepted + |batch.samples|) && r.diag.applied == e.diag.applied
            && r.diag.queued == |r.session.queue|
            && |r.session.queue| <= QUEUE_CAPACITY
  {
    hide BatchVerdict, ContinuityBroken, CountBefore;
    assert e.session.open;
    var batch := DecodeBatch(payload, kind).value;
    assert JoinPosition(e.session, batch, kind).Some?;
    assert OfferBatch(e.session, payload, kind, now).0 == Extend(e.session, batch, kind);
  }

  lemma {:induction false} RunStaysWithin(e: Executor, commands: seq<Command>)
    requires Bounded(e)
    ensures forall p :: p in Poses(e, commands) ==> WithinLimits(e.limits, p)
    decreases |commands|
  {
    hide StepExecutor, AdmitBatch, OpenExecutor, WithinLimits;
    if commands != [] {
      match commands[0] {
        case OpenStream(payload, now) => OpenStaysWithin(e, payload, now);
        case Admit(payload, kind, now) => AdmitStaysWithin(e, payload, kind, now); LimitsFixed(e, commands[0]);
        case Begin(now, pose) => assert Bounded(Apply(e, commands[0]));
        case Control(now) => StepStaysWithin(e, now); LimitsFixed(e, commands[0]);
      }
      RunStaysWithin(Apply(e, commands[0]), commands[1..]);
    }
  }

  lemma LimitsFixed(e: Executor, c: Command)
    ensures Apply(e, c).limits == e.limits
  {
    hide OfferBatch, WithinLimits;
    match c {
      case Admit(payload, kind, now) =>
        if AdmitBatch(e, payload, kind, now).1 != ExecutorOk { RejectedOfferLeavesRun(e, payload, kind, now); }
      case _ =>
    }
  }

  lemma OpenStaysWithin(e: Executor, payload: seq<u8>, now: u32)
    requires Bounded(e)
    ensures Bounded(OpenExecutor(e, payload, now).0) && OpenExecutor(e, payload, now).0.limits == e.limits
  {
    hide ValidatePolicy;
  }

  /** The poses emitted by a sequence of commands. */
  function Poses(e: Executor, commands: seq<Command>): seq<Joints>
    decreases |commands|
  {
    if commands == [] then []
    else
      var later := Poses(Apply(e, commands[0]), commands[1..]);
      if Emitted(e, commands[0]).Some? then [Emitted(e, commands[0]).value] + later else later
  }

  /** Limits. From initialisation on, whatever is opened, appended, spliced, started or
      stepped at whatever times, every emitted pose lies inside the joint limits. */
  lemma EveryPoseIsWithinLimits(caps: HardCaps, limits: Limits, commands: seq<Command>)
    requires SaneLimits(limits)
    ensures forall p :: p in Poses(Initial(caps, limits), commands) ==> WithinLimits(limits, p)
  {
    RunStaysWithin(Initial(caps, limits), commands);
  }

  // ---- conservation ---------------------------------------------------------

  /** Queued setpoints that a command discards by splicing over them. */
  function Discarded(e: Executor, c: Command): nat {
    if c.Admit? && c.kind == Splice && AdmitBatch(e, c.payload, Splice, c.now).1 == ExecutorOk
       && DecodeBatch(c.payload, Splice).Accepted? then
      |e.session.queue| - CountBefore(e.session.queue, 0, DecodeBatch(c.payload, Splice).value.spliceAtTick)
    else 0
  }

  /** Setpoints discarded since the stream was last opened. */
  function TotalDiscarded(e: Executor, commands: seq<Command>, before: nat): nat
    decreases |commands|
  {
    if commands == [] then before
    else
      var c := commands[0];
      var reopened := c.OpenStream? && OpenExecutor(e, c.payload, c.now).1 == ExecutorOk;
      TotalDiscarded(Apply(e, c), commands[1..], if reopened then 0 else before + Discarded(e, c))
  }

  function Final(e: Executor, commands: seq<Command>): Executor
    decreases |commands|
  {
    if commands == [] then e else Final(Apply(e, commands[0]), commands[1..])
  }

  /** accepted = applied + queued + discarded, in the counters' 32-bit arithmetic, and the
      queue fits its array. */
  predicate Balanced(e: Executor, discarded: nat) {
    e.diag.accepted == Wrap(e.diag.applied + |e.session.queue| + discarded) && |e.session.queue| <= QUEUE_CAPACITY
  }

  lemma ExtendedLength(e: Executor, batch: Batch, kind: BatchKind)
    ensures var kept := if kind == Splice then CountBefore(e.session.queue, 0, batch.spliceAtTick) else |e.session.queue|;
            |Extend(e.session, batch, kind).queue| == kept + |batch.samples|
  {
    hide CountBefore;
  }

  lemma AdmitBalances(e: Executor, payload: seq<u8>, kind: BatchKind, now: u32, discarded: nat)
    requires Balanced(e, discarded)
    ensures Balanced(AdmitBatch(e, payload, kind, now).0, discarded + Discarded(e, Admit(payload, kind, now)))
  {
    hide AdmitBatch, DecodeBatch, CountBefore, Extend;
    if AdmitBatch(e, payload, kind, now).1 == ExecutorOk {
      AcceptedQueue(e, payload, kind, now);
      var batch := DecodeBatch(payload, kind).value;
      ExtendedLength(e, batch, kind);
      WrapAdds(e.diag.applied + |e.session.queue| + discarded, |batch.samples|);
    } else {
      RejectedOfferLeavesRun(e, payload, kind, now);
    }
  }

  lemma WrapAdds(a: int, b: int)
    ensures Wrap(Wrap(a) + b) == Wrap(a + b)
  {
  }

  /** The three counts that conservation is about. */
  predicate SameCounts(e: Executor, r: Executor) {
    r.diag.accepted == e.diag.accepted && r.diag.applied == e.diag.applied && r.session.queue == e.session.queue
  }

  /** A step leaves the counts alone or applies the front setpoint. */
  lemma StepCounts(e: Executor, now: u32)
    ensures var r := StepExecutor(e, now).exec;
            SameCounts(e, r) || (e.session.queue != [] && SameCounts(Applied(e, Sub(now, DueTick(e))), r))
  {
    hide LerpJoints, FirstControlTick, Wrap;
  }

  /** One more applied and one fewer queued, even as the counter wraps. */
  lemma CountMoves(applied: u32, queued: nat, discarded: nat)
    requires queued > 0
    ensures Wrap(Add(applied, 1) + (queued - 1) + discarded) == Wrap(applied + queued + discarded)
  {
  }

  lemma AppliedBalances(e: Executor, lateness: u32, discarded: nat)
    requires Balanced(e, discarded) && e.session.queue != []
    ensures Balanced(Applied(e, lateness), discarded)
  {
    hide FirstControlTick, Wrap, Add;
    CountMoves(e.diag.applied, |e.session.queue|, discarded);
  }

  lemma StepBalances(e: Executor, now: u32, discarded: nat)
    requires Balanced(e, discarded)
    ensures Balanced(StepExecutor(e, now).exec, discarded)
  {
    hide StepExecutor, Applied, Wrap, DueTick;
    StepCounts(e, now);
    if e.session.queue != [] { AppliedBalances(e, Sub(now, DueTick(e)), discarded); }
  }

  lemma OpenBalances(e: Executor, payload: seq<u8>, now: u32, discarded: nat)
    requires Balanced(e, discarded)
    ensures Balanced(OpenExecutor(e, payload, now).0, if OpenExecutor(e, payload, now).1 == ExecutorOk then 0 else discarded)
  {
    hide ValidatePolicy;
  }

  lemma {:induction false} RunBalances(e: Executor, commands: seq<Command>, discarded: nat)
    requires Balanced(e, discarded)
    ensures Balanced(Final(e, commands), TotalDiscarded(e, commands, discarded))
    decreases |commands|
  {
    hide StepExecutor, AdmitBatch, OpenExecutor, Discarded;
    if commands != [] {
      var c := commands[0];
      var reopened := c.OpenStream? && OpenExecutor(e, c.payload, c.now).1 == ExecutorOk;
      var next := if reopened then 0 else discarded + Discarded(e, c);
      assert Balanced(Apply(e, c), next) by {
        match c {
          case OpenStream(payload, now) => OpenBalances(e, payload, now, discarded); NothingDiscarded(e, c);
          case Admit(payload, kind, now) => AdmitBalances(e, payload, kind, now, discarded);
          case Begin(now, pose) => NothingDiscarded(e, c);
          case Control(now) => StepBalances(e, now, discarded); NothingDiscarded(e, c);
        }
      }
      RunBalances(Apply(e, c), commands[1..], next);
    }
  }

  lemma NothingDiscarded(e: Executor, c: Command)
    requires !c.Admit?
    ensures Discarded(e, c) == 0
  {
  }

  /** Conservation. In every run with arbitrary appends, splices and stops, the accepted
      setpoints are exactly those applied, still queued, or removed by a splice. */
  lemma SetpointsAreConserved(caps: HardCaps, limits: Limits, commands: seq<Command>)
    ensures Balanced(Final(Initial(caps, limits), commands), TotalDiscarded(Initial(caps, limits), commands, 0))
  {
    RunBalances(Initial(caps, limits), commands, 0);
  }
}

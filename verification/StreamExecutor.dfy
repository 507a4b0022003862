// Trajectory streaming, executor: admission of batches, start from a measured
// pose, and the control step that applies or interpolates the next setpoint on
// a timeline snapped to whole control ticks.
module StreamExecutor {
  import opened Words
  import opened Optional
  import opened Lerp
  import opened StreamContract
  import opened StreamSession

  datatype ExecutorState = Closed | Priming | Running | Hold | Succeeded | Aborted

  datatype TerminalReason = NoReason | PlannedHorizon | QueueUnderflow | CommandTimeout | MissedApplyTick | InvalidTimeline

  datatype ExecutorResult =
    | ExecutorOk | Waiting | OutputReady | Terminal | BadState | InvalidLimit | ContractRejected
    | BatchRejected | JointLimitRejected | InsufficientPrime | InvalidAnchor

  datatype Limit = Limit(minimum: i32, maximum: i32)

  type Limits = l: seq<Limit> | |l| == 12 witness seq(12, _ => Limit(0, 0))

  datatype Diagnostics = Diagnostics(
    state: ExecutorState, reason: TerminalReason, lastStatus: StreamStatus, lastContract: ContractResult,
    accepted: u32, applied: u32, outputs: u32, splices: u32, lastCommandTick: u32, terminalTick: u32,
    maximumLateness: u32, queued: nat, peakQueued: nat, safeStop: bool)

  datatype Executor = Executor(
    session: SessionState, caps: HardCaps, limits: Limits, anchor: Setpoint, lastOutput: Joints,
    diag: Diagnostics, controlEpochTick: u32, lastStepTick: u32,
    anchorValid: bool, outputValid: bool, lastStepValid: bool)

  datatype Outcome = Outcome(exec: Executor, result: ExecutorResult, output: Option<Joints>)

  const ZERO_SETPOINT: Setpoint := Setpoint(0, ZERO_JOINTS)

  function ClearedDiagnostics(state: ExecutorState, status: StreamStatus): Diagnostics {
    Diagnostics(state, NoReason, status, ContractOk, 0, 0, 0, 0, 0, 0, 0, 0, 0, false)
  }

  function Initial(caps: HardCaps, limits: Limits): Executor {
    Executor(EMPTY_SESSION, caps, limits, ZERO_SETPOINT, ZERO_JOINTS,
             ClearedDiagnostics(Closed, StatusNotOpen), 0, 0, false, false, false)
  }

  // ---- the control timeline -------------------------------------------------

  /** First control tick, counted from the epoch, at or after a setpoint's own tick. */
  function FirstControlTick(epoch: u32, applyTick: u32): u32 {
    Add(epoch, Add(Sub(applyTick, epoch), 4) / 5 * 5)
  }

  predicate WithinLimits(limits: Limits, p: Joints) {
    forall j :: 0 <= j < JOINTS ==> limits[j].minimum <= p[j] <= limits[j].maximum
  }

  function QueueNoted(d: Diagnostics, queued: nat): Diagnostics {
    d.(queued := queued, peakQueued := if queued > d.peakQueued then queued else d.peakQueued)
  }

  function Terminated(e: Executor, state: ExecutorState, reason: TerminalReason, now: u32, safeStop: bool): Executor {
    e.(diag := e.diag.(state := state, reason := reason, terminalTick := now, safeStop := safeStop))
  }

  function Recorded(e: Executor, output: Joints): Executor {
    e.(lastOutput := output, outputValid := true, diag := e.diag.(outputs := Add(e.diag.outputs, 1)))
  }

  // ---- open -----------------------------------------------------------------

  function OpenExecutor(e: Executor, payload: seq<u8>, now: u32): (Executor, ExecutorResult) {
    if e.diag.state == Running then (e, BadState)
    else
      var (session, r) := OpenSession(e.session, payload, e.caps, now);
      if r.contract != ContractOk then
        (e.(session := session, diag := e.diag.(lastStatus := r.status, lastContract := r.contract)), ContractRejected)
      else
        (e.(session := session, anchor := ZERO_SETPOINT, diag := ClearedDiagnostics(Priming, r.status),
            anchorValid := false, outputValid := false, lastStepValid := false), ExecutorOk)
  }

  // ---- admit ----------------------------------------------------------------

  predicate BatchWithinLimits(limits: Limits, samples: seq<Setpoint>) {
    forall i :: 0 <= i < |samples| ==> WithinLimits(limits, samples[i].position)
  }

  /** The first setpoint of an appended batch continues from the queue's tail: a whole
      number of control ticks later, and no faster than the policy allows. */
  predicate JoinsTail(tail: Setpoint, batch: Batch, step: Joints)
    requires |batch.samples| > 0
  {
    var delta := Sub(batch.firstApplyTick, tail.applyTick);
    delta % 5 == 0 && StepBounded(tail.position, batch.samples[0].position, step, delta / 5)
  }

  function Tail(q: seq<Setpoint>): Setpoint
    requires q != []
  {
    q[|q| - 1]
  }

  predicate ContinuityBroken(s: SessionState, batch: Batch, kind: BatchKind)
    requires |batch.samples| > 0
  {
    kind == Append && s.queue != [] && After(batch.firstApplyTick, Tail(s.queue).applyTick) &&
    !JoinsTail(Tail(s.queue), batch, s.policy.maximumStep)
  }

  function NoteVerdict(e: Executor, verdict: ContractResult): Executor {
    e.(diag := e.diag.(lastContract := verdict))
  }

  function AfterOffer(e: Executor, session: SessionState, r: SessionResult, count: nat, kind: BatchKind, now: u32):
    (Executor, ExecutorResult)
  {
    var noted := e.diag.(lastStatus := r.status, lastContract := r.contract);
    if !AcceptedBy(r) then (e.(session := session, diag := noted), BatchRejected)
    else
      var counted := noted.(accepted := Wrap(noted.accepted + count),
                            splices := if kind == Splice then Add(noted.splices, 1) else noted.splices,
                            lastCommandTick := now);
      (e.(session := session, diag := QueueNoted(counted, |session.queue|)), ExecutorOk)
  }

  function AdmitDecoded(e: Executor, batch: Batch, payload: seq<u8>, kind: BatchKind, now: u32): (Executor, ExecutorResult) {
    if !BatchWithinLimits(e.limits, batch.samples) then (e, JointLimitRejected)
    else if |batch.samples| > 0 && ContinuityBroken(e.session, batch, kind) then
      (NoteVerdict(e, SampleDiscontinuity), BatchRejected)
    else
      var (session, r) := OfferBatch(e.session, payload, kind, now);
      AfterOffer(e, session, r, |batch.samples|, kind, now)
  }

  function AdmitBatch(e: Executor, payload: seq<u8>, kind: BatchKind, now: u32): (Executor, ExecutorResult) {
    if e.diag.state != Priming && e.diag.state != Running then (e, BadState)
    else
      match DecodeBatch(payload, kind)
      case Rejected(reason) => (NoteVerdict(e, reason), ContractRejected)
      case Accepted(batch) => AdmitDecoded(e, batch, payload, kind, now)
  }

  // ---- start ----------------------------------------------------------------

  /** Rounded up: the first segment may start between two control ticks of its setpoint. */
  function CeilTicks(span: u32): nat {
    Add(span, 4) / 5
  }

  predicate AnchorAcceptable(e: Executor, now: u32, position: Joints)
    requires e.session.queue != []
  {
    var first := e.session.queue[0];
    && WithinLimits(e.limits, position)
    && After(first.applyTick, now)
    && StepBounded(position, first.position, e.session.policy.maximumStep, CeilTicks(Sub(first.applyTick, now)))
  }

  function StartExecutor(e: Executor, now: u32, position: Joints): (Executor, ExecutorResult) {
    if e.diag.state != Priming then (e, BadState)
    else if |e.session.queue| < e.session.policy.minimumStartSamples then (e, InsufficientPrime)
    else if e.session.queue == [] || !AnchorAcceptable(e, now, position) then (e, InvalidAnchor)
    else
      (e.(anchor := Setpoint(now, position), anchorValid := true, controlEpochTick := now,
          lastStepTick := now, lastStepValid := true, diag := e.diag.(state := Running)), ExecutorOk)
  }

  // ---- step -----------------------------------------------------------------

  function DueTick(e: Executor): u32
    requires e.session.queue != []
  {
    FirstControlTick(e.controlEpochTick, e.session.queue[0].applyTick)
  }

  function AnchorTick(e: Executor): u32 {
    FirstControlTick(e.controlEpochTick, e.anchor.applyTick)
  }

  function AppliedDiagnostics(d: Diagnostics, queued: nat, lateness: u32): Diagnostics {
    QueueNoted(d, queued).(applied := Add(d.applied, 1),
      maximumLateness := if lateness > d.maximumLateness then lateness else d.maximumLateness)
  }

  /** The head of the queue becomes the anchor and the output. */
  function Applied(e: Executor, lateness: u32): Executor
    requires e.session.queue != []
  {
    var rest := e.session.queue[1..];
    Recorded(e.(anchor := e.session.queue[0], session := e.session.(queue := rest),
                diag := AppliedDiagnostics(e.diag, |rest|, lateness)), e.session.queue[0].position)
  }

  predicate HorizonReached(e: Executor) {
    e.session.horizonEndTick != 0 && e.anchor.applyTick == e.session.horizonEndTick && e.session.queue == []
  }

  function ApplyDue(e: Executor, now: u32): Outcome
    requires e.session.queue != []
  {
    var lateness := Sub(now, DueTick(e));
    if lateness > e.session.policy.maximumApplyLatenessMs then
      Outcome(Terminated(e, Aborted, MissedApplyTick, now, true), Terminal, None)
    else
      var applied := Applied(e, lateness);
      if HorizonReached(applied) then
        Outcome(Terminated(applied, Succeeded, PlannedHorizon, now, false), Terminal, Some(applied.anchor.position))
      else Outcome(applied, OutputReady, Some(applied.anchor.position))
  }

  function InterpolateStep(e: Executor, now: u32): Outcome
    requires e.session.queue != []
  {
    var span := Sub(DueTick(e), AnchorTick(e));
    var elapsed := Sub(now, AnchorTick(e));
    if span == 0 || elapsed > span then
      Outcome(Terminated(e, Aborted, InvalidTimeline, now, true), Terminal, None)
    else
      var output := LerpJoints(e.anchor.position, e.session.queue[0].position, elapsed, span);
      Outcome(Recorded(e, output), OutputReady, Some(output))
  }

  function StepTimed(e: Executor, now: u32): Outcome {
    if e.session.horizonEndTick == 0 && Sub(now, e.diag.lastCommandTick) > e.session.policy.commandTimeoutMs then
      Outcome(Terminated(Recorded(e, e.anchor.position), Hold, CommandTimeout, now, true), Terminal,
              Some(e.anchor.position))
    else if e.session.queue == [] then
      if e.session.horizonEndTick != 0 then
        Outcome(Terminated(e, Aborted, QueueUnderflow, now, true), Terminal, None)
      else Outcome(Recorded(e, e.anchor.position), OutputReady, Some(e.anchor.position))
    else if !After(DueTick(e), now) then ApplyDue(e, now)
    else InterpolateStep(e, now)
  }

  function StepExecutor(e: Executor, now: u32): Outcome {
    if e.diag.state == Priming then Outcome(e, Waiting, None)
    else if e.diag.state != Running || !e.anchorValid then Outcome(e, BadState, None)
    else if (e.lastStepValid && After(e.lastStepTick, now)) || After(e.anchor.applyTick, now) then
      Outcome(Terminated(e, Aborted, InvalidTimeline, now, true), Terminal, None)
    else StepTimed(e.(lastStepTick := now, lastStepValid := true), now)
  }

  // ---- the executor object --------------------------------------------------

  class StreamExecutor {
    const session: Session
    const caps: HardCaps
    const limits: Limits
    var anchor: Setpoint
    var lastOutput: Joints
    var diag: Diagnostics
    var controlEpochTick: u32
    var lastStepTick: u32
    var anchorValid: bool
    var outputValid: bool
    var lastStepValid: bool

    ghost predicate Valid()
      reads this, session
    {
      session.Valid()
    }

    ghost function State(): Executor
      requires Valid()
      reads this, session, session.samples
    {
      Executor(session.State(), caps, limits, anchor, lastOutput, diag, controlEpochTick, lastStepTick,
               anchorValid, outputValid, lastStepValid)
    }

    constructor (caps: HardCaps, limits: Limits)
      ensures Valid() && fresh(session) && fresh(session.samples)
      ensures State() == Initial(caps, limits)
    {
      session := new Session();
      this.caps, this.limits := caps, limits;
      anchor, lastOutput, diag := ZERO_SETPOINT, ZERO_JOINTS, ClearedDiagnostics(Closed, StatusNotOpen);
      controlEpochTick, lastStepTick := 0, 0;
      anchorValid, outputValid, lastStepValid := false, false, false;
    }

    method Open(payload: seq<u8>, now: u32) returns (r: ExecutorResult)
      requires Valid()
      modifies this, session
      ensures Valid()
      ensures (State(), r) == OpenExecutor(old(State()), payload, now)
    {
      hide OpenSession;
      if diag.state == Running { return BadState; }
      var result := session.Open(payload, caps, now);
      diag := diag.(lastStatus := result.status, lastContract := result.contract);
      if result.contract != ContractOk { return ContractRejected; }
      anchor := ZERO_SETPOINT;
      diag := ClearedDiagnostics(Priming, result.status);
      anchorValid, outputValid, lastStepValid := false, false, false;
      r := ExecutorOk;
    }

    method PositionsWithinLimits(position: Joints) returns (inside: bool)
      ensures inside <==> WithinLimits(limits, position)
    {
      for joint := 0 to JOINTS
        invariant forall j :: 0 <= j < joint ==> limits[j].minimum <= position[j] <= limits[j].maximum
      {
        if position[joint] < limits[joint].minimum || position[joint] > limits[joint].maximum { return false; }
      }
      inside := true;
    }

    method SamplesWithinLimits(samples: seq<Setpoint>) returns (inside: bool)
      ensures inside <==> BatchWithinLimits(limits, samples)
    {
      for sample := 0 to |samples|
        invariant forall i :: 0 <= i < sample ==> WithinLimits(limits, samples[i].position)
      {
        var fits := PositionsWithinLimits(samples[sample].position);
        if !fits { return false; }
      }
      inside := true;
    }

    method UpdateQueueDiagnostics()
      requires Valid()
      modifies this`diag
      ensures diag == QueueNoted(old(diag), |session.State().queue|)
    {
      diag := diag.(queued := session.count);
      if diag.queued > diag.peakQueued {
        diag := diag.(peakQueued := diag.queued);
      }
    }

    /** Compares the batch's first setpoint with the queue's tail, joint by joint. */
    method CheckContinuity(batch: Batch, kind: BatchKind) returns (broken: bool)
      requires Valid() && |batch.samples| > 0
      ensures broken <==> ContinuityBroken(session.State(), batch, kind)
    {
      if kind != Append || session.count == 0 { return false; }
      var tail := session.samples[session.count - 1];
      assert tail == Tail(session.State().queue);
      if !After(batch.firstApplyTick, tail.applyTick) { return false; }
      var delta := Sub(batch.firstApplyTick, tail.applyTick);
      if delta % 5 != 0 { return true; }
      for joint := 0 to JOINTS
        invariant forall j :: 0 <= j < joint ==>
          Distance(batch.samples[0].position[j], tail.position[j]) <= (session.policy.maximumStep[j] as int) * (delta / 5)
      {
        if Distance(batch.samples[0].position[joint], tail.position[joint])
           > (session.policy.maximumStep[joint] as int) * (delta / 5) {
          return true;
        }
      }
      broken := false;
    }

    method Admit(payload: seq<u8>, kind: BatchKind, now: u32) returns (r: ExecutorResult)
      requires Valid()
      modifies this, session, session.samples
      ensures Valid()
      ensures (State(), r) == AdmitBatch(old(State()), payload, kind, now)
    {
      if diag.state != Priming && diag.state != Running { return BadState; }
      var decoded := BatchDecode(payload, kind);
      if decoded.Rejected? {
        diag := diag.(lastContract := decoded.reason);
        return ContractRejected;
      }
      r := AdmitChecked(decoded.value, payload, kind, now);
    }

    method AdmitChecked(batch: Batch, payload: seq<u8>, kind: BatchKind, now: u32) returns (r: ExecutorResult)
      requires Valid()
      modifies this, session, session.samples
      ensures Valid()
      ensures (State(), r) == AdmitDecoded(old(State()), batch, payload, kind, now)
    {
      hide OfferBatch, ContinuityBroken, BatchWithinLimits;
      var inside := SamplesWithinLimits(batch.samples);
      if !inside { return JointLimitRejected; }
      if |batch.samples| > 0 {
        var broken := CheckContinuity(batch, kind);
        if broken {
          diag := diag.(lastContract := SampleDiscontinuity);
          return BatchRejected;
        }
      }
      var result := session.Batch(payload, kind, now);
      r := NoteOffer(result, |batch.samples|, kind, now);
    }

    method NoteOffer(result: SessionResult, count: nat, kind: BatchKind, now: u32) returns (r: ExecutorResult)
      requires Valid()
      modifies this`diag
      ensures (State(), r) == AfterOffer(old(State()), session.State(), result, count, kind, now)
    {
      diag := diag.(lastStatus := result.status, lastContract := result.contract);
      if result.contract != ContractOk || result.status != StatusValidationOnly { return BatchRejected; }
      diag := diag.(accepted := Wrap(diag.accepted + count));
      if kind == Splice {
        diag := diag.(splices := Add(diag.splices, 1));
      }
      diag := diag.(lastCommandTick := now);
      UpdateQueueDiagnostics();
      r := ExecutorOk;
    }

    method Start(now: u32, position: Joints) returns (r: ExecutorResult)
      requires Valid()
      modifies this
      ensures Valid()
      ensures (State(), r) == StartExecutor(old(State()), now, position)
    {
      if diag.state != Priming { return BadState; }
      if session.count < session.policy.minimumStartSamples { return InsufficientPrime; }
      if session.count == 0 { return InvalidAnchor; }
      var first := session.samples[0];
      assert first == session.State().queue[0];
      var inside := PositionsWithinLimits(position);
      if !inside || !After(first.applyTick, now) { return InvalidAnchor; }
      var outputTicks := Add(Sub(first.applyTick, now), 4) / 5;
      for joint := 0 to JOINTS
        invariant forall j :: 0 <= j < joint ==>
          Distance(first.position[j], position[j]) <= (session.policy.maximumStep[j] as int) * outputTicks
      {
        if Distance(first.position[joint], position[joint]) > (session.policy.maximumStep[joint] as int) * outputTicks {
          return InvalidAnchor;
        }
      }
      anchor, anchorValid, controlEpochTick := Setpoint(now, position), true, now;
      lastStepTick, lastStepValid, diag := now, true, diag.(state := Running);
      r := ExecutorOk;
    }

    method RecordOutput(output: Joints)
      requires Valid()
      modifies this`lastOutput, this`outputValid, this`diag
      ensures State() == Recorded(old(State()), output)
    {
      lastOutput, outputValid := output, true;
      diag := diag.(outputs := Add(diag.outputs, 1));
    }

    method Terminate(state: ExecutorState, reason: TerminalReason, now: u32, safeStop: bool)
      requires Valid()
      modifies this`diag
      ensures State() == Terminated(old(State()), state, reason, now, safeStop)
    {
      diag := diag.(state := state, reason := reason, terminalTick := now, safeStop := safeStop);
    }

    method Step(now: u32) returns (r: ExecutorResult, output: Option<Joints>)
      requires Valid()
      modifies this, session, session.samples
      ensures Valid()
      ensures Outcome(State(), r, output) == StepExecutor(old(State()), now)
    {
      if diag.state == Priming { return Waiting, None; }
      if diag.state != Running || !anchorValid { return BadState, None; }
      if (lastStepValid && After(lastStepTick, now)) || After(anchor.applyTick, now) {
        Terminate(Aborted, InvalidTimeline, now, true);
        return Terminal, None;
      }
      lastStepTick, lastStepValid := now, true;
      if session.horizonEndTick == 0 && Sub(now, diag.lastCommandTick) > session.policy.commandTimeoutMs {
        output := Some(anchor.position);
        RecordOutput(anchor.position);
        Terminate(Hold, CommandTimeout, now, true);
        return Terminal, output;
      }
      if session.count == 0 {
        if session.horizonEndTick != 0 {
          Terminate(Aborted, QueueUnderflow, now, true);
          return Terminal, None;
        }
        output := Some(anchor.position);
        RecordOutput(anchor.position);
        return OutputReady, output;
      }
      assert session.samples[0] == session.State().queue[0];
      r, output := StepQueued(now);
    }

    /** The part of the step that needs a queued setpoint: apply it when it is due,
        interpolate towards it before. */
    method StepQueued(now: u32) returns (r: ExecutorResult, output: Option<Joints>)
      requires Valid() && session.count > 0
      modifies this, session`count, session.samples
      ensures Valid()
      ensures Outcome(State(), r, output) ==
        if !After(DueTick(old(State())), now) then ApplyDue(old(State()), now) else InterpolateStep(old(State()), now)
    {
      var next := session.samples[0];
      assert next == State().session.queue[0];
      var dueTick := FirstControlTick(controlEpochTick, next.applyTick);
      if !After(dueTick, now) {
        r, output := ApplyNext(next, dueTick, now);
      } else {
        r, output := InterpolateNext(next, dueTick, now);
      }
    }

    method ApplyNext(next: Setpoint, dueTick: u32, now: u32) returns (r: ExecutorResult, output: Option<Joints>)
      requires Valid() && session.count > 0
      requires next == State().session.queue[0] && dueTick == DueTick(State())
      modifies this, session`count, session.samples
      ensures Valid()
      ensures Outcome(State(), r, output) == ApplyDue(old(State()), now)
    {
      var lateness := Sub(now, dueTick);
      if lateness > session.policy.maximumApplyLatenessMs {
        Terminate(Aborted, MissedApplyTick, now, true);
        return Terminal, None;
      }
      TakeHead(next, lateness);
      output := Some(next.position);
      if session.horizonEndTick != 0 && anchor.applyTick == session.horizonEndTick && session.count == 0 {
        Terminate(Succeeded, PlannedHorizon, now, false);
        return Terminal, output;
      }
      r := OutputReady;
    }

    method CountApplied(lateness: u32)
      requires Valid()
      modifies this`diag
      ensures State() == old(State()).(diag := AppliedDiagnostics(old(diag), |session.State().queue|, lateness))
    {
      if lateness > diag.maximumLateness {
        diag := diag.(maximumLateness := lateness);
      }
      UpdateQueueDiagnostics();
      diag := diag.(applied := Add(diag.applied, 1));
    }

    method TakeHead(next: Setpoint, lateness: u32)
      requires Valid() && session.count > 0
      requires next == State().session.queue[0]
      modifies this, session`count, session.samples
      ensures Valid()
      ensures State() == Applied(old(State()), lateness)
    {
      hide AppliedDiagnostics;
      anchor := next;
      session.ConsumeFirst();
      CountApplied(lateness);
      RecordOutput(next.position);
    }

    method InterpolateNext(next: Setpoint, dueTick: u32, now: u32) returns (r: ExecutorResult, output: Option<Joints>)
      requires Valid() && session.count > 0
      requires next == State().session.queue[0] && dueTick == DueTick(State())
      modifies this
      ensures Valid()
      ensures Outcome(State(), r, output) == InterpolateStep(old(State()), now)
    {
      var anchorTick := FirstControlTick(controlEpochTick, anchor.applyTick);
      var span, elapsed := Sub(dueTick, anchorTick), Sub(now, anchorTick);
      if span == 0 || elapsed > span {
        Terminate(Aborted, InvalidTimeline, now, true);
        return Terminal, None;
      }
      var positions := InterpolateJoints(anchor.position, next.position, elapsed, span);
      output := Some(positions);
      RecordOutput(positions);
      r := OutputReady;
    }
  }
}

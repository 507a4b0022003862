// Trajectory streaming, validated queue: opening a session, and appending a
// batch to the queue or splicing it in at a tick the queue still covers.
module StreamSession {
  import opened Words
  import opened Optional
  import opened Lerp
  import opened StreamContract

  datatype StreamStatus =
    | StatusOk | StatusContractRejected | StatusNotOpen | StatusQueueOverflow
    | StatusSplicePositionUnavailable | StatusValidationOnly

  datatype SessionResult = SessionResult(
    status: StreamStatus, contract: ContractResult, armMask: u8, arbiterEpoch: u32,
    horizonEndTick: u32, tailTick: u32, count: nat)

  const ZERO_POLICY: Policy := Policy(0, 0, 0, 0, 0, 0, ZERO_JOINTS, ZERO_JOINTS, 0)

  /** What a session holds; `queue` is the occupied part of the sample array. */
  datatype SessionState = SessionState(
    open: bool, epochEstablished: bool, policy: Policy, arbiterEpoch: u32, horizonEndTick: u32,
    queue: seq<Setpoint>)

  const EMPTY_SESSION: SessionState := SessionState(false, false, ZERO_POLICY, 0, 0, [])

  function Report(s: SessionState, status: StreamStatus, contract: ContractResult): SessionResult {
    SessionResult(status, contract, if s.open then s.policy.armMask else 0, s.arbiterEpoch, s.horizonEndTick,
                  if s.queue == [] then 0 else s.queue[|s.queue| - 1].applyTick, |s.queue|)
  }

  /** A freshly opened session: everything else is cleared. */
  function Opened(policy: Policy): SessionState {
    SessionState(true, false, policy, 0, policy.horizonEndTick, [])
  }

  function OpenSession(s: SessionState, payload: seq<u8>, caps: HardCaps, now: u32): (SessionState, SessionResult) {
    match DecodePolicy(payload)
    case Rejected(reason) => (s, Report(s, StatusContractRejected, reason))
    case Accepted(policy) =>
      if ValidatePolicy(policy, caps, now) != ContractOk then
        (s, Report(s, StatusContractRejected, ValidatePolicy(policy, caps, now)))
      else (Opened(policy), Report(Opened(policy), StatusValidationOnly, ContractOk))
  }

  function LerpJoints(a: Joints, b: Joints, elapsed: u32, span: u32): Joints
    requires span > 0
  {
    seq(12, j requires 0 <= j < 12 => Interpolate(a[j], b[j], elapsed, span))
  }

  /** The segment starting at `i` strictly contains the tick. */
  predicate SegmentContains(q: seq<Setpoint>, i: nat, tick: u32)
    requires i + 1 < |q|
  {
    After(tick, q[i].applyTick) && After(q[i + 1].applyTick, tick)
  }

  /** Position of the queued trajectory at a tick, searching from sample `i`. */
  function PositionAt(q: seq<Setpoint>, i: nat, tick: u32): Option<Joints>
    decreases |q| - i
  {
    if i >= |q| then None
    else if q[i].applyTick == tick then Some(q[i].position)
    else if i + 1 < |q| && SegmentContains(q, i, tick) then
      Some(LerpJoints(q[i].position, q[i + 1].position,
                      Sub(tick, q[i].applyTick), Sub(q[i + 1].applyTick, q[i].applyTick)))
    else PositionAt(q, i + 1, tick)
  }

  /** Number of leading samples strictly before the tick, counting from `i`. */
  function CountBefore(q: seq<Setpoint>, i: nat, tick: u32): (n: nat)
    requires i <= |q|
    ensures i <= n <= |q|
    ensures forall k :: i <= k < n ==> After(tick, q[k].applyTick)
    ensures n < |q| ==> !After(tick, q[n].applyTick)
    decreases |q| - i
  {
    if i < |q| && After(tick, q[i].applyTick) then CountBefore(q, i + 1, tick) else i
  }

  function Retained(s: SessionState, kind: BatchKind, spliceAt: u32): nat {
    if kind == Splice then CountBefore(s.queue, 0, spliceAt) else |s.queue|
  }

  function CurrentEpoch(s: SessionState, batch: Batch): u32 {
    if s.epochEstablished then s.arbiterEpoch else batch.arbiterEpoch
  }

  function TailTick(s: SessionState, now: u32): u32 {
    if s.queue == [] then now else s.queue[|s.queue| - 1].applyTick
  }

  function BatchVerdict(s: SessionState, batch: Batch, kind: BatchKind, now: u32, interpolated: Joints): ContractResult {
    ValidateTransition(batch, kind, s.policy, now, CurrentEpoch(s, batch), s.horizonEndTick, TailTick(s, now), interpolated)
  }

  /** The queue after a batch that passed every check. */
  function Extend(s: SessionState, batch: Batch, kind: BatchKind): SessionState {
    SessionState(s.open, true, s.policy, batch.arbiterEpoch, batch.horizonEndTick,
                 s.queue[..Retained(s, kind, batch.spliceAtTick)] + batch.samples)
  }

  function OfferDecoded(s: SessionState, batch: Batch, kind: BatchKind, now: u32, at: Joints): (SessionState, SessionResult) {
    if BatchVerdict(s, batch, kind, now, at) != ContractOk then
      (s, Report(s, StatusContractRejected, BatchVerdict(s, batch, kind, now, at)))
    else if Retained(s, kind, batch.spliceAtTick) + |batch.samples| > QUEUE_CAPACITY then
      (s, Report(s, StatusQueueOverflow, ContractOk))
    else
      (Extend(s, batch, kind), Report(Extend(s, batch, kind), StatusValidationOnly, ContractOk))
  }

  /** The position a splice must join, where the queue covers its tick. */
  function JoinPosition(s: SessionState, batch: Batch, kind: BatchKind): Option<Joints> {
    if kind == Splice then PositionAt(s.queue, 0, batch.spliceAtTick) else Some(ZERO_JOINTS)
  }

  function OfferBatch(s: SessionState, payload: seq<u8>, kind: BatchKind, now: u32): (SessionState, SessionResult) {
    if !s.open then (s, Report(s, StatusNotOpen, ContractOk))
    else
      match DecodeBatch(payload, kind)
      case Rejected(reason) => (s, Report(s, StatusContractRejected, reason))
      case Accepted(batch) =>
        match JoinPosition(s, batch, kind)
        case None => (s, Report(s, StatusSplicePositionUnavailable, ContractOk))
        case Some(at) => OfferDecoded(s, batch, kind, now, at)
  }

  predicate AcceptedBy(r: SessionResult) {
    r.contract == ContractOk && r.status == StatusValidationOnly
  }

  method InterpolateJoints(a: Joints, b: Joints, elapsed: u32, span: u32) returns (output: Joints)
    requires span > 0
    ensures output == LerpJoints(a, b, elapsed, span)
  {
    var positions: seq<i32> := [];
    for joint := 0 to JOINTS
      invariant |positions| == joint
      invariant forall j :: 0 <= j < joint ==> positions[j] == Interpolate(a[j], b[j], elapsed, span)
    {
      positions := positions + [Interpolate(a[joint], b[joint], elapsed, span)];
    }
    output := positions;
  }

  // ---- the session object ---------------------------------------------------

  class Session {
    var open: bool
    var epochEstablished: bool
    var policy: Policy
    var arbiterEpoch: u32
    var horizonEndTick: u32
    const samples: array<Setpoint>
    var count: nat

    ghost predicate Valid()
      reads this
    {
      samples.Length == QUEUE_CAPACITY && count <= QUEUE_CAPACITY
    }

    ghost function State(): SessionState
      requires Valid()
      reads this, samples
    {
      SessionState(open, epochEstablished, policy, arbiterEpoch, horizonEndTick, samples[..count])
    }

    constructor ()
      ensures Valid() && fresh(samples)
      ensures State() == EMPTY_SESSION
    {
      open, epochEstablished, policy, arbiterEpoch, horizonEndTick := false, false, ZERO_POLICY, 0, 0;
      samples := new Setpoint[QUEUE_CAPACITY](_ => Setpoint(0, ZERO_JOINTS));
      count := 0;
    }

    method Result(status: StreamStatus, contract: ContractResult) returns (r: SessionResult)
      requires Valid()
      ensures r == Report(State(), status, contract)
    {
      r := SessionResult(status, contract, if open then policy.armMask else 0, arbiterEpoch, horizonEndTick,
                         if count > 0 then samples[count - 1].applyTick else 0, count);
    }

    method Open(payload: seq<u8>, caps: HardCaps, now: u32) returns (r: SessionResult)
      requires Valid()
      modifies this
      ensures Valid()
      ensures (State(), r) == OpenSession(old(State()), payload, caps, now)
    {
      var decoded := PolicyDecode(payload);
      var verdict: ContractResult;
      if decoded.Accepted? {
        verdict := PolicyValidate(decoded.value, caps, now);
      } else {
        verdict := decoded.reason;
      }
      if verdict != ContractOk || decoded.Rejected? {
        r := Result(StatusContractRejected, verdict);
        return;
      }
      epochEstablished, arbiterEpoch, count := false, 0, 0;
      open, policy, horizonEndTick := true, decoded.value, decoded.value.horizonEndTick;
      r := Result(StatusValidationOnly, ContractOk);
    }

    method InterpolatePosition(tick: u32) returns (r: Option<Joints>)
      requires Valid()
      ensures r == PositionAt(State().queue, 0, tick)
    {
      ghost var q := samples[..count];
      var index := 0;
      while index < count
        invariant 0 <= index <= count
        invariant PositionAt(q, 0, tick) == PositionAt(q, index, tick)
      {
        var sample := samples[index];
        assert sample == q[index];
        if sample.applyTick == tick { return Some(sample.position); }
        if index + 1 < count {
          var next := samples[index + 1];
          assert next == q[index + 1];
          if After(tick, sample.applyTick) && After(next.applyTick, tick) {
            assert SegmentContains(q, index, tick);
            var output := InterpolateJoints(sample.position, next.position,
                                            Sub(tick, sample.applyTick), Sub(next.applyTick, sample.applyTick));
            return Some(output);
          }
        }
        index := index + 1;
      }
      r := None;
    }

    /** Overwrites the array from `at` on with the batch. */
    method Store(batch: seq<Setpoint>, at: nat)
      requires Valid() && at + |batch| <= QUEUE_CAPACITY && at <= count
      modifies this`count, samples
      ensures Valid()
      ensures samples[..count] == old(samples[..at]) + batch
    {
      for k := 0 to |batch|
        invariant samples[..at] == old(samples[..at])
        invariant samples[at..at + k] == batch[..k]
      {
        samples[at + k] := batch[k];
      }
      count := at + |batch|;
      assert samples[..count] == samples[..at] + samples[at..at + |batch|];
    }

    method CountRetained(kind: BatchKind, spliceAt: u32) returns (retained: nat)
      requires Valid()
      ensures retained == Retained(State(), kind, spliceAt)
    {
      if kind == Append { return count; }
      ghost var q := samples[..count];
      retained := 0;
      while retained < count && After(spliceAt, samples[retained].applyTick)
        invariant 0 <= retained <= count
        invariant CountBefore(q, 0, spliceAt) == CountBefore(q, retained, spliceAt)
      {
        retained := retained + 1;
      }
    }

    method CheckTransition(batch: Batch, kind: BatchKind, now: u32, joinAt: Joints) returns (verdict: ContractResult)
      requires Valid()
      ensures verdict == BatchVerdict(State(), batch, kind, now, joinAt)
    {
      var epoch := if epochEstablished then arbiterEpoch else batch.arbiterEpoch;
      var lastTick := if count > 0 then samples[count - 1].applyTick else now;
      verdict := BatchValidateTransition(batch, kind, policy, now, epoch, horizonEndTick, lastTick, joinAt);
    }

    /** Transition check, room check and storing of a decoded batch. */
    method OfferChecked(batch: Batch, kind: BatchKind, now: u32, joinAt: Joints) returns (r: SessionResult)
      requires Valid()
      modifies this, samples
      ensures Valid()
      ensures (State(), r) == OfferDecoded(old(State()), batch, kind, now, joinAt)
    {
      hide CountBefore, BatchVerdict;
      var verdict := CheckTransition(batch, kind, now, joinAt);
      if verdict != ContractOk {
        r := Result(StatusContractRejected, verdict);
        return;
      }
      var retained := CountRetained(kind, batch.spliceAtTick);
      if retained + |batch.samples| > QUEUE_CAPACITY {
        r := Result(StatusQueueOverflow, ContractOk);
        return;
      }
      Store(batch.samples, retained);
      epochEstablished, arbiterEpoch, horizonEndTick := true, batch.arbiterEpoch, batch.horizonEndTick;
      assert old(samples[..retained]) == old(State()).queue[..retained];
      assert State() == Extend(old(State()), batch, kind);
      r := Result(StatusValidationOnly, ContractOk);
    }

    method Batch(payload: seq<u8>, kind: BatchKind, now: u32) returns (r: SessionResult)
      requires Valid()
      modifies this, samples
      ensures Valid()
      ensures (State(), r) == OfferBatch(old(State()), payload, kind, now)
    {
      if !open {
        r := Result(StatusNotOpen, ContractOk);
        return;
      }
      var decoded := BatchDecode(payload, kind);
      if decoded.Rejected? {
        r := Result(StatusContractRejected, decoded.reason);
        return;
      }
      var splicePosition := ZERO_JOINTS;
      if kind == Splice {
        var at := InterpolatePosition(decoded.value.spliceAtTick);
        if at.None? {
          r := Result(StatusSplicePositionUnavailable, ContractOk);
          return;
        }
        splicePosition := at.value;
      }
      r := OfferChecked(decoded.value, kind, now, splicePosition);
    }

    /** Drops the first sample, moving the others down one place. */
    method ConsumeFirst()
      requires Valid()
      modifies this`count, samples
      ensures Valid()
      ensures State() == old(State()).(queue := if old(count) > 0 then old(State()).queue[1..] else [])
    {
      if count > 1 {
        forall k | 0 <= k < count - 1 {
          samples[k] := samples[k + 1];
        }
      }
      if count > 0 {
        count := count - 1;
      }
    }
  }

  // ---- what an accepted offer did -------------------------------------------

  /** A rejected batch leaves the whole session, its queue included, unchanged. */
  lemma RejectedLeavesSession(s: SessionState, payload: seq<u8>, kind: BatchKind, now: u32)
    ensures var (s', r) := OfferBatch(s, payload, kind, now);
            !AcceptedBy(r) ==> s' == s
  {
  }

  /** The queue never exceeds the sample array. */
  lemma QueueStaysBounded(s: SessionState, payload: seq<u8>, kind: BatchKind, now: u32)
    requires |s.queue| <= QUEUE_CAPACITY
    ensures |OfferBatch(s, payload, kind, now).0.queue| <= QUEUE_CAPACITY
  {
  }

  /** On an ordered queue whose ticks lie within half a word, the samples a splice keeps
      are exactly those before the splice tick. */
  lemma {:induction false} CountBeforeSplits(q: seq<Setpoint>, i: nat, tick: u32, base: u32)
    requires i <= |q|
    requires forall k :: 0 <= k < |q| ==> Sub(q[k].applyTick, base) < HALF
    requires forall k :: 0 < k < |q| ==> After(q[k].applyTick, q[k - 1].applyTick)
    requires Sub(tick, base) < HALF
    ensures forall k :: CountBefore(q, i, tick) <= k < |q| ==> !After(tick, q[k].applyTick)
    decreases |q| - i
  {
    if i < |q| && After(tick, q[i].applyTick) {
      CountBeforeSplits(q, i + 1, tick, base);
    } else {
      var k := i;
      while k < |q|
        invariant i <= k <= |q|
        invariant k < |q| ==> !After(tick, q[k].applyTick)
        invariant forall j :: i <= j < k ==> !After(tick, q[j].applyTick)
      {
        k := k + 1;
      }
    }
  }

  // ---- the queued trajectory ------------------------------------------------

  /** Setpoints strictly later one by one, all within half a word of the base. */
  predicate InOrder(q: seq<Setpoint>, base: u32) {
    && (forall k :: 0 <= k < |q| ==> Sub(q[k].applyTick, base) < HALF)
    && (forall k :: 0 < k < |q| ==> After(q[k].applyTick, q[k - 1].applyTick))
  }

  lemma AfterByOffset(base: u32, a: u32, b: u32)
    requires Sub(a, base) < HALF && Sub(b, base) < HALF
    ensures After(a, b) <==> Sub(a, base) > Sub(b, base)
    ensures Sub(a, base) >= Sub(b, base) ==> Sub(a, b) == Sub(a, base) - Sub(b, base)
    ensures a == b <==> Sub(a, base) == Sub(b, base)
  {
  }

  lemma {:induction false} OffsetsIncrease(q: seq<Setpoint>, base: u32, i: nat, j: nat)
    requires InOrder(q, base) && i < j < |q|
    ensures Sub(q[i].applyTick, base) < Sub(q[j].applyTick, base)
    decreases j
  {
    AfterByOffset(base, q[j].applyTick, q[j - 1].applyTick);
    if i < j - 1 { OffsetsIncrease(q, base, i, j - 1); }
  }

  /** The queue passes its setpoints at their own ticks, and its straight segments between. */
  predicate PassesThrough(q: seq<Setpoint>, i: nat, tick: u32, base: u32, at: Option<Joints>) {
    && (at.Some? <==> i < |q| && Sub(q[i].applyTick, base) <= Sub(tick, base) <= Sub(q[|q| - 1].applyTick, base))
    && (forall k :: i <= k < |q| && q[k].applyTick == tick ==> at == Some(q[k].position))
    && (forall k :: i <= k < |q| - 1 && Sub(q[k].applyTick, base) < Sub(tick, base) < Sub(q[k + 1].applyTick, base) ==>
          at.Some? && OnLine(q[k], q[k + 1], tick, base, at.value))
  }

  /** Exactly interpolated, joint by joint, by the time passed since `a`. */
  predicate OnLine(a: Setpoint, b: Setpoint, tick: u32, base: u32, p: Joints) {
    var span := Sub(b.applyTick, base) - Sub(a.applyTick, base);
    && span > 0
    && forall j :: 0 <= j < JOINTS ==> p[j] == Exact(a.position[j], b.position[j], Sub(tick, base) - Sub(a.applyTick, base), span)
  }

  lemma LerpIsOnLine(a: Setpoint, b: Setpoint, tick: u32, base: u32)
    requires Sub(a.applyTick, base) < Sub(tick, base) < Sub(b.applyTick, base) < HALF
    ensures 0 < Sub(b.applyTick, a.applyTick)
    ensures OnLine(a, b, tick, base, LerpJoints(a.position, b.position, Sub(tick, a.applyTick), Sub(b.applyTick, a.applyTick)))
  {
    hide Interpolate, Exact;
    AfterByOffset(base, tick, a.applyTick);
    AfterByOffset(base, b.applyTick, a.applyTick);
    forall j | 0 <= j < JOINTS
      ensures Interpolate(a.position[j], b.position[j], Sub(tick, a.applyTick), Sub(b.applyTick, a.applyTick))
           == Exact(a.position[j], b.position[j], Sub(tick, base) - Sub(a.applyTick, base), Sub(b.applyTick, base) - Sub(a.applyTick, base))
    {
      InterpolateExact(a.position[j], b.position[j], Sub(tick, a.applyTick), Sub(b.applyTick, a.applyTick));
    }
  }

  lemma {:induction false} PositionFrom(q: seq<Setpoint>, i: nat, tick: u32, base: u32)
    requires InOrder(q, base) && Sub(tick, base) < HALF && i <= |q|
    ensures PassesThrough(q, i, tick, base, PositionAt(q, i, tick))
    decreases |q| - i
  {
    hide LerpJoints, OnLine, After, Sub;
    if i < |q| {
      PositionFrom(q, i + 1, tick, base);
      forall k | i < k < |q| ensures Sub(q[i].applyTick, base) < Sub(q[k].applyTick, base) { OffsetsIncrease(q, base, i, k); }
      AfterByOffset(base, tick, q[i].applyTick);
      if i + 1 < |q| {
        AfterByOffset(base, q[i + 1].applyTick, tick);
        forall k | i + 1 < k < |q| ensures Sub(q[i + 1].applyTick, base) < Sub(q[k].applyTick, base) {
          OffsetsIncrease(q, base, i + 1, k);
        }
        if SegmentContains(q, i, tick) { LerpIsOnLine(q[i], q[i + 1], tick, base); }
      }
    }
  }

  /** The position of the queue at a tick. There is one exactly from the first setpoint's
      tick to the last's; at a setpoint's tick it is that setpoint's, and strictly between
      two neighbours it lies on the straight line between them, truncated. */
  lemma PositionIsExact(q: seq<Setpoint>, tick: u32, base: u32)
    requires InOrder(q, base) && Sub(tick, base) < HALF
    ensures var at := PositionAt(q, 0, tick);
            && (at.None? <==> q == [] || Sub(tick, base) < Sub(q[0].applyTick, base) || Sub(tick, base) > Sub(q[|q| - 1].applyTick, base))
            && (forall k :: 0 <= k < |q| && q[k].applyTick == tick ==> at == Some(q[k].position))
            && (forall k :: 0 <= k < |q| - 1 && Sub(q[k].applyTick, base) < Sub(tick, base) < Sub(q[k + 1].applyTick, base) ==>
                  at.Some? && OnLine(q[k], q[k + 1], tick, base, at.value))
  {
    hide PositionAt, OnLine;
    PositionFrom(q, 0, tick, base);
  }

  predicate WithinOneStep(a: Joints, b: Joints, step: Joints) {
    forall j :: 0 <= j < JOINTS ==> Distance(b[j], a[j]) <= step[j]
  }

  /** Within one step of the straight line between two setpoints, at that tick. */
  predicate NearLine(a: Setpoint, b: Setpoint, tick: u32, base: u32, p: Joints, step: Joints) {
    var span := Sub(b.applyTick, base) - Sub(a.applyTick, base);
    && span > 0
    && forall j :: 0 <= j < JOINTS ==>
         Distance(p[j], Exact(a.position[j], b.position[j], Sub(tick, base) - Sub(a.applyTick, base), span)) <= step[j]
  }

  /** An accepted splice starts at its own tick, within one step of the queue's position
      there: of the setpoint it starts on, or of the straight line it cuts. */
  lemma SpliceJoinsPath(s: SessionState, payload: seq<u8>, now: u32, base: u32)
    requires AcceptedBy(OfferBatch(s, payload, Splice, now).1) && InOrder(s.queue, base)
    requires DecodeBatch(payload, Splice).Accepted? && Sub(DecodeBatch(payload, Splice).value.spliceAtTick, base) < HALF
    ensures var b := DecodeBatch(payload, Splice).value;
            b.samples != [] && s.queue != [] && b.samples[0].applyTick == b.spliceAtTick
    ensures var first := DecodeBatch(payload, Splice).value.samples[0];
            var q, t := s.queue, Sub(first.applyTick, base);
            && Sub(q[0].applyTick, base) <= t <= Sub(q[|q| - 1].applyTick, base)
            && (forall k :: 0 <= k < |q| && q[k].applyTick == first.applyTick ==>
                  WithinOneStep(q[k].position, first.position, s.policy.maximumStep))
            && (forall k :: 0 <= k < |q| - 1 && Sub(q[k].applyTick, base) < t < Sub(q[k + 1].applyTick, base) ==>
                  NearLine(q[k], q[k + 1], first.applyTick, base, first.position, s.policy.maximumStep))
  {
    hide PositionAt, Exact, DecodeBatch, BatchContinuous, Retained;
    var b := DecodeBatch(payload, Splice).value;
    DecodedBatchIsOrdered(payload, Splice);
    PositionIsExact(s.queue, b.spliceAtTick, base);
    var at := PositionAt(s.queue, 0, b.spliceAtTick);
    assert at.Some? && BatchVerdict(s, b, Splice, now, at.value) == ContractOk;
    assert StepBounded(at.value, b.samples[0].position, s.policy.maximumStep, 1);
    assert WithinOneStep(at.value, b.samples[0].position, s.policy.maximumStep) by {
      forall j | 0 <= j < JOINTS
        ensures Distance(b.samples[0].position[j], at.value[j]) <= s.policy.maximumStep[j]
      {
        assert Distance(b.samples[0].position[j], at.value[j]) <= (s.policy.maximumStep[j] as int) * 1;
      }
    }
  }
}

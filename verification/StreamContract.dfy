// Trajectory streaming, wire contract: decoding of the open and batch payloads,
// policy validation against the hard caps, and the rules a batch must meet
// before it may extend or replace the validated queue.
module StreamContract {
  import opened Words

  const JOINTS: nat := 12
  const QUEUE_CAPACITY: nat := 16
  const WIRE_MAX_SAMPLES: nat := 9
  const OPEN_WIRE_SIZE: nat := 120
  const BATCH_HEADER_SIZE: nat := 20
  const MINIMUM_SPLICE_LEAD_MS: nat := 20
  const CONTROL_TICK_MS: nat := 5

  type Joints = p: seq<i32> | |p| == 12 witness seq(12, _ => 0)

  const ZERO_JOINTS: Joints := [0, 0, 0, 0, 0, 0, 0, 0, 0, 0, 0, 0]

  datatype Setpoint = Setpoint(applyTick: u32, position: Joints)

  datatype Policy = Policy(
    minimumStartSamples: u16, minimumLeadMs: u32, horizonEndTick: u32, maximumLeadMs: u32,
    commandTimeoutMs: u32, maximumApplyLatenessMs: u32,
    trackingErrorLimit: Joints, maximumStep: Joints, armMask: u8)

  datatype HardCaps = HardCaps(
    minimumLeadMs: u32, maximumLeadMs: u32, maximumCommandTimeoutMs: u32,
    maximumOpenCommandTimeoutMs: u32, maximumApplyLatenessMs: u32,
    trackingErrorLimit: Joints, maximumStep: Joints)

  datatype BatchKind = Append | Splice

  datatype Batch = Batch(
    firstApplyTick: u32, horizonEndTick: u32, arbiterEpoch: u32, spliceAtTick: u32,
    armMask: u8, samples: seq<Setpoint>)

  datatype ContractResult =
    | ContractOk | InvalidLength | InvalidArmMask | InvalidReserved | InvalidMinimumStartSamples
    | MinimumLeadTooSmall | MaximumLeadTooLarge | LeadWindowInverted | CommandTimeoutTooLarge
    | OpenTimeoutTooLarge | ApplyLatenessTooLarge | TrackingErrorTooLarge | MaximumStepTooLarge
    | StaleHorizon | InvalidSampleCount | NonMonotonicTick | AppendEpochMismatch | HorizonRegression
    | HorizonBeforeLastSample | SpliceFieldMismatch | SpliceTooLate | SpliceAfterLastSample
    | SpliceFirstTickMismatch | SpliceDiscontinuity | FirstSampleTooEarly | LastSampleTooLate
    | SampleDiscontinuity

  datatype Decoded<T> = Rejected(reason: ContractResult) | Accepted(value: T)

  // ---- arm masks: the low two bits name the arms ----------------------------

  predicate ArmMaskValid(mask: u8) {
    mask == 1 || mask == 2 || mask == 3
  }

  /** (a & b) == a on two-bit masks. */
  predicate ArmMaskWithin(a: u8, b: u8) {
    (a % 2 == 1 ==> b % 2 == 1) && (a / 2 % 2 == 1 ==> b / 2 % 2 == 1)
  }

  // ---- opening policy -------------------------------------------------------

  function JointsAt(payload: seq<u8>, offset: nat): Joints
    requires offset + 4 * JOINTS <= |payload|
  {
    seq(12, j requires 0 <= j < 12 => ReadI32(payload, offset + 4 * j))
  }

  method ReadJoints(payload: seq<u8>, offset: nat) returns (position: Joints)
    requires offset + 4 * JOINTS <= |payload|
    ensures position == JointsAt(payload, offset)
  {
    var p: seq<i32> := [];
    for joint := 0 to JOINTS
      invariant |p| == joint
      invariant forall j :: 0 <= j < joint ==> p[j] == ReadI32(payload, offset + 4 * j)
    {
      p := p + [ReadI32(payload, offset + 4 * joint)];
    }
    position := p;
  }

  function DecodePolicy(payload: seq<u8>): Decoded<Policy> {
    if |payload| != OPEN_WIRE_SIZE then Rejected(InvalidLength)
    else if !ArmMaskValid(payload[2]) then Rejected(InvalidArmMask)
    else if payload[3] != 0 then Rejected(InvalidReserved)
    else Accepted(Policy(
      Read16(payload, 0), Read32(payload, 4), Read32(payload, 8), Read32(payload, 12),
      Read32(payload, 16), Read32(payload, 20), JointsAt(payload, 24), JointsAt(payload, 72), payload[2]))
  }

  method PolicyDecode(payload: seq<u8>) returns (r: Decoded<Policy>)
    ensures r == DecodePolicy(payload)
  {
    if |payload| != OPEN_WIRE_SIZE { return Rejected(InvalidLength); }
    if !ArmMaskValid(payload[2]) { return Rejected(InvalidArmMask); }
    if payload[3] != 0 { return Rejected(InvalidReserved); }
    var tracking := ReadJoints(payload, 24);
    var step := ReadJoints(payload, 72);
    r := Accepted(Policy(
      Read16(payload, 0), Read32(payload, 4), Read32(payload, 8), Read32(payload, 12),
      Read32(payload, 16), Read32(payload, 20), tracking, step, payload[2]));
  }

  /** First violation of the per-joint caps at or after `joint`. */
  function JointCapViolation(policy: Policy, caps: HardCaps, joint: nat): ContractResult
    decreases JOINTS - joint
  {
    if joint >= JOINTS then ContractOk
    else if policy.trackingErrorLimit[joint] <= 0 || caps.trackingErrorLimit[joint] <= 0 ||
      policy.trackingErrorLimit[joint] > caps.trackingErrorLimit[joint] then TrackingErrorTooLarge
    else if policy.maximumStep[joint] <= 0 || caps.maximumStep[joint] <= 0 ||
      policy.maximumStep[joint] > caps.maximumStep[joint] then MaximumStepTooLarge
    else JointCapViolation(policy, caps, joint + 1)
  }

  function ValidatePolicy(policy: Policy, caps: HardCaps, now: u32): ContractResult {
    if !ArmMaskValid(policy.armMask) then InvalidArmMask
    else if policy.minimumStartSamples == 0 || policy.minimumStartSamples > QUEUE_CAPACITY then
      InvalidMinimumStartSamples
    else if policy.minimumLeadMs < caps.minimumLeadMs then MinimumLeadTooSmall
    else if policy.maximumLeadMs > caps.maximumLeadMs then MaximumLeadTooLarge
    else if policy.minimumLeadMs > policy.maximumLeadMs then LeadWindowInverted
    else if policy.commandTimeoutMs == 0 || policy.commandTimeoutMs > caps.maximumCommandTimeoutMs then
      CommandTimeoutTooLarge
    else if policy.horizonEndTick == 0 && policy.commandTimeoutMs > caps.maximumOpenCommandTimeoutMs then
      OpenTimeoutTooLarge
    else if policy.maximumApplyLatenessMs > caps.maximumApplyLatenessMs then ApplyLatenessTooLarge
    else if policy.horizonEndTick != 0 && !After(policy.horizonEndTick, now) then StaleHorizon
    else JointCapViolation(policy, caps, 0)
  }

  method PolicyValidate(policy: Policy, caps: HardCaps, now: u32) returns (r: ContractResult)
    ensures r == ValidatePolicy(policy, caps, now)
  {
    if !ArmMaskValid(policy.armMask) { return InvalidArmMask; }
    if policy.minimumStartSamples == 0 || policy.minimumStartSamples > QUEUE_CAPACITY {
      return InvalidMinimumStartSamples;
    }
    if policy.minimumLeadMs < caps.minimumLeadMs { return MinimumLeadTooSmall; }
    if policy.maximumLeadMs > caps.maximumLeadMs { return MaximumLeadTooLarge; }
    if policy.minimumLeadMs > policy.maximumLeadMs { return LeadWindowInverted; }
    if policy.commandTimeoutMs == 0 || policy.commandTimeoutMs > caps.maximumCommandTimeoutMs {
      return CommandTimeoutTooLarge;
    }
    if policy.horizonEndTick == 0 && policy.commandTimeoutMs > caps.maximumOpenCommandTimeoutMs {
      return OpenTimeoutTooLarge;
    }
    if policy.maximumApplyLatenessMs > caps.maximumApplyLatenessMs { return ApplyLatenessTooLarge; }
    if policy.horizonEndTick != 0 && !After(policy.horizonEndTick, now) { return StaleHorizon; }
    for joint := 0 to JOINTS
      invariant JointCapViolation(policy, caps, 0) == JointCapViolation(policy, caps, joint)
    {
      if policy.trackingErrorLimit[joint] <= 0 || caps.trackingErrorLimit[joint] <= 0 ||
         policy.trackingErrorLimit[joint] > caps.trackingErrorLimit[joint] {
        return TrackingErrorTooLarge;
      }
      if policy.maximumStep[joint] <= 0 || caps.maximumStep[joint] <= 0 ||
         policy.maximumStep[joint] > caps.maximumStep[joint] {
        return MaximumStepTooLarge;
      }
    }
    r := ContractOk;
  }

  // ---- batches --------------------------------------------------------------

  /** A sample takes 52 bytes: its tick offset and twelve positions. */
  function SampleOffset(i: nat): nat {
    20 + 52 * i
  }

  function SampleAt(payload: seq<u8>, i: nat): Setpoint
    requires SampleOffset(i + 1) <= |payload|
  {
    Setpoint(Add(Read32(payload, 0), Read32(payload, SampleOffset(i))), JointsAt(payload, SampleOffset(i) + 4))
  }

  /** The first sample has offset zero, every later one is after its predecessor. */
  predicate SampleInOrder(payload: seq<u8>, i: nat)
    requires SampleOffset(i + 1) <= |payload|
  {
    if i == 0 then Read32(payload, SampleOffset(0)) == 0
    else After(SampleAt(payload, i).applyTick, SampleAt(payload, i - 1).applyTick)
  }

  function DecodeBatch(payload: seq<u8>, kind: BatchKind): Decoded<Batch> {
    if |payload| < BATCH_HEADER_SIZE then Rejected(InvalidLength)
    else if payload[16] == 0 || payload[16] > WIRE_MAX_SAMPLES then Rejected(InvalidSampleCount)
    else if |payload| != SampleOffset(payload[16]) then Rejected(InvalidLength)
    else if !ArmMaskValid(payload[17]) then Rejected(InvalidArmMask)
    else if Read16(payload, 18) != 0 then Rejected(InvalidReserved)
    else if (kind == Append && Read32(payload, 12) != 0) || (kind == Splice && Read32(payload, 12) == 0) then
      Rejected(SpliceFieldMismatch)
    else if !InOrderUpTo(payload, payload[16]) then Rejected(NonMonotonicTick)
    else Accepted(Batch(
      Read32(payload, 0), Read32(payload, 4), Read32(payload, 8), Read32(payload, 12), payload[17],
      SamplesUpTo(payload, payload[16])))
  }

  method BatchDecode(payload: seq<u8>, kind: BatchKind) returns (r: Decoded<Batch>)
    ensures r == DecodeBatch(payload, kind)
  {
    if |payload| < BATCH_HEADER_SIZE { return Rejected(InvalidLength); }
    if payload[16] == 0 || payload[16] > WIRE_MAX_SAMPLES { return Rejected(InvalidSampleCount); }
    if |payload| != 20 + 52 * (payload[16] as int) { return Rejected(InvalidLength); }
    if !ArmMaskValid(payload[17]) { return Rejected(InvalidArmMask); }
    if Read16(payload, 18) != 0 { return Rejected(InvalidReserved); }
    if (kind == Append && Read32(payload, 12) != 0) || (kind == Splice && Read32(payload, 12) == 0) {
      return Rejected(SpliceFieldMismatch);
    }
    var ok, samples := SamplesDecode(payload, payload[16]);
    if !ok { return Rejected(NonMonotonicTick); }
    r := Accepted(Batch(
      Read32(payload, 0), Read32(payload, 4), Read32(payload, 8), Read32(payload, 12), payload[17], samples));
  }

  function SamplesUpTo(payload: seq<u8>, n: nat): (samples: seq<Setpoint>)
    requires SampleOffset(n) <= |payload|
    ensures |samples| == n
  {
    if n == 0 then [] else SamplesUpTo(payload, n - 1) + [SampleAt(payload, n - 1)]
  }

  /** The first n samples are in order. */
  predicate InOrderUpTo(payload: seq<u8>, n: nat)
    requires SampleOffset(n) <= |payload|
  {
    n == 0 || (InOrderUpTo(payload, n - 1) && SampleInOrder(payload, n - 1))
  }

  method SamplesDecode(payload: seq<u8>, n: nat) returns (ok: bool, samples: seq<Setpoint>)
    requires |payload| == SampleOffset(n)
    ensures ok <==> InOrderUpTo(payload, n)
    ensures ok ==> samples == SamplesUpTo(payload, n)
  {
    var first := Read32(payload, 0);
    var previous: u32 := 0;
    samples := [];
    for index := 0 to n
      invariant samples == SamplesUpTo(payload, index) && InOrderUpTo(payload, index)
      invariant index > 0 ==> previous == SampleAt(payload, index - 1).applyTick
    {
      var offset := SampleOffset(index);
      var tickOffset := Read32(payload, offset);
      var applyTick := Add(first, tickOffset);
      if (index > 0 && !After(applyTick, previous)) || (index == 0 && tickOffset != 0) {
        OrderIsPrefixClosed(payload, index + 1, n);
        return false, samples;
      }
      previous := applyTick;
      var position := ReadJoints(payload, offset + 4);
      samples := samples + [Setpoint(applyTick, position)];
    }
    ok := true;
  }

  lemma {:induction false} OrderIsPrefixClosed(payload: seq<u8>, k: nat, n: nat)
    requires k <= n && SampleOffset(n) <= |payload|
    ensures InOrderUpTo(payload, n) ==> InOrderUpTo(payload, k)
    decreases n
  {
    if k < n { OrderIsPrefixClosed(payload, k, n - 1); }
  }

  /** The move from a to b needs at most `step` per joint in each control tick of the gap. */
  predicate StepBounded(a: Joints, b: Joints, step: Joints, ticks: nat) {
    forall j :: 0 <= j < JOINTS ==> Distance(b[j], a[j]) <= (step[j] as int) * ticks
  }

  predicate Continuous(a: Setpoint, b: Setpoint, step: Joints) {
    var delta := Sub(b.applyTick, a.applyTick);
    delta != 0 && delta % CONTROL_TICK_MS == 0 && StepBounded(a.position, b.position, step, delta / CONTROL_TICK_MS)
  }

  predicate BatchContinuous(samples: seq<Setpoint>, step: Joints) {
    forall i :: 0 < i < |samples| ==> Continuous(samples[i - 1], samples[i], step)
  }

  function ValidateTransition(
    batch: Batch, kind: BatchKind, policy: Policy, now: u32, epoch: u32, horizon: u32, lastTick: u32,
    interpolated: Joints): ContractResult
  {
    var n := |batch.samples|;
    if !ArmMaskValid(batch.armMask) || !ArmMaskWithin(batch.armMask, policy.armMask) then InvalidArmMask
    else if n == 0 || n > WIRE_MAX_SAMPLES then InvalidSampleCount
    else
      var final := batch.samples[n - 1].applyTick;
      if kind == Append &&
         (!After(batch.firstApplyTick, now) || Sub(batch.firstApplyTick, now) < policy.minimumLeadMs) then
        FirstSampleTooEarly
      else if Sub(final, now) > policy.maximumLeadMs then LastSampleTooLate
      else if batch.horizonEndTick != 0 && After(final, batch.horizonEndTick) then HorizonBeforeLastSample
      else if (horizon == 0) != (batch.horizonEndTick == 0) then HorizonRegression
      else if horizon != 0 && batch.horizonEndTick != horizon && !After(batch.horizonEndTick, horizon) then
        HorizonRegression
      else if !BatchContinuous(batch.samples, policy.maximumStep) then SampleDiscontinuity
      else if kind == Append then
        if batch.spliceAtTick != 0 then SpliceFieldMismatch
        else if batch.arbiterEpoch != epoch then AppendEpochMismatch
        else if !After(batch.firstApplyTick, lastTick) then NonMonotonicTick
        else ContractOk
      else if batch.spliceAtTick == 0 then SpliceFieldMismatch
      else if !After(batch.spliceAtTick, now) || Sub(batch.spliceAtTick, now) < MINIMUM_SPLICE_LEAD_MS ||
        Sub(batch.spliceAtTick, now) < policy.minimumLeadMs then SpliceTooLate
      else if After(batch.spliceAtTick, lastTick) then SpliceAfterLastSample
      else if batch.samples[0].applyTick != batch.spliceAtTick then SpliceFirstTickMismatch
      else if !StepBounded(interpolated, batch.samples[0].position, policy.maximumStep, 1) then SpliceDiscontinuity
      else ContractOk
  }

  method BatchValidateTransition(
    batch: Batch, kind: BatchKind, policy: Policy, now: u32, epoch: u32, horizon: u32, lastTick: u32,
    interpolated: Joints) returns (r: ContractResult)
    ensures r == ValidateTransition(batch, kind, policy, now, epoch, horizon, lastTick, interpolated)
  {
    var n := |batch.samples|;
    if !ArmMaskValid(batch.armMask) || !ArmMaskWithin(batch.armMask, policy.armMask) { return InvalidArmMask; }
    if n == 0 || n > WIRE_MAX_SAMPLES { return InvalidSampleCount; }
    var final := batch.samples[n - 1].applyTick;
    if kind == Append &&
       (!After(batch.firstApplyTick, now) || Sub(batch.firstApplyTick, now) < policy.minimumLeadMs) {
      return FirstSampleTooEarly;
    }
    if Sub(final, now) > policy.maximumLeadMs { return LastSampleTooLate; }
    if batch.horizonEndTick != 0 && After(final, batch.horizonEndTick) { return HorizonBeforeLastSample; }
    if (horizon == 0) != (batch.horizonEndTick == 0) { return HorizonRegression; }
    if horizon != 0 && batch.horizonEndTick != horizon && !After(batch.horizonEndTick, horizon) {
      return HorizonRegression;
    }
    for sample := 1 to n
      invariant forall i :: 0 < i < sample ==> Continuous(batch.samples[i - 1], batch.samples[i], policy.maximumStep)
    {
      var a, b := batch.samples[sample - 1], batch.samples[sample];
      var delta := Sub(b.applyTick, a.applyTick);
      if delta == 0 || delta % CONTROL_TICK_MS != 0 {
        assert !Continuous(a, b, policy.maximumStep);
        return SampleDiscontinuity;
      }
      var outputTicks := delta / CONTROL_TICK_MS;
      for joint := 0 to JOINTS
        invariant forall j :: 0 <= j < joint ==>
          Distance(b.position[j], a.position[j]) <= (policy.maximumStep[j] as int) * outputTicks
      {
        if Distance(b.position[joint], a.position[joint]) > (policy.maximumStep[joint] as int) * outputTicks {
          assert !Continuous(a, b, policy.maximumStep);
          return SampleDiscontinuity;
        }
      }
      assert Continuous(a, b, policy.maximumStep);
    }
    if kind == Append {
      if batch.spliceAtTick != 0 { return SpliceFieldMismatch; }
      if batch.arbiterEpoch != epoch { return AppendEpochMismatch; }
      if !After(batch.firstApplyTick, lastTick) { return NonMonotonicTick; }
      return ContractOk;
    }
    if batch.spliceAtTick == 0 { return SpliceFieldMismatch; }
    if !After(batch.spliceAtTick, now) || Sub(batch.spliceAtTick, now) < MINIMUM_SPLICE_LEAD_MS ||
       Sub(batch.spliceAtTick, now) < policy.minimumLeadMs {
      return SpliceTooLate;
    }
    if After(batch.spliceAtTick, lastTick) { return SpliceAfterLastSample; }
    if batch.samples[0].applyTick != batch.spliceAtTick { return SpliceFirstTickMismatch; }
    for joint := 0 to JOINTS
      invariant forall j :: 0 <= j < joint ==>
        Distance(batch.samples[0].position[j], interpolated[j]) <= (policy.maximumStep[j] as int) * 1
    {
      if Distance(batch.samples[0].position[joint], interpolated[joint]) > policy.maximumStep[joint] {
        return SpliceDiscontinuity;
      }
    }
    r := ContractOk;
  }

  // ---- what an accepted batch is --------------------------------------------

  lemma {:induction false} OrderedSamples(payload: seq<u8>, n: nat)
    requires SampleOffset(n) <= |payload| && InOrderUpTo(payload, n)
    ensures forall i :: 0 <= i < n ==> SamplesUpTo(payload, n)[i] == SampleAt(payload, i)
    ensures forall i :: 0 < i < n ==>
      After(SamplesUpTo(payload, n)[i].applyTick, SamplesUpTo(payload, n)[i - 1].applyTick)
    ensures n > 0 ==> SampleAt(payload, 0).applyTick == Read32(payload, 0)
  {
    if n > 0 { OrderedSamples(payload, n - 1); }
  }

  /** A decoded batch is non-empty, within the wire limit, starts at its announced
      tick, and its samples are strictly ordered. */
  lemma DecodedBatchIsOrdered(payload: seq<u8>, kind: BatchKind)
    requires DecodeBatch(payload, kind).Accepted?
    ensures var b := DecodeBatch(payload, kind).value;
            && 1 <= |b.samples| <= WIRE_MAX_SAMPLES
            && b.samples[0].applyTick == b.firstApplyTick
            && (forall i :: 0 < i < |b.samples| ==> After(b.samples[i].applyTick, b.samples[i - 1].applyTick))
            && (b.spliceAtTick == 0 <==> kind == Append)
  {
    OrderedSamples(payload, payload[16]);
  }

  /** A policy that passes validation has positive step bounds. */
  lemma {:induction false} CapsPositive(policy: Policy, caps: HardCaps, joint: nat, j: nat)
    requires JointCapViolation(policy, caps, joint) == ContractOk && joint <= j < JOINTS
    ensures 0 < policy.maximumStep[j] <= caps.maximumStep[j]
    ensures 0 < policy.trackingErrorLimit[j] <= caps.trackingErrorLimit[j]
    decreases j - joint
  {
    if joint < j { CapsPositive(policy, caps, joint + 1, j); }
  }
}

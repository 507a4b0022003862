// Trajectory streaming on the wire: what the host encodes the controller decodes, and no two
// payloads mean the same policy or batch; and which policies, batches and offers are accepted.
module StreamWire {
  import opened Words
  import opened Optional
  import opened StreamContract
  import opened StreamSession

  function SignedWords(p: Joints): (ws: seq<u32>)
    ensures |ws| == 12
  {
    seq(12, j requires 0 <= j < 12 => SignedWord(p[j]))
  }

  lemma JointsRead(p: seq<u8>, at: nat, q: Joints)
    requires at + 48 <= |p| && p[at..at + 48] == Packed(SignedWords(q))
    ensures JointsAt(p, at) == q
  {
    hide Read32, Packed, SignedWord, ToI32;
    forall j | 0 <= j < 12 ensures ReadI32(p, at + 4 * j) == q[j] {
      ReadPacked(p, at, SignedWords(q), j);
      SignedRoundTrip(q[j], 0);
    }
  }

  lemma JointsWrite(p: seq<u8>, at: nat)
    requires at + 48 <= |p|
    ensures Packed(SignedWords(JointsAt(p, at))) == p[at..at + 48]
  {
    hide Read32, Packed, SignedWord, ToI32;
    var ws := SignedWords(JointsAt(p, at));
    forall j | 0 <= j < 12 ensures Read32(p, at + 4 * j) == ws[j] {
      SignedRoundTrip(0, Read32(p, at + 4 * j));
    }
    PackedFromReads(p, at, ws);
  }

  // ---- policies -------------------------------------------------------------

  function PolicyWords(p: Policy): (ws: seq<u32>)
    ensures |ws| == 5
  {
    [p.minimumLeadMs, p.horizonEndTick, p.maximumLeadMs, p.commandTimeoutMs, p.maximumApplyLatenessMs]
  }

  /** The bytes the host sends to open a stream. */
  function PolicyBytes(p: Policy): (b: seq<u8>)
    ensures |b| == 120
  {
    Bytes16(p.minimumStartSamples) + [p.armMask, 0] + Packed(PolicyWords(p))
    + Packed(SignedWords(p.trackingErrorLimit)) + Packed(SignedWords(p.maximumStep))
  }

  lemma ReadBytes16(prefix: seq<u8>, v: u16, suffix: seq<u8>)
    ensures Read16(prefix + Bytes16(v) + suffix, |prefix|) == v
  {
    var p, b := prefix + Bytes16(v) + suffix, Bytes16(v);
    assert p[|prefix|] == b[0] && p[|prefix| + 1] == b[1];
  }

  /** Every policy the host sends is decoded as it was meant. */
  lemma PolicyIsDecoded(p: Policy)
    requires ArmMaskValid(p.armMask)
    ensures DecodePolicy(PolicyBytes(p)) == Accepted(p)
  {
    hide Read32, Read16, Packed, JointsAt, Bytes16, SignedWords;
    var b, ws := PolicyBytes(p), PolicyWords(p);
    var rest := [p.armMask, 0] + Packed(ws) + Packed(SignedWords(p.trackingErrorLimit)) + Packed(SignedWords(p.maximumStep));
    assert b == [] + Bytes16(p.minimumStartSamples) + rest;
    ReadBytes16([], p.minimumStartSamples, rest);
    assert b[4..24] == Packed(ws) && b[24..72] == Packed(SignedWords(p.trackingErrorLimit));
    assert b[72..120] == Packed(SignedWords(p.maximumStep));
    ReadPacked(b, 4, ws, 0);
    ReadPacked(b, 4, ws, 1);
    ReadPacked(b, 4, ws, 2);
    ReadPacked(b, 4, ws, 3);
    ReadPacked(b, 4, ws, 4);
    JointsRead(b, 24, p.trackingErrorLimit);
    JointsRead(b, 72, p.maximumStep);
  }

  lemma BytesRead16(p: seq<u8>)
    requires |p| >= 2
    ensures Bytes16(Read16(p, 0)) == p[..2]
  {
  }

  /** Whatever is decoded as a policy is exactly what the host would send for it. */
  lemma PolicyIsCanonical(b: seq<u8>)
    requires DecodePolicy(b).Accepted?
    ensures PolicyBytes(DecodePolicy(b).value) == b && ArmMaskValid(DecodePolicy(b).value.armMask)
  {
    hide Read32, Read16, Packed, JointsAt, Bytes16, SignedWords;
    var p := DecodePolicy(b).value;
    BytesRead16(b);
    var ws := PolicyWords(p);
    forall i | 0 <= i < 5 ensures Read32(b, 4 + 4 * i) == ws[i] {}
    PackedFromReads(b, 4, ws);
    JointsWrite(b, 24);
    JointsWrite(b, 72);
    assert b == b[..2] + [b[2], b[3]] + b[4..24] + b[24..72] + b[72..120];
  }

  /** Which policies are accepted: they tighten the hard caps in every respect, and a horizon
      still lies ahead. */
  lemma AcceptedPoliciesAreExactly(p: Policy, c: HardCaps, now: u32)
    ensures ValidatePolicy(p, c, now) == ContractOk <==>
              && p.armMask in {1, 2, 3} && 1 <= p.minimumStartSamples <= 16
              && c.minimumLeadMs <= p.minimumLeadMs <= p.maximumLeadMs <= c.maximumLeadMs
              && 1 <= p.commandTimeoutMs <= c.maximumCommandTimeoutMs
              && (p.horizonEndTick == 0 ==> p.commandTimeoutMs <= c.maximumOpenCommandTimeoutMs)
              && p.maximumApplyLatenessMs <= c.maximumApplyLatenessMs
              && (p.horizonEndTick != 0 ==> 0 < Sub(p.horizonEndTick, now) < HALF)
              && (forall j :: 0 <= j < 12 ==> 0 < p.trackingErrorLimit[j] <= c.trackingErrorLimit[j])
              && (forall j :: 0 <= j < 12 ==> 0 < p.maximumStep[j] <= c.maximumStep[j])
  {
    hide JointCapViolation;
    CapsAreExactly(p, c, 0);
  }

  lemma {:induction false} CapsAreExactly(p: Policy, c: HardCaps, joint: nat)
    requires joint <= 12
    ensures JointCapViolation(p, c, joint) == ContractOk <==>
              && (forall j :: joint <= j < 12 ==> 0 < p.trackingErrorLimit[j] <= c.trackingErrorLimit[j])
              && (forall j :: joint <= j < 12 ==> 0 < p.maximumStep[j] <= c.maximumStep[j])
    decreases 12 - joint
  {
    if joint < 12 { CapsAreExactly(p, c, joint + 1); }
  }

  // ---- batches --------------------------------------------------------------

  function SampleWords(s: Setpoint, first: u32): (ws: seq<u32>)
    ensures |ws| == 13
  {
    [Sub(s.applyTick, first)] + SignedWords(s.position)
  }

  function SampleBytes(samples: seq<Setpoint>, first: u32): (b: seq<u8>)
    ensures |b| == 52 * |samples|
  {
    if samples == [] then [] else SampleBytes(samples[..|samples| - 1], first) + Packed(SampleWords(samples[|samples| - 1], first))
  }

  function HeaderWords(b: Batch): (ws: seq<u32>)
    ensures |ws| == 4
  {
    [b.firstApplyTick, b.horizonEndTick, b.arbiterEpoch, b.spliceAtTick]
  }

  /** The bytes the host sends for a batch. */
  function BatchBytes(b: Batch): (p: seq<u8>)
    requires |b.samples| < 256
    ensures |p| == SampleOffset(|b.samples|)
  {
    Packed(HeaderWords(b)) + [|b.samples|, b.armMask, 0, 0] + SampleBytes(b.samples, b.firstApplyTick)
  }

  /** Batches a payload can carry: one to nine setpoints, strictly later one by one from the
      announced tick on, and a splice tick exactly in a splice. */
  predicate Sendable(b: Batch, kind: BatchKind) {
    && ArmMaskValid(b.armMask) && 1 <= |b.samples| <= 9 && b.samples[0].applyTick == b.firstApplyTick
    && (b.spliceAtTick == 0 <==> kind == Append)
    && forall i :: 0 < i < |b.samples| ==> After(b.samples[i].applyTick, b.samples[i - 1].applyTick)
  }

  lemma OffsetAddsBack(first: u32, tick: u32)
    ensures Add(first, Sub(tick, first)) == tick
  {
  }

  lemma SampleIsRead(p: seq<u8>, i: nat, s: Setpoint, first: u32)
    requires SampleOffset(i + 1) <= |p| && Read32(p, 0) == first
    requires p[SampleOffset(i)..SampleOffset(i + 1)] == Packed(SampleWords(s, first))
    ensures SampleAt(p, i) == s && Read32(p, SampleOffset(i)) == Sub(s.applyTick, first)
  {
    hide Read32, Packed, SignedWord, ToI32, Sub, Add;
    var at, ws := SampleOffset(i), SampleWords(s, first);
    OffsetAddsBack(first, s.applyTick);
    ReadPacked(p, at, ws, 0);
    forall j | 0 <= j < 12 ensures ReadI32(p, at + 4 + 4 * j) == s.position[j] {
      ReadPacked(p, at, ws, j + 1);
      SignedRoundTrip(s.position[j], 0);
    }
  }

  lemma {:induction false} SamplesAreSliced(samples: seq<Setpoint>, first: u32, i: nat)
    requires i < |samples|
    ensures SampleBytes(samples, first)[52 * i..52 * i + 52] == Packed(SampleWords(samples[i], first))
    decreases |samples|
  {
    hide Packed, SampleWords;
    var n := |samples| - 1;
    if i < n {
      SamplesAreSliced(samples[..n], first, i);
      var rest := SampleBytes(samples[..n], first);
      assert SampleBytes(samples, first)[52 * i..52 * i + 52] == rest[52 * i..52 * i + 52];
    }
  }

  lemma {:induction false} SamplesAreDecoded(p: seq<u8>, samples: seq<Setpoint>, n: nat)
    requires n <= |samples| && SampleOffset(n) <= |p|
    requires forall i :: 0 <= i < n ==> SampleAt(p, i) == samples[i] && Read32(p, SampleOffset(i)) == Sub(samples[i].applyTick, Read32(p, 0))
    requires n > 0 ==> samples[0].applyTick == Read32(p, 0)
    requires forall i :: 0 < i < n ==> After(samples[i].applyTick, samples[i - 1].applyTick)
    ensures SamplesUpTo(p, n) == samples[..n] && InOrderUpTo(p, n)
    decreases n
  {
    hide SampleAt, After;
    if n > 0 {
      SamplesAreDecoded(p, samples, n - 1);
      assert samples[..n] == samples[..n - 1] + [samples[n - 1]];
    }
  }

  /** Every batch the host sends is decoded as it was meant. */
  lemma BatchIsDecoded(b: Batch, kind: BatchKind)
    requires Sendable(b, kind)
    ensures DecodeBatch(BatchBytes(b), kind) == Accepted(b)
  {
    hide Read32, Packed, SampleAt, SampleBytes, SampleWords;
    var p, ws, n := BatchBytes(b), HeaderWords(b), |b.samples|;
    assert p[0..16] == Packed(ws);
    ReadPacked(p, 0, ws, 0);
    ReadPacked(p, 0, ws, 1);
    ReadPacked(p, 0, ws, 2);
    ReadPacked(p, 0, ws, 3);
    var body := SampleBytes(b.samples, b.firstApplyTick);
    forall i | 0 <= i < n
      ensures SampleAt(p, i) == b.samples[i] && Read32(p, SampleOffset(i)) == Sub(b.samples[i].applyTick, b.firstApplyTick)
    {
      SamplesAreSliced(b.samples, b.firstApplyTick, i);
      assert p[20..] == body;
      SliceOfSlice(p, 20, |p|, 52 * i, 52 * i + 52);
      SampleIsRead(p, i, b.samples[i], b.firstApplyTick);
    }
    SamplesAreDecoded(p, b.samples, n);
    assert b.samples[..n] == b.samples;
    assert Read16(p, 18) == 0;
  }

  lemma SampleIsWritten(p: seq<u8>, i: nat)
    requires SampleOffset(i + 1) <= |p|
    ensures Packed(SampleWords(SampleAt(p, i), Read32(p, 0))) == p[SampleOffset(i)..SampleOffset(i + 1)]
  {
    hide Read32, Packed, SignedWord, ToI32, Sub, Add;
    var at, first := SampleOffset(i), Read32(p, 0);
    var ws := SampleWords(SampleAt(p, i), first);
    OffsetSubtractsBack(first, Read32(p, at));
    forall k | 0 <= k < 13 ensures Read32(p, at + 4 * k) == ws[k] {
      if k > 0 {
        SignedRoundTrip(0, Read32(p, at + 4 * k));
        assert ws[k] == SignedWord(ReadI32(p, at + 4 + 4 * (k - 1)));
      }
    }
    PackedFromReads(p, at, ws);
  }

  lemma OffsetSubtractsBack(first: u32, offset: u32)
    ensures Sub(Add(first, offset), first) == offset
  {
  }

  lemma {:induction false} SamplesAreWritten(p: seq<u8>, n: nat)
    requires SampleOffset(n) <= |p|
    ensures SampleBytes(SamplesUpTo(p, n), Read32(p, 0)) == p[20..SampleOffset(n)]
    decreases n
  {
    hide Read32, Packed, SampleAt, SampleWords;
    if n > 0 {
      SamplesAreWritten(p, n - 1);
      SampleIsWritten(p, n - 1);
      var all := SamplesUpTo(p, n);
      assert all[..n - 1] == SamplesUpTo(p, n - 1);
      assert p[20..SampleOffset(n)] == p[20..SampleOffset(n - 1)] + p[SampleOffset(n - 1)..SampleOffset(n)];
    }
  }

  /** Whatever is decoded as a batch is one the host can send, and exactly its bytes: no two
      payloads mean the same batch. */
  lemma BatchIsCanonical(p: seq<u8>, kind: BatchKind)
    requires DecodeBatch(p, kind).Accepted?
    ensures Sendable(DecodeBatch(p, kind).value, kind) && BatchBytes(DecodeBatch(p, kind).value) == p
  {
    hide Read32, Packed, SampleBytes, SamplesUpTo, InOrderUpTo;
    var b, n := DecodeBatch(p, kind).value, p[16];
    DecodedBatchIsOrdered(p, kind);
    var ws := HeaderWords(b);
    forall i | 0 <= i < 4 ensures Read32(p, 0 + 4 * i) == ws[i] {}
    PackedFromReads(p, 0, ws);
    SamplesAreWritten(p, n);
    assert p[18] == 0 && p[19] == 0;
    assert p == p[0..16] + [p[16], p[17], p[18], p[19]] + p[20..SampleOffset(n)];
  }

  // ---- which batches are accepted -------------------------------------------

  /** Far enough ahead, near enough, and not past its own horizon. */
  predicate InLead(b: Batch, kind: BatchKind, p: Policy, now: u32)
    requires b.samples != []
  {
    var last := b.samples[|b.samples| - 1].applyTick;
    && (kind == Append ==> p.minimumLeadMs <= Sub(b.firstApplyTick, now) < HALF && b.firstApplyTick != now)
    && Sub(last, now) <= p.maximumLeadMs
    && (b.horizonEndTick != 0 ==> !(0 < Sub(last, b.horizonEndTick) < HALF))
  }

  /** A horizon stays one, open-ended stays open-ended, and a horizon only moves later. */
  predicate HorizonKept(b: Batch, horizon: u32) {
    && (horizon == 0 <==> b.horizonEndTick == 0)
    && (horizon != 0 ==> b.horizonEndTick == horizon || 0 < Sub(b.horizonEndTick, horizon) < HALF)
  }

  /** Neighbours a whole number of control ticks apart, within the step bound for them. */
  predicate Smooth(samples: seq<Setpoint>, step: Joints) {
    forall i :: 0 < i < |samples| ==> Reachable(samples[i - 1], samples[i], step)
  }

  predicate Reachable(a: Setpoint, b: Setpoint, step: Joints) {
    var delta := Sub(b.applyTick, a.applyTick);
    && delta > 0 && delta % 5 == 0
    && forall j :: 0 <= j < 12 ==> Abs(b.position[j] as int - a.position[j]) <= step[j] * (delta / 5)
  }

  predicate OneStep(a: Joints, b: Joints, step: Joints) {
    forall j :: 0 <= j < 12 ==> Abs(b[j] as int - a[j]) <= step[j]
  }

  lemma SmoothIsContinuous(samples: seq<Setpoint>, step: Joints)
    ensures Smooth(samples, step) <==> BatchContinuous(samples, step)
  {
    hide Sub, Abs;
    forall i | 0 < i < |samples| ensures Reachable(samples[i - 1], samples[i], step) <==> Continuous(samples[i - 1], samples[i], step) {
      ReachableIsContinuous(samples[i - 1], samples[i], step);
    }
  }

  lemma ReachableIsContinuous(a: Setpoint, b: Setpoint, step: Joints)
    ensures Reachable(a, b, step) <==> Continuous(a, b, step)
  {
  }

  /** Which batches may follow: arms within the policy's, a count in range, the leads, the
      horizon and the smoothness above; an append in the stream's epoch, after the queue's
      last setpoint; a splice late enough, not after that last one, starting on its own tick
      within one step of the path it joins. */
  lemma AcceptedBatchesAreExactly(
    b: Batch, kind: BatchKind, p: Policy, now: u32, epoch: u32, horizon: u32, lastTick: u32, at: Joints)
    ensures ValidateTransition(b, kind, p, now, epoch, horizon, lastTick, at) == ContractOk <==>
              && ArmMaskValid(b.armMask) && ArmMaskWithin(b.armMask, p.armMask) && 1 <= |b.samples| <= 9
              && InLead(b, kind, p, now) && HorizonKept(b, horizon) && Smooth(b.samples, p.maximumStep)
              && (kind == Append ==> b.spliceAtTick == 0 && b.arbiterEpoch == epoch && 0 < Sub(b.firstApplyTick, lastTick) < HALF)
              && (kind == Splice ==>
                    && b.spliceAtTick != 0 && 20 <= Sub(b.spliceAtTick, now) < HALF && p.minimumLeadMs <= Sub(b.spliceAtTick, now)
                    && !(0 < Sub(b.spliceAtTick, lastTick) < HALF)
                    && b.samples[0].applyTick == b.spliceAtTick && OneStep(at, b.samples[0].position, p.maximumStep))
  {
    hide Smooth, BatchContinuous, ArmMaskWithin, Abs;
    SmoothIsContinuous(b.samples, p.maximumStep);
    if b.samples != [] { OneStepIsBounded(at, b.samples[0].position, p.maximumStep); }
  }

  lemma OneStepIsBounded(a: Joints, b: Joints, step: Joints)
    ensures OneStep(a, b, step) <==> StepBounded(a, b, step, 1)
  {
    forall j | 0 <= j < 12 ensures Abs(b[j] as int - a[j]) <= step[j] <==> Distance(b[j], a[j]) <= (step[j] as int) * 1 {}
  }

  /** The mask test is the bitwise one. */
  lemma MasksAreBits(a: u8, b: u8)
    requires a < 4 && b < 4
    ensures ArmMaskWithin(a, b) <==> ((a as bv8) & (b as bv8)) == (a as bv8)
  {
    assert a == 0 || a == 1 || a == 2 || a == 3;
    assert b == 0 || b == 1 || b == 2 || b == 3;
  }

  /** An offer, in every case. It is accepted exactly by an open session, for a payload that
      decodes, at a place the queue covers, following as above, with room for its setpoints;
      the first of these it fails is the status, and the report is of the session after it. */
  lemma OffersAreExact(s: SessionState, payload: seq<u8>, kind: BatchKind, now: u32)
    ensures var (n, r) := OfferBatch(s, payload, kind, now);
            var d := DecodeBatch(payload, kind);
            && r.armMask == (if n.open then n.policy.armMask else 0) && r.arbiterEpoch == n.arbiterEpoch
            && r.horizonEndTick == n.horizonEndTick && r.count == |n.queue|
            && r.tailTick == (if n.queue == [] then 0 else n.queue[|n.queue| - 1].applyTick)
            && (!s.open ==> n == s && r.status == StatusNotOpen && r.contract == ContractOk)
            && (s.open && d.Rejected? ==> n == s && r.status == StatusContractRejected && r.contract == d.reason)
            && (s.open && d.Accepted? ==>
                  var join := if kind == Splice then PositionAt(s.queue, 0, d.value.spliceAtTick) else Some(ZERO_JOINTS);
                  var epoch := if s.epochEstablished then s.arbiterEpoch else d.value.arbiterEpoch;
                  var last := if s.queue == [] then now else s.queue[|s.queue| - 1].applyTick;
                  if join.None? then n == s && r.status == StatusSplicePositionUnavailable && r.contract == ContractOk
                  else
                    var verdict := ValidateTransition(d.value, kind, s.policy, now, epoch, s.horizonEndTick, last, join.value);
                    var kept := if kind == Splice then CountBefore(s.queue, 0, d.value.spliceAtTick) else |s.queue|;
                    if verdict != ContractOk then n == s && r.status == StatusContractRejected && r.contract == verdict
                    else if kept + |d.value.samples| > 16 then n == s && r.status == StatusQueueOverflow && r.contract == ContractOk
                    else
                      && AcceptedBy(r)
                      && n == s.(epochEstablished := true, arbiterEpoch := d.value.arbiterEpoch,
                                 horizonEndTick := d.value.horizonEndTick, queue := s.queue[..kept] + d.value.samples))
  {
    hide DecodeBatch, ValidateTransition, PositionAt, CountBefore;
  }

  /** Opening is accepted exactly for a payload whose policy decodes and is accepted, and
      starts over. */
  lemma OpeningsAreExact(s: SessionState, payload: seq<u8>, caps: HardCaps, now: u32)
    ensures var (n, r) := OpenSession(s, payload, caps, now);
            var d := DecodePolicy(payload);
            && (r.contract == ContractOk <==> d.Accepted? && ValidatePolicy(d.value, caps, now) == ContractOk)
            && (r.contract == ContractOk ==> n == SessionState(true, false, d.value, 0, d.value.horizonEndTick, []))
            && (r.contract != ContractOk ==> n == s)
  {
    hide DecodePolicy, ValidatePolicy;
    DecodeNamesReason(payload);
  }

  lemma DecodeNamesReason(payload: seq<u8>)
    ensures DecodePolicy(payload).Rejected? ==> DecodePolicy(payload).reason != ContractOk
  {
  }

  // ---- refusals -------------------------------------------------------------

  /** A refused policy is told a rule it breaks. */
  lemma PolicyRefusalsAreTrue(payload: seq<u8>, p: Policy, c: HardCaps, now: u32)
    ensures var d := DecodePolicy(payload);
            d.Rejected? ==>
              || (d.reason == InvalidLength && |payload| != 120)
              || (d.reason == InvalidArmMask && |payload| == 120 && payload[2] !in {1, 2, 3})
              || (d.reason == InvalidReserved && |payload| == 120 && payload[3] != 0)
    ensures match ValidatePolicy(p, c, now)
            case ContractOk => true
            case InvalidArmMask => p.armMask !in {1, 2, 3}
            case InvalidMinimumStartSamples => !(1 <= p.minimumStartSamples <= 16)
            case MinimumLeadTooSmall => p.minimumLeadMs < c.minimumLeadMs
            case MaximumLeadTooLarge => p.maximumLeadMs > c.maximumLeadMs
            case LeadWindowInverted => p.minimumLeadMs > p.maximumLeadMs
            case CommandTimeoutTooLarge => !(1 <= p.commandTimeoutMs <= c.maximumCommandTimeoutMs)
            case OpenTimeoutTooLarge => p.horizonEndTick == 0 && p.commandTimeoutMs > c.maximumOpenCommandTimeoutMs
            case ApplyLatenessTooLarge => p.maximumApplyLatenessMs > c.maximumApplyLatenessMs
            case StaleHorizon => p.horizonEndTick != 0 && !(0 < Sub(p.horizonEndTick, now) < HALF)
            case TrackingErrorTooLarge =>
              exists j :: 0 <= j < 12 && !(0 < p.trackingErrorLimit[j] <= c.trackingErrorLimit[j])
            case MaximumStepTooLarge => exists j :: 0 <= j < 12 && !(0 < p.maximumStep[j] <= c.maximumStep[j])
            case _ => false
  {
    CapRefusalIsTrue(p, c, 0);
    hide JointCapViolation;
  }

  lemma {:induction false} CapRefusalIsTrue(p: Policy, c: HardCaps, joint: nat)
    ensures match JointCapViolation(p, c, joint)
            case ContractOk => true
            case TrackingErrorTooLarge =>
              exists j :: 0 <= j < 12 && !(0 < p.trackingErrorLimit[j] <= c.trackingErrorLimit[j])
            case MaximumStepTooLarge => exists j :: 0 <= j < 12 && !(0 < p.maximumStep[j] <= c.maximumStep[j])
            case _ => false
    decreases JOINTS - joint
  {
    if joint < JOINTS { CapRefusalIsTrue(p, c, joint + 1); }
  }

  /** So is a batch that does not decode. */
  lemma DecodeRefusalsAreTrue(payload: seq<u8>, kind: BatchKind)
    requires DecodeBatch(payload, kind).Rejected?
    ensures DecodeBatch(payload, kind).reason == InvalidLength || |payload| >= 20
    ensures var n: nat := if |payload| < 20 then 0 else payload[16];
            match DecodeBatch(payload, kind).reason
            case InvalidLength => |payload| < 20 || |payload| != 20 + 52 * n
            case InvalidSampleCount => !(1 <= n <= 9)
            case InvalidArmMask => payload[17] !in {1, 2, 3}
            case InvalidReserved => payload[18] != 0 || payload[19] != 0
            case SpliceFieldMismatch => kind == Append <==> Read32(payload, 12) != 0
            case NonMonotonicTick => |payload| == 20 + 52 * n && exists i :: 0 <= i < n && !SampleInOrder(payload, i)
            case _ => false
  {
    if |payload| >= 20 && |payload| == SampleOffset(payload[16]) { OrderOfAll(payload, payload[16]); }
  }

  lemma {:induction false} OrderOfAll(payload: seq<u8>, n: nat)
    requires SampleOffset(n) <= |payload|
    ensures InOrderUpTo(payload, n) <==> forall i :: 0 <= i < n ==> SampleInOrder(payload, i)
  {
    if n > 0 { OrderOfAll(payload, n - 1); }
  }

  /** So is one that does not follow. */
  lemma TransitionRefusalsAreTrue(
    b: Batch, kind: BatchKind, p: Policy, now: u32, epoch: u32, horizon: u32, lastTick: u32, at: Joints)
    ensures match ValidateTransition(b, kind, p, now, epoch, horizon, lastTick, at)
            case ContractOk => true
            case InvalidArmMask => !(ArmMaskValid(b.armMask) && ArmMaskWithin(b.armMask, p.armMask))
            case InvalidSampleCount => !(1 <= |b.samples| <= 9)
            case FirstSampleTooEarly => kind == Append && !(p.minimumLeadMs <= Sub(b.firstApplyTick, now) < HALF && b.firstApplyTick != now)
            case LastSampleTooLate => b.samples != [] && Sub(b.samples[|b.samples| - 1].applyTick, now) > p.maximumLeadMs
            case HorizonBeforeLastSample =>
              b.samples != [] && b.horizonEndTick != 0 && 0 < Sub(b.samples[|b.samples| - 1].applyTick, b.horizonEndTick) < HALF
            case HorizonRegression => !HorizonKept(b, horizon)
            case SampleDiscontinuity => !Smooth(b.samples, p.maximumStep)
            case AppendEpochMismatch => kind == Append && b.arbiterEpoch != epoch
            case NonMonotonicTick => kind == Append && !(0 < Sub(b.firstApplyTick, lastTick) < HALF)
            case SpliceFieldMismatch => kind == Append <==> b.spliceAtTick != 0
            case SpliceTooLate =>
              kind == Splice && !(20 <= Sub(b.spliceAtTick, now) < HALF && p.minimumLeadMs <= Sub(b.spliceAtTick, now))
            case SpliceAfterLastSample => kind == Splice && 0 < Sub(b.spliceAtTick, lastTick) < HALF
            case SpliceFirstTickMismatch => kind == Splice && b.samples != [] && b.samples[0].applyTick != b.spliceAtTick
            case SpliceDiscontinuity => kind == Splice && b.samples != [] && !OneStep(at, b.samples[0].position, p.maximumStep)
            case _ => false
  {
    AcceptedBatchesAreExactly(b, kind, p, now, epoch, horizon, lastTick, at);
  }
}

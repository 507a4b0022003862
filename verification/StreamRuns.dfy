// Trajectory streaming, whole runs: open, prime by appending, start, then any
// interleaving of control steps and offered batches, appended or spliced.
module StreamRuns {
  import opened Words
  import opened Optional
  import opened Lerp
  import opened StreamContract
  import opened StreamSession
  import opened StreamExecutor
  import opened StreamTiming

  /** One control step at the next control tick, or one batch offered at some time. */
  datatype Event = Tick | Offer(kind: BatchKind, payload: seq<u8>, now: u32)

  function After1(e: Executor, event: Event): Executor {
    match event
    case Tick => StepNext(e).exec
    case Offer(kind, payload, now) => AdmitBatch(e, payload, kind, now).0
  }

  /** The poses a run emits, leaving out the pose repeated by the command-timeout stop. */
  function Outputs(e: Executor, events: seq<Event>): seq<Joints>
    decreases |events|
  {
    if events == [] then []
    else
      var e1 := After1(e, events[0]);
      var later := Outputs(e1, events[1..]);
      if events[0].Tick? && StepNext(e).output.Some? && e1.diag.state != Hold then [StepNext(e).output.value] + later
      else later
  }

  predicate Accepts(e: Executor, event: Event) {
    && event.Offer? && AdmitBatch(e, event.payload, event.kind, event.now).1 == ExecutorOk
    && DecodeBatch(event.payload, event.kind).Accepted?
  }

  /** Every setpoint of the batch is within half a word of the run's start. When the batch
      is a splice, or the queue is empty, the offer is made no earlier than the last control
      step, and a splice falls due on a later control tick than the setpoints it keeps. */
  ghost predicate OfferedInTime(e: Executor, event: Event)
    requires event.Offer? && DecodeBatch(event.payload, event.kind).Accepted?
  {
    var batch := DecodeBatch(event.payload, event.kind).value;
    && InSpan(e.controlEpochTick, batch.samples)
    && (event.kind == Splice || e.session.queue == [] ==>
          Sub(e.lastStepTick, e.controlEpochTick) <= Sub(event.now, e.controlEpochTick) < HALF)
    && (event.kind == Splice ==> JoinOrdered(e.controlEpochTick, Kept(e, batch, Splice), batch.samples))
  }

  /** The run stays within half a word of its start, and accepted batches are offered in time. */
  ghost predicate WellTimed(e: Executor, events: seq<Event>)
    decreases |events|
  {
    events == [] ||
    (&& (events[0].Tick? && e.diag.state == Running ==> Sub(e.lastStepTick, e.controlEpochTick) + 5 < HALF)
     && (Accepts(e, events[0]) ==> OfferedInTime(e, events[0]))
     && WellTimed(After1(e, events[0]), events[1..]))
  }

  /** The control tick an executor is on when it is stepped once per control tick. */
  function StepIndex(e: Executor): nat {
    Sub(e.lastStepTick, e.controlEpochTick) / 5
  }

  /** The accepted batch, which made `e` into `r`, can be followed from the last pose. Behind
      the queue an append always can. On an empty queue its head must be near enough. A
      splice must fit the last setpoint it keeps; if it keeps none, the next pose towards it
      must be within the step bound, and its head within reach from there. */
  predicate SmoothOffer(e: Executor, r: Executor, event: Event)
    requires event.Offer? && DecodeBatch(event.payload, event.kind).Accepted?
  {
    var batch := DecodeBatch(event.payload, event.kind).value;
    var kept := Kept(e, batch, event.kind);
    if kept != [] then
      event.kind == Splice ==> JoinFits(e.controlEpochTick, kept, batch.samples, e.session.policy.maximumStep)
    else if event.kind == Append then r.session.queue != [] && SafeToResume(r, StepIndex(e))
    else CanReach(r, StepIndex(e))
  }

  ghost predicate Smooth(e: Executor, events: seq<Event>)
    decreases |events|
  {
    events == [] ||
    (&& (Accepts(e, events[0]) ==> SmoothOffer(e, After1(e, events[0]), events[0]))
     && Smooth(After1(e, events[0]), events[1..]))
  }

  /** The pose before the i-th: the one the run was at before, for the first. */
  function Preceding(start: Joints, outputs: seq<Joints>, i: nat): Joints
    requires i <= |outputs|
  {
    if i == 0 then start else outputs[i - 1]
  }

  /** Each pose is within one step bound of the pose before it. */
  predicate RateBounded(start: Joints, outputs: seq<Joints>, step: Joints) {
    forall i :: 0 <= i < |outputs| ==> WithinStep(Preceding(start, outputs, i), outputs[i], step)
  }

  lemma RateBoundedPrepend(start: Joints, first: Joints, later: seq<Joints>, step: Joints)
    requires WithinStep(start, first, step) && RateBounded(first, later, step)
    ensures RateBounded(start, [first] + later, step)
  {
    hide WithinStep;
    var all := [first] + later;
    forall i | 0 <= i < |all|
      ensures WithinStep(Preceding(start, all, i), all[i], step)
    {
      if i > 0 { assert all[i] == later[i - 1] && Preceding(start, all, i) == Preceding(first, later, i - 1); }
    }
  }

  /** A rejected batch changes nothing but the recorded verdict. */
  lemma RejectedOfferLeavesRun(e: Executor, payload: seq<u8>, kind: BatchKind, now: u32)
    requires AdmitBatch(e, payload, kind, now).1 != ExecutorOk
    ensures var r := AdmitBatch(e, payload, kind, now).0;
            r == e.(diag := e.diag.(lastStatus := r.diag.lastStatus, lastContract := r.diag.lastContract))
  {
    if (e.diag.state == Priming || e.diag.state == Running) && DecodeBatch(payload, kind).Accepted? {
      RejectedLeavesSession(e.session, payload, kind, now);
    }
  }

  /** A stopped executor emits nothing more. */
  lemma {:induction false} StoppedIsSilent(e: Executor, events: seq<Event>)
    requires e.diag.state != Running && e.diag.state != Priming
    ensures Outputs(e, events) == []
    decreases |events|
  {
    if events != [] { StoppedIsSilent(After1(e, events[0]), events[1..]); }
  }

  lemma AheadOf(epoch: u32, tick: u32, now: u32, k: nat)
    requires After(tick, now) && Sub(tick, epoch) < HALF && 5 * k <= Sub(now, epoch) < HALF
    ensures k < Due(epoch, tick)
  {
  }

  /** An accepted batch keeps the timeline: what it keeps stays in front, and what it adds is
      still ahead and falls due in order. */
  lemma OfferKeepsTimed(e: Executor, k: nat, event: Event)
    requires Timed(e, k) && Accepts(e, event) && OfferedInTime(e, event)
    ensures var r := After1(e, event);
            var batch := DecodeBatch(event.payload, event.kind).value;
            && Timed(r, k) && r.session.queue == Kept(e, batch, event.kind) + batch.samples && r.session.queue != []
            && r == e.(session := r.session, diag := r.diag) && r.session.policy == e.session.policy
            && Spaced(e.controlEpochTick, batch.samples, e.session.policy.maximumStep)
            && (event.kind == Append ==>
                  JoinFits(e.controlEpochTick, e.session.queue, batch.samples, e.session.policy.maximumStep))
  {
    hide AdmitBatch, DecodeBatch, Chained, Continuous, Due, CountBefore;
    AcceptedShape(e, event.payload, event.kind, event.now);
    var batch := DecodeBatch(event.payload, event.kind).value;
    var r, kept, step, epoch := After1(e, event), Kept(e, batch, event.kind), e.session.policy.maximumStep, e.controlEpochTick;
    ChainedIsSpaced(epoch, batch.samples, step);
    KeptIsPrefix(e, batch, event.kind);
    StretchKeeps(epoch, e.session.queue, 0, |kept|, step);
    if event.kind == Append && kept != [] { NeighboursFit(epoch, Tail(kept), batch.samples[0], step); }
    ConcatOrdered(epoch, kept, batch.samples);
    forall i | 0 <= i < |r.session.queue| ensures Sub(r.session.queue[i].applyTick, epoch) < HALF {
      if i >= |kept| { assert r.session.queue[i] == batch.samples[i - |kept|]; }
    }
    if kept == [] { AheadOf(epoch, batch.samples[0].applyTick, event.now, k); }
  }

  lemma KeptIsPrefix(e: Executor, batch: Batch, kind: BatchKind)
    ensures var kept := Kept(e, batch, kind);
            |kept| <= |e.session.queue| && kept == e.session.queue[0..|kept|] && (kind == Append ==> kept == e.session.queue)
  {
  }

  lemma TimedIsOnTick(e: Executor, k: nat)
    requires Timed(e, k)
    ensures StepIndex(e) == k && e.diag.state == Running
  {
  }

  /** An accepted batch leaves a paced run on pace exactly when it is smooth. */
  lemma SmoothMeansPaced(e: Executor, k: nat, event: Event)
    requires Paced(e, k) && Accepts(e, event) && OfferedInTime(e, event)
    ensures SmoothOffer(e, After1(e, event), event) <==> Paced(After1(e, event), k)
    ensures Previous(After1(e, event)) == Previous(e)
  {
    hide After1, DecodeBatch, Timed, SafeToResume, CanReach, Spaced, Kept, Fits;
    OfferKeepsTimed(e, k, event);
    TimedIsOnTick(e, k);
    var r, batch := After1(e, event), DecodeBatch(event.payload, event.kind).value;
    var kept, step := Kept(e, batch, event.kind), e.session.policy.maximumStep;
    KeptIsPrefix(e, batch, event.kind);
    StretchKeeps(e.controlEpochTick, e.session.queue, 0, |kept|, step);
    ConcatSpaced(e.controlEpochTick, kept, batch.samples, step);
    if kept != [] {
      SameReach(e, r, k);
    } else if event.kind == Append {
      SafeMeansReach(r, k);
    }
  }

  /** What can be reached depends on the head of the queue alone. */
  lemma SameReach(e: Executor, r: Executor, k: nat)
    requires e.session.queue != [] && r.session.queue != [] && r.session.queue[0] == e.session.queue[0]
    requires r == e.(session := r.session, diag := r.diag) && r.session.policy == e.session.policy
    ensures CanReach(r, k) == CanReach(e, k)
  {
    hide SegmentAt, StepBounded, WithinStep;
  }

  lemma InSpanTick(e: Executor, k: nat)
    requires Timed(e, k) && Sub(e.lastStepTick, e.controlEpochTick) + 5 < HALF
    ensures 5 * (k + 1) < HALF
  {
  }

  /** A refused offer changes neither the timeline nor the pace. */
  lemma RefusedKeepsPace(e: Executor, k: nat, event: Event)
    requires event.Offer? && !Accepts(e, event) && Timed(e, k)
    ensures var r := After1(e, event);
            && Timed(r, k) && (Paced(e, k) ==> Paced(r, k)) && Previous(r) == Previous(e)
            && r == e.(diag := r.diag) && r.diag == e.diag.(lastStatus := r.diag.lastStatus, lastContract := r.diag.lastContract)
  {
    hide AdmitBatch, DecodeBatch, SegmentAt, Spaced, DueOrdered;
    if AdmitBatch(e, event.payload, event.kind, event.now).1 == ExecutorOk {
      AcceptedShape(e, event.payload, event.kind, event.now);
    }
    RejectedOfferLeavesRun(e, event.payload, event.kind, event.now);
  }

  /** From a state on pace, two consecutive poses never differ by more than the step bound. */
  lemma {:induction false} PacedRunIsRateBounded(e: Executor, k: nat, events: seq<Event>)
    requires Paced(e, k) && WellTimed(e, events) && Smooth(e, events)
    ensures RateBounded(Previous(e), Outputs(e, events), e.session.policy.maximumStep)
    decreases |events|
  {
    hide StepExecutor, AdmitBatch, Timed, CanReach, Spaced, DecodeBatch, OfferedInTime, SmoothOffer;
    if events != [] {
      var e1 := After1(e, events[0]);
      TimedIsOnTick(e, k);
      if events[0].Tick? {
        InSpanTick(e, k);
        StepKeepsPace(e, k);
        TimedStep(e, k);
        if StepNext(e).result == OutputReady {
          TimedIsOnTick(e1, k + 1);
          PacedRunIsRateBounded(e1, k + 1, events[1..]);
          RateBoundedPrepend(Previous(e), Previous(e1), Outputs(e1, events[1..]), e.session.policy.maximumStep);
        } else {
          StoppedIsSilent(e1, events[1..]);
          if StepNext(e).output.Some? && e1.diag.state != Hold {
            RateBoundedPrepend(Previous(e), StepNext(e).output.value, [], e.session.policy.maximumStep);
          }
        }
      } else {
        if Accepts(e, events[0]) {
          SmoothMeansPaced(e, k, events[0]);
          OfferKeepsTimed(e, k, events[0]);
        } else {
          RefusedKeepsPace(e, k, events[0]);
        }
        PacedRunIsRateBounded(e1, k, events[1..]);
      }
    }
  }

  // ---- from open to start ---------------------------------------------------

  datatype Prime = Prime(payload: seq<u8>, now: u32)

  /** The executor after offering the priming batches in order. */
  function Primed(e: Executor, primes: seq<Prime>): Executor
    decreases |primes|
  {
    if primes == [] then e
    else Primed(AdmitBatch(e, primes[0].payload, Append, primes[0].now).0, primes[1..])
  }

  /** What opening and appending establish before start. */
  predicate ReadyToStart(e: Executor) {
    && e.diag.state == Priming && e.session.open && !e.outputValid
    && e.diag.applied == 0 && e.diag.maximumLateness == 0 && e.diag.reason == NoReason
    && (forall j :: 0 <= j < JOINTS ==> e.session.policy.maximumStep[j] > 0)
    && Chained(e.session.queue, e.session.policy.maximumStep)
    && e.diag.accepted == Wrap(|e.session.queue|)
  }

  lemma OpenIsReady(e: Executor, payload: seq<u8>, now: u32)
    requires OpenExecutor(e, payload, now).1 == ExecutorOk
    ensures ReadyToStart(OpenExecutor(e, payload, now).0)
    ensures OpenExecutor(e, payload, now).0.session.queue == []
  {
    var policy := DecodePolicy(payload).value;
    forall j | 0 <= j < JOINTS ensures policy.maximumStep[j] > 0 {
      CapsPositive(policy, e.caps, 0, j);
    }
  }

  lemma PrimeKeepsReady(e: Executor, payload: seq<u8>, now: u32)
    requires ReadyToStart(e)
    ensures ReadyToStart(AdmitBatch(e, payload, Append, now).0)
  {
    hide AdmitBatch, Chained, DecodeBatch, Continuous, After, Kept;
    if AdmitBatch(e, payload, Append, now).1 == ExecutorOk {
      AcceptedShape(e, payload, Append, now);
      AppendKeepsChain(e, payload, now);
      assert Wrap(e.diag.accepted + |DecodeBatch(payload, Append).value.samples|)
          == Wrap(|AdmitBatch(e, payload, Append, now).0.session.queue|);
    } else {
      RejectedOfferLeavesRun(e, payload, Append, now);
    }
  }

  lemma {:induction false} PrimingKeepsReady(e: Executor, primes: seq<Prime>)
    requires ReadyToStart(e)
    ensures ReadyToStart(Primed(e, primes))
    decreases |primes|
  {
    if primes != [] {
      PrimeKeepsReady(e, primes[0].payload, primes[0].now);
      PrimingKeepsReady(AdmitBatch(e, primes[0].payload, Append, primes[0].now).0, primes[1..]);
    }
  }

  /** The executor of an append-only run at the moment of its start. */
  function Launched(e: Executor, open: seq<u8>, openedAt: u32, primes: seq<Prime>, startAt: u32, pose: Joints):
    (Executor, ExecutorResult)
  {
    StartExecutor(Primed(OpenExecutor(e, open, openedAt).0, primes), startAt, pose)
  }

  lemma LaunchIsPaced(e: Executor, open: seq<u8>, openedAt: u32, primes: seq<Prime>, startAt: u32, pose: Joints)
    requires OpenExecutor(e, open, openedAt).1 == ExecutorOk
    requires Launched(e, open, openedAt, primes, startAt, pose).1 == ExecutorOk
    requires InSpan(startAt, Launched(e, open, openedAt, primes, startAt, pose).0.session.queue)
    ensures var r := Launched(e, open, openedAt, primes, startAt, pose).0;
            && Paced(r, 0) && Previous(r) == pose && r.controlEpochTick == startAt
            && r.diag.applied == 0 && r.diag.maximumLateness == 0 && r.diag.reason == NoReason
            && r.diag.accepted == Wrap(|r.session.queue|)
  {
    OpenIsReady(e, open, openedAt);
    PrimingKeepsReady(OpenExecutor(e, open, openedAt).0, primes);
    StartPaces(Primed(OpenExecutor(e, open, openedAt).0, primes), startAt, pose);
  }

  /** Rate bound. In any run of appends, splices and control steps, one step per control
      tick, whose batches are smooth, consecutive poses, the start pose included, differ per
      joint by at most the policy's maximum step. */
  lemma SmoothRunIsRateBounded(
    e: Executor, open: seq<u8>, openedAt: u32, primes: seq<Prime>, startAt: u32, pose: Joints, events: seq<Event>)
    requires OpenExecutor(e, open, openedAt).1 == ExecutorOk
    requires Launched(e, open, openedAt, primes, startAt, pose).1 == ExecutorOk
    requires InSpan(startAt, Launched(e, open, openedAt, primes, startAt, pose).0.session.queue)
    requires WellTimed(Launched(e, open, openedAt, primes, startAt, pose).0, events)
    requires Smooth(Launched(e, open, openedAt, primes, startAt, pose).0, events)
    ensures var r := Launched(e, open, openedAt, primes, startAt, pose).0;
            RateBounded(pose, Outputs(r, events), r.session.policy.maximumStep)
  {
    LaunchIsPaced(e, open, openedAt, primes, startAt, pose);
    PacedRunIsRateBounded(Launched(e, open, openedAt, primes, startAt, pose).0, 0, events);
  }

  predicate AppendsOnly(events: seq<Event>) {
    forall i :: 0 <= i < |events| ==> events[i].Tick? || events[i].kind == Append
  }

  /** Nothing is ever offered to an empty queue. */
  ghost predicate NeverEmpty(e: Executor, events: seq<Event>)
    decreases |events|
  {
    events == [] || ((Accepts(e, events[0]) ==> e.session.queue != []) && NeverEmpty(After1(e, events[0]), events[1..]))
  }

  /** Appending alone, and never to an empty queue, is always smooth. */
  lemma {:induction false} AppendsAreSmooth(e: Executor, events: seq<Event>)
    requires AppendsOnly(events) && NeverEmpty(e, events)
    ensures Smooth(e, events)
    decreases |events|
  {
    hide After1, DecodeBatch, CountBefore, AdmitBatch;
    if events != [] {
      AppendsAreSmooth(After1(e, events[0]), events[1..]);
      if Accepts(e, events[0]) {
        var batch := DecodeBatch(events[0].payload, events[0].kind).value;
        KeptIsPrefix(e, batch, events[0].kind);
      }
    }
  }

  /** So a run that only ever appends to a nonempty queue keeps the step bound without any
      condition on its batches. */
  lemma AppendOnlyRunIsRateBounded(
    e: Executor, open: seq<u8>, openedAt: u32, primes: seq<Prime>, startAt: u32, pose: Joints, events: seq<Event>)
    requires OpenExecutor(e, open, openedAt).1 == ExecutorOk
    requires Launched(e, open, openedAt, primes, startAt, pose).1 == ExecutorOk
    requires InSpan(startAt, Launched(e, open, openedAt, primes, startAt, pose).0.session.queue)
    requires WellTimed(Launched(e, open, openedAt, primes, startAt, pose).0, events)
    requires AppendsOnly(events) && NeverEmpty(Launched(e, open, openedAt, primes, startAt, pose).0, events)
    ensures var r := Launched(e, open, openedAt, primes, startAt, pose).0;
            RateBounded(pose, Outputs(r, events), r.session.policy.maximumStep)
  {
    hide Launched, WellTimed, Smooth, Outputs, RateBounded;
    AppendsAreSmooth(Launched(e, open, openedAt, primes, startAt, pose).0, events);
    SmoothRunIsRateBounded(e, open, openedAt, primes, startAt, pose, events);
  }

  // ---- completion -----------------------------------------------------------

  function StepMany(e: Executor, n: nat): Executor
    decreases n
  {
    if n == 0 then e else StepMany(StepNext(e).exec, n - 1)
  }

  /** What each of n control steps emitted. */
  function StepOutputs(e: Executor, n: nat): (outputs: seq<Option<Joints>>)
    ensures |outputs| == n
    decreases n
  {
    if n == 0 then [] else [StepNext(e).output] + StepOutputs(StepNext(e).exec, n - 1)
  }

  /** A finite-horizon run whose last queued setpoint is the horizon. */
  predicate EndsAtHorizon(e: Executor) {
    e.session.horizonEndTick != 0 && e.session.queue != [] && Tail(e.session.queue).applyTick == e.session.horizonEndTick
  }

  /** Control tick on which the i-th queued setpoint is due. */
  function QueueDue(e: Executor, i: nat): nat
    requires i < |e.session.queue|
  {
    Due(e.controlEpochTick, e.session.queue[i].applyTick)
  }

  lemma {:induction false} DueIncreases(e: Executor, i: nat, j: nat)
    requires DueOrdered(e.controlEpochTick, e.session.queue) && i < j < |e.session.queue|
    ensures QueueDue(e, i) < QueueDue(e, j)
    decreases j
  {
    if i < j - 1 { DueIncreases(e, i, j - 1); }
  }

  /** Only the last setpoint of an ordered queue can carry the horizon's tick. */
  lemma HorizonIsLast(e: Executor)
    requires DueOrdered(e.controlEpochTick, e.session.queue) && EndsAtHorizon(e)
    ensures e.session.queue[0].applyTick == e.session.horizonEndTick <==> |e.session.queue| == 1
  {
    if |e.session.queue| > 1 { DueIncreases(e, 0, |e.session.queue| - 1); }
  }

  function HorizonDue(e: Executor): nat {
    Due(e.controlEpochTick, e.session.horizonEndTick)
  }

  /** From control tick k, n more steps: running before the last, succeeded after it, every
      queued setpoint applied and none late. */
  predicate Finishes(e: Executor, n: nat) {
    var r := StepMany(e, n);
    && r.diag.state == Succeeded && r.diag.reason == PlannedHorizon
    && r.session.queue == [] && r.diag.applied == Wrap(e.diag.applied + |e.session.queue|)
    && r.diag.maximumLateness == e.diag.maximumLateness
    && (forall m :: 0 <= m < n ==> StepMany(e, m).diag.state == Running)
  }

  /** Each queued setpoint is what its due tick emits. */
  predicate EmitsQueue(e: Executor, k: nat, n: nat) {
    forall i :: 0 <= i < |e.session.queue| ==>
      && k < QueueDue(e, i) <= k + n
      && StepOutputs(e, n)[QueueDue(e, i) - k - 1] == Some(e.session.queue[i].position)
  }

  lemma StepOutputsShift(e: Executor, n: nat)
    requires n > 0
    ensures StepOutputs(e, n)[0] == StepNext(e).output
    ensures forall m :: 0 < m < n ==> StepOutputs(e, n)[m] == StepOutputs(StepNext(e).exec, n - 1)[m - 1]
    ensures forall m :: 0 < m <= n ==> StepMany(e, m) == StepMany(StepNext(e).exec, m - 1)
  {
  }

  /** A step between due ticks postpones everything by one. */
  lemma FinishesAfterBetween(e: Executor, k: nat, n: nat)
    requires e.diag.state == Running && n > 0
    requires var e1 := StepNext(e).exec;
             && e1.session == e.session && e1.controlEpochTick == e.controlEpochTick
             && e1.diag.applied == e.diag.applied && e1.diag.maximumLateness == e.diag.maximumLateness
             && Finishes(e1, n - 1) && EmitsQueue(e1, k + 1, n - 1)
    ensures Finishes(e, n) && EmitsQueue(e, k, n)
  {
    hide StepExecutor;
    StepOutputsShift(e, n);
    var e1 := StepNext(e).exec;
    forall i | 0 <= i < |e.session.queue|
      ensures k < QueueDue(e, i) <= k + n
      ensures StepOutputs(e, n)[QueueDue(e, i) - k - 1] == Some(e.session.queue[i].position)
    {
      assert QueueDue(e1, i) == QueueDue(e, i);
    }
    forall m | 0 <= m < n ensures StepMany(e, m).diag.state == Running {
      if m > 0 { assert StepMany(e, m) == StepMany(e1, m - 1); }
    }
  }

  /** A step that applies the head leaves the rest of the queue to the later steps. */
  lemma FinishesAfterOnto(e: Executor, k: nat, n: nat)
    requires e.diag.state == Running && n > 0 && e.session.queue != [] && QueueDue(e, 0) == k + 1
    requires StepNext(e).output == Some(e.session.queue[0].position)
    requires var e1 := StepNext(e).exec;
             && e1.session == e.session.(queue := e.session.queue[1..]) && e1.controlEpochTick == e.controlEpochTick
             && e1.diag.applied == Add(e.diag.applied, 1) && e1.diag.maximumLateness == e.diag.maximumLateness
             && Finishes(e1, n - 1) && EmitsQueue(e1, k + 1, n - 1)
    ensures Finishes(e, n) && EmitsQueue(e, k, n)
  {
    hide StepExecutor;
    StepOutputsShift(e, n);
    var e1 := StepNext(e).exec;
    forall i | 0 <= i < |e.session.queue|
      ensures k < QueueDue(e, i) <= k + n
      ensures StepOutputs(e, n)[QueueDue(e, i) - k - 1] == Some(e.session.queue[i].position)
    {
      if i > 0 {
        assert e1.session.queue[i - 1] == e.session.queue[i];
        assert QueueDue(e1, i - 1) == QueueDue(e, i);
      }
    }
    forall m | 0 <= m < n ensures StepMany(e, m).diag.state == Running {
      if m > 0 { assert StepMany(e, m) == StepMany(e1, m - 1); }
    }
  }

  /** A step that applies the only queued setpoint, at the horizon, finishes the run. */
  lemma FinishesAtHorizon(e: Executor, k: nat)
    requires e.diag.state == Running && |e.session.queue| == 1 && QueueDue(e, 0) == k + 1
    requires StepNext(e).output == Some(e.session.queue[0].position)
    requires var e1 := StepNext(e).exec;
             && e1.session.queue == [] && e1.diag.state == Succeeded && e1.diag.reason == PlannedHorizon
             && e1.diag.applied == Add(e.diag.applied, 1) && e1.diag.maximumLateness == e.diag.maximumLateness
    ensures Finishes(e, 1) && EmitsQueue(e, k, 1)
  {
    hide StepExecutor;
    StepOutputsShift(e, 1);
  }

  /** From control tick k of a timed run that ends at its horizon, the remaining
      horizonDue - k steps apply exactly the queued setpoints, in order, each on its due
      tick and without lateness. */
  lemma {:induction false} TimedRunCompletes(e: Executor, k: nat)
    requires Timed(e, k) && EndsAtHorizon(e) && e.diag.reason == NoReason && 5 * HorizonDue(e) < HALF
    ensures k < HorizonDue(e)
    ensures Finishes(e, HorizonDue(e) - k) && EmitsQueue(e, k, HorizonDue(e) - k)
    decreases HorizonDue(e) - k
  {
    hide StepExecutor, StepMany, StepOutputs, Finishes, EmitsQueue, InSpan, SegmentPose, DueOrdered;
    var last := |e.session.queue| - 1;
    if last > 0 { DueIncreases(e, 0, last); }
    assert HorizonDue(e) == QueueDue(e, last);
    HorizonIsLast(e);
    if k + 1 < HeadDue(e) {
      TimedBetween(e, k);
      TimedRunCompletes(StepNext(e).exec, k + 1);
      FinishesAfterBetween(e, k, HorizonDue(e) - k);
    } else {
      TimedOnto(e, k);
      if last == 0 {
        FinishesAtHorizon(e, k);
      } else {
        assert Tail(StepNext(e).exec.session.queue) == Tail(e.session.queue);
        TimedRunCompletes(StepNext(e).exec, k + 1);
        FinishesAfterOnto(e, k, HorizonDue(e) - k);
      }
    }
  }

  /** Completion. A finite-horizon run started with its queue tail at the horizon and
      stepped every control tick succeeds after exactly ceil((horizon - start) / 5)
      steps, having applied every admitted setpoint once, in order, with no lateness. */
  lemma HorizonRunCompletes(
    e: Executor, open: seq<u8>, openedAt: u32, primes: seq<Prime>, startAt: u32, pose: Joints)
    requires OpenExecutor(e, open, openedAt).1 == ExecutorOk
    requires Launched(e, open, openedAt, primes, startAt, pose).1 == ExecutorOk
    requires InSpan(startAt, Launched(e, open, openedAt, primes, startAt, pose).0.session.queue)
    requires EndsAtHorizon(Launched(e, open, openedAt, primes, startAt, pose).0)
    requires Sub(Launched(e, open, openedAt, primes, startAt, pose).0.session.horizonEndTick, startAt) + 4 < HALF
    ensures var r := Launched(e, open, openedAt, primes, startAt, pose).0;
            var n := (Sub(r.session.horizonEndTick, startAt) + 4) / 5;
            var done := StepMany(r, n);
            && done.diag.state == Succeeded && done.diag.reason == PlannedHorizon
            && (forall m :: 0 <= m < n ==> StepMany(r, m).diag.state == Running)
            && done.session.queue == [] && done.diag.applied == r.diag.accepted && done.diag.maximumLateness == 0
            && EmitsQueue(r, 0, n)
            && (forall i :: 0 < i < |r.session.queue| ==> QueueDue(r, i - 1) < QueueDue(r, i))
  {
    hide Launched, OpenExecutor, StepExecutor, InSpan, DueOrdered, Spaced, CanReach;
    LaunchIsPaced(e, open, openedAt, primes, startAt, pose);
    var r := Launched(e, open, openedAt, primes, startAt, pose).0;
    TimedRunCompletes(r, 0);
    forall i | 0 < i < |r.session.queue| ensures QueueDue(r, i - 1) < QueueDue(r, i) {
      DueIncreases(r, i - 1, i);
    }
  }

  // ---- runs fed on the way --------------------------------------------------

  function Run(e: Executor, events: seq<Event>): Executor
    decreases |events|
  {
    if events == [] then e else Run(After1(e, events[0]), events[1..])
  }

  function TickCount(events: seq<Event>): nat {
    if events == [] then 0 else (if events[0].Tick? then 1 else 0) + TickCount(events[1..])
  }

  /** No batch of the run is accepted. */
  ghost predicate NothingAccepted(e: Executor, events: seq<Event>)
    decreases |events|
  {
    events == [] || (!Accepts(e, events[0]) && NothingAccepted(After1(e, events[0]), events[1..]))
  }

  /** How many queued setpoints an event replaces. */
  function Replaced(e: Executor, event: Event): nat {
    if !Accepts(e, event) then 0
    else
      KeptIsPrefix(e, DecodeBatch(event.payload, event.kind).value, event.kind);
      |e.session.queue| - |Kept(e, DecodeBatch(event.payload, event.kind).value, event.kind)|
  }

  /** How many the splices of a run replace. */
  function Removed(e: Executor, events: seq<Event>): nat
    decreases |events|
  {
    if events == [] then 0 else Replaced(e, events[0]) + Removed(After1(e, events[0]), events[1..])
  }

  lemma {:induction false} AppendsRemoveNothing(e: Executor, events: seq<Event>)
    requires AppendsOnly(events)
    ensures Removed(e, events) == 0
    decreases |events|
  {
    hide After1, DecodeBatch, CountBefore, AdmitBatch;
    if events != [] {
      AppendsRemoveNothing(After1(e, events[0]), events[1..]);
      if Accepts(e, events[0]) {
        KeptIsPrefix(e, DecodeBatch(events[0].payload, events[0].kind).value, events[0].kind);
      }
    }
  }

  /** On its timeline, with every accepted setpoint applied, still queued or removed, and
      none late. */
  ghost predicate Balanced(e: Executor, k: nat, removed: nat) {
    && Timed(e, k) && e.diag.accepted == Wrap(e.diag.applied + |e.session.queue| + removed)
    && e.diag.reason == NoReason && e.diag.maximumLateness == 0
  }

  lemma StepKeepsBalance(e: Executor, k: nat, removed: nat)
    requires Balanced(e, k, removed) && 5 * (k + 1) < HALF
    ensures StepNext(e).exec.diag.state == Running ==> Balanced(StepNext(e).exec, k + 1, removed)
    ensures StepNext(e).exec.diag.state in {Running, Succeeded, Hold, Aborted}
  {
    hide StepExecutor, Timed, StepNext;
    TimedStep(e, k);
    AppliedOrQueued(e.diag.applied, |e.session.queue| + removed);
    if StepNext(e).result == OutputReady { TimedIsOnTick(StepNext(e).exec, k + 1); }
  }

  lemma AppliedOrQueued(applied: u32, queued: nat)
    ensures Wrap(Add(applied, 1) + (queued - 1)) == Wrap(applied + queued)
  {
  }

  lemma OfferKeepsBalance(e: Executor, k: nat, removed: nat, event: Event)
    requires Balanced(e, k, removed) && event.Offer? && (Accepts(e, event) ==> OfferedInTime(e, event))
    ensures Balanced(After1(e, event), k, removed + Replaced(e, event))
  {
    hide AdmitBatch, DecodeBatch, Timed, CountBefore;
    if Accepts(e, event) {
      BalancedIsTimed(e, k, removed);
      OfferKeepsTimed(e, k, event);
      assert e.session.open by { TimedIsOpen(e, k); }
      AcceptedShape(e, event.payload, event.kind, event.now);
      KeptIsPrefix(e, DecodeBatch(event.payload, event.kind).value, event.kind);
      AcceptedOrCounted(e.diag.applied + |e.session.queue| + removed, |DecodeBatch(event.payload, event.kind).value.samples|);
    } else {
      RefusedKeepsPace(e, k, event);
    }
  }

  lemma TimedIsOpen(e: Executor, k: nat)
    requires Timed(e, k)
    ensures e.session.open
  {
  }

  lemma AcceptedOrCounted(count: nat, more: nat)
    ensures Wrap(Wrap(count) + more) == Wrap(count + more)
  {
  }

  /** A stopped run stays as it is. */
  lemma {:induction false} StoppedStays(e: Executor, events: seq<Event>)
    requires e.diag.state != Running && e.diag.state != Priming
    ensures Run(e, events) == e
    decreases |events|
  {
    if events != [] { StoppedStays(After1(e, events[0]), events[1..]); }
  }

  /** While a well-timed run still runs, it is balanced on its control tick. */
  lemma {:induction false} RunKeepsBalance(e: Executor, k: nat, removed: nat, events: seq<Event>)
    requires Balanced(e, k, removed) && WellTimed(e, events)
    ensures var r := Run(e, events); r.diag.state == Running ==> Balanced(r, StepIndex(r), removed + Removed(e, events))
    decreases |events|
  {
    hide StepExecutor, AdmitBatch, Balanced, OfferedInTime, Replaced, Accepts;
    BalancedIsTimed(e, k, removed);
    TimedIsOnTick(e, k);
    if events != [] {
      var e1 := After1(e, events[0]);
      if events[0].Tick? {
        assert Replaced(e, events[0]) == 0 by { TicksReplaceNothing(e); }
        InSpanTick(e, k);
        StepKeepsBalance(e, k, removed);
        if e1.diag.state == Running {
          RunKeepsBalance(e1, k + 1, removed, events[1..]);
        } else {
          StoppedStays(e1, events[1..]);
        }
      } else {
        OfferKeepsBalance(e, k, removed, events[0]);
        RunKeepsBalance(e1, k, removed + Replaced(e, events[0]), events[1..]);
      }
    }
  }

  lemma TicksReplaceNothing(e: Executor)
    ensures Replaced(e, Tick) == 0
  {
  }

  lemma BalancedIsTimed(e: Executor, k: nat, removed: nat)
    requires Balanced(e, k, removed)
    ensures Timed(e, k)
  {
  }

  /** A step of a run whose queue ends at the horizon: it goes on, or this was the horizon. */
  lemma StepTowardsHorizon(e: Executor, k: nat, removed: nat)
    requires Balanced(e, k, removed) && EndsAtHorizon(e) && 5 * HorizonDue(e) < HALF
    ensures k < HorizonDue(e)
    ensures var e1 := StepNext(e).exec;
            && e1.diag.accepted == e.diag.accepted
            && if k + 1 < HorizonDue(e)
               then Balanced(e1, k + 1, removed) && EndsAtHorizon(e1) && HorizonDue(e1) == HorizonDue(e)
               else Completed(e1, removed)
  {
    hide StepExecutor, InSpan, SegmentPose, StepNext, DueOrdered;
    var last := |e.session.queue| - 1;
    if last > 0 { DueIncreases(e, 0, last); }
    assert HorizonDue(e) == QueueDue(e, last);
    HorizonIsLast(e);
    AppliedOrQueued(e.diag.applied, |e.session.queue| + removed);
    if k + 1 < HeadDue(e) { TimedBetween(e, k); } else { TimedOnto(e, k); }
  }

  /** Succeeded at the horizon: every accepted setpoint was applied or removed, none late,
      none is left. */
  predicate Completed(e: Executor, removed: nat) {
    && e.diag.state == Succeeded && e.diag.reason == PlannedHorizon && e.session.queue == []
    && e.diag.accepted == Wrap(e.diag.applied + removed) && e.diag.maximumLateness == 0
  }

  lemma {:induction false} RunReachesHorizon(e: Executor, k: nat, removed: nat, events: seq<Event>)
    requires Balanced(e, k, removed) && EndsAtHorizon(e) && 5 * HorizonDue(e) < HALF && NothingAccepted(e, events)
    ensures k < HorizonDue(e)
    ensures if TickCount(events) < HorizonDue(e) - k then Run(e, events).diag.state == Running
            else Completed(Run(e, events), removed)
    decreases |events|
  {
    hide StepExecutor, AdmitBatch, Timed, EndsAtHorizon, StepNext, Accepts;
    StepTowardsHorizon(e, k, removed);
    BalancedIsTimed(e, k, removed);
    TimedIsOnTick(e, k);
    if events != [] {
      var e1 := After1(e, events[0]);
      if events[0].Tick? {
        if k + 1 < HorizonDue(e) {
          RunReachesHorizon(e1, k + 1, removed, events[1..]);
        } else {
          StoppedStays(e1, events[1..]);
        }
      } else {
        RejectedKeepsHorizon(e, k, removed, events[0]);
        RunReachesHorizon(e1, k, removed, events[1..]);
      }
    }
  }

  lemma RejectedKeepsHorizon(e: Executor, k: nat, removed: nat, event: Event)
    requires Balanced(e, k, removed) && EndsAtHorizon(e) && event.Offer? && !Accepts(e, event)
    ensures var r := After1(e, event);
            Balanced(r, k, removed) && EndsAtHorizon(r) && HorizonDue(r) == HorizonDue(e)
  {
    hide After1, Accepts, Timed;
    BalancedIsTimed(e, k, removed);
    RefusedKeepsPace(e, k, event);
  }

  /** Completion of a fed run. However a well-timed run was fed, once its queue ends at the
      horizon and nothing more is accepted, it runs on for exactly the control ticks left to
      the horizon and then succeeds, having applied every accepted setpoint that no splice
      removed: all of them, if it was fed by appends. */
  lemma {:induction false} FedRunCompletes(
    e: Executor, open: seq<u8>, openedAt: u32, primes: seq<Prime>, startAt: u32, pose: Joints,
    feeding: seq<Event>, rest: seq<Event>)
    requires OpenExecutor(e, open, openedAt).1 == ExecutorOk
    requires Launched(e, open, openedAt, primes, startAt, pose).1 == ExecutorOk
    requires InSpan(startAt, Launched(e, open, openedAt, primes, startAt, pose).0.session.queue)
    requires WellTimed(Launched(e, open, openedAt, primes, startAt, pose).0, feeding)
    requires var fed := Run(Launched(e, open, openedAt, primes, startAt, pose).0, feeding);
             && fed.diag.state == Running && EndsAtHorizon(fed) && 5 * HorizonDue(fed) < HALF
             && NothingAccepted(fed, rest)
    ensures var r := Launched(e, open, openedAt, primes, startAt, pose).0;
            var fed := Run(r, feeding);
            && StepIndex(fed) < HorizonDue(fed)
            && (TickCount(rest) < HorizonDue(fed) - StepIndex(fed) ==> Run(fed, rest).diag.state == Running)
            && (TickCount(rest) >= HorizonDue(fed) - StepIndex(fed) ==>
                  && Completed(Run(fed, rest), Removed(r, feeding))
                  && (AppendsOnly(feeding) ==> Run(fed, rest).diag.applied == Run(fed, rest).diag.accepted))
  {
    hide Launched, OpenExecutor, StepExecutor, WellTimed, EndsAtHorizon, NothingAccepted, Timed, Removed;
    LaunchIsPaced(e, open, openedAt, primes, startAt, pose);
    var r := Launched(e, open, openedAt, primes, startAt, pose).0;
    RunKeepsBalance(r, 0, 0, feeding);
    var fed := Run(r, feeding);
    RunReachesHorizon(fed, StepIndex(fed), Removed(r, feeding), rest);
    if AppendsOnly(feeding) { AppendsRemoveNothing(r, feeding); }
  }
}

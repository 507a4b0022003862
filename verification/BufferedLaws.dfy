// What each operation of the buffered executor does in every case, and the run it is for: a
// complete trajectory, stepped at every tick, is applied setpoint by setpoint on its own
// ticks and succeeds.
module BufferedLaws {
  import opened Words
  import opened Lerp
  import opened SetpointQueue
  import opened BufferedExecutor
  import opened BufferedRuns

  // ---- admission ------------------------------------------------------------

  /** Fine as the sample after `previous`. */
  predicate Fits(s: Setpoint, previous: u32, lead: Lead, limits: Limits) {
    && 0 < Sub(s.applyTick, lead.now) < HALF && lead.minimum <= Sub(s.applyTick, lead.now) <= lead.maximum
    && 0 < Sub(s.applyTick, previous) < HALF
    && forall j :: 0 <= j < 6 ==> limits[j].minimum <= s.position[j] <= limits[j].maximum
  }

  /** The complaint about a sample that does not fit: too early for its lead, too far ahead,
      not after the one before, or outside the limits, in this order. */
  predicate Complains(s: Setpoint, previous: u32, lead: Lead, limits: Limits, v: QueueResult) {
    var ahead := Sub(s.applyTick, lead.now);
    var early := ahead == 0 || ahead >= HALF || ahead < lead.minimum;
    var ordered := 0 < Sub(s.applyTick, previous) < HALF;
    && !Fits(s, previous, lead, limits)
    && (v == StaleTick <==> early)
    && (v == TickTooFar <==> !early && ahead > lead.maximum)
    && (v == NonMonotonic <==> !early && ahead <= lead.maximum && !ordered)
    && (v == LimitViolation <==> !early && ahead <= lead.maximum && ordered)
  }

  function Before(samples: seq<Setpoint>, i: nat, previous: u32): u32
    requires i <= |samples|
  {
    if i == 0 then previous else samples[i - 1].applyTick
  }

  /** Every sample before the k-th fits. */
  predicate FitUpTo(samples: seq<Setpoint>, k: nat, previous: u32, lead: Lead, limits: Limits) {
    k <= |samples| && forall i :: 0 <= i < k ==> Fits(samples[i], Before(samples, i, previous), lead, limits)
  }

  lemma {:induction false} VerdictNamesFirst(samples: seq<Setpoint>, i: nat, previous: u32, lead: Lead, limits: Limits)
    requires FitUpTo(samples, i, previous, lead, limits)
    ensures var v := BatchVerdict(samples, i, Before(samples, i, previous), lead, limits);
            && (v == QueueOk <==> FitUpTo(samples, |samples|, previous, lead, limits))
            && (v != QueueOk ==> exists k :: 0 <= k < |samples| && FitUpTo(samples, k, previous, lead, limits)
                                             && Complains(samples[k], Before(samples, k, previous), lead, limits, v))
    decreases |samples| - i
  {
    hide Fits, Complains;
    if i < |samples| {
      VerdictOfOne(samples[i], Before(samples, i, previous), lead, limits);
      if Fits(samples[i], Before(samples, i, previous), lead, limits) {
        VerdictNamesFirst(samples, i + 1, previous, lead, limits);
      }
    }
  }

  lemma VerdictOfOne(s: Setpoint, previous: u32, lead: Lead, limits: Limits)
    ensures var v := SampleVerdict(s, previous, lead, limits);
            && (v == QueueOk <==> Fits(s, previous, lead, limits))
            && (v != QueueOk ==> Complains(s, previous, lead, limits, v))
  {
  }

  /** Admission, in every case. A batch is taken whole exactly while the executor primes or
      runs, before its input is complete, when it is not empty, fits the sixteen places and
      the lead bounds are in order, and every sample fits; it is then queued behind the rest
      and counted. A refused one leaves everything but the recorded verdict. */
  lemma AdmissionIsExact(e: Executor, batch: seq<Setpoint>, lead: Lead, limits: Limits)
    requires |e.queue| <= 16
    ensures var (n, s) := AdmittedBatch(e, batch, lead, limits);
            var previous := if e.queue == [] then lead.now else e.queue[|e.queue| - 1].applyTick;
            var open := (e.diag.phase == Priming || e.diag.phase == Running) && !e.diag.inputComplete;
            var taken := 0 < |batch| <= 16 - |e.queue| && lead.minimum <= lead.maximum
                         && FitUpTo(batch, |batch|, previous, lead, limits);
            && (s == BadState <==> !open) && (s == ExecOk <==> open && taken) && (s == QueueRejected <==> open && !taken)
            && (!open ==> n == e)
            && (open && taken ==>
                  && n == e.(queue := e.queue + batch, diag := n.diag)
                  && n.diag == e.diag.(lastQueue := QueueOk, queued := |e.queue| + |batch|,
                                       peak := n.diag.peak, accepted := n.diag.accepted)
                  && n.diag.peak == (if e.diag.peak > |e.queue| + |batch| then e.diag.peak else |e.queue| + |batch|)
                  && n.diag.accepted == (if e.diag.accepted + |batch| > U32_MAX then U32_MAX else e.diag.accepted + |batch|))
            && (open && !taken ==>
                  && n.queue == e.queue && n == e.(diag := n.diag) && n.diag.lastQueue != QueueOk
                  && n.diag == e.diag.(lastQueue := n.diag.lastQueue, queued := |e.queue|, peak := n.diag.peak)
                  && n.diag.peak == (if e.diag.peak > |e.queue| then e.diag.peak else |e.queue|))
  {
    hide BatchVerdict, FitUpTo;
    var previous := LastTick(e.queue, lead.now);
    assert FitUpTo(batch, 0, previous, lead, limits) by { NoneYet(batch, previous, lead, limits); }
    VerdictNamesFirst(batch, 0, previous, lead, limits);
  }

  lemma NoneYet(batch: seq<Setpoint>, previous: u32, lead: Lead, limits: Limits)
    ensures FitUpTo(batch, 0, previous, lead, limits)
  {
  }

  /** What a refused batch is told: the first of the checks it fails. */
  lemma RefusalIsNamed(e: Executor, batch: seq<Setpoint>, lead: Lead, limits: Limits)
    requires |e.queue| <= 16 && AdmittedBatch(e, batch, lead, limits).1 == QueueRejected
    ensures var v := AdmittedBatch(e, batch, lead, limits).0.diag.lastQueue;
            var previous := if e.queue == [] then lead.now else e.queue[|e.queue| - 1].applyTick;
            if |batch| == 0 then v == NoSamples
            else if |e.queue| + |batch| > 16 then v == CapacityExceeded
            else if lead.minimum > lead.maximum then v == TickTooFar
            else exists k :: 0 <= k < |batch| && FitUpTo(batch, k, previous, lead, limits)
                             && Complains(batch[k], Before(batch, k, previous), lead, limits, v)
  {
    hide BatchVerdict, FitUpTo, Complains;
    var previous := LastTick(e.queue, lead.now);
    assert FitUpTo(batch, 0, previous, lead, limits) by { NoneYet(batch, previous, lead, limits); }
    VerdictNamesFirst(batch, 0, previous, lead, limits);
  }

  // ---- start and stop -------------------------------------------------------

  /** Start, in every case. */
  lemma StartIsExact(e: Executor, tick: u32, position: Pose, limits: Limits)
    ensures var (n, s) := StartedAt(e, tick, position, limits);
            var primed := |e.queue| > 0 && (|e.queue| >= e.minimumStart || e.diag.inputComplete);
            && (s == BadState <==> e.diag.phase != Priming)
            && (s == NotPrimed <==> e.diag.phase == Priming && !primed)
            && (s == ExecOk <==> && e.diag.phase == Priming && primed
                                 && 0 < Sub(e.queue[0].applyTick, tick) < HALF
                                 && forall j :: 0 <= j < 6 ==> limits[j].minimum <= position[j] <= limits[j].maximum)
            && s in [BadState, NotPrimed, ExecOk, InvalidAnchor]
            && (s == ExecOk ==> n == e.(anchor := Setpoint(tick, position), anchorValid := true,
                                        diag := e.diag.(phase := Running)))
            && (s != ExecOk ==> n == e)
  {
  }

  /** Marking the input complete, and stopping for a cause: each only while priming or
      running. Every cause has its own phase and reason; all but a planned hold ask for the
      safe stop. */
  lemma EndingsAreExact(e: Executor, c: StopCause, now: u32)
    ensures var open := e.diag.phase == Priming || e.diag.phase == Running;
            && Completed(e) == (if open then (e.(diag := e.diag.(inputComplete := true)), ExecOk) else (e, BadState))
            && (!open ==> StoppedFor(e, c, now) == (e, BadState))
            && (open ==>
                  var (n, s) := StoppedFor(e, c, now);
                  && s == Terminal && n == e.(queue := [], diag := n.diag)
                  && n.diag == e.diag.(phase := n.diag.phase, reason := n.diag.reason, safeStopRequired := n.diag.safeStopRequired,
                                       terminalTick := now, queued := 0)
                  && (c == PlannedStop ==> n.diag.phase == Hold && n.diag.reason == PlannedHold && !n.diag.safeStopRequired)
                  && (c == CancelStop ==> n.diag.phase == Canceled && n.diag.reason == OperatorCancel && n.diag.safeStopRequired)
                  && (c == LossStop ==> n.diag.phase == Aborted && n.diag.reason == ConnectionLoss && n.diag.safeStopRequired)
                  && (c == TrackingStop ==> n.diag.phase == Aborted && n.diag.reason == TrackingError && n.diag.safeStopRequired))
  {
  }

  // ---- step -----------------------------------------------------------------

  /** The front is due: not before its tick. */
  predicate Due(e: Executor, now: u32)
    requires e.queue != []
  {
    Sub(now, e.queue[0].applyTick) < HALF
  }

  /** Ended with an empty queue and nothing else changed but the record. */
  predicate EndsAs(e: Executor, n: Executor, phase: Phase, reason: Reason, safeStop: bool, now: u32) {
    n == e.(queue := [], diag := e.diag.(phase := phase, reason := reason, safeStopRequired := safeStop,
                                         terminalTick := now, queued := 0))
  }

  /** The record after applying a sample this late: counted, also by its lateness (five ticks
      and more together), with the worst lateness and where it happened. */
  predicate Recorded(d: Diagnostics, n: Diagnostics, lateness: u32, now: u32) {
    && n.applied == (if d.applied == U32_MAX then U32_MAX else d.applied + 1)
    && n.lastAppliedTick == now && n.lastLateness == lateness && n.lastQueue == QueueOk
    && n.maximumLateness == (if lateness > d.maximumLateness then lateness else d.maximumLateness)
    && n.maximumLatenessIndex == (if lateness > d.maximumLateness then n.applied else d.maximumLatenessIndex)
    && (forall b :: 0 <= b < 6 ==>
          n.histogram[b] == if b == (if lateness < 5 then lateness else 5) && d.histogram[b] < U32_MAX
                            then d.histogram[b] + 1 else d.histogram[b])
    && n.accepted == d.accepted && n.inputComplete == d.inputComplete && n.peak >= d.peak
  }

  /** A step of a running executor, in every case. A due front within the allowed lateness is
      applied: its pose goes out, it is the new anchor, and it is recorded; if it was the last,
      the run succeeds when its input is complete, and else holds with the safe stop. A front
      too late ends the run with the safe stop. Before the front and from the anchor on, the
      exact interpolation goes out and nothing changes. */
  lemma StepIsExact(e: Executor, now: u32)
    requires Chained(e) && e.diag.phase == Running
    ensures var (n, r) := Stepped(e, now);
            var front, late := e.queue[0], Sub(now, e.queue[0].applyTick);
            var since, span := Sub(now, e.anchor.applyTick), Sub(e.queue[0].applyTick, e.anchor.applyTick);
            && (Due(e, now) && late <= e.latenessLimit ==>
                  && r == StepResult(Output, front.position)
                  && n == e.(queue := e.queue[1..], anchor := front, diag := n.diag) && Recorded(e.diag, n.diag, late, now)
                  && n.diag.queued == |e.queue| - 1
                  && (|e.queue| > 1 ==> n.diag.phase == Running && n.diag.reason == e.diag.reason
                                        && n.diag.terminalTick == e.diag.terminalTick
                                        && n.diag.safeStopRequired == e.diag.safeStopRequired)
                  && (|e.queue| == 1 ==> n.diag.terminalTick == now)
                  && (|e.queue| == 1 && e.diag.inputComplete ==>
                        n.diag.phase == Succeeded && n.diag.reason == e.diag.reason
                        && n.diag.safeStopRequired == e.diag.safeStopRequired)
                  && (|e.queue| == 1 && !e.diag.inputComplete ==>
                        n.diag.phase == Hold && n.diag.reason == QueueUnderflow && n.diag.safeStopRequired))
            && (Due(e, now) && late > e.latenessLimit ==>
                  r.status == Terminal && EndsAs(e, n, Hold, MissedApplyTick, true, now))
            && (!Due(e, now) ==> n == e)
            && (!Due(e, now) && since < HALF ==>
                  r.status == Output && 0 <= since < span < HALF
                  && forall j :: 0 <= j < 6 ==> r.pose[j] == Exact(e.anchor.position[j], front.position[j], since, span))
            && (!Due(e, now) && since >= HALF ==> r.status == InvalidAnchor)
  {
    hide Between, Exact;
    StepExitsAreFew(e, now);
    if StepExit(e, now) == Interpolated {
      forall j | 0 <= j < 6
        ensures Stepped(e, now).1.pose[j] ==
                Exact(e.anchor.position[j], e.queue[0].position[j], Sub(now, e.anchor.applyTick),
                      Sub(e.queue[0].applyTick, e.anchor.applyTick))
      {
        BetweenIsExact(e.anchor.position[j], e.queue[0].position[j], Sub(now, e.anchor.applyTick),
                       Sub(e.queue[0].applyTick, e.anchor.applyTick));
      }
    }
  }

  /** Stepping an executor that does not run changes nothing. */
  lemma OnlyRunningSteps(e: Executor, now: u32)
    requires e.diag.phase != Running
    ensures Stepped(e, now).0 == e && Stepped(e, now).1.status == BadState
  {
  }

  // ---- a whole trajectory ---------------------------------------------------

  /** Steps at n consecutive ticks, the first at a true time. */
  function Steps(e: Executor, from: int, n: nat): Executor
    decreases n
  {
    if n == 0 then e else Steps(Stepped(e, Wrap(from)).0, from + 1, n - 1)
  }

  /** The poses put out by these steps. */
  function Outputs(e: Executor, from: int, n: nat): seq<Pose>
    decreases n
  {
    if n == 0 then []
    else
      var (s, r) := Stepped(e, Wrap(from));
      (if r.status == Output then [r.pose] else []) + Outputs(s, from + 1, n - 1)
  }

  lemma {:induction false} StepsSplit(e: Executor, from: int, n: nat, m: nat)
    ensures Steps(e, from, n + m) == Steps(Steps(e, from, n), from + n, m)
    ensures Outputs(e, from, n + m) == Outputs(e, from, n) + Outputs(Steps(e, from, n), from + n, m)
    decreases n
  {
    hide Stepped;
    if n > 0 { StepsSplit(Stepped(e, Wrap(from)).0, from + 1, n - 1, m); }
  }

  /** The queue is due at these true times, in order, each less than half a word after the
      one before, the first after the anchor's. */
  predicate DueAt(e: Executor, at: int, due: seq<int>) {
    && |due| == |e.queue| && e.anchor.applyTick == Wrap(at)
    && (forall i :: 0 <= i < |due| ==> e.queue[i].applyTick == Wrap(due[i]))
    && (due != [] ==> at < due[0] < at + HALF)
    && (forall i :: 0 < i < |due| ==> due[i - 1] < due[i] < due[i - 1] + HALF)
  }

  lemma DueTail(e: Executor, n: Executor, at: int, due: seq<int>)
    requires DueAt(e, at, due) && due != [] && n.queue == e.queue[1..] && n.anchor == e.queue[0]
    ensures DueAt(n, due[0], due[1..])
  {
  }

  lemma FrontIsLater(e: Executor, at: int, due: seq<int>)
    requires Chained(e) && e.diag.phase == Running && DueAt(e, at, due)
    ensures e.queue != [] && |due| == |e.queue| && at < due[0] < at + HALF
    ensures e.anchor.applyTick == Wrap(at) && e.queue[0].applyTick == Wrap(due[0])
  {
    hide Later;
  }

  /** The pose at a true time on the way from one position to the next. */
  predicate OnSegment(a: Pose, b: Pose, at: int, due: int, now: int, pose: Pose)
    requires at < due
  {
    forall j :: 0 <= j < 6 ==> pose[j] == Exact(a[j], b[j], now - at, due - at)
  }

  lemma StepOnSegment(e: Executor, at: int, due: seq<int>, now: int)
    requires Chained(e) && e.diag.phase == Running && DueAt(e, at, due) && due != [] && at <= now < due[0]
    ensures var (n, r) := Stepped(e, Wrap(now)); n == e && r.status == Output && OnSegment(e.anchor.position, e.queue[0].position, at, due[0], now, r.pose)
  {
    FrontIsLater(e, at, due);
    hide Stepped, Chained, Exact, Recorded, DueAt;
    StepIsExact(e, Wrap(now));
    SubWrap(now, at);
    SubWrap(due[0], at);
    BeforeDue(now, due[0]);
  }

  lemma BeforeDue(now: int, due: int)
    requires due - HALF < now < due
    ensures Sub(Wrap(now), Wrap(due)) >= HALF
  {
    SubWrap(now + WORD, due);
  }

  lemma {:induction false} StepsOnSegment(e: Executor, at: int, due: seq<int>, from: int, n: nat)
    requires Chained(e) && e.diag.phase == Running && DueAt(e, at, due) && due != [] && at <= from && from + n <= due[0]
    ensures Steps(e, from, n) == e && |Outputs(e, from, n)| == n
    ensures forall k :: 0 <= k < n ==> OnSegment(e.anchor.position, e.queue[0].position, at, due[0], from + k, Outputs(e, from, n)[k])
    decreases n
  {
    hide Stepped, Chained, DueAt, OnSegment;
    FrontIsLater(e, at, due);
    if n > 0 {
      StepOnSegment(e, at, due, from);
      StepsOnSegment(e, at, due, from + 1, n - 1);
      var rest := Outputs(e, from + 1, n - 1);
      forall k | 0 <= k < n ensures OnSegment(e.anchor.position, e.queue[0].position, at, due[0], from + k, Outputs(e, from, n)[k]) {
        if k > 0 { assert OnSegment(e.anchor.position, e.queue[0].position, at, due[0], from + 1 + (k - 1), rest[k - 1]); }
      }
    }
  }

  /** A running executor with its whole input, due at these true times. */
  predicate Ready(e: Executor, at: int, due: seq<int>) {
    Chained(e) && e.diag.phase == Running && e.diag.inputComplete && DueAt(e, at, due)
  }

  lemma FrontOf(e: Executor, at: int, due: seq<int>)
    requires Ready(e, at, due)
    ensures e.queue != [] && |due| == |e.queue| && at < due[0] < at + HALF
    ensures e.anchor.applyTick == Wrap(at) && e.queue[0].applyTick == Wrap(due[0])
  {
    FrontIsLater(e, at, due);
  }

  /** The front applied on its own tick. */
  lemma StepOntoFront(e: Executor, at: int, due: seq<int>)
    requires Ready(e, at, due)
    ensures e.queue != [] && |due| == |e.queue|
    ensures var (n, r) := Stepped(e, Wrap(due[0]));
            && r == StepResult(Output, e.queue[0].position) && n.anchor == e.queue[0] && n.queue == e.queue[1..]
            && Recorded(e.diag, n.diag, 0, Wrap(due[0])) && (|due| > 1 ==> Ready(n, due[0], due[1..]))
            && n.diag.safeStopRequired == e.diag.safeStopRequired && n.diag.reason == e.diag.reason
            && n.diag.phase == (if |e.queue| > 1 then Running else Succeeded)
            && (|e.queue| == 1 ==> n.diag.terminalTick == Wrap(due[0]))
  {
    hide Stepped, Exact, DueAt;
    FrontOf(e, at, due);
    StepIsExact(e, Wrap(due[0]));
    SubWrap(due[0], due[0]);
    DueTail(e, Stepped(e, Wrap(due[0])).0, at, due);
    LaterTail(e.queue, ANY);
  }

  const ANY: Limits := [Limit(0, 0), Limit(0, 0), Limit(0, 0), Limit(0, 0), Limit(0, 0), Limit(0, 0)]

  /** Where the pose put out at a true time lies: on a setpoint's own tick its position,
      between two the exact interpolation of their positions. */
  predicate Follows(a: Pose, queue: seq<Setpoint>, at: int, due: seq<int>, now: int, pose: Pose)
    requires |due| == |queue|
    decreases |due|
  {
    due != [] &&
    (if now < due[0] then at < due[0] && OnSegment(a, queue[0].position, at, due[0], now, pose)
     else if now == due[0] then pose == queue[0].position
     else Follows(queue[0].position, queue[1..], due[0], due[1..], now, pose))
  }

  lemma {:induction false} LastIsLater(e: Executor, at: int, due: seq<int>)
    requires DueAt(e, at, due) && due != []
    ensures at < due[0] <= due[|due| - 1]
    decreases |due|
  {
    if |due| > 1 {
      DueTail(e, e.(queue := e.queue[1..], anchor := e.queue[0]), at, due);
      LastIsLater(e.(queue := e.queue[1..], anchor := e.queue[0]), due[0], due[1..]);
    }
  }

  lemma LastOf(e: Executor, at: int, due: seq<int>)
    requires Ready(e, at, due) && due != []
    ensures at < due[0] <= due[|due| - 1]
  {
    LastIsLater(e, at, due);
  }

  /** Poses at consecutive ticks from the anchor's up to the front's. */
  predicate Approaches(a: Pose, b: Pose, at: int, due: int, poses: seq<Pose>)
    requires at < due
  {
    && |poses| == due - at && poses[|poses| - 1] == b
    && forall k :: 0 <= k < |poses| - 1 ==> OnSegment(a, b, at, due, at + 1 + k, poses[k])
  }

  /** Poses at consecutive ticks, from the one after the anchor's. */
  predicate AllFollow(a: Pose, queue: seq<Setpoint>, at: int, due: seq<int>, poses: seq<Pose>)
    requires |due| == |queue|
  {
    forall k :: 0 <= k < |poses| ==> Follows(a, queue, at, due, at + 1 + k, poses[k])
  }

  /** The steps up to the front's own tick. */
  lemma StepsToFront(e: Executor, at: int, due: seq<int>)
    requires Ready(e, at, due) && due != [] && at < due[0]
    ensures var n := Stepped(e, Wrap(due[0])).0;
            && Steps(e, at + 1, due[0] - at) == n && |Outputs(e, at + 1, due[0] - at)| == due[0] - at
            && Approaches(e.anchor.position, e.queue[0].position, at, due[0], Outputs(e, at + 1, due[0] - at))
  {
    hide Stepped, Chained, DueAt, OnSegment, Recorded;
    FrontOf(e, at, due);
    var gap := due[0] - at - 1;
    StepsOnSegment(e, at, due, at + 1, gap);
    StepOntoFront(e, at, due);
    StepsSplit(e, at + 1, gap, 1);
    OneStep(e, due[0]);
  }

  lemma OneStep(e: Executor, now: int)
    ensures Steps(e, now, 1) == Stepped(e, Wrap(now)).0
    ensures Stepped(e, Wrap(now)).1.status == Output ==> Outputs(e, now, 1) == [Stepped(e, Wrap(now)).1.pose]
  {
    hide Stepped;
    var n := Stepped(e, Wrap(now)).0;
    assert Steps(n, now + 1, 0) == n && Outputs(n, now + 1, 0) == [];
  }

  /** The steps split at the front's own tick. */
  lemma FrontThenRest(e: Executor, at: int, due: seq<int>, last: int)
    requires Ready(e, at, due) && due != [] && at < due[0] <= last
    ensures var n, m := Stepped(e, Wrap(due[0])).0, last - due[0];
            && Steps(e, at + 1, last - at) == Steps(n, due[0] + 1, m)
            && Outputs(e, at + 1, last - at) == Outputs(e, at + 1, due[0] - at) + Outputs(n, due[0] + 1, m)
            && |Outputs(e, at + 1, due[0] - at)| == due[0] - at
  {
    hide Stepped, Ready, Chained, DueAt, Approaches, Steps, Outputs;
    FrontOf(e, at, due);
    StepsToFront(e, at, due);
    StepsSplit(e, at + 1, due[0] - at, last - due[0]);
  }

  lemma NothingAfter(n: Executor, from: int)
    ensures Steps(n, from, 0) == n && Outputs(n, from, 0) == []
  {
  }

  lemma {:induction false} TrajectoryEnds(e: Executor, at: int, due: seq<int>)
    requires Ready(e, at, due)
    requires e.diag.applied + |e.queue| <= U32_MAX
    ensures due != [] && at < due[|due| - 1]
    ensures var f := Steps(e, at + 1, due[|due| - 1] - at);
            && f.diag.phase == Succeeded && f.queue == [] && f.anchor == e.queue[|e.queue| - 1]
            && f.diag.applied == e.diag.applied + |e.queue| && f.diag.maximumLateness == e.diag.maximumLateness
            && f.diag.safeStopRequired == e.diag.safeStopRequired && f.diag.reason == e.diag.reason
            && f.diag.terminalTick == Wrap(due[|due| - 1])
    decreases |due|
  {
    hide Stepped, Ready, Chained, DueAt, Approaches, Outputs, Steps;
    FrontOf(e, at, due);
    LastOf(e, at, due);
    StepOntoFront(e, at, due);
    FrontThenRest(e, at, due, due[|due| - 1]);
    var n := Stepped(e, Wrap(due[0])).0;
    if |due| == 1 {
      NothingAfter(n, due[0] + 1);
    } else {
      assert due[1..][|due| - 2] == due[|due| - 1];
      TrajectoryEnds(n, due[0], due[1..]);
    }
  }

  /** Poses up to the front, then those after it. */
  lemma FollowsJoin(a: Pose, queue: seq<Setpoint>, at: int, due: seq<int>, head: seq<Pose>, rest: seq<Pose>)
    requires |due| == |queue| > 0 && at < due[0] && Approaches(a, queue[0].position, at, due[0], head)
    requires AllFollow(queue[0].position, queue[1..], due[0], due[1..], rest)
    ensures AllFollow(a, queue, at, due, head + rest)
  {
    hide OnSegment;
    forall k | 0 <= k < |head + rest| ensures Follows(a, queue, at, due, at + 1 + k, (head + rest)[k]) {
      if k >= |head| {
        assert due[0] + 1 + (k - |head|) == at + 1 + k && (head + rest)[k] == rest[k - |head|];
      }
    }
  }

  lemma NoneFollows(e: Executor, due: seq<int>)
    requires |due| == |e.queue| == 1
    ensures AllFollow(e.queue[0].position, e.queue[1..], due[0], due[1..], [])
  {
  }

  lemma {:induction false} TrajectoryFollows(e: Executor, at: int, due: seq<int>)
    requires Ready(e, at, due)
    ensures due != [] && at < due[|due| - 1]
    ensures var span := due[|due| - 1] - at;
            |Outputs(e, at + 1, span)| == span && AllFollow(e.anchor.position, e.queue, at, due, Outputs(e, at + 1, span))
    decreases |due|
  {
    hide Stepped, Ready, Chained, DueAt, Approaches, AllFollow, Steps, Outputs, Recorded;
    FrontOf(e, at, due);
    LastOf(e, at, due);
    StepOntoFront(e, at, due);
    StepsToFront(e, at, due);
    FrontThenRest(e, at, due, due[|due| - 1]);
    var n := Stepped(e, Wrap(due[0])).0;
    if |due| == 1 {
      NothingAfter(n, due[0] + 1);
      NoneFollows(e, due);
    } else {
      assert due[1..][|due| - 2] == due[|due| - 1];
      TrajectoryFollows(n, due[0], due[1..]);
    }
    FollowsJoin(e.anchor.position, e.queue, at, due, Outputs(e, at + 1, due[0] - at),
                Outputs(n, due[0] + 1, due[|due| - 1] - due[0]));
  }

  /** A trajectory runs to its end. With its input complete and a step at every tick, every
      setpoint is applied on its own tick, in order and never late, every pose in between is
      the exact interpolation, and on the last setpoint's tick the run succeeds. */
  lemma TrajectoryCompletes(e: Executor, at: int, due: seq<int>)
    requires Ready(e, at, due)
    requires e.diag.applied + |e.queue| <= U32_MAX
    ensures due != [] && at < due[|due| - 1]
    ensures var span := due[|due| - 1] - at;
            var f, poses := Steps(e, at + 1, span), Outputs(e, at + 1, span);
            && f.diag.phase == Succeeded && f.queue == [] && f.anchor == e.queue[|e.queue| - 1]
            && f.diag.applied == e.diag.applied + |e.queue| && f.diag.maximumLateness == e.diag.maximumLateness
            && f.diag.safeStopRequired == e.diag.safeStopRequired && f.diag.terminalTick == Wrap(due[|due| - 1])
            && |poses| == span && forall k :: 0 <= k < span ==> Follows(e.anchor.position, e.queue, at, due, at + 1 + k, poses[k])
  {
    hide Ready, Steps, Outputs, Follows;
    FrontOf(e, at, due);
    TrajectoryEnds(e, at, due);
    TrajectoryFollows(e, at, due);
  }

  /** The true times of a queue behind a setpoint at a true time. */
  function TrueTimes(queue: seq<Setpoint>, at: int, tick: u32): (due: seq<int>)
    ensures |due| == |queue|
  {
    if queue == [] then []
    else
      var first := at + Sub(queue[0].applyTick, tick);
      [first] + TrueTimes(queue[1..], first, queue[0].applyTick)
  }

  /** Every running executor has such times, whatever the clock has wrapped to. */
  lemma {:induction false} TimesAreTrue(e: Executor, at: int)
    requires Later(e.queue) && e.anchor.applyTick == Wrap(at)
    requires e.queue != [] ==> After(e.queue[0].applyTick, e.anchor.applyTick)
    ensures DueAt(e, at, TrueTimes(e.queue, at, e.anchor.applyTick))
    decreases |e.queue|
  {
    if e.queue != [] {
      var front := e.queue[0];
      var first := at + Sub(front.applyTick, e.anchor.applyTick);
      LaterTail(e.queue, ANY);
      FirstTime(at, e.anchor.applyTick, front.applyTick);
      TimesAreTrue(e.(queue := e.queue[1..], anchor := front), first);
    }
  }

  lemma FirstTime(at: int, tick: u32, next: u32)
    requires tick == Wrap(at)
    ensures Wrap(at + Sub(next, tick)) == next
  {
  }
}

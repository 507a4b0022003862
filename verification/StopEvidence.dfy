// What a confirmed stop proves about the two buses, over every run: the order of the
// frames that were really completed, and that nothing but stops was sent meanwhile.
module StopEvidence {
  import opened Words
  import opened Optional
  import opened SharedBus
  import opened BusRouter
  import opened MotorPackets
  import opened SystemStop

  /** What may happen at one bus router. */
  datatype BusEvent =
    | Submit(kind: Work, bytes: seq<u8>, us: u32, deadlineUs: u32, budgetUs: u32)
    | Take(us: u32, availableUs: u32)
    | Finish(token: u32, us: u32, transportOk: bool)
    | Watch(us: u32)
    | Inhibit
    | Withdraw(k: Work)
    | Recover(uartIdle: bool)
    | Resume(confirmed: bool)

  datatype Event =
    | Left(event: BusEvent)
    | Right(event: BusEvent)
    | Begin(leftPose: ArmPose, rightPose: ArmPose, valid: bool, preserve: bool, us: u32, ms: u32, config: StopConfig)
    | Poll(proof: Option<Proof>, us: u32, ms: u32)

  /** A bus with its record: the receipts of all completed transfers, the packets handed
      over since the stop began, and whether it was opened to motion again since. */
  datatype Ledger = Ledger(router: RouterState, receipts: seq<Receipt>, sent: seq<Dispatch>, resumed: bool, beganAt: nat)

  datatype World = World(stop: StopState, left: Ledger, right: Ledger, doneLeft: nat, doneRight: nat, proof: Option<Proof>, provedMs: u32)

  function BusStep(r: RouterState, e: BusEvent): RouterState {
    match e
    case Submit(kind, bytes, us, deadline, budget) => Submitted(r, kind, bytes, us, deadline, budget).0
    case Take(us, available) => Next(r, us, available).0
    case Finish(token, us, ok) => Finished(r, token, us, ok).0
    case Watch(us) => r.(bus := Polled(r.bus, us))
    case Inhibit => Silenced(r)
    case Withdraw(k) => r.(jobs := r.jobs[k := r.jobs[k].(pending := false)])
    case Recover(idle) => r.(bus := Recovered(r.bus, idle).0)
    case Resume(confirmed) => Resumed(r, confirmed).0
  }

  function Completions(r: RouterState, e: BusEvent): seq<Receipt> {
    if e.Finish? && Finished(r, e.token, e.us, e.transportOk).1
    then [Finished(r, e.token, e.us, e.transportOk).0.receipt] else []
  }

  function Dispatches(r: RouterState, e: BusEvent): seq<Dispatch> {
    if e.Take? && Next(r, e.us, e.availableUs).1.Dispatch? then [Next(r, e.us, e.availableUs).1] else []
  }

  function Recorded(l: Ledger, e: BusEvent): Ledger {
    Ledger(BusStep(l.router, e), l.receipts + Completions(l.router, e), l.sent + Dispatches(l.router, e),
           l.resumed || (e.Resume? && Resumed(l.router, e.confirmed).1), l.beganAt)
  }

  function Both(w: World): SystemStop.Both {
    SystemStop.Both(w.stop, w.left.router, w.right.router)
  }

  function BeganHere(l: Ledger, r: RouterState): Ledger {
    Ledger(r, l.receipts, [], false, |l.receipts|)
  }

  function Step(w: World, e: Event): World {
    match e
    case Left(b) => w.(left := Recorded(w.left, b))
    case Right(b) => w.(right := Recorded(w.right, b))
    case Begin(lp, rp, valid, preserve, us, ms, c) =>
      var n := Begun(Both(w), lp, rp, valid, preserve, us, ms, c).0;
      if n.stop == w.stop then w
      else w.(stop := n.stop, left := BeganHere(w.left, n.left), right := BeganHere(w.right, n.right))
    case Poll(proof, us, ms) =>
      var n := PolledStop(Both(w), proof, us, ms);
      var marks := n.stop.actionsCompleted && !w.stop.actionsCompleted;
      w.(stop := n.stop, left := w.left.(router := n.left), right := w.right.(router := n.right),
         proof := proof, provedMs := ms,
         doneLeft := if marks then |w.left.receipts| else w.doneLeft,
         doneRight := if marks then |w.right.receipts| else w.doneRight)
  }

  function Run(w: World, events: seq<Event>): World
    decreases |events|
  {
    if events == [] then w else Run(Step(w, events[0]), events[1..])
  }

  const NEW_BUS: Ledger := Ledger(EMPTY_ROUTER, [], [], false, 0)
  const NEW_WORLD: World := World(IDLE_STOP, NEW_BUS, NEW_BUS, 0, 0, None, 0)

  // ---- records are honest ---------------------------------------------------

  /** Receipts carry strictly increasing tokens, none later than the bus's own; the last
      one is the router's receipt. */
  predicate Honest(l: Ledger) {
    && (forall i, j :: 0 <= i < j < |l.receipts| ==> l.receipts[i].token < l.receipts[j].token)
    && (forall i :: 0 <= i < |l.receipts| ==> if l.router.bus.active then l.receipts[i].token < l.router.bus.token
                                              else l.receipts[i].token <= l.router.bus.token)
    && (if l.receipts == [] then l.router.receipt.token == 0 else l.router.receipt == l.receipts[|l.receipts| - 1])
    && l.beganAt <= |l.receipts|
  }

  /** Events that complete nothing leave the receipt alone and never take a token back; a
      bus that turns active has taken a fresh one. */
  predicate Steady(r: RouterState, n: RouterState) {
    && n.receipt == r.receipt && n.bus.token >= r.bus.token
    && (n.bus.active ==> r.bus.active || n.bus.token > r.bus.token)
  }

  lemma NextIsSteady(r: RouterState, us: u32, available: u32)
    ensures Steady(r, Next(r, us, available).0)
  {
    var p := r.(bus := Polled(r.bus, us));
    if !p.bus.active && !p.bus.faulted {
      DispatchIsSound(p, 0, us, available);
    }
  }

  lemma OthersAreSteady(r: RouterState, e: BusEvent)
    requires !e.Take? && Completions(r, e) == []
    ensures Steady(r, BusStep(r, e))
  {
  }

  lemma SteadyKeepsHonest(l: Ledger, n: Ledger)
    requires Honest(l) && Steady(l.router, n.router) && n.receipts == l.receipts && n.beganAt <= |l.receipts|
    ensures Honest(n)
  {
  }

  lemma CompletionKeepsHonest(l: Ledger, e: BusEvent)
    requires Honest(l) && Completions(l.router, e) != []
    ensures Honest(Recorded(l, e))
  {
  }

  lemma RecordKeepsHonest(l: Ledger, e: BusEvent)
    requires Honest(l)
    ensures Honest(Recorded(l, e))
  {
    hide Honest, BusStep, Completions;
    if Completions(l.router, e) != [] {
      CompletionKeepsHonest(l, e);
    } else {
      assert Steady(l.router, BusStep(l.router, e)) by {
        if e.Take? { TakeIsSteady(l.router, e); } else { OthersAreSteady(l.router, e); }
      }
      assert l.receipts + [] == l.receipts;
      BeganInside(l);
      SteadyKeepsHonest(l, Recorded(l, e));
    }
  }

  lemma TakeIsSteady(r: RouterState, e: BusEvent)
    requires e.Take?
    ensures Steady(r, BusStep(r, e))
  {
    NextIsSteady(r, e.us, e.availableUs);
  }

  lemma BeganInside(l: Ledger)
    requires Honest(l)
    ensures l.beganAt <= |l.receipts|
  {
  }

  // ---- what has been completed ----------------------------------------------

  /** Receipt i of the bus, later than the start of the stop, is this stop frame. */
  predicate Completed(l: Ledger, i: nat, frame: seq<u8>) {
    l.beganAt <= i < |l.receipts| && l.receipts[i].kind == STOP && l.receipts[i].bytes == frame
  }

  /** The zero speeds had been completed when the left hold was queued. */
  predicate ZeroSeen(w: World) {
    exists i :: 0 <= i < |w.left.receipts| && Completed(w.left, i, StopFrame())
                && w.left.receipts[i].token <= w.stop.leftHoldAfter
  }

  /** Before these points of the two records, the left bus completed the zero speeds and,
      later, the left hold; and the right bus completed the right hold. */
  predicate LeftDone(w: World, upTo: nat) {
    exists i, j :: 0 <= i < j < upTo && Completed(w.left, i, StopFrame()) && Completed(w.left, j, HoldFrame(w.stop.leftPose))
                   && w.left.receipts[i].token < w.left.receipts[j].token
  }

  predicate RightDone(w: World, upTo: nat) {
    exists k :: 0 <= k < upTo && Completed(w.right, k, HoldFrame(w.stop.rightPose))
  }

  predicate OlderBefore(l: Ledger, token: u32) {
    l.beganAt <= |l.receipts| && forall i :: 0 <= i < l.beganAt ==> l.receipts[i].token <= token
  }

  predicate Evident(w: World) {
    && Honest(w.left) && Honest(w.right)
    && (w.stop.phase != Idle ==>
          && OlderBefore(w.left, w.stop.leftZeroAfter) && OlderBefore(w.right, w.stop.rightHoldAfter)
          && (w.stop.leftHoldQueued ==> w.stop.armFeedbackValid && ZeroSeen(w))
          && (w.stop.actionsCompleted ==> LeftDone(w, w.doneLeft) && RightDone(w, w.doneRight) && w.stop.armFeedbackValid))
    && (w.stop.phase == Confirmed ==>
          w.stop.actionsCompleted && w.proof.Some? && ProofHolds(w.stop, w.proof.value, w.provedMs))
  }

  // ---- router events --------------------------------------------------------

  /** Records only grow. */
  predicate Grown(l: Ledger, n: Ledger) {
    l.receipts <= n.receipts && n.beganAt == l.beganAt
  }

  lemma GrownKeepsEvident(w: World, n: World)
    requires Evident(w) && Grown(w.left, n.left) && Grown(w.right, n.right) && Honest(n.left) && Honest(n.right)
    requires n == w.(left := n.left, right := n.right)
    ensures Evident(n)
  {
    hide Honest, StopFrame, HoldFrame, ProofHolds;
    assert forall i, f :: 0 <= i && Completed(w.left, i, f) ==> Completed(n.left, i, f) && n.left.receipts[i] == w.left.receipts[i];
    assert forall i, f :: 0 <= i && Completed(w.right, i, f) ==> Completed(n.right, i, f);
    if w.stop.phase != Idle && w.stop.leftHoldQueued {
      var i :| 0 <= i < |w.left.receipts| && Completed(w.left, i, StopFrame())
               && w.left.receipts[i].token <= w.stop.leftHoldAfter;
      assert Completed(n.left, i, StopFrame());
    }
    if w.stop.phase != Idle && w.stop.actionsCompleted {
      var i, j :| 0 <= i < j < w.doneLeft && Completed(w.left, i, StopFrame()) && Completed(w.left, j, HoldFrame(w.stop.leftPose))
                  && w.left.receipts[i].token < w.left.receipts[j].token;
      assert Completed(n.left, i, StopFrame()) && Completed(n.left, j, HoldFrame(n.stop.leftPose));
      var k :| 0 <= k < w.doneRight && Completed(w.right, k, HoldFrame(w.stop.rightPose));
      assert Completed(n.right, k, HoldFrame(n.stop.rightPose));
    }
  }

  lemma BusKeepsEvident(w: World, e: Event)
    requires Evident(w) && (e.Left? || e.Right?)
    ensures Evident(Step(w, e))
  {
    hide Honest, OlderBefore, ZeroSeen, LeftDone, RightDone, ProofHolds, BusStep, Completions, Dispatches;
    if e.Left? { RecordKeepsHonest(w.left, e.event); } else { RecordKeepsHonest(w.right, e.event); }
    GrownKeepsEvident(w, Step(w, e));
  }

  // ---- begin ----------------------------------------------------------------

  lemma BeginIsSteady(b: SystemStop.Both, lp: ArmPose, rp: ArmPose, valid: bool, preserve: bool, us: u32, ms: u32, c: StopConfig)
    ensures var n := Begun(b, lp, rp, valid, preserve, us, ms, c).0;
            && Steady(b.left, n.left) && Steady(b.right, n.right)
            && (n.stop != b.stop ==> b.stop.phase == Idle && n.stop.phase == Pending && !n.stop.leftHoldQueued
                                     && !n.stop.actionsCompleted && n.stop.leftZeroAfter == b.left.bus.token
                                     && n.stop.rightHoldAfter == b.right.bus.token
                                     && n.left.inhibited && n.right.inhibited)
            && (n.stop == b.stop ==> n == b)
  {
    hide StopFrame, HoldFrame, SubmitWellFormed, ValidStopConfig, Reachable;
  }

  lemma BeginKeepsEvident(w: World, e: Event)
    requires Evident(w) && e.Begin?
    ensures Evident(Step(w, e))
  {
    hide Begun, Steady, ZeroSeen, LeftDone, RightDone, ProofHolds, Honest;
    var n := Step(w, e);
    BeginIsSteady(Both(w), e.leftPose, e.rightPose, e.valid, e.preserve, e.us, e.ms, e.config);
    if n != w {
      SteadyKeepsHonest(w.left, n.left);
      SteadyKeepsHonest(w.right, n.right);
      TokensAreBounded(w.left);
      TokensAreBounded(w.right);
    }
  }

  lemma TokensAreBounded(l: Ledger)
    requires Honest(l)
    ensures forall i :: 0 <= i < |l.receipts| ==> l.receipts[i].token <= l.router.bus.token
  {
  }

  // ---- poll -----------------------------------------------------------------

  /** What the router reports as received is the last entry of the record, and it is later
      than every entry up to the token asked for. */
  lemma ReceivedIsRecorded(l: Ledger, after: u32, frame: seq<u8>)
    requires Honest(l) && Received(l.router, after, frame) && OlderBefore(l, after)
    ensures var last := |l.receipts| - 1;
            && last >= 0 && Completed(l, last, frame) && l.receipts[last].token > after
            && l.receipts[last].token <= l.router.bus.token
            && forall i :: 0 <= i < |l.receipts| && l.receipts[i].token <= after ==> i < last
  {
    var last := |l.receipts| - 1;
    assert l.router.receipt == l.receipts[last];
  }

  lemma HoldIsSteady(b: SystemStop.Both, us: u32)
    ensures var q := LeftHoldQueued(b, us);
            && Steady(b.left, q.left) && q.right == b.right
            && q.stop == b.stop.(leftHoldAfter := q.stop.leftHoldAfter, leftHoldQueued := q.stop.leftHoldQueued)
            && (b.stop.leftHoldQueued ==> q.stop == b.stop)
            && (q.stop.leftHoldQueued && !b.stop.leftHoldQueued ==>
                  b.stop.armFeedbackValid && Received(b.left, b.stop.leftZeroAfter, StopFrame())
                  && q.stop.leftHoldAfter == b.left.bus.token)
            && (b.left.inhibited ==> q.left.inhibited)
  {
    hide StopFrame, HoldFrame, SubmitWellFormed;
  }

  lemma HoldQueuedAfterZero(w: World, q: SystemStop.Both, us: u32)
    requires Evident(w) && w.stop.phase != Idle && q == LeftHoldQueued(Both(w), us)
    ensures var n := w.(stop := q.stop, left := w.left.(router := q.left));
            Honest(n.left) && (n.stop.leftHoldQueued ==> n.stop.armFeedbackValid && ZeroSeen(n))
  {
    hide LeftHoldQueued, LeftDone, RightDone, ProofHolds, StopFrame, Honest, Steady, OlderBefore, Received;
    HoldIsSteady(Both(w), us);
    var n := w.(stop := q.stop, left := w.left.(router := q.left));
    BeganInside(w.left);
    SteadyKeepsHonest(w.left, n.left);
    if q.stop.leftHoldQueued && !w.stop.leftHoldQueued {
      ReceivedIsRecorded(w.left, w.stop.leftZeroAfter, StopFrame());
      assert Completed(n.left, |w.left.receipts| - 1, StopFrame());
    } else if q.stop.leftHoldQueued {
      var i :| 0 <= i < |w.left.receipts| && Completed(w.left, i, StopFrame())
               && w.left.receipts[i].token <= w.stop.leftHoldAfter;
      assert Completed(n.left, i, StopFrame());
    }
  }

  /** When everything is written, the records hold the whole sequence. */
  lemma WrittenIsDone(n: World)
    requires Honest(n.left) && Honest(n.right) && ZeroSeen(n) && Written(Both(n))
    requires OlderBefore(n.right, n.stop.rightHoldAfter)
    ensures LeftDone(n, |n.left.receipts|) && RightDone(n, |n.right.receipts|)
  {
    hide Honest, StopFrame, HoldFrame, OlderBefore, Received;
    var i :| 0 <= i < |n.left.receipts| && Completed(n.left, i, StopFrame())
             && n.left.receipts[i].token <= n.stop.leftHoldAfter;
    ReceivedIsLast(n.left, n.stop.leftHoldAfter, HoldFrame(n.stop.leftPose));
    TokensIncrease(n.left, i, |n.left.receipts| - 1);
    assert Completed(n.left, |n.left.receipts| - 1, HoldFrame(n.stop.leftPose));
    ReceivedIsRecorded(n.right, n.stop.rightHoldAfter, HoldFrame(n.stop.rightPose));
    assert Completed(n.right, |n.right.receipts| - 1, HoldFrame(n.stop.rightPose));
  }

  lemma ReceivedIsLast(l: Ledger, after: u32, frame: seq<u8>)
    requires Honest(l) && Received(l.router, after, frame)
    ensures var last := |l.receipts| - 1;
            last >= 0 && l.receipts[last].kind == STOP && l.receipts[last].bytes == frame && l.receipts[last].token > after
  {
  }

  lemma TokensIncrease(l: Ledger, i: nat, j: nat)
    requires Honest(l) && i < |l.receipts| && j < |l.receipts| && l.receipts[i].token < l.receipts[j].token
    ensures i < j
  {
  }

  lemma PollKeepsEvident(w: World, e: Event)
    requires Evident(w) && e.Poll?
    ensures Evident(Step(w, e))
  {
    hide LeftHoldQueued, Written, ProofHolds, Honest, OlderBefore, StopFrame, HoldFrame;
    if w.stop.phase != Idle {
      var q := LeftHoldQueued(Both(w), e.us);
      var n := w.(stop := q.stop, left := w.left.(router := q.left));
      HoldIsSteady(Both(w), e.us);
      HoldQueuedAfterZero(w, q, e.us);
      OlderIgnoresRouter(w.left, n.left, w.stop.leftZeroAfter);
      var written := Written(q);
      assert Both(n) == q;
      if written {
        WrittenNeedsHold(q);
        WrittenIsDone(n);
      }
      JudgedFacts(q.stop, written, e.proof, e.ms);
      JudgedIsEvident(w, n, Step(w, e), written);
    }
  }

  lemma OlderIgnoresRouter(l: Ledger, n: Ledger, token: u32)
    requires n.receipts == l.receipts && n.beganAt == l.beganAt && OlderBefore(l, token)
    ensures OlderBefore(n, token)
  {
  }

  lemma WrittenNeedsHold(b: SystemStop.Both)
    requires Written(b)
    ensures b.stop.leftHoldQueued
  {
  }

  lemma JudgedFacts(s: StopState, written: bool, proof: Option<Proof>, now: u32)
    requires s.phase != Idle
    ensures var j := Judged(Marked(s, written, now), written, proof, now);
            && j == s.(phase := j.phase, actionsCompleted := s.actionsCompleted || written, actionsCompletedMs := j.actionsCompletedMs)
            && j.phase != Idle
            && (j.phase == Confirmed ==> written && proof.Some? && ProofHolds(j, proof.value, now))
  {
  }

  lemma JudgedIsEvident(w: World, n: World, r: World, written: bool)
    requires Evident(w) && w.stop.phase != Idle && n == w.(stop := n.stop, left := w.left.(router := n.left.router))
    requires Honest(n.left) && (n.stop.leftHoldQueued ==> n.stop.armFeedbackValid && ZeroSeen(n))
    requires n.stop == w.stop.(leftHoldAfter := n.stop.leftHoldAfter, leftHoldQueued := n.stop.leftHoldQueued)
    requires OlderBefore(n.left, w.stop.leftZeroAfter)
    requires written ==> n.stop.leftHoldQueued && LeftDone(n, |n.left.receipts|) && RightDone(n, |n.right.receipts|)
    requires r == n.(stop := r.stop, doneLeft := r.doneLeft, doneRight := r.doneRight, proof := r.proof, provedMs := r.provedMs)
    requires r.stop == n.stop.(phase := r.stop.phase, actionsCompleted := n.stop.actionsCompleted || written,
                               actionsCompletedMs := r.stop.actionsCompletedMs)
    requires if written && !w.stop.actionsCompleted
             then r.doneLeft == |n.left.receipts| && r.doneRight == |n.right.receipts|
             else r.doneLeft == w.doneLeft && r.doneRight == w.doneRight
    requires r.stop.phase == Confirmed ==> written && r.proof.Some? && ProofHolds(r.stop, r.proof.value, r.provedMs)
    ensures Evident(r)
  {
    hide ProofHolds, Honest, OlderBefore, StopFrame, HoldFrame;
    if r.stop.leftHoldQueued {
      var i :| 0 <= i < |n.left.receipts| && Completed(n.left, i, StopFrame())
               && n.left.receipts[i].token <= n.stop.leftHoldAfter;
      assert Completed(r.left, i, StopFrame());
    }
    if written && !w.stop.actionsCompleted {
      DoneIgnoresPhase(n, r, |n.left.receipts|, |n.right.receipts|);
    } else if w.stop.actionsCompleted {
      DoneIgnoresPhase(w, r, w.doneLeft, w.doneRight);
    }
  }

  lemma DoneIgnoresPhase(n: World, r: World, a: nat, b: nat)
    requires r.left.receipts == n.left.receipts && r.left.beganAt == n.left.beganAt && r.right == n.right
    requires r.stop.leftPose == n.stop.leftPose && r.stop.rightPose == n.stop.rightPose
    requires LeftDone(n, a) && RightDone(n, b)
    ensures LeftDone(r, a) && RightDone(r, b)
  {
    hide StopFrame, HoldFrame;
    var i, j :| 0 <= i < j < a && Completed(n.left, i, StopFrame()) && Completed(n.left, j, HoldFrame(n.stop.leftPose))
                && n.left.receipts[i].token < n.left.receipts[j].token;
    assert Completed(r.left, i, StopFrame()) && Completed(r.left, j, HoldFrame(r.stop.leftPose));
  }

  lemma StepKeepsEvident(w: World, e: Event)
    requires Evident(w)
    ensures Evident(Step(w, e))
  {
    hide Evident, Step;
    match e {
      case Left(_) => BusKeepsEvident(w, e);
      case Right(_) => BusKeepsEvident(w, e);
      case Begin(_, _, _, _, _, _, _) => BeginKeepsEvident(w, e);
      case Poll(_, _, _) => PollKeepsEvident(w, e);
    }
  }

  lemma {:induction false} RunIsEvident(w: World, events: seq<Event>)
    requires Evident(w)
    ensures Evident(Run(w, events))
    decreases |events|
  {
    hide Evident, Step;
    if events != [] {
      StepKeepsEvident(w, events[0]);
      RunIsEvident(Step(w, events[0]), events[1..]);
    }
  }

  /** A measurement good enough to confirm a stop whose writes were complete at `doneMs`:
      base, lift and arms at rest, the load held if it was to be, taken less than the age
      limit ago and strictly after that time. */
  predicate AtRestSince(p: Proof, preserve: bool, doneMs: u32, ageMs: u32, now: u32) {
    && p.baseStopped && p.liftHolding && p.armsHolding && (preserve ==> p.loadRetained)
    && Sub(now, p.observedMs) < ageMs && 0 < Sub(p.observedMs, doneMs) < HALF
  }

  lemma HoldingMeansAtRest(s: StopState, p: Proof, now: u32)
    ensures ProofHolds(s, p, now) <==> AtRestSince(p, s.preserveLoad, s.actionsCompletedMs, s.config.feedbackMaxAgeMs, now)
  {
  }

  /** Confirmation. In every run, a confirmed stop had usable arm poses; by the time its
      writes were noted complete, the left bus had completed the exact zero-speed frame and
      then, under a later token, the exact left hold, and the right bus the exact right
      hold, all since the stop began; and the last poll was given a measurement, fresh and
      strictly newer than that time, of base, lift and arms at rest and the load held if
      asked for. */
  lemma ConfirmedIsEvidenced(events: seq<Event>)
    ensures var w := Run(NEW_WORLD, events);
            w.stop.phase == Confirmed ==>
              && w.stop.armFeedbackValid
              && (exists i, j :: 0 <= i < j < w.doneLeft && Completed(w.left, i, StopFrame())
                                 && Completed(w.left, j, HoldFrame(w.stop.leftPose))
                                 && w.left.receipts[i].token < w.left.receipts[j].token)
              && (exists k :: 0 <= k < w.doneRight && Completed(w.right, k, HoldFrame(w.stop.rightPose)))
              && w.proof.Some? && var p := w.proof.value;
              && p.baseStopped && p.liftHolding && p.armsHolding && (w.stop.preserveLoad ==> p.loadRetained)
              && Sub(w.provedMs, p.observedMs) < w.stop.config.feedbackMaxAgeMs
              && 0 < Sub(p.observedMs, w.stop.actionsCompletedMs) < HALF
  {
    hide Run, StopFrame, HoldFrame, ProofHolds;
    RunIsEvident(NEW_WORLD, events);
    var w := Run(NEW_WORLD, events);
    if w.stop.phase == Confirmed { HoldingMeansAtRest(w.stop, w.proof.value, w.provedMs); }
  }

  /** Everything is written: no stop job waits on either bus, both are idle and healthy, and
      the last transfer of each was its arm's hold, under a later token than was asked for. */
  predicate AllWritten(b: SystemStop.Both) {
    && b.stop.leftHoldQueued
    && !b.left.jobs[0].pending && !b.left.bus.active && !b.left.bus.faulted
    && !b.right.jobs[0].pending && !b.right.bus.active && !b.right.bus.faulted
    && b.left.receipt == Receipt(b.left.receipt.token, b.left.receipt.us, STOP, HoldFrame(b.stop.leftPose))
    && b.left.receipt.token > b.stop.leftHoldAfter
    && b.right.receipt == Receipt(b.right.receipt.token, b.right.receipt.us, STOP, HoldFrame(b.stop.rightPose))
    && b.right.receipt.token > b.stop.rightHoldAfter
  }

  /** What a poll decides. A begun stop is confirmed after it exactly when everything is
      written and the poll was given a good measurement, later than the time the writes were
      first found complete; a confirmed stop without one is revoked, and so is one whose time
      has run out; otherwise the phase stays. The completion time is set once. */
  lemma PollConfirmsExactly(b: SystemStop.Both, proof: Option<Proof>, us: u32, now: u32)
    requires b.stop.phase != Idle
    ensures var n := PolledStop(b, proof, us, now);
            var doneMs := if b.stop.actionsCompleted then b.stop.actionsCompletedMs else now;
            var good := && AllWritten(LeftHoldQueued(b, us)) && proof.Some?
                        && AtRestSince(proof.value, b.stop.preserveLoad, doneMs, b.stop.config.feedbackMaxAgeMs, now);
            && (n.stop.phase == Confirmed <==> good)
            && (!good && (b.stop.phase == Confirmed || Sub(now, b.stop.startedMs) >= b.stop.config.timeoutMs) ==>
                  n.stop.phase == Unconfirmed)
            && (!good && b.stop.phase != Confirmed && Sub(now, b.stop.startedMs) < b.stop.config.timeoutMs ==>
                  n.stop.phase == b.stop.phase)
            && (n.stop.actionsCompleted <==> b.stop.actionsCompleted || AllWritten(LeftHoldQueued(b, us)))
            && (n.stop.actionsCompleted ==> n.stop.actionsCompletedMs == doneMs)
  {
    hide LeftHoldQueued, HoldFrame, ProofHolds;
    HoldIsSteady(b, us);
    var q := LeftHoldQueued(b, us);
    assert Written(q) <==> AllWritten(q);
    if proof.Some? { HoldingMeansAtRest(Marked(q.stop, Written(q), now), proof.value, now); }
  }

  /** When the zero speeds have gone out, and only then, the poll queues the left arm's hold. */
  lemma PollQueuesHold(b: SystemStop.Both, us: u32)
    ensures var q := LeftHoldQueued(b, us);
            var due := && b.stop.armFeedbackValid && !b.stop.leftHoldQueued && !b.left.jobs[0].pending
                       && !b.left.bus.active && !b.left.bus.faulted && b.left.receipt.token > b.stop.leftZeroAfter
                       && b.left.receipt.kind == STOP && b.left.receipt.bytes == StopFrame();
            && (!due ==> q == b)
            && (due ==> q.stop.leftHoldAfter == b.left.bus.token && q.right == b.right)
            && (due && 0 < b.stop.config.holdBudgetUs < b.stop.config.jobLifetimeUs < HALF ==>
                  && q.stop.leftHoldQueued && q.left.inhibited && q.left.bus.stopPending
                  && q.left.jobs[0] == Job(true, HoldFrame(b.stop.leftPose), Add(us, b.stop.config.jobLifetimeUs),
                                           b.stop.config.holdBudgetUs))
  {
    hide StopFrame, HoldFrame, Submitted;
    SubmitIsExact(b.left, STOP, HoldFrame(b.stop.leftPose), us, Add(us, b.stop.config.jobLifetimeUs), b.stop.config.holdBudgetUs);
    LaterBy(us, b.stop.config.jobLifetimeUs);
  }

  lemma LaterBy(us: u32, lifetime: u32)
    ensures Sub(Add(us, lifetime), us) == lifetime
  {
  }

  /** What begin does: once, with a configuration in range. Both buses are closed to motion and
      asked to stop whatever else is wrong; the zero speeds wait on a healthy left bus, and,
      with usable poses, the right hold on a healthy right one; it succeeds exactly when
      both wait. */
  lemma BeginQueues(b: SystemStop.Both, lp: ArmPose, rp: ArmPose, valid: bool, preserve: bool, us: u32, ms: u32, c: StopConfig)
    ensures var (n, ok) := Begun(b, lp, rp, valid, preserve, us, ms, c);
            var usable := valid && forall i :: 0 <= i < 6 ==> lp[i] < 4096 && rp[i] < 4096;
            var leftWell := !Polled(b.left.bus, us).faulted;
            var rightWell := !Polled(b.right.bus, us).faulted;
            var configured := && 0 < c.timeoutMs < HALF && 0 < c.feedbackMaxAgeMs < HALF && c.jobLifetimeUs < HALF
                              && 0 < c.zeroBudgetUs < c.jobLifetimeUs && 0 < c.holdBudgetUs < c.jobLifetimeUs;
            if b.stop.phase != Idle || !configured then n == b && !ok
            else
              && n.stop.phase == Pending && n.stop.startedMs == ms && n.stop.config == c && n.stop.preserveLoad == preserve
              && n.stop.armFeedbackValid == usable
              && n.stop.leftPose == (if usable then lp else [0, 0, 0, 0, 0, 0])
              && n.stop.rightPose == (if usable then rp else [0, 0, 0, 0, 0, 0])
              && !n.stop.leftHoldQueued && !n.stop.actionsCompleted && n.stop.actionsCompletedMs == n.stop.leftHoldAfter == 0
              && n.stop.leftZeroAfter == b.left.bus.token && n.stop.rightHoldAfter == b.right.bus.token
              && n.left.inhibited && n.left.bus.stopPending && n.right.inhibited && n.right.bus.stopPending
              && (leftWell ==> n.left.jobs[0] == Job(true, StopFrame(), Add(us, c.jobLifetimeUs), c.zeroBudgetUs))
              && (rightWell && usable ==> n.right.jobs[0] == Job(true, HoldFrame(rp), Add(us, c.jobLifetimeUs), c.holdBudgetUs))
              && (ok <==> leftWell && rightWell && usable)
  {
    hide StopFrame, HoldFrame, Submitted;
    SubmitIsExact(Silenced(b.left), STOP, StopFrame(), us, Add(us, c.jobLifetimeUs), c.zeroBudgetUs);
    SubmitIsExact(Silenced(b.right), STOP, HoldFrame(rp), us, Add(us, c.jobLifetimeUs), c.holdBudgetUs);
    LaterBy(us, c.jobLifetimeUs);
    assert Reachable(lp) && Reachable(rp) <==> forall i :: 0 <= i < 6 ==> lp[i] < 4096 && rp[i] < 4096;
  }

  // ---- nothing else meanwhile -----------------------------------------------

  /** Since the stop began this bus has carried nothing but stops, unless it was resumed. */
  predicate Quiet(l: Ledger) {
    !l.resumed ==> l.router.inhibited && forall i :: 0 <= i < |l.sent| ==> l.sent[i].Dispatch? && l.sent[i].kind == STOP
  }

  lemma BusStaysInhibited(r: RouterState, e: BusEvent)
    requires r.inhibited && !(e.Resume? && Resumed(r, e.confirmed).1)
    ensures BusStep(r, e).inhibited
    ensures forall d :: d in Dispatches(r, e) ==> d.Dispatch? && d.kind == STOP
  {
    hide Next, Finished, SubmitWellFormed;
    if e.Take? { InhibitedDispatchesStopOnly(r, e.us, e.availableUs); }
    if e.Finish? { FinishKeepsInhibit(r, e.token, e.us, e.transportOk); }
  }

  lemma RecordKeepsQuiet(l: Ledger, e: BusEvent)
    requires Quiet(l)
    ensures Quiet(Recorded(l, e))
  {
    hide BusStep, Dispatches, Resumed, Completions;
    if !Recorded(l, e).resumed {
      BusStaysInhibited(l.router, e);
      var ds := Dispatches(l.router, e);
      forall i | 0 <= i < |l.sent + ds|
        ensures (l.sent + ds)[i].Dispatch? && (l.sent + ds)[i].kind == STOP
      {
        if i >= |l.sent| { assert (l.sent + ds)[i] in ds; }
      }
    }
  }

  predicate BothQuiet(w: World) {
    w.stop.phase != Idle ==> Quiet(w.left) && Quiet(w.right)
  }

  lemma StepKeepsQuiet(w: World, e: Event)
    requires BothQuiet(w)
    ensures BothQuiet(Step(w, e))
  {
    hide Recorded, Begun, LeftHoldQueued, Written, ProofHolds, Steady;
    match e {
      case Left(b) => if w.stop.phase != Idle { RecordKeepsQuiet(w.left, b); }
      case Right(b) => if w.stop.phase != Idle { RecordKeepsQuiet(w.right, b); }
      case Begin(lp, rp, valid, preserve, us, ms, c) => BeginIsSteady(Both(w), lp, rp, valid, preserve, us, ms, c);
      case Poll(_, us, _) => HoldIsSteady(Both(w), us);
    }
  }

  /** Quiet. In every run, from the begin of a stop on, neither bus was handed anything but
      stop packets unless its router was resumed. */
  lemma {:induction false} OnlyStopsMeanwhile(w: World, events: seq<Event>)
    requires BothQuiet(w)
    ensures BothQuiet(Run(w, events))
    decreases |events|
  {
    hide BothQuiet, Step;
    if events != [] {
      StepKeepsQuiet(w, events[0]);
      OnlyStopsMeanwhile(Step(w, events[0]), events[1..]);
    }
  }

  // ---- a queued stop goes out -----------------------------------------------

  function BusRun(r: RouterState, events: seq<BusEvent>): RouterState
    decreases |events|
  {
    if events == [] then r else BusRun(BusStep(r, events[0]), events[1..])
  }

  /** The event is neither another stop in its place, nor its withdrawal, nor a turn that
      finds the bus free. */
  predicate LeavesStop(r: RouterState, e: BusEvent) {
    && !(e.Submit? && e.kind == STOP) && !(e.Withdraw? && e.k == STOP)
    && !(e.Take? && !Polled(r.bus, e.us).active && !Polled(r.bus, e.us).faulted)
  }

  predicate StopWaits(r: RouterState, events: seq<BusEvent>)
    decreases |events|
  {
    events == [] || (LeavesStop(r, events[0]) && StopWaits(BusStep(r, events[0]), events[1..]))
  }

  lemma StopIsLeft(r: RouterState, e: BusEvent)
    requires LeavesStop(r, e)
    ensures BusStep(r, e).jobs[0] == r.jobs[0]
  {
    hide NextFrom, SubmitWellFormed;
  }

  lemma {:induction false} StopStaysQueued(r: RouterState, events: seq<BusEvent>)
    requires StopWaits(r, events)
    ensures BusRun(r, events).jobs[0] == r.jobs[0]
    decreases |events|
  {
    hide BusStep, LeavesStop;
    if events != [] {
      StopIsLeft(r, events[0]);
      StopStaysQueued(BusStep(r, events[0]), events[1..]);
    }
  }

  /** A queued stop goes out. Whatever else is submitted, completed, recovered, inhibited or
      resumed after a stop was queued, the first turn that finds the bus free, if it comes
      while the stop's budget still fits before its deadline, sends its bytes. */
  lemma QueuedStopGoesOut(r: RouterState, bytes: seq<u8>, now: u32, deadline: u32, budget: u32,
                          events: seq<BusEvent>, us: u32, available: u32)
    requires Submitted(r, STOP, bytes, now, deadline, budget).1
    requires var q := Submitted(r, STOP, bytes, now, deadline, budget).0;
             StopWaits(q, events) && Free(BusRun(q, events))
    requires budget < Sub(deadline, us) < HALF && available < HALF
    ensures var f := BusRun(Submitted(r, STOP, bytes, now, deadline, budget).0, events);
            && Next(f, us, available).1 == Dispatch(STOP, bytes, f.bus.token + 1)
            && Next(f, us, available).0.activeBytes == bytes && Next(f, us, available).0.bus.owner == STOP
  {
    hide Submitted, BusRun, StopWaits, Next;
    SubmitIsExact(r, STOP, bytes, now, deadline, budget);
    var q := Submitted(r, STOP, bytes, now, deadline, budget).0;
    StopStaysQueued(q, events);
    StopGoesFirst(BusRun(q, events), us, available);
  }
}

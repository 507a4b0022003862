// One concrete run that ends in a confirmed stop: begin, the zero speeds, both holds, and a
// measurement taken after them.
module StopExample {
  import opened Words
  import opened Optional
  import opened SharedBus
  import opened BusRouter
  import opened MotorPackets
  import opened SystemStop
  import opened StopEvidence
  import Evidence = StopEvidence

  const CONFIG: StopConfig := StopConfig(10000, 2000, 2000, 1000, 200)
  const POSE: ArmPose := [100, 200, 300, 400, 500, 600]
  const REST: Proof := Proof(2, true, true, true, false)

  const BEGIN: Event := Begin(POSE, POSE, true, false, 0, 0, CONFIG)

  /** A bus with one stop waiting and nothing else in the way. */
  predicate Waiting(l: Ledger, bytes: seq<u8>, deadline: u32, token: u32) {
    && l.router.jobs[STOP] == Job(true, bytes, deadline, 2000)
    && !l.router.bus.active && !l.router.bus.faulted && l.router.bus.token == token
  }

  /** A bus whose last transfer was this stop. */
  predicate Carried(l: Ledger, bytes: seq<u8>, token: u32) {
    && !l.router.jobs[STOP].pending && !l.router.bus.active && !l.router.bus.faulted && l.router.bus.token == token
    && l.router.receipt.token == token && l.router.receipt.kind == STOP && l.router.receipt.bytes == bytes
  }

  /** A turn and a completion carry the waiting stop. */
  lemma StopIsCarried(l: Ledger, bytes: seq<u8>, deadline: u32, token: u32, us: u32)
    requires Waiting(l, bytes, deadline, token) && token < 10 && us + 3000 <= deadline < HALF
    ensures Carried(Recorded(Recorded(l, Take(us, 0)), Finish(token + 1, us + 1000, true)), bytes, token + 1)
  {
    hide Next;
    StopGoesFirst(l.router, us, 0);
  }

  lemma BeginWaits(w: World)
    requires w == NEW_WORLD
    ensures var n := Step(w, BEGIN);
            && Waiting(n.left, StopFrame(), 10000, 0) && Waiting(n.right, HoldFrame(POSE), 10000, 0)
            && n.stop.phase == Pending && n.stop.armFeedbackValid && n.stop.leftPose == POSE && n.stop.rightPose == POSE
            && !n.stop.leftHoldQueued && !n.stop.actionsCompleted && n.stop.config == CONFIG && n.stop.startedMs == 0
            && n.stop.leftZeroAfter == 0 && n.stop.rightHoldAfter == 0 && !n.stop.preserveLoad
  {
    hide Begun, StopFrame, HoldFrame;
    BeginQueues(Evidence.Both(w), POSE, POSE, true, false, 0, 0, CONFIG);
    BeginIsSteady(Evidence.Both(w), POSE, POSE, true, false, 0, 0, CONFIG);
    BeginIdles(Evidence.Both(w));
  }

  lemma BeginIdles(b: SystemStop.Both)
    requires b == Evidence.Both(NEW_WORLD)
    ensures var n := Begun(b, POSE, POSE, true, false, 0, 0, CONFIG).0;
            && !n.left.bus.active && !n.left.bus.faulted && n.left.bus.token == 0 && n.left.receipt == EMPTY_ROUTER.receipt
            && !n.right.bus.active && !n.right.bus.faulted && n.right.bus.token == 0
            && !n.stop.leftHoldQueued && !n.stop.actionsCompleted
  {
    hide StopFrame, HoldFrame;
  }

  /** The zero speeds carried, a poll queues the left hold. */
  lemma HoldIsQueued(w: World)
    requires Carried(w.left, StopFrame(), 1) && w.stop.phase == Pending && w.stop.armFeedbackValid && !w.stop.leftHoldQueued
    requires w.stop.leftZeroAfter == 0 && w.stop.config == CONFIG && w.stop.startedMs == 0 && !w.stop.actionsCompleted
    ensures var n := Step(w, Poll(None, 2000, 1));
            && Waiting(n.left, HoldFrame(w.stop.leftPose), 12000, 1) && n.right == w.right
            && n.stop == w.stop.(leftHoldQueued := true, leftHoldAfter := 1)
  {
    hide StopFrame, HoldFrame, LeftHoldQueued, AllWritten;
    PollQueuesHold(Evidence.Both(w), 2000);
    HoldIsSteady(Evidence.Both(w), 2000);
    HoldLeavesBus(Evidence.Both(w), 2000);
    PollConfirmsExactly(Evidence.Both(w), None, 2000, 1);
    NotYetWritten(LeftHoldQueued(Evidence.Both(w), 2000));
  }

  lemma NotYetWritten(b: SystemStop.Both)
    requires b.left.jobs[0].pending
    ensures !AllWritten(b) && !Written(b)
  {
  }

  lemma HoldLeavesBus(b: SystemStop.Both, us: u32)
    ensures var q := LeftHoldQueued(b, us);
            !b.left.bus.active ==> !q.left.bus.active && q.left.bus.faulted == b.left.bus.faulted && q.left.bus.token == b.left.bus.token
  {
    hide StopFrame, HoldFrame;
  }

  /** Both holds carried, one poll notes it and the next, given a measurement, confirms. */
  lemma StopIsConfirmed(w: World)
    requires Carried(w.left, HoldFrame(w.stop.leftPose), 2) && Carried(w.right, HoldFrame(w.stop.rightPose), 1)
    requires w.stop.phase == Pending && w.stop.leftHoldQueued && w.stop.leftHoldAfter == 1 && w.stop.rightHoldAfter == 0
    requires !w.stop.actionsCompleted && w.stop.config == CONFIG && !w.stop.preserveLoad && w.stop.startedMs == 0
    ensures Step(Step(w, Poll(None, 5000, 1)), Poll(Some(REST), 6000, 3)).stop.phase == Confirmed
  {
    hide HoldFrame;
    PollConfirmsExactly(Evidence.Both(w), None, 5000, 1);
    var n := Step(w, Poll(None, 5000, 1));
    PollConfirmsExactly(Evidence.Both(n), Some(REST), 6000, 3);
  }

  const STOPPED: seq<Event> := [
    BEGIN, Left(Take(0, 0)), Left(Finish(1, 1000, true)), Poll(None, 2000, 1),
    Right(Take(0, 0)), Right(Finish(1, 1000, true)), Left(Take(3000, 0)), Left(Finish(2, 4000, true)),
    Poll(None, 5000, 1), Poll(Some(REST), 6000, 3)]

  /** The run is confirmed, so the confirmation theorem speaks of real runs. */
  lemma StopsDoConfirm()
    ensures Run(NEW_WORLD, STOPPED).stop.phase == Confirmed
  {
    hide Step, Run, StopFrame, HoldFrame, Recorded, Waiting, Carried;
    var w1 := Step(NEW_WORLD, BEGIN);
    BeginWaits(NEW_WORLD);
    StopIsCarried(w1.left, StopFrame(), 10000, 0, 0);
    var w3 := Step(Step(w1, Left(Take(0, 0))), Left(Finish(1, 1000, true)));
    LeftTwice(w1, Take(0, 0), Finish(1, 1000, true));
    HoldIsQueued(w3);
    var w4 := Step(w3, Poll(None, 2000, 1));
    StopIsCarried(w4.right, HoldFrame(POSE), 10000, 0, 0);
    var w6 := Step(Step(w4, Right(Take(0, 0))), Right(Finish(1, 1000, true)));
    RightTwice(w4, Take(0, 0), Finish(1, 1000, true));
    StopIsCarried(w6.left, HoldFrame(POSE), 12000, 1, 3000);
    var w8 := Step(Step(w6, Left(Take(3000, 0))), Left(Finish(2, 4000, true)));
    LeftTwice(w6, Take(3000, 0), Finish(2, 4000, true));
    StopIsConfirmed(w8);
    Unrolled(w1, w3, w4, w6, w8);
  }

  lemma LeftTwice(w: World, a: BusEvent, b: BusEvent)
    ensures var n := Step(Step(w, Left(a)), Left(b));
            n.left == Recorded(Recorded(w.left, a), b) && n.right == w.right && n.stop == w.stop
  {
    hide Recorded;
  }

  lemma RightTwice(w: World, a: BusEvent, b: BusEvent)
    ensures var n := Step(Step(w, Right(a)), Right(b));
            n.right == Recorded(Recorded(w.right, a), b) && n.left == w.left && n.stop == w.stop
  {
    hide Recorded;
  }

  lemma RunSplits(w: World, e: Event, rest: seq<Event>)
    ensures Run(w, [e] + rest) == Run(Step(w, e), rest)
  {
    assert ([e] + rest)[1..] == rest;
  }

  lemma Unrolled(w1: World, w3: World, w4: World, w6: World, w8: World)
    requires w1 == Step(NEW_WORLD, BEGIN) && w3 == Step(Step(w1, Left(Take(0, 0))), Left(Finish(1, 1000, true)))
    requires w4 == Step(w3, Poll(None, 2000, 1)) && w6 == Step(Step(w4, Right(Take(0, 0))), Right(Finish(1, 1000, true)))
    requires w8 == Step(Step(w6, Left(Take(3000, 0))), Left(Finish(2, 4000, true)))
    ensures Run(NEW_WORLD, STOPPED) == Step(Step(w8, Poll(None, 5000, 1)), Poll(Some(REST), 6000, 3))
  {
    hide Step;
    var s := STOPPED;
    forall i | 0 <= i < 10 ensures s[i..] == [s[i]] + s[i + 1..] {}
    RunSplits(NEW_WORLD, s[0], s[1..]);
    RunSplits(w1, s[1], s[2..]);
    RunSplits(Step(w1, s[1]), s[2], s[3..]);
    RunSplits(w3, s[3], s[4..]);
    RunSplits(w4, s[4], s[5..]);
    RunSplits(Step(w4, s[4]), s[5], s[6..]);
    RunSplits(w6, s[6], s[7..]);
    RunSplits(Step(w6, s[6]), s[7], s[8..]);
    RunSplits(w8, s[8], s[9..]);
    RunSplits(Step(w8, s[8]), s[9], s[10..]);
    assert s == s[0..] && s[10..] == [];
  }
}

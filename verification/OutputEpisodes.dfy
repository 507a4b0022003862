// What begins and ends a stop episode of the output: the completions that count as written,
// the conditions under which it is rearmed, and what it starts over with.
module OutputEpisodes {
  import opened Words
  import opened Optional
  import opened SharedBus
  import opened BusRouter
  import opened MobileOutput
  import opened MotorPackets
  import Plan = BusSchedule
  import Sup = MobileSupervisor
  import Laws = SupervisorLaws
  import Lifts = LiftController
  import opened LiftEndpoint

  /** The report names the work whose transfer the healthy bus finished last. */
  predicate Reports(o: Output, kind: Work) {
    !o.router.bus.active && !o.router.bus.faulted && o.router.bus.owner == kind
  }

  /** A lift waiting to be told zero has now been. */
  predicate ToldZero(o: Output, c: Output, ms: u32) {
    && (o.lift.None? ==> c.lift.None?)
    && (o.lift.Some? ==>
          var l := o.lift.value.lift;
          && c.lift.Some?
          && c.lift.value == o.lift.value.(lift := if l.state == Lifts.HoldPending && !l.zeroSent
                                                   then l.(zeroSent := true, zeroSentMs := ms) else l))
  }

  /** A report is counted when it names the finished work, and otherwise changes nothing; only
      a stop's can count as the written stop, and only a stop's or the lift's can tell the
      lift zero. */
  lemma ReportsAreCounted(o: Output, kind: Work, ms: u32)
    ensures var c := CompletedOutput(o, kind, ms);
            && (!Reports(o, kind) ==> c == o)
            && (Reports(o, kind) ==>
                  && c == o.(lift := c.lift, stopWritten := c.stopWritten, stopWrittenMs := c.stopWrittenMs,
                             writesCompleted := if o.writesCompleted == U32_MAX then U32_MAX else o.writesCompleted + 1)
                  && (kind != STOP ==> c.stopWritten == o.stopWritten && c.stopWrittenMs == o.stopWrittenMs)
                  && (kind != STOP && kind != LIFT ==> c.lift == o.lift))
  {
  }

  /** The written stop. Reporting the stop frame notes the stop as written now, and tells the
      lift zero. */
  lemma WrittenStopIsNoted(o: Output, ms: u32)
    requires Reports(o, STOP) && o.router.activeBytes == StopFrame()
    ensures var c := CompletedOutput(o, STOP, ms); c.stopWritten && c.stopWrittenMs == ms && ToldZero(o, c, ms)
  {
    StopFrameBytes();
  }

  lemma StopFrameBytes()
    ensures StopFrame()[5] == 46 && StopFrame()[16] == 11 && StopFrame()[17] == 0 && StopFrame()[18] == 0
  {
    EntryOfLast(MOBILE_IDS, [0, 0, 0, 0]);
  }

  lemma EntryOfLast(ids: seq<u8>, words: seq<u16>)
    requires |ids| == |words| && 0 < |ids| <= 6
    ensures var b := SyncWrite(SPEED_ADDRESS, ids, words);
            && b[5] == SPEED_ADDRESS && b[3 * |ids| + 4] == ids[|ids| - 1]
            && b[3 * |ids| + 5..3 * |ids| + 7] == Bytes16(words[|ids| - 1])
  {
    EntryAtEnd(ids, words);
    var e := Entries(ids, words);
    var b := SyncWrite(SPEED_ADDRESS, ids, words);
    assert b[7..7 + 3 * |ids|] == e;
    assert b[3 * |ids| + 5..3 * |ids| + 7] == e[3 * |ids| - 2..];
    assert b[3 * |ids| + 4] == e[3 * |ids| - 3];
  }

  lemma {:induction false} EntryAtEnd(ids: seq<u8>, words: seq<u16>)
    requires |ids| == |words| > 0
    ensures var e := Entries(ids, words); e[3 * |ids| - 3] == ids[|ids| - 1] && e[3 * |ids| - 2..] == Bytes16(words[|ids| - 1])
    decreases |ids|
  {
    var e := Entries(ids, words);
    if |ids| == 1 {
      assert Entries(ids[1..], words[1..]) == [];
      assert e == [ids[0]] + Bytes16(words[0]);
    } else {
      EntryAtEnd(ids[1..], words[1..]);
      assert e[3..] == Entries(ids[1..], words[1..]);
      assert e[3 * |ids| - 2..] == e[3..][3 * |ids| - 5..];
    }
  }

  /** A lift packet reported as finished tells the lift zero exactly when its speed is zero. */
  lemma LiftPacketIsNoted(o: Output, v: int, ms: u32)
    requires -32767 <= v <= 32767
    requires Reports(o, LIFT) && o.router.activeBytes == SpeedFrame(LIFT_IDS, [v])
    ensures var c := CompletedOutput(o, LIFT, ms); if v == 0 then ToldZero(o, c, ms) else c.lift == o.lift
  {
    EntryOfLast(LIFT_IDS, SpeedWords([v]));
    var p := o.router.activeBytes;
    assert p[8..10] == Bytes16(SpeedWord(v));
    assert p[8] == p[8..10][0] && p[9] == p[8..10][1];
  }

  /** Rearm, in every case. It is granted exactly with a proof, after a written stop and an
      episode to end, on an idle, healthy bus with no stop pending or queued, for a stopped
      supervisor that is measured at rest, by feedback strictly newer than the written stop,
      under a later session. Then a new episode starts: the supervisor ready with nothing to
      drive, the router open, the schedule at its start. */
  lemma RearmIsExact(o: Output, session: u32, epoch: u32, ms: u32, proof: bool)
    requires ValidConfig(o.config)
    ensures var (r, ok) := Rearmed(o, session, epoch, ms, proof);
            && (ok <==> && proof && o.stopWritten && o.stopRequested
                        && !o.router.bus.active && !o.router.bus.faulted && !o.router.bus.stopPending
                        && !o.router.jobs[0].pending
                        && o.supervisor.state == Sup.StopLatched && Laws.AtRestNow(o.supervisor, ms)
                        && 0 < Sub(o.supervisor.feedback.observedMs, o.stopWrittenMs) < HALF
                        && session > o.supervisor.session)
            && (!ok ==> r == o)
            && (ok ==>
                  && r == o.(supervisor := o.supervisor.(session := session, haveSequence := false, state := Sup.Ready,
                                                         reason := Sup.NoReason, target := [0, 0, 0, 0]),
                             router := o.router.(inhibited := false), schedule := r.schedule,
                             stopRequested := false, stopWritten := false, fault := OutputOk, liftEngaged := false)
                  && r.schedule == Plan.ScheduleState(o.config.schedule, epoch, 0, [0, 0, 0], false))
  {
    hide Sup.Armed, Sup.Watched;
    Laws.ArmIsExact(o.supervisor, session, ms);
    Laws.WatchIsExact(o.supervisor, ms);
  }
}

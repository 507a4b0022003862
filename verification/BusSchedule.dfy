// Periodic plan of the shared bus: the arm slot at the start of each period is
// reserved, a guard separates other work from the next slot, and wheel, lift and
// feedback work falls due on its own period.
module BusSchedule {
  import opened Words
  import opened Division

  datatype ScheduleConfig = ScheduleConfig(
    armPeriodUs: u32, armReservedUs: u32, guardUs: u32,
    wheelsPeriodUs: u32, liftPeriodUs: u32, feedbackPeriodUs: u32, maximumPollGapUs: u32)

  type Countdowns = c: seq<u32> | |c| == 3 witness [0, 0, 0]

  datatype ScheduleState = ScheduleState(
    config: ScheduleConfig, lastPollUs: u32, phaseUs: u32, dueIn: Countdowns, faulted: bool)

  type DueBits = d: seq<bool> | |d| == 3 witness [false, false, false]

  const NOTHING_DUE: DueBits := [false, false, false]

  datatype Window = Window(availableUs: u32, due: DueBits, armReserved: bool, stopRequired: bool)

  predicate ValidConfig(c: ScheduleConfig) {
    && 0 < c.armPeriodUs <= 1000000
    && 0 < c.armReservedUs && 0 < c.guardUs && c.armReservedUs as int + c.guardUs < c.armPeriodUs
    && 0 < c.maximumPollGapUs <= c.armPeriodUs
    && c.armPeriodUs <= c.wheelsPeriodUs <= 1000000
    && c.armPeriodUs <= c.liftPeriodUs <= 1000000
    && c.armPeriodUs <= c.feedbackPeriodUs <= 1000000
  }

  function Period(c: ScheduleConfig, i: nat): u32
    requires i < 3
  {
    if i == 0 then c.wheelsPeriodUs else if i == 1 then c.liftPeriodUs else c.feedbackPeriodUs
  }

  /** A schedule starting at an epoch; a bad configuration gives none. */
  function Scheduled(c: ScheduleConfig, epoch: u32): ScheduleState {
    ScheduleState(c, epoch, 0, [0, 0, 0], false)
  }

  function CountedDown(dueIn: Countdowns, elapsed: u32): Countdowns {
    seq(3, i requires 0 <= i < 3 => if elapsed >= dueIn[i] then 0 else dueIn[i] - elapsed)
  }

  function Advanced(s: ScheduleState, now: u32): ScheduleState
    requires s.config.armPeriodUs > 0
  {
    var elapsed := Sub(now, s.lastPollUs);
    s.(lastPollUs := now, phaseUs := Add(s.phaseUs, elapsed) % s.config.armPeriodUs,
       dueIn := CountedDown(s.dueIn, elapsed))
  }

  function UntilArm(s: ScheduleState): int {
    s.config.armPeriodUs as int - s.phaseUs
  }

  predicate WindowOpen(s: ScheduleState) {
    s.phaseUs >= s.config.armReservedUs && UntilArm(s) > s.config.guardUs
  }

  function Reloaded(s: ScheduleState): ScheduleState {
    s.(dueIn := seq(3, i requires 0 <= i < 3 => if s.dueIn[i] == 0 then Period(s.config, i) else s.dueIn[i]))
  }

  function DueNow(s: ScheduleState): DueBits {
    seq(3, i requires 0 <= i < 3 => s.dueIn[i] == 0)
  }

  function PollSchedule(s: ScheduleState, now: u32): (ScheduleState, Window)
    requires s.config.armPeriodUs > 0
  {
    if s.faulted then (s, Window(0, NOTHING_DUE, false, true))
    else if Sub(now, s.lastPollUs) > s.config.maximumPollGapUs then
      (s.(faulted := true), Window(0, NOTHING_DUE, false, true))
    else
      var a := Advanced(s, now);
      if !WindowOpen(a) then (a, Window(0, NOTHING_DUE, a.phaseUs < a.config.armReservedUs, false))
      else (Reloaded(a), Window(UntilArm(a) - a.config.guardUs, DueNow(a), false, false))
  }

  class Schedule {
    var config: ScheduleConfig
    var lastPollUs: u32
    var phaseUs: u32
    const dueIn: array<u32>
    var faulted: bool

    ghost predicate Valid()
      reads this
    {
      dueIn.Length == 3 && ValidConfig(config)
    }

    ghost function State(): ScheduleState
      requires Valid()
      reads this, dueIn
    {
      ScheduleState(config, lastPollUs, phaseUs, dueIn[..], faulted)
    }

    constructor (c: ScheduleConfig, epoch: u32)
      requires ValidConfig(c)
      ensures Valid() && fresh(dueIn)
      ensures State() == Scheduled(c, epoch)
    {
      config, lastPollUs, phaseUs, faulted := c, epoch, 0, false;
      dueIn := new u32[3](_ => 0);
    }

    /** Restarts the plan at a new epoch. */
    method Restart(epoch: u32)
      requires Valid()
      modifies this, dueIn
      ensures Valid() && config == old(config) && State() == Scheduled(config, epoch)
    {
      lastPollUs, phaseUs, faulted := epoch, 0, false;
      dueIn[0], dueIn[1], dueIn[2] := 0, 0, 0;
      assert dueIn[..] == [0, 0, 0];
    }

    method CountDown(elapsed: u32)
      requires Valid()
      modifies dueIn
      ensures dueIn[..] == CountedDown(old(dueIn[..]), elapsed)
    {
      for i := 0 to 3
        invariant forall k :: 0 <= k < i ==> dueIn[k] == old(if elapsed >= dueIn[k] then 0 else dueIn[k] - elapsed)
        invariant forall k :: i <= k < 3 ==> dueIn[k] == old(dueIn[k])
      {
        dueIn[i] := if elapsed >= dueIn[i] then 0 else dueIn[i] - elapsed;
      }
    }

    method ReportDue() returns (due: DueBits)
      requires Valid()
      modifies dueIn
      ensures due == DueNow(old(State()))
      ensures State() == Reloaded(old(State()))
    {
      var bits: seq<bool> := [];
      for i := 0 to 3
        invariant |bits| == i
        invariant forall k :: 0 <= k < i ==> bits[k] == old(dueIn[k] == 0)
        invariant forall k :: 0 <= k < i ==> dueIn[k] == old(if dueIn[k] == 0 then Period(config, k) else dueIn[k])
        invariant forall k :: i <= k < 3 ==> dueIn[k] == old(dueIn[k])
      {
        bits := bits + [dueIn[i] == 0];
        if dueIn[i] == 0 {
          dueIn[i] := Period(config, i);
        }
      }
      due := bits;
    }

    method Poll(now: u32) returns (w: Window)
      requires Valid()
      modifies this, dueIn
      ensures Valid() && config == old(config)
      ensures (State(), w) == PollSchedule(old(State()), now)
    {
      if faulted { return Window(0, NOTHING_DUE, false, true); }
      var elapsed := Sub(now, lastPollUs);
      if elapsed > config.maximumPollGapUs {
        faulted := true;
        return Window(0, NOTHING_DUE, false, true);
      }
      lastPollUs := now;
      phaseUs := Add(phaseUs, elapsed) % config.armPeriodUs;
      CountDown(elapsed);
      assert State() == Advanced(old(State()), now);
      if phaseUs < config.armReservedUs { return Window(0, NOTHING_DUE, true, false); }
      var untilArm := config.armPeriodUs - phaseUs;
      if untilArm <= config.guardUs { return Window(0, NOTHING_DUE, false, false); }
      var due := ReportDue();
      w := Window(untilArm - config.guardUs, due, false, false);
    }
  }

  // ---- many polls -----------------------------------------------------------

  /** The schedule after polls at these true times. */
  function Polls(s: ScheduleState, times: seq<int>): ScheduleState
    requires s.config.armPeriodUs > 0
    decreases |times|
  {
    if times == [] then s else Polls(PollSchedule(s, Wrap(times[0])).0, times[1..])
  }

  /** Consecutive polls, the first measured from `last`, are at most a gap apart. */
  predicate GapBounded(last: int, times: seq<int>, gap: nat)
    decreases |times|
  {
    times == [] || (last <= times[0] <= last + gap && GapBounded(times[0], times[1..], gap))
  }

  function LastTime(last: int, times: seq<int>): int {
    if times == [] then last else times[|times| - 1]
  }

  /** The phase is the true time since the epoch, modulo the period. */
  predicate InPhase(s: ScheduleState, epoch: int, last: int) {
    && ValidConfig(s.config) && !s.faulted && s.lastPollUs == Wrap(last)
    && s.phaseUs == (last - epoch) % s.config.armPeriodUs
  }

  lemma PhaseAdvances(phase: int, since: int, elapsed: int, period: int)
    requires period > 0 && phase == since % period
    ensures (phase + elapsed) % period == (since + elapsed) % period
  {
    var q := since / period;
    assert since + elapsed == phase + elapsed + q * period;
    ModAddMultiple(phase + elapsed, q, period);
  }

  lemma PollKeepsPhase(s: ScheduleState, epoch: int, last: int, now: int)
    requires InPhase(s, epoch, last) && last <= now <= last + s.config.maximumPollGapUs
    ensures InPhase(PollSchedule(s, Wrap(now)).0, epoch, now)
    ensures PollSchedule(s, Wrap(now)).0.config == s.config
  {
    SubWrap(now, last);
    PhaseAdvances(s.phaseUs, last - epoch, now - last, s.config.armPeriodUs);
  }

  /** Phase. Polled at most the configured gap apart, for however long and across any
      number of wraps of the 32-bit clock, the phase is (now - epoch) mod period. */
  lemma {:induction false} PhaseIsTrue(s: ScheduleState, epoch: int, last: int, times: seq<int>)
    requires InPhase(s, epoch, last) && GapBounded(last, times, s.config.maximumPollGapUs)
    ensures InPhase(Polls(s, times), epoch, LastTime(last, times))
    decreases |times|
  {
    if times != [] {
      PollKeepsPhase(s, epoch, last, times[0]);
      PhaseIsTrue(PollSchedule(s, Wrap(times[0])).0, epoch, times[0], times[1..]);
    }
  }

  /** Guard. Work that fits the reported window and starts at the poll ends at least the
      guard time before the next arm slot, which starts a whole number of periods after
      the epoch. */
  lemma WindowKeepsGuard(s: ScheduleState, epoch: int, last: int, now: int, budget: nat)
    requires InPhase(s, epoch, last) && last <= now <= last + s.config.maximumPollGapUs
    requires 0 < budget <= PollSchedule(s, Wrap(now)).1.availableUs
    ensures var slot := now - (now - epoch) % s.config.armPeriodUs + s.config.armPeriodUs;
            && (slot - epoch) % s.config.armPeriodUs == 0
            && now + budget + s.config.guardUs <= slot
            && now >= slot - s.config.armPeriodUs + s.config.armReservedUs
  {
    PollKeepsPhase(s, epoch, last, now);
    NextMultiple(now - epoch, s.config.armPeriodUs);
  }

  lemma NextMultiple(n: int, p: int)
    requires p > 0
    ensures (n - n % p + p) % p == 0
  {
    assert n - n % p + p == 0 + (n / p + 1) * p by {
      assert n == p * (n / p) + n % p;
      assert (n / p + 1) * p == p * (n / p) + p;
    }
    ModAddMultiple(0, n / p + 1, p);
  }

  /** A due bit for work kind i at the poll. */
  predicate DueAt(s: ScheduleState, i: nat, now: int)
    requires i < 3 && s.config.armPeriodUs > 0
  {
    PollSchedule(s, Wrap(now)).1.due[i]
  }

  /** Polls since a due bit leave at least the rest of its period on the countdown. */
  lemma {:induction false} CountdownIsSlow(s: ScheduleState, i: nat, last: int, times: seq<int>, at: int)
    requires i < 3 && ValidConfig(s.config) && !s.faulted && s.lastPollUs == Wrap(last)
    requires GapBounded(last, times, s.config.maximumPollGapUs) && at <= last
    requires s.dueIn[i] >= Period(s.config, i) - (last - at)
    ensures var r := Polls(s, times);
            && r.config == s.config && !r.faulted && r.lastPollUs == Wrap(LastTime(last, times))
            && r.dueIn[i] >= Period(s.config, i) - (LastTime(last, times) - at)
    decreases |times|
  {
    if times != [] {
      var now := times[0];
      SubWrap(now, last);
      CountdownIsSlow(PollSchedule(s, Wrap(now)).0, i, now, times[1..], at);
    }
  }

  /** Two due bits of the same kind are at least one of its periods apart. */
  lemma DueBitsArePeriodApart(s: ScheduleState, i: nat, last: int, first: int, between: seq<int>, second: int)
    requires i < 3 && ValidConfig(s.config) && !s.faulted && s.lastPollUs == Wrap(last)
    requires GapBounded(last, [first] + between + [second], s.config.maximumPollGapUs)
    requires DueAt(s, i, first)
    requires var s1 := PollSchedule(s, Wrap(first)).0;
             s1.config.armPeriodUs > 0 && Polls(s1, between).config.armPeriodUs > 0 && DueAt(Polls(s1, between), i, second)
    ensures second - first >= Period(s.config, i)
  {
    SubWrap(first, last);
    var s1 := PollSchedule(s, Wrap(first)).0;
    assert ([first] + between + [second])[1..] == between + [second];
    GapSplits(first, between, second, s.config.maximumPollGapUs);
    CountdownIsSlow(s1, i, first, between, first);
    SubWrap(second, LastTime(first, between));
  }

  lemma {:induction false} GapSplits(last: int, between: seq<int>, second: int, gap: nat)
    requires GapBounded(last, between + [second], gap)
    ensures GapBounded(last, between, gap)
    ensures LastTime(last, between) <= second <= LastTime(last, between) + gap
    ensures last <= LastTime(last, between)
    decreases |between|
  {
    if between == [] {
      assert between + [second] == [second];
    } else {
      assert (between + [second])[1..] == between[1..] + [second];
      GapSplits(between[0], between[1..], second, gap);
    }
  }

  // ---- what a poll reports, exactly -----------------------------------------

  /** In true time, `since` into its period: past the arm's own time, and before its guard. */
  predicate OpenAt(c: ScheduleConfig, since: int) {
    c.armReservedUs <= since && c.guardUs < c.armPeriodUs - since
  }

  /** The window. It is open exactly between the arm's reserved time and the guard before the
      next slot, and is then exactly what is left before that guard; the arm's time is
      reported as such. */
  lemma WindowIsExact(s: ScheduleState, epoch: int, last: int, now: int)
    requires InPhase(s, epoch, last) && last <= now <= last + s.config.maximumPollGapUs
    ensures var w := PollSchedule(s, Wrap(now)).1;
            var since := (now - epoch) % s.config.armPeriodUs;
            && !w.stopRequired && (w.armReserved <==> since < s.config.armReservedUs)
            && w.availableUs == (if OpenAt(s.config, since) then s.config.armPeriodUs - since - s.config.guardUs else 0)
            && (!OpenAt(s.config, since) ==> forall i :: 0 <= i < 3 ==> !w.due[i])
  {
    PollKeepsPhase(s, epoch, last, now);
  }

  /** Late polls. A poll later than the gap faults the plan, which then asks for a stop and
      reports nothing, for good; no other poll does. */
  lemma LatePollFaults(s: ScheduleState, now: u32)
    requires s.config.armPeriodUs > 0
    ensures var (n, w) := PollSchedule(s, now);
            && (w.stopRequired <==> s.faulted || Sub(now, s.lastPollUs) > s.config.maximumPollGapUs)
            && (n.faulted <==> w.stopRequired)
            && (w.stopRequired ==> w.availableUs == 0 && !w.armReserved && n == s.(faulted := true)
                                   && forall i :: 0 <= i < 3 ==> !w.due[i])
  {
  }

  /** What is left of the period that started at a true time. */
  function Left(period: u32, since: int): int {
    if since >= period then 0 else period - since
  }

  /** None of these polls reports work kind i as due. */
  predicate NoneDue(s: ScheduleState, i: nat, times: seq<int>)
    requires i < 3 && s.config.armPeriodUs > 0
    decreases |times|
  {
    times == [] || (!DueAt(s, i, times[0]) && NoneDue(PollSchedule(s, Wrap(times[0])).0, i, times[1..]))
  }

  lemma {:induction false} CountdownIsExact(s: ScheduleState, i: nat, last: int, times: seq<int>, at: int)
    requires i < 3 && ValidConfig(s.config) && !s.faulted && s.lastPollUs == Wrap(last)
    requires GapBounded(last, times, s.config.maximumPollGapUs) && at <= last && NoneDue(s, i, times)
    requires s.dueIn[i] == Left(Period(s.config, i), last - at)
    ensures var r := Polls(s, times);
            && r.config == s.config && !r.faulted && r.lastPollUs == Wrap(LastTime(last, times))
            && r.dueIn[i] == Left(Period(s.config, i), LastTime(last, times) - at)
    decreases |times|
  {
    if times != [] {
      SubWrap(times[0], last);
      CountdownIsExact(PollSchedule(s, Wrap(times[0])).0, i, times[0], times[1..], at);
    }
  }

  /** Due bits. After a due bit, and none of its kind since, a poll in an open window reports
      the next one exactly when at least one period has passed. */
  lemma DueBitsAreExact(s: ScheduleState, i: nat, epoch: int, last: int, first: int, between: seq<int>, second: int)
    requires i < 3 && InPhase(s, epoch, last)
    requires GapBounded(last, [first] + between + [second], s.config.maximumPollGapUs)
    requires DueAt(s, i, first)
    requires var s1 := PollSchedule(s, Wrap(first)).0;
             s1.config.armPeriodUs > 0 && NoneDue(s1, i, between) && Polls(s1, between).config.armPeriodUs > 0
    ensures DueAt(Polls(PollSchedule(s, Wrap(first)).0, between), i, second) <==>
              OpenAt(s.config, (second - epoch) % s.config.armPeriodUs)
              && second - first >= [s.config.wheelsPeriodUs, s.config.liftPeriodUs, s.config.feedbackPeriodUs][i]
  {
    SubWrap(first, last);
    PollKeepsPhase(s, epoch, last, first);
    var s1 := PollSchedule(s, Wrap(first)).0;
    assert ([first] + between + [second])[1..] == between + [second];
    GapSplits(first, between, second, s.config.maximumPollGapUs);
    CountdownIsExact(s1, i, first, between, first);
    PhaseIsTrue(s1, epoch, first, between);
    DueInWindow(Polls(s1, between), i, epoch, LastTime(first, between), second, first);
  }

  lemma DueInWindow(s: ScheduleState, i: nat, epoch: int, last: int, now: int, at: int)
    requires i < 3 && InPhase(s, epoch, last) && last <= now <= last + s.config.maximumPollGapUs && at <= last
    requires s.dueIn[i] == Left(Period(s.config, i), last - at)
    ensures DueAt(s, i, now) <==> OpenAt(s.config, (now - epoch) % s.config.armPeriodUs) && now - at >= Period(s.config, i)
  {
    SubWrap(now, last);
    PollKeepsPhase(s, epoch, last, now);
  }

  /** The first due bit of each kind comes in the first open window. */
  lemma FirstDueBits(c: ScheduleConfig, i: nat, epoch: int, before: seq<int>, now: int)
    requires i < 3 && ValidConfig(c) && GapBounded(epoch, before + [now], c.maximumPollGapUs)
    requires NoneDue(Scheduled(c, Wrap(epoch)), i, before)
    requires Polls(Scheduled(c, Wrap(epoch)), before).config.armPeriodUs > 0
    ensures DueAt(Polls(Scheduled(c, Wrap(epoch)), before), i, now) <==> OpenAt(c, (now - epoch) % c.armPeriodUs)
  {
    var s := Scheduled(c, Wrap(epoch));
    GapSplits(epoch, before, now, c.maximumPollGapUs);
    CountdownIsExact(s, i, epoch, before, epoch - 1000000);
    PhaseIsTrue(s, epoch, epoch, before);
    DueInWindow(Polls(s, before), i, epoch, LastTime(epoch, before), now, epoch - 1000000);
  }
}

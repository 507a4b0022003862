// One job slot per kind of work in front of a shared bus. STOP goes first, the others
// take turns; an expired job inhibits all motion rather than disappearing.
module BusRouter {
  import opened Words
  import opened SharedBus

  const PACKET_MAX: nat := 32

  datatype Job = Job(pending: bool, bytes: seq<u8>, deadlineUs: u32, budgetUs: u32)

  type Jobs = j: seq<Job> | |j| == 5 witness seq(5, _ => Job(false, [], 0, 0))

  const NO_JOB: Job := Job(false, [], 0, 0)
  const NO_JOBS: Jobs := [NO_JOB, NO_JOB, NO_JOB, NO_JOB, NO_JOB]

  /** Receipt of the last successful transfer. */
  datatype Receipt = Receipt(token: u32, us: u32, kind: Work, bytes: seq<u8>)

  datatype RouterState = RouterState(
    bus: BusState, jobs: Jobs, activeBytes: seq<u8>, expired: u32, inhibited: bool, cursor: nat, receipt: Receipt)

  const EMPTY_ROUTER: RouterState := RouterState(IDLE_BUS, NO_JOBS, [], 0, false, 0, Receipt(0, 0, STOP, []))

  datatype Dispatch = NoDispatch | Dispatch(kind: Work, bytes: seq<u8>, token: u32)

  // ---- submit ---------------------------------------------------------------

  /** Marks every motion job as no longer pending. */
  function WithoutMotion(jobs: Jobs): Jobs {
    [jobs[0], jobs[1].(pending := false), jobs[2].(pending := false), jobs[3].(pending := false),
     jobs[4].(pending := false)]
  }

  predicate SubmitWellFormed(bytes: seq<u8>, now: u32, deadline: u32, budget: u32) {
    && 0 < |bytes| <= PACKET_MAX
    && 0 < budget < HALF && 0 < Sub(deadline, now) < HALF && budget < Sub(deadline, now)
  }

  function Submitted(r: RouterState, kind: Work, bytes: seq<u8>, now: u32, deadline: u32, budget: u32): (RouterState, bool) {
    if !SubmitWellFormed(bytes, now, deadline, budget) then (r, false)
    else
      var p := r.(bus := Polled(r.bus, now));
      if p.bus.faulted || ((p.bus.stopPending || p.inhibited) && kind != STOP) then (p, false)
      else
        var job := Job(true, bytes, deadline, budget);
        if kind == STOP then
          (p.(inhibited := true, bus := StopRequested(p.bus), jobs := WithoutMotion(p.jobs)[0 := job]), true)
        else (p.(jobs := p.jobs[kind := job]), true)
  }

  // ---- next -----------------------------------------------------------------

  /** The i-th slot looked at: STOP, then the motion kinds starting after the cursor. */
  function SlotIndex(cursor: nat, i: nat): Work {
    if i == 0 then 0 else 1 + (cursor + i - 1) % 4
  }

  /** The job cannot finish before its deadline any more. */
  predicate Expired(job: Job, now: u32) {
    var remaining := Sub(job.deadlineUs, now);
    remaining == 0 || remaining >= HALF || job.budgetUs >= remaining
  }

  function DropExpired(r: RouterState, k: Work): RouterState {
    r.(jobs := r.jobs[k := r.jobs[k].(pending := false)], expired := Saturate(r.expired),
       inhibited := true, bus := StopRequested(r.bus))
  }

  function Dispatched(r: RouterState, k: Work, bus: BusState): RouterState {
    r.(bus := bus, activeBytes := r.jobs[k].bytes, jobs := r.jobs[k := r.jobs[k].(pending := false)], cursor := k % 4)
  }

  function NextFrom(r: RouterState, i: nat, now: u32, available: u32): (RouterState, Dispatch)
    requires i <= 5
    decreases 5 - i
  {
    if i == 5 then (r, NoDispatch)
    else
      var k := SlotIndex(r.cursor, i);
      if !r.jobs[k].pending || (r.inhibited && k != STOP) then NextFrom(r, i + 1, now, available)
      else if Expired(r.jobs[k], now) then NextFrom(DropExpired(r, k), i + 1, now, available)
      else
        var (bus, ok) := Acquired(r.bus, k, now, r.jobs[k].budgetUs, available);
        if !ok then NextFrom(r.(bus := bus), i + 1, now, available)
        else (Dispatched(r, k, bus), Dispatch(k, r.jobs[k].bytes, bus.token))
  }

  function Next(r: RouterState, now: u32, available: u32): (RouterState, Dispatch) {
    var p := r.(bus := Polled(r.bus, now));
    if p.bus.active || p.bus.faulted then (p, NoDispatch) else NextFrom(p, 0, now, available)
  }

  // ---- complete and resume --------------------------------------------------

  function Finished(r: RouterState, token: u32, now: u32, transportOk: bool): (RouterState, bool) {
    var (bus, ok) := Completed(r.bus, token, now, transportOk);
    if !ok then (r.(bus := bus), false)
    else (r.(bus := bus, receipt := Receipt(token, now, bus.owner, r.activeBytes)), true)
  }

  function Resumed(r: RouterState, confirmed: bool): (RouterState, bool) {
    if !confirmed || r.bus.active || r.bus.faulted || r.bus.stopPending || r.jobs[0].pending then (r, false)
    else (r.(inhibited := false), true)
  }

  /** Another owner of the bus closes it to everything but stops, and asks for one. */
  function Silenced(r: RouterState): RouterState {
    r.(inhibited := true, bus := StopRequested(r.bus))
  }

  // ---- the router object ----------------------------------------------------

  class Router {
    const bus: Bus
    const jobs: array<Job>
    var activeBytes: seq<u8>
    var expired: u32
    var inhibited: bool
    var cursor: nat
    var receipt: Receipt

    ghost predicate Valid() {
      jobs.Length == 5
    }

    ghost function State(): RouterState
      requires Valid()
      reads this, bus, jobs
    {
      RouterState(bus.State(), jobs[..], activeBytes, expired, inhibited, cursor, receipt)
    }

    constructor ()
      ensures Valid() && fresh(bus) && fresh(jobs)
      ensures State() == EMPTY_ROUTER
    {
      bus := new Bus();
      jobs := new Job[5](_ => NO_JOB);
      activeBytes, expired, inhibited, cursor, receipt := [], 0, false, 0, Receipt(0, 0, STOP, []);
    }

    /** Clears the pending flag of every kind but STOP. */
    method ClearMotion()
      requires Valid()
      modifies jobs
      ensures jobs[..] == WithoutMotion(old(jobs[..]))
    {
      for i := 1 to 5
        invariant jobs[0] == old(jobs[0])
        invariant forall k :: 1 <= k < i ==> jobs[k] == old(jobs[k]).(pending := false)
        invariant forall k :: i <= k < 5 ==> jobs[k] == old(jobs[k])
      {
        jobs[i] := jobs[i].(pending := false);
      }
      assert jobs[..] == [jobs[0], jobs[1], jobs[2], jobs[3], jobs[4]];
    }

    method Submit(kind: Work, bytes: seq<u8>, now: u32, deadline: u32, budget: u32) returns (ok: bool)
      requires Valid()
      modifies this, bus, jobs
      ensures (State(), ok) == Submitted(old(State()), kind, bytes, now, deadline, budget)
    {
      var remaining := Sub(deadline, now);
      if |bytes| == 0 || |bytes| > PACKET_MAX || budget == 0 || budget >= HALF || remaining == 0 ||
         remaining >= HALF || budget >= remaining {
        return false;
      }
      bus.Poll(now);
      if bus.faulted || ((bus.stopPending || inhibited) && kind != STOP) { return false; }
      if kind == STOP {
        inhibited := true;
        ClearMotion();
        bus.RequestStop();
      }
      jobs[kind] := Job(true, bytes, deadline, budget);
      ok := true;
    }

    method TakeNext(now: u32, available: u32) returns (d: Dispatch)
      requires Valid()
      modifies this, bus, jobs
      ensures (State(), d) == Next(old(State()), now, available)
    {
      hide Acquired, Polled;
      bus.Poll(now);
      if bus.active || bus.faulted { return NoDispatch; }
      var i := 0;
      while i < 5
        invariant 0 <= i <= 5 && cursor == old(cursor)
        invariant Next(old(State()), now, available) == NextFrom(State(), i, now, available)
      {
        var k := SlotIndex(cursor, i);
        var job := jobs[k];
        assert job == State().jobs[k];
        i := i + 1;
        if !job.pending || (inhibited && k != STOP) { continue; }
        var remaining := Sub(job.deadlineUs, now);
        if remaining == 0 || remaining >= HALF || job.budgetUs >= remaining {
          jobs[k] := job.(pending := false);
          expired := Saturate(expired);
          inhibited := true;
          bus.RequestStop();
          continue;
        }
        var granted := bus.Acquire(k, now, job.budgetUs, available);
        if !granted { continue; }
        activeBytes := job.bytes;
        jobs[k] := job.(pending := false);
        cursor := k % 4;
        return Dispatch(k, activeBytes, bus.token);
      }
      d := NoDispatch;
    }

    method Complete(token: u32, now: u32, transportOk: bool) returns (ok: bool)
      requires Valid()
      modifies this, bus
      ensures (State(), ok) == Finished(old(State()), token, now, transportOk)
    {
      ok := bus.Complete(token, now, transportOk);
      if !ok { return; }
      receipt := Receipt(token, now, bus.owner, activeBytes);
    }

    method Resume(confirmed: bool) returns (ok: bool)
      requires Valid()
      modifies this
      ensures (State(), ok) == Resumed(old(State()), confirmed)
    {
      if !confirmed || bus.active || bus.faulted || bus.stopPending || jobs[0].pending { return false; }
      inhibited := false;
      ok := true;
    }
  }

  // ---- what a dispatch means ------------------------------------------------

  /** Asking an idle bus for ownership either takes it, with a fresh token, or leaves it idle. */
  lemma GrantIsSound(b: BusState, k: Work, now: u32, budget: u32, available: u32)
    requires !b.active
    ensures var (n, ok) := Acquired(b, k, now, budget, available);
            && (b.stopPending ==> n.stopPending)
            && (if ok then
                  n.active && !n.faulted && n.owner == k && n.startedUs == now && n.budgetUs == budget && n.token == b.token + 1
                  && (k != STOP ==> !b.stopPending && budget <= available)
                else !n.active && n.token == b.token)
  {
  }

  /** Everything `Next` decides before a dispatch only withdraws jobs: an inhibited router
      stays inhibited, and jobs not taken keep their contents. */
  lemma {:induction false} DispatchIsSound(r: RouterState, i: nat, now: u32, available: u32)
    requires i <= 5 && !r.bus.active
    ensures var (r', d) := NextFrom(r, i, now, available);
            && (r.inhibited ==> r'.inhibited)
            && (d.NoDispatch? ==> !r'.bus.active && r'.cursor == r.cursor)
            && (d.Dispatch? ==>
                  && r.jobs[d.kind].pending && d.bytes == r.jobs[d.kind].bytes && r'.activeBytes == d.bytes
                  && !Expired(r.jobs[d.kind], now)
                  && r'.bus.active && !r'.bus.faulted && r'.bus.owner == d.kind && r'.bus.startedUs == now
                  && r'.bus.budgetUs == r.jobs[d.kind].budgetUs
                  && d.token == r'.bus.token == r.bus.token + 1
                  && r'.cursor == d.kind % 4
                  && (d.kind != STOP ==> !r.inhibited && !r.bus.stopPending && !r'.inhibited
                                         && r.jobs[d.kind].budgetUs <= available))
            && (d.NoDispatch? ==> r'.bus.token == r.bus.token && r'.activeBytes == r.activeBytes)
            && (r'.receipt == r.receipt)
            && (r.bus.stopPending ==> r'.bus.stopPending)
            && (forall k :: 0 <= k < 5 ==> r'.jobs[k] == r.jobs[k] || r'.jobs[k] == r.jobs[k].(pending := false))
    decreases 5 - i
  {
    hide Acquired, Expired, SlotIndex;
    if i < 5 {
      var k := SlotIndex(r.cursor, i);
      if !r.jobs[k].pending || (r.inhibited && k != STOP) {
        DispatchIsSound(r, i + 1, now, available);
      } else if Expired(r.jobs[k], now) {
        DispatchIsSound(DropExpired(r, k), i + 1, now, available);
      } else if !Acquired(r.bus, k, now, r.jobs[k].budgetUs, available).1 {
        GrantIsSound(r.bus, k, now, r.jobs[k].budgetUs, available);
        DispatchIsSound(r.(bus := Acquired(r.bus, k, now, r.jobs[k].budgetUs, available).0), i + 1, now, available);
      } else {
        GrantIsSound(r.bus, k, now, r.jobs[k].budgetUs, available);
      }
    }
  }

  /** An inhibited router dispatches STOP work only. */
  lemma InhibitedDispatchesStopOnly(r: RouterState, now: u32, available: u32)
    requires r.inhibited
    ensures var (r', d) := Next(r, now, available);
            r'.inhibited && (d.Dispatch? ==> d.kind == STOP)
  {
    var p := r.(bus := Polled(r.bus, now));
    if !p.bus.active && !p.bus.faulted { DispatchIsSound(p, 0, now, available); }
  }

  // ---- what one turn does ---------------------------------------------------

  /** The turn looks at this job: it is pending, and an inhibited router looks at STOP only. */
  predicate LookedAt(r: RouterState, k: Work) {
    r.jobs[k].pending && (k == STOP || !r.inhibited)
  }

  /** The whole budget still fits before the deadline. */
  predicate InTime(job: Job, now: u32) {
    job.budgetUs < Sub(job.deadlineUs, now) < HALF
  }

  /** A job is withdrawn as too late exactly when it is not in time. */
  lemma ExpiredIsLate(job: Job, now: u32)
    ensures Expired(job, now) <==> !InTime(job, now)
  {
  }

  /** Looked at, but too late. */
  predicate Lapsed(r: RouterState, k: Work, now: u32) {
    LookedAt(r, k) && !InTime(r.jobs[k], now)
  }

  /** Looked at, in time, and grantable: a motion job needs a bus without a pending stop and
      a window that holds its budget; a stop needs neither. */
  predicate Sendable(r: RouterState, k: Work, now: u32, available: u32) {
    && LookedAt(r, k) && InTime(r.jobs[k], now) && 0 < r.jobs[k].budgetUs < HALF && available < HALF
    && (k == STOP || (!r.bus.stopPending && r.jobs[k].budgetUs <= available))
  }

  /** Idle, healthy, and with a token left. */
  predicate Free(r: RouterState) {
    !r.bus.active && !r.bus.faulted && r.bus.token < U32_MAX
  }

  /** The job of kind k is on the bus under the next token, and no longer queued. */
  predicate Sends(r: RouterState, n: RouterState, d: Dispatch, k: Work, now: u32)
    requires Free(r)
  {
    && d == Dispatch(k, r.jobs[k].bytes, r.bus.token + 1)
    && n == r.(bus := BusState(true, r.bus.stopPending, false, r.bus.token + 1, now, r.jobs[k].budgetUs, k),
               activeBytes := r.jobs[k].bytes, jobs := r.jobs[k := r.jobs[k].(pending := false)], cursor := k % 4)
  }

  /** The job of kind k is withdrawn and counted, and the router closed to motion. */
  predicate Lapses(r: RouterState, n: RouterState, d: Dispatch, k: Work) {
    && d == NoDispatch
    && n == r.(jobs := r.jobs[k := r.jobs[k].(pending := false)], inhibited := true, expired := n.expired,
               bus := r.bus.(stopPending := true))
    && n.expired == (if r.expired == U32_MAX then r.expired else r.expired + 1)
  }

  /** A free router's turn stops at none of the first i slots. */
  predicate PassesOver(r: RouterState, i: nat, now: u32, available: u32) {
    forall j :: 0 <= j < i && j < 5 ==>
      !Lapsed(r, SlotIndex(r.cursor, j), now) && !Sendable(r, SlotIndex(r.cursor, j), now, available)
  }

  /** The turn ends at the i-th slot: its job lapses, or is sent. */
  predicate EndsAt(r: RouterState, n: RouterState, d: Dispatch, i: nat, now: u32, available: u32)
    requires Free(r)
  {
    var k := SlotIndex(r.cursor, i);
    if Lapsed(r, k, now) then Lapses(r, n, d, k) else Sendable(r, k, now, available) && Sends(r, n, d, k, now)
  }

  lemma ClosedTurnEnds(r: RouterState, i: nat, now: u32, available: u32)
    requires 1 <= i <= 5 && r.inhibited
    ensures NextFrom(r, i, now, available) == (r, NoDispatch)
    decreases 5 - i
  {
    if i < 5 { ClosedTurnEnds(r, i + 1, now, available); }
  }

  lemma {:induction false} TurnFrom(r: RouterState, i: nat, now: u32, available: u32)
    requires i <= 5 && Free(r) && PassesOver(r, i, now, available)
    ensures var (n, d) := NextFrom(r, i, now, available);
            || (PassesOver(r, 5, now, available) && n == r && d == NoDispatch)
            || (exists j :: 0 <= j < 5 && PassesOver(r, j, now, available) && EndsAt(r, n, d, j, now, available))
    decreases 5 - i
  {
    hide Expired, SlotIndex;
    if i < 5 {
      var k := SlotIndex(r.cursor, i);
      ExpiredIsLate(r.jobs[k], now);
      if Lapsed(r, k, now) {
        ClosedTurnEnds(DropExpired(r, k), i + 1, now, available);
        assert EndsAt(r, NextFrom(r, i, now, available).0, NextFrom(r, i, now, available).1, i, now, available);
      } else if Sendable(r, k, now, available) {
        assert EndsAt(r, NextFrom(r, i, now, available).0, NextFrom(r, i, now, available).1, i, now, available);
      } else {
        assert NextFrom(r, i, now, available) == NextFrom(r, i + 1, now, available);
        TurnFrom(r, i + 1, now, available);
      }
    }
  }

  /** One turn of a free router: it looks at STOP and then at the motion kinds, starting
      after the one served last. At the first job that is too late it withdraws that job,
      closes the router to motion and asks for a stop; the first that can be sent it sends;
      what comes after is left alone, and so is everything if there is no such job. */
  lemma TurnIsExact(r: RouterState, now: u32, available: u32)
    requires Free(r)
    ensures var (n, d) := Next(r, now, available);
            || (PassesOver(r, 5, now, available) && n == r && d == NoDispatch)
            || (exists j :: 0 <= j < 5 && PassesOver(r, j, now, available) && EndsAt(r, n, d, j, now, available))
  {
    hide NextFrom, SlotIndex, Expired;
    TurnFrom(r, 0, now, available);
  }

  /** Stop first. A stop waiting in time on a free bus is what the turn sends, whatever the
      cursor, the inhibition, a pending stop request, the other jobs and the window; and a
      turn sends a stop only so. */
  lemma StopGoesFirst(r: RouterState, now: u32, available: u32)
    ensures var (n, d) := Next(r, now, available);
            && (Free(r) && Sendable(r, STOP, now, available) ==> Sends(r, n, d, STOP, now))
            && (d.Dispatch? && d.kind == STOP ==> Free(r) && Sendable(r, STOP, now, available))
  {
    hide NextFrom, Expired;
    var p := r.(bus := Polled(r.bus, now));
    if !p.bus.active && !p.bus.faulted {
      if p.bus.token == U32_MAX { NoTokenNoDispatch(p, 0, now, available); }
      if Free(r) {
        TurnIsExact(r, now, available);
        var (n, d) := Next(r, now, available);
        if !PassesOver(r, 5, now, available) || n != r || d != NoDispatch {
          var j :| 0 <= j < 5 && PassesOver(r, j, now, available) && EndsAt(r, n, d, j, now, available);
          assert j > 0 ==> !Sendable(r, SlotIndex(r.cursor, 0), now, available);
        } else {
          assert !Sendable(r, SlotIndex(r.cursor, 0), now, available);
        }
      }
    }
  }

  /** With no token left nothing is sent. */
  lemma {:induction false} NoTokenNoDispatch(r: RouterState, i: nat, now: u32, available: u32)
    requires i <= 5 && r.bus.token == U32_MAX && !r.bus.active
    ensures NextFrom(r, i, now, available).1.NoDispatch?
    decreases 5 - i
  {
    hide Expired, SlotIndex;
    if i < 5 {
      var k := SlotIndex(r.cursor, i);
      if !r.jobs[k].pending || (r.inhibited && k != STOP) {
        NoTokenNoDispatch(r, i + 1, now, available);
      } else if Expired(r.jobs[k], now) {
        NoTokenNoDispatch(DropExpired(r, k), i + 1, now, available);
      } else {
        NoTokenNoDispatch(r.(bus := Acquired(r.bus, k, now, r.jobs[k].budgetUs, available).0), i + 1, now, available);
      }
    }
  }

  /** What a submission does: a job that is well formed enters its slot unless the bus is
      faulted, or is closed to motion and the job is no stop; a stop closes it and withdraws
      all motion. A refused one changes nothing but an overrun bus. */
  lemma SubmitIsExact(r: RouterState, kind: Work, bytes: seq<u8>, now: u32, deadline: u32, budget: u32)
    ensures var (n, ok) := Submitted(r, kind, bytes, now, deadline, budget);
            var healthy := !r.bus.faulted && !(r.bus.active && Sub(now, r.bus.startedUs) >= r.bus.budgetUs);
            && (ok <==> && 0 < |bytes| <= 32 && 0 < budget < Sub(deadline, now) < HALF && healthy
                        && (kind == STOP || (!r.bus.stopPending && !r.inhibited)))
            && (ok ==> n.jobs[kind] == Job(true, bytes, deadline, budget))
            && (ok && kind == STOP ==>
                  && n == r.(jobs := n.jobs, inhibited := true, bus := r.bus.(stopPending := true))
                  && forall k :: 1 <= k < 5 ==> n.jobs[k] == r.jobs[k].(pending := false))
            && (ok && kind != STOP ==> n == r.(jobs := n.jobs) && forall k :: 0 <= k < 5 && k != kind ==> n.jobs[k] == r.jobs[k])
            && (!ok ==> n == r || (!healthy && n == r.(bus := r.bus.(faulted := true, stopPending := true))))
  {
  }

  /** Receipts and resumption. A transfer leaves a receipt exactly when the healthy bus's owner
      completes it in time; the inhibition is lifted exactly on confirmation, with nothing on
      the bus, no fault, and no stop pending or queued. */
  lemma ReceiptsAreExact(r: RouterState, token: u32, now: u32, transportOk: bool, confirmed: bool)
    ensures var (n, ok) := Finished(r, token, now, transportOk);
            && (ok <==> && r.bus.active && !r.bus.faulted && token == r.bus.token && transportOk
                        && Sub(now, r.bus.startedUs) < r.bus.budgetUs)
            && n == r.(bus := n.bus, receipt := if ok then Receipt(token, now, r.bus.owner, r.activeBytes) else r.receipt)
    ensures var (n, ok) := Resumed(r, confirmed);
            && (ok <==> && confirmed && !r.bus.active && !r.bus.faulted && !r.bus.stopPending && !r.jobs[0].pending)
            && n == if ok then r.(inhibited := false) else r
  {
  }

  // ---- fairness -------------------------------------------------------------

  /** Motion kinds looked at before k, starting after the cursor. */
  function Rank(cursor: nat, k: Work): nat
    requires k != STOP
  {
    (k + 7 - cursor % 4) % 4
  }

  lemma RankIsSlot(cursor: nat, k: Work)
    requires k != STOP
    ensures Rank(cursor, k) < 4 && SlotIndex(cursor, Rank(cursor, k) + 1) == k
    ensures forall i :: 1 <= i <= 4 && SlotIndex(cursor, i) == k ==> i == Rank(cursor, k) + 1
  {
    assert (cursor + Rank(cursor, k)) % 4 == (cursor % 4 + Rank(cursor, k)) % 4;
    forall i | 1 <= i <= 4 && SlotIndex(cursor, i) == k
      ensures i == Rank(cursor, k) + 1
    {
      assert (cursor + i - 1) % 4 == (cursor % 4 + i - 1) % 4;
    }
  }

  /** The router is free to serve motion, and every pending job could still be met. */
  predicate Serving(r: RouterState, now: u32, available: u32) {
    && !r.bus.active && !r.bus.faulted && !r.bus.stopPending && !r.inhibited && r.bus.token < U32_MAX
    && !r.jobs[0].pending && available < HALF
    && forall k :: 0 < k < 5 && r.jobs[k].pending ==> !Expired(r.jobs[k], now)
  }

  predicate Fits(job: Job, available: u32) {
    job.pending && 0 < job.budgetUs < HALF && job.budgetUs <= available
  }

  lemma {:induction false} ScanReaches(r: RouterState, i: nat, k: Work, now: u32, available: u32)
    requires k != STOP && Serving(r, now, available) && Fits(r.jobs[k], available)
    requires i <= Rank(r.cursor, k) + 1
    ensures var (r', d) := NextFrom(r, i, now, available);
            && d.Dispatch? && d.kind != STOP
            && Rank(r.cursor, d.kind) <= Rank(r.cursor, k) && r'.cursor == d.kind % 4
            && (d.kind != k ==> r'.jobs[k] == r.jobs[k])
    decreases 5 - i
  {
    RankIsSlot(r.cursor, k);
    var s := SlotIndex(r.cursor, i);
    if i > 0 { RankIsSlot(r.cursor, s); }
    if !r.jobs[s].pending || !Acquired(r.bus, s, now, r.jobs[s].budgetUs, available).1 {
      assert s != k;
      ScanReaches(r, i + 1, k, now, available);
      if r.jobs[s].pending {
        assert r.(bus := Acquired(r.bus, s, now, r.jobs[s].budgetUs, available).0) == r;
      }
    }
  }

  lemma RankDrops(cursor: nat, served: Work, k: Work)
    requires served != STOP && k != STOP && served != k
    requires Rank(cursor, served) <= Rank(cursor, k)
    ensures Rank(served % 4, k) < Rank(cursor, k)
  {
    RankIsSlot(cursor, served);
    RankIsSlot(cursor, k);
  }

  /** Each dispatch either serves k or brings it nearer the front of the rotation. */
  lemma NextFavours(r: RouterState, k: Work, now: u32, available: u32)
    requires k != STOP && Serving(r, now, available) && Fits(r.jobs[k], available)
    ensures var (r', d) := Next(r, now, available);
            && d.Dispatch?
            && (d.kind == k || (r'.jobs[k] == r.jobs[k] && Rank(r'.cursor, k) < Rank(r.cursor, k)))
  {
    ScanReaches(r, 0, k, now, available);
    var d := NextFrom(r, 0, now, available).1;
    if d.kind != k { RankDrops(r.cursor, d.kind, k); }
  }

  datatype Turn = Turn(router: RouterState, now: u32, available: u32)

  /** Successive turns at the router; between them anything may happen that leaves the
      cursor alone (submissions, completions, polls, recoveries all do). */
  predicate Rotation(turns: seq<Turn>, k: Work)
    requires k != STOP
  {
    && (forall i :: 0 <= i < |turns| ==> Serving(turns[i].router, turns[i].now, turns[i].available)
                                         && Fits(turns[i].router.jobs[k], turns[i].available))
    && (forall i :: 0 < i < |turns| ==>
          turns[i].router.cursor == Next(turns[i - 1].router, turns[i - 1].now, turns[i - 1].available).0.cursor)
  }

  /** Fairness. While a fitting, unexpired job of a kind waits, at most three other jobs
      (work kinds less two) are dispatched before it. */
  lemma {:induction false} WaitIsBounded(turns: seq<Turn>, k: Work)
    requires k != STOP && Rotation(turns, k)
    requires forall i :: 0 <= i < |turns| ==> Next(turns[i].router, turns[i].now, turns[i].available).1.Dispatch?
                                              ==> Next(turns[i].router, turns[i].now, turns[i].available).1.kind != k
    ensures turns != [] ==> |turns| <= Rank(turns[0].router.cursor, k)
    ensures |turns| <= 3
  {
    if turns != [] {
      var t := turns[0];
      NextFavours(t.router, k, t.now, t.available);
      assert Next(t.router, t.now, t.available).1.kind != k;
      var rest := turns[1..];
      assert forall i :: 0 <= i < |rest| ==> rest[i] == turns[i + 1];
      if rest != [] {
        assert rest[0].router.cursor == Next(turns[0].router, turns[0].now, turns[0].available).0.cursor;
      }
      WaitIsBounded(rest, k);
    }
  }

  /** A completion neither inhibits the router nor lifts its inhibition. */
  lemma FinishKeepsInhibit(r: RouterState, token: u32, now: u32, ok: bool)
    ensures Finished(r, token, now, ok).0.inhibited == r.inhibited
  {
  }

  /** Nothing but a dispatch moves the cursor. */
  lemma OthersKeepCursor(r: RouterState, kind: Work, bytes: seq<u8>, now: u32, deadline: u32, budget: u32, token: u32, ok: bool)
    ensures Submitted(r, kind, bytes, now, deadline, budget).0.cursor == r.cursor
    ensures Finished(r, token, now, ok).0.cursor == r.cursor
    ensures Resumed(r, ok).0.cursor == r.cursor
  {
  }
}

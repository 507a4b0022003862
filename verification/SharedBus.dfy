// One physical UART with a single owner at a time. Ownership carries a token and a
// time budget; an overrun or a failed transfer faults the bus until it is recovered.
module SharedBus {
  import opened Words

  /** Kinds of bus work, by index; STOP is kind 0. */
  type Work = k: nat | k < 5

  const STOP: Work := 0
  const ARM: Work := 1
  const WHEELS: Work := 2
  const LIFT: Work := 3
  const FEEDBACK: Work := 4

  datatype BusState = BusState(
    active: bool, stopPending: bool, faulted: bool, token: u32, startedUs: u32, budgetUs: u32, owner: Work)

  const IDLE_BUS: BusState := BusState(false, false, false, 0, 0, 0, STOP)

  function StopRequested(b: BusState): BusState {
    b.(stopPending := true)
  }

  function Faulted(b: BusState): BusState {
    b.(faulted := true, stopPending := true)
  }

  /** A transaction that has used up its budget faults the bus. */
  function Polled(b: BusState, now: u32): BusState {
    if b.active && Sub(now, b.startedUs) >= b.budgetUs then Faulted(b) else b
  }

  predicate MayAcquire(b: BusState, work: Work, budget: u32, available: u32) {
    && 0 < budget < HALF && available < HALF && !b.faulted && !b.active
    && (work != STOP ==> !b.stopPending && budget <= available)
  }

  /** Ownership granted, or not; the last token is never reused. */
  function Acquired(b: BusState, work: Work, now: u32, budget: u32, available: u32): (BusState, bool) {
    var p := Polled(b, now);
    if !MayAcquire(p, work, budget, available) then (p, false)
    else if p.token == U32_MAX then (Faulted(p), false)
    else (BusState(true, p.stopPending, p.faulted, p.token + 1, now, budget, work), true)
  }

  function Completed(b: BusState, token: u32, now: u32, ok: bool): (BusState, bool) {
    var p := Polled(b, now);
    if !p.active || token != p.token || p.faulted then (p, false)
    else if !ok then (Faulted(p), false)
    else (p.(active := false, stopPending := if p.owner == STOP then false else p.stopPending), true)
  }

  function Recovered(b: BusState, idle: bool): (BusState, bool) {
    if !idle || !b.faulted || b.token == U32_MAX then (b, false)
    else (b.(active := false, faulted := false, stopPending := true), true)
  }

  class Bus {
    var active: bool
    var stopPending: bool
    var faulted: bool
    var token: u32
    var startedUs: u32
    var budgetUs: u32
    var owner: Work

    ghost function State(): BusState
      reads this
    {
      BusState(active, stopPending, faulted, token, startedUs, budgetUs, owner)
    }

    constructor ()
      ensures State() == IDLE_BUS
    {
      active, stopPending, faulted, token, startedUs, budgetUs, owner := false, false, false, 0, 0, 0, STOP;
    }

    method RequestStop()
      modifies this
      ensures State() == StopRequested(old(State()))
    {
      stopPending := true;
    }

    method Poll(now: u32)
      modifies this
      ensures State() == Polled(old(State()), now)
    {
      if active && Sub(now, startedUs) >= budgetUs {
        faulted, stopPending := true, true;
      }
    }

    method Acquire(work: Work, now: u32, budget: u32, available: u32) returns (ok: bool)
      modifies this
      ensures (State(), ok) == Acquired(old(State()), work, now, budget, available)
    {
      Poll(now);
      if budget == 0 || budget >= HALF || available >= HALF || faulted || active ||
         (stopPending && work != STOP) || (work != STOP && budget > available) {
        return false;
      }
      if token == U32_MAX {
        faulted, stopPending := true, true;
        return false;
      }
      token := token + 1;
      active, owner, startedUs, budgetUs := true, work, now, budget;
      ok := true;
    }

    method Complete(completedToken: u32, now: u32, transportOk: bool) returns (ok: bool)
      modifies this
      ensures (State(), ok) == Completed(old(State()), completedToken, now, transportOk)
    {
      Poll(now);
      if !active || completedToken != token || faulted { return false; }
      if !transportOk {
        faulted, stopPending := true, true;
        return false;
      }
      active := false;
      if owner == STOP {
        stopPending := false;
      }
      ok := true;
    }

    method Recover(uartIdle: bool) returns (ok: bool)
      modifies this
      ensures (State(), ok) == Recovered(old(State()), uartIdle)
    {
      if !uartIdle || !faulted || token == U32_MAX { return false; }
      active, faulted, stopPending := false, false, true;
      ok := true;
    }
  }

  // ---- one transaction ------------------------------------------------------

  /** A completion is accepted only strictly inside the transaction's budget, and only
      for the token that owns the bus. */
  lemma CompletionIsWithinBudget(b: BusState, token: u32, now: u32, ok: bool)
    requires Completed(b, token, now, ok).1
    ensures b.active && !b.faulted && token == b.token && ok
    ensures Sub(now, b.startedUs) < b.budgetUs
  {
  }

  /** The active transaction has used up its budget. */
  predicate Overrun(b: BusState, now: u32) {
    b.active && Sub(now, b.startedUs) >= b.budgetUs
  }

  /** Completion, in every case: the owner's, in time and well transported, frees the bus,
      and a stop's also answers the pending stop; the owner's, failed or too late, faults
      it; anyone else's changes nothing but an overrun. */
  lemma CompletionIsExact(b: BusState, token: u32, now: u32, ok: bool)
    ensures var (n, accepted) := Completed(b, token, now, ok);
            && (accepted <==> b.active && !b.faulted && !Overrun(b, now) && token == b.token && ok)
            && (accepted ==> n == b.(active := false, stopPending := b.stopPending && b.owner != STOP))
            && (!accepted && (Overrun(b, now) || (b.active && token == b.token && !b.faulted)) ==>
                  n == b.(faulted := true, stopPending := true))
            && (!accepted && !Overrun(b, now) && !(b.active && token == b.token && !b.faulted) ==> n == b)
  {
  }

  /** Recovery needs an idle UART, a fault and a token left; the stop stays pending. */
  lemma RecoveryIsExact(b: BusState, idle: bool)
    ensures var (n, ok) := Recovered(b, idle);
            && (ok <==> idle && b.faulted && b.token != U32_MAX)
            && n == if ok then b.(active := false, faulted := false, stopPending := true) else b
  {
  }

  /** Ownership, in every case. */
  lemma GrantIsExact(b: BusState, work: Work, now: u32, budget: u32, available: u32)
    ensures var (n, ok) := Acquired(b, work, now, budget, available);
            var free := && !b.active && !b.faulted && 0 < budget < HALF && available < HALF
                        && (work == STOP || (!b.stopPending && budget <= available));
            && (ok <==> free && b.token < U32_MAX)
            && (ok ==> n == BusState(true, b.stopPending, false, b.token + 1, now, budget, work))
            && (free && b.token == U32_MAX ==> n == b.(faulted := true, stopPending := true))
            && (!free ==> n == if Overrun(b, now) then b.(faulted := true, stopPending := true) else b)
  {
  }

  /** Tokens never decrease, and every grant takes a fresh one. */
  lemma GrantIsFresh(b: BusState, work: Work, now: u32, budget: u32, available: u32)
    ensures var (b', ok) := Acquired(b, work, now, budget, available);
            && b'.token == (if ok then b.token + 1 else b.token)
            && (ok ==> b'.active && b'.owner == work && b'.startedUs == now && b'.budgetUs == budget
                       && !b.active && !b.faulted && !b'.faulted)
  {
  }
}

// The ring buffer of six-joint setpoints: a first-in first-out queue of at most sixteen,
// with batches pushed whole or not at all.
module SetpointQueue {
  import opened Words

  const CAPACITY: nat := 16

  type Pose = p: seq<i32> | |p| == 6 witness [0, 0, 0, 0, 0, 0]

  datatype Setpoint = Setpoint(applyTick: u32, position: Pose)

  datatype Limit = Limit(minimum: i32, maximum: i32)

  type Limits = l: seq<Limit> | |l| == 6
    witness [Limit(0, 0), Limit(0, 0), Limit(0, 0), Limit(0, 0), Limit(0, 0), Limit(0, 0)]

  datatype QueueResult =
    QueueOk | QueueEmpty | NotDue | NoSamples | CapacityExceeded | StaleTick | TickTooFar | NonMonotonic | LimitViolation

  predicate WithinLimits(p: Pose, limits: Limits) {
    forall j :: 0 <= j < 6 ==> limits[j].minimum <= p[j] <= limits[j].maximum
  }

  // ---- what a push decides --------------------------------------------------

  datatype Lead = Lead(now: u32, minimum: u32, maximum: u32)

  function SampleVerdict(s: Setpoint, previous: u32, lead: Lead, limits: Limits): QueueResult {
    var ahead := Sub(s.applyTick, lead.now);
    if !After(s.applyTick, lead.now) || ahead < lead.minimum then StaleTick
    else if ahead > lead.maximum then TickTooFar
    else if !After(s.applyTick, previous) then NonMonotonic
    else if !WithinLimits(s.position, limits) then LimitViolation
    else QueueOk
  }

  /** The first complaint about the samples from the i-th on. */
  function BatchVerdict(samples: seq<Setpoint>, i: nat, previous: u32, lead: Lead, limits: Limits): QueueResult
    requires i <= |samples|
    decreases |samples| - i
  {
    if i == |samples| then QueueOk
    else
      var v := SampleVerdict(samples[i], previous, lead, limits);
      if v != QueueOk then v else BatchVerdict(samples, i + 1, samples[i].applyTick, lead, limits)
  }

  function LastTick(queue: seq<Setpoint>, now: u32): u32 {
    if queue == [] then now else queue[|queue| - 1].applyTick
  }

  function PushVerdict(queue: seq<Setpoint>, samples: seq<Setpoint>, lead: Lead, limits: Limits): QueueResult {
    if samples == [] then NoSamples
    else if |queue| + |samples| > CAPACITY then CapacityExceeded
    else if lead.minimum > lead.maximum then TickTooFar
    else BatchVerdict(samples, 0, LastTick(queue, lead.now), lead, limits)
  }

  function PushedBatch(queue: seq<Setpoint>, samples: seq<Setpoint>, lead: Lead, limits: Limits): (seq<Setpoint>, QueueResult) {
    var v := PushVerdict(queue, samples, lead, limits);
    (if v == QueueOk then queue + samples else queue, v)
  }

  datatype Taken = Taken(result: QueueResult, sample: Setpoint)

  const NO_SETPOINT: Setpoint := Setpoint(0, [0, 0, 0, 0, 0, 0])

  function Peeked(queue: seq<Setpoint>): Taken {
    if queue == [] then Taken(QueueEmpty, NO_SETPOINT) else Taken(QueueOk, queue[0])
  }

  function TakenDue(queue: seq<Setpoint>, now: u32): (seq<Setpoint>, Taken) {
    if queue == [] then (queue, Taken(QueueEmpty, NO_SETPOINT))
    else if queue[0].applyTick != now then
      (queue, Taken(if After(queue[0].applyTick, now) then NotDue else StaleTick, NO_SETPOINT))
    else (queue[1..], Taken(QueueOk, queue[0]))
  }

  // ---- the ring -------------------------------------------------------------

  /** The i-th queued sample's place in the ring. */
  function Place(head: nat, i: nat): (p: nat)
    ensures p < CAPACITY
  {
    (head + i) % 16
  }

  function Ring(samples: seq<Setpoint>, head: nat, count: nat): (q: seq<Setpoint>)
    requires |samples| == CAPACITY && count <= CAPACITY
    ensures |q| == count
  {
    seq(count, i requires 0 <= i < count => samples[Place(head, i)])
  }

  /** Different positions of the queue have different places. */
  lemma PlaceIsUnique(head: nat, i: nat, j: nat)
    requires i < CAPACITY && j < CAPACITY && Place(head, i) == Place(head, j)
    ensures i == j
  {
    var k := (head + j) / 16 - (head + i) / 16;
    assert j - i == 16 * k;
  }

  /** Writing at the tail's place appends. */
  lemma RingAppends(samples: seq<Setpoint>, head: nat, count: nat, s: Setpoint)
    requires |samples| == CAPACITY && count < CAPACITY
    ensures Ring(samples[Place(head, count) := s], head, count + 1) == Ring(samples, head, count) + [s]
  {
    hide Place;
    forall i | 0 <= i < count ensures samples[Place(head, count) := s][Place(head, i)] == samples[Place(head, i)] {
      if Place(head, i) == Place(head, count) { PlaceIsUnique(head, i, count); }
    }
  }

  /** Moving the head on drops the first. */
  lemma RingDrops(samples: seq<Setpoint>, head: nat, count: nat)
    requires |samples| == CAPACITY && 0 < count <= CAPACITY && head < CAPACITY
    ensures Ring(samples, (head + 1) % 16, count - 1) == Ring(samples, head, count)[1..]
  {
    var next := (head + 1) % 16;
    forall i | 0 <= i < count - 1 ensures Place(next, i) == Place(head, i + 1) {
    }
  }

  class Queue {
    const samples: array<Setpoint>
    var head: nat
    var count: nat

    ghost predicate Valid()
      reads this
    {
      samples.Length == CAPACITY && head < CAPACITY && count <= CAPACITY
    }

    ghost function Contents(): seq<Setpoint>
      requires Valid()
      reads this, samples
    {
      Ring(samples[..], head, count)
    }

    constructor ()
      ensures Valid() && fresh(samples) && Contents() == []
    {
      samples := new Setpoint[16](_ => NO_SETPOINT);
      head, count := 0, 0;
    }

    method Clear()
      requires samples.Length == CAPACITY
      modifies this
      ensures Valid() && Contents() == []
    {
      head, count := 0, 0;
    }

    method IsWithin(p: Pose, limits: Limits) returns (ok: bool)
      ensures ok <==> WithinLimits(p, limits)
    {
      for j := 0 to 6
        invariant forall k :: 0 <= k < j ==> limits[k].minimum <= p[k] <= limits[k].maximum
      {
        if limits[j].minimum > limits[j].maximum || p[j] < limits[j].minimum || p[j] > limits[j].maximum { return false; }
      }
      ok := true;
    }

    /** Checks a whole batch before anything is written. */
    method CheckBatch(batch: seq<Setpoint>, last: u32, lead: Lead, limits: Limits) returns (r: QueueResult)
      ensures r == BatchVerdict(batch, 0, last, lead, limits)
    {
      hide WithinLimits;
      var previous := last;
      for i := 0 to |batch|
        invariant BatchVerdict(batch, 0, last, lead, limits) == BatchVerdict(batch, i, previous, lead, limits)
      {
        var tick := batch[i].applyTick;
        var ahead := Sub(tick, lead.now);
        if !After(tick, lead.now) || ahead < lead.minimum { return StaleTick; }
        if ahead > lead.maximum { return TickTooFar; }
        if !After(tick, previous) { return NonMonotonic; }
        var within := IsWithin(batch[i].position, limits);
        if !within { return LimitViolation; }
        previous := tick;
      }
      r := QueueOk;
    }

    method Append(batch: seq<Setpoint>)
      requires Valid() && count + |batch| <= CAPACITY
      modifies this, samples
      ensures Valid() && Contents() == old(Contents()) + batch
    {
      hide Ring, Place;
      for i := 0 to |batch|
        invariant Valid() && head == old(head) && count == old(count) + i
        invariant Ring(samples[..], head, count) == old(Contents()) + batch[..i]
      {
        var place := Place(head, count);
        RingAppends(samples[..], head, count, batch[i]);
        ghost var was := samples[..];
        samples[place] := batch[i];
        assert samples[..] == was[place := batch[i]];
        count := count + 1;
        assert batch[..i + 1] == batch[..i] + [batch[i]];
      }
      assert batch[..|batch|] == batch;
    }

    /** All or nothing. */
    method PushBatch(batch: seq<Setpoint>, lead: Lead, limits: Limits) returns (r: QueueResult)
      requires Valid()
      modifies this, samples
      ensures Valid() && (Contents(), r) == PushedBatch(old(Contents()), batch, lead, limits)
    {
      hide BatchVerdict;
      if |batch| == 0 { return NoSamples; }
      if |batch| > CAPACITY - count { return CapacityExceeded; }
      if lead.minimum > lead.maximum { return TickTooFar; }
      var last := lead.now;
      if count > 0 {
        last := samples[(head + count - 1) % 16].applyTick;
        assert last == Contents()[count - 1].applyTick;
      }
      r := CheckBatch(batch, last, lead, limits);
      if r == QueueOk {
        Append(batch);
      }
    }

    method Peek() returns (t: Taken)
      requires Valid()
      ensures t == Peeked(Contents())
    {
      if count == 0 { return Taken(QueueEmpty, NO_SETPOINT); }
      assert Contents()[0] == samples[head];
      t := Taken(QueueOk, samples[head]);
    }

    method TakeDue(now: u32) returns (t: Taken)
      requires Valid()
      modifies this
      ensures Valid() && (Contents(), t) == TakenDue(old(Contents()), now)
    {
      if count == 0 { return Taken(QueueEmpty, NO_SETPOINT); }
      var front := samples[head];
      assert front == Contents()[0];
      if front.applyTick != now {
        return Taken(if After(front.applyTick, now) then NotDue else StaleTick, NO_SETPOINT);
      }
      RingDrops(samples[..], head, count);
      head := (head + 1) % 16;
      count := count - 1;
      t := Taken(QueueOk, front);
    }

    /** Puts back a saved ring. */
    method Restore(saved: seq<Setpoint>, savedHead: nat, savedCount: nat)
      requires samples.Length == CAPACITY && |saved| == CAPACITY && savedHead < CAPACITY && savedCount <= CAPACITY
      modifies this, samples
      ensures Valid() && Contents() == Ring(saved, savedHead, savedCount)
    {
      for i := 0 to 16
        invariant samples[..i] == saved[..i]
      {
        samples[i] := saved[i];
      }
      assert samples[..] == saved;
      head, count := savedHead, savedCount;
    }
  }

  // ---- what an accepted batch means -----------------------------------------

  /** Each sample's tick is after the one before it. */
  predicate Later(queue: seq<Setpoint>) {
    forall i :: 0 < i < |queue| ==> After(queue[i].applyTick, queue[i - 1].applyTick)
  }

  predicate AllWithin(queue: seq<Setpoint>, limits: Limits) {
    forall i :: 0 <= i < |queue| ==> WithinLimits(queue[i].position, limits)
  }

  predicate AllLead(batch: seq<Setpoint>, lead: Lead) {
    forall i :: 0 <= i < |batch| ==>
      After(batch[i].applyTick, lead.now) && lead.minimum <= Sub(batch[i].applyTick, lead.now) <= lead.maximum
  }

  lemma {:induction false} VerdictIsExact(batch: seq<Setpoint>, i: nat, previous: u32, lead: Lead, limits: Limits)
    requires i <= |batch|
    ensures BatchVerdict(batch, i, previous, lead, limits) == QueueOk <==>
              && Later(batch[i..]) && AllWithin(batch[i..], limits) && AllLead(batch[i..], lead)
              && (i < |batch| ==> After(batch[i].applyTick, previous))
    decreases |batch| - i
  {
    hide WithinLimits;
    if i < |batch| {
      var rest := batch[i..];
      assert rest[1..] == batch[i + 1..];
      VerdictIsExact(batch, i + 1, batch[i].applyTick, lead, limits);
      ConsProperties(rest, lead, limits);
    }
  }

  /** The three properties of a batch, by its first sample and the rest. */
  lemma ConsProperties(q: seq<Setpoint>, lead: Lead, limits: Limits)
    requires q != []
    ensures Later(q) <==> Later(q[1..]) && (|q| > 1 ==> After(q[1].applyTick, q[0].applyTick))
    ensures AllWithin(q, limits) <==> AllWithin(q[1..], limits) && WithinLimits(q[0].position, limits)
    ensures AllLead(q, lead) <==> AllLead(q[1..], lead) && After(q[0].applyTick, lead.now)
                                  && lead.minimum <= Sub(q[0].applyTick, lead.now) <= lead.maximum
  {
    hide WithinLimits;
    var t := q[1..];
    assert forall i :: 0 <= i < |t| ==> t[i] == q[i + 1];
    if Later(t) && (|q| > 1 ==> After(q[1].applyTick, q[0].applyTick)) {
      forall i | 0 < i < |q| ensures After(q[i].applyTick, q[i - 1].applyTick) {
        if i > 1 { assert After(t[i - 1].applyTick, t[i - 2].applyTick); }
      }
    }
    if Later(q) {
      forall i | 0 < i < |t| ensures After(t[i].applyTick, t[i - 1].applyTick) {
        assert After(q[i + 1].applyTick, q[i].applyTick);
      }
    }
    if AllWithin(t, limits) && WithinLimits(q[0].position, limits) {
      forall i | 0 <= i < |q| ensures WithinLimits(q[i].position, limits) {
        if i > 0 { assert WithinLimits(t[i - 1].position, limits); }
      }
    }
    if AllLead(t, lead) && After(q[0].applyTick, lead.now) && lead.minimum <= Sub(q[0].applyTick, lead.now) <= lead.maximum {
      forall i | 0 <= i < |q|
        ensures After(q[i].applyTick, lead.now) && lead.minimum <= Sub(q[i].applyTick, lead.now) <= lead.maximum
      {
        if i > 0 { assert After(t[i - 1].applyTick, lead.now); }
      }
    }
  }

  /** A push is accepted exactly when it is nonempty, fits, leads by the asked amounts,
      keeps to the limits and continues the queue strictly later; a queue that was strictly
      later stays so, and a refusal leaves it as it was. */
  lemma PushIsExact(queue: seq<Setpoint>, batch: seq<Setpoint>, lead: Lead, limits: Limits)
    ensures var (q, r) := PushedBatch(queue, batch, lead, limits);
            && (r == QueueOk <==>
                  && batch != [] && |queue| + |batch| <= CAPACITY && lead.minimum <= lead.maximum
                  && Later(batch) && AllWithin(batch, limits) && AllLead(batch, lead)
                  && After(batch[0].applyTick, LastTick(queue, lead.now)))
            && q == (if r == QueueOk then queue + batch else queue)
            && (Later(queue) ==> Later(q)) && (AllWithin(queue, limits) ==> AllWithin(q, limits))
  {
    hide WithinLimits, BatchVerdict;
    assert batch[0..] == batch;
    VerdictIsExact(batch, 0, LastTick(queue, lead.now), lead, limits);
    if PushVerdict(queue, batch, lead, limits) == QueueOk && Later(queue) {
      var q := queue + batch;
      forall i | 0 < i < |q| ensures After(q[i].applyTick, q[i - 1].applyTick) {
        if i > |queue| { assert After(batch[i - |queue|].applyTick, batch[i - |queue| - 1].applyTick); }
      }
    }
  }

  /** Taking, in every case: the front goes exactly on its own tick; before it, it is not due,
      and after it, stale; and peeking shows it at any time. */
  lemma TakeIsExact(queue: seq<Setpoint>, now: u32)
    ensures var (q, t) := TakenDue(queue, now);
            && (t.result == QueueEmpty <==> queue == []) && (Peeked(queue).result == QueueEmpty <==> queue == [])
            && (queue != [] ==>
                  && Peeked(queue) == Taken(QueueOk, queue[0])
                  && (t.result == QueueOk <==> queue[0].applyTick == now)
                  && (t.result == NotDue <==> 0 < Sub(queue[0].applyTick, now) < HALF)
                  && (t.result == StaleTick <==> Sub(queue[0].applyTick, now) >= HALF))
            && (t.result == QueueOk ==> queue == [t.sample] + q) && (t.result != QueueOk ==> q == queue)
  {
  }
}

// The command route in front of the buffered executor: one trajectory at a time, begun,
// started and ended by flags; a validation-only command is a true dry run.
module BufferedRoute {
  import opened Words
  import opened SetpointQueue
  import opened BufferedExecutor

  datatype Command = Command(flags: u16, samples: seq<Setpoint>)

  datatype CommandResult = CommandOk | InvalidFlags | CommandBadState | CommandRejected

  datatype Route = Route(
    executor: Executor, limits: Limits, sequence: u32, admitted: u32, active: bool, startRequested: bool, started: bool)

  /** Bit 0 asks for validation only. */
  predicate ValidationOnly(flags: u16) {
    flags % 2 == 1
  }

  predicate Candidate(flags: u16) {
    flags / 2 % 2 == 1
  }

  predicate BeginFlag(flags: u16) {
    flags / 4 % 2 == 1
  }

  predicate StartFlag(flags: u16) {
    flags / 8 % 2 == 1
  }

  predicate EndFlag(flags: u16) {
    flags / 16 % 2 == 1
  }

  predicate FlagsFit(flags: u16) {
    Candidate(flags) && flags < 32
  }

  function Opened(limits: Limits, minimumStart: nat, latenessLimit: u32): Route {
    Route(NewExecutor(minimumStart, latenessLimit), limits, 0, 0, false, false, false)
  }

  predicate Misplaced(r: Route, flags: u16) {
    BeginFlag(flags) == r.active || (StartFlag(flags) && r.startRequested)
  }

  /** What flags do to the route once the batch is in. */
  function Flagged(r: Route, flags: u16, sequence: u32): Route {
    r.(active := r.active || BeginFlag(flags), sequence := if BeginFlag(flags) then sequence else r.sequence,
       startRequested := r.startRequested || StartFlag(flags))
  }

  function AdmittedForReal(r: Route, c: Command, sequence: u32, lead: Lead): (Route, CommandResult) {
    var (e, s) := AdmittedBatch(r.executor, c.samples, lead, r.limits);
    var noted := r.(executor := e);
    if s != ExecOk then (noted, CommandRejected)
    else
      var f := Flagged(noted, c.flags, sequence);
      if !EndFlag(c.flags) then (f.(admitted := Add(f.admitted, 1)), CommandOk)
      else
        var (done, marked) := Completed(f.executor);
        if marked != ExecOk then (f.(executor := done), CommandBadState)
        else (f.(executor := done, admitted := Add(f.admitted, 1)), CommandOk)
  }

  function AdmittedCommand(r: Route, c: Command, sequence: u32, lead: Lead): (Route, CommandResult) {
    if !FlagsFit(c.flags) then (r, InvalidFlags)
    else if Misplaced(r, c.flags) then (r, CommandBadState)
    else if ValidationOnly(c.flags) then
      var s := AdmittedBatch(r.executor, c.samples, lead, r.limits).1;
      (r, if s == ExecOk then CommandOk else CommandRejected)
    else AdmittedForReal(r, c, sequence, lead)
  }

  function StartedRoute(r: Route, tick: u32, position: Pose): (Route, Status) {
    if !r.active || !r.startRequested || r.started then (r, BadState)
    else
      var (e, s) := StartedAt(r.executor, tick, position, r.limits);
      (r.(executor := e, started := s == ExecOk), s)
  }

  class RouteObject {
    const executor: ExecutorObject
    const limits: Limits
    var sequence: u32
    var admitted: u32
    var active: bool
    var startRequested: bool
    var started: bool

    ghost predicate Valid()
      reads executor.queue
    {
      executor.Valid()
    }

    ghost function State(): Route
      requires Valid()
      reads this, executor, executor.queue, executor.queue.samples
    {
      Route(executor.State(), limits, sequence, admitted, active, startRequested, started)
    }

    constructor (jointLimits: Limits, minimumStart: nat, latenessLimit: u32)
      requires 0 < minimumStart <= CAPACITY
      ensures Valid() && State() == Opened(jointLimits, minimumStart, latenessLimit)
    {
      executor := new ExecutorObject(minimumStart, latenessLimit);
      limits, sequence, admitted, active, startRequested, started := jointLimits, 0, 0, false, false, false;
    }

    /** Runs the whole admission, then puts the queue and the diagnostics back. */
    method DryRun(batch: seq<Setpoint>, lead: Lead) returns (r: CommandResult)
      requires Valid()
      modifies executor, executor.queue, executor.queue.samples
      ensures Valid() && State() == old(State())
      ensures r == if AdmittedBatch(old(executor.State()), batch, lead, limits).1 == ExecOk then CommandOk else CommandRejected
    {
      hide AdmittedBatch, Ring;
      var saved, head, count := executor.queue.samples[..], executor.queue.head, executor.queue.count;
      var diagnostics := executor.diag;
      ghost var before := executor.State();
      var s := executor.Admit(batch, lead, limits);
      assert executor.State() == AdmittedBatch(before, batch, lead, limits).0;
      AdmissionKeepsAnchor(before, batch, lead, limits);
      executor.queue.Restore(saved, head, count);
      executor.diag := diagnostics;
      r := if s == ExecOk then CommandOk else CommandRejected;
    }

    method AdmitForReal(c: Command, request: u32, lead: Lead) returns (r: CommandResult)
      requires Valid()
      modifies this, executor, executor.queue, executor.queue.samples
      ensures Valid() && (State(), r) == AdmittedForReal(old(State()), c, request, lead)
    {
      hide AdmittedBatch;
      var s := executor.Admit(c.samples, lead, limits);
      if s != ExecOk { return CommandRejected; }
      if BeginFlag(c.flags) {
        active, sequence := true, request;
      }
      if StartFlag(c.flags) {
        startRequested := true;
      }
      if EndFlag(c.flags) {
        var marked := executor.MarkComplete();
        if marked != ExecOk { return CommandBadState; }
      }
      admitted := Add(admitted, 1);
      r := CommandOk;
    }

    method Admit(c: Command, request: u32, lead: Lead) returns (r: CommandResult)
      requires Valid()
      modifies this, executor, executor.queue, executor.queue.samples
      ensures Valid() && (State(), r) == AdmittedCommand(old(State()), c, request, lead)
    {
      hide AdmittedBatch, AdmittedForReal;
      if !Candidate(c.flags) || c.flags >= 32 { return InvalidFlags; }
      var begins := BeginFlag(c.flags);
      if (begins && active) || (!begins && !active) || (StartFlag(c.flags) && startRequested) { return CommandBadState; }
      if ValidationOnly(c.flags) {
        r := DryRun(c.samples, lead);
      } else {
        r := AdmitForReal(c, request, lead);
      }
    }

    method Start(tick: u32, position: Pose) returns (s: Status)
      requires Valid()
      modifies this, executor
      ensures Valid() && (State(), s) == StartedRoute(old(State()), tick, position)
    {
      hide StartedAt;
      if !active || !startRequested || started { return BadState; }
      s := executor.Start(tick, position, limits);
      started := s == ExecOk;
    }
  }

  /** Admission touches only the queue and the diagnostics. */
  lemma AdmissionKeepsAnchor(e: Executor, batch: seq<Setpoint>, lead: Lead, limits: Limits)
    ensures var n := AdmittedBatch(e, batch, lead, limits).0; n == e.(queue := n.queue, diag := n.diag)
  {
    hide PushedBatch;
  }

  /** The dry run. Asking for validation only changes nothing, and answers exactly what the
      same command without that flag would be answered. */
  lemma ValidationTellsTheTruth(r: Route, c: Command, sequence: u32, lead: Lead)
    requires ValidationOnly(c.flags)
    ensures var live := c.(flags := c.flags - 1);
            && AdmittedCommand(r, c, sequence, lead).0 == r
            && AdmittedCommand(r, c, sequence, lead).1 == AdmittedCommand(r, live, sequence, lead).1
  {
    hide PushedBatch;
    FlagsAsideFromValidation(c.flags);
  }

  lemma FlagsAsideFromValidation(flags: u16)
    requires ValidationOnly(flags)
    ensures var f: u16 := flags - 1;
            && !ValidationOnly(f) && FlagsFit(f) == FlagsFit(flags) && BeginFlag(f) == BeginFlag(flags)
            && StartFlag(f) == StartFlag(flags) && EndFlag(f) == EndFlag(flags)
  {
    var h := flags / 2;
    assert (flags - 1) / 2 == h;
    assert flags / 4 == h / 2 && (flags - 1) / 4 == h / 2;
    assert flags / 8 == h / 4 && (flags - 1) / 8 == h / 4;
    assert flags / 16 == h / 8 && (flags - 1) / 16 == h / 8;
  }

  /** The flags of a candidate command: validate only, begin, start and end. */
  function FlagsOf(validate: bool, begin: bool, start: bool, end: bool): u16 {
    2 + (if validate then 1 else 0) + (if begin then 4 else 0) + (if start then 8 else 0) + (if end then 16 else 0)
  }

  /** Any other flags are refused, and change nothing. */
  lemma OtherFlagsAreRefused(r: Route, c: Command, sequence: u32, lead: Lead)
    ensures AdmittedCommand(r, c, sequence, lead).1 == InvalidFlags <==>
              !exists v, b, s, e :: c.flags == FlagsOf(v, b, s, e)
    ensures AdmittedCommand(r, c, sequence, lead).1 == InvalidFlags ==> AdmittedCommand(r, c, sequence, lead).0 == r
  {
    hide AdmittedBatch, FlagsFit;
    if FlagsFit(c.flags) { BitsMakeFlags(c.flags); }
    forall v, b, s, e | c.flags == FlagsOf(v, b, s, e) ensures FlagsFit(c.flags) { FlagsHaveBits(v, b, s, e); }
  }

  lemma BitsMakeFlags(f: u16)
    requires FlagsFit(f)
    ensures f == FlagsOf(f % 2 == 1, f / 4 % 2 == 1, f / 8 % 2 == 1, f / 16 % 2 == 1)
  {
  }

  lemma FlagsHaveBits(validate: bool, begin: bool, start: bool, end: bool)
    ensures var f := FlagsOf(validate, begin, start, end);
            && FlagsFit(f) && (ValidationOnly(f) <==> validate) && (BeginFlag(f) <==> begin)
            && (StartFlag(f) <==> start) && (EndFlag(f) <==> end)
  {
  }

  /** A command, in every case. A route must be begun exactly once, and asked to start at most
      once. The batch is then admitted or rejected as the executor says. An admitted one
      leaves the route active under its sequence number, counted, and complete if it says it
      is the end; a validation leaves nothing. */
  lemma CommandsAreExact(r: Route, samples: seq<Setpoint>, sequence: u32, lead: Lead,
                         validate: bool, begin: bool, start: bool, end: bool)
    ensures var (n, res) := AdmittedCommand(r, Command(FlagsOf(validate, begin, start, end), samples), sequence, lead);
            var (executor, status) := AdmittedBatch(r.executor, samples, lead, r.limits);
            var placed := begin != r.active && !(start && r.startRequested);
            && (!placed ==> res == CommandBadState && n == r)
            && (placed && status != ExecOk ==> res == CommandRejected && n == if validate then r else r.(executor := executor))
            && (placed && status == ExecOk ==>
                  && res == CommandOk
                  && n == if validate then r
                          else r.(executor := if end then executor.(diag := executor.diag.(inputComplete := true)) else executor,
                                  active := true, sequence := if begin then sequence else r.sequence,
                                  startRequested := start || r.startRequested,
                                  admitted := if r.admitted == U32_MAX then 0 else r.admitted + 1))
  {
    hide PushedBatch, FlagsFit, ValidationOnly, BeginFlag, StartFlag, EndFlag, FlagsOf;
    FlagsHaveBits(validate, begin, start, end);
  }

  /** A route starts once, after it was asked to, when its executor does. */
  lemma StartIsExact(r: Route, tick: u32, position: Pose)
    ensures var (n, s) := StartedRoute(r, tick, position);
            var (executor, status) := StartedAt(r.executor, tick, position, r.limits);
            if r.active && r.startRequested && !r.started
            then s == status && n == r.(executor := executor, started := status == ExecOk)
            else s == BadState && n == r
  {
    hide StartedAt;
  }
}

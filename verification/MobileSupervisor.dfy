// Supervision of the mobile base and lift axes: a session must be armed on fresh,
// healthy, stationary feedback; commands expire; anything doubtful latches a stop.
module MobileSupervisor {
  import opened Words

  type Axes = v: seq<i32> | |v| == 4 witness [0, 0, 0, 0]

  const AT_REST: Axes := [0, 0, 0, 0]

  datatype MobileConfig = MobileConfig(
    maxVelocity: Axes, stoppedVelocity: i32, commandTimeoutMs: u32, feedbackTimeoutMs: u32,
    liftMinUm: i32, liftMaxUm: i32)

  datatype Feedback = Feedback(
    observedMs: u32, velocity: Axes, liftPositionUm: i32, modesVerified: bool, liftHomed: bool, hardwareOk: bool)

  datatype MobileState = Disabled | Ready | Active | StopLatched

  datatype MobileReason = NoReason | RequestReason | CommandTimeoutReason | FeedbackReason | LiftLimitReason

  datatype Supervisor = Supervisor(
    config: MobileConfig, feedback: Feedback, haveFeedback: bool, state: MobileState, reason: MobileReason,
    haveSequence: bool, session: u32, sequence: u32, commandMs: u32, commandValidForMs: u32, target: Axes)

  predicate ValidConfig(c: MobileConfig) {
    && 0 < c.commandTimeoutMs < HALF && 0 < c.feedbackTimeoutMs < HALF
    && c.liftMinUm < c.liftMaxUm && 0 <= c.stoppedVelocity <= 32767
    && forall i :: 0 <= i < 4 ==> c.stoppedVelocity < c.maxVelocity[i] <= 32767
  }

  const NO_FEEDBACK: Feedback := Feedback(0, AT_REST, 0, false, false, false)

  function Configured(c: MobileConfig): Supervisor {
    Supervisor(c, NO_FEEDBACK, false, Disabled, NoReason, false, 0, 0, 0, 0, AT_REST)
  }

  // ---- readings -------------------------------------------------------------

  predicate Fresh(s: Supervisor, now: u32) {
    s.haveFeedback && Sub(now, s.feedback.observedMs) < s.config.feedbackTimeoutMs
  }

  predicate Healthy(s: Supervisor, now: u32) {
    Fresh(s, now) && s.feedback.hardwareOk && s.feedback.modesVerified && s.feedback.liftHomed
  }

  predicate LiftInside(s: Supervisor) {
    s.config.liftMinUm <= s.feedback.liftPositionUm <= s.config.liftMaxUm
  }

  predicate AllSlow(v: Axes, bound: i32) {
    forall i :: 0 <= i < 4 ==> -(bound as int) <= v[i] <= bound
  }

  predicate MeasuredStopped(s: Supervisor, now: u32) {
    Healthy(s, now) && LiftInside(s) && AllSlow(s.feedback.velocity, s.config.stoppedVelocity)
  }

  /** The lift command pushes against the end it has reached. */
  predicate AgainstLimit(s: Supervisor, lift: i32) {
    (lift > 0 && s.feedback.liftPositionUm >= s.config.liftMaxUm) ||
    (lift < 0 && s.feedback.liftPositionUm <= s.config.liftMinUm)
  }

  // ---- transitions ----------------------------------------------------------

  function Latched(s: Supervisor, reason: MobileReason): Supervisor {
    s.(reason := if s.state == StopLatched then s.reason else reason, state := StopLatched, target := AT_REST)
  }

  function Watched(s: Supervisor, now: u32): Supervisor {
    if s.state != Ready && s.state != Active then s
    else if !Healthy(s, now) then Latched(s, FeedbackReason)
    else if !LiftInside(s) || AgainstLimit(s, s.target[3]) then Latched(s, LiftLimitReason)
    else if s.state == Active && Sub(now, s.commandMs) >= s.commandValidForMs then Latched(s, CommandTimeoutReason)
    else s
  }

  predicate AcceptableFeedback(s: Supervisor, f: Feedback, now: u32) {
    && Sub(now, f.observedMs) < s.config.feedbackTimeoutMs
    && (s.haveFeedback ==> 0 < Sub(f.observedMs, s.feedback.observedMs) < HALF)
    && forall i :: 0 <= i < 4 ==> -32767 <= f.velocity[i] <= 32767
  }

  function Observed(s: Supervisor, f: Feedback, now: u32): (Supervisor, bool) {
    var w := Watched(s, now);
    if !AcceptableFeedback(w, f, now) then (w, false)
    else (Watched(w.(feedback := f, haveFeedback := true), now), true)
  }

  function Armed(s: Supervisor, session: u32, now: u32): (Supervisor, bool) {
    var w := Watched(s, now);
    if session == 0 || session <= w.session || (w.state != Disabled && w.state != StopLatched) || !MeasuredStopped(w, now)
    then (w, false)
    else (w.(session := session, haveSequence := false, state := Ready, reason := NoReason, target := AT_REST), true)
  }

  predicate WithinMaximum(v: Axes, max: Axes) {
    forall i :: 0 <= i < 4 ==> -(max[i] as int) <= v[i] <= max[i]
  }

  function Commanded(s: Supervisor, session: u32, sequence: u32, v: Axes, now: u32): (Supervisor, bool) {
    var w := Watched(s, now);
    if session != w.session || (w.state != Ready && w.state != Active) || (w.haveSequence && sequence <= w.sequence)
    then (w, false)
    else if !WithinMaximum(v, w.config.maxVelocity) || AgainstLimit(w, v[3]) then (w, false)
    else (w.(target := v, sequence := sequence, haveSequence := true, commandMs := now,
             commandValidForMs := w.config.commandTimeoutMs, state := Active), true)
  }

  function CommandedUntil(s: Supervisor, session: u32, sequence: u32, v: Axes, validUntil: u32, now: u32): (Supervisor, bool) {
    var w := Watched(s, now);
    var remaining := Sub(validUntil, now);
    if remaining == 0 || remaining > w.config.commandTimeoutMs then (w, false)
    else
      var (c, ok) := Commanded(w, session, sequence, v, now);
      if !ok then (c, false) else (c.(commandValidForMs := remaining), true)
  }

  function Halted(s: Supervisor): Supervisor {
    Latched(s, RequestReason)
  }

  // ---- host messages --------------------------------------------------------

  datatype Opcode = ArmOp | VelocityOp | StopOp

  datatype Message = Message(opcode: Opcode, session: u32, sequence: u32, validUntilMs: u32, velocity: Axes)

  /** A decoded message applied to the supervisor. */
  function Applied(s: Supervisor, m: Message, now: u32): (Supervisor, bool) {
    var w := Watched(s, now);
    var remaining := Sub(m.validUntilMs, now);
    if remaining == 0 || remaining > w.config.commandTimeoutMs then (w, false)
    else
      match m.opcode
      case ArmOp => Armed(w, m.session, now)
      case VelocityOp => CommandedUntil(w, m.session, m.sequence, m.velocity, m.validUntilMs, now)
      case StopOp =>
        if m.session != w.session || w.state == Disabled || (w.haveSequence && m.sequence <= w.sequence) then (w, false)
        else (Halted(w).(sequence := m.sequence, haveSequence := true), true)
  }

  // ---- the supervisor object ------------------------------------------------

  class MobileSupervisorObject {
    const config: MobileConfig
    var feedback: Feedback
    var haveFeedback: bool
    var state: MobileState
    var reason: MobileReason
    var haveSequence: bool
    var session: u32
    var sequence: u32
    var commandMs: u32
    var commandValidForMs: u32
    var target: Axes

    ghost function State(): Supervisor
      reads this
    {
      Supervisor(config, feedback, haveFeedback, state, reason, haveSequence, session, sequence, commandMs,
                 commandValidForMs, target)
    }

    constructor (c: MobileConfig)
      requires ValidConfig(c)
      ensures State() == Configured(c)
    {
      config, feedback, haveFeedback, state, reason := c, NO_FEEDBACK, false, Disabled, NoReason;
      haveSequence, session, sequence, commandMs, commandValidForMs, target := false, 0, 0, 0, 0, AT_REST;
    }

    /** The present values of all fields. */
    method Snapshot() returns (s: Supervisor)
      ensures s == State()
    {
      s := Supervisor(config, feedback, haveFeedback, state, reason, haveSequence, session, sequence, commandMs,
                      commandValidForMs, target);
    }

    method Latch(why: MobileReason)
      modifies this
      ensures State() == Latched(old(State()), why)
    {
      if state != StopLatched {
        reason := why;
      }
      state, target := StopLatched, AT_REST;
    }

    method IsHealthy(now: u32) returns (ok: bool)
      ensures ok <==> Healthy(State(), now)
    {
      ok := haveFeedback && Sub(now, feedback.observedMs) < config.feedbackTimeoutMs && feedback.hardwareOk &&
            feedback.modesVerified && feedback.liftHomed;
    }

    method IsMeasuredStopped(now: u32) returns (stopped: bool)
      ensures stopped <==> MeasuredStopped(State(), now)
    {
      var healthy := IsHealthy(now);
      if !healthy || feedback.liftPositionUm < config.liftMinUm || feedback.liftPositionUm > config.liftMaxUm {
        return false;
      }
      for i := 0 to 4
        invariant forall k :: 0 <= k < i ==> -(config.stoppedVelocity as int) <= feedback.velocity[k] <= config.stoppedVelocity
      {
        if feedback.velocity[i] > config.stoppedVelocity || feedback.velocity[i] < -(config.stoppedVelocity as int) {
          return false;
        }
      }
      stopped := true;
    }

    method Poll(now: u32)
      modifies this
      ensures State() == Watched(old(State()), now)
    {
      if state != Ready && state != Active { return; }
      var healthy := IsHealthy(now);
      if !healthy {
        Latch(FeedbackReason);
      } else if feedback.liftPositionUm < config.liftMinUm || feedback.liftPositionUm > config.liftMaxUm ||
                (target[3] > 0 && feedback.liftPositionUm >= config.liftMaxUm) ||
                (target[3] < 0 && feedback.liftPositionUm <= config.liftMinUm) {
        Latch(LiftLimitReason);
      } else if state == Active && Sub(now, commandMs) >= commandValidForMs {
        Latch(CommandTimeoutReason);
      }
    }

    method Observe(f: Feedback, now: u32) returns (ok: bool)
      modifies this
      ensures (State(), ok) == Observed(old(State()), f, now)
    {
      Poll(now);
      if Sub(now, f.observedMs) >= config.feedbackTimeoutMs { return false; }
      if haveFeedback && (Sub(f.observedMs, feedback.observedMs) == 0 || Sub(f.observedMs, feedback.observedMs) >= HALF) {
        return false;
      }
      var fits := VelocitiesFit(f.velocity);
      if !fits { return false; }
      feedback, haveFeedback := f, true;
      Poll(now);
      ok := true;
    }

    method VelocitiesFit(v: Axes) returns (fits: bool)
      ensures fits <==> forall i :: 0 <= i < 4 ==> -32767 <= v[i] <= 32767
    {
      for i := 0 to 4
        invariant forall k :: 0 <= k < i ==> -32767 <= v[k] <= 32767
      {
        if v[i] < -32767 || v[i] > 32767 { return false; }
      }
      fits := true;
    }

    method Arm(newSession: u32, now: u32) returns (ok: bool)
      modifies this
      ensures (State(), ok) == Armed(old(State()), newSession, now)
    {
      Poll(now);
      var stopped := IsMeasuredStopped(now);
      if newSession == 0 || newSession <= session || (state != Disabled && state != StopLatched) || !stopped {
        return false;
      }
      session, haveSequence, state, reason, target := newSession, false, Ready, NoReason, AT_REST;
      ok := true;
    }

    method CommandFits(v: Axes) returns (fits: bool)
      ensures fits <==> WithinMaximum(v, config.maxVelocity)
    {
      for i := 0 to 4
        invariant forall k :: 0 <= k < i ==> -(config.maxVelocity[k] as int) <= v[k] <= config.maxVelocity[k]
      {
        if v[i] < -(config.maxVelocity[i] as int) || v[i] > config.maxVelocity[i] { return false; }
      }
      fits := true;
    }

    method Command(forSession: u32, newSequence: u32, v: Axes, now: u32) returns (ok: bool)
      modifies this
      ensures (State(), ok) == Commanded(old(State()), forSession, newSequence, v, now)
    {
      Poll(now);
      if forSession != session || (state != Ready && state != Active) || (haveSequence && newSequence <= sequence) {
        return false;
      }
      var fits := CommandFits(v);
      if !fits { return false; }
      if (v[3] > 0 && feedback.liftPositionUm >= config.liftMaxUm) ||
         (v[3] < 0 && feedback.liftPositionUm <= config.liftMinUm) {
        return false;
      }
      target, sequence, haveSequence, commandMs := v, newSequence, true, now;
      commandValidForMs, state := config.commandTimeoutMs, Active;
      ok := true;
    }

    method CommandUntil(forSession: u32, newSequence: u32, v: Axes, validUntil: u32, now: u32) returns (ok: bool)
      modifies this
      ensures (State(), ok) == CommandedUntil(old(State()), forSession, newSequence, v, validUntil, now)
    {
      var remaining := Sub(validUntil, now);
      Poll(now);
      if remaining == 0 || remaining > config.commandTimeoutMs { return false; }
      ok := Command(forSession, newSequence, v, now);
      if !ok { return; }
      commandValidForMs := remaining;
    }

    method Stop()
      modifies this
      ensures State() == Halted(old(State()))
    {
      Latch(RequestReason);
    }

    method ApplyMessage(m: Message, now: u32) returns (ok: bool)
      modifies this
      ensures (State(), ok) == Applied(old(State()), m, now)
    {
      Poll(now);
      var remaining := Sub(m.validUntilMs, now);
      if remaining == 0 || remaining > config.commandTimeoutMs { return false; }
      match m.opcode {
        case ArmOp => ok := Arm(m.session, now);
        case VelocityOp => ok := CommandUntil(m.session, m.sequence, m.velocity, m.validUntilMs, now);
        case StopOp =>
          if m.session != session || state == Disabled || (haveSequence && m.sequence <= sequence) { return false; }
          Stop();
          sequence, haveSequence := m.sequence, true;
          ok := true;
      }
    }
  }

  // ---- every run ------------------------------------------------------------

  datatype Op =
    | Feed(feedback: Feedback, now: u32)
    | Host(message: Message, now: u32)
    | Arm(session: u32, now: u32)
    | Poll(now: u32)
    | Stop

  function Step(s: Supervisor, op: Op): (Supervisor, bool) {
    match op
    case Feed(f, now) => Observed(s, f, now)
    case Host(m, now) => Applied(s, m, now)
    case Arm(session, now) => Armed(s, session, now)
    case Poll(now) => (Watched(s, now), true)
    case Stop => (Halted(s), true)
  }

  function Run(s: Supervisor, ops: seq<Op>): Supervisor
    decreases |ops|
  {
    if ops == [] then s else Run(Step(s, ops[0]).0, ops[1..])
  }

  /** Only an active session moves anything, and within each axis's limit. */
  predicate TargetSafe(s: Supervisor) {
    (s.target != AT_REST ==> s.state == Active) && WithinMaximum(s.target, s.config.maxVelocity)
  }

  predicate NumbersTimely(s: Supervisor) {
    s.state == Active ==> 0 < s.commandValidForMs <= s.config.commandTimeoutMs
  }

  lemma WatchKeepsSafe(s: Supervisor, now: u32)
    requires ValidConfig(s.config) && TargetSafe(s) && NumbersTimely(s)
    ensures var w := Watched(s, now);
            && TargetSafe(w) && NumbersTimely(w) && w.config == s.config
            && w.session == s.session && w.haveSequence == s.haveSequence && w.sequence == s.sequence
            && (w.state == Active ==> s.state == Active)
  {
    hide Healthy, LiftInside, AgainstLimit;
  }

  predicate Safe(s: Supervisor, config: MobileConfig) {
    ValidConfig(s.config) && TargetSafe(s) && NumbersTimely(s) && s.config == config
  }

  lemma ArmKeepsSafe(s: Supervisor, session: u32, now: u32)
    requires Safe(s, s.config)
    ensures Safe(Armed(s, session, now).0, s.config)
  {
    hide Watched, MeasuredStopped, ValidConfig;
    WatchKeepsSafe(s, now);
  }

  lemma CommandKeepsSafe(s: Supervisor, session: u32, sequence: u32, v: Axes, now: u32)
    requires Safe(s, s.config)
    ensures Safe(Commanded(s, session, sequence, v, now).0, s.config)
  {
    hide Watched, AgainstLimit, WithinMaximum;
    WatchKeepsSafe(s, now);
  }

  lemma CommandUntilKeepsSafe(s: Supervisor, session: u32, sequence: u32, v: Axes, validUntil: u32, now: u32)
    requires Safe(s, s.config)
    ensures Safe(CommandedUntil(s, session, sequence, v, validUntil, now).0, s.config)
  {
    hide Watched, Commanded, WithinMaximum, ValidConfig;
    WatchKeepsSafe(s, now);
    CommandKeepsSafe(Watched(s, now), session, sequence, v, now);
  }

  lemma MessageKeepsSafe(s: Supervisor, m: Message, now: u32)
    requires Safe(s, s.config)
    ensures Safe(Applied(s, m, now).0, s.config)
  {
    hide Watched, Armed, CommandedUntil, WithinMaximum, ValidConfig;
    WatchKeepsSafe(s, now);
    ArmKeepsSafe(Watched(s, now), m.session, now);
    CommandUntilKeepsSafe(Watched(s, now), m.session, m.sequence, m.velocity, m.validUntilMs, now);
    HaltKeepsSafe(Watched(s, now));
  }

  lemma HaltKeepsSafe(s: Supervisor)
    requires Safe(s, s.config)
    ensures Safe(Halted(s), s.config)
  {
  }

  lemma FeedKeepsSafe(s: Supervisor, f: Feedback, now: u32)
    requires Safe(s, s.config)
    ensures Safe(Observed(s, f, now).0, s.config)
  {
    hide Watched, AcceptableFeedback, WithinMaximum, ValidConfig;
    WatchKeepsSafe(s, now);
    WatchKeepsSafe(Watched(s, now).(feedback := f, haveFeedback := true), now);
  }

  lemma StepKeepsSafe(s: Supervisor, op: Op)
    requires Safe(s, s.config)
    ensures Safe(Step(s, op).0, s.config)
  {
    hide Safe, Watched, Observed, Armed, Applied, Halted;
    match op {
      case Feed(f, now) => FeedKeepsSafe(s, f, now);
      case Host(m, now) => MessageKeepsSafe(s, m, now);
      case Arm(session, now) => ArmKeepsSafe(s, session, now);
      case Poll(now) => WatchIsSafe(s, now);
      case Stop => HaltKeepsSafe(s);
    }
  }

  lemma WatchIsSafe(s: Supervisor, now: u32)
    requires Safe(s, s.config)
    ensures Safe(Watched(s, now), s.config)
  {
    hide Watched;
    WatchKeepsSafe(s, now);
  }

  /** In every run a nonzero target exists only while a command is active, and stays
      within the configured maximum of each axis. */
  lemma {:induction false} RunIsSafe(s: Supervisor, ops: seq<Op>)
    requires Safe(s, s.config)
    ensures TargetSafe(Run(s, ops)) && NumbersTimely(Run(s, ops)) && Run(s, ops).config == s.config
    decreases |ops|
  {
    hide Step, TargetSafe, NumbersTimely;
    if ops != [] {
      StepKeepsSafe(s, ops[0]);
      RunIsSafe(Step(s, ops[0]).0, ops[1..]);
    }
  }

  /** After any poll an active state means an unexpired command on fresh, healthy feedback
      with the lift inside its travel. */
  lemma PolledActiveIsCurrent(s: Supervisor, now: u32)
    requires Watched(s, now).state == Active
    ensures var w := Watched(s, now);
            && w == s && Healthy(w, now) && LiftInside(w) && !AgainstLimit(w, w.target[3])
            && Sub(now, w.commandMs) < w.commandValidForMs
  {
  }

  // ---- replay ---------------------------------------------------------------

  datatype Number = Number(session: u32, sequence: u32)

  /** Lexicographic order of (session, sequence). */
  predicate Newer(a: Number, b: Number) {
    a.session > b.session || (a.session == b.session && a.sequence > b.sequence)
  }

  /** The number of a VELOCITY or STOP frame that the step accepted. */
  function Number1(s: Supervisor, op: Op): seq<Number> {
    if op.Host? && op.message.opcode != ArmOp && Step(s, op).1
    then [Number(op.message.session, op.message.sequence)] else []
  }

  function AcceptedNumbers(s: Supervisor, ops: seq<Op>): seq<Number>
    decreases |ops|
  {
    if ops == [] then [] else Number1(s, ops[0]) + AcceptedNumbers(Step(s, ops[0]).0, ops[1..])
  }

  /** A number not yet used up by the supervisor's session and sequence. */
  predicate Unused(s: Supervisor, n: Number) {
    n.session > s.session || (n.session == s.session && (s.haveSequence ==> n.sequence > s.sequence))
  }

  lemma WatchKeepsNumbers(s: Supervisor, now: u32)
    ensures var w := Watched(s, now);
            w.session == s.session && w.haveSequence == s.haveSequence && w.sequence == s.sequence
  {
    hide Healthy, LiftInside, AgainstLimit;
  }

  lemma StepUsesNumbers(s: Supervisor, op: Op, n: Number)
    ensures Unused(Step(s, op).0, n) ==> Unused(s, n)
    ensures Number1(s, op) != [] ==>
      Unused(s, Number1(s, op)[0]) && (Unused(Step(s, op).0, n) ==> Newer(n, Number1(s, op)[0]))
  {
    hide Watched, Healthy, MeasuredStopped, AcceptableFeedback, AgainstLimit, WithinMaximum;
    match op {
      case Feed(f, now) =>
        WatchKeepsNumbers(s, now);
        WatchKeepsNumbers(Watched(s, now).(feedback := f, haveFeedback := true), now);
      case Host(m, now) =>
        WatchKeepsNumbers(s, now);
        WatchKeepsNumbers(Watched(s, now), now);
        WatchKeepsNumbers(Watched(Watched(s, now), now), now);
      case Arm(session, now) => WatchKeepsNumbers(s, now);
      case Poll(now) => WatchKeepsNumbers(s, now);
      case Stop =>
    }
  }

  lemma {:induction false} AcceptedAreUnused(s: Supervisor, ops: seq<Op>)
    ensures forall n :: n in AcceptedNumbers(s, ops) ==> Unused(s, n)
    decreases |ops|
  {
    hide Step, Unused;
    if ops != [] {
      AcceptedAreUnused(Step(s, ops[0]).0, ops[1..]);
      forall n | n in AcceptedNumbers(s, ops) ensures Unused(s, n) {
        StepUsesNumbers(s, ops[0], n);
      }
    }
  }

  predicate Increasing(a: seq<Number>) {
    forall i, j :: 0 <= i < j < |a| ==> Newer(a[j], a[i])
  }

  /** Replay rejection. Over any run, the (session, sequence) numbers of the accepted
      VELOCITY and STOP frames strictly increase. */
  lemma {:induction false} AcceptedNumbersIncrease(s: Supervisor, ops: seq<Op>)
    ensures Increasing(AcceptedNumbers(s, ops))
    decreases |ops|
  {
    hide Step, Unused, Newer, Number1;
    if ops != [] {
      var s1 := Step(s, ops[0]).0;
      var first, later := Number1(s, ops[0]), AcceptedNumbers(s1, ops[1..]);
      AcceptedNumbersIncrease(s1, ops[1..]);
      AcceptedAreUnused(s1, ops[1..]);
      AtMostOne(s, ops[0]);
      var all := first + later;
      forall i, j | 0 <= i < j < |all| ensures Newer(all[j], all[i]) {
        assert all[j] == later[j - |first|];
        if i < |first| {
          assert all[j] in later && all[i] == first[0];
          StepUsesNumbers(s, ops[0], all[j]);
        } else {
          assert all[i] == later[i - |first|];
        }
      }
    }
  }

  lemma AtMostOne(s: Supervisor, op: Op)
    ensures |Number1(s, op)| <= 1
  {
    hide Step;
  }
}

// What each supervisor operation does in every case: what latches a stop and why, and what
// feedback, session, command and message are accepted, exactly.
module SupervisorLaws {
  import opened Words
  import opened MobileSupervisor

  // ---- watching -------------------------------------------------------------

  predicate Armable(s: Supervisor) {
    s.state == Disabled || s.state == StopLatched
  }

  predicate Doubtful(s: Supervisor, now: u32) {
    || !s.haveFeedback || Sub(now, s.feedback.observedMs) >= s.config.feedbackTimeoutMs
    || !s.feedback.hardwareOk || !s.feedback.modesVerified || !s.feedback.liftHomed
  }

  predicate LiftOut(s: Supervisor) {
    s.feedback.liftPositionUm < s.config.liftMinUm || s.feedback.liftPositionUm > s.config.liftMaxUm
  }

  /** A lift speed away from the travel at its end. */
  predicate Pushes(s: Supervisor, lift: i32) {
    || (lift > 0 && s.feedback.liftPositionUm >= s.config.liftMaxUm)
    || (lift < 0 && s.feedback.liftPositionUm <= s.config.liftMinUm)
  }

  predicate Overdue(s: Supervisor, now: u32) {
    s.state == Active && Sub(now, s.commandMs) >= s.commandValidForMs
  }

  /** A stop latched for this reason, with nothing left to drive. */
  function Stopped(s: Supervisor, reason: MobileReason): Supervisor {
    s.(state := StopLatched, reason := reason, target := [0, 0, 0, 0])
  }

  /** Watching latches a stop exactly when the supervisor is ready or active and its feedback
      is doubtful, the lift is outside or driven against its end, or the command is overdue;
      the first of these is the reason. Otherwise nothing changes. */
  lemma WatchIsExact(s: Supervisor, now: u32)
    ensures var w := Watched(s, now);
            if Armable(s) then w == s
            else if Doubtful(s, now) then w == Stopped(s, FeedbackReason)
            else if LiftOut(s) || Pushes(s, s.target[3]) then w == Stopped(s, LiftLimitReason)
            else if Overdue(s, now) then w == Stopped(s, CommandTimeoutReason)
            else w == s
  {
  }

  /** A requested stop: the first stop keeps its reason. */
  lemma HaltIsExact(s: Supervisor)
    ensures var h := Halted(s);
            h == s.(state := StopLatched, target := [0, 0, 0, 0],
                    reason := if s.state == StopLatched then s.reason else RequestReason)
  {
  }

  // ---- feedback, sessions ---------------------------------------------------

  /** Feedback is taken exactly when fresh, strictly newer than the last and in range, and is
      then looked at once more. */
  lemma FeedbackIsExact(s: Supervisor, f: Feedback, now: u32)
    ensures var w := Watched(s, now);
            var (n, ok) := Observed(s, f, now);
            && (ok <==> && Sub(now, f.observedMs) < s.config.feedbackTimeoutMs
                        && (s.haveFeedback ==> 0 < Sub(f.observedMs, s.feedback.observedMs) < HALF)
                        && forall i :: 0 <= i < 4 ==> -32767 <= f.velocity[i] <= 32767)
            && (ok ==> n == Watched(w.(feedback := f, haveFeedback := true), now))
            && (!ok ==> n == w)
  {
    WatchKeepsFacts(s, now);
  }

  lemma WatchKeepsFacts(s: Supervisor, now: u32)
    ensures var w := Watched(s, now);
            && w.config == s.config && w.feedback == s.feedback && w.haveFeedback == s.haveFeedback
            && w.session == s.session && w.sequence == s.sequence && w.haveSequence == s.haveSequence
            && (w.state == Disabled <==> s.state == Disabled) && (Armable(s) ==> w == s)
            && (!Armable(w) ==> w == s)
  {
    WatchIsExact(s, now);
  }

  predicate AtRestNow(s: Supervisor, now: u32) {
    && !Doubtful(s, now) && !LiftOut(s)
    && forall i :: 0 <= i < 4 ==> -(s.config.stoppedVelocity as int) <= s.feedback.velocity[i] <= s.config.stoppedVelocity
  }

  /** A session is armed exactly when its number is later than any before, the supervisor is
      disabled or stopped (also by this very look), and everything is measured at rest. */
  lemma ArmIsExact(s: Supervisor, session: u32, now: u32)
    ensures var w := Watched(s, now);
            var (n, ok) := Armed(s, session, now);
            && (ok <==> session > s.session && Armable(w) && AtRestNow(s, now))
            && (ok ==> n == w.(session := session, haveSequence := false, state := Ready, reason := NoReason,
                               target := [0, 0, 0, 0]))
            && (!ok ==> n == w)
  {
    hide Watched;
    WatchKeepsFacts(s, now);
  }

  // ---- commands -------------------------------------------------------------

  /** Speeds this supervisor may drive now: within every axis, and not against the lift's end. */
  predicate Drivable(s: Supervisor, v: Axes) {
    && (forall i :: 0 <= i < 4 ==> -(s.config.maxVelocity[i] as int) <= v[i] <= s.config.maxVelocity[i])
    && !Pushes(s, v[3])
  }

  /** A command is taken exactly in the armed session, still ready or active, under a number
      not used in it, with drivable speeds; it then is the target for the full timeout. */
  lemma CommandIsExact(s: Supervisor, session: u32, sequence: u32, v: Axes, now: u32)
    ensures var w := Watched(s, now);
            var (n, ok) := Commanded(s, session, sequence, v, now);
            && (ok <==> && session == s.session && !Armable(w) && (s.haveSequence ==> sequence > s.sequence)
                        && Drivable(s, v))
            && (ok ==> n == s.(target := v, sequence := sequence, haveSequence := true, commandMs := now,
                               commandValidForMs := s.config.commandTimeoutMs, state := Active))
            && (!ok ==> n == w)
  {
    hide Watched;
    WatchKeepsFacts(s, now);
  }

  lemma WatchTwice(s: Supervisor, now: u32)
    ensures Watched(Watched(s, now), now) == Watched(s, now)
  {
  }

  /** What a host message does. It must arrive before its deadline, and not too long before.
      Arming is as above; a velocity must be a command as above, and lives until the message's
      own deadline; a stop needs the session and an unused number, and always stops. Anything
      else is refused, after the same look. */
  lemma MessageIsExact(s: Supervisor, m: Message, now: u32)
    ensures var w := Watched(s, now);
            var (n, ok) := Applied(s, m, now);
            var left := Sub(m.validUntilMs, now);
            var timely := 0 < left <= s.config.commandTimeoutMs;
            var unused := m.session == s.session && (s.haveSequence ==> m.sequence > s.sequence);
            && (ok <==> && timely
                        && (m.opcode == ArmOp ==> m.session > s.session && Armable(w) && AtRestNow(s, now))
                        && (m.opcode == VelocityOp ==> unused && !Armable(w) && Drivable(s, m.velocity))
                        && (m.opcode == StopOp ==> unused && s.state != Disabled))
            && (!ok ==> n == w)
            && (ok && m.opcode == ArmOp ==>
                  n == w.(session := m.session, haveSequence := false, state := Ready, reason := NoReason,
                          target := [0, 0, 0, 0]))
            && (ok && m.opcode == VelocityOp ==>
                  n == s.(target := m.velocity, sequence := m.sequence, haveSequence := true, commandMs := now,
                          commandValidForMs := left, state := Active))
            && (ok && m.opcode == StopOp ==>
                  && n == w.(sequence := m.sequence, haveSequence := true, state := StopLatched, target := [0, 0, 0, 0],
                             reason := n.reason)
                  && (w.state != StopLatched ==> n.reason == RequestReason))
  {
    hide Watched, Armed, Commanded, Halted;
    WatchKeepsFacts(s, now);
    WatchTwice(s, now);
    var w := Watched(s, now);
    ArmIsExact(w, m.session, now);
    CommandIsExact(w, m.session, m.sequence, m.velocity, now);
    HaltIsExact(w);
  }
}

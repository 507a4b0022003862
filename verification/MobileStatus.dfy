// The base's status reply on both sides: the host reads from it exactly the supervisor's
// state, learns exactly whether its message was accepted, and calls the base ready exactly
// when it is; and every byte sent to the endpoint is accounted for.
module MobileStatus {
  import opened Words
  import opened Optional
  import opened Crc32c
  import opened MobileSupervisor
  import opened MobileWire
  import opened MobileEndpoint
  import opened MobileFramed

  // ---- the host's reading ---------------------------------------------------

  datatype HostStatus = HostStatus(
    kind: u8, requestSequence: u32, tickMs: u32, bootId: u32, capabilities: u32, session: u32, sequence: u32,
    state: u8, reason: u8, flags: u8, feedbackMs: u32, velocity: Axes, liftPositionUm: i32, rejected: u32)

  predicate ReplyKind(kind: u8) {
    1 <= kind <= 6 || 129 <= kind <= 134
  }

  function HostReadStatus(p: seq<u8>): Option<HostStatus> {
    if |p| != STATUS_SIZE || p[0] != 65 || p[1] != 83 || p[2] != 1 || Read32(p, 60) != Checksum(p[..60]) then None
    else if Read32(p, 12) == 0 || p[28] > 3 || p[29] > 4 || p[30] >= 32 || p[31] != 0 || !ReplyKind(p[3]) then None
    else
      Some(HostStatus(p[3], Read32(p, 4), Read32(p, 8), Read32(p, 12), Read32(p, 16), Read32(p, 20), Read32(p, 24),
                      p[28], p[29], p[30], Read32(p, 32),
                      [ReadI32(p, 36), ReadI32(p, 40), ReadI32(p, 44), ReadI32(p, 48)], ReadI32(p, 52), Read32(p, 56)))
  }

  /** What the host should read: commands, feedback and a clock, but no lift height control. */
  function StatusOf(e: EndpointState, kind: u8, sequence: u32, now: u32): HostStatus {
    var s := e.supervisor;
    HostStatus(kind, sequence, now, e.bootId, 7, s.session, s.sequence, StateByte(s.state), ReasonByte(s.reason),
               FlagsByte(s, now), s.feedback.observedMs, s.feedback.velocity, s.feedback.liftPositionUm, e.rejected)
  }

  function HeadWords(e: EndpointState, sequence: u32, now: u32): (ws: seq<u32>)
    ensures |ws| == 6
  {
    [sequence, now, e.bootId, 7, e.supervisor.session, e.supervisor.sequence]
  }

  function TailWords(e: EndpointState): (ws: seq<u32>)
    ensures |ws| == 7
  {
    var f := e.supervisor.feedback;
    [f.observedMs, SignedWord(f.velocity[0]), SignedWord(f.velocity[1]), SignedWord(f.velocity[2]), SignedWord(f.velocity[3]),
     SignedWord(f.liftPositionUm), e.rejected]
  }

  lemma HeadIsPacked(e: EndpointState, kind: u8, sequence: u32, now: u32)
    ensures var p := Status(e, kind, sequence, now);
            p[4..28] == Packed(HeadWords(e, sequence, now)) && p[..4] == [65, 83, 1, kind]
  {
    hide Bytes32, Checksum, FlagsByte;
    PackedSix(sequence, now, e.bootId, 7, e.supervisor.session, e.supervisor.sequence);
  }

  lemma PackedOne(a: u32)
    ensures Packed([a]) == Bytes32(a)
  {
    hide Bytes32;
    assert [a][1..] == [] && Packed([]) == [];
    assert Bytes32(a) + [] == Bytes32(a);
  }

  lemma PackedThree(a: u32, b: u32, c: u32)
    ensures Packed([a, b, c]) == Bytes32(a) + Bytes32(b) + Bytes32(c)
  {
    hide Bytes32, Packed;
    PackedOne(a);
    PackedOne(b);
    PackedOne(c);
    PackedJoins([a], [b]);
    PackedJoins([a, b], [c]);
    assert [a] + [b] == [a, b] && [a, b] + [c] == [a, b, c];
  }

  lemma {:induction false} PackedJoins(x: seq<u32>, y: seq<u32>)
    ensures Packed(x + y) == Packed(x) + Packed(y)
    decreases |x|
  {
    hide Bytes32;
    if x == [] {
      assert x + y == y;
    } else {
      assert (x + y)[1..] == x[1..] + y;
      PackedJoins(x[1..], y);
    }
  }

  lemma PackedSix(a: u32, b: u32, c: u32, d: u32, e: u32, f: u32)
    ensures Packed([a, b, c, d, e, f]) == Bytes32(a) + Bytes32(b) + Bytes32(c) + Bytes32(d) + Bytes32(e) + Bytes32(f)
  {
    hide Bytes32, Packed;
    PackedThree(a, b, c);
    PackedThree(d, e, f);
    PackedJoins([a, b, c], [d, e, f]);
    assert [a, b, c, d, e, f] == [a, b, c] + [d, e, f];
  }

  lemma TailIsPacked(e: EndpointState, kind: u8, sequence: u32, now: u32)
    ensures var p := Status(e, kind, sequence, now);
            && p[32..60] == Packed(TailWords(e))
            && p[28..32] == [StateByte(e.supervisor.state), ReasonByte(e.supervisor.reason), FlagsByte(e.supervisor, now), 0]
  {
    hide Bytes32, Checksum, FlagsByte, SignedWord;
    var f := e.supervisor.feedback;
    var s := e.supervisor;
    var bits := [StateByte(s.state), ReasonByte(s.reason), FlagsByte(s, now), 0];
    var front := [65, 83, 1, kind] + Bytes32(sequence) + Bytes32(now) + Bytes32(e.bootId) + Bytes32(7)
                 + Bytes32(s.session) + Bytes32(s.sequence);
    var tail := Bytes32(f.observedMs) + VelocityBytes(f.velocity) + Bytes32(SignedWord(f.liftPositionUm)) + Bytes32(e.rejected);
    assert StatusBody(e, kind, sequence, now) == front + bits + tail;
    assert Status(e, kind, sequence, now)[32..60] == tail;
    PackedSeven(f.observedMs, SignedWord(f.velocity[0]), SignedWord(f.velocity[1]), SignedWord(f.velocity[2]),
                SignedWord(f.velocity[3]), SignedWord(f.liftPositionUm), e.rejected);
  }

  lemma PackedSeven(a: u32, b: u32, c: u32, d: u32, e: u32, f: u32, g: u32)
    ensures Packed([a, b, c, d, e, f, g])
         == Bytes32(a) + (Bytes32(b) + Bytes32(c) + Bytes32(d) + Bytes32(e)) + Bytes32(f) + Bytes32(g)
  {
    hide Bytes32;
    assert [a, b, c, d, e, f, g][1..] == [b, c, d, e, f, g];
    PackedSix(b, c, d, e, f, g);
  }

  lemma HeadReads(p: seq<u8>, e: EndpointState, sequence: u32, now: u32)
    requires |p| == 64 && p[4..28] == Packed(HeadWords(e, sequence, now))
    ensures Read32(p, 4) == sequence && Read32(p, 8) == now && Read32(p, 12) == e.bootId && Read32(p, 16) == 7
    ensures Read32(p, 20) == e.supervisor.session && Read32(p, 24) == e.supervisor.sequence
  {
    hide Read32, Packed;
    var ws := HeadWords(e, sequence, now);
    ReadPacked(p, 4, ws, 0);
    ReadPacked(p, 4, ws, 1);
    ReadPacked(p, 4, ws, 2);
    ReadPacked(p, 4, ws, 3);
    ReadPacked(p, 4, ws, 4);
    ReadPacked(p, 4, ws, 5);
  }

  lemma TailReads(p: seq<u8>, e: EndpointState)
    requires |p| == 64 && p[32..60] == Packed(TailWords(e))
    ensures var f := e.supervisor.feedback;
            && Read32(p, 32) == f.observedMs
            && [ReadI32(p, 36), ReadI32(p, 40), ReadI32(p, 44), ReadI32(p, 48)] == f.velocity
            && ReadI32(p, 52) == f.liftPositionUm && Read32(p, 56) == e.rejected
  {
    hide Read32, Packed, SignedWord, ToI32;
    var ws := TailWords(e);
    var f := e.supervisor.feedback;
    ReadPacked(p, 32, ws, 0);
    ReadPacked(p, 32, ws, 1);
    ReadPacked(p, 32, ws, 2);
    ReadPacked(p, 32, ws, 3);
    ReadPacked(p, 32, ws, 4);
    ReadPacked(p, 32, ws, 5);
    ReadPacked(p, 32, ws, 6);
    SignedRoundTrip(f.velocity[0], 0);
    SignedRoundTrip(f.velocity[1], 0);
    SignedRoundTrip(f.velocity[2], 0);
    SignedRoundTrip(f.velocity[3], 0);
    SignedRoundTrip(f.liftPositionUm, 0);
  }

  /** The host reads from a status exactly the state it was made from. */
  lemma StatusIsRead(e: EndpointState, kind: u8, sequence: u32, now: u32)
    requires e.bootId != 0 && ReplyKind(kind)
    ensures HostReadStatus(Status(e, kind, sequence, now)) == Some(StatusOf(e, kind, sequence, now))
  {
    hide Checksum, Bytes32, Read32, SignedWord, ToI32, Packed, MeasuredStopped, HeadWords, TailWords;
    var p := Status(e, kind, sequence, now);
    var b := StatusBody(e, kind, sequence, now);
    assert p[..60] == b && p[60..64] == Bytes32(Checksum(b));
    ReadsBack(p, 60, Checksum(b));
    HeadIsPacked(e, kind, sequence, now);
    TailIsPacked(e, kind, sequence, now);
    HeadReads(p, e, sequence, now);
    TailReads(p, e);
    FourBytes(p, 0, [65, 83, 1, kind]);
    FourBytes(p, 28, [StateByte(e.supervisor.state), ReasonByte(e.supervisor.reason), FlagsByte(e.supervisor, now), 0]);
  }

  lemma FourBytes(p: seq<u8>, at: nat, b: seq<u8>)
    requires at + 4 <= |p| && |b| == 4 && p[at..at + 4] == b
    ensures p[at] == b[0] && p[at + 1] == b[1] && p[at + 2] == b[2] && p[at + 3] == b[3]
  {
    assert p[at] == p[at..at + 4][0] && p[at + 1] == p[at..at + 4][1];
    assert p[at + 2] == p[at..at + 4][2] && p[at + 3] == p[at..at + 4][3];
  }

  // ---- what a window does ---------------------------------------------------

  predicate SpareIsZero(w: seq<u8>)
    requires |w| == WIRE_SIZE
  {
    forall i :: 16 <= i < 32 ==> w[i] == 0
  }

  /** What a complete window does: a query changes nothing, and is accepted exactly with a
      nonce and clean spare bytes; a command acts as its message, if it is one; anything else
      is refused. */
  lemma WindowIsServed(s: Supervisor, w: seq<u8>, now: u32)
    requires |w| == WIRE_SIZE
    ensures var (n, ok) := Serve(s, w, now);
            && (4 <= w[3] <= 6 && Read32(w, 4) != 0 ==> n == s && (ok <==> SpareIsZero(w)))
            && (1 <= w[3] <= 3 && Decode(w).Some? ==> (n, ok) == Applied(s, Decode(w).value, now))
            && (1 <= w[3] <= 3 && Decode(w).None? ==> n == Watched(s, now) && !ok)
            && (!(1 <= w[3] <= 6) || (4 <= w[3] <= 6 && Read32(w, 4) == 0) ==> n == s && !ok)
  {
    hide Decode, Applied, Watched, Read32;
  }

  /** A code the wire knows, with or without the refusal bit, is one the host reads. */
  lemma KnownKindsAreRead(e: EndpointState, w: seq<u8>, now: u32)
    requires |w| == WIRE_SIZE && e.bootId != 0 && 1 <= w[3] <= 6
    ensures var (n, reply) := Answered(e, w, now);
            var (s, ok) := Serve(e.supervisor, w, now);
            && n.supervisor == s && n.bootId == e.bootId
            && n.rejected == (if ok || e.rejected == U32_MAX then e.rejected else e.rejected + 1)
            && HostReadStatus(reply) == Some(StatusOf(n, if ok then w[3] else w[3] + 128, Read32(w, 8), now))
  {
    hide Serve, Status, HostReadStatus, StatusOf, Read32;
    var (s, ok) := Serve(e.supervisor, w, now);
    var e1 := e.(supervisor := s, rejected := if ok then e.rejected else Saturate(e.rejected));
    StatusIsRead(e1, if ok then w[3] else w[3] + 128, Read32(w, 8), now);
  }

  // ---- a framed request -----------------------------------------------------

  lemma {:induction false} WindowIsAnswered(e: EndpointState, w: seq<u8>, n: nat, now: u32)
    requires |w| == WIRE_SIZE && GoodWindow(w) && n < WIRE_SIZE
    requires e.buffer == w[..n] && (n > 0 ==> e.lastByteMs == now) && e.supervisor == Watched(e.supervisor, now)
    ensures FedAll(e, w[n..], now, None) ==
              var (e2, reply) := Answered(e.(buffer := [], lastByteMs := now), w, now); (e2, Some(reply))
    decreases WIRE_SIZE - n
  {
    hide Checksum, Read32, GoodWindow, HeaderPossible, Status, Serve, Watched, ParseByte;
    PrefixIsPossible(w, n + 1);
    assert e.buffer + [w[n]] == w[..n + 1];
    assert w[n..][0] == w[n] && w[n..][1..] == w[n + 1..];
    WindowParses(e.buffer, w, n);
    if n + 1 < WIRE_SIZE {
      NothingRejected(e.rejected);
      WindowIsAnswered(Fed(e, w[n], now).0, w, n + 1, now);
      assert Fed(e, w[n], now).0.(buffer := [], lastByteMs := now) == e.(buffer := [], lastByteMs := now);
    } else {
      NothingRejected(e.rejected);
      assert w[WIRE_SIZE..] == [];
    }
  }

  lemma NothingRejected(rejected: u32)
    ensures SaturatedAdd(rejected, 0) == rejected
  {
  }

  lemma WindowParses(buffer: seq<u8>, w: seq<u8>, n: nat)
    requires |w| == WIRE_SIZE && GoodWindow(w) && n < WIRE_SIZE && buffer == w[..n]
    ensures ParseByte(buffer, w[n]) == if n + 1 < WIRE_SIZE then Parsed(w[..n + 1], None, 0) else Parsed([], Some(w), 0)
  {
    hide Checksum, Read32, GoodWindow, HeaderPossible;
    PrefixIsPossible(w, n + 1);
    assert buffer + [w[n]] == w[..n + 1];
    if n + 1 == WIRE_SIZE {
      assert w[..n + 1] == w;
      CompleteWindow(w);
    }
  }

  lemma WatchedTwice(s: Supervisor, now: u32)
    ensures Watched(Watched(s, now), now) == Watched(s, now)
  {
  }

  /** The host learns the truth. The reply to a well-formed framed request is read by the
      host as the state the request left behind, under the request's own code exactly if it
      was accepted. */
  lemma RequestIsAnswered(e: EndpointState, r: Frame, now: u32)
    requires r.messageType == MOBILE_REQUEST && WellFormedRequest(r) && e.bootId != 0
    ensures var (after, response) := Framed(Some(e), r, now);
            var (s, ok) := Serve(Watched(e.supervisor, now), r.payload, now);
            && after.Some? && after.value.supervisor == s && after.value.buffer == []
            && response.Some? && |response.value.payload| == 1 + STATUS_SIZE && response.value.payload[0] == 0
            && HostReadStatus(response.value.payload[1..]) ==
                 Some(StatusOf(after.value, if ok then r.payload[3] else r.payload[3] + 128, Read32(r.payload, 8), now))
  {
    hide GoodWindow, Serve, HostReadStatus, StatusOf, Read32, Watched, Status, FedAll;
    var w := r.payload;
    var start := e.(buffer := []);
    FirstByteWatches(start, w, now);
    var watched := start.(supervisor := Watched(e.supervisor, now));
    WatchedTwice(e.supervisor, now);
    WindowIsAnswered(watched, w, 0, now);
    assert w[0..] == w;
    KnownKindsAreRead(watched.(lastByteMs := now), w, now);
    var reply := Answered(watched.(lastByteMs := now), w, now).1;
    assert ([0] + reply)[1..] == reply;
  }

  /** The first byte looks at the supervisor, so looking before makes no difference. */
  lemma FirstByteWatches(e: EndpointState, w: seq<u8>, now: u32)
    requires |w| == WIRE_SIZE && e.buffer == []
    ensures FedAll(e, w, now, None) == FedAll(e.(supervisor := Watched(e.supervisor, now)), w, now, None)
  {
    hide Watched, ParseByte, Serve, Status;
    WatchedTwice(e.supervisor, now);
  }

  // ---- ready for motion -----------------------------------------------------

  predicate Bit(flags: u8, value: nat)
    requires value > 0
  {
    flags / value % 2 == 1
  }

  /** Each flag means what it says. */
  lemma FlagsTellTheTruth(s: Supervisor, now: u32)
    ensures var f := FlagsByte(s, now);
            && (Bit(f, 1) <==> s.haveFeedback) && (Bit(f, 2) <==> s.feedback.modesVerified)
            && (Bit(f, 4) <==> s.feedback.liftHomed) && (Bit(f, 8) <==> MeasuredStopped(s, now))
            && (Bit(f, 16) <==> s.feedback.hardwareOk) && f < 32
  {
    hide MeasuredStopped;
  }

  /** The host's test before it drives. */
  predicate HostReady(h: HostStatus, session: u32, maximumAgeMs: u32) {
    && 0 < session && h.session == session && (h.state == 1 || h.state == 2) && h.reason == 0
    && Bit(h.flags, 1) && Bit(h.flags, 2) && Bit(h.flags, 4) && Bit(h.flags, 16)
    && Sub(h.tickMs, h.feedbackMs) <= maximumAgeMs
  }

  /** The host calls the base ready exactly when the supervisor, in the host's own session, is
      ready or active without a reason to stop, on recent feedback of verified modes, healthy
      hardware and a homed lift. */
  lemma ReadinessIsBelievedTruly(e: EndpointState, kind: u8, sequence: u32, now: u32, session: u32, maximumAgeMs: u32)
    requires e.bootId != 0 && ReplyKind(kind)
    ensures HostReadStatus(Status(e, kind, sequence, now)).Some?
    ensures var s := e.supervisor;
            HostReady(HostReadStatus(Status(e, kind, sequence, now)).value, session, maximumAgeMs) <==>
              && session != 0 && s.session == session && (s.state == Ready || s.state == Active) && s.reason == NoReason
              && s.haveFeedback && s.feedback.modesVerified && s.feedback.liftHomed && s.feedback.hardwareOk
              && Sub(now, s.feedback.observedMs) <= maximumAgeMs
  {
    hide Status, HostReadStatus, MeasuredStopped;
    StatusIsRead(e, kind, sequence, now);
  }

  // ---- every byte is accounted for ------------------------------------------

  lemma {:induction false} ResyncKeepsSuffix(b: seq<u8>)
    ensures |Resync(b)| <= |b|
    decreases |b|
  {
    if b != [] && !HeaderPossible(b) { ResyncKeepsSuffix(b[1..]); }
  }

  /** Accounting. Each byte fed is buffered, part of a complete window, or rejected: nothing
      is lost and nothing counted twice. */
  lemma BytesAreAccounted(buffer: seq<u8>, byte: u8)
    requires |buffer| < WIRE_SIZE
    ensures var p := ParseByte(buffer, byte);
            |buffer| + 1 == |p.buffer| + (if p.window.Some? then WIRE_SIZE else 0) + p.rejects
  {
    hide Checksum, Read32;
    ResyncKeepsSuffix(buffer + [byte]);
  }

  /** The endpoint counts every rejected byte, every gap that discards a begun window, and
      every refused window, up to the largest count. */
  lemma RejectsAreCounted(e: EndpointState, byte: u8, now: u32)
    ensures var gap := e.buffer != [] && Sub(now, e.lastByteMs) >= 100;
            var p := ParseByte(if gap then [] else e.buffer, byte);
            var served := p.window.Some? && |p.window.value| == WIRE_SIZE;
            var refused := served && !Serve(Watched(e.supervisor, now), p.window.value, now).1;
            var more := (if gap then 1 else 0) + p.rejects + (if refused then 1 else 0);
            Fed(e, byte, now).0.rejected == if e.rejected + more >= U32_MAX then U32_MAX else e.rejected + more
  {
    hide ParseByte, Serve, Watched, Status;
  }
}

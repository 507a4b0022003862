// The incremental command parser: bytes arrive one at a time, garbage is skipped by
// sliding one byte, and each complete window earns one 64-byte status reply.
module MobileEndpoint {
  import opened Words
  import opened Optional
  import opened Crc32c
  import opened MobileSupervisor
  import opened MobileWire

  const STATUS_SIZE: nat := 64
  const GAP_MS: nat := 100

  datatype EndpointState = EndpointState(
    supervisor: Supervisor, bootId: u32, rejected: u32, buffer: seq<u8>, lastByteMs: u32)

  // ---- resynchronisation ----------------------------------------------------

  /** The bytes so far could start a frame. */
  predicate HeaderPossible(b: seq<u8>) {
    b != [] && b[0] == 65 && (|b| > 1 ==> b[1] == 77) && (|b| > 2 ==> b[2] == 1)
  }

  /** Drops bytes from the front until the rest could start a frame. */
  function Resync(b: seq<u8>): seq<u8>
    decreases |b|
  {
    if b == [] || HeaderPossible(b) then b else Resync(b[1..])
  }

  /** Several saturating increments. */
  function SaturatedAdd(x: u32, n: nat): u32 {
    if x + n >= U32_MAX then U32_MAX else x + n
  }

  datatype Parsed = Parsed(buffer: seq<u8>, window: Option<seq<u8>>, rejects: nat)

  /** One byte into a buffer that holds fewer than 36: the buffer kept, the complete
      window if there is one, and the bytes rejected. */
  function ParseByte(buffer: seq<u8>, byte: u8): Parsed {
    var b := Resync(buffer + [byte]);
    var dropped := if |buffer| + 1 >= |b| then |buffer| + 1 - |b| else 0;
    if |b| < WIRE_SIZE then Parsed(b, None, dropped)
    else if |b| == WIRE_SIZE && Read32(b, 32) == Checksum(b[..32]) then Parsed([], Some(b), dropped)
    else Parsed(b[1..], None, dropped + 1)
  }

  // ---- replies --------------------------------------------------------------

  function StateByte(s: MobileState): u8 {
    match s case Disabled => 0 case Ready => 1 case Active => 2 case StopLatched => 3
  }

  function ReasonByte(r: MobileReason): u8 {
    match r
    case NoReason => 0 case RequestReason => 1 case CommandTimeoutReason => 2 case FeedbackReason => 3 case LiftLimitReason => 4
  }

  function FlagsByte(s: Supervisor, now: u32): u8 {
    (if s.haveFeedback then 1 else 0) + (if s.feedback.modesVerified then 2 else 0)
    + (if s.feedback.liftHomed then 4 else 0) + (if MeasuredStopped(s, now) then 8 else 0)
    + (if s.feedback.hardwareOk then 16 else 0)
  }

  function StatusBody(e: EndpointState, kind: u8, sequence: u32, now: u32): (b: seq<u8>)
    ensures |b| == 60
  {
    var s := e.supervisor;
    [65, 83, 1, kind] + Bytes32(sequence) + Bytes32(now) + Bytes32(e.bootId) + Bytes32(7)
    + Bytes32(s.session) + Bytes32(s.sequence) + [StateByte(s.state), ReasonByte(s.reason), FlagsByte(s, now), 0]
    + Bytes32(s.feedback.observedMs) + VelocityBytes(s.feedback.velocity)
    + Bytes32(SignedWord(s.feedback.liftPositionUm)) + Bytes32(e.rejected)
  }

  function Status(e: EndpointState, kind: u8, sequence: u32, now: u32): (b: seq<u8>)
    ensures |b| == STATUS_SIZE
  {
    StatusBody(e, kind, sequence, now) + Bytes32(Checksum(StatusBody(e, kind, sequence, now)))
  }

  predicate ZeroBytes(p: seq<u8>, from: nat, to: nat)
    requires to <= |p|
  {
    forall i :: from <= i < to ==> p[i] == 0
  }

  /** What a complete window does to the supervisor, and whether it is accepted. */
  function Serve(s: Supervisor, w: seq<u8>, now: u32): (Supervisor, bool)
    requires |w| == WIRE_SIZE
  {
    if 4 <= w[3] <= 6 && Read32(w, 4) != 0 then (s, ZeroBytes(w, 16, 32))
    else if 1 <= w[3] <= 3 then ApplyPacket(s, w, now)
    else (s, false)
  }

  function RejectedKind(kind: u8): u8 {
    if kind >= 128 then kind else kind + 128
  }

  predicate Idle(e: EndpointState, now: u32) {
    e.buffer != [] && Sub(now, e.lastByteMs) >= GAP_MS
  }

  /** The endpoint once its window has been served. */
  function Answered(e: EndpointState, w: seq<u8>, now: u32): (EndpointState, seq<u8>)
    requires |w| == WIRE_SIZE
  {
    var (s, ok) := Serve(e.supervisor, w, now);
    var e1 := e.(supervisor := s, rejected := if ok then e.rejected else Saturate(e.rejected));
    (e1, Status(e1, if ok then w[3] else RejectedKind(w[3]), Read32(w, 8), now))
  }

  function Fed(e: EndpointState, byte: u8, now: u32): (EndpointState, Option<seq<u8>>) {
    var rejected := if Idle(e, now) then Saturate(e.rejected) else e.rejected;
    var p := ParseByte(if Idle(e, now) then [] else e.buffer, byte);
    var e1 := e.(supervisor := Watched(e.supervisor, now), rejected := SaturatedAdd(rejected, p.rejects),
                 buffer := p.buffer, lastByteMs := now);
    if p.window.None? || |p.window.value| != WIRE_SIZE then (e1, None)
    else
      var (e2, reply) := Answered(e1, p.window.value, now);
      (e2, Some(reply))
  }

  // ---- the endpoint object --------------------------------------------------

  class Endpoint {
    const supervisor: MobileSupervisorObject
    const bootId: u32
    var rejected: u32
    const buffer: array<u8>
    var used: nat
    var lastByteMs: u32

    ghost predicate Valid()
      reads this
    {
      buffer.Length == WIRE_SIZE && used < WIRE_SIZE
    }

    ghost function State(): EndpointState
      requires Valid()
      reads this, buffer, supervisor
    {
      EndpointState(supervisor.State(), bootId, rejected, buffer[..used], lastByteMs)
    }

    constructor (s: MobileSupervisorObject, boot: u32)
      requires boot != 0
      ensures Valid() && fresh(buffer) && supervisor == s
      ensures State() == EndpointState(s.State(), boot, 0, [], 0)
    {
      supervisor, bootId, rejected, used, lastByteMs := s, boot, 0, 0, 0;
      buffer := new u8[WIRE_SIZE](_ => 0);
    }

    method Reject()
      modifies this`rejected
      ensures rejected == Saturate(old(rejected))
    {
      if rejected != U32_MAX {
        rejected := rejected + 1;
      }
    }

    /** Moves the buffer down one byte. */
    method Slide()
      requires buffer.Length == WIRE_SIZE && 0 < used <= WIRE_SIZE
      modifies this`used, buffer
      ensures used == old(used) - 1 && buffer[..used] == old(buffer[1..used])
    {
      forall k | 0 <= k < used - 1 {
        buffer[k] := buffer[k + 1];
      }
      used := used - 1;
    }

    /** Slides to the next possible frame start. */
    method Resynchronise()
      requires buffer.Length == WIRE_SIZE && used <= WIRE_SIZE
      modifies this`used, this`rejected, buffer
      ensures used <= old(used) && buffer[..used] == Resync(old(buffer[..used]))
      ensures rejected == SaturatedAdd(old(rejected), old(used) - used)
    {
      while used > 0 && (buffer[0] != 65 || (used > 1 && buffer[1] != 77) || (used > 2 && buffer[2] != 1))
        invariant used <= old(used)
        invariant Resync(buffer[..used]) == Resync(old(buffer[..used]))
        invariant rejected == SaturatedAdd(old(rejected), old(used) - used)
      {
        ghost var before := buffer[..used];
        assert !HeaderPossible(before);
        Slide();
        assert buffer[..used] == before[1..];
        Reject();
      }
    }

    method ServeWindow(w: seq<u8>, now: u32) returns (accepted: bool)
      requires |w| == WIRE_SIZE
      modifies supervisor
      ensures (supervisor.State(), accepted) == Serve(old(supervisor.State()), w, now)
    {
      hide ApplyPacket;
      var kind := w[3];
      accepted := false;
      if kind >= 4 && kind <= 6 && Read32(w, 4) != 0 {
        accepted := true;
        for i := 16 to 32
          invariant accepted <==> ZeroBytes(w, 16, i)
        {
          if w[i] != 0 {
            accepted := false;
          }
        }
      } else if kind >= 1 && kind <= 3 {
        accepted := WireApply(supervisor, w, now);
      }
    }

    /** Takes one byte into the buffer; a complete window is handed over and the buffer
        emptied. */
    method Take(byte: u8) returns (window: Option<seq<u8>>)
      requires Valid()
      modifies this`used, this`rejected, buffer
      ensures Valid()
      ensures var p := ParseByte(old(buffer[..used]), byte);
              && buffer[..used] == p.buffer && window == p.window
              && rejected == SaturatedAdd(old(rejected), p.rejects)
      ensures window.Some? ==> |window.value| == WIRE_SIZE
    {
      hide Checksum, Resync, Read32;
      ghost var kept, rejects := buffer[..used], rejected;
      buffer[used] := byte;
      used := used + 1;
      assert buffer[..used] == kept + [byte];
      Resynchronise();
      ghost var b := buffer[..used];
      if used < WIRE_SIZE { return None; }
      var candidate := buffer[..];
      assert candidate == b;
      var crc := Compute(candidate[..32]);
      if Read32(candidate, 32) != crc {
        Slide();
        Reject();
        return None;
      }
      used := 0;
      window := Some(candidate);
    }

    method Feed(byte: u8, now: u32) returns (reply: Option<seq<u8>>)
      requires Valid()
      modifies this, buffer, supervisor
      ensures Valid()
      ensures (State(), reply) == Fed(old(State()), byte, now)
    {
      hide Status, Serve, Watched, ParseByte;
      supervisor.Poll(now);
      if used > 0 && Sub(now, lastByteMs) >= GAP_MS {
        used := 0;
        Reject();
      }
      lastByteMs := now;
      assert buffer[..used] == if Idle(old(State()), now) then [] else old(State()).buffer;
      var window := Take(byte);
      if window.None? { return None; }
      var w := window.value;
      var accepted := ServeWindow(w, now);
      if !accepted {
        Reject();
      }
      var s := supervisor.Snapshot();
      reply := Some(Status(EndpointState(s, bootId, rejected, buffer[..used], lastByteMs),
                           if accepted then w[3] else RejectedKind(w[3]), Read32(w, 8), now));
    }
  }

  // ---- parsing as a window scan ---------------------------------------------

  /** A received byte; `gap` says whether 100 ms or more passed since the one before. */
  datatype Timed = Timed(byte: u8, gap: bool)

  /** The windows found by the incremental parser, one entry per byte. */
  function Parse(buffer: seq<u8>, stream: seq<Timed>): seq<Option<seq<u8>>>
    decreases |stream|
  {
    if stream == [] then []
    else
      var p := ParseByte(if stream[0].gap then [] else buffer, stream[0].byte);
      [p.window] + Parse(p.buffer, stream[1..])
  }

  /** Brute force: after each byte, are the last 36 bytes since the last reply or gap a
      well-formed window? */
  function Scan(since: seq<u8>, stream: seq<Timed>): seq<Option<seq<u8>>>
    decreases |stream|
  {
    if stream == [] then []
    else
      var h := (if stream[0].gap then [] else since) + [stream[0].byte];
      if EndsInWindow(h) then [Some(h[|h| - WIRE_SIZE..])] + Scan([], stream[1..])
      else [None] + Scan(h, stream[1..])
  }

  predicate EndsInWindow(h: seq<u8>) {
    |h| >= WIRE_SIZE && GoodWindow(h[|h| - WIRE_SIZE..])
  }

  /** No window starting at p can complete any more: its header is already wrong, or it
      is complete and bad. */
  predicate Dead(h: seq<u8>, p: nat)
    requires p < |h|
  {
    !HeaderPossible(h[p..]) || (p + WIRE_SIZE <= |h| && !GoodWindow(h[p..p + WIRE_SIZE]))
  }

  /** The buffer is the part of the history whose window can still complete. */
  predicate Tracks(buffer: seq<u8>, h: seq<u8>) {
    && |buffer| < WIRE_SIZE && |buffer| <= |h| && buffer == h[|h| - |buffer|..]
    && forall p :: 0 <= p < |h| - |buffer| ==> Dead(h, p)
  }

  lemma DeadStaysDead(h: seq<u8>, byte: u8, p: nat)
    requires p < |h| && Dead(h, p)
    ensures Dead(h + [byte], p)
  {
    hide GoodWindow;
    assert (h + [byte])[p..] == h[p..] + [byte];
    if p + WIRE_SIZE <= |h| {
      assert (h + [byte])[p..p + WIRE_SIZE] == h[p..p + WIRE_SIZE];
    }
  }

  /** Resynchronising skips only positions whose header is wrong. */
  lemma {:induction false} ResyncSkipsDead(h: seq<u8>, at: nat)
    requires at <= |h|
    ensures var b := Resync(h[at..]);
            && |b| <= |h| - at && b == h[|h| - |b|..]
            && (b == [] || HeaderPossible(b))
            && forall p :: at <= p < |h| - |b| ==> Dead(h, p)
    decreases |h| - at
  {
    if at < |h| && !HeaderPossible(h[at..]) {
      assert h[at..][1..] == h[at + 1..];
      ResyncSkipsDead(h, at + 1);
      assert Dead(h, at);
    }
  }

  /** A complete window at the end of the history is dead exactly when it is bad. */
  lemma LastWindowDead(h: seq<u8>)
    requires |h| >= WIRE_SIZE
    ensures Dead(h, |h| - WIRE_SIZE) <==> !EndsInWindow(h)
  {
    hide HeaderPossible, GoodWindow;
    var last := h[|h| - WIRE_SIZE..];
    assert h[|h| - WIRE_SIZE..|h| - WIRE_SIZE + WIRE_SIZE] == last;
    if GoodWindow(last) { GoodWindowHasHeader(last); }
  }

  /** One byte keeps the buffer in step with the history, and completes a window exactly
      when the last 36 bytes are one. */
  lemma ByteTracks(buffer: seq<u8>, since: seq<u8>, byte: u8)
    requires Tracks(buffer, since)
    ensures var h := since + [byte];
            var p := ParseByte(buffer, byte);
            if EndsInWindow(h) then p.window == Some(h[|h| - WIRE_SIZE..]) && p.buffer == []
            else p.window == None && Tracks(p.buffer, h)
  {
    hide GoodWindow, Resync, Checksum, Read32, Dead, HeaderPossible;
    var h := since + [byte];
    var at := |since| - |buffer|;
    assert h[at..] == buffer + [byte];
    forall p | 0 <= p < at ensures Dead(h, p) {
      DeadStaysDead(since, byte, p);
    }
    ResyncSkipsDead(h, at);
    var b := Resync(buffer + [byte]);
    if |h| >= WIRE_SIZE { LastWindowDead(h); }
    if |b| == WIRE_SIZE {
      CompleteWindow(b);
      assert b[1..] == h[|h| - (WIRE_SIZE - 1)..];
    }
  }

  lemma CompleteWindow(b: seq<u8>)
    requires |b| == WIRE_SIZE && HeaderPossible(b)
    ensures GoodWindow(b) <==> Read32(b, 32) == Checksum(b[..32])
  {
    hide Checksum, Read32;
  }

  lemma GoodWindowHasHeader(b: seq<u8>)
    requires |b| == WIRE_SIZE && GoodWindow(b)
    ensures HeaderPossible(b)
  {
    hide Checksum, Read32;
  }

  /** Parser refinement. From any buffer in step with its history, the incremental
      parser replies after exactly the bytes, and with exactly the windows, that a
      brute-force scan of the last 36 bytes finds, however the stream is cut, corrupted
      or interrupted. */
  lemma {:induction false} ParserIsWindowScan(buffer: seq<u8>, since: seq<u8>, stream: seq<Timed>)
    requires Tracks(buffer, since)
    ensures Parse(buffer, stream) == Scan(since, stream)
    decreases |stream|
  {
    hide ParseByte, EndsInWindow, Tracks;
    if stream != [] {
      var b, h := if stream[0].gap then [] else buffer, if stream[0].gap then [] else since;
      assert Tracks(b, h) by { NothingTracksNothing(); }
      ByteTracks(b, h, stream[0].byte);
      NothingTracksNothing();
      var p := ParseByte(b, stream[0].byte);
      if EndsInWindow(h + [stream[0].byte]) {
        ParserIsWindowScan([], [], stream[1..]);
      } else {
        ParserIsWindowScan(p.buffer, h + [stream[0].byte], stream[1..]);
      }
    }
  }

  lemma NothingTracksNothing()
    ensures Tracks([], [])
  {
  }

  // ---- the endpoint runs that parser ----------------------------------------

  datatype Received = Received(byte: u8, now: u32)

  /** The endpoint's replies to a received stream. */
  function Replies(e: EndpointState, stream: seq<Received>): seq<Option<seq<u8>>>
    decreases |stream|
  {
    if stream == [] then []
    else
      var (e1, reply) := Fed(e, stream[0].byte, stream[0].now);
      [reply] + Replies(e1, stream[1..])
  }

  /** The stream as the parser sees it. */
  function Timing(last: u32, stream: seq<Received>): seq<Timed>
    decreases |stream|
  {
    if stream == [] then []
    else [Timed(stream[0].byte, Sub(stream[0].now, last) >= GAP_MS)] + Timing(stream[0].now, stream[1..])
  }

  lemma ParsedShape(buffer: seq<u8>, since: seq<u8>, byte: u8)
    requires Tracks(buffer, since)
    ensures var p := ParseByte(buffer, byte);
            && (p.window.Some? ==> |p.window.value| == WIRE_SIZE && p.buffer == [])
            && |p.buffer| < WIRE_SIZE
  {
    hide Checksum, Resync;
    ResyncSkipsDead(since + [byte], |since| - |buffer|);
    assert (since + [byte])[|since| - |buffer|..] == buffer + [byte];
  }

  /** The endpoint replies, with 64 bytes, after exactly the bytes on which the scan finds
      a window, whatever state the supervisor is in. */
  lemma {:induction false} RepliesMatchScan(e: EndpointState, since: seq<u8>, stream: seq<Received>)
    requires Tracks(e.buffer, since)
    ensures var found := Scan(since, Timing(e.lastByteMs, stream));
            var replies := Replies(e, stream);
            && |replies| == |stream| == |found|
            && (forall i :: 0 <= i < |stream| ==> (replies[i].Some? <==> found[i].Some?))
            && (forall i :: 0 <= i < |stream| ==> (replies[i].Some? ==> |replies[i].value| == STATUS_SIZE))
    decreases |stream|
  {
    hide ParseByte, EndsInWindow, Tracks, Serve, Status;
    if stream != [] {
      var byte, now := stream[0].byte, stream[0].now;
      var gap := Sub(now, e.lastByteMs) >= GAP_MS;
      NothingTracksNothing();
      var h := if gap then [] else since;
      if e.buffer == [] && gap { assert Tracks(e.buffer, h); }
      var b := if Idle(e, now) then [] else e.buffer;
      assert Tracks(b, h);
      ByteTracks(b, h, byte);
      ParsedShape(b, h, byte);
      var e1 := Fed(e, byte, now).0;
      FedBuffer(e, byte, now);
      RepliesMatchScan(e1, if EndsInWindow(h + [byte]) then [] else h + [byte], stream[1..]);
    }
  }

  lemma FedBuffer(e: EndpointState, byte: u8, now: u32)
    requires var p := ParseByte(if Idle(e, now) then [] else e.buffer, byte);
             p.window.Some? ==> |p.window.value| == WIRE_SIZE && p.buffer == []
    ensures var p := ParseByte(if Idle(e, now) then [] else e.buffer, byte);
            var (e1, reply) := Fed(e, byte, now);
            && e1.buffer == p.buffer && e1.lastByteMs == now
            && (reply.Some? <==> p.window.Some?) && (reply.Some? ==> |reply.value| == STATUS_SIZE)
  {
    hide ParseByte, Serve;
  }
}

// One framed request carries one 36-byte command to the endpoint and returns one
// framed response: a status byte, followed by the 64-byte reply when there is one.
module MobileFramed {
  import opened Words
  import opened Optional
  import opened Crc32c
  import opened MobileSupervisor
  import opened MobileWire
  import opened MobileEndpoint

  const MOBILE_REQUEST: u8 := 64
  const MOBILE_RESPONSE: u8 := 65

  datatype Frame = Frame(messageType: u8, flags: u16, sequence: u32, senderTimeMs: u32, payload: seq<u8>)

  predicate WellFormedRequest(r: Frame) {
    r.flags == 0 && |r.payload| == WIRE_SIZE && GoodWindow(r.payload) && 1 <= r.payload[3] <= 6
  }

  function Response(r: Frame, now: u32, payload: seq<u8>): Frame {
    Frame(MOBILE_RESPONSE, 0, r.sequence, now, payload)
  }

  /** Feeds a packet byte by byte; the last reply, if any byte earned one. */
  function FedAll(e: EndpointState, p: seq<u8>, now: u32, last: Option<seq<u8>>): (EndpointState, Option<seq<u8>>)
    decreases |p|
  {
    if p == [] then (e, last)
    else
      var (e1, reply) := Fed(e, p[0], now);
      FedAll(e1, p[1..], now, if reply.Some? then reply else last)
  }

  /** The route's answer to a mobile request; the endpoint may not be attached yet. */
  function Framed(e: Option<EndpointState>, r: Frame, now: u32): (Option<EndpointState>, Option<Frame>) {
    if r.messageType != MOBILE_REQUEST then (e, None)
    else if !WellFormedRequest(r) then (e, Some(Response(r, now, [2])))
    else if e.None? then (e, Some(Response(r, now, [1])))
    else
      var (e1, reply) := FedAll(e.value.(buffer := []), r.payload, now, None);
      (Some(e1), Some(Response(r, now, if reply.Some? then [0] + reply.value else [2])))
  }

  ghost function EndpointOf(e: Endpoint?): Option<EndpointState>
    requires e != null ==> e.Valid()
    reads e, if e != null then {e.buffer, e.supervisor} else {}
  {
    if e == null then None else Some(e.State())
  }

  method FramedReply(e: Endpoint?, r: Frame, now: u32) returns (response: Option<Frame>)
    requires e != null ==> e.Valid()
    modifies e, if e != null then {e.buffer, e.supervisor} else {}
    ensures e != null ==> e.Valid()
    ensures (EndpointOf(e), response) == Framed(old(EndpointOf(e)), r, now)
  {
    hide Checksum, Fed, Read32;
    if r.messageType != MOBILE_REQUEST { return None; }
    if r.flags != 0 || |r.payload| != WIRE_SIZE || r.payload[0] != 65 || r.payload[1] != 77 || r.payload[2] != 1 ||
       r.payload[3] < 1 || r.payload[3] > 6 {
      return Some(Response(r, now, [2]));
    }
    var crc := Compute(r.payload[..32]);
    if Read32(r.payload, 32) != crc { return Some(Response(r, now, [2])); }
    if e == null { return Some(Response(r, now, [1])); }
    ghost var before := e.State().(buffer := []);
    e.used := 0;
    assert e.State() == before;
    var last: Option<seq<u8>> := None;
    for i := 0 to WIRE_SIZE
      invariant e.Valid()
      invariant FedAll(before, r.payload, now, None) == FedAll(e.State(), r.payload[i..], now, last)
    {
      assert r.payload[i..][0] == r.payload[i] && r.payload[i..][1..] == r.payload[i + 1..];
      var reply := e.Feed(r.payload[i], now);
      if reply.Some? {
        last := reply;
      }
    }
    assert r.payload[WIRE_SIZE..] == [];
    response := Some(Response(r, now, if last.Some? then [0] + last.value else [2]));
  }

  // ---- one request, one reply -----------------------------------------------

  /** A prefix of a good window is still only a possible header. */
  lemma PrefixIsPossible(w: seq<u8>, n: nat)
    requires |w| == WIRE_SIZE && GoodWindow(w) && 0 < n <= WIRE_SIZE
    ensures HeaderPossible(w[..n])
  {
    hide Checksum, Read32;
  }

  /** The first 35 bytes of a good window fill the buffer without a reply; the 36th
      completes the window. */
  lemma {:induction false} WindowCompletesLast(e: EndpointState, w: seq<u8>, n: nat, now: u32)
    requires |w| == WIRE_SIZE && GoodWindow(w) && n < WIRE_SIZE
    requires e.buffer == w[..n] && (n > 0 ==> e.lastByteMs == now)
    ensures var (e1, reply) := FedAll(e, w[n..], now, None);
            && reply.Some? && |reply.value| == STATUS_SIZE && e1.buffer == []
    decreases WIRE_SIZE - n
  {
    hide Checksum, Read32, GoodWindow, HeaderPossible, Status, Serve, Watched;
    PrefixIsPossible(w, n + 1);
    assert e.buffer + [w[n]] == w[..n + 1];
    assert w[n..][0] == w[n] && w[n..][1..] == w[n + 1..];
    assert !Idle(e, now);
    var p := ParseByte(e.buffer, w[n]);
    if n + 1 < WIRE_SIZE {
      assert p == Parsed(w[..n + 1], None, 0);
      WindowCompletesLast(Fed(e, w[n], now).0, w, n + 1, now);
    } else {
      assert w[..n + 1] == w;
      PrefixIsPossible(w, WIRE_SIZE);
      CompleteWindow(w);
      assert p == Parsed([], Some(w), 0);
      FedBuffer(e, w[n], now);
      assert w[WIRE_SIZE..] == [];
    }
  }

  /** A well-formed framed request to an attached endpoint always yields status 0 and
      exactly one 64-byte reply, whatever was left in the raw-stream buffer; every other
      mobile request yields a bare status byte. */
  lemma RequestYieldsOneReply(e: Option<EndpointState>, r: Frame, now: u32)
    requires r.messageType == MOBILE_REQUEST
    ensures var (e1, response) := Framed(e, r, now);
            && response.Some? && response.value.sequence == r.sequence
            && (if WellFormedRequest(r) && e.Some?
                then |response.value.payload| == 1 + STATUS_SIZE && response.value.payload[0] == 0
                else |response.value.payload| == 1 && response.value.payload[0] != 0 && e1 == e)
  {
    hide Fed, GoodWindow;
    if WellFormedRequest(r) && e.Some? {
      WindowCompletesLast(e.value.(buffer := []), r.payload, 0, now);
      assert r.payload[0..] == r.payload;
    }
  }

  /** Of the 36 bytes only the last earns a reply. */
  lemma {:induction false} OnlyLastByteReplies(e: EndpointState, w: seq<u8>, n: nat, now: u32)
    requires |w| == WIRE_SIZE && GoodWindow(w) && n < WIRE_SIZE
    requires e.buffer == w[..n] && (n > 0 ==> e.lastByteMs == now)
    ensures Fed(e, w[n], now).1.Some? <==> n == WIRE_SIZE - 1
    ensures n < WIRE_SIZE - 1 ==> Fed(e, w[n], now).0.buffer == w[..n + 1] && Fed(e, w[n], now).0.lastByteMs == now
  {
    hide Checksum, Read32, GoodWindow, HeaderPossible, Status, Serve, Watched;
    PrefixIsPossible(w, n + 1);
    assert e.buffer + [w[n]] == w[..n + 1];
    assert !Idle(e, now);
    if n + 1 == WIRE_SIZE {
      assert w[..n + 1] == w;
      CompleteWindow(w);
    }
  }
}

// Frames of the actuator protocol, version 1: a checked header and payload, stuffed and
// ended by a zero byte; and the byte-by-byte stream parser that finds them again after
// any amount of noise.
module Protocol {
  import opened Words
  import opened Optional
  import Crc32c
  import opened Cobs

  const MAGIC: u16 := 0xA55A
  const VERSION: u8 := 1
  const MAX_PAYLOAD: nat := 512
  const MAX_DECODED: nat := 532
  const MAX_ENCODED: nat := 535

  datatype Frame = Frame(messageType: u8, flags: u16, sequence: u32, senderTimeMs: u32, payload: seq<u8>)

  datatype Fault =
    OutputTooSmall | CobsError | FrameTooShort | BadMagic | BadVersion | UnknownMessage | BadLength | BadCrc

  datatype Result<+T> = Ok(value: T) | Err(fault: Fault)

  predicate Known(t: u8) {
    1 <= t <= 5 || 16 <= t <= 22 || 32 <= t <= 39 || 48 <= t <= 57
  }

  predicate Legal(f: Frame) {
    Known(f.messageType) && |f.payload| <= MAX_PAYLOAD
  }

  // ---- one frame ------------------------------------------------------------

  function Header(f: Frame): (b: seq<u8>)
    requires |f.payload| <= MAX_PAYLOAD
    ensures |b| == 16
  {
    Bytes16(MAGIC) + [VERSION, f.messageType] + Bytes16(f.flags) + Bytes16(|f.payload|)
    + Bytes32(f.sequence) + Bytes32(f.senderTimeMs)
  }

  /** Header, payload and checksum, before stuffing. */
  function Body(f: Frame): (b: seq<u8>)
    requires |f.payload| <= MAX_PAYLOAD
    ensures |b| == 20 + |f.payload|
  {
    var covered := Header(f) + f.payload;
    covered + Bytes32(Crc32c.Checksum(covered))
  }

  /** The bytes on the wire, delimiter included. */
  function EncodeFrame(f: Frame): Result<seq<u8>> {
    if !Known(f.messageType) then Err(UnknownMessage)
    else if |f.payload| > MAX_PAYLOAD then Err(BadLength)
    else Ok(Encode(Body(f)) + [0])
  }

  function ParseBody(d: seq<u8>): Result<Frame> {
    if |d| < 20 then Err(FrameTooShort)
    else if Read16(d, 0) != MAGIC then Err(BadMagic)
    else if d[2] != VERSION then Err(BadVersion)
    else if !Known(d[3]) then Err(UnknownMessage)
    else
      var length: nat := Read16(d, 6);
      if length > MAX_PAYLOAD || |d| != 20 + length then Err(BadLength)
      else if Crc32c.Checksum(d[..16 + length]) != Read32(d, 16 + length) then Err(BadCrc)
      else Ok(Frame(d[3], Read16(d, 4), Read32(d, 8), Read32(d, 12), d[16..16 + length]))
  }

  /** The frame decoder on the controller, with its bounded buffer. */
  function DecodeFrame(e: seq<u8>): Result<Frame> {
    match Decode(e)
    case None => Err(CobsError)
    case Some(d) => if |d| > MAX_DECODED then Err(CobsError) else ParseBody(d)
  }

  /** The host's decoder: no buffer bound, and an optional trailing delimiter. */
  function HostDecode(e: seq<u8>): Result<Frame> {
    var bare := if e != [] && e[|e| - 1] == 0 then e[..|e| - 1] else e;
    match Decode(bare)
    case None => Err(CobsError)
    case Some(d) => ParseBody(d)
  }

  // ---- round trip -----------------------------------------------------------

  lemma ReadBytes16(prefix: seq<u8>, v: u16, suffix: seq<u8>)
    ensures Read16(prefix + Bytes16(v) + suffix, |prefix|) == v
  {
    var p, b := prefix + Bytes16(v) + suffix, Bytes16(v);
    assert p[|prefix|] == b[0] && p[|prefix| + 1] == b[1];
  }

  /** Every header field is read back from where it was written. */
  lemma HeaderReads(f: Frame, rest: seq<u8>)
    requires |f.payload| <= MAX_PAYLOAD
    ensures var d := Header(f) + rest;
            && Read16(d, 0) == MAGIC && d[2] == VERSION && d[3] == f.messageType
            && Read16(d, 4) == f.flags && Read16(d, 6) == |f.payload|
            && Read32(d, 8) == f.sequence && Read32(d, 12) == f.senderTimeMs
  {
    var n: u16 := |f.payload|;
    var d := Header(f) + rest;
    var a, b := Bytes16(MAGIC) + [VERSION, f.messageType], Bytes16(f.flags);
    ReadBytes16([], MAGIC, [VERSION, f.messageType] + b + Bytes16(n) + Bytes32(f.sequence) + Bytes32(f.senderTimeMs) + rest);
    assert d == [] + Bytes16(MAGIC) + ([VERSION, f.messageType] + b + Bytes16(n) + Bytes32(f.sequence) + Bytes32(f.senderTimeMs) + rest);
    ReadBytes16(a, f.flags, Bytes16(n) + Bytes32(f.sequence) + Bytes32(f.senderTimeMs) + rest);
    assert d == a + b + (Bytes16(n) + Bytes32(f.sequence) + Bytes32(f.senderTimeMs) + rest);
    ReadBytes16(a + b, n, Bytes32(f.sequence) + Bytes32(f.senderTimeMs) + rest);
    assert d == a + b + Bytes16(n) + (Bytes32(f.sequence) + Bytes32(f.senderTimeMs) + rest);
    HeaderTimes(f, rest);
  }

  lemma HeaderTimes(f: Frame, rest: seq<u8>)
    requires |f.payload| <= MAX_PAYLOAD
    ensures var d := Header(f) + rest; Read32(d, 8) == f.sequence && Read32(d, 12) == f.senderTimeMs
  {
    var n: u16 := |f.payload|;
    var d := Header(f) + rest;
    var front := Bytes16(MAGIC) + [VERSION, f.messageType] + Bytes16(f.flags) + Bytes16(n);
    ReadBytes32(front, f.sequence, Bytes32(f.senderTimeMs) + rest);
    assert d == front + Bytes32(f.sequence) + (Bytes32(f.senderTimeMs) + rest);
    ReadBytes32(front + Bytes32(f.sequence), f.senderTimeMs, rest);
    assert d == front + Bytes32(f.sequence) + Bytes32(f.senderTimeMs) + rest;
  }

  lemma BodyParses(f: Frame)
    requires Legal(f)
    ensures ParseBody(Body(f)) == Ok(f)
  {
    hide Header, Crc32c.Checksum;
    var d, covered, n := Body(f), Header(f) + f.payload, |f.payload|;
    var crc := Crc32c.Checksum(covered);
    assert d == Header(f) + (f.payload + Bytes32(crc));
    HeaderReads(f, f.payload + Bytes32(crc));
    ReadBytes32(covered, crc, []);
    assert d == covered + Bytes32(crc) + [];
    assert d[..16 + n] == covered && d[16..16 + n] == f.payload;
  }

  /** Framing. A legal frame encodes to at most 535 zero-free bytes and a delimiter, from
      which both decoders recover exactly that frame; nothing else is encoded. */
  lemma FrameRoundTrip(f: Frame)
    ensures EncodeFrame(f).Ok? <==> Legal(f)
    ensures Legal(f) ==>
              var b := EncodeFrame(f).value;
              && 1 < |b| <= MAX_ENCODED + 1 && b[|b| - 1] == 0 && ZeroFree(b[..|b| - 1])
              && DecodeFrame(b[..|b| - 1]) == Ok(f) && HostDecode(b) == Ok(f)
  {
    hide Encode, Decode, ParseBody, ZeroFree, Body;
    if Legal(f) {
      var b := EncodeFrame(f).value;
      EncodingIsSound(Body(f));
      BodyParses(f);
      assert b[..|b| - 1] == Encode(Body(f));
    }
  }

  /** Whatever is accepted off the wire is a legal frame, so it can be sent again. */
  lemma AcceptedIsLegal(e: seq<u8>)
    ensures DecodeFrame(e).Ok? ==> Legal(DecodeFrame(e).value)
    ensures HostDecode(e).Ok? ==> Legal(HostDecode(e).value)
  {
    hide Decode;
  }

  /** Host and controller accept the same undelimited bytes as the same frames. */
  lemma DecodersAgree(e: seq<u8>, f: Frame)
    requires e == [] || e[|e| - 1] != 0
    ensures HostDecode(e) == Ok(f) <==> DecodeFrame(e) == Ok(f)
  {
    hide Decode;
  }

  /** Writes a frame to a buffer: it succeeds exactly for a legal frame whose bytes fit. */
  method WriteFrame(f: Frame, output: array<u8>) returns (r: Result<nat>)
    modifies output
    ensures r.Ok? <==> Legal(f) && |EncodeFrame(f).value| <= output.Length
    ensures r.Ok? ==> r.value <= output.Length && Ok(output[..r.value]) == EncodeFrame(f)
    ensures r.Err? ==> r == (if EncodeFrame(f).Err? then Err(EncodeFrame(f).fault) else Err(OutputTooSmall))
  {
    hide Encode;
    if !Known(f.messageType) { return Err(UnknownMessage); }
    if |f.payload| > MAX_PAYLOAD { return Err(BadLength); }
    EncodingIsSound(Body(f));
    if output.Length < 2 { return Err(OutputTooSmall); }
    var covered := Header(f) + f.payload;
    var crc := Crc32c.Compute(covered);
    var body := covered + Bytes32(crc);
    var length := EncodeInto(body, output, output.Length - 1);
    if length.None? { return Err(OutputTooSmall); }
    output[length.value] := 0;
    assert output[..length.value + 1] == Encode(Body(f)) + [0];
    r := Ok(length.value + 1);
  }

  /** Reads a frame through the bounded decode buffer. */
  method ReadFrame(e: seq<u8>) returns (r: Result<Frame>)
    ensures r == DecodeFrame(e)
  {
    hide Decode;
    var buffer := new u8[MAX_DECODED];
    var decoded := DecodeInto(e, buffer);
    if decoded.None? { return Err(CobsError); }
    var d := buffer[..decoded.value];
    if |d| < 20 { return Err(FrameTooShort); }
    if Read16(d, 0) != MAGIC { return Err(BadMagic); }
    if d[2] != VERSION { return Err(BadVersion); }
    if !Known(d[3]) { return Err(UnknownMessage); }
    var length: nat := Read16(d, 6);
    if length > MAX_PAYLOAD || |d| != 20 + length { return Err(BadLength); }
    var actual := Crc32c.Compute(d[..16 + length]);
    if actual != Read32(d, 16 + length) { return Err(BadCrc); }
    r := Ok(Frame(d[3], Read16(d, 4), Read32(d, 8), Read32(d, 12), d[16..16 + length]));
  }

  // ---- the stream -----------------------------------------------------------

  datatype ParserState = ParserState(encoded: seq<u8>, dropping: bool)

  const NEW_PARSER: ParserState := ParserState([], false)

  datatype Event = NoFrame | Overflow | Frames(result: Result<Frame>)

  function Pushed(s: ParserState, byte: u8): (ParserState, Event) {
    if byte != 0 then
      if s.dropping then (s, NoFrame)
      else if |s.encoded| >= MAX_ENCODED then (ParserState([], true), Overflow)
      else (s.(encoded := s.encoded + [byte]), NoFrame)
    else if s.dropping then (NEW_PARSER, Overflow)
    else if s.encoded == [] then (s, NoFrame)
    else (s.(encoded := []), Frames(DecodeFrame(s.encoded)))
  }

  class StreamParser {
    const buffer: array<u8>
    var length: nat
    var dropping: bool

    ghost predicate Valid()
      reads this
    {
      buffer.Length == MAX_ENCODED && length <= MAX_ENCODED
    }

    ghost function State(): ParserState
      requires Valid()
      reads this, buffer
    {
      ParserState(buffer[..length], dropping)
    }

    constructor ()
      ensures Valid() && fresh(buffer) && State() == NEW_PARSER
    {
      buffer := new u8[MAX_ENCODED];
      length, dropping := 0, false;
    }

    method Push(byte: u8) returns (e: Event)
      requires Valid()
      modifies this, buffer
      ensures Valid() && (State(), e) == Pushed(old(State()), byte)
    {
      hide DecodeFrame;
      if byte != 0 {
        if dropping { return NoFrame; }
        if length >= MAX_ENCODED {
          length, dropping := 0, true;
          return Overflow;
        }
        buffer[length] := byte;
        assert buffer[..length + 1] == old(buffer[..length]) + [byte];
        length := length + 1;
        return NoFrame;
      }
      if dropping {
        length, dropping := 0, false;
        return Overflow;
      }
      if length == 0 { return NoFrame; }
      var r := ReadFrame(buffer[..length]);
      length := 0;
      e := Frames(r);
    }
  }

  /** The parser after a stream of bytes. */
  function Fed(s: ParserState, bytes: seq<u8>): ParserState
    decreases |bytes|
  {
    if bytes == [] then s else Fed(Pushed(s, bytes[0]).0, bytes[1..])
  }

  function FrameIn(e: Event): seq<Frame> {
    if e.Frames? && e.result.Ok? then [e.result.value] else []
  }

  /** The frames it yields on the way, in order. */
  function Yielded(s: ParserState, bytes: seq<u8>): seq<Frame>
    decreases |bytes|
  {
    if bytes == [] then [] else FrameIn(Pushed(s, bytes[0]).1) + Yielded(Pushed(s, bytes[0]).0, bytes[1..])
  }

  lemma {:induction false} FeedSplits(s: ParserState, a: seq<u8>, b: seq<u8>)
    ensures Fed(s, a + b) == Fed(Fed(s, a), b)
    ensures Yielded(s, a + b) == Yielded(s, a) + Yielded(Fed(s, a), b)
    decreases |a|
  {
    hide Pushed, FrameIn;
    if a == [] {
      assert a + b == b;
    } else {
      assert (a + b)[1..] == a[1..] + b;
      FeedSplits(Pushed(s, a[0]).0, a[1..], b);
    }
  }

  /** A zero leaves the parser as new, whatever came before. */
  lemma ZeroResets(s: ParserState, history: seq<u8>)
    ensures Fed(s, history + [0]) == NEW_PARSER
  {
    hide DecodeFrame;
    FeedSplits(s, history, [0]);
    var t := Fed(s, history);
    assert [0][1..] == [];
    assert Fed(t, [0]) == Fed(Pushed(t, 0).0, []) == Pushed(t, 0).0;
  }

  lemma {:induction false} ZeroFreeIsKept(s: ParserState, bytes: seq<u8>)
    requires ZeroFree(bytes) && !s.dropping && |s.encoded| + |bytes| <= MAX_ENCODED
    ensures Fed(s, bytes) == ParserState(s.encoded + bytes, false) && Yielded(s, bytes) == []
    decreases |bytes|
  {
    hide DecodeFrame;
    if bytes == [] {
      assert s.encoded + bytes == s.encoded;
    } else {
      ZeroFreeIsKept(s.(encoded := s.encoded + [bytes[0]]), bytes[1..]);
      assert s.encoded + [bytes[0]] + bytes[1..] == s.encoded + bytes;
    }
  }

  /** A legal frame's bytes yield exactly that frame to a new parser. */
  lemma FrameYields(f: Frame)
    requires Legal(f)
    ensures EncodeFrame(f).Ok?
    ensures Fed(NEW_PARSER, EncodeFrame(f).value) == NEW_PARSER
    ensures Yielded(NEW_PARSER, EncodeFrame(f).value) == [f]
  {
    hide EncodeFrame, DecodeFrame, HostDecode, ZeroFree;
    FrameRoundTrip(f);
    var b := EncodeFrame(f).value;
    var e := b[..|b| - 1];
    assert b == e + [0];
    ZeroFreeIsKept(NEW_PARSER, e);
    FeedSplits(NEW_PARSER, e, [0]);
    var t := ParserState([] + e, false);
    assert [] + e == e && [0][1..] == [];
    assert Yielded(t, [0]) == FrameIn(Pushed(t, 0).1) + Yielded(Pushed(t, 0).0, []);
    assert Fed(t, [0]) == Fed(Pushed(t, 0).0, []);
  }

  function Wire(frames: seq<Frame>): seq<u8>
    requires forall i :: 0 <= i < |frames| ==> EncodeFrame(frames[i]).Ok?
    decreases |frames|
  {
    if frames == [] then [] else EncodeFrame(frames[0]).value + Wire(frames[1..])
  }

  lemma {:induction false} WireYields(frames: seq<Frame>)
    requires forall i :: 0 <= i < |frames| ==> Legal(frames[i])
    ensures forall i :: 0 <= i < |frames| ==> EncodeFrame(frames[i]).Ok?
    ensures Yielded(NEW_PARSER, Wire(frames)) == frames
    decreases |frames|
  {
    hide EncodeFrame, Fed, Legal;
    forall i | 0 <= i < |frames| ensures EncodeFrame(frames[i]).Ok? {
      FrameRoundTrip(frames[i]);
    }
    if frames != [] {
      FrameYields(frames[0]);
      FeedSplits(NEW_PARSER, EncodeFrame(frames[0]).value, Wire(frames[1..]));
      WireYields(frames[1..]);
    }
  }

  /** Resynchronisation. After any history at all, a zero and then the bytes of legal
      frames, the parser yields exactly those frames, in order, after whatever it yielded
      before. */
  lemma StreamRecovers(s: ParserState, history: seq<u8>, frames: seq<Frame>)
    requires forall i :: 0 <= i < |frames| ==> Legal(frames[i])
    ensures forall i :: 0 <= i < |frames| ==> EncodeFrame(frames[i]).Ok?
    ensures Yielded(s, history + [0] + Wire(frames)) == Yielded(s, history + [0]) + frames
  {
    hide EncodeFrame, Fed, Wire, Yielded, Legal;
    WireYields(frames);
    ZeroResets(s, history);
    FeedSplits(s, history + [0], Wire(frames));
  }

  // ---- the host's stream ----------------------------------------------------

  /** The host collects bytes the same way, but reports no overflow and decodes a delimited
      run of bytes without the controller's bounded buffer. */
  function HostPushed(s: ParserState, byte: u8, limit: nat): (ParserState, Event) {
    if byte != 0 then
      if s.dropping then (s, NoFrame)
      else if |s.encoded| >= limit then (ParserState([], true), NoFrame)
      else (s.(encoded := s.encoded + [byte]), NoFrame)
    else if s.dropping || s.encoded == [] then (NEW_PARSER, NoFrame)
    else (NEW_PARSER, Frames(HostDecode(s.encoded)))
  }

  class StreamDecoder {
    var buffer: seq<u8>
    var dropping: bool
    const limit: nat

    ghost function State(): ParserState
      reads this
    {
      ParserState(buffer, dropping)
    }

    constructor (limit: nat)
      ensures State() == NEW_PARSER && this.limit == limit
    {
      buffer, dropping, this.limit := [], false, limit;
    }

    method Push(byte: u8) returns (e: Event)
      modifies this
      ensures (State(), e) == HostPushed(old(State()), byte, limit)
    {
      if byte != 0 {
        if dropping { return NoFrame; }
        if |buffer| >= limit {
          buffer, dropping := [], true;
          return NoFrame;
        }
        buffer := buffer + [byte];
        return NoFrame;
      }
      if dropping {
        buffer, dropping := [], false;
        return NoFrame;
      }
      if buffer == [] { return NoFrame; }
      var encoded := buffer;
      buffer := [];
      e := Frames(HostDecode(encoded));
    }
  }

  function HostYielded(s: ParserState, bytes: seq<u8>, limit: nat): seq<Frame>
    decreases |bytes|
  {
    if bytes == [] then []
    else FrameIn(HostPushed(s, bytes[0], limit).1) + HostYielded(HostPushed(s, bytes[0], limit).0, bytes[1..], limit)
  }

  /** A byte leaves the controller's parser and the host's decoder in the same state, and
      yields the same frame, if any. */
  lemma SameByte(s: ParserState, byte: u8)
    requires ZeroFree(s.encoded) && (s.dropping ==> s.encoded == [])
    ensures var t := Pushed(s, byte).0;
            && t == HostPushed(s, byte, MAX_ENCODED).0 && ZeroFree(t.encoded) && (t.dropping ==> t.encoded == [])
    ensures FrameIn(HostPushed(s, byte, MAX_ENCODED).1) == FrameIn(Pushed(s, byte).1)
  {
    hide HostDecode, DecodeFrame;
    if byte == 0 && !s.dropping && s.encoded != [] {
      var host, controller := HostDecode(s.encoded), DecodeFrame(s.encoded);
      if host.Ok? { DecodersAgree(s.encoded, host.value); }
      if controller.Ok? { DecodersAgree(s.encoded, controller.value); }
    }
  }

  /** One wire, one reading. From any stream of bytes whatever, host and controller yield
      the same frames. */
  lemma {:induction false} HostYieldsTheSame(s: ParserState, bytes: seq<u8>)
    requires ZeroFree(s.encoded) && (s.dropping ==> s.encoded == [])
    ensures HostYielded(s, bytes, MAX_ENCODED) == Yielded(s, bytes)
    decreases |bytes|
  {
    hide HostPushed, Pushed, FrameIn, ZeroFree;
    if bytes != [] {
      SameByte(s, bytes[0]);
      HostYieldsTheSame(Pushed(s, bytes[0]).0, bytes[1..]);
    }
  }

  /** Resynchronisation of the host: what StreamRecovers says of the controller's parser. */
  lemma HostRecovers(s: ParserState, history: seq<u8>, frames: seq<Frame>)
    requires ZeroFree(s.encoded) && (s.dropping ==> s.encoded == [])
    requires forall i :: 0 <= i < |frames| ==> Legal(frames[i])
    ensures forall i :: 0 <= i < |frames| ==> EncodeFrame(frames[i]).Ok?
    ensures HostYielded(s, history + [0] + Wire(frames), MAX_ENCODED) == HostYielded(s, history + [0], MAX_ENCODED) + frames
  {
    hide EncodeFrame, Wire, Yielded, HostYielded, Legal, ZeroFree;
    StreamRecovers(s, history, frames);
    HostYieldsTheSame(s, history + [0] + Wire(frames));
    HostYieldsTheSame(s, history + [0]);
  }
}

// The frames of the serial link, exactly: which bytes unstuff to which, what a frame's bytes
// are, which are accepted, what the others are refused for, and that damage is refused.
module FrameLaws {
  import opened Words
  import opened Optional
  import opened Cobs
  import opened Protocol
  import Crc32c

  // ---- stuffing -------------------------------------------------------------

  /** What a code byte announces: at most 254 bytes. */
  type Run = b: seq<u8> | |b| <= 254

  /** Every run behind its code byte. */
  function Stuffs(runs: seq<Run>): seq<u8> {
    if runs == [] then [] else [|runs[0]| + 1] + runs[0] + Stuffs(runs[1..])
  }

  /** The runs with a zero between any two, except behind a full one. */
  function Joins(runs: seq<Run>): seq<u8> {
    if runs == [] then []
    else if |runs| == 1 then runs[0]
    else runs[0] + (if |runs[0]| == 254 then [] else [0]) + Joins(runs[1..])
  }

  lemma {:induction false} StuffedDecode(runs: seq<Run>)
    ensures DecodeFrom(Stuffs(runs)) == Some(Joins(runs))
    ensures runs != [] ==> Stuffs(runs) != []
    decreases |runs|
  {
    hide DecodeFrom;
    if runs == [] {
      EmptyDecodes();
    } else {
      StuffedDecode(runs[1..]);
      BlockDecodes(runs[0], Stuffs(runs[1..]));
      if |runs| == 1 { assert runs[0] + [] + [] == runs[0]; }
    }
  }

  /** Splits accepted bytes into their runs. */
  function Runs(e: seq<u8>): (runs: seq<Run>)
    requires DecodeFrom(e).Some?
    ensures Stuffs(runs) == e && (e != [] ==> runs != [])
    decreases |e|
  {
    if e == [] then []
    else
      var first: Run := e[1..e[0]];
      var rest := Runs(e[e[0]..]);
      assert ([first] + rest)[1..] == rest && e == [|first| + 1] + first + e[e[0]..];
      [first] + rest
  }

  /** Unstuffing. Bytes unstuff to d exactly when they are some runs behind their code bytes,
      and d is those runs with a zero between any two, except behind a full one. */
  lemma UnstuffingIsExact(e: seq<u8>, d: seq<u8>)
    ensures Decode(e) == Some(d) <==> exists runs: seq<Run> :: runs != [] && Stuffs(runs) == e && Joins(runs) == d
  {
    if Decode(e) == Some(d) {
      var runs := Runs(e);
      StuffedDecode(runs);
      assert runs != [] && Stuffs(runs) == e && Joins(runs) == d;
    }
    forall runs: seq<Run> | runs != [] && Stuffs(runs) == e && Joins(runs) == d ensures Decode(e) == Some(d) {
      StuffedDecode(runs);
    }
  }

  // ---- the frame's bytes ----------------------------------------------------

  /** The host's message types. */
  const HOST_TYPES: seq<int> := [
    1, 2, 3, 4, 5, 16, 17, 18, 19, 20, 21, 22, 32, 33, 34, 35, 36, 37, 38, 39,
    48, 49, 50, 51, 52, 53, 54, 55, 56, 57]

  lemma TypesAreTheHosts(t: u8)
    ensures Known(t) <==> t in HOST_TYPES
  {
    if 1 <= t <= 5 { assert HOST_TYPES[t - 1] == t; }
    if 16 <= t <= 22 { assert HOST_TYPES[t - 11] == t; }
    if 32 <= t <= 39 { assert HOST_TYPES[t - 20] == t; }
    if 48 <= t <= 57 { assert HOST_TYPES[t - 28] == t; }
  }

  /** Bytes that say what the frame says, in its places: the two mark bytes, version, type,
      flags, length, number, time, payload and the checksum of all before it. */
  predicate Lays(d: seq<u8>, f: Frame) {
    && |d| == 20 + |f.payload| && d[0] == 0x5A && d[1] == 0xA5 && d[2] == 1 && d[3] == f.messageType
    && Read16(d, 4) == f.flags && Read16(d, 6) == |f.payload| && Read32(d, 8) == f.sequence
    && Read32(d, 12) == f.senderTimeMs && d[16..|d| - 4] == f.payload
    && Read32(d, |d| - 4) == Crc32c.Checksum(d[..|d| - 4])
  }

  /** A frame's bytes are exactly the ones that lay it out so. */
  lemma BodyIsExact(d: seq<u8>, f: Frame)
    requires |f.payload| <= 512
    ensures d == Body(f) <==> Lays(d, f)
  {
    hide Crc32c.Checksum, Body;
    BodyLays(f);
    if Lays(d, f) { LaidAlike(d, Body(f), f); }
  }

  lemma BodyLays(f: Frame)
    requires |f.payload| <= 512
    ensures Lays(Body(f), f)
  {
    hide Header, Crc32c.Checksum;
    var d, covered, n := Body(f), Header(f) + f.payload, |f.payload|;
    var crc := Crc32c.Checksum(covered);
    assert d == Header(f) + (f.payload + Bytes32(crc));
    HeaderReads(f, f.payload + Bytes32(crc));
    ReadBytes32(covered, crc, []);
    assert d == covered + Bytes32(crc) + [];
    assert d[..16 + n] == covered && d[16..16 + n] == f.payload;
    Mark(d);
  }

  lemma Mark(d: seq<u8>)
    requires |d| >= 2
    ensures Read16(d, 0) == MAGIC <==> d[0] == 0x5A && d[1] == 0xA5
  {
  }

  lemma Same16(d: seq<u8>, e: seq<u8>, i: nat)
    requires i + 2 <= |d| && i + 2 <= |e| && Read16(d, i) == Read16(e, i)
    ensures d[i..i + 2] == e[i..i + 2]
  {
  }

  lemma Same32(d: seq<u8>, e: seq<u8>, i: nat)
    requires i + 4 <= |d| && i + 4 <= |e| && Read32(d, i) == Read32(e, i)
    ensures d[i..i + 4] == e[i..i + 4]
  {
    hide Read32, Bytes32;
    WritesBack(d, i);
    WritesBack(e, i);
  }

  /** Two layouts of one frame are the same bytes. */
  lemma LaidAlike(d: seq<u8>, e: seq<u8>, f: Frame)
    requires Lays(d, f) && Lays(e, f)
    ensures d == e
  {
    hide Read16, Read32, Crc32c.Checksum;
    var n := |d| - 4;
    Same16(d, e, 4);
    Same16(d, e, 6);
    Same32(d, e, 8);
    Same32(d, e, 12);
    assert d[..4] == e[..4] && d[4..8] == d[4..6] + d[6..8] && e[4..8] == e[4..6] + e[6..8];
    assert d[..n] == d[..4] + d[4..8] + d[8..12] + d[12..16] + d[16..n];
    assert e[..n] == e[..4] + e[4..8] + e[8..12] + e[12..16] + e[16..n];
    Same32(d, e, n);
    assert d == d[..n] + d[n..n + 4] && e == e[..n] + e[n..n + 4];
  }

  // ---- what is accepted -----------------------------------------------------

  /** Unstuffed bytes are accepted as a frame exactly when the frame is legal and these are
      its bytes. */
  lemma AcceptedAreBodies(d: seq<u8>, f: Frame)
    ensures ParseBody(d) == Ok(f) <==> Legal(f) && d == Body(f)
  {
    hide Body, Crc32c.Checksum;
    if Legal(f) && d == Body(f) { BodyParses(f); }
    if ParseBody(d) == Ok(f) {
      Mark(d);
      BodyIsExact(d, f);
    }
  }

  /** Off the wire, on both ends. The controller's bounded decoder and the host's accept the
      same frames: those whose bytes these are stuffed. */
  lemma AcceptedAreFrames(e: seq<u8>, f: Frame)
    ensures DecodeFrame(e) == Ok(f) <==> Legal(f) && Decode(e) == Some(Body(f))
    ensures HostDecode(e) == Ok(f) <==>
              Legal(f) && Decode(if e != [] && e[|e| - 1] == 0 then e[..|e| - 1] else e) == Some(Body(f))
  {
    hide Body, Decode, ParseBody;
    var bare := if e != [] && e[|e| - 1] == 0 then e[..|e| - 1] else e;
    if Decode(e).Some? { AcceptedAreBodies(Decode(e).value, f); }
    if Decode(bare).Some? { AcceptedAreBodies(Decode(bare).value, f); }
  }

  /** Why bytes are refused: the first that applies of too short, no mark, another version, an
      unknown type, a length over 512 or not the one there is, and a wrong checksum. */
  lemma RefusalsAreExact(d: seq<u8>)
    ensures var r := ParseBody(d);
            if |d| < 20 then r == Err(FrameTooShort)
            else if d[0] != 0x5A || d[1] != 0xA5 then r == Err(BadMagic)
            else if d[2] != 1 then r == Err(BadVersion)
            else if d[3] !in HOST_TYPES then r == Err(UnknownMessage)
            else if Read16(d, 6) > 512 || Read16(d, 6) != |d| - 20 then r == Err(BadLength)
            else if Read32(d, |d| - 4) != Crc32c.Checksum(d[..|d| - 4]) then r == Err(BadCrc)
            else r.Ok?
  {
    hide Crc32c.Checksum;
    if |d| >= 20 {
      Mark(d);
      TypesAreTheHosts(d[3]);
    }
  }

  /** Bytes that do not unstuff, or to more than 532, are refused as such. */
  lemma UnstuffedRefusals(e: seq<u8>)
    ensures DecodeFrame(e) == Err(CobsError) <==> Decode(e).None? || |Decode(e).value| > 532
    ensures Decode(e).Some? && |Decode(e).value| <= 532 ==> DecodeFrame(e) == ParseBody(Decode(e).value)
  {
    hide Decode;
  }

  /** Damage. A frame's bytes in which up to four consecutive ones before the checksum were
      changed are refused, whatever was hit: mark, type, length, number or payload. */
  lemma DamagedFrameIsRefused(f: Frame, start: nat, damage: seq<u8>)
    requires Legal(f) && |damage| <= 4 && start + |damage| <= 16 + |f.payload|
    requires damage != Body(f)[start..start + |damage|]
    ensures ParseBody(Body(f)[..start] + damage + Body(f)[start + |damage|..]).Err?
  {
    hide Crc32c.Checksum, Body;
    var d, n := Body(f), |damage|;
    var q, covered := d[..start] + damage + d[start + n..], |d| - 4;
    if ParseBody(q).Ok? {
      var g := ParseBody(q).value;
      AcceptedAreBodies(q, g);
      BodyIsExact(d, f);
      BodyIsExact(q, g);
      assert q[..covered] == d[..start] + damage + d[start + n..covered];
      assert d[..covered] == d[..start] + d[start..start + n] + d[start + n..covered];
      Crc32c.BurstIsDetected(d[..start], d[start..start + n], damage, d[start + n..covered]);
      assert false;
    }
  }

  // ---- the stream -----------------------------------------------------------

  /** The bytes since the last zero. */
  function SinceZero(bytes: seq<u8>): (t: seq<u8>)
    ensures |t| <= |bytes|
  {
    if bytes == [] || bytes[|bytes| - 1] == 0 then [] else SinceZero(bytes[..|bytes| - 1]) + [bytes[|bytes| - 1]]
  }

  lemma {:induction false} ParserHoldsTail(bytes: seq<u8>)
    ensures var t := SinceZero(bytes);
            Fed(NEW_PARSER, bytes) == if |t| <= 535 then ParserState(t, false) else ParserState([], true)
    decreases |bytes|
  {
    hide DecodeFrame;
    if bytes != [] {
      var front, last := bytes[..|bytes| - 1], bytes[|bytes| - 1];
      assert bytes == front + [last];
      ParserHoldsTail(front);
      FeedSplits(NEW_PARSER, front, [last]);
      OnePush(Fed(NEW_PARSER, front), last);
    }
  }

  lemma OnePush(s: ParserState, byte: u8)
    ensures Fed(s, [byte]) == Pushed(s, byte).0
  {
    assert [byte][1..] == [];
  }

  /** The stream, in every case. After any bytes, a zero decodes exactly what came since the
      last zero: nothing for nothing, the frame or its fault for up to 535 bytes, and an
      overflow for more, which is reported once more at the byte that makes it too long. */
  lemma EventsAreExact(bytes: seq<u8>, byte: u8)
    ensures var n := |SinceZero(bytes)|;
            Pushed(Fed(NEW_PARSER, bytes), byte).1 ==
              if byte != 0 then (if n == 535 then Overflow else NoFrame)
              else if n == 0 then NoFrame
              else if n <= 535 then Frames(DecodeFrame(SinceZero(bytes)))
              else Overflow
  {
    hide DecodeFrame, Fed;
    ParserHoldsTail(bytes);
  }
}

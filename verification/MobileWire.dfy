// The 36-byte "AM" v1 command: header, session, sequence, expiry, four velocities
// and a CRC-32C, all little-endian.
module MobileWire {
  import opened Words
  import opened Optional
  import opened Crc32c
  import opened MobileSupervisor

  const WIRE_SIZE: nat := 36

  function OpcodeByte(op: Opcode): u8 {
    match op case ArmOp => 1 case VelocityOp => 2 case StopOp => 3
  }

  function ByteOpcode(b: u8): Option<Opcode> {
    if b == 1 then Some(ArmOp) else if b == 2 then Some(VelocityOp) else if b == 3 then Some(StopOp) else None
  }

  /** Messages the codec carries. */
  predicate ValidMessage(m: Message) {
    && m.session != 0
    && (m.opcode == ArmOp ==> m.sequence == 0)
    && (forall i :: 0 <= i < 4 ==> -32767 <= m.velocity[i] <= 32767)
    && (m.opcode != VelocityOp ==> m.velocity == AT_REST)
  }

  function VelocityBytes(v: Axes): (b: seq<u8>)
    ensures |b| == 16
  {
    Bytes32(SignedWord(v[0])) + Bytes32(SignedWord(v[1])) + Bytes32(SignedWord(v[2])) + Bytes32(SignedWord(v[3]))
  }

  /** Everything but the checksum. */
  function Body(m: Message): (b: seq<u8>)
    ensures |b| == 32
  {
    [65, 77, 1, OpcodeByte(m.opcode)] + Bytes32(m.session) + Bytes32(m.sequence) + Bytes32(m.validUntilMs)
    + VelocityBytes(m.velocity)
  }

  function Encode(m: Message): Option<seq<u8>> {
    if !ValidMessage(m) then None else Some(Body(m) + Bytes32(Checksum(Body(m))))
  }

  function VelocityAt(p: seq<u8>): Axes
    requires |p| == WIRE_SIZE
  {
    [ReadI32(p, 16), ReadI32(p, 20), ReadI32(p, 24), ReadI32(p, 28)]
  }

  /** Header and checksum of a 36-byte window. */
  predicate GoodWindow(p: seq<u8>)
    requires |p| == WIRE_SIZE
  {
    p[0] == 65 && p[1] == 77 && p[2] == 1 && Read32(p, 32) == Checksum(p[..32])
  }

  function Decode(p: seq<u8>): Option<Message> {
    if |p| != WIRE_SIZE || !GoodWindow(p) then None
    else
      match ByteOpcode(p[3])
      case None => None
      case Some(op) =>
        if ValidMessage(Message(op, Read32(p, 4), Read32(p, 8), Read32(p, 12), VelocityAt(p)))
        then Some(Message(op, Read32(p, 4), Read32(p, 8), Read32(p, 12), VelocityAt(p))) else None
  }

  method WireValid(m: Message) returns (ok: bool)
    ensures ok <==> ValidMessage(m)
  {
    if m.session == 0 || (m.opcode == ArmOp && m.sequence != 0) { return false; }
    for i := 0 to 4
      invariant forall k :: 0 <= k < i ==> -32767 <= m.velocity[k] <= 32767
      invariant m.opcode != VelocityOp ==> forall k :: 0 <= k < i ==> m.velocity[k] == 0
    {
      if m.velocity[i] < -32767 || m.velocity[i] > 32767 || (m.opcode != VelocityOp && m.velocity[i] != 0) {
        return false;
      }
    }
    assert m.opcode != VelocityOp ==> m.velocity == AT_REST;
    ok := true;
  }

  method WireEncode(m: Message) returns (packet: Option<seq<u8>>)
    ensures packet == Encode(m)
  {
    hide Checksum, Bytes32, SignedWord;
    var ok := WireValid(m);
    if !ok { return None; }
    var candidate := [65, 77, 1, OpcodeByte(m.opcode)] + Bytes32(m.session) + Bytes32(m.sequence) + Bytes32(m.validUntilMs);
    ghost var head := candidate;
    for i := 0 to 4
      invariant candidate == head + VelocityBytes(m.velocity)[..4 * i]
    {
      candidate := candidate + Bytes32(SignedWord(m.velocity[i]));
      assert VelocityBytes(m.velocity)[4 * i..4 * (i + 1)] == Bytes32(SignedWord(m.velocity[i]));
    }
    assert candidate == Body(m);
    var crc := Compute(candidate);
    packet := Some(candidate + Bytes32(crc));
  }

  method WireDecode(p: seq<u8>) returns (m: Option<Message>)
    ensures m == Decode(p)
  {
    hide Checksum;
    if |p| != WIRE_SIZE || p[0] != 65 || p[1] != 77 || p[2] != 1 { return None; }
    var crc := Compute(p[..32]);
    if Read32(p, 32) != crc { return None; }
    var op := ByteOpcode(p[3]);
    if op.None? { return None; }
    var v: seq<i32> := [];
    for i := 0 to 4
      invariant |v| == i && forall k :: 0 <= k < i ==> v[k] == ReadI32(p, 16 + 4 * k)
    {
      v := v + [ReadI32(p, 16 + 4 * i)];
    }
    assert v == VelocityAt(p);
    var candidate := Message(op.value, Read32(p, 4), Read32(p, 8), Read32(p, 12), v);
    var ok := WireValid(candidate);
    m := if ok then Some(candidate) else None;
  }

  // ---- the codec is a bijection between valid messages and accepted packets --

  /** Layout of an encoded packet, field by field. */
  lemma Layout(m: Message, crc: u32)
    ensures var p := Body(m) + Bytes32(crc);
            && |p| == 36 && p[..32] == Body(m)
            && p[0] == 65 && p[1] == 77 && p[2] == 1 && p[3] == OpcodeByte(m.opcode)
            && Read32(p, 4) == m.session && Read32(p, 8) == m.sequence && Read32(p, 12) == m.validUntilMs
            && VelocityAt(p) == m.velocity && Read32(p, 32) == crc
  {
    hide Bytes32, Read32, SignedWord, ToI32;
    var p := Body(m) + Bytes32(crc);
    assert p[4..8] == Bytes32(m.session) && p[8..12] == Bytes32(m.sequence) && p[12..16] == Bytes32(m.validUntilMs);
    assert p[16..20] == Bytes32(SignedWord(m.velocity[0])) && p[20..24] == Bytes32(SignedWord(m.velocity[1]));
    assert p[24..28] == Bytes32(SignedWord(m.velocity[2])) && p[28..32] == Bytes32(SignedWord(m.velocity[3]));
    assert p[32..36] == Bytes32(crc);
    ReadsBack(p, 4, m.session);
    ReadsBack(p, 8, m.sequence);
    ReadsBack(p, 12, m.validUntilMs);
    ReadsBack(p, 16, SignedWord(m.velocity[0]));
    ReadsBack(p, 20, SignedWord(m.velocity[1]));
    ReadsBack(p, 24, SignedWord(m.velocity[2]));
    ReadsBack(p, 28, SignedWord(m.velocity[3]));
    ReadsBack(p, 32, crc);
    forall i | 0 <= i < 4 ensures ToI32(SignedWord(m.velocity[i])) == m.velocity[i] {
      SignedRoundTrip(m.velocity[i], 0);
    }
  }

  /** Decoding inverts encoding on every valid message. */
  lemma EncodeThenDecode(m: Message)
    requires ValidMessage(m)
    ensures Encode(m).Some? && Decode(Encode(m).value) == Some(m)
  {
    hide Checksum, Body, Read32, VelocityAt, ValidMessage;
    Layout(m, Checksum(Body(m)));
  }

  /** Encoding inverts decoding on every accepted packet: no two packets mean the same. */
  lemma DecodeThenEncode(p: seq<u8>)
    requires Decode(p).Some?
    ensures Encode(Decode(p).value) == Some(p)
  {
    hide Checksum, Read32, Bytes32, ValidMessage, SignedWord, ToI32;
    var m := Decode(p).value;
    WritesBack(p, 4);
    WritesBack(p, 8);
    WritesBack(p, 12);
    WritesBack(p, 16);
    WritesBack(p, 20);
    WritesBack(p, 24);
    WritesBack(p, 28);
    WritesBack(p, 32);
    forall i | 0 <= i < 4 ensures SignedWord(m.velocity[i]) == Read32(p, 16 + 4 * i) {
      SignedRoundTrip(0, Read32(p, 16 + 4 * i));
      assert m.velocity[i] == ReadI32(p, 16 + 4 * i);
    }
    assert VelocityBytes(m.velocity) == p[16..32];
    assert [65, 77, 1, OpcodeByte(m.opcode)] == p[..4];
    assert Body(m) == p[..32];
    assert p == p[..32] + p[32..36];
  }

  /** Which packets are messages: 36 bytes under the right header and checksum, with a known
      code and a session; arming carries no sequence number, only velocities carry speeds,
      and no speed is out of a servo's range. */
  lemma MessagesAreExactly(p: seq<u8>)
    ensures Decode(p).Some? <==>
              && |p| == 36 && p[0] == 65 && p[1] == 77 && p[2] == 1 && Read32(p, 32) == Checksum(p[..32])
              && 1 <= p[3] <= 3 && Read32(p, 4) != 0 && (p[3] == 1 ==> Read32(p, 8) == 0)
              && (forall i :: 0 <= i < 4 ==> -32767 <= ReadI32(p, 16 + 4 * i) <= 32767)
              && (p[3] != 2 ==> forall i :: 0 <= i < 4 ==> ReadI32(p, 16 + 4 * i) == 0)
    ensures Decode(p).Some? ==>
              var m := Decode(p).value;
              && m.session == Read32(p, 4) && m.sequence == Read32(p, 8) && m.validUntilMs == Read32(p, 12)
              && (p[3] == 1 <==> m.opcode == ArmOp) && (p[3] == 2 <==> m.opcode == VelocityOp) && (p[3] == 3 <==> m.opcode == StopOp)
              && forall i :: 0 <= i < 4 ==> m.velocity[i] == ReadI32(p, 16 + 4 * i)
  {
    hide Checksum, Read32, ReadI32;
    if |p| == WIRE_SIZE {
      var v := VelocityAt(p);
      assert v[0] == ReadI32(p, 16 + 4 * 0) && v[1] == ReadI32(p, 16 + 4 * 1);
      assert v[2] == ReadI32(p, 16 + 4 * 2) && v[3] == ReadI32(p, 16 + 4 * 3);
      assert v == AT_REST <==> forall i :: 0 <= i < 4 ==> v[i] == 0;
    }
  }

  /** A received packet applied to the supervisor. */
  function ApplyPacket(s: Supervisor, p: seq<u8>, now: u32): (Supervisor, bool) {
    match Decode(p)
    case None => (Watched(s, now), false)
    case Some(m) => Applied(s, m, now)
  }

  method WireApply(s: MobileSupervisorObject, p: seq<u8>, now: u32) returns (ok: bool)
    modifies s
    ensures (s.State(), ok) == ApplyPacket(old(s.State()), p, now)
  {
    hide Decode;
    var m := WireDecode(p);
    match m {
      case None =>
        s.Poll(now);
        ok := false;
      case Some(message) => ok := s.ApplyMessage(message, now);
    }
  }
}

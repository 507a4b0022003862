// Broadcast write frames for whole motor groups: sign-magnitude speeds for the wheels
// and the lift, positions for the arms.
module MotorPackets {
  import opened Words

  /** Three wheel motors followed by the lift motor. */
  const WHEEL_IDS: seq<u8> := [8, 9, 10]
  const LIFT_IDS: seq<u8> := [11]
  const MOBILE_IDS: seq<u8> := [8, 9, 10, 11]
  const ARM_IDS: seq<u8> := [1, 2, 3, 4, 5, 6]
  const LIFT_ID: u8 := 11

  const SPEED_ADDRESS: u8 := 46
  const POSITION_ADDRESS: u8 := 42

  function ByteSum(b: seq<u8>): nat
    decreases |b|
  {
    if b == [] then 0 else b[0] as int + ByteSum(b[1..])
  }

  /** The sum is over every byte. */
  lemma {:induction false} SumsAdd(a: seq<u8>, x: u8, b: seq<u8>)
    ensures ByteSum(a + b) == ByteSum(a) + ByteSum(b) && ByteSum([x]) == x
    decreases |a|
  {
    assert [x][1..] == [];
    if a == [] {
      assert a + b == b;
    } else {
      assert (a + b)[1..] == a[1..] + b;
      SumsAdd(a[1..], x, b);
    }
  }

  function Entries(ids: seq<u8>, words: seq<u16>): (b: seq<u8>)
    requires |ids| == |words|
    ensures |b| == 3 * |ids|
    decreases |ids|
  {
    if ids == [] then [] else [ids[0]] + Bytes16(words[0]) + Entries(ids[1..], words[1..])
  }

  function Fields(address: u8, ids: seq<u8>, words: seq<u16>): (b: seq<u8>)
    requires |ids| == |words| <= 6
    ensures |b| == 5 + 3 * |ids|
  {
    [0xfe, 4 + 3 * |ids|, 0x83, address, 2] + Entries(ids, words)
  }

  /** A sync-write frame: every addressed motor gets one word. */
  function SyncWrite(address: u8, ids: seq<u8>, words: seq<u16>): (b: seq<u8>)
    requires |ids| == |words| <= 6
    ensures |b| == 8 + 3 * |ids|
  {
    var f := Fields(address, ids, words);
    [0xff, 0xff] + f + [255 - ByteSum(f) % 256]
  }

  lemma {:induction false} EntriesDetermineWords(ids: seq<u8>, v: seq<u16>, w: seq<u16>)
    requires |ids| == |v| == |w| && Entries(ids, v) == Entries(ids, w)
    ensures v == w
    decreases |ids|
  {
    if ids != [] {
      var a, b := Entries(ids, v), Entries(ids, w);
      assert a[1] == b[1] && a[2] == b[2];
      assert v[0] == w[0];
      assert Entries(ids[1..], v[1..]) == a[3..] && Entries(ids[1..], w[1..]) == b[3..];
      EntriesDetermineWords(ids[1..], v[1..], w[1..]);
    }
  }

  /** Equal frames to the same motors carry equal words. */
  lemma FrameDeterminesWords(address: u8, ids: seq<u8>, v: seq<u16>, w: seq<u16>)
    requires |ids| == |v| == |w| <= 6 && SyncWrite(address, ids, v) == SyncWrite(address, ids, w)
    ensures v == w
  {
    var a, b := SyncWrite(address, ids, v), SyncWrite(address, ids, w);
    assert Entries(ids, v) == a[7..7 + 3 * |ids|] && Entries(ids, w) == b[7..7 + 3 * |ids|];
    EntriesDetermineWords(ids, v, w);
  }

  // ---- speeds ---------------------------------------------------------------

  /** Sign-magnitude register word of a speed. */
  function SpeedWord(v: int): u16
    requires -32767 <= v <= 32767
  {
    if v < 0 then 0x8000 - v else v
  }

  predicate SpeedsFit(v: seq<int>) {
    forall i :: 0 <= i < |v| ==> -32767 <= v[i] <= 32767
  }

  function SpeedWords(v: seq<int>): (w: seq<u16>)
    requires SpeedsFit(v)
    ensures |w| == |v|
  {
    seq(|v|, i requires 0 <= i < |v| => SpeedWord(v[i]))
  }

  function SpeedFrame(ids: seq<u8>, v: seq<int>): seq<u8>
    requires |ids| == |v| <= 6 && SpeedsFit(v)
  {
    SyncWrite(SPEED_ADDRESS, ids, SpeedWords(v))
  }

  // ---- the builder's checks -------------------------------------------------

  datatype PacketFault = NoPacketFault | InvalidCount | InvalidRange | InvalidId | DuplicateId

  /** First complaint about the motor numbers from the k-th on. */
  function IdFault(ids: seq<u8>, k: nat): PacketFault
    decreases |ids| - k
  {
    if k >= |ids| then NoPacketFault
    else if ids[k] == 0 || ids[k] >= 0xfe then InvalidId
    else if ids[k] in ids[..k] then DuplicateId
    else IdFault(ids, k + 1)
  }

  function BuildFault(address: u8, ids: seq<u8>): PacketFault {
    if |ids| == 0 || |ids| > 6 then InvalidCount
    else if address == 255 then InvalidRange
    else IdFault(ids, 0)
  }

  /** Numbers of single motors, each once. */
  predicate ProperIds(ids: seq<u8>) {
    && (forall i :: 0 <= i < |ids| ==> 0 < ids[i] < 0xfe)
    && (forall i, j :: 0 <= i < j < |ids| ==> ids[i] != ids[j])
  }

  lemma {:induction false} NoFaultMeansProper(ids: seq<u8>, k: nat)
    requires k <= |ids| && ProperIds(ids[..k])
    ensures IdFault(ids, k) == NoPacketFault <==> ProperIds(ids)
    decreases |ids| - k
  {
    if k == |ids| {
      assert ids[..k] == ids;
    } else if ids[k] in ids[..k] {
      var i :| 0 <= i < k && ids[..k][i] == ids[k];
      assert ids[i] == ids[k];
    } else if 0 < ids[k] < 0xfe {
      assert ids[..k + 1] == ids[..k] + [ids[k]];
      NoFaultMeansProper(ids, k + 1);
    }
  }

  /** A frame is built exactly for one to six distinct motors and a writable register. */
  lemma BuildsExactlyProper(address: u8, ids: seq<u8>)
    ensures BuildFault(address, ids) == NoPacketFault <==> 1 <= |ids| <= 6 && address != 255 && ProperIds(ids)
  {
    NoFaultMeansProper(ids, 0);
  }

  /** Checks the count, the register and, marking off each number, the motors; then writes
      the frame. */
  method BuildSyncWrite(address: u8, ids: seq<u8>, words: seq<u16>) returns (fault: PacketFault, packet: seq<u8>)
    requires |ids| == |words|
    ensures fault == BuildFault(address, ids)
    ensures fault == NoPacketFault ==> |ids| <= 6 && packet == SyncWrite(address, ids, words)
  {
    packet := [];
    if |ids| == 0 || |ids| > 6 { return InvalidCount, packet; }
    if address == 255 { return InvalidRange, packet; }
    var seen := new bool[254](_ => false);
    for k := 0 to |ids|
      invariant IdFault(ids, 0) == IdFault(ids, k)
      invariant forall n :: 0 <= n < 254 ==> (seen[n] <==> n in ids[..k])
    {
      var id := ids[k];
      if id == 0 || id >= 0xfe { return InvalidId, packet; }
      if seen[id] { return DuplicateId, packet; }
      seen[id] := true;
      assert ids[..k + 1] == ids[..k] + [id];
    }
    fault := NoPacketFault;
    packet := SyncWrite(address, ids, words);
  }

  // ---- motor groups ---------------------------------------------------------

  datatype Group = LeftArm | RightArm | Wheels | LiftColumn

  function GroupMotors(g: Group): (ids: seq<u8>)
    ensures 1 <= |ids| <= 6
  {
    match g case LeftArm => ARM_IDS case RightArm => ARM_IDS case Wheels => WHEEL_IDS case LiftColumn => LIFT_IDS
  }

  /** Arms take positions, the wheels and the lift column speeds. */
  predicate TakesSpeeds(g: Group) {
    g == Wheels || g == LiftColumn
  }

  /** A group takes speeds exactly when its motors are the mobile ones; an arm is all six. */
  lemma GroupsHaveModes(g: Group)
    ensures TakesSpeeds(g) <==> forall m :: m in GroupMotors(g) ==> 8 <= m <= 11
    ensures !TakesSpeeds(g) ==> GroupMotors(g) == [1, 2, 3, 4, 5, 6]
    ensures GroupMotors(Wheels) + GroupMotors(LiftColumn) == MOBILE_IDS
  {
    assert WHEEL_IDS == [8, 9, 10] && LIFT_IDS == [11] && WHEEL_IDS + LIFT_IDS == MOBILE_IDS;
    if TakesSpeeds(g) {
      assert GroupMotors(g) == [8, 9, 10] || GroupMotors(g) == [11];
    } else {
      assert GroupMotors(g)[0] == 1 && 1 in GroupMotors(g);
    }
  }

  datatype Framed = Refused(reason: GroupFault) | Framed(bytes: seq<u8>)

  datatype GroupFault = WrongMode | WrongCount | SpeedOutOfRange | PacketRefused

  lemma GroupsAreProper(g: Group, address: u8)
    requires address != 255
    ensures BuildFault(address, GroupMotors(g)) == NoPacketFault
  {
    BuildsExactlyProper(address, GroupMotors(g));
  }

  /** The frame of a group's speeds, or the first rule it breaks; the builder never refuses. */
  method GroupSpeeds(g: Group, v: seq<int>) returns (f: Framed)
    ensures f == if !TakesSpeeds(g) then Refused(WrongMode)
                 else if |v| != |GroupMotors(g)| then Refused(WrongCount)
                 else if !SpeedsFit(v) then Refused(SpeedOutOfRange)
                 else Framed(SpeedFrame(GroupMotors(g), v))
  {
    hide SyncWrite;
    if !TakesSpeeds(g) { return Refused(WrongMode); }
    if |v| != |GroupMotors(g)| { return Refused(WrongCount); }
    var words: seq<u16> := [];
    for i := 0 to |v|
      invariant |words| == i
      invariant forall k :: 0 <= k < i ==> -32767 <= v[k] <= 32767 && words[k] == SpeedWord(v[k])
    {
      if v[i] < -32767 || v[i] > 32767 { return Refused(SpeedOutOfRange); }
      words := words + [if v[i] < 0 then 0x8000 - v[i] else v[i]];
    }
    assert words == SpeedWords(v);
    var fault, packet := BuildSyncWrite(SPEED_ADDRESS, GroupMotors(g), words);
    GroupsAreProper(g, SPEED_ADDRESS);
    if fault != NoPacketFault { return Refused(PacketRefused); }
    f := Framed(packet);
  }

  /** The frame of an arm's positions, or the first rule it breaks. */
  method GroupPositions(g: Group, p: seq<u16>) returns (f: Framed)
    ensures f == if TakesSpeeds(g) then Refused(WrongMode)
                 else if |p| != |GroupMotors(g)| then Refused(WrongCount)
                 else Framed(SyncWrite(POSITION_ADDRESS, GroupMotors(g), p))
  {
    hide SyncWrite;
    if TakesSpeeds(g) { return Refused(WrongMode); }
    if |p| != |GroupMotors(g)| { return Refused(WrongCount); }
    var fault, packet := BuildSyncWrite(POSITION_ADDRESS, GroupMotors(g), p);
    GroupsAreProper(g, POSITION_ADDRESS);
    if fault != NoPacketFault { return Refused(PacketRefused); }
    f := Framed(packet);
  }

  // ---- rest -----------------------------------------------------------------

  predicate AllZero(v: seq<int>) {
    forall i :: 0 <= i < |v| ==> v[i] == 0
  }

  /** The same motors, all told to stand still. */
  function ZeroSpeeds(n: nat): (v: seq<int>)
    ensures |v| == n && SpeedsFit(v) && AllZero(v)
  {
    seq(n, _ => 0)
  }

  function ZeroFrame(ids: seq<u8>): seq<u8>
    requires |ids| <= 6
  {
    SpeedFrame(ids, ZeroSpeeds(|ids|))
  }

  /** A frame is the zero frame exactly when every speed in it is zero. */
  lemma ZeroFrameMeansRest(ids: seq<u8>, v: seq<int>)
    requires |ids| == |v| <= 6 && SpeedsFit(v)
    ensures SpeedFrame(ids, v) == ZeroFrame(ids) <==> AllZero(v)
  {
    var z := ZeroSpeeds(|ids|);
    if SpeedFrame(ids, v) == ZeroFrame(ids) {
      FrameDeterminesWords(SPEED_ADDRESS, ids, SpeedWords(v), SpeedWords(z));
      forall i | 0 <= i < |v| ensures v[i] == 0 {
        assert SpeedWords(v)[i] == SpeedWords(z)[i];
      }
    }
    if AllZero(v) {
      assert SpeedWords(v) == SpeedWords(z);
    }
  }

  // ---- positions ------------------------------------------------------------

  type ArmPose = p: seq<u16> | |p| == 6 witness [0, 0, 0, 0, 0, 0]

  /** An arm holding a pose. */
  function HoldFrame(p: ArmPose): (b: seq<u8>)
    ensures |b| == 26
  {
    SyncWrite(POSITION_ADDRESS, ARM_IDS, p)
  }

  /** A pose always makes a frame for an arm. */
  method HoldPacket(g: Group, p: ArmPose) returns (b: seq<u8>)
    requires !TakesSpeeds(g)
    ensures b == HoldFrame(p)
  {
    var f := GroupPositions(g, p);
    b := f.bytes;
  }

  /** The frame that stops the wheels and the lift together. */
  function StopFrame(): (b: seq<u8>)
    ensures |b| == 20
  {
    SyncWrite(SPEED_ADDRESS, MOBILE_IDS, [0, 0, 0, 0])
  }

  // ---- what a motor reads ---------------------------------------------------

  /** A sync-write frame as the bus sees it: its marks, its own length, one word for each
      entry at that register, and a checksum that complements the sum of everything before. */
  predicate IsSyncWrite(f: seq<u8>, address: u8) {
    && |f| >= 8 && f[0] == 0xff && f[1] == 0xff && f[2] == 0xfe && f[3] as int == |f| - 4 && f[4] == 0x83
    && f[5] == address && f[6] == 2 && (|f| - 8) % 3 == 0
    && (ByteSum(f[2..|f| - 1]) + f[|f| - 1]) % 256 == 255
  }

  /** The word a motor finds under its number in the entries. */
  function EntryFor(entries: seq<u8>, id: u8): (w: int)
    decreases |entries|
  {
    if |entries| < 3 then -1
    else if entries[0] == id then entries[1] as int + 0x100 * entries[2] as int
    else EntryFor(entries[3..], id)
  }

  lemma {:induction false} EntriesAreRead(ids: seq<u8>, words: seq<u16>, id: u8)
    requires |ids| == |words| && ProperIds(ids)
    ensures (id !in ids ==> EntryFor(Entries(ids, words), id) == -1)
    ensures forall i :: 0 <= i < |ids| && ids[i] == id ==> EntryFor(Entries(ids, words), id) == words[i]
    decreases |ids|
  {
    if ids != [] {
      var e := Entries(ids, words);
      assert e[3..] == Entries(ids[1..], words[1..]);
      assert e[1] == words[0] % 0x100 && e[2] == words[0] / 0x100;
      forall i, j | 0 <= i < j < |ids[1..]| ensures ids[1..][i] != ids[1..][j] {
        assert ids[i + 1] != ids[j + 1];
      }
      EntriesAreRead(ids[1..], words[1..], id);
      forall i | 0 <= i < |ids| && ids[i] == id ensures EntryFor(e, id) == words[i] {
        if i > 0 { assert ids[1..][i - 1] == id && ids[0] != ids[i]; }
      }
      if id !in ids { assert ids[0] != id && id !in ids[1..]; }
    }
  }

  /** A frame reads as it was meant: it is a well-formed sync write at its register, each
      addressed motor finds its own word in it, and no other motor finds any. */
  lemma FramesAreRead(address: u8, ids: seq<u8>, words: seq<u16>)
    requires |ids| == |words| <= 6 && ProperIds(ids)
    ensures var f := SyncWrite(address, ids, words);
            && IsSyncWrite(f, address)
            && (forall i :: 0 <= i < |ids| ==> EntryFor(f[7..|f| - 1], ids[i]) == words[i])
            && (forall id: u8 :: id !in ids ==> EntryFor(f[7..|f| - 1], id) == -1)
  {
    var f := SyncWrite(address, ids, words);
    assert f[2..|f| - 1] == Fields(address, ids, words) && f[7..|f| - 1] == Entries(ids, words);
    assert IsSyncWrite(f, address) by { assert f[|f| - 1] == 255 - ByteSum(Fields(address, ids, words)) % 256; }
    forall i | 0 <= i < |ids| ensures EntryFor(f[7..|f| - 1], ids[i]) == words[i] {
      EntriesAreRead(ids, words, ids[i]);
    }
    forall id: u8 | id !in ids ensures EntryFor(f[7..|f| - 1], id) == -1 {
      EntriesAreRead(ids, words, id);
    }
  }

  /** The speed a motor takes from its register: the low fifteen bits, backwards if the top
      one is set. */
  function SpeedOf(word: u16): int {
    if word >= 0x8000 then -(word as int - 0x8000) else word
  }

  /** A motor drives at exactly the speed asked of it, and the register says whether at all. */
  lemma SpeedsAreRead(ids: seq<u8>, v: seq<int>)
    requires |ids| == |v| <= 6 && ProperIds(ids) && SpeedsFit(v)
    ensures var f := SpeedFrame(ids, v);
            && IsSyncWrite(f, 46)
            && forall i :: 0 <= i < |ids| ==> var w := EntryFor(f[7..|f| - 1], ids[i]);
                                              0 <= w < 0x1_0000 && SpeedOf(w) == v[i]
  {
    hide SyncWrite, IsSyncWrite, EntryFor;
    FramesAreRead(SPEED_ADDRESS, ids, SpeedWords(v));
    forall i | 0 <= i < |ids| ensures SpeedOf(SpeedWords(v)[i]) == v[i] {}
  }

  /** Who is told to stop, and what an arm is told to hold. */
  lemma StopsAndHoldsAreRead(p: ArmPose)
    ensures IsSyncWrite(StopFrame(), 46)
    ensures forall id: u8 :: 8 <= id <= 11 ==> EntryFor(StopFrame()[7..19], id) == 0
    ensures IsSyncWrite(HoldFrame(p), 42)
    ensures forall i :: 0 <= i < 6 ==> EntryFor(HoldFrame(p)[7..25], ARM_IDS[i]) == p[i]
  {
    hide SyncWrite, IsSyncWrite, EntryFor;
    FramesAreRead(SPEED_ADDRESS, MOBILE_IDS, [0, 0, 0, 0]);
    FramesAreRead(POSITION_ADDRESS, ARM_IDS, p);
    forall id: u8 | 8 <= id <= 11 ensures EntryFor(StopFrame()[7..19], id) == 0 {
      assert MOBILE_IDS[id - 8] == id;
    }
  }
}

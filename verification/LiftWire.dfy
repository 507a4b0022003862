// The lift's wire format on both sides: 36-byte "AL" requests, which only a canonical
// packet can get accepted, and 64-byte "LS" replies, from which the host reads exactly
// the controller's state.
module LiftWire {
  import opened Words
  import opened Optional
  import opened Crc32c
  import opened LiftController
  import opened LiftEndpoint
  import LiftEvidence

  const REQUEST_SIZE: nat := 36
  const REPLY_SIZE: nat := 64

  function OpByte(op: LiftOp): u8 {
    match op case HomeOp => 1 case MoveOp => 2 case CancelOp => 3 case StatusOp => 4 case KeepAliveOp => 5 case ResetOp => 6
  }

  function ByteOp(b: u8): Option<LiftOp> {
    if b == 1 then Some(HomeOp) else if b == 2 then Some(MoveOp) else if b == 3 then Some(CancelOp)
    else if b == 4 then Some(StatusOp) else if b == 5 then Some(KeepAliveOp) else if b == 6 then Some(ResetOp) else None
  }

  // ---- requests -------------------------------------------------------------

  function RequestWords(r: Request): (ws: seq<u32>)
    ensures |ws| == 5
  {
    [r.session, r.sequence, r.deadlineMs, SignedWord(r.target), r.boot]
  }

  function RequestBody(r: Request): (b: seq<u8>)
    ensures |b| == 32
  {
    [65, 76, 1, OpByte(r.op)] + Packed(RequestWords(r)) + [0, 0, 0, 0, 0, 0, 0, 0]
  }

  /** Requests the host builds. */
  predicate Canonical(r: Request) {
    && r.clean && r.session != 0 && r.boot != 0 && (r.op == MoveOp || r.target == 0)
    && (r.op == StatusOp ==> r.deadlineMs == 0)
  }

  function EncodeRequest(r: Request): Option<seq<u8>> {
    if Canonical(r) then Some(RequestBody(r) + Bytes32(Checksum(RequestBody(r)))) else None
  }

  predicate SpareIsZero(p: seq<u8>)
    requires |p| == REQUEST_SIZE
  {
    forall i :: 24 <= i < 32 ==> p[i] == 0
  }

  predicate GoodRequest(p: seq<u8>) {
    |p| == REQUEST_SIZE && p[0] == 65 && p[1] == 76 && p[2] == 1 && Read32(p, 32) == Checksum(p[..32])
  }

  function RequestIn(p: seq<u8>, op: LiftOp): Request
    requires |p| == REQUEST_SIZE
  {
    Request(op, Read32(p, 4), Read32(p, 8), Read32(p, 12), ReadI32(p, 16), Read32(p, 20), SpareIsZero(p))
  }

  /** The controller's reading of a packet. */
  function ReadRequest(p: seq<u8>): Option<Request> {
    if !GoodRequest(p) || ByteOp(p[3]).None? then None else Some(RequestIn(p, ByteOp(p[3]).value))
  }

  /** The host's reading: whatever it reads must encode to the very same bytes. */
  function HostReadRequest(p: seq<u8>): Option<Request> {
    if !GoodRequest(p) || !SpareIsZero(p) then None
    else
      match ByteOp(p[3])
      case None => None
      case Some(op) => if EncodeRequest(RequestIn(p, op)) == Some(p) then Some(RequestIn(p, op)) else None
  }

  method RequestDecode(p: seq<u8>) returns (r: Option<Request>)
    ensures r == ReadRequest(p)
  {
    hide Checksum;
    if |p| != REQUEST_SIZE || p[0] != 65 || p[1] != 76 || p[2] != 1 || p[3] < 1 || p[3] > 6 { return None; }
    var crc := Compute(p[..32]);
    if Read32(p, 32) != crc { return None; }
    var clean := true;
    for i := 24 to 32
      invariant clean <==> forall k :: 24 <= k < i ==> p[k] == 0
    {
      if p[i] != 0 {
        clean := false;
      }
    }
    r := Some(Request(ByteOp(p[3]).value, Read32(p, 4), Read32(p, 8), Read32(p, 12), ReadI32(p, 16), Read32(p, 20), clean));
  }

  /** Both sides read back every request the host can build. */
  lemma RequestRoundTrip(r: Request)
    requires Canonical(r)
    ensures EncodeRequest(r).Some?
    ensures ReadRequest(EncodeRequest(r).value) == Some(r) && HostReadRequest(EncodeRequest(r).value) == Some(r)
  {
    hide Checksum, Bytes32, Read32, SignedWord, ToI32, Packed;
    var b := RequestBody(r);
    var crc := Checksum(b);
    var p := b + Bytes32(crc);
    assert p[..32] == b && p[32..36] == Bytes32(crc) && p[4..24] == Packed(RequestWords(r));
    ReadsBack(p, 32, crc);
    RequestReads(p, r);
    assert forall i :: 24 <= i < 32 ==> p[i] == b[i] == 0;
    assert p[3] == OpByte(r.op);
    assert RequestIn(p, r.op) == r;
  }

  lemma RequestReads(p: seq<u8>, r: Request)
    requires |p| == 36 && p[4..24] == Packed(RequestWords(r))
    ensures Read32(p, 4) == r.session && Read32(p, 8) == r.sequence && Read32(p, 12) == r.deadlineMs
    ensures ReadI32(p, 16) == r.target && Read32(p, 20) == r.boot
  {
    hide Read32, SignedWord, ToI32, Packed;
    var ws := RequestWords(r);
    ReadPacked(p, 4, ws, 0);
    ReadPacked(p, 4, ws, 1);
    ReadPacked(p, 4, ws, 2);
    ReadPacked(p, 4, ws, 3);
    ReadPacked(p, 4, ws, 4);
    SignedRoundTrip(r.target, 0);
  }

  /** The host reads exactly those of the controller's requests that are canonical. */
  lemma HostReadsCanonical(p: seq<u8>)
    ensures HostReadRequest(p) ==
            if ReadRequest(p).Some? && Canonical(ReadRequest(p).value) then ReadRequest(p) else None
  {
    hide Checksum, Bytes32, Read32;
    if GoodRequest(p) && ByteOp(p[3]).Some? && SpareIsZero(p) && Canonical(RequestIn(p, ByteOp(p[3]).value)) {
      EncodesItself(p);
    }
  }

  lemma EncodesItself(p: seq<u8>)
    requires GoodRequest(p) && ByteOp(p[3]).Some? && SpareIsZero(p)
    ensures var b := RequestBody(RequestIn(p, ByteOp(p[3]).value)); p == b + Bytes32(Checksum(b))
  {
    hide Checksum, Bytes32, Read32, SignedWord, ToI32, Packed;
    var r := RequestIn(p, ByteOp(p[3]).value);
    SignedRoundTrip(0, Read32(p, 16));
    PackedFromReads(p, 4, RequestWords(r));
    WritesBack(p, 32);
    assert p[24..32] == [0, 0, 0, 0, 0, 0, 0, 0];
    assert p[..4] == [65, 76, 1, OpByte(r.op)];
    assert p[..32] == p[..4] + p[4..24] + p[24..32];
    assert p == p[..32] + p[32..36];
  }

  /** A packet the controller acts on is one the host could have built. */
  lemma AcceptedIsCanonical(e: LiftEndpointState, p: seq<u8>, now: u32)
    requires e.bootId != 0 && ReadRequest(p).Some? && Exchanged(e, ReadRequest(p).value, now).1
    ensures HostReadRequest(p) == ReadRequest(p)
  {
    hide ReadRequest, HostReadRequest, StartMotion, Continue, PollLift, Interlocked;
    HostReadsCanonical(p);
  }

  /** Damage within four consecutive covered bytes makes the packet no request at all. */
  lemma DamagedRequestIsIgnored(p: seq<u8>, start: nat, damage: seq<u8>)
    requires ReadRequest(p).Some? && |damage| <= 4 && start + |damage| <= 32 && damage != p[start..start + |damage|]
    ensures ReadRequest(p[..start] + damage + p[start + |damage|..]).None?
  {
    hide Checksum;
    var n := |damage|;
    var q := p[..start] + damage + p[start + n..];
    assert q[..32] == p[..start] + damage + p[start + n..32];
    assert p[..32] == p[..start] + p[start..start + n] + p[start + n..32];
    assert Read32(q, 32) == Read32(p, 32);
    BurstIsDetected(p[..start], p[start..start + n], damage, p[start + n..32]);
  }

  // ---- replies --------------------------------------------------------------

  function StateByte(s: LiftState): u8 {
    match s case Unhomed => 0 case Homing => 1 case LiftReady => 2 case Moving => 3 case HoldPending => 4
            case Holding => 5 case LiftFault => 6
  }

  function ReasonByte(r: LiftReason): u8 {
    match r case LiftOk => 0 case BadFeedback => 1 case HomingTimeout => 2 case EncoderJump => 3 case TravelLimit => 4
            case OverCurrent => 5
  }

  function Flags(e: LiftEndpointState, now: u32): u8 {
    (if e.lift.homed then 1 else 0) + (if e.active then 2 else 0) + (if Interlocked(e, now) then 4 else 0)
    + (if e.lift.haveSample then 8 else 0) + (if e.lift.state == Holding then 16 else 0)
  }

  /** The verdict is the request's own code, or that code with its top bit set. */
  function VerdictByte(op: LiftOp, ok: bool): u8 {
    if ok then OpByte(op) else OpByte(op) + 128
  }

  function HeadWords(e: LiftEndpointState, sequence: u32, now: u32): (ws: seq<u32>)
    ensures |ws| == 5
  {
    [sequence, now, e.bootId, e.session, e.sequence]
  }

  function TailWords(e: LiftEndpointState): (ws: seq<u32>)
    ensures |ws| == 8
  {
    var l := e.lift;
    [l.observedMs, SignedWord(l.heightUm), SignedWord(l.targetUm), SignedWord(l.command), SignedWord(l.feedback.currentMa),
     l.previousRaw, e.rejected, e.validUntilMs]
  }

  function ReplyBody(e: LiftEndpointState, r: Request, ok: bool, now: u32): (b: seq<u8>)
    ensures |b| == 60
  {
    [76, 83, 1, VerdictByte(r.op, ok)] + Packed(HeadWords(e, r.sequence, now))
    + [StateByte(e.lift.state), ReasonByte(e.lift.fault), Flags(e, now), 0] + Packed(TailWords(e))
  }

  function Reply(e: LiftEndpointState, r: Request, ok: bool, now: u32): (b: seq<u8>)
    ensures |b| == REPLY_SIZE
  {
    var b := ReplyBody(e, r, ok, now);
    b + Bytes32(Checksum(b))
  }

  /** One exchange: no reply and no effect for what is no request. */
  function ExchangedBytes(e: LiftEndpointState, p: seq<u8>, now: u32): (LiftEndpointState, Option<seq<u8>>) {
    match ReadRequest(p)
    case None => (e, None)
    case Some(r) =>
      var (n, ok) := Exchanged(e, r, now);
      (n, Some(Reply(n, r, ok, now)))
  }

  method Exchange(e: LiftEndpointObject, p: seq<u8>, now: u32) returns (reply: Option<seq<u8>>)
    requires e.Valid()
    modifies e, e.lift
    ensures (e.State(), reply) == ExchangedBytes(old(e.State()), p, now)
  {
    hide Checksum, Exchanged, Packed, Bytes32, SignedWord, ReadRequest, Flags;
    var r := RequestDecode(p);
    if r.None? { return None; }
    var ok := e.Exchange(r.value, now);
    var l := e.lift;
    var flags := FlagByte(e, now);
    var body := [76, 83, 1, VerdictByte(r.value.op, ok)]
      + Packed([r.value.sequence, now, e.bootId, e.session, e.sequence])
      + [StateByte(l.state), ReasonByte(l.fault), flags, 0]
      + Packed([l.observedMs, SignedWord(l.heightUm), SignedWord(l.targetUm), SignedWord(l.command),
                SignedWord(l.feedback.currentMa), l.previousRaw, e.rejected, e.validUntilMs]);
    assert body == ReplyBody(e.State(), r.value, ok, now);
    var crc := Compute(body);
    reply := Some(body + Bytes32(crc));
  }

  method FlagByte(e: LiftEndpointObject, now: u32) returns (flags: u8)
    ensures flags == Flags(e.State(), now)
  {
    hide Interlocked;
    var locked := e.IsInterlocked(now);
    flags := (if e.lift.homed then 1 else 0) + (if e.active then 2 else 0) + (if locked then 4 else 0)
      + (if e.lift.haveSample then 8 else 0) + (if e.lift.state == Holding then 16 else 0);
  }

  // ---- the host's side of a reply -------------------------------------------

  datatype Status = Status(
    verdict: u8, requestSequence: u32, tickMs: u32, bootId: u32, session: u32, sequence: u32, state: u8, fault: u8,
    flags: u8, observedMs: u32, heightUm: i32, targetUm: i32, command: i32, currentMa: i32, positionRaw: u32,
    rejected: u32, validUntilMs: u32)

  predicate GoodReply(p: seq<u8>) {
    && |p| == REPLY_SIZE && p[0] == 76 && p[1] == 83 && p[2] == 1 && p[27] == 0 && Read32(p, 60) == Checksum(p[..60])
    && 1 <= p[3] % 128 <= 6 && p[24] <= 6 && p[25] <= 5 && p[26] < 32
  }

  function HostReadReply(p: seq<u8>): Option<Status> {
    if !GoodReply(p) then None
    else
      var s := Status(p[3], Read32(p, 4), Read32(p, 8), Read32(p, 12), Read32(p, 16), Read32(p, 20), p[24], p[25], p[26],
                      Read32(p, 28), ReadI32(p, 32), ReadI32(p, 36), ReadI32(p, 40), ReadI32(p, 44), Read32(p, 48),
                      Read32(p, 52), Read32(p, 56));
      if s.bootId == 0 || s.positionRaw >= 4096 || s.currentMa < 0 then None else Some(s)
  }

  /** What the host should know after an exchange. */
  function StatusOf(e: LiftEndpointState, r: Request, ok: bool, now: u32): Status {
    var l := e.lift;
    Status(VerdictByte(r.op, ok), r.sequence, now, e.bootId, e.session, e.sequence, StateByte(l.state),
           ReasonByte(l.fault), Flags(e, now), l.observedMs, l.heightUm, l.targetUm, l.command, l.feedback.currentMa,
           l.previousRaw, e.rejected, e.validUntilMs)
  }

  /** Feedback a motor can give. */
  predicate Plausible(l: Lift) {
    l.previousRaw < 4096 && l.feedback.currentMa >= 0
  }

  lemma HeadReads(p: seq<u8>, e: LiftEndpointState, sequence: u32, now: u32)
    requires |p| == 64 && p[4..24] == Packed(HeadWords(e, sequence, now))
    ensures Read32(p, 4) == sequence && Read32(p, 8) == now && Read32(p, 12) == e.bootId
    ensures Read32(p, 16) == e.session && Read32(p, 20) == e.sequence
  {
    hide Read32, Packed;
    var ws := HeadWords(e, sequence, now);
    ReadPacked(p, 4, ws, 0);
    ReadPacked(p, 4, ws, 1);
    ReadPacked(p, 4, ws, 2);
    ReadPacked(p, 4, ws, 3);
    ReadPacked(p, 4, ws, 4);
  }

  lemma TailReads(p: seq<u8>, e: LiftEndpointState)
    requires |p| == 64 && p[28..60] == Packed(TailWords(e))
    ensures var l := e.lift;
            && Read32(p, 28) == l.observedMs && ReadI32(p, 32) == l.heightUm && ReadI32(p, 36) == l.targetUm
            && ReadI32(p, 40) == l.command && ReadI32(p, 44) == l.feedback.currentMa && Read32(p, 48) == l.previousRaw
            && Read32(p, 52) == e.rejected && Read32(p, 56) == e.validUntilMs
  {
    hide Read32, Packed, SignedWord, ToI32;
    var ws := TailWords(e);
    ReadPacked(p, 28, ws, 0);
    ReadPacked(p, 28, ws, 1);
    ReadPacked(p, 28, ws, 2);
    ReadPacked(p, 28, ws, 3);
    ReadPacked(p, 28, ws, 4);
    ReadPacked(p, 28, ws, 5);
    ReadPacked(p, 28, ws, 6);
    ReadPacked(p, 28, ws, 7);
    SignedRoundTrip(e.lift.heightUm, 0);
    SignedRoundTrip(e.lift.targetUm, 0);
    SignedRoundTrip(e.lift.command, 0);
    SignedRoundTrip(e.lift.feedback.currentMa, 0);
  }

  /** The host reads from a reply exactly the state it was made from. */
  lemma ReplyIsRead(e: LiftEndpointState, r: Request, ok: bool, now: u32)
    requires e.bootId != 0 && Plausible(e.lift)
    ensures HostReadReply(Reply(e, r, ok, now)) == Some(StatusOf(e, r, ok, now))
  {
    hide Checksum, Bytes32, Read32, SignedWord, ToI32, Packed, Interlocked, HeadWords, TailWords;
    var b := ReplyBody(e, r, ok, now);
    var crc := Checksum(b);
    var p := Reply(e, r, ok, now);
    assert p[..60] == b && p[60..64] == Bytes32(crc);
    assert p[4..24] == Packed(HeadWords(e, r.sequence, now)) && p[28..60] == Packed(TailWords(e));
    ReadsBack(p, 60, crc);
    HeadReads(p, e, r.sequence, now);
    TailReads(p, e);
  }

  // ---- every reply of every run ---------------------------------------------

  datatype Happening =
    | Packet(bytes: seq<u8>, now: u32)
    | Sample(feedback: LiftFeedback, now: u32)
    | Tick(now: u32)
    | Evidence(interlock: Interlock, ready: bool)
    | ZeroWritten(now: u32)
    | StopAll

  function Step(e: LiftEndpointState, h: Happening): LiftEndpointState {
    match h
    case Packet(p, now) => ExchangedBytes(e, p, now).0
    case Sample(f, now) => e.(lift := ObserveLift(e.lift, f, now).0)
    case Tick(now) => PolledEndpoint(e, now)
    case Evidence(i, ready) => e.(interlock := i, haveInterlock := true, transportReady := ready)
    case ZeroWritten(now) => e.(lift := ZeroReported(e.lift, now))
    case StopAll => Released(e)
  }

  function Run(e: LiftEndpointState, hs: seq<Happening>): LiftEndpointState
    decreases |hs|
  {
    if hs == [] then e else Run(Step(e, hs[0]), hs[1..])
  }

  lemma PollKeepsPlausible(l: Lift, now: u32)
    ensures Plausible(l) ==> Plausible(PollLift(l, now))
  {
    hide PollLift;
    LiftEvidence.PollKeepsMeasurement(l, now);
  }

  lemma ObserveKeepsPlausible(l: Lift, f: LiftFeedback, now: u32)
    requires Plausible(l)
    ensures Plausible(ObserveLift(l, f, now).0)
  {
    hide PollLift, Height, NextCount, Jumped, InContact, Fresh;
    var p := PollLift(l, now);
    PollKeepsPlausible(l, now);
    var m := Absorbed(p, f).0;
    PollKeepsPlausible(m, now);
    PollKeepsPlausible(TrackContact(m, f), now);
  }

  lemma EndpointPollKeepsPlausible(e: LiftEndpointState, now: u32)
    requires Plausible(e.lift)
    ensures var p := PolledEndpoint(e, now); Plausible(p.lift) && p.bootId == e.bootId
  {
    hide PollLift, Interlocked, LeaseRunning;
    PollKeepsPlausible(e.lift, now);
  }

  lemma MotionKeepsPlausible(e: LiftEndpointState, r: Request, now: u32)
    requires Plausible(e.lift)
    ensures var n := StartMotion(e, r, now).0; Plausible(n.lift) && n.bootId == e.bootId
  {
    hide PollLift, Interlocked, NewerThanLast, Fresh;
    PollKeepsPlausible(e.lift, now);
    PollKeepsPlausible(PollLift(e.lift, now).(targetUm := r.target, state := Moving), now);
  }

  lemma ExchangeKeepsPlausible(e: LiftEndpointState, r: Request, now: u32)
    requires Plausible(e.lift)
    ensures var n := Exchanged(e, r, now).0; Plausible(n.lift) && n.bootId == e.bootId
  {
    hide PolledEndpoint, StartMotion, Interlocked, AtRest;
    EndpointPollKeepsPlausible(e, now);
    MotionKeepsPlausible(PolledEndpoint(e, now), r, now);
  }

  lemma {:induction false} RunKeepsPlausible(e: LiftEndpointState, hs: seq<Happening>)
    requires Plausible(e.lift)
    ensures Plausible(Run(e, hs).lift) && Run(e, hs).bootId == e.bootId
    decreases |hs|
  {
    hide Exchanged, PolledEndpoint, ObserveLift, ReadRequest, Reply;
    if hs != [] {
      match hs[0] {
        case Packet(p, now) =>
          if ReadRequest(p).Some? { ExchangeKeepsPlausible(e, ReadRequest(p).value, now); }
        case Sample(f, now) => ObserveKeepsPlausible(e.lift, f, now);
        case Tick(now) => EndpointPollKeepsPlausible(e, now);
        case _ =>
      }
      RunKeepsPlausible(Step(e, hs[0]), hs[1..]);
    }
  }

  /** A newly attached endpoint: no sample yet, no lease. */
  predicate Newly(e: LiftEndpointState, config: LiftConfig, boot: u32, lease: u32) {
    boot != 0 && e == Attached(Configured(config), boot, lease)
  }

  /** Replies tell the truth. Whatever happened to the endpoint since it was attached,
      every reply it gives is readable by the host and says exactly the state it is in. */
  lemma {:induction false} RepliesTellTheTruth(
    e: LiftEndpointState, config: LiftConfig, boot: u32, lease: u32, hs: seq<Happening>, p: seq<u8>, now: u32)
    requires Newly(e, config, boot, lease)
    ensures var (n, reply) := ExchangedBytes(Run(e, hs), p, now);
            && (reply.Some? <==> ReadRequest(p).Some?)
            && (reply.Some? ==>
                  var r := ReadRequest(p).value;
                  HostReadReply(reply.value) == Some(StatusOf(n, r, Exchanged(Run(e, hs), r, now).1, now)))
  {
    hide Exchanged, ReadRequest, Reply, HostReadReply, StatusOf, Run;
    RunKeepsPlausible(e, hs);
    if ReadRequest(p).Some? {
      var r := ReadRequest(p).value;
      var (n, ok) := Exchanged(Run(e, hs), r, now);
      ExchangeKeepsPlausible(Run(e, hs), r, now);
      ReplyIsRead(n, r, ok, now);
    }
  }

  // ---- what the host concludes ----------------------------------------------

  /** The host's test of the reply to its own request. */
  predicate ClientAccepts(r: Request, s: Status) {
    && s.bootId == r.boot && s.verdict == OpByte(r.op) && s.requestSequence == r.sequence
    && (r.op != StatusOp ==> s.session == r.session)
  }

  /** The client takes its request for granted exactly when the controller granted it. */
  lemma ClientSeesAcceptance(e: LiftEndpointState, r: Request, now: u32)
    requires e.bootId != 0 && Plausible(e.lift) && Canonical(r)
    ensures EncodeRequest(r).Some?
    ensures var (n, reply) := ExchangedBytes(e, EncodeRequest(r).value, now);
            && n == Exchanged(e, r, now).0 && reply.Some? && HostReadReply(reply.value).Some?
            && (ClientAccepts(r, HostReadReply(reply.value).value) <==> Exchanged(e, r, now).1)
  {
    hide ReadRequest, EncodeRequest, Exchanged, Reply, HostReadReply, Flags, HostReadRequest;
    RequestRoundTrip(r);
    var (n, ok) := Exchanged(e, r, now);
    ExchangeKeepsPlausible(e, r, now);
    ReplyIsRead(n, r, ok, now);
    if ok { GrantedIsAddressed(e, r, now); }
  }

  lemma GrantedIsAddressed(e: LiftEndpointState, r: Request, now: u32)
    requires Exchanged(e, r, now).1
    ensures r.boot == e.bootId && Exchanged(e, r, now).0.bootId == e.bootId
    ensures r.op != StatusOp ==> Exchanged(e, r, now).0.session == r.session
  {
    hide PollLift, Interlocked, HomeLift, MoveLift, CancelLift, ResetLift, AtRest, LeaseRunning;
  }

  predicate Bit(flags: u8, value: nat)
    requires value > 0
  {
    flags / value % 2 == 1
  }

  /** The host's test that the lift stands held. */
  predicate HostHolding(s: Status, maximumAgeMs: u32) {
    && s.state == 5 && s.fault == 0
    && Bit(s.flags, 1) && Bit(s.flags, 4) && Bit(s.flags, 8) && Bit(s.flags, 16)
    && Sub(s.tickMs, s.observedMs) < maximumAgeMs
  }

  /** The host believes in a hold exactly when the controller holds a homed lift without a
      fault, on a recent sample and a met interlock. */
  lemma HoldingIsBelievedTruly(e: LiftEndpointState, r: Request, ok: bool, now: u32, maximumAgeMs: u32)
    requires e.bootId != 0 && Plausible(e.lift)
    ensures HostReadReply(Reply(e, r, ok, now)).Some?
    ensures HostHolding(HostReadReply(Reply(e, r, ok, now)).value, maximumAgeMs) <==>
              && e.lift.state == Holding && e.lift.fault == LiftOk && e.lift.homed && e.lift.haveSample
              && Interlocked(e, now) && Sub(now, e.lift.observedMs) < maximumAgeMs
  {
    hide Reply, HostReadReply, Interlocked;
    ReplyIsRead(e, r, ok, now);
  }

  // ---- the wire, byte by byte -----------------------------------------------

  /** What is a request. The controller takes 36 bytes with mark, version, a known code and a
      good checksum for one; the host also asks for a session, a boot, nothing spare, a height
      only in a move and no deadline in a status. */
  lemma RequestsAreExactly(p: seq<u8>)
    ensures var framed := |p| == 36 && p[0] == 65 && p[1] == 76 && p[2] == 1 && 1 <= p[3] <= 6
                          && Read32(p, 32) == Checksum(p[..32]);
            && (ReadRequest(p).Some? <==> framed)
            && (HostReadRequest(p).Some? <==>
                  && framed && Read32(p, 4) != 0 && Read32(p, 20) != 0 && (p[3] != 2 ==> Read32(p, 16) == 0)
                  && (p[3] == 4 ==> Read32(p, 12) == 0) && forall i :: 24 <= i < 32 ==> p[i] == 0)
  {
    hide Checksum, Read32, EncodeRequest;
    HostReadsCanonical(p);
    if |p| == 36 { SignedZero(Read32(p, 16)); }
  }

  lemma SignedZero(w: u32)
    ensures ToI32(w) == 0 <==> w == 0
  {
  }

  /** What is a reply: 64 bytes with mark, version, the code of a request with or without the
      refusal bit, codes and flags in range, a good checksum, a boot and plausible feedback;
      the host then has each field from its place. */
  lemma RepliesAreExactly(p: seq<u8>)
    ensures HostReadReply(p).Some? <==>
              && |p| == 64 && p[0] == 76 && p[1] == 83 && p[2] == 1 && p[27] == 0
              && (1 <= p[3] <= 6 || 129 <= p[3] <= 134) && p[24] <= 6 && p[25] <= 5 && p[26] <= 31
              && Read32(p, 60) == Checksum(p[..60]) && Read32(p, 12) != 0 && Read32(p, 48) < 4096 && Read32(p, 44) < HALF
    ensures HostReadReply(p).Some? ==>
              var s := HostReadReply(p).value;
              && s.verdict == p[3] && s.state == p[24] && s.fault == p[25] && s.flags == p[26]
              && s.requestSequence == Read32(p, 4) && s.session == Read32(p, 16) && s.rejected == Read32(p, 52)
  {
    hide Checksum, Read32;
    if |p| == 64 { SignedNegative(Read32(p, 44)); }
  }

  lemma SignedNegative(w: u32)
    ensures ToI32(w) < 0 <==> w >= HALF
  {
  }

  /** Codes and flags mean what they say. */
  lemma FlagsTellTheTruth(e: LiftEndpointState, r: Request, ok: bool, now: u32)
    ensures var s, l := StatusOf(e, r, ok, now), e.lift;
            && (Bit(s.flags, 1) <==> l.homed) && (Bit(s.flags, 2) <==> e.active) && (Bit(s.flags, 8) <==> l.haveSample)
            && (Bit(s.flags, 4) <==>
                  && e.transportReady && e.haveInterlock && Sub(now, e.interlock.observedMs) < l.config.feedbackTimeoutMs
                  && e.interlock.baseStopped && e.interlock.armsSafe && e.interlock.modeOk && e.interlock.hardwareOk)
            && (Bit(s.flags, 16) <==> l.state == Holding)
            && s.state < 7 && l.state == [Unhomed, Homing, LiftReady, Moving, HoldPending, Holding, LiftFault][s.state]
            && s.fault < 6
            && l.fault == [LiftOk, BadFeedback, HomingTimeout, EncoderJump, TravelLimit, OverCurrent][s.fault]
            && (s.verdict < 128 <==> ok)
  {
  }

  /** The client takes only the reply to its own request: of all replies whatever, those that
      grant the same operation under the same number in the same boot, and, but for a status,
      leave its session in force. */
  lemma OnlyItsOwnReplyIsTaken(n: LiftEndpointState, r: Request, other: Request, ok: bool, now: u32)
    ensures ClientAccepts(r, StatusOf(n, other, ok, now)) <==>
              && ok && other.op == r.op && other.sequence == r.sequence && n.bootId == r.boot
              && (r.op == StatusOp || n.session == r.session)
  {
    hide Flags;
  }
}

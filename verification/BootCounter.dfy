// The two-slot boot counter: each boot writes the next identity into the slot that does
// not hold the newest record, reads it back, and only then exposes it. A write may be cut
// anywhere; what is doubtful afterwards is never guessed at.
module BootCounter {
  import opened Words
  import opened Optional
  import Crc32c

  const MAGIC: u32 := 0x31425441

  type Slot = b: seq<u8> | |b| == 16 witness seq(16, _ => 0xFF)

  const ERASED: Slot := [0xFF, 0xFF, 0xFF, 0xFF, 0xFF, 0xFF, 0xFF, 0xFF, 0xFF, 0xFF, 0xFF, 0xFF, 0xFF, 0xFF, 0xFF, 0xFF]

  function Inverted(v: u32): u32 {
    U32_MAX - v
  }

  /** The part of a record that its checksum covers. */
  function Covered(id: u32): (b: seq<u8>)
    ensures |b| == 12
  {
    Bytes32(MAGIC) + Bytes32(id) + Bytes32(Inverted(id))
  }

  function Record(id: u32): Slot {
    Covered(id) + Bytes32(Crc32c.Checksum(Covered(id)))
  }

  predicate IsRecord(p: Slot) {
    && Read32(p, 0) == MAGIC && Read32(p, 4) != 0 && Read32(p, 8) == Inverted(Read32(p, 4))
    && Read32(p, 12) == Crc32c.Checksum(p[..12])
  }

  function Id(p: Slot): u32 {
    Read32(p, 4)
  }

  /** The identity a slot stands for; an erased slot stands for none. */
  function SlotId(p: Slot): u32 {
    if IsRecord(p) then Id(p) else 0
  }

  datatype Storage = Storage(a: Slot, b: Slot)

  function Newest(s: Storage): u32 {
    if SlotId(s.a) >= SlotId(s.b) then SlotId(s.a) else SlotId(s.b)
  }

  datatype Plan = Plan(target: nat, last: u32)

  /** Which slot to write, and the last identity used; or none if the storage is doubtful. */
  function Planned(s: Storage, initialize: bool): Option<Plan> {
    var av, bv := IsRecord(s.a), IsRecord(s.b);
    if (!av && s.a != ERASED) || (!bv && s.b != ERASED) then None
    else if av && bv then
      var x, y := Id(s.a), Id(s.b);
      if Distance(x, y) != 1 then None else if x > y then Some(Plan(1, x)) else Some(Plan(0, y))
    else if av then Some(Plan(1, Id(s.a)))
    else if bv then Some(Plan(0, Id(s.b)))
    else if initialize then Some(Plan(0, 0)) else None
  }

  /** What a write leaves behind. */
  datatype Tear = Kept | Wiped | Whole | Junk(bytes: Slot)

  predicate Possible(t: Tear) {
    t.Junk? ==> !IsRecord(t.bytes)
  }

  function Torn(before: Slot, out: Slot, t: Tear): Slot {
    match t
    case Kept => before
    case Wiped => ERASED
    case Whole => out
    case Junk(bytes) => bytes
  }

  /** Everything outside the program's control during one boot. */
  datatype Boot = Boot(initialize: bool, readA: bool, readB: bool, tear: Tear, writeOk: bool, readBackOk: bool)

  function Written(s: Storage, target: nat, bytes: Slot): Storage {
    if target == 0 then s.(a := bytes) else s.(b := bytes)
  }

  function SlotAt(s: Storage, target: nat): Slot {
    if target == 0 then s.a else s.b
  }

  function Advanced(s: Storage, boot: Boot): (Storage, Option<u32>) {
    if !boot.readA || !boot.readB then (s, None)
    else
      match Planned(s, boot.initialize)
      case None => (s, None)
      case Some(plan) =>
        if plan.last == U32_MAX then (s, None)
        else
          var out := Record(plan.last + 1);
          var n := Written(s, plan.target, Torn(SlotAt(s, plan.target), out, boot.tear));
          if !boot.writeOk || !boot.readBackOk || SlotAt(n, plan.target) != out then (n, None)
          else (n, Some(plan.last + 1))
  }

  // ---- the storage object ---------------------------------------------------

  class BootStore {
    const slots: array<Slot>

    ghost predicate Valid() {
      slots.Length == 2
    }

    ghost function State(): Storage
      requires Valid()
      reads slots
    {
      Storage(slots[0], slots[1])
    }

    constructor (a: Slot, b: Slot)
      ensures Valid() && fresh(slots) && State() == Storage(a, b)
    {
      slots := new Slot[2](i => if i == 0 then a else b);
    }

    method CheckRecord(p: Slot) returns (ok: bool)
      ensures ok <==> IsRecord(p)
    {
      if Read32(p, 0) != MAGIC || Read32(p, 4) == 0 || Read32(p, 8) != Inverted(Read32(p, 4)) { return false; }
      var crc := Crc32c.Compute(p[..12]);
      ok := Read32(p, 12) == crc;
    }

    method CheckErased(p: Slot) returns (erased: bool)
      ensures erased <==> p == ERASED
    {
      for i := 0 to 16
        invariant forall k :: 0 <= k < i ==> p[k] == 0xFF
      {
        if p[i] != 0xFF {
          assert p[i] != ERASED[i];
          return false;
        }
      }
      erased := true;
    }

    method ChooseSlot(a: Slot, b: Slot, initialize: bool) returns (plan: Option<Plan>)
      ensures plan == Planned(Storage(a, b), initialize)
    {
      hide IsRecord;
      var av := CheckRecord(a);
      var bv := CheckRecord(b);
      var ae := CheckErased(a);
      var be := CheckErased(b);
      if (!av && !ae) || (!bv && !be) { return None; }
      if av && bv {
        var x, y := Id(a), Id(b);
        if x == y || (if x > y then x - y else y - x) != 1 { return None; }
        return Some(Plan(if x > y then 1 else 0, if x > y then x else y));
      }
      if av || bv {
        return Some(Plan(if av then 1 else 0, Id(if av then a else b)));
      }
      if !initialize { return None; }
      plan := Some(Plan(0, 0));
    }

    method MakeRecord(id: u32) returns (out: Slot)
      ensures out == Record(id)
    {
      var covered := Bytes32(MAGIC) + Bytes32(id) + Bytes32(Inverted(id));
      var crc := Crc32c.Compute(covered);
      out := covered + Bytes32(crc);
    }

    /** One boot: the next identity, exposed only once its record is read back. */
    method Advance(boot: Boot) returns (id: Option<u32>)
      requires Valid()
      modifies slots
      ensures (State(), id) == Advanced(old(State()), boot)
    {
      hide Planned, Record;
      if !boot.readA || !boot.readB { return None; }
      var plan := ChooseSlot(slots[0], slots[1], boot.initialize);
      if plan.None? || plan.value.last == U32_MAX { return None; }
      var target := if plan.value.target == 0 then 0 else 1;
      var out := MakeRecord(plan.value.last + 1);
      slots[target] := Torn(slots[target], out, boot.tear);
      if !boot.writeOk || !boot.readBackOk || slots[target] != out { return None; }
      id := Some(plan.value.last + 1);
    }
  }

  // ---- records --------------------------------------------------------------

  /** What is written for an identity is read as that identity. */
  lemma RecordIsRecord(id: u32)
    requires id != 0
    ensures IsRecord(Record(id)) && Id(Record(id)) == id
  {
    var c := Crc32c.Checksum(Covered(id));
    var p := Record(id);
    ReadBytes32([], MAGIC, Bytes32(id) + Bytes32(Inverted(id)) + Bytes32(c));
    ReadBytes32(Bytes32(MAGIC), id, Bytes32(Inverted(id)) + Bytes32(c));
    ReadBytes32(Bytes32(MAGIC) + Bytes32(id), Inverted(id), Bytes32(c));
    ReadBytes32(Covered(id), c, []);
    assert p == [] + Bytes32(MAGIC) + (Bytes32(id) + Bytes32(Inverted(id)) + Bytes32(c));
    assert p == Bytes32(MAGIC) + Bytes32(id) + (Bytes32(Inverted(id)) + Bytes32(c));
    assert p == Bytes32(MAGIC) + Bytes32(id) + Bytes32(Inverted(id)) + Bytes32(c);
    assert p == Covered(id) + Bytes32(c) + [];
    assert p[..12] == Covered(id);
  }

  lemma ErasedIsNoRecord()
    ensures !IsRecord(ERASED)
  {
  }

  /** A slot is a record exactly when it is what is written for its own, nonzero, identity. */
  lemma RecordsAreExactly(p: Slot)
    ensures IsRecord(p) <==> Id(p) != 0 && p == Record(Id(p))
  {
    hide Crc32c.Checksum, Read32, Bytes32;
    if IsRecord(p) {
      WritesBack(p, 0);
      WritesBack(p, 4);
      WritesBack(p, 8);
      WritesBack(p, 12);
      assert p[..12] == p[0..4] + p[4..8] + p[8..12];
      assert p == p[..12] + p[12..16];
    }
    if Id(p) != 0 { RecordIsRecord(Id(p)); }
  }

  /** A record damaged within any four consecutive bytes of its covered part is refused. */
  lemma DamageIsRefused(p: Slot, start: nat, damage: seq<u8>)
    requires IsRecord(p) && |damage| <= 4 && start + |damage| <= 12 && damage != p[start..start + |damage|]
    ensures !IsRecord(p[..start] + damage + p[start + |damage|..])
  {
    hide Crc32c.Checksum;
    var n := |damage|;
    var q := p[..start] + damage + p[start + n..];
    assert q[..12] == p[..start] + damage + p[start + n..12];
    assert p[..12] == p[..start] + p[start..start + n] + p[start + n..12];
    assert Read32(q, 12) == Read32(p, 12);
    Crc32c.BurstIsDetected(p[..start], p[start..start + n], damage, p[start + n..12]);
  }

  // ---- boots ----------------------------------------------------------------

  /** The slot planned for writing never holds the newest record, and the identity to be
      used next is one past it. */
  lemma NewestIsNotWritten(s: Storage, initialize: bool)
    requires Planned(s, initialize).Some?
    ensures var plan := Planned(s, initialize).value;
            && plan.target < 2 && plan.last == Newest(s)
            && (plan.last > 0 ==> SlotId(SlotAt(s, 1 - plan.target)) == plan.last && SlotId(SlotAt(s, plan.target)) < plan.last)
  {
    hide IsRecord;
    ErasedIsNoRecord();
    if IsRecord(s.a) { RecordHasId(s.a); }
    if IsRecord(s.b) { RecordHasId(s.b); }
  }

  lemma RecordHasId(p: Slot)
    requires IsRecord(p)
    ensures Id(p) > 0
  {
  }

  /** However the write is cut, the newest record survives; and an identity that is exposed
      is one past it, and is itself the newest record from then on. */
  lemma AdvanceNeverGoesBack(s: Storage, boot: Boot)
    requires Possible(boot.tear)
    ensures var (n, id) := Advanced(s, boot);
            && Newest(n) >= Newest(s)
            && (id.Some? ==> id.value == Newest(s) + 1 && Newest(n) == id.value)
  {
    hide IsRecord, Record, Planned;
    if Planned(s, boot.initialize).Some? {
      NewestIsNotWritten(s, boot.initialize);
      if Newest(s) < U32_MAX {
        RecordIsRecord(Newest(s) + 1);
        ErasedIsNoRecord();
      }
    }
  }

  /** All identities exposed over a sequence of boots. */
  function Exposed(s: Storage, boots: seq<Boot>): seq<u32>
    decreases |boots|
  {
    if boots == [] then []
    else
      var (n, id) := Advanced(s, boots[0]);
      (if id.Some? then [id.value] else []) + Exposed(n, boots[1..])
  }

  predicate Increasing(ids: seq<u32>) {
    forall i, j :: 0 <= i < j < |ids| ==> ids[i] < ids[j]
  }

  lemma {:induction false} ExposedAreNewer(s: Storage, boots: seq<Boot>)
    requires forall i :: 0 <= i < |boots| ==> Possible(boots[i].tear)
    ensures forall i :: 0 <= i < |Exposed(s, boots)| ==> Exposed(s, boots)[i] > Newest(s)
    decreases |boots|
  {
    hide Advanced, Newest, Possible;
    if boots != [] {
      AdvanceNeverGoesBack(s, boots[0]);
      ExposedAreNewer(Advanced(s, boots[0]).0, boots[1..]);
    }
  }

  /** Crash safety. Whatever the storage held at first, over any sequence of boots with
      writes cut anywhere, the identities exposed strictly increase. */
  lemma {:induction false} IdentitiesNeverRepeat(s: Storage, boots: seq<Boot>)
    requires forall i :: 0 <= i < |boots| ==> Possible(boots[i].tear)
    ensures Increasing(Exposed(s, boots))
    decreases |boots|
  {
    hide Advanced, Newest, Possible;
    if boots != [] {
      var n := Advanced(s, boots[0]).0;
      AdvanceNeverGoesBack(s, boots[0]);
      ExposedAreNewer(n, boots[1..]);
      IdentitiesNeverRepeat(n, boots[1..]);
    }
  }

  // ---- progress -------------------------------------------------------------

  /** Storage that says which identity was used last: each slot holds a record or is erased,
      and two records are of consecutive identities. Storage never written may only be
      started from on purpose. */
  predicate Sound(s: Storage, initialize: bool) {
    && (IsRecord(s.a) || s.a == ERASED) && (IsRecord(s.b) || s.b == ERASED)
    && (IsRecord(s.a) && IsRecord(s.b) ==> Distance(Id(s.a), Id(s.b)) == 1)
    && (s.a == ERASED && s.b == ERASED ==> initialize)
  }

  /** A boot with working reads, a sound storage and an identity left, and whose write and
      read-back succeed, exposes exactly the next identity; and only such a boot exposes any. */
  lemma NextIdentityIsExposed(s: Storage, boot: Boot)
    requires Possible(boot.tear)
    ensures var (n, id) := Advanced(s, boot);
            var proceeds := boot.readA && boot.readB && Sound(s, boot.initialize) && Newest(s) < U32_MAX;
            && (id.Some? <==> proceeds && boot.tear.Whole? && boot.writeOk && boot.readBackOk)
            && (id.Some? ==> id.value == Newest(s) + 1 && Newest(n) == Newest(s) + 1 && Sound(n, boot.initialize))
            && (!proceeds ==> n == s)
  {
    hide IsRecord, Record, Id;
    ErasedIsNoRecord();
    if IsRecord(s.a) { RecordHasId(s.a); }
    if IsRecord(s.b) { RecordHasId(s.b); }
    PlanIsExact(s, boot.initialize);
    if boot.readA && boot.readB && Sound(s, boot.initialize) && Newest(s) < U32_MAX {
      RecordIsRecord(Newest(s) + 1);
      OlderSlotIsTarget(s, boot.initialize);
    }
  }

  /** The plan: there is one exactly for sound storage, and it writes the slot that does not
      hold the newest record. */
  lemma PlanIsExact(s: Storage, initialize: bool)
    ensures Planned(s, initialize).Some? <==> Sound(s, initialize)
    ensures Sound(s, initialize) ==>
              (Planned(s, initialize)
               == Some(Plan(if IsRecord(s.a) && (IsRecord(s.b) ==> Id(s.a) > Id(s.b)) then 1 else 0, Newest(s))))
  {
    hide IsRecord, Id;
    ErasedIsNoRecord();
    if IsRecord(s.a) { RecordHasId(s.a); }
    if IsRecord(s.b) { RecordHasId(s.b); }
  }

  lemma OlderSlotIsTarget(s: Storage, initialize: bool)
    requires Sound(s, initialize) && Newest(s) < U32_MAX
    ensures var plan := Planned(s, initialize).value;
            plan.target < 2 && SlotAt(s, plan.target) != Record(Newest(s) + 1) && ERASED != Record(Newest(s) + 1)
  {
    hide IsRecord, Record, Id;
    PlanIsExact(s, initialize);
    ErasedIsNoRecord();
    RecordIsRecord(Newest(s) + 1);
    NewestIsNotWritten(s, initialize);
  }

  /** A cut write leaves storage sound unless it left neither record nor erased bytes; then
      no later boot exposes anything. */
  lemma CutWritesStaySound(s: Storage, boot: Boot, later: Boot)
    requires Possible(boot.tear) && Sound(s, boot.initialize) && Newest(s) < U32_MAX
    ensures var n := Advanced(s, boot).0;
            && (!boot.tear.Junk? || boot.tear.bytes == ERASED ==> Sound(n, boot.initialize))
            && (!Sound(n, true) ==> Advanced(n, later) == (n, None))
  {
    hide IsRecord, Record, Id;
    ErasedIsNoRecord();
    if IsRecord(s.a) { RecordHasId(s.a); }
    if IsRecord(s.b) { RecordHasId(s.b); }
    PlanIsExact(s, boot.initialize);
    RecordIsRecord(Newest(s) + 1);
    var n := Advanced(s, boot).0;
    PlanIsExact(n, later.initialize);
    if Sound(n, later.initialize) { assert Sound(n, true); }
  }
}

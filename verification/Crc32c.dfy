// CRC-32C: the reflected Castagnoli polynomial of section 12.1 of RFC 3720, one bit at
// a time. Any two messages of one length that differ only within four consecutive
// bytes have different checksums.
module Crc32c {
  import opened Words

  /** One bit of the shift register. */
  function Shift(r: bv32): bv32 {
    (r >> 1) ^ (if r & 1 == 1 then 0x82F63B78 else 0)
  }

  function Xor(a: bv32, b: bv32): bv32 {
    a ^ b
  }

  function ShiftMany(r: bv32, n: nat): bv32
    decreases n
  {
    if n == 0 then r else Shift(ShiftMany(r, n - 1))
  }

  function Widen(b: bv8): bv32 {
    b as bv32
  }

  function AbsorbByte(r: bv32, b: bv8): bv32 {
    ShiftMany(Xor(r, Widen(b)), 8)
  }

  /** The register after absorbing a message. */
  function Absorb(r: bv32, data: seq<bv8>): bv32
    decreases |data|
  {
    if data == [] then r else AbsorbByte(Absorb(r, data[..|data| - 1]), data[|data| - 1])
  }

  function ByteBits(b: u8): bv8 {
    b as bv8
  }

  function Bits(data: seq<u8>): (b: seq<bv8>)
    ensures |b| == |data|
  {
    seq(|data|, i requires 0 <= i < |data| => ByteBits(data[i]))
  }

  /** The final complement, as a word. */
  function Complement(r: bv32): u32 {
    (!r) as int
  }

  /** The checksum of a message. */
  function Checksum(data: seq<u8>): u32 {
    Complement(Absorb(0xFFFFFFFF, Bits(data)))
  }

  method ComputeByte(register: bv32, b: bv8) returns (r: bv32)
    ensures r == AbsorbByte(register, b)
  {
    r := register ^ (b as bv32);
    ghost var start := r;
    for bit := 0 to 8
      invariant r == ShiftMany(start, bit)
    {
      r := (r >> 1) ^ (if r & 1 == 1 then 0x82F63B78 else 0);
    }
  }

  method Compute(data: seq<u8>) returns (crc: u32)
    ensures crc == Checksum(data)
  {
    hide AbsorbByte, ByteBits, Complement;
    var r: bv32 := 0xFFFFFFFF;
    ghost var all := Bits(data);
    for index := 0 to |data|
      invariant r == Absorb(0xFFFFFFFF, all[..index])
    {
      assert all[..index + 1][..index] == all[..index];
      r := ComputeByte(r, ByteBits(data[index]));
    }
    assert all[..|data|] == all;
    crc := Complement(r);
  }

  // ---- the bit step is a bijection that commutes with later input -----------

  lemma ShiftIsInjective(a: bv32, b: bv32)
    requires Shift(a) == Shift(b)
    ensures a == b
  {
  }

  lemma {:induction false} ShiftManyIsInjective(a: bv32, b: bv32, n: nat)
    requires ShiftMany(a, n) == ShiftMany(b, n)
    ensures a == b
    decreases n
  {
    hide Shift;
    if n > 0 {
      ShiftIsInjective(ShiftMany(a, n - 1), ShiftMany(b, n - 1));
      ShiftManyIsInjective(a, b, n - 1);
    }
  }

  /** y moved up one place. */
  function Up(y: bv32): bv32 {
    y << 1
  }

  predicate TopIsClear(y: bv32) {
    y & 0x8000_0000 == 0
  }

  lemma ShiftAndInput(x: bv32, y: bv32)
    requires y & 0x8000_0000 == 0
    ensures Shift(x) ^ y == Shift(x ^ (y << 1))
  {
  }

  /** Input added after a bit step is the same input added one place higher before it. */
  lemma ShiftCommutes(x: bv32, y: bv32)
    requires TopIsClear(y)
    ensures Xor(Shift(x), y) == Shift(Xor(x, Up(y)))
  {
    hide Shift;
    ShiftAndInput(x, y);
  }

  /** y moved up n places. */
  function Raise(y: bv32, n: nat): bv32
    decreases n
  {
    if n == 0 then y else Raise(Up(y), n - 1)
  }

  /** No bit of y is lost when it is moved up n places. */
  predicate Roomy(y: bv32, n: nat)
    decreases n
  {
    n == 0 || (TopIsClear(y) && Roomy(Up(y), n - 1))
  }

  lemma {:induction false} ShiftsCommute(x: bv32, y: bv32, n: nat)
    requires Roomy(y, n)
    ensures Xor(ShiftMany(x, n), y) == ShiftMany(Xor(x, Raise(y, n)), n)
    decreases n
  {
    hide Shift, Xor, Up, TopIsClear;
    if n > 0 {
      ShiftCommutes(ShiftMany(x, n - 1), y);
      ShiftsCommute(x, Up(y), n - 1);
    }
  }

  lemma {:induction false} ShiftManyAdds(x: bv32, m: nat, n: nat)
    ensures ShiftMany(ShiftMany(x, m), n) == ShiftMany(x, m + n)
    decreases n
  {
    hide Shift;
    if n > 0 { ShiftManyAdds(x, m, n - 1); }
  }

  function Up8(y: bv32): bv32 {
    y << 8
  }

  lemma Places(y: bv32)
    ensures (y << 1) << 1 == y << 2 && (y << 2) << 1 == y << 3 && (y << 3) << 1 == y << 4 && (y << 4) << 1 == y << 5
    ensures (y << 5) << 1 == y << 6 && (y << 6) << 1 == y << 7 && (y << 7) << 1 == y << 8
  {
  }

  lemma TopIsClearAt(y: bv32)
    requires y & 0xFF00_0000 == 0
    ensures TopIsClear(y) && TopIsClear(y << 1) && TopIsClear(y << 2) && TopIsClear(y << 3)
    ensures TopIsClear(y << 4) && TopIsClear(y << 5) && TopIsClear(y << 6) && TopIsClear(y << 7)
  {
  }

  lemma UpPlaces(y: bv32)
    ensures Up(y) == y << 1 && Up(y << 1) == y << 2 && Up(y << 2) == y << 3 && Up(y << 3) == y << 4
    ensures Up(y << 4) == y << 5 && Up(y << 5) == y << 6 && Up(y << 6) == y << 7 && Up(y << 7) == Up8(y)
  {
    Places(y);
  }

  lemma Raise8(y: bv32)
    ensures Raise(y, 8) == Up8(y)
    ensures y & 0xFF00_0000 == 0 ==> Roomy(y, 8)
  {
    hide Up, Up8, TopIsClear;
    UpPlaces(y);
    assert Raise(y << 4, 4) == Up8(y);
    assert Raise(y, 8) == Raise(y << 4, 4);
    if y & 0xFF00_0000 == 0 {
      TopIsClearAt(y);
      assert Roomy(y << 4, 4);
      assert Roomy(y, 8);
    }
  }

  lemma {:induction false} RaiseAdds(y: bv32, m: nat, n: nat)
    ensures Raise(y, m + n) == Raise(Raise(y, m), n)
    ensures Roomy(y, m) && Roomy(Raise(y, m), n) ==> Roomy(y, m + n)
    decreases m
  {
    hide Up, TopIsClear;
    if m > 0 { RaiseAdds(Up(y), m - 1, n); }
  }

  lemma WideByteHasRoom(b: bv8)
    ensures var y := Widen(b);
            y & 0xFF00_0000 == 0 && Up8(y) & 0xFF00_0000 == 0 && Up8(Up8(y)) & 0xFF00_0000 == 0
  {
  }

  /** The place of a byte in the word of four: byte i is moved up 8 i places. */
  lemma RaiseByte(b: bv8)
    ensures var y := Widen(b);
            && Raise(y, 8) == Up8(y) && Raise(y, 16) == Up8(Up8(y)) && Raise(y, 24) == Up8(Up8(Up8(y)))
            && Roomy(y, 8) && Roomy(y, 16) && Roomy(y, 24)
  {
    hide Up8, Widen;
    var y := Widen(b);
    WideByteHasRoom(b);
    Raise8(y);
    Raise8(Up8(y));
    Raise8(Up8(Up8(y)));
    RaiseAdds(y, 8, 8);
    RaiseAdds(y, 16, 8);
  }

  /** Four bytes as one word, the first byte lowest. */
  function Word(b0: bv8, b1: bv8, b2: bv8, b3: bv8): bv32 {
    Xor(Xor(Xor(Widen(b0), Up8(Widen(b1))), Up8(Up8(Widen(b2)))), Up8(Up8(Up8(Widen(b3)))))
  }

  lemma ByteIsInWord(a: bv8, b: bv8, c: bv8, d: bv8)
    ensures var w := (a as bv32) ^ ((b as bv32) << 8) ^ ((c as bv32) << 8 << 8) ^ ((d as bv32) << 8 << 8 << 8);
            && w & 0xFF == a as bv32 && (w >> 8) & 0xFF == b as bv32
            && (w >> 16) & 0xFF == c as bv32 && w >> 24 == d as bv32
  {
  }

  lemma WidenIsInjective(a: bv8, b: bv8)
    requires a as bv32 == b as bv32
    ensures a == b
  {
  }

  lemma WordBytes(a: bv8, b: bv8, c: bv8, d: bv8)
    ensures var w := Word(a, b, c, d);
            && w & 0xFF == a as bv32 && (w >> 8) & 0xFF == b as bv32
            && (w >> 16) & 0xFF == c as bv32 && w >> 24 == d as bv32
  {
    ByteIsInWord(a, b, c, d);
  }

  lemma WordIsInjective(a0: bv8, a1: bv8, a2: bv8, a3: bv8, b0: bv8, b1: bv8, b2: bv8, b3: bv8)
    requires Word(a0, a1, a2, a3) == Word(b0, b1, b2, b3)
    ensures a0 == b0 && a1 == b1 && a2 == b2 && a3 == b3
  {
    hide Word;
    WordBytes(a0, a1, a2, a3);
    WordBytes(b0, b1, b2, b3);
    WidenIsInjective(a0, b0);
    WidenIsInjective(a1, b1);
    WidenIsInjective(a2, b2);
    WidenIsInjective(a3, b3);
  }

  /** Four bytes enter the register as one word. */
  lemma AbsorbFour(r: bv32, b0: bv8, b1: bv8, b2: bv8, b3: bv8)
    ensures AbsorbByte(AbsorbByte(AbsorbByte(AbsorbByte(r, b0), b1), b2), b3) == ShiftMany(Xor(r, Word(b0, b1, b2, b3)), 32)
  {
    hide Shift, Word, Xor, Widen, Up8, ShiftMany, Raise, Roomy;
    RaiseByte(b1);
    RaiseByte(b2);
    RaiseByte(b3);
    var x0 := Xor(r, Widen(b0));
    ShiftsCommute(x0, Widen(b1), 8);
    var x1 := Xor(x0, Up8(Widen(b1)));
    ShiftManyAdds(x1, 8, 8);
    ShiftsCommute(x1, Widen(b2), 16);
    var x2 := Xor(x1, Up8(Up8(Widen(b2))));
    ShiftManyAdds(x2, 16, 8);
    ShiftsCommute(x2, Widen(b3), 24);
    var x3 := Xor(x2, Up8(Up8(Up8(Widen(b3)))));
    ShiftManyAdds(x3, 24, 8);
    XorAssociates(r, Widen(b0), Up8(Widen(b1)), Up8(Up8(Widen(b2))), Up8(Up8(Up8(Widen(b3)))));
    assert Word(b0, b1, b2, b3) == Xor(Xor(Xor(Widen(b0), Up8(Widen(b1))), Up8(Up8(Widen(b2)))), Up8(Up8(Up8(Widen(b3))))) by {
      WordIs(b0, b1, b2, b3);
    }
  }

  lemma WordIs(b0: bv8, b1: bv8, b2: bv8, b3: bv8)
    ensures Word(b0, b1, b2, b3) == Xor(Xor(Xor(Widen(b0), Up8(Widen(b1))), Up8(Up8(Widen(b2)))), Up8(Up8(Up8(Widen(b3)))))
  {
  }

  lemma XorAssociates(r: bv32, a: bv32, b: bv32, c: bv32, d: bv32)
    ensures Xor(Xor(Xor(Xor(r, a), b), c), d) == Xor(r, Xor(Xor(Xor(a, b), c), d))
  {
  }

  // ---- messages -------------------------------------------------------------

  lemma {:induction false} AbsorbConcat(r: bv32, a: seq<bv8>, b: seq<bv8>)
    ensures Absorb(r, a + b) == Absorb(Absorb(r, a), b)
    decreases |b|
  {
    hide AbsorbByte;
    if b == [] {
      assert a + b == a;
    } else {
      var last := |b| - 1;
      assert (a + b)[..|a + b| - 1] == a + b[..last] && (a + b)[|a + b| - 1] == b[last];
      AbsorbConcat(r, a, b[..last]);
    }
  }

  lemma AbsorbFourBytes(r: bv32, d: seq<bv8>)
    requires |d| == 4
    ensures Absorb(r, d) == AbsorbByte(AbsorbByte(AbsorbByte(AbsorbByte(r, d[0]), d[1]), d[2]), d[3])
  {
    hide AbsorbByte;
    assert d[..3][..2] == d[..2] && d[..2][..1] == d[..1] && d[..1][..0] == [];
    assert Absorb(r, d[..0]) == r;
    assert Absorb(r, d[..1]) == AbsorbByte(r, d[0]);
    assert Absorb(r, d[..2]) == AbsorbByte(Absorb(r, d[..1]), d[1]);
    assert Absorb(r, d[..3]) == AbsorbByte(Absorb(r, d[..2]), d[2]);
  }

  /** Different registers stay different when they absorb the same bytes. */
  lemma {:induction false} AbsorbIsInjective(a: bv32, b: bv32, data: seq<bv8>)
    requires Absorb(a, data) == Absorb(b, data)
    ensures a == b
    decreases |data|
  {
    hide Shift, ShiftMany, Xor, Widen;
    if data != [] {
      var front, byte := data[..|data| - 1], Widen(data[|data| - 1]);
      ShiftManyIsInjective(Xor(Absorb(a, front), byte), Xor(Absorb(b, front), byte), 8);
      XorCancels(Absorb(a, front), Absorb(b, front), byte);
      AbsorbIsInjective(a, b, front);
    }
  }

  lemma XorCancels(a: bv32, b: bv32, c: bv32)
    requires Xor(a, c) == Xor(b, c)
    ensures a == b
  {
  }

  lemma XorCancelsLeft(c: bv32, a: bv32, b: bv32)
    requires Xor(c, a) == Xor(c, b)
    ensures a == b
  {
  }

  lemma FourBytesAreSeparated(r: bv32, d: seq<bv8>, e: seq<bv8>)
    requires |d| == |e| == 4 && Absorb(r, d) == Absorb(r, e)
    ensures d == e
  {
    hide Shift, ShiftMany, Word, AbsorbByte, Absorb, Xor;
    AbsorbFourBytes(r, d);
    AbsorbFourBytes(r, e);
    AbsorbFour(r, d[0], d[1], d[2], d[3]);
    AbsorbFour(r, e[0], e[1], e[2], e[3]);
    var wd, we := Word(d[0], d[1], d[2], d[3]), Word(e[0], e[1], e[2], e[3]);
    ShiftManyIsInjective(Xor(r, wd), Xor(r, we), 32);
    XorCancelsLeft(r, wd, we);
    WordIsInjective(d[0], d[1], d[2], d[3], e[0], e[1], e[2], e[3]);
  }

  /** At most four bytes: pad both with the same zeros. */
  lemma ShortBurstsAreSeparated(r: bv32, d: seq<bv8>, e: seq<bv8>)
    requires |d| == |e| <= 4 && Absorb(r, d) == Absorb(r, e)
    ensures d == e
  {
    hide Absorb;
    var pad: seq<bv8> := seq(4 - |d|, _ => 0);
    AbsorbConcat(r, d, pad);
    AbsorbConcat(r, e, pad);
    FourBytesAreSeparated(r, d + pad, e + pad);
    assert d == (d + pad)[..|d|] && e == (e + pad)[..|d|];
  }

  lemma RegisterRoundTrip(a: bv32)
    ensures (a as int) as bv32 == a
  {
  }

  lemma ByteRoundTrip(a: u8)
    ensures (a as bv8) as int == a
  {
  }

  lemma ComplementIsInjective(a: bv32, b: bv32)
    requires Complement(a) == Complement(b)
    ensures a == b
  {
    RegisterRoundTrip(!a);
    RegisterRoundTrip(!b);
  }

  lemma ByteBitsIsInjective(a: u8, b: u8)
    requires ByteBits(a) == ByteBits(b)
    ensures a == b
  {
    ByteRoundTrip(a);
    ByteRoundTrip(b);
  }

  /** Burst detection. Two messages of one length whose differences all lie within four
      consecutive bytes, and which do differ, have different checksums. */
  lemma BurstIsDetected(p: seq<u8>, d: seq<u8>, e: seq<u8>, s: seq<u8>)
    requires |d| == |e| <= 4 && d != e
    ensures Checksum(p + d + s) != Checksum(p + e + s)
  {
    hide Absorb, ByteBits, Complement;
    BitsConcat(p, d, s);
    BitsConcat(p, e, s);
    var start: bv32 := 0xFFFFFFFF;
    AbsorbConcat(start, Bits(p) + Bits(d), Bits(s));
    AbsorbConcat(start, Bits(p) + Bits(e), Bits(s));
    AbsorbConcat(start, Bits(p), Bits(d));
    AbsorbConcat(start, Bits(p), Bits(e));
    if Checksum(p + d + s) == Checksum(p + e + s) {
      ComplementIsInjective(Absorb(start, Bits(p + d + s)), Absorb(start, Bits(p + e + s)));
      AbsorbIsInjective(Absorb(start, Bits(p) + Bits(d)), Absorb(start, Bits(p) + Bits(e)), Bits(s));
      ShortBurstsAreSeparated(Absorb(start, Bits(p)), Bits(d), Bits(e));
      BitsAreInjective(d, e);
      assert false;
    }
  }

  lemma BitsConcat(a: seq<u8>, b: seq<u8>, c: seq<u8>)
    ensures Bits(a + b + c) == Bits(a) + Bits(b) + Bits(c)
  {
    hide ByteBits;
  }

  lemma BitsAreInjective(a: seq<u8>, b: seq<u8>)
    requires |a| == |b| && Bits(a) == Bits(b)
    ensures a == b
  {
    hide ByteBits;
    forall i | 0 <= i < |a| ensures a[i] == b[i] {
      assert Bits(a)[i] == ByteBits(a[i]) && Bits(b)[i] == ByteBits(b[i]);
      ByteBitsIsInjective(a[i], b[i]);
    }
  }

  // ---- the check value ------------------------------------------------------

  /** One byte absorbed, bit by bit. */
  lemma EightShifts(r: bv32, b: bv8, a1: bv32, a2: bv32, a3: bv32, a4: bv32, a5: bv32, a6: bv32, a7: bv32, a8: bv32)
    requires Shift(Xor(r, Widen(b))) == a1 && Shift(a1) == a2 && Shift(a2) == a3 && Shift(a3) == a4
    requires Shift(a4) == a5 && Shift(a5) == a6 && Shift(a6) == a7 && Shift(a7) == a8
    ensures AbsorbByte(r, b) == a8
  {
    hide Shift;
    var x := Xor(r, Widen(b));
    assert ShiftMany(x, 1) == Shift(ShiftMany(x, 0)) == a1;
    assert ShiftMany(x, 2) == a2 && ShiftMany(x, 3) == a3 && ShiftMany(x, 4) == a4;
    assert ShiftMany(x, 5) == a5 && ShiftMany(x, 6) == a6 && ShiftMany(x, 7) == a7 && ShiftMany(x, 8) == a8;
  }

  lemma DigitOne()
    ensures AbsorbByte(0xFFFFFFFF, 0x31) == 0x6F0A661C
  {
    EightShifts(0xFFFFFFFF, 0x31, 0x7FFFFFE7, 0xBD09C48B, 0xDC72D93D, 0xECCF57E6,
                0x7667ABF3, 0xB9C5EE81, 0xDE14CC38, 0x6F0A661C);
  }

  lemma DigitTwo()
    ensures AbsorbByte(0x6F0A661C, 0x32) == 0x8CAA3B9F
  {
    EightShifts(0x6F0A661C, 0x32, 0x37853317, 0x9934A2F3, 0xCE6C6A01, 0xE5C00E78,
                0x72E0073C, 0x3970039E, 0x1CB801CF, 0x8CAA3B9F);
  }

  lemma DigitThree()
    ensures AbsorbByte(0x8CAA3B9F, 0x33) == 0xEF84D04D
  {
    EightShifts(0x8CAA3B9F, 0x33, 0x46551DD6, 0x232A8EEB, 0x93637C0D, 0xCB47857E,
                0x65A3C2BF, 0xB027DA27, 0xDAE5D66B, 0xEF84D04D);
  }

  lemma DigitFour()
    ensures AbsorbByte(0xEF84D04D, 0x34) == 0x09C50B11
  {
    EightShifts(0xEF84D04D, 0x34, 0xF5345344, 0x7A9A29A2, 0x3D4D14D1, 0x9C50B110,
                0x4E285888, 0x27142C44, 0x138A1622, 0x09C50B11);
  }

  lemma DigitFive()
    ensures AbsorbByte(0x09C50B11, 0x35) == 0xE72EDCCA
  {
    EightShifts(0x09C50B11, 0x35, 0x04E28592, 0x027142C9, 0x83CE9A1C, 0x41E74D0E,
                0x20F3A687, 0x928FE83B, 0xCBB1CF65, 0xE72EDCCA);
  }

  lemma DigitSix()
    ensures AbsorbByte(0xE72EDCCA, 0x36) == 0xBECA8E79
  {
    EightShifts(0xE72EDCCA, 0x36, 0x73976E7E, 0x39CBB73F, 0x9E13E0E7, 0xCDFFCB0B,
                0xE409DEFD, 0xF0F2D406, 0x78796A03, 0xBECA8E79);
  }

  lemma DigitSeven()
    ensures AbsorbByte(0xBECA8E79, 0x37) == 0xEDBD6815
  {
    EightShifts(0xBECA8E79, 0x37, 0x5F654727, 0xAD4498EB, 0xD454770D, 0xE8DC00FE,
                0x746E007F, 0xB8C13B47, 0xDE96A6DB, 0xEDBD6815);
  }

  lemma DigitEight()
    ensures AbsorbByte(0xEDBD6815, 0x38) == 0x9F787F65
  {
    EightShifts(0xEDBD6815, 0x38, 0xF4288F6E, 0x7A1447B7, 0xBFFC18A3, 0xDD083729,
                0xEC7220EC, 0x76391076, 0x3B1C883B, 0x9F787F65);
  }

  lemma DigitNine()
    ensures AbsorbByte(0x9F787F65, 0x39) == 0x1CF96D7C
  {
    EightShifts(0x9F787F65, 0x39, 0x4FBC3FAE, 0x27DE1FD7, 0x91193493, 0xCA7AA131,
                0xE7CB6BE0, 0x73E5B5F0, 0x39F2DAF8, 0x1CF96D7C);
  }

  const DIGITS: seq<bv8> := [0x31, 0x32, 0x33, 0x34, 0x35, 0x36, 0x37, 0x38, 0x39]

  lemma AbsorbOne(r: bv32, data: seq<bv8>, b: bv8)
    ensures Absorb(r, data + [b]) == AbsorbByte(Absorb(r, data), b)
  {
    assert (data + [b])[..|data|] == data;
  }

  lemma DigitsAbsorbed()
    ensures Absorb(0xFFFFFFFF, DIGITS) == 0x1CF96D7C
  {
    hide AbsorbByte, Absorb;
    var d := DIGITS;
    assert Absorb(0xFFFFFFFF, []) == 0xFFFFFFFF by { NothingAbsorbed(0xFFFFFFFF); }
    assert d[..0] == [] && d[..9] == d;
    assert d[..1] == d[..0] + [d[0]];
    AbsorbOne(0xFFFFFFFF, d[..0], d[0]);
    DigitOne();
    assert d[..2] == d[..1] + [d[1]];
    AbsorbOne(0xFFFFFFFF, d[..1], d[1]);
    DigitTwo();
    assert d[..3] == d[..2] + [d[2]];
    AbsorbOne(0xFFFFFFFF, d[..2], d[2]);
    DigitThree();
    assert d[..4] == d[..3] + [d[3]];
    AbsorbOne(0xFFFFFFFF, d[..3], d[3]);
    DigitFour();
    assert d[..5] == d[..4] + [d[4]];
    AbsorbOne(0xFFFFFFFF, d[..4], d[4]);
    DigitFive();
    assert d[..6] == d[..5] + [d[5]];
    AbsorbOne(0xFFFFFFFF, d[..5], d[5]);
    DigitSix();
    assert d[..7] == d[..6] + [d[6]];
    AbsorbOne(0xFFFFFFFF, d[..6], d[6]);
    DigitSeven();
    assert d[..8] == d[..7] + [d[7]];
    AbsorbOne(0xFFFFFFFF, d[..7], d[7]);
    DigitEight();
    assert d[..9] == d[..8] + [d[8]];
    AbsorbOne(0xFFFFFFFF, d[..8], d[8]);
    DigitNine();
  }

  lemma NothingAbsorbed(r: bv32)
    ensures Absorb(r, []) == r
  {
  }

  /** The published check value of CRC-32C: its checksum of the nine ASCII digits from 1 to 9.
      It singles out the polynomial, the start value, the reflection and the complement. */
  lemma CheckValue()
    ensures Checksum([0x31, 0x32, 0x33, 0x34, 0x35, 0x36, 0x37, 0x38, 0x39]) == 0xE3069283
  {
    hide Absorb;
    var text: seq<u8> := [0x31, 0x32, 0x33, 0x34, 0x35, 0x36, 0x37, 0x38, 0x39];
    assert Bits(text) == DIGITS;
    DigitsAbsorbed();
  }
}

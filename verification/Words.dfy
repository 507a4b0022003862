// Fixed-width integers of the firmware: wrapping 32-bit words, the signed
// "is after" comparison of clock readings, truncating division, and the
// little-endian byte layout. Readings are related to an unbounded clock by Wrap.
module Words {

  const WORD: int := 0x1_0000_0000
  const HALF: int := 0x8000_0000
  const U32_MAX: int := 0xFFFF_FFFF

  type u8 = x: int | 0 <= x < 0x100
  type u16 = x: int | 0 <= x < 0x1_0000
  type u32 = x: int | 0 <= x < 0x1_0000_0000
  type i32 = x: int | -0x8000_0000 <= x < 0x8000_0000

  /** The 32-bit reading of an unbounded clock or counter. */
  function Wrap(t: int): u32 {
    t % WORD
  }

  /** Unsigned 32-bit subtraction. */
  function Sub(a: u32, b: u32): u32 {
    if a >= b then a - b else a - b + WORD
  }

  /** Unsigned 32-bit addition. */
  function Add(a: u32, b: u32): u32 {
    if a + b < WORD then a + b else a + b - WORD
  }

  /** The signed 32-bit difference is positive. */
  predicate After(a: u32, b: u32) {
    0 < Sub(a, b) < HALF
  }

  /** Two readings subtract to the wrapped true difference. */
  lemma SubWrap(a: int, b: int)
    ensures Sub(Wrap(a), Wrap(b)) == Wrap(a - b)
    ensures 0 <= a - b < WORD ==> Sub(Wrap(a), Wrap(b)) == a - b
  {
  }

  lemma AddWrap(a: int, b: int)
    ensures Add(Wrap(a), Wrap(b)) == Wrap(a + b)
  {
  }

  /** After is the true order for clock values less than half a word apart. */
  lemma AfterIsTrueOrder(a: int, b: int)
    requires -HALF < a - b < HALF
    ensures After(Wrap(a), Wrap(b)) <==> a > b
  {
    SubWrap(a, b);
  }

  /** C's division of a signed numerator: toward zero. */
  function TruncDiv(n: int, d: int): int
    requires d > 0
  {
    if n >= 0 then n / d else -((-n) / d)
  }

  function Abs(x: int): nat {
    if x < 0 then -x else x
  }

  function Distance(a: int, b: int): nat {
    Abs(a - b)
  }

  /** Two's complement narrowing. */
  function ToI32(x: int): i32 {
    var w := x % WORD;
    if w < HALF then w else w - WORD
  }

  function ToI64(x: int): int {
    var w := x % 0x1_0000_0000_0000_0000;
    if w < 0x8000_0000_0000_0000 then w else w - 0x1_0000_0000_0000_0000
  }

  function Saturate(x: u32): u32 {
    if x == U32_MAX then x else x + 1
  }

  // ---- bytes ---------------------------------------------------------------

  function Read16(p: seq<u8>, i: nat): u16
    requires i + 2 <= |p|
  {
    p[i] as int + 0x100 * (p[i + 1] as int)
  }

  function Read32(p: seq<u8>, i: nat): u32
    requires i + 4 <= |p|
  {
    p[i] as int + 0x100 * (p[i + 1] as int) + 0x1_0000 * (p[i + 2] as int) + 0x100_0000 * (p[i + 3] as int)
  }

  function ReadI32(p: seq<u8>, i: nat): i32
    requires i + 4 <= |p|
  {
    ToI32(Read32(p, i))
  }

  function Bytes32(v: u32): (b: seq<u8>)
    ensures |b| == 4
  {
    [v % 0x100, v / 0x100 % 0x100, v / 0x1_0000 % 0x100, v / 0x100_0000]
  }

  function Bytes16(v: u16): (b: seq<u8>)
    ensures |b| == 2
  {
    [v % 0x100, v / 0x100]
  }

  lemma ByteDigits(v: u32)
    ensures v == v % 0x100 + 0x100 * (v / 0x100 % 0x100) + 0x1_0000 * (v / 0x1_0000 % 0x100) + 0x100_0000 * (v / 0x100_0000)
  {
    var w := v / 0x100;
    assert v / 0x1_0000 == w / 0x100 && v / 0x100_0000 == w / 0x100 / 0x100;
  }

  /** A word written at an offset is read back from there. */
  lemma ReadBytes32(prefix: seq<u8>, v: u32, suffix: seq<u8>)
    ensures Read32(prefix + Bytes32(v) + suffix, |prefix|) == v
  {
    var p, b := prefix + Bytes32(v) + suffix, Bytes32(v);
    ByteDigits(v);
    assert p[|prefix|] == b[0] && p[|prefix| + 1] == b[1] && p[|prefix| + 2] == b[2] && p[|prefix| + 3] == b[3];
  }

  /** Four bytes are determined by the word they spell. */
  lemma BytesRead32(p: seq<u8>)
    requires |p| == 4
    ensures Bytes32(Read32(p, 0)) == p
  {
    var v := Read32(p, 0);
    var high := p[1] as int + 0x100 * (p[2] as int) + 0x1_0000 * (p[3] as int);
    assert v == p[0] as int + 0x100 * high;
    assert v % 0x100 == p[0] && v / 0x100 == high;
    assert high % 0x100 == p[1] && high / 0x100 == p[2] as int + 0x100 * (p[3] as int);
    assert v / 0x1_0000 == high / 0x100 && v / 0x100_0000 == p[3];
  }

  /** Two's complement word of a signed value. */
  function SignedWord(v: i32): u32 {
    if v < 0 then v + WORD else v
  }

  lemma ReadsBack(p: seq<u8>, i: nat, v: u32)
    requires i + 4 <= |p| && p[i..i + 4] == Bytes32(v)
    ensures Read32(p, i) == v
  {
    ByteDigits(v);
    var b := Bytes32(v);
    assert p[i] == p[i..i + 4][0] && p[i + 1] == p[i..i + 4][1] && p[i + 2] == p[i..i + 4][2] && p[i + 3] == p[i..i + 4][3];
  }

  lemma WritesBack(p: seq<u8>, i: nat)
    requires i + 4 <= |p|
    ensures Bytes32(Read32(p, i)) == p[i..i + 4]
  {
    BytesRead32(p[i..i + 4]);
  }

  lemma SignedRoundTrip(v: i32, w: u32)
    ensures ToI32(SignedWord(v)) == v && SignedWord(ToI32(w)) == w
  {
  }

  // ---- words in a row -------------------------------------------------------

  function Packed(ws: seq<u32>): (b: seq<u8>)
    ensures |b| == 4 * |ws|
  {
    if ws == [] then [] else Bytes32(ws[0]) + Packed(ws[1..])
  }

  lemma {:induction false} PackedAt(ws: seq<u32>, i: nat)
    requires i < |ws|
    ensures Packed(ws)[4 * i..4 * i + 4] == Bytes32(ws[i])
  {
    hide Bytes32;
    if i > 0 {
      PackedAt(ws[1..], i - 1);
      assert Packed(ws)[4 * i..4 * i + 4] == Packed(ws[1..])[4 * (i - 1)..4 * (i - 1) + 4];
    }
  }

  lemma SliceOfSlice(p: seq<u8>, lo: nat, hi: nat, a: nat, b: nat)
    requires a <= b && lo + b <= hi <= |p|
    ensures p[lo..hi][a..b] == p[lo + a..lo + b]
  {
    var x, y := p[lo..hi][a..b], p[lo + a..lo + b];
    forall k | 0 <= k < b - a ensures x[k] == y[k] {
      assert x[k] == p[lo..hi][a + k] == p[lo + (a + k)];
    }
    assert x == y;
  }

  /** The i-th word of a row is read back wherever the row stands. */
  lemma ReadPacked(p: seq<u8>, at: nat, ws: seq<u32>, i: nat)
    requires at + 4 * |ws| <= |p| && p[at..at + 4 * |ws|] == Packed(ws) && i < |ws|
    ensures Read32(p, at + 4 * i) == ws[i]
  {
    hide Bytes32, Read32;
    PackedAt(ws, i);
    SliceOfSlice(p, at, at + 4 * |ws|, 4 * i, 4 * i + 4);
    ReadsBack(p, at + 4 * i, ws[i]);
  }

  /** A row of words is determined by what is read from it. */
  lemma {:induction false} PackedFromReads(p: seq<u8>, at: nat, ws: seq<u32>)
    requires at + 4 * |ws| <= |p| && forall i :: 0 <= i < |ws| ==> Read32(p, at + 4 * i) == ws[i]
    ensures p[at..at + 4 * |ws|] == Packed(ws)
    decreases |ws|
  {
    hide Bytes32, Read32;
    if ws != [] {
      assert Read32(p, at + 4 * 0) == ws[0];
      WritesBack(p, at);
      forall i | 0 <= i < |ws[1..]| ensures Read32(p, (at + 4) + 4 * i) == ws[1..][i] {
        assert Read32(p, at + 4 * (i + 1)) == ws[i + 1];
      }
      PackedFromReads(p, at + 4, ws[1..]);
      assert p[at..at + 4 * |ws|] == p[at..at + 4] + p[at + 4..at + 4 + 4 * |ws[1..]|];
    }
  }
}

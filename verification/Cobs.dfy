// Consistent Overhead Byte Stuffing: the encoding has no zero byte and grows by at most
// one byte and one more in every 254; the bounded C routines compute exactly it.
module Cobs {
  import opened Words
  import opened Optional

  /** A run of nonzero bytes that fits one block. */
  type Block = b: seq<u8> | |b| < 254

  /** The encoding from an open block on: closing it takes its code byte and its bytes. A
      block that fills up to 254 bytes closes at once, without standing for a zero. */
  function Blocks(block: Block, data: seq<u8>): (e: seq<u8>)
    ensures |e| > 0
    decreases |data|
  {
    if data == [] then [|block| + 1] + block
    else if data[0] == 0 then [|block| + 1] + block + Blocks([], data[1..])
    else if |block| == 253 then [255] + (block + [data[0]]) + Blocks([], data[1..])
    else Blocks(block + [data[0]], data[1..])
  }

  function Encode(data: seq<u8>): seq<u8> {
    Blocks([], data)
  }

  function Prepended(front: seq<u8>, rest: Option<seq<u8>>): Option<seq<u8>> {
    match rest
    case None => None
    case Some(d) => Some(front + d)
  }

  /** The zero a block stands for: every block but a full one, unless it is the last. */
  function BlockEnd(code: u8, rest: seq<u8>): seq<u8> {
    if code != 255 && rest != [] then [0] else []
  }

  function DecodeFrom(e: seq<u8>): Option<seq<u8>>
    decreases |e|
  {
    if e == [] then Some([])
    else if e[0] == 0 || e[0] > |e| then None
    else
      var rest := e[e[0]..];
      Prepended(e[1..e[0]] + BlockEnd(e[0], rest), DecodeFrom(rest))
  }

  function Decode(e: seq<u8>): Option<seq<u8>> {
    if e == [] then None else DecodeFrom(e)
  }

  // ---- the encoding ---------------------------------------------------------

  predicate ZeroFree(s: seq<u8>) {
    forall i :: 0 <= i < |s| ==> s[i] != 0
  }

  lemma {:induction false} BlocksAreZeroFree(block: Block, data: seq<u8>)
    requires ZeroFree(block)
    ensures ZeroFree(Blocks(block, data))
    decreases |data|
  {
    if data != [] {
      if data[0] == 0 || |block| == 253 {
        BlocksAreZeroFree([], data[1..]);
      } else {
        BlocksAreZeroFree(block + [data[0]], data[1..]);
      }
    }
  }

  lemma {:induction false} BlocksAreShort(block: Block, data: seq<u8>)
    ensures var n := |block| + |data|; n + 1 <= |Blocks(block, data)| <= n + 1 + n / 254
    decreases |data|
  {
    if data != [] {
      if data[0] == 0 || |block| == 253 {
        BlocksAreShort([], data[1..]);
      } else {
        BlocksAreShort(block + [data[0]], data[1..]);
      }
    }
  }

  /** One block and what follows it decode separately. */
  lemma BlockDecodes(bytes: seq<u8>, rest: seq<u8>)
    requires |bytes| <= 254
    ensures DecodeFrom([|bytes| + 1] + bytes + rest)
         == Prepended(bytes + BlockEnd(|bytes| + 1, rest), DecodeFrom(rest))
  {
    var e := [|bytes| + 1] + bytes + rest;
    assert e[1..e[0]] == bytes && e[e[0]..] == rest;
  }

  lemma {:induction false} BlocksDecode(block: Block, data: seq<u8>)
    ensures DecodeFrom(Blocks(block, data)) == Some(block + data)
    decreases |data|
  {
    hide DecodeFrom;
    if data == [] {
      assert [|block| + 1] + block + [] == Blocks(block, data);
      BlockDecodes(block, []);
      EmptyDecodes();
      assert block + [] + [] == block + data;
    } else if data[0] == 0 {
      BlockDecodes(block, Blocks([], data[1..]));
      BlocksDecode([], data[1..]);
      assert block + [0] + ([] + data[1..]) == block + data;
    } else if |block| == 253 {
      BlockDecodes(block + [data[0]], Blocks([], data[1..]));
      BlocksDecode([], data[1..]);
      assert (block + [data[0]]) + [] + ([] + data[1..]) == block + data;
    } else {
      BlocksDecode(block + [data[0]], data[1..]);
      assert (block + [data[0]]) + data[1..] == block + data;
    }
  }

  lemma EmptyDecodes()
    ensures DecodeFrom([]) == Some([])
  {
  }

  /** The encoding has no zero byte, is at most n + 1 + n / 254 long, and decodes back. */
  lemma EncodingIsSound(data: seq<u8>)
    ensures ZeroFree(Encode(data))
    ensures |data| + 1 <= |Encode(data)| <= |data| + 1 + |data| / 254
    ensures Decode(Encode(data)) == Some(data)
  {
    BlocksAreZeroFree([], data);
    BlocksAreShort([], data);
    BlocksDecode([], data);
    assert [] + data == data;
  }

  // ---- the bounded encoder --------------------------------------------------

  /** Where the encoder stands: the closed blocks are written before `code`, the open
      block after it; the place of its code byte is still free. */
  ghost predicate Encoding(out: seq<u8>, code: nat, write: nat, input: seq<u8>, read: nat) {
    && code < write && code <= |out| && (write <= |out| || write == code + 1) && read <= |input|
    && write - code - 1 < 254
    && Encode(input) == out[..code] + Blocks(OpenBlock(out, code, write), input[read..])
  }

  function OpenBlock(out: seq<u8>, code: nat, write: nat): seq<u8>
    requires code < write && (write <= |out| || write == code + 1)
  {
    if write == code + 1 then [] else out[code + 1..write]
  }

  /** The whole encoding is at least as long as what is written and one block to close. */
  lemma EncodingReaches(out: seq<u8>, code: nat, write: nat, input: seq<u8>, read: nat)
    requires Encoding(out, code, write, input, read)
    ensures |Encode(input)| >= write + (|input| - read)
  {
    BlocksAreShort(OpenBlock(out, code, write), input[read..]);
  }

  lemma ByteTaken(out: seq<u8>, code: nat, write: nat, input: seq<u8>, read: nat)
    requires Encoding(out, code, write, input, read) && read < |input| && input[read] != 0 && write < |out|
    requires write - code - 1 < 253
    ensures Encoding(out[write := input[read]], code, write + 1, input, read + 1)
  {
    var o := out[write := input[read]];
    assert OpenBlock(o, code, write + 1) == OpenBlock(out, code, write) + [input[read]];
    assert input[read..][1..] == input[read + 1..];
    assert o[..code] == out[..code];
  }

  lemma BlockFilled(out: seq<u8>, code: nat, write: nat, input: seq<u8>, read: nat)
    requires Encoding(out, code, write, input, read) && read < |input| && input[read] != 0 && write < |out|
    requires write - code - 1 == 253
    ensures Encoding(out[write := input[read]][code := 255], write + 1, write + 2, input, read + 1)
  {
    var o := out[write := input[read]][code := 255];
    assert o[..write + 1] == out[..code] + ([255] + (OpenBlock(out, code, write) + [input[read]]));
    assert input[read..][1..] == input[read + 1..];
  }

  lemma BlockClosed(out: seq<u8>, code: nat, write: nat, input: seq<u8>, read: nat)
    requires Encoding(out, code, write, input, read) && read < |input| && input[read] == 0 && code < |out|
    ensures write <= |out|
    ensures Encoding(out[code := write - code], write, write + 1, input, read + 1)
  {
    var o := out[code := write - code];
    assert o[..write] == out[..code] + ([write - code] + OpenBlock(out, code, write));
    assert input[read..][1..] == input[read + 1..];
  }

  lemma LastClosed(out: seq<u8>, code: nat, write: nat, input: seq<u8>)
    requires Encoding(out, code, write, input, |input|) && code < |out|
    ensures write <= |out| && out[code := write - code][..write] == Encode(input)
  {
    var o := out[code := write - code];
    assert input[|input|..] == [];
    assert o[..write] == out[..code] + ([write - code] + OpenBlock(out, code, write));
  }

  /** Encodes into the first `capacity` bytes of a buffer; succeeds exactly when the encoding fits, and then has written it. */
  method EncodeInto(input: seq<u8>, output: array<u8>, capacity: nat) returns (length: Option<nat>)
    requires capacity <= output.Length
    modifies output
    ensures length.Some? <==> |Encode(input)| <= capacity
    ensures length.Some? ==> length.value == |Encode(input)| && output[..length.value] == Encode(input)
  {
    hide Encoding, Blocks;
    var read, write, code := 0, 1, 0;
    BlocksAreShort([], input);
    if capacity == 0 { return None; }
    assert Encoding(output[..capacity], 0, 1, input, 0) by { EncodingStarts(output[..capacity], input); }
    while read < |input|
      invariant Encoding(output[..capacity], code, write, input, read)
      invariant read <= |input| && code < write && write - code - 1 < 254 && code <= capacity
    {
      EncodingReaches(output[..capacity], code, write, input, read);
      ghost var out := output[..capacity];
      if input[read] == 0 {
        if code >= capacity { return None; }
        BlockClosed(out, code, write, input, read);
        var mark: u8 := write - code;
        output[code] := mark;
        assert output[..capacity] == out[code := mark];
        code := write;
        write := write + 1;
        read := read + 1;
      } else {
        if write >= capacity { return None; }
        output[write] := input[read];
        assert output[..capacity] == out[write := input[read]];
        if write - code == 254 {
          BlockFilled(out, code, write, input, read);
          output[code] := 255;
          assert output[..capacity] == out[write := input[read]][code := 255];
          code := write + 1;
          write := write + 2;
        } else {
          ByteTaken(out, code, write, input, read);
          write := write + 1;
        }
        read := read + 1;
      }
      EncodingBounds(output[..capacity], code, write, input, read);
    }
    EncodingReaches(output[..capacity], code, write, input, read);
    if code >= capacity { return None; }
    ghost var out := output[..capacity];
    LastClosed(out, code, write, input);
    var mark: u8 := write - code;
    output[code] := mark;
    assert output[..capacity] == out[code := mark];
    assert output[..write] == output[..capacity][..write];
    length := Some(write);
  }

  lemma EncodingStarts(out: seq<u8>, input: seq<u8>)
    ensures Encoding(out, 0, 1, input, 0)
  {
    assert input[0..] == input;
    assert out[..0] + Encode(input) == Encode(input);
  }

  lemma EncodingBounds(out: seq<u8>, code: nat, write: nat, input: seq<u8>, read: nat)
    requires Encoding(out, code, write, input, read)
    ensures read <= |input| && code < write && write - code - 1 < 254 && code <= |out|
  {
  }

  // ---- the bounded decoder --------------------------------------------------

  /** What is written so far, followed by what the rest decodes to. */
  ghost predicate Decoding(out: seq<u8>, write: nat, input: seq<u8>, read: nat) {
    && write <= |out| && read <= |input|
    && DecodeFrom(input) == Prepended(out[..write], DecodeFrom(input[read..]))
  }

  /** Copies a block's bytes to the output. */
  method CopyBytes(input: seq<u8>, read: nat, count: nat, output: array<u8>, write: nat)
    requires read + count <= |input| && write + count <= output.Length
    modifies output
    ensures output[..write + count] == old(output[..write]) + input[read..read + count]
  {
    for k := 0 to count
      invariant output[..write + k] == old(output[..write]) + input[read..read + k]
    {
      output[write + k] := input[read + k];
      assert output[..write + k + 1] == output[..write + k] + [input[read + k]];
    }
  }

  lemma BlockRead(out: seq<u8>, write: nat, input: seq<u8>, read: nat, out': seq<u8>, write': nat)
    requires Decoding(out, write, input, read) && read < |input| && 0 < input[read] <= |input| - read
    requires var next := read + input[read];
             write' <= |out'| && out'[..write'] == out[..write] + input[read + 1..next] + BlockEnd(input[read], input[next..])
    ensures Decoding(out', write', input, read + input[read])
  {
    var e, next := input[read..], read + input[read];
    assert e[1..e[0]] == input[read + 1..next] && e[e[0]..] == input[next..];
    var front := input[read + 1..next] + BlockEnd(input[read], input[next..]);
    assert out'[..write'] == out[..write] + front;
    PrependTwice(out[..write], front, DecodeFrom(input[next..]));
  }

  lemma PrependTwice(a: seq<u8>, b: seq<u8>, rest: Option<seq<u8>>)
    ensures Prepended(a, Prepended(b, rest)) == Prepended(a + b, rest)
  {
    if rest.Some? { assert a + (b + rest.value) == a + b + rest.value; }
  }

  /** Anything longer than the buffer has already been found too long. */
  lemma BlockTooLong(out: seq<u8>, write: nat, input: seq<u8>, read: nat)
    requires Decoding(out, write, input, read) && read < |input| && 0 < input[read] <= |input| - read
    ensures var next := read + input[read];
            DecodeFrom(input).Some? ==>
              |DecodeFrom(input).value| >= write + input[read] - 1 + |BlockEnd(input[read], input[next..])|
  {
    var e, next := input[read..], read + input[read];
    assert e[1..e[0]] == input[read + 1..next] && e[e[0]..] == input[next..];
  }

  lemma BadBlock(out: seq<u8>, write: nat, input: seq<u8>, read: nat)
    requires Decoding(out, write, input, read) && read < |input| && (input[read] == 0 || input[read] > |input| - read)
    ensures DecodeFrom(input).None?
  {
  }

  /** Decodes into a buffer; succeeds exactly when the input decodes to something that fits,
      and then has written it. */
  method DecodeInto(input: seq<u8>, output: array<u8>) returns (length: Option<nat>)
    modifies output
    ensures length.Some? <==> Decode(input).Some? && |Decode(input).value| <= output.Length
    ensures length.Some? ==> length.value <= output.Length && Some(output[..length.value]) == Decode(input)
  {
    hide DecodeFrom, Decoding;
    if input == [] { return None; }
    var read, write := 0, 0;
    assert Decoding(output[..], 0, input, 0) by { DecodingStarts(output[..], input); }
    while read < |input|
      invariant read <= |input| && write <= output.Length && Decoding(output[..], write, input, read)
    {
      var code := input[read];
      ghost var out := output[..];
      if code == 0 || code - 1 > |input| - (read + 1) {
        BadBlock(out, write, input, read);
        return None;
      }
      BlockTooLong(out, write, input, read);
      if code - 1 > output.Length - write { return None; }
      CopyBytes(input, read + 1, code - 1, output, write);
      var next := read + code;
      var end := write + code - 1;
      assert output[..end] == out[..write] + input[read + 1..next];
      if code != 0xFF && next < |input| {
        if end >= output.Length { return None; }
        output[end] := 0;
        end := end + 1;
      }
      assert output[..][..end] == out[..write] + input[read + 1..next] + BlockEnd(code, input[next..]);
      BlockRead(out, write, input, read, output[..], end);
      read, write := next, end;
    }
    DecodingEnds(output[..], write, input);
    length := Some(write);
  }

  lemma DecodingStarts(out: seq<u8>, input: seq<u8>)
    ensures Decoding(out, 0, input, 0)
  {
    assert input[0..] == input;
    PrependNothing(out[..0], DecodeFrom(input));
  }

  lemma PrependNothing(a: seq<u8>, rest: Option<seq<u8>>)
    requires a == []
    ensures Prepended(a, rest) == rest
  {
    if rest.Some? { assert a + rest.value == rest.value; }
  }

  lemma DecodingEnds(out: seq<u8>, write: nat, input: seq<u8>)
    requires Decoding(out, write, input, |input|)
    ensures DecodeFrom(input) == Some(out[..write])
  {
    assert input[|input|..] == [];
    assert out[..write] + [] == out[..write];
  }
}

/** `Sha224`: the streaming wrapper around the compression function, which is any
    function of the chaining state and a block. */
module Sha224s {
  import opened Sequences

  type Byte = n: nat | n < 256
  type Word = n: nat | n < 0x1_0000_0000

  const BLOCK: nat := 64
  const WORD64: nat := 0x1_0000_0000_0000_0000
  const MAX_LENGTH: nat := 0x2000_0000_0000_0000   // 2^61 bytes, 2^64 bits

  type State = s: seq<Word> | |s| == 8 witness [0, 0, 0, 0, 0, 0, 0, 0]

  type Compress = (State, seq<Byte>) -> State

  const INITIAL: State := [0xc1059ed8, 0x367cd507, 0x3070dd17, 0xf70e5939, 0xffc00b31, 0x68581511, 0x64f98fa7,
    0xbefa4fa4]

  // ---- where the initial words come from (section 5.3.2 of FIPS 180-4) ---------------------

  /** The ninth to the sixteenth prime. */
  const PRIMES: seq<nat> := [23, 29, 31, 37, 41, 43, 47, 53]

  /** `q` is the whole part of 2^64 times the square root of `p`. */
  predicate IsRoot(q: nat, p: nat) { q * q <= p * WORD64 * WORD64 < (q + 1) * (q + 1) }

  lemma RootIsUnique(q: nat, r: nat, p: nat)
    requires IsRoot(q, p) && IsRoot(r, p)
    ensures q == r
  {
    if q < r { SquareGrows(q + 1, r); }
    if r < q { SquareGrows(r + 1, q); }
  }

  lemma SquareGrows(a: nat, b: nat)
    requires a <= b
    ensures a * a <= b * b
  {
  }

  /** Each initial word is the second 32 bits of the fraction of a prime's square root. */
  lemma InitialWords(i: nat, q: nat)
    requires i < 8 && IsRoot(q, PRIMES[i])
    ensures INITIAL[i] == q % 0x1_0000_0000
  {
    var roots: seq<nat> := [0x4cbbb9d5dc1059ed8, 0x5629a292a367cd507, 0x59159015a3070dd17, 0x6152fecd8f70e5939,
      0x667332667ffc00b31, 0x68eb44a8768581511, 0x6db0c2e0d64f98fa7, 0x747b5481dbefa4fa4];
    RootIsUnique(q, roots[i], PRIMES[i]);
  }

  // ---- the digest, all at once (sections 5.1.1 and 6.3 of FIPS 180-4) ----------------------

  /** A number as `n` bytes, highest first. */
  function BigEndian(x: nat, n: nat): (bytes: seq<Byte>)
    ensures |bytes| == n
  {
    if n == 0 then [] else BigEndian(x / 256, n - 1) + [x % 256]
  }

  function Number(bytes: seq<Byte>): nat {
    if bytes == [] then 0 else Number(bytes[..|bytes| - 1]) * 256 + bytes[|bytes| - 1]
  }

  function Zeros(n: nat): (z: seq<Byte>)
    ensures |z| == n
  {
    if n == 0 then [] else Zeros(n - 1) + [0]
  }

  /** The fewest zeros that leave eight bytes in the last block. */
  function ZeroCount(length: nat): (k: nat)
    ensures k < BLOCK && (length + 1 + k) % BLOCK == 56
  {
    (119 - length % BLOCK) % BLOCK
  }

  function Padded(m: seq<Byte>): seq<Byte> {
    WithZeros(m, ZeroCount(|m|)) + BigEndian(|m| * 8, 8)
  }

  /** The message, one bit, and some zeros. */
  function WithZeros(m: seq<Byte>, k: nat): (p: seq<Byte>)
    ensures |p| == |m| + 1 + k
  {
    m + [0x80] + Zeros(k)
  }

  function Blocks(data: seq<Byte>): seq<seq<Byte>>
    requires |data| % BLOCK == 0
    decreases |data|
  {
    if data == [] then [] else [data[..BLOCK]] + Blocks(data[BLOCK..])
  }

  /** The first `n` words of the state, as bytes. */
  function OutputOf(state: State, n: nat): (out: seq<Byte>)
    requires n <= 8
    ensures |out| == 4 * n
  {
    if n == 0 then [] else OutputOf(state, n - 1) + BigEndian(state[n - 1], 4)
  }

  /** The digest is the first seven words. */
  function Output(state: State): seq<Byte> { OutputOf(state, 7) }

  lemma PaddedLength(m: seq<Byte>)
    ensures |Padded(m)| == |m| + 9 + ZeroCount(|m|) && |Padded(m)| % BLOCK == 0
  {
    EightMore(|m| + 1 + ZeroCount(|m|));
  }

  lemma EightMore(n: nat)
    requires n % BLOCK == 56
    ensures (n + 8) % BLOCK == 0
  {
  }

  /** The state once every block of the padded message is compressed. */
  function FinalState(compress: Compress, m: seq<Byte>): State {
    PaddedLength(m);
    Fold(compress, INITIAL, Blocks(Padded(m)))
  }

  function Digest(compress: Compress, m: seq<Byte>): seq<Byte> { Output(FinalState(compress, m)) }

  /** The octets hold the first words of a state, each with its highest octet first. */
  predicate HoldsWords(out: seq<Byte>, state: State, words: nat)
    requires words <= 8
  {
    |out| == 4 * words && forall w :: 0 <= w < words ==> WordAt(out, 4 * w) == state[w]
  }

  function WordAt(out: seq<Byte>, i: nat): nat
    requires i + 4 <= |out|
  {
    var a: nat, b: nat, c: nat := out[i], out[i + 1], out[i + 2];
    a * 0x100_0000 + b * 0x1_0000 + c * 0x100 + out[i + 3]
  }

  lemma FourBytes(x: Word)
    ensures WordAt(BigEndian(x, 4), 0) == x
  {
    var a, b, c := x / 256, x / 256 / 256, x / 256 / 256 / 256;
    assert BigEndian(a, 3) == BigEndian(b, 2) + [a % 256];
    assert BigEndian(b, 2) == BigEndian(c, 1) + [b % 256];
    assert BigEndian(c, 1) == BigEndian(c / 256, 0) + [c % 256];
  }

  /** What the octets of a state's words are, whatever way they were put together. */
  lemma {:induction false} OutputHoldsWords(state: State, n: nat)
    requires n <= 8
    ensures HoldsWords(OutputOf(state, n), state, n)
  {
    if n > 0 {
      OutputHoldsWords(state, n - 1);
      FourBytes(state[n - 1]);
      var before, last := OutputOf(state, n - 1), BigEndian(state[n - 1], 4);
      assert OutputOf(state, n) == before + last;
      forall w | 0 <= w < n ensures WordAt(before + last, 4 * w) == state[w] {
        if w < n - 1 { assert WordAt(before, 4 * w) == state[w]; }
      }
    }
  }

  function Power(n: nat): (p: nat)
    ensures p > 0
  {
    if n == 0 then 1 else 256 * Power(n - 1)
  }

  /** Big-endian bytes are read back. */
  lemma {:induction false} NumberBack(x: nat, n: nat)
    requires x < Power(n)
    ensures Number(BigEndian(x, n)) == x
  {
    if n > 0 {
      NumberBack(x / 256, n - 1);
      assert BigEndian(x, n)[..n - 1] == BigEndian(x / 256, n - 1);
    }
  }

  lemma PowerEight()
    ensures Power(8) == WORD64
  {
    assert Power(8) == 256 * Power(7) == 0x1_0000 * Power(6) == 0x100_0000 * Power(5) == 0x1_0000_0000 * Power(4);
    assert Power(4) == 256 * Power(3) == 0x1_0000 * Power(2) == 0x100_0000 * Power(1);
  }

  /** The padded message is whole blocks: the message, one bit, no more zeros than needed,
      and the number of its bits. */
  lemma PaddedIs(m: seq<Byte>)
    requires |m| < MAX_LENGTH
    ensures |Padded(m)| % BLOCK == 0 && |m| + 9 <= |Padded(m)| < |m| + 9 + BLOCK
    ensures Padded(m)[..|m| + 1] == m + [0x80]
    ensures forall i :: |m| < i < |Padded(m)| - 8 ==> Padded(m)[i] == 0
    ensures Number(Padded(m)[|Padded(m)| - 8..]) == |m| * 8
  {
    PaddedLength(m);
    var k := ZeroCount(|m|);
    var head, tail := m + [0x80], BigEndian(|m| * 8, 8);
    PowerEight();
    NumberBack(|m| * 8, 8);
    ZerosAre(k);
    Three(head, Zeros(k), tail);
  }

  lemma Three(head: seq<Byte>, zeros: seq<Byte>, tail: seq<Byte>)
    ensures var p := head + zeros + tail;
      && p[..|head|] == head && p[|p| - |tail|..] == tail
      && forall i :: |head| <= i < |p| - |tail| ==> p[i] == zeros[i - |head|]
  {
  }

  lemma {:induction false} ZerosAre(n: nat)
    ensures forall i :: 0 <= i < n ==> Zeros(n)[i] == 0
  {
    if n > 0 { ZerosAre(n - 1); }
  }

  // ---- blocks ---------------------------------------------------------------------------------

  function Flat(blocks: seq<seq<Byte>>): seq<Byte> {
    if blocks == [] then [] else Flat(blocks[..|blocks| - 1]) + blocks[|blocks| - 1]
  }

  predicate Whole(blocks: seq<seq<Byte>>) { forall i :: 0 <= i < |blocks| ==> |blocks[i]| == BLOCK }

  lemma FlatSnoc(blocks: seq<seq<Byte>>, b: seq<Byte>)
    ensures Flat(blocks + [b]) == Flat(blocks) + b
  {
    assert (blocks + [b])[..|blocks|] == blocks;
  }

  lemma {:induction false} FlatCons(b: seq<Byte>, blocks: seq<seq<Byte>>)
    ensures Flat([b] + blocks) == b + Flat(blocks)
    decreases |blocks|
  {
    if blocks == [] {
      assert [b] + blocks == [] + [b];
      FlatSnoc([], b);
      assert Flat([]) + b == b == b + [];
    } else {
      var init, last := blocks[..|blocks| - 1], blocks[|blocks| - 1];
      FlatCons(b, init);
      assert [b] + blocks == ([b] + init) + [last];
      FlatSnoc([b] + init, last);
      assert (b + Flat(init)) + last == b + (Flat(init) + last);
    }
  }

  /** Cutting what whole blocks make up gives the blocks back. */
  lemma {:induction false} BlocksOfFlat(blocks: seq<seq<Byte>>)
    requires Whole(blocks)
    ensures |Flat(blocks)| % BLOCK == 0 && Blocks(Flat(blocks)) == blocks
    decreases |blocks|
  {
    if blocks != [] {
      var rest := blocks[1..];
      BlocksOfFlat(rest);
      FlatCons(blocks[0], rest);
      assert blocks == [blocks[0]] + rest;
      assert Flat(blocks)[..BLOCK] == blocks[0] && Flat(blocks)[BLOCK..] == Flat(rest);
    }
  }

  lemma {:induction false} FlatLength(blocks: seq<seq<Byte>>)
    requires Whole(blocks)
    ensures |Flat(blocks)| == BLOCK * |blocks|
    decreases |blocks|
  {
    if blocks != [] { FlatLength(blocks[..|blocks| - 1]); }
  }

  /** The buffer holds what is over after whole blocks. */
  lemma UsedIs(blocks: seq<seq<Byte>>, buffer: seq<Byte>, n: nat)
    requires Whole(blocks) && |buffer| < BLOCK && |Flat(blocks)| + |buffer| == n
    ensures |buffer| == n % BLOCK
  {
    FlatLength(blocks);
  }

  /** The pad loop stops after the fewest zeros. */
  lemma PadDone(m: seq<Byte>, k: nat, blocks: seq<seq<Byte>>, buffer: seq<Byte>)
    requires Whole(blocks) && |buffer| < BLOCK && Flat(blocks) + buffer == WithZeros(m, k)
    requires k <= ZeroCount(|m|)
    ensures |buffer| == 56 <==> k == ZeroCount(|m|)
  {
    UsedIs(blocks, buffer, |m| + 1 + k);
    NotYet(|m| + 1, k, ZeroCount(|m|));
  }

  lemma NotYet(n: nat, k: nat, all: nat)
    requires k <= all < BLOCK && (n + all) % BLOCK == 56
    ensures (n + k) % BLOCK == 56 <==> k == all
  {
  }

  /** Once the padding is in, the compressed blocks are those of the padded message. */
  lemma FinishedIs(m: seq<Byte>, blocks: seq<seq<Byte>>, buffer: seq<Byte>)
    requires Whole(blocks) && |buffer| < BLOCK && Flat(blocks) + buffer == Padded(m)
    ensures |Padded(m)| % BLOCK == 0 && Blocks(Padded(m)) == blocks
  {
    PaddedLength(m);
    UsedIs(blocks, buffer, |Padded(m)|);
    assert Flat(blocks) + [] == Flat(blocks);
    BlocksOfFlat(blocks);
  }

  /** A right shift by whole bytes. */
  function Shifted(x: nat, bytes: nat): nat { if bytes == 0 then x else Shifted(x / 256, bytes - 1) }

  lemma {:induction false} BigEndianAt(x: nat, n: nat, i: nat)
    requires i < n
    ensures BigEndian(x, n)[i] == Shifted(x, n - 1 - i) % 256
  {
    if i < n - 1 { BigEndianAt(x / 256, n - 1, i); }
  }

  /** The shift loops that lay a number out as bytes. */
  method BytesOf(x: nat, n: nat) returns (bytes: seq<Byte>)
    ensures bytes == BigEndian(x, n)
  {
    bytes := [];
    for i := 0 to n
      invariant bytes == BigEndian(x, n)[..i]
    {
      BigEndianAt(x, n, i);
      bytes := bytes + [Shifted(x, n - 1 - i) % 256];
    }
  }

  method OutputBytes(state: State) returns (out: seq<Byte>)
    ensures out == Output(state)
  {
    out := [];
    for word := 0 to 7
      invariant out == OutputOf(state, word)
    {
      var bytes := BytesOf(state[word], 4);
      out := out + bytes;
    }
  }

  lemma NoZeros(m: seq<Byte>)
    ensures WithZeros(m, 0) == m + [0x80]
  {
  }

  lemma NothingYet(start: seq<Byte>, bytes: seq<Byte>)
    ensures start + bytes[..0] == start
  {
  }

  lemma Joined(start: seq<Byte>, bytes: seq<Byte>, at: nat, take: nat)
    requires at + take <= |bytes|
    ensures (start + bytes[..at]) + bytes[at..at + take] == start + bytes[..at + take]
  {
  }

  /** The length counter wraps at 64 bits. */
  function Wrapped(length: nat, more: nat, ghost total: nat): (r: nat)
    requires length == total % WORD64
    ensures r == (total + more) % WORD64
  {
    (length + more) % WORD64
  }

  /** `memcpy` into the buffer. */
  method Copy(buffer: array<Byte>, at: nat, bytes: seq<Byte>)
    requires at + |bytes| <= buffer.Length
    modifies buffer
    ensures buffer[..at + |bytes|] == old(buffer[..at]) + bytes
  {
    for i := 0 to |bytes|
      invariant buffer[..at] == old(buffer[..at]) && buffer[at..at + i] == bytes[..i]
    {
      buffer[at + i] := bytes[i];
    }
    assert buffer[..at + |bytes|] == buffer[..at] + buffer[at..at + |bytes|];
    assert bytes[..|bytes|] == bytes;
  }

  // ---- the streaming object ---------------------------------------------------------------------

  class Sha224 {
    const compress: Compress
    const buffer: array<Byte>
    var used: nat
    var length: nat              // 64 bits, wrapping
    var state: State

    ghost var blocks: seq<seq<Byte>>   // the blocks compressed so far

    ghost predicate Valid()
      reads this, buffer
    {
      && buffer.Length == BLOCK && used < BLOCK
      && Whole(blocks) && state == Fold(compress, INITIAL, blocks)
      && length == |Consumed()| % WORD64
    }

    /** Every byte taken so far. */
    ghost function Consumed(): seq<Byte>
      reads this, buffer
      requires buffer.Length == BLOCK && used <= BLOCK
    {
      Flat(blocks) + buffer[..used]
    }

    constructor (compress: Compress)
      ensures Valid() && Consumed() == [] && this.compress == compress && fresh(buffer)
    {
      this.compress := compress;
      buffer := new Byte[BLOCK](i => 0);
      used, length, state, blocks := 0, 0, INITIAL, [];
    }

    /** `update`: however the bytes are cut, they are taken in order. */
    method Update(bytes: seq<Byte>)
      requires Valid()
      modifies this, buffer
      ensures Valid() && Consumed() == old(Consumed()) + bytes
    {
      var at := 0;
      ghost var start := Consumed();
      NothingYet(start, bytes);
      length := Wrapped(length, |bytes|, |start|);
      while at < |bytes|
        invariant at <= |bytes| && buffer.Length == BLOCK && used < BLOCK
        invariant Whole(blocks) && state == Fold(compress, INITIAL, blocks)
        invariant Consumed() == start + bytes[..at] && length == (|start| + |bytes|) % WORD64
      {
        var take := if |bytes| - at < BLOCK - used then |bytes| - at else BLOCK - used;
        Take(bytes[at..at + take]);
        Joined(start, bytes, at, take);
        at := at + take;
      }
      assert bytes[..at] == bytes;
    }

    /** Some bytes into the buffer; a full buffer is compressed. */
    method Take(bytes: seq<Byte>)
      requires buffer.Length == BLOCK && used + |bytes| <= BLOCK && used < BLOCK
      requires Whole(blocks) && state == Fold(compress, INITIAL, blocks)
      modifies this`used, this`state, this`blocks, buffer
      ensures used < BLOCK && Whole(blocks) && state == Fold(compress, INITIAL, blocks)
      ensures Consumed() == old(Consumed()) + bytes
    {
      Copy(buffer, used, bytes);
      Associates(Flat(blocks), old(buffer[..used]), bytes);
      used := used + |bytes|;
      if used == BLOCK {
        state := compress(state, buffer[..]);
        FoldSnoc(compress, INITIAL, blocks, buffer[..]);
        FlatSnoc(blocks, buffer[..]);
        assert buffer[..BLOCK] == buffer[..];
        blocks := blocks + [buffer[..]];
        used := 0;
      }
    }

    /** `finish`: the padding, the bit count, and the first 28 bytes of the state. */
    method Finish() returns (out: seq<Byte>)
      requires Valid() && |Consumed()| < MAX_LENGTH
      modifies this, buffer
      ensures out == Digest(compress, old(Consumed()))
      ensures HoldsWords(out, FinalState(compress, old(Consumed())), 7)
    {
      ghost var m := Consumed();
      var bits := length * 8 % WORD64;
      assert bits == |m| * 8;
      Update([0x80]);
      PadZeros(m);
      var tail := BytesOf(bits, 8);
      Update(tail);
      FinishedIs(m, blocks, buffer[..used]);
      out := OutputBytes(state);
      OutputHoldsWords(state, 7);
    }

    /** The pad loop: one zero at a time until eight bytes are left in the block. */
    method PadZeros(ghost m: seq<Byte>)
      requires Valid() && Consumed() == m + [0x80]
      modifies this, buffer
      ensures Valid() && Consumed() == WithZeros(m, ZeroCount(|m|))
    {
      ghost var k := 0;
      NoZeros(m);
      PadDone(m, 0, blocks, buffer[..used]);
      while used != 56
        invariant Valid() && k <= ZeroCount(|m|) && Consumed() == WithZeros(m, k)
        invariant used == 56 <==> k == ZeroCount(|m|)
        decreases ZeroCount(|m|) - k
      {
        PadZero(m, k);
        k := k + 1;
      }
    }

    method PadZero(ghost m: seq<Byte>, ghost k: nat)
      requires Valid() && Consumed() == WithZeros(m, k) && k < ZeroCount(|m|)
      modifies this, buffer
      ensures Valid() && Consumed() == WithZeros(m, k + 1)
      ensures used == 56 <==> k + 1 == ZeroCount(|m|)
    {
      Update([0]);
      Associates(m + [0x80], Zeros(k), [0]);
      PadDone(m, k + 1, blocks, buffer[..used]);
    }
  }

  /** Any way of cutting a message into updates gives the digest of the whole. */
  method DigestOf(compress: Compress, parts: seq<seq<Byte>>) returns (out: seq<Byte>)
    requires |Joint(parts)| < MAX_LENGTH
    ensures out == Digest(compress, Joint(parts)) && HoldsWords(out, FinalState(compress, Joint(parts)), 7)
  {
    var hash := new Sha224(compress);
    for i := 0 to |parts|
      invariant hash.Valid() && hash.compress == compress && hash.Consumed() == Joint(parts[..i]) && fresh(hash)
        && fresh(hash.buffer)
    {
      JointSnoc(parts, i);
      hash.Update(parts[i]);
    }
    assert parts[..|parts|] == parts;
    out := hash.Finish();
  }

  function Joint(parts: seq<seq<Byte>>): seq<Byte> {
    if parts == [] then [] else Joint(parts[..|parts| - 1]) + parts[|parts| - 1]
  }

  lemma JointSnoc(parts: seq<seq<Byte>>, i: nat)
    requires i < |parts|
    ensures Joint(parts[..i + 1]) == Joint(parts[..i]) + parts[i]
  {
    assert parts[..i + 1][..i] == parts[..i];
  }
}

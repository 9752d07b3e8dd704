/** `encodeBase64` and `decodeBase64`, with the decoder's wrapping 32-bit accumulator. */
module Base64 {
  import opened Sequences

  type Byte = n: nat | n < 256

  const WORD32: nat := 0x1_0000_0000

  // ---- the alphabets --------------------------------------------------------------------

  /** The character of a digit, in the plain alphabet or the URL-safe one. */
  function DigitChar(d: nat, url: bool): char
    requires d < 64
  {
    if d < 26 then ('A' as nat + d) as char
    else if d < 52 then ('a' as nat + (d - 26)) as char
    else if d < 62 then ('0' as nat + (d - 52)) as char
    else if d == 62 then (if url then '-' else '+')
    else (if url then '_' else '/')
  }

  /** The digit of a character of either alphabet, -1 for any other. */
  function Digit(ch: char): (d: int)
    ensures -1 <= d < 64
  {
    if 'A' <= ch <= 'Z' then ch as int - 'A' as int
    else if 'a' <= ch <= 'z' then ch as int - 'a' as int + 26
    else if '0' <= ch <= '9' then ch as int - '0' as int + 52
    else if ch == '+' || ch == '-' then 62
    else if ch == '/' || ch == '_' then 63
    else -1
  }

  /** Both alphabets are read back, and the padding character is no digit. */
  lemma DigitBack(d: nat, url: bool)
    requires d < 64
    ensures Digit(DigitChar(d, url)) == d && DigitChar(d, url) != '=' && Digit('=') == -1
  {
  }

  const UPPER: string := "ABCDEFGHIJKLMNOPQRSTUVWXYZ"
  const LOWER: string := "abcdefghijklmnopqrstuvwxyz"
  const DIGITS: string := "0123456789"

  /** The alphabets of sections 4 and 5 of RFC 4648, in the order of their values. */
  function Alphabet(url: bool): (a: string)
    ensures |a| == 64
  {
    UPPER + (LOWER + (DIGITS + if url then "-_" else "+/"))
  }

  /** Each digit has the character at its place in the alphabet. */
  lemma AlphabetIs(d: nat, url: bool)
    requires d < 64
    ensures DigitChar(d, url) == Alphabet(url)[d]
  {
    if d < 26 { UpperAt(d); } else if d < 52 { LowerAt(d - 26); } else if d < 62 { DigitAt(d - 52); }
  }

  lemma UpperAt(i: nat)
    requires i < 26
    ensures UPPER[i] == ('A' as nat + i) as char
  {
  }

  lemma LowerAt(i: nat)
    requires i < 26
    ensures LOWER[i] == ('a' as nat + i) as char
  {
  }

  lemma DigitAt(i: nat)
    requires i < 10
    ensures DIGITS[i] == ('0' as nat + i) as char
  {
  }

  // ---- the decoder ------------------------------------------------------------------------

  function Pow(bits: nat): (p: nat)
    ensures p > 0
  {
    if bits == 0 then 1 else 2 * Pow(bits - 1)
  }

  /** The decoder's loop: the accumulator is shifted left by six, wraps at 32 bits, and
      gives a byte whenever eight bits are pending. */
  function DecodeFrom(accumulator: nat, bits: nat, input: string): seq<Byte>
    decreases |input|
  {
    if input == [] then [] else
    if Digit(input[0]) < 0 then DecodeFrom(accumulator, bits, input[1..]) else
    var acc := (accumulator * 64 + Digit(input[0])) % WORD32;
    if bits + 6 >= 8 then [acc / Pow(bits - 2) % 256] + DecodeFrom(acc, bits - 2, input[1..])
    else DecodeFrom(acc, bits + 6, input[1..])
  }

  function Decode(input: string): seq<Byte> { DecodeFrom(0, 0, input) }

  /** How many bits can be pending between characters. */
  predicate Pends(bits: nat) { bits == 0 || bits == 2 || bits == 4 || bits == 6 }

  /** A decoder that keeps the pending bits and nothing else. */
  function DecodePending(pending: nat, bits: nat, input: string): seq<Byte>
    requires Pends(bits) && pending < Pow(bits)
    decreases |input|
  {
    if input == [] then [] else
    if Digit(input[0]) < 0 then DecodePending(pending, bits, input[1..]) else
    var p := pending * 64 + Digit(input[0]);
    if bits + 6 >= 8 then
      Split(pending, Digit(input[0]), bits);
      [p / Pow(bits - 2)] + DecodePending(p % Pow(bits - 2), bits - 2, input[1..])
    else
      Pows();
      DecodePending(p, bits + 6, input[1..])
  }

  lemma Pows()
    ensures Pow(0) == 1 && Pow(2) == 4 && Pow(4) == 16 && Pow(6) == 64
  {
    assert Pow(6) == 2 * Pow(5) == 4 * Pow(4) == 8 * Pow(3) == 16 * Pow(2) == 32 * Pow(1);
  }

  lemma Split(pending: nat, d: nat, bits: nat)
    requires Pends(bits) && bits > 0 && pending < Pow(bits) && d < 64
    ensures (pending * 64 + d) / Pow(bits - 2) < 256 && (pending * 64 + d) % Pow(bits - 2) < Pow(bits - 2)
  {
    Pows();
  }

  /** A number known up to a multiple of 64, 256, 1024 or 4096 shows its low bits. */
  lemma LowBits(x: nat, high: int, p: nat)
    ensures p < 64 && x == 64 * high + p ==> x % 64 == p
    ensures p < 256 && x == 256 * high + p ==> x % 256 == p
  {
  }

  lemma LowBits4(x: nat, high: int, p: nat)
    requires p < 1024 && x == 1024 * high + p
    ensures x / 4 % 256 == p / 4 && x % 4 == p % 4
  {
    assert x / 4 == 256 * high + p / 4;
  }

  lemma LowBits16(x: nat, high: int, p: nat)
    requires p < 4096 && x == 4096 * high + p
    ensures x / 16 % 256 == p / 16 && x % 16 == p % 16
  {
    assert x / 16 == 256 * high + p / 16;
  }

  /** One digit: the wrapped accumulator shows the pending bits, and the byte read from it
      is the one they hold. */
  lemma WrapStep(acc: nat, d: nat, bits: nat)
    requires Pends(bits) && d < 64
    ensures var x := (acc * 64 + d) % WORD32; var p := acc % Pow(bits) * 64 + d;
      if bits == 0 then x % Pow(6) == p
      else x / Pow(bits - 2) % 256 == p / Pow(bits - 2) && x % Pow(bits - 2) == p % Pow(bits - 2)
  {
    Pows();
    var x, q := (acc * 64 + d) % WORD32, (acc * 64 + d) / WORD32;
    assert x == acc * 64 + d - WORD32 * q;
    if bits == 0 {
      LowBits(x, acc - 0x400_0000 * q, d);
    } else if bits == 2 {
      LowBits(x, acc / 4 - 0x100_0000 * q, acc % 4 * 64 + d);
    } else if bits == 4 {
      LowBits4(x, acc / 16 - 0x40_0000 * q, acc % 16 * 64 + d);
    } else {
      LowBits16(x, acc / 64 - 0x10_0000 * q, acc % 64 * 64 + d);
    }
  }

  /** The wrap loses nothing that is still to be read: the decoder is the one that keeps
      only the pending bits. */
  lemma {:induction false} WrapHarmless(accumulator: nat, bits: nat, input: string)
    requires Pends(bits)
    ensures DecodeFrom(accumulator, bits, input) == DecodePending(accumulator % Pow(bits), bits, input)
    decreases |input|
  {
    if input == [] {
    } else if Digit(input[0]) < 0 {
      WrapHarmless(accumulator, bits, input[1..]);
    } else {
      Pows();
      WrapStep(accumulator, Digit(input[0]), bits);
      WrapHarmless((accumulator * 64 + Digit(input[0])) % WORD32, if bits == 0 then 6 else bits - 2, input[1..]);
    }
  }

  /** The loop of `decodeBase64`. */
  method DecodeBase64(input: string) returns (out: seq<Byte>)
    ensures out == Decode(input)
  {
    out := [];
    var accumulator: nat, bits: nat := 0, 0;
    for i := 0 to |input|
      invariant Pends(bits) && Decode(input) == out + DecodeFrom(accumulator, bits, input[i..])
    {
      var digit := Digit(input[i]);
      assert input[i..][1..] == input[i + 1..];
      if digit >= 0 {
        ghost var was, bitsWere := accumulator, bits;
        accumulator := (accumulator * 64 + digit) % WORD32;
        bits := bits + 6;
        if bits >= 8 {
          bits := bits - 8;
          var byte: Byte := accumulator / Pow(bits) % 256;
          Appends(out, byte, DecodeFrom(accumulator, bits, input[i + 1..]));
          out := out + [byte];
        }
      }
    }
    assert out + [] == out;
  }

  lemma Appends(out: seq<Byte>, byte: Byte, rest: seq<Byte>)
    ensures out + ([byte] + rest) == (out + [byte]) + rest
  {
  }

  // ---- the encoder ------------------------------------------------------------------------

  /** The four digits of three bytes. */
  function Triple(a: Byte, b: Byte, c: Byte): nat { a * 0x1_0000 + b * 0x100 + c }

  function Quad(t: nat, k: nat): (d: nat)
    requires k < 4
    ensures d < 64
  {
    match k case 0 => t / 0x4_0000 % 64 case 1 => t / 0x1000 % 64 case 2 => t / 64 % 64 case 3 => t % 64
  }

  /** One group of `n` bytes: two characters, then one for each further byte and padding
      for each missing one. */
  function Group(t: nat, n: nat, url: bool): string {
    [DigitChar(Quad(t, 0), url), DigitChar(Quad(t, 1), url),
     if n > 1 then DigitChar(Quad(t, 2), url) else '=', if n > 2 then DigitChar(Quad(t, 3), url) else '=']
  }

  function FirstTriple(data: seq<Byte>): nat
    requires data != []
  {
    Triple(data[0], if |data| > 1 then data[1] else 0, if |data| > 2 then data[2] else 0)
  }

  function Padded(data: seq<Byte>, url: bool): string
    decreases |data|
  {
    if data == [] then "" else
    Group(FirstTriple(data), |data|, url) + (if |data| > 3 then Padded(data[3..], url) else "")
  }

  function Stripped(s: string): (r: string)
    ensures r == [] || r[|r| - 1] != '='
  {
    if s != [] && s[|s| - 1] == '=' then Stripped(s[..|s| - 1]) else s
  }

  function Encode(data: seq<Byte>, url: bool): string {
    if url then Stripped(Padded(data, true)) else Padded(data, false)
  }

  /** `encodeBase64` of a part of a buffer. */
  method EncodeBase64(data: seq<Byte>, begin: nat, end: nat, url: bool) returns (out: string)
    requires begin <= end <= |data|
    ensures out == Encode(data[begin..end], url)
  {
    out := "";
    var index := begin;
    ghost var part := data[begin..end];
    while index < end
      invariant begin <= index && Padded(part, url) == out + Remaining(data, index, end, url)
      decreases end - index
    {
      var second := if index + 1 < end then data[index + 1] else 0;
      var third := if index + 2 < end then data[index + 2] else 0;
      RemainingStep(data, index, end, url);
      var group := Group(Triple(data[index], second, third), end - index, url);
      Associates(out, group, Remaining(data, index + 3, end, url));
      out := out + group;
      index := index + 3;
    }
    NothingMore(out);
    if url { out := StripPadding(out); }
  }

  /** What is still to be written. */
  function Remaining(data: seq<Byte>, index: nat, end: nat, url: bool): string
    requires end <= |data|
  {
    if index < end then Padded(data[index..end], url) else ""
  }

  lemma RemainingStep(data: seq<Byte>, index: nat, end: nat, url: bool)
    requires index < end <= |data|
    ensures var second := if index + 1 < end then data[index + 1] else 0;
      var third := if index + 2 < end then data[index + 2] else 0;
      Remaining(data, index, end, url)
        == Group(Triple(data[index], second, third), end - index, url) + Remaining(data, index + 3, end, url)
  {
    var rest := data[index..end];
    if |rest| > 3 { assert rest[3..] == data[index + 3..end]; }
  }

  method StripPadding(s: string) returns (r: string)
    ensures r == Stripped(s)
  {
    r := s;
    while r != [] && r[|r| - 1] == '='
      invariant Stripped(r) == Stripped(s)
      decreases |r|
    {
      r := r[..|r| - 1];
    }
  }

  // ---- the round trip -----------------------------------------------------------------------

  /** The digits of three bytes hold the bytes: six bits and two, four and four, two and six. */
  lemma QuadBits(a: Byte, b: Byte, c: Byte)
    ensures var t := Triple(a, b, c);
      && Quad(t, 0) == a / 4 && Quad(t, 1) == a % 4 * 16 + b / 16 && Quad(t, 2) == b % 16 * 4 + c / 64
        && Quad(t, 3) == c % 64
  {
    FirstQuad(a, b, c);
    SecondQuad(a, b, c);
    ThirdQuad(a, b, c);
    FourthQuad(a * 0x400 + b * 4, c);
  }

  /** A group in letters: the bits of the bytes from the left, six at a time, and padding
      where there is no byte. */
  lemma GroupIs(a: Byte, b: Byte, c: Byte, n: nat, url: bool)
    ensures var s := Alphabet(url);
      Group(Triple(a, b, c), n, url) ==
        [s[a / 4], s[a % 4 * 16 + b / 16], if n > 1 then s[b % 16 * 4 + c / 64] else '=',
         if n > 2 then s[c % 64] else '=']
  {
    QuadBits(a, b, c);
    AlphabetIs(a / 4, url);
    AlphabetIs(a % 4 * 16 + b / 16, url);
    AlphabetIs(b % 16 * 4 + c / 64, url);
    AlphabetIs(c % 64, url);
  }

  lemma FirstQuad(a: Byte, b: Byte, c: Byte)
    ensures Triple(a, b, c) / 0x4_0000 % 64 == a / 4
  {
    assert Triple(a, b, c) / 0x4_0000 == a / 4;
  }

  lemma SecondQuad(a: Byte, b: Byte, c: Byte)
    ensures Triple(a, b, c) / 0x1000 % 64 == a % 4 * 16 + b / 16
  {
    assert Triple(a, b, c) / 0x1000 == a * 16 + b / 16;
    assert a * 16 + b / 16 == a / 4 * 64 + (a % 4 * 16 + b / 16);
  }

  lemma ThirdQuad(a: Byte, b: Byte, c: Byte)
    ensures Triple(a, b, c) / 64 % 64 == b % 16 * 4 + c / 64
  {
    assert Triple(a, b, c) / 64 == a * 0x400 + b * 4 + c / 64;
    assert a * 0x400 + b * 4 + c / 64 == (a * 16 + b / 16) * 64 + (b % 16 * 4 + c / 64);
  }

  lemma FourthQuad(n: nat, c: Byte)
    ensures (n * 64 + c) % 64 == c % 64
  {
  }

  /** One character, decoded when nothing is pending, and when something is. */
  lemma FirstDigit(ch: char, rest: string)
    requires Digit(ch) >= 0
    ensures Pow(0) == 1 && Pow(6) == 64 && DecodePending(0, 0, [ch] + rest) == DecodePending(Digit(ch), 6, rest)
  {
    Pows();
    assert ([ch] + rest)[1..] == rest;
  }

  lemma NextDigit(pending: nat, bits: nat, ch: char, rest: string)
    requires Pends(bits) && bits > 0 && pending < Pow(bits) && Digit(ch) >= 0
    ensures var p := pending * 64 + Digit(ch);
      && p / Pow(bits - 2) < 256 && p % Pow(bits - 2) < Pow(bits - 2)
      && DecodePending(pending, bits, [ch] + rest)
        == [p / Pow(bits - 2)] + DecodePending(p % Pow(bits - 2), bits - 2, rest)
  {
    Split(pending, Digit(ch), bits);
    assert ([ch] + rest)[1..] == rest;
  }

  /** Padding at the end is not read. */
  lemma {:induction false} PaddingIgnored(pending: nat, bits: nat, s: string)
    requires Pends(bits) && pending < Pow(bits)
    ensures DecodePending(pending, bits, s + ['=']) == DecodePending(pending, bits, s)
    decreases |s|
  {
    Pows();
    if s == [] {
      assert (s + ['='])[1..] == [];
    } else {
      assert (s + ['='])[1..] == s[1..] + ['='];
      var d := Digit(s[0]);
      if d < 0 {
        PaddingIgnored(pending, bits, s[1..]);
      } else if bits == 0 {
        PaddingIgnored(pending * 64 + d, 6, s[1..]);
      } else {
        Split(pending, d, bits);
        PaddingIgnored((pending * 64 + d) % Pow(bits - 2), bits - 2, s[1..]);
      }
    }
  }

  lemma {:induction false} StrippedDecodes(s: string)
    ensures Pow(0) == 1 && DecodePending(0, 0, Stripped(s)) == DecodePending(0, 0, s)
    decreases |s|
  {
    if s != [] && s[|s| - 1] == '=' {
      StrippedDecodes(s[..|s| - 1]);
      PaddingIgnored(0, 0, s[..|s| - 1]);
      assert s == s[..|s| - 1] + ['='];
    }
  }

  /** Two characters with these digits give a byte, three give two, four give three and
      leave nothing pending. */
  lemma TwoDecode(x: char, y: char, rest: string, a: Byte, b: Byte)
    requires Digit(x) == a / 4 && Digit(y) == a % 4 * 16 + b / 16
    ensures Pow(4) == 16 && DecodePending(0, 0, [x] + ([y] + rest)) == [a] + DecodePending(b / 16, 4, rest)
  {
    Pows();
    FirstDigit(x, [y] + rest);
    NextDigit(a / 4, 6, y, rest);
  }

  lemma ThreeDecode(x: char, y: char, z: char, rest: string, a: Byte, b: Byte, c: Byte)
    requires Digit(x) == a / 4 && Digit(y) == a % 4 * 16 + b / 16 && Digit(z) == b % 16 * 4 + c / 64
    ensures Pow(2) == 4 && DecodePending(0, 0, [x] + ([y] + ([z] + rest)))
      == [a] + ([b] + DecodePending(c / 64, 2, rest))
  {
    Pows();
    TwoDecode(x, y, [z] + rest, a, b);
    NextDigit(b / 16, 4, z, rest);
  }

  lemma FourDecode(x: char, y: char, z: char, w: char, rest: string, a: Byte, b: Byte, c: Byte)
    requires Digit(x) == a / 4 && Digit(y) == a % 4 * 16 + b / 16 && Digit(z) == b % 16 * 4 + c / 64
      && Digit(w) == c % 64
    ensures Pow(0) == 1
    ensures DecodePending(0, 0, [x] + ([y] + ([z] + ([w] + rest)))) == [a] + ([b] + ([c] + DecodePending(0, 0, rest)))
  {
    Pows();
    ThreeDecode(x, y, z, [w] + rest, a, b, c);
    NextDigit(c / 64, 2, w, rest);
  }

  lemma Chained<T>(x: T, y: T, z: T, w: T, rest: seq<T>)
    ensures [x, y, z, w] + rest == [x] + ([y] + ([z] + ([w] + rest)))
    ensures [x, y, z] + rest == [x] + ([y] + ([z] + rest))
    ensures [x, y] == [x] + ([y] + []) && [x, y, z] == [x] + ([y] + ([z] + []))
    ensures [x, y, z, w] == [x, y, z] + [w] && [x, y, z] == [x, y] + [z]
  {
  }

  /** A full group gives back its bytes and leaves nothing pending. */
  lemma GroupDecodes(a: Byte, b: Byte, c: Byte, n: nat, url: bool, rest: string)
    requires n >= 3
    ensures Pow(0) == 1
    ensures DecodePending(0, 0, Group(Triple(a, b, c), n, url) + rest) == [a, b, c] + DecodePending(0, 0, rest)
  {
    var t := Triple(a, b, c);
    QuadBits(a, b, c);
    var x, y := DigitChar(Quad(t, 0), url), DigitChar(Quad(t, 1), url);
    var z, w := DigitChar(Quad(t, 2), url), DigitChar(Quad(t, 3), url);
    DigitBack(Quad(t, 0), url);
    DigitBack(Quad(t, 1), url);
    DigitBack(Quad(t, 2), url);
    DigitBack(Quad(t, 3), url);
    FourDecode(x, y, z, w, rest, a, b, c);
    Chained(x, y, z, w, rest);
    Chained(a, b, c, a, DecodePending(0, 0, rest));
  }

  /** The last group of one or two bytes. */
  lemma LastOne(a: Byte, url: bool)
    ensures Pow(0) == 1 && DecodePending(0, 0, Group(Triple(a, 0, 0), 1, url)) == [a]
  {
    Pows();
    var t := Triple(a, 0, 0);
    QuadBits(a, 0, 0);
    var x, y := DigitChar(Quad(t, 0), url), DigitChar(Quad(t, 1), url);
    DigitBack(Quad(t, 0), url);
    DigitBack(Quad(t, 1), url);
    TwoDecode(x, y, [], a, 0);
    Chained(x, y, '=', '=', []);
    PaddingIgnored(0, 0, [x, y]);
    PaddingIgnored(0, 0, [x, y, '=']);
  }

  lemma LastTwo(a: Byte, b: Byte, url: bool)
    ensures Pow(0) == 1 && DecodePending(0, 0, Group(Triple(a, b, 0), 2, url)) == [a, b]
  {
    Pows();
    var t := Triple(a, b, 0);
    QuadBits(a, b, 0);
    var x, y, z := DigitChar(Quad(t, 0), url), DigitChar(Quad(t, 1), url), DigitChar(Quad(t, 2), url);
    DigitBack(Quad(t, 0), url);
    DigitBack(Quad(t, 1), url);
    DigitBack(Quad(t, 2), url);
    ThreeDecode(x, y, z, [], a, b, 0);
    Chained(x, y, z, '=', []);
    PaddingIgnored(0, 0, [x, y, z]);
  }

  lemma {:induction false} PaddedDecodes(data: seq<Byte>, url: bool)
    ensures Pow(0) == 1 && DecodePending(0, 0, Padded(data, url)) == data
    decreases |data|
  {
    if data == [] {
    } else if |data| == 1 {
      LastOne(data[0], url);
      NothingMore(Group(FirstTriple(data), 1, url));
    } else if |data| == 2 {
      LastTwo(data[0], data[1], url);
      NothingMore(Group(FirstTriple(data), 2, url));
    } else {
      var rest := if |data| > 3 then data[3..] else [];
      GroupDecodes(data[0], data[1], data[2], |data|, url, Padded(rest, url));
      PaddedDecodes(rest, url);
      assert data == [data[0], data[1], data[2]] + rest;
    }
  }

  /** Decoding an encoding gives the bytes back, in either alphabet. */
  lemma RoundTrip(data: seq<Byte>, url: bool)
    ensures Decode(Encode(data, url)) == data
  {
    WrapHarmless(0, 0, Encode(data, url));
    PaddedDecodes(data, url);
    if url { StrippedDecodes(Padded(data, true)); }
  }

  /** The groups of `n` bytes, and how many bytes the last of them lacks. */
  function Groups(n: nat): nat { if n == 0 then 0 else if n <= 3 then 1 else 1 + Groups(n - 3) }

  function Lacks(n: nat): nat { if n == 0 then 0 else if n <= 3 then 3 - n else Lacks(n - 3) }

  lemma {:induction false} GroupsIs(n: nat)
    ensures Groups(n) == (n + 2) / 3 && Groups(n) * 4 - Lacks(n) == (n * 4 + 2) / 3
  {
    if n > 3 { GroupsIs(n - 3); }
  }

  lemma {:induction false} PaddedLength(data: seq<Byte>, url: bool)
    ensures |Padded(data, url)| == Groups(|data|) * 4
    decreases |data|
  {
    if |data| > 3 { PaddedLength(data[3..], url); }
  }

  predicate AllDigits(s: string) { forall i :: 0 <= i < |s| ==> Digit(s[i]) >= 0 }

  /** The URL-safe text is digits only. */
  lemma UrlSafeUnpadded(data: seq<Byte>)
    ensures AllDigits(Encode(data, true))
  {
    if data != [] {
      var head, n := PaddedSplit(data, true);
      StripsPads(head, n);
    }
  }

  /**
    * Neither alphabet outgrows the reserved room: the plain text fills it, and the URL-safe text falls short of it by
    * the one or two characters of padding that a partial group would have had.
    */
  lemma EncodedLength(data: seq<Byte>)
    ensures |Encode(data, false)| == (|data| + 2) / 3 * 4
    ensures |Encode(data, true)| == (|data| * 4 + 2) / 3
  {
    PaddedLength(data, false);
    PaddedLength(data, true);
    GroupsIs(|data|);
    if data != [] {
      var head, n := PaddedSplit(data, true);
      StripsPads(head, n);
      PadsLength(n);
    }
  }

  lemma {:induction false} PadsLength(n: nat)
    ensures |Pads(n)| == n
  {
    if n > 0 { PadsLength(n - 1); }
  }

  function Pads(n: nat): string { if n == 0 then "" else Pads(n - 1) + ['='] }

  /** Padding stands only at the end. */
  lemma {:induction false} PaddedSplit(data: seq<Byte>, url: bool) returns (head: string, n: nat)
    requires data != []
    ensures Padded(data, url) == head + Pads(n) && AllDigits(head) && head != []
    ensures n == Lacks(|data|)
    decreases |data|
  {
    var g := FirstGroup(data, url);
    if |data| > 3 {
      var more;
      more, n := PaddedSplit(data[3..], url);
      head := g + more;
      Associates(g, more, Pads(n));
    } else {
      n := 3 - |data|;
      head := g[..4 - n];
      NothingMore(g);
    }
  }

  lemma FirstGroup(data: seq<Byte>, url: bool) returns (g: string)
    requires data != []
    ensures |g| == 4 && Padded(data, url) == g + if |data| > 3 then Padded(data[3..], url) else ""
    ensures |data| >= 3 ==> AllDigits(g)
    ensures |data| <= 3 ==> g == g[..|data| + 1] + Pads(3 - |data|) && AllDigits(g[..|data| + 1])
  {
    var t := FirstTriple(data);
    g := Group(t, |data|, url);
    GroupDigits(t, url);
    if |data| <= 3 { GroupPads(g, |data|); }
  }

  lemma GroupPads(g: string, m: nat)
    requires |g| == 4 && 0 < m <= 3
    requires (m < 3 ==> g[3] == '=') && (m < 2 ==> g[2] == '=')
    ensures g == g[..m + 1] + Pads(3 - m)
  {
    assert Pads(0) == "" && Pads(1) == ['='] && Pads(2) == ['=', '='];
  }

  lemma GroupDigits(t: nat, url: bool)
    ensures forall k :: 0 <= k < 4 ==> Digit(DigitChar(Quad(t, k), url)) >= 0
  {
    forall k | 0 <= k < 4 ensures Digit(DigitChar(Quad(t, k), url)) >= 0 { DigitBack(Quad(t, k), url); }
  }

  lemma {:induction false} StripsPads(head: string, n: nat)
    requires AllDigits(head) && head != []
    ensures Stripped(head + Pads(n)) == head
  {
    if n == 0 {
      assert head + "" == head;
      assert Digit('=') == -1;
    } else {
      StripsPads(head, n - 1);
      assert (head + Pads(n))[..|head + Pads(n)| - 1] == head + Pads(n - 1);
    }
  }
}

/** Octet strings, as the C++ side keeps them in `std::string`: a Dafny `string`
    whose characters stand for octets. */
module Bytes {

  const CRLF: string := "\r\n"

  /** `pat` occurs in `s` at index `i`. */
  predicate At(s: string, pat: string, i: int) {
    0 <= i && i + |pat| <= |s| && s[i..i + |pat|] == pat
  }

  /** `s.find(pat, from)`; -1 stands for `npos`. */
  function IndexOf(s: string, pat: string, from: nat): (r: int)
    ensures r < 0 ==> r == -1 && forall k: int :: from <= k ==> !At(s, pat, k)
    ensures r >= 0 ==> from <= r && At(s, pat, r) && forall k: int :: from <= k < r ==> !At(s, pat, k)
    decreases |s| - from
  {
    if from + |pat| > |s| then -1
    else if s[from..from + |pat|] == pat then from
    else IndexOf(s, pat, from + 1)
  }

  /** The postcondition of `IndexOf` determines its answer. */
  lemma IndexOfIs(s: string, pat: string, from: nat, r: nat)
    requires from <= r && At(s, pat, r)
    requires forall k: int :: from <= k < r ==> !At(s, pat, k)
    ensures IndexOf(s, pat, from) == r
  {
    var e := IndexOf(s, pat, from);
    assert At(s, pat, r);
  }

  /** Whether `pat` occurs at `k` depends only on the bytes before `k + |pat|`. */
  lemma AtLocal(s: string, t: string, pat: string, k: int, n: nat)
    requires n <= |s| && n <= |t| && s[..n] == t[..n]
    requires 0 <= k && k + |pat| <= n
    ensures At(s, pat, k) == At(t, pat, k)
  {
    assert s[k..k + |pat|] == s[..n][k..k + |pat|];
    assert t[k..k + |pat|] == t[..n][k..k + |pat|];
  }

  /** Only the bytes up to the end of a match matter to where the first match is. */
  lemma IndexOfLocal(s: string, t: string, pat: string, from: nat, e: nat)
    requires IndexOf(s, pat, from) == e
    requires e + |pat| <= |s| && e + |pat| <= |t| && s[..e + |pat|] == t[..e + |pat|]
    ensures IndexOf(t, pat, from) == e
  {
    forall k: int | from <= k <= e
      ensures At(s, pat, k) == At(t, pat, k)
    {
      AtLocal(s, t, pat, k, e + |pat|);
    }
    assert At(t, pat, e);
    IndexOfIs(t, pat, from, e);
  }

  /** A match that appears only after more bytes arrive ends beyond the old bytes. */
  lemma IndexOfLater(s: string, more: string, pat: string, from: nat)
    requires IndexOf(s, pat, from) < 0
    ensures IndexOf(s + more, pat, from) < 0 || IndexOf(s + more, pat, from) + |pat| > |s|
  {
    var e := IndexOf(s + more, pat, from);
    if e >= 0 && e + |pat| <= |s| {
      assert (s + more)[e..e + |pat|] == s[e..e + |pat|];
      assert At(s, pat, e);
    }
  }

  /** Concatenation of a list of pieces. */
  function Concat(pieces: seq<string>): string {
    if pieces == [] then "" else pieces[0] + Concat(pieces[1..])
  }

  lemma {:induction false} ConcatAppend(a: seq<string>, b: seq<string>)
    ensures Concat(a + b) == Concat(a) + Concat(b)
  {
    if a == [] {
      assert a + b == b;
    } else {
      assert (a + b)[1..] == a[1..] + b;
      ConcatAppend(a[1..], b);
    }
  }

  predicate IsDigit(c: char) { '0' <= c <= '9' }

  /** `std::to_chars` and `Number.toString` in base 10 or 16. */
  function DigitChar(d: nat): (c: char)
    requires d < 16
    ensures if d < 10 then IsDigit(c) else 'a' <= c <= 'f'
  {
    if d < 10 then '0' + d as char else 'a' + (d - 10) as char
  }

  function Print(n: nat, base: nat): string
    requires base == 10 || base == 16
  {
    if n < base then [DigitChar(n)] else Print(n / base, base) + [DigitChar(n % base)]
  }

  predicate AllDigits(s: string, base: nat) {
    forall i :: 0 <= i < |s| ==> IsDigit(s[i]) || (base == 16 && 'a' <= s[i] <= 'f')
  }

  lemma {:induction false} PrintDigits(n: nat, base: nat)
    requires base == 10 || base == 16
    ensures Print(n, base) != "" && AllDigits(Print(n, base), base)
  {
    if n >= base { PrintDigits(n / base, base); }
  }
}

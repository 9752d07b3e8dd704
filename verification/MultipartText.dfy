/** The text side of `multipart/form-data`: header parameters, quoting, and the search
    for a boundary. Strings are JavaScript strings; `toLowerCase` is modelled on ASCII. */
module MultipartText {
  import opened Sequences
  import opened Bytes
  import opened Wrappers

  function LowerChar(c: char): char { if 'A' <= c <= 'Z' then c - 'A' + 'a' else c }

  function Lower(s: string): (r: string)
    ensures |r| == |s| && forall i :: 0 <= i < |s| ==> r[i] == LowerChar(s[i])
  {
    seq(|s|, i requires 0 <= i < |s| => LowerChar(s[i]))
  }

  /** White space as `trim` sees it. */
  predicate IsSpace(c: char) {
    || c == ' ' || '\t' <= c <= '\r' || c as int == 0xA0 || c as int == 0x1680 || 0x2000 <= c as int <= 0x200A
    || c as int == 0x2028 || c as int == 0x2029 || c as int == 0x202F || c as int == 0x205F || c as int == 0x3000
    || c as int == 0xFEFF
  }

  function TrimLeft(s: string): string { if s != "" && IsSpace(s[0]) then TrimLeft(s[1..]) else s }

  function TrimRight(s: string): string {
    if s != "" && IsSpace(s[|s| - 1]) then TrimRight(s[..|s| - 1]) else s
  }

  function Trim(s: string): string { TrimRight(TrimLeft(s)) }

  predicate Trimmed(s: string) { s == "" || (!IsSpace(s[0]) && !IsSpace(s[|s| - 1])) }

  lemma TrimOf(s: string)
    requires Trimmed(s)
    ensures Trim(s) == s && Trim(" " + s) == s
  {
    assert (" " + s)[1..] == s;
  }

  // ---- quoting ------------------------------------------------------------------------------

  /** `value.split(c).join(text)` */
  function Replaced(s: string, c: char, text: string): string {
    if s == "" then "" else (if s[0] == c then text else [s[0]]) + Replaced(s[1..], c, text)
  }

  /** `escapeMultipartQuoted` */
  function EscapeQuoted(s: string): string {
    Replaced(Replaced(Replaced(Replaced(s, '\\', "\\\\"), '"', "\\\""), '\r', "%0D"), '\n', "%0A")
  }

  /** Line breaks, percent-coded. */
  function PercentBreaks(s: string): string { Replaced(Replaced(s, '\r', "%0D"), '\n', "%0A") }

  predicate NoBreak(s: string) { '\r' !in s && '\n' !in s }

  /** What one character is quoted as. */
  function QuotedChar(c: char): string {
    if c == '\\' then "\\\\" else if c == '"' then "\\\"" else if c == '\r' then "%0D" else if c == '\n' then "%0A"
      else [c]
  }

  lemma {:induction false} ReplacedAppend(a: string, b: string, c: char, text: string)
    ensures Replaced(a + b, c, text) == Replaced(a, c, text) + Replaced(b, c, text)
  {
    if a == "" {
      assert a + b == b;
    } else {
      assert (a + b)[1..] == a[1..] + b;
      ReplacedAppend(a[1..], b, c, text);
    }
  }

  lemma EscapeAppend(a: string, b: string)
    ensures EscapeQuoted(a + b) == EscapeQuoted(a) + EscapeQuoted(b)
  {
    ReplacedAppend(a, b, '\\', "\\\\");
    var a1, b1 := Replaced(a, '\\', "\\\\"), Replaced(b, '\\', "\\\\");
    ReplacedAppend(a1, b1, '"', "\\\"");
    var a2, b2 := Replaced(a1, '"', "\\\""), Replaced(b1, '"', "\\\"");
    ReplacedAppend(a2, b2, '\r', "%0D");
    ReplacedAppend(Replaced(a2, '\r', "%0D"), Replaced(b2, '\r', "%0D"), '\n', "%0A");
  }

  /** A replacement leaves alone what it does not look for. */
  lemma {:induction false} ReplacedNone(s: string, c: char, text: string)
    requires c !in s
    ensures Replaced(s, c, text) == s
  {
    if s != "" { ReplacedNone(s[1..], c, text); }
  }

  lemma ReplacedOne(c: char, text: string)
    ensures Replaced([c], c, text) == text
  {
    assert [c][1..] == "";
    assert text + "" == text;
  }

  lemma EscapeChar(c: char)
    ensures EscapeQuoted([c]) == QuotedChar(c)
    ensures PercentBreaks([c]) == if c == '\r' then "%0D" else if c == '\n' then "%0A" else [c]
  {
    var a := Replaced([c], '\\', "\\\\");
    if c == '\\' { ReplacedOne(c, "\\\\"); } else { ReplacedNone([c], '\\', "\\\\"); }
    var b := Replaced(a, '"', "\\\"");
    if c == '"' { ReplacedOne(c, "\\\""); } else { ReplacedNone(a, '"', "\\\""); }
    var d := Replaced(b, '\r', "%0D");
    if c == '\r' { ReplacedOne(c, "%0D"); } else { ReplacedNone(b, '\r', "%0D"); ReplacedNone([c], '\r', "%0D"); }
    if c == '\n' { ReplacedOne(c, "%0A"); } else {
      ReplacedNone(d, '\n', "%0A");
      ReplacedNone(if c == '\r' then "%0D" else [c], '\n', "%0A");
    }
  }

  /** Quoting leaves no line break, and taking it off gives the text with its line
      breaks percent-coded. */
  lemma {:induction false} EscapedNoBreak(s: string)
    ensures NoBreak(EscapeQuoted(s))
  {
    if s == "" {
    } else {
      assert s == [s[0]] + s[1..];
      EscapeAppend([s[0]], s[1..]);
      EscapeChar(s[0]);
      EscapedNoBreak(s[1..]);
    }
  }

  lemma BreaksCons(c: char, s: string)
    ensures PercentBreaks([c] + s) == PercentBreaks([c]) + PercentBreaks(s)
  {
    ReplacedAppend([c], s, '\r', "%0D");
    ReplacedAppend(Replaced([c], '\r', "%0D"), Replaced(s, '\r', "%0D"), '\n', "%0A");
  }

  lemma NoBreakKept(s: string)
    requires NoBreak(s)
    ensures PercentBreaks(s) == s
  {
    ReplacedNone(s, '\r', "%0D");
    ReplacedNone(s, '\n', "%0A");
  }

  /** A percent-coded break makes a text longer. */
  lemma {:induction false} BreakChanges(s: string)
    ensures |PercentBreaks(s)| >= |s| && (!NoBreak(s) ==> |PercentBreaks(s)| > |s|)
  {
    if s != "" {
      assert s == [s[0]] + s[1..];
      BreaksCons(s[0], s[1..]);
      EscapeChar(s[0]);
      BreakChanges(s[1..]);
    }
  }

  // ---- parameters ---------------------------------------------------------------------------

  /** A quoted value after its opening quote, and what follows the closing one. */
  function Quoted(s: string): (r: (string, string))
    ensures |r.1| <= |s|
    decreases |s|
  {
    if s == "" then ("", "")
    else if s[0] == '"' then ("", s[1..])
    else if s[0] == '\\' && |s| > 1 then var (v, rest) := Quoted(s[2..]); ([s[1]] + v, rest)
    else var (v, rest) := Quoted(s[1..]); ([s[0]] + v, rest)
  }

  /** What follows the separators. */
  function Skipped(h: string): (r: string)
    ensures |r| <= |h|
  {
    if h != "" && (h[0] == ';' || h[0] == ' ' || h[0] == '\t') then Skipped(h[1..]) else h
  }

  /** A value after its `=`: quoted, or up to the next semicolon. */
  function ValueOf(s: string): (r: (string, string))
    ensures |r.1| <= |s|
  {
    if s != "" && s[0] == '"' then Quoted(s[1..]) else
    var end := IndexOf(s, ";", 0);
    if end < 0 then (Trim(s), "") else (Trim(s[..end]), s[end + 1..])
  }

  /** What follows the next semicolon. */
  function AfterSemicolon(s: string): (r: string)
    ensures |r| <= |s|
  {
    var next := IndexOf(s, ";", 0);
    if next < 0 then "" else s[next + 1..]
  }

  /** What stands at the head of a header: nothing more, a segment without a value, or a
      name and the text behind its `=`. */
  datatype Piece = NoMore | Bare(rest: string) | Named(name: string, rest: string)

  function PieceAt(s: string): (p: Piece)
    ensures p.NoMore? || |p.rest| < |s|
  {
    PieceBy(s, IndexOf(s, "=", 0), IndexOf(s, ";", 0))
  }

  /** The same, its `=` sign and its semicolon found. */
  function PieceBy(s: string, equals: int, semicolon: int): (p: Piece)
    requires equals < |s| && semicolon < |s|
    ensures p.NoMore? || |p.rest| < |s|
  {
    if equals < 0 then NoMore
    else if 0 <= semicolon < equals then Bare(s[semicolon + 1..])
    else Named(Lower(Trim(s[..equals])), s[equals + 1..])
  }

  function PieceOf(h: string): (p: Piece)
    ensures p.NoMore? || |p.rest| < |h|
  {
    PieceAt(Skipped(h))
  }

  /** `multipartParameter` on what is left of a header. */
  function Parameter(h: string, wanted: string): Option<string>
    decreases |h|
  {
    match PieceOf(h)
    case NoMore => None
    case Bare(rest) => Parameter(rest, wanted)
    case Named(name, tail) =>
      var (value, rest) := ValueOf(tail);
      if name == Lower(wanted) then Some(value) else Parameter(AfterSemicolon(rest), wanted)
  }

  /** Reading a quoted text gives it back, up to its line breaks. */
  lemma {:induction false} QuotedBack(s: string, rest: string)
    ensures Quoted(EscapeQuoted(s) + "\"" + rest) == (PercentBreaks(s), rest)
    decreases |s|
  {
    if s == "" {
      assert EscapeQuoted(s) + "\"" + rest == "\"" + rest;
      assert ("\"" + rest)[1..] == rest;
    } else {
      var c, t := s[0], s[1..];
      assert s == [c] + t;
      EscapeAppend([c], t);
      EscapeChar(c);
      BreaksCons(c, t);
      QuotedBack(t, rest);
      var tail := EscapeQuoted(t) + "\"" + rest;
      assert EscapeQuoted(s) + "\"" + rest == QuotedChar(c) + tail;
      QuotedCons(c, tail);
    }
  }

  lemma QuotedCons(c: char, tail: string)
    ensures Quoted(QuotedChar(c) + tail) == (PercentBreaks([c]) + Quoted(tail).0, Quoted(tail).1)
  {
    EscapeChar(c);
    var s := QuotedChar(c) + tail;
    if c == '\\' || c == '"' {
      assert s[2..] == tail && s[0] == '\\' && s[1] == c;
    } else if c == '\r' || c == '\n' {
      QuotedBreak(if c == '\r' then 'D' else 'A', tail);
    } else {
      assert s[1..] == tail && s[0] == c;
    }
  }

  lemma QuotedBreak(d: char, tail: string)
    requires d == 'D' || d == 'A'
    ensures Quoted(['%', '0', d] + tail) == (['%', '0', d] + Quoted(tail).0, Quoted(tail).1)
  {
    QuotedPlain('%', ['0'] + ([d] + tail));
    QuotedPlain('0', [d] + tail);
    QuotedPlain(d, tail);
    ThreeFirst('%', '0', d, tail);
    ThreeFirst('%', '0', d, Quoted(tail).0);
  }

  lemma ThreeFirst(a: char, b: char, c: char, s: string)
    ensures [a, b, c] + s == [a] + ([b] + ([c] + s))
  {
  }

  lemma QuotedPlain(c: char, tail: string)
    requires c != '"' && c != '\\'
    ensures Quoted([c] + tail) == ([c] + Quoted(tail).0, Quoted(tail).1)
  {
    assert ([c] + tail)[1..] == tail;
  }

  /** A parameter name that stands for itself. */
  predicate Plain(key: string) {
    && key != "" && Trimmed(key) && Lower(key) == key
    && '=' !in key && ';' !in key && '"' !in key && key[0] != '\t'
  }

  lemma FirstOf(s: string, c: char, i: nat)
    requires i < |s| && s[i] == c && c !in s[..i]
    ensures IndexOf(s, [c], 0) == i
  {
    assert At(s, [c], i);
    forall k: int | 0 <= k < i ensures !At(s, [c], k) { assert s[k] == s[..i][k]; }
    IndexOfIs(s, [c], 0, i);
  }

  lemma MatchOf(s: string, c: char, i: nat)
    requires At(s, [c], i)
    ensures s[i] == c
  {
    assert s[i..i + 1][0] == s[i];
  }

  /** The first `c` of a text is past a prefix without it. */
  lemma NotBefore(a: string, b: string, c: char)
    requires c !in a
    ensures IndexOf(a + b, [c], 0) < 0 || IndexOf(a + b, [c], 0) >= |a|
  {
    var i := IndexOf(a + b, [c], 0);
    if i >= 0 { MatchOf(a + b, c, i); }
  }

  /** A plain name before its value. */
  lemma PieceIs(key: string, tail: string)
    requires Plain(key)
    ensures PieceOf(key + ("=" + tail)) == Named(key, tail)
    ensures PieceOf(" " + (key + ("=" + tail))) == PieceOf(key + ("=" + tail))
  {
    var s := key + ("=" + tail);
    assert (" " + s)[1..] == s && s[0] == key[0] && !IsSpace(key[0]);
    assert key[0] in key;
    assert Skipped(s) == s && Skipped(" " + s) == s;
    assert s[..|key|] == key && s[|key|] == '=' && s[|key| + 1..] == tail;
    FirstOf(s, '=', |key|);
    SemicolonLater(key, "=" + tail);
    TrimOf(key);
  }

  /** A quoted parameter: it is the wanted one, or the search goes on behind it. */
  lemma ParameterHit(key: string, text: string, rest: string, wanted: string)
    requires Plain(key)
    ensures Parameter(" " + (key + ("=" + ("\"" + (EscapeQuoted(text) + "\"" + rest)))), wanted)
      == if key == Lower(wanted) then Some(PercentBreaks(text)) else Parameter(AfterSemicolon(rest), wanted)
  {
    var tail := "\"" + (EscapeQuoted(text) + "\"" + rest);
    PieceIs(key, tail);
    ValueQuoted(text, rest);
    ParameterNamed(" " + (key + ("=" + tail)), key, tail, wanted);
  }

  lemma ValueQuoted(text: string, rest: string)
    ensures ValueOf("\"" + (EscapeQuoted(text) + "\"" + rest)) == (PercentBreaks(text), rest)
  {
    var quoted := EscapeQuoted(text) + "\"" + rest;
    assert ("\"" + quoted)[1..] == quoted;
    QuotedBack(text, rest);
  }

  lemma ParameterNamed(h: string, name: string, tail: string, wanted: string)
    requires PieceOf(h) == Named(name, tail)
    ensures Parameter(h, wanted)
      == if name == Lower(wanted) then Some(ValueOf(tail).0) else Parameter(AfterSemicolon(ValueOf(tail).1), wanted)
  {
  }

  lemma SemicolonLater(key: string, tail: string)
    requires ';' !in key && tail != "" && tail[0] != ';'
    ensures IndexOf(key + tail, ";", 0) < 0 || IndexOf(key + tail, ";", 0) > |key|
  {
    NotBefore(key, tail, ';');
    var i := IndexOf(key + tail, ";", 0);
    if i >= 0 { MatchOf(key + tail, ';', i); }
  }

  // ---- the cursor loops -----------------------------------------------------------------------

  lemma AtShift(s: string, pat: string, from: nat, k: int)
    requires from <= |s| && k >= 0
    ensures At(s[from..], pat, k) == At(s, pat, from + k)
  {
    if from + k + |pat| <= |s| { assert s[from..][k..k + |pat|] == s[from + k..from + k + |pat|]; }
  }

  /** A search from a place is a search of what follows it. */
  lemma IndexShift(s: string, pat: string, from: nat)
    requires from <= |s|
    ensures var i := IndexOf(s[from..], pat, 0); IndexOf(s, pat, from) == if i < 0 then -1 else from + i
  {
    var i, j := IndexOf(s[from..], pat, 0), IndexOf(s, pat, from);
    forall k: int | k >= 0 ensures At(s[from..], pat, k) == At(s, pat, from + k) { AtShift(s, pat, from, k); }
    if j >= 0 { AtShift(s, pat, from, j - from); }
    if i >= 0 {
      forall k: int | from <= k < from + i ensures !At(s, pat, k) { assert !At(s[from..], pat, k - from); }
      IndexOfIs(s, pat, from, from + i);
    }
  }

  /** The loop that reads a quoted value. */
  method ReadQuoted(header: string, start: nat) returns (value: string, at: nat)
    requires start <= |header|
    ensures start <= at <= |header| && (value, header[at..]) == Quoted(header[start..])
  {
    value, at := "", start;
    assert "" + Quoted(header[at..]).0 == Quoted(header[at..]).0;
    while at < |header|
      invariant start <= at <= |header|
      invariant Quoted(header[start..]) == (value + Quoted(header[at..]).0, Quoted(header[at..]).1)
    {
      var ch := header[at];
      assert header[at..][1..] == header[at + 1..];
      if ch == '"' {
        assert value + "" == value;
        at := at + 1;
        return;
      }
      if ch == '\\' && at + 1 < |header| {
        assert header[at..][2..] == header[at + 2..];
        Associates(value, [header[at + 1]], Quoted(header[at + 2..]).0);
        value := value + [header[at + 1]];
        at := at + 2;
      } else {
        Associates(value, [ch], Quoted(header[at + 1..]).0);
        value := value + [ch];
        at := at + 1;
      }
    }
    assert header[at..] == "" && value + "" == value;
  }

  method SkipSeparators(header: string, start: nat) returns (at: nat)
    requires start <= |header|
    ensures start <= at <= |header| && header[at..] == Skipped(header[start..])
  {
    at := start;
    while at < |header| && (header[at] == ';' || header[at] == ' ' || header[at] == '\t')
      invariant start <= at <= |header| && Skipped(header[at..]) == Skipped(header[start..])
    {
      assert header[at..][1..] == header[at + 1..];
      at := at + 1;
    }
  }

  /** A value after its `=`. */
  method ReadValue(header: string, start: nat) returns (value: string, at: nat)
    requires start <= |header|
    ensures start <= at <= |header| && (value, header[at..]) == ValueOf(header[start..])
  {
    if start < |header| && header[start] == '"' {
      assert header[start..][1..] == header[start + 1..];
      value, at := ReadQuoted(header, start + 1);
      return;
    }
    IndexShift(header, ";", start);
    var end := IndexOf(header, ";", start);
    if end < 0 {
      assert header[|header|..] == "";
      return Trim(header[start..]), |header|;
    }
    assert header[start..][..end - start] == header[start..end]
      && header[start..][end - start + 1..] == header[end + 1..];
    value, at := Trim(header[start..end]), end + 1;
  }

  method ReadPiece(header: string, start: nat) returns (p: Piece, at: nat)
    requires start <= |header|
    ensures p == PieceOf(header[start..])
    ensures !p.NoMore? ==> start < at <= |header| && p.rest == header[at..]
  {
    var from := SkipSeparators(header, start);
    CutTells(header, from);
    var cut := ReadCut(header, from);
    p, at := PieceOfCut(header, cut), cut.at;
  }

  /** Where a segment is cut: the end of the header, its semicolon, or its `=` sign; and
      the place to go on at. */
  datatype Cut = AtEnd(at: nat) | AtSemicolon(at: nat) | AtEquals(from: nat, at: nat)

  predicate CutWithin(header: string, cut: Cut) {
    cut.at <= |header| && (!cut.AtEnd? ==> cut.at > 0) && (cut.AtEquals? ==> cut.from < cut.at)
  }

  function CutFrom(header: string, start: nat): (cut: Cut)
    requires start <= |header|
    ensures CutWithin(header, cut) && cut.at >= start && (!cut.AtEnd? ==> cut.at > start)
  {
    CutBy(start, IndexOf(header, "=", start), IndexOf(header, ";", start))
  }

  function CutBy(start: nat, equals: int, semicolon: int): Cut {
    if equals < 0 then AtEnd(start)
    else if 0 <= semicolon < equals then AtSemicolon(semicolon + 1)
    else AtEquals(start, equals + 1)
  }

  function PieceOfCut(header: string, cut: Cut): Piece
    requires CutWithin(header, cut)
  {
    match cut
    case AtEnd(_) => NoMore
    case AtSemicolon(at) => Bare(header[at..])
    case AtEquals(from, at) => Named(Lower(Trim(header[from..at - 1])), header[at..])
  }

  lemma CutTells(header: string, start: nat)
    requires start <= |header|
    ensures PieceOfCut(header, CutFrom(header, start)) == PieceAt(header[start..])
  {
    if start == 0 {
      assert header[0..] == header;
      CutTellsAll(header);
    } else {
      CutTellsLater(header, start);
    }
  }

  lemma CutTellsAll(header: string)
    ensures PieceOfCut(header, CutFrom(header, 0)) == PieceAt(header)
  {
    var equals := IndexOf(header, "=", 0);
    if equals >= 0 { FromStart(header, equals); }
  }

  lemma FromStart(s: string, e: nat)
    requires e <= |s|
    ensures s[0..e] == s[..e]
  {
  }

  lemma CutTellsLater(header: string, start: nat)
    requires 0 < start <= |header|
    ensures PieceOfCut(header, CutFrom(header, start)) == PieceAt(header[start..])
  {
    IndexShift(header, "=", start);
    IndexShift(header, ";", start);
    var equals, semicolon := IndexOf(header, "=", start), IndexOf(header, ";", start);
    if equals >= 0 { CutAt(header, start, equals); }
    if semicolon >= 0 { CutAt(header, start, semicolon); }
    PieceFromCut(header, start, header[start..], equals, semicolon);
  }

  lemma PieceFromCut(header: string, start: nat, s: string, equals: int, semicolon: int)
    requires start <= |header| && |s| == |header| - start
    requires equals < 0 || start <= equals < |header|
    requires semicolon < 0 || start <= semicolon < |header|
    requires equals >= 0 ==> s[..equals - start] == header[start..equals]
    requires equals >= 0 ==> s[equals - start + 1..] == header[equals + 1..]
    requires semicolon >= 0 ==> s[semicolon - start + 1..] == header[semicolon + 1..]
    ensures var cut := CutBy(start, equals, semicolon);
      CutWithin(header, cut) && PieceOfCut(header, cut)
        == PieceBy(s, if equals < 0 then -1 else equals - start, if semicolon < 0 then -1 else semicolon - start)
  {
  }

  method ReadCut(header: string, start: nat) returns (cut: Cut)
    requires start <= |header|
    ensures cut == CutFrom(header, start)
  {
    var equals := IndexOf(header, "=", start);
    if equals < 0 { return AtEnd(start); }
    var semicolon := IndexOf(header, ";", start);
    if semicolon >= 0 && semicolon < equals { return AtSemicolon(semicolon + 1); }
    cut := AtEquals(start, equals + 1);
  }

  lemma CutAt(s: string, at: nat, e: nat)
    requires at <= e < |s|
    ensures s[at..][..e - at] == s[at..e] && s[at..][e - at + 1..] == s[e + 1..]
  {
  }

  /** `multipartParameter` */
  method MultipartParameter(header: string, wanted: string) returns (found: Option<string>)
    ensures found == Parameter(header, wanted)
  {
    var at: nat := 0;
    assert header[0..] == header;
    while at < |header|
      invariant at <= |header| && Parameter(header[at..], wanted) == Parameter(header, wanted)
    {
      var piece;
      piece, at := ReadPiece(header, at);
      if piece.NoMore? { return None; }
      if piece.Named? {
        var value;
        value, at := ReadValue(header, at);
        if piece.name == Lower(wanted) { return Some(value); }
        at := PassSemicolon(header, at);
      }
    }
    assert header[at..] == "" && PieceOf("") == NoMore;
    return None;
  }

  method PassSemicolon(header: string, start: nat) returns (at: nat)
    requires start <= |header|
    ensures start <= at <= |header| && header[at..] == AfterSemicolon(header[start..])
  {
    IndexShift(header, ";", start);
    var next := IndexOf(header, ";", start);
    if next < 0 { return |header|; }
    assert header[start..][next - start + 1..] == header[next + 1..];
    at := next + 1;
  }

  // ---- boundaries -----------------------------------------------------------------------------

  function Slice(s: string, from: nat, n: nat): string {
    if from >= |s| then "" else if from + n >= |s| then s[from..] else s[from..from + n]
  }

  /** What a boundary line starts with, its CRLF included. */
  function Marker(delimiter: string): (m: string)
    ensures |m| == 2 + |delimiter| && m[..2] == CRLF && m[2..] == delimiter
  {
    CRLF + delimiter
  }

  /** A marker stands for a boundary only before CRLF or `--`. */
  predicate Suffixed(s: string, at: nat) { Slice(s, at, 2) == CRLF || Slice(s, at, 2) == "--" }

  predicate BoundaryAt(s: string, marker: string, k: nat) { At(s, marker, k) && Suffixed(s, k + |marker|) }

  /** `findMultipartBoundary`: a match that is not a boundary is skipped as a whole. */
  function FindBoundary(s: string, marker: string, start: nat): (r: int)
    requires marker != ""
  {
    FindAt(s, marker, IndexOf(s, marker, start))
  }

  function FindAt(s: string, marker: string, at: int): (r: int)
    requires marker != "" && at <= |s|
    decreases if at < 0 then 0 else |s| + 1 - at
  {
    if at < 0 then -1
    else if Suffixed(s, at + |marker|) then at + 2
    else FindAt(s, marker, IndexOf(s, marker, at + |marker|))
  }

  method FindMultipartBoundary(body: string, delimiter: string, start: nat) returns (r: int)
    ensures r == FindBoundary(body, Marker(delimiter), start)
  {
    var marker := Marker(delimiter);
    var at := IndexOf(body, marker, start);
    while at >= 0
      invariant at <= |body| && FindAt(body, marker, at) == FindBoundary(body, marker, start)
      decreases if at < 0 then 0 else |body| + 1 - at
    {
      var boundaryAt := at + 2;
      var suffix := Slice(body, boundaryAt + |delimiter|, 2);
      if suffix == CRLF || suffix == "--" { return boundaryAt; }
      at := IndexOf(body, marker, at + |marker|);
    }
    return -1;
  }

  /** The only carriage return of the marker is its first character. */
  predicate OneReturn(marker: string) { marker != "" && marker[0] == '\r' && '\r' !in marker[1..] }

  lemma MatchAt(s: string, m: string, a: nat, b: nat)
    requires At(s, m, a) && a <= b < a + |m|
    ensures s[b] == m[b - a]
  {
    assert s[a..a + |m|][b - a] == s[b];
  }

  /** Two matches of such a marker do not overlap. */
  lemma NoOverlap(s: string, marker: string, a: nat, b: nat)
    requires OneReturn(marker) && At(s, marker, a) && At(s, marker, b) && a < b
    ensures b >= a + |marker|
  {
    MatchAt(s, marker, b, b);
    if b < a + |marker| { MatchAt(s, marker, a, b); }
  }

  /** A boundary found from a match on is the first from where that match was sought. */
  predicate Finds(s: string, marker: string, start: nat, r: int) {
    if r < 0 then r == -1 && NoneFrom(s, marker, start) else r >= 2 && FirstAt(s, marker, start, r - 2)
  }

  predicate NoneFrom(s: string, marker: string, start: nat) {
    forall k: nat :: start <= k <= |s| ==> !BoundaryAt(s, marker, k)
  }

  lemma NoMatch(s: string, marker: string, start: nat)
    requires IndexOf(s, marker, start) < 0
    ensures NoneFrom(s, marker, start)
  {
  }

  lemma MatchIsFirst(s: string, marker: string, start: nat, at: nat)
    requires IndexOf(s, marker, start) == at
    ensures start <= at && NoneIn(s, marker, start, at)
      && (Suffixed(s, at + |marker|) ==> FirstAt(s, marker, start, at))
  {
  }

  /** What is skipped with a match that is no boundary holds none. */
  lemma SkipsNone(s: string, marker: string, start: nat, at: nat, r: int)
    requires OneReturn(marker) && IndexOf(s, marker, start) == at && !Suffixed(s, at + |marker|)
    requires Finds(s, marker, at + |marker|, r)
    ensures Finds(s, marker, start, r)
  {
    MatchIsFirst(s, marker, start, at);
    forall k: nat | at <= k < at + |marker|
      ensures !BoundaryAt(s, marker, k)
    {
      if k > at && At(s, marker, k) { NoOverlap(s, marker, at, k); }
    }
  }

  /** The search never misses a boundary: it finds the first there is. */
  lemma FindsFirst(s: string, marker: string, start: nat)
    requires OneReturn(marker)
    ensures Finds(s, marker, start, FindBoundary(s, marker, start))
  {
    FindsFrom(s, marker, start, IndexOf(s, marker, start));
  }

  lemma {:induction false} FindsFrom(s: string, marker: string, start: nat, at: int)
    requires OneReturn(marker) && IndexOf(s, marker, start) == at
    ensures at <= |s| && Finds(s, marker, start, FindAt(s, marker, at))
    decreases |s| - start
  {
    if at < 0 {
      NoMatch(s, marker, start);
    } else {
      MatchIsFirst(s, marker, start, at);
      if !Suffixed(s, at + |marker|) {
        FindsFrom(s, marker, at + |marker|, IndexOf(s, marker, at + |marker|));
        SkipsNone(s, marker, start, at, FindAt(s, marker, at));
      }
    }
  }

  /** No boundary starts in a stretch of a text. */
  predicate NoneIn(s: string, marker: string, from: nat, to: nat) {
    forall j: nat :: from <= j < to ==> !BoundaryAt(s, marker, j)
  }

  /** The first boundary from a place on starts at `k`. */
  predicate FirstAt(s: string, marker: string, start: nat, k: nat) {
    start <= k && BoundaryAt(s, marker, k) && NoneIn(s, marker, start, k)
  }

  lemma FindIs(s: string, marker: string, start: nat, k: nat)
    requires OneReturn(marker) && FirstAt(s, marker, start, k) && k <= |s|
    ensures FindBoundary(s, marker, start) == k + 2
  {
    FindsFirst(s, marker, start);
    OneFirst(s, marker, start, k, FindBoundary(s, marker, start));
  }

  lemma OneFirst(s: string, marker: string, start: nat, k: nat, r: int)
    requires FirstAt(s, marker, start, k) && k <= |s| && Finds(s, marker, start, r)
    ensures r == k + 2
  {
  }
}

/** What a request head says, and what a chunk-size line does: the texts that are
    accepted, and what is taken from each, told without the scanning. */
module HttpHeadTexts {
  import opened Sequences
  import opened Bytes
  import opened Wrappers
  import opened HttpHead
  import opened HttpMachine
  import opened HttpChunks
  import opened HttpFraming
  import opened HttpConnections

  // ---- cutting at a character ----------------------------------------------------------------

  lemma CharAt(s: string, c: char, from: nat)
    requires from <= |s|
    ensures var r := IndexOf(s, [c], from);
      if r < 0 then c !in s[from..] else from <= r < |s| && s[r] == c && c !in s[from..r]
  {
    forall k: int | from <= k < |s| ensures At(s, [c], k) <==> s[k] == c { assert s[k..k + 1] == [s[k]]; }
  }

  /** The first place of a character. */
  lemma CharIs(a: string, c: char, b: string)
    requires c !in a
    ensures IndexOf(a + [c] + b, [c], 0) == |a|
  {
    var s := a + [c] + b;
    assert s[|a|..|a| + 1] == [c];
    forall k: int | 0 <= k < |a| ensures !At(s, [c], k) { assert s[k..k + 1] == [a[k]]; }
    IndexOfIs(s, [c], 0, |a|);
  }

  // ---- the request line ----------------------------------------------------------------------

  /** Two words without spaces, then one of the two versions. */
  predicate IsRequestLine(text: string, r: RequestLine) {
    && text == r.verb + " " + r.target + " " + r.version
    && r.verb != "" && ' ' !in r.verb && r.target != "" && ' ' !in r.target
    && (r.version == "HTTP/1.1" || r.version == "HTTP/1.0")
  }

  lemma RequestLineIs(text: string, r: RequestLine)
    ensures ParseRequestLine(text) == Some(r) <==> IsRequestLine(text, r)
  {
    if IsRequestLine(text, r) { RequestLineBack(r); }
    if ParseRequestLine(text) == Some(r) { RequestLineCut(text, r); }
  }

  lemma RequestLineBack(r: RequestLine)
    requires IsRequestLine(r.verb + " " + r.target + " " + r.version, r)
    ensures ParseRequestLine(r.verb + " " + r.target + " " + r.version) == Some(r)
  {
    TwoCharsAre(r.verb, " ", r.target, r.version);
    PartsBack(r.verb, r.target, r.version);
  }

  /** The first two places of a character. */
  lemma TwoCharsAre(a: string, c: string, b: string, d: string)
    requires |c| == 1 && c[0] !in a && c[0] !in b
    ensures var s := a + c + b + c + d; IndexOf(s, c, 0) == |a| && IndexOf(s, c, |a| + 1) == |a| + 1 + |b|
  {
    var s, i := a + c + b + c + d, |a| + 1;
    assert s[|a|..i] == c && s[i + |b|..i + |b| + 1] == c;
    forall k: int | 0 <= k < i + |b| && k != |a| ensures !At(s, c, k) {
      assert s[k..k + 1][0] == if k < |a| then a[k] else b[k - i];
    }
    IndexOfIs(s, c, 0, |a|);
    IndexOfIs(s, c, i, i + |b|);
  }

  lemma PartsBack(a: string, b: string, d: string)
    ensures var s := a + " " + b + " " + d;
      s[..|a|] == a && s[|a| + 1..|a| + 1 + |b|] == b && s[|a| + 1 + |b| + 1..] == d
  {
  }

  lemma RequestLineCut(text: string, r: RequestLine)
    requires ParseRequestLine(text) == Some(r)
    ensures IsRequestLine(text, r)
  {
    CharAt(text, ' ', 0);
    var sp1 := IndexOf(text, " ", 0);
    CharAt(text, ' ', sp1 + 1);
    ThreeParts(text, sp1, IndexOf(text, " ", sp1 + 1));
  }

  lemma ThreeParts(text: string, i: nat, j: nat)
    requires i < j < |text| && text[i] == ' ' && text[j] == ' '
    ensures text == text[..i] + " " + text[i + 1..j] + " " + text[j + 1..] && text[0..i] == text[..i]
  {
  }

  // ---- a field line --------------------------------------------------------------------------

  predicate AllBlank(s: string) { forall i :: 0 <= i < |s| ==> IsBlank(s[i]) }

  predicate Trimmed(s: string) { s != "" ==> !IsBlank(s[0]) && !IsBlank(s[|s| - 1]) }

  lemma {:induction false} TrimLeftParts(s: string) returns (a: string)
    ensures AllBlank(a) && s == a + TrimLeft(s) && (TrimLeft(s) != "" ==> !IsBlank(TrimLeft(s)[0]))
  {
    if s != "" && IsBlank(s[0]) {
      var b := TrimLeftParts(s[1..]);
      a := [s[0]] + b;
      Associates([s[0]], b, TrimLeft(s));
    } else {
      a := "";
    }
  }

  lemma {:induction false} TrimRightParts(s: string) returns (b: string)
    ensures AllBlank(b) && s == TrimRight(s) + b && (TrimRight(s) != "" ==> !IsBlank(TrimRight(s)[|TrimRight(s)| - 1]))
  {
    if s != "" && IsBlank(s[|s| - 1]) {
      var a := TrimRightParts(s[..|s| - 1]);
      b := a + [s[|s| - 1]];
      Associates(TrimRight(s), a, [s[|s| - 1]]);
    } else {
      b := "";
    }
  }

  /** What trimming takes off. */
  lemma TrimParts(s: string) returns (a: string, b: string)
    ensures AllBlank(a) && AllBlank(b) && Trimmed(Trim(s)) && s == a + Trim(s) + b
  {
    a := TrimLeftParts(s);
    b := TrimRightParts(TrimLeft(s));
    if Trim(s) != "" { assert TrimLeft(s)[0] == Trim(s)[0]; }
  }

  lemma TrimBack(a: string, t: string, b: string)
    requires AllBlank(a) && AllBlank(b) && Trimmed(t)
    ensures Trim(a + t + b) == t
  {
    var s := a + t + b;
    if t == "" {
      TrimLeftDrop(s, |s|);
    } else {
      TrimLeftDrop(s, |a|);
      assert s[|a|..] == t + b;
      TrimRightTake(t + b, |t|);
      assert (t + b)[..|t|] == t;
    }
  }

  /** A name, a colon, and a value with blank space around it. */
  ghost predicate IsFieldLine(line: string, f: Field) {
    && f.name != "" && ':' !in f.name && (forall i :: 0 <= i < |f.name| ==> !IsBlank(f.name[i])) && Trimmed(f.value)
    && exists a: string, b: string :: AllBlank(a) && AllBlank(b) && line == f.name + ":" + PaddedBy(a, f.value, b)
  }

  function PaddedBy(a: string, t: string, b: string): string { a + t + b }

  lemma FieldLineIs(line: string, f: Field)
    ensures SplitField(line) == Some(f) <==> IsFieldLine(line, f)
  {
    if SplitField(line) == Some(f) { FieldLineCut(line, f); }
    if IsFieldLine(line, f) {
      var a: string, b: string :|
        AllBlank(a) && AllBlank(b) && line == f.name + ":" + PaddedBy(a, f.value, b);
      FieldLineBack(f, a, b);
    }
  }

  lemma FieldLineCut(line: string, f: Field)
    requires SplitField(line) == Some(f)
    ensures IsFieldLine(line, f)
  {
    CharAt(line, ':', 0);
    var colon := IndexOf(line, ":", 0);
    assert line[0..colon] == f.name;
    var a, b := TrimParts(line[colon + 1..]);
    CutAt(line, ":", colon);
    assert line == f.name + ":" + PaddedBy(a, f.value, b);
    forall i | 0 <= i < |f.name| ensures !IsBlank(f.name[i]) { assert f.name[i] == line[i]; }
  }

  lemma FieldLineBack(f: Field, a: string, b: string)
    requires f.name != "" && ':' !in f.name && (forall i :: 0 <= i < |f.name| ==> !IsBlank(f.name[i]))
    requires Trimmed(f.value) && AllBlank(a) && AllBlank(b)
    ensures SplitField(f.name + ":" + PaddedBy(a, f.value, b)) == Some(f)
  {
    var tail := PaddedBy(a, f.value, b);
    var line := f.name + ":" + tail;
    CharIs(f.name, ':', tail);
    OneCut(f.name, ":", tail);
    TrimBack(a, f.value, b);
    forall i | 0 <= i < |f.name| ensures !IsBlank(line[i]) { assert f.name[i] == line[i]; }
  }

  lemma OneCut(a: string, c: string, b: string)
    requires |c| == 1
    ensures (a + c + b)[..|a|] == a && (a + c + b)[|a| + 1..] == b
  {
  }

  // ---- lines ---------------------------------------------------------------------------------

  predicate NoBreak(s: string) { forall k :: 0 <= k < |s| - 1 ==> !(s[k] == '\r' && s[k + 1] == '\n') }

  lemma BreakAt(s: string, k: int)
    ensures At(s, CRLF, k) <==> 0 <= k < |s| - 1 && s[k] == '\r' && s[k + 1] == '\n'
  {
    if 0 <= k < |s| - 1 { assert s[k..k + 2] == [s[k], s[k + 1]]; }
  }

  /** The first break is the one behind a line. */
  lemma BreakIs(line: string, rest: string)
    requires NoBreak(line)
    ensures IndexOf(line + CRLF + rest, CRLF, 0) == |line|
  {
    var s := line + CRLF + rest;
    forall k: int | 0 <= k < |line| ensures !At(s, CRLF, k) {
      BreakAt(s, k);
      if k < |line| - 1 { assert s[k] == line[k] && s[k + 1] == line[k + 1]; }
    }
    BreakAt(s, |line|);
    IndexOfIs(s, CRLF, 0, |line|);
  }

  lemma BreakCut(s: string)
    ensures var e := IndexOf(s, CRLF, 0);
      if e < 0 then NoBreak(s) else e + 2 <= |s| && NoBreak(s[..e]) && s == s[..e] + CRLF + s[e + 2..]
  {
    var e := IndexOf(s, CRLF, 0);
    forall k: int | 0 <= k < |s| - 1 && (e < 0 || k < e) ensures !(s[k] == '\r' && s[k + 1] == '\n') {
      BreakAt(s, k);
    }
    if e >= 0 { CutAt(s, CRLF, e); }
  }

  lemma CutAt(s: string, pat: string, k: nat)
    requires At(s, pat, k)
    ensures s == s[..k] + pat + s[k + |pat|..]
  {
    assert s == s[..k] + s[k..k + |pat|] + s[k + |pat|..];
  }

  lemma NoBreakNone(s: string)
    requires NoBreak(s)
    ensures IndexOf(s, CRLF, 0) < 0
  {
    BreakAt(s, IndexOf(s, CRLF, 0));
  }

  /** The lines, each with its break; the last one may go without, unless it is empty. */
  predicate LinesOf(raw: string, lines: seq<string>) {
    && (forall i :: 0 <= i < |lines| ==> NoBreak(lines[i]))
    && (raw == Join(lines) || (lines != [] && lines[|lines| - 1] != "" && raw + CRLF == Join(lines)))
  }

  lemma {:induction false} LinesAre(raw: string, lines: seq<string>)
    ensures Lines(raw) == lines <==> LinesOf(raw, lines)
  {
    LinesFit(raw);
    if LinesOf(raw, lines) { LinesBackIs(raw, lines); }
  }

  lemma {:induction false} LinesFit(raw: string)
    ensures LinesOf(raw, Lines(raw))
    decreases |raw|
  {
    if raw != "" {
      BreakCut(raw);
      var e := IndexOf(raw, CRLF, 0);
      if e < 0 {
        assert Join([raw]) == raw + CRLF + "" == raw + CRLF;
      } else {
        var rest := raw[e + 2..];
        LinesFit(rest);
        assert Lines(raw) == [raw[..e]] + Lines(rest);
        OneMoreLine(raw[..e], rest, Lines(rest));
      }
    }
  }

  lemma OneMoreLine(line: string, rest: string, more: seq<string>)
    requires NoBreak(line) && LinesOf(rest, more)
    ensures LinesOf(line + CRLF + rest, [line] + more)
  {
    assert ([line] + more)[1..] == more;
    assert line + CRLF + rest + CRLF == line + CRLF + (rest + CRLF);
  }

  lemma {:induction false} LinesBackIs(raw: string, lines: seq<string>)
    requires LinesOf(raw, lines)
    ensures Lines(raw) == lines
    decreases |lines|
  {
    if lines != [] {
      var line, more := lines[0], lines[1..];
      if more == [] && raw != Join(lines) {
        OnlyLine(raw, line);
        NoBreakNone(raw);
      } else {
        var rest := OneLineLess(raw, lines);
        BreakIs(line, rest);
        LineThen(line, rest);
        LinesBackIs(rest, more);
      }
    }
  }

  lemma OnlyLine(raw: string, line: string)
    requires raw + CRLF == Join([line])
    ensures raw == line
  {
    assert Join([line]) == line + CRLF;
    assert raw == (raw + CRLF)[..|raw|] && line == (line + CRLF)[..|raw|];
  }

  lemma LineThen(line: string, rest: string)
    ensures var s := line + CRLF + rest; s[..|line|] == line && s[|line| + 2..] == rest
  {
  }

  lemma OneLineLess(raw: string, lines: seq<string>) returns (rest: string)
    requires LinesOf(raw, lines) && lines != [] && (lines[1..] == [] ==> raw == Join(lines))
    ensures raw == lines[0] + CRLF + rest && LinesOf(rest, lines[1..])
  {
    var line, more := lines[0], lines[1..];
    if raw == Join(lines) {
      rest := Join(more);
    } else {
      JoinLonger(more);
      rest := LessBreak(raw, line, Join(more));
      assert more[|more| - 1] == lines[|lines| - 1];
    }
  }

  lemma LessBreak(raw: string, line: string, text: string) returns (rest: string)
    requires raw + CRLF == line + CRLF + text && |text| >= 2
    ensures raw == line + CRLF + rest && rest + CRLF == text
  {
    rest := text[..|text| - 2];
    var s := line + CRLF + text;
    assert raw == s[..|raw|] && s[|raw|..] == CRLF;
    assert text == s[|line| + 2..];
    assert text[|text| - 2..] == s[|raw|..];
    assert s[..|raw|] == line + CRLF + rest;
  }

  lemma JoinLonger(lines: seq<string>)
    requires lines != []
    ensures |Join(lines)| >= 2
  {
  }

  // ---- a comma-separated list ----------------------------------------------------------------

  const UPPER: string := "ABCDEFGHIJKLMNOPQRSTUVWXYZ"
  const LOWER: string := "abcdefghijklmnopqrstuvwxyz"

  /** ASCII letters lose their case, and nothing else changes. */
  lemma LowerIs(i: nat)
    requires i < 26
    ensures LowerChar(UPPER[i]) == LOWER[i]
  {
  }

  lemma OthersStay(c: char)
    requires c !in UPPER
    ensures LowerChar(c) == c
  {
  }

  /** The item from `i` to `j`: between two commas, or an end of the text. */
  predicate ItemAt(value: string, i: nat, j: nat) {
    && i <= j <= |value| && ',' !in value[i..j]
    && (i == 0 || value[i - 1] == ',') && (j == |value| || value[j] == ',')
  }

  /** An item is a word but for the blank space around it and the case of its letters. */
  ghost predicate IsWord(item: string, word: string) {
    exists a: string, t: string, b: string ::
      AllBlank(a) && AllBlank(b) && Trimmed(t) && item == PaddedBy(a, t, b) && EqualsIgnoreCase(t, word)
  }

  ghost predicate Lists(value: string, word: string) {
    exists i: nat, j: nat :: ItemAt(value, i, j) && IsWord(value[i..j], word)
  }

  lemma WordIs(item: string, word: string)
    ensures IsWord(item, word) <==> EqualsIgnoreCase(Trim(item), word)
  {
    if IsWord(item, word) {
      var a: string, t: string, b: string :|
        AllBlank(a) && AllBlank(b) && Trimmed(t) && item == PaddedBy(a, t, b) && EqualsIgnoreCase(t, word);
      TrimBack(a, t, b);
    }
    if EqualsIgnoreCase(Trim(item), word) {
      var a, b := TrimParts(item);
      assert item == PaddedBy(a, Trim(item), b);
    }
  }

  /** The scan finds a word exactly when an item of the list is that word. */
  lemma {:induction false} HasTokenIs(value: string, word: string)
    requires word != ""
    ensures HasToken(value, word) <==> Lists(value, word)
    decreases |value|
  {
    CharAt(value, ',', 0);
    var comma := IndexOf(value, ",", 0);
    if comma < 0 {
      OneItem(value, word);
    } else {
      HasTokenIs(value[comma + 1..], word);
      WordIs(value[..comma], word);
      FirstItem(value, comma, word);
    }
  }

  lemma NotBetween(s: string, c: char, i: nat, j: nat)
    requires i <= j <= |s| && c !in s[i..j]
    ensures forall k :: i <= k < j ==> s[k] != c
  {
    forall k | i <= k < j ensures s[k] != c { assert s[i..j][k - i] in s[i..j]; }
  }

  lemma OneItem(value: string, word: string)
    requires word != "" && ',' !in value[0..]
    ensures Lists(value, word) <==> value != "" && EqualsIgnoreCase(Trim(value), word)
  {
    assert value[0..|value|] == value[0..] == value;
    WordIs(value, word);
    assert ItemAt(value, 0, |value|);
    NotBetween(value, ',', 0, |value|);
    assert forall i: nat, j: nat :: ItemAt(value, i, j) ==> i == 0 && j == |value|;
  }

  lemma FirstItem(value: string, comma: nat, word: string)
    requires comma < |value| && value[comma] == ',' && ',' !in value[0..comma]
    ensures Lists(value, word) <==> IsWord(value[..comma], word) || Lists(value[comma + 1..], word)
  {
    if IsWord(value[..comma], word) { ThisItem(value, comma, word); }
    if Lists(value[comma + 1..], word) { LaterItem(value, comma, word); }
    if Lists(value, word) {
      var i: nat, j: nat :| ItemAt(value, i, j) && IsWord(value[i..j], word);
      EitherItem(value, comma, i, j, word);
    }
  }

  lemma ThisItem(value: string, comma: nat, word: string)
    requires comma < |value| && value[comma] == ',' && ',' !in value[0..comma] && IsWord(value[..comma], word)
    ensures Lists(value, word)
  {
    assert value[0..comma] == value[..comma];
    assert ItemAt(value, 0, comma) && IsWord(value[0..comma], word);
  }

  lemma EitherItem(value: string, comma: nat, i: nat, j: nat, word: string)
    requires comma < |value| && value[comma] == ',' && ',' !in value[0..comma]
    requires ItemAt(value, i, j) && IsWord(value[i..j], word)
    ensures IsWord(value[..comma], word) || Lists(value[comma + 1..], word)
  {
    ItemSide(value, comma, i, j);
    if i > comma {
      ItemMoves(value, comma, i - comma - 1, j - comma - 1);
    } else {
      assert value[i..j] == value[..comma];
    }
  }

  lemma LaterItem(value: string, comma: nat, word: string)
    requires comma < |value| && value[comma] == ',' && Lists(value[comma + 1..], word)
    ensures Lists(value, word)
  {
    var rest := value[comma + 1..];
    var i: nat, j: nat :| ItemAt(rest, i, j) && IsWord(rest[i..j], word);
    ItemMoves(value, comma, i, j);
  }

  /** An item is the first one, or behind the first comma. */
  lemma ItemSide(value: string, comma: nat, i: nat, j: nat)
    requires comma < |value| && value[comma] == ',' && ',' !in value[0..comma] && ItemAt(value, i, j)
    ensures (i == 0 && j == comma) || i > comma
  {
    NotBetween(value, ',', 0, comma);
    NotBetween(value, ',', i, j);
  }

  lemma ItemMoves(value: string, comma: nat, i: nat, j: nat)
    requires comma < |value| && value[comma] == ',' && i <= j <= |value| - comma - 1
    ensures ItemAt(value[comma + 1..], i, j) <==> ItemAt(value, comma + 1 + i, comma + 1 + j)
    ensures value[comma + 1..][i..j] == value[comma + 1 + i..comma + 1 + j]
  {
    var rest := value[comma + 1..];
    assert rest[i..j] == value[comma + 1 + i..comma + 1 + j];
    if i > 0 { assert rest[i - 1] == value[comma + i]; }
    if j < |rest| { assert rest[j] == value[comma + 1 + j]; }
  }

  // ---- a length ------------------------------------------------------------------------------

  /** A number in decimal digits, at least one, not over the cap. */
  predicate IsDecimal(text: string, n: nat) {
    && text != "" && (forall i :: 0 <= i < |text| ==> IsDigit(text[i]))
    && ReadNumber(text, 10, 0) == Some(n) && n <= MAX_BODY
  }

  lemma {:induction false} ReadGrows(text: string, base: nat, acc: nat)
    requires base > 0
    ensures ReadNumber(text, base, acc).Some? ==> ReadNumber(text, base, acc).value >= acc
  {
    if text != "" && DigitIn(text[0], base).Some? {
      var next := acc * base + DigitIn(text[0], base).value;
      assert next >= acc * base >= acc;
      ReadGrows(text[1..], base, next);
    }
  }

  lemma {:induction false} DecimalFromIs(text: string, acc: nat, n: nat)
    requires acc <= MAX_BODY
    ensures DecimalFrom(text, acc) == Some(n) <==>
      (forall i :: 0 <= i < |text| ==> IsDigit(text[i])) && ReadNumber(text, 10, acc) == Some(n) && n <= MAX_BODY
  {
    if text != "" && IsDigit(text[0]) {
      var next := acc * 10 + DigitValue(text[0]);
      assert DigitIn(text[0], 10) == Some(DigitValue(text[0]));
      ReadGrows(text[1..], 10, next);
      if next <= MAX_BODY { DecimalFromIs(text[1..], next, n); }
      assert (forall i :: 0 <= i < |text| ==> IsDigit(text[i]))
        <==> (forall i :: 0 <= i < |text| - 1 ==> IsDigit(text[1..][i])) by {
        assert forall i :: 1 <= i < |text| ==> text[i] == text[1..][i - 1];
      }
    }
  }

  lemma ContentLengthIs(text: string, n: nat)
    ensures ContentLength(text) == Some(n) <==> IsDecimal(text, n)
  {
    DecimalFromIs(text, 0, n);
  }

  // ---- a chunk-size line ---------------------------------------------------------------------

  /** A hexadecimal digit, of either case. */
  lemma HexDigitIs(c: char, d: nat)
    ensures HexDigit(c) == Some(d) <==> d < 16 && (c == "0123456789abcdef"[d] || c == "0123456789ABCDEF"[d])
  {
  }

  lemma SizeText(line: string)
    ensures var t := BeforeSemicolon(line);
      if line == "" || line[0] == ';' then t == ""
      else t == [line[0]] + BeforeSemicolon(line[1..]) && t[1..] == BeforeSemicolon(line[1..])
  {
    CharAt(line, ';', 0);
    if line != "" && line[0] != ';' {
      var rest := line[1..];
      CharAt(rest, ';', 0);
      var e, f := IndexOf(line, ";", 0), IndexOf(rest, ";", 0);
      SemicolonMoves(line, e, f);
      assert line == [line[0]] + rest;
    }
  }

  lemma SemicolonMoves(line: string, e: int, f: int)
    requires line != "" && line[0] != ';' && e == IndexOf(line, ";", 0) && f == IndexOf(line[1..], ";", 0)
    ensures if f < 0 then e < 0 else e == f + 1
  {
    IndexOfDrop(line, ";", 1);
    assert !At(line, ";", 0);
  }

  /** The first digits of a text already make a number over the cap. */
  predicate Exceeds(text: string, acc: nat) {
    exists k :: 0 <= k <= |text| && Over(text[..k], acc)
  }

  predicate Over(digits: string, acc: nat) {
    ReadNumber(digits, 16, acc).Some? && ReadNumber(digits, 16, acc).value > MAX_BODY
  }

  lemma {:induction false} SizeFromIs(line: string, acc: nat, saw: bool, n: nat)
    requires acc <= MAX_BODY
    ensures var t := BeforeSemicolon(line);
      && (SizeFrom(line, acc, saw) == Size(n) <==>
            (saw || t != "") && ReadNumber(t, 16, acc) == Some(n) && n <= MAX_BODY)
      && (SizeFrom(line, acc, saw) == SizeError(413) <==> Exceeds(t, acc))
      && (SizeFrom(line, acc, saw).SizeError? ==> SizeFrom(line, acc, saw).status in {400, 413})
  {
    SizeText(line);
    var t := BeforeSemicolon(line);
    if line == "" || line[0] == ';' {
      assert t[..0] == "";
    } else {
      ExceedsOn(t, acc);
      if HexDigit(line[0]).Some? {
        var next := acc * 16 + HexDigit(line[0]).value;
        ReadGrows(t[1..], 16, next);
        if next <= MAX_BODY { SizeFromIs(line[1..], next, true, n); }
      }
    }
  }

  lemma ExceedsOn(t: string, acc: nat)
    requires t != "" && acc <= MAX_BODY
    ensures var d := HexDigit(t[0]);
      Exceeds(t, acc) <==>
        (d.Some? && (acc * 16 + d.value > MAX_BODY || Exceeds(t[1..], acc * 16 + d.value)))
  {
    if HexDigit(t[0]).Some? {
      var next := acc * 16 + HexDigit(t[0]).value;
      assert t[..1][1..] == "" && t[1..][..0] == "";
      if next > MAX_BODY { assert Over(t[..1], acc); }
      if Exceeds(t[1..], next) {
        var k :| 0 <= k <= |t[1..]| && Over(t[1..][..k], next);
        assert t[..k + 1][1..] == t[1..][..k];
        assert Over(t[..k + 1], acc);
      }
    }
    if Exceeds(t, acc) {
      var k :| 0 <= k <= |t| && Over(t[..k], acc);
      assert k > 0 && t[..k][1..] == t[1..][..k - 1];
    }
  }

  /** A size is a number in hexadecimal digits before any `;`, not over the cap; one that
      goes over it is answered with 413, and every other text with 400. */
  lemma ChunkSizeExactly(line: string, n: nat)
    ensures var t := BeforeSemicolon(line);
      && (ChunkSize(line) == Size(n) <==> t != "" && ReadNumber(t, 16, 0) == Some(n) && n <= MAX_BODY)
      && (ChunkSize(line) == SizeError(413) <==> Exceeds(t, 0))
      && (ChunkSize(line).SizeError? ==> ChunkSize(line).status in {400, 413})
  {
    SizeFromIs(line, 0, false, n);
  }

  // ---- the field list ------------------------------------------------------------------------

  predicate NamesLength(f: Field) { EqualsIgnoreCase(f.name, "content-length") }

  predicate NamesCoding(f: Field) { EqualsIgnoreCase(f.name, "transfer-encoding") }

  predicate AsksContinue(f: Field) {
    EqualsIgnoreCase(f.name, "expect") && EqualsIgnoreCase(f.value, "100-continue")
  }

  /** A Connection field that says whether the connection stays. */
  predicate Decides(f: Field) {
    EqualsIgnoreCase(f.name, "connection") && (HasToken(f.value, "close") || HasToken(f.value, "keep-alive"))
  }

  /** The lines' fields, empty lines aside. */
  ghost predicate ReadsAs(lines: seq<string>, fields: seq<Field>) {
    if lines == [] then fields == []
    else if lines[0] == "" then ReadsAs(lines[1..], fields)
    else fields != [] && IsFieldLine(lines[0], fields[0]) && ReadsAs(lines[1..], fields[1..])
  }

  /** What is not answered with 400: every coding is the chunked one, and no two lengths differ. */
  predicate Proper(fields: seq<Field>) {
    && (forall f :: f in fields && NamesCoding(f) ==> HasToken(f.value, "chunked"))
    && (forall f, g :: f in fields && g in fields && NamesLength(f) && NamesLength(g) ==> f.value == g.value)
  }

  /** The last field that decides does, `close` before `keep-alive`; else the version does. */
  predicate StaysOpen(fields: seq<Field>, default: bool, keepAlive: bool) {
    if forall f :: f in fields ==> !Decides(f) then keepAlive == default
    else exists i :: 0 <= i < |fields| && LastToDecide(fields, i) && keepAlive == !HasToken(fields[i].value, "close")
  }

  predicate LastToDecide(fields: seq<Field>, i: nat)
    requires i < |fields|
  {
    Decides(fields[i]) && forall j :: i < j < |fields| ==> !Decides(fields[j])
  }

  /** What a field list says. */
  predicate Says(fields: seq<Field>, default: bool, f: Fields) {
    && (f.chunked <==> exists x :: x in fields && NamesCoding(x))
    && (f.expectContinue <==> exists x :: x in fields && AsksContinue(x))
    && (f.length.Some? <==> exists x :: x in fields && NamesLength(x))
    && (forall x :: x in fields && NamesLength(x) ==> f.length == Some(x.value))
    && StaysOpen(fields, default, f.keepAlive)
  }

  /** The header loop over a list of fields, from its end. */
  function AddFields(fields: seq<Field>, f: Fields): Option<Fields> {
    if fields == [] then Some(f)
    else match AddFields(fields[..|fields| - 1], f)
      case None => None
      case Some(g) => AddField(fields[|fields| - 1], g)
  }

  /** No two of the four kinds of field have the same name. */
  lemma FourNames(f: Field)
    ensures !(NamesLength(f) && NamesCoding(f))
    ensures NamesLength(f) || NamesCoding(f) ==>
      !EqualsIgnoreCase(f.name, "connection") && !EqualsIgnoreCase(f.name, "expect")
    ensures !(EqualsIgnoreCase(f.name, "connection") && EqualsIgnoreCase(f.name, "expect"))
  {
  }

  function StartAs(default: bool): Fields { Fields(false, default, false, None) }

  /** The loop refuses exactly the lists that are not proper, and takes from the others what they say. */
  lemma {:induction false} LoopSays(fields: seq<Field>, default: bool)
    ensures var r := AddFields(fields, StartAs(default));
      (r.Some? <==> Proper(fields)) && (r.Some? ==> Says(fields, default, r.value))
  {
    if fields != [] {
      var init, x := fields[..|fields| - 1], fields[|fields| - 1];
      LoopSays(init, default);
      assert fields == init + [x];
      FourNames(x);
      var g := AddFields(init, StartAs(default));
      if g.None? { NotProper(init, x); } else { OneMoreField(init, default, g.value, x); }
    }
  }

  lemma NotProper(init: seq<Field>, x: Field)
    requires !Proper(init)
    ensures !Proper(init + [x])
  {
    assert forall f :: f in init ==> f in init + [x];
  }

  lemma OneMoreField(init: seq<Field>, default: bool, g: Fields, x: Field)
    requires Proper(init) && Says(init, default, g)
    ensures AddField(x, g).Some? <==> Proper(init + [x])
    ensures AddField(x, g).Some? ==> Says(init + [x], default, AddField(x, g).value)
  {
    OneMoreProper(init, g, x);
    AddFieldIs(x, g);
    if AddField(x, g).Some? { OneMoreSays(init, default, g, x, AddField(x, g).value); }
  }

  /** One field's effect. */
  predicate Effect(x: Field, g: Fields, r: Fields) {
    && r.chunked == (g.chunked || NamesCoding(x))
    && r.expectContinue == (g.expectContinue || AsksContinue(x))
    && r.length == (if NamesLength(x) then Some(x.value) else g.length)
    && (NamesLength(x) && g.length.Some? ==> g.length.value == x.value)
    && r.keepAlive == if Decides(x) then !HasToken(x.value, "close") else g.keepAlive
  }

  lemma AddFieldIs(x: Field, g: Fields)
    ensures AddField(x, g).Some? ==> Effect(x, g, AddField(x, g).value)
  {
    FourNames(x);
  }

  lemma OneMoreSays(init: seq<Field>, default: bool, g: Fields, x: Field, r: Fields)
    requires Says(init, default, g) && Effect(x, g, r)
    ensures Says(init + [x], default, r)
  {
    var fields := init + [x];
    assert x in fields && forall f :: f in fields <==> f in init || f == x;
    OneMoreDecides(init, default, g.keepAlive, x, r.keepAlive);
  }

  lemma OneMoreProper(init: seq<Field>, g: Fields, x: Field)
    requires Proper(init)
    requires (g.length.Some? <==> exists y :: y in init && NamesLength(y))
    requires forall y :: y in init && NamesLength(y) ==> g.length == Some(y.value)
    ensures AddField(x, g).Some? <==> Proper(init + [x])
  {
    var fields := init + [x];
    FourNames(x);
    assert x in fields && forall f :: f in fields <==> f in init || f == x;
  }

  lemma OneMoreDecides(init: seq<Field>, default: bool, keep: bool, x: Field, now: bool)
    requires StaysOpen(init, default, keep)
    requires now == if Decides(x) then !HasToken(x.value, "close") else keep
    ensures StaysOpen(init + [x], default, now)
  {
    var fields := init + [x];
    assert x in fields && forall f :: f in fields <==> f in init || f == x;
    if Decides(x) {
      assert LastToDecide(fields, |init|);
    } else if exists f :: f in init && Decides(f) {
      var i :| 0 <= i < |init| && LastToDecide(init, i) && keep == !HasToken(init[i].value, "close");
      assert LastToDecide(fields, i);
    }
  }

  // ---- the whole head ------------------------------------------------------------------------

  /** A head taken apart. */
  datatype Parts = Parts(first: string, line: RequestLine, raw: string, lines: seq<string>, fields: seq<Field>)

  /** The text is a request line, and the lines behind it, of these fields. */
  ghost predicate Spells(p: Parts, head: string) {
    && NoBreak(p.first) && (head == p.first + CRLF + p.raw || (head == p.first && p.raw == ""))
    && IsRequestLine(p.first, p.line) && LinesOf(p.raw, p.lines) && ReadsAs(p.lines, p.fields)
  }

  /** What is read from a head with these parts. */
  ghost predicate Announces(p: Parts, h: Head) {
    && h.verb == p.line.verb && h.target == p.line.target && h.version == p.line.version && h.rawHead == p.raw
    && Proper(p.fields)
    && (h.chunked <==> exists f :: f in p.fields && NamesCoding(f))
    && (h.expectContinue <==> exists f :: f in p.fields && AsksContinue(f))
    && StaysOpen(p.fields, h.version == "HTTP/1.1", h.keepAlive)
    && (if h.chunked || (forall f :: f in p.fields ==> !NamesLength(f)) then h.length == 0
        else forall f :: f in p.fields && NamesLength(f) ==> IsDecimal(f.value, h.length))
  }

  lemma {:induction false} FieldsRead(lines: seq<string>, fields: seq<Field>, done: seq<Field>, f: Fields)
    requires ReadsAs(lines, fields) && AddFields(done, f).Some?
    ensures AddLines(lines, AddFields(done, f).value) == AddFields(done + fields, f)
  {
    if lines == [] {
      assert done + fields == done;
    } else if lines[0] == "" {
      FieldsRead(lines[1..], fields, done, f);
    } else {
      FieldLineIs(lines[0], fields[0]);
      var more := done + [fields[0]];
      assert done + fields == more + fields[1..] && more[..|done|] == done;
      if AddFields(more, f).Some? {
        FieldsRead(lines[1..], fields[1..], more, f);
      } else {
        NoneStays(more, fields[1..], f);
      }
    }
  }

  lemma {:induction false} NoneStays(done: seq<Field>, more: seq<Field>, f: Fields)
    requires AddFields(done, f).None?
    ensures AddFields(done + more, f).None?
    decreases |more|
  {
    if more == [] {
      assert done + more == done;
    } else {
      NoneStays(done, more[..|more| - 1], f);
      assert (done + more)[..|done + more| - 1] == done + more[..|more| - 1];
    }
  }

  /** Lines that are all taken are the lines of some fields. */
  lemma {:induction false} FieldsFound(lines: seq<string>, f: Fields) returns (fields: seq<Field>)
    requires AddLines(lines, f).Some?
    ensures ReadsAs(lines, fields)
  {
    if lines == [] {
      fields := [];
    } else if lines[0] == "" {
      fields := FieldsFound(lines[1..], f);
    } else {
      var x := SplitField(lines[0]).value;
      FieldLineIs(lines[0], x);
      var more := FieldsFound(lines[1..], AddField(x, f).value);
      fields := [x] + more;
      assert fields[1..] == more;
    }
  }

  lemma FirstLineIs(head: string, first: string, raw: string)
    requires NoBreak(first) && (head == first + CRLF + raw || (head == first && raw == ""))
    ensures FirstLine(head) == first && AfterFirstLine(head) == raw
  {
    if head == first && raw == "" {
      NoBreakNone(first);
    } else {
      BreakIs(first, raw);
      LineThen(first, raw);
    }
  }

  /** What the fields make of the length, and of the rest, is what they announce. */
  lemma AssembleIs(p: Parts, f: Fields, h: Head)
    requires Proper(p.fields) && Says(p.fields, p.line.version == "HTTP/1.1", f)
    ensures Assemble(p.line, p.raw, Some(f)) == Good(h) <==> Announces(p, h)
  {
    var d := p.line.version == "HTTP/1.1";
    if f.length.Some? {
      ContentLengthIs(f.length.value, h.length);
      var x :| x in p.fields && NamesLength(x);
      assert f.length == Some(x.value);
    }
    StaysOnce(p.fields, d, f.keepAlive, h.keepAlive);
  }

  lemma StaysOnce(fields: seq<Field>, d: bool, a: bool, b: bool)
    requires StaysOpen(fields, d, a)
    ensures StaysOpen(fields, d, b) <==> a == b
  {
    if exists f :: f in fields && Decides(f) {
      var i :| 0 <= i < |fields| && LastToDecide(fields, i) && a == !HasToken(fields[i].value, "close");
      assert forall j :: 0 <= j < |fields| && LastToDecide(fields, j) ==> i == j;
    }
  }

  lemma PartsRead(head: string, p: Parts, h: Head)
    requires Spells(p, head)
    ensures ParseHead(head) == Good(h) <==> Announces(p, h)
  {
    FirstLineIs(head, p.first, p.raw);
    RequestLineIs(p.first, p.line);
    LinesAre(p.raw, p.lines);
    var start := StartFields(p.line);
    FieldsRead(p.lines, p.fields, [], start);
    assert [] + p.fields == p.fields;
    LoopSays(p.fields, p.line.version == "HTTP/1.1");
    var r := AddFields(p.fields, start);
    if r.Some? { AssembleIs(p, r.value, h); }
  }

  lemma PartsFound(head: string) returns (p: Parts)
    requires ParseHead(head).Good?
    ensures Spells(p, head)
  {
    var first, raw := FirstLine(head), AfterFirstLine(head);
    BreakCut(head);
    var line := ParseRequestLine(first).value;
    RequestLineIs(first, line);
    LinesAre(raw, Lines(raw));
    var fields := FieldsFound(Lines(raw), StartFields(line));
    p := Parts(first, line, raw, Lines(raw), fields);
  }

  /** A head is accepted exactly when it is spelled of parts that announce something, and
      what is taken from it is what they announce; everything else is answered with 400. */
  lemma HeadExactly(head: string, h: Head)
    ensures ParseHead(head) == Good(h) <==> exists p: Parts :: Spells(p, head) && Announces(p, h)
    ensures ParseHead(head).Bad? ==> ParseHead(head).status == 400
  {
    if ParseHead(head) == Good(h) {
      var p := PartsFound(head);
      PartsRead(head, p, h);
    }
    if exists p: Parts :: Spells(p, head) && Announces(p, h) {
      var p: Parts :| Spells(p, head) && Announces(p, h);
      PartsRead(head, p, h);
    }
  }

  // ---- a head as a client writes it --------------------------------------------------------------

  function Written(fields: seq<Field>): seq<string> {
    if fields == [] then [] else [FieldLine(fields[0].name, fields[0].value)] + Written(fields[1..])
  }

  /** The lines without the break behind the last one. */
  function Between(lines: seq<string>): string {
    if lines == [] then ""
    else if |lines| == 1 then lines[0]
    else lines[0] + CRLF + Between(lines[1..])
  }

  function FirstText(line: RequestLine): string { line.verb + " " + line.target + " " + line.version }

  function WrittenParts(line: RequestLine, fields: seq<Field>): Parts {
    Parts(FirstText(line), line, Between(Written(fields)), Written(fields), fields)
  }

  /** The head, up to the empty line. */
  function WrittenHead(line: RequestLine, fields: seq<Field>): string {
    Between([FirstText(line)] + Written(fields))
  }

  predicate CleanField(f: Field) { CleanName(f.name) && CleanText(f.value) && Trimmed(f.value) }

  lemma {:induction false} WrittenReads(fields: seq<Field>)
    requires forall f :: f in fields ==> CleanField(f)
    ensures ReadsAs(Written(fields), fields) && AllClean(Written(fields))
  {
    if fields != [] {
      var f := fields[0];
      WrittenReads(fields[1..]);
      assert CleanField(f);
      assert FieldLine(f.name, f.value) == f.name + ":" + PaddedBy(" ", f.value, "");
      assert AllBlank(" ") && AllBlank("");
      FieldLineClean(f.name, f.value);
    }
  }

  predicate AllClean(lines: seq<string>) {
    forall i :: 0 <= i < |lines| ==> lines[i] != "" && CleanText(lines[i])
  }

  lemma {:induction false} BetweenLines(lines: seq<string>)
    requires AllClean(lines)
    ensures LinesOf(Between(lines), lines)
  {
    if |lines| == 1 {
      assert Join(lines[1..]) == "" && lines[0] + CRLF + "" == lines[0] + CRLF;
    } else if lines != [] {
      BetweenLines(lines[1..]);
      OneMoreLine(lines[0], Between(lines[1..]), lines[1..]);
      assert [lines[0]] + lines[1..] == lines;
    }
  }

  lemma CleanLine(line: RequestLine)
    requires CleanText(line.verb) && CleanText(line.target)
    requires line.version == "HTTP/1.1" || line.version == "HTTP/1.0"
    ensures CleanText(FirstText(line)) && NoBreak(FirstText(line)) && FirstText(line) != ""
  {
    assert CleanText(line.version);
    CleanJoin(line.verb + " " + line.target, line.version);
  }

  lemma CleanJoin(a: string, b: string)
    requires CleanText(a) && CleanText(b)
    ensures CleanText(a + " " + b)
  {
  }

  predicate MayWrite(line: RequestLine, fields: seq<Field>) {
    && IsRequestLine(FirstText(line), line) && CleanText(line.verb) && CleanText(line.target)
    && forall f :: f in fields ==> CleanField(f)
  }

  /** Words and fields written as a head are read from it, each in its place. */
  lemma HeadBack(line: RequestLine, fields: seq<Field>, h: Head)
    requires MayWrite(line, fields)
    ensures ParseHead(WrittenHead(line, fields)) == Good(h) <==> Announces(WrittenParts(line, fields), h)
  {
    WrittenReads(fields);
    CleanLine(line);
    BetweenLines(Written(fields));
    assert ([FirstText(line)] + Written(fields))[1..] == Written(fields);
    PartsRead(WrittenHead(line, fields), WrittenParts(line, fields), h);
  }

  /** The empty line is found behind the last line of a head, and nowhere before it. */
  lemma {:induction false} EndIsFound(lines: seq<string>, rest: string)
    requires lines != [] && AllClean(lines)
    ensures IndexOf(Between(lines) + HEAD_END + rest, HEAD_END, 0) == |Between(lines)|
  {
    if |lines| == 1 {
      EndBehind(lines[0], HEAD_END + rest);
      assert (HEAD_END + rest)[0..4] == HEAD_END;
      IndexOfIs(HEAD_END + rest, HEAD_END, 0, 0);
      assert lines[0] + (HEAD_END + rest) == lines[0] + HEAD_END + rest;
    } else {
      var more := Between(lines[1..]);
      EndIsFound(lines[1..], rest);
      assert more != "" && more[0] != '\r' by { assert more[0] == lines[1][0]; }
      EndBehind(lines[0] + CRLF, more + HEAD_END + rest);
      assert lines[0] + CRLF + (more + HEAD_END + rest) == lines[0] + CRLF + more + HEAD_END + rest;
    }
  }

  /** No empty line begins in a clean line, nor in the break before a line that is not empty. */
  lemma EndBehind(a: string, b: string)
    requires (CleanText(a) || (|a| >= 2 && CleanText(a[..|a| - 2]) && a[|a| - 2..] == CRLF && b != "" && b[0] != '\r'))
    ensures var e := IndexOf(b, HEAD_END, 0);
      IndexOf(a + b, HEAD_END, 0) == if e < 0 then -1 else |a| + e
  {
    var s := a + b;
    forall k: int | 0 <= k < |a| ensures !At(s, HEAD_END, k) {
      if k + 4 <= |s| { assert s[k..k + 4][0] == s[k] && s[k..k + 4][2] == s[k + 2]; }
    }
    assert s[|a|..] == b;
    IndexOfDrop(s, HEAD_END, |a|);
    var e := IndexOf(b, HEAD_END, 0);
    if e >= 0 { IndexOfIs(s, HEAD_END, 0, |a| + e); } else { NowhereFrom(s, HEAD_END, |a|); }
  }

  lemma NowhereFrom(s: string, pat: string, from: nat)
    requires from <= |s| && IndexOf(s, pat, from) < 0 && forall k: int :: 0 <= k < from ==> !At(s, pat, k)
    ensures IndexOf(s, pat, 0) == -1
  {
  }

  /** A request head on the wire is taken from the buffer, with what it announces. */
  lemma RequestRead(c: Conn, handler: Handler, line: RequestLine, fields: seq<Field>, rest: string, h: Head)
    requires c.Conn? && c.inbuf == WrittenHead(line, fields) + HEAD_END + rest
    requires MayWrite(line, fields) && |WrittenHead(line, fields)| + 4 <= MAX_HEAD
    requires Announces(WrittenParts(line, fields), h)
    ensures HeadTurn(c, handler) == HeadRead(c.(inbuf := rest), handler, Good(h))
  {
    WrittenReads(fields);
    CleanLine(line);
    EndIsFound([FirstText(line)] + Written(fields), rest);
    HeadBack(line, fields, h);
    HeadTaken(c, handler, WrittenHead(line, fields), rest);
  }

  lemma HeadTaken(c: Conn, handler: Handler, head: string, rest: string)
    requires c.Conn? && c.inbuf == head + HEAD_END + rest && |head| + 4 <= MAX_HEAD
    requires IndexOf(c.inbuf, HEAD_END, 0) == |head|
    ensures HeadTurn(c, handler) == HeadRead(c.(inbuf := rest), handler, ParseHead(head))
  {
    assert c.inbuf[..|head|] == head && c.inbuf[|head| + 4..] == rest;
  }

  /** A request written without a body is what the handler is called with. */
  lemma RequestDispatched(c: Conn, handler: Handler, line: RequestLine, fields: seq<Field>, rest: string, h: Head)
    requires c.Conn? && c.inbuf == WrittenHead(line, fields) + HEAD_END + rest
    requires MayWrite(line, fields) && |WrittenHead(line, fields)| + 4 <= MAX_HEAD
    requires Announces(WrittenParts(line, fields), h) && !h.chunked && h.length == 0
    ensures var t := HeadTurn(c, handler).conn;
      var asked := if h.expectContinue then [Continue] else [];
      var raw := Between(Written(fields));
      var request := Request(line.verb, line.target, line.version, raw, "", h.keepAlive, c.first);
      t.Conn? && t.inbuf == rest && !t.first && t.trace == c.trace + asked + [Dispatch(request)]
      && t.pending == Some(handler(c.trace + asked, request))
  {
    RequestRead(c, handler, line, fields, rest, h);
  }

  /** So is one written with a body of the length it announces. */
  lemma BodyDispatched(c: Conn, handler: Handler, head: Head, body: string, rest: string)
    requires c.Conn? && c.parse == InBody(head, "", head.length) && c.inbuf == body + rest
    requires |body| == head.length <= MAX_BODY
    ensures var t := BodyTurn(c, handler).conn;
      var request := Request(head.verb, head.target, head.version, head.rawHead, body, head.keepAlive, c.first);
      t.Conn? && t.inbuf == rest && !t.first && t.trace == c.trace + [Dispatch(request)]
      && t.pending == Some(handler(c.trace, request))
  {
    assert c.inbuf[..|body|] == body && c.inbuf[|body|..] == rest && "" + body == body;
  }
}

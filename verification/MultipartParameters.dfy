/** What `multipartParameter` finds in a header. After an unquoted value that is not wanted
    the search goes on behind the next semicolon but one, so the parameter in between is
    passed over; if that one is quoted and its text holds a semicolon, the search goes on
    inside the quotes, and may find there what is no parameter of the header. */
module MultipartParameters {
  import opened Sequences
  import opened Bytes
  import opened Wrappers
  import opened MultipartText

  /** A word without a value, a quoted parameter, one without quotes. */
  datatype Param = Word(text: string) | InQuotes(key: string, text: string) | Open(key: string, text: string)

  /** A parameter after some white space. */
  datatype Segment = Segment(lead: string, param: Param)

  function Shown(p: Param): string {
    match p
    case Word(text) => text
    case InQuotes(key, text) => key + ("=" + ("\"" + (EscapeQuoted(text) + "\"")))
    case Open(key, text) => key + ("=" + text)
  }

  /** The segments of a header, with semicolons between them. */
  function HeaderOf(ps: seq<Segment>): string
    decreases |ps|, 0
  {
    if ps == [] then "" else ps[0].lead + (Shown(ps[0].param) + Tail(ps[1..]))
  }

  function Tail(ps: seq<Segment>): string
    decreases |ps|, 1
  {
    if ps == [] then "" else ";" + HeaderOf(ps)
  }

  predicate Blanks(s: string) { forall c :: c in s ==> c == ' ' || c == '\t' }

  predicate Starts(s: string) { s != "" && s[0] != ' ' && s[0] != '\t' }

  predicate KeyText(key: string) { Starts(key) && '=' !in key && ';' !in key }

  predicate WellFormed(s: Segment) {
    && Blanks(s.lead)
    && match s.param
       case Word(text) => Starts(text) && '=' !in text && ';' !in text
       case InQuotes(key, _) => KeyText(key)
       case Open(key, text) => KeyText(key) && ';' !in text && (text == "" || text[0] != '"')
  }

  predicate AllWellFormed(ps: seq<Segment>) {
    forall i :: 0 <= i < |ps| ==> WellFormed(ps[i])
  }

  /** The parameter has the wanted name. */
  predicate Is(p: Param, wanted: string) { !p.Word? && Lower(Trim(p.key)) == Lower(wanted) }

  /** What a parameter is read as. */
  function ReadAs(p: Param): string { if p.InQuotes? then PercentBreaks(p.text) else Trim(p.text) }

  /** A parameter that makes the search pass over the next one. */
  predicate Swallows(p: Param, wanted: string) { p.Open? && !Is(p, wanted) }

  /** A quoted text with something like a parameter behind its first semicolon. */
  predicate Leaks(p: Param) { p.InQuotes? && '=' in AfterSemicolon(p.text) }

  /** The end of such a parameter, as it is written, from behind that semicolon. */
  function Inside(p: Param): string
    requires p.InQuotes?
  {
    EscapeQuoted(AfterSemicolon(p.text)) + "\""
  }

  // ---- the search on the parameters ------------------------------------------------------------

  function Find(ps: seq<Segment>, wanted: string): Option<string>
    decreases |ps|
  {
    if ps == [] then None
    else if Is(ps[0].param, wanted) then Some(ReadAs(ps[0].param))
    else if !Swallows(ps[0].param, wanted) then Find(ps[1..], wanted)
    else if |ps| == 1 then None
    else if Leaks(ps[1].param) then Parameter(Inside(ps[1].param) + Tail(ps[2..]), wanted)
    else Find(ps[2..], wanted)
  }

  /** The search comes by the parameter at place `i`, unless it has ended before. */
  predicate Visited(ps: seq<Segment>, wanted: string, i: nat)
    requires i < |ps|
  {
    i == 0 || !(Visited(ps, wanted, i - 1) && Swallows(ps[i - 1].param, wanted))
  }

  predicate Hit(ps: seq<Segment>, wanted: string, i: nat)
    requires i < |ps|
  {
    Visited(ps, wanted, i) && Is(ps[i].param, wanted)
  }

  /** The parameter is passed over, and the search goes on inside it. */
  predicate Strays(ps: seq<Segment>, wanted: string, i: nat)
    requires i < |ps|
  {
    !Visited(ps, wanted, i) && Leaks(ps[i].param)
  }

  /** The search does not end here. */
  predicate Passes(ps: seq<Segment>, wanted: string, i: nat)
    requires i < |ps|
  {
    !Hit(ps, wanted, i) && !Strays(ps, wanted, i)
  }

  /** The first place where the search ends or leaves the parameters. */
  predicate EndsAt(ps: seq<Segment>, wanted: string, i: nat)
    requires i <= |ps|
  {
    (i < |ps| ==> !Passes(ps, wanted, i)) && forall j: nat :: j < i ==> Passes(ps, wanted, j)
  }

  lemma {:induction false} VisitedFrom(ps: seq<Segment>, wanted: string, n: nat, i: nat)
    requires n + i < |ps| && Visited(ps, wanted, n)
    ensures Visited(ps, wanted, n + i) == Visited(ps[n..], wanted, i)
    decreases i
  {
    if i > 0 { VisitedFrom(ps, wanted, n, i - 1); }
  }

  lemma PassesFrom(ps: seq<Segment>, wanted: string, n: nat, i: nat)
    requires n + i < |ps| && Visited(ps, wanted, n)
    ensures Hit(ps, wanted, n + i) == Hit(ps[n..], wanted, i)
    ensures Strays(ps, wanted, n + i) == Strays(ps[n..], wanted, i)
  {
    VisitedFrom(ps, wanted, n, i);
  }

  /** How many parameters a search that does not end at the first goes past. */
  function Past(ps: seq<Segment>, wanted: string): nat
    requires ps != []
  {
    if Swallows(ps[0].param, wanted) then 2 else 1
  }

  lemma PastVisited(ps: seq<Segment>, wanted: string, i: nat)
    requires ps != [] && !Is(ps[0].param, wanted) && i < |ps|
    ensures i < Past(ps, wanted) ==> !Hit(ps, wanted, i) && (Strays(ps, wanted, i) <==> i == 1 && Leaks(ps[1].param))
    ensures i == Past(ps, wanted) ==> Visited(ps, wanted, i)
  {
    assert Visited(ps, wanted, 0);
  }

  lemma EndsFrom(ps: seq<Segment>, wanted: string, k: nat)
    requires ps != [] && !Is(ps[0].param, wanted) && Past(ps, wanted) + k <= |ps|
    requires Swallows(ps[0].param, wanted) ==> !Leaks(ps[1].param)
    requires EndsAt(ps[Past(ps, wanted)..], wanted, k)
    ensures EndsAt(ps, wanted, Past(ps, wanted) + k)
  {
    var n := Past(ps, wanted);
    forall j: nat | j < n + k
      ensures Passes(ps, wanted, j)
    {
      PassesOne(ps, wanted, k, j);
    }
    if n + k < |ps| {
      PastVisited(ps, wanted, n);
      PassesFrom(ps, wanted, n, k);
    }
  }

  lemma PassesOne(ps: seq<Segment>, wanted: string, k: nat, j: nat)
    requires ps != [] && !Is(ps[0].param, wanted) && j < Past(ps, wanted) + k <= |ps|
    requires Swallows(ps[0].param, wanted) ==> !Leaks(ps[1].param)
    requires EndsAt(ps[Past(ps, wanted)..], wanted, k)
    ensures Passes(ps, wanted, j)
  {
    var n := Past(ps, wanted);
    PastVisited(ps, wanted, j);
    if j >= n {
      PastVisited(ps, wanted, n);
      PassesFrom(ps, wanted, n, j - n);
      assert Passes(ps[n..], wanted, j - n);
    }
  }

  /** What is found when the search ends at place `i`. */
  function FoundAt(ps: seq<Segment>, wanted: string, i: nat): Option<string>
    requires i <= |ps|
  {
    if i == |ps| then None
    else if Hit(ps, wanted, i) then Some(ReadAs(ps[i].param))
    else if Strays(ps, wanted, i) then Parameter(Inside(ps[i].param) + Tail(ps[i + 1..]), wanted)
    else None
  }

  lemma FoundFrom(ps: seq<Segment>, wanted: string, n: nat, k: nat)
    requires n < |ps| && n + k <= |ps| && Visited(ps, wanted, n)
    ensures FoundAt(ps, wanted, n + k) == FoundAt(ps[n..], wanted, k)
  {
    if n + k < |ps| {
      PassesFrom(ps, wanted, n, k);
      assert ps[n..][k + 1..] == ps[n + k + 1..];
    }
  }

  /** Where the search ends, and with what. */
  lemma {:induction false} FindTells(ps: seq<Segment>, wanted: string) returns (i: nat)
    ensures i <= |ps| && EndsAt(ps, wanted, i) && Find(ps, wanted) == FoundAt(ps, wanted, i)
    decreases |ps|
  {
    if ps == [] || Is(ps[0].param, wanted) { return 0; }
    var n := Past(ps, wanted);
    PastVisited(ps, wanted, 0);
    if n > |ps| { return 1; }
    if n == 2 {
      PastVisited(ps, wanted, 1);
      if Leaks(ps[1].param) { return 1; }
    }
    var k := FindTells(ps[n..], wanted);
    i := n + k;
    EndsFrom(ps, wanted, k);
    if n < |ps| {
      PastVisited(ps, wanted, n);
      FoundFrom(ps, wanted, n, k);
    }
  }

  // ---- the search on the text --------------------------------------------------------------------

  lemma {:induction false} SkipBlanks(lead: string, s: string)
    requires Blanks(lead)
    ensures Skipped(lead + s) == Skipped(s)
    decreases |lead|
  {
    if lead == [] {
      assert lead + s == s;
    } else {
      assert lead[0] in lead && forall c :: c in lead[1..] ==> c in lead;
      assert (lead + s)[1..] == lead[1..] + s;
      SkipBlanks(lead[1..], s);
    }
  }

  /** White space in front does not matter. */
  lemma LeadIgnored(lead: string, s: string, wanted: string)
    requires Blanks(lead)
    ensures Parameter(lead + s, wanted) == Parameter(s, wanted)
  {
    SkipBlanks(lead, s);
    PieceDecides(lead + s, s, wanted);
  }

  lemma PieceDecides(a: string, b: string, wanted: string)
    requires PieceOf(a) == PieceOf(b)
    ensures Parameter(a, wanted) == Parameter(b, wanted)
  {
  }

  /** A name before its value. */
  lemma KeyPiece(key: string, y: string)
    requires KeyText(key)
    ensures PieceOf(key + ("=" + y)) == Named(Lower(Trim(key)), y)
  {
    var s := key + ("=" + y);
    assert s[0] == key[0] && key[0] in key;
    assert Skipped(s) == s;
    assert s[..|key|] == key && s[|key|] == '=' && s[|key| + 1..] == y;
    FirstOf(s, '=', |key|);
    SemicolonLater(key, "=" + y);
  }

  lemma AfterTail(rest: seq<Segment>)
    ensures AfterSemicolon(Tail(rest)) == HeaderOf(rest)
  {
    if rest != [] {
      assert Tail(rest)[..0] == "" && Tail(rest)[1..] == HeaderOf(rest);
      FirstOf(Tail(rest), ';', 0);
    }
  }

  lemma QuotesPassed(key: string, text: string, rest: seq<Segment>, wanted: string)
    requires KeyText(key)
    ensures Parameter(Shown(InQuotes(key, text)) + Tail(rest), wanted)
      == if Lower(Trim(key)) == Lower(wanted) then Some(PercentBreaks(text)) else Parameter(HeaderOf(rest), wanted)
  {
    var y := "\"" + (EscapeQuoted(text) + "\"" + Tail(rest));
    assert Shown(InQuotes(key, text)) + Tail(rest) == key + ("=" + y);
    KeyPiece(key, y);
    ValueQuoted(text, Tail(rest));
    ParameterNamed(key + ("=" + y), Lower(Trim(key)), y, wanted);
    AfterTail(rest);
  }

  /** A value without quotes ends at the next semicolon, which belongs to it. */
  lemma OpenValue(text: string, rest: seq<Segment>)
    requires ';' !in text && (text == "" || text[0] != '"')
    ensures ValueOf(text + Tail(rest)) == (Trim(text), HeaderOf(rest))
  {
    if rest == [] {
      assert text + Tail(rest) == text;
      NoSemicolon(text);
    } else {
      OneSemicolon(text, HeaderOf(rest));
      assert text != "" ==> (text + Tail(rest))[0] == text[0];
    }
  }

  lemma OpenPassed(key: string, text: string, rest: seq<Segment>, wanted: string)
    requires KeyText(key) && ';' !in text && (text == "" || text[0] != '"')
    ensures Parameter(Shown(Open(key, text)) + Tail(rest), wanted)
      == if Lower(Trim(key)) == Lower(wanted) then Some(Trim(text))
        else Parameter(AfterSemicolon(HeaderOf(rest)), wanted)
  {
    var y := text + Tail(rest);
    assert Shown(Open(key, text)) + Tail(rest) == key + ("=" + y);
    KeyPiece(key, y);
    OpenValue(text, rest);
    ParameterNamed(key + ("=" + y), Lower(Trim(key)), y, wanted);
  }

  /** Quoting neither adds nor takes away a semicolon or an `=`. */
  lemma {:induction false} KeptByQuoting(s: string, d: char)
    requires d == ';' || d == '='
    ensures d in EscapeQuoted(s) <==> d in s
    decreases |s|
  {
    if s != "" {
      assert s == [s[0]] + s[1..] && s[0] in s;
      EscapeAppend([s[0]], s[1..]);
      EscapeChar(s[0]);
      KeptByQuoting(s[1..], d);
    } else {
      assert EscapeQuoted("") == "";
    }
  }

  lemma SemicolonBehind(x: string, rest: seq<Segment>)
    requires ';' !in x
    ensures AfterSemicolon(x + Tail(rest)) == HeaderOf(rest)
  {
    if rest == [] {
      assert x + Tail(rest) == x;
      NoSemicolon(x);
    } else {
      OneSemicolon(x, HeaderOf(rest));
    }
  }

  lemma NoSemicolon(x: string)
    requires ';' !in x
    ensures AfterSemicolon(x) == "" && IndexOf(x, ";", 0) < 0
  {
    var i := IndexOf(x, ";", 0);
    if i >= 0 { MatchOf(x, ';', i); }
  }

  lemma OneSemicolon(x: string, more: string)
    requires ';' !in x
    ensures var s := x + (";" + more);
      AfterSemicolon(s) == more && IndexOf(s, ";", 0) == |x| && s[..|x|] == x && s[|x| + 1..] == more
  {
    var s := x + (";" + more);
    assert s[..|x|] == x && s[|x|] == ';' && s[|x| + 1..] == more;
    FirstOf(s, ';', |x|);
  }

  lemma ShownClear(s: Segment)
    requires WellFormed(s) && ';' !in s.param.text
    ensures ';' !in s.lead + Shown(s.param)
  {
    KeptByQuoting(s.param.text, ';');
  }

  /** The next semicolon is the one behind the first parameter. */
  lemma OneSwallowed(ps: seq<Segment>)
    requires ps != [] && WellFormed(ps[0]) && ';' !in ps[0].param.text
    ensures AfterSemicolon(HeaderOf(ps)) == HeaderOf(ps[1..])
  {
    ShownClear(ps[0]);
    SemicolonBehind(ps[0].lead + Shown(ps[0].param), ps[1..]);
    Associates(ps[0].lead, Shown(ps[0].param), Tail(ps[1..]));
  }

  lemma EqualsShown(p: Param)
    ensures !p.Word? ==> '=' in Shown(p)
  {
    if !p.Word? { assert Shown(p)[|p.key|] == '='; }
  }

  /** Nothing is found where there is no `=`. */
  lemma {:induction false} WordsOnly(ps: seq<Segment>, wanted: string)
    requires '=' !in HeaderOf(ps)
    ensures Find(ps, wanted) == None
    decreases |ps|
  {
    if ps != [] {
      var s := Shown(ps[0].param);
      assert forall c :: c in s || c in Tail(ps[1..]) ==> c in HeaderOf(ps);
      EqualsShown(ps[0].param);
      if |ps| > 1 { assert forall c :: c in HeaderOf(ps[1..]) ==> c in Tail(ps[1..]); }
      WordsOnly(ps[1..], wanted);
    }
  }

  lemma NoEquals(s: string, wanted: string)
    requires '=' !in s
    ensures Parameter(s, wanted) == None
  {
    SkippedWithin(s);
    var t := Skipped(s);
    var i := IndexOf(t, "=", 0);
    if i >= 0 { MatchOf(t, '=', i); }
  }

  lemma {:induction false} SkippedWithin(s: string)
    ensures forall c :: c in Skipped(s) ==> c in s
    decreases |s|
  {
    if s != "" { SkippedWithin(s[1..]); }
  }

  /** A text without `=` in front is passed over, semicolons and all. */
  lemma {:induction false} TextPassed(text: string, rest: seq<Segment>, wanted: string)
    requires '=' !in text
    ensures Parameter(text + Tail(rest), wanted) == Parameter(HeaderOf(rest), wanted)
  {
    if '=' !in HeaderOf(rest) {
      assert '=' !in text + Tail(rest);
      NoEquals(text + Tail(rest), wanted);
      NoEquals(HeaderOf(rest), wanted);
    } else {
      TextGone(text, HeaderOf(rest), wanted);
    }
  }

  lemma {:induction false} TextGone(text: string, more: string, wanted: string)
    requires '=' !in text && '=' in more
    ensures Parameter(text + (";" + more), wanted) == Parameter(more, wanted)
    decreases |text|
  {
    if text == "" {
      assert [';'] + more == text + (";" + more);
      Separated(';', more, wanted);
    } else if text[0] == ';' || text[0] == ' ' || text[0] == '\t' {
      Separated(text[0], text[1..] + (";" + more), wanted);
      assert [text[0]] + (text[1..] + (";" + more)) == text + (";" + more);
      TextGone(text[1..], more, wanted);
    } else {
      var k := WordGone(text, more, wanted);
      if k < |text| { TextGone(text[k + 1..], more, wanted); }
    }
  }

  lemma Separated(c: char, s: string, wanted: string)
    requires c == ';' || c == ' ' || c == '\t'
    ensures Parameter([c] + s, wanted) == Parameter(s, wanted)
  {
    assert ([c] + s)[1..] == s;
    PieceDecides([c] + s, s, wanted);
  }

  /** A word in front is passed over, up to the first semicolon. */
  lemma WordGone(text: string, more: string, wanted: string) returns (k: nat)
    requires Starts(text) && text[0] != ';' && '=' !in text && '=' in more
    ensures k <= |text| && Parameter(text + (";" + more), wanted)
      == if k < |text| then Parameter(text[k + 1..] + (";" + more), wanted) else Parameter(more, wanted)
  {
    var s := text + (";" + more);
    k := WordPiece(text, more);
    ParameterBare(s, s[k + 1..], wanted);
    assert s[k + 1..] == if k < |text| then text[k + 1..] + (";" + more) else more;
  }

  lemma ParameterBare(s: string, more: string, wanted: string)
    requires PieceOf(s) == Piece.Bare(more)
    ensures Parameter(s, wanted) == Parameter(more, wanted)
  {
  }

  lemma WordPiece(text: string, more: string) returns (k: nat)
    requires Starts(text) && text[0] != ';' && '=' !in text && '=' in more
    ensures k <= |text| && PieceOf(text + (";" + more)) == Piece.Bare((text + (";" + more))[k + 1..])
  {
    var s := text + (";" + more);
    assert s[0] == text[0] && s[|text|] == ';';
    assert Skipped(s) == s;
    assert At(s, ";", |text|);
    k := IndexOf(s, ";", 0);
    EqualsBehind(s, text, more);
  }

  lemma EqualsBehind(s: string, text: string, more: string)
    requires s == text + (";" + more) && '=' !in text && '=' in more
    ensures IndexOf(s, "=", 0) > |text|
  {
    NotBefore(text, ";" + more, '=');
    var j :| 0 <= j < |more| && more[j] == '=';
    assert At(s, "=", |text| + 1 + j);
    var i := IndexOf(s, "=", 0);
    if i == |text| { MatchOf(s, '=', i); }
  }

  lemma CutAtSemicolon(text: string) returns (before: string)
    requires ';' in text
    ensures ';' !in before && text == before + (";" + AfterSemicolon(text))
  {
    var j :| 0 <= j < |text| && text[j] == ';';
    assert At(text, ";", j);
    var i := IndexOf(text, ";", 0);
    MatchOf(text, ';', i);
    before := text[..i];
    forall k | 0 <= k < |before| ensures before[k] != ';' { assert !At(text, ";", k); }
  }

  /** A text is cut at its first semicolon, and so is its quoted form. */
  lemma QuotedSplit(text: string) returns (before: string)
    requires ';' in text
    ensures ';' !in EscapeQuoted(before)
    ensures EscapeQuoted(text) == EscapeQuoted(before) + (";" + EscapeQuoted(AfterSemicolon(text)))
  {
    before := CutAtSemicolon(text);
    QuotedJoin(before, AfterSemicolon(text));
    KeptByQuoting(before, ';');
  }

  lemma QuotedJoin(before: string, behind: string)
    ensures EscapeQuoted(before + (";" + behind)) == EscapeQuoted(before) + (";" + EscapeQuoted(behind))
  {
    EscapeAppend(before, ";" + behind);
    EscapeAppend(";", behind);
    EscapeChar(';');
  }

  /** Behind the first semicolon of a quoted text the search is inside the quotes. */
  lemma SwallowedQuotes(s: Segment, rest: seq<Segment>)
    requires WellFormed(s) && s.param.InQuotes? && ';' in s.param.text
    ensures AfterSemicolon(HeaderOf([s] + rest)) == Inside(s.param) + Tail(rest)
  {
    var before := QuotedSplit(s.param.text);
    var front := s.lead + (s.param.key + ("=" + ("\"" + EscapeQuoted(before))));
    assert ([s] + rest)[1..] == rest;
    QuotesRegrouped(s.lead, s.param.key, EscapeQuoted(before), EscapeQuoted(AfterSemicolon(s.param.text)), Tail(rest));
    OneSemicolon(front, Inside(s.param) + Tail(rest));
  }

  lemma QuotesRegrouped(lead: string, key: string, before: string, behind: string, tail: string)
    ensures lead + ((key + ("=" + ("\"" + ((before + (";" + behind)) + "\"")))) + tail)
      == (lead + (key + ("=" + ("\"" + before)))) + (";" + ((behind + "\"") + tail))
  {
  }

  /** Behind the next semicolon: the next parameter is passed over, or the search goes on
      inside it. */
  lemma Swallowed(s: Segment, rest: seq<Segment>, wanted: string)
    requires WellFormed(s)
    ensures Parameter(AfterSemicolon(HeaderOf([s] + rest)), wanted)
      == if Leaks(s.param) then Parameter(Inside(s.param) + Tail(rest), wanted) else Parameter(HeaderOf(rest), wanted)
  {
    assert ([s] + rest)[1..] == rest;
    if ';' !in s.param.text {
      OneSwallowed([s] + rest);
      if s.param.InQuotes? { NoSemicolon(s.param.text); }
    } else {
      SwallowedQuotes(s, rest);
      if !Leaks(s.param) {
        KeptByQuoting(AfterSemicolon(s.param.text), '=');
        TextPassed(Inside(s.param), rest, wanted);
      }
    }
  }

  /** The first parameter of a header: it is the wanted one, or the search goes on. */
  lemma FirstPassed(s: Segment, rest: seq<Segment>, wanted: string)
    requires WellFormed(s)
    ensures Parameter(s.lead + (Shown(s.param) + Tail(rest)), wanted)
      == if Is(s.param, wanted) then Some(ReadAs(s.param))
         else if Swallows(s.param, wanted) then Parameter(AfterSemicolon(HeaderOf(rest)), wanted)
         else Parameter(HeaderOf(rest), wanted)
  {
    LeadIgnored(s.lead, Shown(s.param) + Tail(rest), wanted);
    match s.param
    case Word(text) => TextPassed(text, rest, wanted);
    case InQuotes(key, text) => QuotesPassed(key, text, rest, wanted);
    case Open(key, text) => OpenPassed(key, text, rest, wanted);
  }

  lemma PassedOverIs(first: Segment, s: Segment, rest: seq<Segment>, wanted: string)
    requires WellFormed(first) && WellFormed(s) && Swallows(first.param, wanted)
    ensures Parameter(HeaderOf([first, s] + rest), wanted)
      == if Leaks(s.param) then Parameter(Inside(s.param) + Tail(rest), wanted) else Parameter(HeaderOf(rest), wanted)
  {
    var ps := [first, s] + rest;
    assert ps[0] == first && ps[1..] == [s] + rest;
    FirstPassed(first, ps[1..], wanted);
    Swallowed(s, rest, wanted);
  }

  lemma RestWellFormed(ps: seq<Segment>, n: nat)
    requires AllWellFormed(ps) && n <= |ps|
    ensures AllWellFormed(ps[n..])
  {
  }

  /** The text search is the search on the parameters, for every list of them. */
  lemma {:induction false} ParameterFinds(ps: seq<Segment>, wanted: string)
    requires AllWellFormed(ps)
    ensures Parameter(HeaderOf(ps), wanted) == Find(ps, wanted)
    decreases |ps|
  {
    if ps == [] {
      NoEquals("", wanted);
    } else if !Swallows(ps[0].param, wanted) {
      FirstPassed(ps[0], ps[1..], wanted);
      RestWellFormed(ps, 1);
      ParameterFinds(ps[1..], wanted);
    } else if |ps| == 1 {
      FirstPassed(ps[0], [], wanted);
      NoEquals(AfterSemicolon(HeaderOf([])), wanted);
    } else {
      TwoPassed(ps, wanted);
      RestWellFormed(ps, 2);
      ParameterFinds(ps[2..], wanted);
    }
  }

  lemma TwoPassed(ps: seq<Segment>, wanted: string)
    requires AllWellFormed(ps) && |ps| > 1 && Swallows(ps[0].param, wanted)
    ensures Parameter(HeaderOf(ps), wanted) == if Leaks(ps[1].param)
      then Parameter(Inside(ps[1].param) + Tail(ps[2..]), wanted) else Parameter(HeaderOf(ps[2..]), wanted)
  {
    assert ps == [ps[0], ps[1]] + ps[2..];
    PassedOverIs(ps[0], ps[1], ps[2..], wanted);
  }

  /** Exactly what is found. The search ends at one place: at the first parameter of the
      wanted name that it comes by; inside a quoted parameter that it passes over, and then
      what is found is what the text behind the semicolon in it gives; or nowhere, and
      then nothing is found. */
  lemma ParameterExactly(ps: seq<Segment>, wanted: string, i: nat)
    requires AllWellFormed(ps) && i <= |ps|
    ensures EndsAt(ps, wanted, i) ==> Parameter(HeaderOf(ps), wanted) == FoundAt(ps, wanted, i)
    ensures exists k: nat :: k <= |ps| && EndsAt(ps, wanted, k)
    ensures (forall j: nat :: j < |ps| ==> !Strays(ps, wanted, j)) ==>
      (Parameter(HeaderOf(ps), wanted) == None <==> forall j: nat :: j < |ps| ==> !Hit(ps, wanted, j))
  {
    ParameterFinds(ps, wanted);
    var k := FindTells(ps, wanted);
    if EndsAt(ps, wanted, i) { OneEnd(ps, wanted, i, k); }
    if k < |ps| && !Strays(ps, wanted, k) { assert Hit(ps, wanted, k); }
    if k == |ps| {
      forall j: nat | j < |ps| ensures !Hit(ps, wanted, j) { assert Passes(ps, wanted, j); }
    }
  }

  lemma OneEnd(ps: seq<Segment>, wanted: string, i: nat, k: nat)
    requires i <= |ps| && k <= |ps| && EndsAt(ps, wanted, i) && EndsAt(ps, wanted, k)
    ensures i == k
  {
  }

  /** A parameter that is the only one of its name is what is found if and only if the
      search comes by it, and has not gone on inside another one before. */
  lemma OnlyOneFoundExactly(ps: seq<Segment>, wanted: string, i: nat)
    requires AllWellFormed(ps) && i < |ps| && Is(ps[i].param, wanted)
    requires forall j: nat :: j < |ps| && j != i ==> !Is(ps[j].param, wanted)
    ensures EndsAt(ps, wanted, i) && Hit(ps, wanted, i)
      <==> Visited(ps, wanted, i) && forall j: nat :: j < i ==> !Strays(ps, wanted, j)
    ensures EndsAt(ps, wanted, i) && Hit(ps, wanted, i) ==>
      Parameter(HeaderOf(ps), wanted) == Some(ReadAs(ps[i].param))
    ensures !Visited(ps, wanted, i) && (forall j: nat :: j < |ps| ==> !Strays(ps, wanted, j)) ==>
      Parameter(HeaderOf(ps), wanted) == None
  {
    ParameterExactly(ps, wanted, i);
    assert forall j: nat :: j < |ps| && j != i ==> !Hit(ps, wanted, j);
    if Visited(ps, wanted, i) && forall j: nat :: j < i ==> !Strays(ps, wanted, j) {
      assert Hit(ps, wanted, i);
      assert forall j: nat :: j < i ==> Passes(ps, wanted, j);
    }
    if EndsAt(ps, wanted, i) && Hit(ps, wanted, i) {
      forall j: nat | j < i ensures !Strays(ps, wanted, j) { assert Passes(ps, wanted, j); }
    }
  }

  /** A parameter that stands directly behind an unquoted one of another name is not come
      by: the search ends with nothing, or goes on inside it. */
  lemma MissedAfterUnquoted(first: Segment, second: Segment, wanted: string)
    requires WellFormed(first) && WellFormed(second) && Swallows(first.param, wanted)
    ensures Parameter(HeaderOf([first, second]), wanted)
      == if Leaks(second.param) then Parameter(Inside(second.param), wanted) else None
  {
    var ps := [first, second];
    ParameterFinds(ps, wanted);
    assert ps[2..] == [] && Tail([]) == "";
    if Leaks(second.param) { assert Inside(second.param) + Tail([]) == Inside(second.param); }
  }

  // ---- what may be passed over ---------------------------------------------------------------------

  /** Behind an unquoted parameter of another name, the search is as if the parameter in
      between were not there. */
  predicate PassedOver(first: Segment, s: Segment, rest: seq<Segment>, wanted: string) {
    WellFormed(first) && AllWellFormed(rest) && Swallows(first.param, wanted) ==>
      Parameter(HeaderOf([first, s] + rest), wanted) == Parameter(HeaderOf(rest), wanted)
  }

  lemma {:induction false} LowerTwice(s: string)
    ensures Lower(Lower(s)) == Lower(s)
  {
  }

  /** Where there is an `=`, some name is found. */
  lemma {:induction false} SomeName(s: string) returns (name: string)
    requires '=' in s
    ensures Lower(name) == name && Parameter(s, name).Some?
    decreases |s|
  {
    KeepsEquals(s);
    match PieceOf(s)
    case NoMore => assert false; name := "";
    case Bare(rest) => name := SomeName(rest);
    case Named(found, _) =>
      name := found;
      NameLower(Skipped(s));
  }

  lemma NameLower(s: string)
    ensures PieceAt(s).Named? ==> Lower(PieceAt(s).name) == PieceAt(s).name
  {
    if PieceAt(s).Named? { LowerTwice(Trim(s[..IndexOf(s, "=", 0)])); }
  }

  lemma {:induction false} SkippedKeeps(s: string)
    ensures '=' in s ==> '=' in Skipped(s)
    decreases |s|
  {
    if s != "" { SkippedKeeps(s[1..]); }
  }

  /** A first piece without `=` leaves the `=` to the rest. */
  lemma KeepsEquals(s: string)
    requires '=' in s
    ensures !PieceOf(s).NoMore? && (PieceOf(s).Bare? ==> '=' in PieceOf(s).rest)
  {
    SkippedKeeps(s);
    var t := Skipped(s);
    FirstEquals(t);
    PieceKeeps(t, IndexOf(t, "=", 0), IndexOf(t, ";", 0));
  }

  lemma FirstEquals(t: string)
    requires '=' in t
    ensures var i := IndexOf(t, "=", 0); 0 <= i < |t| && t[i] == '='
  {
    var j :| 0 <= j < |t| && t[j] == '=';
    assert At(t, "=", j);
    MatchOf(t, '=', IndexOf(t, "=", 0));
  }

  lemma PieceKeeps(t: string, equals: int, semicolon: int)
    requires 0 <= equals < |t| && t[equals] == '=' && semicolon < |t|
    ensures var p := PieceBy(t, equals, semicolon); !p.NoMore? && (p.Bare? ==> '=' in p.rest)
  {
    if 0 <= semicolon < equals { assert t[semicolon + 1..][equals - semicolon - 1] == '='; }
  }

  /** A parameter can be passed over unnoticed, whatever stands around it and whatever name is
      wanted, if and only if its text holds no `=` behind a semicolon. */
  lemma PassedOverExactly(s: Segment)
    requires WellFormed(s)
    ensures (forall first, rest, wanted :: PassedOver(first, s, rest, wanted)) <==> !Leaks(s.param)
  {
    if Leaks(s.param) {
      KeptByQuoting(AfterSemicolon(s.param.text), '=');
      var name := SomeName(Inside(s.param));
      var first := Segment("", Open(if name == "a" then "b" else "a", ""));
      TrimLetter('a');
      TrimLetter('b');
      PassedOverIs(first, s, [], name);
      assert Inside(s.param) + Tail([]) == Inside(s.param);
      NoEquals("", name);
      assert !PassedOver(first, s, [], name);
    } else {
      forall first: Segment, rest: seq<Segment>, wanted: string
        ensures PassedOver(first, s, rest, wanted)
      {
        if WellFormed(first) && AllWellFormed(rest) && Swallows(first.param, wanted) {
          PassedOverIs(first, s, rest, wanted);
        }
      }
    }
  }

  lemma TrimLetter(c: char)
    requires 'a' <= c <= 'z'
    ensures Lower(Trim([c])) == [c]
  {
  }

  predicate PlainText(s: string) { '\\' !in s && '"' !in s && NoBreak(s) }

  lemma PlainKept(s: string)
    requires PlainText(s)
    ensures EscapeQuoted(s) == s
  {
    ReplacedNone(s, '\\', "\\\\");
    ReplacedNone(s, '"', "\\\"");
    ReplacedNone(s, '\r', "%0D");
    ReplacedNone(s, '\n', "%0A");
  }

  lemma InsideIs(p: Param, before: string, key: string, value: string)
    requires p.InQuotes? && p.text == before + (";" + (key + ("=" + value))) && ';' !in before
    requires PlainText(key) && PlainText(value)
    ensures Leaks(p) && Inside(p) == key + ("=" + (value + "\""))
  {
    var more := key + ("=" + value);
    OneSemicolon(before, more);
    PlainPair(key, value);
    PlainKept(more);
  }

  lemma PlainPair(key: string, value: string)
    requires PlainText(key) && PlainText(value)
    ensures PlainText(key + ("=" + value)) && '=' in key + ("=" + value)
    ensures (key + ("=" + value)) + "\"" == key + ("=" + (value + "\""))
  {
    assert (key + ("=" + value))[|key|] == '=';
  }

  lemma FoundNamed(s: string, key: string, value: string, wanted: string)
    requires KeyText(key) && Lower(Trim(key)) == Lower(wanted) && s == key + ("=" + value)
    requires value != "" && value[0] != '"' && ';' !in value && Trimmed(value)
    ensures Parameter(s, wanted) == Some(value)
  {
    TrimOf(value);
    OpenPassed(key, value, [], wanted);
    assert Shown(Open(key, value)) + Tail([]) == s;
  }

  /** What is found inside a quoted parameter that is passed over: the value written there,
      up to the closing quote and with it. */
  lemma NameInside(ps: seq<Segment>, before: string, key: string, value: string, wanted: string)
    requires |ps| == 2 && AllWellFormed(ps) && Swallows(ps[0].param, wanted) && ps[1].param.InQuotes?
    requires ps[1].param.text == before + (";" + (key + ("=" + value))) && ';' !in before
    requires KeyText(key) && PlainText(key) && Lower(Trim(key)) == Lower(wanted)
    requires value != "" && ';' !in value && PlainText(value) && Trimmed(value + "\"")
    ensures Parameter(HeaderOf(ps), wanted) == Some(value + "\"")
  {
    assert ps == [ps[0], ps[1]];
    InsideIs(ps[1].param, before, key, value);
    MissedAfterUnquoted(ps[0], ps[1], wanted);
    FoundNamed(Inside(ps[1].param), key, value + "\"", wanted);
  }

  lemma OneLetter(c: char, wanted: string)
    requires 'a' <= c <= 'z' && |wanted| > 1
    ensures Lower(Trim([c])) != Lower(wanted)
  {
    TrimLetter(c);
  }

  lemma TextsPlain()
    ensures KeyText("name") && PlainText("name") && Lower(Trim("name")) == Lower("name")
    ensures PlainText("y") && Trimmed("y" + "\"")
  {
    TrimOf("name");
  }

  /** It happens: in a header of two parameters, `a=b;f="x;name=y"`, a name is found that
      neither of them has. */
  lemma FoundInside() returns (ps: seq<Segment>)
    ensures ps == [Segment("", Open("a", "b")), Segment("", InQuotes("f", "x;name=y"))] && AllWellFormed(ps)
    ensures forall i :: 0 <= i < |ps| ==> !Is(ps[i].param, "name")
    ensures Parameter(HeaderOf(ps), "name") == Some("y" + "\"")
  {
    var first, second := Segment("", Open("a", "b")), Segment("", InQuotes("f", "x;name=y"));
    OneLetter('a', "name");
    OneLetter('f', "name");
    TextsPlain();
    assert "x" + (";" + ("name" + ("=" + "y"))) == "x;name=y";
    ps := [first, second];
    NameInside(ps, "x", "name", "y", "name");
  }
}

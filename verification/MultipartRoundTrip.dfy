/** Parsing an encoded form gives the form back. */
module MultipartRoundTrip {
  import opened Bytes
  import opened Wrappers
  import opened MultipartText
  import opened Multipart

  // ---- the fixed names ----------------------------------------------------------------------

  lemma FixedNames()
    ensures Plain("name") && Plain("filename") && Plain("boundary")
    ensures Lower("name") == "name" && Lower("filename") == "filename" && "name" != "filename"
  {
  }

  lemma HeaderNames()
    ensures Trimmed(DISPOSITION) && NoBreak(DISPOSITION) && ':' !in DISPOSITION && DISPOSITION != ""
    ensures Trimmed(CONTENT_TYPE) && NoBreak(CONTENT_TYPE) && ':' !in CONTENT_TYPE && CONTENT_TYPE != ""
    ensures |DISPOSITION| != |CONTENT_TYPE|
  {
  }

  lemma FormDataIs()
    ensures '=' !in FORM_DATA && ';' !in FORM_DATA && NoBreak(FORM_DATA) && Trimmed(FORM_DATA)
      && Lower(FORM_DATA) == FORM_DATA
    ensures FORM_DATA != "" && FORM_DATA[0] == 'f'
  {
  }

  lemma MultipartIs()
    ensures '=' !in MULTIPART && ';' !in MULTIPART && MULTIPART != "" && MULTIPART[0] == 'm'
  {
  }

  lemma OctetsIs()
    ensures Trimmed(OCTETS) && OCTETS != "" && NormalizeType(OCTETS) == OCTETS
      && forall i :: 0 <= i < |OCTETS| ==> TypeChar(OCTETS[i])
  {
  }

  // ---- the disposition ------------------------------------------------------------------------

  /** A first segment without a value is passed over. */
  lemma BarePassed(first: string, rest: string, wanted: string)
    requires first != "" && '=' !in first && ';' !in first && first[0] != ' ' && first[0] != '\t'
    requires IndexOf(first + (";" + rest), "=", 0) >= 0
    ensures Parameter(first + (";" + rest), wanted) == Parameter(rest, wanted)
  {
    var s := first + (";" + rest);
    assert s[0] == first[0] && first[0] in first;
    assert Skipped(s) == s;
    assert s[..|first|] == first && s[|first|] == ';' && s[|first| + 1..] == rest;
    FirstOf(s, ';', |first|);
    NotBefore(first, ";" + rest, '=');
    var i := IndexOf(s, "=", 0);
    MatchOf(s, '=', i);
  }

  lemma HasEquals(a: string, b: string)
    ensures IndexOf(a + ("=" + b), "=", 0) >= 0
  {
    var s := a + ("=" + b);
    assert At(s, "=", |a|);
  }

  /** What the two parameters of a disposition are read as. */
  lemma DispositionRead(e: Entry)
    ensures Parameter(Disposition(e), "name") == Some(PercentBreaks(e.name))
    ensures Parameter(Disposition(e), "filename")
      == if e.value.File? then Some(PercentBreaks(e.value.fileName)) else None
  {
    FixedNames();
    FormDataIs();
    var tail := "\"" + (EscapeQuoted(e.name) + "\"" + FileParameter(e.value));
    var second := " " + ("name" + ("=" + tail));
    EqualsIn(FORM_DATA, "name", tail);
    BarePassed(FORM_DATA, second, "name");
    BarePassed(FORM_DATA, second, "filename");
    ParameterHit("name", e.name, FileParameter(e.value), "name");
    ParameterHit("name", e.name, FileParameter(e.value), "filename");
    FileParameterRead(e.value);
  }

  lemma EqualsIn(first: string, key: string, tail: string)
    ensures IndexOf(first + (";" + (" " + (key + ("=" + tail)))), "=", 0) >= 0
  {
    var a := first + ";" + " " + key;
    HasEquals(a, tail);
    assert a + ("=" + tail) == first + (";" + (" " + (key + ("=" + tail))));
  }

  lemma FileParameterRead(v: Value)
    ensures Parameter(AfterSemicolon(FileParameter(v)), "filename") == if v.File? then Some(PercentBreaks(v.fileName))
      else None
  {
    FixedNames();
    match v
    case Text(_) =>
      assert IndexOf("", ";", 0) < 0 && PieceOf("") == NoMore;
    case File(fileName, _, _) =>
      var more := " " + ("filename" + ("=" + ("\"" + (EscapeQuoted(fileName) + "\"" + ""))));
      FirstOf(";" + more, ';', 0);
      assert (";" + more)[1..] == more;
      ParameterHit("filename", fileName, "", "filename");
  }

  lemma SegmentShape(first: string, x: string)
    requires first != "" && NoBreak(first) && !IsSpace(first[0]) && ';' !in first
    requires NoBreak(x) && x != "" && x[|x| - 1] == '"'
    ensures var d := first + (";" + x); NoBreak(d) && Trimmed(d) && d != "" && FirstSegment(d) == first
  {
    var d := first + (";" + x);
    assert d[0] == first[0] && d[|d| - 1] == x[|x| - 1];
    assert d[..|first|] == first && d[|first|] == ';';
    FirstOf(d, ';', |first|);
  }

  /** A quoted parameter has no line break and ends in its quote. */
  lemma QuotedShape(key: string, text: string, more: string)
    requires NoBreak(key) && NoBreak(more) && (more != "" ==> more[|more| - 1] == '"')
    ensures var x := " " + (key + ("=" + ("\"" + (EscapeQuoted(text) + "\"" + more))));
      NoBreak(x) && x != "" && x[|x| - 1] == '"'
  {
    EscapedNoBreak(text);
    var tail := EscapeQuoted(text) + "\"" + more;
    assert tail[|tail| - 1] == '"' && NoBreak(tail);
  }

  lemma DispositionShape(e: Entry)
    ensures NoBreak(Disposition(e)) && Trimmed(Disposition(e)) && Disposition(e) != ""
      && FirstSegment(Disposition(e)) == FORM_DATA
  {
    FormDataIs();
    if e.value.File? { QuotedShape("filename", e.value.fileName, ""); }
    var more := FileParameter(e.value);
    assert NoBreak(more) && (more != "" ==> more[|more| - 1] == '"');
    QuotedShape("name", e.name, more);
    SegmentShape(FORM_DATA, " " + ("name" + ("=" + ("\"" + (EscapeQuoted(e.name) + "\"" + more)))));
  }

  // ---- the header lines -----------------------------------------------------------------------

  lemma LineRead(f: Fields, name: string, value: string)
    requires name != "" && Trimmed(name) && ':' !in name
    ensures ReadLine(f, HeaderLine(name, value)) ==
      if Names(name, DISPOSITION) then f.(disposition := Trim(value))
      else if Names(name, CONTENT_TYPE) then f.(mediaType := Trim(value))
      else f
  {
    var line := HeaderLine(name, value);
    assert line[..|name|] == name && line[|name|] == ':' && line[|name| + 1..] == " " + value;
    FirstOf(line, ':', |name|);
    assert (" " + value)[1..] == value;
  }

  lemma NoBreakWhole(s: string)
    requires NoBreak(s)
    ensures IndexOf(s, CRLF, 0) < 0
  {
    var i := IndexOf(s, CRLF, 0);
    if i >= 0 { MatchAt(s, CRLF, i, i); }
  }

  lemma NoBreakThen(a: string, b: string)
    requires NoBreak(a)
    ensures IndexOf(a + (CRLF + b), CRLF, 0) == |a|
  {
    var s := a + (CRLF + b);
    assert At(s, CRLF, |a|);
    forall k: int | 0 <= k < |a| ensures !At(s, CRLF, k) { if At(s, CRLF, k) { MatchAt(s, CRLF, k, k); } }
    IndexOfIs(s, CRLF, 0, |a|);
  }

  lemma NoLines(f: Fields)
    ensures ReadLines(f, []) == f
  {
  }

  lemma OneLine(f: Fields, line: string)
    requires NoBreak(line)
    ensures SplitLines(line) == [line] && ReadLines(f, [line]) == ReadLine(f, line)
  {
    NoBreakWhole(line);
    assert [line][1..] == [];
    NoLines(ReadLine(f, line));
  }

  lemma TwoLines(f: Fields, first: string, second: string)
    requires NoBreak(first) && NoBreak(second)
    ensures ReadLines(f, SplitLines(first + (CRLF + second))) == ReadLine(ReadLine(f, first), second)
  {
    var all := first + (CRLF + second);
    NoBreakThen(first, second);
    assert all[..|first|] == first && all[|first| + 2..] == second;
    OneLine(ReadLine(f, first), second);
    assert ([first] + [second])[1..] == [second];
  }

  lemma LineOk(name: string, value: string)
    requires NoBreak(name) && NoBreak(value)
    ensures NoBreak(HeaderLine(name, value))
  {
  }

  lemma DispositionLine(value: string)
    requires Trimmed(value)
    ensures ReadLine(Fields("", ""), HeaderLine(DISPOSITION, value)) == Fields(value, "")
  {
    HeaderNames();
    LineRead(Fields("", ""), DISPOSITION, value);
    TrimOf(DISPOSITION);
    TrimOf(value);
  }

  lemma TypeLine(f: Fields, value: string)
    ensures ReadLine(f, HeaderLine(CONTENT_TYPE, value)) == f.(mediaType := Trim(value))
  {
    HeaderNames();
    LineRead(f, CONTENT_TYPE, value);
    TrimOf(CONTENT_TYPE);
  }

  /** The head of a part is read as its disposition and its media type. */
  lemma HeadRead(e: Entry)
    requires NoBreak(TypeOf(e.value))
    ensures ReadLines(Fields("", ""), SplitLines(Head(e)))
      == Fields(Disposition(e), if e.value.File? then Trim(TypeOf(e.value)) else "")
  {
    HeaderNames();
    DispositionShape(e);
    var d, t := Disposition(e), TypeOf(e.value);
    LineOk(DISPOSITION, d);
    DispositionLine(d);
    if e.value.Text? {
      OneLine(Fields("", ""), HeaderLine(DISPOSITION, d));
    } else {
      LineOk(CONTENT_TYPE, t);
      TypeLine(Fields(d, ""), t);
      TwoLines(Fields("", ""), HeaderLine(DISPOSITION, d), HeaderLine(CONTENT_TYPE, t));
    }
  }

  // ---- where a part's head ends ------------------------------------------------------------------

  /** Every carriage return of a head is followed by a line that starts with neither a
      hyphen nor another. */
  predicate HeadSafe(h: string) {
    forall k :: 0 <= k < |h| && h[k] == '\r' ==> k + 2 < |h| && h[k + 2] != '-' && h[k + 2] != '\r'
  }

  lemma HeadIsSafe(e: Entry)
    requires NoBreak(TypeOf(e.value))
    ensures HeadSafe(Head(e))
  {
    HeaderNames();
    DispositionShape(e);
    var first := HeaderLine(DISPOSITION, Disposition(e));
    assert NoBreak(first);
    if e.value.File? {
      var second := HeaderLine(CONTENT_TYPE, TypeOf(e.value));
      assert NoBreak(second) && second[0] == 'C';
      SafeTwo(first, second);
    }
  }

  lemma SafeTwo(first: string, second: string)
    requires NoBreak(first) && NoBreak(second) && second != "" && second[0] != '-'
    ensures HeadSafe(first + (CRLF + second))
  {
    var h := first + (CRLF + second);
    assert forall k :: 0 <= k < |first| ==> h[k] == first[k] && first[k] in first;
    assert forall k :: |first| + 2 <= k < |h| ==> h[k] == second[k - |first| - 2] && second[k - |first| - 2] in second;
    assert h[|first| + 2] == second[0] && second[0] in second;
  }

  lemma HeadEnds(h: string, content: string)
    requires HeadSafe(h)
    ensures IndexOf(h + (CRLF + (CRLF + content)), BLANK_LINE, 0) == |h|
  {
    var s := h + (CRLF + (CRLF + content));
    assert s[|h|..|h| + 4] == BLANK_LINE;
    forall k: int | 0 <= k < |h|
      ensures !At(s, BLANK_LINE, k)
    {
      if At(s, BLANK_LINE, k) {
        MatchAt(s, BLANK_LINE, k, k);
        MatchAt(s, BLANK_LINE, k, k + 2);
      }
    }
    IndexOfIs(s, BLANK_LINE, 0, |h|);
  }

  // ---- where the next boundary is --------------------------------------------------------------

  /** No boundary inside a content: none in it between line breaks. */
  predicate Clear(content: string, marker: string) {
    forall k: nat :: k < |content| + 4 ==> !BoundaryAt(CRLF + (content + CRLF), marker, k)
  }

  /** Whether a boundary stands at a place depends on what follows that place. */
  lemma BoundaryShift(a: string, t: string, marker: string, k: nat)
    ensures BoundaryAt(a + t, marker, |a| + k) == BoundaryAt(t, marker, k)
  {
    var s := a + t;
    assert s[|a|..] == t;
    AtShift(s, marker, |a|, k);
    SliceShift(a, t, k + |marker|);
  }

  lemma SliceShift(a: string, t: string, k: nat)
    ensures Slice(a + t, |a| + k, 2) == Slice(t, k, 2)
  {
    if k + 2 < |t| {
      assert (a + t)[|a| + k..|a| + k + 2] == t[k..k + 2];
    } else if k < |t| {
      assert (a + t)[|a| + k..] == t[k..];
    }
  }

  /** A marker, but for its first character, has no carriage return; its third is a hyphen. */
  predicate Marks(marker: string) { |marker| > 3 && OneReturn(marker) && marker[1] == '\n' && marker[2] == '-' }

  /** A boundary at or before the closing line break of a content lies within the two
      line breaks around it. */
  lemma BoundaryWithin(content: string, more: string, marker: string, k: nat)
    requires Marks(marker) && k < |content| + 2 && BoundaryAt(CRLF + (content + (CRLF + more)), marker, k)
    ensures k + |marker| + 2 <= |content| + 4 && BoundaryAt(CRLF + (content + CRLF), marker, k)
  {
    var z, y := CRLF + (content + (CRLF + more)), CRLF + (content + CRLF);
    var end := |content| + 2;
    assert z[end] == '\r' && z == y + more;
    if end < k + |marker| {
      MatchAt(z, marker, k, end);
    }
    SameAt(y, more, marker, k);
  }

  lemma SameAt(y: string, more: string, marker: string, k: nat)
    requires k + |marker| + 2 <= |y|
    ensures BoundaryAt(y + more, marker, k) == BoundaryAt(y, marker, k)
  {
    var z := y + more;
    assert z[k..k + |marker|] == y[k..k + |marker|];
    assert z[k + |marker|..k + |marker| + 2] == y[k + |marker|..k + |marker| + 2];
    SliceOf(z, k + |marker|);
    SliceOf(y, k + |marker|);
  }

  lemma SliceOf(s: string, k: nat)
    requires k + 2 <= |s|
    ensures Slice(s, k, 2) == s[k..k + 2]
  {
  }

  lemma MarkerChars(s: string, marker: string, k: nat)
    requires Marks(marker) && At(s, marker, k)
    ensures k + 2 < |s| && s[k] == '\r' && s[k + 1] == '\n' && s[k + 2] == '-'
  {
    MatchAt(s, marker, k, k);
    MatchAt(s, marker, k, k + 1);
    MatchAt(s, marker, k, k + 2);
  }

  /** No marker starts in a head or in the two line breaks behind it, before the second. */
  lemma HeadClear(h: string, z: string, marker: string, k: nat)
    requires HeadSafe(h) && Marks(marker) && |z| >= 2 && z[..2] == CRLF && k < |h| + 2
    ensures !At((h + CRLF) + z, marker, k)
  {
    var t := (h + CRLF) + z;
    assert t[|h| + 1] == '\n' && t[|h| + 2] == z[..2][0] == '\r';
    assert forall i :: 0 <= i < |h| ==> t[i] == h[i];
    if At(t, marker, k) { MarkerChars(t, marker, k); }
  }

  /** The text of a part up to the delimiter behind it has no boundary. */
  lemma PartClear(h: string, content: string, more: string, marker: string, k: nat)
    requires HeadSafe(h) && Marks(marker) && Clear(content, marker) && k < |h| + 4 + |content|
    ensures !BoundaryAt((h + CRLF) + (CRLF + (content + (CRLF + more))), marker, k)
  {
    var z := CRLF + (content + (CRLF + more));
    if k < |h| + 2 {
      HeadClear(h, z, marker, k);
    } else {
      BoundaryShift(h + CRLF, z, marker, k - |h + CRLF|);
      if BoundaryAt(z, marker, k - (|h| + 2)) { BoundaryWithin(content, more, marker, k - (|h| + 2)); }
    }
  }

  lemma Regroup(h: string, content: string, delimiter: string, rest: string)
    ensures (h + (CRLF + (CRLF + content))) + (CRLF + (delimiter + rest))
      == (h + CRLF) + (CRLF + (content + (CRLF + (delimiter + rest))))
    ensures (h + (CRLF + (CRLF + content))) + (CRLF + (delimiter + rest))
      == (h + (CRLF + (CRLF + content))) + (Marker(delimiter) + rest)
  {
  }

  lemma BoundaryHere(part: string, marker: string, rest: string)
    requires Suffixed(rest, 0)
    ensures BoundaryAt(part + (marker + rest), marker, |part|)
  {
    BoundaryShift(part, marker + rest, marker, 0);
    Starts(marker, rest);
  }

  lemma NoneShifted(before: string, t: string, marker: string, p: nat)
    requires NoneIn(t, marker, 0, p)
    ensures NoneIn(before + t, marker, |before|, |before| + p)
  {
    forall j: nat | |before| <= j < |before| + p
      ensures !BoundaryAt(before + t, marker, j)
    {
      BoundaryShift(before, t, marker, j - |before|);
    }
  }

  lemma FindShifted(before: string, t: string, marker: string, p: nat)
    requires BoundaryAt(t, marker, p) && NoneIn(t, marker, 0, p)
    ensures FirstAt(before + t, marker, |before|, |before| + p)
  {
    NoneShifted(before, t, marker, p);
    OneShifted(before, t, marker, p);
  }

  lemma OneShifted(before: string, t: string, marker: string, p: nat)
    requires BoundaryAt(t, marker, p)
    ensures BoundaryAt(before + t, marker, |before| + p)
  {
    BoundaryShift(before, t, marker, p);
  }

  /** Behind a part that is clear of it, the next boundary is found where the part ends. */
  lemma NextBoundary(before: string, h: string, content: string, delimiter: string, rest: string)
    requires HeadSafe(h) && Marks(Marker(delimiter)) && Clear(content, Marker(delimiter)) && Suffixed(rest, 0)
    ensures var part := h + (CRLF + (CRLF + content));
      FirstAt(before + (part + (CRLF + (delimiter + rest))), Marker(delimiter), |before|, |before| + |part|)
  {
    var marker := Marker(delimiter);
    var part := h + (CRLF + (CRLF + content));
    var t := part + (CRLF + (delimiter + rest));
    Regroup(h, content, delimiter, rest);
    BoundaryHere(part, marker, rest);
    forall k: nat | k < |part| ensures !BoundaryAt(t, marker, k) { PartClear(h, content, delimiter + rest, marker, k); }
    FindShifted(before, t, marker, |part|);
  }

  lemma Starts(marker: string, rest: string)
    requires Suffixed(rest, 0)
    ensures BoundaryAt(marker + rest, marker, 0)
  {
    SliceShift(marker, rest, 0);
    assert (marker + rest)[0..|marker|] == marker;
  }

  // ---- the form back ------------------------------------------------------------------------------

  /** What an entry must be: file contents are octets, a file is one the constructor made,
      the codec gives texts back, and no content holds a boundary line. */
  predicate Encodable(e: Entry, u: Utf8, marker: string) {
    && IsLatin1(Content(e.value, u)) && Clear(Content(e.value, u), marker)
    && match e.value
       case Text(text) => u.decode(u.encode(text)) == text
       case File(_, _, _) => IsFile(e.value)
  }

  /** What comes back: line breaks in names percent-coded, media types trimmed, and the
      default type for a file without one. */
  function Back(e: Entry): Entry {
    Entry(PercentBreaks(e.name),
          match e.value
          case Text(text) => Text(text)
          case File(fileName, _, content) => File(PercentBreaks(fileName), Trim(TypeOf(e.value)), content))
  }

  function BackAll(entries: seq<Entry>): seq<Entry> {
    if entries == [] then [] else [Back(entries[0])] + BackAll(entries[1..])
  }

  lemma {:induction false} TrimWithin(s: string)
    ensures forall i :: 0 <= i < |Trim(s)| ==> Trim(s)[i] in s
  {
    LeftWithin(s);
    RightWithin(TrimLeft(s));
  }

  lemma {:induction false} LeftWithin(s: string)
    ensures forall i :: 0 <= i < |TrimLeft(s)| ==> TrimLeft(s)[i] in s
  {
    if s != "" && IsSpace(s[0]) { LeftWithin(s[1..]); }
  }

  lemma {:induction false} RightWithin(s: string)
    ensures forall i :: 0 <= i < |TrimRight(s)| ==> TrimRight(s)[i] in s
    decreases |s|
  {
    if s != "" && IsSpace(s[|s| - 1]) { RightWithin(s[..|s| - 1]); }
  }

  /** A media type that is normal stays so, trimmed or not. */
  lemma NormalTrim(t: string)
    requires NormalizeType(t) == t && forall i :: 0 <= i < |t| ==> TypeChar(t[i])
    ensures NormalizeType(Trim(t)) == Trim(t)
  {
    TrimWithin(t);
    var r := Trim(t);
    forall i | 0 <= i < |r|
      ensures TypeChar(r[i]) && LowerChar(r[i]) == r[i]
    {
      var j :| 0 <= j < |t| && t[j] == r[i];
      assert Lower(t)[j] == t[j];
    }
  }

  lemma NormalChars(t: string)
    requires NormalizeType(t) == t
    ensures forall i :: 0 <= i < |t| ==> TypeChar(t[i])
  {
  }

  lemma TypeIsNormal(v: Value)
    requires v.File? ==> NormalizeType(v.mediaType) == v.mediaType
    ensures NormalizeType(TypeOf(v)) == TypeOf(v) && NoBreak(TypeOf(v))
    ensures NormalizeType(Trim(TypeOf(v))) == Trim(TypeOf(v))
  {
    OctetsIs();
    NormalChars(TypeOf(v));
    NormalTrim(TypeOf(v));
    forall c | c in TypeOf(v) ensures c != '\r' && c != '\n' {
      var i :| 0 <= i < |TypeOf(v)| && TypeOf(v)[i] == c;
      assert TypeChar(c);
    }
  }

  lemma {:induction false} NoSlash(s: string, c: char, text: string)
    requires '/' !in s && '/' !in text
    ensures '/' !in Replaced(s, c, text)
  {
    if s != "" { NoSlash(s[1..], c, text); }
  }

  lemma {:induction false} ReplacedGone(s: string, c: char, text: string)
    requires c !in text
    ensures c !in Replaced(s, c, text)
  {
    if s != "" { ReplacedGone(s[1..], c, text); }
  }

  lemma FileNameKept(fileName: string)
    requires Replaced(fileName, '/', ":") == fileName
    ensures Replaced(PercentBreaks(fileName), '/', ":") == PercentBreaks(fileName)
  {
    ReplacedGone(fileName, '/', ":");
    NoSlash(fileName, '\r', "%0D");
    NoSlash(Replaced(fileName, '\r', "%0D"), '\n', "%0A");
    ReplacedNone(PercentBreaks(fileName), '/', ":");
  }

  /** A part is read as its entry. */
  lemma PartRead(e: Entry, u: Utf8, marker: string)
    requires Encodable(e, u, marker)
    ensures IndexOf(Part(e, u), BLANK_LINE, 0) == |Head(e)| && |Head(e)| + 4 <= |Part(e, u)|
    ensures PartEntry(Part(e, u), |Head(e)|, u) == Some(Back(e))
  {
    TypeIsNormal(e.value);
    HeadIsSafe(e);
    HeadEnds(Head(e), Content(e.value, u));
    HeadRead(e);
    var part := Part(e, u);
    assert part[..|Head(e)|] == Head(e) && part[|Head(e)| + 4..] == Content(e.value, u);
    EntryRead(e, u);
  }

  lemma EntryRead(e: Entry, u: Utf8)
    requires IsLatin1(Content(e.value, u)) && (e.value.File? ==> IsFile(e.value))
    requires e.value.Text? ==> u.decode(u.encode(e.value.text)) == e.value.text
    ensures EntryOf(Fields(Disposition(e), if e.value.File? then Trim(TypeOf(e.value)) else ""), Content(e.value, u), u)
      == Some(Back(e))
  {
    DispositionRead(e);
    DispositionShape(e);
    FormDataIs();
    TrimOf(FORM_DATA);
    Latin1Same(Content(e.value, u));
    TypeIsNormal(e.value);
    if e.value.File? { FileNameKept(e.value.fileName); }
  }

  // ---- the round trip ---------------------------------------------------------------------------

  /** A boundary text that needs no quotes and has no line break. */
  predicate BoundaryText(b: string) {
    b != "" && Trimmed(b) && NoBreak(b) && ';' !in b && '"' !in b
  }

  predicate AllEncodable(entries: seq<Entry>, u: Utf8, marker: string) {
    forall i :: 0 <= i < |entries| ==> Encodable(entries[i], u, marker)
  }

  lemma RestStarts(entries: seq<Entry>, delimiter: string, u: Utf8)
    ensures Suffixed(Rest(entries, delimiter, u), 0)
    ensures Slice(Rest(entries, delimiter, u), 0, 2) == if entries == [] then "--" else CRLF
  {
    SliceOf(Rest(entries, delimiter, u), 0);
  }

  lemma MarkerMarks(b: string)
    requires BoundaryText(b)
    ensures Marks(Marker(Delimiter(b)))
  {
  }

  /** The text behind a delimiter: a part, and what stands behind the next delimiter. */
  lemma Layout(part: string, d: string, more: string, next: nat)
    requires next == |part| + 4
    ensures var t := CRLF + (part + (CRLF + (d + more)));
      Behind(t, 0) == LineEnd && next + |d| <= |t| && t[2..next - 2] == part && t[next + |d|..] == more
  {
    var t := CRLF + (part + (CRLF + (d + more)));
    SliceOf(t, 0);
    assert t[..2] == CRLF;
    assert t == (CRLF + part + CRLF + d) + more && |CRLF + part + CRLF + d| == next + |d|;
  }

  /** A step cuts out what has been found. */
  lemma StepIs(t: string, d: string, next: nat, part: string, more: string)
    requires Behind(t, 0) == LineEnd && FindBoundary(t, Marker(d), 2) == next
    requires 4 <= next && next + |d| <= |t| && t[2..next - 2] == part && t[next + |d|..] == more
    ensures StepOf(t, d) == Cut(part, more)
  {
  }

  lemma ParseStep(t: string, d: string, part: string, more: string, u: Utf8, rest: Result)
    requires StepOf(t, d) == Cut(part, more) && ParseBehind(more, d, u) == rest
    ensures ParseBehind(t, d, u) == WithPart(part, rest, u)
  {
  }

  lemma CutIs(part: string, d: string, more: string)
    requires FindBoundary(CRLF + (part + (CRLF + (d + more))), Marker(d), 2) == |part| + 4
    ensures StepOf(CRLF + (part + (CRLF + (d + more))), d) == Cut(part, more)
  {
    Layout(part, d, more, |part| + 4);
    StepIs(CRLF + (part + (CRLF + (d + more))), d, |part| + 4, part, more);
  }

  lemma EntryCut(e: Entry, rest: seq<Entry>, b: string, u: Utf8)
    requires BoundaryText(b) && Encodable(e, u, Marker(Delimiter(b)))
    ensures var d := Delimiter(b); var more := Rest(rest, d, u);
      StepOf(CRLF + (Part(e, u) + (CRLF + (d + more))), d) == Cut(Part(e, u), more)
  {
    PartFound(e, rest, b, u);
    CutIs(Part(e, u), Delimiter(b), Rest(rest, Delimiter(b), u));
  }

  /** The parser, behind a delimiter behind which some entries are encoded. */
  lemma {:induction false} ParseRest(entries: seq<Entry>, b: string, u: Utf8)
    requires BoundaryText(b) && AllEncodable(entries, u, Marker(Delimiter(b)))
    ensures ParseBehind(Rest(entries, Delimiter(b), u), Delimiter(b), u) == Ok(BackAll(entries))
    decreases |entries|
  {
    var d := Delimiter(b);
    if entries == [] {
      SliceOf("--" + CRLF, 0);
    } else {
      var e := entries[0];
      ParseRest(entries[1..], b, u);
      EntryCut(e, entries[1..], b, u);
      PartTaken(e, u, Marker(d), BackAll(entries[1..]));
      ParseStep(Rest(entries, d, u), d, Part(e, u), Rest(entries[1..], d, u), u, Ok(BackAll(entries[1..])));
    }
  }

  lemma PartTaken(e: Entry, u: Utf8, marker: string, rest: seq<Entry>)
    requires Encodable(e, u, marker)
    ensures WithPart(Part(e, u), Ok(rest), u) == Ok([Back(e)] + rest)
  {
    PartRead(e, u, marker);
  }

  lemma PartFound(e: Entry, rest: seq<Entry>, b: string, u: Utf8)
    requires BoundaryText(b) && Encodable(e, u, Marker(Delimiter(b)))
    ensures FindBoundary(CRLF + (Part(e, u) + (CRLF + (Delimiter(b) + Rest(rest, Delimiter(b), u)))),
      Marker(Delimiter(b)), 2)
      == |Part(e, u)| + 4
  {
    MarkerMarks(b);
    TypeIsNormal(e.value);
    HeadIsSafe(e);
    RestStarts(rest, Delimiter(b), u);
    NextFound(Head(e), Content(e.value, u), Delimiter(b), Rest(rest, Delimiter(b), u));
  }

  lemma NextFound(h: string, content: string, d: string, more: string)
    requires HeadSafe(h) && Marks(Marker(d)) && Clear(content, Marker(d)) && Suffixed(more, 0)
    ensures var part := h + (CRLF + (CRLF + content));
      FindBoundary(CRLF + (part + (CRLF + (d + more))), Marker(d), 2) == |part| + 4
  {
    var part := h + (CRLF + (CRLF + content));
    NextBoundary(CRLF, h, content, d, more);
    FoundAt(CRLF + (part + (CRLF + (d + more))), Marker(d), |part| + 2);
  }

  lemma FoundAt(t: string, marker: string, k: nat)
    requires Marks(marker) && FirstAt(t, marker, 2, k)
    ensures FindBoundary(t, marker, 2) == k + 2
  {
    FindIs(t, marker, 2, k);
  }

  /** The boundary is read back from the content type. */
  lemma BoundaryRead(b: string)
    requires BoundaryText(b)
    ensures Parameter(ContentTypeOf(b), "boundary") == Some(b)
  {
    FixedNames();
    MultipartIs();
    EqualsIn(MULTIPART, "boundary", b);
    BarePassed(MULTIPART, " " + ("boundary" + ("=" + b)), "boundary");
    PieceIs("boundary", b);
    ParameterNamed(" " + ("boundary" + ("=" + b)), "boundary", b, "boundary");
    PlainValue(b);
    FixedBoundary();
  }

  lemma FixedBoundary()
    ensures Lower("boundary") == "boundary"
  {
  }

  lemma PlainValue(b: string)
    requires BoundaryText(b)
    ensures ValueOf(b).0 == b
  {
    TrimOf(b);
    assert b[0] in b;
    var i := IndexOf(b, ";", 0);
    if i >= 0 { MatchOf(b, ';', i); }
  }

  /** Parsing what a form was encoded to, under its content type, gives every entry back
      in order, as `Back` says. */
  lemma RoundTrip(entries: seq<Entry>, b: string, u: Utf8)
    requires BoundaryText(b) && AllEncodable(entries, u, Marker(Delimiter(b)))
    ensures Parse(Encode(entries, b, u), ContentTypeOf(b), u) == Ok(BackAll(entries))
  {
    BoundaryRead(b);
    var d := Delimiter(b);
    var body := Encode(entries, b, u);
    assert body[0..|d|] == d && body[|d|..] == Rest(entries, d, u);
    assert At(body, d, 0);
    ParseRest(entries, b, u);
  }

  /** An entry that comes back as it was. */
  predicate Faithful(e: Entry) {
    NoBreak(e.name) && (e.value.File?
      ==> NoBreak(e.value.fileName) && e.value.mediaType != "" && Trimmed(e.value.mediaType))
  }

  lemma BackExactly(e: Entry)
    ensures Back(e) == e <==> Faithful(e)
  {
    BreakChanges(e.name);
    if NoBreak(e.name) { NoBreakKept(e.name); }
    if e.value.File? {
      BreakChanges(e.value.fileName);
      if NoBreak(e.value.fileName) { NoBreakKept(e.value.fileName); }
      OctetsIs();
      TrimOf(OCTETS);
      TrimExactly(e.value.mediaType);
    }
  }

  lemma TrimExactly(s: string)
    ensures Trim(s) == s <==> Trimmed(s)
  {
    if Trimmed(s) { TrimOf(s); } else { TrimIsTrimmed(s); }
  }

  lemma TrimIsTrimmed(s: string)
    ensures Trimmed(Trim(s))
  {
    LeftTrimmed(s);
    RightTrimmed(TrimLeft(s));
  }

  lemma {:induction false} LeftTrimmed(s: string)
    ensures TrimLeft(s) == "" || !IsSpace(TrimLeft(s)[0])
  {
    if s != "" && IsSpace(s[0]) { LeftTrimmed(s[1..]); }
  }

  lemma {:induction false} RightTrimmed(s: string)
    requires s == "" || !IsSpace(s[0])
    ensures Trimmed(TrimRight(s))
    decreases |s|
  {
    if s != "" && IsSpace(s[|s| - 1]) { RightTrimmed(s[..|s| - 1]); }
  }

  lemma {:induction false} BackAllAt(entries: seq<Entry>)
    ensures |BackAll(entries)| == |entries|
      && forall i :: 0 <= i < |entries| ==> BackAll(entries)[i] == Back(entries[i])
  {
    if entries != [] { BackAllAt(entries[1..]); }
  }

  /** The form comes back unchanged exactly when no name or file name has a line break
      and every file has a media type without outer white space. */
  lemma RoundTripExactly(entries: seq<Entry>, b: string, u: Utf8)
    requires BoundaryText(b) && AllEncodable(entries, u, Marker(Delimiter(b)))
    ensures Parse(Encode(entries, b, u), ContentTypeOf(b), u) == Ok(entries)
      <==> forall i :: 0 <= i < |entries| ==> Faithful(entries[i])
  {
    RoundTrip(entries, b, u);
    BackAllAt(entries);
    forall i | 0 <= i < |entries| ensures Back(entries[i]) == entries[i] <==> Faithful(entries[i]) {
      BackExactly(entries[i]);
    }
    if BackAll(entries) == entries {
      forall i | 0 <= i < |entries| ensures Back(entries[i]) == entries[i] { assert BackAll(entries)[i] == entries[i]; }
    }
    if forall i :: 0 <= i < |entries| ==> Faithful(entries[i]) { assert BackAll(entries) == entries; }
  }
}

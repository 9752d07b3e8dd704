/** The `FormData` object: its entries, and the loops that encode and parse them. */
module FormDatas {
  import opened Sequences
  import opened Bytes
  import opened Wrappers
  import opened MultipartText
  import opened Multipart
  import opened MultipartRoundTrip

  // ---- the entries so far ---------------------------------------------------------------------

  /** Entries in front of a result. */
  function Joined(form: seq<Entry>, r: Result): Result { if r.TypeError? then r else Ok(form + r.form) }

  lemma JoinedPart(form: seq<Entry>, part: string, rest: Result, u: Utf8)
    ensures Joined(form, WithPart(part, rest, u)) ==
      var headerEnd := IndexOf(part, BLANK_LINE, 0);
      if headerEnd < 0 then TypeError(PartMalformed) else
      var entry := PartEntry(part, headerEnd, u);
      Joined(if entry.Some? then form + [entry.value] else form, rest)
  {
    var headerEnd := IndexOf(part, BLANK_LINE, 0);
    if headerEnd >= 0 && rest.Ok? && PartEntry(part, headerEnd, u).Some? {
      var e := PartEntry(part, headerEnd, u).value;
      assert form + ([e] + rest.form) == (form + [e]) + rest.form;
    }
  }

  lemma JoinedStep(form: seq<Entry>, t: string, d: string, u: Utf8)
    ensures var step := StepOf(t, d);
      Joined(form, ParseBehind(t, d, u))
        == if step.Done? then Joined(form, step.result)
          else Joined(form, WithPart(step.part, ParseBehind(step.more, d, u), u))
  {
  }

  lemma JoinedNone(r: Result)
    ensures Joined([], r) == r
  {
    if r.Ok? { assert [] + r.form == r.form; }
  }

  lemma JoinedOk(form: seq<Entry>)
    ensures Joined(form, Ok([])) == Ok(form)
  {
    assert form + [] == form;
  }

  /** The loop over a part's header lines. */
  method ReadHeaders(raw: string) returns (f: Fields)
    ensures f == ReadLines(Fields("", ""), SplitLines(raw))
  {
    var lines := SplitLines(raw);
    f := Fields("", "");
    var i := 0;
    assert lines[0..] == lines;
    while i < |lines|
      invariant i <= |lines| && ReadLines(f, lines[i..]) == ReadLines(Fields("", ""), lines)
    {
      assert lines[i..][1..] == lines[i + 1..];
      f := ReadLine(f, lines[i]);
      i := i + 1;
    }
  }

  /** The entry a part is read as. */
  method ReadPart(part: string, headerEnd: nat, u: Utf8) returns (entry: Option<Entry>)
    requires headerEnd + 4 <= |part|
    ensures entry == PartEntry(part, headerEnd, u)
  {
    var f := ReadHeaders(part[..headerEnd]);
    var body := part[headerEnd + 4..];
    var name := MultipartParameter(f.disposition, "name");
    if Lower(Trim(FirstSegment(f.disposition))) != FORM_DATA || name.None? { return None; }
    var fileName := MultipartParameter(f.disposition, "filename");
    if fileName.Some? {
      return Some(Entry(name.value, FileOf(fileName.value, f.mediaType, Latin1(body))));
    }
    return Some(Entry(name.value, Text(u.decode(Latin1(body)))));
  }

  const PREFIX: string := "----gea-formdata-"

  /** The boundary of the n-th encoding. */
  function BoundaryOf(serial: nat): string { PREFIX + Print(serial, 10) }

  /** What an entry can be made of: text, octets with a media type, or a file. */
  datatype Given =
    | Plain(text: string)
    | Blob(mediaType: string, content: string)
    | Named(fileName: string, mediaType: string, content: string)

  /** `normalizeEntry`: octets become a file, under the given name or their own. */
  function Normal(value: Given, fileName: Option<string>): (v: Value)
    ensures value.Plain? <==> v.Text?
    ensures v.File? ==> v.content == value.content && v.mediaType == value.mediaType
    ensures v.File? ==>
      v.fileName == if fileName.Some? then fileName.value else if value.Named? then value.fileName else "blob"
    ensures v.Text? ==> v.text == value.text
  {
    match value
    case Plain(text) => Text(text)
    case Blob(mediaType, content) => File(if fileName.Some? then fileName.value else "blob", mediaType, content)
    case Named(own, mediaType, content) => File(if fileName.Some? then fileName.value else own, mediaType, content)
  }

  class FormData {
    var entryNames: seq<string>
    var entryValues: seq<Value>

    ghost predicate Valid()
      reads this
    {
      |entryNames| == |entryValues|
    }

    /** The entries in order. */
    function Entries(): (entries: seq<Entry>)
      reads this
      requires Valid()
      ensures |entries| == |entryNames|
    {
      seq(|entryNames|, i requires 0 <= i < |entryNames| reads this requires Valid() =>
        Entry(entryNames[i], entryValues[i]))
    }

    constructor ()
      ensures Valid() && Entries() == []
    {
      entryNames, entryValues := [], [];
    }

    /** `append` */
    method Append(name: string, value: Given, fileName: Option<string>)
      requires Valid()
      modifies this
      ensures Valid() && Entries() == old(Entries()) + [Entry(name, Normal(value, fileName))]
    {
      entryNames := entryNames + [name];
      entryValues := entryValues + [Normal(value, fileName)];
    }

    /** `encodeMultipart`, the `serial`-th of the process. */
    method EncodeMultipart(serial: nat, u: Utf8) returns (boundary: string, body: string)
      requires Valid()
      ensures boundary == BoundaryOf(serial) && body == Encode(Entries(), boundary, u)
    {
      boundary := BoundaryOf(serial);
      var delimiter := Delimiter(boundary);
      var entries := Entries();
      body := "";
      var i := 0;
      assert entries[0..] == entries;
      NothingMore(delimiter + Rest(entries, delimiter, u));
      while i < |entries|
        invariant i <= |entries|
        invariant body + (delimiter + Rest(entries[i..], delimiter, u)) == Encode(entries, boundary, u)
      {
        assert entries[i..][1..] == entries[i + 1..];
        Grouped(body, delimiter, Part(entries[i], u), delimiter + Rest(entries[i + 1..], delimiter, u));
        body := body + delimiter + CRLF;
        body := body + Part(entries[i], u);
        body := body + CRLF;
        i := i + 1;
      }
      assert entries[i..] == [];
      body := body + (delimiter + ("--" + CRLF));
    }
  }

  lemma Grouped(body: string, delimiter: string, part: string, more: string)
    ensures body + (delimiter + (CRLF + (part + (CRLF + more)))) == (body + delimiter + CRLF + part + CRLF) + more
  {
  }

  /** `parseMultipart`; the place in the body is kept as the text behind it. */
  method ParseMultipart(body: string, contentType: string, u: Utf8) returns (result: Result)
    ensures result == Parse(body, contentType, u)
  {
    var boundary := MultipartParameter(contentType, "boundary");
    if boundary.None? || boundary.value == "" { return TypeError(BoundaryMissing); }
    result := ParseBodyParts(body, Delimiter(boundary.value), u);
  }

  method ParseBodyParts(body: string, delimiter: string, u: Utf8) returns (result: Result)
    ensures result == ParseBody(body, delimiter, u)
  {
    var boundaryAt := FindStart(body, delimiter);
    result := ParseFrom(body, delimiter, boundaryAt, u);
  }

  method ParseFrom(body: string, delimiter: string, boundaryAt: int, u: Utf8) returns (result: Result)
    requires boundaryAt < 0 || boundaryAt + |delimiter| <= |body|
    ensures result == ParseAt(body, delimiter, boundaryAt, u)
  {
    if boundaryAt < 0 { return TypeError(BoundaryNotFound); }
    result := ParseParts(body[boundaryAt + |delimiter|..], delimiter, u);
  }

  method FindStart(body: string, delimiter: string) returns (at: int)
    ensures at == StartOf(body, delimiter)
  {
    if At(body, delimiter, 0) { return 0; }
    at := FindMultipartBoundary(body, delimiter, 0);
  }

  /** What stands behind a delimiter: the next part, if there is one, and the text behind
      the next delimiter. */
  method ReadStep(t: string, delimiter: string) returns (step: Step)
    ensures step == StepOf(t, delimiter)
  {
    if Slice(t, 0, 2) == "--" { return Done(Ok([])); }
    if Slice(t, 0, 2) != CRLF { return Done(TypeError(BoundaryMalformed)); }
    var nextBoundary := FindMultipartBoundary(t, delimiter, 2);
    if nextBoundary < 0 { return Done(TypeError(NoClosingBoundary)); }
    FoundWithin(t, Marker(delimiter), 2);
    step := Cut(t[2..nextBoundary - 2], t[nextBoundary + |delimiter|..]);
  }

  /** The part loop. */
  method ParseParts(start: string, delimiter: string, u: Utf8) returns (result: Result)
    ensures result == ParseBehind(start, delimiter, u)
  {
    var form: seq<Entry> := [];
    var t := start;
    JoinedNone(ParseBehind(t, delimiter, u));
    while true
      invariant Joined(form, ParseBehind(t, delimiter, u)) == ParseBehind(start, delimiter, u)
      decreases |t|
    {
      var step := ReadStep(t, delimiter);
      JoinedStep(form, t, delimiter, u);
      if step.Done? {
        JoinedOk(form);
        return if step.result.Ok? then Ok(form) else step.result;
      }
      JoinedPart(form, step.part, ParseBehind(step.more, delimiter, u), u);
      var headerEnd := IndexOf(step.part, BLANK_LINE, 0);
      if headerEnd < 0 { return TypeError(PartMalformed); }
      var entry := ReadPart(step.part, headerEnd, u);
      if entry.Some? { form := form + [entry.value]; }
      t := step.more;
    }
  }

  // ---- the whole ----------------------------------------------------------------------------------

  lemma PrefixIs()
    ensures PREFIX != "" && !IsSpace(PREFIX[0]) && NoBreak(PREFIX) && ';' !in PREFIX && '"' !in PREFIX
  {
  }

  lemma BoundaryFits(serial: nat)
    ensures BoundaryText(BoundaryOf(serial))
  {
    PrefixIs();
    PrintDigits(serial, 10);
    Appended(PREFIX, Print(serial, 10));
  }

  lemma Appended(p: string, d: string)
    requires p != "" && !IsSpace(p[0]) && NoBreak(p) && ';' !in p && '"' !in p
    requires d != "" && forall i :: 0 <= i < |d| ==> IsDigit(d[i])
    ensures BoundaryText(p + d)
  {
    var b := p + d;
    assert b[0] == p[0] && b[|b| - 1] == d[|d| - 1];
    assert forall c :: c in b ==> c in p || IsDigit(c);
  }

  /** A form encoded and parsed again, entry by entry in order. */
  lemma FormRoundTrip(entries: seq<Entry>, serial: nat, u: Utf8)
    requires AllEncodable(entries, u, Marker(Delimiter(BoundaryOf(serial))))
    ensures var b := BoundaryOf(serial); var r := Parse(Encode(entries, b, u), ContentTypeOf(b), u);
      r == Ok(BackAll(entries)) && (r == Ok(entries) <==> forall i :: 0 <= i < |entries| ==> Faithful(entries[i]))
  {
    BoundaryFits(serial);
    RoundTrip(entries, BoundaryOf(serial), u);
    RoundTripExactly(entries, BoundaryOf(serial), u);
  }
}

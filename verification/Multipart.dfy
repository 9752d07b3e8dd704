/** `FormData.encodeMultipart` and `FormData.parseMultipart`. Bodies are Latin-1 strings;
    the UTF-8 codec is any pair of functions. */
module Multipart {
  import opened Bytes
  import opened Wrappers
  import opened MultipartText

  datatype Value = Text(text: string) | File(fileName: string, mediaType: string, content: string)

  datatype Entry = Entry(name: string, value: Value)

  datatype FormError = BoundaryMissing | BoundaryNotFound | BoundaryMalformed | NoClosingBoundary | PartMalformed

  datatype Result = Ok(form: seq<Entry>) | TypeError(error: FormError)

  datatype Utf8 = Utf8(encode: string -> string, decode: string -> string)

  const DISPOSITION: string := "Content-Disposition"
  const CONTENT_TYPE: string := "Content-Type"
  const FORM_DATA: string := "form-data"
  const OCTETS: string := "application/octet-stream"
  const MULTIPART: string := "multipart/form-data"

  // ---- files --------------------------------------------------------------------------------

  predicate TypeChar(c: char) { 0x20 <= c as int <= 0x7e }

  /** `normalizeBlobType` */
  function NormalizeType(mediaType: string): string {
    if forall i :: 0 <= i < |mediaType| ==> TypeChar(mediaType[i]) then Lower(mediaType) else ""
  }

  function Octet(c: char): char { (c as int % 256) as char }

  /** `Buffer.from(text, "latin1")`, seen as a Latin-1 string again. */
  function Latin1(s: string): (r: string)
    ensures |r| == |s| && forall i :: 0 <= i < |s| ==> r[i] == Octet(s[i])
  {
    seq(|s|, i requires 0 <= i < |s| => Octet(s[i]))
  }

  predicate IsLatin1(s: string) { forall i :: 0 <= i < |s| ==> s[i] as int < 256 }

  lemma Latin1Same(s: string)
    requires IsLatin1(s)
    ensures Latin1(s) == s
  {
  }

  function FileOf(fileName: string, mediaType: string, content: string): Value {
    File(Replaced(fileName, '/', ":"), NormalizeType(mediaType), content)
  }

  lemma {:induction false} SlashesGo(s: string)
    ensures |Replaced(s, '/', ":")| == |s|
    ensures forall i :: 0 <= i < |s| ==> Replaced(s, '/', ":")[i] == if s[i] == '/' then ':' else s[i]
  {
    if s != "" { SlashesGo(s[1..]); }
  }

  /** A file's name loses its slashes, its type is lower case or, with a character that is not
      printable ASCII, empty, and its content stays. */
  lemma FileIs(fileName: string, mediaType: string, content: string)
    ensures var v := FileOf(fileName, mediaType, content);
      && |v.fileName| == |fileName| && v.content == content
      && (forall i :: 0 <= i < |fileName| ==> v.fileName[i] == if fileName[i] == '/' then ':' else fileName[i])
      && (if exists i :: 0 <= i < |mediaType| && !(' ' <= mediaType[i] <= '~') then v.mediaType == ""
          else v.mediaType == Lower(mediaType))
  {
    SlashesGo(fileName);
  }

  /** What the constructor makes of a file. */
  predicate IsFile(v: Value)
    requires v.File?
  {
    v == FileOf(v.fileName, v.mediaType, v.content) && IsLatin1(v.content)
  }

  // ---- encoding -----------------------------------------------------------------------------

  function FileParameter(v: Value): string {
    match v
    case Text(_) => ""
    case File(fileName, _, _) =>
      ";" + (" " + ("filename" + ("=" + ("\"" + (EscapeQuoted(fileName) + "\"" + "")))))
  }

  /** The value of the disposition header. */
  function Disposition(e: Entry): string {
    FORM_DATA + (";" + (" " + ("name" + ("=" + ("\"" + (EscapeQuoted(e.name) + "\"" + FileParameter(e.value)))))))
  }

  function TypeOf(v: Value): string { if v.File? && v.mediaType != "" then v.mediaType else OCTETS }

  function HeaderLine(name: string, value: string): string { name + (":" + (" " + value)) }

  function Head(e: Entry): string {
    var first := HeaderLine(DISPOSITION, Disposition(e));
    if e.value.Text? then first else first + (CRLF + HeaderLine(CONTENT_TYPE, TypeOf(e.value)))
  }

  function Content(v: Value, u: Utf8): string {
    match v case Text(text) => u.encode(text) case File(_, _, content) => content
  }

  function Part(e: Entry, u: Utf8): string { Head(e) + (CRLF + (CRLF + Content(e.value, u))) }

  /** What stands behind the delimiter of an entry, and behind the last. */
  function Rest(entries: seq<Entry>, delimiter: string, u: Utf8): string
    decreases |entries|
  {
    if entries == [] then "--" + CRLF
    else CRLF + (Part(entries[0], u) + (CRLF + (delimiter + Rest(entries[1..], delimiter, u))))
  }

  function Delimiter(boundary: string): string { "--" + boundary }

  function Encode(entries: seq<Entry>, boundary: string, u: Utf8): string {
    Delimiter(boundary) + Rest(entries, Delimiter(boundary), u)
  }

  function ContentTypeOf(boundary: string): string {
    MULTIPART + (";" + (" " + ("boundary" + ("=" + boundary))))
  }

  /** Two texts side by side. */
  lemma Glue(a: string, b: string, ab: string, rest: string)
    requires a + b == ab
    ensures a + (b + rest) == ab + rest
  {
  }

  lemma QuotedText(name: string, text: string, rest: string)
    ensures "; " + (name + ("=\"" + (text + ("\"" + rest))))
      == ";" + (" " + (name + ("=" + ("\"" + (text + ("\"" + rest))))))
  {
    Glue("=", "\"", "=\"", text + ("\"" + rest));
    Glue(";", " ", "; ", name + ("=\"" + (text + ("\"" + rest))));
  }

  /** The disposition of a part as text (section 4.2 of RFC 7578): a file also has its name. */
  lemma DispositionText(e: Entry)
    ensures Disposition(e) ==
      "form-data" + ("; " + ("name" + ("=\"" + (EscapeQuoted(e.name) + ("\"" + FileText(e.value))))))
  {
    FileTextIs(e.value);
    QuotedText("name", EscapeQuoted(e.name), FileParameter(e.value));
  }

  lemma FileTextIs(v: Value)
    ensures FileParameter(v) == FileText(v)
  {
    if v.File? {
      QuotedText("filename", EscapeQuoted(v.fileName), "");
      assert "\"" + "" == "\"";
    }
  }

  function FileText(v: Value): string {
    if v.Text? then "" else "; " + ("filename" + ("=\"" + (EscapeQuoted(v.fileName) + "\"")))
  }

  /** The headers of a part as text: a file also has its type. */
  lemma HeadText(e: Entry)
    ensures Head(e) == "Content-Disposition: " + (Disposition(e) +
      (if e.value.Text? then ""
       else "\r\nContent-Type: " + if e.value.mediaType != "" then e.value.mediaType else "application/octet-stream"))
  {
    HeaderText(DISPOSITION, Disposition(e), "Content-Disposition: ");
    if e.value.File? {
      TypeText(TypeOf(e.value));
      BehindHead("Content-Disposition: ", Disposition(e), CRLF + HeaderLine(CONTENT_TYPE, TypeOf(e.value)));
    } else {
      assert Disposition(e) + "" == Disposition(e);
    }
  }

  lemma TypeText(mediaType: string)
    ensures CRLF + HeaderLine(CONTENT_TYPE, mediaType) == "\r\nContent-Type: " + mediaType
  {
    HeaderText(CONTENT_TYPE, mediaType, "Content-Type: ");
    Glue(CRLF, "Content-Type: ", "\r\nContent-Type: ", mediaType);
  }

  lemma HeaderText(name: string, value: string, text: string)
    requires text == name + ": "
    ensures HeaderLine(name, value) == text + value
  {
    Glue(":", " ", ": ", value);
    Glue(name, ": ", text, value);
  }

  lemma BehindHead(a: string, b: string, c: string)
    ensures (a + b) + c == a + (b + c)
  {
  }

  /** A form as text: a delimiter line before each part, an empty line in it before the
      content, and the closing delimiter. */
  lemma FormText(entries: seq<Entry>, boundary: string, u: Utf8)
    ensures entries == [] ==> Encode(entries, boundary, u) == "--" + boundary + "--\r\n"
    ensures entries != [] ==>
      var e, next := entries[0], Encode(entries[1..], boundary, u);
      var part := Head(e) + ("\r\n" + ("\r\n" + Content(e.value, u)));
      Encode(entries, boundary, u) == "--" + boundary + ("\r\n" + (part + ("\r\n" + next)))
  {
    if entries == [] { assert "--" + CRLF == "--\r\n"; }
  }

  // ---- parsing ------------------------------------------------------------------------------

  /** `split("\r\n")` */
  function SplitLines(s: string): seq<string>
    decreases |s|
  {
    var e := IndexOf(s, CRLF, 0);
    if e < 0 then [s] else [s[..e]] + SplitLines(s[e + 2..])
  }

  datatype Fields = Fields(disposition: string, mediaType: string)

  predicate Names(name: string, header: string) { Lower(Trim(name)) == Lower(header) }

  function ReadLine(f: Fields, line: string): Fields {
    var colon := IndexOf(line, ":", 0);
    if colon <= 0 then f
    else if Names(line[..colon], DISPOSITION) then f.(disposition := Trim(line[colon + 1..]))
    else if Names(line[..colon], CONTENT_TYPE) then f.(mediaType := Trim(line[colon + 1..]))
    else f
  }

  function ReadLines(f: Fields, lines: seq<string>): Fields
    decreases |lines|
  {
    if lines == [] then f else ReadLines(ReadLine(f, lines[0]), lines[1..])
  }

  function FirstSegment(s: string): string {
    var e := IndexOf(s, ";", 0);
    if e < 0 then s else s[..e]
  }

  /** The entry of a part's headers and body, if it is one of a form. */
  function EntryOf(f: Fields, body: string, u: Utf8): Option<Entry> {
    var name := Parameter(f.disposition, "name");
    if Lower(Trim(FirstSegment(f.disposition))) != FORM_DATA || name.None? then None else
    var fileName := Parameter(f.disposition, "filename");
    Some(Entry(name.value,
               if fileName.Some? then FileOf(fileName.value, f.mediaType, Latin1(body))
                 else Text(u.decode(Latin1(body)))))
  }

  function PartEntry(part: string, headerEnd: nat, u: Utf8): Option<Entry>
    requires headerEnd + 4 <= |part|
  {
    EntryOf(ReadLines(Fields("", ""), SplitLines(part[..headerEnd])), part[headerEnd + 4..], u)
  }

  const BLANK_LINE: string := "\r\n\r\n"

  /** One step of the parser behind a delimiter: it is done, or it has cut out a part and
      goes on behind the next delimiter. */
  datatype Step = Done(result: Result) | Cut(part: string, more: string)

  function StepOf(t: string, delimiter: string): (s: Step)
    ensures s.Done? || |s.more| < |t|
  {
    match Behind(t, 0)
    case Closing => Done(Ok([]))
    case Neither => Done(TypeError(BoundaryMalformed))
    case LineEnd =>
      var next := FindBoundary(t, Marker(delimiter), 2);
      if next < 0 then Done(TypeError(NoClosingBoundary)) else
      FoundWithin(t, Marker(delimiter), 2);
      Cut(t[2..next - 2], t[next + |delimiter|..])
  }

  predicate Starts(t: string, p: string) { |p| <= |t| && t[..|p|] == p }

  lemma SliceStarts(t: string, p: string)
    requires |p| == 2
    ensures Slice(t, 0, 2) == p <==> Starts(t, p)
  {
  }

  /** A step by what the text says: two hyphens close the form, and anything else but a line
      break is malformed; a part ends at the first boundary there is, and its break belongs to
      that; and without one the form is never closed. */
  lemma StepIs(t: string, delimiter: string)
    requires '\r' !in delimiter
    ensures var s, marker := StepOf(t, delimiter), Marker(delimiter);
      if Starts(t, "--") then s == Done(Ok([]))
      else if !Starts(t, CRLF) then s == Done(TypeError(BoundaryMalformed))
      else if s.Done? then s == Done(TypeError(NoClosingBoundary)) && NoneFrom(t, marker, 2)
      else t == CRLF + s.part + marker + s.more && FirstAt(t, marker, 2, 2 + |s.part|)
  {
    SliceStarts(t, "--");
    SliceStarts(t, CRLF);
    var marker := Marker(delimiter);
    FindsFirst(t, marker, 2);
    var next := FindBoundary(t, marker, 2);
    if Starts(t, CRLF) && next >= 0 {
      FoundWithin(t, marker, 2);
      CutIs(t, marker, next - 2);
    }
  }

  lemma CutIs(t: string, marker: string, k: nat)
    requires 2 <= k && At(t, marker, k) && Starts(t, CRLF)
    ensures t == CRLF + t[2..k] + marker + t[k + |marker|..]
  {
    assert t == t[..2] + t[2..k] + t[k..k + |marker|] + t[k + |marker|..];
  }

  /** The parts of what stands behind a boundary's delimiter. */
  function ParseBehind(t: string, delimiter: string, u: Utf8): Result
    decreases |t|
  {
    match StepOf(t, delimiter)
    case Done(result) => result
    case Cut(part, more) => WithPart(part, ParseBehind(more, delimiter, u), u)
  }

  /** What stands behind a delimiter. */
  datatype Stop = Closing | LineEnd | Neither

  function Behind(body: string, at: nat): Stop {
    if Slice(body, at, 2) == "--" then Closing else if Slice(body, at, 2) == CRLF then LineEnd else Neither
  }

  /** A part in front of what follows it: its own fault comes first, and a part that is
      no entry of a form is passed over. */
  function WithPart(part: string, rest: Result, u: Utf8): Result {
    var headerEnd := IndexOf(part, BLANK_LINE, 0);
    if headerEnd < 0 then TypeError(PartMalformed) else
    if rest.TypeError? then rest else
    match PartEntry(part, headerEnd, u)
    case None => rest
    case Some(e) => Ok([e] + rest.form)
  }

  lemma FoundWithin(s: string, marker: string, start: nat)
    requires marker != ""
    ensures var r := FindBoundary(s, marker, start); r >= 0 ==> start + 2 <= r && r - 2 + |marker| <= |s|
  {
    AtWithin(s, marker, IndexOf(s, marker, start));
  }

  lemma {:induction false} AtWithin(s: string, marker: string, at: int)
    requires marker != "" && (at >= 0 ==> At(s, marker, at))
    ensures var r := FindAt(s, marker, at); r >= 0 ==> at >= 0 && at + 2 <= r && r - 2 + |marker| <= |s|
    decreases if at < 0 then 0 else |s| + 1 - at
  {
    if at >= 0 && !Suffixed(s, at + |marker|) { AtWithin(s, marker, IndexOf(s, marker, at + |marker|)); }
  }

  /** Where the first boundary of a body is. */
  function StartOf(body: string, delimiter: string): (at: int)
    ensures at < 0 || at + |delimiter| <= |body|
  {
    FoundWithin(body, Marker(delimiter), 0);
    if At(body, delimiter, 0) then 0 else FindBoundary(body, Marker(delimiter), 0)
  }

  /** `parseMultipart` */
  function Parse(body: string, contentType: string, u: Utf8): Result {
    var boundary := Parameter(contentType, "boundary");
    if boundary.None? || boundary.value == "" then TypeError(BoundaryMissing) else
    ParseBody(body, Delimiter(boundary.value), u)
  }

  function ParseBody(body: string, delimiter: string, u: Utf8): Result {
    ParseAt(body, delimiter, StartOf(body, delimiter), u)
  }

  function ParseAt(body: string, delimiter: string, at: int, u: Utf8): Result
    requires at < 0 || at + |delimiter| <= |body|
  {
    if at < 0 then TypeError(BoundaryNotFound) else ParseBehind(body[at + |delimiter|..], delimiter, u)
  }
}

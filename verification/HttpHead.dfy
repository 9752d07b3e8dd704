/** The request head: request line and header fields (`HttpConnection::parseHead`). */
module HttpHead {
  import opened Bytes
  import opened Wrappers

  const MAX_HEAD: nat := 16384
  const MAX_BODY: nat := 67108864  // 64 MiB

  function LowerChar(c: char): char {
    if 'A' <= c <= 'Z' then c - 'A' + 'a' else c
  }

  predicate EqualsIgnoreCase(a: string, b: string) {
    |a| == |b| && forall i :: 0 <= i < |a| ==> LowerChar(a[i]) == LowerChar(b[i])
  }

  predicate IsBlank(c: char) { c == ' ' || c == '\t' }

  function TrimLeft(s: string): string {
    if s != "" && IsBlank(s[0]) then TrimLeft(s[1..]) else s
  }

  function TrimRight(s: string): string {
    if s != "" && IsBlank(s[|s| - 1]) then TrimRight(s[..|s| - 1]) else s
  }

  function Trim(s: string): string { TrimRight(TrimLeft(s)) }

  /** The comma-separated list `value` contains `token`. */
  predicate HasToken(value: string, token: string)
    decreases |value|
  {
    if value == "" then false
    else
      var comma := IndexOf(value, ",", 0);
      if comma < 0 then EqualsIgnoreCase(Trim(value), token)
      else EqualsIgnoreCase(Trim(value[..comma]), token) || HasToken(value[comma + 1..], token)
  }

  /** The CRLF-separated lines of a header block; a block that ends in CRLF has
      no empty line after it. */
  function Lines(s: string): seq<string>
    decreases |s|
  {
    if s == "" then []
    else
      var e := IndexOf(s, CRLF, 0);
      if e < 0 then [s] else [s[..e]] + Lines(s[e + 2..])
  }

  function DigitValue(c: char): nat
    requires IsDigit(c)
  {
    c as int - '0' as int
  }

  /** The decimal length starting from `acc`; none for an empty text, a
      character that is no digit, or a value over the body cap. */
  function DecimalFrom(text: string, acc: nat): Option<nat> {
    if text == "" then Some(acc)
    else if !IsDigit(text[0]) then None
    else
      var next := acc * 10 + DigitValue(text[0]);
      if next > MAX_BODY then None else DecimalFrom(text[1..], next)
  }

  function ContentLength(text: string): Option<nat> {
    if text == "" then None else DecimalFrom(text, 0)
  }

  /** What the header loop has collected so far. */
  datatype Fields = Fields(chunked: bool, keepAlive: bool, expectContinue: bool, length: Option<string>)

  datatype Field = Field(name: string, value: string)

  /** A header line cut at its first colon; none when there is no colon, no
      name, or blank space inside the name. */
  function SplitField(line: string): Option<Field> {
    var colon := IndexOf(line, ":", 0);
    if colon <= 0 then None
    else if exists i :: 0 <= i < colon && IsBlank(line[i]) then None
    else Some(Field(line[..colon], Trim(line[colon + 1..])))
  }

  /** The effect of one header line; none means 400. */
  function AddField(field: Field, f: Fields): Option<Fields> {
    if EqualsIgnoreCase(field.name, "content-length") then
      if f.length.Some? && field.value != f.length.value then None
      else Some(f.(length := Some(field.value)))
    else if EqualsIgnoreCase(field.name, "transfer-encoding") then
      if HasToken(field.value, "chunked") then Some(f.(chunked := true)) else None
    else if EqualsIgnoreCase(field.name, "connection") then
      if HasToken(field.value, "close") then Some(f.(keepAlive := false))
      else if HasToken(field.value, "keep-alive") then Some(f.(keepAlive := true))
      else Some(f)
    else if EqualsIgnoreCase(field.name, "expect") && EqualsIgnoreCase(field.value, "100-continue") then
      Some(f.(expectContinue := true))
    else Some(f)
  }

  function AddLine(line: string, f: Fields): Option<Fields> {
    if line == "" then Some(f)
    else match SplitField(line)
      case None => None
      case Some(field) => AddField(field, f)
  }

  function AddLines(lines: seq<string>, f: Fields): Option<Fields> {
    if lines == [] then Some(f)
    else match AddLine(lines[0], f)
      case None => None
      case Some(g) => AddLines(lines[1..], g)
  }

  datatype Head = Head(verb: string, target: string, version: string, rawHead: string,
                       length: nat, chunked: bool, keepAlive: bool, expectContinue: bool)

  datatype HeadResult = Good(head: Head) | Bad(status: int)

  datatype RequestLine = RequestLine(verb: string, target: string, version: string)

  function ParseRequestLine(line: string): Option<RequestLine> {
    var sp1 := IndexOf(line, " ", 0);
    if sp1 <= 0 then None
    else
      var sp2 := IndexOf(line, " ", sp1 + 1);
      if sp2 < 0 || sp2 == sp1 + 1 then None
      else
        var version := line[sp2 + 1..];
        if version != "HTTP/1.1" && version != "HTTP/1.0" then None
        else Some(RequestLine(line[..sp1], line[sp1 + 1..sp2], version))
  }

  function FirstLine(head: string): string {
    var e := IndexOf(head, CRLF, 0);
    if e < 0 then head else head[..e]
  }

  function AfterFirstLine(head: string): string {
    var e := IndexOf(head, CRLF, 0);
    if e < 0 then "" else head[e + 2..]
  }

  /** The head once its request line and header lines have been read. */
  function Assemble(line: RequestLine, raw: string, fields: Option<Fields>): HeadResult {
    match fields
    case None => Bad(400)
    case Some(f) =>
      if f.chunked || f.length.None? then
        Good(Head(line.verb, line.target, line.version, raw, 0, f.chunked, f.keepAlive, f.expectContinue))
      else match ContentLength(f.length.value)
        case None => Bad(400)
        case Some(n) =>
          Good(Head(line.verb, line.target, line.version, raw, n, false, f.keepAlive, f.expectContinue))
  }

  function StartFields(line: RequestLine): Fields { Fields(false, line.version == "HTTP/1.1", false, None) }

  /** The head without its closing empty line, parsed as a whole. */
  function ParseHead(head: string): HeadResult {
    match ParseRequestLine(FirstLine(head))
    case None => Bad(400)
    case Some(line) =>
      var raw := AfterFirstLine(head);
      Assemble(line, raw, AddLines(Lines(raw), StartFields(line)))
  }
}

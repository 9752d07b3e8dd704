/** Message framing seen from the reading side (section 6.3 of RFC 9112), and the
    text a response serializer has to produce for it. */
module HttpFraming {
  import opened Sequences
  import opened Bytes
  import opened Wrappers
  import opened HttpHead
  import opened HttpReference
  import opened HttpChunks

  // ---- the reader ----------------------------------------------------------------

  datatype HeadLines = HeadLines(lines: seq<string>, rest: string) | NoEnd

  /** The lines up to the empty one. */
  function ReadLines(s: string): HeadLines
    decreases |s|
  {
    var e := IndexOf(s, CRLF, 0);
    if e < 0 then NoEnd
    else if e == 0 then HeadLines([], s[2..])
    else match ReadLines(s[e + 2..])
      case NoEnd => NoEnd
      case HeadLines(lines, rest) => HeadLines([s[..e]] + lines, rest)
  }

  /** The value of the first field of a name. */
  function Lookup(lines: seq<string>, name: string): Option<string> {
    if lines == [] then None
    else match SplitField(lines[0])
      case None => Lookup(lines[1..], name)
      case Some(field) =>
        if EqualsIgnoreCase(field.name, name) then Some(field.value) else Lookup(lines[1..], name)
  }

  /** The status code between the first two spaces of the status line. */
  function StatusOf(line: string): Option<nat> {
    var sp1 := IndexOf(line, " ", 0);
    if sp1 < 0 then None
    else
      var sp2 := IndexOf(line, " ", sp1 + 1);
      if sp2 < 0 || sp2 == sp1 + 1 then None else ReadNumber(line[sp1 + 1..sp2], 10, 0)
  }

  predicate BodilessStatus(status: int) { status == 204 || status == 304 || 100 <= status < 200 }

  function BeforeSemicolon(line: string): string {
    var e := IndexOf(line, ";", 0);
    if e < 0 then line else line[..e]
  }

  /** The chunked coding without a limit. */
  function AnyChunks(s: string, body: string): BodyResult
    decreases |s|
  {
    var e := IndexOf(s, CRLF, 0);
    if e < 0 then Short
    else match ReadNumber(BeforeSemicolon(s[..e]), 16, 0)
      case None => Broken(400)
      case Some(n) => if n == 0 then Trailers(s[e + 2..], body) else AnyChunkData(s[e + 2..], body, n)
  }

  function AnyChunkData(s: string, body: string, n: nat): BodyResult
    decreases |s|
  {
    if |s| < n + 2 then Short
    else if s[n..n + 2] != CRLF then Broken(400)
    else AnyChunks(s[n + 2..], body + s[..n])
  }

  /** What a reader makes of the bytes after a request: a message that ends by
      itself with the bytes after it, a body that runs to the close, or neither yet. */
  datatype Received =
    | Bounded(status: nat, body: string, rest: string)
    | ToClose(status: nat, body: string)
    | Unfinished
    | Malformed

  function FromBody(status: nat, r: BodyResult): Received {
    match r
    case Decoded(body, rest) => Bounded(status, body, rest)
    case Short => Unfinished
    case Broken(_) => Malformed
  }

  /** Rules 1, 4, 6 and 8 of section 6.3, in order. */
  function ReadBody(status: nat, lines: seq<string>, rest: string, isHead: bool): Received {
    if isHead || BodilessStatus(status) then Bounded(status, "", rest)
    else match Lookup(lines, "transfer-encoding")
      case Some(coding) =>
        if HasToken(coding, "chunked") then FromBody(status, AnyChunks(rest, "")) else ToClose(status, rest)
      case None =>
        match Lookup(lines, "content-length")
        case None => ToClose(status, rest)
        case Some(text) =>
          match ReadNumber(text, 10, 0)
          case None => Malformed
          case Some(n) => if |rest| < n then Unfinished else Bounded(status, rest[..n], rest[n..])
  }

  function ReadResponse(s: string, isHead: bool): Received {
    match ReadLines(s)
    case NoEnd => Unfinished
    case HeadLines(lines, rest) =>
      if lines == [] then Malformed
      else match StatusOf(lines[0])
        case None => Malformed
        case Some(status) => ReadBody(status, lines[1..], rest, isHead)
  }

  // ---- the text ------------------------------------------------------------------

  /** No line break. */
  predicate CleanText(s: string) { forall i :: 0 <= i < |s| ==> s[i] != '\r' && s[i] != '\n' }

  /** A field name a reader can take back: not empty, no colon, blank or line break. */
  predicate CleanName(s: string) {
    && s != "" && CleanText(s)
    && forall i :: 0 <= i < |s| ==> s[i] != ':' && !IsBlank(s[i])
  }

  predicate FramingName(name: string) {
    EqualsIgnoreCase(name, "content-length") || EqualsIgnoreCase(name, "transfer-encoding")
  }

  function FieldLine(name: string, value: string): string { name + ": " + value }

  /** A header line that says nothing about framing. */
  ghost predicate PlainLine(line: string) {
    exists name, value ::
      line == FieldLine(name, value) && CleanName(name) && CleanText(value) && !FramingName(name)
  }

  function Join(lines: seq<string>): string {
    if lines == [] then "" else lines[0] + CRLF + Join(lines[1..])
  }

  /** How the body is delimited. */
  datatype Framing = NoBody | AppFramed | Sized(length: nat) | UntilClose | Chunked

  function FramingLines(f: Framing): seq<string> {
    match f
    case Sized(n) => ["Content-Length: " + Print(n, 10)]
    case Chunked => ["Transfer-Encoding: chunked"]
    case _ => []
  }

  function StatusLine(status: nat, message: string): string {
    "HTTP/1.1 " + Print(status, 10) + " " + message
  }

  function Block(statusLine: string, lines: seq<string>): string {
    statusLine + CRLF + Join(lines) + CRLF
  }

  function BodyText(f: Framing, pieces: seq<string>, finished: bool): string {
    match f
    case NoBody => ""
    case Chunked => ChunkAll(pieces) + if finished then LAST_CHUNK else ""
    case _ => Concat(pieces)
  }

  // ---- what is written is what is read ----------------------------------------------

  lemma {:induction false} LinesBack(lines: seq<string>, rest: string)
    requires forall i :: 0 <= i < |lines| ==> lines[i] != "" && CleanText(lines[i])
    ensures ReadLines(Join(lines) + (CRLF + rest)) == HeadLines(lines, rest)
  {
    if lines == [] {
      assert "" + (CRLF + rest) == "" + CRLF + rest;
      LineEnd("", rest);
    } else {
      var tail := Join(lines[1..]) + (CRLF + rest);
      assert Join(lines) + (CRLF + rest) == lines[0] + CRLF + tail;
      LineEnd(lines[0], tail);
      LinesBack(lines[1..], rest);
    }
  }

  lemma FieldBack(name: string, value: string)
    requires CleanName(name)
    ensures SplitField(FieldLine(name, value)) == Some(Field(name, Trim(value)))
  {
    var line := FieldLine(name, value);
    assert line[|name|] == ':' && line[|name|..|name| + 1] == ":";
    forall k: int | 0 <= k < |name|
      ensures !At(line, ":", k)
    {
      assert line[k] == name[k] && line[k..k + 1][0] == line[k];
    }
    IndexOfIs(line, ":", 0, |name|);
    assert line[..|name|] == name;
    assert line[|name| + 1..] == " " + value;
    assert (" " + value)[1..] == value;
  }

  lemma {:induction false} LookupPlain(plain: seq<string>, tail: seq<string>, name: string)
    requires forall i :: 0 <= i < |plain| ==> PlainLine(plain[i])
    requires FramingName(name) && (name == "content-length" || name == "transfer-encoding")
    ensures Lookup(plain + tail, name) == Lookup(tail, name)
  {
    if plain == [] {
      assert plain + tail == tail;
    } else {
      var n, v :| plain[0] == FieldLine(n, v) && CleanName(n) && CleanText(v) && !FramingName(n);
      FieldBack(n, v);
      assert (plain + tail)[1..] == plain[1..] + tail;
      LookupPlain(plain[1..], tail, name);
    }
  }

  lemma NoSemicolon(line: string)
    requires AllDigits(line, 16)
    ensures BeforeSemicolon(line) == line
  {
    forall k: int | 0 <= k < |line|
      ensures !At(line, ";", k)
    {
      assert line[k..k + 1][0] == line[k];
    }
  }

  lemma AnyChunkBack(piece: string, s: string, body: string)
    ensures AnyChunks(Chunk(piece) + s, body) == AnyChunks(s, body + piece)
  {
    if piece == "" {
      assert Chunk(piece) + s == s && body + piece == body;
    } else {
      var n := |piece|;
      var line := Print(n, 16);
      var data := piece + CRLF + s;
      assert Chunk(piece) + s == line + CRLF + data;
      PrintDigits(n, 16);
      NoReturn(line);
      LineEnd(line, data);
      NoSemicolon(line);
      PrintRead(n, 16, "");
      assert line + "" == line;
      AnyDataBack(piece, s, body);
    }
  }

  lemma AnyDataBack(piece: string, s: string, body: string)
    ensures AnyChunkData(piece + CRLF + s, body, |piece|) == AnyChunks(s, body + piece)
  {
    var n := |piece|;
    var data := piece + CRLF + s;
    assert data[..n] == piece && data[n..n + 2] == CRLF && data[n + 2..] == s;
  }

  lemma {:induction false} AnyPiecesBack(pieces: seq<string>, end: string, body: string)
    ensures AnyChunks(ChunkAll(pieces) + end, body) == AnyChunks(end, body + Concat(pieces))
  {
    if pieces == [] {
      assert "" + end == end && body + "" == body;
    } else {
      var p, more := pieces[0], pieces[1..];
      Associates(Chunk(p), ChunkAll(more), end);
      Associates(body, p, Concat(more));
      AnyChunkBack(p, ChunkAll(more) + end, body);
      AnyPiecesBack(more, end, body + p);
    }
  }

  lemma AnyLastBack(rest: string, body: string)
    ensures AnyChunks(LAST_CHUNK + rest, body) == Decoded(body, rest)
  {
    assert LAST_CHUNK + rest == "0" + CRLF + (CRLF + rest);
    LineEnd("0", CRLF + rest);
    NoSemicolon("0");
    PrintRead(0, 16, "");
    assert Print(0, 16) == "0" && "0" + "" == "0";
    assert "" + CRLF + rest == CRLF + rest;
    LineEnd("", rest);
  }

  lemma ChunkedBodyBack(pieces: seq<string>, rest: string)
    ensures AnyChunks(BodyText(Chunked, pieces, true) + rest, "") == Decoded(Concat(pieces), rest)
  {
    assert BodyText(Chunked, pieces, true) + rest == ChunkAll(pieces) + (LAST_CHUNK + rest);
    AnyPiecesBack(pieces, LAST_CHUNK + rest, "");
    assert "" + Concat(pieces) == Concat(pieces);
    AnyLastBack(rest, Concat(pieces));
  }

  lemma TrimNothing(s: string)
    requires s == "" || (!IsBlank(s[0]) && !IsBlank(s[|s| - 1]))
    ensures Trim(s) == s
  {
  }

  const TRANSFER_ENCODING: string := "Transfer-Encoding"
  const CONTENT_LENGTH: string := "Content-Length"

  lemma NamesClean()
    ensures CleanName(TRANSFER_ENCODING) && CleanName(CONTENT_LENGTH)
  {
  }

  lemma TransferEncodingName()
    ensures EqualsIgnoreCase(TRANSFER_ENCODING, "transfer-encoding")
  {
  }

  lemma ContentLengthName()
    ensures EqualsIgnoreCase(CONTENT_LENGTH, "content-length")
  {
  }

  lemma ChunkedToken()
    ensures HasToken("chunked", "chunked") && Trim("chunked") == "chunked" && CleanText("chunked")
  {
    forall k: int | 0 <= k < 7
      ensures !At("chunked", ",", k)
    {
      assert "chunked"[k..k + 1][0] == "chunked"[k];
    }
    TrimNothing("chunked");
  }

  lemma FieldLineClean(name: string, value: string)
    requires CleanName(name) && CleanText(value)
    ensures FieldLine(name, value) != "" && CleanText(FieldLine(name, value))
  {
  }

  /** The first field decides, or is passed over. */
  lemma LookupFirst(name: string, value: string, more: seq<string>, wanted: string)
    requires CleanName(name)
    ensures Lookup([FieldLine(name, value)] + more, wanted)
      == if EqualsIgnoreCase(name, wanted) then Some(Trim(value)) else Lookup(more, wanted)
  {
    FieldBack(name, value);
    assert ([FieldLine(name, value)] + more)[1..] == more;
  }

  const CONNECTION: string := "Connection"
  const KEEP_ALIVE: string := "Keep-Alive"
  const DATE: string := "Date"

  lemma NamesApart()
    ensures CleanName(CONNECTION) && CleanName(KEEP_ALIVE) && CleanName(DATE)
    ensures EqualsIgnoreCase(CONNECTION, "connection") && EqualsIgnoreCase(DATE, "date")
    ensures !EqualsIgnoreCase(KEEP_ALIVE, "connection") && !EqualsIgnoreCase(DATE, "connection")
    ensures !EqualsIgnoreCase(CONNECTION, "date") && !EqualsIgnoreCase(KEEP_ALIVE, "date")
  {
    assert LowerChar(KEEP_ALIVE[0]) != LowerChar("connection"[0]);
    assert |DATE| != |"connection"| && |CONNECTION| != |"date"| && |KEEP_ALIVE| != |"date"|;
  }

  /** What the field that closes a connection is read as. */
  lemma CloseTold()
    ensures Lookup(["Connection: close"], "connection") == Some("close")
  {
    assert "Connection: close" == FieldLine(CONNECTION, "close");
    assert ["Connection: close"] + [] == ["Connection: close"];
    NamesApart();
    TrimNothing("close");
    LookupFirst(CONNECTION, "close", [], "connection");
  }

  /** A list of one field that says nothing about framing leaves the body to run to the close. */
  lemma ClosePlain()
    ensures PlainLine("Connection: close")
  {
    assert "Connection: close" == FieldLine(CONNECTION, "close");
    NamesApart();
    assert CleanText("close") && |CONNECTION| != |"content-length"| && |CONNECTION| != |"transfer-encoding"|;
  }

  lemma LookupOne(name: string, value: string, wanted: string)
    requires CleanName(name) && EqualsIgnoreCase(name, wanted)
    ensures Lookup([FieldLine(name, value)], wanted) == Some(Trim(value))
  {
    FieldBack(name, value);
  }

  lemma ChunkedLine()
    ensures FramingLines(Chunked)[0] != "" && CleanText(FramingLines(Chunked)[0])
    ensures Lookup(FramingLines(Chunked), "transfer-encoding") == Some("chunked")
  {
    assert "Transfer-Encoding: chunked" == FieldLine(TRANSFER_ENCODING, "chunked");
    NamesClean();
    ChunkedToken();
    FieldLineClean(TRANSFER_ENCODING, "chunked");
    TransferEncodingName();
    LookupOne(TRANSFER_ENCODING, "chunked", "transfer-encoding");
  }

  lemma DigitsTrim(text: string)
    requires text != "" && AllDigits(text, 16)
    ensures Trim(text) == text && CleanText(text)
  {
    TrimNothing(text);
  }

  lemma SizedLine(n: nat)
    ensures FramingLines(Sized(n)) == [FieldLine(CONTENT_LENGTH, Print(n, 10))]
    ensures FramingLines(Sized(n))[0] != "" && CleanText(FramingLines(Sized(n))[0])
    ensures Lookup(FramingLines(Sized(n)), "content-length") == Some(Print(n, 10))
  {
    var text := Print(n, 10);
    assert "Content-Length: " + text == FieldLine(CONTENT_LENGTH, text);
    NamesClean();
    PrintDigits(n, 10);
    DigitsTrim(text);
    FieldLineClean(CONTENT_LENGTH, text);
    ContentLengthName();
    LookupOne(CONTENT_LENGTH, text, "content-length");
  }

  lemma SizedNotChunked(n: nat)
    ensures Lookup(FramingLines(Sized(n)), "transfer-encoding") == None
  {
    SizedLine(n);
    NamesClean();
    FieldBack(CONTENT_LENGTH, Print(n, 10));
    assert Lookup([FieldLine(CONTENT_LENGTH, Print(n, 10))][1..], "transfer-encoding") == None;
  }

  lemma LengthBack(n: nat)
    ensures ReadNumber(Print(n, 10), 10, 0) == Some(n)
  {
    PrintRead(n, 10, "");
    assert Print(n, 10) + "" == Print(n, 10);
  }

  lemma NoMatchInDigits(line: string, from: nat, digits: string)
    requires AllDigits(digits, 16) && from + |digits| <= |line| && line[from..from + |digits|] == digits
    ensures forall k: int :: from <= k < from + |digits| ==> !At(line, " ", k)
  {
    forall k: int | from <= k < from + |digits|
      ensures !At(line, " ", k)
    {
      assert line[k..k + 1][0] == line[k] && line[k] == digits[k - from];
    }
  }

  lemma StatusBack(status: nat, message: string)
    ensures StatusOf(StatusLine(status, message)) == Some(status)
  {
    var digits := Print(status, 10);
    var line := StatusLine(status, message);
    PrintDigits(status, 10);
    assert line[..9] == "HTTP/1.1 ";
    forall k: int | 0 <= k < 8
      ensures !At(line, " ", k)
    {
      assert line[k..k + 1][0] == line[k] && line[k] == "HTTP/1.1 "[k];
    }
    assert line[8] == ' ' && line[8..9] == " ";
    IndexOfIs(line, " ", 0, 8);
    assert line[9..9 + |digits|] == digits;
    NoMatchInDigits(line, 9, digits);
    assert line[9 + |digits|] == ' ' && line[9 + |digits|..9 + |digits| + 1] == " ";
    IndexOfIs(line, " ", 9, 9 + |digits|);
    LengthBack(status);
  }

  lemma FramingLinesClean(f: Framing)
    ensures forall i :: 0 <= i < |FramingLines(f)| ==> FramingLines(f)[i] != "" && CleanText(FramingLines(f)[i])
  {
    ChunkedLine();
    if f.Sized? { SizedLine(f.length); }
  }

  lemma PlainLineClean(line: string)
    requires PlainLine(line)
    ensures line != "" && CleanText(line)
  {
    var n, v :| line == FieldLine(n, v) && CleanName(n) && CleanText(v) && !FramingName(n);
    FieldLineClean(n, v);
  }

  lemma StatusLineClean(status: nat, message: string)
    requires CleanText(message)
    ensures StatusLine(status, message) != "" && CleanText(StatusLine(status, message))
  {
    PrintDigits(status, 10);
  }

  lemma BlockBack(status: nat, message: string, lines: seq<string>, rest: string)
    requires CleanText(message)
    requires forall i :: 0 <= i < |lines| ==> lines[i] != "" && CleanText(lines[i])
    ensures ReadLines(Block(StatusLine(status, message), lines) + rest)
         == HeadLines([StatusLine(status, message)] + lines, rest)
  {
    var line := StatusLine(status, message);
    var all := [line] + lines;
    StatusLineClean(status, message);
    assert all[1..] == lines;
    assert Block(line, lines) + rest == Join(all) + (CRLF + rest);
    LinesBack(all, rest);
  }

  lemma BodyBack(status: nat, plain: seq<string>, f: Framing, pieces: seq<string>, rest: string, isHead: bool)
    requires forall i :: 0 <= i < |plain| ==> PlainLine(plain[i])
    requires !f.AppFramed? && (f.NoBody? <==> isHead || BodilessStatus(status))
    requires f.Sized? ==> f.length == |Concat(pieces)|
    ensures ReadBody(status, plain + FramingLines(f), BodyText(f, pieces, true) + rest, isHead)
         == if f.UntilClose? then ToClose(status, Concat(pieces) + rest)
            else Bounded(status, if f.NoBody? then "" else Concat(pieces), rest)
  {
    var all := plain + FramingLines(f);
    TransferNameIsFraming();
    LookupPlain(plain, FramingLines(f), "transfer-encoding");
    LookupPlain(plain, FramingLines(f), "content-length");
    match f
    case NoBody => assert "" + rest == rest;
    case UntilClose =>
    case Chunked =>
      ChunkedLine();
      ChunkedToken();
      ChunkedBodyBack(pieces, rest);
    case Sized(n) =>
      SizedLine(n);
      SizedNotChunked(n);
      LengthBack(n);
      var b := Concat(pieces);
      assert (b + rest)[..n] == b && (b + rest)[n..] == rest;
  }

  lemma TransferNameIsFraming()
    ensures FramingName("transfer-encoding") && FramingName("content-length")
  {
  }

  /** A response whose framing was chosen here is read back exactly: the body that
      was written and nothing of what follows, or, when it runs to the close,
      everything up to the close. */
  lemma ResponseBack(status: nat, message: string, plain: seq<string>, f: Framing, pieces: seq<string>, rest: string,
                     isHead: bool)
    requires CleanText(message) && forall i :: 0 <= i < |plain| ==> PlainLine(plain[i])
    requires !f.AppFramed? && (f.NoBody? <==> isHead || BodilessStatus(status))
    requires f.Sized? ==> f.length == |Concat(pieces)|
    ensures ReadResponse(Block(StatusLine(status, message), plain + FramingLines(f))
      + (BodyText(f, pieces, true) + rest),
                         isHead)
         == if f.UntilClose? then ToClose(status, Concat(pieces) + rest)
            else Bounded(status, if f.NoBody? then "" else Concat(pieces), rest)
  {
    var lines := plain + FramingLines(f);
    forall i | 0 <= i < |lines|
      ensures lines[i] != "" && CleanText(lines[i])
    {
      FramingLinesClean(f);
      if i < |plain| { PlainLineClean(plain[i]); }
    }
    BlockBack(status, message, lines, BodyText(f, pieces, true) + rest);
    StatusBack(status, message);
    assert ([StatusLine(status, message)] + lines)[1..] == lines;
    BodyBack(status, plain, f, pieces, rest, isHead);
  }
}

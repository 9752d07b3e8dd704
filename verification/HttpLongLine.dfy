/** One request whose chunk-size line is over the limit, and the cut that shows. */
module HttpLongLine {
  import opened Bytes
  import opened Wrappers
  import opened HttpHead
  import opened HttpMachine
  import opened HttpSplit
  import opened HttpReference
  import opened HttpSizeLines
  import HttpChunks
  import opened HttpFraming

  const REQUEST_LINE: string := "P" + (" " + ("/" + (" " + "HTTP/1.1")))
  const FIELD_LINE: string := FieldLine(TRANSFER_ENCODING, "chunked")
  const HEAD_TEXT: string := REQUEST_LINE + CRLF + FIELD_LINE

  /** The size 1 and an extension of 1023 bytes with its semicolon's. */
  function SizeLine(): (line: string)
    ensures |line| == 1025
  {
    "1;" + seq(1023, i => 'x')
  }

  const STREAM: string := HEAD_TEXT + HEAD_END + (SizeLine() + CRLF)

  lemma SpacesFound()
    ensures IndexOf(REQUEST_LINE, " ", 0) == 1 && IndexOf(REQUEST_LINE, " ", 2) == 3
  {
    var s := REQUEST_LINE;
    assert s[0] == 'P' && s[1] == ' ' && s[2] == '/' && s[3] == ' ';
    assert s[1..2] == " " && s[3..4] == " ";
    assert s[0..1][0] == 'P' && s[2..3][0] == '/';
    IndexOfIs(s, " ", 0, 1);
    IndexOfIs(s, " ", 2, 3);
  }

  lemma RequestLineParsed()
    ensures ParseRequestLine(REQUEST_LINE) == Some(RequestLine("P", "/", "HTTP/1.1"))
  {
    SpacesFound();
    var s := REQUEST_LINE;
    assert s[..1] == "P" && s[2..3] == "/" && s[4..] == "HTTP/1.1";
  }

  predicate NoReturn(s: string) { forall i :: 0 <= i < |s| ==> s[i] != '\r' }

  lemma NoReturns()
    ensures NoReturn(REQUEST_LINE) && NoReturn(FIELD_LINE) && NoReturn(SizeLine())
  {
    NamesClean();
    ChunkedToken();
    var s := SizeLine();
    forall i | 0 <= i < |s| ensures s[i] != '\r' { assert i < 2 || s[i] == 'x'; }
  }

  lemma FieldTaken()
    ensures AddLine(FIELD_LINE, StartFields(RequestLine("P", "/", "HTTP/1.1"))) == Some(Fields(true, true, false, None))
  {
    NamesClean();
    FieldBack(TRANSFER_ENCODING, "chunked");
    ChunkedToken();
    TransferEncodingName();
    assert |TRANSFER_ENCODING| == 17 && |"content-length"| == 14;
  }

  lemma CrlfAt(s: string, k: int)
    requires At(s, CRLF, k)
    ensures s[k] == '\r'
  {
    assert s[k..k + 2][0] == s[k];
  }

  lemma LinesOne(line: string)
    requires line != "" && NoReturn(line)
    ensures Lines(line) == [line]
  {
    var e := IndexOf(line, CRLF, 0);
    if e >= 0 { CrlfAt(line, e); }
  }

  lemma FirstLineIs(a: string, b: string)
    requires NoReturn(a)
    ensures FirstLine(a + CRLF + b) == a && AfterFirstLine(a + CRLF + b) == b
  {
    HttpChunks.LineEnd(a, b);
  }

  lemma HeadIs(a: string, b: string, line: RequestLine, f: Fields)
    requires NoReturn(a) && NoReturn(b) && b != ""
    requires ParseRequestLine(a) == Some(line) && AddLine(b, StartFields(line)) == Some(f)
    ensures ParseHead(a + CRLF + b) == Assemble(line, b, Some(f))
  {
    FirstLineIs(a, b);
    LinesOne(b);
    assert [b][1..] == [];
    assert AddLines([b], StartFields(line)) == AddLines([], f);
  }

  lemma HeadParsed()
    ensures ParseHead(HEAD_TEXT) == Good(Head("P", "/", "HTTP/1.1", FIELD_LINE, 0, true, true, false))
  {
    NoReturns();
    RequestLineParsed();
    FieldTaken();
    HeadIs(REQUEST_LINE, FIELD_LINE, RequestLine("P", "/", "HTTP/1.1"), Fields(true, true, false, None));
  }

  lemma HeadEndFound(a: string, b: string, more: string)
    requires NoReturn(a) && NoReturn(b) && b != ""
    ensures var head := a + CRLF + b;
      IndexOf(head + HEAD_END + more, HEAD_END, 0) == |head|
      && (head + HEAD_END + more)[..|head|] == head && (head + HEAD_END + more)[|head| + 4..] == more
  {
    var head := a + CRLF + b;
    var s := head + HEAD_END + more;
    assert s[|head|..|head| + 4] == HEAD_END;
    forall k: int | 0 <= k < |head|
      ensures !At(s, HEAD_END, k)
    {
      if At(s, HEAD_END, k) { HeadEndAt(s, k); }
      assert k < |a| ==> s[k] == a[k];
      assert k >= |a| + 2 ==> s[k] == b[k - |a| - 2];
      assert s[|a| + 2] == b[0] && s[|a| + 1] == '\n';
    }
    IndexOfIs(s, HEAD_END, 0, |head|);
  }

  lemma HeadEndAt(s: string, k: int)
    requires At(s, HEAD_END, k)
    ensures s[k] == '\r' && s[k + 2] == '\r'
  {
    assert s[k..k + 4][0] == s[k] && s[k..k + 4][2] == s[k + 2];
  }

  lemma SizeLineFolds()
    ensures ChunkSize(SizeLine()) == Size(1)
  {
    var s := SizeLine();
    assert s[0] == '1' && s[1..][0] == ';';
    assert SizeFrom(s[1..], 1, true) == Size(1);
  }

  /** A head that announces chunks, as it is read. */
  predicate ChunkedHead(text: string, head: Head, more: string) {
    && |text| + 4 <= MAX_HEAD && IndexOf(text + HEAD_END + more, HEAD_END, 0) == |text|
    && (text + HEAD_END + more)[..|text|] == text && (text + HEAD_END + more)[|text| + 4..] == more
    && ParseHead(text) == Good(head) && head.chunked && !head.expectContinue
  }

  /** A size line over the limit, with its CRLF. */
  predicate LongLine(line: string, size: nat) {
    |line| == 1025 && IndexOf(line + CRLF, CRLF, 0) == |line| && ChunkSize(line) == Size(size) && size > 0
  }

  function AtLine(head: Head, more: string): Conn { Conn(more, AtChunkSize(head, ""), true, false, None, [], false) }

  lemma HeadTaken(h: Handler, text: string, head: Head, more: string)
    requires ChunkedHead(text, head, more)
    ensures var c := Append(INITIAL, text + HEAD_END + more);
      TurnOf(c, h) == Turn(AtLine(head, more), true)
  {
    var c := Append(INITIAL, text + HEAD_END + more);
    assert c.inbuf == text + HEAD_END + more && [] + [] == c.trace;
    assert HeadTurn(c, h) == HeadRead(c.(inbuf := more), h, Good(head));
  }

  lemma LineCut(h: Handler, d: Conn, line: string, size: nat)
    requires !Blocked(d) && d.parse.AtChunkSize? && d.inbuf == line + CRLF && !d.longLine && d.trace == []
    requires LongLine(line, size)
    ensures CutTrace(d, h, d.inbuf, 1025) == [Reject(400)] != WholeTrace(d, h, d.inbuf)
  {
    assert d.inbuf == d.inbuf[..1027] && d.inbuf[..1025] == line;
    LongLineCut(d, h, 1025, 1025);
    LongLineWhole(d, h, 1025);
    assert d.trace + [Reject(400)] == [Reject(400)];
  }

  lemma HeadLeads(h: Handler, text: string, head: Head, more: string)
    requires ChunkedHead(text, head, more)
    ensures Leads(Append(INITIAL, text + HEAD_END + more), text + HEAD_END, AtLine(head, more), h)
  {
    var c, d := Append(INITIAL, text + HEAD_END + more), AtLine(head, more);
    HeadTaken(h, text, head, more);
    TurnLeads(c, d, h);
    FrontOf(text + HEAD_END, more);
  }

  lemma FrontOf(x: string, more: string)
    ensures (x + more)[..|x + more| - |more|] == x
  {
  }

  /** A cut that shows behind the bytes that lead there shows in the whole stream. */
  lemma CutFromStart(c: Conn, x: string, d: Conn, h: Handler, u: string, i: nat)
    requires Leads(c, x, d, h) && INITIAL.(inbuf := c.inbuf) == c && i <= |u|
    ensures CutTrace(INITIAL, h, x + u, |x| + i) == CutTrace(d, h, u, i)
    ensures WholeTrace(INITIAL, h, x + u) == WholeTrace(d, h, u)
  {
    LeadsCut(c, x, d, h, u, i);
    SameTraces(c, INITIAL, h, x + u, |x| + i);
  }

  lemma LineShows(c: Conn, x: string, d: Conn, h: Handler, line: string, size: nat)
    requires Leads(c, x, d, h) && INITIAL.(inbuf := c.inbuf) == c && LongLine(line, size)
    requires !Blocked(d) && d.parse.AtChunkSize? && d.inbuf == line + CRLF && !d.longLine && d.trace == []
    ensures CutTrace(INITIAL, h, x + d.inbuf, |x| + 1025) == [Reject(400)] != WholeTrace(INITIAL, h, x + d.inbuf)
  {
    LineCut(h, d, line, size);
    CutFromStart(c, x, d, h, d.inbuf, 1025);
  }

  /** Such a request, cut behind the first 1025 bytes of the line, is answered with 400;
      in one piece it is not. */
  lemma CutShows(h: Handler, text: string, head: Head, line: string, size: nat)
    requires ChunkedHead(text, head, line + CRLF) && LongLine(line, size)
    ensures var s, i := text + HEAD_END + (line + CRLF), |text| + 4 + 1025;
      CutTrace(INITIAL, h, s, i) == [Reject(400)] != WholeTrace(INITIAL, h, s)
  {
    var u := line + CRLF;
    var s, x, d := text + HEAD_END + u, text + HEAD_END, AtLine(head, u);
    HeadLeads(h, text, head, u);
    LineShows(Append(INITIAL, s), x, d, h, line, size);
  }

  lemma CutIsFeeding(h: Handler, s: string, i: nat)
    requires i <= |s|
    ensures FeedAll(INITIAL, h, [s[..i], s[i..]]).trace == CutTrace(INITIAL, h, s, i)
    ensures OnePass(s, h).trace == WholeTrace(INITIAL, h, s)
  {
    FeedTwo(h, s[..i], s[i..]);
    AppendInitial("", s);
    AppendInitial("", s[..i]);
  }

  lemma ReadLong(h: Handler, text: string, head: Head, line: string, size: nat)
    requires ChunkedHead(text, head, line + CRLF) && LongLine(line, size)
    ensures LongInStream(text + HEAD_END + (line + CRLF), h, true, [])
  {
    assert (line + CRLF)[..|line|] == line;
  }

  lemma ShownIn(h: Handler, text: string, head: Head, line: string, size: nat, s: string, i: nat)
    requires ChunkedHead(text, head, line + CRLF) && LongLine(line, size)
    requires s == text + HEAD_END + (line + CRLF) && i == |text| + 4 + 1025
    ensures LongInStream(s, h, true, [])
    ensures FeedAll(INITIAL, h, [s[..i], s[i..]]).trace == [Reject(400)] != OnePass(s, h).trace
  {
    ReadLong(h, text, head, line, size);
    CutShows(h, text, head, line, size);
    CutIsFeeding(h, s, i);
  }

  /** The request has a line that is too long: cut behind the first 1025 bytes of that
      line it is answered with 400, and in one piece it is not. */
  lemma LongLineShown(h: Handler)
    ensures LongInStream(STREAM, h, true, [])
    ensures var i := |HEAD_TEXT| + 4 + 1025;
      FeedAll(INITIAL, h, [STREAM[..i], STREAM[i..]]).trace == [Reject(400)] != OnePass(STREAM, h).trace
  {
    StreamIs();
    ShownIn(h, HEAD_TEXT, Head("P", "/", "HTTP/1.1", FIELD_LINE, 0, true, true, false), SizeLine(), 1,
            STREAM, |HEAD_TEXT| + 4 + 1025);
  }

  lemma StreamIs()
    ensures ChunkedHead(HEAD_TEXT, Head("P", "/", "HTTP/1.1", FIELD_LINE, 0, true, true, false), SizeLine() + CRLF)
    ensures LongLine(SizeLine(), 1)
  {
    NoReturns();
    HeadParsed();
    HeadEndFound(REQUEST_LINE, FIELD_LINE, SizeLine() + CRLF);
    SizeLineFolds();
    HttpChunks.LineEnd(SizeLine(), "");
    assert SizeLine() + CRLF + "" == SizeLine() + CRLF;
    assert |HEAD_TEXT| == 12 + 2 + 26;
  }
}

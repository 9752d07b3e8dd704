/** A reference reading of a request stream, one whole message at a time, in the
    shape of section 2.1, 6 and 7.1 of RFC 9112: head, then body by length or by
    chunks and trailers. The incremental machine agrees with it. */
module HttpReference {
  import opened Bytes
  import opened Wrappers
  import opened HttpHead
  import opened HttpMachine
  import opened HttpSplit

  /** A body at the front of the stream: read in full, still short, or refused. */
  datatype BodyResult = Decoded(body: string, rest: string) | Short | Broken(status: int)

  function Trailers(s: string, body: string): BodyResult
    decreases |s|
  {
    var e := IndexOf(s, CRLF, 0);
    if e < 0 then Short else if e == 0 then Decoded(body, s[2..]) else Trailers(s[e + 2..], body)
  }

  /** Chunks up to the zero-size chunk and the trailers; `body` is what earlier
      chunks held. */
  function Chunks(s: string, body: string): BodyResult
    decreases |s|
  {
    var e := IndexOf(s, CRLF, 0);
    if e < 0 then (if |s| > MAX_SIZE_LINE then Broken(400) else Short)
    else match ChunkSize(s[..e])
      case SizeError(status) => Broken(status)
      case Size(n) => if n == 0 then Trailers(s[e + 2..], body) else ChunkData(s[e + 2..], body, n)
  }

  function ChunkData(s: string, body: string, n: nat): BodyResult
    decreases |s|
  {
    if |body| + Min(n, |s|) > MAX_BODY then Broken(413)
    else if |s| < n + 2 then Short
    else if s[n..n + 2] != CRLF then Broken(400)
    else Chunks(s[n + 2..], body + s[..n])
  }

  function BodyOf(head: Head, s: string): BodyResult {
    if head.chunked then Chunks(s, "")
    else if |s| < head.length then Short
    else Decoded(s[..head.length], s[head.length..])
  }

  lemma {:induction false} TrailersShrink(s: string, body: string)
    ensures Trailers(s, body).Decoded? ==> |Trailers(s, body).rest| <= |s|
    decreases |s|
  {
    var e := IndexOf(s, CRLF, 0);
    if e > 0 { TrailersShrink(s[e + 2..], body); }
  }

  lemma {:induction false} ChunksShrink(s: string, body: string)
    ensures Chunks(s, body).Decoded? ==> |Chunks(s, body).rest| <= |s|
    decreases |s|
  {
    var e := IndexOf(s, CRLF, 0);
    if e >= 0 && ChunkSize(s[..e]).Size? {
      var n, d := ChunkSize(s[..e]).size, s[e + 2..];
      if n == 0 {
        TrailersShrink(d, body);
      } else if |d| >= n + 2 {
        ChunksShrink(d[n + 2..], body + d[..n]);
      }
    }
  }

  lemma BodyShrinks(head: Head, s: string)
    ensures BodyOf(head, s).Decoded? ==> |BodyOf(head, s).rest| <= |s|
  {
    if head.chunked { ChunksShrink(s, ""); }
  }

  /** The whole history of a stream, given what happened before it. */
  function Reference(s: string, h: Handler, first: bool, trace: seq<Event>): seq<Event>
    decreases |s|, 0
  {
    var e := IndexOf(s, HEAD_END, 0);
    if e < 0 then (if |s| > MAX_HEAD then trace + [Reject(431)] else trace)
    else if e + 4 > MAX_HEAD then trace + [Reject(431)]
    else match ParseHead(s[..e])
      case Bad(status) => trace + [Reject(status)]
      case Good(head) =>
        AfterHead(s[e + 4..], h, head, first, trace + if head.expectContinue then [Continue] else [])
  }

  function AfterHead(s: string, h: Handler, head: Head, first: bool, trace: seq<Event>): seq<Event>
    decreases |s|, 1
  {
    match BodyOf(head, s)
    case Short => trace
    case Broken(status) => trace + [Reject(status)]
    case Decoded(body, rest) =>
      BodyShrinks(head, s);
      var request := RequestOf(head, body, first);
      var reply := h(trace, request);
      var trace := trace + Exchange(request, reply);
      if reply.keepAlive then Reference(rest, h, false, trace) else trace
  }

  /** A chunk-size line over the limit that is not answered with 400 in any case. */
  predicate TooLong(line: string) { |line| >= MAX_SIZE_LINE && ChunkSize(line) != SizeError(400) }

  /** One of the chunk-size lines read at the front of the stream is too long. */
  predicate LongInChunks(s: string, body: string)
    decreases |s|
  {
    var e := IndexOf(s, CRLF, 0);
    e >= 0 && (TooLong(s[..e]) || LongBehind(s[e + 2..], body, ChunkSize(s[..e])))
  }

  predicate LongBehind(s: string, body: string, size: SizeResult)
    decreases |s|
  {
    && size.Size? && 0 < size.size && |body| + Min(size.size, |s|) <= MAX_BODY
    && |s| >= size.size + 2 && s[size.size..size.size + 2] == CRLF
    && LongInChunks(s[size.size + 2..], body + s[..size.size])
  }

  /** The same of a whole stream: some body read on the way has such a line. */
  predicate LongInStream(s: string, h: Handler, first: bool, trace: seq<Event>)
    decreases |s|, 0
  {
    var e := IndexOf(s, HEAD_END, 0);
    && 0 <= e && e + 4 <= MAX_HEAD
    && var r := ParseHead(s[..e]);
      r.Good? && LongAfterHead(s[e + 4..], h, r.head, first, trace + if r.head.expectContinue then [Continue] else [])
  }

  predicate LongAfterHead(s: string, h: Handler, head: Head, first: bool, trace: seq<Event>)
    decreases |s|, 1
  {
    || (head.chunked && LongInChunks(s, ""))
    || match BodyOf(head, s)
       case Decoded(body, rest) =>
         BodyShrinks(head, s);
         var request := RequestOf(head, body, first);
         var reply := h(trace, request);
         reply.keepAlive && LongInStream(rest, h, false, trace + Exchange(request, reply))
       case _ => false
  }

  function RequestOf(head: Head, body: string, first: bool): Request {
    Request(head.verb, head.target, head.version, head.rawHead, body, head.keepAlive, first)
  }

  /** One request and the whole of its answer. */
  function Exchange(request: Request, reply: Reply): seq<Event> {
    [Dispatch(request)] + Wrotes(reply.pieces) + [Done(reply.keepAlive)]
  }

  /** What a body result means for the machine `c` that is about to read the body,
      given where it settles; `l` is whether a line too long has been read by then. */
  ghost predicate Means(c: Conn, settled: Conn, h: Handler, head: Head, r: BodyResult, l: bool)
    requires c.Conn?
  {
    match r
    case Short => settled.trace == c.trace && settled.longLine == l
    case Broken(status) => settled.trace == c.trace + [Reject(status)] && settled.longLine == l
    case Decoded(body, rest) =>
      settled == Settle(Dispatched(c.(inbuf := rest, longLine := l), h, head, body), h)
  }

  lemma {:induction false} TrailersMean(c: Conn, h: Handler)
    requires !Blocked(c) && c.parse.InTrailers?
    ensures Means(c, Settle(c, h), h, c.parse.head, Trailers(c.inbuf, c.parse.body), c.longLine)
    decreases |c.inbuf|
  {
    var e := IndexOf(c.inbuf, CRLF, 0);
    if e > 0 {
      assert TrailerTurn(c, h) == Turn(c.(inbuf := c.inbuf[e + 2..]), true);
      TrailersMean(c.(inbuf := c.inbuf[e + 2..]), h);
    }
  }

  lemma {:induction false} ChunksMean(c: Conn, h: Handler)
    requires !Blocked(c) && c.parse.AtChunkSize?
    ensures Means(c, Settle(c, h), h, c.parse.head, Chunks(c.inbuf, c.parse.body),
                  c.longLine || LongInChunks(c.inbuf, c.parse.body))
    decreases |c.inbuf|, 1
  {
    var e := IndexOf(c.inbuf, CRLF, 0);
    if e < 0 {
      assert !SizeTurn(c).again;
    } else {
      var r := ChunkSize(c.inbuf[..e]);
      var t := SizeRead(c.(inbuf := c.inbuf[e + 2..]), e, r);
      assert SizeTurn(c) == t;
      if r.Size? {
        if r.size == 0 {
          TrailersMean(t.conn, h);
        } else {
          ChunkDataMeans(t.conn, h);
        }
      }
    }
  }

  /** The chunk's data, all there or not. */
  lemma DataTurn(c: Conn, h: Handler)
    requires !Blocked(c) && c.parse.InChunk?
    ensures var n, body := c.parse.remaining, c.parse.body;
      Settle(c, h) == if |body| + Min(n, |c.inbuf|) > MAX_BODY then RejectWith(c, 413)
        else if |c.inbuf| < n then ChunkTurn(c).conn
        else Settle(c.(inbuf := c.inbuf[n..], parse := AtChunkCrlf(c.parse.head, body + c.inbuf[..n])), h)
  {
    assert TurnOf(c, h) == ChunkTurn(c);
  }

  lemma CrlfSettles(c: Conn, h: Handler)
    requires !Blocked(c) && c.parse.AtChunkCrlf?
    ensures Settle(c, h) == if |c.inbuf| < 2 then c
      else if c.inbuf[..2] != CRLF then RejectWith(c, 400)
      else Settle(c.(inbuf := c.inbuf[2..], parse := AtChunkSize(c.parse.head, c.parse.body)), h)
  {
    assert TurnOf(c, h) == CrlfTurn(c);
    assert |c.inbuf| >= 2 ==> c.inbuf[..2] == [c.inbuf[0], c.inbuf[1]];
  }

  lemma {:induction false} ChunkDataMeans(c: Conn, h: Handler)
    requires !Blocked(c) && c.parse.InChunk? && c.parse.remaining > 0
    ensures Means(c, Settle(c, h), h, c.parse.head, ChunkData(c.inbuf, c.parse.body, c.parse.remaining),
                  c.longLine || LongBehind(c.inbuf, c.parse.body, Size(c.parse.remaining)))
    decreases |c.inbuf|, 0, 1
  {
    var n, s := c.parse.remaining, c.inbuf;
    DataTurn(c, h);
    if |c.parse.body| + Min(n, |s|) <= MAX_BODY && |s| >= n { WholeDataMeans(c, h); }
  }

  lemma {:induction false} WholeDataMeans(c: Conn, h: Handler)
    requires !Blocked(c) && c.parse.InChunk? && c.parse.remaining > 0
    requires |c.inbuf| >= c.parse.remaining && |c.parse.body| + c.parse.remaining <= MAX_BODY
    ensures var n := c.parse.remaining;
      var d := c.(inbuf := c.inbuf[n..], parse := AtChunkCrlf(c.parse.head, c.parse.body + c.inbuf[..n]));
      Means(c, Settle(d, h), h, c.parse.head, ChunkData(c.inbuf, c.parse.body, n),
            c.longLine || LongBehind(c.inbuf, c.parse.body, Size(n)))
    decreases |c.inbuf|, 0, 0
  {
    var n, s := c.parse.remaining, c.inbuf;
    var d := c.(inbuf := s[n..], parse := AtChunkCrlf(c.parse.head, c.parse.body + s[..n]));
    CrlfSettles(d, h);
    if |s| >= n + 2 {
      assert d.inbuf[..2] == s[n..n + 2] && d.inbuf[2..] == s[n + 2..];
      if s[n..n + 2] == CRLF {
        ChunksMean(c.(inbuf := s[n + 2..], parse := AtChunkSize(c.parse.head, c.parse.body + s[..n])), h);
      }
    }
  }

  lemma {:induction false} DecimalBounded(text: string, acc: nat)
    requires acc <= MAX_BODY
    ensures DecimalFrom(text, acc).Some? ==> DecimalFrom(text, acc).value <= MAX_BODY
  {
    if text != "" && IsDigit(text[0]) && acc * 10 + DigitValue(text[0]) <= MAX_BODY {
      DecimalBounded(text[1..], acc * 10 + DigitValue(text[0]));
    }
  }

  lemma LengthBounded(head: string)
    ensures ParseHead(head).Good? ==> ParseHead(head).head.length <= MAX_BODY
  {
    if ParseHead(head).Good? && ParseHead(head).head.length > 0 {
      var line := ParseRequestLine(FirstLine(head)).value;
      var f := AddLines(Lines(AfterFirstLine(head)), StartFields(line)).value;
      DecimalBounded(f.length.value, 0);
    }
  }

  function BodyStart(c: Conn, h: Handler, head: Head): Conn
    requires c.Conn?
  {
    if head.chunked then c.(parse := AtChunkSize(head, ""))
    else if head.length > 0 then c.(parse := InBody(head, "", head.length))
    else Dispatched(c, h, head, "")
  }

  lemma FixedMeans(c: Conn, h: Handler, head: Head)
    requires !Blocked(c) && c.parse == InBody(head, "", head.length) && 0 < head.length <= MAX_BODY
    ensures Means(c, Settle(c, h), h, head,
                  if |c.inbuf| < head.length then Short
                  else Decoded(c.inbuf[..head.length], c.inbuf[head.length..]), c.longLine)
  {
    var t := Take("", c.inbuf, head.length);
    assert t.left == 0 ==> t.body == c.inbuf[..head.length];
  }

  lemma BodyMeans(c: Conn, h: Handler, head: Head)
    requires !Blocked(c) && head.length <= MAX_BODY
    ensures Means(c, Settle(BodyStart(c, h, head), h), h, head, BodyOf(head, c.inbuf),
                  c.longLine || (head.chunked && LongInChunks(c.inbuf, "")))
  {
    var d := BodyStart(c, h, head);
    if head.chunked {
      ChunksMean(d, h);
    } else if head.length > 0 {
      FixedMeans(d, h, head);
    }
  }

  /** One request answered: the connection after the reply, and its history. */
  lemma DispatchSettles(c: Conn, h: Handler, head: Head, body: string)
    requires !Blocked(c)
    ensures var request := RequestOf(head, body, c.first);
      var reply := h(c.trace, request);
      Settle(Dispatched(c, h, head, body), h)
      == Settle(c.(parse := AtHead, first := false, closing := !reply.keepAlive,
                   trace := c.trace + Exchange(request, reply)), h)
  {
    var request := RequestOf(head, body, c.first);
    var reply := h(c.trace, request);
    assert c.trace + [Dispatch(request)] + Wrotes(reply.pieces) + [Done(reply.keepAlive)]
        == c.trace + Exchange(request, reply);
  }

  lemma {:induction false} AfterHeadIsReference(c: Conn, h: Handler, head: Head)
    requires !Blocked(c) && head.length <= MAX_BODY
    ensures Settle(BodyStart(c, h, head), h).trace == AfterHead(c.inbuf, h, head, c.first, c.trace)
    ensures Settle(BodyStart(c, h, head), h).longLine
         == (c.longLine || LongAfterHead(c.inbuf, h, head, c.first, c.trace))
    decreases |c.inbuf|, 1
  {
    BodyMeans(c, h, head);
    var l := c.longLine || (head.chunked && LongInChunks(c.inbuf, ""));
    var r := BodyOf(head, c.inbuf);
    if r.Decoded? {
      BodyShrinks(head, c.inbuf);
      var request := RequestOf(head, r.body, c.first);
      var reply := h(c.trace, request);
      var g := c.(inbuf := r.rest, longLine := l);
      DispatchSettles(g, h, head, r.body);
      var after := g.(parse := AtHead, first := false, closing := !reply.keepAlive,
                      trace := c.trace + Exchange(request, reply));
      if reply.keepAlive {
        SettleIsReference(after, h);
      }
    }
  }

  lemma {:induction false} GoodHeadIsReference(c: Conn, h: Handler, head: Head)
    requires !Blocked(c) && head.length <= MAX_BODY
    ensures Settle(HeadRead(c, h, Good(head)).conn, h).trace
         == AfterHead(c.inbuf, h, head, c.first, c.trace + if head.expectContinue then [Continue] else [])
    ensures Settle(HeadRead(c, h, Good(head)).conn, h).longLine
         == (c.longLine
             || LongAfterHead(c.inbuf, h, head, c.first, c.trace + if head.expectContinue then [Continue] else []))
    decreases |c.inbuf|, 2
  {
    var d := c.(trace := c.trace + if head.expectContinue then [Continue] else []);
    assert HeadRead(c, h, Good(head)) == Turn(BodyStart(d, h, head), true);
    AfterHeadIsReference(d, h, head);
  }

  /** The head state, without a head to read or with one. */
  lemma HeadSettles(c: Conn, h: Handler)
    requires !Blocked(c) && c.parse.AtHead?
    ensures var e := IndexOf(c.inbuf, HEAD_END, 0);
      if e < 0 then Settle(c, h) == (if |c.inbuf| > MAX_HEAD then RejectWith(c, 431) else c)
      else if e + 4 > MAX_HEAD then Settle(c, h) == RejectWith(c, 431)
      else HeadTurn(c, h) == HeadRead(c.(inbuf := c.inbuf[e + 4..]), h, ParseHead(c.inbuf[..e]))
           && Settle(c, h) == if HeadTurn(c, h).again then Settle(HeadTurn(c, h).conn, h) else HeadTurn(c, h).conn
  {
    assert TurnOf(c, h) == HeadTurn(c, h);
  }

  /** The incremental machine is the reference reading. */
  lemma {:induction false} SettleIsReference(c: Conn, h: Handler)
    requires !Blocked(c) && c.parse.AtHead?
    ensures Settle(c, h).trace == Reference(c.inbuf, h, c.first, c.trace)
    ensures Settle(c, h).longLine == (c.longLine || LongInStream(c.inbuf, h, c.first, c.trace))
    decreases |c.inbuf|, 0, 1
  {
    var e := IndexOf(c.inbuf, HEAD_END, 0);
    HeadSettles(c, h);
    if 0 <= e && e + 4 <= MAX_HEAD { HeadMeans(c, h, e, ParseHead(c.inbuf[..e])); }
  }

  lemma {:induction false} HeadMeans(c: Conn, h: Handler, e: nat, r: HeadResult)
    requires !Blocked(c) && e + 4 <= |c.inbuf| && r == ParseHead(c.inbuf[..e])
    ensures var t := HeadRead(c.(inbuf := c.inbuf[e + 4..]), h, r);
      var d := if t.again then Settle(t.conn, h) else t.conn;
      match r
      case Bad(status) => d.trace == c.trace + [Reject(status)] && d.longLine == c.longLine
      case Good(head) =>
        var trace := c.trace + if head.expectContinue then [Continue] else [];
        && d.trace == AfterHead(c.inbuf[e + 4..], h, head, c.first, trace)
        && d.longLine == (c.longLine || LongAfterHead(c.inbuf[e + 4..], h, head, c.first, trace))
    decreases |c.inbuf|, 0, 0
  {
    if r.Good? {
      LengthBounded(c.inbuf[..e]);
      GoodHeadIsReference(c.(inbuf := c.inbuf[e + 4..]), h, r.head);
    }
  }

  /** The history flag tells what the bytes show: whether a chunk-size line that is read
      is too long. */
  lemma ShortLinesExactly(stream: string, h: Handler)
    ensures ShortSizeLines(stream, h) <==> !LongInStream(stream, h, true, [])
    ensures OnePass(stream, h).trace == Reference(stream, h, true, [])
  {
    var start := Append(INITIAL, stream);
    assert start.inbuf == stream;
    SettleIsReference(start, h);
  }

  /** Every run, with reads cut and completions delayed in any way, is on its way
      to the reference reading of the bytes it has received. */
  lemma RunFollowsReference(h: Handler, steps: seq<Step>)
    requires !LongInStream(Received(steps), h, true, [])
    ensures var c := Run(INITIAL, h, steps);
      var whole := Reference(Received(steps), h, true, []);
      c.trace <= whole && Settle(c, h).trace == whole
  {
    ShortLinesExactly(Received(steps), h);
    SplitIndependence(h, steps);
  }

  /** However a stream is cut into reads, with handlers that answer at once, its history
      is the reference reading. */
  lemma CutsFollowReference(h: Handler, cuts: seq<string>)
    requires !LongInStream(Concat(cuts), h, true, [])
    ensures FeedAll(INITIAL, h, cuts).trace == Reference(Concat(cuts), h, true, [])
  {
    ShortLinesExactly(Concat(cuts), h);
    CutIndependence(h, cuts);
  }
}

/** Pipelining: whatever is read and whenever handlers answer, requests are
    answered one at a time and in order. */
module HttpPipelining {
  import opened Bytes
  import opened Wrappers
  import opened HttpHead
  import opened HttpMachine
  import opened HttpSplit

  /** A request with the whole of its answer; `interim` says a 100 Continue preceded it. */
  datatype Answer = Answer(interim: bool, request: Request, pieces: seq<string>, keepAlive: bool)

  /** What may stand after the complete answers. */
  datatype Tail =
    | Quiet
    | Asked                                                        // 100 Continue sent, body awaited
    | Open(interim: bool, request: Request, pieces: seq<string>)   // dispatched, not complete
    | Refused(interim: bool, status: int)

  datatype Transcript = Transcript(answers: seq<Answer>, tail: Tail)

  function Interim(interim: bool): seq<Event> { if interim then [Continue] else [] }

  function RenderAnswer(a: Answer): seq<Event> {
    Interim(a.interim) + [Dispatch(a.request)] + Wrotes(a.pieces) + [Done(a.keepAlive)]
  }

  function RenderAnswers(answers: seq<Answer>): seq<Event> {
    if answers == [] then [] else RenderAnswers(answers[..|answers| - 1]) + RenderAnswer(answers[|answers| - 1])
  }

  function RenderTail(t: Tail): seq<Event> {
    match t
    case Quiet => []
    case Asked => [Continue]
    case Open(interim, request, pieces) => Interim(interim) + [Dispatch(request)] + Wrotes(pieces)
    case Refused(interim, status) => Interim(interim) + [Reject(status)]
  }

  function Render(t: Transcript): seq<Event> { RenderAnswers(t.answers) + RenderTail(t.tail) }

  /** Only the last answer may close the connection, and nothing follows it. */
  predicate Proper(t: Transcript) {
    && (forall i :: 0 <= i < |t.answers| - 1 ==> t.answers[i].keepAlive)
    && (t.answers != [] && !t.answers[|t.answers| - 1].keepAlive ==> t.tail == Quiet)
  }

  predicate Closed(t: Transcript) { t.answers != [] && !t.answers[|t.answers| - 1].keepAlive }

  /** The transcript `t` is the history of `c`, and agrees with its flags: a request
      is dispatched and incomplete exactly when the connection is busy. */
  ghost predicate Tells(c: Conn, t: Transcript) {
    && Proper(t) && Render(t) == c.trace
    && (c.Rejected? <==> t.tail.Refused?)
    && (c.Conn? ==>
      && (c.pending.Some? <==> t.tail.Open?)
      && (c.pending.Some? ==> c.parse.AtHead?)
      && (c.closing <==> Closed(t))
      && (c.parse.AtHead? && c.pending.None? ==> t.tail == Quiet)
      && (!c.parse.AtHead? ==> t.tail == if PendingHead(c.parse).expectContinue then Asked else Quiet)
      && (c.closing ==> c.parse.AtHead?))
  }

  function PendingHead(p: Parse): Head
    requires !p.AtHead?
  {
    p.head
  }

  lemma RenderRefused(t: Transcript, status: int)
    requires Proper(t) && !Closed(t) && (t.tail == Quiet || t.tail == Asked)
    ensures var u := Transcript(t.answers, Refused(t.tail == Asked, status));
      Proper(u) && Render(u) == Render(t) + [Reject(status)]
  {
  }

  lemma RenderDispatch(t: Transcript, request: Request)
    requires Proper(t) && !Closed(t) && (t.tail == Quiet || t.tail == Asked)
    ensures var u := Transcript(t.answers, Open(t.tail == Asked, request, []));
      Proper(u) && Render(u) == Render(t) + [Dispatch(request)]
  {
    assert Wrotes([]) == [];
  }

  lemma RenderAsked(t: Transcript)
    requires Proper(t) && !Closed(t) && t.tail == Quiet
    ensures Proper(t.(tail := Asked)) && Render(t.(tail := Asked)) == Render(t) + [Continue]
  {
  }

  lemma RenderWrote(t: Transcript, piece: string)
    requires Proper(t) && t.tail.Open?
    ensures var u := t.(tail := t.tail.(pieces := t.tail.pieces + [piece]));
      Proper(u) && Render(u) == Render(t) + [Wrote(piece)]
  {
    assert Wrotes(t.tail.pieces + [piece]) == Wrotes(t.tail.pieces) + [Wrote(piece)];
  }

  lemma RenderDone(t: Transcript, keepAlive: bool)
    requires Proper(t) && t.tail.Open?
    ensures var u := Transcript(t.answers + [Answer(t.tail.interim, t.tail.request, t.tail.pieces, keepAlive)], Quiet);
      Proper(u) && Render(u) == Render(t) + [Done(keepAlive)]
  {
    var a := Answer(t.tail.interim, t.tail.request, t.tail.pieces, keepAlive);
    assert (t.answers + [a])[..|t.answers|] == t.answers;
  }

  lemma RejectTells(c: Conn, status: int, t: Transcript) returns (u: Transcript)
    requires !Blocked(c) && Tells(c, t)
    ensures Tells(RejectWith(c, status), u)
  {
    u := Transcript(t.answers, Refused(t.tail == Asked, status));
    RenderRefused(t, status);
  }

  lemma DispatchTells(c: Conn, h: Handler, head: Head, body: string, t: Transcript) returns (u: Transcript)
    requires !Blocked(c) && Tells(c, t)
    ensures Tells(Dispatched(c, h, head, body), u)
  {
    var r := Request(head.verb, head.target, head.version, head.rawHead, body, head.keepAlive, c.first);
    u := Transcript(t.answers, Open(t.tail == Asked, r, []));
    RenderDispatch(t, r);
  }

  lemma HeadReadTells(c: Conn, h: Handler, r: HeadResult, t: Transcript) returns (u: Transcript)
    requires !Blocked(c) && c.parse.AtHead? && Tells(c, t)
    ensures Tells(HeadRead(c, h, r).conn, u)
  {
    match r
    case Bad(status) => u := RejectTells(c, status, t);
    case Good(head) =>
      RenderAsked(t);
      u := if head.expectContinue then t.(tail := Asked) else t;
      var d := c.(trace := c.trace + if head.expectContinue then [Continue] else []);
      assert Render(u) == d.trace;
      if !head.chunked && head.length == 0 {
        var r := Request(head.verb, head.target, head.version, head.rawHead, "", head.keepAlive, c.first);
        RenderDispatch(u, r);
        u := Transcript(u.answers, Open(u.tail == Asked, r, []));
      }
  }

  lemma BodyTurnTells(c: Conn, h: Handler, t: Transcript) returns (u: Transcript)
    requires !Blocked(c) && c.parse.InBody? && Tells(c, t)
    ensures Tells(BodyTurn(c, h).conn, u)
  {
    var k := Take(c.parse.body, c.inbuf, c.parse.remaining);
    if |k.body| > MAX_BODY {
      u := RejectTells(c, 413, t);
    } else if k.left == 0 {
      u := DispatchTells(c.(inbuf := k.rest), h, c.parse.head, k.body, t);
    } else {
      u := t;
    }
  }

  lemma TrailerTurnTells(c: Conn, h: Handler, t: Transcript) returns (u: Transcript)
    requires !Blocked(c) && c.parse.InTrailers? && Tells(c, t)
    ensures Tells(TrailerTurn(c, h).conn, u)
  {
    u := t;
    if IndexOf(c.inbuf, CRLF, 0) == 0 {
      u := DispatchTells(c.(inbuf := c.inbuf[2..]), h, c.parse.head, c.parse.body, t);
    }
  }

  /** The chunk states write nothing unless they refuse the request. */
  lemma ChunkTurnTells(c: Conn, h: Handler, t: Transcript) returns (u: Transcript)
    requires !Blocked(c) && (c.parse.AtChunkSize? || c.parse.InChunk? || c.parse.AtChunkCrlf?) && Tells(c, t)
    ensures Tells(TurnOf(c, h).conn, u)
  {
    var d := TurnOf(c, h).conn;
    if d.Rejected? {
      u := RejectTells(c, d.trace[|c.trace|].status, t);
    } else {
      u := t;
    }
  }

  lemma TurnTells(c: Conn, h: Handler, t: Transcript) returns (u: Transcript)
    requires !Blocked(c) && Tells(c, t)
    ensures Tells(TurnOf(c, h).conn, u)
  {
    match c.parse
    case AtHead => u := HeadTurnTells(c, h, t);
    case InBody(_, _, _) => u := BodyTurnTells(c, h, t);
    case InTrailers(_, _) => u := TrailerTurnTells(c, h, t);
    case AtChunkSize(_, _) => u := ChunkTurnTells(c, h, t);
    case InChunk(_, _, _) => u := ChunkTurnTells(c, h, t);
    case AtChunkCrlf(_, _) => u := ChunkTurnTells(c, h, t);
  }

  lemma HeadTurnTells(c: Conn, h: Handler, t: Transcript) returns (u: Transcript)
    requires !Blocked(c) && c.parse.AtHead? && Tells(c, t)
    ensures Tells(HeadTurn(c, h).conn, u)
  {
    var e := IndexOf(c.inbuf, HEAD_END, 0);
    if 0 <= e && e + 4 <= MAX_HEAD {
      u := HeadReadTells(c.(inbuf := c.inbuf[e + 4..]), h, ParseHead(c.inbuf[..e]), t);
    } else if HeadTurn(c, h).conn.Rejected? {
      u := RejectTells(c, 431, t);
    } else {
      u := t;
    }
  }

  lemma {:induction false} ProcessTells(c: Conn, h: Handler, t: Transcript) returns (u: Transcript)
    requires Tells(c, t)
    ensures Tells(Process(c, h), u)
    decreases Buffered(c), Rank(c)
  {
    u := t;
    if !Blocked(c) {
      u := TurnTells(c, h, t);
      if TurnOf(c, h).again {
        u := ProcessTells(TurnOf(c, h).conn, h, u);
      }
    }
  }

  lemma AdvanceTells(c: Conn, h: Handler, s: Step, t: Transcript) returns (u: Transcript)
    requires Tells(c, t)
    ensures Tells(Advance(c, h, s), u)
  {
    u := t;
    match s
    case Read(bytes) => u := ProcessTells(Append(c, bytes), h, t);
    case Write =>
      if c.Conn? && c.pending.Some? && c.pending.value.pieces != [] {
        var piece := c.pending.value.pieces[0];
        RenderWrote(t, piece);
        u := t.(tail := t.tail.(pieces := t.tail.pieces + [piece]));
      }
    case Finish =>
      if c.Conn? && c.pending.Some? && c.pending.value.pieces == [] {
        var keepAlive := c.pending.value.keepAlive;
        RenderDone(t, keepAlive);
        u := Transcript(t.answers + [Answer(t.tail.interim, t.tail.request, t.tail.pieces, keepAlive)], Quiet);
        assert Wrotes([]) == [];
        u := ProcessTells(Complete(c), h, u);
      }
  }

  lemma {:induction false} RunTells(c: Conn, h: Handler, steps: seq<Step>, t: Transcript) returns (u: Transcript)
    requires Tells(c, t)
    ensures Tells(Run(c, h, steps), u)
    decreases |steps|
  {
    u := t;
    if steps != [] {
      u := AdvanceTells(c, h, steps[0], t);
      u := RunTells(Advance(c, h, steps[0]), h, steps[1..], u);
    }
  }

  // ---- the bytes on the wire ------------------------------------------------

  /** The fixed texts of the connection: the interim response and the parser-level
      error responses. */
  datatype Texts = Texts(interim: string, badRequest: string, tooLarge: string, headTooLarge: string,
                         notImplemented: string)
  {
    function Refusal(status: int): string {
      if status == 400 then badRequest
      else if status == 413 then tooLarge
      else if status == 431 then headTooLarge
      else notImplemented
    }
  }

  /** The bytes an event queues for the peer. */
  function BytesOf(e: Event, texts: Texts): string {
    match e
    case Continue => texts.interim
    case Wrote(bytes) => bytes
    case Reject(status) => texts.Refusal(status)
    case Dispatch(_) => ""
    case Done(_) => ""
  }

  function Output(trace: seq<Event>, texts: Texts): string {
    if trace == [] then ""
    else BytesOf(trace[0], texts) + Output(trace[1..], texts)
  }

  function AnswerBytes(a: Answer, texts: Texts): string { (if a.interim then texts.interim else "") + Concat(a.pieces) }

  function AnswersBytes(answers: seq<Answer>, texts: Texts): string {
    if answers == [] then ""
    else AnswersBytes(answers[..|answers| - 1], texts) + AnswerBytes(answers[|answers| - 1], texts)
  }

  function TailBytes(t: Tail, texts: Texts): string {
    match t
    case Quiet => ""
    case Asked => texts.interim
    case Open(interim, _, pieces) => (if interim then texts.interim else "") + Concat(pieces)
    case Refused(interim, status) => (if interim then texts.interim else "") + texts.Refusal(status)
  }

  lemma {:induction false} OutputAppend(a: seq<Event>, b: seq<Event>, texts: Texts)
    ensures Output(a + b, texts) == Output(a, texts) + Output(b, texts)
  {
    if a == [] {
      assert a + b == b;
    } else {
      assert (a + b)[1..] == a[1..] + b;
      OutputAppend(a[1..], b, texts);
    }
  }

  lemma OutputOne(e: Event, texts: Texts)
    ensures Output([e], texts) == BytesOf(e, texts)
  {
  }

  lemma {:induction false} OutputWrotes(pieces: seq<string>, texts: Texts)
    ensures Output(Wrotes(pieces), texts) == Concat(pieces)
  {
    if pieces == [] {
      assert Wrotes(pieces) == [];
    } else {
      assert Wrotes(pieces) == [Wrote(pieces[0])] + Wrotes(pieces[1..]);
      OutputAppend([Wrote(pieces[0])], Wrotes(pieces[1..]), texts);
      OutputOne(Wrote(pieces[0]), texts);
      OutputWrotes(pieces[1..], texts);
    }
  }

  lemma OutputInterim(interim: bool, texts: Texts)
    ensures Output(Interim(interim), texts) == if interim then texts.interim else ""
  {
    OutputOne(Continue, texts);
  }

  lemma OutputOpen(interim: bool, request: Request, pieces: seq<string>, texts: Texts)
    ensures Output(Interim(interim) + [Dispatch(request)] + Wrotes(pieces), texts)
         == (if interim then texts.interim else "") + Concat(pieces)
  {
    OutputAppend(Interim(interim) + [Dispatch(request)], Wrotes(pieces), texts);
    OutputAppend(Interim(interim), [Dispatch(request)], texts);
    OutputOne(Dispatch(request), texts);
    OutputInterim(interim, texts);
    OutputWrotes(pieces, texts);
  }

  lemma {:induction false} OutputAnswers(answers: seq<Answer>, texts: Texts)
    ensures Output(RenderAnswers(answers), texts) == AnswersBytes(answers, texts)
  {
    if answers != [] {
      var a := answers[|answers| - 1];
      OutputAnswers(answers[..|answers| - 1], texts);
      OutputAppend(RenderAnswers(answers[..|answers| - 1]), RenderAnswer(a), texts);
      OutputAppend(Interim(a.interim) + [Dispatch(a.request)] + Wrotes(a.pieces), [Done(a.keepAlive)], texts);
      OutputOpen(a.interim, a.request, a.pieces, texts);
      OutputOne(Done(a.keepAlive), texts);
    }
  }

  lemma OutputTail(t: Tail, texts: Texts)
    ensures Output(RenderTail(t), texts) == TailBytes(t, texts)
  {
    match t
    case Quiet =>
    case Asked => OutputOne(Continue, texts);
    case Open(interim, request, pieces) => OutputOpen(interim, request, pieces, texts);
    case Refused(interim, status) =>
      OutputAppend(Interim(interim), [Reject(status)], texts);
      OutputInterim(interim, texts);
      OutputOne(Reject(status), texts);
  }

  /** Over every run the history is a list of whole answers in the order of their
      requests, with at most one request dispatched and incomplete after them, and
      the output is those answers, each preceded only by its own 100 Continue. */
  lemma PipeliningOrder(h: Handler, steps: seq<Step>, texts: Texts) returns (t: Transcript)
    ensures var c := Run(INITIAL, h, steps);
      && Tells(c, t)
      && (c.Conn? && c.pending.Some? <==> t.tail.Open?)
      && Output(c.trace, texts) == AnswersBytes(t.answers, texts) + TailBytes(t.tail, texts)
  {
    var start := Transcript([], Quiet);
    assert Tells(INITIAL, start);
    t := RunTells(INITIAL, h, steps, start);
    OutputAppend(RenderAnswers(t.answers), RenderTail(t.tail), texts);
    OutputAnswers(t.answers, texts);
    OutputTail(t.tail, texts);
  }
}

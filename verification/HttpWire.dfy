/** What a pipelining client hears: every answer on the connection is the whole of its own
    handler's reply, and reading responses one after another gives them back in the order
    of the requests. */
module HttpWire {
  import opened Sequences
  import opened Bytes
  import opened Wrappers
  import opened HttpHead
  import opened HttpMachine
  import opened HttpSplit
  import opened HttpPipelining
  import F = HttpFraming
  import Calls = HttpCalls

  // ---- each answer is its handler's reply ------------------------------------------------------

  /** What the running handler has still to write, worked out from the history alone. `Astray`
      when an event is not what the handler's reply to that request called for. */
  datatype Owes = Nothing | Owing(reply: Reply) | Astray

  function After(o: Owes, past: seq<Event>, e: Event, h: Handler): Owes {
    match e
    case Dispatch(r) => if o == Nothing then Owing(h(past, r)) else Astray
    case Wrote(bytes) =>
      if o.Owing? && o.reply.pieces != [] && o.reply.pieces[0] == bytes
      then Owing(o.reply.(pieces := o.reply.pieces[1..])) else Astray
    case Done(keepAlive) => if o == Owing(Reply([], keepAlive)) then Nothing else Astray
    case _ => if o == Nothing then Nothing else Astray
  }

  function Owed(trace: seq<Event>, h: Handler): Owes {
    if trace == [] then Nothing
    else
      var past := trace[..|trace| - 1];
      After(Owed(past, h), past, trace[|trace| - 1], h)
  }

  lemma OwedSnoc(trace: seq<Event>, e: Event, h: Handler)
    ensures Owed(trace + [e], h) == After(Owed(trace, h), trace, e, h)
  {
    assert (trace + [e])[..|trace|] == trace;
  }

  /** What the connection still owes is what the history says it owes. */
  predicate Keeps(c: Conn, h: Handler) {
    Owed(c.trace, h) == if c.Conn? && c.pending.Some? then Owing(c.pending.value) else Nothing
  }

  lemma DispatchedKeeps(c: Conn, h: Handler, head: Head, body: string)
    requires !Blocked(c) && Keeps(c, h)
    ensures Keeps(Dispatched(c, h, head, body), h)
  {
    OwedSnoc(c.trace, Dispatched(c, h, head, body).trace[|c.trace|], h);
  }

  lemma HeadReadKeeps(c: Conn, h: Handler, r: HeadResult)
    requires !Blocked(c) && Keeps(c, h)
    ensures Keeps(HeadRead(c, h, r).conn, h)
  {
    match r
    case Bad(status) => OwedSnoc(c.trace, Reject(status), h);
    case Good(head) =>
      OwedSnoc(c.trace, Continue, h);
      var d := c.(trace := c.trace + if head.expectContinue then [Continue] else []);
      assert c.trace + [] == c.trace;
      if !head.chunked && head.length == 0 { DispatchedKeeps(d, h, head, ""); }
  }

  lemma HeadTurnKeeps(c: Conn, h: Handler)
    requires !Blocked(c) && c.parse.AtHead? && Keeps(c, h)
    ensures Keeps(HeadTurn(c, h).conn, h)
  {
    var rest, result := HeadTurnCases(c, h);
    CaseKeeps(c, h, HeadTurn(c, h).conn, rest, result);
  }

  predicate OneOf(c: Conn, h: Handler, d: Conn, rest: string, result: HeadResult)
    requires c.Conn?
  {
    d == c || d == RejectWith(c, 431) || d == HeadRead(c.(inbuf := rest), h, result).conn
  }

  lemma HeadTurnCases(c: Conn, h: Handler) returns (rest: string, result: HeadResult)
    requires c.Conn?
    ensures OneOf(c, h, HeadTurn(c, h).conn, rest, result)
  {
    var e := IndexOf(c.inbuf, HEAD_END, 0);
    rest, result := "", Bad(400);
    if 0 <= e && e + 4 <= MAX_HEAD { rest, result := c.inbuf[e + 4..], ParseHead(c.inbuf[..e]); }
  }

  lemma CaseKeeps(c: Conn, h: Handler, d: Conn, rest: string, result: HeadResult)
    requires !Blocked(c) && Keeps(c, h) && OneOf(c, h, d, rest, result)
    ensures Keeps(d, h)
  {
    OwedSnoc(c.trace, Reject(431), h);
    HeadReadKeeps(c.(inbuf := rest), h, result);
  }

  lemma BodyTurnKeeps(c: Conn, h: Handler)
    requires !Blocked(c) && c.parse.InBody? && Keeps(c, h)
    ensures Keeps(BodyTurn(c, h).conn, h)
  {
    var k := Take(c.parse.body, c.inbuf, c.parse.remaining);
    OwedSnoc(c.trace, Reject(413), h);
    DispatchedKeeps(c.(inbuf := k.rest), h, c.parse.head, k.body);
  }

  lemma TrailerTurnKeeps(c: Conn, h: Handler)
    requires !Blocked(c) && c.parse.InTrailers? && Keeps(c, h)
    ensures Keeps(TrailerTurn(c, h).conn, h)
  {
    if IndexOf(c.inbuf, CRLF, 0) == 0 {
      DispatchedKeeps(c.(inbuf := c.inbuf[2..]), h, c.parse.head, c.parse.body);
    }
  }

  lemma ChunkTurnKeeps(c: Conn, h: Handler)
    requires !Blocked(c) && (c.parse.AtChunkSize? || c.parse.InChunk? || c.parse.AtChunkCrlf?) && Keeps(c, h)
    ensures Keeps(TurnOf(c, h).conn, h)
  {
    var d := TurnOf(c, h).conn;
    ChunkTurnTrace(c, h);
    if d.Rejected? { OwedSnoc(c.trace, d.trace[|c.trace|], h); }
  }

  lemma ChunkTurnTrace(c: Conn, h: Handler)
    requires !Blocked(c) && (c.parse.AtChunkSize? || c.parse.InChunk? || c.parse.AtChunkCrlf?)
    ensures var d := TurnOf(c, h).conn;
      if d.Rejected? then |d.trace| == |c.trace| + 1 && d.trace == c.trace + [d.trace[|c.trace|]]
        && d.trace[|c.trace|].Reject?
      else d.trace == c.trace && d.pending == c.pending
  {
  }

  lemma TurnKeeps(c: Conn, h: Handler)
    requires !Blocked(c) && Keeps(c, h)
    ensures Keeps(TurnOf(c, h).conn, h)
  {
    match c.parse
    case AtHead => HeadTurnKeeps(c, h);
    case InBody(_, _, _) => BodyTurnKeeps(c, h);
    case InTrailers(_, _) => TrailerTurnKeeps(c, h);
    case _ => ChunkTurnKeeps(c, h);
  }

  lemma {:induction false} ProcessKeeps(c: Conn, h: Handler)
    requires Keeps(c, h)
    ensures Keeps(Process(c, h), h)
    decreases Buffered(c), Rank(c)
  {
    if !Blocked(c) {
      TurnKeeps(c, h);
      if TurnOf(c, h).again { ProcessKeeps(TurnOf(c, h).conn, h); }
    }
  }

  lemma AdvanceKeeps(c: Conn, h: Handler, s: Step)
    requires Keeps(c, h)
    ensures Keeps(Advance(c, h, s), h)
  {
    match s
    case Read(bytes) => ProcessKeeps(Append(c, bytes), h);
    case Write =>
      if c.Conn? && c.pending.Some? && c.pending.value.pieces != [] {
        OwedSnoc(c.trace, Wrote(c.pending.value.pieces[0]), h);
      }
    case Finish =>
      if c.Conn? && c.pending.Some? && c.pending.value.pieces == [] {
        OwedSnoc(c.trace, Done(c.pending.value.keepAlive), h);
        assert c.trace + Wrotes([]) == c.trace;
        ProcessKeeps(Complete(c), h);
      }
  }

  lemma {:induction false} RunKeeps(c: Conn, h: Handler, steps: seq<Step>)
    requires Keeps(c, h)
    ensures Keeps(Run(c, h, steps), h)
    decreases |steps|
  {
    if steps != [] {
      AdvanceKeeps(c, h, steps[0]);
      RunKeeps(Advance(c, h, steps[0]), h, steps[1..]);
    }
  }

  /** Once astray, astray for good. */
  lemma {:induction false} AstrayStays(a: seq<Event>, b: seq<Event>, h: Handler)
    requires Owed(a + b, h) != Astray
    ensures Owed(a, h) != Astray
    decreases |b|
  {
    if b == [] {
      assert a + b == a;
    } else {
      var shorter := b[..|b| - 1];
      assert a + b == (a + shorter) + [b[|b| - 1]];
      OwedSnoc(a + shorter, b[|b| - 1], h);
      AstrayStays(a, shorter, h);
    }
  }

  lemma {:induction false} OwedWrotes(q: seq<Event>, pieces: seq<string>, h: Handler)
    requires Owed(q, h).Owing? && Owed(q + Wrotes(pieces), h) != Astray
    ensures var reply := Owed(q, h).reply;
      pieces <= reply.pieces && Owed(q + Wrotes(pieces), h) == Owing(reply.(pieces := reply.pieces[|pieces|..]))
    decreases |pieces|
  {
    if pieces == [] {
      assert q + Wrotes([]) == q;
    } else {
      var shorter, last := pieces[..|pieces| - 1], pieces[|pieces| - 1];
      assert q + Wrotes(pieces) == (q + Wrotes(shorter)) + [Wrote(last)];
      OwedSnoc(q + Wrotes(shorter), Wrote(last), h);
      OwedWrotes(q, shorter, h);
    }
  }

  /** The answer is the reply that its handler gave after exactly that history. */
  predicate Own(a: Answer, past: seq<Event>, h: Handler) {
    h(past + Interim(a.interim), a.request) == Reply(a.pieces, a.keepAlive)
  }

  lemma OwnReply(past: seq<Event>, a: Answer, h: Handler)
    requires Owed(past, h) == Nothing && Owed(past + RenderAnswer(a), h) != Astray
    ensures Own(a, past, h) && Owed(past + RenderAnswer(a), h) == Nothing
  {
    var begun := (past + Interim(a.interim)) + [Dispatch(a.request)];
    OwedBegun(past, a, h);
    assert past + RenderAnswer(a) == (begun + Wrotes(a.pieces)) + [Done(a.keepAlive)];
    OwedDone(begun, a.pieces, a.keepAlive, h);
  }

  lemma OwedBegun(past: seq<Event>, a: Answer, h: Handler)
    requires Owed(past, h) == Nothing
    ensures var asked := past + Interim(a.interim);
      Owed(asked + [Dispatch(a.request)], h) == Owing(h(asked, a.request))
  {
    var asked := past + Interim(a.interim);
    if a.interim { OwedSnoc(past, Continue, h); } else { assert asked == past; }
    OwedSnoc(asked, Dispatch(a.request), h);
  }

  lemma OwedDone(begun: seq<Event>, pieces: seq<string>, keepAlive: bool, h: Handler)
    requires Owed(begun, h).Owing? && Owed((begun + Wrotes(pieces)) + [Done(keepAlive)], h) != Astray
    ensures Owed(begun, h).reply == Reply(pieces, keepAlive)
    ensures Owed((begun + Wrotes(pieces)) + [Done(keepAlive)], h) == Nothing
  {
    OwedSnoc(begun + Wrotes(pieces), Done(keepAlive), h);
    OwedWrotes(begun, pieces, h);
  }

  predicate OwnAt(answers: seq<Answer>, i: nat, h: Handler)
    requires i < |answers|
  {
    Own(answers[i], RenderAnswers(answers[..i]), h)
  }

  lemma OwnBefore(answers: seq<Answer>, n: nat, i: nat, h: Handler)
    requires i < n <= |answers|
    ensures OwnAt(answers[..n], i, h) == OwnAt(answers, i, h)
  {
    assert answers[..n][..i] == answers[..i];
  }

  lemma OwnAllBefore(answers: seq<Answer>, n: nat, h: Handler)
    requires n <= |answers| && forall i :: 0 <= i < n ==> OwnAt(answers[..n], i, h)
    ensures forall i :: 0 <= i < n ==> OwnAt(answers, i, h)
  {
    forall i | 0 <= i < n ensures OwnAt(answers, i, h) { OwnBefore(answers, n, i, h); }
  }

  lemma {:induction false} OwnReplies(answers: seq<Answer>, h: Handler)
    requires Owed(RenderAnswers(answers), h) != Astray
    ensures Owed(RenderAnswers(answers), h) == Nothing
    ensures forall i :: 0 <= i < |answers| ==> OwnAt(answers, i, h)
  {
    if answers != [] {
      var n := |answers| - 1;
      AstrayStays(RenderAnswers(answers[..n]), RenderAnswer(answers[n]), h);
      OwnReplies(answers[..n], h);
      OwnReply(RenderAnswers(answers[..n]), answers[n], h);
      OwnAllBefore(answers, n, h);
    }
  }

  /** Over every run each whole answer is, byte for byte, the reply its own handler gave to its
      own request after what came before it, and nothing else is between two answers. */
  lemma OwnAnswers(h: Handler, steps: seq<Step>, texts: Texts) returns (t: Transcript)
    ensures var c := Run(INITIAL, h, steps);
      && Tells(c, t) && Output(c.trace, texts) == AnswersBytes(t.answers, texts) + TailBytes(t.tail, texts)
    ensures forall i :: 0 <= i < |t.answers| ==> OwnAt(t.answers, i, h)
  {
    t := PipeliningOrder(h, steps, texts);
    RunKeeps(INITIAL, h, steps);
    AstrayStays(RenderAnswers(t.answers), RenderTail(t.tail), h);
    OwnReplies(t.answers, h);
  }

  // ---- the reader ------------------------------------------------------------------------------

  /** A final response, as heard. */
  datatype Heard = Heard(status: nat, body: string)

  predicate IsHead(r: Request) { r.verb == "HEAD" }

  predicate IsOld(r: Request) { r.version == "HTTP/1.0" }

  /** An interim response, with the final one still to come. Switching protocols is final. */
  predicate Passing(status: nat) { 100 <= status < 200 && status != 101 }

  /** The lines of a head are in front of what follows. */
  lemma {:induction false} LinesShrink(s: string)
    ensures F.ReadLines(s).HeadLines? ==> |F.ReadLines(s).rest| < |s|
    decreases |s|
  {
    var e := IndexOf(s, CRLF, 0);
    if e > 0 { LinesShrink(s[e + 2..]); }
  }

  lemma PassingShrinks(s: string, isHead: bool)
    ensures var r := F.ReadResponse(s, isHead); r.Bounded? && Passing(r.status) ==> |r.rest| < |s|
  {
    LinesShrink(s);
  }

  /** The next final response: any interim ones before it are passed over. */
  function ReadFinal(s: string, isHead: bool): F.Received
    decreases |s|
  {
    var r := F.ReadResponse(s, isHead);
    if r.Bounded? && Passing(r.status) then
      PassingShrinks(s, isHead);
      ReadFinal(r.rest, isHead)
    else r
  }

  /** The final responses to the requests from the `i`th on, of which the reader knows which
      are HEAD requests, one after another; and the bytes behind them. */
  function ReadAll(s: string, heads: seq<bool>, i: nat): (seq<Heard>, string)
    requires i <= |heads|
    decreases |heads| - i
  {
    if i == |heads| then ([], s)
    else match ReadFinal(s, heads[i])
      case Bounded(status, body, rest) =>
        var (more, end) := ReadAll(rest, heads, i + 1);
        ([Heard(status, body)] + more, end)
      case ToClose(status, body) => ([Heard(status, body)], "")
      case _ => ([], s)
  }

  function Heads(answers: seq<Answer>): seq<bool> {
    seq(|answers|, i requires 0 <= i < |answers| => IsHead(answers[i].request))
  }

  // ---- what is to be heard ---------------------------------------------------------------------

  /** The calls a handler makes on its response, as a function of what it is given. */
  type Script = (seq<Event>, Request) -> seq<Calls.Call>

  /** Every reply is the finished output of a response on which the script's calls were made,
      and none of them is an interim response. */
  ghost predicate Plays(h: Handler, script: Script) {
    forall past: seq<Event>, r: Request :: Played(h(past, r), r, script(past, r))
  }

  ghost predicate Played(reply: Reply, r: Request, calls: seq<Calls.Call>) {
    Replies(reply, r, calls) && !Passing(Calls.StatusSent(calls))
  }

  ghost predicate Replies(reply: Reply, r: Request, calls: seq<Calls.Call>) {
    Calls.Committed(calls) && Calls.Delivers(Concat(reply.pieces), reply.keepAlive, calls, IsHead(r), IsOld(r))
  }

  /** The response those calls meant. */
  function Meant(calls: seq<Calls.Call>, isHead: bool): Heard
    requires Calls.Committed(calls)
  {
    var status := Calls.StatusSent(calls);
    Heard(status, if isHead || F.BodilessStatus(status) then "" else Concat(Calls.Written(calls)))
  }

  function MeantBy(script: Script, past: seq<Event>, a: Answer): Heard
    requires Calls.Committed(script(past + Interim(a.interim), a.request))
  {
    Meant(script(past + Interim(a.interim), a.request), IsHead(a.request))
  }

  lemma InterimRead(texts: Texts, rest: string, isHead: bool)
    requires texts.interim == "HTTP/1.1 100 Continue\r\n\r\n"
    ensures F.ReadResponse(texts.interim + rest, isHead) == F.Bounded(100, "", rest)
  {
    InterimIs();
    BlockRead(texts.interim, rest, isHead);
  }

  lemma InterimIs()
    ensures F.Block(F.StatusLine(100, "Continue"), [] + F.FramingLines(F.NoBody)) == "HTTP/1.1 100 Continue\r\n\r\n"
  {
  }

  lemma BlockRead(text: string, rest: string, isHead: bool)
    requires text == F.Block(F.StatusLine(100, "Continue"), [] + F.FramingLines(F.NoBody))
    ensures F.ReadResponse(text + rest, isHead) == F.Bounded(100, "", rest)
  {
    F.ResponseBack(100, "Continue", [], F.NoBody, [], rest, isHead);
    assert F.BodyText(F.NoBody, [], true) + rest == rest;
  }

  /** The reader passes over the interim text of the connection. */
  ghost predicate ReadsInterim(texts: Texts) {
    forall rest, isHead :: ReadFinal(texts.interim + rest, isHead) == ReadFinal(rest, isHead)
  }

  lemma InterimReads(texts: Texts)
    requires texts.interim == "HTTP/1.1 100 Continue\r\n\r\n"
    ensures ReadsInterim(texts)
  {
    forall rest, isHead ensures ReadFinal(texts.interim + rest, isHead) == ReadFinal(rest, isHead) {
      InterimRead(texts, rest, isHead);
      FinalStep(texts.interim + rest, isHead, F.Bounded(100, "", rest));
    }
  }

  lemma FinalStep(s: string, isHead: bool, r: F.Received)
    requires F.ReadResponse(s, isHead) == r
    ensures ReadFinal(s, isHead) == if r.Bounded? && Passing(r.status) then ReadFinal(r.rest, isHead) else r
  {
  }

  /** A response behind its interim one. */
  lemma ReadBehind(texts: Texts, text: string, rest: string, isHead: bool)
    requires ReadsInterim(texts)
    ensures ReadFinal((texts.interim + text) + rest, isHead) == ReadFinal(text + rest, isHead)
  {
    assert ReadFinal(texts.interim + (text + rest), isHead) == ReadFinal(text + rest, isHead);
    assert (texts.interim + text) + rest == texts.interim + (text + rest);
  }

  predicate Hears(read: F.Received, heard: Heard, rest: string, keepAlive: bool) {
    || read == F.Bounded(heard.status, heard.body, rest)
    || (!keepAlive && rest == "" && read == F.ToClose(heard.status, heard.body))
  }

  lemma ReplyHeard(reply: Reply, r: Request, calls: seq<Calls.Call>, rest: string)
    requires Replies(reply, r, calls) && (reply.keepAlive || rest == "")
    ensures var read := ReadFinal(Concat(reply.pieces) + rest, IsHead(r));
      if Passing(Calls.StatusSent(calls)) then read == ReadFinal(rest, IsHead(r))
      else Hears(read, Meant(calls, IsHead(r)), rest, reply.keepAlive)
  {
    var text := Concat(reply.pieces) + rest;
    var read := Calls.ReadBack(calls, IsHead(r), IsOld(r), rest);
    assert F.ReadResponse(text, IsHead(r)) == read;
    FinalStep(text, IsHead(r), read);
    assert rest == "" ==> Concat(Calls.Written(calls)) + rest == Concat(Calls.Written(calls));
  }

  /** What was meant is heard, before whatever follows. */
  ghost predicate AlwaysHeard(reply: Reply, r: Request, calls: seq<Calls.Call>)
    requires Calls.Committed(calls)
  {
    forall rest :: reply.keepAlive || rest == "" ==>
      Hears(ReadFinal(Concat(reply.pieces) + rest, IsHead(r)), Meant(calls, IsHead(r)), rest, reply.keepAlive)
  }

  lemma NothingRead(isHead: bool)
    ensures ReadFinal("", isHead) == F.Unfinished
  {
    var e := IndexOf("", CRLF, 0);
    assert F.ReadLines("") == F.NoEnd;
  }

  /** A reply is heard as it was meant if and only if its status is not that of an interim
      response. If it is, the client passes over it and takes the next answer for this one. */
  lemma HeardExactly(reply: Reply, r: Request, calls: seq<Calls.Call>)
    requires Replies(reply, r, calls)
    ensures AlwaysHeard(reply, r, calls) <==> !Passing(Calls.StatusSent(calls))
    ensures Passing(Calls.StatusSent(calls)) && reply.keepAlive ==>
      forall rest :: ReadFinal(Concat(reply.pieces) + rest, IsHead(r)) == ReadFinal(rest, IsHead(r))
  {
    forall rest | reply.keepAlive || rest == ""
      ensures var read := ReadFinal(Concat(reply.pieces) + rest, IsHead(r));
        if Passing(Calls.StatusSent(calls)) then read == ReadFinal(rest, IsHead(r))
        else Hears(read, Meant(calls, IsHead(r)), rest, reply.keepAlive)
    {
      ReplyHeard(reply, r, calls, rest);
    }
    NothingRead(IsHead(r));
    ReplyHeard(reply, r, calls, "");
  }

  /** One answer and the bytes behind it. */
  lemma OneHeard(h: Handler, script: Script, past: seq<Event>, a: Answer, texts: Texts, rest: string)
    requires Plays(h, script) && Own(a, past, h) && ReadsInterim(texts)
    requires a.keepAlive || rest == ""
    ensures Calls.Committed(script(past + Interim(a.interim), a.request))
    ensures var read := ReadFinal(AnswerBytes(a, texts) + rest, IsHead(a.request));
      Hears(read, MeantBy(script, past, a), rest, a.keepAlive)
  {
    var before := past + Interim(a.interim);
    assert Played(h(before, a.request), a.request, script(before, a.request));
    ReplyHeard(Reply(a.pieces, a.keepAlive), a.request, script(before, a.request), rest);
    if a.interim {
      ReadBehind(texts, Concat(a.pieces), rest, IsHead(a.request));
    } else {
      assert AnswerBytes(a, texts) == Concat(a.pieces);
    }
  }

  // ---- everything, in order --------------------------------------------------------------------

  function BytesFrom(answers: seq<Answer>, i: nat, texts: Texts): string
    requires i <= |answers|
    decreases |answers| - i
  {
    if i == |answers| then "" else AnswerBytes(answers[i], texts) + BytesFrom(answers, i + 1, texts)
  }

  lemma {:induction false} AllBytes(answers: seq<Answer>, i: nat, texts: Texts)
    requires i <= |answers|
    ensures AnswersBytes(answers[..i], texts) + BytesFrom(answers, i, texts) == AnswersBytes(answers, texts)
    decreases |answers| - i
  {
    if i == |answers| {
      assert answers[..i] == answers;
    } else {
      assert answers[..i + 1][..i] == answers[..i];
      AllBytes(answers, i + 1, texts);
    }
  }

  /** The `i`th response heard is the one its handler's calls meant. */
  predicate HeardAt(heard: Heard, answers: seq<Answer>, i: nat, script: Script)
    requires i < |answers|
  {
    var past, a := RenderAnswers(answers[..i]), answers[i];
    Calls.Committed(script(past + Interim(a.interim), a.request)) && heard == MeantBy(script, past, a)
  }

  /** Only the last answer may end the connection, and then nothing follows it. */
  predicate Ending(answers: seq<Answer>, tail: string) {
    forall i :: 0 <= i < |answers| && !answers[i].keepAlive ==> i == |answers| - 1 && tail == ""
  }

  lemma ReadStep(s: string, heads: seq<bool>, i: nat, heard: Heard, keepAlive: bool, rest: string,
                 more: seq<Heard>, tail: string)
    requires i < |heads| && Hears(ReadFinal(s, heads[i]), heard, rest, keepAlive)
    requires ReadAll(rest, heads, i + 1) == (more, tail) && (!keepAlive ==> i + 1 == |heads|)
    ensures ReadAll(s, heads, i) == ([heard] + more, tail)
  {
    assert more == [] ==> [heard] + more == [heard];
  }

  lemma LastRest(answers: seq<Answer>, i: nat, texts: Texts, tail: string)
    requires i < |answers| && Ending(answers, tail)
    ensures !answers[i].keepAlive ==> i + 1 == |answers| && BytesFrom(answers, i + 1, texts) + tail == ""
  {
    if !answers[i].keepAlive { assert i == |answers| - 1 && BytesFrom(answers, i + 1, texts) == "" && "" + tail == ""; }
  }

  /** What was meant by all the answers. */
  lemma MeantByAll(h: Handler, script: Script, answers: seq<Answer>) returns (heard: seq<Heard>)
    requires Plays(h, script) && forall i :: 0 <= i < |answers| ==> OwnAt(answers, i, h)
    ensures |heard| == |answers| && forall i :: 0 <= i < |answers| ==> HeardAt(heard[i], answers, i, script)
  {
    heard := [];
    while |heard| < |answers|
      invariant |heard| <= |answers| && forall i :: 0 <= i < |heard| ==> HeardAt(heard[i], answers, i, script)
    {
      var next := MeantAt(h, script, answers, |heard|);
      heard := heard + [next];
    }
  }

  lemma MeantAt(h: Handler, script: Script, answers: seq<Answer>, i: nat) returns (heard: Heard)
    requires i < |answers| && Plays(h, script) && OwnAt(answers, i, h)
    ensures HeardAt(heard, answers, i, script)
  {
    var past, a := RenderAnswers(answers[..i]), answers[i];
    assert Played(h(past + Interim(a.interim), a.request), a.request, script(past + Interim(a.interim), a.request));
    heard := MeantBy(script, past, a);
  }

  function Suffix(heard: seq<Heard>, i: nat): seq<Heard>
    requires i <= |heard|
    decreases |heard| - i
  {
    if i == |heard| then [] else [heard[i]] + Suffix(heard, i + 1)
  }

  lemma {:induction false} SuffixIs(heard: seq<Heard>, i: nat)
    requires i <= |heard|
    ensures heard[..i] + Suffix(heard, i) == heard
    decreases |heard| - i
  {
    if i < |heard| {
      SuffixIs(heard, i + 1);
      assert heard[..i + 1] == heard[..i] + [heard[i]];
    }
  }

  lemma {:induction false} ReadFrom(h: Handler, script: Script, answers: seq<Answer>, heard: seq<Heard>, i: nat,
                                    texts: Texts, tail: string)
    requires Plays(h, script) && ReadsInterim(texts)
    requires i <= |answers| == |heard| && Ending(answers, tail)
    requires forall j :: 0 <= j < |answers| ==> OwnAt(answers, j, h) && HeardAt(heard[j], answers, j, script)
    ensures ReadAll(BytesFrom(answers, i, texts) + tail, Heads(answers), i) == (Suffix(heard, i), tail)
    decreases |answers| - i
  {
    if i == |answers| {
      assert "" + tail == tail;
    } else {
      assert OwnAt(answers, i, h) && HeardAt(heard[i], answers, i, script);
      ReadFrom(h, script, answers, heard, i + 1, texts, tail);
      ReadOneMore(h, script, answers, heard[i], Suffix(heard, i + 1), i, texts, tail);
    }
  }

  lemma ReadOneMore(h: Handler, script: Script, answers: seq<Answer>, heard: Heard, more: seq<Heard>, i: nat,
                    texts: Texts, tail: string)
    requires Plays(h, script) && ReadsInterim(texts)
    requires i < |answers| && Ending(answers, tail) && OwnAt(answers, i, h) && HeardAt(heard, answers, i, script)
    requires ReadAll(BytesFrom(answers, i + 1, texts) + tail, Heads(answers), i + 1) == (more, tail)
    ensures ReadAll(BytesFrom(answers, i, texts) + tail, Heads(answers), i) == ([heard] + more, tail)
  {
    var a, rest := answers[i], BytesFrom(answers, i + 1, texts) + tail;
    LastRest(answers, i, texts, tail);
    OneHeard(h, script, RenderAnswers(answers[..i]), a, texts, rest);
    ReadStep(AnswerBytes(a, texts) + rest, Heads(answers), i, heard, a.keepAlive, rest, more, tail);
    Associates(AnswerBytes(a, texts), BytesFrom(answers, i + 1, texts), tail);
  }

  lemma TailEnds(c: Conn, t: Transcript, texts: Texts)
    requires Tells(c, t)
    ensures Ending(t.answers, TailBytes(t.tail, texts))
  {
  }

  /** Over every run whose handlers answer with finished responses, a client that reads one
      response after another gets back exactly what the handlers' calls meant, one for each
      request and in the order of the requests, and is left with the bytes of the request
      that is not yet answered. */
  lemma ResponsesInOrder(h: Handler, script: Script, steps: seq<Step>, texts: Texts)
    returns (t: Transcript, heard: seq<Heard>)
    requires Plays(h, script) && texts.interim == "HTTP/1.1 100 Continue\r\n\r\n"
    ensures Tells(Run(INITIAL, h, steps), t) && |heard| == |t.answers|
    ensures ReadAll(Output(Run(INITIAL, h, steps).trace, texts), Heads(t.answers), 0)
         == (heard, TailBytes(t.tail, texts))
    ensures forall i :: 0 <= i < |heard| ==> HeardAt(heard[i], t.answers, i, script)
  {
    InterimReads(texts);
    t := OwnAnswers(h, steps, texts);
    heard := MeantByAll(h, script, t.answers);
    TailEnds(Run(INITIAL, h, steps), t, texts);
    ReadWhole(h, script, t.answers, heard, texts, TailBytes(t.tail, texts));
  }

  lemma ReadWhole(h: Handler, script: Script, answers: seq<Answer>, heard: seq<Heard>, texts: Texts, tail: string)
    requires Plays(h, script) && ReadsInterim(texts)
    requires |answers| == |heard| && Ending(answers, tail)
    requires forall j :: 0 <= j < |answers| ==> OwnAt(answers, j, h) && HeardAt(heard[j], answers, j, script)
    ensures ReadAll(AnswersBytes(answers, texts) + tail, Heads(answers), 0) == (heard, tail)
  {
    ReadFrom(h, script, answers, heard, 0, texts, tail);
    SuffixIs(heard, 0);
    assert heard[..0] + Suffix(heard, 0) == Suffix(heard, 0);
    AllBytes(answers, 0, texts);
    assert AnswersBytes(answers[..0], texts) + BytesFrom(answers, 0, texts) == BytesFrom(answers, 0, texts);
  }

  // ---- there are such handlers -----------------------------------------------------------------

  /** A whole response of known length, as bytes. */
  function Whole(heard: Heard, isHead: bool): string {
    var f := if isHead || F.BodilessStatus(heard.status) then F.NoBody else F.Sized(|heard.body|);
    F.Block(F.StatusLine(heard.status, "OK"), [] + F.FramingLines(f)) + F.BodyText(f, [heard.body], true)
  }

  function WholeCalls(heard: Heard): seq<Calls.Call> {
    [Calls.SetStatus(heard.status, "OK"), Calls.End(heard.body)]
  }

  lemma CallsMean(heard: Heard)
    ensures var calls := WholeCalls(heard);
      && Calls.Ends(calls) && Calls.Committed(calls) && Calls.StatusSent(calls) == heard.status
      && Calls.LengthSent(calls) == Some(|heard.body|) && Calls.Written(calls) == [heard.body]
  {
    var calls, first := WholeCalls(heard), [Calls.SetStatus(heard.status, "OK")];
    assert Calls.Before(calls) == first && Calls.Before(first) == [];
    assert !Calls.Committed(first) && !Calls.Ends(first) && Calls.Written(first) == [];
    assert Calls.StatusNow(calls) == Calls.StatusNow(first);
  }

  lemma WholeReplies(heard: Heard, keepAlive: bool, r: Request)
    ensures Replies(Reply([Whole(heard, IsHead(r))], keepAlive), r, WholeCalls(heard))
  {
    CallsMean(heard);
    var isHead := IsHead(r);
    var f := if isHead || F.BodilessStatus(heard.status) then F.NoBody else F.Sized(|heard.body|);
    ConcatOne(heard.body);
    ConcatOne(Whole(heard, isHead));
    forall rest
      ensures F.ReadResponse(Whole(heard, isHead) + rest, isHead)
        == Calls.ReadBack(WholeCalls(heard), isHead, IsOld(r), rest)
    {
      F.ResponseBack(heard.status, "OK", [], f, [heard.body], rest, isHead);
      Associates(F.Block(F.StatusLine(heard.status, "OK"), [] + F.FramingLines(f)),
                 F.BodyText(f, [heard.body], true), rest);
    }
  }

  lemma ConcatOne(s: string)
    ensures Concat([s]) == s
  {
    assert [s][1..] == [];
  }

  /** A handler that answers each request with a whole response, and the calls it makes. */
  function HandlerOf(answer: (seq<Event>, Request) -> (Heard, bool)): Handler {
    (past: seq<Event>, r: Request) => Reply([Whole(answer(past, r).0, IsHead(r))], answer(past, r).1)
  }

  function ScriptOf(answer: (seq<Event>, Request) -> (Heard, bool)): Script {
    (past: seq<Event>, r: Request) => WholeCalls(answer(past, r).0)
  }

  /** Any final responses, kept alive or not, can be what the handlers' calls meant. */
  lemma AnyAnswers(answer: (seq<Event>, Request) -> (Heard, bool))
    requires forall past: seq<Event>, r: Request :: !Passing(answer(past, r).0.status)
    ensures Plays(HandlerOf(answer), ScriptOf(answer))
  {
    forall past: seq<Event>, r: Request
      ensures Played(HandlerOf(answer)(past, r), r, ScriptOf(answer)(past, r))
    {
      CallsMean(answer(past, r).0);
      WholeReplies(answer(past, r).0, answer(past, r).1, r);
    }
  }
}

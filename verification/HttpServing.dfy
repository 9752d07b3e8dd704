/** The connection object over whole runs: whatever arrives, whatever the handler writes and
    however the socket takes it. */
module HttpServing {
  import opened Bytes
  import opened Wrappers
  import opened HttpHead
  import opened HttpMachine
  import opened HttpSplit
  import opened HttpPipelining
  import opened HttpConnections
  import F = HttpFraming

  /** What happens to a connection from outside, and what the socket answers to the sends. */
  datatype Pass =
    | Incoming(bytes: string, sends: seq<SendResult>)
    | Piece(data: string, sends: seq<SendResult>)
    | Finished(keep: bool, sends: seq<SendResult>)

  function StepOf(p: Pass): Step {
    match p
    case Incoming(bytes, _) => Read(bytes)
    case Piece(_, _) => Write
    case Finished(_, _) => Finish
  }

  function StepsOf(passes: seq<Pass>): (steps: seq<Step>)
    ensures |steps| == |passes|
  {
    seq(|passes|, i requires 0 <= i < |passes| => StepOf(passes[i]))
  }

  /** The handler writes what its reply has next, and finishes when it has nothing more. */
  predicate Lawful(c: Conn, p: Pass) {
    match p
    case Incoming(_, _) => true
    case Piece(data, _) =>
      c.Conn? && c.pending.Some? && c.pending.value.pieces != [] && c.pending.value.pieces[0] == data
    case Finished(keep, _) => c.Conn? && c.pending == Some(Reply([], keep))
  }

  predicate LawfulAt(h: Handler, passes: seq<Pass>, i: nat)
    requires i < |passes|
  {
    Lawful(Run(INITIAL, h, StepsOf(passes[..i])), passes[i])
  }

  /** The connection has taken step `s` from `before`, and has been given up if that was due. */
  ghost predicate Stepped(c: HttpConnection, before: Conn, wire: string, requested: bool, s: Step,
                          sends: seq<SendResult>)
    reads c
  {
    && c.model == Advance(before, c.handler, s)
    && c.closeRequested == (requested || CloseDue(sends, Output(c.model.trace, c.texts), wire, c.model, c.peerClosed))
  }

  method ServeIncoming(c: HttpConnection, bytes: string, sends: seq<SendResult>)
    requires c.Valid() && !c.processing
    modifies c
    ensures c.Valid() && !c.processing && c.peerClosed == old(c.peerClosed)
    ensures Stepped(c, old(c.model), old(c.wire), old(c.closeRequested), Read(bytes), sends)
  {
    c.OnReadable(bytes, sends);
  }

  method ServePiece(c: HttpConnection, data: string, sends: seq<SendResult>)
    requires c.Valid() && !c.processing && Lawful(c.model, Piece(data, sends))
    modifies c
    ensures c.Valid() && !c.processing && c.peerClosed == old(c.peerClosed)
    ensures Stepped(c, old(c.model), old(c.wire), old(c.closeRequested), Write, sends)
  {
    c.EnqueueResponseBytes(data, sends);
  }

  method ServeFinish(c: HttpConnection, keep: bool, sends: seq<SendResult>)
    requires c.Valid() && !c.processing && Lawful(c.model, Finished(keep, sends))
    modifies c
    ensures c.Valid() && !c.processing && c.peerClosed == old(c.peerClosed)
    ensures Stepped(c, old(c.model), old(c.wire), old(c.closeRequested), Finish, sends)
  {
    c.ResponseComplete(keep, sends);
  }

  method ServePass(c: HttpConnection, p: Pass)
    requires c.Valid() && !c.processing && Lawful(c.model, p)
    modifies c
    ensures c.Valid() && !c.processing && c.peerClosed == old(c.peerClosed)
    ensures Stepped(c, old(c.model), old(c.wire), old(c.closeRequested), StepOf(p), p.sends)
  {
    match p {
      case Incoming(bytes, sends) => ServeIncoming(c, bytes, sends);
      case Piece(data, sends) => ServePiece(c, data, sends);
      case Finished(keep, sends) => ServeFinish(c, keep, sends);
    }
  }

  /** Closing, with no request outstanding. */
  predicate Closing(c: Conn) { c.Conn? && c.closing && c.pending.None? }

  lemma ClosingStays(c: Conn, h: Handler, s: Step)
    requires Closing(c)
    ensures Closing(Advance(c, h, s))
  {
  }

  lemma DueOnlyClosing(sends: seq<SendResult>, output: string, wire: string, c: Conn)
    requires NoFailure(sends) && CloseDue(sends, output, wire, c, false)
    ensures Closing(c)
  {
    FlushWorks(sends, 0, if |wire| <= |output| then |output| - |wire| else 0);
  }

  /** As long as no send fails, the connection is given up only when it is closing. */
  lemma StaysPatient(c: HttpConnection, before: Conn, wire: string, requested: bool, s: Step, sends: seq<SendResult>)
    requires Stepped(c, before, wire, requested, s, sends) && NoFailure(sends) && !c.peerClosed
    requires requested ==> Closing(before)
    ensures c.closeRequested ==> Closing(c.model)
  {
    if requested {
      ClosingStays(before, c.handler, s);
    } else if c.closeRequested {
      DueOnlyClosing(sends, Output(c.model.trace, c.texts), wire, c.model);
    }
  }

  lemma StepsSnoc(passes: seq<Pass>, i: nat)
    requires i < |passes|
    ensures StepsOf(passes[..i + 1]) == StepsOf(passes[..i]) + [StepOf(passes[i])]
  {
  }

  predicate NoFailures(passes: seq<Pass>) {
    forall i :: 0 <= i < |passes| ==> NoFailure(passes[i].sends)
  }

  /** Over every run of the class its state is that of the machine after the same steps, its
      output is what the history says, sent in order; and without a failed send a refused
      connection is never given up. */
  method Serve(h: Handler, passes: seq<Pass>) returns (c: HttpConnection)
    requires forall i :: 0 <= i < |passes| ==> LawfulAt(h, passes, i)
    ensures c.Valid() && c.model == Run(INITIAL, h, StepsOf(passes)) && c.texts == StandardTexts()
    ensures NoFailures(passes) && c.closeRequested ==> Closing(c.model)
    ensures NoFailures(passes) && c.model.Rejected? ==> !c.closeRequested
  {
    c := new HttpConnection(h);
    var i := 0;
    while i < |passes|
      invariant i <= |passes| && fresh(c) && c.Valid() && !c.processing && c.handler == h && !c.peerClosed
      invariant c.texts == StandardTexts() && c.model == Run(INITIAL, h, StepsOf(passes[..i]))
      invariant NoFailures(passes) && c.closeRequested ==> Closing(c.model)
    {
      assert LawfulAt(h, passes, i);
      ghost var before, wire, requested := c.model, c.wire, c.closeRequested;
      ServePass(c, passes[i]);
      RunMore(h, passes, i);
      if NoFailures(passes) { StaysPatient(c, before, wire, requested, StepOf(passes[i]), passes[i].sends); }
      i := i + 1;
    }
    assert passes[..i] == passes;
  }

  lemma RunMore(h: Handler, passes: seq<Pass>, i: nat)
    requires i < |passes|
    ensures Run(INITIAL, h, StepsOf(passes[..i + 1]))
      == Advance(Run(INITIAL, h, StepsOf(passes[..i])), h, StepOf(passes[i]))
  {
    StepsSnoc(passes, i);
    RunAppend(INITIAL, h, StepsOf(passes[..i]), [StepOf(passes[i])]);
    RunOne(Run(INITIAL, h, StepsOf(passes[..i])), h, StepOf(passes[i]));
  }

  // ---- refusals as a client reads them ---------------------------------------------------------

  /** The statuses the parser may answer with. */
  predicate Refuses(status: nat) { status == 400 || status == 413 || status == 431 || status == 501 }

  function Reason(status: nat): string {
    if status == 400 then "Bad Request"
    else if status == 413 then "Payload Too Large"
    else if status == 431 then "Request Header Fields Too Large"
    else "Not Implemented"
  }

  const CLOSE_LINE: string := "Connection: close"

  lemma RefusalIs(status: nat)
    requires Refuses(status)
    ensures StandardTexts().Refusal(status) == F.Block(F.StatusLine(status, Reason(status)), [CLOSE_LINE])
  {
    BlockOfOne(F.StatusLine(status, Reason(status)), CLOSE_LINE);
    assert CRLF + CLOSE_LINE + CRLF + CRLF == "\r\nConnection: close\r\n\r\n";
  }

  lemma BlockOfOne(line: string, field: string)
    ensures F.Block(line, [field]) == line + (CRLF + field + CRLF + CRLF)
  {
    assert F.Join([field]) == field + CRLF + "";
  }

  lemma ReasonClean(status: nat)
    ensures F.CleanText(Reason(status))
  {
    LongReasonClean();
    if status == 400 { assert F.CleanText("Bad Request"); }
    else if status == 413 { assert F.CleanText("Payload Too Large"); }
    else if status != 431 { assert F.CleanText("Not Implemented"); }
  }

  lemma LongReasonClean()
    ensures F.CleanText("Request Header Fields Too Large")
  {
    assert "Request Header Fields Too Large" == "Request Header " + "Fields Too Large";
    assert F.CleanText("Request Header ") && F.CleanText("Fields Too Large");
  }

  /** A refusal tells its status, and that the connection closes behind it. */
  lemma RefusalRead(status: nat, rest: string)
    requires Refuses(status)
    ensures F.ReadResponse(StandardTexts().Refusal(status) + rest, false) == F.ToClose(status, rest)
    ensures var r := F.ReadLines(StandardTexts().Refusal(status) + rest);
      r.HeadLines? && r.lines != [] && F.Lookup(r.lines[1..], "connection") == Some("close")
  {
    var line, lines := F.StatusLine(status, Reason(status)), [CLOSE_LINE];
    RefusalIs(status);
    ReasonClean(status);
    F.ClosePlain();
    F.CloseTold();
    F.PlainLineClean(CLOSE_LINE);
    F.BlockBack(status, Reason(status), lines, rest);
    assert ([line] + lines)[1..] == lines;
    RefusalBody(status, rest);
  }

  lemma RefusalBody(status: nat, rest: string)
    requires Refuses(status)
    ensures F.ReadResponse(F.Block(F.StatusLine(status, Reason(status)), [CLOSE_LINE]) + rest, false)
      == F.ToClose(status, rest)
  {
    ReasonClean(status);
    F.ClosePlain();
    F.ResponseBack(status, Reason(status), [CLOSE_LINE], F.UntilClose, [], rest, false);
    assert [CLOSE_LINE] + F.FramingLines(F.UntilClose) == [CLOSE_LINE];
    assert "" + rest == rest;
  }
}

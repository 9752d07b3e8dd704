/** A connection behind the dispatch gate: a request that is complete while another handler
    is on the stack is parked, with the connection busy and no handler called, until the
    gate lets it through. Parking changes nothing that the connection reads or writes. */
module HttpParked {
  import opened Bytes
  import opened Wrappers
  import opened HttpHead
  import opened HttpMachine
  import opened HttpSplit
  import opened HttpReference
  import opened HttpPipelining
  import Wire = HttpWire

  /** The placeholder for the reply of a request whose handler has not been called; none of
      it is ever written. */
  const UNASKED: Reply := Reply([], true)

  /** `deferred` is `deferred_`: the request of this busy connection waits in the gate. */
  datatype Gated = Gated(conn: Conn, deferred: bool)

  const OPENED: Gated := Gated(INITIAL, false)

  /** The steps of the connection, each with what the gate says should a request become
      complete in it; and the gate lets the parked request through. */
  datatype GatedStep =
    | Arrive(bytes: string, open: bool)
    | Emit
    | Complete(open: bool)
    | Resume

  /** What a complete request meets: its handler, or the gate. */
  function Met(h: Handler, open: bool): Handler {
    if open then h else (past: seq<Event>, r: Request) => UNASKED
  }

  function Offered(c: Conn, h: Handler, open: bool): Gated {
    var d := Process(c, Met(h, open));
    Gated(d, !open && !Blocked(c) && d.Conn? && d.pending.Some?)
  }

  /** `dispatchDeferred`: the handler is called with the request parked last. */
  function Called(c: Conn, h: Handler): Conn
    requires Waits(c)
  {
    var n := |c.trace| - 1;
    c.(pending := Some(h(c.trace[..n], c.trace[n].request)))
  }

  /** Busy with a request that was dispatched last, and of which nothing is written. */
  predicate Waits(c: Conn) {
    c.Conn? && c.pending == Some(UNASKED) && c.trace != [] && c.trace[|c.trace| - 1].Dispatch?
  }

  /** A parked connection waits. */
  predicate Sound(g: Gated) { g.deferred ==> Waits(g.conn) }

  function AdvanceGated(g: Gated, h: Handler, s: GatedStep): Gated
    requires Sound(g)
  {
    match s
    case Arrive(bytes, open) =>
      if g.deferred then Gated(Append(g.conn, bytes), true) else Offered(Append(g.conn, bytes), h, open)
    case Emit => if g.deferred then g else Gated(Advance(g.conn, h, Write), false)
    case Complete(open) =>
      var c := g.conn;
      if g.deferred || !c.Conn? || c.pending.None? || c.pending.value.pieces != [] then g
      else Offered(HttpMachine.Complete(c), h, open)
    case Resume => if g.deferred then Gated(Called(g.conn, h), false) else g
  }

  /** The connection as it would be if no request ever waited. */
  function Ungated(g: Gated, h: Handler): Conn
    requires Sound(g)
  {
    if g.deferred then Called(g.conn, h) else g.conn
  }

  /** The steps that would have been taken. */
  function StepsOf(g: Gated, s: GatedStep): seq<Step> {
    match s
    case Arrive(bytes, _) => [Read(bytes)]
    case Emit => if g.deferred then [] else [Write]
    case Complete(_) => if g.deferred then [] else [Finish]
    case Resume => []
  }

  function Arrived(steps: seq<GatedStep>): string {
    if steps == [] then "" else (if steps[0].Arrive? then steps[0].bytes else "") + Arrived(steps[1..])
  }

  // ---- parking and then calling is calling -------------------------------------------------------

  /** `b` is `a` with the handler called, if one is due. */
  predicate Agree(a: Conn, b: Conn, h: Handler) {
    if a.Conn? && a.pending.Some? then Waits(a) && b == Called(a, h) else b == a
  }

  lemma DispatchedAgree(c: Conn, h: Handler, head: Head, body: string)
    requires !Blocked(c)
    ensures Agree(Dispatched(c, Met(h, false), head, body), Dispatched(c, h, head, body), h)
  {
    var d := Dispatched(c, Met(h, false), head, body);
    assert d.trace[..|d.trace| - 1] == c.trace;
  }

  lemma HeadReadAgree(c: Conn, h: Handler, r: HeadResult)
    requires !Blocked(c)
    ensures HeadRead(c, Met(h, false), r).again == HeadRead(c, h, r).again
    ensures Agree(HeadRead(c, Met(h, false), r).conn, HeadRead(c, h, r).conn, h)
  {
    if r.Good? && !r.head.chunked && r.head.length == 0 {
      DispatchedAgree(c.(trace := c.trace + if r.head.expectContinue then [Continue] else []), h, r.head, "");
    }
  }

  /** The turn on a head that ends at `e`. */
  function TurnAt(c: Conn, h: Handler, e: nat): Turn
    requires c.Conn? && e + 4 <= |c.inbuf|
  {
    if e + 4 > MAX_HEAD then Turn(RejectWith(c, 431), false)
    else HeadRead(c.(inbuf := c.inbuf[e + 4..]), h, ParseHead(c.inbuf[..e]))
  }

  lemma TurnAtIs(c: Conn, h: Handler, e: nat)
    requires c.Conn? && e == IndexOf(c.inbuf, HEAD_END, 0)
    ensures e + 4 <= |c.inbuf| && HeadTurn(c, h) == TurnAt(c, h, e)
  {
  }

  lemma TurnAtAgrees(c: Conn, h: Handler, e: nat)
    requires !Blocked(c) && e + 4 <= |c.inbuf|
    ensures TurnAt(c, Met(h, false), e).again == TurnAt(c, h, e).again
    ensures Agree(TurnAt(c, Met(h, false), e).conn, TurnAt(c, h, e).conn, h)
  {
    HeadReadAgree(c.(inbuf := c.inbuf[e + 4..]), h, ParseHead(c.inbuf[..e]));
  }

  lemma HeadTurnAgree(c: Conn, h: Handler)
    requires !Blocked(c) && c.parse.AtHead?
    ensures HeadTurn(c, Met(h, false)).again == HeadTurn(c, h).again
    ensures Agree(HeadTurn(c, Met(h, false)).conn, HeadTurn(c, h).conn, h)
  {
    var e := IndexOf(c.inbuf, HEAD_END, 0);
    if e >= 0 {
      TurnAtIs(c, Met(h, false), e);
      TurnAtIs(c, h, e);
      TurnAtAgrees(c, h, e);
    }
  }

  lemma BodyTurnAgree(c: Conn, h: Handler)
    requires !Blocked(c) && c.parse.InBody?
    ensures BodyTurn(c, Met(h, false)).again == BodyTurn(c, h).again
    ensures Agree(BodyTurn(c, Met(h, false)).conn, BodyTurn(c, h).conn, h)
  {
    var k := Take(c.parse.body, c.inbuf, c.parse.remaining);
    DispatchedAgree(c.(inbuf := k.rest), h, c.parse.head, k.body);
  }

  lemma TrailerTurnAgree(c: Conn, h: Handler)
    requires !Blocked(c) && c.parse.InTrailers?
    ensures TrailerTurn(c, Met(h, false)).again == TrailerTurn(c, h).again
    ensures Agree(TrailerTurn(c, Met(h, false)).conn, TrailerTurn(c, h).conn, h)
  {
    var e := IndexOf(c.inbuf, CRLF, 0);
    if e == 0 { DispatchedAgree(c.(inbuf := c.inbuf[2..]), h, c.parse.head, c.parse.body); }
  }

  lemma TurnAgree(c: Conn, h: Handler)
    requires !Blocked(c)
    ensures TurnOf(c, Met(h, false)).again == TurnOf(c, h).again
    ensures Agree(TurnOf(c, Met(h, false)).conn, TurnOf(c, h).conn, h)
  {
    match c.parse
    case AtHead => HeadTurnAgree(c, h);
    case InBody(_, _, _) => BodyTurnAgree(c, h);
    case InTrailers(_, _) => TrailerTurnAgree(c, h);
    case _ => Wire.ChunkTurnTrace(c, h);
  }

  lemma {:induction false} ProcessAgree(c: Conn, h: Handler)
    requires !Blocked(c)
    ensures Agree(Process(c, Met(h, false)), Process(c, h), h)
    decreases Buffered(c), Rank(c)
  {
    TurnAgree(c, h);
    var a, b := TurnOf(c, Met(h, false)), TurnOf(c, h);
    if a.again {
      if Blocked(a.conn) {
        assert Process(a.conn, Met(h, false)) == a.conn && Process(b.conn, h) == b.conn;
      } else {
        ProcessAgree(a.conn, h);
      }
    }
  }

  lemma OfferedAgree(c: Conn, h: Handler, open: bool)
    ensures Sound(Offered(c, h, open)) && Ungated(Offered(c, h, open), h) == Process(c, h)
  {
    if !open && !Blocked(c) { ProcessAgree(c, h); }
  }

  lemma StepAgrees(g: Gated, h: Handler, s: GatedStep)
    requires Sound(g)
    ensures var d := AdvanceGated(g, h, s);
      Sound(d) && Ungated(d, h) == Run(Ungated(g, h), h, StepsOf(g, s))
  {
    match s
    case Arrive(bytes, open) =>
      RunOne(Ungated(g, h), h, Read(bytes));
      if !g.deferred { OfferedAgree(Append(g.conn, bytes), h, open); }
    case Emit => if !g.deferred { RunOne(g.conn, h, Write); }
    case Complete(open) =>
      if !g.deferred {
        RunOne(g.conn, h, Finish);
        if g.conn.Conn? && g.conn.pending.Some? { OfferedAgree(HttpMachine.Complete(g.conn), h, open); }
      }
    case Resume =>
  }

  function RunGated(g: Gated, h: Handler, steps: seq<GatedStep>): (d: Gated)
    requires Sound(g)
    ensures Sound(d)
    decreases |steps|
  {
    if steps == [] then g
    else
      StepAgrees(g, h, steps[0]);
      RunGated(AdvanceGated(g, h, steps[0]), h, steps[1..])
  }

  /** Any run behind the gate is a run without it: the same bytes arrive, the same events
      follow, and a request that still waits is one that is busy and has written nothing. */
  lemma {:induction false} GatedRun(g: Gated, h: Handler, steps: seq<GatedStep>) returns (plain: seq<Step>)
    requires Sound(g)
    ensures Ungated(RunGated(g, h, steps), h) == Run(Ungated(g, h), h, plain) && Received(plain) == Arrived(steps)
    decreases |steps|
  {
    plain := [];
    if steps != [] {
      StepAgrees(g, h, steps[0]);
      var more := GatedRun(AdvanceGated(g, h, steps[0]), h, steps[1..]);
      plain := StepsOf(g, steps[0]) + more;
      RunAppend(Ungated(g, h), h, StepsOf(g, steps[0]), more);
      ReceivedMore(g, steps[0], more);
    }
  }

  lemma ReceivedMore(g: Gated, s: GatedStep, more: seq<Step>)
    ensures Received(StepsOf(g, s) + more) == (if s.Arrive? then s.bytes else "") + Received(more)
  {
    var now := StepsOf(g, s);
    if now == [] {
      assert now + more == more;
    } else {
      assert (now + more)[1..] == more;
    }
  }

  /** A history that ends with an unanswered request ends with its dispatch as long as
      nothing is written. */
  lemma TailLast(t: Transcript)
    requires t.tail.Open?
    ensures Render(t) != [] && (t.tail.pieces == [] <==> Render(t)[|Render(t)| - 1].Dispatch?)
  {
    var past := RenderAnswers(t.answers) + (Interim(t.tail.interim) + [Dispatch(t.tail.request)]);
    assert Render(t) == past + Wrotes(t.tail.pieces);
  }

  lemma WaitingTail(c: Conn, h: Handler, t: Transcript)
    requires Waits(c) && Tells(Called(c, h), t)
    ensures t.tail.Open? && t.tail.pieces == []
  {
    TailLast(t);
  }

  /** Whatever the gate says and whenever it lets a request through, answers keep the order
      of the requests; a request that waits is the one after the last whole answer, and not
      a byte of its answer is on the wire. */
  lemma GatedOrder(h: Handler, steps: seq<GatedStep>, texts: Texts) returns (t: Transcript)
    ensures var g := RunGated(OPENED, h, steps);
      && Render(t) == g.conn.trace && Proper(t)
      && Output(g.conn.trace, texts) == AnswersBytes(t.answers, texts) + TailBytes(t.tail, texts)
      && (g.deferred ==> t.tail.Open? && t.tail.pieces == [])
    ensures forall i :: 0 <= i < |t.answers| ==> Wire.OwnAt(t.answers, i, h)
  {
    var g := RunGated(OPENED, h, steps);
    var plain := GatedRun(OPENED, h, steps);
    t := Wire.OwnAnswers(h, plain, texts);
    if g.deferred { WaitingTail(g.conn, h, t); }
  }

  /** Nor does the gate change what is read: the history is a prefix of the reference
      reading of the bytes that arrived, and all that is missing is what would follow if
      every request were answered now. */
  lemma GatedFollowsReference(h: Handler, steps: seq<GatedStep>)
    requires !LongInStream(Arrived(steps), h, true, [])
    ensures var g := RunGated(OPENED, h, steps); var whole := Reference(Arrived(steps), h, true, []);
      g.conn.trace <= whole && Settle(Ungated(g, h), h).trace == whole
  {
    var plain := GatedRun(OPENED, h, steps);
    RunFollowsReference(h, plain);
  }
}

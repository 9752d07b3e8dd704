/** The meaning of the input does not depend on how it is cut into reads, nor on
    when the handlers answer. */
module HttpSplit {
  import opened Sequences
  import opened Bytes
  import opened Wrappers
  import opened HttpHead
  import opened HttpMachine

  /** The bytes a turn that goes on has consumed. */
  function Consumed(c: Conn, d: Conn): string
    requires c.Conn? && d.Conn? && |d.inbuf| <= |c.inbuf|
  {
    c.inbuf[..|c.inbuf| - |d.inbuf|]
  }

  /** A turn that goes on depends only on the bytes it consumes: whatever follows
      them is handed on untouched. */
  ghost predicate LocalTurn(c: Conn, h: Handler, y: string)
    requires !Blocked(c) && TurnOf(c, h).again
  {
    var d := TurnOf(c, h).conn;
    && c.inbuf == Consumed(c, d) + d.inbuf
    && TurnOf(c.(inbuf := Consumed(c, d) + y), h) == Turn(d.(inbuf := y), true)
  }

  /** A match cuts the buffer in two; what follows the match does not matter. */
  lemma CutAtMatch(s: string, pat: string, e: nat, y: string)
    requires IndexOf(s, pat, 0) == e
    ensures s == s[..e + |pat|] + s[e + |pat|..]
    ensures var t := s[..e + |pat|] + y;
      && IndexOf(t, pat, 0) == e
      && t[..e] == s[..e]
      && t[e + |pat|..] == y
  {
    var t := s[..e + |pat|] + y;
    assert t[..e + |pat|] == s[..e + |pat|];
    IndexOfLocal(s, t, pat, 0, e);
  }

  lemma HeadReadLocal(c: Conn, h: Handler, r: HeadResult, y: string)
    requires c.Conn? && HeadRead(c, h, r).again
    ensures HeadRead(c.(inbuf := y), h, r) == Turn(HeadRead(c, h, r).conn.(inbuf := y), true)
  {
  }

  lemma HeadLocal(c: Conn, h: Handler, y: string)
    requires c.Conn? && HeadTurn(c, h).again
    ensures var d := HeadTurn(c, h).conn;
      && c.inbuf == Consumed(c, d) + d.inbuf
      && HeadTurn(c.(inbuf := Consumed(c, d) + y), h) == Turn(d.(inbuf := y), true)
  {
    var e := IndexOf(c.inbuf, HEAD_END, 0);
    var x := c.inbuf[..e + 4];
    CutAtMatch(c.inbuf, HEAD_END, e, y);
    HeadReadLocal(c.(inbuf := c.inbuf[e + 4..]), h, ParseHead(c.inbuf[..e]), y);
    assert Consumed(c, HeadTurn(c, h).conn) == x;
  }

  lemma TakeLocal(body: string, s: string, n: nat, y: string)
    requires n <= |s|
    ensures Take(body, s[..n] + y, n) == Take(body, s, n).(rest := y)
    ensures Take(body, s, n).rest == s[n..] && Take(body, s, n).left == 0
  {
    assert (s[..n] + y)[..n] == s[..n] && (s[..n] + y)[n..] == y;
  }

  lemma BodyLocal(c: Conn, h: Handler, y: string)
    requires c.Conn? && c.parse.InBody? && BodyTurn(c, h).again
    ensures var d := BodyTurn(c, h).conn;
      && c.inbuf == Consumed(c, d) + d.inbuf
      && BodyTurn(c.(inbuf := Consumed(c, d) + y), h) == Turn(d.(inbuf := y), true)
  {
    TakeLocal(c.parse.body, c.inbuf, c.parse.remaining, y);
  }

  lemma ChunkLocal(c: Conn, y: string)
    requires c.Conn? && c.parse.InChunk? && ChunkTurn(c).again
    ensures var d := ChunkTurn(c).conn;
      && c.inbuf == Consumed(c, d) + d.inbuf
      && ChunkTurn(c.(inbuf := Consumed(c, d) + y)) == Turn(d.(inbuf := y), true)
  {
    TakeLocal(c.parse.body, c.inbuf, c.parse.remaining, y);
  }

  lemma SizeLocal(c: Conn, y: string)
    requires c.Conn? && c.parse.AtChunkSize? && SizeTurn(c).again
    ensures var d := SizeTurn(c).conn;
      && c.inbuf == Consumed(c, d) + d.inbuf
      && SizeTurn(c.(inbuf := Consumed(c, d) + y)) == Turn(d.(inbuf := y), true)
  {
    var e := IndexOf(c.inbuf, CRLF, 0);
    CutAtMatch(c.inbuf, CRLF, e, y);
    assert Consumed(c, SizeTurn(c).conn) == c.inbuf[..e + 2];
  }

  lemma TrailerLocal(c: Conn, h: Handler, y: string)
    requires c.Conn? && c.parse.InTrailers? && TrailerTurn(c, h).again
    ensures var d := TrailerTurn(c, h).conn;
      && c.inbuf == Consumed(c, d) + d.inbuf
      && TrailerTurn(c.(inbuf := Consumed(c, d) + y), h) == Turn(d.(inbuf := y), true)
  {
    var e := IndexOf(c.inbuf, CRLF, 0);
    CutAtMatch(c.inbuf, CRLF, e, y);
    assert Consumed(c, TrailerTurn(c, h).conn) == c.inbuf[..e + 2];
  }

  lemma CrlfLocal(c: Conn, y: string)
    requires c.Conn? && c.parse.AtChunkCrlf? && CrlfTurn(c).again
    ensures var d := CrlfTurn(c).conn;
      && c.inbuf == Consumed(c, d) + d.inbuf
      && CrlfTurn(c.(inbuf := Consumed(c, d) + y)) == Turn(d.(inbuf := y), true)
  {
    var x := c.inbuf[..2];
    assert Consumed(c, CrlfTurn(c).conn) == x;
    assert (x + y)[2..] == y;
  }

  lemma TurnLocal(c: Conn, h: Handler, y: string)
    requires !Blocked(c) && TurnOf(c, h).again
    ensures LocalTurn(c, h, y)
  {
    match c.parse
    case AtHead => HeadLocal(c, h, y);
    case InBody(_, _, _) => BodyLocal(c, h, y);
    case AtChunkSize(_, _) => SizeLocal(c, y);
    case InChunk(_, _, _) => ChunkLocal(c, y);
    case AtChunkCrlf(_, _) => CrlfLocal(c, y);
    case InTrailers(_, _) => TrailerLocal(c, h, y);
  }

  /** More input after a turn that goes on changes only what is left over. */
  lemma AppendTurn(c: Conn, h: Handler, b: string)
    requires !Blocked(c) && TurnOf(c, h).again
    ensures TurnOf(Append(c, b), h) == Turn(Append(TurnOf(c, h).conn, b), true)
  {
    var d := TurnOf(c, h).conn;
    TurnLocal(c, h, d.inbuf + b);
    Associates(Consumed(c, d), d.inbuf, b);
  }

  // A turn that stops stops for good or for want of bytes: with more input it
  // reaches the same rejection, or the same turn as after waiting.

  lemma MatchStays(s: string, b: string, pat: string, e: nat)
    requires IndexOf(s, pat, 0) == e
    ensures IndexOf(s + b, pat, 0) == e && (s + b)[..e] == s[..e]
    ensures (s + b)[e + |pat|..] == s[e + |pat|..] + b
  {
    assert (s + b)[..e + |pat|] == s[..e + |pat|];
    IndexOfLocal(s, s + b, pat, 0, e);
  }

  lemma HeadReadStop(c: Conn, h: Handler, r: HeadResult, y: string)
    requires c.Conn? && !HeadRead(c, h, r).again
    ensures HeadRead(c, h, r).conn.Rejected? && HeadRead(c.(inbuf := y), h, r) == HeadRead(c, h, r)
  {
  }

  lemma HeadStopWaiting(c: Conn, h: Handler, b: string)
    requires c.Conn? && IndexOf(c.inbuf, HEAD_END, 0) < 0
    ensures if |c.inbuf| > MAX_HEAD then HeadTurn(Append(c, b), h) == HeadTurn(c, h) else HeadTurn(c, h).conn == c
  {
    IndexOfLater(c.inbuf, b, HEAD_END, 0);
  }

  lemma HeadStopRead(c: Conn, h: Handler, b: string, e: nat)
    requires c.Conn? && IndexOf(c.inbuf, HEAD_END, 0) == e && !HeadTurn(c, h).again
    ensures HeadTurn(c, h).conn.Rejected? && HeadTurn(Append(c, b), h) == HeadTurn(c, h)
  {
    MatchStays(c.inbuf, b, HEAD_END, e);
    if e + 4 <= MAX_HEAD {
      var d, r := Append(c, b), ParseHead(c.inbuf[..e]);
      HeadFound(c, h, e, c.inbuf[e + 4..], r);
      HeadFound(d, h, e, c.inbuf[e + 4..] + b, r);
      HeadReadStop(c.(inbuf := c.inbuf[e + 4..]), h, r, c.inbuf[e + 4..] + b);
    }
  }

  lemma HeadFound(c: Conn, h: Handler, e: nat, rest: string, r: HeadResult)
    requires c.Conn? && IndexOf(c.inbuf, HEAD_END, 0) == e && e + 4 <= MAX_HEAD
    requires c.inbuf[e + 4..] == rest && ParseHead(c.inbuf[..e]) == r
    ensures HeadTurn(c, h) == HeadRead(c.(inbuf := rest), h, r)
  {
  }

  lemma HeadStop(c: Conn, h: Handler, b: string)
    requires c.Conn? && !HeadTurn(c, h).again
    ensures var t := HeadTurn(c, h);
      if t.conn.Rejected? then HeadTurn(Append(c, b), h) == t else t.conn == c
  {
    var e := IndexOf(c.inbuf, HEAD_END, 0);
    if e < 0 { HeadStopWaiting(c, h, b); } else { HeadStopRead(c, h, b, e); }
  }

  lemma SizeReadStop(c: Conn, length: nat, r: SizeResult, y: string)
    requires c.Conn? && c.parse.AtChunkSize? && !SizeRead(c, length, r).again
    ensures SizeRead(c, length, r).conn.Rejected? && SizeRead(c.(inbuf := y), length, r) == SizeRead(c, length, r)
  {
  }

  lemma SizeReadLong(c: Conn, length: nat, r: SizeResult)
    requires c.Conn? && c.parse.AtChunkSize? && length >= MAX_SIZE_LINE
    requires !SizeRead(c, length, r).conn.longLine
    ensures SizeRead(c, length, r) == Turn(RejectWith(c, 400), false)
  {
  }

  lemma SizeStopWaiting(c: Conn, b: string)
    requires c.Conn? && c.parse.AtChunkSize? && IndexOf(c.inbuf, CRLF, 0) < 0
    requires !SizeTurn(Append(c, b)).conn.longLine
    ensures if |c.inbuf| > MAX_SIZE_LINE then SizeTurn(Append(c, b)) == SizeTurn(c) else SizeTurn(c).conn == c
  {
    IndexOfLater(c.inbuf, b, CRLF, 0);
    var s := c.inbuf + b;
    var f := IndexOf(s, CRLF, 0);
    if f >= 0 && |c.inbuf| > MAX_SIZE_LINE {
      SizeReadLong(c.(inbuf := s[f + 2..]), f, ChunkSize(s[..f]));
    }
  }

  lemma SizeStop(c: Conn, b: string)
    requires c.Conn? && c.parse.AtChunkSize? && !SizeTurn(c).again
    requires !SizeTurn(Append(c, b)).conn.longLine
    ensures var t := SizeTurn(c);
      if t.conn.Rejected? then SizeTurn(Append(c, b)) == t else t.conn == c
  {
    var e := IndexOf(c.inbuf, CRLF, 0);
    if e < 0 {
      SizeStopWaiting(c, b);
    } else {
      MatchStays(c.inbuf, b, CRLF, e);
      SizeReadStop(c.(inbuf := c.inbuf[e + 2..]), e, ChunkSize(c.inbuf[..e]), c.inbuf[e + 2..] + b);
    }
  }

  /** Taking what there is and then from what arrives later is taking once from both. */
  lemma TakeTwice(body: string, s: string, n: nat, b: string)
    requires Take(body, s, n).left > 0
    ensures var t := Take(body, s, n);
      Take(body, s + b, n) == Take(t.body, t.rest + b, t.left)
  {
    var more := Min(n - |s|, |b|);
    assert s[..|s|] == s;
    assert (s + b)[..|s| + more] == s + b[..more];
    assert (s + b)[|s| + more..] == b[more..];
    assert body + (s + b[..more]) == (body + s) + b[..more];
    assert s[|s|..] + b == b;
  }

  lemma TakeGrows(body: string, s: string, n: nat, b: string)
    ensures |Take(body, s + b, n).body| >= |Take(body, s, n).body|
  {
  }

  lemma BodyStop(c: Conn, h: Handler, b: string)
    requires c.Conn? && c.parse.InBody? && !BodyTurn(c, h).again
    ensures var t := BodyTurn(c, h);
      if t.conn.Rejected? then BodyTurn(Append(c, b), h) == t
      else t.conn.parse.InBody? && BodyTurn(Append(c, b), h) == BodyTurn(Append(t.conn, b), h)
  {
    var n := c.parse.remaining;
    TakeGrows(c.parse.body, c.inbuf, n, b);
    if Take(c.parse.body, c.inbuf, n).left > 0 {
      TakeTwice(c.parse.body, c.inbuf, n, b);
    }
  }

  lemma ChunkStop(c: Conn, b: string)
    requires c.Conn? && c.parse.InChunk? && !ChunkTurn(c).again
    ensures var t := ChunkTurn(c);
      if t.conn.Rejected? then ChunkTurn(Append(c, b)) == t
      else t.conn.parse.InChunk? && ChunkTurn(Append(c, b)) == ChunkTurn(Append(t.conn, b))
  {
    var n := c.parse.remaining;
    TakeGrows(c.parse.body, c.inbuf, n, b);
    if Take(c.parse.body, c.inbuf, n).left > 0 {
      TakeTwice(c.parse.body, c.inbuf, n, b);
    }
  }

  lemma TrailerStop(c: Conn, h: Handler)
    requires c.Conn? && c.parse.InTrailers? && !TrailerTurn(c, h).again
    ensures TrailerTurn(c, h).conn == c
  {
  }

  /** The history flag never goes back. */
  lemma {:induction false} LongLineStays(c: Conn, h: Handler)
    requires c.longLine
    ensures Settle(c, h).longLine
    decreases Buffered(c), Rank(c)
  {
    if c.Conn? {
      if c.pending.Some? {
        LongLineStays(Complete(c), h);
      } else if !c.closing {
        if TurnOf(c, h).again {
          LongLineStays(TurnOf(c, h).conn, h);
        }
      }
    }
  }

  lemma StopSplit(c: Conn, h: Handler, b: string)
    requires !Blocked(c) && !TurnOf(c, h).again
    requires !Settle(Append(c, b), h).longLine
    ensures Settle(Append(TurnOf(c, h).conn, b), h) == Settle(Append(c, b), h)
  {
    var d := TurnOf(c, h).conn;
    if TurnOf(Append(c, b), h).conn.longLine {
      if TurnOf(Append(c, b), h).again { LongLineStays(TurnOf(Append(c, b), h).conn, h); }
      assert false;
    }
    match c.parse
    case AtHead => HeadStop(c, h, b);
    case InBody(_, _, _) => BodyStop(c, h, b);
    case AtChunkSize(_, _) => SizeStop(c, b);
    case InChunk(_, _, _) => ChunkStop(c, b);
    case AtChunkCrlf(_, _) =>
    case InTrailers(_, _) => TrailerStop(c, h);
  }

  /** Settling first and reading on is settling once, unless an over-long
      chunk-size line is read whole. */
  lemma {:induction false} SettleAppend(c: Conn, h: Handler, b: string)
    requires !Settle(Append(c, b), h).longLine
    ensures Settle(Append(Settle(c, h), b), h) == Settle(Append(c, b), h)
    decreases Buffered(c), Rank(c)
  {
    if c.Rejected? {
    } else if c.pending.Some? {
      assert Complete(Append(c, b)) == Append(Complete(c), b);
      SettleAppend(Complete(c), h, b);
    } else if c.closing {
    } else if TurnOf(c, h).again {
      AppendTurn(c, h, b);
      SettleAppend(TurnOf(c, h).conn, h, b);
    } else {
      StopSplit(c, h, b);
    }
  }

  /** The same for the real loop, which stops at a request that is not answered yet. */
  lemma {:induction false} ProcessAppend(c: Conn, h: Handler, b: string)
    requires !Settle(Append(c, b), h).longLine
    ensures Settle(Append(Process(c, h), b), h) == Settle(Append(c, b), h)
    decreases Buffered(c), Rank(c)
  {
    if !Blocked(c) {
      if TurnOf(c, h).again {
        AppendTurn(c, h, b);
        ProcessAppend(TurnOf(c, h).conn, h, b);
      } else {
        StopSplit(c, h, b);
      }
    }
  }

  // ---- runs --------------------------------------------------------------

  /** A step of the outside world: bytes arrive, or the running handler writes
      its next piece, or it completes. */
  datatype Step = Read(bytes: string) | Write | Finish

  function Advance(c: Conn, h: Handler, s: Step): Conn {
    match s
    case Read(bytes) => Process(Append(c, bytes), h)
    case Write => if c.Conn? && c.pending.Some? && c.pending.value.pieces != [] then Emit(c) else c
    case Finish =>
      if c.Conn? && c.pending.Some? && c.pending.value.pieces == [] then Process(Complete(c), h) else c
  }

  function Run(c: Conn, h: Handler, steps: seq<Step>): Conn
    decreases |steps|
  {
    if steps == [] then c else Run(Advance(c, h, steps[0]), h, steps[1..])
  }

  lemma RunOne(c: Conn, h: Handler, s: Step)
    ensures Run(c, h, [s]) == Advance(c, h, s)
  {
    assert [s][1..] == [];
  }

  lemma {:induction false} RunAppend(c: Conn, h: Handler, a: seq<Step>, b: seq<Step>)
    ensures Run(c, h, a + b) == Run(Run(c, h, a), h, b)
    decreases |a|
  {
    if a == [] {
      assert a + b == b;
    } else {
      assert (a + b)[1..] == a[1..] + b;
      RunAppend(Advance(c, h, a[0]), h, a[1..], b);
    }
  }

  function Received(steps: seq<Step>): string {
    if steps == [] then "" else (if steps[0].Read? then steps[0].bytes else "") + Received(steps[1..])
  }

  /** The one-pass outcome: all the bytes at once, every handler answering at once. */
  function OnePass(stream: string, h: Handler): Conn {
    Settle(Append(INITIAL, stream), h)
  }

  /** No chunk-size line of the stream is longer than 1023 bytes, except lines
      that are answered with 400 in any case. */
  predicate ShortSizeLines(stream: string, h: Handler) { !OnePass(stream, h).longLine }

  lemma AppendAppend(c: Conn, a: string, b: string)
    ensures Append(Append(c, a), b) == Append(c, a + b)
  {
    if c.Conn? {
      assert (c.inbuf + a) + b == c.inbuf + (a + b);
    }
  }

  lemma CompleteEmit(c: Conn)
    requires c.Conn? && c.pending.Some? && c.pending.value.pieces != []
    ensures Complete(Emit(c)) == Complete(c)
  {
    var p := c.pending.value.pieces;
    assert Wrotes(p) == [Wrote(p[0])] + Wrotes(p[1..]);
    assert (c.trace + [Wrote(p[0])]) + Wrotes(p[1..]) == c.trace + Wrotes(p);
  }

  lemma AdvanceSettles(c: Conn, h: Handler, s: Step, later: string)
    requires !Settle(Append(c, (if s.Read? then s.bytes else "") + later), h).longLine
    ensures Settle(Append(Advance(c, h, s), later), h)
         == Settle(Append(c, (if s.Read? then s.bytes else "") + later), h)
  {
    match s
    case Read(bytes) =>
      AppendAppend(c, bytes, later);
      ProcessAppend(Append(c, bytes), h, later);
    case Write =>
      assert "" + later == later;
      if c.Conn? && c.pending.Some? && c.pending.value.pieces != [] {
        assert Append(Emit(c), later) == Emit(Append(c, later));
        CompleteEmit(Append(c, later));
      }
    case Finish =>
      assert "" + later == later;
      if c.Conn? && c.pending.Some? && c.pending.value.pieces == [] {
        assert Append(Complete(c), later) == Complete(Append(c, later));
        ProcessAppend(Complete(c), h, later);
      }
  }

  lemma {:induction false} RunSettles(c: Conn, h: Handler, steps: seq<Step>)
    requires !Settle(Append(c, Received(steps)), h).longLine
    ensures Settle(Run(c, h, steps), h) == Settle(Append(c, Received(steps)), h)
    decreases |steps|
  {
    if steps == [] {
      assert Append(c, "") == c;
    } else {
      AdvanceSettles(c, h, steps[0], Received(steps[1..]));
      RunSettles(Advance(c, h, steps[0]), h, steps[1..]);
    }
  }

  lemma {:induction false} TraceGrows(c: Conn, h: Handler)
    ensures c.trace <= Settle(c, h).trace
    decreases Buffered(c), Rank(c)
  {
    if c.Conn? {
      if c.pending.Some? {
        TraceGrows(Complete(c), h);
      } else if !c.closing && TurnOf(c, h).again {
        TraceGrows(TurnOf(c, h).conn, h);
      }
    }
  }

  /** Split independence, for reads, writes and completions interleaved in any
      way: what has happened so far is always a prefix of the one-pass outcome of
      the bytes received, and is all of it once no request is outstanding and
      nothing parseable is left. */
  lemma SplitIndependence(h: Handler, steps: seq<Step>)
    requires ShortSizeLines(Received(steps), h)
    ensures var c := Run(INITIAL, h, steps);
      && Settle(c, h) == OnePass(Received(steps), h)
      && c.trace <= OnePass(Received(steps), h).trace
  {
    RunSettles(INITIAL, h, steps);
    TraceGrows(Run(INITIAL, h, steps), h);
  }

  /** With handlers that complete synchronously every read leaves the connection
      settled. */
  function FeedAll(c: Conn, h: Handler, cuts: seq<string>): Conn
    decreases |cuts|
  {
    if cuts == [] then c else FeedAll(Settle(Append(c, cuts[0]), h), h, cuts[1..])
  }

  lemma {:induction false} FeedAllIsOnePass(c: Conn, h: Handler, cuts: seq<string>)
    requires Settle(c, h) == c
    requires !Settle(Append(c, Concat(cuts)), h).longLine
    ensures FeedAll(c, h, cuts) == Settle(Append(c, Concat(cuts)), h)
    decreases |cuts|
  {
    if cuts == [] {
      assert Append(c, "") == c;
    } else {
      var d := Settle(Append(c, cuts[0]), h);
      AppendAppend(c, cuts[0], Concat(cuts[1..]));
      SettleAppend(Append(c, cuts[0]), h, Concat(cuts[1..]));
      if d.longLine { LongLineStays(Append(d, Concat(cuts[1..])), h); }
      assert Append(Append(c, cuts[0]), "") == Append(c, cuts[0]) && Append(d, "") == d;
      SettleAppend(Append(c, cuts[0]), h, "");
      FeedAllIsOnePass(d, h, cuts[1..]);
    }
  }

  /** Split independence for synchronous handlers: any two ways of cutting a
      stream into reads have the one-pass outcome. */
  lemma CutIndependence(h: Handler, cuts: seq<string>)
    requires ShortSizeLines(Concat(cuts), h)
    ensures FeedAll(INITIAL, h, cuts) == OnePass(Concat(cuts), h)
  {
    assert Append(INITIAL, "") == INITIAL;
    var e := IndexOf("", HEAD_END, 0);
    assert Settle(INITIAL, h) == INITIAL;
    FeedAllIsOnePass(INITIAL, h, cuts);
  }
}

/** Exactly which streams mean the same however they are cut: the chunk-size line
    is rejected by the size of the buffer it waits in, so a line that is longer
    than the limit is answered differently when it arrives whole. */
module HttpSizeLines {
  import opened Sequences
  import opened Bytes
  import opened Wrappers
  import opened HttpHead
  import opened HttpMachine
  import opened HttpSplit
  import opened HttpReference

  /** Every way of cutting the stream once gives the same history. */
  ghost predicate CutsAgree(stream: string, h: Handler) {
    forall i: nat :: i <= |stream| ==>
      FeedAll(INITIAL, h, [stream[..i], stream[i..]]).trace == OnePass(stream, h).trace
  }

  lemma FeedTwo(h: Handler, a: string, b: string)
    ensures FeedAll(INITIAL, h, [a, b]) == Settle(Append(OnePass(a, h), b), h)
  {
    var c := OnePass(a, h);
    assert [a, b][1..] == [b];
    assert FeedAll(c, h, [b]) == FeedAll(Settle(Append(c, b), h), h, []);
  }

  lemma NoMatchInPrefix(s: string, pat: string, e: nat, n: nat)
    requires IndexOf(s, pat, 0) == e && n <= |s| && n < e + |pat|
    ensures IndexOf(s[..n], pat, 0) < 0
  {
    var k := IndexOf(s[..n], pat, 0);
    if k >= 0 {
      assert s[..n][..n] == s[..n];
      AtLocal(s[..n], s, pat, k, n);
    }
  }

  /** A line that is over the limit, with its CRLF: the line ends where it should,
      and its first 1025 bytes hold no end of line. */
  lemma OverLong(s: string, e: nat)
    requires IndexOf(s, CRLF, 0) == e && e >= MAX_SIZE_LINE
    ensures var t := s[..e + 2];
      && t[..e] == s[..e] && t[e + 2..] == ""
      && IndexOf(t, CRLF, 0) == e
      && IndexOf(t[..MAX_SIZE_LINE + 1], CRLF, 0) < 0
  {
    var t := s[..e + 2];
    CutAtMatch(s, CRLF, e, "");
    assert t + "" == t;
    NoMatchInPrefix(t, CRLF, e, MAX_SIZE_LINE + 1);
  }

  lemma LastDiffers(trace: seq<Event>, status: int)
    requires status != 400
    ensures trace != trace + [Reject(400)] && trace + [Reject(status)] != trace + [Reject(400)]
  {
    assert |trace + [Reject(400)]| == |trace| + 1;
    assert (trace + [Reject(status)])[|trace|] != (trace + [Reject(400)])[|trace|];
  }

  lemma EmptyInput(c: Conn, h: Handler)
    requires !Blocked(c) && c.inbuf == ""
    requires c.parse.InTrailers? || (c.parse.InChunk? && c.parse.remaining > 0)
    ensures Settle(c, h).trace != c.trace + [Reject(400)]
  {
    LastDiffers(c.trace, 413);
    if c.parse.InTrailers? {
      assert TrailerTurn(c, h) == Turn(c, false);
    } else {
      assert ChunkTurn(c) == Turn(ChunkTurn(c).conn, false);
    }
  }

  /** The trace with the input cut at `i`, and with it in one piece. */
  ghost function CutTrace(c: Conn, h: Handler, t: string, i: nat): seq<Event>
    requires c.Conn? && i <= |t|
  {
    Settle(Append(Settle(c.(inbuf := t[..i]), h), t[i..]), h).trace
  }

  ghost function WholeTrace(c: Conn, h: Handler, t: string): seq<Event>
    requires c.Conn?
  {
    Settle(c.(inbuf := t), h).trace
  }

  lemma LongLineWhole(c: Conn, h: Handler, e: nat)
    requires !Blocked(c) && c.parse.AtChunkSize? && !c.longLine
    requires IndexOf(c.inbuf, CRLF, 0) == e && e >= MAX_SIZE_LINE
    requires ChunkSize(c.inbuf[..e]) != SizeError(400)
    ensures WholeTrace(c, h, c.inbuf[..e + 2]) != c.trace + [Reject(400)]
  {
    OverLong(c.inbuf, e);
    var t := c.inbuf[..e + 2];
    var d := c.(inbuf := t);
    var size := ChunkSize(t[..e]);
    var r := SizeRead(d.(inbuf := ""), e, size);
    assert SizeTurn(d) == r;
    if size.Size? {
      EmptyInput(r.conn, h);
    } else {
      LastDiffers(c.trace, size.status);
    }
  }

  lemma RejectedStays(c: Conn, b: string, h: Handler)
    requires c.Rejected?
    ensures Settle(Append(c, b), h) == c
  {
  }

  lemma LongLineCut(c: Conn, h: Handler, e: nat, k: nat)
    requires !Blocked(c) && c.parse.AtChunkSize?
    requires IndexOf(c.inbuf, CRLF, 0) == e && e >= MAX_SIZE_LINE && k == MAX_SIZE_LINE + 1
    ensures CutTrace(c, h, c.inbuf[..e + 2], k) == c.trace + [Reject(400)]
  {
    OverLong(c.inbuf, e);
    var t := c.inbuf[..e + 2];
    var d := c.(inbuf := t[..k]);
    assert SizeTurn(d) == Turn(RejectWith(d, 400), false);
    assert Settle(d, h) == RejectWith(d, 400);
    RejectedStays(RejectWith(d, 400), t[k..], h);
  }

  lemma LongTurnIsSizeTurn(c: Conn, h: Handler)
    requires !Blocked(c) && !c.longLine && TurnOf(c, h).conn.longLine
    ensures c.parse.AtChunkSize?
    ensures var e := IndexOf(c.inbuf, CRLF, 0);
      e >= MAX_SIZE_LINE && ChunkSize(c.inbuf[..e]) != SizeError(400)
  {
    assert TurnOf(c, h) == SizeTurn(c);
  }

  /** From `c`, the bytes `x` lead to `d`: they come first, and whatever follows
      them is read as from `d`. */
  ghost predicate Leads(c: Conn, x: string, d: Conn, h: Handler) {
    && c.Conn? && d.Conn? && c.inbuf == x + d.inbuf
    && forall y: string :: Settle(c.(inbuf := x + y), h) == Settle(d.(inbuf := y), h)
  }

  lemma LeadsNowhere(c: Conn, h: Handler)
    requires c.Conn?
    ensures Leads(c, "", c, h)
  {
    forall y: string
      ensures Settle(c.(inbuf := "" + y), h) == Settle(c.(inbuf := y), h)
    {
      assert "" + y == y;
    }
  }

  lemma LeadsOn(c: Conn, x: string, d: Conn, x': string, e: Conn, h: Handler)
    requires Leads(c, x, d, h) && Leads(d, x', e, h)
    ensures Leads(c, x + x', e, h)
  {
    Associates(x, x', e.inbuf);
    forall y: string
      ensures Settle(c.(inbuf := x + x' + y), h) == Settle(e.(inbuf := y), h)
    {
      Associates(x, x', y);
    }
  }

  lemma CompletionLeads(c: Conn, h: Handler)
    requires c.Conn? && c.pending.Some?
    ensures Leads(c, "", Complete(c), h)
  {
    var d := Complete(c);
    assert d.Conn?;
    forall y: string
      ensures Settle(c.(inbuf := "" + y), h) == Settle(d.(inbuf := y), h)
    {
      assert "" + y == y;
      assert Complete(c.(inbuf := y)) == d.(inbuf := y);
    }
  }

  /** A turn that goes on hands whatever follows its bytes to the next one. */
  lemma TurnLeads(c: Conn, d: Conn, h: Handler)
    requires !Blocked(c) && TurnOf(c, h) == Turn(d, true)
    ensures Leads(c, Consumed(c, d), d, h)
  {
    TurnLocal(c, h, d.inbuf);
    forall y: string
      ensures Settle(c.(inbuf := Consumed(c, d) + y), h) == Settle(d.(inbuf := y), h)
    {
      TurnLocal(c, h, y);
    }
  }

  /** Waiting for a chunk-size line, with one over the limit in the buffer. */
  ghost predicate BeforeLongLine(d: Conn) {
    && !Blocked(d) && d.parse.AtChunkSize? && !d.longLine
    && var e := IndexOf(d.inbuf, CRLF, 0);
      e >= MAX_SIZE_LINE && ChunkSize(d.inbuf[..e]) != SizeError(400)
  }

  /** The first over-long line, and the bytes in front of it. */
  lemma {:induction false} FindLongLine(c: Conn, h: Handler) returns (x: string, d: Conn)
    requires c.Conn? && !c.longLine && Settle(c, h).longLine
    ensures BeforeLongLine(d) && Leads(c, x, d, h)
    decreases Buffered(c), Rank(c)
  {
    if c.pending.Some? {
      CompletionLeads(c, h);
      x, d := FindLongLine(Complete(c), h);
      LeadsOn(c, "", Complete(c), x, d, h);
      assert "" + x == x;
    } else if TurnOf(c, h).conn.longLine {
      LongTurnIsSizeTurn(c, h);
      x, d := "", c;
      LeadsNowhere(c, h);
    } else {
      var c' := TurnOf(c, h).conn;
      TurnLeads(c, c', h);
      var x';
      x', d := FindLongLine(c', h);
      x := Consumed(c, c') + x';
      LeadsOn(c, Consumed(c, c'), c', x', d, h);
    }
  }

  lemma CutBehind(x: string, t: string, i: nat)
    requires i <= |t|
    ensures (x + t)[..|x| + i] == x + t[..i] && (x + t)[|x| + i..] == t[i..]
  {
  }

  lemma LongerPrefix(x: string, t: string, s: string)
    requires t <= s
    ensures x + t <= x + s
  {
    assert (x + s)[..|x + t|] == x + s[..|t|];
  }

  lemma LeadsCut(c: Conn, x: string, d: Conn, h: Handler, t: string, i: nat)
    requires Leads(c, x, d, h) && i <= |t|
    ensures CutTrace(c, h, x + t, |x| + i) == CutTrace(d, h, t, i)
    ensures WholeTrace(c, h, x + t) == WholeTrace(d, h, t)
  {
    CutBehind(x, t, i);
  }

  /** Where an over-long line makes the cut visible: after its first 1025 bytes,
      in the stream up to its end. */
  lemma FindBreak(c: Conn, h: Handler) returns (t: string, i: nat)
    requires c.Conn? && !c.longLine && Settle(c, h).longLine
    ensures t <= c.inbuf && i <= |t| && CutTrace(c, h, t, i) != WholeTrace(c, h, t)
  {
    var x, d := FindLongLine(c, h);
    var e := IndexOf(d.inbuf, CRLF, 0);
    var u, k := d.inbuf[..e + 2], MAX_SIZE_LINE + 1;
    LongLineCut(d, h, e, k);
    LongLineWhole(d, h, e);
    LeadsCut(c, x, d, h, u, k);
    LongerPrefix(x, u, d.inbuf);
    t, i := x + u, |x| + k;
  }

  lemma PrefixShort(stream: string, n: nat, h: Handler)
    requires n <= |stream| && ShortSizeLines(stream, h)
    ensures ShortSizeLines(stream[..n], h)
  {
    var c := Append(INITIAL, stream[..n]);
    AppendAppend(INITIAL, stream[..n], stream[n..]);
    assert stream[..n] + stream[n..] == stream;
    SettleAppend(c, h, stream[n..]);
    if Settle(c, h).longLine {
      LongLineStays(Append(Settle(c, h), stream[n..]), h);
    }
  }

  lemma ConcatTwo(a: string, b: string)
    ensures Concat([a, b]) == a + b
  {
    assert [a, b][1..] == [b];
    assert Concat([b]) == b + Concat([]);
  }

  lemma ShortLinesAgree(s: string, h: Handler)
    requires ShortSizeLines(s, h)
    ensures CutsAgree(s, h)
  {
    forall i: nat | i <= |s|
      ensures FeedAll(INITIAL, h, [s[..i], s[i..]]).trace == OnePass(s, h).trace
    {
      var cuts := [s[..i], s[i..]];
      ConcatTwo(s[..i], s[i..]);
      assert s[..i] + s[i..] == s;
      CutIndependence(h, cuts);
    }
  }

  lemma DisagreesAt(t: string, i: nat, h: Handler)
    requires i <= |t| && CutTrace(INITIAL, h, t, i) != WholeTrace(INITIAL, h, t)
    ensures !CutsAgree(t, h)
  {
    FeedTwo(h, t[..i], t[i..]);
    AppendInitial("", t);
    AppendInitial("", t[..i]);
  }

  /** What was buffered before is of no account. */
  lemma SameTraces(c: Conn, d: Conn, h: Handler, t: string, i: nat)
    requires c.Conn? && d.Conn? && c == d.(inbuf := c.inbuf) && i <= |t|
    ensures CutTrace(c, h, t, i) == CutTrace(d, h, t, i) && WholeTrace(c, h, t) == WholeTrace(d, h, t)
  {
    assert c.(inbuf := t) == d.(inbuf := t) && c.(inbuf := t[..i]) == d.(inbuf := t[..i]);
  }

  lemma AppendInitial(s: string, t: string)
    ensures Append(INITIAL, s).Conn? && Append(INITIAL, s).(inbuf := t) == Append(INITIAL, t)
  {
  }

  lemma LongLineDisagrees(stream: string, h: Handler) returns (n: nat)
    requires !ShortSizeLines(stream, h)
    ensures n <= |stream| && !CutsAgree(stream[..n], h)
  {
    assert "" + stream == stream;
    var t, i := FindBreak(Append(INITIAL, stream), h);
    SameTraces(Append(INITIAL, stream), INITIAL, h, t, i);
    DisagreesAt(t, i, h);
    n := |t|;
    assert t == stream[..n];
  }

  /** Every prefix of a stream is independent of how it is cut if and only if no
      chunk-size line that is read in it is too long. */
  lemma CutIndependenceExactly(stream: string, h: Handler)
    ensures (forall n: nat :: n <= |stream| ==> CutsAgree(stream[..n], h)) <==> !LongInStream(stream, h, true, [])
  {
    ShortLinesExactly(stream, h);
    if ShortSizeLines(stream, h) {
      forall n: nat | n <= |stream|
        ensures CutsAgree(stream[..n], h)
      {
        PrefixShort(stream, n, h);
        ShortLinesAgree(stream[..n], h);
      }
    } else {
      var n := LongLineDisagrees(stream, h);
    }
  }
}

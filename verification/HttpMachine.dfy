/** One HTTP/1.x connection as a state machine: what `processInput` does to the
    buffered bytes, and what a handler does when it answers. */
module HttpMachine {
  import opened Bytes
  import opened Wrappers
  import opened HttpHead

  const HEAD_END: string := "\r\n\r\n"
  const MAX_SIZE_LINE: nat := 1024

  /** What the handler is called with. */
  datatype Request = Request(verb: string, target: string, version: string, rawHead: string, body: string,
                             keepAlive: bool, first: bool)

  /** What the handler will do with a request: the pieces it writes, then whether
      it completes with the connection kept alive. */
  datatype Reply = Reply(pieces: seq<string>, keepAlive: bool)

  datatype Event =
    | Continue              // 100 Continue queued for the head just read
    | Dispatch(request: Request)
    | Wrote(bytes: string)  // response bytes queued by the running handler
    | Done(keepAlive: bool) // responseComplete
    | Reject(status: int)   // sendErrorAndClose

  /** The handler: any function of everything that happened before the request. */
  type Handler = (seq<Event>, Request) -> Reply

  /** The six read states, each with the fields that matter in it. */
  datatype Parse =
    | AtHead
    | InBody(head: Head, body: string, remaining: nat)
    | AtChunkSize(head: Head, body: string)
    | InChunk(head: Head, body: string, remaining: nat)
    | AtChunkCrlf(head: Head, body: string)
    | InTrailers(head: Head, body: string)

  /** `pending` is the rest of the reply of the dispatched and incomplete request
      (`busy_`); `longLine` is a history flag of the specification: a chunk-size
      line of more than 1023 bytes was not answered with 400. After
      `sendErrorAndClose` nothing is ever read again, so only the history is kept. */
  datatype Conn =
    | Conn(inbuf: string, parse: Parse, first: bool, closing: bool, pending: Option<Reply>,
           trace: seq<Event>, longLine: bool)
    | Rejected(trace: seq<Event>, longLine: bool)

  const INITIAL: Conn := Conn("", AtHead, true, false, None, [], false)

  function RejectWith(c: Conn, status: int): Conn {
    Rejected(c.trace + [Reject(status)], c.longLine)
  }

  /** `dispatchCurrent` with the gate open: the handler is called and owes a reply. */
  function Dispatched(c: Conn, h: Handler, head: Head, body: string): Conn
    requires c.Conn?
  {
    var r := Request(head.verb, head.target, head.version, head.rawHead, body, head.keepAlive, c.first);
    c.(parse := AtHead, first := false, pending := Some(h(c.trace, r)), trace := c.trace + [Dispatch(r)])
  }

  /** The value of a hexadecimal digit, or none. */
  function HexDigit(c: char): Option<nat> {
    if '0' <= c <= '9' then Some(c as int - '0' as int)
    else if 'a' <= c <= 'f' then Some(c as int - 'a' as int + 10)
    else if 'A' <= c <= 'F' then Some(c as int - 'A' as int + 10)
    else None
  }

  datatype SizeResult = Size(size: nat) | SizeError(status: int)

  /** The chunk-size fold: digits up to a `;`, at least one, never above the cap. */
  function SizeFrom(line: string, acc: nat, sawDigit: bool): SizeResult {
    if line == "" || line[0] == ';' then
      if sawDigit then Size(acc) else SizeError(400)
    else match HexDigit(line[0])
      case None => SizeError(400)
      case Some(d) =>
        var next := acc * 16 + d;
        if next > MAX_BODY then SizeError(413) else SizeFrom(line[1..], next, true)
  }

  function ChunkSize(line: string): SizeResult { SizeFrom(line, 0, false) }

  function Min(a: nat, b: nat): nat { if a < b then a else b }

  /** The loop of `processInput` stops here. */
  predicate Blocked(c: Conn) { c.Rejected? || c.pending.Some? || c.closing }

  datatype Turn = Turn(conn: Conn, again: bool)

  /** A head has been taken from the buffer and parsed. */
  function HeadRead(c: Conn, h: Handler, result: HeadResult): (t: Turn)
    requires c.Conn?
    ensures c.trace <= t.conn.trace && t.conn.longLine == c.longLine
    ensures t.again ==> t.conn.Conn? && t.conn.inbuf == c.inbuf
  {
    match result
    case Bad(status) => Turn(RejectWith(c, status), false)
    case Good(head) =>
      var c := c.(trace := c.trace + if head.expectContinue then [Continue] else []);
      if head.chunked then Turn(c.(parse := AtChunkSize(head, "")), true)
      else if head.length > 0 then Turn(c.(parse := InBody(head, "", head.length)), true)
      else Turn(Dispatched(c, h, head, ""), true)
  }

  function HeadTurn(c: Conn, h: Handler): (t: Turn)
    requires c.Conn?
    ensures c.trace <= t.conn.trace && t.conn.longLine == c.longLine
    ensures t.again ==> t.conn.Conn? && |t.conn.inbuf| < |c.inbuf|
  {
    var e := IndexOf(c.inbuf, HEAD_END, 0);
    if e < 0 then
      if |c.inbuf| > MAX_HEAD then Turn(RejectWith(c, 431), false) else Turn(c, false)
    else if e + 4 > MAX_HEAD then Turn(RejectWith(c, 431), false)
    else HeadRead(c.(inbuf := c.inbuf[e + 4..]), h, ParseHead(c.inbuf[..e]))
  }

  /** Body bytes moved from the buffer: the body so far, what is left of the
      buffer, and how many bytes are still missing. */
  datatype Taken = Taken(body: string, rest: string, left: nat)

  function Take(body: string, inbuf: string, remaining: nat): Taken {
    var take := Min(remaining, |inbuf|);
    Taken(body + inbuf[..take], inbuf[take..], remaining - take)
  }

  function BodyTurn(c: Conn, h: Handler): (t: Turn)
    requires c.Conn? && c.parse.InBody?
    ensures c.trace <= t.conn.trace && t.conn.longLine == c.longLine
    ensures t.again ==> t.conn.Conn? && |t.conn.inbuf| <= |c.inbuf| && t.conn.parse.AtHead?
  {
    var t := Take(c.parse.body, c.inbuf, c.parse.remaining);
    if |t.body| > MAX_BODY then Turn(RejectWith(c, 413), false)
    else if t.left > 0 then Turn(c.(inbuf := t.rest, parse := InBody(c.parse.head, t.body, t.left)), false)
    else Turn(Dispatched(c.(inbuf := t.rest), h, c.parse.head, t.body), true)
  }

  /** A chunk-size line of `length` bytes has been taken from the buffer and folded. */
  function SizeRead(c: Conn, length: nat, result: SizeResult): (t: Turn)
    requires c.Conn? && c.parse.AtChunkSize?
    ensures c.trace <= t.conn.trace && (c.longLine ==> t.conn.longLine)
    ensures t.again ==> t.conn.Conn? && t.conn.inbuf == c.inbuf
  {
    var c := c.(longLine := c.longLine || (length >= MAX_SIZE_LINE && result != SizeError(400)));
    match result
    case SizeError(status) => Turn(RejectWith(c, status), false)
    case Size(n) =>
      if n == 0 then Turn(c.(parse := InTrailers(c.parse.head, c.parse.body)), true)
      else Turn(c.(parse := InChunk(c.parse.head, c.parse.body, n)), true)
  }

  function SizeTurn(c: Conn): (t: Turn)
    requires c.Conn? && c.parse.AtChunkSize?
    ensures c.trace <= t.conn.trace && (c.longLine ==> t.conn.longLine)
    ensures t.again ==> t.conn.Conn? && |t.conn.inbuf| < |c.inbuf|
  {
    var e := IndexOf(c.inbuf, CRLF, 0);
    if e < 0 then
      if |c.inbuf| > MAX_SIZE_LINE then Turn(RejectWith(c, 400), false) else Turn(c, false)
    else SizeRead(c.(inbuf := c.inbuf[e + 2..]), e, ChunkSize(c.inbuf[..e]))
  }

  function ChunkTurn(c: Conn): (t: Turn)
    requires c.Conn? && c.parse.InChunk?
    ensures c.trace <= t.conn.trace && t.conn.longLine == c.longLine
    ensures t.again ==> t.conn.Conn? && |t.conn.inbuf| <= |c.inbuf| && t.conn.parse.AtChunkCrlf?
                        && t.conn.pending == c.pending
  {
    var t := Take(c.parse.body, c.inbuf, c.parse.remaining);
    if |t.body| > MAX_BODY then Turn(RejectWith(c, 413), false)
    else if t.left > 0 then Turn(c.(inbuf := t.rest, parse := InChunk(c.parse.head, t.body, t.left)), false)
    else Turn(c.(inbuf := t.rest, parse := AtChunkCrlf(c.parse.head, t.body)), true)
  }

  function CrlfTurn(c: Conn): (t: Turn)
    requires c.Conn? && c.parse.AtChunkCrlf?
    ensures c.trace <= t.conn.trace && t.conn.longLine == c.longLine
    ensures t.again ==> t.conn.Conn? && |t.conn.inbuf| < |c.inbuf|
  {
    if |c.inbuf| < 2 then Turn(c, false)
    else if c.inbuf[0] != '\r' || c.inbuf[1] != '\n' then Turn(RejectWith(c, 400), false)
    else Turn(c.(inbuf := c.inbuf[2..], parse := AtChunkSize(c.parse.head, c.parse.body)), true)
  }

  function TrailerTurn(c: Conn, h: Handler): (t: Turn)
    requires c.Conn? && c.parse.InTrailers?
    ensures c.trace <= t.conn.trace && t.conn.longLine == c.longLine
    ensures t.again ==> t.conn.Conn? && |t.conn.inbuf| < |c.inbuf|
  {
    var e := IndexOf(c.inbuf, CRLF, 0);
    if e < 0 then Turn(c, false)
    else
      var d := c.(inbuf := c.inbuf[e + 2..]);
      if e == 0 then Turn(Dispatched(d, h, c.parse.head, c.parse.body), true) else Turn(d, true)
  }

  /** Termination order of the loop: bytes left, then the phase. */
  function Buffered(c: Conn): nat { if c.Rejected? then 0 else |c.inbuf| }

  function Rank(c: Conn): nat {
    if c.Rejected? then 0
    else (if c.parse.InBody? || c.parse.InChunk? then 2 else 0) + (if c.pending.Some? then 1 else 0)
  }

  /** One iteration of the loop in `processInput`; `again` is its `continue`. */
  function TurnOf(c: Conn, h: Handler): (t: Turn)
    requires !Blocked(c)
    ensures c.trace <= t.conn.trace && (c.longLine ==> t.conn.longLine)
    ensures !c.parse.AtChunkSize? ==> t.conn.longLine == c.longLine
    ensures t.again ==> Buffered(t.conn) < Buffered(c) || (Buffered(t.conn) == Buffered(c) && Rank(t.conn) < Rank(c))
  {
    match c.parse
    case AtHead => HeadTurn(c, h)
    case InBody(_, _, _) => BodyTurn(c, h)
    case AtChunkSize(_, _) => SizeTurn(c)
    case InChunk(_, _, _) => ChunkTurn(c)
    case AtChunkCrlf(_, _) => CrlfTurn(c)
    case InTrailers(_, _) => TrailerTurn(c, h)
  }

  /** `processInput`: parse what is buffered until input runs out or the
      connection is busy or closing. */
  function Process(c: Conn, h: Handler): Conn
    decreases Buffered(c), Rank(c)
  {
    if Blocked(c) then c
    else
      var t := TurnOf(c, h);
      if t.again then Process(t.conn, h) else t.conn
  }

  /** Bytes arrive from the socket (`readAvailable`). */
  function Append(c: Conn, bytes: string): Conn {
    if c.Rejected? then c else c.(inbuf := c.inbuf + bytes)
  }

  /** The running handler writes its next piece. */
  function Emit(c: Conn): Conn
    requires c.Conn? && c.pending.Some? && c.pending.value.pieces != []
  {
    var r := c.pending.value;
    c.(pending := Some(r.(pieces := r.pieces[1..])), trace := c.trace + [Wrote(r.pieces[0])])
  }

  function Wrotes(pieces: seq<string>): seq<Event> {
    seq(|pieces|, i requires 0 <= i < |pieces| => Wrote(pieces[i]))
  }

  /** The running handler writes all it still owes and completes (`responseComplete`). */
  function Complete(c: Conn): Conn
    requires c.Conn? && c.pending.Some?
  {
    var r := c.pending.value;
    c.(pending := None, closing := c.closing || !r.keepAlive,
       trace := c.trace + Wrotes(r.pieces) + [Done(r.keepAlive)])
  }

  /** Run to quiescence with every handler completing at once. */
  function Settle(c: Conn, h: Handler): Conn
    decreases Buffered(c), Rank(c)
  {
    if c.Rejected? then c
    else if c.pending.Some? then Settle(Complete(c), h)
    else if c.closing then c
    else
      var t := TurnOf(c, h);
      if t.again then Settle(t.conn, h) else t.conn
  }
}

/** `ClientConnection`: an outbound connection as the history of its events. The
    results of system calls are inputs. */
module ClientConnections {
  import opened Sequences

  type Byte = bv8

  datatype ClientEvent = Connect | Data | Error | Close | Drain | Finish | End

  /** How far the event history of one connection has come. */
  datatype Life = Life(connected: bool, data: nat, ended: bool, finished: bool, failed: bool, closed: bool, bad: bool)

  /** What may come next: nothing after `close`; only `close` after `error`; no second
      `connect`, `end` or `finish`; no data or writing before the connection stands; and
      no `close` without an error unless both sides have ended. */
  predicate May(l: Life, e: ClientEvent) {
    && !l.closed && (l.failed ==> e == Close)
    && match e
       case Connect => !l.connected
       case Data => l.connected
       case Error => true
       case Close => l.failed || (l.ended && l.finished)
       case Drain => l.connected && !l.finished
       case Finish => l.connected && !l.finished
       case End => !l.ended
  }

  function Next(l: Life, e: ClientEvent): Life {
    Life(l.connected || e == Connect, if e == Data then l.data + 1 else l.data, l.ended || e == End,
         l.finished || e == Finish, l.failed || e == Error, l.closed || e == Close, l.bad || !May(l, e))
  }

  /** The state after the first `n` events. */
  function LifeAt(initially: bool, emitted: seq<ClientEvent>, n: nat): Life
    requires n <= |emitted|
  {
    if n == 0 then Life(initially, 0, false, false, false, false, false)
    else Next(LifeAt(initially, emitted, n - 1), emitted[n - 1])
  }

  function LifeOf(initially: bool, emitted: seq<ClientEvent>): Life { LifeAt(initially, emitted, |emitted|) }

  lemma {:induction false} SameStart(initially: bool, emitted: seq<ClientEvent>, more: seq<ClientEvent>, n: nat)
    requires n <= |emitted|
    ensures LifeAt(initially, emitted + more, n) == LifeAt(initially, emitted, n)
  {
    if n > 0 { SameStart(initially, emitted, more, n - 1); }
  }

  lemma Snoc(initially: bool, emitted: seq<ClientEvent>, e: ClientEvent)
    ensures LifeOf(initially, emitted + [e]) == Next(LifeOf(initially, emitted), e)
  {
    SameStart(initially, emitted, [e], |emitted|);
  }

  predicate Lawful(initially: bool, emitted: seq<ClientEvent>) { !LifeOf(initially, emitted).bad }

  predicate Marks(a: Life, b: Life) {
    && (a.connected ==> b.connected) && (a.ended ==> b.ended) && (a.finished ==> b.finished)
    && (a.failed ==> b.failed) && (a.closed ==> b.closed) && (a.bad ==> b.bad)
  }

  /** The marks of a history are never taken back. */
  lemma {:induction false} Grows(initially: bool, emitted: seq<ClientEvent>, n: nat, m: nat)
    requires n <= m <= |emitted|
    ensures Marks(LifeAt(initially, emitted, n), LifeAt(initially, emitted, m))
    decreases m
  {
    if n < m { Grows(initially, emitted, n, m - 1); }
  }

  /** An event of a lawful history was allowed when it came, in a state with the marks
      of every earlier event. */
  lemma Allowed(initially: bool, emitted: seq<ClientEvent>, i: nat, j: nat)
    requires i < j < |emitted| && Lawful(initially, emitted)
    ensures May(LifeAt(initially, emitted, j), emitted[j])
    ensures Marks(Next(LifeAt(initially, emitted, i), emitted[i]), LifeAt(initially, emitted, j))
  {
    Grows(initially, emitted, i + 1, j);
    Grows(initially, emitted, j + 1, |emitted|);
  }

  /** `connect`, `end`, `finish`, `error` and `close` each happen at most once. */
  lemma AtMostOnce(initially: bool, emitted: seq<ClientEvent>, i: nat, j: nat)
    requires i < j < |emitted| && Lawful(initially, emitted) && emitted[i] == emitted[j]
    ensures emitted[i] == Data || emitted[i] == Drain
  {
    Allowed(initially, emitted, i, j);
  }

  /** Nothing follows `close`, and `error` is followed by `close` and nothing else. */
  lemma CloseIsLast(initially: bool, emitted: seq<ClientEvent>, i: nat)
    requires i + 1 < |emitted| && Lawful(initially, emitted)
    ensures emitted[i] != Close && (emitted[i] == Error ==> emitted[i + 1] == Close && i + 2 == |emitted|)
  {
    Allowed(initially, emitted, i, i + 1);
    if emitted[i] == Error && i + 2 < |emitted| { Allowed(initially, emitted, i + 1, i + 2); }
  }

  /** How many of the first `n` events are `e`. */
  function Sum(emitted: seq<ClientEvent>, n: nat, e: ClientEvent): nat
    requires n <= |emitted|
  {
    if n == 0 then 0 else Sum(emitted, n - 1, e) + if emitted[n - 1] == e then 1 else 0
  }

  lemma {:induction false} DataCount(initially: bool, emitted: seq<ClientEvent>, n: nat)
    requires n <= |emitted|
    ensures LifeAt(initially, emitted, n).data == Sum(emitted, n, Data)
  {
    if n > 0 { DataCount(initially, emitted, n - 1); }
  }

  // ---- the system calls -----------------------------------------------------------------

  datatype SendResult = Sent(count: nat) | SendInterrupted | SendBlocked | SendFailed(error: int)
  datatype RecvResult = Got(bytes: seq<Byte>) | RecvInterrupted | RecvBlocked | RecvFailed(error: int)

  const READ_SIZE: nat := 65536
  const EPIPE: int := 32
  const EIO: int := 5

  datatype Readiness = Readiness(readable: bool, writable: bool, error: bool, hangup: bool)

  datatype Syscall = NoCall | ConnectCall | ReadCall | WriteCall

  /** What the program may call on a connection. */
  datatype Call = Write(data: seq<Byte>, sends: seq<SendResult>) | EndWriting | Destroy | NextEvent | ReadChunk

  // ---- one connection as a value ------------------------------------------------------------

  /** The event queue, and every event so far: those drained, then those queued. */
  datatype Trace = Trace(initially: bool, drained: seq<ClientEvent>, events: seq<ClientEvent>, life: Life)

  function Emitted(t: Trace): seq<ClientEvent> { t.drained + t.events }

  function Tell(t: Trace, e: ClientEvent): Trace { t.(events := t.events + [e], life := Next(t.life, e)) }

  function Drained(t: Trace): Trace
    requires t.events != []
  {
    t.(drained := t.drained + [t.events[0]], events := t.events[1..])
  }

  predicate Told(t: Trace) { t.life == LifeOf(t.initially, Emitted(t)) && !t.life.bad }

  lemma TellKeeps(t: Trace, e: ClientEvent)
    requires Told(t) && May(t.life, e)
    ensures Told(Tell(t, e)) && Emitted(Tell(t, e)) == Emitted(t) + [e]
  {
    Snoc(t.initially, Emitted(t), e);
    assert Emitted(Tell(t, e)) == Emitted(t) + [e];
  }

  lemma DrainKeeps(t: Trace)
    requires Told(t) && t.events != []
    ensures Told(Drained(t)) && Emitted(Drained(t)) == Emitted(t)
  {
    assert Emitted(Drained(t)) == Emitted(t);
  }

  datatype Conn = Conn(
    connecting: bool, connected: bool, closing: bool, endRequested: bool, finishEmitted: bool, peerEnded: bool,
    trace: Trace,
    pulled: seq<seq<Byte>>, chunks: seq<seq<Byte>>,      // chunks taken by the program, and waiting
    flushed: seq<Byte>, outBuffer: seq<Byte>, outSent: nat,  // bytes gone, and the buffer with its sent part
    shut: bool,                                          // the write side has been shut down
    errorNumber: int, errorSyscall: Syscall,
    loopClosed: bool)                                    // the loop has been asked to drop the watcher

  function Received(c: Conn): seq<seq<Byte>> { c.pulled + c.chunks }

  function Accepted(c: Conn): seq<Byte> { c.flushed + c.outBuffer }

  function SentBytes(c: Conn): seq<Byte>
    requires c.outSent <= |c.outBuffer|
  {
    c.flushed + c.outBuffer[..c.outSent]
  }

  function Unsent(c: Conn): seq<Byte>
    requires c.outSent <= |c.outBuffer|
  {
    c.outBuffer[c.outSent..]
  }

  /** The flags against the events. */
  predicate Flagged(c: Conn) {
    var l := c.trace.life;
    && l.connected == c.connected && l.ended == c.peerEnded && l.finished == c.finishEmitted
    && (l.failed ==> l.closed) && (l.closed ==> c.closing) && (c.closing ==> l.closed || c.loopClosed)
    && (c.loopClosed ==> c.closing) && (c.connecting ==> !c.connected)
  }

  /** One data event a chunk; the write side is shut down only when everything accepted
      has been sent and no more will be accepted. */
  predicate Sound(c: Conn) {
    && Told(c.trace) && Flagged(c) && c.trace.life.data == |c.pulled| + |c.chunks|
    && c.outSent <= |c.outBuffer| && (c.outSent == |c.outBuffer| ==> c.outBuffer == [])
    && c.shut == c.finishEmitted && (c.finishEmitted ==> c.endRequested && c.connected && c.outBuffer == [])
  }

  /** Closed for the program, yet the loop was never asked to drop the watcher. */
  predicate Stranded(c: Conn) { c.closing && !c.loopClosed }

  /** Sent bytes followed by the unsent ones are the accepted ones, and after the write
      side is shut down nothing is left unsent. */
  lemma SentThenUnsent(c: Conn)
    requires Sound(c)
    ensures SentBytes(c) + Unsent(c) == Accepted(c) && (c.shut ==> SentBytes(c) == Accepted(c))
  {
  }

  /** Whatever the program has drained and pulled: when it pulls one chunk a data event,
      every data event it still has to see has its chunk. */
  lemma ChunkWaiting(c: Conn)
    requires Sound(c) && |c.pulled| == Sum(c.trace.drained, |c.trace.drained|, Data)
    ensures |c.chunks| == Sum(c.trace.events, |c.trace.events|, Data)
  {
    DataCount(c.trace.initially, Emitted(c.trace), |Emitted(c.trace)|);
    SumConcat(c.trace.drained, c.trace.events, |c.trace.events|, Data);
  }

  lemma {:induction false} SumConcat(a: seq<ClientEvent>, b: seq<ClientEvent>, n: nat, e: ClientEvent)
    requires n <= |b|
    ensures Sum(a + b, |a| + n, e) == Sum(a, |a|, e) + Sum(b, n, e)
  {
    if n > 0 { SumConcat(a, b, n - 1, e); } else { SumPrefix(a, b, |a|, e); }
  }

  lemma {:induction false} SumPrefix(a: seq<ClientEvent>, b: seq<ClientEvent>, n: nat, e: ClientEvent)
    requires n <= |a|
    ensures Sum(a + b, n, e) == Sum(a, n, e)
  {
    if n > 0 { SumPrefix(a, b, n - 1, e); }
  }

  // ---- the steps --------------------------------------------------------------------------

  /** `finishWriteSideIfReady` */
  function FinishedIfReady(c: Conn): Conn {
    if !c.connected || !c.endRequested || c.finishEmitted || c.outSent < |c.outBuffer| then c else
    var d := c.(shut := true, finishEmitted := true, trace := Tell(c.trace, Finish));
    if c.peerEnded then d.(trace := Tell(d.trace, Close), closing := true) else d
  }

  lemma FinishKeeps(c: Conn)
    requires Sound(c) && !c.closing
    ensures Sound(FinishedIfReady(c))
  {
    if c.connected && c.endRequested && !c.finishEmitted && c.outSent == |c.outBuffer| {
      TellKeeps(c.trace, Finish);
      if c.peerEnded { TellKeeps(Tell(c.trace, Finish), Close); }
    }
  }

  /** `fail`: the error, then the close. */
  function Failed(c: Conn, error: int, call: Syscall): Conn {
    if c.closing then c else
    c.(trace := Tell(Tell(c.trace, Error), Close), closing := true, errorNumber := error, errorSyscall := call)
  }

  lemma FailKeeps(c: Conn, error: int, call: Syscall)
    requires Sound(c)
    ensures Sound(Failed(c, error, call)) && Failed(c, error, call).closing
  {
    if !c.closing {
      TellKeeps(c.trace, Error);
      TellKeeps(Tell(c.trace, Error), Close);
    }
  }

  /** `closeFromPeer` */
  function PeerClosed(c: Conn): Conn {
    if c.closing || c.peerEnded then c else
    var d := c.(peerEnded := true, trace := Tell(c.trace, End));
    if c.finishEmitted then d.(trace := Tell(d.trace, Close), closing := true) else d
  }

  lemma PeerKeeps(c: Conn)
    requires Sound(c)
    ensures Sound(PeerClosed(c))
  {
    if !c.closing && !c.peerEnded {
      TellKeeps(c.trace, End);
      if c.finishEmitted { TellKeeps(Tell(c.trace, End), Close); }
    }
  }

  /** `completeConnect` */
  function ConnectDone(c: Conn, error: int): Conn {
    var d := c.(connecting := false);
    if error != 0 then Failed(d, error, ConnectCall)
      else FinishedIfReady(d.(connected := true, trace := Tell(d.trace, Connect)))
  }

  lemma ConnectKeeps(c: Conn, error: int)
    requires Sound(c) && c.connecting && !c.closing
    ensures Sound(ConnectDone(c, error))
  {
    var d := c.(connecting := false);
    if error != 0 {
      FailKeeps(d, error, ConnectCall);
    } else {
      TellKeeps(d.trace, Connect);
      FinishKeeps(d.(connected := true, trace := Tell(d.trace, Connect)));
    }
  }

  datatype Outcome = AllSent | Blocked | Broken(error: int)

  /** What a run of send calls does with `left` bytes: how many go, and how it ends. */
  function SendRun(left: nat, sends: seq<SendResult>): (r: (nat, Outcome))
    ensures r.0 <= left && (r.1 == AllSent <==> r.0 == left)
  {
    if left == 0 then (0, AllSent) else
    if sends == [] then (0, Blocked) else
    match sends[0]
    case SendInterrupted => SendRun(left, sends[1..])
    case SendBlocked => (0, Blocked)
    case SendFailed(error) => (0, Broken(error))
    case Sent(count) =>
      if count == 0 then (0, Broken(EPIPE)) else
      var n := if count < left then count else left;
      var (more, outcome) := SendRun(left - n, sends[1..]);
      (n + more, outcome)
  }

  /** The buffer empty: the drain event if it held anything, and the write side's end
      if that was waiting for it. */
  function AllFlushed(c: Conn): Conn {
    var d := if c.outBuffer != [] then c.(trace := Tell(c.trace, Drain)) else c;
    FinishedIfReady(d.(flushed := c.flushed + c.outBuffer, outBuffer := [], outSent := 0))
  }

  function SentBy(c: Conn, n: nat): Conn { c.(outSent := c.outSent + n) }

  /** `flushWrites` */
  function Flushed(c: Conn, sends: seq<SendResult>): Conn
    requires c.outSent <= |c.outBuffer|
  {
    var r := SendRun(|c.outBuffer| - c.outSent, sends);
    FlushedTo(SentBy(c, r.0), r.1)
  }

  function FlushedTo(c: Conn, outcome: Outcome): Conn {
    match outcome
    case AllSent => AllFlushed(c)
    case Blocked => c
    case Broken(error) => Failed(c, error, WriteCall)
  }

  lemma FlushIs(c: Conn, sends: seq<SendResult>, n: nat, outcome: Outcome)
    requires c.outSent <= |c.outBuffer| && (n, outcome) == SendRun(|c.outBuffer| - c.outSent, sends)
    ensures Flushed(c, sends) == FlushedTo(SentBy(c, n), outcome)
  {
  }

  lemma FlushKeeps(c: Conn, sends: seq<SendResult>)
    requires Sound(c) && c.connected && !c.closing
    ensures Sound(Flushed(c, sends))
  {
    var (n, outcome) := SendRun(|c.outBuffer| - c.outSent, sends);
    var d := c.(outSent := c.outSent + n);
    match outcome {
      case AllSent =>
        if c.outBuffer != [] { TellKeeps(c.trace, Drain); }
        var e := if c.outBuffer != [] then d.(trace := Tell(d.trace, Drain)) else d;
        FinishKeeps(e.(flushed := c.flushed + c.outBuffer, outBuffer := [], outSent := 0));
      case Blocked =>
      case Broken(error) => FailKeeps(d, error, WriteCall);
    }
  }

  datatype ReadOutcome = NoMore | PeerEnd | ReadBroken(error: int)

  /** What a run of receive calls brings, and how it ends: a short read ends it. */
  function ReadRun(recvs: seq<RecvResult>): (seq<seq<Byte>>, ReadOutcome) {
    if recvs == [] then ([], NoMore) else
    match recvs[0]
    case RecvInterrupted => ReadRun(recvs[1..])
    case RecvBlocked => ([], NoMore)
    case RecvFailed(error) => ([], ReadBroken(error))
    case Got(bytes) =>
      if bytes == [] then ([], PeerEnd) else
      if |bytes| < READ_SIZE then ([bytes], NoMore) else
      var (more, outcome) := ReadRun(recvs[1..]);
      ([bytes] + more, outcome)
  }

  /** Chunks read, each with its data event. */
  function WithChunks(c: Conn, read: seq<seq<Byte>>): Conn
    decreases |read|
  {
    if read == [] then c else
    WithChunks(c.(trace := Tell(c.trace, Data), chunks := c.chunks + [read[0]]), read[1..])
  }

  lemma {:induction false} ChunksKeep(c: Conn, read: seq<seq<Byte>>)
    requires Sound(c) && c.connected && !c.closing
    ensures var d := WithChunks(c, read);
      Sound(d) && Received(d) == Received(c) + read && d.closing == c.closing
    decreases |read|
  {
    if read != [] {
      TellKeeps(c.trace, Data);
      var e := c.(trace := Tell(c.trace, Data), chunks := c.chunks + [read[0]]);
      ChunksKeep(e, read[1..]);
      assert Received(e) + read[1..] == Received(c) + read;
    } else {
      assert Received(c) + read == Received(c);
    }
  }

  /** `readAvailable` */
  function ReadIn(c: Conn, recvs: seq<RecvResult>): Conn {
    var (read, outcome) := ReadRun(recvs);
    var d := WithChunks(c, read);
    match outcome
    case NoMore => d
    case PeerEnd => PeerClosed(d)
    case ReadBroken(error) => Failed(d, error, ReadCall)
  }

  lemma ReadKeeps(c: Conn, recvs: seq<RecvResult>)
    requires Sound(c) && c.connected && !c.closing
    ensures Sound(ReadIn(c, recvs)) && Received(ReadIn(c, recvs)) == Received(c) + ReadRun(recvs).0
  {
    var (read, outcome) := ReadRun(recvs);
    ChunksKeep(c, read);
    PeerKeeps(WithChunks(c, read));
    if outcome.ReadBroken? { FailKeeps(WithChunks(c, read), outcome.error, ReadCall); }
  }

  // ---- what the kernel's answers come to -----------------------------------------------------

  /** The loop of `readAvailable` goes on after this answer. */
  predicate ReadsOn(r: RecvResult) { r.RecvInterrupted? || (r.Got? && |r.bytes| >= READ_SIZE) }

  /** The answer the receive loop stops at. */
  predicate ReadStop(recvs: seq<RecvResult>, k: nat) {
    k <= |recvs| && (k < |recvs| ==> !ReadsOn(recvs[k])) && forall i :: 0 <= i < k ==> ReadsOn(recvs[i])
  }

  /** The bytes of some answers, one chunk each, in order. */
  function ChunksOf(recvs: seq<RecvResult>): seq<seq<Byte>> {
    if recvs == [] then [] else
    (if recvs[0].Got? && recvs[0].bytes != [] then [recvs[0].bytes] else []) + ChunksOf(recvs[1..])
  }

  /** The chunks are those of the answers up to the one that stops the loop; the peer has
      ended exactly when that one is empty, and reading has failed exactly when it says so. */
  lemma {:induction false} ReadRunIs(recvs: seq<RecvResult>, k: nat)
    requires ReadStop(recvs, k)
    ensures ReadRun(recvs).0 == ChunksOf(recvs[..if k < |recvs| then k + 1 else k])
    ensures ReadRun(recvs).1 == if k == |recvs| then NoMore
      else if recvs[k] == Got([]) then PeerEnd
      else if recvs[k].RecvFailed? then ReadBroken(recvs[k].error)
      else NoMore
  {
    var upTo := if k < |recvs| then k + 1 else k;
    if recvs != [] {
      assert recvs[..upTo][1..] == recvs[1..][..upTo - 1] && recvs[..upTo][0] == recvs[0];
      if k > 0 { ReadRunIs(recvs[1..], k - 1); } else { assert recvs[1..][..0] == []; }
    }
  }

  /** A step adds these events. */
  predicate Adds(c: Conn, d: Conn, more: seq<ClientEvent>) { Emitted(d.trace) == Emitted(c.trace) + more }

  lemma AddsMore(c: Conn, m: Conn, d: Conn, some: seq<ClientEvent>, more: seq<ClientEvent>)
    requires Adds(c, m, some) && Adds(m, d, more)
    ensures Adds(c, d, some + more)
  {
    Associates(Emitted(c.trace), some, more);
  }

  lemma AddsNone(c: Conn, d: Conn)
    requires d.trace == c.trace
    ensures Adds(c, d, [])
  {
    assert Emitted(c.trace) + [] == Emitted(c.trace);
  }

  lemma AddsOne(c: Conn, d: Conn, e: ClientEvent)
    requires d.trace == Tell(c.trace, e)
    ensures Adds(c, d, [e])
  {
  }

  lemma AddsTwo(c: Conn, d: Conn, e: ClientEvent, f: ClientEvent)
    requires d.trace == Tell(Tell(c.trace, e), f)
    ensures Adds(c, d, [e, f])
  {
    assert [e] + [f] == [e, f];
    AddsOne(c, c.(trace := Tell(c.trace, e)), e);
    AddsOne(c.(trace := Tell(c.trace, e)), d, f);
    AddsMore(c, c.(trace := Tell(c.trace, e)), d, [e], [f]);
  }

  function EndEvents(c: Conn): seq<ClientEvent> {
    if c.closing || c.peerEnded then [] else if c.finishEmitted then [End, Close] else [End]
  }

  lemma PeerAdds(c: Conn)
    ensures Adds(c, PeerClosed(c), EndEvents(c))
  {
    if c.closing || c.peerEnded { AddsNone(c, c); }
    else if c.finishEmitted { AddsTwo(c, PeerClosed(c), End, Close); }
    else { AddsOne(c, PeerClosed(c), End); }
  }

  lemma FailAdds(c: Conn, error: int, call: Syscall)
    requires !c.closing
    ensures Adds(c, Failed(c, error, call), [Error, Close])
  {
    AddsTwo(c, Failed(c, error, call), Error, Close);
  }

  function FinishEvents(c: Conn): seq<ClientEvent> {
    if !c.connected || !c.endRequested || c.finishEmitted || c.outSent < |c.outBuffer| then []
    else if c.peerEnded then [Finish, Close]
    else [Finish]
  }

  lemma FinishAdds(c: Conn)
    ensures Adds(c, FinishedIfReady(c), FinishEvents(c))
  {
    if FinishEvents(c) == [] { AddsNone(c, c); }
    else if c.peerEnded { AddsTwo(c, FinishedIfReady(c), Finish, Close); }
    else { AddsOne(c, FinishedIfReady(c), Finish); }
  }

  function DataEvents(n: nat): (es: seq<ClientEvent>)
    ensures |es| == n && forall e :: e in es ==> e == Data
  {
    seq(n, i => Data)
  }

  lemma {:induction false} ChunksAdd(c: Conn, read: seq<seq<Byte>>)
    ensures var d := WithChunks(c, read);
      d == c.(trace := d.trace, chunks := d.chunks) && Adds(c, d, DataEvents(|read|))
    decreases |read|
  {
    if read == [] {
      AddsNone(c, c);
    } else {
      var e := c.(trace := Tell(c.trace, Data), chunks := c.chunks + [read[0]]);
      ChunksAdd(e, read[1..]);
      AddsOne(c, e, Data);
      AddsMore(c, e, WithChunks(e, read[1..]), [Data], DataEvents(|read| - 1));
      assert [Data] + DataEvents(|read| - 1) == DataEvents(|read|);
    }
  }

  /** What the peer's end, a failure, or the end of the write side tells. */
  function Ending(c: Conn, outcome: ReadOutcome): seq<ClientEvent> {
    match outcome case NoMore => [] case PeerEnd => EndEvents(c) case ReadBroken(_) => [Error, Close]
  }

  lemma EndingAdds(m: Conn, d: Conn, outcome: ReadOutcome)
    requires !m.closing
    requires d == match outcome
      case NoMore => m case PeerEnd => PeerClosed(m) case ReadBroken(error) => Failed(m, error, ReadCall)
    ensures Adds(m, d, Ending(m, outcome))
    ensures outcome.ReadBroken? ==> d.errorNumber == outcome.error && d.errorSyscall == ReadCall && d.closing
  {
    match outcome {
      case NoMore => AddsNone(m, m);
      case PeerEnd => PeerAdds(m);
      case ReadBroken(error) => FailAdds(m, error, ReadCall);
    }
  }

  lemma ReadAdds(c: Conn, recvs: seq<RecvResult>)
    requires !c.closing
    ensures var d, r := ReadIn(c, recvs), ReadRun(recvs);
      && Adds(c, d, DataEvents(|r.0|) + Ending(c, r.1))
      && (r.1.ReadBroken? ==> d.errorNumber == r.1.error && d.errorSyscall == ReadCall && d.closing)
  {
    var (read, outcome) := ReadRun(recvs);
    var m, d := WithChunks(c, read), ReadIn(c, recvs);
    ChunksAdd(c, read);
    EndingAdds(m, d, outcome);
    AddsMore(c, m, d, DataEvents(|read|), Ending(m, outcome));
  }

  /** What reading tells, in this order: a data event for each chunk; then, when a receive
      brings no bytes, the end, once, with the close if this side has ended; or, when one
      fails, the error, which has its number, and the close. */
  lemma ReadTells(c: Conn, recvs: seq<RecvResult>, k: nat)
    requires !c.closing && ReadStop(recvs, k)
    ensures var d, chunks := ReadIn(c, recvs), ChunksOf(recvs[..if k < |recvs| then k + 1 else k]);
      && Adds(c, d, DataEvents(|chunks|) + ToldAt(c, recvs, k))
      && (k < |recvs| && recvs[k].RecvFailed? ==>
            d.errorNumber == recvs[k].error && d.errorSyscall == ReadCall && d.closing)
  {
    ReadRunIs(recvs, k);
    ReadAdds(c, recvs);
  }

  /** What the answer that stops the receive loop tells. */
  function ToldAt(c: Conn, recvs: seq<RecvResult>, k: nat): seq<ClientEvent> {
    if k >= |recvs| then []
    else if recvs[k].RecvFailed? then [Error, Close]
    else if recvs[k] == Got([]) && !c.peerEnded then (if c.finishEmitted then [End, Close] else [End])
    else []
  }

  /** The loop of `flushWrites` goes on after this answer. */
  predicate SendsOn(r: SendResult) { r.SendInterrupted? || (r.Sent? && r.count > 0) }

  predicate SendStop(sends: seq<SendResult>, k: nat) {
    k <= |sends| && (k < |sends| ==> !SendsOn(sends[k])) && forall i :: 0 <= i < k ==> SendsOn(sends[i])
  }

  function Total(sends: seq<SendResult>): nat {
    if sends == [] then 0 else (if sends[0].Sent? then sends[0].count else 0) + Total(sends[1..])
  }

  function SendEnd(left: nat, sends: seq<SendResult>, k: nat, total: nat): (nat, Outcome) {
    if left <= total then (left, AllSent)
    else (total, if k >= |sends| then Blocked
                 else match sends[k] case SendFailed(error) => Broken(error) case Sent(_) => Broken(EPIPE)
                      case _ => Blocked)
  }

  /** The bytes that go are those the answers before the stop took, as far as there are
      any; sending fails exactly when it stops short at a failure, or at an empty send. */
  lemma {:induction false} SendRunIs(left: nat, sends: seq<SendResult>, k: nat)
    requires SendStop(sends, k)
    ensures SendRun(left, sends) == SendEnd(left, sends, k, Total(sends[..k]))
    decreases |sends|
  {
    if left > 0 && k > 0 {
      assert sends[..k][1..] == sends[1..][..k - 1];
      var n := if sends[0].Sent? then (if sends[0].count < left then sends[0].count else left) else 0;
      SendRunIs(left - n, sends[1..], k - 1);
    } else if left > 0 {
      assert sends[..k] == [];
    }
  }

  /** What flushing tells: nothing while bytes are left; once everything accepted has gone
      the drain, if there was anything, and the end of the write side if that waited for
      it; and the error, which has its number, and the close when a send fails. */
  lemma FlushTells(c: Conn, sends: seq<SendResult>, k: nat)
    requires c.connected && !c.closing && c.outSent <= |c.outBuffer| && SendStop(sends, k)
    ensures var d := Flushed(c, sends);
      if |c.outBuffer| - c.outSent <= Total(sends[..k]) then
        Adds(c, d, (if c.outBuffer != [] then [Drain] else []) + WhenDone(c)) && d.outBuffer == []
      else if k < |sends| && !sends[k].SendBlocked? then
        Adds(c, d, [Error, Close]) && d.errorSyscall == WriteCall && d.closing
        && d.errorNumber == if sends[k].SendFailed? then sends[k].error else EPIPE
      else Adds(c, d, []) && d == c.(outSent := c.outSent + Total(sends[..k]))
  {
    var left, total := |c.outBuffer| - c.outSent, Total(sends[..k]);
    SendRunIs(left, sends, k);
    var (n, outcome) := SendEnd(left, sends, k, total);
    FlushIs(c, sends, n, outcome);
    FlushedToTells(c, n, outcome);
  }

  lemma FlushedToTells(c: Conn, n: nat, outcome: Outcome)
    requires c.connected && !c.closing
    ensures var d := FlushedTo(SentBy(c, n), outcome);
      match outcome
      case AllSent => Adds(c, d, (if c.outBuffer != [] then [Drain] else []) + WhenDone(c)) && d.outBuffer == []
      case Blocked => Adds(c, d, []) && d == SentBy(c, n)
      case Broken(error) =>
        Adds(c, d, [Error, Close]) && d.errorSyscall == WriteCall && d.closing && d.errorNumber == error
  {
    match outcome {
      case AllSent => AllFlushedAdds(c, SentBy(c, n));
      case Blocked => AddsNone(c, SentBy(c, n));
      case Broken(error) => FailAdds(SentBy(c, n), error, WriteCall);
    }
  }

  /** What the end of the write side tells, with nothing left to send. */
  function WhenDone(c: Conn): seq<ClientEvent> {
    if !c.endRequested || c.finishEmitted then [] else if c.peerEnded then [Finish, Close] else [Finish]
  }

  lemma AllFlushedAdds(c: Conn, d: Conn)
    requires d == c.(outSent := d.outSent) && c.connected
    ensures Adds(c, AllFlushed(d), (if c.outBuffer != [] then [Drain] else []) + WhenDone(c))
    ensures AllFlushed(d).outBuffer == []
  {
    var drained := if c.outBuffer != [] then [Drain] else [];
    var e := if d.outBuffer != [] then d.(trace := Tell(d.trace, Drain)) else d;
    if d.outBuffer != [] { AddsOne(c, e, Drain); } else { AddsNone(c, e); }
    var m := e.(flushed := d.flushed + d.outBuffer, outBuffer := [], outSent := 0);
    FinishAdds(m);
    AddsMore(c, m, AllFlushed(d), drained, FinishEvents(m));
  }

  /** What the end of connecting tells: the connect, and the end of the write side if that
      waited for it; or the error, which has its number, and the close. */
  lemma ConnectTells(c: Conn, error: int)
    requires c.connecting && !c.connected && !c.closing
    ensures var d := ConnectDone(c, error);
      if error == 0 then
        d.connected && Adds(c, d, [Connect] + if c.outSent < |c.outBuffer| then [] else WhenDone(c))
      else
        Adds(c, d, [Error, Close]) && d.errorNumber == error && d.errorSyscall == ConnectCall && d.closing
        && !d.connected
  {
    var d := c.(connecting := false);
    if error != 0 {
      FailAdds(d, error, ConnectCall);
    } else {
      var e := d.(connected := true, trace := Tell(d.trace, Connect));
      AddsOne(c, e, Connect);
      FinishAdds(e);
      AddsMore(c, e, ConnectDone(c, error), [Connect], FinishEvents(e));
    }
  }

  /** Results of the system calls a readiness step makes: SO_ERROR while connecting,
      the sends, the receives, and SO_ERROR again. */
  datatype Io = Io(connectError: int, sends: seq<SendResult>, recvs: seq<RecvResult>, lastError: int)

  function Written(c: Conn, r: Readiness, io: Io): Conn
    requires c.outSent <= |c.outBuffer|
  {
    if !c.closing && c.connected && r.writable then Flushed(c, io.sends) else c
  }

  function Arrived(c: Conn, r: Readiness, io: Io): Conn {
    if !c.closing && c.connected && r.readable then ReadIn(c, io.recvs) else c
  }

  function Ended(c: Conn, r: Readiness, io: Io): Conn {
    if !c.closing && r.error then Failed(c, if io.lastError == 0 then EIO else io.lastError, ReadCall)
    else if !c.closing && r.hangup then PeerClosed(c)
    else c
  }

  function Connecting(c: Conn, initialError: int, io: Io): Conn {
    if c.connecting then ConnectDone(c, if initialError == 0 then io.connectError else initialError) else c
  }

  /** `onReady` up to the delivery of events. */
  function Readied(c: Conn, initialError: int, r: Readiness, io: Io): (d: Conn)
    requires Sound(c)
    ensures Sound(d)
  {
    if c.closing then c else
    ReadyKeeps(c, initialError, r, io);
    Ended(Arrived(Written(Connecting(c, initialError, io), r, io), r, io), r, io)
  }

  lemma ReadyKeeps(c: Conn, initialError: int, r: Readiness, io: Io)
    requires Sound(c) && !c.closing
    ensures Sound(Connecting(c, initialError, io)) && Sound(Written(Connecting(c, initialError, io), r, io))
    ensures Sound(Ended(Arrived(Written(Connecting(c, initialError, io), r, io), r, io), r, io))
  {
    if c.connecting { ConnectKeeps(c, if initialError == 0 then io.connectError else initialError); }
    var c1 := Connecting(c, initialError, io);
    if !c1.closing && c1.connected { FlushKeeps(c1, io.sends); }
    var c2 := Written(c1, r, io);
    if !c2.closing && c2.connected { ReadKeeps(c2, io.recvs); }
    var c3 := Arrived(c2, r, io);
    FailKeeps(c3, if io.lastError == 0 then EIO else io.lastError, ReadCall);
    PeerKeeps(c3);
  }

  /** What the end of a readiness step tells: an error condition comes before a hangup, and
      has the number the socket gives, or EIO. */
  lemma EndedTells(c: Conn, r: Readiness, io: Io)
    requires !c.closing
    ensures var d := Ended(c, r, io);
      if r.error then
        Adds(c, d, [Error, Close]) && d.closing && d.errorSyscall == ReadCall
        && d.errorNumber != 0 && (d.errorNumber == io.lastError || (io.lastError == 0 && d.errorNumber == EIO))
      else
        Adds(c, d, if r.hangup && !c.peerEnded then (if c.finishEmitted then [End, Close] else [End]) else [])
        && d.peerEnded == (c.peerEnded || r.hangup)
  {
    if r.error {
      FailAdds(c, if io.lastError == 0 then EIO else io.lastError, ReadCall);
    } else if r.hangup {
      PeerAdds(c);
    } else {
      AddsNone(c, c);
    }
  }

  function LoopClosed(c: Conn): Conn { c.(loopClosed := true) }

  /** What is written is sent; a failure of that asks the loop to close. */
  function SentOut(c: Conn, sends: seq<SendResult>): Conn
    requires c.outSent <= |c.outBuffer|
  {
    var e := Flushed(c, sends);
    if e.closing then LoopClosed(e) else e
  }

  /** A call of the program. */
  function Done(c: Conn, call: Call): Conn
    requires c.outSent <= |c.outBuffer|
  {
    match call
    case Write(data, sends) =>
      if c.closing || c.endRequested then c else
      var d := c.(outBuffer := c.outBuffer + data);
      if d.connected then SentOut(d, sends) else d
    case EndWriting =>
      if c.closing || c.endRequested then c else FinishedIfReady(c.(endRequested := true))
    case Destroy =>
      if c.closing then c else LoopClosed(c.(closing := true))
    case NextEvent =>
      if c.trace.events == [] then c else c.(trace := Drained(c.trace))
    case ReadChunk =>
      if c.chunks == [] then c else c.(pulled := c.pulled + [c.chunks[0]], chunks := c.chunks[1..])
  }

  lemma DoneKeeps(c: Conn, call: Call)
    requires Sound(c)
    ensures Sound(Done(c, call)) && (c.closing ==> Done(c, call).closing && Done(c, call).loopClosed == c.loopClosed)
  {
    match call {
      case Write(data, sends) =>
        if !c.closing && !c.endRequested && c.connected { FlushKeeps(c.(outBuffer := c.outBuffer + data), sends); }
      case EndWriting =>
        if !c.closing && !c.endRequested { FinishKeeps(c.(endRequested := true)); }
      case Destroy =>
      case NextEvent => if c.trace.events != [] { DrainKeeps(c.trace); }
      case ReadChunk =>
    }
  }

  function DoneAll(c: Conn, calls: seq<Call>): (d: Conn)
    requires Sound(c)
    ensures Sound(d) && (c.closing ==> d.closing && d.loopClosed == c.loopClosed)
    decreases |calls|
  {
    if calls == [] then c else DoneKeeps(c, calls[0]); DoneAll(Done(c, calls[0]), calls[1..])
  }

  /** `onReady`: the program is told if there are events, and may call back; then a
      closing connection leaves the loop. */
  function Handled(c: Conn, initialError: int, r: Readiness, io: Io, calls: seq<Call>): Conn
    requires Sound(c)
  {
    if c.closing then c else
    ReadyKeeps(c, initialError, r, io);
    var d := Readied(c, initialError, r, io);
    var e := if d.trace.events != [] then DoneAll(d, calls) else d;
    if e.closing then LoopClosed(e) else e
  }

  // ---- every run ----------------------------------------------------------------------------

  datatype Step = Ready(r: Readiness, io: Io, calls: seq<Call>) | Do(call: Call)

  function After(c: Conn, initialError: int, step: Step): (d: Conn)
    requires Sound(c)
    ensures Sound(d)
  {
    match step
    case Ready(r, io, calls) =>
      if !c.closing then ReadyKeeps(c, initialError, r, io); Handled(c, initialError, r, io, calls)
      else c
    case Do(call) => DoneKeeps(c, call); Done(c, call)
  }

  function Run(c: Conn, initialError: int, steps: seq<Step>): (d: Conn)
    requires Sound(c)
    ensures Sound(d)
    decreases |steps|
  {
    if steps == [] then c else Run(After(c, initialError, steps[0]), initialError, steps[1..])
  }

  function Fresh(initially: bool): (c: Conn)
    ensures Sound(c)
  {
    Conn(!initially, initially, false, false, false, false,
         Trace(initially, [], [], Life(initially, 0, false, false, false, false, false)),
         [], [], [], [], 0, false, 0, NoCall, false)
  }

  predicate StrandedBy(c: Conn, step: Step) {
    step == Do(EndWriting) && !c.closing && !c.endRequested && c.connected && c.peerEnded && c.outBuffer == []
  }

  /** A step strands a connection exactly when the program ends its write side, outside
      any delivery of events, after the peer has ended and with nothing left to send;
      and a stranded connection stays so. */
  lemma WhenStranded(c: Conn, initialError: int, step: Step)
    requires Sound(c)
    ensures Stranded(After(c, initialError, step)) <==> (Stranded(c) || StrandedBy(c, step))
  {
    match step
    case Ready(r, io, calls) =>
    case Do(call) =>
      DoneKeeps(c, call);
      if call.Write? && !c.closing && !c.endRequested && c.connected {
        NoEndNoClose(c.(outBuffer := c.outBuffer + call.data), call.sends);
      }
  }

  /** Flushing closes a connection only by an error, unless its end was requested. */
  lemma NoEndNoClose(c: Conn, sends: seq<SendResult>)
    requires c.outSent <= |c.outBuffer| && !c.closing && !c.endRequested
    ensures Flushed(c, sends).closing <==> SendRun(|c.outBuffer| - c.outSent, sends).1.Broken?
  {
  }

  /** A connection that hears its peer end and then ends its own side is stranded. */
  lemma StrandedInTwoSteps()
    ensures Stranded(Run(Fresh(true), 0,
      [Ready(Readiness(false, false, false, true), Io(0, [], [], 0), []), Do(EndWriting)]))
  {
    var hangup := Ready(Readiness(false, false, false, true), Io(0, [], [], 0), []);
    var steps := [hangup, Do(EndWriting)];
    var c := After(Fresh(true), 0, hangup);
    assert c == PeerClosed(Fresh(true));
    assert steps[1..] == [Do(EndWriting)] && steps[1..][1..] == [];
    assert Run(Fresh(true), 0, steps) == Run(c, 0, steps[1..]) == After(c, 0, Do(EndWriting));
    WhenStranded(c, 0, Do(EndWriting));
  }

  // ---- the histories only grow ----------------------------------------------------------------

  predicate Later(c: Conn, d: Conn)
    requires c.outSent <= |c.outBuffer| && d.outSent <= |d.outBuffer|
  {
    && Emitted(c.trace) <= Emitted(d.trace) && Received(c) <= Received(d)
    && SentBytes(c) <= SentBytes(d) && Accepted(c) <= Accepted(d)
  }

  lemma TellLater(c: Conn, e: ClientEvent)
    ensures Emitted(c.trace) <= Emitted(Tell(c.trace, e))
  {
    assert Emitted(Tell(c.trace, e)) == Emitted(c.trace) + [e];
  }

  lemma TellTwice(c: Conn, e: ClientEvent, f: ClientEvent)
    ensures Emitted(c.trace) <= Emitted(Tell(Tell(c.trace, e), f))
  {
    TellLater(c, e);
    TellLater(c.(trace := Tell(c.trace, e)), f);
  }

  lemma FinishLater(c: Conn)
    requires c.outSent <= |c.outBuffer|
    ensures Later(c, FinishedIfReady(c)) && Accepted(FinishedIfReady(c)) == Accepted(c)
  {
    TellLater(c, Finish);
    TellTwice(c, Finish, Close);
  }

  lemma FailLater(c: Conn, error: int, call: Syscall)
    requires c.outSent <= |c.outBuffer|
    ensures Later(c, Failed(c, error, call)) && Accepted(Failed(c, error, call)) == Accepted(c)
  {
    TellTwice(c, Error, Close);
  }

  lemma PeerLater(c: Conn)
    requires c.outSent <= |c.outBuffer|
    ensures Later(c, PeerClosed(c)) && Accepted(PeerClosed(c)) == Accepted(c)
  {
    TellLater(c, End);
    TellTwice(c, End, Close);
  }

  lemma ConnectLater(c: Conn, error: int)
    requires c.outSent <= |c.outBuffer|
    ensures Later(c, ConnectDone(c, error)) && Accepted(ConnectDone(c, error)) == Accepted(c)
  {
    if error != 0 {
      FailLater(c.(connecting := false), error, ConnectCall);
    } else {
      TellLater(c, Connect);
      FinishLater(c.(connecting := false, connected := true, trace := Tell(c.trace, Connect)));
    }
  }

  lemma SentMore(c: Conn, n: nat)
    requires c.outSent + n <= |c.outBuffer|
    ensures SentBytes(SentBy(c, n)) == SentBytes(c) + c.outBuffer[c.outSent..c.outSent + n]
  {
    assert c.outBuffer[..c.outSent + n] == c.outBuffer[..c.outSent] + c.outBuffer[c.outSent..c.outSent + n];
  }

  lemma AllFlushedLater(c: Conn)
    requires c.outSent == |c.outBuffer|
    ensures var d := AllFlushed(c);
      d.outSent <= |d.outBuffer| && Later(c, d) && Accepted(d) == Accepted(c) && SentBytes(d) == SentBytes(c)
  {
    TellLater(c, Drain);
    var e := if c.outBuffer != [] then c.(trace := Tell(c.trace, Drain)) else c;
    var f := e.(flushed := c.flushed + c.outBuffer, outBuffer := [], outSent := 0);
    assert SentBytes(f) == SentBytes(c) && Accepted(f) == Accepted(c);
    FinishLater(f);
  }

  lemma SendsLater(c: Conn, n: nat, outcome: Outcome)
    requires c.outSent + n <= |c.outBuffer| && (outcome.AllSent? ==> c.outSent + n == |c.outBuffer|)
    ensures var d := FlushedTo(SentBy(c, n), outcome);
      d.outSent <= |d.outBuffer| && Accepted(d) == Accepted(c) && SentBytes(d) == SentBytes(SentBy(c, n))
      && Received(d) == Received(c) && Emitted(c.trace) <= Emitted(d.trace)
  {
    var d := SentBy(c, n);
    match outcome {
      case AllSent => AllFlushedLater(d);
      case Blocked =>
      case Broken(error) => FailLater(d, error, WriteCall);
    }
  }

  /** Flushing accepts nothing and sends, in order, the bytes the system takes. */
  lemma FlushLater(c: Conn, sends: seq<SendResult>)
    requires c.outSent <= |c.outBuffer|
    ensures var d := Flushed(c, sends); var n := SendRun(|c.outBuffer| - c.outSent, sends).0;
      && d.outSent <= |d.outBuffer| && Later(c, d) && Accepted(d) == Accepted(c)
      && SentBytes(d) == SentBytes(c) + c.outBuffer[c.outSent..c.outSent + n]
  {
    var r := SendRun(|c.outBuffer| - c.outSent, sends);
    FlushIs(c, sends, r.0, r.1);
    SentMore(c, r.0);
    SendsLater(c, r.0, r.1);
  }

  lemma {:induction false} ChunksLater(c: Conn, read: seq<seq<Byte>>)
    requires c.outSent <= |c.outBuffer|
    ensures var d := WithChunks(c, read); d.outSent == c.outSent && d.outBuffer == c.outBuffer && d.flushed == c.flushed
    ensures Emitted(c.trace) <= Emitted(WithChunks(c, read).trace)
      && Received(WithChunks(c, read)) == Received(c) + read
    decreases |read|
  {
    if read != [] {
      var e := c.(trace := Tell(c.trace, Data), chunks := c.chunks + [read[0]]);
      TellLater(c, Data);
      ChunksLater(e, read[1..]);
      assert Received(e) + read[1..] == Received(c) + read;
    } else {
      assert Received(c) + read == Received(c);
    }
  }

  lemma ReadLater(c: Conn, recvs: seq<RecvResult>)
    requires c.outSent <= |c.outBuffer|
    ensures var d := ReadIn(c, recvs); d.outSent <= |d.outBuffer| && Later(c, d) && Accepted(d) == Accepted(c)
  {
    var (read, outcome) := ReadRun(recvs);
    var d := WithChunks(c, read);
    ChunksLater(c, read);
    PeerLater(d);
    if outcome.ReadBroken? { FailLater(d, outcome.error, ReadCall); }
  }

  /** The bytes a call makes the connection accept. */
  function Taken(c: Conn, call: Call): seq<Byte> {
    if call.Write? && !c.closing && !c.endRequested then call.data else []
  }

  /** A call takes back nothing, and the bytes accepted are those of the writes that
      were not refused. */
  lemma DoneLater(c: Conn, call: Call)
    requires Sound(c) && Sound(Done(c, call))
    ensures Later(c, Done(c, call)) && Accepted(Done(c, call)) == Accepted(c) + Taken(c, call)
  {
    match call
    case Write(data, sends) =>
      if !c.closing && !c.endRequested { WriteLater(c, data, sends); }
    case EndWriting => EndLater(c);
    case Destroy =>
    case NextEvent => DrainLater(c);
    case ReadChunk => PullLater(c);
  }

  lemma DrainLater(c: Conn)
    requires Sound(c)
    ensures var d := Done(c, NextEvent); d.outSent <= |d.outBuffer| && Later(c, d) && Accepted(d) == Accepted(c)
  {
    if c.trace.events != [] { DrainKeeps(c.trace); }
  }

  lemma PullLater(c: Conn)
    requires Sound(c)
    ensures var d := Done(c, ReadChunk); d.outSent <= |d.outBuffer| && Later(c, d) && Accepted(d) == Accepted(c)
  {
    if c.chunks != [] { HeadMoves(c.pulled, c.chunks); }
  }

  lemma EndLater(c: Conn)
    requires Sound(c)
    ensures var d := Done(c, EndWriting); d.outSent <= |d.outBuffer| && Later(c, d) && Accepted(d) == Accepted(c)
  {
    FinishLater(c.(endRequested := true));
  }

  lemma HeadMoves<T>(gone: seq<T>, queue: seq<T>)
    requires queue != []
    ensures gone + [queue[0]] + queue[1..] == gone + queue
  {
  }

  lemma WriteLater(c: Conn, data: seq<Byte>, sends: seq<SendResult>)
    requires Sound(c)
    ensures var d := c.(outBuffer := c.outBuffer + data);
      var e := if c.connected then Flushed(d, sends) else d;
      e.outSent <= |e.outBuffer| && Later(c, e) && Accepted(e) == Accepted(c) + data
  {
    var d := c.(outBuffer := c.outBuffer + data);
    assert d.outBuffer[..c.outSent] == c.outBuffer[..c.outSent];
    assert Accepted(d) == Accepted(c) + data;
    FlushLater(d, sends);
  }

  lemma LaterStill(b: Conn, c: Conn, d: Conn)
    requires b.outSent <= |b.outBuffer| && c.outSent <= |c.outBuffer| && d.outSent <= |d.outBuffer|
    requires Later(b, c) && Later(c, d)
    ensures Later(b, d)
  {
  }

  /** The part of a readiness step before the program is told accepts nothing and takes
      nothing back. */
  lemma ReadyLater(c: Conn, initialError: int, r: Readiness, io: Io)
    requires Sound(c) && !c.closing
    ensures Later(c, Readied(c, initialError, r, io)) && Accepted(Readied(c, initialError, r, io)) == Accepted(c)
  {
    ReadyKeeps(c, initialError, r, io);
    var c1 := Connecting(c, initialError, io);
    var c2 := Written(c1, r, io);
    OutLater(c, initialError, r, io);
    InLater(c2, r, io);
    LaterStill(c, c2, Ended(Arrived(c2, r, io), r, io));
  }

  lemma OutLater(c: Conn, initialError: int, r: Readiness, io: Io)
    requires c.outSent <= |c.outBuffer|
    ensures var c1 := Connecting(c, initialError, io); c1.outSent <= |c1.outBuffer|
    ensures var d := Written(Connecting(c, initialError, io), r, io);
      d.outSent <= |d.outBuffer| && Later(c, d) && Accepted(d) == Accepted(c)
  {
    ConnectingLater(c, initialError, io);
    var c1 := Connecting(c, initialError, io);
    FlushLater(c1, io.sends);
    LaterStill(c, c1, Written(c1, r, io));
  }

  lemma InLater(c: Conn, r: Readiness, io: Io)
    requires c.outSent <= |c.outBuffer|
    ensures var d := Ended(Arrived(c, r, io), r, io);
      d.outSent <= |d.outBuffer| && Later(c, d) && Accepted(d) == Accepted(c)
  {
    ReadLater(c, io.recvs);
    var e := Arrived(c, r, io);
    EndedLater(e, r, io);
    LaterStill(c, e, Ended(e, r, io));
  }

  lemma EndedLater(c: Conn, r: Readiness, io: Io)
    requires c.outSent <= |c.outBuffer|
    ensures var d := Ended(c, r, io); d.outSent <= |d.outBuffer| && Later(c, d) && Accepted(d) == Accepted(c)
  {
    FailLater(c, if io.lastError == 0 then EIO else io.lastError, ReadCall);
    PeerLater(c);
  }

  lemma ConnectingLater(c: Conn, initialError: int, io: Io)
    requires c.outSent <= |c.outBuffer|
    ensures var d := Connecting(c, initialError, io);
      d.outSent <= |d.outBuffer| && Later(c, d) && Accepted(d) == Accepted(c)
  {
    ConnectLater(c, if initialError == 0 then io.connectError else initialError);
  }

  /** The bytes accepted over calls, and over steps. */
  function TakenAll(c: Conn, calls: seq<Call>): seq<Byte>
    requires Sound(c)
    decreases |calls|
  {
    if calls == [] then [] else DoneKeeps(c, calls[0]); Taken(c, calls[0]) + TakenAll(Done(c, calls[0]), calls[1..])
  }

  lemma {:induction false} DoneAllLater(c: Conn, calls: seq<Call>)
    requires Sound(c)
    ensures Later(c, DoneAll(c, calls)) && Accepted(DoneAll(c, calls)) == Accepted(c) + TakenAll(c, calls)
    decreases |calls|
  {
    if calls != [] {
      DoneKeeps(c, calls[0]);
      DoneLater(c, calls[0]);
      var d := Done(c, calls[0]);
      DoneAllLater(d, calls[1..]);
      LaterStill(c, d, DoneAll(d, calls[1..]));
    }
  }

  function TakenIn(c: Conn, initialError: int, step: Step): seq<Byte>
    requires Sound(c)
  {
    match step
    case Ready(r, io, calls) =>
      var d := Readied(c, initialError, r, io);
      if c.closing || d.trace.events == [] then [] else TakenAll(d, calls)
    case Do(call) => Taken(c, call)
  }

  lemma AfterLater(c: Conn, initialError: int, step: Step)
    requires Sound(c)
    ensures Later(c, After(c, initialError, step))
    ensures Accepted(After(c, initialError, step)) == Accepted(c) + TakenIn(c, initialError, step)
  {
    match step
    case Ready(r, io, calls) =>
      if !c.closing {
        ReadyLater(c, initialError, r, io);
        var d := Readied(c, initialError, r, io);
        DoneAllLater(d, calls);
        LaterStill(c, d, if d.trace.events != [] then DoneAll(d, calls) else d);
      }
    case Do(call) =>
      DoneKeeps(c, call);
      DoneLater(c, call);
  }

  function TakenOver(c: Conn, initialError: int, steps: seq<Step>): seq<Byte>
    requires Sound(c)
    decreases |steps|
  {
    if steps == [] then [] else
    TakenIn(c, initialError, steps[0]) + TakenOver(After(c, initialError, steps[0]), initialError, steps[1..])
  }

  lemma {:induction false} RunLater(c: Conn, initialError: int, steps: seq<Step>)
    requires Sound(c)
    ensures var d := Run(c, initialError, steps);
      Later(c, d) && Accepted(d) == Accepted(c) + TakenOver(c, initialError, steps)
    decreases |steps|
  {
    if steps == [] {
      assert Accepted(c) + [] == Accepted(c);
    } else {
      var d := After(c, initialError, steps[0]);
      AfterLater(c, initialError, steps[0]);
      RunLater(d, initialError, steps[1..]);
      LaterStill(c, d, Run(d, initialError, steps[1..]));
      Associates(Accepted(c), TakenIn(c, initialError, steps[0]), TakenOver(d, initialError, steps[1..]));
    }
  }

  /** Every run: the events make a lawful history, one data event a chunk; the bytes
      sent, then those unsent, are the accepted writes; the write side is shut down only
      with every one of them sent; and nothing done is taken back. */
  lemma EveryRun(c: Conn, initialError: int, steps: seq<Step>)
    requires Sound(c)
    ensures var d := Run(c, initialError, steps);
      && Lawful(d.trace.initially, Emitted(d.trace)) && Later(c, d)
      && Sum(Emitted(d.trace), |Emitted(d.trace)|, Data) == |Received(d)|
      && SentBytes(d) + Unsent(d) == Accepted(c) + TakenOver(c, initialError, steps)
      && (d.shut ==> SentBytes(d) == Accepted(c) + TakenOver(c, initialError, steps))
  {
    var d := Run(c, initialError, steps);
    RunLater(c, initialError, steps);
    DataCount(d.trace.initially, Emitted(d.trace), |Emitted(d.trace)|);
    SentThenUnsent(d);
  }

  // ---- the object -------------------------------------------------------------------------

  /** The send loop of `flushWrites`: an interrupted call is repeated. */
  method SendLoop(size: nat, start: nat, sends: seq<SendResult>) returns (sent: nat, outcome: Outcome)
    requires start <= size
    ensures sent >= start && (sent - start, outcome) == SendRun(size - start, sends)
  {
    sent := start;
    var i := 0;
    while sent < size && i < |sends|
      invariant start <= sent <= size && i <= |sends|
      invariant var (n, end) := SendRun(size - sent, sends[i..]);
        SendRun(size - start, sends) == (sent - start + n, end)
    {
      assert sends[i..][1..] == sends[i + 1..];
      match sends[i] {
        case SendInterrupted =>
        case SendBlocked => return sent, Blocked;
        case SendFailed(error) => return sent, Broken(error);
        case Sent(count) =>
          if count == 0 { return sent, Broken(EPIPE); }
          sent := if count < size - sent then sent + count else size;
      }
      i := i + 1;
    }
    outcome := if sent == size then AllSent else Blocked;
  }

  /** The receive loop of `readAvailable`. */
  method RecvLoop(recvs: seq<RecvResult>) returns (read: seq<seq<Byte>>, outcome: ReadOutcome)
    ensures (read, outcome) == ReadRun(recvs)
  {
    read := [];
    var i := 0;
    assert recvs[0..] == recvs;
    while i < |recvs|
      invariant i <= |recvs|
      invariant ReadRun(recvs).0 == read + ReadRun(recvs[i..]).0 && ReadRun(recvs).1 == ReadRun(recvs[i..]).1
    {
      assert recvs[i..][1..] == recvs[i + 1..] && read + [] == read;
      match recvs[i] {
        case RecvInterrupted =>
        case RecvBlocked => return read, NoMore;
        case RecvFailed(error) => return read, ReadBroken(error);
        case Got(bytes) =>
          if bytes == [] { return read, PeerEnd; }
          if |bytes| < READ_SIZE { return read + [bytes], NoMore; }
          Associates(read, [bytes], ReadRun(recvs[i + 1..]).0);
          read := read + [bytes];
      }
      i := i + 1;
    }
    assert read + [] == read;
    outcome := NoMore;
  }

  class ClientConnection {
    const initialError: int
    var connecting: bool
    var connected: bool
    var closing: bool
    var endRequested: bool
    var finishEmitted: bool
    var peerEnded: bool
    var events: seq<ClientEvent>
    var chunks: seq<seq<Byte>>
    var errorNumber: int
    var errorSyscall: Syscall
    var outBuffer: seq<Byte>
    var outSent: nat

    ghost var model: Conn

    /** The fields are what the model says. */
    ghost predicate Agrees()
      reads this
    {
      && connecting == model.connecting && connected == model.connected && closing == model.closing
      && endRequested == model.endRequested && finishEmitted == model.finishEmitted && peerEnded == model.peerEnded
      && events == model.trace.events && chunks == model.chunks
      && errorNumber == model.errorNumber && errorSyscall == model.errorSyscall
      && outBuffer == model.outBuffer && outSent == model.outSent
    }

    ghost predicate Valid()
      reads this
    {
      Agrees() && Sound(model)
    }

    constructor (initially: bool, initialError: int)
      ensures Valid() && model == Fresh(initially) && this.initialError == initialError
    {
      this.initialError := initialError;
      connecting, connected := !initially, initially;
      closing, endRequested, finishEmitted, peerEnded := false, false, false, false;
      events, chunks, errorNumber, errorSyscall, outBuffer, outSent := [], [], 0, NoCall, [], 0;
      model := Fresh(initially);
    }

    method FinishWriteSideIfReady()
      requires Agrees()
      modifies this
      ensures Agrees() && model == FinishedIfReady(old(model))
    {
      if !connected || !endRequested || finishEmitted || outSent < |outBuffer| { return; }
      finishEmitted := true;
      events := events + [Finish];
      if peerEnded {
        events := events + [Close];
        closing := true;
      }
      model := FinishedIfReady(model);
    }

    method Fail(error: int, call: Syscall)
      requires Agrees()
      modifies this
      ensures Agrees() && model == Failed(old(model), error, call)
    {
      if closing { return; }
      errorNumber, errorSyscall := error, call;
      events := events + [Error];
      events := events + [Close];
      closing := true;
      model := Failed(model, error, call);
    }

    method CloseFromPeer()
      requires Agrees()
      modifies this
      ensures Agrees() && model == PeerClosed(old(model))
    {
      if closing || peerEnded { return; }
      peerEnded := true;
      events := events + [ClientEvent.End];
      if finishEmitted {
        events := events + [Close];
        closing := true;
      }
      model := PeerClosed(model);
    }

    method CompleteConnect(socketError: int)
      requires Agrees()
      modifies this
      ensures Agrees() && model == ConnectDone(old(model), if initialError == 0 then socketError else initialError)
    {
      var error := if initialError == 0 then socketError else initialError;
      connecting := false;
      model := model.(connecting := false);
      if error != 0 {
        Fail(error, ConnectCall);
        return;
      }
      connected := true;
      events := events + [Connect];
      model := model.(connected := true, trace := Tell(model.trace, Connect));
      FinishWriteSideIfReady();
    }

    method FlushWrites(sends: seq<SendResult>) returns (ok: bool)
      requires Agrees() && outSent <= |outBuffer|
      modifies this
      ensures Agrees() && model == Flushed(old(model), sends)
      ensures ok == !SendRun(old(|outBuffer| - outSent), sends).1.Broken?
    {
      var sent, outcome := SendLoop(|outBuffer|, outSent, sends);
      ghost var n := sent - outSent;
      FlushIs(model, sends, n, outcome);
      model := SentBy(model, n);
      outSent := sent;
      SettleWrites(outcome);
      ok := !outcome.Broken?;
    }

    method SettleWrites(outcome: Outcome)
      requires Agrees()
      modifies this
      ensures Agrees() && model == FlushedTo(old(model), outcome)
    {
      match outcome {
        case Blocked =>
        case Broken(error) => Fail(error, WriteCall);
        case AllSent => EmptyBuffer();
      }
    }

    method EmptyBuffer()
      requires Agrees()
      modifies this
      ensures Agrees() && model == AllFlushed(old(model))
    {
      if outBuffer != [] {
        events := events + [Drain];
        model := model.(trace := Tell(model.trace, Drain));
      }
      model := model.(flushed := model.flushed + outBuffer, outBuffer := [], outSent := 0);
      outBuffer := [];
      outSent := 0;
      FinishWriteSideIfReady();
    }

    method TakeChunks(read: seq<seq<Byte>>)
      requires Agrees()
      modifies this
      ensures Agrees() && model == WithChunks(old(model), read)
    {
      var i := 0;
      while i < |read|
        invariant i <= |read| && Agrees() && WithChunks(model, read[i..]) == WithChunks(old(model), read)
      {
        assert read[i..][1..] == read[i + 1..];
        TakeChunk(read[i]);
        i := i + 1;
      }
    }

    method TakeChunk(bytes: seq<Byte>)
      requires Agrees()
      modifies this
      ensures Agrees() && model == old(model).(trace := Tell(old(model).trace, Data),
        chunks := old(model).chunks + [bytes])
    {
      chunks := chunks + [bytes];
      events := events + [Data];
      model := model.(trace := Tell(model.trace, Data), chunks := model.chunks + [bytes]);
    }

    method ReadAvailable(recvs: seq<RecvResult>)
      requires Agrees()
      modifies this
      ensures Agrees() && model == ReadIn(old(model), recvs)
    {
      var read, outcome := RecvLoop(recvs);
      TakeChunks(read);
      match outcome {
        case NoMore =>
        case PeerEnd => CloseFromPeer();
        case ReadBroken(error) => Fail(error, ReadCall);
      }
    }

    /** `onReady` up to the delivery of events. */
    method Handle(r: Readiness, io: Io)
      requires Valid() && !closing
      modifies this
      ensures Valid() && model == Readied(old(model), initialError, r, io)
    {
      ReadyKeeps(model, initialError, r, io);
      if connecting { CompleteConnect(io.connectError); }
      if !closing && connected && r.writable { var _ := FlushWrites(io.sends); }
      HandleInput(r, io);
    }

    method HandleInput(r: Readiness, io: Io)
      requires Agrees()
      modifies this
      ensures Agrees() && model == Ended(Arrived(old(model), r, io), r, io)
    {
      if !closing && connected && r.readable { ReadAvailable(io.recvs); }
      if !closing && r.error {
        Fail(if io.lastError == 0 then EIO else io.lastError, ReadCall);
      } else if !closing && r.hangup {
        CloseFromPeer();
      }
    }

    /** `onReady`: `calls` is what the program does when it is told of events. */
    method OnReady(r: Readiness, io: Io, calls: seq<Call>)
      requires Valid()
      modifies this
      ensures Valid() && model == After(old(model), initialError, Ready(r, io, calls))
    {
      if closing { return; }
      Handle(r, io);
      if events != [] { DoCalls(calls); }
      if closing { model := LoopClosed(model); }
    }

    /** What the program does, call after call. */
    method DoCalls(calls: seq<Call>)
      requires Valid()
      modifies this
      ensures Valid() && model == DoneAll(old(model), calls)
    {
      var i := 0;
      while i < |calls|
        invariant i <= |calls| && Valid() && DoneAll(model, calls[i..]) == DoneAll(old(model), calls)
      {
        assert calls[i..][1..] == calls[i + 1..];
        Do(calls[i]);
        i := i + 1;
      }
    }

    method Do(call: Call)
      requires Valid()
      modifies this
      ensures Valid() && model == Done(old(model), call)
    {
      match call {
        case Write(data, sends) => var _ := Write(data, sends);
        case EndWriting => End();
        case Destroy => Destroy();
        case NextEvent => var _ := NextEvent();
        case ReadChunk => var _ := ReadChunk();
      }
    }

    method Write(data: seq<Byte>, sends: seq<SendResult>) returns (accepted: bool)
      requires Valid()
      modifies this
      ensures Valid() && model == Done(old(model), Call.Write(data, sends))
      ensures accepted == (!old(closing) && !old(endRequested) && !closing)
    {
      DoneKeeps(model, Call.Write(data, sends));
      if closing || endRequested { return false; }
      outBuffer := outBuffer + data;
      model := model.(outBuffer := model.outBuffer + data);
      if connected { SendOut(sends); }
      accepted := !closing;
    }

    method SendOut(sends: seq<SendResult>)
      requires Agrees() && outSent <= |outBuffer| && !closing && !endRequested
      modifies this
      ensures Agrees() && model == SentOut(old(model), sends)
    {
      NoEndNoClose(model, sends);
      var ok := FlushWrites(sends);
      if !ok && closing { model := LoopClosed(model); }
    }

    method End()
      requires Valid()
      modifies this
      ensures Valid() && model == Done(old(model), EndWriting)
    {
      DoneKeeps(model, EndWriting);
      if closing || endRequested { return; }
      endRequested := true;
      model := model.(endRequested := true);
      FinishWriteSideIfReady();
    }

    method Destroy()
      requires Valid()
      modifies this
      ensures Valid() && model == Done(old(model), Call.Destroy)
    {
      if closing { return; }
      closing := true;
      model := LoopClosed(model.(closing := true));
    }

    /** The next event, if any. */
    method NextEvent() returns (event: seq<ClientEvent>)
      requires Valid()
      modifies this
      ensures Valid() && model == Done(old(model), Call.NextEvent) 
      ensures event == if old(events) == [] then [] else [old(events)[0]]
    {
      DoneKeeps(model, Call.NextEvent);
      if events == [] { return []; }
      event := [events[0]];
      events := events[1..];
      model := model.(trace := Drained(model.trace));
    }

    /** The next chunk, or nothing. */
    method ReadChunk() returns (chunk: seq<Byte>)
      requires Valid()
      modifies this
      ensures Valid() && model == Done(old(model), Call.ReadChunk)
      ensures chunk == if old(chunks) == [] then [] else old(chunks)[0]
    {
      if chunks == [] { return []; }
      chunk := chunks[0];
      model := model.(pulled := model.pulled + [chunks[0]], chunks := model.chunks[1..]);
      chunks := chunks[1..];
    }
  }
}

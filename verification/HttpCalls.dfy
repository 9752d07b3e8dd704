/** A response from its first call to its last: any list of calls that ends it. */
module HttpCalls {
  import opened Bytes
  import opened Wrappers
  import opened HttpHead
  import opened HttpFraming
  import opened HttpSplit
  import opened HttpResponse

  datatype Call =
    | SetStatus(status: nat, message: string)
    | SetHeader(entry: HeaderEntry)
    | AppendHeader(entry: HeaderEntry)
    | RemoveHeader(name: string)
    | WriteHead(status: nat, entries: seq<HeaderEntry>)
    | FlushHeaders
    | Write(chunk: string)
    | End(chunk: string)

  /** The application sets no framing header, and no text with a line break. */
  ghost predicate Plain(call: Call) {
    match call
    case SetStatus(_, message) => CleanText(message)
    case SetHeader(entry) => PlainFields(FieldsOf(entry))
    case AppendHeader(entry) => PlainFields(FieldsOf(entry))
    case WriteHead(_, entries) => PlainEntries(entries)
    case _ => true
  }

  // ---- what a list of calls comes to ---------------------------------------------------------

  function Last(calls: seq<Call>): Call
    requires calls != []
  {
    calls[|calls| - 1]
  }

  function Before(calls: seq<Call>): seq<Call>
    requires calls != []
  {
    calls[..|calls| - 1]
  }

  predicate Ends(calls: seq<Call>) { calls != [] && (Last(calls).End? || Ends(Before(calls))) }

  /** What is written up to the first `end`, its own bytes included. */
  function Written(calls: seq<Call>): seq<string> {
    if calls == [] then [] else
    Written(Before(calls))
      + if (Last(calls).Write? || Last(calls).End?) && !Ends(Before(calls)) then [Last(calls).chunk] else []
  }

  /** The status last set. */
  function StatusNow(calls: seq<Call>): nat {
    if calls == [] then 200
    else if Last(calls).SetStatus? || Last(calls).WriteHead? then Last(calls).status else StatusNow(Before(calls))
  }

  predicate Commits(call: Call) { call.WriteHead? || call.FlushHeaders? || call.Write? || call.End? }

  predicate Committed(calls: seq<Call>) { calls != [] && (Commits(Last(calls)) || Committed(Before(calls))) }

  /** The status the head is serialized with: the one in force at the first call that
      needs the head. */
  function StatusSent(calls: seq<Call>): nat
    requires Committed(calls)
  {
    if Committed(Before(calls)) then StatusSent(Before(calls)) else StatusNow(calls)
  }

  /** The length of the whole body when the head is serialized, if it is known: when the
      first call that needs the head is `end`. */
  function LengthSent(calls: seq<Call>): Option<nat>
    requires Committed(calls)
  {
    if Committed(Before(calls)) then LengthSent(Before(calls))
    else if Last(calls).End? then Some(|Last(calls).chunk|) else None
  }

  /** An HTTP/1.0 response that streams runs to the close. */
  predicate ToTheClose(calls: seq<Call>, isHead: bool, http10: bool)
    requires Committed(calls)
  {
    http10 && !isHead && !BodilessStatus(StatusSent(calls)) && LengthSent(calls).None?
  }

  /** The response is where the calls have brought it. */
  ghost predicate At(r: ServerResponse, calls: seq<Call>)
    reads r, r.writer
  {
    && r.Valid() && r.finished == Ends(calls) && r.sent.pieces == Written(calls)
    && r.statusCode == StatusNow(calls) && r.headersCommitted == Committed(calls)
    && (Committed(calls) ==> r.Decided(StatusSent(calls), LengthSent(calls)))
  }

  method Apply(r: ServerResponse, call: Call)
    requires r.Valid() && Plain(call)
    modifies r, r.writer
    ensures r.Valid() && r.finished == (old(r.finished) || call.End?)
    ensures r.sent.pieces == old(r.sent.pieces) + if (call.Write? || call.End?) && !old(r.finished) then [call.chunk]
      else []
    ensures r.statusCode == if call.SetStatus? || call.WriteHead? then call.status else old(r.statusCode)
    ensures r.headersCommitted == (old(r.headersCommitted) || Commits(call))
    ensures old(r.headersCommitted) ==> r.sent.status == old(r.sent.status) && r.sent.framing == old(r.sent.framing)
    ensures !old(r.headersCommitted) && Commits(call) ==>
      r.Decided(r.statusCode, if call.End? then Some(|call.chunk|) else None)
  {
    if call.Write? {
      var accepted := r.Write(call.chunk);
    } else if call.End? {
      r.End(call.chunk);
    } else if call.WriteHead? || call.FlushHeaders? {
      Release(r, call);
    } else {
      Stage(r, call);
    }
  }

  /** A call that sends the head and no body. */
  method Release(r: ServerResponse, call: Call)
    requires r.Valid() && Plain(call) && (call.WriteHead? || call.FlushHeaders?)
    modifies r, r.writer
    ensures r.Valid() && r.headersCommitted && r.finished == old(r.finished) && r.sent.pieces == old(r.sent.pieces)
    ensures r.statusCode == if call.WriteHead? then call.status else old(r.statusCode)
    ensures if old(r.headersCommitted) then r.sent == old(r.sent) else r.Decided(r.statusCode, None)
  {
    match call
    case WriteHead(status, entries) => r.WriteHead(status, entries);
    case FlushHeaders => r.FlushHeaders();
  }

  /** A call that only prepares the head. */
  method Stage(r: ServerResponse, call: Call)
    requires r.Valid() && Plain(call) && !Commits(call)
    modifies r`headers, r`statusCode, r`statusMessage
    ensures r.Valid() && r.statusCode == if call.SetStatus? then call.status else old(r.statusCode)
  {
    match call
    case SetStatus(status, message) => r.SetStatus(status, message);
    case SetHeader(entry) => r.SetHeader(entry);
    case AppendHeader(entry) => r.AppendHeader(entry);
    case RemoveHeader(name) => r.RemoveHeader(name);
  }

  /** What a reader is to take from the response and the text behind it. */
  function ReadBack(calls: seq<Call>, isHead: bool, http10: bool, rest: string): Received
    requires Committed(calls)
  {
    var status, body := StatusSent(calls), Concat(Written(calls));
    if ToTheClose(calls, isHead, http10) then ToClose(status, body + rest)
    else Bounded(status, if isHead || BodilessStatus(status) then "" else body, rest)
  }

  /** The output of a response on which the calls were made. */
  ghost predicate Delivers(output: string, keepAlive: bool, calls: seq<Call>, isHead: bool, http10: bool)
    requires Committed(calls)
  {
    && (forall rest :: (ReadResponse(output + rest, isHead) == ReadBack(calls, isHead, http10, rest)))
    && (keepAlive ==> !ToTheClose(calls, isHead, http10))
  }

  /** Any calls of which one ends the response: a reader takes from the output exactly what
      was written, or nothing where there is no body, and stops at the first byte of what
      follows; or the response runs to the close, and then the connection is not kept. */
  method Respond(calls: seq<Call>, isHead: bool, keepAliveRequested: bool, http10: bool, date: string,
                 reasons: map<nat, string>)
    returns (output: string, keepAlive: bool)
    requires CleanText(date) && forall code :: code in reasons ==> CleanText(reasons[code])
    requires Ends(calls) && forall i :: 0 <= i < |calls| ==> Plain(calls[i])
    ensures Committed(calls) && Delivers(output, keepAlive, calls, isHead, http10)
  {
    var r := new ServerResponse(isHead, keepAliveRequested, http10, date, reasons);
    var i := 0;
    while i < |calls|
      invariant i <= |calls| && r.isHead == isHead && r.http10 == http10 && fresh(r) && fresh(r.writer)
      invariant At(r, calls[..i])
    {
      Step(r, calls, i);
      i := i + 1;
    }
    assert calls[..i] == calls;
    output, keepAlive := r.writer.outbuf, r.completed == Some(true);
    EndsCommits(calls);
    forall rest ensures ReadResponse(output + rest, isHead) == ReadBack(calls, isHead, http10, rest) {
      Delimited(r, rest);
    }
    Delimited(r, "");
  }

  method Step(r: ServerResponse, calls: seq<Call>, i: nat)
    requires i < |calls| && At(r, calls[..i]) && Plain(calls[i])
    modifies r, r.writer
    ensures At(r, calls[..i + 1])
  {
    assert Before(calls[..i + 1]) == calls[..i] && Last(calls[..i + 1]) == calls[i];
    Apply(r, calls[i]);
  }

  lemma {:induction false} EndsCommits(calls: seq<Call>)
    requires Ends(calls)
    ensures Committed(calls)
  {
    if !Last(calls).End? { EndsCommits(Before(calls)); }
  }
}

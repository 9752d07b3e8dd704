/** `HttpConnection`: the object whose fields the reactor updates, refined against
    the state machine of `HttpMachine`. */
module HttpConnections {
  import opened Bytes
  import opened Wrappers
  import opened HttpHead
  import opened HttpMachine
  import opened HttpPipelining

  datatype ReadState = Head_ | BodyFixed_ | ChunkSize_ | ChunkData_ | ChunkCrlf_ | Trailers_

  // ---- scanning loops of the head parser ---------------------------------------

  lemma IndexOfDrop(s: string, pat: string, pos: nat)
    requires pos <= |s|
    ensures var r := IndexOf(s[pos..], pat, 0);
      IndexOf(s, pat, pos) == if r < 0 then -1 else pos + r
  {
    var t := s[pos..];
    var r := IndexOf(t, pat, 0);
    forall k: int | pos <= k
      ensures At(s, pat, k) == At(t, pat, k - pos)
    {
      if k + |pat| <= |s| {
        assert s[k..k + |pat|] == t[k - pos..k - pos + |pat|];
      }
    }
    if r >= 0 {
      assert At(s, pat, pos + r);
      IndexOfIs(s, pat, pos, pos + r);
    }
  }

  lemma {:induction false} TrimLeftDrop(s: string, i: nat)
    requires i <= |s| && forall k :: 0 <= k < i ==> IsBlank(s[k])
    ensures TrimLeft(s) == TrimLeft(s[i..])
    decreases i
  {
    if i == 0 {
      assert s[0..] == s;
    } else {
      assert s[1..][i - 1..] == s[i..];
      TrimLeftDrop(s[1..], i - 1);
    }
  }

  lemma {:induction false} TrimRightTake(s: string, j: nat)
    requires j <= |s| && forall k :: j <= k < |s| ==> IsBlank(s[k])
    ensures TrimRight(s) == TrimRight(s[..j])
    decreases |s|
  {
    if j == |s| {
      assert s[..j] == s;
    } else {
      assert s[..|s| - 1][..j] == s[..j];
      TrimRightTake(s[..|s| - 1], j);
    }
  }

  /** The two trimming loops over `text[from..]`. */
  method TrimBlanks(text: string) returns (trimmed: string)
    ensures trimmed == Trim(text)
  {
    var start := 0;
    while start < |text| && IsBlank(text[start])
      invariant start <= |text| && forall k :: 0 <= k < start ==> IsBlank(text[k])
    {
      start := start + 1;
    }
    var end := |text|;
    while end > start && IsBlank(text[end - 1])
      invariant start <= end <= |text| && forall k :: end <= k < |text| ==> IsBlank(text[k])
    {
      end := end - 1;
    }
    trimmed := text[start..end];
    TrimLeftDrop(text, start);
    var left := text[start..];
    assert TrimLeft(left) == left;
    TrimRightTake(left, end - start);
    assert left[..end - start] == trimmed;
    assert TrimRight(trimmed) == trimmed;
  }

  function From(s: string, pos: nat): string { if pos < |s| then s[pos..] else "" }

  /** One turn of the header loop takes one line. */
  lemma LinesStep(s: string, pos: nat)
    requires pos < |s|
    ensures var eol := IndexOf(s, CRLF, pos);
      var end := if eol < 0 then |s| else eol;
      var lines := Lines(From(s, pos));
      lines != [] && lines[0] == s[pos..end] && lines[1..] == Lines(From(s, end + 2))
  {
    IndexOfDrop(s, CRLF, pos);
    var eol := IndexOf(s, CRLF, pos);
    var rest := s[pos..];
    if eol >= 0 {
      assert rest[..eol - pos] == s[pos..eol];
      assert rest[eol - pos + 2..] == s[eol + 2..];
      assert From(s, eol + 2) == s[eol + 2..];
    } else {
      assert s[pos..|s|] == rest && [rest][1..] == [];
    }
  }

  lemma AddLinesStep(lines: seq<string>, f: Fields)
    requires lines != []
    ensures AddLines(lines, f) == match AddLine(lines[0], f) case None => None case Some(g) => AddLines(lines[1..], g)
  {
  }

  lemma CutComma(value: string, pos: nat, comma: nat)
    requires pos <= comma < |value|
    ensures value[pos..comma] == value[pos..][..comma - pos] && value[comma + 1..] == value[pos..][comma - pos + 1..]
  {
  }

  /** What the first item, up to a comma, is worth. */
  predicate ItemIs(item: string, token: string) { EqualsIgnoreCase(Trim(item), token) }

  lemma TokenUnfold(s: string, token: string)
    requires s != ""
    ensures var c := IndexOf(s, ",", 0);
      HasToken(s, token) == if c < 0 then ItemIs(s, token) else ItemIs(s[..c], token) || HasToken(s[c + 1..], token)
  {
  }

  /** One turn of the token loop takes one item. */
  lemma TokenStep(value: string, token: string, pos: nat, comma: int, end: nat)
    requires pos < |value| && comma == IndexOf(value, ",", pos) && end == if comma < 0 then |value| else comma
    ensures pos <= end && HasToken(value[pos..], token)
      == (ItemIs(value[pos..end], token) || (comma >= 0 && HasToken(value[comma + 1..], token)))
  {
    IndexOfDrop(value, ",", pos);
    TokenUnfold(value[pos..], token);
    if comma >= 0 { CutComma(value, pos, comma); } else { assert value[pos..|value|] == value[pos..]; }
  }

  /** `headerValueHasToken` */
  method HeaderValueHasToken(value: string, token: string) returns (found: bool)
    ensures found == HasToken(value, token)
  {
    var pos: nat := 0;
    ghost var rest := value;
    while pos < |value|
      invariant pos <= |value| && rest == value[pos..] && HasToken(value, token) == HasToken(rest, token)
    {
      var comma := IndexOf(value, ",", pos);
      var end := if comma < 0 then |value| else comma;
      TokenStep(value, token, pos, comma, end);
      var item := TrimBlanks(value[pos..end]);
      if EqualsIgnoreCase(item, token) { return true; }
      if comma < 0 { return false; }
      pos := comma + 1;
      rest := value[pos..];
    }
    return false;
  }

  /** The Content-Length loop; `none` is its 400. The running value never exceeds
      ten times the cap, so it fits the machine word. */
  method ParseContentLength(text: string) returns (length: Option<nat>)
    ensures length == ContentLength(text)
  {
    if text == "" { return None; }
    var parsed: nat := 0;
    var i := 0;
    while i < |text|
      invariant i <= |text| && parsed <= MAX_BODY
      invariant DecimalFrom(text, 0) == DecimalFrom(text[i..], parsed)
    {
      if !IsDigit(text[i]) { return None; }
      assert text[i..][1..] == text[i + 1..];
      parsed := parsed * 10 + DigitValue(text[i]);
      assert parsed < 0x1_0000_0000_0000_0000;
      if parsed > MAX_BODY { return None; }
      i := i + 1;
    }
    return Some(parsed);
  }

  /** The chunk-size loop. */
  method ParseChunkSize(line: string) returns (r: SizeResult)
    ensures r == ChunkSize(line)
  {
    var size: nat := 0;
    var sawDigit := false;
    var i := 0;
    while i < |line|
      invariant i <= |line| && size <= MAX_BODY
      invariant ChunkSize(line) == SizeFrom(line[i..], size, sawDigit)
    {
      if line[i] == ';' { break; }
      var digit := HexDigit(line[i]);
      if digit.None? { return SizeError(400); }
      assert line[i..][1..] == line[i + 1..];
      size := size * 16 + digit.value;
      assert size < 0x1_0000_0000_0000_0000;
      sawDigit := true;
      if size > MAX_BODY { return SizeError(413); }
      i := i + 1;
    }
    if !sawDigit { return SizeError(400); }
    return Size(size);
  }

  /** One header field. */
  method ParseField(field: Field, f: Fields) returns (after: Fields, ok: bool)
    ensures AddField(field, f) == if ok then Some(after) else None
  {
    after, ok := f, true;
    if EqualsIgnoreCase(field.name, "content-length") {
      if f.length.Some? && field.value != f.length.value { return f, false; }
      after := f.(length := Some(field.value));
    } else if EqualsIgnoreCase(field.name, "transfer-encoding") {
      var has := HeaderValueHasToken(field.value, "chunked");
      if !has { return f, false; }
      after := f.(chunked := true);
    } else if EqualsIgnoreCase(field.name, "connection") {
      var close := HeaderValueHasToken(field.value, "close");
      if close {
        after := f.(keepAlive := false);
      } else {
        var keep := HeaderValueHasToken(field.value, "keep-alive");
        if keep { after := f.(keepAlive := true); }
      }
    } else if EqualsIgnoreCase(field.name, "expect") {
      if EqualsIgnoreCase(field.value, "100-continue") { after := f.(expectContinue := true); }
    }
  }

  method ParseHeader(header: string, f: Fields) returns (after: Fields, ok: bool)
    ensures AddLine(header, f) == if ok then Some(after) else None
  {
    if header == "" { return f, true; }
    var field := SplitField(header);
    if field.None? { return f, false; }
    after, ok := ParseField(field.value, f);
  }

  /** The loop over the header lines. */
  method ParseFields(raw: string, start: Fields) returns (f: Fields, ok: bool)
    ensures AddLines(Lines(raw), start) == if ok then Some(f) else None
  {
    f := start;
    var pos: nat := 0;
    assert From(raw, 0) == raw;
    while pos < |raw|
      invariant AddLines(Lines(raw), start) == AddLines(Lines(From(raw, pos)), f)
    {
      LinesStep(raw, pos);
      AddLinesStep(Lines(From(raw, pos)), f);
      var eol := IndexOf(raw, CRLF, pos);
      if eol < 0 { eol := |raw|; }
      var header := raw[pos..eol];
      pos := eol + 2;
      var fine;
      f, fine := ParseHeader(header, f);
      if !fine { return f, false; }
    }
    return f, true;
  }

  /** `parseHead`; its only failure is 400, never the 501 its comment mentions. */
  method ReadHeadText(head: string) returns (r: HeadResult)
    ensures r == ParseHead(head)
    ensures r.Bad? ==> r.status == 400
  {
    var lineEnd := IndexOf(head, CRLF, 0);
    var first := if lineEnd < 0 then head else head[..lineEnd];
    assert first == FirstLine(head);
    var line := ParseRequestLine(first);
    if line.None? { return Bad(400); }
    var raw := if lineEnd < 0 then "" else head[lineEnd + 2..];
    assert raw == AfterFirstLine(head);
    var f, ok := ParseFields(raw, StartFields(line.value));
    if !ok { return Bad(400); }
    var length: nat := 0;
    if !f.chunked && f.length.Some? {
      var parsed := ParseContentLength(f.length.value);
      if parsed.None? { return Bad(400); }
      length := parsed.value;
    }
    return Good(Head(line.value.verb, line.value.target, line.value.version, raw, length, f.chunked, f.keepAlive,
                     f.expectContinue));
  }

  /** What one send call answers. */
  datatype SendResult = Sent(count: nat) | WouldBlock | SendFailed

  /** No send fails outright. */
  predicate NoFailure(sends: seq<SendResult>) {
    forall i :: 0 <= i < |sends| ==> sends[i].WouldBlock? || (sends[i].Sent? && sends[i].count > 0)
  }

  /** A flush: whether the socket still works, and how many bytes are left. */
  datatype Flushed = Flushed(ok: bool, left: nat)

  /** The flush of `left` bytes with the answers from the `i`th on. */
  function FlushOf(sends: seq<SendResult>, i: nat, left: nat): Flushed
    requires i <= |sends|
    decreases |sends| - i
  {
    if left == 0 || i == |sends| || sends[i].WouldBlock? then Flushed(true, left)
    else if sends[i].SendFailed? || sends[i].count == 0 then Flushed(false, left)
    else FlushOf(sends, i + 1, left - Min(sends[i].count, left))
  }

  predicate SendsOn(s: SendResult) { s.Sent? && s.count > 0 }

  /** The answer the send loop stops at. */
  predicate SendStop(sends: seq<SendResult>, i: nat, k: nat) {
    i <= k <= |sends| && (k < |sends| ==> !SendsOn(sends[k])) && forall j :: i <= j < k ==> SendsOn(sends[j])
  }

  function Total(sends: seq<SendResult>, i: nat, k: nat): nat
    requires i <= k <= |sends|
    decreases k - i
  {
    if i == k then 0 else (if sends[i].Sent? then sends[i].count else 0) + Total(sends, i + 1, k)
  }

  /** A flush takes what the answers before the stop take, as far as there are bytes; it fails
      exactly when bytes are left and the stop is a failed or an empty send. */
  lemma {:induction false} FlushIs(sends: seq<SendResult>, i: nat, left: nat, k: nat)
    requires SendStop(sends, i, k)
    ensures var taken := Total(sends, i, k);
      FlushOf(sends, i, left) ==
        if left <= taken then Flushed(true, 0) else Flushed(k == |sends| || sends[k].WouldBlock?, left - taken)
    decreases k - i
  {
    if left > 0 && i < k { FlushIs(sends, i + 1, left - Min(sends[i].count, left), k); }
  }

  /** The connection is given up: a send has failed, or everything is sent, no request is
      outstanding and no more are wanted. A refused connection keeps `busy` set, so of it
      only the first is ever true. */
  predicate CloseDue(sends: seq<SendResult>, output: string, wire: string, c: Conn, peerClosed: bool) {
    var f := FlushOf(sends, 0, if |wire| <= |output| then |output| - |wire| else 0);
    !f.ok || (f.left == 0 && c.Conn? && c.pending.None? && (c.closing || peerClosed))
  }

  lemma {:induction false} FlushWorks(sends: seq<SendResult>, i: nat, left: nat)
    requires NoFailure(sends) && i <= |sends|
    ensures FlushOf(sends, i, left).ok
    decreases |sends| - i
  {
    if left > 0 && i < |sends| && sends[i].Sent? { FlushWorks(sends, i + 1, left - Min(sends[i].count, left)); }
  }

  const NO_HEAD: Head := Head("", "", "", "", 0, false, true, false)

  lemma OutputSnoc(trace: seq<Event>, e: Event, texts: Texts)
    ensures Output(trace + [e], texts) == Output(trace, texts) + BytesOf(e, texts)
  {
    OutputAppend(trace, [e], texts);
    OutputOne(e, texts);
  }

  /** `sendErrorAndClose`: the text of a refusal. */
  function RefusalText(status: nat, reason: string): string {
    "HTTP/1.1 " + Print(status, 10) + " " + reason + "\r\nConnection: close\r\n\r\n"
  }

  /** The texts the connection really sends. */
  function StandardTexts(): Texts {
    Texts("HTTP/1.1 100 Continue\r\n\r\n", RefusalText(400, "Bad Request"), RefusalText(413, "Payload Too Large"),
          RefusalText(431, "Request Header Fields Too Large"), RefusalText(501, "Not Implemented"))
  }

  lemma TailAppend(buffer: string, sent: nat, text: string)
    requires sent <= |buffer|
    ensures (buffer + text)[sent..] == buffer[sent..] + text
  {
  }

  lemma TailSplit(buffer: string, sent: nat, n: nat)
    requires sent + n <= |buffer|
    ensures buffer[sent..] == buffer[sent..sent + n] + buffer[sent + n..]
  {
  }

  class HttpConnection {
    var inbuf: string
    var outbuf: string
    var outsent: nat
    var state: ReadState
    var busy: bool
    var closing: bool
    var peerClosed: bool
    var processing: bool
    var firstRequest: bool
    var closeRequested: bool  // loop_.close(this) has been called

    // The request being parsed.
    var current: Head
    var body: string
    var bodyRemaining: nat
    var chunkRemaining: nat

    const handler: Handler
    const texts: Texts

    ghost var model: Conn    // the abstract machine
    ghost var wire: string   // the bytes handed to the socket so far

    ghost function CurrentParse(): Parse
      reads this
    {
      match state
      case Head_ => AtHead
      case BodyFixed_ => InBody(current, body, bodyRemaining)
      case ChunkSize_ => AtChunkSize(current, body)
      case ChunkData_ => InChunk(current, body, chunkRemaining)
      case ChunkCrlf_ => AtChunkCrlf(current, body)
      case Trailers_ => InTrailers(current, body)
    }

    /** The fields are the machine's state. */
    ghost predicate Agrees()
      reads this
    {
      if model.Rejected? then busy && closing
      else
        && model == Conn(inbuf, CurrentParse(), firstRequest, closing, model.pending, model.trace, model.longLine)
        && (busy <==> model.pending.Some?)
    }

    /** Every byte of output is either on the wire or still in the buffer, in order. */
    ghost predicate Wired()
      reads this
    {
      outsent <= |outbuf| && Output(model.trace, texts) == wire + outbuf[outsent..]
    }

    ghost predicate Valid()
      reads this
    {
      Agrees() && Wired()
    }

    constructor (h: Handler)
      ensures Valid() && model == INITIAL && handler == h && texts == StandardTexts() && !closeRequested && wire == ""
        && !processing && !peerClosed
    {
      inbuf, outbuf, outsent, state := "", "", 0, Head_;
      busy, closing, peerClosed, processing, firstRequest, closeRequested := false, false, false, false, true, false;
      current, body, bodyRemaining, chunkRemaining := NO_HEAD, "", 0, 0;
      handler, texts := h, StandardTexts();
      model, wire := INITIAL, "";
    }

    /** Text joins the output together with the event that explains it. */
    method Queue(text: string, ghost next: Conn, ghost event: Event)
      requires Wired() && BytesOf(event, texts) == text && next.trace == model.trace + [event]
      modifies `outbuf, `model
      ensures Wired() && model == next
    {
      OutputSnoc(model.trace, event, texts);
      TailAppend(outbuf, outsent, text);
      outbuf := outbuf + text;
      model := next;
    }

    /** `sendErrorAndClose`: nothing more is parsed; `busy` stays set. */
    method SendErrorAndClose(status: int)
      requires Valid() && !Blocked(model)
      modifies `outbuf, `busy, `closing, `model
      ensures Valid() && model == RejectWith(old(model), status)
    {
      Queue(texts.Refusal(status), RejectWith(model, status), Reject(status));
      busy := true;
      closing := true;
    }

    /** `dispatchCurrent` with no other handler on the stack: the handler is called
        with the parsed request. */
    method DispatchCurrent()
      requires Wired() && !Blocked(model) && !closing && state == Head_
      requires model.inbuf == inbuf && model.first == firstRequest
      modifies `busy, `firstRequest, `model, `current, `body
      ensures Valid() && model == Dispatched(old(model), handler, old(current), old(body))
    {
      ghost var next := Dispatched(model, handler, current, body);
      OutputSnoc(model.trace, next.trace[|model.trace|], texts);
      busy := true;
      firstRequest := false;
      model := next;
      current, body := NO_HEAD, "";
    }

    /** Head state: find the end of the head, parse it, choose the body state. */
    method ReadHead() returns (again: bool)
      requires Valid() && !Blocked(model) && state == Head_
      modifies `inbuf, `outbuf, `model, `busy, `closing, `current, `body, `bodyRemaining, `chunkRemaining, `state,
        `firstRequest
      ensures Valid() && Turn(model, again) == HeadTurn(old(model), handler)
    {
      var headEnd := IndexOf(inbuf, HEAD_END, 0);
      if headEnd < 0 {
        if |inbuf| > MAX_HEAD { SendErrorAndClose(431); }
        return false;
      }
      if headEnd + 4 > MAX_HEAD {
        SendErrorAndClose(431);
        return false;
      }
      var r := ReadHeadText(inbuf[..headEnd]);
      inbuf := inbuf[headEnd + 4..];
      model := model.(inbuf := inbuf);
      again := AfterHead(r);
    }

    /** A client that asks for it is told to go on with the body. */
    method Announce()
      requires Valid() && !Blocked(model) && state == Head_
      modifies `outbuf, `model
      ensures Valid()
      ensures model == old(model).(trace := old(model).trace + if current.expectContinue then [Continue] else [])
    {
      if current.expectContinue {
        Queue(texts.interim, model.(trace := model.trace + [Continue]), Continue);
      } else {
        assert model.trace + [] == model.trace;
      }
    }

    /** A head has been parsed and taken from the buffer. */
    method AfterHead(r: HeadResult) returns (again: bool)
      requires Valid() && !Blocked(model) && state == Head_
      modifies `outbuf, `model, `busy, `closing, `current, `body, `bodyRemaining, `chunkRemaining, `state, `firstRequest
      ensures Valid() && Turn(model, again) == HeadRead(old(model), handler, r)
    {
      if r.Bad? {
        SendErrorAndClose(r.status);
        return false;
      }
      current := r.head;
      Announce();
      StartBody();
      return true;
    }

    /** Choose how the body is read, or dispatch at once. */
    method StartBody()
      requires Valid() && !Blocked(model) && state == Head_
      modifies `model, `busy, `current, `body, `bodyRemaining, `chunkRemaining, `state, `firstRequest
      ensures Valid()
      ensures model == if old(current).chunked then old(model).(parse := AtChunkSize(old(current), ""))
                       else if old(current).length > 0 then
                         old(model).(parse := InBody(old(current), "", old(current).length))
                       else Dispatched(old(model), handler, old(current), "")
    {
      body, bodyRemaining, chunkRemaining := "", current.length, 0;
      if current.chunked {
        state := ChunkSize_;
        model := model.(parse := AtChunkSize(current, ""));
      } else if bodyRemaining > 0 {
        state := BodyFixed_;
        model := model.(parse := InBody(current, "", bodyRemaining));
      } else {
        DispatchCurrent();
      }
    }

    /** Fixed-length body state. */
    method ReadBody() returns (again: bool)
      requires Valid() && !Blocked(model) && state == BodyFixed_
      modifies `inbuf, `outbuf, `model, `busy, `closing, `current, `body, `bodyRemaining, `chunkRemaining, `state,
        `firstRequest
      ensures Valid() && Turn(model, again) == BodyTurn(old(model), handler)
    {
      var take := Min(bodyRemaining, |inbuf|);
      if |body| + take > MAX_BODY {
        SendErrorAndClose(413);
        return false;
      }
      body := body + inbuf[..take];
      inbuf := inbuf[take..];
      bodyRemaining := bodyRemaining - take;
      model := model.(inbuf := inbuf, parse := InBody(current, body, bodyRemaining));
      if bodyRemaining > 0 { return false; }
      state := Head_;
      DispatchCurrent();
      return true;
    }

    /** Chunk-size state. */
    method ReadChunkSize() returns (again: bool)
      requires Valid() && !Blocked(model) && state == ChunkSize_
      modifies `inbuf, `outbuf, `model, `busy, `closing, `current, `body, `bodyRemaining, `chunkRemaining, `state,
        `firstRequest
      ensures Valid() && Turn(model, again) == SizeTurn(old(model))
    {
      var eol := IndexOf(inbuf, CRLF, 0);
      if eol < 0 {
        if |inbuf| > MAX_SIZE_LINE { SendErrorAndClose(400); }
        return false;
      }
      var size := ParseChunkSize(inbuf[..eol]);
      inbuf := inbuf[eol + 2..];
      model := model.(inbuf := inbuf);
      again := AfterSize(eol, size);
    }

    /** A chunk-size line has been folded and taken from the buffer. */
    method AfterSize(eol: nat, size: SizeResult) returns (again: bool)
      requires Valid() && !Blocked(model) && state == ChunkSize_
      modifies `outbuf, `busy, `closing, `model, `chunkRemaining, `state
      ensures Valid() && Turn(model, again) == SizeRead(old(model), eol, size)
    {
      model := model.(longLine := model.longLine || (eol >= MAX_SIZE_LINE && size != SizeError(400)));
      if size.SizeError? {
        SendErrorAndClose(size.status);
        return false;
      }
      chunkRemaining := size.size;
      state := if size.size == 0 then Trailers_ else ChunkData_;
      model := model.(parse := CurrentParse());
      return true;
    }

    /** Chunk-data state. */
    method ReadChunkData() returns (again: bool)
      requires Valid() && !Blocked(model) && state == ChunkData_
      modifies `inbuf, `outbuf, `model, `busy, `closing, `current, `body, `bodyRemaining, `chunkRemaining, `state,
        `firstRequest
      ensures Valid() && Turn(model, again) == ChunkTurn(old(model))
    {
      var take := Min(chunkRemaining, |inbuf|);
      if |body| + take > MAX_BODY {
        SendErrorAndClose(413);
        return false;
      }
      body := body + inbuf[..take];
      inbuf := inbuf[take..];
      chunkRemaining := chunkRemaining - take;
      if chunkRemaining == 0 { state := ChunkCrlf_; }
      model := model.(inbuf := inbuf, parse := CurrentParse());
      return state == ChunkCrlf_;
    }

    /** The CRLF after a chunk. */
    method ReadChunkCrlf() returns (again: bool)
      requires Valid() && !Blocked(model) && state == ChunkCrlf_
      modifies `inbuf, `outbuf, `model, `busy, `closing, `current, `body, `bodyRemaining, `chunkRemaining, `state,
        `firstRequest
      ensures Valid() && Turn(model, again) == CrlfTurn(old(model))
    {
      if |inbuf| < 2 { return false; }
      if inbuf[0] != '\r' || inbuf[1] != '\n' {
        SendErrorAndClose(400);
        return false;
      }
      inbuf := inbuf[2..];
      state := ChunkSize_;
      model := model.(inbuf := inbuf, parse := CurrentParse());
      return true;
    }

    /** Trailer state: lines are discarded up to an empty one. */
    method ReadTrailers() returns (again: bool)
      requires Valid() && !Blocked(model) && state == Trailers_
      modifies `inbuf, `outbuf, `model, `busy, `closing, `current, `body, `bodyRemaining, `chunkRemaining, `state,
        `firstRequest
      ensures Valid() && Turn(model, again) == TrailerTurn(old(model), handler)
    {
      var eol := IndexOf(inbuf, CRLF, 0);
      if eol < 0 { return false; }
      inbuf := inbuf[eol + 2..];
      model := model.(inbuf := inbuf);
      if eol == 0 {
        state := Head_;
        DispatchCurrent();
      }
      return true;
    }

    /** `processInput` */
    method ProcessInput()
      requires Valid()
      modifies `inbuf, `outbuf, `model, `busy, `closing, `current, `body, `bodyRemaining, `chunkRemaining, `state,
               `firstRequest
      ensures Valid() && model == Process(old(model), handler)
    {
      var again := true;
      while again
        invariant Valid()
        invariant Process(old(model), handler) == if again then Process(model, handler) else model
        decreases again, Buffered(model), Rank(model)
      {
        if busy || closing { return; }
        ghost var before := model;
        match state {
          case Head_ => again := ReadHead();
          case BodyFixed_ => again := ReadBody();
          case ChunkSize_ => again := ReadChunkSize();
          case ChunkData_ => again := ReadChunkData();
          case ChunkCrlf_ => again := ReadChunkCrlf();
          case Trailers_ => again := ReadTrailers();
        }
        assert Turn(model, again) == TurnOf(before, handler);
      }
    }

    /** `flush`: send until the buffer is empty or the socket takes no more. */
    method Flush(sends: seq<SendResult>) returns (ok: bool)
      requires Wired()
      modifies `outbuf, `outsent, `wire
      ensures Wired() && old(wire) <= wire
      ensures Flushed(ok, |outbuf| - outsent) == FlushOf(sends, 0, old(|outbuf| - outsent))
    {
      var i := 0;
      while outsent < |outbuf|
        invariant Wired() && outbuf == old(outbuf) && old(wire) <= wire && i <= |sends|
        invariant FlushOf(sends, i, |outbuf| - outsent) == FlushOf(sends, 0, old(|outbuf| - outsent))
        decreases |sends| - i
      {
        if i == |sends| || sends[i].WouldBlock? { return true; }
        if sends[i].SendFailed? || sends[i].count == 0 { return false; }
        var n := Min(sends[i].count, |outbuf| - outsent);
        TailSplit(outbuf, outsent, n);
        wire := wire + outbuf[outsent..outsent + n];
        outsent := outsent + n;
        i := i + 1;
      }
      assert outbuf[outsent..] == "";
      outbuf := "";
      outsent := 0;
      return true;
    }

    /** `flushAndMaybeClose` */
    method FlushAndMaybeClose(sends: seq<SendResult>)
      requires Valid()
      modifies `outbuf, `outsent, `wire, `closeRequested
      ensures Valid() && old(wire) <= wire
      ensures closeRequested
        == (old(closeRequested) || CloseDue(sends, Output(model.trace, texts), old(wire), model, peerClosed))
    {
      var ok := Flush(sends);
      if !ok {
        closeRequested := true;
        return;
      }
      var drained := outsent >= |outbuf|;
      if drained && !busy && (closing || peerClosed) { closeRequested := true; }
    }

    /** The end of a pass: what it wrote leaves in one flush. */
    method EndPass(sends: seq<SendResult>)
      requires Valid()
      modifies `outbuf, `outsent, `wire, `closeRequested, `processing
      ensures Valid() && !processing && old(wire) <= wire
      ensures closeRequested
        == (old(closeRequested) || CloseDue(sends, Output(model.trace, texts), old(wire), model, peerClosed))
    {
      processing := false;
      FlushAndMaybeClose(sends);
    }

    method Receive(bytes: string)
      requires Valid()
      modifies `inbuf, `model, `processing
      ensures Valid() && model == Append(old(model), bytes)
    {
      inbuf := inbuf + bytes;
      model := Append(model, bytes);
      processing := true;
    }

    /** `bytes` arrive and are processed; nothing is sent yet. */
    method TakeIn(bytes: string)
      requires Valid()
      modifies `inbuf, `outbuf, `model, `busy, `closing, `current, `body, `bodyRemaining, `chunkRemaining, `state,
        `firstRequest, `processing
      ensures Valid() && model == Process(Append(old(model), bytes), handler)
    {
      Receive(bytes);
      ProcessInput();
    }

    /** A readiness callback that delivered `bytes`. */
    method OnReadable(bytes: string, sends: seq<SendResult>)
      requires Valid() && !processing
      modifies this
      ensures Valid() && !processing && old(wire) <= wire
      ensures model == Process(Append(old(model), bytes), handler) && peerClosed == old(peerClosed)
      ensures closeRequested
        == (old(closeRequested) || CloseDue(sends, Output(model.trace, texts), old(wire), model, peerClosed))
    {
      TakeIn(bytes);
      EndPass(sends);
    }

    /** `enqueueResponseBytes` outside the reactor pass: the running handler writes
        its next piece. */
    method EnqueueResponseBytes(data: string, sends: seq<SendResult>)
      requires Valid() && !processing
      requires model.Conn? && model.pending.Some? && model.pending.value.pieces != []
               && model.pending.value.pieces[0] == data
      modifies this
      ensures Valid() && !processing && old(wire) <= wire && model == Emit(old(model))
      ensures peerClosed == old(peerClosed)
      ensures closeRequested
        == (old(closeRequested) || CloseDue(sends, Output(model.trace, texts), old(wire), model, peerClosed))
    {
      Queue(data, Emit(model), Wrote(data));
      FlushAndMaybeClose(sends);
    }

    /** `responseComplete` outside the reactor pass: the next pipelined request, if
        it is buffered, is dispatched at once. */
    method ResponseComplete(keep: bool, sends: seq<SendResult>)
      requires Valid() && !processing
      requires model.Conn? && model.pending == Some(Reply([], keep))
      modifies this
      ensures Valid() && !processing && old(wire) <= wire
      ensures model == Process(Complete(old(model)), handler) && peerClosed == old(peerClosed)
      ensures closeRequested
        == (old(closeRequested) || CloseDue(sends, Output(model.trace, texts), old(wire), model, peerClosed))
    {
      Finish(keep);
      ProcessInput();
      EndPass(sends);
    }

    method Finish(keep: bool)
      requires Valid() && model.Conn? && model.pending == Some(Reply([], keep))
      modifies `busy, `closing, `model, `processing
      ensures Valid() && model == Complete(old(model))
    {
      processing := true;
      busy := false;
      if !keep { closing := true; }
      FinishModel(model, keep, texts);
      model := Complete(model);
    }
  }

  lemma FinishModel(c: Conn, keep: bool, texts: Texts)
    requires c.Conn? && c.pending == Some(Reply([], keep))
    ensures Complete(c) == c.(pending := None, closing := c.closing || !keep, trace := c.trace + [Done(keep)])
    ensures Output(Complete(c).trace, texts) == Output(c.trace, texts)
  {
    assert c.trace + Wrotes([]) + [Done(keep)] == c.trace + [Done(keep)];
    OutputSnoc(c.trace, Done(keep), texts);
  }
}

/** Writing a response: the header block the connection serializes in place, and
    the `ServerResponse` that drives it. */
module HttpResponse {
  import opened Sequences
  import opened Bytes
  import opened Wrappers
  import opened HttpHead
  import opened HttpChunks
  import opened HttpFraming

  /** The framing decision of `headEnd`. */
  function FramingFor(noBody: bool, hasContentLength: bool, hasTransferEncoding: bool, length: Option<nat>,
                      http10: bool): Framing
  {
    if noBody then NoBody
    else if hasContentLength || hasTransferEncoding then AppFramed
    else if length.Some? then Sized(length.value)
    else if http10 then UntilClose
    else Chunked
  }

  /** The decision by its outcomes: a body that is suppressed or framed by the application is
      left alone; else a length known in advance is announced; without one a client of
      HTTP/1.0 is never sent chunks, and only such a client has to read to the close. */
  lemma FramingIs(noBody: bool, hasContentLength: bool, hasTransferEncoding: bool, length: Option<nat>, http10: bool)
    ensures var f := FramingFor(noBody, hasContentLength, hasTransferEncoding, length, http10);
      && (f.NoBody? <==> noBody)
      && (f.AppFramed? <==> !noBody && (hasContentLength || hasTransferEncoding))
      && (!noBody && !f.AppFramed? ==> if length.Some? then f == Sized(length.value) else !f.Sized?)
      && (f.Chunked? ==> !http10) && (f.UntilClose? ==> http10)
  {
  }

  function DateLines(sendDate: bool, date: string): seq<string> { if sendDate then ["Date: " + date] else [] }

  function ConnectionLines(hasConnection: bool, keepAlive: bool): seq<string> {
    if hasConnection then []
    else if keepAlive then ["Connection: keep-alive", "Keep-Alive: timeout=5"]
    else ["Connection: close"]
  }

  lemma {:induction false} JoinAppend(a: seq<string>, b: seq<string>)
    ensures Join(a + b) == Join(a) + Join(b)
  {
    if a == [] {
      assert a + b == b;
    } else {
      assert (a + b)[1..] == a[1..] + b;
      JoinAppend(a[1..], b);
    }
  }

  lemma JoinOne(line: string)
    ensures Join([line]) == line + CRLF
  {
  }

  /** The lines Node computes itself, in order, and the empty line. */
  function TailText(sendDate: bool, date: string, hasConnection: bool, keepAlive: bool, f: Framing): string {
    Join(DateLines(sendDate, date)) + Join(ConnectionLines(hasConnection, keepAlive)) + Join(FramingLines(f)) + CRLF
  }

  /** The lines before the framing line. */
  function ComputedLines(sendDate: bool, date: string, hasConnection: bool, keepAlive: bool): seq<string> {
    DateLines(sendDate, date) + ConnectionLines(hasConnection, keepAlive)
  }

  lemma TailIsLines(sendDate: bool, date: string, hasConnection: bool, keepAlive: bool, f: Framing)
    ensures TailText(sendDate, date, hasConnection, keepAlive, f)
         == Join(ComputedLines(sendDate, date, hasConnection, keepAlive) + FramingLines(f)) + CRLF
  {
    JoinThree(DateLines(sendDate, date), ConnectionLines(hasConnection, keepAlive), FramingLines(f));
  }

  lemma JoinThree(a: seq<string>, b: seq<string>, c: seq<string>)
    ensures Join((a + b) + c) + CRLF == Join(a) + Join(b) + Join(c) + CRLF
  {
    JoinAppend(a + b, c);
    JoinAppend(a, b);
  }

  /** The part of the cached tail after the date. */
  const KEEP_TAIL: string :=
    CRLF + ("Connection: keep-alive" + CRLF + ("Keep-Alive: timeout=5" + CRLF)) + ("Transfer-Encoding: chunked" + CRLF)
      + CRLF

  lemma Regroup4(a: string, b: string, c: string, d: string, e: string)
    ensures (a + b) + c + d + e == a + (b + c + d + e)
  {
  }

  /** The tail assembled once a second is the tail written line by line. */
  lemma CachedTailIs(date: string)
    ensures "Date: " + date + KEEP_TAIL == TailText(true, date, false, true, Chunked)
  {
    var first := "Date: " + date;
    var connection := "Connection: keep-alive" + CRLF + ("Keep-Alive: timeout=5" + CRLF);
    var coding := "Transfer-Encoding: chunked" + CRLF;
    TailIs(true, date, false, true, Chunked, first + CRLF, connection, coding);
    Regroup4(first, CRLF, connection, coding, CRLF);
  }

  lemma OkDigits(n: nat)
    requires n == 200
    ensures Print(n, 10) == "200"
  {
    var p := Print(n, 10);
    assert p == Print(n / 10, 10) + [DigitChar(n % 10)];
    assert Print(n / 10 / 10, 10) == "2";
    assert Print(n / 10, 10) == "20";
    assert |p| == 3;
    assert p[0] == '2';
    assert p[1] == '0';
    assert p[2] == '0';
    assert p == "200";
  }

  lemma OkLine(digits: string, message: string)
    requires digits == "200" && message == "OK"
    ensures "HTTP/1.1 " + digits + " " + message + CRLF == "HTTP/1.1 200 OK\r\n"
  {
  }

  lemma TailIs(sendDate: bool, date: string, hasConnection: bool, keepAlive: bool, f: Framing, a: string, b: string,
               c: string)
    requires a == if sendDate then "Date: " + date + CRLF else ""
    requires b == if hasConnection then ""
                  else if keepAlive then "Connection: keep-alive" + CRLF + ("Keep-Alive: timeout=5" + CRLF)
                  else "Connection: close" + CRLF
    requires c == if f.Sized? then "Content-Length: " + Print(f.length, 10) + CRLF
                  else if f.Chunked? then "Transfer-Encoding: chunked" + CRLF else ""
    ensures a == Join(DateLines(sendDate, date)) && b == Join(ConnectionLines(hasConnection, keepAlive))
            && c == Join(FramingLines(f))
  {
    JoinOne("Date: " + date);
    JoinOne("Keep-Alive: timeout=5");
    JoinOne("Connection: close");
    assert ["Connection: keep-alive", "Keep-Alive: timeout=5"][1..] == ["Keep-Alive: timeout=5"];
    if f.Sized? { JoinOne("Content-Length: " + Print(f.length, 10)); }
    JoinOne("Transfer-Encoding: chunked");
  }

  method PlainTail(sendDate: bool, date: string, hasConnection: bool, keepAlive: bool, f: Framing)
    returns (tail: string)
    ensures tail == TailText(sendDate, date, hasConnection, keepAlive, f)
  {
    var a, b, c := "", "", "";
    if sendDate { a := "Date: " + date + CRLF; }
    if !hasConnection {
      if keepAlive {
        b := "Connection: keep-alive" + CRLF + ("Keep-Alive: timeout=5" + CRLF);
      } else {
        b := "Connection: close" + CRLF;
      }
    }
    if f.Sized? {
      c := "Content-Length: " + Print(f.length, 10) + CRLF;
    } else if f.Chunked? {
      c := "Transfer-Encoding: chunked" + CRLF;
    }
    TailIs(sendDate, date, hasConnection, keepAlive, f, a, b, c);
    tail := a + b + c + CRLF;
  }

  /** The tail assembled once a second. */
  method CachedTail(date: string) returns (tail: string)
    ensures tail == TailText(true, date, false, true, Chunked)
  {
    CachedTailIs(date);
    tail := "Date: " + date + KEEP_TAIL;
  }

  datatype HeadFlags = HeadFlags(noBody: bool, http10: bool, keepAliveAsked: bool, sendDate: bool)

  /** The decision of `headEnd`, and the text it appends. */
  method EndBlock(flags: HeadFlags, hasContentLength: bool, hasTransferEncoding: bool, hasDate: bool,
                  hasConnection: bool, connectionClose: bool, date: string, autoContentLength: Option<nat>)
    returns (tail: string, chunked: bool, keepAlive: bool, ghost computed: seq<string>)
    ensures computed == ComputedLines(flags.sendDate && !hasDate, date, hasConnection, keepAlive)
    ensures var f := FramingFor(flags.noBody, hasContentLength, hasTransferEncoding, autoContentLength, flags.http10);
      && chunked == f.Chunked?
      && keepAlive == (flags.keepAliveAsked && !connectionClose && !f.UntilClose?)
      && tail == Join(computed + FramingLines(f)) + CRLF
  {
    var f := Chunked;
    if flags.noBody {
      f := NoBody;
    } else if hasContentLength || hasTransferEncoding {
      f := AppFramed;
    } else if autoContentLength.Some? {
      f := Sized(autoContentLength.value);
    } else if flags.http10 {
      f := UntilClose;
    }
    chunked, keepAlive := f == Chunked, flags.keepAliveAsked;
    if connectionClose || f == UntilClose { keepAlive := false; }
    if chunked && keepAlive && !hasConnection && !hasDate && flags.sendDate {
      tail := CachedTail(date);
    } else {
      tail := PlainTail(flags.sendDate && !hasDate, date, hasConnection, keepAlive, f);
    }
    computed := ComputedLines(flags.sendDate && !hasDate, date, hasConnection, keepAlive);
    TailIsLines(flags.sendDate && !hasDate, date, hasConnection, keepAlive, f);
  }

  /** The connection's half: the block goes straight into the output buffer. */
  class HeadWriter {
    var outbuf: string
    var hasContentLength: bool
    var hasTransferEncoding: bool
    var hasDate: bool
    var hasConnection: bool
    var connectionClose: bool
    const date: string

    constructor (date: string)
      ensures outbuf == "" && this.date == date
    {
      outbuf := "";
      hasContentLength, hasTransferEncoding := false, false;
      hasDate, hasConnection, connectionClose := false, false, false;
      this.date := date;
    }

    method HeadBegin(status: nat, message: string)
      modifies this
      ensures outbuf == old(outbuf) + (StatusLine(status, message) + CRLF)
      ensures !hasContentLength && !hasTransferEncoding && !hasDate && !hasConnection && !connectionClose
    {
      hasContentLength, hasTransferEncoding := false, false;
      hasDate, hasConnection, connectionClose := false, false, false;
      if status == 200 && message == "OK" {
        OkDigits(status);
        OkLine(Print(status, 10), message);
        outbuf := outbuf + "HTTP/1.1 200 OK\r\n";
        return;
      }
      outbuf := outbuf + ("HTTP/1.1 " + Print(status, 10) + " " + message + "\r\n");
    }

    /** Length first: the four names the framing decision reads are told apart by
        their lengths before any of them is compared. */
    method HeadField(name: string, value: string)
      modifies this
      ensures outbuf == old(outbuf) + (FieldLine(name, value) + CRLF)
      ensures hasContentLength == (old(hasContentLength) || EqualsIgnoreCase(name, "content-length"))
      ensures hasTransferEncoding == (old(hasTransferEncoding) || EqualsIgnoreCase(name, "transfer-encoding"))
      ensures hasDate == (old(hasDate) || EqualsIgnoreCase(name, "date"))
      ensures hasConnection == (old(hasConnection) || EqualsIgnoreCase(name, "connection"))
      ensures connectionClose == (old(connectionClose)
                                  || (EqualsIgnoreCase(name, "connection") && EqualsIgnoreCase(value, "close")))
    {
      if |name| == 4 {
        if EqualsIgnoreCase(name, "date") { hasDate := true; }
      } else if |name| == 10 {
        if EqualsIgnoreCase(name, "connection") {
          hasConnection := true;
          if EqualsIgnoreCase(value, "close") { connectionClose := true; }
        }
      } else if |name| == 14 {
        if EqualsIgnoreCase(name, "content-length") { hasContentLength := true; }
      } else if |name| == 17 {
        if EqualsIgnoreCase(name, "transfer-encoding") { hasTransferEncoding := true; }
      }
      outbuf := outbuf + (name + ": " + value + "\r\n");
    }

    method HeadEnd(flags: HeadFlags, autoContentLength: Option<nat>)
      returns (chunked: bool, keepAlive: bool, ghost computed: seq<string>)
      modifies `outbuf
      ensures computed == ComputedLines(flags.sendDate && !hasDate, date, hasConnection, keepAlive)
      ensures var f := FramingFor(flags.noBody, hasContentLength, hasTransferEncoding, autoContentLength, flags.http10);
        && chunked == f.Chunked?
        && keepAlive == (flags.keepAliveAsked && !connectionClose && !f.UntilClose?)
        && outbuf == old(outbuf) + (Join(computed + FramingLines(f)) + CRLF)
    {
      var tail;
      tail, chunked, keepAlive, computed := EndBlock(flags, hasContentLength, hasTransferEncoding, hasDate,
                                                     hasConnection, connectionClose, date, autoContentLength);
      outbuf := outbuf + tail;
    }

    /** What the response needs to know of it: the block is closed by lines a reader
        passes over and the line of its framing. */
    method CloseHead(flags: HeadFlags, autoContentLength: Option<nat>)
      returns (chunked: bool, keepAlive: bool, ghost computed: seq<string>)
      requires CleanText(date)
      modifies `outbuf
      ensures forall i :: 0 <= i < |computed| ==> PlainLine(computed[i])
      ensures var f := FramingFor(flags.noBody, hasContentLength, hasTransferEncoding, autoContentLength, flags.http10);
        && chunked == f.Chunked?
        && keepAlive == (flags.keepAliveAsked && !connectionClose && !f.UntilClose?)
        && outbuf == old(outbuf) + (Join(computed + FramingLines(f)) + CRLF)
    {
      chunked, keepAlive, computed := HeadEnd(flags, autoContentLength);
      ComputedPlain(date, flags.sendDate && !hasDate, hasConnection, keepAlive);
    }
  }

  // ---- staged headers -----------------------------------------------------------

  predicate Same(f: Field, name: string) { EqualsIgnoreCase(f.name, name) }

  function Without(list: seq<Field>, name: string): seq<Field> {
    if list == [] then []
    else (if Same(list[0], name) then [] else [list[0]]) + Without(list[1..], name)
  }

  function Only(list: seq<Field>, name: string): seq<Field> {
    if list == [] then []
    else (if Same(list[0], name) then [list[0]] else []) + Only(list[1..], name)
  }

  lemma {:induction false} WithoutAppend(a: seq<Field>, b: seq<Field>, name: string)
    ensures Without(a + b, name) == Without(a, name) + Without(b, name)
  {
    if a == [] {
      assert a + b == b;
    } else {
      assert (a + b)[1..] == a[1..] + b;
      WithoutAppend(a[1..], b, name);
      Associates(if Same(a[0], name) then [] else [a[0]], Without(a[1..], name), Without(b, name));
    }
  }

  lemma {:induction false} OnlyAppend(a: seq<Field>, b: seq<Field>, name: string)
    ensures Only(a + b, name) == Only(a, name) + Only(b, name)
  {
    if a == [] {
      assert a + b == b;
    } else {
      assert (a + b)[1..] == a[1..] + b;
      OnlyAppend(a[1..], b, name);
      Associates(if Same(a[0], name) then [a[0]] else [], Only(a[1..], name), Only(b, name));
    }
  }

  lemma FilterAppend(a: seq<Field>, b: seq<Field>, name: string)
    ensures Without(a + b, name) == Without(a, name) + Without(b, name)
    ensures Only(a + b, name) == Only(a, name) + Only(b, name)
  {
    WithoutAppend(a, b, name);
    OnlyAppend(a, b, name);
  }

  lemma {:induction false} FilterNone(list: seq<Field>, name: string)
    requires forall i :: 0 <= i < |list| ==> !Same(list[i], name)
    ensures Without(list, name) == list && Only(list, name) == []
  {
    if list != [] { FilterNone(list[1..], name); }
  }

  lemma FilterOne(f: Field, name: string)
    ensures Without([f], name) == (if Same(f, name) then [] else [f])
      && Only([f], name) == if Same(f, name) then [f] else []
  {
    assert [f][1..] == [];
  }

  lemma {:induction false} WithoutIsClean(list: seq<Field>, name: string)
    ensures Only(Without(list, name), name) == [] && Without(Without(list, name), name) == Without(list, name)
    ensures forall f :: f in Without(list, name) ==> f in list
  {
    if list != [] {
      WithoutIsClean(list[1..], name);
      var head := if Same(list[0], name) then [] else [list[0]];
      FilterAppend(head, Without(list[1..], name), name);
      FilterOne(list[0], name);
    }
  }

  /** The loop that splices later entries of a name out, last first. */
  method DropAll(list: seq<Field>, name: string) returns (kept: seq<Field>)
    ensures kept == Without(list, name)
  {
    kept := list;
    var i := |list|;
    while i > 0
      invariant 0 <= i <= |list| && kept == list[..i] + Without(list[i..], name)
    {
      i := i - 1;
      assert list[i..][1..] == list[i + 1..];
      assert kept[i] == list[i];
      if Same(kept[i], name) { kept := kept[..i] + kept[i + 1..]; }
      assert Without(list[i..], name) == (if Same(list[i], name) then [] else [list[i]]) + Without(list[i + 1..], name);
    }
    assert list[0..] == list;
  }

  /** `setHeader` with one value: afterwards the list holds that name once, with the
      new value, and every other header as it was. */
  method SetStaged(list: seq<Field>, name: string, value: string) returns (out: seq<Field>)
    ensures Only(out, name) == [Field(name, value)] && Without(out, name) == Without(list, name)
    ensures forall f :: f in out ==> f in list || f == Field(name, value)
  {
    var index: nat := 0;
    while index < |list| && !Same(list[index], name)
      invariant index <= |list| && forall i :: 0 <= i < index ==> !Same(list[i], name)
    {
      index := index + 1;
    }
    var entry := Field(name, value);
    if index == |list| {
      SetIs(list, [], [], entry);
      assert list + [] + [] == list && list + [entry] + [] == list + [entry] && Without([], name) == [];
      return list + [entry];
    }
    var rest := DropAll(list[index + 1..], name);
    out := list[..index] + [entry] + rest;
    SetIs(list[..index], [list[index]], list[index + 1..], entry);
    assert list == list[..index] + [list[index]] + list[index + 1..];
  }

  lemma SetIs(front: seq<Field>, hit: seq<Field>, later: seq<Field>, entry: Field)
    requires forall i :: 0 <= i < |front| ==> !Same(front[i], entry.name)
    requires hit == [] || (|hit| == 1 && Same(hit[0], entry.name))
    ensures var name := entry.name;
      var out := front + [entry] + Without(later, name);
      && Only(out, name) == [entry]
      && Without(out, name) == Without(front + hit + later, name)
      && forall f :: f in out ==> f in front + hit + later || f == entry
  {
    var name := entry.name;
    SameSelf(name);
    FilterNone(front, name);
    FilterOne(entry, name);
    if hit != [] { FilterOne(hit[0], name); assert hit == [hit[0]]; }
    WithoutIsClean(later, name);
    FilterAppend(front + hit, later, name);
    FilterAppend(front, hit, name);
    FilterAppend(front + [entry], Without(later, name), name);
    FilterAppend(front, [entry], name);
  }

  lemma SameSelf(name: string)
    ensures EqualsIgnoreCase(name, name)
  {
  }

  // ---- ServerResponse --------------------------------------------------------------

  /** What has been sent of one response: its head, and the pieces the application
      passed to `write` and `end` so far. */
  datatype Response = Response(status: nat, message: string, plain: seq<string>, framing: Framing, pieces: seq<string>)

  function SentText(r: Response, finished: bool): string {
    Block(StatusLine(r.status, r.message), r.plain + FramingLines(r.framing)) + BodyText(r.framing, r.pieces, finished)
  }

  /** A header an application may set here: it reads back as itself and leaves the
      framing to this runtime. */
  predicate PlainField(f: Field) { CleanName(f.name) && CleanText(f.value) && !FramingName(f.name) }

  predicate PlainFields(list: seq<Field>) { forall i :: 0 <= i < |list| ==> PlainField(list[i]) }

  /** A header value as the application gives it: one, or an array of them. */
  datatype HeaderValue = One(text: string) | Many(texts: seq<string>)

  datatype HeaderEntry = HeaderEntry(name: string, value: HeaderValue)

  /** A header line for each value. */
  function FieldsOf(e: HeaderEntry): (list: seq<Field>)
    ensures forall i :: 0 <= i < |list| ==> list[i].name == e.name
  {
    match e.value
    case One(text) => [Field(e.name, text)]
    case Many(texts) => seq(|texts|, i requires 0 <= i < |texts| => Field(e.name, texts[i]))
  }

  function FieldsOfAll(entries: seq<HeaderEntry>): seq<Field> {
    if entries == [] then [] else FieldsOfAll(entries[..|entries| - 1]) + FieldsOf(entries[|entries| - 1])
  }

  predicate PlainEntries(entries: seq<HeaderEntry>) {
    forall i :: 0 <= i < |entries| ==> PlainFields(FieldsOf(entries[i]))
  }

  lemma {:induction false} AllPlain(entries: seq<HeaderEntry>)
    requires PlainEntries(entries)
    ensures PlainFields(FieldsOfAll(entries))
  {
    if entries != [] { AllPlain(entries[..|entries| - 1]); }
  }

  /** `b` has the header as the entry says, and every other header as `a` has it. */
  predicate SetTo(a: seq<Field>, e: HeaderEntry, b: seq<Field>) {
    Only(b, e.name) == FieldsOf(e) && Without(b, e.name) == Without(a, e.name)
  }

  lemma {:induction false} OnlyAll(list: seq<Field>, name: string)
    requires forall i :: 0 <= i < |list| ==> list[i].name == name
    ensures Only(list, name) == list && Without(list, name) == []
  {
    if list != [] {
      SameSelf(name);
      OnlyAll(list[1..], name);
      assert list == [list[0]] + list[1..];
    }
  }

  lemma EachSet(a: seq<Field>, e: HeaderEntry)
    ensures SetTo(a, e, Without(a, e.name) + FieldsOf(e))
  {
    WithoutIsClean(a, e.name);
    OnlyAll(FieldsOf(e), e.name);
    FilterAppend(Without(a, e.name), FieldsOf(e), e.name);
  }

  /** Taking one header out leaves the others. */
  lemma {:induction false} OnlyOther(list: seq<Field>, name: string, other: string)
    requires !EqualsIgnoreCase(name, other)
    ensures Only(Without(list, name), other) == Only(list, other)
  {
    if list != [] {
      var head := if Same(list[0], name) then [] else [list[0]];
      OnlyAppend(head, Without(list[1..], name), other);
      OnlyOther(list[1..], name, other);
      FilterOne(list[0], other);
      if Same(list[0], name) { NotBoth(list[0], name, other); }
    }
  }

  lemma NotBoth(f: Field, name: string, other: string)
    requires Same(f, name) && !EqualsIgnoreCase(name, other)
    ensures !Same(f, other)
  {
    if |name| == |other| {
      var i :| 0 <= i < |name| && LowerChar(name[i]) != LowerChar(other[i]);
      assert LowerChar(f.name[i]) == LowerChar(name[i]);
    }
  }

  lemma SetOthers(a: seq<Field>, e: HeaderEntry, b: seq<Field>, other: string)
    requires SetTo(a, e, b) && !EqualsIgnoreCase(e.name, other)
    ensures Only(b, other) == Only(a, other)
  {
    OnlyOther(a, e.name, other);
    OnlyOther(b, e.name, other);
  }

  /** No entry from place `i` on has the name. */
  predicate NoneFrom(entries: seq<HeaderEntry>, i: nat, name: string) {
    forall j :: i <= j < |entries| ==> !EqualsIgnoreCase(entries[j].name, name)
  }

  /** Entries set one after another: each name has the values of its last entry, and a name
      without an entry what it had. */
  ghost predicate Staged(a: seq<Field>, entries: seq<HeaderEntry>, b: seq<Field>) {
    && (forall k :: 0 <= k < |entries| && NoneFrom(entries, k + 1, entries[k].name) ==>
         Only(b, entries[k].name) == FieldsOf(entries[k]))
    && (forall name :: NoneFrom(entries, 0, name) ==> Only(b, name) == Only(a, name))
  }

  lemma StagedMore(a: seq<Field>, entries: seq<HeaderEntry>, b: seq<Field>, e: HeaderEntry, c: seq<Field>)
    requires Staged(a, entries, b) && SetTo(b, e, c)
    ensures Staged(a, entries + [e], c)
  {
    var more := entries + [e];
    assert more[|entries|] == e;
    forall k | 0 <= k < |more| && NoneFrom(more, k + 1, more[k].name)
      ensures Only(c, more[k].name) == FieldsOf(more[k])
    {
      if k < |entries| {
        NoneBefore(entries, e, k + 1, more[k].name);
        SetOthers(b, e, c, more[k].name);
      }
    }
    forall name | NoneFrom(more, 0, name)
      ensures Only(c, name) == Only(a, name)
    {
      NoneBefore(entries, e, 0, name);
      SetOthers(b, e, c, name);
    }
  }

  lemma NoneBefore(entries: seq<HeaderEntry>, e: HeaderEntry, i: nat, name: string)
    requires NoneFrom(entries + [e], i, name) && i <= |entries|
    ensures NoneFrom(entries, i, name) && !EqualsIgnoreCase(e.name, name)
  {
    var more := entries + [e];
    assert more[|entries|] == e;
    forall j | i <= j < |entries| ensures !EqualsIgnoreCase(entries[j].name, name) { assert more[j] == entries[j]; }
  }

  function FieldLines(list: seq<Field>): (lines: seq<string>)
    ensures |lines| == |list|
    ensures forall i :: 0 <= i < |list| ==> lines[i] == FieldLine(list[i].name, list[i].value)
  {
    if list == [] then [] else [FieldLine(list[0].name, list[0].value)] + FieldLines(list[1..])
  }

  lemma {:induction false} FieldLinesAppend(a: seq<Field>, b: seq<Field>)
    ensures FieldLines(a + b) == FieldLines(a) + FieldLines(b)
  {
    if a == [] {
      assert a + b == b;
    } else {
      assert (a + b)[1..] == a[1..] + b;
      FieldLinesAppend(a[1..], b);
    }
  }

  /** What the response must satisfy to be read back. */
  ghost predicate Sound(r: Response, isHead: bool) {
    && CleanText(r.message)
    && (forall i :: 0 <= i < |r.plain| ==> PlainLine(r.plain[i]))
    && !r.framing.AppFramed?
    && (r.framing.NoBody? <==> isHead || BodilessStatus(r.status))
  }

  lemma FieldLinesPlain(list: seq<Field>)
    requires PlainFields(list)
    ensures forall i :: 0 <= i < |list| ==> PlainLine(FieldLines(list)[i])
  {
    forall i | 0 <= i < |list|
      ensures PlainLine(FieldLines(list)[i])
    {
      assert PlainField(list[i]);
    }
  }

  lemma ComputedPlain(date: string, sendDate: bool, hasConnection: bool, keepAlive: bool)
    requires CleanText(date)
    ensures var computed := ComputedLines(sendDate, date, hasConnection, keepAlive);
      forall i :: 0 <= i < |computed| ==> PlainLine(computed[i])
  {
    DateIsPlain(date);
    KeepConnectionIsPlain();
    CloseConnectionIsPlain();
    KeepAliveIsPlain();
  }

  /** What a client reads of the lines a response computes: whether the connection stays, as
      the server has decided, unless the application has said so itself, and the date. */
  lemma ComputedTold(date: string, sendDate: bool, hasConnection: bool, keepAlive: bool)
    ensures var lines := ComputedLines(sendDate, date, hasConnection, keepAlive);
      && (Lookup(lines, "connection") == if hasConnection then None
                                          else Some(if keepAlive then "keep-alive" else "close"))
      && (Lookup(lines, "date") == if sendDate then Some(HttpHead.Trim(date)) else None)
  {
    var c := ConnectionLines(hasConnection, keepAlive);
    ConnectionTold(hasConnection, keepAlive);
    if sendDate { DateTold(date, c); } else { assert [] + c == c; }
  }

  lemma DateTold(date: string, more: seq<string>)
    ensures Lookup(["Date: " + date] + more, "connection") == Lookup(more, "connection")
    ensures Lookup(["Date: " + date] + more, "date") == Some(HttpHead.Trim(date))
  {
    assert "Date: " + date == FieldLine(DATE, date);
    NamesApart();
    LookupFirst(DATE, date, more, "connection");
    LookupFirst(DATE, date, more, "date");
  }

  lemma ConnectionTold(hasConnection: bool, keepAlive: bool)
    ensures var lines := ConnectionLines(hasConnection, keepAlive);
      && (Lookup(lines, "connection") == if hasConnection then None
                                          else Some(if keepAlive then "keep-alive" else "close"))
      && Lookup(lines, "date") == None
  {
    NamesApart();
    if !hasConnection && keepAlive { KeepTold(); } else if !hasConnection { CloseLineTold(); }
  }

  lemma KeepTold()
    ensures Lookup(["Connection: keep-alive", "Keep-Alive: timeout=5"], "connection") == Some("keep-alive")
    ensures Lookup(["Connection: keep-alive", "Keep-Alive: timeout=5"], "date") == None
  {
    var first, second := FieldLine(CONNECTION, "keep-alive"), FieldLine(KEEP_ALIVE, "timeout=5");
    assert "Connection: keep-alive" == first && "Keep-Alive: timeout=5" == second;
    assert [first, second] == [first] + [second] && [second] == [second] + [];
    NamesApart();
    TrimNothing("keep-alive");
    LookupFirst(CONNECTION, "keep-alive", [second], "connection");
    LookupFirst(CONNECTION, "keep-alive", [second], "date");
    LookupFirst(KEEP_ALIVE, "timeout=5", [], "date");
  }

  lemma CloseLineTold()
    ensures Lookup(["Connection: close"], "connection") == Some("close")
    ensures Lookup(["Connection: close"], "date") == None
  {
    CloseTold();
    assert "Connection: close" == FieldLine(CONNECTION, "close");
    assert ["Connection: close"] == ["Connection: close"] + [];
    NamesApart();
    LookupFirst(CONNECTION, "close", [], "date");
  }

  lemma DateIsPlain(date: string)
    requires CleanText(date)
    ensures PlainLine("Date: " + date)
  {
    assert "Date: " + date == FieldLine("Date", date);
    assert CleanName("Date") && !FramingName("Date");
  }

  lemma KeepConnectionIsPlain()
    ensures PlainLine("Connection: keep-alive")
  {
    assert "Connection: keep-alive" == FieldLine("Connection", "keep-alive");
    assert CleanName("Connection") && !FramingName("Connection") && CleanText("keep-alive");
  }

  lemma CloseConnectionIsPlain()
    ensures PlainLine("Connection: close")
  {
    assert "Connection: close" == FieldLine("Connection", "close");
    assert CleanName("Connection") && !FramingName("Connection") && CleanText("close");
  }

  lemma KeepAliveIsPlain()
    ensures PlainLine("Keep-Alive: timeout=5")
  {
    assert "Keep-Alive: timeout=5" == FieldLine("Keep-Alive", "timeout=5");
    assert CleanName("Keep-Alive") && !FramingName("Keep-Alive") && CleanText("timeout=5");
  }

  lemma RegroupHead(line: string, nl: string, a: string, b: string)
    ensures (line + nl) + a + (b + nl) == line + nl + (a + b) + nl
  {
  }

  /** The head text, assembled from what each call appended. */
  lemma HeadIs(line: string, fields: seq<string>, computed: seq<string>, framing: seq<string>)
    ensures (line + CRLF) + Join(fields) + (Join(computed + framing) + CRLF)
         == Block(line, (fields + computed) + framing)
  {
    JoinAppend(fields, computed + framing);
    assert (fields + computed) + framing == fields + (computed + framing);
    RegroupHead(line, CRLF, Join(fields), Join(computed + framing));
  }

  lemma LinesSnoc(list: seq<Field>, i: nat)
    requires i < |list|
    ensures FieldLines(list[..i + 1]) == FieldLines(list[..i]) + [FieldLine(list[i].name, list[i].value)]
  {
    var more := FieldLines(list[..i]) + [FieldLine(list[i].name, list[i].value)];
    assert forall k :: 0 <= k <= i ==> FieldLines(list[..i + 1])[k] == more[k];
  }

  lemma OneLineMore(list: seq<Field>, i: nat, before: string)
    requires i < |list|
    ensures before + Join(FieldLines(list[..i + 1]))
      == before + Join(FieldLines(list[..i])) + (FieldLine(list[i].name, list[i].value) + CRLF)
  {
    var line := FieldLine(list[i].name, list[i].value);
    LinesSnoc(list, i);
    JoinAppend(FieldLines(list[..i]), [line]);
    JoinOne(line);
    Associates(before, Join(FieldLines(list[..i])), line + CRLF);
  }

  /** What one accepted piece adds to the output. */
  function Addition(f: Framing, piece: string): string {
    match f case NoBody => "" case Chunked => Chunk(piece) case _ => piece
  }

  lemma BodyGrows(f: Framing, pieces: seq<string>, piece: string)
    ensures BodyText(f, pieces + [piece], false) == BodyText(f, pieces, false) + Addition(f, piece)
  {
    ConcatAppend(pieces, [piece]);
    assert Concat([piece]) == piece + Concat([]);
    ChunkAllAppend(pieces, piece);
    assert ChunkAll(pieces) + "" == ChunkAll(pieces);
  }

  lemma SentGrows(r: Response, piece: string)
    ensures SentText(r.(pieces := r.pieces + [piece]), false) == SentText(r, false) + Addition(r.framing, piece)
  {
    BodyGrows(r.framing, r.pieces, piece);
    Associates(Block(StatusLine(r.status, r.message), r.plain + FramingLines(r.framing)),
              BodyText(r.framing, r.pieces, false), Addition(r.framing, piece));
  }

  lemma SentFinished(r: Response)
    ensures SentText(r, true) == SentText(r, false) + if r.framing.Chunked? then LAST_CHUNK else ""
  {
    assert ChunkAll(r.pieces) + "" == ChunkAll(r.pieces);
  }

  /** The payload of `write`: a chunk, the bytes themselves, or nothing. */
  method Payload(chunk: string, chunked: bool, suppressBody: bool, ghost f: Framing) returns (payload: string)
    requires chunked == f.Chunked? && suppressBody == f.NoBody?
    ensures payload == Addition(f, chunk)
  {
    payload := "";
    if |chunk| > 0 && !suppressBody {
      payload := if chunked then Print(|chunk|, 16) + CRLF + chunk + CRLF else chunk;
    }
  }

  lemma {:induction false} ChunkAllAppend(pieces: seq<string>, piece: string)
    ensures ChunkAll(pieces + [piece]) == ChunkAll(pieces) + Chunk(piece)
  {
    if pieces == [] {
      assert pieces + [piece] == [piece] && ChunkAll([piece]) == Chunk(piece) + ChunkAll([]);
    } else {
      assert (pieces + [piece])[1..] == pieces[1..] + [piece];
      ChunkAllAppend(pieces[1..], piece);
    }
  }

  class ServerResponse {
    const writer: HeadWriter
    const isHead: bool
    const http10: bool
    const keepAliveRequested: bool
    const reasons: map<nat, string>  // STATUS_CODES

    var statusCode: nat
    var statusMessage: string
    var sendDate: bool
    var finished: bool
    var headers: seq<Field>          // staged, in order
    var headersCommitted: bool
    var headWritten: bool
    var chunked: bool
    var suppressBody: bool
    var keepAliveFinal: bool
    var completed: Option<bool>      // __gea_http_done has been called with this

    ghost var sent: Response

    /** What the application set can be read back. */
    ghost predicate Clean()
      reads this
    {
      && PlainFields(headers) && CleanText(statusMessage) && CleanText(writer.date)
      && forall code :: code in reasons ==> CleanText(reasons[code])
    }

    /** The output is the response so far, and the flags are its framing. */
    ghost predicate Valid()
      reads this, writer
    {
      && Clean()
      && (!headersCommitted ==> writer.outbuf == "" && !finished && sent.pieces == [])
      && (headersCommitted ==>
        && Sound(sent, isHead)
        && writer.outbuf == SentText(sent, finished)
        && chunked == sent.framing.Chunked? && suppressBody == sent.framing.NoBody?
        && (keepAliveFinal ==> !sent.framing.UntilClose?)
        && (sent.framing.Sized? ==> finished && sent.framing.length == |Concat(sent.pieces)|))
      && (finished ==> headersCommitted)
      && completed == if finished then Some(keepAliveFinal) else None
    }

    constructor (isHead: bool, keepAliveRequested: bool, http10: bool, date: string, reasons: map<nat, string>)
      requires CleanText(date) && forall code :: code in reasons ==> CleanText(reasons[code])
      ensures Valid() && fresh(writer) && !headersCommitted && sent.pieces == [] && !finished
      ensures this.isHead == isHead && this.http10 == http10 && statusCode == 200
    {
      this.writer := new HeadWriter(date);
      this.isHead, this.http10, this.keepAliveRequested, this.reasons := isHead, http10, keepAliveRequested, reasons;
      statusCode, statusMessage, sendDate, finished, headers := 200, "", true, false, [];
      headersCommitted, headWritten, chunked, suppressBody := false, false, false, false;
      keepAliveFinal, completed := keepAliveRequested, None;
      sent := Response(200, "", [], NoBody, []);
    }

    /** What serializing the head with this status, and with the length of the whole body
        if it is known, decides. */
    ghost predicate Decided(status: nat, length: Option<nat>)
      reads this
    {
      sent.status == status && sent.framing
        == FramingFor(isHead || BodilessStatus(status), false, false, length, http10)
    }

    /** `statusText` */
    function Message(): string
      reads this
    {
      if statusMessage != "" then statusMessage
      else if statusCode in reasons && reasons[statusCode] != "" then reasons[statusCode]
      else "unknown"
    }

    method SetStatus(status: nat, message: string)
      requires Valid() && CleanText(message)
      modifies `statusCode, `statusMessage
      ensures Valid() && statusCode == status && statusMessage == message
    {
      statusCode, statusMessage := status, message;
    }

    /** `setHeader`, with one value or an array of them. */
    method SetHeader(e: HeaderEntry)
      requires Valid() && PlainFields(FieldsOf(e))
      modifies `headers
      ensures Valid() && SetTo(old(headers), e, headers)
    {
      match e.value
      case One(text) =>
        assert PlainField(FieldsOf(e)[0]);
        SetOne(e.name, text);
      case Many(texts) =>
        RemoveHeader(e.name);
        AppendHeader(e);
        EachSet(old(headers), e);
    }

    method SetOne(name: string, value: string)
      requires Valid() && PlainField(Field(name, value))
      modifies `headers
      ensures Valid()
      ensures Only(headers, name) == [Field(name, value)] && Without(headers, name) == Without(old(headers), name)
    {
      var out := SetStaged(headers, name, value);
      forall i | 0 <= i < |out| ensures PlainField(out[i]) { assert out[i] in out; }
      headers := out;
    }

    /** `appendHeader`, with one value or an array of them. */
    method AppendHeader(e: HeaderEntry)
      requires Valid() && PlainFields(FieldsOf(e))
      modifies `headers
      ensures Valid() && headers == old(headers) + FieldsOf(e)
    {
      match e.value
      case One(text) =>
        assert PlainField(FieldsOf(e)[0]);
        AppendOne(e.name, text);
      case Many(texts) => AppendEach(e.name, texts);
    }

    method AppendOne(name: string, value: string)
      requires Valid() && PlainField(Field(name, value))
      modifies `headers
      ensures Valid() && headers == old(headers) + [Field(name, value)]
    {
      headers := headers + [Field(name, value)];
    }

    method AppendEach(name: string, values: seq<string>)
      requires Valid() && PlainFields(FieldsOf(HeaderEntry(name, Many(values))))
      modifies `headers
      ensures Valid() && headers == old(headers) + FieldsOf(HeaderEntry(name, Many(values)))
    {
      ghost var fields := FieldsOf(HeaderEntry(name, Many(values)));
      var i := 0;
      while i < |values|
        invariant i <= |values| && Valid() && headers == old(headers) + fields[..i]
      {
        assert PlainField(fields[i]) && fields[..i + 1] == fields[..i] + [fields[i]];
        AppendOne(name, values[i]);
        i := i + 1;
      }
      assert fields[..i] == fields;
    }

    method RemoveHeader(name: string)
      requires Valid()
      modifies `headers
      ensures Valid() && headers == Without(old(headers), name)
    {
      var kept := DropAll(headers, name);
      WithoutIsClean(headers, name);
      forall i | 0 <= i < |kept| ensures PlainField(kept[i]) { assert kept[i] in kept; }
      headers := kept;
    }

    /** The staged or given headers, one line each, into the open block. */
    method EmitFields(list: seq<Field>)
      requires PlainFields(list) && !writer.hasContentLength && !writer.hasTransferEncoding
      modifies writer
      ensures writer.outbuf == old(writer.outbuf) + Join(FieldLines(list))
      ensures !writer.hasContentLength && !writer.hasTransferEncoding
    {
      var i := 0;
      while i < |list|
        invariant i <= |list| && writer.outbuf == old(writer.outbuf) + Join(FieldLines(list[..i]))
        invariant !writer.hasContentLength && !writer.hasTransferEncoding
      {
        assert PlainField(list[i]);
        OneLineMore(list, i, old(writer.outbuf));
        writer.HeadField(list[i].name, list[i].value);
        i := i + 1;
      }
      assert list[..i] == list;
    }

    /** `beginHead` and the fields. */
    method BeginHead(list: seq<Field>) returns (message: string)
      requires Clean() && PlainFields(list) && writer.outbuf == ""
      modifies writer, `headersCommitted
      ensures writer.outbuf == (StatusLine(statusCode, message) + CRLF) + Join(FieldLines(list))
      ensures CleanText(message) && headersCommitted && Clean()
      ensures !writer.hasContentLength && !writer.hasTransferEncoding
    {
      headersCommitted := true;
      message := Message();
      assert CleanText("unknown");
      writer.HeadBegin(statusCode, message);
      EmitFields(list);
    }

    /** The whole head: status line, fields, and the lines of `endHead`. */
    method SerializeHead(list: seq<Field>, autoContentLength: Option<nat>)
      requires Clean() && !headersCommitted && PlainFields(list) && writer.outbuf == ""
      modifies writer, `headersCommitted, `suppressBody, `chunked, `keepAliveFinal, `sent
      ensures headersCommitted && Clean() && Sound(sent, isHead) && sent.pieces == [] && sent.status == statusCode
      ensures writer.outbuf == SentText(sent, false)
      ensures chunked == sent.framing.Chunked? && suppressBody == sent.framing.NoBody?
      ensures keepAliveFinal ==> !sent.framing.UntilClose?
      ensures Decided(statusCode, autoContentLength) && FieldLines(list) <= sent.plain
    {
      var message := BeginHead(list);
      EndHead(list, message, autoContentLength);
    }

    /** `endHead`: the connection decides the framing and answers with it. */
    method EndHead(ghost list: seq<Field>, ghost message: string, autoContentLength: Option<nat>)
      requires CleanText(message) && CleanText(writer.date) && PlainFields(list)
      requires !writer.hasContentLength && !writer.hasTransferEncoding
      requires writer.outbuf == (StatusLine(statusCode, message) + CRLF) + Join(FieldLines(list))
      modifies writer`outbuf, `suppressBody, `chunked, `keepAliveFinal, `sent
      ensures Sound(sent, isHead) && sent.pieces == [] && sent.status == statusCode
      ensures sent.framing == FramingFor(suppressBody, false, false, autoContentLength, http10)
      ensures suppressBody == (isHead || BodilessStatus(statusCode)) && chunked == sent.framing.Chunked?
      ensures keepAliveFinal ==> !sent.framing.UntilClose?
      ensures writer.outbuf == SentText(sent, false) && FieldLines(list) <= sent.plain
    {
      var noBody := isHead || BodilessStatus(statusCode);
      suppressBody := noBody;
      var flags := HeadFlags(noBody, http10, keepAliveRequested, sendDate);
      ghost var computed;
      chunked, keepAliveFinal, computed := writer.CloseHead(flags, autoContentLength);
      ghost var f := FramingFor(noBody, false, false, autoContentLength, http10);
      sent := Assembled(statusCode, message, list, isHead, f, computed, writer.outbuf);
    }

    method CommitHeaders(autoContentLength: Option<nat>)
      requires Valid() && (headersCommitted || autoContentLength.None?)
      modifies writer, `headersCommitted, `suppressBody, `chunked, `keepAliveFinal, `sent
      ensures Valid() && headersCommitted && sent.pieces == old(sent.pieces)
      ensures if old(headersCommitted) then sent == old(sent) else Decided(statusCode, autoContentLength)
      ensures !old(headersCommitted) ==> FieldLines(headers) <= sent.plain
    {
      if !headersCommitted { SerializeHead(headers, autoContentLength); }
    }

    /** Payload joins the output; an empty first one only releases the head. */
    method EmitPayload(data: string)
      modifies writer`outbuf, `headWritten
      ensures writer.outbuf == old(writer.outbuf) + data
    {
      if !headWritten {
        headWritten := true;
        writer.outbuf := writer.outbuf + data;
        return;
      }
      if |data| > 0 { writer.outbuf := writer.outbuf + data; } else { assert writer.outbuf + data == writer.outbuf; }
    }

    /** `writeHead`: with nothing staged the entries go straight into the block; otherwise each
        replaces what is staged under its name, and the whole is serialized. */
    method WriteHead(status: nat, entries: seq<HeaderEntry>)
      requires Valid() && PlainEntries(entries)
      modifies this, writer
      ensures Valid() && headersCommitted && finished == old(finished) && sent.pieces == old(sent.pieces)
      ensures statusCode == status && if old(headersCommitted) then sent == old(sent) else Decided(status, None)
      ensures !old(headersCommitted) && old(headers) == [] ==> FieldLines(FieldsOfAll(entries)) <= sent.plain
      ensures !old(headersCommitted) && old(headers) != [] ==>
        Staged(old(headers), entries, headers) && FieldLines(headers) <= sent.plain
    {
      statusCode := status;
      if !headersCommitted && headers == [] { WriteAtOnce(entries); } else { WriteStaged(entries); }
    }

    method WriteAtOnce(entries: seq<HeaderEntry>)
      requires Valid() && !headersCommitted && PlainEntries(entries)
      modifies writer, `headersCommitted, `suppressBody, `chunked, `keepAliveFinal, `sent
      ensures Valid() && headersCommitted && sent.pieces == [] && Decided(statusCode, None)
      ensures FieldLines(FieldsOfAll(entries)) <= sent.plain
    {
      AllPlain(entries);
      SerializeHead(FieldsOfAll(entries), None);
    }

    method WriteStaged(entries: seq<HeaderEntry>)
      requires Valid() && PlainEntries(entries)
      modifies writer, `headers, `headersCommitted, `suppressBody, `chunked, `keepAliveFinal, `sent
      ensures Valid() && headersCommitted && sent.pieces == old(sent.pieces)
      ensures if old(headersCommitted) then sent == old(sent) else Decided(statusCode, None)
      ensures Staged(old(headers), entries, headers) && (!old(headersCommitted) ==> FieldLines(headers) <= sent.plain)
    {
      StageAll(entries);
      CommitHeaders(None);
    }

    /** The entries replace what is staged under their names. */
    method StageAll(entries: seq<HeaderEntry>)
      requires Valid() && PlainEntries(entries)
      modifies `headers
      ensures Valid() && Staged(old(headers), entries, headers)
    {
      var i := 0;
      while i < |entries|
        invariant i <= |entries| && Valid() && Staged(old(headers), entries[..i], headers)
      {
        assert PlainFields(FieldsOf(entries[i])) && entries[..i + 1] == entries[..i] + [entries[i]];
        StageOne(old(headers), entries[..i], entries[i]);
        i := i + 1;
      }
      assert entries[..i] == entries;
    }

    method StageOne(ghost start: seq<Field>, ghost done: seq<HeaderEntry>, e: HeaderEntry)
      requires Valid() && PlainFields(FieldsOf(e)) && Staged(start, done, headers)
      modifies `headers
      ensures Valid() && Staged(start, done + [e], headers)
    {
      ghost var before := headers;
      SetHeader(e);
      StagedMore(start, done, before, e, headers);
    }

    method FlushHeaders()
      requires Valid()
      modifies writer, `headersCommitted, `suppressBody, `chunked, `keepAliveFinal, `sent, `headWritten
      ensures Valid() && headersCommitted && sent.pieces == old(sent.pieces)
      ensures if old(headersCommitted) then sent == old(sent) else Decided(statusCode, None)
    {
      CommitHeaders(None);
      assert writer.outbuf + "" == writer.outbuf;
      EmitPayload("");
    }

    method Extend(chunk: string, payload: string)
      requires Valid() && headersCommitted && !finished && payload == Addition(sent.framing, chunk)
      modifies writer`outbuf, `headWritten, `sent
      ensures Valid() && sent == old(sent).(pieces := old(sent).pieces + [chunk])
    {
      SentGrows(sent, chunk);
      EmitPayload(payload);
      sent := sent.(pieces := sent.pieces + [chunk]);
    }

    /** `write`, for text and for octets alike. */
    method Write(chunk: string) returns (accepted: bool)
      requires Valid()
      modifies writer, `headersCommitted, `suppressBody, `chunked, `keepAliveFinal, `sent, `headWritten
      ensures Valid() && accepted == !old(finished) && finished == old(finished)
      ensures accepted ==> headersCommitted && sent.pieces == old(sent.pieces) + [chunk]
      ensures accepted && !old(headersCommitted) ==> Decided(statusCode, None)
      ensures old(headersCommitted) ==> sent == old(sent).(pieces := sent.pieces)
      ensures !accepted ==> sent == old(sent) && writer.outbuf == old(writer.outbuf)
    {
      if finished { return false; }
      CommitHeaders(None);
      var payload := Payload(chunk, chunked, suppressBody, sent.framing);
      Extend(chunk, payload);
      return true;
    }

    /** `enqueueFinalChunk`: size line, bytes and terminator in one piece. */
    method EnqueueFinalChunk(data: string)
      modifies writer`outbuf
      ensures writer.outbuf == old(writer.outbuf) + (Chunk(data) + LAST_CHUNK)
    {
      var text := "";
      if data != "" { text := Print(|data|, 16) + "\r\n" + data + "\r\n"; }
      writer.outbuf := writer.outbuf + (text + "0\r\n\r\n");
    }

    /** The last bytes of the body, and the terminator of a chunked one. */
    method FinishBody(chunk: string)
      requires chunked == sent.framing.Chunked? && suppressBody == sent.framing.NoBody?
      requires writer.outbuf == SentText(sent, false)
      modifies writer`outbuf, `headWritten, `sent
      ensures sent == old(sent).(pieces := old(sent).pieces + [chunk]) && writer.outbuf == SentText(sent, true)
    {
      SentGrows(sent, chunk);
      SentFinished(sent.(pieces := sent.pieces + [chunk]));
      if suppressBody {
        EmitPayload("");
      } else if chunked {
        headWritten := true;
        assert SentText(sent, false) + (Chunk(chunk) + LAST_CHUNK) == SentText(sent, false) + Chunk(chunk) + LAST_CHUNK;
        EnqueueFinalChunk(chunk);
      } else {
        EmitPayload(chunk);
      }
      sent := sent.(pieces := sent.pieces + [chunk]);
    }

    /** `end` */
    method End(chunk: string)
      requires Valid()
      modifies writer, `headersCommitted, `suppressBody, `chunked, `keepAliveFinal, `sent, `headWritten, `finished,
               `completed
      ensures Valid() && finished
      ensures if old(finished) then sent == old(sent) && writer.outbuf == old(writer.outbuf)
              else sent.pieces == old(sent.pieces) + [chunk]
      ensures if old(headersCommitted) then sent == old(sent).(pieces := sent.pieces)
        else Decided(statusCode, Some(|chunk|))
    {
      if finished { return; }
      CommitForEnd(|chunk|);
      Close(chunk);
    }

    /** The head is out, and the response takes its last bytes. */
    ghost predicate Closing(length: nat)
      reads this, writer
    {
      && Clean() && headersCommitted && Sound(sent, isHead) && writer.outbuf == SentText(sent, false)
      && chunked == sent.framing.Chunked? && suppressBody == sent.framing.NoBody?
      && (keepAliveFinal ==> !sent.framing.UntilClose?)
      && (sent.framing.Sized? ==> sent.pieces == [] && sent.framing.length == length)
    }

    method Close(chunk: string)
      requires Closing(|chunk|)
      modifies writer`outbuf, `sent, `headWritten, `finished, `completed
      ensures Valid() && finished && sent == old(sent).(pieces := old(sent).pieces + [chunk])
    {
      OnePiece(sent.pieces, chunk);
      FinishBody(chunk);
      finished, completed := true, Some(keepAliveFinal);
    }

    /** The head, with the length of the body if nothing has been written yet. */
    method CommitForEnd(length: nat)
      requires Valid() && !finished
      modifies writer, `headersCommitted, `suppressBody, `chunked, `keepAliveFinal, `sent
      ensures Closing(length) && sent.pieces == old(sent.pieces)
      ensures if old(headersCommitted) then sent == old(sent) else Decided(statusCode, Some(length))
    {
      if !headersCommitted { SerializeHead(headers, Some(length)); }
    }
  }

  lemma OnePiece(pieces: seq<string>, chunk: string)
    ensures pieces == [] ==> Concat(pieces + [chunk]) == chunk
  {
    if pieces == [] { assert pieces + [chunk] == [chunk] && Concat([chunk]) == chunk + Concat([]); }
  }

  /** A finished response is delimited for its reader: the reader takes exactly the
      body that was written, and stops at the first byte of whatever follows, unless
      the response runs to the close, and then the connection is not kept alive. */
  lemma Delimited(r: ServerResponse, rest: string)
    requires r.Valid() && r.finished
    ensures var sent := r.sent;
      ReadResponse(r.writer.outbuf + rest, r.isHead)
      == if sent.framing.UntilClose? then ToClose(sent.status, Concat(sent.pieces) + rest)
         else Bounded(sent.status, if r.isHead || BodilessStatus(sent.status) then "" else Concat(sent.pieces), rest)
    ensures r.completed == Some(true) ==> !r.sent.framing.UntilClose?
  {
    var s := r.sent;
    ResponseBack(s.status, s.message, s.plain, s.framing, s.pieces, rest, r.isHead);
    Associates(Block(StatusLine(s.status, s.message), s.plain + FramingLines(s.framing)),
               BodyText(s.framing, s.pieces, true), rest);
  }

  lemma Assembled(status: nat, message: string, list: seq<Field>, isHead: bool, f: Framing, computed: seq<string>,
                  out: string)
    returns (r: Response)
    requires CleanText(message) && PlainFields(list)
    requires forall i :: 0 <= i < |computed| ==> PlainLine(computed[i])
    requires !f.AppFramed? && (f.NoBody? <==> isHead || BodilessStatus(status))
    requires out == (StatusLine(status, message) + CRLF) + Join(FieldLines(list))
                    + (Join(computed + FramingLines(f)) + CRLF)
    ensures r.framing == f && r.status == status && r.pieces == [] && Sound(r, isHead) && out == SentText(r, false)
    ensures FieldLines(list) <= r.plain
  {
    HeadIs(StatusLine(status, message), FieldLines(list), computed, FramingLines(f));
    FieldLinesPlain(list);
    r := Response(status, message, FieldLines(list) + computed, f, []);
    assert out + "" == out && ChunkAll([]) + "" == "";
  }
}

/** Numbers on the wire and the chunked coding (section 7.1 of RFC 9112): what
    `write` and `enqueueFinalChunk` print, and that both readers take it back. */
module HttpChunks {
  import opened Sequences
  import opened Bytes
  import opened Wrappers
  import opened HttpHead
  import opened HttpMachine
  import opened HttpReference

  /** A printed digit is read back. */
  lemma DigitBack(d: nat)
    requires d < 16
    ensures HexDigit(DigitChar(d)) == Some(d)
  {
  }

  /** A digit in a base, or none. */
  function DigitIn(c: char, base: nat): Option<nat> {
    match HexDigit(c)
    case None => None
    case Some(d) => if d < base then Some(d) else None
  }

  /** A number of any size, read from the left. */
  function ReadNumber(text: string, base: nat, acc: nat): Option<nat> {
    if text == "" then Some(acc)
    else match DigitIn(text[0], base)
      case None => None
      case Some(d) => ReadNumber(text[1..], base, acc * base + d)
  }

  lemma ReadDigit(d: nat, base: nat, tail: string, acc: nat)
    requires d < base && (base == 10 || base == 16)
    ensures ReadNumber([DigitChar(d)] + tail, base, acc) == ReadNumber(tail, base, acc * base + d)
  {
    assert ([DigitChar(d)] + tail)[1..] == tail;
  }

  lemma FoldDigit(d: nat, tail: string, acc: nat, saw: bool)
    requires d < 16 && acc * 16 + d <= MAX_BODY
    ensures SizeFrom([DigitChar(d)] + tail, acc, saw) == SizeFrom(tail, acc * 16 + d, true)
  {
    assert ([DigitChar(d)] + tail)[1..] == tail;
  }

  lemma DivideBack(n: nat, base: nat, q: nat, d: nat)
    requires (base == 10 || base == 16) && q == n / base && d == n % base
    ensures d < base && q * base + d == n
  {
  }

  lemma {:induction false} PrintRead(n: nat, base: nat, tail: string)
    requires base == 10 || base == 16
    ensures ReadNumber(Print(n, base) + tail, base, 0) == ReadNumber(tail, base, n)
  {
    if n < base {
      ReadDigit(n, base, tail, 0);
    } else {
      var q, d := n / base, n % base;
      DivideBack(n, base, q, d);
      PrintRead(q, base, [DigitChar(d)] + tail);
      Associates(Print(q, base), [DigitChar(d)], tail);
      ReadDigit(d, base, tail, q);
    }
  }

  /** The server's own chunk-size fold reads a printed size back, with no overflow. */
  lemma {:induction false} PrintFold(n: nat, tail: string)
    requires n <= MAX_BODY
    ensures SizeFrom(Print(n, 16) + tail, 0, false) == SizeFrom(tail, n, true)
  {
    if n < 16 {
      FoldDigit(n, tail, 0, false);
    } else {
      var c := DigitChar(n % 16);
      PrintFold(n / 16, [c] + tail);
      assert Print(n, 16) + tail == Print(n / 16, 16) + ([c] + tail);
      FoldDigit(n % 16, tail, n / 16, true);
    }
  }

  // ---- chunks ----------------------------------------------------------------

  const LAST_CHUNK: string := "0\r\n\r\n"

  /** What one `write` of `piece` adds to a chunked response. */
  function Chunk(piece: string): string {
    if piece == "" then "" else Print(|piece|, 16) + CRLF + piece + CRLF
  }

  function ChunkAll(pieces: seq<string>): string {
    if pieces == [] then "" else Chunk(pieces[0]) + ChunkAll(pieces[1..])
  }

  /** A line without CR ends at the first CRLF after it. */
  lemma LineEnd(line: string, rest: string)
    requires forall i :: 0 <= i < |line| ==> line[i] != '\r'
    ensures IndexOf(line + CRLF + rest, CRLF, 0) == |line|
    ensures (line + CRLF + rest)[..|line|] == line && (line + CRLF + rest)[|line| + 2..] == rest
  {
    var s := line + CRLF + rest;
    assert s[|line|..|line| + 2] == CRLF;
    forall k: int | 0 <= k < |line|
      ensures !At(s, CRLF, k)
    {
      assert s[k] == line[k] && s[k..k + 2][0] == s[k];
    }
    IndexOfIs(s, CRLF, 0, |line|);
  }

  lemma NoReturn(s: string)
    requires AllDigits(s, 16)
    ensures forall i :: 0 <= i < |s| ==> s[i] != '\r'
  {
  }

  /** The chunk states take one printed chunk back. */
  lemma ChunkBack(piece: string, s: string, body: string)
    requires piece != "" && |body| + |piece| <= MAX_BODY
    ensures Chunks(Chunk(piece) + s, body) == Chunks(s, body + piece)
  {
    var n := |piece|;
    var line := Print(n, 16);
    var data := piece + CRLF + s;
    assert Chunk(piece) + s == line + CRLF + data;
    PrintDigits(n, 16);
    NoReturn(line);
    LineEnd(line, data);
    PrintFold(n, "");
    assert line + "" == line;
    assert ChunkSize(line) == Size(n);
    ChunkDataBack(piece, s, body);
  }

  lemma ChunkDataBack(piece: string, s: string, body: string)
    requires |body| + |piece| <= MAX_BODY
    ensures ChunkData(piece + CRLF + s, body, |piece|) == Chunks(s, body + piece)
  {
    var n := |piece|;
    var data := piece + CRLF + s;
    assert data[..n] == piece && data[n..n + 2] == CRLF && data[n + 2..] == s;
  }

  lemma LastBack(rest: string, body: string)
    ensures Chunks(LAST_CHUNK + rest, body) == Decoded(body, rest)
  {
    assert LAST_CHUNK + rest == "0" + CRLF + (CRLF + rest);
    LineEnd("0", CRLF + rest);
    PrintFold(0, "");
    assert Print(0, 16) == "0" && "0" + "" == "0";
    assert "" + CRLF + rest == CRLF + rest;
    LineEnd("", rest);
  }

  lemma PieceBack(piece: string, s: string, body: string)
    requires |body| + |piece| <= MAX_BODY
    ensures Chunks(Chunk(piece) + s, body) == Chunks(s, body + piece)
  {
    if piece == "" {
      assert Chunk(piece) + s == s && body + piece == body;
    } else {
      ChunkBack(piece, s, body);
    }
  }

  lemma {:induction false} PiecesBack(pieces: seq<string>, end: string, body: string)
    requires |body| + |Concat(pieces)| <= MAX_BODY
    ensures Chunks(ChunkAll(pieces) + end, body) == Chunks(end, body + Concat(pieces))
  {
    if pieces == [] {
      assert "" + end == end && body + "" == body;
    } else {
      var p, more := pieces[0], pieces[1..];
      Associates(Chunk(p), ChunkAll(more), end);
      Associates(body, p, Concat(more));
      PieceBack(p, ChunkAll(more) + end, body);
      PiecesBack(more, end, body + p);
    }
  }

  /** Any list of pieces within the cap, written as chunks and closed by the final
      one, decodes to their concatenation; the bytes after it are untouched. */
  lemma ChunkedRoundTrip(pieces: seq<string>, rest: string)
    requires |Concat(pieces)| <= MAX_BODY
    ensures Chunks(ChunkAll(pieces) + (LAST_CHUNK + rest), "") == Decoded(Concat(pieces), rest)
  {
    PiecesBack(pieces, LAST_CHUNK + rest, "");
    assert "" + Concat(pieces) == Concat(pieces);
    LastBack(rest, Concat(pieces));
  }

  // ---- no printed size line is over the limit ------------------------------------------------

  function Power16(k: nat): nat { if k == 0 then 1 else 16 * Power16(k - 1) }

  lemma {:induction false} PrintLength(n: nat, k: nat)
    requires k > 0 && n < Power16(k)
    ensures |Print(n, 16)| <= k
    decreases k
  {
    if n >= 16 {
      assert Power16(1) == 16;
      PrintLength(n / 16, k - 1);
    }
  }

  lemma ShortLine(n: nat)
    requires n <= MAX_BODY
    ensures !TooLong(Print(n, 16))
  {
    assert Power16(4) == 65536;
    assert Power16(7) == 4096 * Power16(4);
    PrintLength(n, 7);
  }

  lemma ChunkNotLong(piece: string, s: string, body: string)
    requires |body| + |piece| <= MAX_BODY
    ensures LongInChunks(Chunk(piece) + s, body) == LongInChunks(s, body + piece)
  {
    if piece == "" {
      assert Chunk(piece) + s == s && body + piece == body;
    } else {
      var n, line, data := |piece|, Print(|piece|, 16), piece + CRLF + s;
      assert Chunk(piece) + s == line + CRLF + data;
      PrintDigits(n, 16);
      NoReturn(line);
      LineEnd(line, data);
      PrintFold(n, "");
      assert line + "" == line;
      ShortLine(n);
      DataNotLong(piece, s, body);
    }
  }

  lemma DataNotLong(piece: string, s: string, body: string)
    requires piece != "" && |body| + |piece| <= MAX_BODY
    ensures LongBehind(piece + CRLF + s, body, Size(|piece|)) == LongInChunks(s, body + piece)
  {
    var n, data := |piece|, piece + CRLF + s;
    assert data[..n] == piece && data[n..n + 2] == CRLF && data[n + 2..] == s;
  }

  lemma LastNotLong(rest: string, body: string)
    ensures !LongInChunks(LAST_CHUNK + rest, body)
  {
    assert LAST_CHUNK + rest == "0" + CRLF + (CRLF + rest);
    LineEnd("0", CRLF + rest);
    PrintFold(0, "");
    assert Print(0, 16) == "0" && "0" + "" == "0";
  }

  lemma {:induction false} PiecesNotLong(pieces: seq<string>, rest: string, body: string)
    requires |body| + |Concat(pieces)| <= MAX_BODY
    ensures !LongInChunks(ChunkAll(pieces) + (LAST_CHUNK + rest), body)
  {
    if pieces == [] {
      assert "" + (LAST_CHUNK + rest) == LAST_CHUNK + rest;
      LastNotLong(rest, body);
    } else {
      var p, more := pieces[0], pieces[1..];
      Associates(Chunk(p), ChunkAll(more), LAST_CHUNK + rest);
      ChunkNotLong(p, ChunkAll(more) + (LAST_CHUNK + rest), body);
      PiecesNotLong(more, rest, body + p);
    }
  }

  /** The server's chunk states, fed the same bytes, dispatch exactly that body. */
  lemma ServerDecodesChunks(c: Conn, h: Handler, pieces: seq<string>, rest: string)
    requires !Blocked(c) && c.parse.AtChunkSize? && c.parse.body == ""
    requires c.inbuf == ChunkAll(pieces) + (LAST_CHUNK + rest) && |Concat(pieces)| <= MAX_BODY
    ensures Settle(c, h) == Settle(Dispatched(c.(inbuf := rest), h, c.parse.head, Concat(pieces)), h)
  {
    ChunksMean(c, h);
    ChunkedRoundTrip(pieces, rest);
    PiecesNotLong(pieces, rest, "");
    assert c == c.(longLine := c.longLine);
  }
}

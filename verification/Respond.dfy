/**
  Responses: their headers, the pieces they are printed in, and the text that results.
 */
module Respond {
  import opened Head
  import opened HeadRoundTrip
  import opened Digits
  import opened ReadBuffer
  import opened OutputBuffer

  const RESPONSE_BUF_SIZE := 1024

  // --- pieces ---

  /** Sizes and capacities do not depend on what lies behind the pieces. */
  function NextSize(size: nat, capacity: nat, p: Piece): nat {
    if p.Print? && size + |p.s| > capacity then size + |p.s| + |p.s| else size + |p.s|
  }

  function NextCapacity(size: nat, capacity: nat, p: Piece): nat
    requires 0 < capacity
  {
    if size + |p.s| <= capacity then capacity
    else if p.Copy? then size + |p.s| else Doubled(capacity, size + |p.s|)
  }

  /** The count of bytes never runs past the capacity while the pieces are written. */
  predicate Inside(size: nat, capacity: nat, pieces: seq<Piece>)
    requires 0 < capacity
    decreases |pieces|
  {
    size <= capacity &&
    (pieces == [] || Inside(NextSize(size, capacity, pieces[0]), NextCapacity(size, capacity, pieces[0]), pieces[1..]))
  }

  lemma InsideRest(size: nat, capacity: nat, pieces: seq<Piece>)
    requires 0 < capacity && Inside(size, capacity, pieces)
    ensures size <= capacity
    ensures pieces != [] ==> Inside(NextSize(size, capacity, pieces[0]), NextCapacity(size, capacity, pieces[0]),
      pieces[1..])
  {
  }

  lemma {:induction false} FitsIsInside(size: nat, capacity: nat, pieces: seq<Piece>)
    requires 0 < capacity && size <= capacity && AllFit(size, capacity, pieces)
    ensures Inside(size, capacity, pieces)
    decreases |pieces|
  {
    if pieces != [] {
      FitsIsInside(NextSize(size, capacity, pieces[0]), NextCapacity(size, capacity, pieces[0]), pieces[1..]);
    }
  }

  lemma PutSizes(o: Out, p: Piece, junk: string)
    requires 0 < o.capacity && |junk| == |p.s|
    ensures var r := Put(o, p, junk);
      |r.text| == NextSize(|o.text|, o.capacity, p) && r.capacity == NextCapacity(|o.text|, o.capacity, p)
  {
  }

  lemma {:induction false} RunBoth(o: Out, a: seq<Piece>, b: seq<Piece>, ja: seq<string>, jb: seq<string>)
    requires 0 < o.capacity && JunkFor(a, ja) && JunkFor(b, jb)
    ensures JunkFor(a + b, ja + jb) && Run(o, a + b, ja + jb) == Run(Run(o, a, ja), b, jb)
    decreases |a|
  {
    if a == [] {
      assert a + b == b && ja + jb == jb;
    } else {
      assert (a + b)[1..] == a[1..] + b && (ja + jb)[1..] == ja[1..] + jb;
      RunBoth(Put(o, a[0], ja[0]), a[1..], b, ja[1..], jb);
    }
  }

  lemma {:induction false} JoinedBoth(a: seq<Piece>, b: seq<Piece>)
    ensures Joined(a + b) == Joined(a) + Joined(b)
  {
    if a == [] {
      assert a + b == b;
    } else {
      assert (a + b)[1..] == a[1..] + b;
      JoinedBoth(a[1..], b);
    }
  }

  lemma RunNothing(o: Out)
    requires 0 < o.capacity
    ensures Run(o, [], []) == o
  {
  }

  lemma RunOneMore(o: Out, a: seq<Piece>, p: Piece, ja: seq<string>, j: string)
    requires 0 < o.capacity && JunkFor(a, ja) && |j| == |p.s|
    ensures JunkFor(a + [p], ja + [j]) && Run(o, a + [p], ja + [j]) == Put(Run(o, a, ja), p, j)
  {
    RunBoth(o, a, [p], ja, [j]);
    assert [p][1..] == [] && [j][1..] == [];
  }

  lemma {:induction false} InsideFront(size: nat, capacity: nat, a: seq<Piece>, b: seq<Piece>)
    requires 0 < capacity && Inside(size, capacity, a + b)
    ensures Inside(size, capacity, a)
    decreases |a|
  {
    if a != [] {
      assert (a + b)[1..] == a[1..] + b;
      InsideFront(NextSize(size, capacity, a[0]), NextCapacity(size, capacity, a[0]), a[1..], b);
    }
  }

  lemma {:induction false} InsideBack(o: Out, a: seq<Piece>, b: seq<Piece>, ja: seq<string>)
    requires 0 < o.capacity && JunkFor(a, ja) && Inside(|o.text|, o.capacity, a + b)
    ensures var r := Run(o, a, ja); Inside(|r.text|, r.capacity, b)
    decreases |a|
  {
    if a == [] {
      assert a + b == b;
    } else {
      assert (a + b)[1..] == a[1..] + b;
      PutSizes(o, a[0], ja[0]);
      InsideBack(Put(o, a[0], ja[0]), a[1..], b, ja[1..]);
    }
  }

  /** Wherever the pieces are cut, the count is within the capacity. */
  lemma Room(o: Out, a: seq<Piece>, b: seq<Piece>, ja: seq<string>)
    requires 0 < o.capacity && JunkFor(a, ja) && Inside(|o.text|, o.capacity, a + b)
    ensures var r := Run(o, a, ja); |r.text| <= r.capacity && Inside(|r.text|, r.capacity, b)
  {
    InsideBack(o, a, b, ja);
    InsideRest(|Run(o, a, ja).text|, Run(o, a, ja).capacity, b);
  }

  function HeaderLine(h: Header): string { h.key + ": " + h.value + "\r\n" }

  function HeaderLines(hs: seq<Header>): string {
    if hs == [] then "" else HeaderLines(hs[..|hs| - 1]) + HeaderLine(hs[|hs| - 1])
  }

  function HeaderPieces(headers: seq<Header>): seq<Piece> {
    seq(|headers|, i requires 0 <= i < |headers| => Print(HeaderLine(headers[i])))
  }

  /** The header list and the blank line. */
  function ListPieces(headers: seq<Header>): seq<Piece> { HeaderPieces(headers) + [Print("\r\n")] }

  function StatusLine(status: nat, reason: string, date: string): string {
    "HTTP/1.1 " + PrintDecimal(status) + " " + reason + "\r\nDate: " + date + "\r\n"
  }

  function ContentLengthLine(n: nat): string { "Content-Length: " + PrintDecimal(n) + "\r\n" }

  /** The pieces of a response head; a chunked response announces no length. */
  function HeadPieces(status: nat, reason: string, date: string, chunked: bool, length: nat,
      headers: seq<Header>): seq<Piece> {
    [Print(StatusLine(status, reason, date))] +
    (if chunked then [] else [Print(ContentLengthLine(length))]) + ListPieces(headers)
  }

  function HeadText(status: nat, reason: string, date: string, chunked: bool, length: nat,
      headers: seq<Header>): string {
    StatusLine(status, reason, date) + (if chunked then "" else ContentLengthLine(length)) + HeaderLines(headers)
      + "\r\n"
  }

  lemma {:induction false} HeaderPiecesText(headers: seq<Header>)
    ensures Joined(HeaderPieces(headers)) == HeaderLines(headers)
  {
    if headers != [] {
      var before := headers[..|headers| - 1];
      var last := Print(HeaderLine(headers[|headers| - 1]));
      HeaderPiecesText(before);
      assert HeaderPieces(headers) == HeaderPieces(before) + [last];
      JoinedBoth(HeaderPieces(before), [last]);
      assert Joined([last]) == last.s + Joined([]);
    }
  }

  lemma ListPiecesText(headers: seq<Header>)
    ensures Joined(ListPieces(headers)) == HeaderLines(headers) + "\r\n"
  {
    HeaderPiecesText(headers);
    JoinedBoth(HeaderPieces(headers), [Print("\r\n")]);
    assert Joined([Print("\r\n")]) == "\r\n" + Joined([]);
  }

  lemma HeadPiecesText(status: nat, reason: string, date: string, chunked: bool, length: nat, headers: seq<Header>)
    ensures Joined(HeadPieces(status, reason, date, chunked, length, headers)) ==
            HeadText(status, reason, date, chunked, length, headers)
  {
    var line := [Print(StatusLine(status, reason, date))];
    var len := if chunked then [] else [Print(ContentLengthLine(length))];
    ListPiecesText(headers);
    JoinedBoth(line + len, ListPieces(headers));
    JoinedBoth(line, len);
    assert Joined(line) == StatusLine(status, reason, date) + Joined([]);
    assert !chunked ==> Joined(len) == ContentLengthLine(length) + Joined([]);
  }

  /** Formatted text: not empty, and without zero bytes. */
  predicate Printable(pieces: seq<Piece>) {
    forall i :: 0 <= i < |pieces| ==> pieces[i].Print? && pieces[i].s != "" && NoZero(pieces[i])
  }

  /** A response is exactly its head followed by its body if and only if the head is shorter than the
      initial buffer; the size of the body does not matter. */
  lemma ResponseText(head: seq<Piece>, body: string, junks: seq<string>)
    requires Printable(head) && JunkFor(head + [Copy(body)], junks)
    ensures var r := Run(Out("", RESPONSE_BUF_SIZE), head + [Copy(body)], junks);
      && (r.text == Joined(head) + body <==> |Joined(head)| < RESPONSE_BUF_SIZE)
      && (|Joined(head)| < RESPONSE_BUF_SIZE ==> |r.text| <= r.capacity)
  {
    var pieces := head + [Copy(body)];
    PrintsFitIfShort(0, RESPONSE_BUF_SIZE, head, [Copy(body)]);
    OutputIsConcatenation(Out("", RESPONSE_BUF_SIZE), pieces, junks);
    JoinedBoth(head, [Copy(body)]);
    assert Joined([Copy(body)]) == body + Joined([]);
  }

  // --- chunk frames ---

  /** The pieces of a chunk, after the head when it is the first. */
  function ChunkPieces(head: seq<Piece>, chunk: string): seq<Piece> {
    head + [Print(PrintHex(|chunk|) + "\r\n")] + [Copy(chunk), Print("\r\n")]
  }

  /** The pieces that end a chunked response: the size line of the last chunk, the trailers with their
      blank line, and one line end more. */
  function EndPieces(trailers: seq<Header>): seq<Piece> {
    [Print("0\r\n")] + ListPieces(trailers) + [Print("\r\n")]
  }

  function EndText(trailers: seq<Header>): string { "0\r\n" + HeaderLines(trailers) + "\r\n" + "\r\n" }

  lemma ChunkPiecesText(head: seq<Piece>, chunk: string)
    ensures Joined(ChunkPieces(head, chunk)) == Joined(head) + (PrintHex(|chunk|) + "\r\n" + chunk + "\r\n")
  {
    var size := [Print(PrintHex(|chunk|) + "\r\n")];
    var data := [Copy(chunk), Print("\r\n")];
    JoinedBoth(head + size, data);
    JoinedBoth(head, size);
    assert Joined(size) == PrintHex(|chunk|) + "\r\n" + Joined([]);
    assert data[1..] == [Print("\r\n")] && Joined(data[1..]) == "\r\n" + Joined([]);
    assert Joined(data) == chunk + "\r\n";
  }

  lemma EndPiecesText(trailers: seq<Header>)
    ensures Joined(EndPieces(trailers)) == EndText(trailers)
  {
    ListPiecesText(trailers);
    JoinedBoth([Print("0\r\n")] + ListPieces(trailers), [Print("\r\n")]);
    JoinedBoth([Print("0\r\n")], ListPieces(trailers));
    assert Joined([Print("0\r\n")]) == "0\r\n" + Joined([]);
    assert Joined([Print("\r\n")]) == "\r\n" + Joined([]);
  }

  lemma HexHasNoZero(n: nat)
    ensures '\0' !in PrintHex(n)
  {
    HexRoundTrip(n);
  }

  /** The line end after copied data fits exactly if all of it stays below the initial capacity: once
      the data has made the buffer grow, it is full. */
  lemma LineEndFits(size: nat, capacity: nat, data: string)
    requires size < capacity
    ensures AllFit(size, capacity, [Copy(data), Print("\r\n")]) <==> size + |data| + 2 < capacity
  {
    var pieces := [Copy(data), Print("\r\n")];
    var size' := size + |data|;
    var capacity' := if size' > capacity then size' else capacity;
    assert pieces[1..] == [Print("\r\n")];
    assert AllFit(size', capacity', [Print("\r\n")]) <==> size' + 2 < capacity' && AllFit(size' + 2, capacity', []);
  }

  /** A chunk is printed exactly if and only if all of its output stays below the initial capacity. */
  lemma ChunkText(head: seq<Piece>, chunk: string, junks: seq<string>)
    requires Printable(head) && JunkFor(ChunkPieces(head, chunk), junks)
    ensures var pieces := ChunkPieces(head, chunk); var r := Run(Out("", RESPONSE_BUF_SIZE), pieces, junks);
      && (r.text == Joined(pieces) <==> |Joined(pieces)| < RESPONSE_BUF_SIZE)
      && (|Joined(pieces)| < RESPONSE_BUF_SIZE ==> |r.text| <= r.capacity)
  {
    var pieces := ChunkPieces(head, chunk);
    var prints := head + [Print(PrintHex(|chunk|) + "\r\n")];
    HexHasNoZero(|chunk|);
    PrintsThen(0, RESPONSE_BUF_SIZE, prints, [Copy(chunk), Print("\r\n")]);
    JoinedBoth(prints, [Copy(chunk), Print("\r\n")]);
    assert Joined([Copy(chunk), Print("\r\n")]) == chunk + Joined([Copy(chunk), Print("\r\n")][1..]);
    assert [Copy(chunk), Print("\r\n")][1..] == [Print("\r\n")] && Joined([Print("\r\n")]) == "\r\n" + Joined([]);
    if |Joined(prints)| < RESPONSE_BUF_SIZE {
      LineEndFits(|Joined(prints)|, RESPONSE_BUF_SIZE, chunk);
    }
    OutputIsConcatenation(Out("", RESPONSE_BUF_SIZE), pieces, junks);
  }

  /** The same for the end of a chunked response. */
  lemma EndIsExact(trailers: seq<Header>, junks: seq<string>)
    requires Printable(ListPieces(trailers)) && JunkFor(EndPieces(trailers), junks)
    ensures var r := Run(Out("", RESPONSE_BUF_SIZE), EndPieces(trailers), junks);
      && (r.text == EndText(trailers) <==> |EndText(trailers)| < RESPONSE_BUF_SIZE)
      && (|EndText(trailers)| < RESPONSE_BUF_SIZE ==> |r.text| <= r.capacity)
  {
    var pieces := EndPieces(trailers);
    EndPiecesText(trailers);
    EndIsPrinted(trailers);
    PrintsThen(0, RESPONSE_BUF_SIZE, pieces, []);
    assert pieces + [] == pieces;
    OutputIsConcatenation(Out("", RESPONSE_BUF_SIZE), pieces, junks);
  }

  lemma EndIsPrinted(trailers: seq<Header>)
    requires Printable(ListPieces(trailers))
    ensures Printable(EndPieces(trailers))
  {
    var list := ListPieces(trailers);
    forall i | 0 <= i < |EndPieces(trailers)|
      ensures var p := EndPieces(trailers)[i]; p.Print? && p.s != "" && NoZero(p) {
      assert 1 <= i <= |list| ==> EndPieces(trailers)[i] == list[i - 1];
    }
  }

  // --- replies ---

  /** What user code asks to be sent: a whole response, a chunk, or the end of a chunked response. */
  datatype Reply =
    | Whole(status: nat, reason: string, date: string, headers: seq<Header>, body: string)
    | ChunkOf(status: nat, reason: string, date: string, headers: seq<Header>, chunk: string)
    | LastChunk(trailers: seq<Header>)

  function ConnectionHeader(keepAlive: bool): Header {
    Header("Connection", if keepAlive then "keep-alive" else "close")
  }

  const CHUNKED_CODING := Header("Transfer-Encoding", "chunked")

  /** The head that goes before the reply; later chunks have none. */
  function ReplyHead(r: Reply, keepAlive: bool, started: bool): seq<Piece> {
    match r
    case Whole(status, reason, date, headers, body) =>
      HeadPieces(status, reason, date, started, |body|, [ConnectionHeader(keepAlive)] + headers)
    case ChunkOf(status, reason, date, headers, chunk) =>
      if started then []
      else HeadPieces(status, reason, date, true, |chunk|, [ConnectionHeader(keepAlive), CHUNKED_CODING] + headers)
    case LastChunk(_) => []
  }

  /** Everything a reply writes; `started` while a chunked response is under way. */
  function ReplyPieces(r: Reply, keepAlive: bool, started: bool): seq<Piece> {
    match r
    case Whole(_, _, _, _, body) => ReplyHead(r, keepAlive, started) + [Copy(body)]
    case ChunkOf(_, _, _, _, chunk) => ChunkPieces(ReplyHead(r, keepAlive, started), chunk)
    case LastChunk(trailers) => EndPieces(trailers)
  }

  /** The text a reply is meant to put on the wire. */
  function ReplyText(r: Reply, keepAlive: bool, started: bool): string {
    Joined(ReplyHead(r, keepAlive, started)) +
    match r
    case Whole(_, _, _, _, body) => body
    case ChunkOf(_, _, _, _, chunk) => PrintHex(|chunk|) + "\r\n" + chunk + "\r\n"
    case LastChunk(trailers) => EndText(trailers)
  }

  predicate StartedAfter(r: Reply, started: bool) {
    match r
    case Whole(_, _, _, _, _) => started
    case ChunkOf(_, _, _, _, _) => true
    case LastChunk(_) => false
  }

  /** What is formatted is text, without zero bytes. */
  predicate Clean(r: Reply, keepAlive: bool, started: bool) {
    if r.LastChunk? then Printable(ListPieces(r.trailers)) else Printable(ReplyHead(r, keepAlive, started))
  }

  /** The head of a whole response, or all of a chunk, stays below the initial capacity. */
  predicate Short(r: Reply, keepAlive: bool, started: bool) {
    |if r.Whole? then Joined(ReplyHead(r, keepAlive, started))
      else ReplyText(r, keepAlive, started)| < RESPONSE_BUF_SIZE
  }

  /** A reply goes out as it is meant if and only if it is short in this sense, whatever lay in the
      memory behind it; the body of a whole response may have any size, a chunk may not. */
  lemma ReplyIsPrinted(r: Reply, keepAlive: bool, started: bool, junks: seq<string>)
    requires JunkFor(ReplyPieces(r, keepAlive, started), junks) && Clean(r, keepAlive, started)
    ensures var o := Run(Out("", RESPONSE_BUF_SIZE), ReplyPieces(r, keepAlive, started), junks);
      && (o.text == ReplyText(r, keepAlive, started) <==> Short(r, keepAlive, started))
      && (Short(r, keepAlive, started) ==> |o.text| <= o.capacity)
  {
    hide HeadPieces, ChunkPieces, EndPieces, EndText, Run, JunkFor, Printable;
    match r
    case Whole(_, _, _, _, body) => ResponseText(ReplyHead(r, keepAlive, started), body, junks);
    case ChunkOf(_, _, _, _, chunk) =>
      ChunkPiecesText(ReplyHead(r, keepAlive, started), chunk);
      ChunkText(ReplyHead(r, keepAlive, started), chunk, junks);
    case LastChunk(trailers) => EndIsExact(trailers, junks);
  }

  // --- the response object ---

  class HttpResponse {
    /** The header list, the last one set in front. */
    var headers: seq<Header>
    var body: string
    var hasBody: bool
    var status: nat

    constructor ()
      ensures headers == [] && !hasBody && body == "" && status == 200
    {
      headers, body, hasBody, status := [], "", false, 200;
    }

    method SetHeader(key: string, value: string)
      modifies this`headers
      ensures headers == [Header(key, value)] + old(headers)
    {
      headers := [Header(key, value)] + headers;
    }

    method SetStatus(status: int)
      modifies this`status
      ensures this.status == (if 100 <= status <= 599 then status else 500)
    {
      this.status := if status > 599 || status < 100 then 500 else status;
    }

    method SetBody(body: string)
      modifies this`body, this`hasBody
      ensures this.body == body && hasBody
    {
      this.body, hasBody := body, true;
    }
  }

  /** One piece printed into the buffer. */
  method PrintPiece(ctx: GrowBuf, s: string, ledger: Ledger, ghost pieces: seq<Piece>, ghost junks: seq<string>,
      ghost o: Out)
    returns (ghost pieces': seq<Piece>, ghost junks': seq<string>)
    requires ctx.Valid() && ctx.size <= ctx.buf.Length
    requires 0 < o.capacity && JunkFor(pieces, junks) && ctx.View() == Run(o, pieces, junks)
    modifies ctx, ctx.buf, ledger`memused
    ensures ctx.Valid() && (ctx.buf == old(ctx.buf) || fresh(ctx.buf))
    ensures pieces' == pieces + [Print(s)] && JunkFor(pieces', junks') && ctx.View() == Run(o, pieces', junks')
    ensures ctx.size == NextSize(old(ctx.size), old(ctx.buf.Length), Print(s))
    ensures ctx.buf.Length == NextCapacity(old(ctx.size), old(ctx.buf.Length), Print(s))
    ensures ledger.memused - old(ledger.memused) == ctx.buf.Length - old(ctx.buf.Length)
  {
    ghost var junk := ctx.Printf(s, ledger);
    pieces', junks' := pieces + [Print(s)], junks + [junk];
    RunBoth(o, pieces, [Print(s)], junks, [junk]);
    PutSizes(old(ctx.View()), Print(s), junk);
    assert [Print(s)][1..] == [] && [junk][1..] == [];
  }

  method SerializeHeadersList(headers: seq<Header>, ctx: GrowBuf, ledger: Ledger) returns (ghost junks: seq<string>)
    requires ctx.Valid() && Inside(ctx.size, ctx.buf.Length, ListPieces(headers))
    modifies ctx, ctx.buf, ledger`memused
    ensures ctx.Valid() && (ctx.buf == old(ctx.buf) || fresh(ctx.buf)) && ctx.size <= ctx.buf.Length
    ensures JunkFor(ListPieces(headers), junks) && ctx.View() == Run(old(ctx.View()), ListPieces(headers), junks)
    ensures ledger.memused - old(ledger.memused) == ctx.buf.Length - old(ctx.buf.Length)
  {
    ghost var o, all := ctx.View(), ListPieces(headers);
    ghost var pieces: seq<Piece> := [];
    junks := [];
    var i := 0;
    while i < |headers|
      invariant 0 <= i <= |headers| && pieces == all[..i] && JunkFor(pieces, junks)
      invariant ctx.Valid() && (ctx.buf == old(ctx.buf) || fresh(ctx.buf))
      invariant ctx.View() == Run(o, pieces, junks) && Inside(ctx.size, ctx.buf.Length, all[i..])
      invariant ledger.memused - old(ledger.memused) == ctx.buf.Length - old(ctx.buf.Length)
    {
      assert all[i..][0] == Print(HeaderLine(headers[i])) && all[i..][1..] == all[i + 1..];
      pieces, junks := PrintPiece(ctx, headers[i].key + ": " + headers[i].value + "\r\n", ledger, pieces, junks, o);
      i := i + 1;
    }
    assert all[i..] == [Print("\r\n")] && all[i..][1..] == [];
    pieces, junks := PrintPiece(ctx, "\r\n", ledger, pieces, junks, o);
    assert pieces == all;
  }

  /** Adds the Connection header and prints the head; a chunked response announces no length. */
  method SerializeHeaders(response: HttpResponse, keepAlive: bool, chunked: bool, reason: string, date: string,
                          ctx: GrowBuf, ledger: Ledger)
    returns (ghost junks: seq<string>)
    requires ctx.Valid()
    requires Inside(ctx.size, ctx.buf.Length, HeadPieces(response.status, reason, date, chunked, |response.body|,
                                                         [ConnectionHeader(keepAlive)] + response.headers))
    modifies response`headers, ctx, ctx.buf, ledger`memused
    ensures response.headers == [ConnectionHeader(keepAlive)] + old(response.headers)
    ensures ctx.Valid() && (ctx.buf == old(ctx.buf) || fresh(ctx.buf)) && ctx.size <= ctx.buf.Length
    ensures var pieces := HeadPieces(response.status, reason, date, chunked, |response.body|, response.headers);
      JunkFor(pieces, junks) && ctx.View() == Run(old(ctx.View()), pieces, junks)
    ensures ledger.memused - old(ledger.memused) == ctx.buf.Length - old(ctx.buf.Length)
  {
    hide ListPieces, StatusLine, ContentLengthLine, Inside, NextSize, NextCapacity, Run;
    if keepAlive {
      response.SetHeader("Connection", "keep-alive");
    } else {
      response.SetHeader("Connection", "close");
    }
    ghost var o := ctx.View();
    ghost var pieces: seq<Piece> := [];
    ghost var all := HeadPieces(response.status, reason, date, chunked, |response.body|, response.headers);
    ghost var rest := all;
    junks := [];
    InsideRest(ctx.size, ctx.buf.Length, rest);
    assert ctx.View() == Run(o, pieces, junks) by { RunNothing(o); }
    assert rest[0] == Print(StatusLine(response.status, reason, date));
    pieces, junks := PrintPiece(ctx, StatusLine(response.status, reason, date), ledger, pieces, junks, o);
    rest := rest[1..];
    assert Inside(ctx.size, ctx.buf.Length, rest);
    if !chunked {
      InsideRest(ctx.size, ctx.buf.Length, rest);
      assert rest[0] == Print(ContentLengthLine(|response.body|));
      pieces, junks := PrintPiece(ctx, ContentLengthLine(|response.body|), ledger, pieces, junks, o);
      rest := rest[1..];
    }
    assert rest == ListPieces(response.headers) && pieces + rest == all;
    ghost var more := SerializeHeadersList(response.headers, ctx, ledger);
    RunBoth(o, pieces, rest, junks, more);
    junks := junks + more;
  }

  /** The reply a response object stands for. */
  ghost function WholeReply(response: HttpResponse, reason: string, date: string): Reply
    reads response
  {
    Whole(response.status, reason, date, response.headers, response.body)
  }

  ghost function ChunkReply(response: HttpResponse, reason: string, date: string): Reply
    reads response
  {
    ChunkOf(response.status, reason, date, response.headers, response.body)
  }

  /** The output buffer holds what the pieces of the reply leave in it. */
  ghost predicate Carries(ctx: GrowBuf, r: Reply, keepAlive: bool, started: bool, junks: seq<string>)
    reads ctx, ctx.buf
  {
    && ctx.Valid() && ctx.size <= ctx.buf.Length
    && JunkFor(ReplyPieces(r, keepAlive, started), junks)
    && ctx.View() == Run(Out("", RESPONSE_BUF_SIZE), ReplyPieces(r, keepAlive, started), junks)
  }

  /** Every attempt to print finds the count within the capacity. */
  predicate Safe(r: Reply, keepAlive: bool, started: bool) {
    Inside(0, RESPONSE_BUF_SIZE, ReplyPieces(r, keepAlive, started))
  }

  /** The buffer of a whole response. */
  method RespondWhole(response: HttpResponse, keepAlive: bool, started: bool, reason: string, date: string,
      ledger: Ledger)
    returns (ctx: GrowBuf, ghost junks: seq<string>)
    requires Safe(WholeReply(response, reason, date), keepAlive, started)
    modifies response`headers, ledger`memused
    ensures fresh(ctx) && fresh(ctx.buf) && Carries(ctx, old(WholeReply(response, reason, date)), keepAlive, started,
      junks)
    ensures ledger.memused == old(ledger.memused) + ctx.buf.Length
  {
    hide HeadPieces, Inside, Run;
    ghost var reply := WholeReply(response, reason, date);
    ghost var o, head := Out("", RESPONSE_BUF_SIZE), ReplyHead(reply, keepAlive, started);
    InsideFront(0, RESPONSE_BUF_SIZE, head, [Copy(response.body)]);
    ctx := new GrowBuf(RESPONSE_BUF_SIZE, ledger);
    junks := SerializeHeaders(response, keepAlive, started, reason, date, ctx, ledger);
    assert ctx.View() == Run(o, head, junks);
    ctx.Memcpy(response.body, ledger);
    RunOneMore(o, head, Copy(response.body), junks, response.body);
    junks := junks + [response.body];
  }

  /** The buffer of a chunk, with the head if it is the first. */
  method RespondChunk(response: HttpResponse, keepAlive: bool, started: bool, reason: string, date: string,
      ledger: Ledger)
    returns (ctx: GrowBuf, ghost junks: seq<string>)
    requires Safe(ChunkReply(response, reason, date), keepAlive, started)
    modifies response`headers, ledger`memused
    ensures fresh(ctx) && fresh(ctx.buf) && Carries(ctx, old(ChunkReply(response, reason, date)), keepAlive, started,
      junks)
    ensures ledger.memused == old(ledger.memused) + ctx.buf.Length
  {
    hide HeadPieces, Inside, Run, NextSize, NextCapacity, Put, PrintHex;
    ghost var reply := ChunkReply(response, reason, date);
    ghost var o, head := Out("", RESPONSE_BUF_SIZE), ReplyHead(reply, keepAlive, started);
    ghost var size, data := Print(PrintHex(|response.body|) + "\r\n"), Copy(response.body);
    ghost var end := Print("\r\n");
    assert ReplyPieces(reply, keepAlive, started) == head + [size, data, end];
    InsideFront(0, RESPONSE_BUF_SIZE, head, [size, data, end]);
    ctx := new GrowBuf(RESPONSE_BUF_SIZE, ledger);
    RunNothing(o);
    junks := [];
    if !started {
      response.SetHeader("Transfer-Encoding", "chunked");
      assert [ConnectionHeader(keepAlive)] + response.headers
          == [ConnectionHeader(keepAlive), CHUNKED_CODING] + reply.headers;
      junks := SerializeHeaders(response, keepAlive, true, reason, date, ctx, ledger);
    }
    ghost var pieces := head;
    Room(o, pieces, [size, data, end], junks);
    pieces, junks := PrintPiece(ctx, PrintHex(|response.body|) + "\r\n", ledger, pieces, junks, o);
    assert head + [size, data, end] == pieces + [data, end];
    Room(o, pieces, [data, end], junks);
    ctx.Memcpy(response.body, ledger);
    RunOneMore(o, pieces, data, junks, response.body);
    assert head + [size, data, end] == pieces + [data] + [end];
    pieces, junks := pieces + [data], junks + [response.body];
    Room(o, pieces, [end], junks);
    pieces, junks := PrintPiece(ctx, "\r\n", ledger, pieces, junks, o);
    assert pieces == ReplyPieces(reply, keepAlive, started) && pieces + [] == pieces;
    Room(o, pieces, [], junks);
  }

  /** The buffer that ends a chunked response. */
  method RespondChunkEnd(response: HttpResponse, ghost keepAlive: bool, ghost started: bool, ledger: Ledger)
    returns (ctx: GrowBuf, ghost junks: seq<string>)
    requires Safe(LastChunk(response.headers), keepAlive, started)
    modifies ledger`memused
    ensures fresh(ctx) && fresh(ctx.buf) && Carries(ctx, LastChunk(response.headers), keepAlive, started, junks)
    ensures ledger.memused == old(ledger.memused) + ctx.buf.Length
  {
    hide ListPieces, Inside, Run;
    ghost var o := Out("", RESPONSE_BUF_SIZE);
    ghost var zero, list, end := Print("0\r\n"), ListPieces(response.headers), Print("\r\n");
    ghost var all := ReplyPieces(LastChunk(response.headers), keepAlive, started);
    ctx := new GrowBuf(RESPONSE_BUF_SIZE, ledger);
    RunNothing(o);
    ghost var pieces: seq<Piece> := [];
    junks := [];
    pieces, junks := PrintPiece(ctx, "0\r\n", ledger, pieces, junks, o);
    assert all == pieces + (list + [end]);
    Room(o, pieces, list + [end], junks);
    InsideFront(ctx.size, ctx.buf.Length, list, [end]);
    ghost var more := SerializeHeadersList(response.headers, ctx, ledger);
    RunBoth(o, pieces, list, junks, more);
    pieces, junks := pieces + list, junks + more;
    assert pieces + [end] == all;
    Room(o, pieces, [end], junks);
    pieces, junks := PrintPiece(ctx, "\r\n", ledger, pieces, junks, o);
    assert pieces == all && pieces + [] == pieces;
    Room(o, pieces, [], junks);
  }

  // --- the header list, read back ---

  /** The list after setting headers one after the other. */
  function SetHeaders(hs: seq<Header>): seq<Header> {
    if hs == [] then [] else [hs[|hs| - 1]] + SetHeaders(hs[..|hs| - 1])
  }

  lemma {:induction false} LastSetComesFirst(hs: seq<Header>, i: nat)
    requires i < |hs|
    ensures |SetHeaders(hs)| == |hs| && SetHeaders(hs)[i] == hs[|hs| - 1 - i]
  {
    var before := hs[..|hs| - 1];
    if i > 0 {
      LastSetComesFirst(before, i - 1);
      assert before[|before| - 1 - (i - 1)] == hs[|hs| - 1 - i];
    } else if before != [] {
      LastSetComesFirst(before, 0);
    }
  }

  /** The headers as they are printed, with one space behind the colon. */
  function Spaced(hs: seq<Header>): seq<Header> {
    if hs == [] then [] else Spaced(hs[..|hs| - 1]) + [hs[|hs| - 1].(blanks := " ")]
  }

  lemma {:induction false} SpacedHeaders(hs: seq<Header>)
    ensures |Spaced(hs)| == |hs| && forall i :: 0 <= i < |hs| ==> Spaced(hs)[i] == hs[i].(blanks := " ")
    ensures PrintHeaders(Spaced(hs)) == HeaderLines(hs) && HeaderTexts(Spaced(hs)) == HeaderTexts(hs)
  {
    if hs != [] {
      var n := |hs| - 1;
      SpacedHeaders(hs[..n]);
      assert Spaced(hs)[..n] == Spaced(hs[..n]);
      var h := hs[n];
      assert h.key + ":" + " " + h.value + "\r\n" == HeaderLine(h);
    }
  }

  /** Serializer and header grammar undo each other: the parser, reading the serialized list after any
      start line, returns the names and values in list order, then the end of the head. */
  lemma HeaderListReadsBack(s: string, headers: seq<Header>, max: int)
    requires Fold(s, max).k.state.FirstHeader? && Fold(s, max).k.contentLength == 0 && !Fold(s, max).k.chunked
    requires 0 < |headers| && forall i :: 0 <= i < |headers| ==> GoodKey(headers[i].key) && GoodValue(headers[i].value)
    ensures var text := Joined(ListPieces(headers)); var r := Fold(s + text, max);
      && r.end == |s + text| && |r.tokens| == |Fold(s, max).tokens| + 2 * |headers| + 1
      && Fold(s, max).tokens <= r.tokens
      && Spell(s + text, r.tokens[|Fold(s, max).tokens|..|r.tokens| - 1], HeaderTexts(headers))
  {
    hide Fold, PrintHeaders, GoodKey, GoodValue, Spell, HeadersTokens, HeaderTexts, HeaderLines, Spaced;
    ListPiecesText(headers);
    SpacedHeaders(headers);
    var hs := Spaced(headers);
    ReadHeaderBlock(s, hs, max);
    HeadersSpell(s, hs);
    var text := PrintHeaders(hs) + "\r\n";
    var tokens := HeadersTokens(hs, |s|);
    SpellAlso(s + PrintHeaders(hs), s + text, tokens, HeaderTexts(hs));
    var r := Fold(s + text, max);
    assert r.tokens[|Fold(s, max).tokens|..|r.tokens| - 1] == tokens;
    HeadersTokensCount(hs, |s|);
  }

  lemma {:induction false} HeadersTokensCount(headers: seq<Header>, at: nat)
    ensures |HeadersTokens(headers, at)| == 2 * |headers|
  {
    if headers != [] {
      HeadersTokensCount(headers[..|headers| - 1], at);
    }
  }
}

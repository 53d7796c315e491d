/**
  What a client makes of a response: the status line word by word, and the fields of the head, read by the
  header grammar.
 */
module ResponseHead {
  import opened Automaton
  import opened Head
  import opened HeadRoundTrip
  import opened HeadCuts
  import opened Digits
  import opened ChunkStream
  import opened Respond
  import opened Connection
  import opened Server
  import opened Wire

  // --- the status line ---

  /** Where `stop` begins for the first time, or the length if it does not occur. */
  function UpTo(s: string, stop: string): (n: nat)
    ensures n <= |s|
  {
    if s == "" || stop <= s then 0 else 1 + UpTo(s[1..], stop)
  }

  lemma {:induction false} UpToFirst(a: string, stop: string, rest: string)
    requires stop != "" && forall i :: 0 <= i < |a| ==> a[i] != stop[0]
    ensures UpTo(a + stop + rest, stop) == |a|
  {
    var s := a + stop + rest;
    if a == "" {
      assert s[..|stop|] == stop;
    } else {
      assert s[0] == a[0];
      assert s[1..] == a[1..] + stop + rest;
      UpToFirst(a[1..], stop, rest);
    }
  }

  /** Version, status in decimal digits, and reason, with single spaces between them. */
  predicate IsStatusLine(line: string, status: nat, reason: string) {
    var n := UpTo(line, " ");
    && n < |line| && line[..n] == "HTTP/1.1"
    && var rest := line[n + 1..];
       var m := UpTo(rest, " ");
       0 < m < |rest| && AllDigits(rest[..m]) && AppendDigits(0, rest[..m]) == status && rest[m + 1..] == reason
  }

  function StatusText(status: nat, reason: string): string { "HTTP/1.1 " + PrintDecimal(status) + " " + reason }

  lemma StatusLineReads(status: nat, reason: string)
    ensures IsStatusLine(StatusText(status, reason), status, reason)
  {
    hide PrintDecimal;
    DecimalRoundTrip(status);
    var digits := PrintDecimal(status);
    var line := "HTTP/1.1 " + digits + " " + reason;
    var rest := digits + " " + reason;
    assert line == "HTTP/1.1" + " " + rest;
    UpToFirst("HTTP/1.1", " ", rest);
    assert line[..8] == "HTTP/1.1" && line[9..] == rest;
    UpToFirst(digits, " ", reason);
    assert rest[..|digits|] == digits && rest[|digits| + 1..] == reason;
  }

  // --- the fields ---

  /** After the start line of a head. */
  ghost predicate AtFields(s: string, max: int) {
    Fold(s, max).k.state.FirstHeader? && Fold(s, max).k.contentLength == 0 && !Fold(s, max).k.chunked
  }

  /** The header grammar, reading `fields` after the start line `s`, returns names and values that are `texts`;
      `rest` follows the end of the head. */
  ghost predicate FieldsRead(s: string, fields: string, texts: seq<string>, rest: string, max: int) {
    var before, run := Fold(s, max).tokens, Fold(s + fields, max);
    && 0 < run.end <= |s + fields| && (s + fields)[run.end..] == rest
    && before <= run.tokens && |run.tokens| == |before| + |texts| + 1
    && Spell(s + fields, run.tokens[|before|..|run.tokens| - 1], texts)
    && run.tokens[|run.tokens| - 1].kind.HeadersDone?
  }

  predicate Readable(h: Header) { GoodKey(h.key) && GoodValue(h.value) }

  predicate AllReadable(hs: seq<Header>) { forall i :: 0 <= i < |hs| ==> Readable(hs[i]) }

  lemma FieldsReadBack(s: string, hs: seq<Header>, rest: string, max: int)
    requires AtFields(s, max) && 0 < |hs| && AllReadable(hs)
    ensures FieldsRead(s, HeaderLines(hs) + "\r\n" + rest, HeaderTexts(hs), rest, max)
    ensures var k := Fold(s + (HeaderLines(hs) + "\r\n" + rest), max).k;
      k.contentLength == LengthOf(Spaced(hs)) && k.chunked == IsChunked(Spaced(hs))
  {
    hide Fold, PrintHeaders, GoodKey, GoodValue, Spell, HeadersTokens, HeaderTexts, HeaderLines, Spaced, LengthOf,
      IsChunked;
    var spaced := Spaced(hs);
    SpacedHeaders(hs);
    ReadHeaderBlock(s, spaced, max);
    HeadersSpell(s, spaced);
    HeadersTokensCount(spaced, |s|);
    var block, tokens := PrintHeaders(spaced) + "\r\n", HeadersTokens(spaced, |s|);
    var run := Fold(s + block, max);
    FoldSound(s + block, max);
    FoldAbsorbs(s + block, rest, max);
    assert s + block + rest == s + (HeaderLines(hs) + "\r\n" + rest);
    SpellAlso(s + PrintHeaders(spaced), s + block + rest, tokens, HeaderTexts(hs)) by {
      assert s + block + rest == s + PrintHeaders(spaced) + ("\r\n" + rest);
    }
    assert run.tokens[|Fold(s, max).tokens|..|run.tokens| - 1] == tokens;
    TextsCount(hs);
  }

  lemma {:induction false} TextsCount(hs: seq<Header>)
    ensures |HeaderTexts(hs)| == 2 * |hs|
  {
    if hs != [] {
      TextsCount(hs[..|hs| - 1]);
    }
  }

  // --- heads of responses ---

  /** The reason is on one line, the fields are ones the grammar knows, and the length is one of the width of the
      C code. */
  predicate Answerable(r: Reply) {
    && !r.LastChunk? && (forall i :: 0 <= i < |r.reason| ==> r.reason[i] != '\r')
    && GoodValue(r.date) && AllReadable(r.headers) && (r.Whole? ==> |r.body| < 0x8000_0000)
  }

  /** User code sets none of the fields that delimit the body. */
  predicate NoFraming(hs: seq<Header>) { forall i :: 0 <= i < |hs| ==> FieldOf(hs[i].key).Other? }

  function Power(k: nat): nat { if k == 0 then 1 else 10 * Power(k - 1) }

  lemma {:induction false} DecimalLength(n: nat, k: nat)
    requires 0 < k && n < Power(k)
    ensures |PrintDecimal(n)| <= k
  {
    if n >= 10 {
      assert k > 1 by { assert Power(1) == 10 * Power(0); }
      DecimalLength(n / 10, k - 1);
    }
  }

  lemma LengthIsGood(n: nat)
    requires n < 0x8000_0000
    ensures GoodValue(PrintDecimal(n))
  {
    DecimalRoundTrip(n);
    assert Power(5) == 100000 && Power(10) == 100000 * Power(5);
    DecimalLength(n, 10);
  }

  const DATE := "Date"
  const CONTENT_LENGTH := "Content-Length"
  const CONNECTION := "Connection"
  const TRANSFER_ENCODING := "Transfer-Encoding"

  function KeepText(keepAlive: bool): string { if keepAlive then "keep-alive" else "close" }

  /** All fields of the head, the date and the content length included. */
  function WholeFields(r: Reply, keepAlive: bool): seq<Header>
    requires r.Whole?
  {
    [Header(DATE, r.date), Header(CONTENT_LENGTH, PrintDecimal(|r.body|)), Header(CONNECTION, KeepText(keepAlive))]
    + r.headers
  }

  function ChunkFields(r: Reply, keepAlive: bool): seq<Header>
    requires r.ChunkOf?
  {
    [Header(DATE, r.date), Header(CONNECTION, KeepText(keepAlive)), Header(TRANSFER_ENCODING, CHUNKED)] + r.headers
  }

  lemma OneMoreLine(hs: seq<Header>, h: Header)
    ensures HeaderLines(hs + [h]) == HeaderLines(hs) + HeaderLine(h)
    ensures HeaderTexts(hs + [h]) == HeaderTexts(hs) + [h.key, h.value]
  {
    assert (hs + [h])[..|hs + [h]| - 1] == hs;
  }

  lemma {:induction false} LinesOfBoth(a: seq<Header>, b: seq<Header>)
    ensures HeaderLines(a + b) == HeaderLines(a) + HeaderLines(b)
    ensures HeaderTexts(a + b) == HeaderTexts(a) + HeaderTexts(b)
  {
    hide HeaderLine;
    if b == [] {
      assert a + b == a;
    } else {
      assert (a + b)[..|a + b| - 1] == a + b[..|b| - 1];
      LinesOfBoth(a, b[..|b| - 1]);
    }
  }

  lemma LineEnds(line: string, tail: string)
    requires forall i :: 0 <= i < |line| ==> line[i] != '\r'
    ensures var text := line + "\r\n" + tail;
      UpTo(text, "\r\n") == |line| && text[..|line|] == line && text[|line| + 2..] == tail
  {
    UpToFirst(line, "\r\n", tail);
  }

  lemma StatusIsOneLine(status: nat, reason: string)
    requires forall i :: 0 <= i < |reason| ==> reason[i] != '\r'
    ensures forall i :: 0 <= i < |StatusText(status, reason)| ==> StatusText(status, reason)[i] != '\r'
  {
    hide PrintDecimal;
    DecimalRoundTrip(status);
    var digits := PrintDecimal(status);
    forall i | 0 <= i < |digits| ensures digits[i] != '\r' {}
  }

  /** `text` is a response head as a client reads it: a status line up to the first line end, and fields that the
      header grammar returns as `texts`; `rest` follows. */
  ghost predicate HeadRead(s: string, text: string, status: nat, reason: string, texts: seq<string>, rest: string,
                           max: int) {
    var n := UpTo(text, "\r\n");
    n + 2 <= |text| && IsStatusLine(text[..n], status, reason) && FieldsRead(s, text[n + 2..], texts, rest, max)
  }

  lemma HeadReadsBack(s: string, status: nat, reason: string, hs: seq<Header>, rest: string, max: int)
    requires AtFields(s, max) && 0 < |hs| && AllReadable(hs) && forall i :: 0 <= i < |reason| ==> reason[i] != '\r'
    ensures var tail := HeaderLines(hs) + "\r\n" + rest; var text := StatusText(status, reason) + "\r\n" + tail;
      && HeadRead(s, text, status, reason, HeaderTexts(hs), rest, max) && text[UpTo(text, "\r\n") + 2..] == tail
  {
    hide PrintDecimal, HeaderLines, FieldsRead, IsStatusLine, AllReadable, UpTo, StatusText;
    StatusLineReads(status, reason);
    FieldsReadBack(s, hs, rest, max);
    StatusIsOneLine(status, reason);
    LineEnds(StatusText(status, reason), HeaderLines(hs) + "\r\n" + rest);
  }

  lemma Rearranged(line: string, date: string, length: string, conn: string, others: string, body: string,
                   later: string)
    ensures line + date + length + (conn + others) + "\r\n" + body + later
      == line + (date + length + conn + others + "\r\n" + (body + later))
    ensures line + date + (length + conn + others) + "\r\n" + body + later
      == line + (date + length + conn + others + "\r\n" + (body + later))
  {
  }

  lemma NoLines()
    ensures HeaderLines([]) == "" && HeaderTexts([]) == []
  {
  }

  lemma LinesOfThree(a: Header, b: Header, c: Header, hs: seq<Header>)
    ensures HeaderLines([a, b, c] + hs) == HeaderLine(a) + HeaderLine(b) + HeaderLine(c) + HeaderLines(hs)
    ensures HeaderTexts([a, b, c] + hs) == [a.key, a.value, b.key, b.value, c.key, c.value] + HeaderTexts(hs)
    ensures HeaderLines([c] + hs) == HeaderLine(c) + HeaderLines(hs)
    ensures HeaderLines([b, c] + hs) == HeaderLine(b) + HeaderLine(c) + HeaderLines(hs)
  {
    hide HeaderLine, HeaderLines, HeaderTexts;
    NoLines();
    assert [a, b, c] == [a, b] + [c] && [a, b] == [a] + [b] && [b, c] == [b] + [c] && [a] == [] + [a];
    assert [b] == [] + [b] && [c] == [] + [c];
    OneMoreLine([], a);
    OneMoreLine([a], b);
    OneMoreLine([a, b], c);
    OneMoreLine([], b);
    OneMoreLine([b], c);
    OneMoreLine([], c);
    LinesOfBoth([a, b, c], hs);
    LinesOfBoth([b, c], hs);
    LinesOfBoth([c], hs);
  }

  lemma LinesAreFields(status: nat, reason: string, date: string, n: nat)
    ensures StatusLine(status, reason, date) == StatusText(status, reason) + "\r\n" + HeaderLine(Header(DATE, date))
    ensures ContentLengthLine(n) == HeaderLine(Header(CONTENT_LENGTH, PrintDecimal(n)))
  {
    hide PrintDecimal;
  }

  lemma WholeHead(r: Reply, keepAlive: bool, later: string)
    requires r.Whole?
    ensures ReplyText(r, keepAlive, false) + later ==
      StatusText(r.status, r.reason) + "\r\n" + (HeaderLines(WholeFields(r, keepAlive)) + "\r\n" + (r.body + later))
  {
    hide HeadPieces, HeaderLines, PrintDecimal, ReplyText, StatusLine, StatusText, ContentLengthLine, HeaderLine,
      HeaderTexts;
    WholeReplyText(r, keepAlive);
    var date, length, conn := Header(DATE, r.date), Header(CONTENT_LENGTH, PrintDecimal(|r.body|)),
                              ConnectionHeader(keepAlive);
    LinesOfThree(date, length, conn, r.headers);
    LinesAreFields(r.status, r.reason, r.date, |r.body|);
    Rearranged(StatusText(r.status, r.reason) + "\r\n", HeaderLine(date), HeaderLine(length), HeaderLine(conn),
               HeaderLines(r.headers), r.body, later);
  }

  lemma ChunkHead(r: Reply, keepAlive: bool, later: string)
    requires r.ChunkOf?
    ensures ReplyText(r, keepAlive, false) + later ==
      StatusText(r.status, r.reason) + "\r\n" +
      (HeaderLines(ChunkFields(r, keepAlive)) + "\r\n" + (Frame(Segment(r.chunk)) + later))
  {
    hide HeadPieces, HeaderLines, PrintDecimal, ReplyText, StatusLine, StatusText, HeaderLine, HeaderTexts, Frame;
    var a := Answered(r, keepAlive);
    FirstChunk(a);
    var date, conn, coding := Header(DATE, r.date), ConnectionHeader(keepAlive), CHUNKED_CODING;
    LinesOfThree(date, conn, coding, r.headers);
    LinesAreFields(r.status, r.reason, r.date, 0);
    assert [conn, coding] + r.headers == [ConnectionHeader(keepAlive), CHUNKED_CODING] + r.headers;
    var line := StatusText(r.status, r.reason) + "\r\n";
    Rearranged(line, HeaderLine(date), HeaderLine(conn), HeaderLine(coding), HeaderLines(r.headers),
               Frame(Segment(r.chunk)), later);
  }

  // --- the framing the fields announce ---

  lemma NoFramingAnnounced(hs: seq<Header>)
    requires NoFraming(hs)
    ensures forall i :: 0 <= i < |Spaced(hs)| ==>
      !FieldOf(Spaced(hs)[i].key).ContentLength? && !AsksForChunks(Spaced(hs)[i])
  {
    hide FieldOf;
    SpacedHeaders(hs);
  }

  lemma {:induction false} SpacedBoth(a: seq<Header>, b: seq<Header>)
    ensures Spaced(a + b) == Spaced(a) + Spaced(b)
  {
    if b == [] {
      assert a + b == a;
    } else {
      assert (a + b)[..|a + b| - 1] == a + b[..|b| - 1];
      SpacedBoth(a, b[..|b| - 1]);
    }
  }

  lemma KnownFields()
    ensures FieldOf(DATE).Other? && FieldOf(CONNECTION).Other?
    ensures FieldOf(CONTENT_LENGTH).ContentLength? && FieldOf(TRANSFER_ENCODING).TransferEncoding?
  {
  }

  lemma NothingAnnounced()
    ensures LengthOf([]) == 0
  {
  }

  lemma GoodNames()
    ensures GoodKey(DATE) && GoodKey(CONTENT_LENGTH) && GoodKey(CONNECTION) && GoodKey(TRANSFER_ENCODING)
    ensures GoodValue(KeepText(true)) && GoodValue(KeepText(false)) && GoodValue(CHUNKED)
  {
  }

  lemma SpacedThree(a: Header, b: Header, c: Header, hs: seq<Header>)
    requires a.blanks == b.blanks == c.blanks == " "
    ensures Spaced([a, b, c] + hs) == [a, b, c] + Spaced(hs)
  {
    hide Spaced;
    SpacedBoth([a, b, c], hs);
    SpacedHeaders([a, b, c]);
    assert Spaced([a, b, c]) == [a, b, c];
  }

  lemma OthersAfter(h: Header, hs: seq<Header>)
    requires !FieldOf(h.key).ContentLength? && !AsksForChunks(h) && NoFraming(hs)
    ensures var all := [h] + Spaced(hs);
      forall i :: 0 <= i < |all| ==> !FieldOf(all[i].key).ContentLength? && !AsksForChunks(all[i])
  {
    hide FieldOf, AsksForChunks, Spaced;
    NoFramingAnnounced(hs);
  }

  lemma WholeFraming(r: Reply, keepAlive: bool)
    requires r.Whole? && NoFraming(r.headers)
    ensures var hs := Spaced(WholeFields(r, keepAlive)); LengthOf(hs) == |r.body| && !IsChunked(hs)
  {
    hide FieldOf, PrintDecimal, LengthOf, Spaced, NoFraming;
    KnownFields();
    var date, n, conn := Header(DATE, r.date), |r.body|, ConnectionHeader(keepAlive);
    var length := Header(CONTENT_LENGTH, PrintDecimal(n));
    OthersAfter(conn, r.headers);
    SpacedThree(date, length, conn, r.headers);
    var after := [conn] + Spaced(r.headers);
    assert Spaced(WholeFields(r, keepAlive)) == [date] + [length] + after;
    assert PrintDecimal(n) + "" == PrintDecimal(n);
    AnnouncedLength([date], CONTENT_LENGTH, " ", n, "", after);
    forall i | 0 <= i < 2 + |after| ensures !AsksForChunks(([date] + [length] + after)[i]) {
      assert i >= 2 ==> ([date] + [length] + after)[i] == after[i - 2];
    }
  }

  lemma ChunkFraming(r: Reply, keepAlive: bool)
    requires r.ChunkOf?
    ensures var hs := Spaced(ChunkFields(r, keepAlive));
      IsChunked(hs) && (NoFraming(r.headers) ==> LengthOf(hs) == 0)
  {
    hide FieldOf, LengthOf, Spaced;
    KnownFields();
    var three := [Header(DATE, r.date), ConnectionHeader(keepAlive), CHUNKED_CODING];
    SpacedThree(three[0], three[1], three[2], r.headers);
    var hs := Spaced(ChunkFields(r, keepAlive));
    assert hs[2] == CHUNKED_CODING && AsksForChunks(hs[2]);
    if NoFraming(r.headers) {
      NoFramingAnnounced(r.headers);
      forall i | 0 <= i < |hs| ensures !FieldOf(hs[i].key).ContentLength? {
        assert hs[i] == if i < 3 then three[i] else Spaced(r.headers)[i - 3];
      }
      OthersAnnounceNothing([], hs);
      NothingAnnounced();
      assert [] + hs == hs;
    }
  }

  // --- heads, read back ---

  /** Reading a whole response gives its status and reason, the date, the length of the body, the keep-alive decision,
      and the headers in list order; what follows the head is the body. */
  lemma WholeReplyReadsBack(r: Reply, keepAlive: bool, later: string, s: string, max: int) returns (digits: string)
    requires r.Whole? && Answerable(r) && AtFields(s, max)
    ensures digits != "" && AllDigits(digits) && AppendDigits(0, digits) == |r.body|
    ensures HeadRead(s, ReplyText(r, keepAlive, false) + later, r.status, r.reason,
                     ["Date", r.date, "Content-Length", digits,
                      "Connection", if keepAlive then "keep-alive" else "close"] + HeaderTexts(r.headers),
                     r.body + later, max)
    ensures NoFraming(r.headers) ==>
      var text := ReplyText(r, keepAlive, false) + later;
      var k := Fold(s + text[UpTo(text, "\r\n") + 2..], max).k;
      k.contentLength == |r.body| && !k.chunked
  {
    hide PrintDecimal, ReplyText, HeaderLines, HeaderTexts, Fold, GoodValue, GoodKey, FieldOf, Spaced, HeadRead, UpTo;
    digits := PrintDecimal(|r.body|);
    DecimalRoundTrip(|r.body|);
    GoodNames();
    LengthIsGood(|r.body|);
    var hs := WholeFields(r, keepAlive);
    assert AllReadable(hs);
    WholeHead(r, keepAlive, later);
    HeadReadsBack(s, r.status, r.reason, hs, r.body + later, max);
    LinesOfThree(Header(DATE, r.date), Header(CONTENT_LENGTH, digits), ConnectionHeader(keepAlive), r.headers);
    FieldsReadBack(s, hs, r.body + later, max);
    if NoFraming(r.headers) {
      WholeFraming(r, keepAlive);
    }
  }

  /** Reading the first chunk of a response gives the same, without a length, and the coding; what follows the head
      is the frame of the chunk. */
  lemma ChunkReplyReadsBack(r: Reply, keepAlive: bool, later: string, s: string, max: int)
    requires r.ChunkOf? && Answerable(r) && AtFields(s, max)
    ensures HeadRead(s, ReplyText(r, keepAlive, false) + later, r.status, r.reason,
                     ["Date", r.date, "Connection", if keepAlive then "keep-alive" else "close",
                      "Transfer-Encoding", "chunked"] + HeaderTexts(r.headers),
                     Frame(Segment(r.chunk)) + later, max)
    ensures var text := ReplyText(r, keepAlive, false) + later;
      var k := Fold(s + text[UpTo(text, "\r\n") + 2..], max).k;
      k.chunked && (NoFraming(r.headers) ==> k.contentLength == 0)
  {
    hide PrintDecimal, ReplyText, HeaderLines, HeaderTexts, Fold, GoodValue, GoodKey, FieldOf, Spaced, HeadRead, UpTo,
      Frame;
    GoodNames();
    var hs := ChunkFields(r, keepAlive);
    assert AllReadable(hs);
    ChunkHead(r, keepAlive, later);
    HeadReadsBack(s, r.status, r.reason, hs, Frame(Segment(r.chunk)) + later, max);
    LinesOfThree(Header(DATE, r.date), ConnectionHeader(keepAlive), CHUNKED_CODING, r.headers);
    FieldsReadBack(s, hs, Frame(Segment(r.chunk)) + later, max);
    ChunkFraming(r, keepAlive);
  }

  // --- on the wire ---

  lemma {:induction false} ExpectedGrows(answers: seq<Answered>, k: nat)
    requires k <= |answers|
    ensures Expected(answers[..k]) <= Expected(answers)
  {
    hide ReplyText;
    if k < |answers| {
      var n := |answers| - 1;
      ExpectedGrows(answers[..n], k);
      assert answers[..n][..k] == answers[..k];
    } else {
      assert answers[..k] == answers;
    }
  }

  /** When everything has been written, what a client has from the place of the reply on begins with it. */
  lemma ReplyOnTheWire(events: seq<Event>, i: nat, k: nat) returns (later: string)
    requires i < |After(events).conns| && k < |After(events).conns[i].answers|
    requires var c := After(events).conns[i]; Exact(c.answers) && (!c.state.Write? || c.written == c.reader.b.length)
    ensures var c := After(events).conns[i]; var before, a := c.answers[..k], c.answers[k];
      && |Expected(before)| <= |c.wire|
      && c.wire[|Expected(before)|..] == ReplyText(a.reply, a.keepAlive, Started(before)) + later
  {
    hide After, Expected, Exact, Started, ReplyText;
    WireIsTheReplies(events, i);
    var c := After(events).conns[i];
    ExpectedGrows(c.answers, k + 1);
    var before, a := c.answers[..k], c.answers[k];
    assert c.answers[..k + 1] == before + [a];
    OneMoreAnswer(before, a);
    later := c.wire[|Expected(before + [a])|..];
    assert c.wire == Expected(before + [a]) + later;
  }

  /** In every run, when everything has been written: a client that reads a whole response where it begins gets its
      status and reason, the date, the length of the body, the keep-alive decision, the headers, and the body. */
  lemma ClientReadsTheResponse(events: seq<Event>, i: nat, k: nat, s: string, max: int)
      returns (digits: string, later: string)
    requires i < |After(events).conns| && k < |After(events).conns[i].answers| && AtFields(s, max)
    requires var c := After(events).conns[i]; Exact(c.answers) && (!c.state.Write? || c.written == c.reader.b.length)
    requires var c := After(events).conns[i]; var r := c.answers[k].reply;
      r.Whole? && Answerable(r) && !Started(c.answers[..k])
    ensures var c := After(events).conns[i]; var at, a := |Expected(c.answers[..k])|, c.answers[k]; var r := a.reply;
      && digits != "" && AllDigits(digits) && AppendDigits(0, digits) == |r.body| && at <= |c.wire|
      && HeadRead(s, c.wire[at..], r.status, r.reason,
                  ["Date", r.date, "Content-Length", digits,
                   "Connection", if a.keepAlive then "keep-alive" else "close"] + HeaderTexts(r.headers),
                  r.body + later, max)
  {
    hide After, Expected, Exact, Started, ReplyText, HeadRead, Answerable, AtFields;
    later := ReplyOnTheWire(events, i, k);
    var a := After(events).conns[i].answers[k];
    digits := WholeReplyReadsBack(a.reply, a.keepAlive, later, s, max);
  }

  /** The same for a chunked response. */
  lemma ClientReadsTheChunks(events: seq<Event>, i: nat, k: nat, s: string, max: int) returns (later: string)
    requires i < |After(events).conns| && k < |After(events).conns[i].answers| && AtFields(s, max)
    requires var c := After(events).conns[i]; Exact(c.answers) && (!c.state.Write? || c.written == c.reader.b.length)
    requires var c := After(events).conns[i]; var r := c.answers[k].reply;
      r.ChunkOf? && Answerable(r) && !Started(c.answers[..k])
    ensures var c := After(events).conns[i]; var at, a := |Expected(c.answers[..k])|, c.answers[k]; var r := a.reply;
      && at <= |c.wire|
      && HeadRead(s, c.wire[at..], r.status, r.reason,
                  ["Date", r.date, "Connection", if a.keepAlive then "keep-alive" else "close",
                   "Transfer-Encoding", "chunked"] + HeaderTexts(r.headers),
                  Frame(Segment(r.chunk)) + later, max)
  {
    hide After, Expected, Exact, Started, ReplyText, HeadRead, Answerable, AtFields;
    later := ReplyOnTheWire(events, i, k);
    var a := After(events).conns[i].answers[k];
    ChunkReplyReadsBack(a.reply, a.keepAlive, later, s, max);
  }
}

/**
  What goes out on the wire: under every schedule of partial writes and every interleaving of
  connections, the replies made, in order.
 */
module Wire {
  import opened HeadRoundTrip
  import opened Digits
  import opened ChunkStream
  import opened ReadBuffer
  import opened ReadSocket
  import opened OutputBuffer
  import opened Respond
  import opened Connection
  import opened Server

  /** Is a chunked response under way? */
  predicate Started(answers: seq<Answered>) {
    answers != [] && StartedAfter(answers[|answers| - 1].reply, Started(answers[..|answers| - 1]))
  }

  /** The text the replies are meant to put on the wire. */
  function Expected(answers: seq<Answered>): string {
    if answers == [] then ""
    else
      var last := answers[|answers| - 1];
      Expected(answers[..|answers| - 1]) + ReplyText(last.reply, last.keepAlive, Started(answers[..|answers| - 1]))
  }

  /** All replies are within the limits in which they are printed as they are meant. */
  predicate Exact(answers: seq<Answered>) {
    answers != [] ==>
      var last := answers[|answers| - 1];
      var started := Started(answers[..|answers| - 1]);
      Exact(answers[..|answers| - 1]) && Clean(last.reply, last.keepAlive, started)
        && Short(last.reply, last.keepAlive, started)
  }

  ghost predicate Told(c: Conn) {
    c.chunked == Started(c.answers) && (Exact(c.answers) ==> c.promised == Expected(c.answers))
  }

  lemma OneMoreAnswer(answers: seq<Answered>, a: Answered)
    ensures var all := answers + [a]; var started := Started(answers);
      && Started(all) == StartedAfter(a.reply, started)
      && Expected(all) == Expected(answers) + ReplyText(a.reply, a.keepAlive, started)
      && (Exact(all) <==>
            Exact(answers) && Clean(a.reply, a.keepAlive, started) && Short(a.reply, a.keepAlive, started))
  {
    assert (answers + [a])[..|answers + [a]| - 1] == answers;
  }

  lemma ReplyKeepsTold(c: Conn, h: Heap, r: Reply, detected: bool, junks: seq<string>, w: Written)
    requires CanReply(c, r, detected, junks) && Told(c)
    ensures Told(RespondAndWrite(c, h, r, detected, junks, w).c)
  {
    hide ReplyPieces, Run, JunkFor, Inside, WriteAndHandle, Clean, Short, ReplyText;
    var keep := KeepAliveFor(c, r, detected);
    OneMoreAnswer(c.answers, Answered(r, keep));
    if Exact(c.answers + [Answered(r, keep)]) {
      ReplyIsPrinted(r, keep, c.chunked, junks);
    }
    ReplyIsNotEmpty(r, keep, c.chunked, junks);
    var n := PerformResponse(c, h, r, detected, junks);
    WriteKeepsAnswers(n.c, n.h, w);
  }

  lemma HandleKeepsTold(s: Server, e: Event)
    requires AllWell(s) && Enabled(s, e) && Told(Subject(s, e))
    ensures Told(Handle(Subject(s, e), s.h, e).c)
  {
    hide ReadAndHandle, WriteAndHandle, RespondAndWrite, CanReply, Sane, Exact, Expected, Started;
    var c, h := Subject(s, e), s.h;
    match e
    case Accept(date, junks, arrivals, w) =>
      var c' := c.(inbox := arrivals);
      if Busy(h) {
        RespondOnAccept(c, arrivals, Refusal(date), junks); ReplyKeepsTold(c', h, Refusal(date), false, junks, w);
      }
      else { ReadKeepsAnswers(c', h); }
    case Ready(_, arrivals, w) =>
      var c' := c.(inbox := c.inbox + arrivals);
      if c.state.Read? { ReadKeepsAnswers(c', h); }
      else if c.state.Write? { WriteKeepsAnswers(c', h, w); }
    case Tick(_) =>
    case ReadChunk(_, arrivals) => ReadKeepsAnswers(c.(inbox := c.inbox + arrivals), h);
    case RespondTo(_, r, mem, junks, w) => ReplyKeepsTold(c, h, r, Detected(c, mem), junks, w);
    case SetKeepAlive(_, on) =>
    case FreeBuffer(_) =>
  }

  ghost predicate AllTold(s: Server) { forall i :: 0 <= i < |s.conns| ==> Told(s.conns[i]) }

  lemma DoKeepsTold(s: Server, e: Event)
    requires AllWell(s) && AllTold(s)
    ensures AllTold(Do(s, e))
  {
    hide Told, Handle, Well, CanReply;
    if Enabled(s, e) {
      NewIsTold();
      assert !e.Accept? ==> Told(s.conns[e.i]);
      HandleKeepsTold(s, e);
    }
  }

  lemma {:induction false} EveryConnectionTold(events: seq<Event>)
    ensures AllTold(After(events))
  {
    hide Told, Do;
    if events != [] {
      EveryConnectionTold(events[..|events| - 1]);
      DoKeepsTold(After(events[..|events| - 1]), events[|events| - 1]);
    }
  }

  lemma NewIsTold()
    ensures Told(NewConn())
  {
  }

  /** The bytes the socket of a connection has accepted are the replies made on it, in order, as far as
      they have been written: a prefix while writing, all of them afterwards. */
  lemma WireIsTheReplies(events: seq<Event>, i: nat)
    requires i < |After(events).conns| && Exact(After(events).conns[i].answers)
    ensures var c := After(events).conns[i];
      && c.wire <= Expected(c.answers)
      && (!c.state.Write? || c.written == c.reader.b.length ==> c.wire == Expected(c.answers))
  {
    hide After, Expected, Exact, CanRead, CanWrite;
    EveryConnectionTold(events);
    assert Well(After(events).conns[i]);
  }

  // --- chunked responses ---

  ghost predicate AllChunks(answers: seq<Answered>) {
    forall k :: 0 <= k < |answers| ==> answers[k].reply.ChunkOf?
  }

  function ChunksOf(answers: seq<Answered>): seq<Segment>
    requires AllChunks(answers)
  {
    seq(|answers|, k requires 0 <= k < |answers| => Segment(answers[k].reply.chunk))
  }

  function FirstHead(a: Answered): string
    requires a.reply.ChunkOf?
  {
    var r := a.reply;
    HeadText(r.status, r.reason, r.date, true, |r.chunk|, [ConnectionHeader(a.keepAlive), CHUNKED_CODING] + r.headers)
  }

  /** Chunk after chunk: one head, then the frames. */
  lemma {:induction false} ChunkFrames(before: seq<Answered>, chunks: seq<Answered>)
    requires !Started(before) && chunks != [] && AllChunks(chunks)
    ensures Started(before + chunks)
    ensures Expected(before + chunks) == Expected(before) + FirstHead(chunks[0]) + Frames(ChunksOf(chunks))
  {
    hide HeadText, HeadPieces, Frame, Frames, Expected, Started, FirstHead, ReplyText;
    var n := |chunks| - 1;
    var last := chunks[n];
    assert before + chunks == before + chunks[..n] + [last];
    OneMoreAnswer(before + chunks[..n], last);
    OneMoreFrame(ChunksOf(chunks));
    assert ChunksOf(chunks)[..n] == ChunksOf(chunks[..n]);
    if n == 0 {
      assert before + chunks[..0] == before;
      FirstChunk(last);
      NoFrames();
    } else {
      ChunkFrames(before, chunks[..n]);
      LaterChunk(last);
    }
  }

  lemma OneMoreFrame(chunks: seq<Segment>)
    requires chunks != []
    ensures Frames(chunks) == Frames(chunks[..|chunks| - 1]) + Frame(chunks[|chunks| - 1])
  {
  }

  lemma FirstChunk(a: Answered)
    requires a.reply.ChunkOf?
    ensures ReplyText(a.reply, a.keepAlive, false) == FirstHead(a) + Frame(Segment(a.reply.chunk))
  {
    hide HeadText, HeadPieces, PrintHex;
    var r := a.reply;
    HeadPiecesText(r.status, r.reason, r.date, true, |r.chunk|, [ConnectionHeader(a.keepAlive), CHUNKED_CODING]
      + r.headers);
    FrameSpelled(r.chunk);
  }

  lemma LaterChunk(a: Answered)
    requires a.reply.ChunkOf?
    ensures ReplyText(a.reply, a.keepAlive, true) == Frame(Segment(a.reply.chunk))
  {
    hide PrintHex;
    assert Joined([]) == "";
    FrameSpelled(a.reply.chunk);
  }

  lemma FrameSpelled(chunk: string)
    ensures Frame(Segment(chunk)) == PrintHex(|chunk|) + "\r\n" + chunk + "\r\n"
  {
  }

  /** A chunked response on the wire: one head with the Transfer-Encoding header and without a content
      length, the frame of each chunk in order, the last chunk, the trailers, and the line ends the code
      prints after them, one more than the coding asks for. What follows the head is a stream that the
      parser of module Chunks takes apart into the same chunks. */
  lemma ChunkedResponse(before: seq<Answered>, chunks: seq<Answered>, end: Answered)
    requires !Started(before) && chunks != [] && AllChunks(chunks) && end.reply.LastChunk?
    ensures var all := before + chunks + [end];
      && !Started(all)
      && Expected(all) == Expected(before) + FirstHead(chunks[0])
                          + Stream(ChunksOf(chunks), HeaderLines(end.reply.trailers) + "\r\n" + "\r\n")
  {
    hide HeadText, FirstHead, Frames, HeaderLines, Expected, Started, ReplyText;
    ChunkFrames(before, chunks);
    OneMoreAnswer(before + chunks, end);
    EndReply(end);
    Regroup(Expected(before), FirstHead(chunks[0]), Frames(ChunksOf(chunks)), LAST_CHUNK,
            HeaderLines(end.reply.trailers) + "\r\n" + "\r\n");
  }

  lemma EndReply(a: Answered)
    requires a.reply.LastChunk?
    ensures ReplyText(a.reply, a.keepAlive, true) == LAST_CHUNK + (HeaderLines(a.reply.trailers) + "\r\n" + "\r\n")
  {
    hide HeaderLines;
    assert Joined([]) == "";
    assert EndText(a.reply.trailers) == LAST_CHUNK + (HeaderLines(a.reply.trailers) + "\r\n" + "\r\n");
  }

  /** A whole response is its head, which announces the length of the body, and the body. */
  lemma WholeReplyText(r: Reply, keepAlive: bool)
    requires r.Whole?
    ensures ReplyText(r, keepAlive, false) ==
            HeadText(r.status, r.reason, r.date, false, |r.body|, [ConnectionHeader(keepAlive)] + r.headers) + r.body
  {
    hide HeadText, HeadPieces;
    HeadPiecesText(r.status, r.reason, r.date, false, |r.body|, [ConnectionHeader(keepAlive)] + r.headers);
  }

  /** A client that is turned away is told so, and nothing else happens on its connection: it is being
      written to, or closed. */
  lemma RefusedClientsAreTold(s: Server, e: Event)
    requires AllWell(s) && e.Accept? && Busy(s.h) && Enabled(s, e)
    requires |e.date| < 32 && Clean(Refusal(e.date), false, false)
    ensures var c := Handle(NewConn(), s.h, e).c;
      && c.answers == [Answered(Refusal(e.date), false)]
      && c.promised == ReplyText(Refusal(e.date), false, false) && c.wire <= c.promised
      && (c.open ==> c.state.Write?) && (!c.open ==> c.wire == c.promised || e.w.Broken?)
  {
    hide ReplyPieces, Run, JunkFor, Inside, Clean, Short, ReplyText, ReadAndHandle;
    var c := NewConn().(inbox := e.arrivals);
    RespondOnAccept(NewConn(), e.arrivals, Refusal(e.date), e.junks);
    RefusalFits(e.date, false);
    ReplyIsPrinted(Refusal(e.date), false, false, e.junks);
    ReplyIsNotEmpty(Refusal(e.date), false, false, e.junks);
    var n := PerformResponse(c, s.h, Refusal(e.date), false, e.junks);
    assert n.c.reader.b.mem[0..n.c.reader.b.length] == n.c.reader.b.mem;
    WriteIsHonest(n.c, e.w);
    assert [] + [Answered(Refusal(e.date), false)] == [Answered(Refusal(e.date), false)];
  }

  lemma Regroup(a: string, b: string, c: string, d: string, e: string)
    ensures a + b + c + (d + e) == a + b + (c + d + e)
  {
  }

  /** In every run: when the replies of a connection end with a chunked response and all of it has been
      written, this is what the client has. */
  lemma ChunkedResponseArrives(events: seq<Event>, i: nat, before: seq<Answered>, chunks: seq<Answered>, end: Answered)
    requires i < |After(events).conns| && After(events).conns[i].answers == before + chunks + [end]
    requires !Started(before) && chunks != [] && AllChunks(chunks) && end.reply.LastChunk?
    requires var c := After(events).conns[i]; Exact(c.answers) && (!c.state.Write? || c.written == c.reader.b.length)
    ensures After(events).conns[i].wire ==
            Expected(before) + FirstHead(chunks[0])
            + Stream(ChunksOf(chunks), HeaderLines(end.reply.trailers) + "\r\n" + "\r\n")
  {
    hide After, Expected, Exact, Started, Stream, FirstHead;
    WireIsTheReplies(events, i);
    ChunkedResponse(before, chunks, end);
  }
}

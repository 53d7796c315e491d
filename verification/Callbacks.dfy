/**
  The callback protocol: the handler runs once per request, a streamed body is announced by
  chunk callbacks of positive length, and one callback of length zero ends it.
 */
module Callbacks {
  import opened Automaton
  import opened Parser
  import opened Head
  import opened Sessions
  import opened HeadCuts
  import opened HeadResults
  import opened Bodies
  import opened ChunkStream
  import opened ChunkLooks
  import opened Chunks
  import opened ReadBuffer
  import opened ReadSocket

  // --- runs of the reader are schedules ---

  /** One visit of the reader is a read, or none, followed by calls of the parser. */
  lemma VisitIsSchedule(s: Session, r: Reader, incoming: seq<Arrival>, max: int) returns (events: seq<Event>)
    requires Tracks(s, r) && Sane(r, max)
    ensures var v := ReadRequest(r, incoming, max);
      Tracks(Play(s, events, max), v.r) && Play(s, events, max).received == s.received + v.taken
  {
    hide Dispatch, ReadLoop, Append, Exec;
    if r.b.index >= r.b.length {
      ReadLoopIsAppend(r.b, incoming, max);
      var e := ReadLoop(r.b, incoming, max);
      var read := Read(e.taken, e.b.capacity);
      var r' := r.(b := e.b.(sequenceId := NextSequence(e.b.sequenceId)));
      var s' := Happen(s, read, max);
      assert [read][..0] == [];
      assert Play(s, [read], max) == s';
      assert Tracks(s', r');
      events := [read];
      if e.rc != 0 {
        var n := DispatchIsParses(s', r', max);
        events := [read] + Parses(n);
        PlayAppend(s, [read], Parses(n), max);
      }
    } else {
      var n := DispatchIsParses(s, r, max);
      events := Parses(n);
    }
  }

  function NewReader(capacity: int): Reader {
    Reader(FRESH_PARSER, Buffer("", capacity, 0, 0, 0, 0), [], [])
  }

  datatype Served = Served(r: Reader, incoming: seq<Arrival>)

  /** The reader after a number of visits, with what arrived at the socket before each. */
  ghost function Serve(capacity: int, visits: seq<seq<Arrival>>, max: int): (v: Served)
    requires 0 < capacity <= max
    ensures Sane(v.r, max)
  {
    if visits == [] then Served(NewReader(capacity), [])
    else
      var before := Serve(capacity, visits[..|visits| - 1], max);
      var incoming := before.incoming + visits[|visits| - 1];
      VisitKeepsSane(before.r, incoming, max);
      var v := ReadRequest(before.r, incoming, max);
      Served(v.r, v.incoming)
  }

  lemma LastOfServe(capacity: int, visits: seq<seq<Arrival>>, max: int)
    requires 0 < capacity <= max && visits != []
    ensures var n := |visits| - 1; var before := Serve(capacity, visits[..n], max);
      var v := ReadRequest(before.r, before.incoming + visits[n], max);
      Serve(capacity, visits, max) == Served(v.r, v.incoming)
    ensures var n := |visits| - 1; Arrived(visits) == Arrived(visits[..n]) + Pending(visits[n])
  {
    hide ReadRequest, Sane;
  }

  function Arrived(visits: seq<seq<Arrival>>): string {
    if visits == [] then "" else Arrived(visits[..|visits| - 1]) + Pending(visits[|visits| - 1])
  }

  lemma {:induction false} PendingOfBoth(a: seq<Arrival>, b: seq<Arrival>)
    ensures Pending(a + b) == Pending(a) + Pending(b)
  {
    if a == [] {
      assert a + b == b;
    } else {
      assert (a + b)[1..] == a[1..] + b;
      PendingOfBoth(a[1..], b);
    }
  }

  /** Every run of the reader is a schedule, and no byte that arrived is lost or reordered. */
  lemma {:induction false} RunsAreSchedules(capacity: int, visits: seq<seq<Arrival>>, max: int)
      returns (events: seq<Event>)
    requires 0 < capacity <= max
    ensures var v := Serve(capacity, visits, max); var s := Play(Start(capacity), events, max);
      Tracks(s, v.r) && s.received + Pending(v.incoming) == Arrived(visits)
  {
    hide ReadRequest, Tracks, Exec, Sane, Happen;
    if visits == [] {
      events := [];
      assert Tracks(Start(capacity), NewReader(capacity)) by { FreshTracks(capacity); }
    } else {
      var n := |visits| - 1;
      var before := Serve(capacity, visits[..n], max);
      events := RunsAreSchedules(capacity, visits[..n], max);
      var s := Play(Start(capacity), events, max);
      var incoming := before.incoming + visits[n];
      VisitKeepsSane(before.r, incoming, max);
      PendingOfBoth(before.incoming, visits[n]);
      var more := VisitIsSchedule(s, before.r, incoming, max);
      PlayAppend(Start(capacity), events, more, max);
      events := events + more;
      var v := ReadRequest(before.r, incoming, max);
      assert s.received + v.taken + Pending(v.incoming) == s.received + (v.taken + Pending(v.incoming));
      assert s.received + (Pending(before.incoming) + Pending(visits[n])) == Arrived(visits[..n]) + Pending(visits[n]);
    }
  }

  lemma FreshTracks(capacity: int)
    ensures Tracks(Start(capacity), NewReader(capacity))
  {
  }

  // --- what the callbacks of a request are ---

  function ChunkCalls(tokens: seq<Token>): seq<Call> { seq(|tokens|, i requires 0 <= i < |tokens| => Chunk(tokens[i])) }

  /** The handler, then chunk callbacks of positive length, and one of length zero if `finished`. */
  ghost predicate InProtocol(calls: seq<Call>, body: seq<Token>, finished: bool) {
    && (forall i :: 0 <= i < |body| ==> body[i].len > 0)
    && (if finished then |calls| == |body| + 2 && calls[..|body| + 1] == [Handler] + ChunkCalls(body)
                         && calls[|body| + 1].Chunk? && calls[|body| + 1].token.len == 0
        else calls == [Handler] + ChunkCalls(body))
  }

  lemma {:induction false} HeadTokensMakeNoCalls(tokens: seq<Token>)
    requires forall k :: 0 <= k < |tokens| ==> IsHeadKind(tokens[k].kind)
    ensures CallsOf(tokens) == []
  {
    if tokens != [] {
      HeadTokensMakeNoCalls(tokens[..|tokens| - 1]);
    }
  }

  lemma CallsOfHead(tokens: seq<Token>)
    requires Terminated(tokens, true)
    ensures var t := tokens[|tokens| - 1];
      CallsOf(tokens) == if t.Streamed() || t.NoBody() then [Handler] else []
  {
    HeadTokensMakeNoCalls(tokens[..|tokens| - 1]);
  }

  /** No callback runs before the head is complete. */
  lemma NoCallsInHead(capacity: int, events: seq<Event>, max: int)
    ensures var s := Play(Start(capacity), events, max); s.b.afterHeaders == 0 ==> CallsOf(s.tokens) == []
  {
    hide Fold, CallsOf, Exec;
    EverySchedule(capacity, events, max);
    var s := Play(Start(capacity), events, max);
    PastHasHead(s, max);
    if Reading(s, max) {
      FoldSound(s.received[..s.b.index], max);
      HeadTokensMakeNoCalls(s.tokens);
    }
  }

  lemma SplitLast<T>(a: seq<T>, b: seq<T>)
    requires b != []
    ensures a + b == a + b[..|b| - 1] + [b[|b| - 1]]
  {
  }

  lemma Regroup<T>(a: seq<T>, b: seq<T>, c: seq<T>)
    ensures a + b + c == a + (b + c)
  {
  }

  lemma OneMoreChunkCall(tokens: seq<Token>)
    requires tokens != []
    ensures ChunkCalls(tokens) == ChunkCalls(tokens[..|tokens| - 1]) + [Chunk(tokens[|tokens| - 1])]
  {
  }

  lemma OneChunk(t: Token)
    requires t.kind.Body? && !t.Small() && !t.Final()
    ensures CallsFor(t) == [Chunk(t)]
  {
  }

  lemma {:induction false} CallsOfPieces(head: seq<Token>, body: seq<Token>)
    requires forall k :: 0 <= k < |body| ==> body[k].kind.Body? && !body[k].Small() && !body[k].Final()
    ensures CallsOf(head + body) == CallsOf(head) + ChunkCalls(body)
  {
    if body == [] {
      assert head + body == head;
    } else {
      hide CallsOf, CallsFor, ChunkCalls;
      var n := |body| - 1;
      CallsOfPieces(head, body[..n]);
      OneMore(head + body[..n], body[n]);
      OneChunk(body[n]);
      SplitLast(head, body);
      Regroup(CallsOf(head), ChunkCalls(body[..n]), [Chunk(body[n])]);
      OneMoreChunkCall(body);
    }
  }

  lemma HeadAnnouncesBody(s0: Session, max: int)
    requires HeadComplete(s0, max)
    ensures var f := s0.p.core.state;
      && (f.LargeStart? || f == SizeStart(true) || f.HeadDone? ==> CallsOf(s0.tokens) == [Handler])
      && (f.SmallStart? ==> CallsOf(s0.tokens) == [])
  {
    hide Fold, CallsOf;
    FoldSound(s0.received, max);
    LastTokenAnnouncesBody(s0.received, max);
    CallsOfHead(s0.tokens);
  }

  /** The token that ends the head says what the state says. */
  lemma {:induction false} LastTokenAnnouncesBody(s: string, max: int)
    requires Fold(s, max).end > 0
    ensures |Fold(s, max).tokens| > 0
    ensures var r := Fold(s, max); var t := r.tokens[|r.tokens| - 1];
      && (t.Streamed() <==> r.k.state.LargeStart? || r.k.state.SizeStart?)
      && (t.NoBody() <==> r.k.state.HeadDone?)
  {
    hide HeadMove;
    FoldSound(s, max);
    if s != "" {
      var i := |s| - 1;
      var r := Fold(s[..i], max);
      FoldSound(s[..i], max);
      if IsHead(r.k.state) {
        MovesAreHeadLike(r.k.state, s[i]);
        FinishAnnouncesBody(r, HeadMove(r.k.state, s[i]), i, s[i], max);
      } else {
        LastTokenAnnouncesBody(s[..i], max);
      }
    }
  }

  /** The parser still holds that token. */
  lemma {:induction false} LastTokenIsHeld(s: string, max: int)
    requires Fold(s, max).end > 0
    ensures |Fold(s, max).tokens| > 0
    ensures Fold(s, max).k.token == Fold(s, max).tokens[|Fold(s, max).tokens| - 1]
  {
    hide HeadMove, AdvanceBy;
    FoldSound(s, max);
    if s != "" {
      var i := |s| - 1;
      var r := Fold(s[..i], max);
      FoldSound(s[..i], max);
      if IsHead(r.k.state) {
        MovesAreHeadLike(r.k.state, s[i]);
        OnlyTheEndFinishes(r, HeadMove(r.k.state, s[i]), i, s[i], max);
        FinishMove(r, HeadMove(r.k.state, s[i]), i, s[i], max);
      } else {
        LastTokenIsHeld(s[..i], max);
      }
    }
  }

  lemma OnlyTheEndFinishes(r: HeadRun, m: Move, i: nat, c: char, max: int)
    requires Sound(r, i) && IsHead(r.k.state) && HeadLike(r.k.state, m)
    requires AdvanceBy(r, m, i, c, max).end > 0
    ensures m.Go? && m.finish
  {
    hide InOrder, Terminated, RunDigit, Limit;
    if m.Go? {
      PreparedInOrder(r, m, i, c);
    }
  }

  lemma FinishAnnouncesBody(r: HeadRun, m: Move, i: nat, c: char, max: int)
    requires Sound(r, i) && IsHead(r.k.state) && HeadLike(r.k.state, m)
    requires AdvanceBy(r, m, i, c, max).end > 0
    ensures |AdvanceBy(r, m, i, c, max).tokens| > 0
    ensures var r' := AdvanceBy(r, m, i, c, max); var t := r'.tokens[|r'.tokens| - 1];
      && (t.Streamed() <==> r'.k.state.LargeStart? || r'.k.state.SizeStart?)
      && (t.NoBody() <==> r'.k.state.HeadDone?)
  {
    hide InOrder, Terminated, RunDigit, Limit;
    if m.Go? {
      PreparedInOrder(r, m, i, c);
    }
  }

  /** A large body: the handler, one callback for each piece, and one of length zero at the end. */
  lemma LargeBodyCalls(s0: Session, events: seq<Event>, max: int)
    requires HeadComplete(s0, max) && s0.p.core.state.LargeStart? && s0.p.core.contentRemaining > 0
    ensures var s := Play(s0, events, max);
      s0.tokens <= s.tokens && InProtocol(CallsOf(s.tokens), Pieces(s0, s), s.p.done)
  {
    hide CallsOf, HeadComplete, Exec, Play, SumOfLengths, LargePieces, InProtocol;
    FromHead(s0, max);
    LargeBodyAddsUp(s0, events, max);
    HeadAnnouncesBody(s0, max);
    var s := Play(s0, events, max);
    assert s.tokens == s0.tokens + Pieces(s0, s);
    PiecesInProtocol(s0.tokens, Pieces(s0, s), s0.b.index, s.p.done);
  }

  lemma PiecesInProtocol(head: seq<Token>, pieces: seq<Token>, at: nat, done: bool)
    requires CallsOf(head) == [Handler] && LargePieces(pieces, at, done)
    ensures InProtocol(CallsOf(head + pieces), pieces, done)
  {
    hide CallsOf;
    if done {
      var n := |pieces| - 1;
      CallsOfPieces(head, pieces[..n]);
      OneMore(head + pieces[..n], pieces[n]);
      assert head + pieces == head + pieces[..n] + [pieces[n]];
      OneMoreChunkCall(pieces);
      assert CallsOf(head + pieces) == [Handler] + ChunkCalls(pieces) + [Chunk(END_OF_BODY)];
    } else {
      CallsOfPieces(head, pieces);
    }
  }

  /** A chunked body: the handler, one callback for each chunk, and one of length zero at the end. */
  lemma ChunkedBodyCalls(s0: Session, events: seq<Event>, chunks: seq<Segment>, tail: string, max: int)
    requires HeadComplete(s0, max) && s0.p.core.state == SizeStart(true) && GoodChunks(chunks)
    requires Delivers(s0, Play(s0, events, max), Stream(chunks, tail))
    requires InPlace(s0, chunks, events, max)
    ensures var s := Play(s0, events, max); var n := |s.tokens| - |s0.tokens|;
      && (if s.p.done then n == |chunks| + 1 else 0 <= n <= |chunks|)
      && InProtocol(CallsOf(s.tokens), ChunkTokens(chunks, s0.b.index, if s.p.done then |chunks| else n), s.p.done)
  {
    hide CallsOf, HeadComplete, Exec, Play, Frames, InPlace, Stream, Between, Within, InProtocol, FirstLooks;
    FromHead(s0, max);
    ChunksAreDelivered(s0, events, chunks, tail, false, max);
    HeadAnnouncesBody(s0, max);
    var s := Play(s0, events, max);
    ChunksInProtocol(s0.tokens, chunks, s0.b.index, if s.p.done then |chunks| else |s.tokens| - |s0.tokens|, s.p.done);
  }

  lemma ChunksInProtocol(head: seq<Token>, chunks: seq<Segment>, at: nat, n: nat, done: bool)
    requires CallsOf(head) == [Handler] && n <= |chunks| && GoodChunks(chunks)
    ensures var body := ChunkTokens(chunks, at, n);
      InProtocol(CallsOf(if done then head + body + [FINAL_CHUNK] else head + body), body, done)
  {
    hide CallsOf, DataOffset;
    var body := ChunkTokens(chunks, at, n);
    CallsOfPieces(head, body);
    if done {
      OneMore(head + body, FINAL_CHUNK);
      assert CallsOf(head + body + [FINAL_CHUNK]) == [Handler] + ChunkCalls(body) + [Chunk(FINAL_CHUNK)];
    }
  }

  /** A small body: nothing until all of it is there, then the handler, once. */
  lemma SmallBodyCalls(s0: Session, events: seq<Event>, max: int)
    requires HeadComplete(s0, max) && s0.p.core.state.SmallStart?
    ensures var s := Play(s0, events, max); CallsOf(s.tokens) == if s.p.done then [Handler] else []
  {
    hide CallsOf, HeadComplete, Exec, Play;
    FromHead(s0, max);
    SmallBodyIsDelivered(s0, events, false, max);
    HeadAnnouncesBody(s0, max);
    OneMore(s0.tokens, Token(Body, false, true, s0.p.core.contentLength, s0.b.index));
  }

  // --- re-entry and stalls ---

  /** The parser has nothing to say, and the buffer has not been consumed. */
  ghost predicate Stuck(r: Reader) {
    r.b.index < r.b.length && (r.p.done || r.p.sequenceId == r.b.sequenceId)
  }

  /** A stuck reader neither reads nor hands out anything, whatever arrives. */
  lemma StuckReaderIsSilent(r: Reader, incoming: seq<Arrival>, max: int)
    requires Sane(r, max) && Stuck(r)
    ensures ReadRequest(r, incoming, max) == Visit(r, incoming, "", Success)
  {
    BlockedExec(r.p, r.b, max);
    assert Take(r, Outcome(r.p, r.b, NO_TOKEN)) == r;
  }

  /** The callback for the last piece of a large body may call the reader again: the reader is stuck
      then, so the zero-length callback that follows is the next thing the user sees. */
  lemma LastPieceLeavesReaderStuck(r: Reader, incoming: seq<Arrival>, max: int)
    requires Sane(r, max) && r.b.afterHeaders == r.b.index && !r.p.done && 0 < r.p.core.contentRemaining
    requires r.p.core.state.LargeStart? || (r.p.core.state.InLarge? && !r.p.core.token.bit1 && !r.p.core.token.bit2)
    requires Exec(r.p, r.b, max).p.done
    ensures var o := Exec(r.p, r.b, max);
      Stuck(Take(r, o)) && ReadRequest(Take(r, o), incoming, max) == Visit(Take(r, o), incoming, "", Success)
  {
    hide Exec;
    ExecConsumes(r.p, r.b, max);
    ExecStaysBounded(r.p, r.b, max);
    if r.p.sequenceId == r.b.sequenceId {
      BlockedExec(r.p, r.b, max);
    } else {
      LargeExec(r.p, r.b, max);
    }
    StuckReaderIsSilent(Take(r, Exec(r.p, r.b, max)), incoming, max);
  }

  /** A call that returns no token and leaves bytes unread (after an error, an over-long token or a
      compaction) leaves the connection stuck for good. */
  lemma UnreadBytesStall(r: Reader, incoming: seq<Arrival>, max: int)
    requires Sane(r, max)
    requires var o := Exec(r.p, r.b, max); o.token.kind.None? && o.b.index < o.b.length && !r.p.done
    ensures var r' := Take(r, Exec(r.p, r.b, max));
      Sane(r', max) && Stuck(r') && ReadRequest(r', incoming, max) == Visit(r', incoming, "", Success)
  {
    ExecConsumes(r.p, r.b, max);
    ExecStaysBounded(r.p, r.b, max);
    NoTokenRunsDry(r.p, r.b, max);
    StuckReaderIsSilent(Take(r, Exec(r.p, r.b, max)), incoming, max);
  }

  lemma NoTokenRunsDry(p: Parser, b: Buffer, max: int)
    requires Bounded(p, b, max) && Tidy(p.core) && Exec(p, b, max).token.kind.None?
    ensures var o := Exec(p, b, max); o.p.done || o.p.sequenceId == o.b.sequenceId
  {
    hide Scan;
    if !p.done {
      ScanStaysBounded(p.core, b, b.index, max);
      ScanConsumes(p.core, b, b.index, max);
    }
  }
}

/**
  Chunked requests in runs of the reader. Handed-out chunks stay in the buffer, so a run can only finish a
  body that fits into the largest one.
 */
module ChunkServing {
  import opened Automaton
  import opened Parser
  import opened Head
  import opened HeadRoundTrip
  import opened Sessions
  import opened HeadCuts
  import opened HeadResults
  import opened Bodies
  import opened ChunkStream
  import opened ChunkLooks
  import opened Chunks
  import opened ReadBuffer
  import opened ReadSocket
  import opened Callbacks
  import opened ChunkShortfalls
  import opened EndToEnd
  import opened Completion
  import opened Visits
  import opened Serving

  // --- calls ---

  /** The first chunk has been handed out with a length that is not its own. */
  ghost predicate WrongFirst(s0: Session, s: Session, chunks: seq<Segment>) {
    && chunks != [] && s0.tokens < s.tokens
    && var t := s.tokens[|s0.tokens|];
       t == ChunkToken(chunks, s0.b.index, 0).(len := t.len) && 0 <= t.len != |chunks[0].data|
  }

  /** What the schedule so far has come to: all is well, the reader is stranded, or the first chunk has
      been handed out with another length. */
  ghost predicate InOneOfThree(s0: Session, events: seq<Event>, s: Session, chunks: seq<Segment>, max: int)
    requires s0.b.Valid()
  {
    InPlace(s0, chunks, events, max) || (Stranded(s) && !s.p.done) || WrongFirst(s0, s, chunks)
  }

  lemma OneMoreInPlace(s0: Session, events: seq<Event>, e: Event, chunks: seq<Segment>, max: int)
    requires s0.b.Valid() && InPlace(s0, chunks, events, max)
    ensures var s := Play(s0, events, max);
      NeverMoved(s0, chunks, events + [e], max) <==> !(e.Parse? && MustMove(s0, s, chunks, max))
    ensures chunks != [] ==>
      var s := Play(s0, events, max); var g := FirstLooks(s0, chunks, events, max);
      FirstLooks(s0, chunks, events + [e], max) ==
        if g.Waits? && e.Parse? && Looks(s, chunks, s0.b.index, 0) then LookAt(s, g.lead, chunks, s0.b.index, 0, max)
        else g
    ensures Play(s0, events + [e], max) == Happen(Play(s0, events, max), e, max)
  {
    hide Exec, LookAt, Looks, MustMove;
    var all, n := events + [e], |events|;
    assert all[..n] == events;
    forall k | 0 <= k < n ensures all[..k] == events[..k] && all[k] == events[k] {}
  }

  /** A call leads to one of the three. */
  lemma CallInOneOfThree(s0: Session, events: seq<Event>, chunks: seq<Segment>, tail: string, max: int)
    requires HeadComplete(s0, max) && s0.p.core.state == SizeStart(true) && GoodChunks(chunks)
    requires Delivers(s0, Play(s0, events, max), Stream(chunks, tail)) && InPlace(s0, chunks, events, max)
    ensures s0.b.Valid()
    ensures var s := Play(s0, events, max); var s' := Happen(s, Parse, max);
      && InOneOfThree(s0, events + [Parse], s', chunks, max)
      && (!InPlace(s0, chunks, events + [Parse], max) && Stranded(s')
        ==> s'.tokens == s.tokens || WrongFirst(s0, s', chunks))
      && s'.received == s.received
  {
    hide Exec, HeadComplete, Stream, LookAt, FirstLooks, Play, DataOffset, DataEnd, Stranded;
    FromHead(s0, max);
    var s := Play(s0, events, max);
    var s' := Happen(s, Parse, max);
    OneMoreInPlace(s0, events, Parse, chunks, max);
    if MustMove(s0, s, chunks, max) {
      IncompleteChunkStrands(s0, events, chunks, tail, max);
    } else if chunks != [] {
      var g := FirstLooks(s0, chunks, events + [Parse], max);
      if g.Moves? {
        MovedFirstChunkStrands(s0, events, chunks, tail, max);
      } else if g.Gives? && g.len != |chunks[0].data| {
        FirstChunkExactly(s0, events + [Parse], chunks, tail, max);
        GivenFirst(s0, s', g, chunks);
      }
    }
  }

  lemma GivenFirst(s0: Session, s: Session, g: Glimpse, chunks: seq<Segment>)
    requires chunks != [] && FirstSoFar(s0, s, g, chunks) && g.Gives? && g.len != |chunks[0].data|
    ensures WrongFirst(s0, s, chunks)
  {
    hide DataOffset;
    var t := Token(Body, false, false, g.len, s0.b.index + DataOffset(chunks, 0));
    assert (s0.tokens + [t])[|s0.tokens|] == s.tokens[|s0.tokens|];
  }

  lemma ReadInPlace(s0: Session, events: seq<Event>, bytes: string, capacity: int, chunks: seq<Segment>, max: int)
    requires s0.b.Valid() && InPlace(s0, chunks, events, max)
    ensures InPlace(s0, chunks, events + [Read(bytes, capacity)], max)
    ensures Play(s0, events + [Read(bytes, capacity)], max) == Happen(Play(s0, events, max), Read(bytes, capacity), max)
  {
    hide Exec, LookAt, Looks, MustMove, FirstLooks, Play;
    OneMoreInPlace(s0, events, Read(bytes, capacity), chunks, max);
  }

  // --- visits ---

  /** In a run: all is well, the reader is stuck for good, or the first chunk has been handed out with
      another length. */
  ghost predicate ChunkState(s0: Session, events: seq<Event>, s: Session, rd: Reader, chunks: seq<Segment>, max: int)
    requires s0.b.Valid()
  {
    InPlace(s0, chunks, events, max) || (Stuck(rd) && !rd.p.done) || WrongFirst(s0, s, chunks)
  }

  /** Tokens of a chunked body, and none, return to the caller. */
  lemma ChunkCallReturns(s0: Session, events: seq<Event>, rd: Reader, chunks: seq<Segment>, tail: string, max: int)
    requires HeadComplete(s0, max) && s0.p.core.state == SizeStart(true) && GoodChunks(chunks)
    requires Delivers(s0, Play(s0, events, max), Stream(chunks, tail)) && InPlace(s0, chunks, events, max)
    requires Tracks(Play(s0, events, max), rd)
    ensures Returns(Exec(rd.p, rd.b, max).token)
  {
    hide Exec, HeadComplete, Stream, Play, DataOffset, InPlace, CallsOf, TokensOf, Between, Within;
    FromHead(s0, max);
    var s := Play(s0, events, max);
    var o := Exec(rd.p, rd.b, max);
    if !o.token.kind.None? {
      var s' := Happen(s, Parse, max);
      CallInOneOfThree(s0, events, chunks, tail, max);
      ChunksAreDelivered(s0, events, chunks, tail, false, max);
      assert s'.tokens == s.tokens + [o.token];
      LastEventIs(s0, events, Parse, max);
      if InPlace(s0, chunks, events + [Parse], max) {
        ChunksAreDelivered(s0, events + [Parse], chunks, tail, false, max);
        assert s'.tokens[|s.tokens|] == o.token;
      } else if WrongFirst(s0, s', chunks) {
        FirstOfBoth(s0, s, s', o.token, chunks, Firstly(s0, chunks, events, max));
      }
    }
  }

  lemma LastEventIs(s0: Session, events: seq<Event>, e: Event, max: int)
    requires s0.b.Valid()
    ensures Play(s0, events + [e], max) == Happen(Play(s0, events, max), e, max)
  {
    assert (events + [e])[..|events|] == events;
  }

  lemma FirstOfBoth(s0: Session, s: Session, s': Session, t: Token, chunks: seq<Segment>, first: Glimpse)
    requires s'.tokens == s.tokens + [t] && WrongFirst(s0, s', chunks) && Dechunking(s0, s, chunks, first, false)
    ensures t.kind.Body?
  {
    hide DataOffset, Between, Within;
  }

  /** What a visit does to a chunked body. */
  lemma ChunkVisit(s0: Session, events: seq<Event>, s: Session, rd: Reader, incoming: seq<Arrival>, r: Request,
      chunks: seq<Segment>, tail: string, max: int)
      returns (events': seq<Event>, s': Session)
    requires GoodRequest(r) && FramingOf(r, max).Chunked? && GoodChunks(chunks) && Since(s0, events, s, r, max)
    requires Tracks(s, rd) && Sane(rd, max) && ChunkState(s0, events, s, rd, chunks, max)
    requires s.received + Pending(incoming) <= PrintRequest(r) + Stream(chunks, tail)
    ensures var v := ReadRequest(rd, incoming, max);
      && Since(s0, events', s', r, max) && Tracks(s', v.r) && s'.received == s.received + v.taken
      && ChunkState(s0, events', s', v.r, chunks, max)
  {
    hide Exec, HeadTaken, Dispatch, ReadRequest, GoodRequest, PrintRequest, FramingOf, Pending, Sane, Stream, Play,
      InPlace, Tracks;
    TracksIsValid(s, rd);
    events', s' := events, s;
    if Stuck(rd) && !rd.p.done {
      StuckReaderIsSilent(rd, incoming, max);
      assert s.received + "" == s.received;
    } else if WrongFirst(s0, s, chunks) {
      var more := VisitIsSchedule(s, rd, incoming, max);
      events', s' := events + more, Play(s, more, max);
      SinceMore(s0, events, s, more, r, max);
      SessionsGrow(s, more, max);
      assert s'.tokens[|s0.tokens|] == s.tokens[|s0.tokens|];
    } else {
      events', s' := PlaceVisit(s0, events, s, rd, incoming, r, chunks, tail, max);
    }
  }

  lemma PlaceVisit(s0: Session, events: seq<Event>, s: Session, rd: Reader, incoming: seq<Arrival>, r: Request,
      chunks: seq<Segment>, tail: string, max: int)
      returns (events': seq<Event>, s': Session)
    requires GoodRequest(r) && FramingOf(r, max).Chunked? && GoodChunks(chunks) && Since(s0, events, s, r, max)
    requires Tracks(s, rd) && Sane(rd, max) && InPlace(s0, chunks, events, max)
    requires s.received + Pending(incoming) <= PrintRequest(r) + Stream(chunks, tail)
    ensures var v := ReadRequest(rd, incoming, max);
      && Since(s0, events', s', r, max) && Tracks(s', v.r) && s'.received == s.received + v.taken
      && ChunkState(s0, events', s', v.r, chunks, max)
  {
    hide Exec, HeadTaken, Dispatch, ReadLoop, GoodRequest, PrintRequest, FramingOf, Pending, Sane, Stream, Play,
      InPlace, Append, CallsOf, TokensOf;
    var all := PrintRequest(r) + Stream(chunks, tail);
    if rd.b.index >= rd.b.length {
      SaneFits(rd, max);
      ReadLoopIsAppend(rd.b, incoming, max);
      var e := ReadLoop(rd.b, incoming, max);
      var read := Read(e.taken, e.b.capacity);
      var rd1 := rd.(b := e.b.(sequenceId := NextSequence(e.b.sequenceId)));
      ReadInPlace(s0, events, e.taken, e.b.capacity, chunks, max);
      var s1 := Happen(s, read, max);
      OneEvent(s, read, max);
      SinceMore(s0, events, s, [read], r, max);
      PendingIsPrefix(s.received, e.taken, Pending(e.incoming), all);
      events', s' := events + [read], s1;
      if e.rc != 0 {
        ReadKeepsTidy(rd, rd1, max);
        s' := PlaceCall(s0, events + [read], s1, rd1, r, chunks, tail, max);
        events' := events + [read] + [Parse];
      }
    } else {
      NoRead(rd, incoming, max);
      Shorter(s.received, Pending(incoming), all);
      assert s.received + "" == s.received;
      s' := PlaceCall(s0, events, s, rd, r, chunks, tail, max);
      events' := events + [Parse];
    }
  }

  lemma SaneFits(rd: Reader, max: int)
    requires Sane(rd, max)
    ensures Fits(rd.b, max)
  {
  }

  lemma ReadKeepsTidy(rd: Reader, rd1: Reader, max: int)
    requires Sane(rd, max) && rd1 == rd.(b := rd1.b) && rd1.b.Valid()
    ensures Tidy(rd1.p.core)
  {
  }

  lemma PlaceCall(s0: Session, events: seq<Event>, s: Session, rd: Reader, r: Request, chunks: seq<Segment>,
      tail: string, max: int)
      returns (s': Session)
    requires FramingOf(r, max).Chunked? && GoodChunks(chunks) && Since(s0, events, s, r, max)
    requires Tracks(s, rd) && Tidy(rd.p.core) && InPlace(s0, chunks, events, max)
    requires s.received <= PrintRequest(r) + Stream(chunks, tail)
    ensures s' == Happen(s, Parse, max) && Since(s0, events + [Parse], s', r, max) && Tracks(s', Dispatch(rd, max))
    ensures s'.received == s.received && ChunkState(s0, events + [Parse], s', Dispatch(rd, max), chunks, max)
  {
    hide Exec, HeadTaken, Dispatch, PrintRequest, FramingOf, Stream, Play, InPlace, CallsOf, TokensOf;
    HeadTakenIsChunked(s0, r, max);
    StreamIsDelivered(s0, s, r, Stream(chunks, tail), events, max);
    s' := Happen(s, Parse, max);
    OneEvent(s, Parse, max);
    SinceMore(s0, events, s, [Parse], r, max);
    CallInOneOfThree(s0, events, chunks, tail, max);
    ChunkCallReturns(s0, events, rd, chunks, tail, max);
    OneCall(s, rd, max);
  }

  lemma HeadTakenIsChunked(s0: Session, r: Request, max: int)
    requires HeadTaken(s0, r, max) && FramingOf(r, max).Chunked?
    ensures HeadComplete(s0, max) && s0.p.core.state == SizeStart(true) && s0.b.index == |PrintRequest(r)|
  {
    hide HeadComplete, PrintRequest, RequestTokens, LengthOf;
  }

  // --- runs ---

  /** Every run of the reader on a chunked request is in its head, or in one of the three states. */
  lemma {:induction false} EveryChunkedRun(capacity: int, visits: seq<seq<Arrival>>, r: Request, chunks: seq<Segment>,
      tail: string, max: int)
      returns (s: Session, s0: Session, events: seq<Event>)
    requires 0 < capacity <= max && GoodRequest(r) && FramingOf(r, max).Chunked? && GoodChunks(chunks)
    requires Endless(visits) && Arrived(visits) <= PrintRequest(r) + Stream(chunks, tail)
    ensures var v := Serve(capacity, visits, max);
      && Tracks(s, v.r) && Sane(v.r, max) && Roomy(v.r.b, max) && NoEnd(v.incoming)
      && s.received + Pending(v.incoming) == Arrived(visits)
      && if s.b.afterHeaders == 0 then HeadState(s, v.r, max)
         else Since(s0, events, s, r, max) && ChunkState(s0, events, s, v.r, chunks, max)
  {
    hide GoodRequest, PrintRequest, FramingOf, ReadRequest, Sane, Stream, HeadTaken, Reading, ChunkState, Roomy, Tracks,
      Play, Serve, Since, HeadState, Arrived, Pending;
    events := [];
    if visits == [] {
      s, s0 := Start(capacity), Start(capacity);
      FreshHead(capacity, max);
      NoVisits(capacity, max);
    } else {
      var n := |visits| - 1;
      ArrivedSoFar(visits, n);
      LastOfServe(capacity, visits, max);
      var s1;
      s1, s0, events := EveryChunkedRun(capacity, visits[..n], r, chunks, tail, max);
      var v := Serve(capacity, visits[..n], max);
      var incoming := v.incoming + visits[n];
      PendingOfBoth(v.incoming, visits[n]);
      assert s1.received + (Pending(v.incoming) + Pending(visits[n])) == Arrived(visits[..n]) + Pending(visits[n]);
      VisitKeepsSane(v.r, incoming, max);
      VisitKeepsRoomy(v.r, incoming, max);
      FullBufferIsTheEnd(v.r, incoming, max);
      var w := ReadRequest(v.r, incoming, max);
      if s1.b.afterHeaders == 0 {
        s := HeadersVisit(s1, v.r, incoming, r, Stream(chunks, tail), max);
        if s.b.afterHeaders != 0 {
          s0, events := s, [];
          FreshBody(s, w.r, r, chunks, max);
        }
      } else {
        events, s := ChunkVisit(s0, events, s1, v.r, incoming, r, chunks, tail, max);
        BodyHasHead(s, r, max);
      }
      assert s1.received + (w.taken + Pending(w.incoming)) == s1.received + w.taken + Pending(w.incoming);
    }
  }

  lemma NoVisits(capacity: int, max: int)
    requires 0 < capacity <= max
    ensures Serve(capacity, [], max) == Served(NewReader(capacity), [])
    ensures Arrived([]) == "" == Pending([]) && "" + "" == ""
  {
  }

  lemma FreshBody(s0: Session, rd: Reader, r: Request, chunks: seq<Segment>, max: int)
    requires HeadTaken(s0, r, max)
    ensures Since(s0, [], s0, r, max) && InPlace(s0, chunks, [], max) && ChunkState(s0, [], s0, rd, chunks, max)
  {
    hide HeadTaken;
    HeadTakenIsBody(s0, r, max);
  }

  /** A run finishes a chunked request only if the head, the chunks and the last size line fit into the largest
      buffer together. */
  lemma FinishedChunksFit(capacity: int, visits: seq<seq<Arrival>>, r: Request, chunks: seq<Segment>, tail: string,
      max: int)
    requires 0 < capacity <= max && GoodRequest(r) && FramingOf(r, max).Chunked? && GoodChunks(chunks)
    requires Endless(visits) && Arrived(visits) <= PrintRequest(r) + Stream(chunks, tail)
    requires var rd := Serve(capacity, visits, max).r;
      rd.p.done && rd.calls
        == [Handler] + ChunkCalls(ChunkTokens(chunks, |PrintRequest(r)|, |chunks|)) + [Chunk(FINAL_CHUNK)]
    ensures |PrintRequest(r)| + |Frames(chunks) + LAST_CHUNK| <= max
  {
    hide GoodRequest, PrintRequest, FramingOf, Sane, Stream, HeadTaken, Reading, Roomy, Play, Serve, InPlace, CallsOf,
      TokensOf, Frames;
    var s, s0, events := EveryChunkedRun(capacity, visits, r, chunks, tail, max);
    var rd := Serve(capacity, visits, max).r;
    if s.b.afterHeaders == 0 {
      NotDoneInHead(s, max);
    } else {
      HeadTakenIsChunked(s0, r, max);
      HeadAnnouncesBody(s0, max);
      assert ChunksFinished(s, r, chunks);
      if WrongFirst(s0, s, chunks) {
        GoneIsUnfinished(s0, s, r, chunks) by { WrongIsGone(s0, s, chunks); }
      } else {
        Shorter(s.received, Pending(Serve(capacity, visits, max).incoming), PrintRequest(r) + Stream(chunks, tail));
        StreamIsDelivered(s0, s, r, Stream(chunks, tail), events, max);
        ChunksAreDelivered(s0, events, chunks, tail, false, max);
        DoneAtTheEnd(s0, s, rd, chunks, Firstly(s0, chunks, events, max), max);
      }
    }
  }

  lemma NotDoneInHead(s: Session, max: int)
    requires Reading(s, max)
    ensures !s.p.done
  {
    hide Fold;
  }

  lemma WrongIsGone(s0: Session, s: Session, chunks: seq<Segment>)
    requires WrongFirst(s0, s, chunks) && s.b.Valid()
    ensures GoneFor(s0, s, chunks)
  {
    hide DataOffset;
  }

  lemma DoneAtTheEnd(s0: Session, s: Session, rd: Reader, chunks: seq<Segment>, first: Glimpse, max: int)
    requires Dechunking(s0, s, chunks, first, false) && s.p.done && Tracks(s, rd) && Sane(rd, max)
    ensures s0.b.index + |Frames(chunks) + LAST_CHUNK| <= max
  {
    hide Frames, Within, CallsOf, TokensOf;
    assert chunks[..|chunks|] == chunks;
  }
}

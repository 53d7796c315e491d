/**
  Whole requests: a printed head followed by its body, cut into reads in any way. What is proved of
  heads, bodies and callbacks is put together here, for every way a body can be delimited.
 */
module EndToEnd {
  import opened Automaton
  import opened Parser
  import opened Head
  import opened HeadRoundTrip
  import opened Sessions
  import opened HeadCuts
  import opened HeadResults
  import opened Bodies
  import opened ChunkStream
  import opened ChunkLooks
  import opened Chunks
  import opened ReadSocket
  import opened Callbacks

  /** The moment the head of the request is complete. */
  ghost predicate HeadTaken(s0: Session, r: Request, max: int) {
    && HeadComplete(s0, max) && s0.b.index == |PrintRequest(r)| && PrintRequest(r) <= s0.received
    && s0.tokens == RequestTokens(r) + [DoneToken(FramingOf(r, max))]
    && s0.p.core.state == BodyState(FramingOf(r, max))
    && s0.p.core.contentLength == s0.p.core.contentRemaining == LengthOf(r.headers)
  }

  /** The method, the target, the version and all headers lie in the buffer, at the places the token
      array says. */
  ghost predicate HeadReadable(s: Session, r: Request) {
    RequestTokens(r) <= s.tokens && Spell(s.b.mem, RequestTokens(r), RequestTexts(r))
  }

  lemma PrefixOf(a: string, b: string, c: string)
    requires a <= c && b <= c && |a| <= |b|
    ensures a <= b
  {
    assert a == c[..|a|] && b == c[..|b|];
  }

  lemma RequestIsNotEmpty(r: Request)
    ensures |PrintRequest(r)| > 0
  {
  }

  /** A complete head read from the bytes of a printed request is the printed head. */
  lemma HeadIsThePrintedOne(s: string, r: Request, body: string, max: int)
    requires GoodRequest(r) && s <= PrintRequest(r) + body && Fold(s, max).end > 0
    ensures Fold(s, max) == Fold(PrintRequest(r), max) && PrintRequest(r) <= s
  {
    hide Fold, RequestTokens, BodyState, DoneToken, FramingOf, GoodRequest, PrintRequest;
    var all := PrintRequest(r) + body;
    RequestReadsBack(r, max);
    RequestIsNotEmpty(r);
    FoldSound(s, max);
    FoldSound(PrintRequest(r), max);
    FoldAbsorbs(s, all[|s|..], max);
    assert s + all[|s|..] == all;
    FoldAbsorbs(PrintRequest(r), body, max);
    PrefixOf(PrintRequest(r), s, all);
  }

  /** A head that is complete is that of the request. */
  lemma CompleteIsTaken(s0: Session, r: Request, body: string, max: int)
    requires GoodRequest(r) && HeadComplete(s0, max) && s0.received <= PrintRequest(r) + body
    ensures HeadTaken(s0, r, max)
  {
    hide Fold, RequestTokens, BodyState, DoneToken, FramingOf, GoodRequest, PrintRequest, LengthOf, IsChunked;
    HeadIsThePrintedOne(s0.received, r, body, max);
    RequestReadsBack(r, max);
  }

  /** A schedule that gets beyond the head is one that completes the head, and then goes on. */
  lemma BodyIsReached(r: Request, body: string, capacity: int, events: seq<Event>, max: int) returns (n: nat)
    requires GoodRequest(r) && Play(Start(capacity), events, max).received <= PrintRequest(r) + body
    requires Play(Start(capacity), events, max).b.afterHeaders > 0
    ensures n <= |events|
    ensures HeadTaken(Play(Start(capacity), events[..n], max), r, max)
    ensures Play(Start(capacity), events, max) == Play(Play(Start(capacity), events[..n], max), events[n..], max)
  {
    hide Fold, HeadComplete, HeadTaken, GoodRequest, PrintRequest, Play;
    n := HeadIsCompleted(capacity, events, max);
    var s0 := Play(Start(capacity), events[..n], max);
    assert events[..n] + events[n..] == events;
    PlayAppend(Start(capacity), events[..n], events[n..], max);
    ReceivedGrows(s0, events[n..], max);
    CompleteIsTaken(s0, r, body, max);
  }

  lemma HeadStaysReadable(r: Request, body: string, capacity: int, events: seq<Event>, max: int)
    requires GoodRequest(r) && Play(Start(capacity), events, max).received <= PrintRequest(r) + body
    requires Play(Start(capacity), events, max).b.afterHeaders > 0
    ensures HeadReadable(Play(Start(capacity), events, max), r)
  {
    hide Fold, RequestTokens, BodyState, DoneToken, FramingOf, GoodRequest, PrintRequest, Play, Spell, RequestTexts,
      LengthOf, IsChunked;
    EverySchedule(capacity, events, max);
    var s := Play(Start(capacity), events, max);
    HeadIsThePrintedOne(s.received, r, body, max);
    RequestReadsBack(r, max);
    TokensSpellRequest(r);
    assert s.b.mem[..|PrintRequest(r)|] == PrintRequest(r);
    SpellAlso(PrintRequest(r), s.b.mem, RequestTokens(r), RequestTexts(r));
  }

  // --- no body ---

  ghost predicate Quiet(s0: Session, s: Session) {
    s.b.Valid() && s.tokens == s0.tokens && !s.p.done && s.b.index == s.b.length == s0.b.length
      && s.received == s0.received
  }

  lemma {:induction false} NothingFollows(s0: Session, events: seq<Event>, max: int)
    requires s0.b.Valid() && s0.b.index == s0.b.length && !s0.p.done
    requires Play(s0, events, max).received == s0.received
    ensures Quiet(s0, Play(s0, events, max))
  {
    hide Exec;
    if events != [] {
      var before := events[..|events| - 1];
      var s := Play(s0, before, max);
      ReceivedGrows(s0, before, max);
      ReceivedGrows(s, [events[|events| - 1]], max);
      assert [events[|events| - 1]][..0] == [];
      NothingFollows(s0, before, max);
      if events[|events| - 1].Parse? {
        if s.p.sequenceId == s.b.sequenceId {
          BlockedExec(s.p, s.b, max);
        } else {
          ExecAtEnd(s.p, s.b, max);
        }
      }
    }
  }

  lemma {:induction false} CallsGrow(tokens: seq<Token>, more: seq<Token>)
    ensures CallsOf(tokens) <= CallsOf(tokens + more)
  {
    hide CallsFor;
    if more == [] {
      assert tokens + more == tokens;
    } else {
      var n := |more| - 1;
      CallsGrow(tokens, more[..n]);
      assert tokens + more == tokens + more[..n] + [more[n]];
      OneMore(tokens + more[..n], more[n]);
    }
  }

  /** A request without a body, whatever arrives after it: no callback in the head, the handler when the
      head is complete, with the head in the buffer; and no more, as long as nothing has arrived after it. */
  lemma RequestWithoutBody(r: Request, more: string, capacity: int, events: seq<Event>, max: int) returns (n: nat)
    requires GoodRequest(r) && FramingOf(r, max).NoBody?
    requires Play(Start(capacity), events, max).received <= PrintRequest(r) + more
    ensures n <= |events|
    ensures var s0 := Play(Start(capacity), events[..n], max); var s := Play(Start(capacity), events, max);
      if s.b.afterHeaders == 0 then CallsOf(s.tokens) == []
      else
        && HeadTaken(s0, r, max) && CallsOf(s0.tokens) == [Handler]
        && HeadReadable(s, r) && s0.tokens <= s.tokens && [Handler] <= CallsOf(s.tokens)
        && (s.received <= PrintRequest(r) ==> s.tokens == s0.tokens)
  {
    hide Fold, RequestTokens, DoneToken, FramingOf, GoodRequest, PrintRequest, Play, CallsOf, HeadReadable, LengthOf;
    n := 0;
    NoCallsInHead(capacity, events, max);
    var s := Play(Start(capacity), events, max);
    if s.b.afterHeaders > 0 {
      n := BodyIsReached(r, more, capacity, events, max);
      var s0 := Play(Start(capacity), events[..n], max);
      HeadAnnouncesBody(s0, max);
      ReceivedGrows(s0, events[n..], max);
      SessionsGrow(s0, events[n..], max);
      CallsGrow(s0.tokens, s.tokens[|s0.tokens|..]);
      assert s.tokens == s0.tokens + s.tokens[|s0.tokens|..];
      HeadStaysReadable(r, more, capacity, events, max);
      if s.received <= PrintRequest(r) {
        NothingFollows(s0, events[n..], max);
      }
    }
  }

  // --- a small body ---

  /** A request with a small body, if the parser never looks when exactly its last byte is missing: the
      handler runs once, and finds the head, and the whole body in one piece behind it. */
  lemma RequestWithSmallBody(r: Request, body: string, capacity: int, events: seq<Event>, max: int) returns (n: nat)
    requires GoodRequest(r) && FramingOf(r, max).Small? && |body| == LengthOf(r.headers)
    requires Play(Start(capacity), events, max).received <= PrintRequest(r) + body
    ensures n <= |events|
    ensures var s := Play(Start(capacity), events, max);
      && (s.b.afterHeaders == 0 ==> CallsOf(s.tokens) == [])
      && (s.b.afterHeaders > 0 ==> HeadTaken(Play(Start(capacity), events[..n], max), r, max))
      && (s.b.afterHeaders > 0 ==> HeadReadable(s, r) && CallsOf(s.tokens) == if s.p.done then [Handler] else [])
      && (s.b.afterHeaders > 0 && s.p.done
          && NeverCalledAt(Play(Start(capacity), events[..n], max), events[n..], |PrintRequest(r)|
            + |body| - 1, max) ==>
            && s.tokens == RequestTokens(r) + [DoneToken(Small), Token(Body, false, true, |body|, |PrintRequest(r)|)]
            && |s.b.mem| >= |PrintRequest(r) + body| && s.b.mem[..|PrintRequest(r) + body|] == PrintRequest(r) + body)
  {
    hide Fold, RequestTokens, DoneToken, FramingOf, GoodRequest, PrintRequest, Play, CallsOf, HeadReadable, LengthOf,
      NeverCalledAt, HeadComplete;
    n := 0;
    NoCallsInHead(capacity, events, max);
    var s := Play(Start(capacity), events, max);
    if s.b.afterHeaders > 0 {
      n := BodyIsReached(r, body, capacity, events, max);
      var s0 := Play(Start(capacity), events[..n], max);
      HeadStaysReadable(r, body, capacity, events, max);
      SmallBodyCalls(s0, events[n..], max);
      if s.p.done && NeverCalledAt(s0, events[n..], |PrintRequest(r)| + |body| - 1, max) {
        SmallBodyIsDelivered(s0, events[n..], true, max);
        assert s.received == PrintRequest(r) + body;
        assert RequestTokens(r) + [DoneToken(Small)] + [Token(Body, false, true, |body|, |PrintRequest(r)|)]
            == RequestTokens(r) + [DoneToken(Small), Token(Body, false, true, |body|, |PrintRequest(r)|)];
      }
    }
  }

  // --- a large body ---

  /** A request with a large body: the handler, one callback for each piece, one of length zero at the
      end; the pieces add up to the announced length; and if the parser never looks when exactly one
      byte is missing, they spell the body. */
  lemma RequestWithLargeBody(r: Request, body: string, capacity: int, events: seq<Event>, max: int) returns (n: nat)
    requires GoodRequest(r) && FramingOf(r, max).Large? && |body| == LengthOf(r.headers)
    requires Play(Start(capacity), events, max).received <= PrintRequest(r) + body
    ensures n <= |events|
    ensures var s0 := Play(Start(capacity), events[..n], max); var s := Play(Start(capacity), events, max);
      && (s.b.afterHeaders == 0 ==> CallsOf(s.tokens) == [])
      && (s.b.afterHeaders > 0 ==>
            && HeadTaken(s0, r, max) && HeadReadable(s, r) && s0.tokens <= s.tokens
            && InProtocol(CallsOf(s.tokens), Pieces(s0, s), s.p.done)
            && SumOfLengths(Pieces(s0, s)) <= |body| && (s.p.done <==> SumOfLengths(Pieces(s0, s)) == |body|)
            && (NeverCalledAt(s0, events[n..], |PrintRequest(r)| + |body| - 1, max) ==>
                  |s0.texts| <= |s.texts| && Delivered(s0, s) <= body && (s.p.done ==> Delivered(s0, s) == body)))
  {
    hide Fold, RequestTokens, DoneToken, FramingOf, GoodRequest, PrintRequest, Play, CallsOf, HeadReadable, LengthOf;
    hide NeverCalledAt, HeadComplete, InProtocol, SumOfLengths, Delivered;
    n := 0;
    NoCallsInHead(capacity, events, max);
    var s := Play(Start(capacity), events, max);
    if s.b.afterHeaders > 0 {
      n := BodyIsReached(r, body, capacity, events, max);
      var s0 := Play(Start(capacity), events[..n], max);
      LargeMeansSome(r, max);
      HeadStaysReadable(r, body, capacity, events, max);
      LargeBodyAddsUp(s0, events[n..], max);
      LargeBodyCalls(s0, events[n..], max);
      if NeverCalledAt(s0, events[n..], |PrintRequest(r)| + |body| - 1, max) {
        LargeBodyIsDelivered(s0, events[n..], max);
        DeliveredIsBody(s0, s, r, body);
      }
    }
  }

  lemma LargeMeansSome(r: Request, max: int)
    ensures FramingOf(r, max).Large? ==> LengthOf(r.headers) > 0
  {
  }

  lemma DeliveredIsBody(s0: Session, s: Session, r: Request, body: string)
    requires s0.b.index == |PrintRequest(r)| && Conserved(s0, s, |body|) && s.received <= PrintRequest(r) + body
    ensures |s0.texts| <= |s.texts| && Delivered(s0, s) <= body && (s.p.done ==> Delivered(s0, s) == body)
  {
    hide Delivered, PrintRequest;
    var at := s0.b.index;
    assert (PrintRequest(r) + body)[at..] == body;
    assert s.received[at..] <= body;
    if s.p.done {
      assert s.received == PrintRequest(r) + body;
    }
  }

  // --- a chunked body ---

  /** A chunked request, printed by the responder's rules for chunks, if the first chunk keeps its length and
      nothing is moved: the handler, one callback for each chunk, and one of length zero at the end; with
      clean cuts each chunk is handed out with its data. */
  lemma ChunkedRequest(r: Request, chunks: seq<Segment>, tail: string, capacity: int, events: seq<Event>, max: int)
      returns (n: nat)
    requires GoodRequest(r) && FramingOf(r, max).Chunked? && GoodChunks(chunks)
    requires Play(Start(capacity), events, max).received <= PrintRequest(r) + Stream(chunks, tail)
    ensures n <= |events|
    ensures var s0 := Play(Start(capacity), events[..n], max); var s := Play(Start(capacity), events, max);
      && (s.b.afterHeaders == 0 ==> CallsOf(s.tokens) == [])
      && (s.b.afterHeaders > 0 ==> HeadTaken(s0, r, max))
      && (s.b.afterHeaders > 0 && InPlace(s0, chunks, events[n..], max) ==>
            var k := if s.p.done then |chunks| else |s.tokens| - |RequestTokens(r)| - 1;
            && HeadReadable(s, r) && 0 <= k <= |chunks|
            && s.tokens == RequestTokens(r) + [DoneToken(Chunked)] + ChunkTokens(chunks, |PrintRequest(r)|, k)
                           + (if s.p.done then [FINAL_CHUNK] else [])
            && InProtocol(CallsOf(s.tokens), ChunkTokens(chunks, |PrintRequest(r)|, k), s.p.done)
            && (CleanCuts(s0, chunks, events[n..], max) ==>
                  && |RequestTokens(r)| < |s.texts|
                  && s.texts[|RequestTokens(r)| + 1..] == Datas(chunks[..k]) + (if s.p.done then [""] else [])))
  {
    hide Fold, RequestTokens, DoneToken, FramingOf, GoodRequest, PrintRequest, Play, CallsOf, HeadReadable, LengthOf;
    hide InPlace, NeverOneShort, HeadComplete, InProtocol, Stream, Within, Between, Firstly;
    n := 0;
    NoCallsInHead(capacity, events, max);
    var s := Play(Start(capacity), events, max);
    if s.b.afterHeaders > 0 {
      n := BodyIsReached(r, Stream(chunks, tail), capacity, events, max);
      var s0 := Play(Start(capacity), events[..n], max);
      if InPlace(s0, chunks, events[n..], max) {
        HeadStaysReadable(r, Stream(chunks, tail), capacity, events, max);
        StreamIsDelivered(s0, s, r, Stream(chunks, tail), events[n..], max);
        ChunksAreDelivered(s0, events[n..], chunks, tail, NeverOneShort(s0, chunks, events[n..], max), max);
        ChunkedBodyCalls(s0, events[n..], chunks, tail, max);
        assert chunks[..|chunks|] == chunks;
        assert s.p.done ==> s0.texts + Datas(chunks) + [""] == s0.texts + (Datas(chunks) + [""]);
      }
    }
  }

  lemma StreamIsDelivered(s0: Session, s: Session, r: Request, w: string, events: seq<Event>, max: int)
    requires HeadTaken(s0, r, max) && s == Play(s0, events, max) && s.received <= PrintRequest(r) + w
    ensures Delivers(s0, s, w)
  {
    hide Play, PrintRequest, HeadComplete;
    assert s0.b.Valid() by { FromHead(s0, max); }
    ReceivedGrows(s0, events, max);
    assert (PrintRequest(r) + w)[|PrintRequest(r)|..] == w;
  }
}

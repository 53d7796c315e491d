/**
  Complete requests under every schedule: when all of a request has been received, calls of the parser that
  are not held back hand out all that is left of it, exactly if the first chunk comes out.
 */
module Completion {
  import opened Automaton
  import opened Parser
  import opened Head
  import opened HeadRoundTrip
  import opened Sessions
  import opened HeadCuts
  import opened HeadResults
  import opened Bodies
  import opened ChunkStream
  import opened ChunkLooks
  import opened Chunks
  import opened ReadSocket
  import opened Callbacks
  import opened ChunkShortfalls
  import opened EndToEnd

  /** The reader would turn to the socket: everything in the buffer has been consumed. */
  ghost predicate WorkedOff(s: Session) { s.b.index >= s.b.length }

  /** A head received whole and worked off is complete. */
  lemma HeadIsThere(r: Request, body: string, capacity: int, events: seq<Event>, max: int)
    requires GoodRequest(r)
    requires var s := Play(Start(capacity), events, max);
      s.received == PrintRequest(r) + body && (WorkedOff(s) || Settled(s))
    ensures Play(Start(capacity), events, max).b.afterHeaders > 0
  {
    hide Fold, Play, GoodRequest, PrintRequest, RequestTokens, DoneToken, BodyState, FramingOf;
    EverySchedule(capacity, events, max);
    SettledSessionsFollowTheFold(capacity, events, max);
    RequestReadsBack(r, max);
    RequestIsNotEmpty(r);
    FoldSound(PrintRequest(r), max);
    FoldAbsorbs(PrintRequest(r), body, max);
    WorkedOffIsSettled(Play(Start(capacity), events, max), max);
  }

  lemma WorkedOffIsSettled(s: Session, max: int)
    requires Reading(s, max) || Past(s, max)
    ensures WorkedOff(s) ==> Settled(s)
  {
    hide Fold;
    PastHasHead(s, max);
  }

  /** A request without a body has been handed to the handler once its head has been received and worked off. */
  lemma RequestWithoutBodyIsServed(r: Request, capacity: int, events: seq<Event>, max: int)
    requires GoodRequest(r) && FramingOf(r, max).NoBody?
    requires var s := Play(Start(capacity), events, max); s.received == PrintRequest(r) && WorkedOff(s)
    ensures CallsOf(Play(Start(capacity), events, max).tokens) == [Handler]
  {
    hide Play, GoodRequest, PrintRequest, CallsOf, FramingOf;
    assert PrintRequest(r) + "" == PrintRequest(r);
    HeadIsThere(r, "", capacity, events, max);
    var n := RequestWithoutBody(r, "", capacity, events, max);
  }

  /** So has a request with a small body. */
  lemma RequestWithSmallBodyIsServed(r: Request, body: string, capacity: int, events: seq<Event>, max: int)
    requires GoodRequest(r) && FramingOf(r, max).Small? && |body| == LengthOf(r.headers)
    requires var s := Play(Start(capacity), events, max); s.received == PrintRequest(r) + body && WorkedOff(s)
    ensures CallsOf(Play(Start(capacity), events, max).tokens) == [Handler]
  {
    hide Play, GoodRequest, PrintRequest, CallsOf, FramingOf, HeadComplete, LengthOf, RequestTokens, DoneToken;
    HeadIsThere(r, body, capacity, events, max);
    var n := BodyIsReached(r, body, capacity, events, max);
    var s0 := Play(Start(capacity), events[..n], max);
    SmallMeansSome(r, max);
    SmallBodyCalls(s0, events[n..], max);
    SmallBodyIsDelivered(s0, events[n..], false, max);
  }

  lemma SmallMeansSome(r: Request, max: int)
    ensures FramingOf(r, max).Small? ==> LengthOf(r.headers) > 0
  {
  }

  // --- the head ---

  /** The fold of a printed request never fails. */
  lemma NoErrorInHead(s: Session, r: Request, body: string, max: int)
    requires GoodRequest(r) && Reading(s, max) && s.received <= PrintRequest(r) + body
    ensures !s.p.core.state.Error?
  {
    hide Fold, GoodRequest, PrintRequest, RequestTokens, FramingOf, BodyState, DoneToken;
    var all := PrintRequest(r) + body;
    RequestReadsBack(r, max);
    RequestIsNotEmpty(r);
    FoldSound(PrintRequest(r), max);
    FoldAbsorbs(PrintRequest(r), body, max);
    var seen := s.received[..s.b.index];
    assert all == seen + all[|seen|..];
    if s.p.core.state.Error? {
      FoldAbsorbs(seen, all[|seen|..], max);
    }
  }

  /** A head that has been received whole is completed by calls that are not held back. */
  lemma {:induction false} HeadIsFinished(r: Request, body: string, capacity: int, events: seq<Event>, max: int)
      returns (n: nat)
    requires GoodRequest(r) && Play(Start(capacity), events, max).received == PrintRequest(r) + body
    requires var s := Play(Start(capacity), events, max); s.b.afterHeaders == 0 && s.p.sequenceId != s.b.sequenceId
    ensures var s0 := Play(Play(Start(capacity), events, max), Parses(n), max);
      HeadTaken(s0, r, max) && s0.received == PrintRequest(r) + body
    decreases |Play(Start(capacity), events, max).received| - Play(Start(capacity), events, max).b.index
  {
    hide Fold, Exec, GoodRequest, PrintRequest, HeadTaken, HeadComplete, WithinLimits, Settled;
    var s := Play(Start(capacity), events, max);
    var r1 := Happen(s, Parse, max);
    assert (events + [Parse])[..|events|] == events;
    assert Play(Start(capacity), events + [Parse], max) == r1;
    EverySchedule(capacity, events, max);
    EverySchedule(capacity, events + [Parse], max);
    PastHasHead(s, max);
    RequestWithinLimits(r, body, max);
    ParseMakesProgress(s, max);
    assert r1.received == s.received;
    n := 1;
    assert Parses(1)[..0] == [] && Play(s, [], max) == s;
    if Settled(r1) {
      HeadIsThere(r, body, capacity, events + [Parse], max);
      TextsMatchTokens(Start(capacity), events, max);
      ParseCompletesHead(s, max);
      CompleteIsTaken(r1, r, body, max);
    } else {
      assert r1.b.afterHeaders == 0 by { NotSettled(r1); }
      assert Reading(r1, max) by { PastHasHead(r1, max); }
      assert r1.b.index <= |r1.received| by { ReadingIsBounded(r1, max); }
      var m := HeadIsFinished(r, body, capacity, events + [Parse], max);
      assert Parses(1 + m) == Parses(1) + Parses(m);
      PlayAppend(s, Parses(1), Parses(m), max);
      n := 1 + m;
    }
  }

  lemma NotSettled(s: Session)
    requires !Settled(s)
    ensures s.b.afterHeaders == 0
  {
  }

  lemma ReadingIsBounded(s: Session, max: int)
    requires Reading(s, max)
    ensures s.b.index <= s.b.length == |s.received|
  {
    hide Fold;
  }

  // --- requests with a content length, or without a body ---

  /** All callbacks of a request that is not chunked have been made. */
  ghost predicate Finished(s: Session, r: Request, max: int) {
    if FramingOf(r, max).Large? then
      && |RequestTokens(r)| < |s.tokens|
      && InProtocol(CallsOf(s.tokens), s.tokens[|RequestTokens(r)| + 1..], true)
      && SumOfLengths(s.tokens[|RequestTokens(r)| + 1..]) == LengthOf(r.headers)
    else
      CallsOf(s.tokens) == [Handler]
  }

  /** The body has been handed out as it was sent. */
  ghost predicate Spelled(s: Session, r: Request, body: string, max: int) {
    match FramingOf(r, max)
    case Small => s.texts != [] && s.texts[|s.texts| - 1] == body
    case Large => |RequestTokens(r)| < |s.texts| && Concat(s.texts[|RequestTokens(r)| + 1..]) == body
    case _ => body == ""
  }

  lemma BodyIsFinished(s0: Session, events: seq<Event>, r: Request, body: string, max: int) returns (n: nat)
    requires GoodRequest(r) && HeadTaken(s0, r, max) && !FramingOf(r, max).Chunked? && |body| == LengthOf(r.headers)
    requires var s := Play(s0, events, max);
      && s.received == PrintRequest(r) + body
      && (FramingOf(r, max).NoBody? || s.p.done || s.p.sequenceId != s.b.sequenceId)
    ensures n <= 1 && (FramingOf(r, max).NoBody? || Play(s0, events, max).p.done ==> n == 0)
    ensures var s := Play(s0, events, max); var f := Play(s, Parses(n), max);
      Finished(f, r, max) && f.received == s.received && (!s.p.done ==> Spelled(f, r, body, max))
  {
    hide Exec, GoodRequest, PrintRequest, CallsOf, HeadComplete, LengthOf, RequestTokens, DoneToken, FramingOf;
    hide InProtocol, SumOfLengths, Conserved, LargePieces;
    FromHead(s0, max);
    var s := Play(s0, events, max);
    HeadAnnouncesBody(s0, max);
    ReceivedGrows(s0, events, max);
    LargeMeansSome(r, max);
    SmallMeansSome(r, max);
    EmptyBody(r, max);
    n := if s.p.done || FramingOf(r, max).NoBody? then 0 else 1;
    assert Parses(0) == [] && Parses(1)[..0] == [] && Play(s, [], max) == s;
    var all := events + Parses(n);
    PlayAppend(s0, events, Parses(n), max);
    match FramingOf(r, max)
    case NoBody =>
      assert s0.received == s.received;
      NothingFollows(s0, events, max);
    case Small =>
      SmallBodyCalls(s0, all, max);
      if n == 0 {
        assert Play(s0, events, max).p.done;
      } else {
        SmallBodyIsFinished(s0, events, max);
      }
    case Large =>
      LargeBodyCalls(s0, all, max);
      LargeBodyAddsUp(s0, all, max);
      if n == 1 {
        LargeBodyIsFinished(s0, events, max);
        DeliveredIsBody(s0, Play(s, Parses(n), max), r, body);
      }
  }

  lemma EmptyBody(r: Request, max: int)
    ensures FramingOf(r, max).NoBody? ==> LengthOf(r.headers) == 0
  {
  }

  /** Whatever the cuts so far: when all of a request that is not chunked has been received, it has been
      finished, or is finished by calls of the parser that are not held back, with the body as it was sent. */
  lemma RequestIsFinished(r: Request, body: string, capacity: int, events: seq<Event>, max: int) returns (n: nat)
    requires GoodRequest(r) && !FramingOf(r, max).Chunked? && |body| == LengthOf(r.headers)
    requires var s := Play(Start(capacity), events, max);
      s.received == PrintRequest(r) + body && (s.p.done || s.p.sequenceId != s.b.sequenceId)
    ensures var s := Play(Start(capacity), events, max); var f := Play(s, Parses(n), max);
      Finished(f, r, max) && f.received == s.received && (!s.p.done ==> Spelled(f, r, body, max))
  {
    hide Play, GoodRequest, PrintRequest, LengthOf, FramingOf, Finished, Spelled, HeadComplete;
    var s := Play(Start(capacity), events, max);
    if s.b.afterHeaders == 0 {
      EverySchedule(capacity, events, max);
      assert !s.p.done by { PastHasHead(s, max); }
      n := HeadIsFinished(r, body, capacity, events, max);
      var s0 := Play(s, Parses(n), max);
      FromHead(s0, max);
      assert Play(s0, [], max) == s0 by { PlayNothing(s0, max); }
      var m := BodyIsFinished(s0, [], r, body, max);
      assert Parses(n + m) == Parses(n) + Parses(m);
      PlayAppend(s, Parses(n), Parses(m), max);
      n := n + m;
    } else {
      var k := BodyIsReached(r, body, capacity, events, max);
      n := BodyIsFinished(Play(Start(capacity), events[..k], max), events[k..], r, body, max);
    }
  }

  lemma PlayNothing(s: Session, max: int)
    requires s.b.Valid()
    ensures Play(s, [], max) == s
  {
  }

  // --- chunked requests ---

  /** All callbacks of a chunked request have been made. */
  ghost predicate ChunksFinished(s: Session, r: Request, chunks: seq<Segment>) {
    && s.p.done
    && CallsOf(s.tokens)
         == [Handler] + ChunkCalls(ChunkTokens(chunks, |PrintRequest(r)|, |chunks|)) + [Chunk(FINAL_CHUNK)]
  }

  /** Every chunk has been handed out as it was sent. */
  ghost predicate ChunksSpelled(s: Session, r: Request, chunks: seq<Segment>) {
    |RequestTokens(r)| < |s.texts| && s.texts[|RequestTokens(r)| + 1..] == Datas(chunks) + [""]
  }

  /** When all of the chunks has been received, and the first one comes out, the calls that are left finish
      the body; otherwise no number of calls does. */
  lemma ChunkedBodyIsFinished(s0: Session, events: seq<Event>, r: Request, chunks: seq<Segment>, tail: string, max: int)
      returns (n: nat)
    requires GoodRequest(r) && HeadTaken(s0, r, max) && FramingOf(r, max).Chunked? && GoodChunks(chunks)
    requires var s := Play(s0, events, max);
      s.received == PrintRequest(r) + Stream(chunks, tail) && (s.p.done || s.p.sequenceId != s.b.sequenceId)
    requires InPlace(s0, chunks, events, max)
    ensures var s := Play(s0, events, max); chunks != [] ==> |PrintRequest(r)| + DataOffset(chunks, 0) <= |s.received|
    ensures var s := Play(s0, events, max); var f := Play(s, Parses(n), max);
      if s.p.done || ComesOut(s, Firstly(s0, chunks, events, max), chunks, |PrintRequest(r)|, max) then
        && ChunksFinished(f, r, chunks) && f.received == s.received
        && (NeverOneShort(s0, chunks, events, max) ==> ChunksSpelled(f, r, chunks))
      else
        forall m: nat :: !ChunksFinished(Play(s, Parses(m), max), r, chunks)
  {
    hide Exec, GoodRequest, PrintRequest, CallsOf, HeadComplete, RequestTokens, DoneToken, FramingOf, Firstly, InPlace;
    hide Stream, ComesOut, ChunksFinished, NeverOneShort, Dechunking, DataOffset;
    FromHead(s0, max);
    var s, exact := Play(s0, events, max), NeverOneShort(s0, chunks, events, max);
    var first := Firstly(s0, chunks, events, max);
    StreamIsDelivered(s0, s, r, Stream(chunks, tail), events, max);
    StreamLength(chunks, tail);
    AllDataReceived(chunks);
    ChunksAreDelivered(s0, events, chunks, tail, exact, max);
    assert Parses(0) == [] && Play(s, [], max) == s;
    n := 0;
    if s.p.done {
      AllHandedOut(s0, s, r, chunks, first, exact, max);
    } else if ComesOut(s, first, chunks, |PrintRequest(r)|, max) {
      n := TokensLeft(s0, s, chunks, first, exact);
      var first' := ChunksAreFinished(s0, s, chunks, tail, first, exact, n, max);
      AllHandedOut(s0, Play(s, Parses(n), max), r, chunks, first', exact, max);
    } else {
      forall m: nat ensures !ChunksFinished(Play(s, Parses(m), max), r, chunks) {
        NeverHandedOut(s0, s, r, chunks, tail, first, exact, m, max);
      }
    }
  }

  lemma TokensLeft(s0: Session, s: Session, chunks: seq<Segment>, first: Glimpse, exact: bool) returns (n: nat)
    requires Dechunking(s0, s, chunks, first, exact) && !s.p.done
    ensures n == |chunks| + 1 - Next(s0, s)
  {
    hide Between, Within;
    n := |chunks| + 1 - Next(s0, s);
  }

  lemma AllHandedOut(s0: Session, f: Session, r: Request, chunks: seq<Segment>, first: Glimpse, exact: bool, max: int)
    requires HeadTaken(s0, r, max) && FramingOf(r, max).Chunked?
    requires Dechunking(s0, f, chunks, first, exact) && f.p.done
    ensures ChunksFinished(f, r, chunks) && (exact ==> ChunksSpelled(f, r, chunks))
  {
    hide Between, Within, PrintRequest, FramingOf, HeadComplete, CallsOf, CallsFor, DataOffset, RequestTokens;
    FromHead(s0, max);
    HeadAnnouncesBody(s0, max);
    var tokens := ChunkTokens(chunks, s0.b.index, |chunks|);
    CallsOfPieces(s0.tokens, tokens);
    OneMore(s0.tokens + tokens, FINAL_CHUNK);
    CallsForFinal();
    if exact {
      assert s0.texts + Datas(chunks) + [""] == s0.texts + (Datas(chunks) + [""]);
    }
  }

  lemma CallsForFinal()
    ensures CallsFor(FINAL_CHUNK) == [Chunk(FINAL_CHUNK)]
  {
  }

  lemma NeverHandedOut(s0: Session, s: Session, r: Request, chunks: seq<Segment>, tail: string, first: Glimpse,
      exact: bool, m: nat, max: int)
    requires HeadTaken(s0, r, max) && FramingOf(r, max).Chunked? && GoodChunks(chunks)
    requires Dechunking(s0, s, chunks, first, exact) && !s.p.done && Delivers(s0, s, Stream(chunks, tail))
    requires s0.b.index + |Frames(chunks) + LAST_CHUNK| <= |s.received|
    requires chunks != [] ==> s0.b.index + DataOffset(chunks, 0) <= |s.received|
    requires !ComesOut(s, first, chunks, s0.b.index, max)
    ensures !ChunksFinished(Play(s, Parses(m), max), r, chunks)
  {
    hide Frames, Within, PrintRequest, FramingOf, HeadComplete, CallsOf, CallsFor, DataOffset, RequestTokens, Waiting,
      InLine, Exec, Stream;
    AllDataReceived(chunks);
    assert Play(s, Parses(0), max) == s;
    if m > 0 {
      DoesNotComeOut(s0, s, chunks, tail, first.lead, m, max);
      HeadAnnouncesBody(s0, max);
      GoneIsUnfinished(s0, Play(s, Parses(m), max), r, chunks);
    }
  }

  lemma GoneIsUnfinished(s0: Session, f: Session, r: Request, chunks: seq<Segment>)
    requires chunks != [] && GoneFor(s0, f, chunks) && CallsOf(s0.tokens) == [Handler]
    ensures !ChunksFinished(f, r, chunks)
  {
    hide PrintRequest, CallsOf, DataOffset;
    var at := |s0.tokens|;
    if f.tokens != s0.tokens {
      var t := f.tokens[at];
      OneChunk(t);
      OneMore(s0.tokens, t);
      CallsGrow(s0.tokens + [t], f.tokens[at + 1..]);
      assert f.tokens == s0.tokens + [t] + f.tokens[at + 1..];
      assert CallsOf(f.tokens)[1] == Chunk(t);
    }
  }

  /** Whatever the cuts so far: when all of a chunked request has been received, calls that are not held back
      finish it, if the first chunk comes out and nothing has been moved; if it does not come out, no number
      of calls does. */
  lemma ChunkedRequestIsFinished(r: Request, chunks: seq<Segment>, tail: string, capacity: int, events: seq<Event>,
      max: int)
    returns (n: nat, k: nat)
    requires GoodRequest(r) && FramingOf(r, max).Chunked? && GoodChunks(chunks)
    requires var s := Play(Start(capacity), events, max);
      s.received == PrintRequest(r) + Stream(chunks, tail) && (s.p.done || s.p.sequenceId != s.b.sequenceId)
    ensures n <= |events|
    ensures var s := Play(Start(capacity), events, max);
      chunks != [] ==> |PrintRequest(r)| + DataOffset(chunks, 0) <= |s.received|
    ensures var s0 := Play(Start(capacity), events[..n], max);
      var s := Play(Start(capacity), events, max); var f := Play(s, Parses(k), max);
      if s.b.afterHeaders == 0 then ChunksFinished(f, r, chunks) && ChunksSpelled(f, r, chunks)
      else
        && HeadTaken(s0, r, max)
        && (InPlace(s0, chunks, events[n..], max) ==>
              if s.p.done || ComesOut(s, Firstly(s0, chunks, events[n..], max), chunks, |PrintRequest(r)|, max) then
                && ChunksFinished(f, r, chunks)
                && (NeverOneShort(s0, chunks, events[n..], max) ==> ChunksSpelled(f, r, chunks))
              else forall m: nat :: !ChunksFinished(Play(s, Parses(m), max), r, chunks))
  {
    hide Play, GoodRequest, PrintRequest, FramingOf, HeadTaken, Stream, ChunksFinished, ChunksSpelled, DataOffset,
      ComesOut, Firstly, NeverOneShort, InPlace;
    var s := Play(Start(capacity), events, max);
    StreamLength(chunks, tail);
    AllDataReceived(chunks);
    n, k := 0, 0;
    if s.b.afterHeaders == 0 {
      EverySchedule(capacity, events, max);
      assert !s.p.done by { PastHasHead(s, max); }
      k := HeadIsFinished(r, Stream(chunks, tail), capacity, events, max);
      var s0 := Play(s, Parses(k), max);
      AtTheHead(s0, r, chunks, tail, max);
      var m := ChunkedBodyIsFinished(s0, [], r, chunks, tail, max);
      assert Parses(k + m) == Parses(k) + Parses(m);
      PlayAppend(s, Parses(k), Parses(m), max);
      k := k + m;
    } else {
      n := BodyIsReached(r, Stream(chunks, tail), capacity, events, max);
      var s0 := Play(Start(capacity), events[..n], max);
      if InPlace(s0, chunks, events[n..], max) {
        HeadTakenIsValid(s0, r, max);
        k := ChunkedBodyIsFinished(s0, events[n..], r, chunks, tail, max);
      }
    }
  }

  lemma HeadTakenIsValid(s0: Session, r: Request, max: int)
    requires HeadTaken(s0, r, max)
    ensures s0.b.Valid() && !s0.p.done && s0.p.sequenceId != s0.b.sequenceId && Play(s0, [], max) == s0
    ensures s0.b.index == |PrintRequest(r)|
  {
    hide HeadComplete, PrintRequest, FramingOf, RequestTokens;
    FromHead(s0, max);
  }

  lemma AtTheHead(s0: Session, r: Request, chunks: seq<Segment>, tail: string, max: int)
    requires HeadTaken(s0, r, max) && FramingOf(r, max).Chunked? && GoodChunks(chunks)
    requires s0.received == PrintRequest(r) + Stream(chunks, tail)
    ensures s0.b.Valid() && s0.p.sequenceId != s0.b.sequenceId && Play(s0, [], max) == s0
    ensures InPlace(s0, chunks, [], max) && NeverOneShort(s0, chunks, [], max)
    ensures chunks != [] ==> |PrintRequest(r)| + DataOffset(chunks, 0) <= |s0.received|
    ensures ComesOut(s0, Firstly(s0, chunks, [], max), chunks, |PrintRequest(r)|, max)
  {
    hide HeadComplete, PrintRequest, FramingOf, RequestTokens, Frames, Stream, LookAt, DataOffset, Dechunking;
    HeadTakenIsValid(s0, r, max);
    StreamLength(chunks, tail);
    NothingBefore(s0, chunks, true, max);
    KeptComesOut(s0, s0, chunks, Waits(Kept), true, max);
  }

  lemma StreamLength(chunks: seq<Segment>, tail: string)
    ensures |Stream(chunks, tail)| >= |Frames(chunks) + LAST_CHUNK|
  {
  }

  // --- there are such runs ---

  function InOneRead(input: string, capacity: int, n: nat): seq<Event> { [Read(input, capacity)] + Parses(n) }

  /** A request received in one read gets to the end of its head. */
  lemma UncutHead(r: Request, body: string, capacity: int, max: int) returns (n: nat)
    requires GoodRequest(r)
    ensures var s0 := Play(Start(capacity), InOneRead(PrintRequest(r) + body, capacity, n), max);
      HeadTaken(s0, r, max) && s0.received == PrintRequest(r) + body
  {
    hide Play, GoodRequest, PrintRequest, FramingOf, WithinLimits, Settled, HeadTaken, Fold;
    var all := PrintRequest(r) + body;
    RequestWithinLimits(r, body, max);
    UncutSettles(capacity, all, |all| + 1, max);
    var events := InOneRead(all, capacity, |all| + 1);
    assert Settled(Play(Start(capacity), events, max)) by {
      EverySchedule(capacity, events, max);
      ManyCallsSettle(Play(Start(capacity), events, max), |all| + 1, max);
    }
    HeadIsThere(r, body, capacity, events, max);
    var k := BodyIsReached(r, body, capacity, events, max);
    assert k > 0 by { NothingAtFirst(capacity, events, k, r, max); }
    assert events[..k] == InOneRead(all, capacity, k - 1);
    n := k - 1;
    UncutSettles(capacity, all, n, max);
  }

  lemma ManyCallsSettle(s: Session, n: nat, max: int)
    requires SettledAfter(s, n, max) && (Reading(s, max) || Past(s, max)) && n > |s.received|
    ensures Settled(s)
  {
    hide Fold;
  }

  lemma NothingAtFirst(capacity: int, events: seq<Event>, k: nat, r: Request, max: int)
    requires k <= |events| && HeadTaken(Play(Start(capacity), events[..k], max), r, max)
    ensures k > 0
  {
    hide Fold, FramingOf, PrintRequest, RequestTokens;
  }

  lemma RequestWithinLimits(r: Request, body: string, max: int)
    requires GoodRequest(r)
    ensures WithinLimits(PrintRequest(r) + body, max)
  {
    hide GoodRequest, PrintRequest, FramingOf, Fold, WithinLimits;
    RequestReadsBack(r, max);
    RequestIsNotEmpty(r);
    FoldSound(PrintRequest(r), max);
    LimitsEndWithHead(PrintRequest(r), body, max);
  }

  lemma {:induction false} LimitsEndWithHead(s: string, t: string, max: int)
    requires !IsHead(Fold(s, max).k.state) && WithinLimits(s, max)
    ensures WithinLimits(s + t, max)
  {
    hide Fold;
    if t == "" {
      assert s + t == s;
    } else {
      assert (s + t)[..|s + t| - 1] == s + t[..|t| - 1];
      LimitsEndWithHead(s, t[..|t| - 1], max);
      FoldAbsorbs(s, t[..|t| - 1], max);
      FoldAbsorbs(s, t, max);
    }
  }

  lemma OneMoreCall(input: string, capacity: int, n: nat, m: nat, max: int)
    ensures Play(Start(capacity), InOneRead(input, capacity, n + m), max)
         == Play(Play(Start(capacity), InOneRead(input, capacity, n), max), Parses(m), max)
  {
    hide Play;
    assert InOneRead(input, capacity, n + m) == InOneRead(input, capacity, n) + Parses(m);
    PlayAppend(Start(capacity), InOneRead(input, capacity, n), Parses(m), max);
  }

  // --- whole runs that fail ---

  lemma StepKeepsSequence(k: Core, b: Buffer, i: nat, max: int)
    requires b.Valid() && i < b.length && !k.state.Error?
    ensures Step(k, b, i, max).b.sequenceId == b.sequenceId
  {
    hide HeadMove, Rescanned, RescanTarget, StartChunkSize, Prepare, ApplyMove;
  }

  lemma {:induction false} ScanKeepsSequence(k: Core, b: Buffer, i: nat, max: int)
    requires b.Valid()
    ensures Scan(k, b, i, max).b.sequenceId == b.sequenceId
    decreases b.length - i
  {
    hide Step;
    if i < b.length && !k.state.Error? {
      StepKeepsSequence(k, b, i, max);
      var r := Step(k, b, i, max);
      if r.signal.Continue? {
        ScanKeepsSequence(r.core, b, i + 1, max);
      }
    }
  }

  /** After one read the sequence id is that of the first buffer contents. */
  lemma {:induction false} SequenceAfterOneRead(input: string, capacity: int, n: nat, max: int)
    ensures var s := Play(Start(capacity), InOneRead(input, capacity, n), max);
      s.b.sequenceId == 1 && (s.p.sequenceId == 0 || s.p.sequenceId == 1)
  {
    hide Scan;
    var events := InOneRead(input, capacity, n);
    if n == 0 {
      assert events[..|events| - 1] == [] && Play(Start(capacity), [], max) == Start(capacity);
    } else {
      assert events[..|events| - 1] == InOneRead(input, capacity, n - 1);
      SequenceAfterOneRead(input, capacity, n - 1, max);
      var s := Play(Start(capacity), InOneRead(input, capacity, n - 1), max);
      ScanKeepsSequence(s.p.core, s.b, s.b.index, max);
    }
  }

  /** A request head that arrives in one read, alone. */
  lemma HeadAlone(r: Request, capacity: int, max: int) returns (n: nat)
    requires GoodRequest(r)
    ensures var s0 := Play(Start(capacity), InOneRead(PrintRequest(r), capacity, n), max);
      HeadTaken(s0, r, max) && |s0.received| == s0.b.index && s0.p.sequenceId != NextSequence(s0.b.sequenceId)
  {
    hide Play, GoodRequest, PrintRequest, RequestTokens, HeadComplete;
    assert PrintRequest(r) + "" == PrintRequest(r);
    n := UncutHead(r, "", capacity, max);
    SequenceAfterOneRead(PrintRequest(r), capacity, n, max);
  }

  /** Every chunked request whose body is cut in the middle of "hello": its head in one read, then "5", a
      line end and "he", then the rest. The handler runs, and then the chunk callback with length zero. */
  lemma HelloRequestIsLost(r: Request, capacity: int, max: int) returns (n: nat)
    requires GoodRequest(r) && FramingOf(r, max).Chunked? && |PrintRequest(r)| + 19 <= max
    ensures var body := [Read("5\r\nhe", capacity), Parse, Read("llo\r\n0\r\n\r\n", capacity), Parse];
      CallsOf(Play(Start(capacity), InOneRead(PrintRequest(r), capacity, n) + body, max).tokens) ==
        [Handler, Chunk(Token(Body, false, false, 0, |PrintRequest(r)| + 3))]
  {
    hide Play, GoodRequest, PrintRequest, RequestTokens, HeadComplete, CallsOf, FramingOf;
    n := HeadAlone(r, capacity, max);
    var s0 := Play(Start(capacity), InOneRead(PrintRequest(r), capacity, n), max);
    HelloIsLost(s0, capacity, capacity, max);
    PlayAppend(Start(capacity), InOneRead(PrintRequest(r), capacity, n),
               [Read("5\r\nhe", capacity), Parse, Read("llo\r\n0\r\n\r\n", capacity), Parse], max);
  }

  /** Every chunked request with a chunk of one byte and one that does not fit behind it into the largest
      buffer: the first byte of the large chunk strands the parser. */
  lemma LargeChunkIsStranded(r: Request, x: Segment, tail: string, capacity: int, max: int) returns (n: nat)
    requires GoodRequest(r) && FramingOf(r, max).Chunked? && |x.data| >= 3 && GoodSize(x)
    requires |PrintRequest(r)| + DataOffset([Segment("a"), x], 1) + |x.data| > max
      && DataOffset([Segment("a"), x], 1) < |Stream([Segment("a"), x], tail)|
    ensures var body := [Read(Stream([Segment("a"), x], tail)[..DataOffset([Segment("a"), x], 1) + 1], capacity),
      Parse, Parse];
      Stranded(Play(Start(capacity), InOneRead(PrintRequest(r), capacity, n) + body, max))
  {
    hide Play, GoodRequest, PrintRequest, RequestTokens, HeadComplete, Stranded, FramingOf, Stream, DataOffset;
    n := HeadAlone(r, capacity, max);
    var s0 := Play(Start(capacity), InOneRead(PrintRequest(r), capacity, n), max);
    CompactionRun(s0, x, tail, capacity, max);
    PlayAppend(Start(capacity), InOneRead(PrintRequest(r), capacity, n),
               [Read(Stream([Segment("a"), x], tail)[..DataOffset([Segment("a"), x], 1) + 1], capacity), Parse,
                 Parse], max);
  }
}

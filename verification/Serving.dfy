/**
  Requests that are not chunked, in runs of the reader: every run that has been sent all of one finishes it
  if and only if the largest buffer has room for it; otherwise the connection is closed.
 */
module Serving {
  import opened Automaton
  import opened Parser
  import opened Head
  import opened HeadRoundTrip
  import opened Sessions
  import opened HeadCuts
  import opened HeadResults
  import opened Bodies
  import opened Chunks
  import opened ReadBuffer
  import opened ReadSocket
  import opened Callbacks
  import opened EndToEnd
  import opened Completion
  import opened Visits

  /** The largest buffer has room for the head, and for a byte behind it if the body is streamed. */
  predicate RoomFor(r: Request, max: int) {
    |PrintRequest(r)| <= max && (FramingOf(r, max).Large? ==> |PrintRequest(r)| < max)
  }

  /** The head was complete in `s0`, and `events` have happened since. */
  ghost predicate Since(s0: Session, events: seq<Event>, s: Session, r: Request, max: int) {
    HeadTaken(s0, r, max) && s0.b.Valid() && s == Play(s0, events, max)
  }

  ghost predicate InBody(s: Session, r: Request, max: int) { exists s0, events :: Since(s0, events, s, r, max) }

  /** All of the request has been handed out. */
  ghost predicate Over(s: Session, r: Request, max: int) {
    InBody(s, r, max) && (FramingOf(r, max).NoBody? || s.p.done)
  }

  /** The input has been used up, or the parser has not seen what is in the buffer. */
  ghost predicate Poised(s: Session) { Dry(s) || NextSequence(s.p.sequenceId) == s.b.sequenceId }

  /** What holds between two visits as long as the connection is not closed. */
  ghost predicate AtRest(s: Session, r: Request, max: int) {
    if s.b.afterHeaders == 0 then Reading(s, max) && Dry(s) && |s.texts| == |s.tokens|
    else
      && RoomFor(r, max) && InBody(s, r, max)
      && (Over(s, r, max) || if FramingOf(r, max).Small? then Dry(s) else Poised(s))
  }

  /** The next visit closes the connection, and no chunk callback has been made. */
  ghost predicate Closed(rd: Reader, r: Request, max: int) {
    && Full(rd.b) && rd.b.capacity == max && !RoomFor(r, max)
    && rd.calls == if |PrintRequest(r)| > max then [] else [Handler]
  }

  // --- visits ---

  lemma NextDiffers(id: int)
    ensures NextSequence(id) != id && NextSequence(NextSequence(id)) != id
  {
  }

  /** The read at the beginning of a visit. */
  lemma ReadFirst(s: Session, rd: Reader, incoming: seq<Arrival>, max: int) returns (e: Event, rd1: Reader)
    requires Tracks(s, rd) && Sane(rd, max) && NoEnd(incoming) && rd.b.index >= rd.b.length && !Full(rd.b)
    ensures var v := ReadRequest(rd, incoming, max);
      && e == Read(v.taken, rd1.b.capacity) && Sane(rd1, max) && Tracks(Happen(s, e, max), rd1)
      && v == Visit(Dispatch(rd1, max), v.incoming, v.taken, Success)
  {
    hide Dispatch, ReadLoop, Append, CallsOf, TokensOf;
    FullBufferIsTheEnd(rd, incoming, max);
    ReadLoopIsAppend(rd.b, incoming, max);
    var end := ReadLoop(rd.b, incoming, max);
    e := Read(end.taken, end.b.capacity);
    rd1 := rd.(b := end.b.(sequenceId := NextSequence(end.b.sequenceId)));
  }

  /** In the head. */
  lemma HeadVisit(s: Session, rd: Reader, incoming: seq<Arrival>, r: Request, body: string, max: int)
      returns (s': Session)
    requires Tracks(s, rd) && Sane(rd, max) && NoEnd(incoming) && !Full(rd.b)
    requires Reading(s, max) && Dry(s) && |s.texts| == |s.tokens| && GoodRequest(r) && !FramingOf(r, max).Chunked?
    requires s.received + Pending(incoming) <= PrintRequest(r) + body
    ensures var v := ReadRequest(rd, incoming, max);
      && Tracks(s', v.r) && s'.received == s.received + v.taken
      && (AtRest(s', r, max) || Closed(v.r, r, max))
  {
    hide Fold, Exec, Dispatch, ReadRequest, GoodRequest, PrintRequest, HeadTaken, Reading, FramingOf, Pending, Sane;
    var v := ReadRequest(rd, incoming, max);
    VisitKeepsSane(rd, incoming, max);
    TracksIsValid(s, rd);
    var e, rd1 := ReadFirst(s, rd, incoming, max);
    var s1 := Happen(s, e, max);
    ReadKeeps(s, v.taken, rd1.b.capacity, max);
    PastHasHead(s1, max);
    NothingReadYet(s, max);
    NextDiffers(s.b.sequenceId);
    PendingIsPrefix(s.received, v.taken, Pending(v.incoming), PrintRequest(r) + body);
    SaneIsTidy(rd1, max);
    var n, m := DispatchInHead(s1, rd1, r, body, max);
    s' := Play(s1, Parses(n), max);
    var s0 := Play(s1, Parses(m), max);
    if s0.b.afterHeaders > 0 {
      HeadTakenFits(s0, s', rd1, v.r, r, n - m, max);
    } else {
      ReadingHasNoHead(s', max);
    }
  }

  lemma NothingReadYet(s: Session, max: int)
    requires Reading(s, max)
    ensures s.b.afterHeaders == 0 && s.b.Valid()
  {
    hide Fold;
  }

  lemma ReadingHasNoHead(s: Session, max: int)
    requires Reading(s, max)
    ensures s.b.afterHeaders == 0
  {
    hide Fold;
  }

  lemma PendingIsPrefix(received: string, taken: string, rest: string, all: string)
    requires received + (taken + rest) <= all
    ensures received + taken <= all
  {
    assert received + (taken + rest) == received + taken + rest;
  }

  lemma SaneIsTidy(rd: Reader, max: int)
    requires Sane(rd, max)
    ensures Tidy(rd.p.core) && rd.b.Valid()
  {
  }

  /** The head is incomplete, and the input used up or the buffer full for good. */
  ghost predicate HeadState(s: Session, rd: Reader, max: int) {
    && Reading(s, max) && |s.texts| == |s.tokens|
    && (Dry(s) || (Full(rd.b) && rd.b.capacity == max))
  }

  /** A visit in the head ends there, or when the head is complete, unless the body is small. */
  lemma HeadersVisit(s: Session, rd: Reader, incoming: seq<Arrival>, r: Request, body: string, max: int)
      returns (s': Session)
    requires Tracks(s, rd) && Sane(rd, max) && Roomy(rd.b, max) && NoEnd(incoming) && HeadState(s, rd, max)
    requires GoodRequest(r) && !FramingOf(r, max).Small? && s.received + Pending(incoming) <= PrintRequest(r) + body
    ensures var v := ReadRequest(rd, incoming, max);
      && Tracks(s', v.r) && s'.received == s.received + v.taken
      && if s'.b.afterHeaders == 0 then HeadState(s', v.r, max)
         else
           && HeadTaken(s', r, max) && !Full(rd.b)
           && s'.p.sequenceId == s.p.sequenceId && s'.b.sequenceId == NextSequence(s.b.sequenceId)
  {
    hide Fold, Exec, Dispatch, ReadRequest, GoodRequest, PrintRequest, HeadTaken, Reading, FramingOf, Pending, Sane;
    var v := ReadRequest(rd, incoming, max);
    TracksIsValid(s, rd);
    NothingReadYet(s, max);
    if Full(rd.b) {
      FullStaysFull(rd, incoming, max);
      VisitKeepsSane(rd, incoming, max);
      NothingTaken(v.taken, Pending(incoming));
      FullBufferIsTheEnd(rd, incoming, max);
      s' := s.(b := v.r.b);
      StillReading(s, s', max);
      assert s.received + "" == s.received;
    } else {
      var e, rd1 := ReadFirst(s, rd, incoming, max);
      var s1 := Happen(s, e, max);
      ReadKeeps(s, v.taken, rd1.b.capacity, max);
      PastHasHead(s1, max);
      NextDiffers(s.b.sequenceId);
      VisitKeepsSane(rd, incoming, max);
      PendingIsPrefix(s.received, v.taken, Pending(v.incoming), PrintRequest(r) + body);
      SaneIsTidy(rd1, max);
      var n, m := DispatchInHead(s1, rd1, r, body, max);
      s' := Play(s1, Parses(n), max);
      if Play(s1, Parses(m), max).b.afterHeaders == 0 {
        ReadingHasNoHead(s', max);
      } else {
        HeadTakenIsBody(s', r, max);
      }
    }
  }

  lemma StillReading(s: Session, s': Session, max: int)
    requires Reading(s, max) && s' == s.(b := s'.b) && s'.b == s.b.(sequenceId := s'.b.sequenceId)
    ensures Reading(s', max)
  {
    hide Fold;
  }

  lemma FreshHead(capacity: int, max: int)
    requires 0 < capacity <= max
    ensures var rd := NewReader(capacity);
      Tracks(Start(capacity), rd) && Sane(rd, max) && Roomy(rd.b, max) && HeadState(Start(capacity), rd, max)
    ensures Start(capacity).b.afterHeaders == 0 && Start(capacity).received == ""
  {
    FreshTracks(capacity);
    assert Fold("", max) == HeadRun(FRESH_CORE, [], 0);
    assert Start(capacity).received[..0] == "";
  }

  /** When the visit has completed the head: it fits, and the reader is ready for the body or its buffer is
      full. */
  lemma HeadTakenFits(s0: Session, s': Session, rd1: Reader, rd': Reader, r: Request, n: nat, max: int)
    requires HeadTaken(s0, r, max) && s0.b.Valid() && !FramingOf(r, max).Chunked? && Tracks(s', rd') && Sane(rd', max)
    requires NextSequence(s0.p.sequenceId) == s0.b.sequenceId
    requires if FramingOf(r, max).Small? then s' == Happen(s0, Parse, max) else s' == s0
    ensures AtRest(s', r, max) || Closed(rd', r, max)
  {
    hide Fold, Exec, PrintRequest, HeadComplete, FramingOf, CallsOf, RequestTokens, DoneToken;
    FromHead(s0, max);
    HeadAnnouncesBody(s0, max);
    RequestIsNotEmpty(r);
    assert Parses(1)[..0] == [] && Play(s0, [], max) == s0;
    if FramingOf(r, max).Small? {
      SmallExec(s0.p, s0.b, max);
      assert [Parse][..0] == [];
      assert Since(s0, [Parse], s', r, max);
    } else {
      assert Since(s0, [], s', r, max);
    }
  }

  /** A schedule that goes on. */
  lemma SinceMore(s0: Session, events: seq<Event>, s: Session, more: seq<Event>, r: Request, max: int)
    requires Since(s0, events, s, r, max) && s.b.Valid()
    ensures Since(s0, events + more, Play(s, more, max), r, max) && InBody(Play(s, more, max), r, max)
  {
    hide HeadTaken, Play;
    PlayAppend(s0, events, more, max);
  }

  lemma OneEvent(s: Session, e: Event, max: int)
    requires s.b.Valid()
    ensures Play(s, [e], max) == Happen(s, e, max)
  {
    assert [e][..0] == [] && Play(s, [], max) == s;
  }

  /** What a call does in the body. */
  lemma BodyCall(s: Session, rd: Reader, r: Request, max: int)
    requires Tracks(s, rd) && Tidy(rd.p.core) && InBody(s, r, max) && !Over(s, r, max) && !FramingOf(r, max).Chunked?
    requires s.p.sequenceId != s.b.sequenceId
    ensures var s' := Happen(s, Parse, max);
      && Tracks(s', Dispatch(rd, max)) && s'.received == s.received && s'.b.sequenceId == s.b.sequenceId
      && InBody(s', r, max) && s'.b.afterHeaders > 0 && (s'.p.done || Dry(s'))
  {
    hide Exec, HeadTaken, Dispatch, FramingOf, CallsOf, TokensOf, LargePieces, SumOfLengths;
    var s0, events :| Since(s0, events, s, r, max);
    var s' := Happen(s, Parse, max);
    TracksIsValid(s, rd);
    HeadTakenIsBody(s0, r, max);
    OneEvent(s, Parse, max);
    SinceMore(s0, events, s, [Parse], r, max);
    if FramingOf(r, max).Small? {
      SmallBodyIsDelivered(s0, events, false, max);
      SmallExec(s.p, s.b, max);
    } else {
      LargeBodyAddsUp(s0, events, max);
      LargeExec(s.p, s.b, max);
    }
    OneCall(s, rd, max);
  }

  lemma HeadTakenIsBody(s0: Session, r: Request, max: int)
    requires HeadTaken(s0, r, max)
    ensures HeadComplete(s0, max) && s0.b.Valid() && 0 < s0.b.afterHeaders == s0.b.index == |PrintRequest(r)|
    ensures FramingOf(r, max).Small? ==> s0.p.core.state.SmallStart? && s0.p.core.contentLength > 0
    ensures FramingOf(r, max).Large? ==> s0.p.core.state.LargeStart? && s0.p.core.contentRemaining > 0
    ensures s0.p.core.contentLength == s0.p.core.contentRemaining == LengthOf(r.headers)
  {
    hide HeadComplete, PrintRequest, RequestTokens, LengthOf;
    FromHead(s0, max);
  }

  /** In the body. */
  lemma BodyVisit(s: Session, rd: Reader, incoming: seq<Arrival>, r: Request, max: int)
      returns (s': Session)
    requires Tracks(s, rd) && Sane(rd, max) && NoEnd(incoming) && !Full(rd.b)
    requires RoomFor(r, max) && InBody(s, r, max) && !Over(s, r, max) && Poised(s) && !FramingOf(r, max).Chunked?
    ensures var v := ReadRequest(rd, incoming, max);
      && Tracks(s', v.r) && s'.received == s.received + v.taken && AtRest(s', r, max)
      && (s'.p.done || Dry(s'))
  {
    hide Exec, Dispatch, ReadRequest, InBody, PrintRequest, FramingOf, Pending, Sane;
    var v := ReadRequest(rd, incoming, max);
    TracksIsValid(s, rd);
    NextDiffers(s.p.sequenceId);
    NextDiffers(s.b.sequenceId);
    SaneIsTidy(rd, max);
    if rd.b.index >= rd.b.length {
      var e, rd1 := ReadFirst(s, rd, incoming, max);
      var s1 := Happen(s, e, max);
      StillInBody(s, e, r, max);
      SaneIsTidy(rd1, max);
      BodyCall(s1, rd1, r, max);
      s' := Happen(s1, Parse, max);
    } else {
      NoRead(rd, incoming, max);
      BodyCall(s, rd, r, max);
      s' := Happen(s, Parse, max);
      assert s.received + "" == s.received;
    }
  }

  lemma NoRead(rd: Reader, incoming: seq<Arrival>, max: int)
    requires Sane(rd, max) && rd.b.index < rd.b.length
    ensures Tidy(rd.p.core) && ReadRequest(rd, incoming, max) == Visit(Dispatch(rd, max), incoming, "", Success)
  {
  }

  lemma StillInBody(s: Session, e: Event, r: Request, max: int)
    requires InBody(s, r, max) && s.b.Valid() && e.Read?
    ensures InBody(Happen(s, e, max), r, max) && (Over(Happen(s, e, max), r, max) <==> Over(s, r, max))
  {
    hide HeadTaken, FramingOf;
    var s0, events :| Since(s0, events, s, r, max);
    OneEvent(s, e, max);
    SinceMore(s0, events, s, [e], r, max);
  }

  /** After it. */
  lemma OverVisit(s: Session, rd: Reader, incoming: seq<Arrival>, r: Request, max: int) returns (s': Session)
    requires Tracks(s, rd) && Sane(rd, max) && Over(s, r, max)
    ensures var v := ReadRequest(rd, incoming, max);
      Tracks(s', v.r) && s'.received == s.received + v.taken && Over(s', r, max) && s'.b.afterHeaders > 0
  {
    hide ReadRequest, HeadTaken, FramingOf, Sane, Play, Tracks;
    TracksIsValid(s, rd);
    var events := VisitIsSchedule(s, rd, incoming, max);
    s' := Play(s, events, max);
    var s0, before :| Since(s0, before, s, r, max);
    SinceMore(s0, before, s, events, r, max);
    if s.p.done {
      DoneForGood(s, events, max);
    }
    BodyHasHead(s', r, max);
  }

  lemma {:induction false} DoneForGood(s: Session, events: seq<Event>, max: int)
    requires s.b.Valid() && s.p.done
    ensures Play(s, events, max).p.done
  {
    if events != [] {
      DoneForGood(s, events[..|events| - 1], max);
      DoneStaysDone(Play(s, events[..|events| - 1], max), events[|events| - 1], max);
    }
  }

  lemma BodyHasHead(s: Session, r: Request, max: int)
    requires InBody(s, r, max)
    ensures s.b.afterHeaders > 0
  {
    hide FramingOf, PrintRequest, Fold, Exec, RequestTokens;
    var s0, events :| Since(s0, events, s, r, max);
    assert Past(s0, max) by { CompleteIsPast(s0, max); }
    StaysPast(s0, events, max);
    PastHasHead(s, max);
  }

  lemma CompleteIsPast(s0: Session, max: int)
    requires HeadComplete(s0, max)
    ensures Past(s0, max)
  {
    hide Fold;
    FoldSound(s0.received, max);
  }

  lemma {:induction false} StaysPast(s: Session, events: seq<Event>, max: int)
    requires Past(s, max) && s.b.Valid()
    ensures Past(Play(s, events, max), max)
  {
    hide Past;
    if events != [] {
      StaysPast(s, events[..|events| - 1], max);
      var before := Play(s, events[..|events| - 1], max);
      match events[|events| - 1]
      case Read(bytes, capacity) => ReadStaysPast(before, bytes, capacity, max);
      case Parse => ParsePastHead(before, max);
    }
  }

  lemma ReadStaysPast(s: Session, bytes: string, capacity: int, max: int)
    requires Past(s, max) && s.b.Valid()
    ensures Past(Happen(s, Read(bytes, capacity), max), max)
  {
    hide Fold;
    ReadKeeps(s, bytes, capacity, max);
    PastHasHead(s, max);
  }

  // --- runs ---

  /** How much a run has still to do. */
  function Todo(rd: Reader, incoming: seq<Arrival>): nat {
    2 * Weight(incoming) + if rd.b.index < rd.b.length then 1 else 0
  }

  /** While the head is incomplete and used up, so are the bytes of the head. */
  lemma HeadNotWhole(s: Session, r: Request, body: string, max: int)
    requires GoodRequest(r) && Reading(s, max) && s.b.index >= s.b.length && s.received <= PrintRequest(r) + body
    ensures |s.received| < |PrintRequest(r)|
  {
    hide Fold, GoodRequest, PrintRequest, RequestTokens, FramingOf, BodyState, DoneToken;
    ReadingIsBounded(s, max);
    assert s.received[..s.b.index] == s.received;
    RequestReadsBack(r, max);
    RequestIsNotEmpty(r);
    FoldSound(PrintRequest(r), max);
    if |s.received| >= |PrintRequest(r)| {
      var n := |PrintRequest(r)|;
      assert s.received[..n] == (PrintRequest(r) + body)[..n] == PrintRequest(r);
      assert s.received == PrintRequest(r) + s.received[n..];
      FoldAbsorbs(PrintRequest(r), s.received[n..], max);
    }
  }

  lemma HeadIsUnserved(s: Session, rd: Reader, max: int)
    requires Tracks(s, rd) && Reading(s, max)
    ensures rd.calls == []
  {
    hide Fold, CallsOf;
    FoldSound(s.received[..s.b.index], max);
    HeadTokensMakeNoCalls(s.tokens);
  }

  /** A body that is not over has not been received whole, unless part of it is still in the buffer. */
  lemma BodyNotWhole(s: Session, r: Request, body: string, max: int)
    requires InBody(s, r, max) && !Over(s, r, max) && !FramingOf(r, max).Chunked? && |body| == LengthOf(r.headers)
    requires s.received <= PrintRequest(r) + body && s.b.index >= s.b.length
    ensures |s.received| < |PrintRequest(r) + body| && s.b.length < |PrintRequest(r) + body|
    ensures FramingOf(r, max).Large? ==> s.b.length == |PrintRequest(r)|
  {
    hide Exec, HeadTaken, PrintRequest, FramingOf, LargePieces, SumOfLengths, Concat, LengthOf;
    var s0, events :| Since(s0, events, s, r, max);
    HeadTakenIsBody(s0, r, max);
    if FramingOf(r, max).Small? {
      SmallBodyIsDelivered(s0, events, false, max);
    } else {
      LargeBodyAddsUp(s0, events, max);
      UnfinishedIsConserved(s0, events, max);
      assert |Delivered(s0, s)| == |s.received[s0.b.index..]|;
    }
  }

  /** A full buffer closes the connection only where there is no room for the request. */
  lemma FullIsClosed(s: Session, rd: Reader, r: Request, body: string, max: int)
    requires GoodRequest(r) && !FramingOf(r, max).Chunked? && |body| == LengthOf(r.headers)
    requires Tracks(s, rd) && Sane(rd, max) && AtRest(s, r, max) && !Over(s, r, max)
    requires s.received <= PrintRequest(r) + body && Full(rd.b) && rd.b.capacity == max
    ensures Closed(rd, r, max)
  {
    hide Fold, GoodRequest, PrintRequest, InBody, Over, Sane, CallsOf, TokensOf, LengthOf;
    if s.b.afterHeaders == 0 {
      HeadIsUnserved(s, rd, max);
      ReadingIsBounded(s, max);
      HeadNotWhole(s, r, body, max) by { assert Dry(s); }
      FullHead(s, rd, r, body, max);
    } else {
      BodyNotWhole(s, r, body, max);
      SmallFits(r, max);
    }
  }

  /** A head that fills the buffer without being complete is too long. */
  lemma FullHead(s: Session, rd: Reader, r: Request, body: string, max: int)
    requires Tracks(s, rd) && Full(rd.b) && rd.b.capacity == max && |s.received| == s.b.length
    requires |s.received| < |PrintRequest(r)|
    ensures |PrintRequest(r)| > max
  {
    hide PrintRequest, CallsOf, TokensOf;
  }

  lemma SmallFits(r: Request, max: int)
    ensures FramingOf(r, max).Small? ==> |PrintRequest(r)| + LengthOf(r.headers) <= max
    ensures FramingOf(r, max).NoBody? ==> LengthOf(r.headers) == 0
  {
    hide PrintRequest, LengthOf;
  }

  lemma ClosedStays(rd: Reader, incoming: seq<Arrival>, r: Request, max: int)
    requires Sane(rd, max) && Closed(rd, r, max)
    ensures var v := ReadRequest(rd, incoming, max); Closed(v.r, r, max) && v.taken == "" && v.incoming == incoming
  {
    hide PrintRequest, FramingOf, ReadRequest, Sane;
    FullStaysFull(rd, incoming, max);
    VisitKeepsSane(rd, incoming, max);
    NothingTaken(ReadRequest(rd, incoming, max).taken, Pending(incoming));
  }

  lemma NothingTaken(taken: string, rest: string)
    requires rest == taken + rest
    ensures taken == ""
  {
    assert |rest| == |taken| + |rest|;
  }

  /** The state of a run: not closed and at rest, or closed. */
  ghost predicate Runs(s: Session, v: Served, r: Request, body: string, max: int) {
    && Tracks(s, v.r) && Sane(v.r, max) && Roomy(v.r.b, max) && NoEnd(v.incoming)
    && s.received + Pending(v.incoming) <= PrintRequest(r) + body
    && (AtRest(s, r, max) || Closed(v.r, r, max))
  }

  /** What a visit leads to. */
  lemma VisitStep(s: Session, rd: Reader, incoming: seq<Arrival>, r: Request, body: string, max: int)
      returns (s': Session)
    requires GoodRequest(r) && !FramingOf(r, max).Chunked? && |body| == LengthOf(r.headers)
    requires Tracks(s, rd) && Sane(rd, max) && NoEnd(incoming) && (Full(rd.b) ==> rd.b.capacity == max)
    requires AtRest(s, r, max) || Closed(rd, r, max)
    requires s.received + Pending(incoming) <= PrintRequest(r) + body
    ensures var w := ReadRequest(rd, incoming, max);
      && Tracks(s', w.r) && s'.received == s.received + w.taken
      && (AtRest(s', r, max) || Closed(w.r, r, max))
      && (!Closed(rd, r, max) && !Over(s, r, max) && s.b.afterHeaders > 0 ==> Over(s', r, max) || Dry(s'))
      && (Full(rd.b) ==> Closed(rd, r, max) || Over(s, r, max))
  {
    hide Fold, Exec, ReadRequest, GoodRequest, PrintRequest, InBody, FramingOf, Pending, Sane, Closed, Reading,
      LengthOf, CallsOf, TokensOf, RoomFor, Dry;
    if Closed(rd, r, max) {
      ClosedStays(rd, incoming, r, max);
      var events := VisitIsSchedule(s, rd, incoming, max);
      s' := Play(s, events, max);
    } else if Over(s, r, max) {
      BodyHasHead(s, r, max);
      s' := OverVisit(s, rd, incoming, r, max);
    } else {
      Shorter(s.received, Pending(incoming), PrintRequest(r) + body);
      if Full(rd.b) {
        FullIsClosed(s, rd, r, body, max);
      }
      RestVisit(s, r, max);
      if s.b.afterHeaders == 0 {
        s' := HeadVisit(s, rd, incoming, r, body, max);
      } else {
        s' := BodyVisit(s, rd, incoming, r, max);
        if s'.p.done {
          DoneIsOver(s', r, max);
        }
      }
    }
  }

  lemma DoneIsOver(s: Session, r: Request, max: int)
    requires AtRest(s, r, max) && s.p.done
    ensures Over(s, r, max)
  {
    hide Fold, FramingOf, InBody;
  }

  lemma Shorter(a: string, b: string, all: string)
    requires a + b <= all
    ensures a <= all
  {
  }

  lemma RestVisit(s: Session, r: Request, max: int)
    requires AtRest(s, r, max) && !Over(s, r, max)
    ensures s.b.afterHeaders == 0 ==> Reading(s, max) && Dry(s) && |s.texts| == |s.tokens|
    ensures s.b.afterHeaders != 0 ==> RoomFor(r, max) && InBody(s, r, max) && Poised(s)
  {
    hide Reading, InBody, Over, RoomFor, FramingOf;
  }

  /** Every visit keeps it. */
  lemma VisitRuns(s: Session, v: Served, more: seq<Arrival>, r: Request, body: string, max: int) returns (s': Session)
    requires GoodRequest(r) && !FramingOf(r, max).Chunked? && |body| == LengthOf(r.headers)
    requires Runs(s, v, r, body, max) && NoEnd(more)
    requires s.received + Pending(v.incoming + more) <= PrintRequest(r) + body
    ensures var w := ReadRequest(v.r, v.incoming + more, max);
      && Runs(s', Served(w.r, w.incoming), r, body, max)
      && s'.received + Pending(w.incoming) == s.received + Pending(v.incoming + more)
      && (!Closed(v.r, r, max) && !Over(s, r, max) && s.b.afterHeaders > 0 ==> Over(s', r, max) || Dry(s'))
      && (Full(v.r.b) ==> Closed(v.r, r, max) || Over(s, r, max))
  {
    hide Fold, Exec, ReadRequest, GoodRequest, PrintRequest, Over, FramingOf, Pending, Sane, Closed, AtRest,
      LengthOf, CallsOf, TokensOf, Dry;
    var incoming := v.incoming + more;
    var w := ReadRequest(v.r, incoming, max);
    VisitKeepsSane(v.r, incoming, max);
    VisitKeepsRoomy(v.r, incoming, max);
    FullBufferIsTheEnd(v.r, incoming, max);
    s' := VisitStep(s, v.r, incoming, r, body, max);
    assert s.received + (w.taken + Pending(w.incoming)) == s.received + w.taken + Pending(w.incoming);
  }

  /** A run that has been sent all has less to do after a visit, until it is over or closed. */
  lemma VisitGetsOn(s: Session, v: Served, r: Request, body: string, max: int) returns (s': Session)
    requires GoodRequest(r) && !FramingOf(r, max).Chunked? && |body| == LengthOf(r.headers)
    requires Runs(s, v, r, body, max) && s.received + Pending(v.incoming) == PrintRequest(r) + body
    requires !Over(s, r, max) && !Closed(v.r, r, max)
    ensures var w := ReadRequest(v.r, v.incoming, max);
      && Runs(s', Served(w.r, w.incoming), r, body, max)
      && s'.received + Pending(w.incoming) == PrintRequest(r) + body
      && (Over(s', r, max) || Todo(w.r, w.incoming) < Todo(v.r, v.incoming))
  {
    hide Fold, Exec, ReadRequest, GoodRequest, PrintRequest, FramingOf, Sane, Closed, Reading, InBody, Over, RoomFor,
      LengthOf, CallsOf, TokensOf, Weight, Roomy;
    assert v.incoming + [] == v.incoming;
    s' := VisitRuns(s, v, [], r, body, max);
    FullBufferIsTheEnd(v.r, v.incoming, max);
    RestVisit(s, r, max);
    if v.r.b.index >= v.r.b.length && v.incoming == [] {
      assert s.received + "" == s.received;
      if s.b.afterHeaders == 0 {
        HeadNotWhole(s, r, body, max);
      } else {
        BodyNotWhole(s, r, body, max);
      }
      assert false;
    }
  }

  // --- what has been handed out ---

  /** The callbacks of a request that is not chunked, with the pieces of a large body. */
  ghost predicate Complete(calls: seq<Call>, pieces: seq<Token>, r: Request, max: int) {
    if FramingOf(r, max).Large? then InProtocol(calls, pieces, true) && SumOfLengths(pieces) == LengthOf(r.headers)
    else calls == [Handler]
  }

  lemma OverIsComplete(s: Session, rd: Reader, r: Request, body: string, max: int) returns (pieces: seq<Token>)
    requires GoodRequest(r) && !FramingOf(r, max).Chunked? && |body| == LengthOf(r.headers)
    requires Over(s, r, max) && s.received <= PrintRequest(r) + body && Tracks(s, rd)
    ensures Complete(rd.calls, pieces, r, max)
  {
    hide HeadTaken, GoodRequest, PrintRequest, FramingOf, LengthOf, CallsOf, TokensOf, InProtocol, SumOfLengths, Exec,
      LargePieces;
    var s0, events :| Since(s0, events, s, r, max);
    HeadTakenIsBody(s0, r, max);
    HeadTakenIsAnnounced(s0, r, max);
    SmallFits(r, max);
    pieces := [];
    match FramingOf(r, max)
    case NoBody =>
      ReceivedGrows(s0, events, max);
      NothingFollows(s0, events, max);
    case Small => SmallBodyCalls(s0, events, max);
    case Large =>
      LargeBodyCalls(s0, events, max);
      LargeBodyAddsUp(s0, events, max);
      pieces := Pieces(s0, s);
  }

  lemma HeadTakenIsAnnounced(s0: Session, r: Request, max: int)
    requires HeadTaken(s0, r, max)
    ensures FramingOf(r, max).NoBody? ==> CallsOf(s0.tokens) == [Handler]
    ensures PrintRequest(r) <= s0.received && s0.b.length == |s0.received| && !s0.p.done
  {
    hide HeadComplete, PrintRequest, RequestTokens, CallsOf, FramingOf;
    FromHead(s0, max);
    HeadAnnouncesBody(s0, max);
  }

  function NoArrivals(n: nat): seq<seq<Arrival>> { seq(n, _ => []) }

  lemma IdleVisit(capacity: int, visits: seq<seq<Arrival>>, max: int)
    requires 0 < capacity <= max
    ensures var v := Serve(capacity, visits, max); var w := ReadRequest(v.r, v.incoming, max);
      Serve(capacity, visits + [[]], max) == Served(w.r, w.incoming)
  {
    hide ReadRequest, Sane;
    var all := visits + [[]];
    assert all[..|all| - 1] == visits;
    var v := Serve(capacity, visits, max);
    assert v.incoming + [] == v.incoming;
  }

  /** From a run that has been sent all, visits without arrivals lead to the end. */
  lemma {:induction false} RunEnds(s: Session, capacity: int, visits: seq<seq<Arrival>>, r: Request, body: string,
      max: int)
      returns (k: nat, s': Session)
    requires 0 < capacity <= max && GoodRequest(r) && !FramingOf(r, max).Chunked? && |body| == LengthOf(r.headers)
    requires var v := Serve(capacity, visits, max);
      Runs(s, v, r, body, max) && s.received + Pending(v.incoming) == PrintRequest(r) + body
    ensures var w := Serve(capacity, visits + NoArrivals(k), max);
      && Runs(s', w, r, body, max) && s'.received + Pending(w.incoming) == PrintRequest(r) + body
      && (Over(s', r, max) || Closed(w.r, r, max))
    decreases Todo(Serve(capacity, visits, max).r, Serve(capacity, visits, max).incoming)
  {
    hide Runs, Over, Closed, Serve, GoodRequest, PrintRequest, FramingOf, Todo, ReadRequest, LengthOf;
    var v := Serve(capacity, visits, max);
    k, s' := 0, s;
    assert visits + NoArrivals(0) == visits;
    if !Over(s, r, max) && !Closed(v.r, r, max) {
      var s1 := VisitGetsOn(s, v, r, body, max);
      IdleVisit(capacity, visits, max);
      assert visits + [[]] == visits + NoArrivals(1);
      if Over(s1, r, max) {
        k, s' := 1, s1;
      } else {
        var m;
        m, s' := RunEnds(s1, capacity, visits + [[]], r, body, max);
        assert visits + [[]] + NoArrivals(m) == visits + NoArrivals(1 + m);
        k := 1 + m;
      }
    }
  }

  predicate Endless(visits: seq<seq<Arrival>>) { forall i :: 0 <= i < |visits| ==> NoEnd(visits[i]) }

  lemma {:induction false} ArrivedSoFar(visits: seq<seq<Arrival>>, n: nat)
    requires n <= |visits|
    ensures Arrived(visits[..n]) <= Arrived(visits)
  {
    if n == |visits| {
      assert visits[..n] == visits;
    } else {
      assert visits[..|visits| - 1][..n] == visits[..n];
      ArrivedSoFar(visits[..|visits| - 1], n);
    }
  }

  /** Every run of the reader on a printed request is in such a state. */
  lemma {:induction false} EveryRun(capacity: int, visits: seq<seq<Arrival>>, r: Request, body: string, max: int)
      returns (s: Session)
    requires 0 < capacity <= max && GoodRequest(r) && !FramingOf(r, max).Chunked? && |body| == LengthOf(r.headers)
    requires Endless(visits) && Arrived(visits) <= PrintRequest(r) + body
    ensures var v := Serve(capacity, visits, max);
      Runs(s, v, r, body, max) && s.received + Pending(v.incoming) == Arrived(visits)
  {
    hide Runs, GoodRequest, PrintRequest, FramingOf, ReadRequest, LengthOf, Sane;
    if visits == [] {
      s := Start(capacity);
      FreshRuns(capacity, r, body, max);
    } else {
      var n := |visits| - 1;
      ArrivedSoFar(visits, n);
      var s1 := EveryRun(capacity, visits[..n], r, body, max);
      var v := Serve(capacity, visits[..n], max);
      PendingOfBoth(v.incoming, visits[n]);
      assert s1.received + (Pending(v.incoming) + Pending(visits[n])) == Arrived(visits[..n]) + Pending(visits[n]);
      s := VisitRuns(s1, v, visits[n], r, body, max);
    }
  }

  lemma FreshRuns(capacity: int, r: Request, body: string, max: int)
    requires 0 < capacity <= max
    ensures Runs(Start(capacity), Served(NewReader(capacity), []), r, body, max)
  {
    hide PrintRequest;
    FreshTracks(capacity);
    assert Fold("", max) == HeadRun(FRESH_CORE, [], 0);
    assert Start(capacity).received[..0] == "";
  }

  /** Every run of the reader that has been sent a request that is not chunked, in whatever pieces and however
      far it has got, makes all callbacks of the request after some more visits, if there is room for the
      request. If there is none it comes to a visit that closes the connection, with no callback made if the
      head is too long, and only the handler's otherwise. */
  lemma EveryRunEnds(capacity: int, visits: seq<seq<Arrival>>, r: Request, body: string, max: int)
      returns (k: nat, pieces: seq<Token>)
    requires 0 < capacity <= max && GoodRequest(r) && !FramingOf(r, max).Chunked? && |body| == LengthOf(r.headers)
    requires Endless(visits) && Arrived(visits) == PrintRequest(r) + body
    ensures var v := Serve(capacity, visits + NoArrivals(k), max);
      if RoomFor(r, max) then Complete(v.r.calls, pieces, r, max)
      else Closed(v.r, r, max) && ReadRequest(v.r, v.incoming, max).rc.SocketError?
  {
    hide Over, Serve, GoodRequest, PrintRequest, FramingOf, ReadRequest, LengthOf, AtRest, Complete, RoomFor, CallsOf,
      TokensOf, Sane;
    var s := EveryRun(capacity, visits, r, body, max);
    var s';
    k, s' := RunEnds(s, capacity, visits, r, body, max);
    pieces := [];
    var v := Serve(capacity, visits + NoArrivals(k), max);
    if Closed(v.r, r, max) {
      FullStaysFull(v.r, v.incoming, max);
    } else {
      ThereIsRoom(s', r, max);
      Shorter(s'.received, Pending(v.incoming), PrintRequest(r) + body);
      pieces := OverIsComplete(s', v.r, r, body, max);
    }
  }

  lemma ThereIsRoom(s: Session, r: Request, max: int)
    requires AtRest(s, r, max) && Over(s, r, max)
    ensures RoomFor(r, max)
  {
    hide RoomFor, InBody;
    BodyHasHead(s, r, max);
  }

  /** Where there is no room no run of the reader makes more callbacks than that. */
  lemma NoRoomNoService(capacity: int, visits: seq<seq<Arrival>>, r: Request, body: string, max: int)
    requires 0 < capacity <= max && GoodRequest(r) && !FramingOf(r, max).Chunked? && |body| == LengthOf(r.headers)
    requires Endless(visits) && Arrived(visits) <= PrintRequest(r) + body && !RoomFor(r, max)
    ensures var calls := Serve(capacity, visits, max).r.calls;
      calls == [] || (calls == [Handler] && |PrintRequest(r)| == max && FramingOf(r, max).Large?)
  {
    hide Serve, GoodRequest, PrintRequest, FramingOf, LengthOf, Reading, InBody, Over, Sane;
    var s := EveryRun(capacity, visits, r, body, max);
    if AtRest(s, r, max) {
      HeadIsUnserved(s, Serve(capacity, visits, max).r, max);
    }
  }

  /** There are such requests: with enough headers. */
  lemma {:induction false} ManyHeaders(n: nat)
    ensures |PrintHeaders(seq(n, _ => Header("A", "")))| >= n && LengthOf(seq(n, _ => Header("A", ""))) == 0
  {
    var hs := seq(n, _ => Header("A", ""));
    if n > 0 {
      ManyHeaders(n - 1);
      assert hs[..n - 1] == seq(n - 1, _ => Header("A", ""));
      assert FieldOf("A").Other?;
    }
  }

  /** For every size of the largest buffer a request whose head is too long, and a run that closes the
      connection with no callback made. */
  lemma LongHeadIsClosed(capacity: int, max: int) returns (r: Request, k: nat)
    requires 0 < capacity <= max
    ensures GoodRequest(r) && FramingOf(r, max).NoBody?
    ensures var v := Serve(capacity, [[Data(PrintRequest(r))]] + NoArrivals(k), max);
      v.r.calls == [] && Full(v.r.b) && ReadRequest(v.r, v.incoming, max).rc.SocketError?
  {
    hide Serve, PrintHeaders, LengthOf, ReadRequest;
    var headers := seq(max, _ => Header("A", ""));
    r := Request("GET", "/", '1', headers);
    ManyHeaders(max);
    assert !IsChunked(headers);
    assert |PrintRequest(r)| > max;
    var visits := [[Data(PrintRequest(r))]];
    OneArrival(PrintRequest(r));
    assert PrintRequest(r) + "" == PrintRequest(r);
    var pieces;
    k, pieces := EveryRunEnds(capacity, visits, r, "", max);
  }

  lemma OneArrival(text: string)
    ensures Arrived([[Data(text)]]) == text && Endless([[Data(text)]])
  {
    assert [[Data(text)]][..0] == [];
    assert [Data(text)][1..] == [];
    assert text + "" == text && "" + text == text;
    assert Pending([Data(text)]) == text;
    assert Arrived([[Data(text)]]) == Arrived([]) + Pending([Data(text)]);
  }
}

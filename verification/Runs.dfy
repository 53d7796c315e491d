/**
  Whole runs of the server: requests that arrive in one read are served in one visit, the ledger falls
  behind, and a second request on a connection meets the tokens of the first.
 */
module Runs {
  import opened Automaton
  import opened Parser
  import opened Head
  import opened HeadRoundTrip
  import S = Sessions
  import opened HeadCuts
  import opened HeadResults
  import opened Bodies
  import opened ReadBuffer
  import opened ReadSocket
  import opened Callbacks
  import opened EndToEnd
  import opened Completion
  import opened OutputBuffer
  import opened Respond
  import opened Connection
  import opened Server
  import opened Service
  import opened Debt
  import opened Accessors
  import opened KeepAlive
  import opened Filed

  // --- the dispatch loop works off the head ---

  /** A returned token that ends the loop is none of the head, unless it completes it. */
  lemma ReturnsAfterHead(s: S.Session, t: Token, max: int)
    requires Reading(s, max) && s.tokens != [] && s.tokens[|s.tokens| - 1] == t
    ensures !Returns(t)
  {
    hide Fold;
    FoldSound(s.received[..s.b.index], max);
  }

  lemma DispatchSettles(s: S.Session, r: Reader, max: int) returns (n: nat)
    requires Tracks(s, r) && Tidy(r.p.core) && (Reading(s, max) || Past(s, max)) && WithinLimits(s.received, max)
    requires Settled(s) || s.p.sequenceId != s.b.sequenceId
    ensures var d := S.Play(s, Parses(n), max); Tracks(d, Dispatch(r, max)) && d.received == s.received && Settled(d)
    decreases r.b.length - r.b.index
  {
    hide Exec, CallsFor, TokensFor, Reading, Past, Settled, WithinLimits, Returns;
    ExecConsumes(r.p, r.b, max);
    var o := Exec(r.p, r.b, max);
    var s1 := S.Happen(s, S.Parse, max);
    ParseSettles(s, max);
    OneTake(s, r, max);
    assert Parses(1)[..0] == [] && S.Play(s, [], max) == s;
    assert S.Play(s, Parses(1), max) == s1;
    n := 1;
    if !Returns(o.token) {
      var m := DispatchSettles(s1, Take(r, o), max);
      assert Parses(1 + m) == Parses(1) + Parses(m);
      S.PlayAppend(s, Parses(1), Parses(m), max);
      n := 1 + m;
    } else {
      ReturnSettles(s, max);
    }
  }

  lemma OneTake(s: S.Session, r: Reader, max: int)
    requires Tracks(s, r) && s.b.Valid()
    ensures var o := Exec(r.p, r.b, max); var s1 := S.Happen(s, S.Parse, max);
      Tracks(s1, Take(r, o)) && s1.received == s.received
  {
    hide Exec, CallsFor, TokensFor, CallsOf, TokensOf;
    var o := Exec(r.p, r.b, max);
    OneMore(s.tokens, o.token);
    NothingForNone(o.token);
  }

  lemma ParseSettles(s: S.Session, max: int)
    requires (Reading(s, max) || Past(s, max)) && WithinLimits(s.received, max) && s.b.Valid()
    requires Settled(s) || s.p.sequenceId != s.b.sequenceId
    ensures var s1 := S.Happen(s, S.Parse, max);
      && (Reading(s1, max) || Past(s1, max)) && s1.received == s.received
      && (Settled(s1) || (s1.p.sequenceId != s1.b.sequenceId && |s1.tokens| == |s.tokens| + 1))
  {
    hide Fold, Exec, WithinLimits;
    if Reading(s, max) {
      ParseInHead(s, max);
    } else {
      ParsePastHead(s, max);
    }
    if Settled(s) {
      SettledStays(s, max);
    } else {
      PastHasHead(s, max);
      ParseMakesProgress(s, max);
    }
  }

  lemma ReturnSettles(s: S.Session, max: int)
    requires (Reading(s, max) || Past(s, max)) && WithinLimits(s.received, max) && s.b.Valid()
    requires Settled(s) || s.p.sequenceId != s.b.sequenceId
    requires Returns(Exec(s.p, s.b, max).token)
    ensures Settled(S.Happen(s, S.Parse, max))
  {
    hide Fold, Exec, WithinLimits, Returns, Reading, Past;
    ParseSettles(s, max);
    var s1 := S.Happen(s, S.Parse, max);
    if Reading(s1, max) && !Settled(s1) {
      ReturnsAfterHead(s1, Exec(s.p, s.b, max).token, max);
    }
    assert Past(s1, max) ==> Settled(s1) by { PastHasHead(s1, max); }
  }

  // --- a request that arrives in one read ---

  const EMPTY_BUFFER := Buffer("", REQUEST_BUF_SIZE, 0, 0, 0, 0)

  /** The bytes of `text`, and then nothing for the time being. */
  predicate ArrivesAlone(incoming: seq<Arrival>, text: string) {
    incoming != [] && incoming[0] == Data(text) && (|incoming| > 1 ==> incoming[1].WouldBlock?)
  }

  function AfterThat(incoming: seq<Arrival>): seq<Arrival> { if |incoming| < 2 then [] else incoming[2..] }

  lemma ReadsAll(incoming: seq<Arrival>, text: string)
    requires 0 < |text| < REQUEST_BUF_SIZE && ArrivesAlone(incoming, text)
    ensures ReadLoop(EMPTY_BUFFER, incoming, MAX_REQUEST_BUF_SIZE) ==
      ReadEnd(Append(EMPTY_BUFFER, text), AfterThat(incoming), text, -1)
  {
    var b := Append(EMPTY_BUFFER, text);
    var rest := incoming[1..];
    assert ReadOnce(incoming, REQUEST_BUF_SIZE) == Answer(|text|, text, rest);
    assert ReadLoop(b, rest, MAX_REQUEST_BUF_SIZE) == ReadEnd(b, AfterThat(incoming), "", -1) by {
      assert ReadOnce(rest, REQUEST_BUF_SIZE - |text|) == Answer(-1, "", AfterThat(incoming));
    }
    assert text + "" == text;
  }

  /** The first visit for such a request works off its head. */
  lemma FreshVisit(r: Request, incoming: seq<Arrival>) returns (n: nat)
    requires GoodRequest(r) && |PrintRequest(r)| < REQUEST_BUF_SIZE && ArrivesAlone(incoming, PrintRequest(r))
    ensures var v := ReadRequest(NewReader(REQUEST_BUF_SIZE), incoming, MAX_REQUEST_BUF_SIZE);
      var d := S.Play(S.Start(REQUEST_BUF_SIZE), InOneRead(PrintRequest(r), REQUEST_BUF_SIZE, n), MAX_REQUEST_BUF_SIZE);
      && v.rc == Success && v.incoming == AfterThat(incoming)
      && Tracks(d, v.r) && d.received == PrintRequest(r) && d.b.afterHeaders > 0
      && CapacityRead(NewReader(REQUEST_BUF_SIZE), incoming, MAX_REQUEST_BUF_SIZE) == REQUEST_BUF_SIZE
  {
    hide Dispatch, ReadLoop, GoodRequest, PrintRequest, Append, WithinLimits, Fold, Tracks, Reading, Past, S.Happen;
    var text, max := PrintRequest(r), MAX_REQUEST_BUF_SIZE;
    assert text + "" == text;
    RequestIsNotEmpty(r);
    RequestWithinLimits(r, "", max);
    ReadsAll(incoming, text);
    var s := S.Happen(S.Start(REQUEST_BUF_SIZE), S.Read(text, REQUEST_BUF_SIZE), max);
    var b := Append(EMPTY_BUFFER, text);
    var r' := NewReader(REQUEST_BUF_SIZE).(b := b.(sequenceId := 1));
    assert Tracks(s, r') by { FirstReadTracks(text); }
    UncutRead(REQUEST_BUF_SIZE, text, max);
    assert Tidy(r'.p.core);
    FirstReadIsReading(text, max);
    n := DispatchSettles(s, r', max);
    assert InOneRead(text, REQUEST_BUF_SIZE, n) == [S.Read(text, REQUEST_BUF_SIZE)] + Parses(n);
    S.PlayAppend(S.Start(REQUEST_BUF_SIZE), [S.Read(text, REQUEST_BUF_SIZE)], Parses(n), max);
    assert [S.Read(text, REQUEST_BUF_SIZE)][..0] == [];
    HeadIsThere(r, "", REQUEST_BUF_SIZE, InOneRead(text, REQUEST_BUF_SIZE, n), max);
  }

  lemma FirstReadTracks(text: string)
    ensures var s := S.Happen(S.Start(REQUEST_BUF_SIZE), S.Read(text, REQUEST_BUF_SIZE), MAX_REQUEST_BUF_SIZE);
      Tracks(s, NewReader(REQUEST_BUF_SIZE).(b := Append(EMPTY_BUFFER, text).(sequenceId := 1)))
  {
    hide Append;
  }

  lemma FirstReadIsReading(text: string, max: int)
    ensures var s := S.Happen(S.Start(REQUEST_BUF_SIZE), S.Read(text, REQUEST_BUF_SIZE), max);
      Reading(s, max) && s.p.sequenceId != s.b.sequenceId
  {
    ReadKeeps(S.Start(REQUEST_BUF_SIZE), text, REQUEST_BUF_SIZE, max);
    assert "" + text == text;
  }

  // --- the ledger falls behind ---

  lemma SmallVisit(r: Request, incoming: seq<Arrival>)
    requires GoodRequest(r) && |PrintRequest(r)| < REQUEST_BUF_SIZE && ArrivesAlone(incoming, PrintRequest(r))
    requires FramingOf(r, MAX_REQUEST_BUF_SIZE).Small?
    ensures var v := ReadRequest(NewReader(REQUEST_BUF_SIZE), incoming, MAX_REQUEST_BUF_SIZE);
      var need := |PrintRequest(r)| + LengthOf(r.headers);
      && v.rc == Success
      && Resize(NewReader(REQUEST_BUF_SIZE), incoming) == if need > REQUEST_BUF_SIZE then need - REQUEST_BUF_SIZE else 0
  {
    hide ReadRequest, GoodRequest, PrintRequest, CapacityRead, FramingOf, LengthOf, HeadComplete, S.Play, RequestTokens;
    var max := MAX_REQUEST_BUF_SIZE;
    var n := FreshVisit(r, incoming);
    var events := InOneRead(PrintRequest(r), REQUEST_BUF_SIZE, n);
    assert PrintRequest(r) + "" == PrintRequest(r);
    var k := BodyIsReached(r, "", REQUEST_BUF_SIZE, events, max);
    var s0 := S.Play(S.Start(REQUEST_BUF_SIZE), events[..k], max);
    SmallBodyIsDelivered(s0, events[k..], false, max);
  }

  /** A client connects and sends the head of a request with a small body that does not fit behind it into
      the initial buffer. */
  function ClientWithBody(r: Request, date: string, w: Written): Event { Accept(date, [], [Data(PrintRequest(r))], w) }

  /** The first run that ends with the estimate below the truth: one such head. */
  lemma LedgerFallsBehind(r: Request, date: string, w: Written)
    requires GoodRequest(r) && |PrintRequest(r)| < REQUEST_BUF_SIZE && FramingOf(r, MAX_REQUEST_BUF_SIZE).Small?
    requires |PrintRequest(r)| + LengthOf(r.headers) > REQUEST_BUF_SIZE
    ensures var events := [ClientWithBody(r, date, w)]; var s := After(events);
      && DebtOf(events) == |PrintRequest(r)| + LengthOf(r.headers) - REQUEST_BUF_SIZE
      && s.h.memused < AllHeld(s.conns)
      && |s.conns| == 1 && s.conns[0].open && s.conns[0].timeout == REQUEST_TIMEOUT
  {
    hide ReadRequest, GoodRequest, PrintRequest, CapacityRead, FramingOf, LengthOf, Resize, Sane, AllHeld;
    var e := ClientWithBody(r, date, w);
    assert [e][..0] == [];
    assert After([]) == FRESH_SERVER && DebtOf([]) == 0;
    SmallVisit(r, [Data(PrintRequest(r))]);
    assert Renewed(NewConn().reader) == NewReader(REQUEST_BUF_SIZE);
    EstimateLessTheResizes([e]);
  }

  lemma OneMoreTick(before: seq<Event>, more: seq<Event>)
    ensures DebtOf(before + (more + [Tick(0)])) == DebtOf(before + more)
    ensures Ticks(more + [Tick(0)], 0) == Ticks(more, 0) + 1
  {
    hide EventDebt, After, Enabled, Subject;
    assert before + (more + [Tick(0)]) == before + more + [Tick(0)];
    assert (before + more + [Tick(0)])[..|before + more|] == before + more;
    assert (more + [Tick(0)])[..|more|] == more;
    TickAddsNothing(After(before + more), Tick(0));
  }

  lemma {:induction false} TicksAddNoDebt(before: seq<Event>, ticks: nat)
    ensures DebtOf(before + seq(ticks, _ => Tick(0))) == DebtOf(before)
    ensures Ticks(seq(ticks, _ => Tick(0)), 0) == ticks
  {
    hide DebtOf;
    if ticks == 0 {
      assert before + seq(ticks, _ => Tick(0)) == before;
    } else {
      var fewer := seq(ticks - 1, _ => Tick(0));
      TicksAddNoDebt(before, ticks - 1);
      OneMoreTick(before, fewer);
      assert seq(ticks, _ => Tick(0)) == fewer + [Tick(0)];
    }
  }

  lemma TickAddsNothing(s: Server, e: Event)
    requires AllWell(s) && e.Tick?
    ensures Enabled(s, e) ==> EventDebt(Subject(s, e), s.h, e) == 0
  {
    hide CanReply, CanRead, CanWrite, Honest;
  }

  /** And it stays there: when the client has been timed out, and no buffer is left, the estimate is negative. */
  lemma EstimateGoesNegative(r: Request, date: string, w: Written)
    requires GoodRequest(r) && |PrintRequest(r)| < REQUEST_BUF_SIZE && FramingOf(r, MAX_REQUEST_BUF_SIZE).Small?
    requires |PrintRequest(r)| + LengthOf(r.headers) > REQUEST_BUF_SIZE
    ensures var s := After([ClientWithBody(r, date, w)] + seq(REQUEST_TIMEOUT, _ => Tick(0)));
      AllHeld(s.conns) == 0 && s.h.memused == REQUEST_BUF_SIZE - |PrintRequest(r)| - LengthOf(r.headers) < 0
  {
    hide GoodRequest, PrintRequest, FramingOf, LengthOf, After, DebtOf, Ticks;
    var first := [ClientWithBody(r, date, w)];
    var ticks := seq(REQUEST_TIMEOUT, _ => Tick(0));
    LedgerFallsBehind(r, date, w);
    IdleConnectionsTimeOut(first, ticks, 0);
    TicksAddNoDebt(first, REQUEST_TIMEOUT);
    EstimateLessTheResizes(first + ticks);
    ConnectionsStay(first, REQUEST_TIMEOUT);
    OneClosed(After(first + ticks).conns);
  }

  lemma OneClosed(conns: seq<Conn>)
    requires |conns| == 1 && conns[0].block.Null?
    ensures AllHeld(conns) == 0
  {
    assert conns[..0] == [];
  }

  lemma {:induction false} ConnectionsStay(before: seq<Event>, ticks: nat)
    ensures |After(before + seq(ticks, _ => Tick(0))).conns| == |After(before).conns|
  {
    hide Handle, CanReply, Well;
    var more := seq(ticks, _ => Tick(0));
    if ticks == 0 {
      assert before + more == before;
    } else {
      ConnectionsStay(before, ticks - 1);
      assert (before + more)[..|before + more| - 1] == before + seq(ticks - 1, _ => Tick(0));
    }
  }

  // --- two requests on one connection ---

  /** The token array entries of a request without a body. */
  function HeadOf(r: Request): seq<Token> { RequestTokens(r) + [DoneToken(NoBody)] }

  lemma HeadIsFiled(r: Request, max: int)
    requires GoodRequest(r) && FramingOf(r, max).NoBody?
    ensures TokensOf(HeadOf(r)) == HeadOf(r)
  {
    hide Fold, GoodRequest, PrintRequest, RequestTokens, FramingOf, LengthOf, BodyState;
    RequestReadsBack(r, max);
    RequestIsNotEmpty(r);
    FoldSound(PrintRequest(r), max);
    FiledAsTheyAre(HeadOf(r));
  }

  /** The visit that finds a request without a body. */
  lemma BodylessVisit(r: Request, incoming: seq<Arrival>)
    requires GoodRequest(r) && |PrintRequest(r)| < REQUEST_BUF_SIZE && ArrivesAlone(incoming, PrintRequest(r))
    requires FramingOf(r, MAX_REQUEST_BUF_SIZE).NoBody?
    ensures var v := ReadRequest(NewReader(REQUEST_BUF_SIZE), incoming, MAX_REQUEST_BUF_SIZE);
      && v.rc == Success && v.incoming == AfterThat(incoming)
      && v.r.tokens == HeadOf(r) && v.r.calls == [Handler] && PrintRequest(r) <= v.r.b.mem
  {
    hide ReadRequest, GoodRequest, PrintRequest, FramingOf, LengthOf, HeadComplete, S.Play, RequestTokens, CallsOf,
      TokensOf, Fold;
    var max := MAX_REQUEST_BUF_SIZE;
    var n := FreshVisit(r, incoming);
    var events := InOneRead(PrintRequest(r), REQUEST_BUF_SIZE, n);
    var k := RequestWithoutBody(r, "", REQUEST_BUF_SIZE, events, max) by {
      assert PrintRequest(r) + "" == PrintRequest(r);
    }
    HeadIsFiled(r, max);
    var d := S.Play(S.Start(REQUEST_BUF_SIZE), events, max);
    EverySchedule(REQUEST_BUF_SIZE, events, max);
    RequestReadsBack(r, max);
    assert d.received[..|PrintRequest(r)|] == PrintRequest(r);
  }

  /** A connection without a buffer that finds such a request: the handler runs, and the token array has the
      head of the request behind whatever was there. */
  lemma ServesRequest(c: Conn, h: Heap, r: Request)
    requires c.open && c.block.Null? && ArrivesAlone(c.inbox, PrintRequest(r))
    requires GoodRequest(r) && |PrintRequest(r)| < REQUEST_BUF_SIZE && FramingOf(r, MAX_REQUEST_BUF_SIZE).NoBody?
    ensures var n := ReadAndHandle(c, h);
      && n.c == c.(state := Nop, timeout := REQUEST_TIMEOUT, keepAlive := true, block := Block(h.next),
                   inbox := AfterThat(c.inbox), reader := n.c.reader)
      && n.c.reader.tokens == c.reader.tokens + HeadOf(r) && n.c.reader.calls == c.reader.calls + [Handler]
      && PrintRequest(r) <= n.c.reader.b.mem
  {
    hide ReadRequest, GoodRequest, PrintRequest, FramingOf, LengthOf, Sane, CapacityRead, RequestTokens,
      AnyAnnounces, ArrivesAlone;
    var anew := NewReader(REQUEST_BUF_SIZE);
    BodylessVisit(r, c.inbox);
    RenewedIsSane(anew);
    RenewedIsSane(c.reader);
    assert Renewed(anew) == anew;
    assert c.reader.tokens + anew.tokens == c.reader.tokens && c.reader.calls + anew.calls == c.reader.calls;
    assert Renewed(c.reader) == Later(anew, c.reader.tokens, c.reader.calls);
    VisitLater(anew, c.inbox, c.reader.tokens, c.reader.calls, MAX_REQUEST_BUF_SIZE);
    assert (c.reader.tokens + HeadOf(r))[|c.reader.tokens|..] == HeadOf(r);
    assert AnyAnnounces(HeadOf(r)) by { HeadAnnounces(r); }
  }

  lemma HeadAnnounces(r: Request)
    ensures AnyAnnounces(HeadOf(r))
  {
    hide RequestTokens;
    assert Announces(HeadOf(r)[|HeadOf(r)| - 1]);
  }

  /** A whole reply that is written at once, on a connection kept alive, with the next request waiting. */
  lemma RepliesAndServes(c: Conn, h: Heap, reply: Reply, junks: seq<string>, w: Written, r: Request)
    requires c.open && c.automatic && !c.chunked && ArrivesAlone(c.inbox, PrintRequest(r))
    requires GoodRequest(r) && |PrintRequest(r)| < REQUEST_BUF_SIZE && FramingOf(r, MAX_REQUEST_BUF_SIZE).NoBody?
    requires reply.Whole? && CanReply(c, reply, true, junks)
    requires w.Took? && |Run(Out("", RESPONSE_BUF_SIZE), ReplyPieces(reply, true, false), junks).text| <= w.n
    ensures var n := RespondAndWrite(c, h, reply, true, junks, w);
      && n.c.open && n.c.state.Nop? && n.c.inbox == AfterThat(c.inbox)
      && n.c.reader.tokens == c.reader.tokens + HeadOf(r) && n.c.reader.calls == c.reader.calls + [Handler]
      && PrintRequest(r) <= n.c.reader.b.mem
  {
    hide ReplyPieces, Run, JunkFor, Respond.Inside, ReadAndHandle, GoodRequest, PrintRequest, FramingOf,
      ArrivesAlone, RequestTokens;
    ReplyIsNotEmpty(reply, true, false, junks);
    var n := PerformResponse(c, h, reply, true, junks);
    var c' := WriteSocket(n.c, w).(timeout := KEEP_ALIVE_TIMEOUT);
    assert WriteCode(c', w).WriteSuccess?;
    var freed := BufferFree(c', n.h);
    ServesRequest(freed.c, freed.h, r);
  }

  /** A client that sends two requests, the second when the first has been read. */
  function ClientWithTwo(r1: Request, r2: Request, date: string): Event {
    Accept(date, [], [Data(PrintRequest(r1)), WouldBlock, Data(PrintRequest(r2))], Refused)
  }

  /** The client's first request has been read, and is answered; `mem` is what the request's buffer holds. */
  ghost function AnsweredOnce(r1: Request, r2: Request, date: string, reply: Reply, junks: seq<string>,
      w: Written): seq<Event> {
    var first := ClientWithTwo(r1, r2, date);
    var conns := After([first]).conns;
    [first, RespondTo(0, reply, if conns == [] then "" else conns[0].reader.b.mem, junks, w)]
  }

  /** The run in which both are served: the token array then has both heads, the buffer only the second. */
  lemma TwoRequests(r1: Request, r2: Request, date: string, reply: Reply, junks: seq<string>, w: Written)
    requires GoodRequest(r1) && |PrintRequest(r1)| < REQUEST_BUF_SIZE && FramingOf(r1, MAX_REQUEST_BUF_SIZE).NoBody?
    requires GoodRequest(r2) && |PrintRequest(r2)| < REQUEST_BUF_SIZE && FramingOf(r2, MAX_REQUEST_BUF_SIZE).NoBody?
    requires reply.Whole? && Safe(reply, true, false) && JunkFor(ReplyPieces(reply, true, false), junks)
    requires w.Took? && |Run(Out("", RESPONSE_BUF_SIZE), ReplyPieces(reply, true, false), junks).text| <= w.n
    requires AsksToBeKept(r1)
    ensures var s := After(AnsweredOnce(r1, r2, date, reply, junks, w));
      && |s.conns| == 1 && s.conns[0].open && s.conns[0].state.Nop?
      && s.conns[0].reader.calls == [Handler, Handler]
      && s.conns[0].reader.tokens == HeadOf(r1) + HeadOf(r2) && PrintRequest(r2) <= s.conns[0].reader.b.mem
  {
    hide ReplyPieces, Run, JunkFor, Safe, ReadAndHandle, RespondAndWrite, GoodRequest, PrintRequest, FramingOf, HeadOf,
      KeepsAlive, Detectable, AsksToBeKept;
    var events := AnsweredOnce(r1, r2, date, reply, junks, w);
    var e1, e2 := events[0], events[1];
    assert events[..1] == [e1] && [e1][..0] == [];
    assert After([]) == FRESH_SERVER;
    var c0 := NewConn().(inbox := e1.arrivals);
    assert ArrivesAlone(c0.inbox, PrintRequest(r1)) && AfterThat(c0.inbox) == [Data(PrintRequest(r2))];
    ServesRequest(c0, FRESH_SERVER.h, r1);
    var n1 := ReadAndHandle(c0, FRESH_SERVER.h);
    assert After([e1]) == Server([n1.c], n1.h);
    assert ArrivesAlone(n1.c.inbox, PrintRequest(r2));
    HeadDecides(r1, n1.c.reader.b.mem, n1.c.keepAlive);
    RepliesAndServes(n1.c, n1.h, reply, junks, w, r2);
    assert [] + HeadOf(r1) == HeadOf(r1);
  }

  lemma HeadDecides(r: Request, mem: string, keepAlive: bool)
    requires GoodRequest(r) && PrintRequest(r) <= mem
    ensures Detectable(HeadOf(r), mem) && KeepsAlive(HeadOf(r), mem, keepAlive) == AsksToBeKept(r)
  {
    hide RequestTokens, PrintRequest, KeepsAlive, Detectable, AsksToBeKept, Spell, RequestTexts;
    TokensSpellRequest(r);
    SpellAlso(PrintRequest(r), mem, RequestTokens(r), RequestTexts(r));
    assert HeadOf(r) == ArrayOf(r, DoneToken(NoBody), []);
    RequestDecides(r, DoneToken(NoBody), [], mem, keepAlive);
  }

  /** The accessor of the request target in the second request of a connection: it is right if and only if
      the first request's method and target were as long; otherwise it returns the bytes of the second
      request that lie where the target of the first one was. */
  lemma TargetOfTheSecond(r1: Request, r2: Request, mem: string)
    requires PrintRequest(r2) <= mem
    ensures var all := HeadOf(r1) + HeadOf(r2); var str := FirstOf(all, Target);
      && str == Slice(|r1.verb| + 1, |r1.target|)
      && (str == FirstOf(HeadOf(r2), Target) <==> |r1.verb| == |r2.verb| && |r1.target| == |r2.target|)
      && (|r1.verb| == |r2.verb| && |r1.target| <= |r2.target| ==> StringText(mem, str) == r2.target[..|r1.target|])
  {
    hide HeadersTokens, PrintHeaders;
    TargetOf(r1);
    TargetOf(r2);
    EarlierRequestsComeFirst(HeadOf(r1), HeadOf(r2), Target);
    TargetInText(r2);
    if |r1.verb| == |r2.verb| && |r1.target| <= |r2.target| {
      assert mem[..|PrintRequest(r2)|] == PrintRequest(r2);
      var i := |r2.verb| + 1;
      assert mem[i..i + |r1.target|] == PrintRequest(r2)[i..i + |r2.target|][..|r1.target|];
    }
  }

  lemma TargetOf(r: Request)
    ensures FirstOf(HeadOf(r), Target) == Slice(|r.verb| + 1, |r.target|)
  {
    hide HeadersTokens;
    assert HeadOf(r)[1..][0] == HeadOf(r)[1];
  }

  lemma TargetInText(r: Request)
    ensures var i := |r.verb| + 1; i + |r.target| <= |PrintRequest(r)| && PrintRequest(r)[i..i + |r.target|] == r.target
  {
    hide PrintHeaders;
  }

  /** The failing run: a second request with a longer target, and the same method, gets the beginning of it. */
  lemma SecondTargetIsCut(r1: Request, r2: Request, date: string, reply: Reply, junks: seq<string>, w: Written)
    requires GoodRequest(r1) && |PrintRequest(r1)| < REQUEST_BUF_SIZE && FramingOf(r1, MAX_REQUEST_BUF_SIZE).NoBody?
    requires GoodRequest(r2) && |PrintRequest(r2)| < REQUEST_BUF_SIZE && FramingOf(r2, MAX_REQUEST_BUF_SIZE).NoBody?
    requires reply.Whole? && Safe(reply, true, false) && JunkFor(ReplyPieces(reply, true, false), junks)
    requires w.Took? && |Run(Out("", RESPONSE_BUF_SIZE), ReplyPieces(reply, true, false), junks).text| <= w.n
    requires r1.verb == r2.verb && |r1.target| < |r2.target| && AsksToBeKept(r1)
    ensures var conns := After(AnsweredOnce(r1, r2, date, reply, junks, w)).conns;
      |conns| == 1 && var c := conns[0].reader;
      StringText(c.b.mem, FirstOf(c.tokens, Target)) == r2.target[..|r1.target|] != r2.target
  {
    hide ReplyPieces, Run, JunkFor, Safe, After, GoodRequest, PrintRequest, FramingOf, HeadOf;
    TwoRequests(r1, r2, date, reply, junks, w);
    TargetOfTheSecond(r1, r2, After(AnsweredOnce(r1, r2, date, reply, junks, w)).conns[0].reader.b.mem);
  }

  // --- such requests and replies exist ---

  const FIRST_GET := Request("GET", "/", '1', [Header("Host", "h")])
  const SECOND_GET := Request("GET", "/index", '1', [Header("Host", "h")])

  lemma IsGet(r: Request)
    requires r == FIRST_GET || r == SECOND_GET
    ensures GoodRequest(r) && |PrintRequest(r)| < REQUEST_BUF_SIZE && FramingOf(r, MAX_REQUEST_BUF_SIZE).NoBody?
    ensures AsksToBeKept(r)
  {
    var host := Header("Host", "h");
    assert r.headers[..0] == [] && r.headers == [host];
    assert FieldOf("Host").Other?;
    assert LengthOf([host]) == LengthAfterHeader(LengthOf([host][..0]), host);
    assert PrintHeaders([host]) == PrintHeaders([host][..0]) + PrintHeader(host);
  }

  /** Two plain GET requests, the first one answered with a short text that is written at once. */
  ghost function TwoGets(date: string): seq<Event> {
    var pieces := ReplyPieces(Refusal(date), true, false);
    var junks := seq(|pieces|, i requires 0 <= i < |pieces| => pieces[i].s);
    var w := Took(|Run(Out("", RESPONSE_BUF_SIZE), pieces, junks).text|);
    AnsweredOnce(FIRST_GET, SECOND_GET, date, Refusal(date), junks, w)
  }

  /** Asked for the target of the second request, "/index", the accessor returns "/". */
  lemma SecondGetIsCut(date: string)
    requires |date| < 32
    ensures var conns := After(TwoGets(date)).conns;
      |conns| == 1 && StringText(conns[0].reader.b.mem, FirstOf(conns[0].reader.tokens, Target)) == "/"
  {
    hide Run, ReplyPieces, Safe, After, FramingOf, GoodRequest, PrintRequest, FirstOf, StringText;
    var e := TwoGets(date)[1];
    RefusalFits(date, true);
    IsGet(FIRST_GET);
    IsGet(SECOND_GET);
    SecondTargetIsCut(FIRST_GET, SECOND_GET, date, Refusal(date), e.junks, e.w);
  }

  const POST := Request("POST", "/", '1', [Header("Content-Length", "2000")])

  lemma TwoThousand()
    ensures AppendDigits(0, "2000") == 2000
  {
    assert "2000"[..3] == "200" && "200"[..2] == "20" && "20"[..1] == "2" && "2"[..0] == "";
    assert AppendDigits(0, "2") == 2;
    assert AppendDigits(0, "20") == 20;
    assert AppendDigits(0, "200") == 200;
  }

  lemma LengthHeader()
    ensures FieldOf("Content-Length").ContentLength? && GoodHeader(Header("Content-Length", "2000"))
  {
    LengthName();
    hide FieldOf, GoodKey;
  }

  lemma LengthName()
    ensures FieldOf("Content-Length").ContentLength?
    ensures GoodKey("Content-Length")
  {
    hide GoodBlanks, GoodValue;
  }

  lemma PostHasSmallBody()
    ensures GoodRequest(POST) && |PrintRequest(POST)| < REQUEST_BUF_SIZE && LengthOf(POST.headers) == 2000
    ensures FramingOf(POST, MAX_REQUEST_BUF_SIZE).Small?
  {
    hide AppendDigits, FieldOf;
    TwoThousand();
    LengthHeader();
    var h := Header("Content-Length", "2000");
    assert POST.headers[..0] == [] && POST.headers == [h];
    assert PrintHeaders([h]) == PrintHeaders([h][..0]) + PrintHeader(h);
  }

  /** One such request: the estimate falls short of the buffer by what the body needs beyond 1024 bytes. */
  lemma PostIsNotCounted(date: string, w: Written)
    ensures var s := After([ClientWithBody(POST, date, w)]);
      AllHeld(s.conns) - s.h.memused == |PrintRequest(POST)| + 2000 - REQUEST_BUF_SIZE > 0
  {
    hide After, GoodRequest, FramingOf, LengthOf, PrintRequest, AllHeld, DebtOf;
    PostHasSmallBody();
    LedgerFallsBehind(POST, date, w);
    EstimateLessTheResizes([ClientWithBody(POST, date, w)]);
  }
}

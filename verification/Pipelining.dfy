/**
  Bytes that arrive behind a request without a body, before it has been answered: the server does not look at
  them, unless user code asks for a chunk of the body that is not there.
 */
module Pipelining {
  import opened Automaton
  import opened Parser
  import opened Head
  import opened HeadRoundTrip
  import Sessions
  import opened HeadCuts
  import opened ReadBuffer
  import opened ReadSocket
  import opened Callbacks
  import opened OutputBuffer
  import opened Respond
  import opened EndToEnd
  import opened Visits
  import opened Serving
  import opened AtOnce
  import opened Connection
  import opened Server

  // --- the handler runs once for each reply ---

  /** How often the request handler has been called. */
  function Handlers(calls: seq<Call>): nat {
    if calls == [] then 0 else Handlers(calls[..|calls| - 1]) + if calls[|calls| - 1].Handler? then 1 else 0
  }

  lemma {:induction false} HandlersOfBoth(a: seq<Call>, b: seq<Call>)
    ensures Handlers(a + b) == Handlers(a) + Handlers(b)
  {
    if b == [] {
      assert a + b == a;
    } else {
      assert (a + b)[..|a + b| - 1] == a + b[..|b| - 1];
      HandlersOfBoth(a, b[..|b| - 1]);
    }
  }

  lemma HandlersOfToken(t: Token)
    ensures Handlers(CallsFor(t)) <= 1
    ensures !Returns(t) ==> CallsFor(t) == []
  {
    var calls := CallsFor(t);
    if |calls| == 2 {
      assert calls[..1] == [Chunk(t)] && [Chunk(t)][..0] == [];
      assert Handlers([Chunk(t)]) == 0;
    } else if |calls| == 1 {
      assert calls[..0] == [];
    }
  }

  /** A run of the dispatch loop calls the handler at most once. */
  lemma {:induction false} DispatchHandlesOnce(r: Reader, max: int)
    requires r.b.Valid() && Tidy(r.p.core)
    ensures Handlers(Dispatch(r, max).calls) <= Handlers(r.calls) + 1
    decreases r.b.length - r.b.index
  {
    hide Exec, CallsFor, TokensFor, Returns, Handlers;
    ExecConsumes(r.p, r.b, max);
    var o := Exec(r.p, r.b, max);
    HandlersOfToken(o.token);
    HandlersOfBoth(r.calls, CallsFor(o.token));
    if !Returns(o.token) {
      assert r.calls + [] == r.calls;
      DispatchHandlesOnce(Take(r, o), max);
    }
  }

  lemma VisitHandlesOnce(r: Reader, incoming: seq<Arrival>, max: int)
    requires Sane(r, max)
    ensures Handlers(ReadRequest(r, incoming, max).r.calls) <= Handlers(r.calls) + 1
  {
    hide Dispatch, ReadLoop, Tidy, Handlers;
    if r.b.index >= r.b.length {
      ReadLoopIsAppend(r.b, incoming, max);
      var e := ReadLoop(r.b, incoming, max);
      if e.rc != 0 {
        DispatchHandlesOnce(r.(b := e.b.(sequenceId := NextSequence(e.b.sequenceId))), max);
      }
    } else {
      DispatchHandlesOnce(r, max);
    }
  }

  /** How many replies are whole or end a chunked response. */
  function Finals(answers: seq<Answered>): nat {
    if answers == [] then 0
    else Finals(answers[..|answers| - 1]) + if answers[|answers| - 1].reply.ChunkOf? then 0 else 1
  }

  lemma OneMoreFinal(answers: seq<Answered>, a: Answered)
    ensures Finals(answers + [a]) == Finals(answers) + if a.reply.ChunkOf? then 0 else 1
  {
    assert (answers + [a])[..|answers + [a]| - 1] == answers;
  }

  /** The handler has not been called since the last response was complete, unless the connection is in a
      callback or in the middle of a chunked response. */
  predicate Polite(c: Conn) {
    && Handlers(c.reader.calls) <= Finals(c.answers) + (if c.state.Nop? || c.chunked then 1 else 0)
    && (c.state.Read? ==> !c.chunked)
  }

  lemma ReadIsPolite(c: Conn, h: Heap)
    requires CanRead(c) && Handlers(c.reader.calls) <= Finals(c.answers) && !c.chunked
    ensures Polite(ReadAndHandle(c, h).c)
  {
    hide Sane, ReadRequest, Handlers, CapacityRead, Finals;
    RenewedIsSane(c.reader);
    var n := Allocated(c.(state := Connection.Read, timeout := REQUEST_TIMEOUT), h);
    VisitHandlesOnce(n.c.reader, n.c.inbox, MAX_REQUEST_BUF_SIZE);
  }

  lemma WriteIsPolite(c: Conn, h: Heap, w: Written)
    requires CanWrite(c) && c.state.Write? && Polite(c)
    ensures Polite(WriteAndHandle(c, h, w).c)
  {
    hide ReadAndHandle, Handlers, Finals;
    var n := BufferFree(WriteSocket(c, w).(timeout := KEEP_ALIVE_TIMEOUT), h);
    if WriteCode(WriteSocket(c, w), w).WriteSuccess? {
      ReadIsPolite(n.c, n.h);
    }
  }

  lemma ReplyIsPolite(c: Conn, h: Heap, r: Reply, detected: bool, junks: seq<string>, w: Written)
    requires CanReply(c, r, detected, junks) && Handlers(c.reader.calls) <= Finals(c.answers) + 1
    ensures Polite(RespondAndWrite(c, h, r, detected, junks, w).c)
  {
    hide ReplyPieces, Run, JunkFor, Respond.Inside, WriteAndHandle, Handlers, Finals;
    ReplyIsNotEmpty(r, KeepAliveFor(c, r, detected), c.chunked, junks);
    OneMoreFinal(c.answers, Answered(r, KeepAliveFor(c, r, detected)));
    var n := PerformResponse(c, h, r, detected, junks);
    WriteIsPolite(n.c, n.h, w);
  }

  lemma HandleIsPolite(s: Server, e: Event)
    requires AllWell(s) && Enabled(s, e) && !e.ReadChunk? && (!e.Accept? ==> Polite(s.conns[e.i]))
    ensures Polite(Handle(Subject(s, e), s.h, e).c)
  {
    hide ReadAndHandle, WriteAndHandle, RespondAndWrite, CanReply, Sane, Handlers, Finals;
    var c, h := Subject(s, e), s.h;
    match e
    case Accept(date, junks, arrivals, w) =>
      var c' := c.(inbox := arrivals);
      NoHandlers();
      if Busy(h) {
        RespondOnAccept(c, arrivals, Refusal(date), junks);
        ReplyIsPolite(c', h, Refusal(date), false, junks, w);
      } else {
        ReadIsPolite(c', h);
      }
    case Ready(_, arrivals, w) =>
      var c' := c.(inbox := c.inbox + arrivals);
      if c.state.Read? {
        ReadIsPolite(c', h);
      } else if c.state.Write? {
        WriteIsPolite(c', h, w);
      }
    case Tick(_) =>
    case RespondTo(_, r, mem, junks, w) => ReplyIsPolite(c, h, r, Detected(c, mem), junks, w);
    case SetKeepAlive(_, on) =>
    case FreeBuffer(_) =>
  }

  lemma NoHandlers()
    ensures Handlers([]) == 0 == Finals([])
  {
  }

  /** User code never asks for a chunk of a body on connection `i`. */
  ghost predicate NeverAsks(events: seq<Event>, i: nat) {
    forall k :: 0 <= k < |events| && events[k].ReadChunk? ==> events[k].i != i
  }

  /** In every run of the server, whatever bytes arrive and however requests are pipelined: on a connection
      on which no chunk is asked for the handler has been called at most once more than responses have been
      completed, so once for each request that is answered. */
  lemma {:induction false} OneHandlerForEachResponse(events: seq<Event>, i: nat)
    requires NeverAsks(events, i) && i < |After(events).conns|
    ensures var c := After(events).conns[i];
      Polite(c) && Handlers(c.reader.calls) <= Finals(c.answers) + 1
  {
    hide Handle, Enabled, Well, CanReply, Handlers, Finals;
    if events != [] {
      var before, e := After(events[..|events| - 1]), events[|events| - 1];
      assert e.ReadChunk? ==> e.i != i;
      if i < |before.conns| {
        OneHandlerForEachResponse(events[..|events| - 1], i);
      }
      if Enabled(before, e) {
        EnabledIsThere(before, e);
        if i == if e.Accept? then |before.conns| else e.i {
          HandleIsPolite(before, e);
        }
      }
    }
  }

  // --- a request without a body ---

  lemma {:induction false} CallsStay(capacity: int, visits: seq<seq<Arrival>>, max: int)
    requires 0 < capacity <= max && visits != []
    ensures Serve(capacity, visits[..|visits| - 1], max).r.calls <= Serve(capacity, visits, max).r.calls
  {
    hide ReadRequest;
    var before := Serve(capacity, visits[..|visits| - 1], max);
    VisitAppends(before.r, before.incoming + visits[|visits| - 1], max);
  }

  /** While no callback has been made the head is incomplete. */
  lemma {:induction false} QuietIsInHead(capacity: int, visits: seq<seq<Arrival>>, r: Request, more: string, max: int)
      returns (s: Sessions.Session)
    requires 0 < capacity <= max && GoodRequest(r) && FramingOf(r, max).NoBody?
    requires Endless(visits) && Arrived(visits) <= PrintRequest(r) + more && Serve(capacity, visits, max).r.calls == []
    ensures var v := Serve(capacity, visits, max);
      && Tracks(s, v.r) && Sane(v.r, max) && Roomy(v.r.b, max) && NoEnd(v.incoming) && HeadState(s, v.r, max)
      && s.received + Pending(v.incoming) == Arrived(visits) && s.b.afterHeaders == 0
  {
    hide GoodRequest, PrintRequest, FramingOf, ReadRequest, Sane, Reading, Roomy;
    if visits == [] {
      s := Sessions.Start(capacity);
      FreshHead(capacity, max);
    } else {
      var n := |visits| - 1;
      ArrivedSoFar(visits, n);
      CallsStay(capacity, visits, max);
      var s1 := QuietIsInHead(capacity, visits[..n], r, more, max);
      s := LastVisit(s1, capacity, visits, r, more, max);
    }
  }

  /** The visit after that: the head is still incomplete, or complete with nothing read beyond it. */
  lemma LastVisit(s: Sessions.Session, capacity: int, visits: seq<seq<Arrival>>, r: Request, more: string, max: int)
      returns (s': Sessions.Session)
    requires 0 < capacity <= max && GoodRequest(r) && FramingOf(r, max).NoBody? && visits != []
    requires Endless(visits) && Arrived(visits) <= PrintRequest(r) + more
    requires var v := Serve(capacity, visits[..|visits| - 1], max);
      && Tracks(s, v.r) && Sane(v.r, max) && Roomy(v.r.b, max) && NoEnd(v.incoming) && HeadState(s, v.r, max)
      && s.received + Pending(v.incoming) == Arrived(visits[..|visits| - 1])
    ensures var w := Serve(capacity, visits, max);
      && Tracks(s', w.r) && Sane(w.r, max) && Roomy(w.r.b, max) && NoEnd(w.incoming)
      && s'.received + Pending(w.incoming) == Arrived(visits)
      && if s'.b.afterHeaders == 0 then HeadState(s', w.r, max) && w.r.calls == []
         else HeadTaken(s', r, max) && w.r.calls == [Handler]
  {
    hide GoodRequest, PrintRequest, FramingOf, ReadRequest, Sane, Reading, Roomy, HeadTaken, CallsOf, TokensOf, Serve,
      Arrived, Pending;
    LastOfServe(capacity, visits, max);
    var n := |visits| - 1;
    var v := Serve(capacity, visits[..n], max);
    var incoming := v.incoming + visits[n];
    PendingOfBoth(v.incoming, visits[n]);
    assert s.received + (Pending(v.incoming) + Pending(visits[n])) == Arrived(visits[..n]) + Pending(visits[n]);
    VisitKeepsSane(v.r, incoming, max);
    VisitKeepsRoomy(v.r, incoming, max);
    FullBufferIsTheEnd(v.r, incoming, max);
    var w := ReadRequest(v.r, incoming, max);
    s' := HeadersVisit(s, v.r, incoming, r, more, max);
    assert s.received + (w.taken + Pending(w.incoming)) == s.received + w.taken + Pending(w.incoming);
    if s'.b.afterHeaders == 0 {
      HeadIsUnserved(s', w.r, max);
    } else {
      HeadTakenIsAnnounced(s', r, max);
    }
  }

  /** A request without a body in a run of the reader, whatever follows it: the first visit that makes a
      callback makes just that of the handler, and leaves the tokens of the head and nothing else. */
  lemma HandlerSeesTheHead(capacity: int, visits: seq<seq<Arrival>>, r: Request, more: string, max: int)
    requires 0 < capacity <= max && GoodRequest(r) && FramingOf(r, max).NoBody? && visits != []
    requires Endless(visits) && Arrived(visits) <= PrintRequest(r) + more
    requires Serve(capacity, visits[..|visits| - 1], max).r.calls == []
    ensures var rd := Serve(capacity, visits, max).r;
      rd.calls == [] ||
      (&& rd.calls == [Handler] && rd.tokens == TokensOf(RequestTokens(r) + [DoneToken(NoBody)])
       && PrintRequest(r) <= rd.b.mem)
  {
    hide GoodRequest, PrintRequest, FramingOf, Serve, Sane, Reading, Roomy, CallsOf, TokensOf, RequestTokens, DoneToken;
    ArrivedSoFar(visits, |visits| - 1);
    var s := QuietIsInHead(capacity, visits[..|visits| - 1], r, more, max);
    var s' := LastVisit(s, capacity, visits, r, more, max);
    if s'.b.afterHeaders > 0 {
      HeadInMemory(s', r, max);
    }
  }

  lemma HeadInMemory(s: Sessions.Session, r: Request, max: int)
    requires HeadTaken(s, r, max)
    ensures PrintRequest(r) <= s.b.mem && s.tokens == RequestTokens(r) + [DoneToken(FramingOf(r, max))]
  {
    hide PrintRequest, RequestTokens, DoneToken, FramingOf;
    HeadTakenIsBody(s, r, max);
    HeadTakenIsWhole(s, r, max);
    assert s.b.mem[..s.b.length] == s.received by { HeadTakenMatches(s, r, max); }
  }

  lemma HeadTakenMatches(s: Sessions.Session, r: Request, max: int)
    requires HeadTaken(s, r, max) && s.b.Valid()
    ensures s.b.mem[..s.b.length] == s.received
  {
    hide PrintRequest, RequestTokens, DoneToken, FramingOf;
  }

  // --- asking for a chunk that is not there ---

  /** One more visit, as when user code asks for a chunk: a colon behind the head is read as the end of one
      more header name, the token of the head is handed out again, and so is the request. */
  lemma HandlerRunsAgain(capacity: int, r: Request, max: int)
    requires 0 < capacity <= max && GoodRequest(r) && FramingOf(r, max).NoBody?
    requires |PrintRequest(r)| + 1 <= Once(capacity, max)
    ensures Serve(capacity, [[Data(PrintRequest(r) + ":")]] + NoArrivals(1), max).r.calls == [Handler, Handler]
  {
    hide Serve, GoodRequest, PrintRequest, FramingOf, HeadTaken, CallsOf, TokensOf, Sane, Once, Exec, Dispatch,
      ReadRequest;
    var first := [[Data(PrintRequest(r) + ":")]];
    var s := WholeVisit(capacity, r, ":", max);
    var v := Serve(capacity, first, max);
    HeadTakenIsBody(s, r, max);
    HeadTakenIsAnnounced(s, r, max);
    HeadTakenMatches(s, r, max);
    NextByte(s, PrintRequest(r));
    ColonCall(s, v.r, r, max);
    NoRead(v.r, v.incoming, max);
    OneCall(s, v.r, max);
    IdleVisit(capacity, first, max);
    assert first + [[]] == first + NoArrivals(1);
  }

  lemma NextByte(s: Sessions.Session, text: string)
    requires s.b.Valid() && s.b.mem[..s.b.length] == s.received == text + ":" && s.b.index == |text|
    ensures s.b.index < s.b.length && s.b.mem[s.b.index] == ':'
  {
    assert s.b.mem[..s.b.length][|text|] == ':';
  }

  /** The visit that finds a request and a little more: the head is complete, and all is in the buffer. */
  lemma WholeVisit(capacity: int, r: Request, more: string, max: int) returns (s: Sessions.Session)
    requires 0 < capacity <= max && GoodRequest(r) && FramingOf(r, max).NoBody?
    requires |PrintRequest(r) + more| <= Once(capacity, max)
    ensures HeadTaken(s, r, max) && s.received == PrintRequest(r) + more
    ensures Tracks(s, Serve(capacity, [[Data(PrintRequest(r) + more)]], max).r)
  {
    hide Serve, GoodRequest, PrintRequest, FramingOf, HeadTaken, ReadRequest, CallsOf, TokensOf, Sane, Once, Reading;
    var all := PrintRequest(r) + more;
    FreshHead(capacity, max);
    RequestIsNotEmpty(r);
    OneArrival(all);
    FirstVisitIs(capacity, all, max);
    VisitAtOnce(NewReader(capacity), all, max);
    assert all[..|all|] == all && "" + all == all;
    assert "" + Pending([Data(all)]) == all;
    s := HeadersVisit(Sessions.Start(capacity), NewReader(capacity), [Data(all)], r, more, max);
    if s.b.afterHeaders == 0 {
      HeadNotWhole(s, r, more, max);
    }
  }

  lemma ColonCall(s: Sessions.Session, rd: Reader, r: Request, max: int)
    requires HeadTaken(s, r, max) && FramingOf(r, max).NoBody? && Tracks(s, rd) && CallsOf(s.tokens) == [Handler]
    requires s.b.Valid() && s.b.index < s.b.length && s.b.mem[s.b.index] == ':'
    ensures Returns(Exec(rd.p, rd.b, max).token)
    ensures CallsOf(Sessions.Happen(s, Sessions.Parse, max).tokens) == [Handler, Handler]
  {
    hide PrintRequest, RequestTokens, FramingOf, CallsOf, TokensOf;
    HeadTakenIsBody(s, r, max);
    HeldToken(s, r, max);
    var o := Exec(rd.p, rd.b, max);
    assert Step(s.p.core, s.b, s.b.index, max).signal == READY;
    OneMore(s.tokens, o.token);
  }

  lemma HeldToken(s: Sessions.Session, r: Request, max: int)
    requires HeadTaken(s, r, max) && FramingOf(r, max).NoBody?
    ensures s.p.core.state.HeadDone? && s.p.core.token == DoneToken(NoBody) && !s.p.done
    ensures s.p.sequenceId != s.b.sequenceId
  {
    hide PrintRequest, RequestTokens, FramingOf, Fold;
    LastTokenIsHeld(s.received, max);
  }
}

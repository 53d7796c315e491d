/**
  What user code finds when it may act on a connection, and what its directives come to, in every run.
 */
module Reactions {
  import opened Automaton
  import opened Parser
  import opened HeadRoundTrip
  import opened Bodies
  import opened ReadBuffer
  import opened ReadSocket
  import opened Callbacks
  import opened EndToEnd
  import opened OutputBuffer
  import opened Respond
  import opened Connection
  import opened Server
  import opened Service
  import opened Filed
  import KeepAlive

  // --- what the last callback was about ---

  /** What is filed has been handed out; and while user code may act, or will after a chunk has been written,
      the token its last callback was about is on top of the array. */
  ghost predicate Attentive(c: Conn) {
    && InStep(c.reader.tokens, c.reader.calls)
    && (c.state.Nop? || (c.state.Write? && c.chunked) ==> Topped(c.reader.tokens, c.reader.calls))
  }

  lemma ReadIsAttentive(c: Conn, h: Heap)
    requires CanRead(c) && InStep(c.reader.tokens, c.reader.calls)
    ensures Attentive(ReadAndHandle(c, h).c)
  {
    hide Sane, ReadRequest, CapacityRead, InStep, Topped;
    RenewedIsSane(c.reader);
    var n := Allocated(c.(state := Connection.Read, timeout := REQUEST_TIMEOUT), h);
    VisitFiles(n.c.reader, n.c.inbox, MAX_REQUEST_BUF_SIZE);
  }

  lemma WriteIsAttentive(c: Conn, h: Heap, w: Written)
    requires CanWrite(c) && c.state.Write? && Attentive(c)
    ensures Attentive(WriteAndHandle(c, h, w).c)
  {
    hide ReadAndHandle, InStep, Topped;
    var n := BufferFree(WriteSocket(c, w).(timeout := KEEP_ALIVE_TIMEOUT), h);
    if WriteCode(WriteSocket(c, w), w).WriteSuccess? {
      ReadIsAttentive(n.c, n.h);
    }
  }

  lemma ReplyIsAttentive(c: Conn, h: Heap, r: Reply, detected: bool, junks: seq<string>, w: Written)
    requires CanReply(c, r, detected, junks) && InStep(c.reader.tokens, c.reader.calls)
    requires Topped(c.reader.tokens, c.reader.calls) || !StartedAfter(r, c.chunked)
    ensures Attentive(RespondAndWrite(c, h, r, detected, junks, w).c)
  {
    hide ReplyPieces, Run, JunkFor, Respond.Inside, WriteAndHandle, InStep, Topped;
    ReplyIsNotEmpty(r, KeepAliveFor(c, r, detected), c.chunked, junks);
    var n := PerformResponse(c, h, r, detected, junks);
    WriteIsAttentive(n.c, n.h, w);
  }

  lemma NothingIsInStep()
    ensures InStep([], [])
  {
  }

  lemma HandleIsAttentive(s: Server, e: Event)
    requires AllWell(s) && Enabled(s, e) && (!e.Accept? ==> Attentive(s.conns[e.i]))
    ensures Attentive(Handle(Subject(s, e), s.h, e).c)
  {
    hide ReadAndHandle, WriteAndHandle, RespondAndWrite, CanReply, Sane, InStep, Topped;
    var c, h := Subject(s, e), s.h;
    match e
    case Accept(date, junks, arrivals, w) =>
      var c' := c.(inbox := arrivals);
      NothingIsInStep();
      if Busy(h) {
        RespondOnAccept(c, arrivals, Refusal(date), junks);
        ReplyIsAttentive(c', h, Refusal(date), false, junks, w);
      } else {
        ReadIsAttentive(c', h);
      }
    case Ready(_, arrivals, w) =>
      var c' := c.(inbox := c.inbox + arrivals);
      if c.state.Read? {
        ReadIsAttentive(c', h);
      } else if c.state.Write? {
        WriteIsAttentive(c', h, w);
      }
    case Tick(_) =>
    case ReadChunk(_, arrivals) => ReadIsAttentive(c.(inbox := c.inbox + arrivals), h);
    case RespondTo(_, r, mem, junks, w) => ReplyIsAttentive(c, h, r, Detected(c, mem), junks, w);
    case SetKeepAlive(_, on) =>
    case FreeBuffer(_) =>
  }

  /** In every run of the server: the streamed body tokens in the array of a connection are those of its chunk
      callbacks, in order; and whenever user code may act, what its last callback was about is on top. */
  lemma {:induction false} UserCodeFindsItsToken(events: seq<Event>, i: nat)
    requires i < |After(events).conns|
    ensures Attentive(After(events).conns[i])
  {
    hide Handle, Enabled, Well, CanReply, Attentive;
    if events != [] {
      var before, e := After(events[..|events| - 1]), events[|events| - 1];
      if !e.Accept? && e.i < |before.conns| {
        UserCodeFindsItsToken(events[..|events| - 1], e.i);
      }
      if i < |before.conns| {
        UserCodeFindsItsToken(events[..|events| - 1], i);
      }
      if Enabled(before, e) {
        EnabledIsThere(before, e);
        if i == Concerned(before, e) {
          HandleIsAttentive(before, e);
        }
      }
    }
  }

  /** A visit sets the bit that stands for keep-alive exactly if it calls the handler at the end of a head. */
  lemma AnnouncingSetsTheBit(c: Conn, h: Heap)
    requires Sane(c.reader, MAX_REQUEST_BUF_SIZE)
    ensures var c' := AfterVisit(c, h).c; var tokens := c'.reader.tokens;
      c'.keepAlive <==>
        c.keepAlive || (c'.reader.calls == c.reader.calls + [Handler] && tokens != []
                        && tokens[|tokens| - 1].kind.HeadersDone?)
  {
    hide Dispatch, ReadLoop, Tidy, AnyAnnounces, CapacityRead;
    var r, max := c.reader, MAX_REQUEST_BUF_SIZE;
    VisitAppends(r, c.inbox, max);
    if r.b.index >= r.b.length {
      ReadLoopIsAppend(r.b, c.inbox, max);
      var e := ReadLoop(r.b, c.inbox, max);
      if e.rc != 0 {
        DispatchAnnounces(r.(b := e.b.(sequenceId := NextSequence(e.b.sequenceId))), max);
      } else {
        NothingSince(c);
      }
    } else {
      DispatchAnnounces(r, max);
    }
  }

  // --- directives ---

  /** No directive on connection `i`. */
  ghost predicate Undirected(events: seq<Event>, i: nat) {
    forall k :: 0 <= k < |events| && events[k].SetKeepAlive? ==> events[k].i != i
  }

  /** The part of `c` that was not there in `c0`. */
  function TokensSince(c0: Conn, c: Conn): seq<Token>
    requires |c0.reader.tokens| <= |c.reader.tokens|
  {
    c.reader.tokens[|c0.reader.tokens|..]
  }

  /** What has become of a directive given to `c0`: the decision is no longer the server's, and it stands until
      the next request is announced, which can only end a directive to close. */
  ghost predicate Stands(c0: Conn, c: Conn, on: bool) {
    && c0.reader.tokens <= c.reader.tokens && c0.answers <= c.answers && !c.automatic
    && (on || !AnyAnnounces(TokensSince(c0, c)) ==>
          && c.keepAlive == on
          && (forall k :: |c0.answers| <= k < |c.answers| ==> c.answers[k].keepAlive == on)
          && (!on && |c.answers| > |c0.answers| && !c.chunked ==> !c.open || c.state.Write?))
  }

  lemma MoreTokens(c0: Conn, c: Conn, c': Conn)
    requires c0.reader.tokens <= c.reader.tokens <= c'.reader.tokens
    ensures AnyAnnounces(TokensSince(c0, c')) <==>
      AnyAnnounces(TokensSince(c0, c)) || AnyAnnounces(c'.reader.tokens[|c.reader.tokens|..])
  {
    hide AnyAnnounces;
    AnyOfBoth(TokensSince(c0, c), c'.reader.tokens[|c.reader.tokens|..]);
    assert TokensSince(c0, c') == TokensSince(c0, c) + c'.reader.tokens[|c.reader.tokens|..];
  }

  lemma ReadStands(c0: Conn, c: Conn, h: Heap, on: bool)
    requires CanRead(c) && Stands(c0, c, on)
    requires on || AnyAnnounces(TokensSince(c0, c)) || c.chunked || |c.answers| == |c0.answers|
    ensures Stands(c0, ReadAndHandle(c, h).c, on)
  {
    hide Sane, ReadRequest, CapacityRead, AnyAnnounces;
    RenewedIsSane(c.reader);
    var n := Allocated(c.(state := Connection.Read, timeout := REQUEST_TIMEOUT), h);
    VisitAppends(n.c.reader, n.c.inbox, MAX_REQUEST_BUF_SIZE);
    MoreTokens(c0, c, ReadAndHandle(c, h).c);
  }

  lemma WriteStands(c0: Conn, c: Conn, h: Heap, w: Written, on: bool)
    requires CanWrite(c) && c.state.Write? && Stands(c0, c, on)
    ensures Stands(c0, WriteAndHandle(c, h, w).c, on)
  {
    hide ReadAndHandle, AnyAnnounces;
    var n := BufferFree(WriteSocket(c, w).(timeout := KEEP_ALIVE_TIMEOUT), h);
    if WriteCode(WriteSocket(c, w), w).WriteSuccess? {
      ReadStands(c0, n.c, n.h, on);
    }
  }

  lemma ReplyStands(c0: Conn, c: Conn, h: Heap, r: Reply, detected: bool, junks: seq<string>, w: Written, on: bool)
    requires CanReply(c, r, detected, junks) && Stands(c0, c, on)
    ensures Stands(c0, RespondAndWrite(c, h, r, detected, junks, w).c, on)
  {
    hide ReplyPieces, Run, JunkFor, Respond.Inside, WriteAndHandle, AnyAnnounces;
    ReplyIsNotEmpty(r, KeepAliveFor(c, r, detected), c.chunked, junks);
    var n := PerformResponse(c, h, r, detected, junks);
    WriteStands(c0, n.c, n.h, w, on);
  }

  lemma HandleStands(c0: Conn, s: Server, e: Event, on: bool)
    requires AllWell(s) && Enabled(s, e) && !e.Accept? && !e.SetKeepAlive? && Stands(c0, s.conns[e.i], on)
    ensures Stands(c0, Handle(Subject(s, e), s.h, e).c, on)
  {
    hide ReadAndHandle, WriteAndHandle, RespondAndWrite, CanReply, Sane, AnyAnnounces;
    var c, h := Subject(s, e), s.h;
    match e
    case Ready(_, arrivals, w) =>
      var c' := c.(inbox := c.inbox + arrivals);
      if c.state.Read? {
        ReadStands(c0, c', h, on);
      } else if c.state.Write? {
        WriteStands(c0, c', h, w, on);
      }
    case Tick(_) =>
    case ReadChunk(_, arrivals) => ReadStands(c0, c.(inbox := c.inbox + arrivals), h, on);
    case RespondTo(_, r, mem, junks, w) => ReplyStands(c0, c, h, r, Detected(c, mem), junks, w, on);
    case FreeBuffer(_) =>
  }

  /** A directive of user code stands in every run, whatever the request asked for: until another directive, and
      a directive to close until another request is announced, every reply made carries it, and once a response
      on a connection to be closed is complete, it is being written or the connection is closed. */
  lemma {:induction false} DirectivesStand(before: seq<Event>, i: nat, on: bool, events: seq<Event>)
    requires Enabled(After(before), SetKeepAlive(i, on)) && Undirected(events, i)
    ensures i < |After(before + [SetKeepAlive(i, on)]).conns|
    ensures i < |After(before + [SetKeepAlive(i, on)] + events).conns|
    ensures Stands(After(before + [SetKeepAlive(i, on)]).conns[i],
                   After(before + [SetKeepAlive(i, on)] + events).conns[i], on)
  {
    hide Enabled, Well, CanReply, Stands, After, Do;
    var directed := before + [SetKeepAlive(i, on)];
    DirectiveIsGiven(before, i, on);
    if events == [] {
      assert directed + events == directed;
    } else {
      var n := |events| - 1;
      var e := events[n];
      assert Undirected(events[..n], i) && (e.SetKeepAlive? ==> e.i != i);
      DirectivesStand(before, i, on, events[..n]);
      RunOn(directed, events);
      OneMoreStands(After(directed).conns[i], After(directed + events[..n]), e, i, on);
    }
  }

  lemma DirectiveIsGiven(before: seq<Event>, i: nat, on: bool)
    requires Enabled(After(before), SetKeepAlive(i, on))
    ensures var s := After(before + [SetKeepAlive(i, on)]);
      i < |s.conns| && Stands(s.conns[i], s.conns[i], on) && s.conns[i].state.Nop? && s.conns[i].open
  {
    hide CanReply, Sane, CanRead, CanWrite;
    var e := SetKeepAlive(i, on);
    assert (before + [e])[..|before + [e]| - 1] == before;
    NothingSince(After(before + [e]).conns[i]);
  }

  lemma NothingSince(c: Conn)
    ensures !AnyAnnounces(TokensSince(c, c))
  {
  }

  lemma OneMoreStands(c0: Conn, s: Server, e: Event, i: nat, on: bool)
    requires AllWell(s) && i < |s.conns| && Stands(c0, s.conns[i], on) && (e.SetKeepAlive? ==> e.i != i)
    ensures i < |Do(s, e).conns| && Stands(c0, Do(s, e).conns[i], on)
  {
    hide Handle, Stands, CanReply, Well, TokensSince;
    if Enabled(s, e) && Concerns(e, i) {
      HandleStands(c0, s, e, on);
    }
  }

  /** So when the last byte of such a response has been accepted the connection goes on to read its next request,
      unless its input has ended, or is closed, as the directive says. */
  lemma DirectivesDecide(c0: Conn, c: Conn, h: Heap, w: Written, on: bool)
    requires Stands(c0, c, on) && (on || !AnyAnnounces(TokensSince(c0, c)))
    requires CanWrite(c) && c.open && c.state.Write? && !c.chunked && w.Took? && c.reader.b.length - c.written <= w.n
    ensures Sane(Renewed(c.reader), MAX_REQUEST_BUF_SIZE)
    ensures var n := WriteAndHandle(c, h, w);
      var ended := ReadRequest(Renewed(c.reader), c.inbox, MAX_REQUEST_BUF_SIZE).rc.SocketError?;
      && (n.c.open <==> on && !ended)
      && (n.c.open ==> n.c.block == Block(h.next) && n.c.reader.b.capacity >= REQUEST_BUF_SIZE)
  {
    hide Sane, ReadRequest, CapacityRead, AnyAnnounces;
    RenewedIsSane(c.reader);
    VisitAppends(Renewed(c.reader), c.inbox, MAX_REQUEST_BUF_SIZE);
  }

  // --- without a directive ---

  lemma {:induction false} AutomaticUntilDirected(events: seq<Event>, i: nat)
    requires Undirected(events, i) && i < |After(events).conns|
    ensures After(events).conns[i].automatic
  {
    hide Enabled, Well, CanReply, Handle;
    if events != [] {
      var before, e := After(events[..|events| - 1]), events[|events| - 1];
      assert Undirected(events[..|events| - 1], i) && (e.SetKeepAlive? ==> e.i != i);
      if i < |before.conns| {
        AutomaticUntilDirected(events[..|events| - 1], i);
      }
      if Enabled(before, e) {
        EnabledIsThere(before, e);
        if i == Concerned(before, e) {
          HandleStaysAutomatic(before, e);
        }
      }
    }
  }

  lemma ReadStaysAutomatic(c: Conn, h: Heap)
    requires CanRead(c)
    ensures ReadAndHandle(c, h).c.automatic == c.automatic
  {
    hide Sane, ReadRequest, CapacityRead;
  }

  lemma WriteStaysAutomatic(c: Conn, h: Heap, w: Written)
    requires CanWrite(c)
    ensures WriteAndHandle(c, h, w).c.automatic == c.automatic
  {
    hide ReadAndHandle;
    var n := BufferFree(WriteSocket(c, w).(timeout := KEEP_ALIVE_TIMEOUT), h);
    if WriteCode(WriteSocket(c, w), w).WriteSuccess? {
      ReadStaysAutomatic(n.c, n.h);
    }
  }

  lemma ReplyStaysAutomatic(c: Conn, h: Heap, r: Reply, detected: bool, junks: seq<string>, w: Written)
    requires CanReply(c, r, detected, junks)
    ensures RespondAndWrite(c, h, r, detected, junks, w).c.automatic == c.automatic
  {
    hide ReplyPieces, Run, JunkFor, Respond.Inside, WriteAndHandle;
    ReplyIsNotEmpty(r, KeepAliveFor(c, r, detected), c.chunked, junks);
    var n := PerformResponse(c, h, r, detected, junks);
    WriteStaysAutomatic(n.c, n.h, w);
  }

  lemma HandleStaysAutomatic(s: Server, e: Event)
    requires AllWell(s) && Enabled(s, e) && !e.SetKeepAlive? && (!e.Accept? ==> s.conns[e.i].automatic)
    ensures Handle(Subject(s, e), s.h, e).c.automatic
  {
    hide ReadAndHandle, WriteAndHandle, RespondAndWrite, CanReply, Sane;
    var c, h := Subject(s, e), s.h;
    match e
    case Accept(date, junks, arrivals, w) =>
      var c' := c.(inbox := arrivals);
      if Busy(h) {
        RespondOnAccept(c, arrivals, Refusal(date), junks);
        ReplyStaysAutomatic(c', h, Refusal(date), false, junks, w);
      } else {
        ReadStaysAutomatic(c', h);
      }
    case Ready(_, arrivals, w) =>
      var c' := c.(inbox := c.inbox + arrivals);
      if c.state.Read? {
        ReadStaysAutomatic(c', h);
      } else if c.state.Write? {
        WriteStaysAutomatic(c', h, w);
      }
    case Tick(_) =>
    case ReadChunk(_, arrivals) => ReadStaysAutomatic(c.(inbox := c.inbox + arrivals), h);
    case RespondTo(_, r, mem, junks, w) => ReplyStaysAutomatic(c, h, r, Detected(c, mem), junks, w);
    case FreeBuffer(_) =>
  }

  /** The handler of a first request finds its head in the array, and behind it body tokens only. */
  lemma FirstRequestIsFiled(r: Request, body: string, capacity: int, events: seq<Sessions.Event>, max: int)
      returns (done: Token, more: seq<Token>)
    requires GoodRequest(r) && Sessions.Play(Sessions.Start(capacity), events, max).received <= PrintRequest(r) + body
    requires FramingOf(r, max).NoBody? ==> body == ""
    requires Sessions.Play(Sessions.Start(capacity), events, max).b.afterHeaders > 0
    ensures TokensOf(Sessions.Play(Sessions.Start(capacity), events, max).tokens) == KeepAlive.ArrayOf(r, done, more)
    ensures KeepAlive.OnlyBody(done, more)
  {
    hide GoodRequest, PrintRequest, Sessions.Play, FramingOf, LengthOf, HeadComplete, RequestTokens, TokensOf;
    var n := BodyIsReached(r, body, capacity, events, max);
    var s0 := Sessions.Play(Sessions.Start(capacity), events[..n], max);
    var s := Sessions.Play(s0, events[n..], max);
    FromHead(s0, max);
    HeadIsFiled(s0, max);
    if FramingOf(r, max).NoBody? {
      assert PrintRequest(r) + body == PrintRequest(r);
      SameReceived(s0, events[n..], r, max);
      NothingFollows(s0, events[n..], max);
    } else {
      BodyIsFiled(s0, events[n..], max);
    }
    done, more := DoneToken(FramingOf(r, max)), TokensOf(s.tokens)[|s0.tokens|..];
    assert TokensOf(s.tokens) == s0.tokens + more;
    forall k | 0 <= k < |more| ensures !more[k].kind.HeaderKey? {
      assert more[k] == TokensOf(s.tokens)[|s0.tokens| + k];
    }
  }

  lemma SameReceived(s0: Sessions.Session, events: seq<Sessions.Event>, r: Request, max: int)
    requires s0.b.Valid() && PrintRequest(r) <= s0.received
      && Sessions.Play(s0, events, max).received <= PrintRequest(r)
    ensures Sessions.Play(s0, events, max).received == s0.received
  {
    hide PrintRequest, Sessions.Play;
    HeadResults.SessionsGrow(s0, events, max);
  }

  /** User code has been called back only when the head is complete. */
  lemma CalledBehindTheHead(capacity: int, events: seq<Sessions.Event>, c: Conn, max: int)
    requires c.reader.tokens == TokensOf(Sessions.Play(Sessions.Start(capacity), events, max).tokens)
    requires c.reader.calls == CallsOf(Sessions.Play(Sessions.Start(capacity), events, max).tokens)
    requires c.state.Nop? && Attentive(c)
    ensures Sessions.Play(Sessions.Start(capacity), events, max).b.afterHeaders > 0
  {
    hide Sessions.Play, CallsOf, TokensOf, InStep;
    NoCallsInHead(capacity, events, max);
  }

  lemma HasHeaders(r: Request)
    requires GoodRequest(r)
    ensures 0 < |r.headers|
  {
  }

  lemma AnswerIsMade(s: Server, e: Event)
    requires AllWell(s) && Enabled(s, e) && e.RespondTo?
    ensures var c := s.conns[e.i];
      Do(s, e).conns[e.i].answers == c.answers + [Answered(e.r, KeepAliveFor(c, e.r, Detected(c, e.mem)))]
  {
    hide ReplyPieces, Run, JunkFor, Respond.Inside, WriteAndHandle, CanRead, Honest;
    var c := s.conns[e.i];
    ReplyIsNotEmpty(e.r, KeepAliveFor(c, e.r, Detected(c, e.mem)), c.chunked, e.junks);
    var n := PerformResponse(c, s.h, e.r, Detected(c, e.mem), e.junks);
    WriteKeepsAnswers(n.c, n.h, e.w);
  }

  /** The decision is made once for a chunked response: its later chunks and its end keep it, whatever lies in
      memory by then. */
  lemma LaterChunksKeepTheDecision(s: Server, e: Event)
    requires AllWell(s) && Enabled(s, e) && e.RespondTo? && s.conns[e.i].chunked && !e.r.Whole?
    ensures var c := s.conns[e.i]; Do(s, e).conns[e.i].answers == c.answers + [Answered(e.r, c.keepAlive)]
  {
    hide Do, Enabled, Well;
    AnswerIsMade(s, e);
  }

  /** Without a directive the first answer of a connection, in every run, keeps the connection if and only if the
      version and the first Connection header of the request ask for it, whatever lies in memory. */
  lemma FirstAnswerIsAsAsked(events: seq<Event>, e: Event, r: Request, body: string)
    requires e.RespondTo? && Enabled(After(events), e) && Undirected(events, e.i) && NeverFreed(events, e.i)
    requires GoodRequest(r) && Pending(ArrivedAt(events, e.i)) <= PrintRequest(r) + body
    requires FramingOf(r, MAX_REQUEST_BUF_SIZE).NoBody? ==> body == ""
    requires After(events).conns[e.i].answers == [] && SerializesHead(e.r, After(events).conns[e.i].chunked)
    ensures Detected(After(events).conns[e.i], e.mem) == KeepAlive.AsksToBeKept(r)
    ensures Do(After(events), e).conns[e.i].answers == [Answered(e.r, KeepAlive.AsksToBeKept(r))]
  {
    hide After, GoodRequest, PrintRequest, FramingOf, ArrivedAt, Pending, CanReply, Sessions.Play, TokensOf, CallsOf;
    hide Handle, Well, RequestTokens, RequestTexts, Spell, KeepAlive.AsksToBeKept, Accessors.KeepsAlive,
      Accessors.Detectable, Attentive;
    var i, max := e.i, MAX_REQUEST_BUF_SIZE;
    var c := After(events).conns[i];
    var schedule := FirstRequestIsSchedule(events, i);
    UserCodeFindsItsToken(events, i);
    AutomaticUntilDirected(events, i);
    var s := Sessions.Play(Sessions.Start(REQUEST_BUF_SIZE), schedule, max);
    CalledBehindTheHead(REQUEST_BUF_SIZE, schedule, c, max);
    assert s.received <= Pending(ArrivedAt(events, i));
    var done, more := FirstRequestIsFiled(r, body, REQUEST_BUF_SIZE, schedule, max);
    HeadStaysReadable(r, body, REQUEST_BUF_SIZE, schedule, max);
    SpellAlso(s.b.mem, e.mem, RequestTokens(r), RequestTexts(r));
    HasHeaders(r);
    KeepAlive.RequestDecides(r, done, more, e.mem, c.keepAlive);
    AnswerIsMade(After(events), e);
  }

  /** User code may release the buffer of a request before it answers. Without a directive the head of the answer is
      then decided by what lies where the buffer was: of two memories, both possible, one keeps the connection. */
  lemma FreedBufferIsLookedAt(c: Conn, r: Request, done: Token, more: seq<Token>, reply: Reply)
    requires GoodRequest(r) && KeepAlive.ConnectionOf(r.headers) == "" && KeepAlive.OnlyBody(done, more)
    requires c.automatic && c.block.Null? && c.reader.tokens == KeepAlive.ArrayOf(r, done, more)
    requires SerializesHead(reply, c.chunked)
    ensures var mem0, mem1 := PrintRequest(r.(minor := '0')), PrintRequest(r.(minor := '1'));
      && Sees(c, reply, mem0) && !KeepAliveFor(c, reply, Detected(c, mem0))
      && Sees(c, reply, mem1) && KeepAliveFor(c, reply, Detected(c, mem1))
  {
    hide GoodRequest, PrintRequest, RequestTokens, Accessors.KeepsAlive, Accessors.Detectable, KeepAlive.ConnectionOf;
    KeepAlive.MemoryDecides(r, done, more, '0', c.keepAlive);
    KeepAlive.MemoryDecides(r, done, more, '1', c.keepAlive);
  }
}

/**
  Requests on a running server: whatever else the server does, what a connection has read, parsed
  and called back for the request at hand is a run of the reader, hence a schedule of the parser.
 */
module Service {
  import opened Automaton
  import opened Parser
  import Sessions
  import opened ReadBuffer
  import opened ReadSocket
  import opened Callbacks
  import opened OutputBuffer
  import opened Respond
  import opened Connection
  import opened Server

  // --- earlier requests do not matter ---

  /** The reader with tokens and callbacks of earlier requests in front of its own. */
  function Later(r: Reader, tokens: seq<Token>, calls: seq<Call>): Reader {
    r.(tokens := tokens + r.tokens, calls := calls + r.calls)
  }

  lemma TakeLater(r: Reader, o: Outcome, tokens: seq<Token>, calls: seq<Call>)
    ensures Take(Later(r, tokens, calls), o) == Later(Take(r, o), tokens, calls)
  {
    hide TokensFor, CallsFor;
    assert tokens + r.tokens + TokensFor(o.token) == tokens + (r.tokens + TokensFor(o.token));
    assert calls + r.calls + CallsFor(o.token) == calls + (r.calls + CallsFor(o.token));
  }

  lemma {:induction false} DispatchLater(r: Reader, tokens: seq<Token>, calls: seq<Call>, max: int)
    requires r.b.Valid() && Tidy(r.p.core)
    ensures Dispatch(Later(r, tokens, calls), max) == Later(Dispatch(r, max), tokens, calls)
    decreases r.b.length - r.b.index
  {
    hide Exec, Take, Tidy;
    ExecConsumes(r.p, r.b, max);
    var o := Exec(r.p, r.b, max);
    TakeLater(r, o, tokens, calls);
    if !Returns(o.token) {
      TakeKeeps(r, o);
      DispatchLater(Take(r, o), tokens, calls, max);
    }
  }

  lemma VisitLater(r: Reader, incoming: seq<Arrival>, tokens: seq<Token>, calls: seq<Call>, max: int)
    requires Sane(r, max)
    ensures var v := ReadRequest(r, incoming, max);
      ReadRequest(Later(r, tokens, calls), incoming, max) == v.(r := Later(v.r, tokens, calls))
  {
    hide Dispatch, ReadLoop, Tidy;
    if r.b.index >= r.b.length {
      ReadLoopIsAppend(r.b, incoming, max);
      var e := ReadLoop(r.b, incoming, max);
      var r' := r.(b := e.b.(sequenceId := NextSequence(e.b.sequenceId)));
      if e.rc != 0 {
        DispatchLater(r', tokens, calls, max);
      }
    } else {
      DispatchLater(r, tokens, calls, max);
    }
  }

  // --- the reader of a connection ---

  /** `visits` are the arrivals before each visit for the request at hand, and `unseen` those since. */
  ghost predicate IsServed(c: Conn, visits: seq<seq<Arrival>>, unseen: seq<Arrival>, tokens: seq<Token>,
      calls: seq<Call>) {
    var v := Serve(REQUEST_BUF_SIZE, visits, MAX_REQUEST_BUF_SIZE);
    c.inbox == v.incoming + unseen && c.reader == Later(v.r, tokens, calls)
  }

  ghost predicate HasRequest(c: Conn) { c.open && c.block.Block? && !c.state.Write? }

  function ArrivalsOf(e: Event): seq<Arrival> {
    if e.Accept? || e.Ready? || e.ReadChunk? then e.arrivals else []
  }

  /** What has arrived at the socket of connection `i`. */
  ghost function ArrivedAt(events: seq<Event>, i: nat): seq<Arrival> {
    if events == [] then []
    else
      var before, e := After(events[..|events| - 1]), events[|events| - 1];
      ArrivedAt(events[..|events| - 1], i)
      + if Enabled(before, e) && i == Concerned(before, e) then ArrivalsOf(e) else []
  }

  function Concerned(s: Server, e: Event): nat { if e.Accept? then |s.conns| else e.i }

  predicate EndsWith(a: string, b: string) { |b| <= |a| && a[|a| - |b|..] == b }

  lemma EndsMore(a: string, b: string, x: string)
    ensures EndsWith(a, b) ==> EndsWith(a + x, b + x)
    ensures EndsWith(a, x + b) ==> EndsWith(a, b)
  {
    if EndsWith(a, x + b) {
      assert a[|a| - |b|..] == a[|a| - |x + b|..][|x|..];
    }
  }

  /** The visits account for the last bytes of all that has arrived. */
  ghost predicate Counts(c: Conn, visits: seq<seq<Arrival>>, unseen: seq<Arrival>, tokens: seq<Token>, calls: seq<Call>,
      arrived: string)
  {
    IsServed(c, visits, unseen, tokens, calls) && EndsWith(arrived, Arrived(visits) + Pending(unseen))
  }

  ghost predicate Serving(c: Conn, arrived: string) {
    && EndsWith(arrived, Pending(c.inbox))
    && (HasRequest(c) ==> exists visits, unseen, tokens, calls :: Counts(c, visits, unseen, tokens, calls, arrived))
  }

  lemma VisitedArrived(visits: seq<seq<Arrival>>, unseen: seq<Arrival>)
    ensures Arrived(visits + [unseen]) + Pending([]) == Arrived(visits) + Pending(unseen)
  {
    var all := visits + [unseen];
    assert all[..|all| - 1] == visits && all[|all| - 1] == unseen;
  }

  lemma OneMoreVisit(visits: seq<seq<Arrival>>, arrivals: seq<Arrival>)
    ensures var before := Serve(REQUEST_BUF_SIZE, visits, MAX_REQUEST_BUF_SIZE);
      var v := ReadRequest(before.r, before.incoming + arrivals, MAX_REQUEST_BUF_SIZE);
      Serve(REQUEST_BUF_SIZE, visits + [arrivals], MAX_REQUEST_BUF_SIZE) == Served(v.r, v.incoming)
  {
    hide ReadRequest, Sane;
    assert (visits + [arrivals])[..|visits + [arrivals]| - 1] == visits;
  }

  lemma VisitServes(c: Conn, h: Heap, visits: seq<seq<Arrival>>, unseen: seq<Arrival>, tokens: seq<Token>,
      calls: seq<Call>)
    requires Sane(c.reader, MAX_REQUEST_BUF_SIZE) && IsServed(c, visits, unseen, tokens, calls)
    ensures IsServed(AfterVisit(c, h).c, visits + [unseen], [], tokens, calls)
  {
    hide Sane, ReadRequest, Serve, CapacityRead;
    var before := Serve(REQUEST_BUF_SIZE, visits, MAX_REQUEST_BUF_SIZE);
    VisitAppends(c.reader, c.inbox, MAX_REQUEST_BUF_SIZE);
    OneMoreVisit(visits, unseen);
    VisitLater(before.r, before.incoming + unseen, tokens, calls, MAX_REQUEST_BUF_SIZE);
  }

  lemma NewBufferServes(c: Conn, h: Heap)
    ensures var n := BufferInit(c, h); IsServed(n.c, [], c.inbox, c.reader.tokens, c.reader.calls)
  {
    var r := NewReader(REQUEST_BUF_SIZE);
    assert c.reader.tokens + r.tokens == c.reader.tokens && c.reader.calls + r.calls == c.reader.calls;
    assert [] + c.inbox == c.inbox;
  }

  lemma VisitCounts(c: Conn, h: Heap, visits: seq<seq<Arrival>>, unseen: seq<Arrival>, tokens: seq<Token>,
      calls: seq<Call>, arrived: string)
    requires Sane(c.reader, MAX_REQUEST_BUF_SIZE) && Counts(c, visits, unseen, tokens, calls, arrived)
    requires EndsWith(arrived, Pending(c.inbox))
    ensures var c' := AfterVisit(c, h).c;
      Counts(c', visits + [unseen], [], tokens, calls, arrived) && EndsWith(arrived, Pending(c'.inbox))
  {
    hide Sane, ReadRequest, CapacityRead, IsServed, Arrived, Pending, EndsWith;
    VisitServes(c, h, visits, unseen, tokens, calls);
    VisitedArrived(visits, unseen);
    VisitKeepsSane(c.reader, c.inbox, MAX_REQUEST_BUF_SIZE);
    var v := ReadRequest(c.reader, c.inbox, MAX_REQUEST_BUF_SIZE);
    EndsMore(arrived, Pending(v.incoming), v.taken);
  }

  lemma ReadServes(c: Conn, h: Heap, visits: seq<seq<Arrival>>, unseen: seq<Arrival>, tokens: seq<Token>,
      calls: seq<Call>, arrived: string)
    requires CanRead(c) && (c.block.Block? ==> Counts(c, visits, unseen, tokens, calls, arrived))
    requires EndsWith(arrived, Pending(c.inbox))
    ensures Serving(ReadAndHandle(c, h).c, arrived)
  {
    hide Sane, ReadRequest, AfterVisit, IsServed, EndsWith, Pending;
    RenewedIsSane(c.reader);
    var c0 := c.(state := Connection.Read, timeout := REQUEST_TIMEOUT);
    var n := Allocated(c0, h);
    var vs, us, ts, cs := visits, unseen, tokens, calls;
    if c.block.Null? {
      NewBufferServes(c0, h);
      assert Arrived([]) + Pending(c.inbox) == Pending(c.inbox);
      vs, us, ts, cs := [], c.inbox, c.reader.tokens, c.reader.calls;
    } else {
      SameIsServed(c, c0, visits, unseen, tokens, calls);
    }
    VisitCounts(n.c, n.h, vs, us, ts, cs, arrived);
    var c1, c' := AfterVisit(n.c, n.h).c, ReadAndHandle(c, h).c;
    SameIsServed(c1, c', vs + [us], [], ts, cs);
    assert Counts(c', vs + [us], [], ts, cs, arrived);
  }

  lemma SameIsServed(c: Conn, c': Conn, visits: seq<seq<Arrival>>, unseen: seq<Arrival>, tokens: seq<Token>,
      calls: seq<Call>)
    requires c'.reader == c.reader && c'.inbox == c.inbox
    ensures IsServed(c, visits, unseen, tokens, calls) <==> IsServed(c', visits, unseen, tokens, calls)
  {
    hide Serve;
  }

  lemma MoreCounts(c: Conn, visits: seq<seq<Arrival>>, unseen: seq<Arrival>, more: seq<Arrival>,
      tokens: seq<Token>, calls: seq<Call>, arrived: string)
    requires Counts(c, visits, unseen, tokens, calls, arrived)
    ensures Counts(c.(inbox := c.inbox + more), visits, unseen + more, tokens, calls, arrived + Pending(more))
  {
    hide IsServed, Arrived, Pending, EndsWith;
    MoreUnseen(c, visits, unseen, more, tokens, calls);
    PendingOfBoth(unseen, more);
    EndsMore(arrived, Arrived(visits) + Pending(unseen), Pending(more));
    assert Arrived(visits) + Pending(unseen) + Pending(more) == Arrived(visits) + (Pending(unseen) + Pending(more));
  }

  lemma MoreInbox(c: Conn, more: seq<Arrival>, arrived: string)
    requires EndsWith(arrived, Pending(c.inbox))
    ensures EndsWith(arrived + Pending(more), Pending(c.inbox + more))
  {
    PendingOfBoth(c.inbox, more);
    EndsMore(arrived, Pending(c.inbox), Pending(more));
  }

  lemma ReadKeepsServing(c: Conn, h: Heap, more: seq<Arrival>, arrived: string)
    requires CanRead(c) && Serving(c, arrived) && c.open && !c.state.Write?
    ensures Serving(ReadAndHandle(c.(inbox := c.inbox + more), h).c, arrived + Pending(more))
  {
    hide ReadAndHandle, Sane, Counts, EndsWith, Pending;
    var c' := c.(inbox := c.inbox + more);
    MoreInbox(c, more, arrived);
    if c.block.Block? {
      var visits, unseen, tokens, calls :| Counts(c, visits, unseen, tokens, calls, arrived);
      MoreCounts(c, visits, unseen, more, tokens, calls, arrived);
      ReadServes(c', h, visits, unseen + more, tokens, calls, arrived + Pending(more));
    } else {
      ReadServes(c', h, [], [], [], [], arrived + Pending(more));
    }
  }

  lemma MoreUnseen(c: Conn, visits: seq<seq<Arrival>>, unseen: seq<Arrival>, arrivals: seq<Arrival>,
      tokens: seq<Token>, calls: seq<Call>)
    requires IsServed(c, visits, unseen, tokens, calls)
    ensures IsServed(c.(inbox := c.inbox + arrivals), visits, unseen + arrivals, tokens, calls)
  {
    hide Serve;
    var v := Serve(REQUEST_BUF_SIZE, visits, MAX_REQUEST_BUF_SIZE);
    assert v.incoming + unseen + arrivals == v.incoming + (unseen + arrivals);
  }

  /** After a write there is no request buffer, unless the next request is already being read. */
  lemma WriteServes(c: Conn, h: Heap, w: Written, arrived: string)
    requires CanWrite(c) && c.state.Write? && EndsWith(arrived, Pending(c.inbox))
    ensures Serving(WriteAndHandle(c, h, w).c, arrived)
  {
    hide ReadAndHandle, Sane, Counts, EndsWith;
    var n := BufferFree(WriteSocket(c, w).(timeout := KEEP_ALIVE_TIMEOUT), h);
    if WriteCode(WriteSocket(c, w), w).WriteSuccess? {
      ReadServes(n.c, n.h, [], [], [], [], arrived);
    }
  }

  lemma HandleKeepsServing(s: Server, e: Event, arrived: string)
    requires AllWell(s) && Enabled(s, e) && Serving(Subject(s, e), arrived)
    ensures Serving(Handle(Subject(s, e), s.h, e).c, arrived + Pending(ArrivalsOf(e)))
  {
    hide ReadAndHandle, WriteAndHandle, PerformResponse, CanReply, Sane, Counts, EndsWith, Pending, Serving;
    var c, h := Subject(s, e), s.h;
    ServingEnds(c, arrived);
    assert Pending([]) == "" && arrived + "" == arrived by { NothingPending(); }
    match e
    case Accept(date, junks, arrivals, w) =>
      var c' := c.(inbox := arrivals);
      MoreInbox(c, arrivals, arrived);
      assert [] + arrivals == arrivals;
      if Busy(h) {
        RespondOnAccept(c, arrivals, Refusal(date), junks);
        ReplyServes(c', h, Refusal(date), false, junks, w, arrived + Pending(arrivals));
      } else {
        ReadServes(c', h, [], [], [], [], arrived + Pending(arrivals));
      }
    case Ready(_, arrivals, w) =>
      MoreInbox(c, arrivals, arrived);
      if c.state.Read? { ReadKeepsServing(c, h, arrivals, arrived); }
      else if c.state.Write? { WriteServes(c.(inbox := c.inbox + arrivals), h, w, arrived + Pending(arrivals)); }
      else { UnseenServes(c, arrivals, arrived); }
    case Tick(_) => SameServes(c, OnTimer(c, h).c, arrived);
    case ReadChunk(_, arrivals) => ReadKeepsServing(c, h, arrivals, arrived);
    case RespondTo(_, r, mem, junks, w) => ReplyServes(c, h, r, Detected(c, mem), junks, w, arrived);
    case SetKeepAlive(_, on) => SameServes(c, c.(automatic := false, keepAlive := on), arrived);
    case FreeBuffer(_) => SameServes(c, BufferFree(c, h).c, arrived);
  }

  lemma NothingPending()
    ensures Pending([]) == ""
  {
  }

  lemma ServingEnds(c: Conn, arrived: string)
    requires Serving(c, arrived)
    ensures EndsWith(arrived, Pending(c.inbox))
  {
  }

  lemma ReplyServes(c: Conn, h: Heap, r: Reply, detected: bool, junks: seq<string>, w: Written, arrived: string)
    requires CanReply(c, r, detected, junks) && EndsWith(arrived, Pending(c.inbox))
    ensures Serving(RespondAndWrite(c, h, r, detected, junks, w).c, arrived)
  {
    hide ReplyPieces, Run, JunkFor, Inside, WriteAndHandle, Serving, EndsWith;
    ReplyIsNotEmpty(r, KeepAliveFor(c, r, detected), c.chunked, junks);
    var n := PerformResponse(c, h, r, detected, junks);
    WriteServes(n.c, n.h, w, arrived);
  }

  lemma UnseenServes(c: Conn, more: seq<Arrival>, arrived: string)
    requires Serving(c, arrived)
    ensures Serving(c.(inbox := c.inbox + more), arrived + Pending(more))
  {
    hide Counts, EndsWith, Pending;
    MoreInbox(c, more, arrived);
    if HasRequest(c) {
      var visits, unseen, tokens, calls :| Counts(c, visits, unseen, tokens, calls, arrived);
      MoreCounts(c, visits, unseen, more, tokens, calls, arrived);
    }
  }

  lemma SameServes(c: Conn, c': Conn, arrived: string)
    requires Serving(c, arrived) && c'.inbox == c.inbox && c'.reader == c.reader && (HasRequest(c') ==> HasRequest(c))
    ensures Serving(c', arrived)
  {
    hide IsServed, EndsWith;
    if HasRequest(c') {
      var visits, unseen, tokens, calls :| Counts(c, visits, unseen, tokens, calls, arrived);
      SameIsServed(c, c', visits, unseen, tokens, calls);
      assert Counts(c', visits, unseen, tokens, calls, arrived);
    }
  }

  lemma NewServes()
    ensures Serving(NewConn(), "")
  {
    NothingPending();
  }

  /** Every connection, in every run: what it has read and what is still to be read for the request at hand
      are the last bytes that have arrived. */
  lemma {:induction false} EveryConnectionServed(events: seq<Event>, i: nat)
    ensures i < |After(events).conns| ==> Serving(After(events).conns[i], Pending(ArrivedAt(events, i)))
    ensures i >= |After(events).conns| ==> ArrivedAt(events, i) == []
  {
    hide Serving, Handle, Enabled, Well, CanReply, Pending;
    if events != [] {
      var before, e := After(events[..|events| - 1]), events[|events| - 1];
      EveryConnectionServed(events[..|events| - 1], i);
      var arrived := ArrivedAt(events[..|events| - 1], i);
      assert arrived + [] == arrived;
      NewServes();
      NothingPending();
      if Enabled(before, e) {
        EnabledIsThere(before, e);
        if i == Concerned(before, e) {
          HandleKeepsServing(before, e, Pending(arrived));
          PendingOfBoth(arrived, ArrivalsOf(e));
        }
      }
    }
  }

  /** In every run of the server, whatever connections and replies are interleaved, a connection that is
      not writing and holds a buffer has done for the request at hand what some schedule of reads and
      parser calls does: so all that is proved of every schedule (the head under every cut, the bodies,
      the callback protocol) holds of every request of every connection. The bytes the schedule has received,
      and those still at the socket, are the last ones that have arrived; `gone` went to earlier requests. */
  lemma RequestsAreSchedules(events: seq<Event>, i: nat)
    returns (schedule: seq<Sessions.Event>, tokens: seq<Token>, calls: seq<Call>, gone: string)
    requires i < |After(events).conns| && HasRequest(After(events).conns[i])
    ensures var c := After(events).conns[i];
      var s := Sessions.Play(Sessions.Start(REQUEST_BUF_SIZE), schedule, MAX_REQUEST_BUF_SIZE);
      && c.reader.p == s.p && c.reader.b == s.b
      && c.reader.tokens == tokens + TokensOf(s.tokens) && c.reader.calls == calls + CallsOf(s.tokens)
      && gone + s.received + Pending(c.inbox) == Pending(ArrivedAt(events, i))
  {
    hide After, Serve, Sessions.Play, CallsOf, TokensOf, ArrivedAt, Arrived, Pending;
    EveryConnectionServed(events, i);
    var c, arrived := After(events).conns[i], Pending(ArrivedAt(events, i));
    var visits, unseen, t, k :| Counts(c, visits, unseen, t, k, arrived);
    schedule := RunsAreSchedules(REQUEST_BUF_SIZE, visits, MAX_REQUEST_BUF_SIZE);
    tokens, calls := t, k;
    var s := Sessions.Play(Sessions.Start(REQUEST_BUF_SIZE), schedule, MAX_REQUEST_BUF_SIZE);
    var v := Serve(REQUEST_BUF_SIZE, visits, MAX_REQUEST_BUF_SIZE);
    PendingOfBoth(v.incoming, unseen);
    var rest := Arrived(visits) + Pending(unseen);
    gone := arrived[..|arrived| - |rest|];
    assert arrived == gone + rest;
    assert rest == s.received + Pending(v.incoming) + Pending(unseen);
    assert s.received + (Pending(v.incoming) + Pending(unseen)) == s.received + Pending(v.incoming) + Pending(unseen);
    assert gone + (s.received + Pending(c.inbox)) == gone + s.received + Pending(c.inbox);
  }

  // --- the first request of a connection: every byte is accounted for ---

  ghost predicate NeverFreed(events: seq<Event>, i: nat) {
    forall k :: 0 <= k < |events| && events[k].FreeBuffer? ==> events[k].i != i
  }

  ghost predicate Accounts(c: Conn, visits: seq<seq<Arrival>>, unseen: seq<Arrival>, arrived: seq<Arrival>) {
    IsServed(c, visits, unseen, [], []) && Arrived(visits) + Pending(unseen) == Pending(arrived)
  }

  /** Until the first reply, the reader has been given what arrived, in order and from the first byte on. */
  ghost predicate Accounted(c: Conn, arrived: seq<Arrival>) {
    c.open && c.answers == [] ==> HasRequest(c) && exists visits, unseen :: Accounts(c, visits, unseen, arrived)
  }

  lemma MoreArrived(visits: seq<seq<Arrival>>, unseen: seq<Arrival>, more: seq<Arrival>, arrived: seq<Arrival>)
    requires Arrived(visits) + Pending(unseen) == Pending(arrived)
    ensures Arrived(visits) + Pending(unseen + more) == Pending(arrived + more)
  {
    hide Arrived, Pending;
    PendingOfBoth(unseen, more);
    PendingOfBoth(arrived, more);
    assert Arrived(visits) + (Pending(unseen) + Pending(more)) == Arrived(visits) + Pending(unseen) + Pending(more);
  }

  lemma MoreAccounts(c: Conn, visits: seq<seq<Arrival>>, unseen: seq<Arrival>, more: seq<Arrival>,
      arrived: seq<Arrival>)
    requires Accounts(c, visits, unseen, arrived)
    ensures Accounts(c.(inbox := c.inbox + more), visits, unseen + more, arrived + more)
  {
    hide Arrived, Pending, IsServed;
    MoreUnseen(c, visits, unseen, more, [], []);
    MoreArrived(visits, unseen, more, arrived);
  }

  lemma SameAccounts(c: Conn, c': Conn, visits: seq<seq<Arrival>>, unseen: seq<Arrival>, arrived: seq<Arrival>)
    requires Accounts(c, visits, unseen, arrived) && c'.reader == c.reader && c'.inbox == c.inbox
    ensures Accounts(c', visits, unseen, arrived)
  {
    hide Serve, Arrived, Pending;
  }

  lemma VisitAccounts(c: Conn, h: Heap, visits: seq<seq<Arrival>>, unseen: seq<Arrival>, arrived: seq<Arrival>)
    requires c.block.Block? && Sane(c.reader, MAX_REQUEST_BUF_SIZE) && Accounts(c, visits, unseen, arrived)
    ensures Accounted(ReadAndHandle(c, h).c, arrived)
  {
    hide Sane, ReadRequest, Arrived, Pending, IsServed, Accounts;
    var c0 := c.(state := Connection.Read, timeout := REQUEST_TIMEOUT);
    SameAccounts(c, c0, visits, unseen, arrived);
    var c1 := AfterVisit(c0, h).c;
    assert Accounts(c1, visits + [unseen], [], arrived) by { VisitAccountsNow(c0, h, visits, unseen, arrived); }
  }

  lemma VisitAccountsNow(c: Conn, h: Heap, visits: seq<seq<Arrival>>, unseen: seq<Arrival>, arrived: seq<Arrival>)
    requires Sane(c.reader, MAX_REQUEST_BUF_SIZE) && Accounts(c, visits, unseen, arrived)
    ensures Accounts(AfterVisit(c, h).c, visits + [unseen], [], arrived)
  {
    hide Sane, ReadRequest, Arrived, Pending, IsServed, AfterVisit;
    VisitServes(c, h, visits, unseen, [], []);
    VisitedArrived(visits, unseen);
  }

  lemma ReadAccounts(c: Conn, h: Heap, more: seq<Arrival>, arrived: seq<Arrival>)
    requires c.block.Block? && Sane(c.reader, MAX_REQUEST_BUF_SIZE)
    requires c.open && Accounted(c, arrived)
    ensures Accounted(ReadAndHandle(c.(inbox := c.inbox + more), h).c, arrived + more)
  {
    hide Sane, ReadAndHandle, Accounts;
    var c' := c.(inbox := c.inbox + more);
    if c.answers == [] {
      var visits, unseen :| Accounts(c, visits, unseen, arrived);
      MoreAccounts(c, visits, unseen, more, arrived);
      VisitAccounts(c', h, visits, unseen + more, arrived + more);
    } else {
      ReadKeepsAnswers(c', h);
    }
  }

  lemma ReplyAddsAnswer(c: Conn, h: Heap, r: Reply, detected: bool, junks: seq<string>, w: Written)
    requires CanReply(c, r, detected, junks)
    ensures RespondAndWrite(c, h, r, detected, junks, w).c.answers != []
  {
    hide ReplyPieces, Run, JunkFor, Inside, WriteAndHandle;
    ReplyIsNotEmpty(r, KeepAliveFor(c, r, detected), c.chunked, junks);
    var n := PerformResponse(c, h, r, detected, junks);
    WriteKeepsAnswers(n.c, n.h, w);
  }

  /** A new client's first visit. */
  lemma AcceptAccounts(arrivals: seq<Arrival>, h: Heap)
    ensures Accounted(ReadAndHandle(NewConn().(inbox := arrivals), h).c, arrivals)
  {
    hide Sane, ReadRequest, Serve, ReadAndHandle, Accounted;
    var c := NewConn().(inbox := arrivals);
    var n := BufferInit(c, h);
    NewBufferServes(c, h);
    RenewedIsSane(c.reader);
    assert Arrived([]) + Pending(arrivals) == Pending(arrivals);
    VisitAccounts(n.c, n.h, [], arrivals, arrivals);
    ReadAgain(c, h);
  }

  /** Reading without a buffer is making one and reading. */
  lemma ReadAgain(c: Conn, h: Heap)
    requires c.block.Null?
    ensures Sane(Renewed(c.reader), MAX_REQUEST_BUF_SIZE)
    ensures var n := BufferInit(c, h); ReadAndHandle(n.c, n.h) == ReadAndHandle(c, h)
  {
    hide Sane, ReadRequest, AfterVisit;
    RenewedIsSane(c.reader);
    var n := BufferInit(c, h);
    assert Allocated(c.(state := Connection.Read, timeout := REQUEST_TIMEOUT), h)
      == Next(n.c.(state := Connection.Read, timeout := REQUEST_TIMEOUT), n.h);
  }

  lemma UnseenAccounts(c: Conn, more: seq<Arrival>, arrived: seq<Arrival>)
    requires Accounted(c, arrived)
    ensures Accounted(c.(inbox := c.inbox + more), arrived + more)
  {
    hide Accounts;
    if c.open && c.answers == [] {
      var visits, unseen :| Accounts(c, visits, unseen, arrived);
      MoreAccounts(c, visits, unseen, more, arrived);
    }
  }

  lemma UntouchedAccounts(c: Conn, c': Conn, arrived: seq<Arrival>)
    requires Accounted(c, arrived) && c'.reader == c.reader && c'.inbox == c.inbox && c'.answers == c.answers
    requires c'.open ==> c.open && c'.state == c.state && c'.block == c.block
    ensures Accounted(c', arrived + [])
  {
    hide Accounts;
    assert arrived + [] == arrived;
    if c'.open && c'.answers == [] {
      var visits, unseen :| Accounts(c, visits, unseen, arrived);
      SameAccounts(c, c', visits, unseen, arrived);
    }
  }

  lemma HandleAccounts(s: Server, e: Event, arrived: seq<Arrival>)
    requires AllWell(s) && Enabled(s, e) && !e.FreeBuffer?
    requires if e.Accept? then arrived == [] else Accounted(s.conns[e.i], arrived)
    ensures Accounted(Handle(Subject(s, e), s.h, e).c, arrived + ArrivalsOf(e))
  {
    hide ReadAndHandle, WriteAndHandle, RespondAndWrite, CanReply, Sane, Accounted;
    var c, h := Subject(s, e), s.h;
    match e
    case Accept(date, junks, arrivals, w) =>
      var c' := c.(inbox := arrivals);
      assert [] + arrivals == arrivals;
      if Busy(h) {
        RespondOnAccept(c, arrivals, Refusal(date), junks);
        ReplyAccounts(c', h, Refusal(date), false, junks, w, arrivals);
      } else { AcceptAccounts(arrivals, h); }
    case Ready(_, arrivals, w) =>
      if c.state.Read? { ReadingAccounts(c, h, arrivals, arrived); }
      else if c.state.Write? { WriteAccounts(c.(inbox := c.inbox + arrivals), c, h, w, arrived, arrived + arrivals); }
      else { UnseenAccounts(c, arrivals, arrived); }
    case Tick(_) => UntouchedAccounts(c, OnTimer(c, h).c, arrived);
    case ReadChunk(_, arrivals) => ReadingAccounts(c, h, arrivals, arrived);
    case RespondTo(_, r, mem, junks, w) => ReplyAccounts(c, h, r, Detected(c, mem), junks, w, arrived + []);
    case SetKeepAlive(_, on) => UntouchedAccounts(c, c.(automatic := false, keepAlive := on), arrived);
  }

  lemma ReplyAccounts(c: Conn, h: Heap, r: Reply, detected: bool, junks: seq<string>, w: Written, arrived: seq<Arrival>)
    requires CanReply(c, r, detected, junks)
    ensures Accounted(RespondAndWrite(c, h, r, detected, junks, w).c, arrived)
  {
    hide CanReply, RespondAndWrite;
    ReplyAddsAnswer(c, h, r, detected, junks, w);
  }

  lemma ReadingAccounts(c: Conn, h: Heap, more: seq<Arrival>, arrived: seq<Arrival>)
    requires Well(c) && c.open && !c.state.Write? && Accounted(c, arrived)
    ensures CanRead(c)
    ensures Accounted(ReadAndHandle(c.(inbox := c.inbox + more), h).c, arrived + more)
  {
    hide ReadAndHandle, Sane, Accounts;
    if c.block.Block? { ReadAccounts(c, h, more, arrived); }
    else { ReadKeepsAnswers(c.(inbox := c.inbox + more), h); }
  }

  /** A connection that is writing has been answered. */
  lemma WriteAccounts(c': Conn, c: Conn, h: Heap, w: Written, arrived: seq<Arrival>, later: seq<Arrival>)
    requires CanWrite(c') && c.open && c.state.Write? && c'.answers == c.answers && Accounted(c, arrived)
    ensures Accounted(WriteAndHandle(c', h, w).c, later)
  {
    hide WriteAndHandle, Accounts;
    WriteKeepsAnswers(c', h, w);
  }

  lemma {:induction false} FirstRequestAccounts(events: seq<Event>, i: nat)
    requires NeverFreed(events, i)
    ensures i < |After(events).conns| ==> Accounted(After(events).conns[i], ArrivedAt(events, i))
    ensures i >= |After(events).conns| ==> ArrivedAt(events, i) == []
  {
    hide Accounted, Handle, Enabled, Well, CanReply, ArrivalsOf;
    if events != [] {
      var before, e := After(events[..|events| - 1]), events[|events| - 1];
      FirstRequestAccounts(events[..|events| - 1], i);
      var arrived := ArrivedAt(events[..|events| - 1], i);
      assert e.FreeBuffer? ==> e.i != i;
      assert arrived + [] == arrived;
      if Enabled(before, e) && i == Concerned(before, e) {
        EnabledIsThere(before, e);
        HandleAccounts(before, e, arrived);
      } else if Enabled(before, e) {
        EnabledIsThere(before, e);
      }
    }
  }

  /** The first request of an open connection, in every run of the server: the schedule has received every
      byte that arrived, from the first on, but those still at the socket; and all tokens and callbacks are its own. */
  lemma FirstRequestIsSchedule(events: seq<Event>, i: nat) returns (schedule: seq<Sessions.Event>)
    requires i < |After(events).conns| && NeverFreed(events, i)
    requires After(events).conns[i].open && After(events).conns[i].answers == []
    ensures HasRequest(After(events).conns[i])
    ensures var c := After(events).conns[i];
      var s := Sessions.Play(Sessions.Start(REQUEST_BUF_SIZE), schedule, MAX_REQUEST_BUF_SIZE);
      && c.reader.p == s.p && c.reader.b == s.b
      && c.reader.tokens == TokensOf(s.tokens) && c.reader.calls == CallsOf(s.tokens)
      && s.received + Pending(c.inbox) == Pending(ArrivedAt(events, i))
  {
    hide After, Serve, Sessions.Play, CallsOf, TokensOf, ArrivedAt, Arrived, Pending;
    FirstRequestAccounts(events, i);
    var c := After(events).conns[i];
    var visits, unseen :| Accounts(c, visits, unseen, ArrivedAt(events, i));
    schedule := RunsAreSchedules(REQUEST_BUF_SIZE, visits, MAX_REQUEST_BUF_SIZE);
    var s := Sessions.Play(Sessions.Start(REQUEST_BUF_SIZE), schedule, MAX_REQUEST_BUF_SIZE);
    var v := Serve(REQUEST_BUF_SIZE, visits, MAX_REQUEST_BUF_SIZE);
    PendingOfBoth(v.incoming, unseen);
    assert s.received + (Pending(v.incoming) + Pending(unseen)) == s.received + Pending(v.incoming) + Pending(unseen);
  }
}

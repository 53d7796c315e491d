/**
  The server: any number of connections that share one memory ledger, under every interleaving of
  socket events, timer events and reactions of user code.
 */
module Server {
  import opened HeadRoundTrip
  import opened ReadBuffer
  import opened ReadSocket
  import opened OutputBuffer
  import opened Respond
  import opened Connection

  const MAX_TOTAL_EST_MEM_USAGE := 4294967296

  // --- a connection between two events ---

  /** Bytes accepted, and bytes still in the buffer, make up what was promised. */
  ghost predicate Honest(c: Conn) {
    if c.state.Write? then
      c.written <= c.reader.b.length <= |c.reader.b.mem| &&
      c.wire + c.reader.b.mem[c.written..c.reader.b.length] == c.promised
    else c.wire == c.promised
  }

  ghost predicate Well(c: Conn) {
    && Honest(c)
    && (!c.open ==> c.block.Null?)
    && (c.open ==>
          && !c.state.Init? && 0 < c.timeout <= REQUEST_TIMEOUT
          && (c.state.Write? ==> CanWrite(c))
          && (!c.state.Write? ==> CanRead(c) && (c.state.Read? ==> c.block.Block?)))
  }

  /** What an event finds when it starts to read: everything but the buffer, the state and the timeout. */
  lemma ReadKeepsWell(c: Conn, h: Heap)
    requires c.open && CanRead(c) && c.wire == c.promised
    ensures Well(ReadAndHandle(c, h).c)
  {
    hide Sane, ReadRequest, CapacityRead;
    RenewedIsSane(c.reader);
    var n := Allocated(c.(state := Read, timeout := REQUEST_TIMEOUT), h);
    VisitAppends(n.c.reader, n.c.inbox, MAX_REQUEST_BUF_SIZE);
    VisitKeepsSane(n.c.reader, n.c.inbox, MAX_REQUEST_BUF_SIZE);
  }

  lemma WrittenPart(mem: string, i: nat, j: nat, k: nat, wire: string)
    requires i <= j <= k <= |mem|
    ensures wire + mem[i..j] + mem[j..k] == wire + mem[i..k] && mem[k..k] == ""
  {
    assert mem[i..k] == mem[i..j] + mem[j..k];
  }

  lemma WriteIsHonest(c: Conn, w: Written)
    requires CanWrite(c) && c.state.Write? && Honest(c)
    ensures var c' := WriteSocket(c, w); Honest(c') && (c'.written == c'.reader.b.length ==> c'.wire == c'.promised)
  {
    var n := Accepted(c, w);
    WrittenPart(c.reader.b.mem, c.written, c.written + n, c.reader.b.length, c.wire);
  }

  lemma WriteKeepsWell(c: Conn, h: Heap, w: Written)
    requires c.open && c.state.Write? && CanWrite(c) && Honest(c)
    ensures Well(WriteAndHandle(c, h, w).c)
  {
    hide ReadAndHandle, Sane, Honest;
    WriteIsHonest(c, w);
    var c1 := WriteSocket(c, w);
    var n := BufferFree(c1.(timeout := KEEP_ALIVE_TIMEOUT), h);
    if WriteCode(c1, w).WriteSuccess? {
      ReadKeepsWell(n.c, n.h);
    }
    StillHonest(c1, WriteAndHandle(c, h, w).c);
  }

  lemma StillHonest(c: Conn, c': Conn)
    requires Honest(c) && c.state.Write?
    ensures (c'.state == c.state && c'.reader == c.reader && c'.written == c.written && c'.wire == c.wire
             && c'.promised == c.promised) ==> Honest(c')
    ensures !c'.state.Write? && c'.wire == c'.promised ==> Honest(c')
  {
  }

  lemma ReplyKeepsWell(c: Conn, h: Heap, r: Reply, detected: bool, junks: seq<string>, w: Written)
    requires c.open && c.wire == c.promised && CanReply(c, r, detected, junks)
    ensures Well(RespondAndWrite(c, h, r, detected, junks, w).c)
  {
    hide ReplyPieces, Run, JunkFor, Inside, WriteAndHandle;
    ReplyIsNotEmpty(r, KeepAliveFor(c, r, detected), c.chunked, junks);
    var n := PerformResponse(c, h, r, detected, junks);
    assert n.c.reader.b.mem[0..n.c.reader.b.length] == n.c.reader.b.mem;
    WriteKeepsWell(n.c, n.h, w);
  }

  lemma TimerKeepsWell(c: Conn, h: Heap)
    requires c.open && Well(c)
    ensures Well(OnTimer(c, h).c)
  {
    hide Sane;
  }

  /** What becomes of a connection when the last byte of its reply has been accepted: a chunked response
      waits for the user's next chunk without a buffer, a connection kept alive reads its next request
      into a new one, and any other is closed with everything written. */
  lemma CompletionDecides(c: Conn, h: Heap, w: Written)
    requires CanWrite(c) && c.open && c.state.Write? && Honest(c) && w.Took? && c.reader.b.length - c.written <= w.n
    ensures var n := WriteAndHandle(c, h, w);
      && (c.chunked ==> n.c.open && n.c.state.Nop? && n.c.block.Null? && n.c.timeout == REQUEST_TIMEOUT)
      && (!c.chunked && !c.keepAlive ==> !n.c.open && n.c.block.Null?)
      && (!c.chunked && c.keepAlive && n.c.open ==> (n.c.state.Read? || n.c.state.Nop?) && n.c.block == Block(h.next))
      && n.c.wire == c.promised && n.c.promised == c.promised
  {
    hide Sane, ReadRequest, CapacityRead;
    WriteIsHonest(c, w);
    var n := BufferFree(WriteSocket(c, w).(timeout := KEEP_ALIVE_TIMEOUT), h);
    if !c.chunked && c.keepAlive {
      ReadStartsOver(n.c, n.h);
    }
  }

  lemma ReadStartsOver(c: Conn, h: Heap)
    requires c.block.Null? && c.open
    ensures var n := ReadAndHandle(c, h);
      && (n.c.open ==> (n.c.state.Read? || n.c.state.Nop?) && n.c.block == Block(h.next))
      && n.c.wire == c.wire && n.c.promised == c.promised
  {
    hide Sane, ReadRequest, CapacityRead;
  }

  // --- what an event does to the ledger ---

  /** The capacity of the allocation a connection holds, and which allocation it is. */
  function Held(c: Conn): int { if c.block.Block? then c.reader.b.capacity else 0 }

  function Owned(c: Conn): multiset<nat> { if c.block.Block? then multiset{c.block.id} else multiset{} }

  /** The first `n` allocations, each once. */
  function Ids(n: nat): multiset<nat> { if n == 0 then multiset{} else Ids(n - 1) + multiset{n - 1} }

  /** Every byte the estimate gains or loses is one of a buffer's capacity, but for growth it was not told
      about; and every allocation that is made stays with the connection or is released. */
  ghost predicate Balanced(c: Conn, h: Heap, n: Next) {
    && n.h.memused + n.h.uncounted - Held(n.c) == h.memused + h.uncounted - Held(c)
    && h.uncounted <= n.h.uncounted && h.next <= n.h.next && h.freed <= n.h.freed
    && Owned(n.c) + multiset(n.h.freed) + Ids(h.next) == Owned(c) + multiset(h.freed) + Ids(n.h.next)
  }

  lemma BalancedTwice(c: Conn, h: Heap, n: Next, n': Next)
    requires Balanced(c, h, n) && Balanced(n.c, n.h, n')
    ensures Balanced(c, h, n')
  {
    forall id: nat
      ensures (Owned(n'.c) + multiset(n'.h.freed) + Ids(h.next))[id]
        == (Owned(c) + multiset(h.freed) + Ids(n'.h.next))[id]
    {
      assert (Owned(n.c) + multiset(n.h.freed) + Ids(h.next))[id] == (Owned(c) + multiset(h.freed) + Ids(n.h.next))[id];
      assert (Owned(n'.c) + multiset(n'.h.freed) + Ids(n.h.next))[id]
        == (Owned(n.c) + multiset(n.h.freed) + Ids(n'.h.next))[id];
    }
  }

  lemma FreeBalances(c: Conn, h: Heap)
    ensures Balanced(c, h, BufferFree(c, h)) && Balanced(c, h, Terminate(c, h))
  {
    if c.block.Block? {
      assert multiset(h.freed + [c.block.id]) == multiset(h.freed) + multiset{c.block.id};
    }
  }

  lemma AllocationBalances(c: Conn, h: Heap)
    ensures Balanced(c, h, Allocated(c, h))
  {
  }

  lemma VisitBalances(c: Conn, h: Heap)
    requires c.block.Block? && Sane(c.reader, MAX_REQUEST_BUF_SIZE)
    ensures Balanced(c, h, AfterVisit(c, h))
  {
    hide Sane, ReadRequest, CapacityRead, Ids;
    VisitAppends(c.reader, c.inbox, MAX_REQUEST_BUF_SIZE);
  }

  lemma ReadBalances(c: Conn, h: Heap)
    requires CanRead(c)
    ensures Balanced(c, h, ReadAndHandle(c, h))
  {
    hide Sane, ReadRequest, AfterVisit, Ids;
    RenewedIsSane(c.reader);
    var c0 := c.(state := Read, timeout := REQUEST_TIMEOUT);
    var n := Allocated(c0, h);
    AllocationBalances(c0, h);
    assert Balanced(c, h, n);
    var n' := AfterVisit(n.c, n.h);
    VisitBalances(n.c, n.h);
    BalancedTwice(c, h, n, n');
    FreeBalances(n'.c, n'.h);
    BalancedTwice(c, h, n', Terminate(n'.c, n'.h));
  }

  lemma SameHolding(c: Conn, h: Heap, n: Next, c0: Conn, c1: Conn)
    requires Balanced(c, h, n)
    requires c0.block == c.block && c0.reader == c.reader && c1.block == n.c.block && c1.reader == n.c.reader
    ensures Balanced(c0, h, Next(c1, n.h))
  {
    hide Ids;
  }

  lemma WriteBalances(c: Conn, h: Heap, w: Written)
    requires CanWrite(c)
    ensures Balanced(c, h, WriteAndHandle(c, h, w))
  {
    hide Sane, ReadAndHandle, Balanced, BufferFree;
    var c1 := WriteSocket(c, w);
    var rc := WriteCode(c1, w);
    var c2 := c1.(timeout := if rc.WriteSuccess? then KEEP_ALIVE_TIMEOUT else REQUEST_TIMEOUT);
    var n := BufferFree(c2, h);
    FreeBalances(c2, h);
    SameHolding(c2, h, n, c, n.c);
    match rc
    case WriteContinue => NothingBalances(c2, h); SameHolding(c2, h, Next(c2, h), c, c2);
    case WriteChunk => SameHolding(c, h, n, c, n.c.(state := Nop));
    case WriteSuccess =>
      FreeGivesNull(c2, h);
      ReadBalances(n.c, n.h);
      BalancedTwice(c, h, n, ReadAndHandle(n.c, n.h));
    case _ =>
      FreeBalances(n.c, n.h);
      BalancedTwice(c, h, n, Terminate(n.c, n.h));
  }

  lemma NothingBalances(c: Conn, h: Heap)
    ensures Balanced(c, h, Next(c, h))
  {
  }

  lemma FreeGivesNull(c: Conn, h: Heap)
    ensures BufferFree(c, h).c.block.Null?
  {
  }

  /** A new allocation takes the place of the one held so far. */
  lemma ReplacingBalances(c: Conn, h: Heap, c': Conn)
    requires c'.block == Block(h.next)
    ensures var n := BufferFree(c, h.(memused := h.memused + c'.reader.b.capacity, next := h.next + 1));
      Balanced(c, h, Next(c', n.h))
  {
    hide Ids;
    var freed := BufferFree(c, h).h.freed;
    assert Owned(c') == multiset{h.next};
    assert Ids(h.next + 1) == Ids(h.next) + multiset{h.next} by { OneMoreId(h.next); }
    assert multiset(freed) == multiset(h.freed) + Owned(c);
  }

  lemma OneMoreId(n: nat)
    ensures Ids(n + 1) == Ids(n) + multiset{n}
  {
  }

  lemma ResponseBalances(c: Conn, h: Heap, r: Reply, detected: bool, junks: seq<string>)
    requires CanReply(c, r, detected, junks)
    ensures Balanced(c, h, PerformResponse(c, h, r, detected, junks))
  {
    hide ReplyPieces, Run, JunkFor, Inside, Balanced;
    ReplacingBalances(c, h, PerformResponse(c, h, r, detected, junks).c);
  }

  lemma ReplyBalances(c: Conn, h: Heap, r: Reply, detected: bool, junks: seq<string>, w: Written)
    requires CanReply(c, r, detected, junks)
    ensures Balanced(c, h, RespondAndWrite(c, h, r, detected, junks, w))
  {
    hide ReplyPieces, Run, JunkFor, Inside, WriteAndHandle, Balanced;
    var n := PerformResponse(c, h, r, detected, junks);
    ResponseBalances(c, h, r, detected, junks);
    ReplyIsNotEmpty(r, KeepAliveFor(c, r, detected), c.chunked, junks);
    WriteBalances(n.c, n.h, w);
    BalancedTwice(c, h, n, WriteAndHandle(n.c, n.h, w));
  }

  lemma TimerBalances(c: Conn, h: Heap)
    ensures Balanced(c, h, OnTimer(c, h))
  {
    hide Ids;
    FreeBalances(c.(timeout := c.timeout - 1), h);
  }

  // --- the server ---

  datatype Server = Server(conns: seq<Conn>, h: Heap)

  const FRESH_SERVER := Server([], Heap(0, 0, [], 0))

  /** What can happen: a client connects, a socket is ready, a second passes for a connection, or user
      code reacts to a callback. `arrivals` and `w` are what the reads and writes of the event find, `mem` is
      the memory the accessors look at: the buffer, and whatever lies behind it. */
  datatype Event =
    | Accept(date: string, junks: seq<string>, arrivals: seq<Arrival>, w: Written)
    | Ready(i: nat, arrivals: seq<Arrival>, w: Written)
    | Tick(i: nat)
    | ReadChunk(i: nat, arrivals: seq<Arrival>)
    | RespondTo(i: nat, r: Reply, mem: string, junks: seq<string>, w: Written)
    | SetKeepAlive(i: nat, on: bool)
    | FreeBuffer(i: nat)

  /** The reply to a client that is turned away. */
  function Refusal(date: string): Reply {
    Whole(503, "Service Unavailable", date, [Header("Content-Type", "text/plain")], "Service Unavailable")
  }

  /** Its text fits the initial buffer with any date the server prints (at most 31 characters). */
  lemma RefusalFits(date: string, keepAlive: bool)
    requires |date| < 32
    ensures Safe(Refusal(date), keepAlive, false) && Short(Refusal(date), keepAlive, false)
  {
    hide Joined, Inside, JunkFor;
    var head := ReplyHead(Refusal(date), keepAlive, false);
    var headers := [ConnectionHeader(keepAlive), Header("Content-Type", "text/plain")];
    HeadPiecesText(503, "Service Unavailable", date, false, 19, headers);
    assert [ConnectionHeader(keepAlive)] + [Header("Content-Type", "text/plain")] == headers;
    assert headers[..1] == [headers[0]] && [headers[0]][..0] == [];
    assert |HeaderLine(headers[0])| <= 24 && |HeaderLine(headers[1])| <= 26;
    assert |HeaderLines([headers[0]])| <= 24;
    assert |HeaderLines(headers)| < 100;
    assert |Joined(head)| < RESPONSE_BUF_SIZE;
    PrintsThen(0, RESPONSE_BUF_SIZE, head, [Copy("Service Unavailable")]);
    CopiesFit(|Joined(head)|, RESPONSE_BUF_SIZE, [Copy("Service Unavailable")]);
    FitsIsInside(0, RESPONSE_BUF_SIZE, head + [Copy("Service Unavailable")]);
  }

  predicate Busy(h: Heap) { h.memused > MAX_TOTAL_EST_MEM_USAGE }

  /** User code reacts once to each callback, so it acts on a connection in the state NOP only. */
  ghost predicate Enabled(s: Server, e: Event) {
    if e.Accept? then Busy(s.h) ==> CanReply(NewConn(), Refusal(e.date), false, e.junks)
    else
      && e.i < |s.conns| && s.conns[e.i].open
      && (!e.Ready? && !e.Tick? ==> s.conns[e.i].state.Nop?)
      && (e.RespondTo? ==>
            Sees(s.conns[e.i], e.r, e.mem) && CanReply(s.conns[e.i], e.r, Detected(s.conns[e.i], e.mem), e.junks))
  }

  lemma EnabledIsThere(s: Server, e: Event)
    requires Enabled(s, e)
    ensures !e.Accept? ==> e.i < |s.conns|
  {
  }

  /** The connection an event concerns, as the event finds it. */
  function Subject(s: Server, e: Event): Conn
    requires !e.Accept? ==> e.i < |s.conns|
  {
    if e.Accept? then NewConn() else s.conns[e.i]
  }

  /** What an event does to the connection it concerns. */
  ghost function Handle(c: Conn, h: Heap, e: Event): Next
    requires e.Accept? ==> c == NewConn() && (Busy(h) ==> CanReply(c, Refusal(e.date), false, e.junks))
    requires !e.Accept? ==> Well(c) && c.open && (!e.Ready? && !e.Tick? ==> c.state.Nop?)
    requires e.RespondTo? ==> CanReply(c, e.r, Detected(c, e.mem), e.junks)
  {
    match e
    case Accept(date, junks, arrivals, w) =>
      var c' := c.(inbox := arrivals);
      if Busy(h) then RespondAndWrite(c', h, Refusal(date), false, junks, w) else ReadAndHandle(c', h)
    case Ready(_, arrivals, w) => OnSocket(c, h, arrivals, w)
    case Tick(_) => OnTimer(c, h)
    case ReadChunk(_, arrivals) => ReadAndHandle(c.(inbox := c.inbox + arrivals), h)
    case RespondTo(_, r, mem, junks, w) => RespondAndWrite(c, h, r, Detected(c, mem), junks, w)
    case SetKeepAlive(_, on) => Next(c.(automatic := false, keepAlive := on), h)
    case FreeBuffer(_) => BufferFree(c, h)
  }

  lemma HandleKeepsWell(c: Conn, h: Heap, e: Event)
    requires e.Accept? ==> c == NewConn() && (Busy(h) ==> CanReply(c, Refusal(e.date), false, e.junks))
    requires !e.Accept? ==> Well(c) && c.open && (!e.Ready? && !e.Tick? ==> c.state.Nop?)
    requires e.RespondTo? ==> CanReply(c, e.r, Detected(c, e.mem), e.junks)
    ensures Well(Handle(c, h, e).c)
  {
    hide ReadAndHandle, WriteAndHandle, RespondAndWrite, CanReply, Sane;
    match e
    case Accept(date, junks, arrivals, w) =>
      var c' := c.(inbox := arrivals);
      if Busy(h) {
        RespondOnAccept(c, arrivals, Refusal(date), junks); ReplyKeepsWell(c', h, Refusal(date), false, junks, w);
      }
      else { ReadKeepsWell(c', h); }
    case Ready(_, arrivals, w) =>
      var c' := c.(inbox := c.inbox + arrivals);
      if c.state.Read? { ReadKeepsWell(c', h); }
      else if c.state.Write? { WriteKeepsWell(c', h, w); }
    case Tick(_) => TimerKeepsWell(c, h);
    case ReadChunk(_, arrivals) => ReadKeepsWell(c.(inbox := c.inbox + arrivals), h);
    case RespondTo(_, r, mem, junks, w) => ReplyKeepsWell(c, h, r, Detected(c, mem), junks, w);
    case SetKeepAlive(_, on) =>
    case FreeBuffer(_) =>
  }

  lemma RespondOnAccept(c: Conn, arrivals: seq<Arrival>, r: Reply, junks: seq<string>)
    ensures CanReply(c, r, false, junks) ==> CanReply(c.(inbox := arrivals), r, false, junks)
  {
    hide Safe, JunkFor, ReplyPieces;
  }

  lemma HandleBalances(c: Conn, h: Heap, e: Event)
    requires e.Accept? ==> c == NewConn() && (Busy(h) ==> CanReply(c, Refusal(e.date), false, e.junks))
    requires !e.Accept? ==> Well(c) && c.open && (!e.Ready? && !e.Tick? ==> c.state.Nop?)
    requires e.RespondTo? ==> CanReply(c, e.r, Detected(c, e.mem), e.junks)
    ensures Balanced(c, h, Handle(c, h, e))
  {
    hide ReadAndHandle, WriteAndHandle, RespondAndWrite, CanReply, Sane, Balanced, BufferFree, OnTimer;
    var c' := c.(inbox := if e.Accept? then e.arrivals else if e.Ready? || e.ReadChunk? then c.inbox + e.arrivals
                          else c.inbox);
    var n := Handle(c, h, e);
    match e
    case Accept(date, junks, arrivals, w) =>
      if Busy(h) {
        RespondOnAccept(c, arrivals, Refusal(date), junks); ReplyBalances(c', h, Refusal(date), false, junks, w);
      }
      else { ReadBalances(c', h); }
      SameHolding(c', h, n, c, n.c);
    case Ready(_, arrivals, w) =>
      NothingBalances(c', h);
      if c.state.Read? { ReadBalances(c', h); }
      else if c.state.Write? { WriteBalances(c', h, w); }
      SameHolding(c', h, n, c, n.c);
    case Tick(_) => TimerBalances(c, h);
    case ReadChunk(_, arrivals) =>
      ReadBalances(c', h);
      SameHolding(c', h, n, c, n.c);
    case RespondTo(_, r, mem, junks, w) => ReplyBalances(c, h, r, Detected(c, mem), junks, w);
    case SetKeepAlive(_, on) =>
      NothingBalances(c, h);
      SameHolding(c, h, Next(c, h), c, n.c);
    case FreeBuffer(_) => FreeBalances(c, h);
  }

  /** The event writes to the socket of the connection. */
  predicate Writes(c: Conn, h: Heap, e: Event) {
    if e.Accept? then Busy(h) else e.RespondTo? || (e.Ready? && c.state.Write?)
  }

  /** A broken pipe closes the connection, kept alive or not and whatever is left to write, and the buffer is
      released; nothing more goes out. */
  lemma BrokenPipeCloses(s: Server, e: Event)
    requires AllWell(s) && Enabled(s, e) && Writes(Subject(s, e), s.h, e) && e.w.Broken?
    ensures var c, n := Subject(s, e), Handle(Subject(s, e), s.h, e);
      && !n.c.open && n.c.block.Null? && n.c.wire == c.wire
      && n.h.freed == s.h.freed + (if c.block.Block? then [c.block.id] else [])
                                + (if e.Ready? then [] else [s.h.next])
  {
    hide ReadAndHandle, PerformResponse, CanReply, Sane, Honest, ReplyPieces, Run, JunkFor, Inside;
    var c, h := Subject(s, e), s.h;
    match e
    case Accept(date, junks, arrivals, w) =>
      RespondOnAccept(c, arrivals, Refusal(date), junks);
      BrokenReply(c.(inbox := arrivals), h, Refusal(date), false, junks, w);
    case Ready(_, arrivals, w) => BrokenWrite(c.(inbox := c.inbox + arrivals), h, w);
    case RespondTo(_, r, mem, junks, w) => BrokenReply(c, h, r, Detected(c, mem), junks, w);
  }

  lemma BrokenWrite(c: Conn, h: Heap, w: Written)
    requires CanWrite(c) && w.Broken?
    ensures var n := WriteAndHandle(c, h, w);
      !n.c.open && n.c.block.Null? && n.c.wire == c.wire && n.h.freed == h.freed + [c.block.id]
  {
    hide ReadAndHandle;
    assert c.wire + c.reader.b.mem[c.written..c.written] == c.wire;
  }

  lemma BrokenReply(c: Conn, h: Heap, r: Reply, detected: bool, junks: seq<string>, w: Written)
    requires CanReply(c, r, detected, junks) && w.Broken?
    ensures var n := RespondAndWrite(c, h, r, detected, junks, w);
      && !n.c.open && n.c.block.Null? && n.c.wire == c.wire
      && n.h.freed == h.freed + (if c.block.Block? then [c.block.id] else []) + [h.next]
  {
    hide WriteAndHandle, ReplyPieces, Run, JunkFor, Inside;
    ReplyIsNotEmpty(r, KeepAliveFor(c, r, detected), c.chunked, junks);
    var n := PerformResponse(c, h, r, detected, junks);
    BrokenWrite(n.c, n.h, w);
  }

  ghost predicate AllWell(s: Server) { forall i :: 0 <= i < |s.conns| ==> Well(s.conns[i]) }

  /** One event; one that is not enabled does not happen. */
  ghost function Do(s: Server, e: Event): (s': Server)
    requires AllWell(s)
    ensures AllWell(s') && |s.conns| <= |s'.conns|
  {
    if !Enabled(s, e) then s
    else
      var n := Handle(Subject(s, e), s.h, e);
      HandleKeepsWell(Subject(s, e), s.h, e);
      Server(if e.Accept? then s.conns + [n.c] else s.conns[e.i := n.c], n.h)
  }

  /** The server after any events, in any order. */
  ghost function After(events: seq<Event>): (s: Server)
    ensures AllWell(s)
  {
    if events == [] then FRESH_SERVER else Do(After(events[..|events| - 1]), events[|events| - 1])
  }

  /** Releasing the buffer and giving a directive change nothing else. */
  lemma NothingElseChanges(s: Server, i: nat, on: bool)
    requires AllWell(s) && Enabled(s, FreeBuffer(i)) && Enabled(s, SetKeepAlive(i, on))
    ensures Do(s, FreeBuffer(i)).conns[i] == s.conns[i].(block := Null)
    ensures Do(s, SetKeepAlive(i, on)) == s.(conns := s.conns[i := s.conns[i].(automatic := false, keepAlive := on)])
  {
    hide Well, CanReply;
  }

  // --- the ledger, over all runs ---

  function AllHeld(conns: seq<Conn>): int {
    if conns == [] then 0 else AllHeld(conns[..|conns| - 1]) + Held(conns[|conns| - 1])
  }

  function AllOwned(conns: seq<Conn>): multiset<nat> {
    if conns == [] then multiset{} else AllOwned(conns[..|conns| - 1]) + Owned(conns[|conns| - 1])
  }

  lemma Shift(a: multiset<nat>, a': multiset<nat>, own: multiset<nat>, own': multiset<nat>, other: multiset<nat>)
    requires a' + own == a + own'
    ensures (a' + other) + own == (a + other) + own'
  {
    forall id: nat ensures ((a' + other) + own)[id] == ((a + other) + own')[id] {
      assert (a' + own)[id] == (a + own')[id];
    }
  }

  lemma {:induction false} OneChanged(conns: seq<Conn>, i: nat, c: Conn)
    requires i < |conns|
    ensures AllHeld(conns[i := c]) == AllHeld(conns) - Held(conns[i]) + Held(c)
    ensures AllOwned(conns[i := c]) + Owned(conns[i]) == AllOwned(conns) + Owned(c)
  {
    hide Held, Owned;
    var n := |conns| - 1;
    if i == n {
      assert conns[i := c][..n] == conns[..n];
    } else {
      assert conns[i := c][..n] == conns[..n][i := c];
      OneChanged(conns[..n], i, c);
      Shift(AllOwned(conns[..n]), AllOwned(conns[..n][i := c]), Owned(conns[i]), Owned(c), Owned(conns[n]));
    }
  }

  lemma OneAdded(conns: seq<Conn>, c: Conn)
    ensures AllHeld(conns + [c]) == AllHeld(conns) + Held(c)
    ensures AllOwned(conns + [c]) == AllOwned(conns) + Owned(c)
  {
    assert (conns + [c])[..|conns + [c]| - 1] == conns;
  }

  ghost predicate LedgerExact(s: Server) {
    s.h.memused == AllHeld(s.conns) - s.h.uncounted && 0 <= s.h.uncounted &&
    AllOwned(s.conns) + multiset(s.h.freed) == Ids(s.h.next)
  }

  /** An event that balances one connection balances the whole. */
  lemma Balances(s: Server, c: Conn, n: Next, conns': seq<Conn>)
    requires LedgerExact(s) && Balanced(c, s.h, n)
    requires AllHeld(conns') == AllHeld(s.conns) - Held(c) + Held(n.c)
    requires AllOwned(conns') + Owned(c) == AllOwned(s.conns) + Owned(n.c)
    ensures LedgerExact(Server(conns', n.h)) && s.h.uncounted <= n.h.uncounted && s.h.freed <= n.h.freed
  {
    hide Ids, Held, Owned, AllHeld, AllOwned;
    var all, all', own, own' := AllOwned(s.conns), AllOwned(conns'), Owned(c), Owned(n.c);
    forall id: nat ensures (all' + multiset(n.h.freed))[id] == Ids(n.h.next)[id] {
      assert (all' + own)[id] == (all + own')[id];
      assert (all + multiset(s.h.freed))[id] == Ids(s.h.next)[id];
      assert (own' + multiset(n.h.freed) + Ids(s.h.next))[id] == (own + multiset(s.h.freed) + Ids(n.h.next))[id];
    }
  }

  lemma DoKeepsLedger(s: Server, e: Event)
    requires AllWell(s) && LedgerExact(s)
    ensures LedgerExact(Do(s, e)) && s.h.uncounted <= Do(s, e).h.uncounted && s.h.freed <= Do(s, e).h.freed
  {
    hide Handle, LedgerExact, Balanced, AllHeld, AllOwned, Well, CanReply;
    if Enabled(s, e) {
      var c := Subject(s, e);
      var n := Handle(c, s.h, e);
      HandleBalances(c, s.h, e);
      if e.Accept? {
        OneAdded(s.conns, n.c);
        assert Held(c) == 0 && Owned(c) == multiset{};
      } else {
        OneChanged(s.conns, e.i, n.c);
      }
      Balances(s, c, n, Do(s, e).conns);
    }
  }

  /** After any run the estimate is the sum of the capacities of all buffers alive, less the growth made
      by the parser, which it never sees; that debt only grows. */
  lemma {:induction false} LedgerIsExact(events: seq<Event>)
    ensures LedgerExact(After(events))
  {
    if events != [] {
      LedgerIsExact(events[..|events| - 1]);
      DoKeepsLedger(After(events[..|events| - 1]), events[|events| - 1]);
    }
  }

  lemma {:induction false} EachIdOnce(n: nat, id: nat)
    ensures Ids(n)[id] == if id < n then 1 else 0
  {
    if n > 0 {
      EachIdOnce(n - 1, id);
    }
  }

  lemma {:induction false} OwnersCounted(conns: seq<Conn>, id: nat)
    ensures AllOwned(conns)[id] <= 1 ==>
      forall i, j :: 0 <= i < j < |conns| && conns[i].block == Block(id) ==> conns[j].block != Block(id)
    ensures AllOwned(conns)[id] > 0 <==> exists i :: 0 <= i < |conns| && conns[i].block == Block(id)
  {
    if conns != [] {
      var before := conns[..|conns| - 1];
      OwnersCounted(before, id);
      forall i | 0 <= i < |before| ensures conns[i] == before[i] {}
      if conns[|conns| - 1].block != Block(id) {
        assert AllOwned(conns)[id] == AllOwned(before)[id];
      }
    }
  }

  /** Every buffer ever allocated, of requests and responses alike, is either held by exactly one connection
      or has been released exactly once. */
  lemma BuffersAreReleasedOnce(events: seq<Event>, id: nat)
    requires id < After(events).h.next
    ensures var s := After(events);
      && (forall i, j :: 0 <= i < j < |s.conns| && s.conns[i].block == Block(id) ==> s.conns[j].block != Block(id))
      && multiset(s.h.freed)[id] == if exists i :: 0 <= i < |s.conns| && s.conns[i].block == Block(id) then 0 else 1
  {
    hide After, AllOwned, Ids;
    var s := After(events);
    LedgerIsExact(events);
    assert (AllOwned(s.conns) + multiset(s.h.freed))[id] == Ids(s.h.next)[id];
    EachIdOnce(s.h.next, id);
    OwnersCounted(s.conns, id);
  }

  // --- timeouts ---

  predicate Concerns(e: Event, i: nat) { !e.Accept? && e.i == i }

  /** No socket and no user activity on the connection. */
  ghost predicate Idle(events: seq<Event>, i: nat) {
    forall k :: 0 <= k < |events| && Concerns(events[k], i) ==> events[k].Tick?
  }

  function Ticks(events: seq<Event>, i: nat): nat {
    if events == [] then 0 else Ticks(events[..|events| - 1], i) + if Concerns(events[|events| - 1], i) then 1 else 0
  }

  ghost predicate TimingOut(c: Conn, c': Conn, ticks: nat) {
    if ticks < c.timeout then c' == c.(timeout := c.timeout - ticks) else !c'.open && c'.block.Null?
  }

  lemma {:induction false} RunOn(before: seq<Event>, events: seq<Event>)
    requires events != []
    ensures (before + events)[..|before + events| - 1] == before + events[..|events| - 1]
    ensures After(before + events) == Do(After(before + events[..|events| - 1]), events[|events| - 1])
  {
    assert (before + events)[..|before + events| - 1] == before + events[..|events| - 1];
  }

  lemma OthersAreLeftAlone(s: Server, e: Event, i: nat)
    requires AllWell(s) && i < |s.conns| && !Concerns(e, i)
    ensures Do(s, e).conns[i] == s.conns[i]
  {
    hide Handle, Well, CanReply;
  }

  /** An idle connection is closed, its buffer released, by exactly as many timer events as its timeout
      says, however the events of other connections are interleaved; before that nothing else changes. */
  lemma {:induction false} IdleConnectionsTimeOut(before: seq<Event>, events: seq<Event>, i: nat)
    requires i < |After(before).conns| && After(before).conns[i].open && Idle(events, i)
    ensures i < |After(before + events).conns|
    ensures TimingOut(After(before).conns[i], After(before + events).conns[i], Ticks(events, i))
  {
    hide After, Do, Well, CanReply;
    if events == [] {
      assert before + events == before;
      TimeoutIsPositive(After(before), i);
    } else {
      var n := |events| - 1;
      var e := events[n];
      forall k | 0 <= k < n ensures events[..n][k] == events[k] {}
      IdleConnectionsTimeOut(before, events[..n], i);
      RunOn(before, events);
      var s := After(before + events[..n]);
      if Concerns(e, i) {
        TickOnce(s, i);
      } else {
        OthersAreLeftAlone(s, e, i);
      }
    }
  }

  /** Every read and every write, be it partial, starts the timeout anew; nothing else but a timer event touches it. */
  lemma ActivityStartsTheTimeout(s: Server, e: Event)
    requires AllWell(s) && Enabled(s, e) && !e.Tick?
    ensures var c, n := Subject(s, e), Handle(Subject(s, e), s.h, e);
      n.c.timeout == if e.SetKeepAlive? || e.FreeBuffer? || (e.Ready? && c.state.Nop?)
        then c.timeout else REQUEST_TIMEOUT
  {
    hide ReadAndHandle, WriteAndHandle, RespondAndWrite, CanReply, Sane;
    var c, h := Subject(s, e), s.h;
    match e
    case Accept(date, junks, arrivals, w) =>
      var c' := c.(inbox := arrivals);
      if Busy(h) {
        RespondOnAccept(c, arrivals, Refusal(date), junks);
        ReplyStartsTheTimeout(c', h, Refusal(date), false, junks, w);
      } else {
        ReadStartsTheTimeout(c', h);
      }
    case Ready(_, arrivals, w) =>
      var c' := c.(inbox := c.inbox + arrivals);
      if c.state.Read? {
        ReadStartsTheTimeout(c', h);
      } else if c.state.Write? {
        WriteStartsTheTimeout(c', h, w);
      }
    case ReadChunk(_, arrivals) => ReadStartsTheTimeout(c.(inbox := c.inbox + arrivals), h);
    case RespondTo(_, r, mem, junks, w) => ReplyStartsTheTimeout(c, h, r, Detected(c, mem), junks, w);
    case _ =>
  }

  lemma ReadStartsTheTimeout(c: Conn, h: Heap)
    requires CanRead(c)
    ensures ReadAndHandle(c, h).c.timeout == REQUEST_TIMEOUT
  {
    hide Sane, ReadRequest, CapacityRead;
  }

  lemma WriteStartsTheTimeout(c: Conn, h: Heap, w: Written)
    requires CanWrite(c)
    ensures WriteAndHandle(c, h, w).c.timeout == REQUEST_TIMEOUT
  {
    hide ReadAndHandle;
    var n := BufferFree(WriteSocket(c, w).(timeout := KEEP_ALIVE_TIMEOUT), h);
    if WriteCode(WriteSocket(c, w), w).WriteSuccess? {
      ReadStartsTheTimeout(n.c, n.h);
    }
  }

  lemma ReplyStartsTheTimeout(c: Conn, h: Heap, r: Reply, detected: bool, junks: seq<string>, w: Written)
    requires CanReply(c, r, detected, junks)
    ensures RespondAndWrite(c, h, r, detected, junks, w).c.timeout == REQUEST_TIMEOUT
  {
    hide ReplyPieces, Run, JunkFor, Inside, WriteAndHandle;
    ReplyIsNotEmpty(r, KeepAliveFor(c, r, detected), c.chunked, junks);
    var n := PerformResponse(c, h, r, detected, junks);
    WriteStartsTheTimeout(n.c, n.h, w);
  }

  lemma TimeoutIsPositive(s: Server, i: nat)
    requires AllWell(s) && i < |s.conns| && s.conns[i].open
    ensures 0 < s.conns[i].timeout <= REQUEST_TIMEOUT
  {
    hide CanRead, CanWrite, Honest;
  }

  lemma TickOnce(s: Server, i: nat)
    requires AllWell(s) && i < |s.conns|
    ensures var c := s.conns[i]; var c' := Do(s, Tick(i)).conns[i];
      if !c.open then c' == c
      else if c.timeout > 1 then c' == c.(timeout := c.timeout - 1)
      else !c'.open && c'.block.Null?
  {
    hide CanReply, CanRead, CanWrite, Honest;
  }

  /** The longer timeout for connections kept alive is never in force: the read that follows at once sets
      the ordinary one, or closes the connection. */
  lemma KeepAliveTimeoutIsOverwritten(c: Conn, h: Heap, w: Written)
    requires CanWrite(c) && WriteCode(WriteSocket(c, w), w).WriteSuccess?
    ensures WriteAndHandle(c, h, w).c.timeout == REQUEST_TIMEOUT < KEEP_ALIVE_TIMEOUT
  {
    hide Sane;
  }
}

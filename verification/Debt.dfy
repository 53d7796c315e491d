/**
  The debt of the memory ledger: which events make the estimate fall behind, and by how much.
 */
module Debt {
  import opened Parser
  import opened ReadBuffer
  import opened ReadSocket
  import opened OutputBuffer
  import opened Respond
  import opened Growth
  import opened Connection
  import opened Server

  /** What a visit adds to the debt: if it completes the head of a request with a small body, and head and
      body need more than the buffer holds once it has been read into, then the difference. */
  ghost function Resize(r: Reader, incoming: seq<Arrival>): int
    requires Sane(r, MAX_REQUEST_BUF_SIZE)
  {
    var v := ReadRequest(r, incoming, MAX_REQUEST_BUF_SIZE);
    var capacity := CapacityRead(r, incoming, MAX_REQUEST_BUF_SIZE);
    if IsSmall(v.r.p.core.state) && !IsSmall(r.p.core.state) && Need(v.r.p.core, v.r.b) > capacity
    then Need(v.r.p.core, v.r.b) - capacity else 0
  }

  lemma VisitGrows(r: Reader, incoming: seq<Arrival>)
    requires Sane(r, MAX_REQUEST_BUF_SIZE)
    ensures var v := ReadRequest(r, incoming, MAX_REQUEST_BUF_SIZE);
      v.r.b.capacity == CapacityRead(r, incoming, MAX_REQUEST_BUF_SIZE) + Resize(r, incoming)
  {
    hide Dispatch, ReadLoop, Tidy, Need;
    var max := MAX_REQUEST_BUF_SIZE;
    if r.b.index >= r.b.length {
      ReadLoopIsAppend(r.b, incoming, max);
      var e := ReadLoop(r.b, incoming, max);
      if e.rc != 0 {
        DispatchGrows(r.(b := e.b.(sequenceId := NextSequence(e.b.sequenceId))), max);
      }
    } else {
      DispatchGrows(r, max);
    }
  }

  ghost function ReadDebt(c: Conn): int
    requires CanRead(c)
  {
    RenewedIsSane(c.reader);
    Resize(if c.block.Null? then Renewed(c.reader) else c.reader, c.inbox)
  }

  lemma ReadAddsDebt(c: Conn, h: Heap)
    requires CanRead(c)
    ensures ReadAndHandle(c, h).h.uncounted == h.uncounted + ReadDebt(c)
  {
    hide Sane, ReadRequest, CapacityRead, Resize;
    RenewedIsSane(c.reader);
    var n := Allocated(c.(state := Read, timeout := REQUEST_TIMEOUT), h);
    VisitAppends(n.c.reader, n.c.inbox, MAX_REQUEST_BUF_SIZE);
    VisitGrows(n.c.reader, n.c.inbox);
  }

  /** A write adds to the debt only by the read that follows a response on a connection kept alive. */
  ghost function WriteDebt(c: Conn, w: Written): int
    requires CanWrite(c)
  {
    var c' := WriteSocket(c, w);
    if WriteCode(c', w).WriteSuccess? then ReadDebt(c'.(block := Null)) else 0
  }

  lemma WriteAddsDebt(c: Conn, h: Heap, w: Written)
    requires CanWrite(c)
    ensures WriteAndHandle(c, h, w).h.uncounted == h.uncounted + WriteDebt(c, w)
  {
    hide Sane, ReadAndHandle, Resize;
    var n := BufferFree(WriteSocket(c, w).(timeout := KEEP_ALIVE_TIMEOUT), h);
    if WriteCode(WriteSocket(c, w), w).WriteSuccess? {
      ReadAddsDebt(n.c, n.h);
    }
  }

  ghost function ReplyDebt(c: Conn, h: Heap, r: Reply, detected: bool, junks: seq<string>, w: Written): int
    requires CanReply(c, r, detected, junks)
  {
    ReplyIsNotEmpty(r, KeepAliveFor(c, r, detected), c.chunked, junks);
    WriteDebt(PerformResponse(c, h, r, detected, junks).c, w)
  }

  lemma ReplyAddsDebt(c: Conn, h: Heap, r: Reply, detected: bool, junks: seq<string>, w: Written)
    requires CanReply(c, r, detected, junks)
    ensures RespondAndWrite(c, h, r, detected, junks, w).h.uncounted
      == h.uncounted + ReplyDebt(c, h, r, detected, junks, w)
  {
    hide ReplyPieces, Run, JunkFor, Inside, WriteAndHandle, WriteDebt;
    ReplyIsNotEmpty(r, KeepAliveFor(c, r, detected), c.chunked, junks);
    var n := PerformResponse(c, h, r, detected, junks);
    WriteAddsDebt(n.c, n.h, w);
  }

  /** What an event adds to the debt. */
  ghost function EventDebt(c: Conn, h: Heap, e: Event): int
    requires e.Accept? ==> c == NewConn() && (Busy(h) ==> CanReply(c, Refusal(e.date), false, e.junks))
    requires !e.Accept? ==> Well(c) && c.open && (!e.Ready? && !e.Tick? ==> c.state.Nop?)
    requires e.RespondTo? ==> CanReply(c, e.r, Detected(c, e.mem), e.junks)
  {
    match e
    case Accept(date, junks, arrivals, w) =>
      var c' := c.(inbox := arrivals);
      if Busy(h) then ReplyDebt(c', h, Refusal(date), false, junks, w) else ReadDebt(c')
    case Ready(_, arrivals, w) =>
      var c' := c.(inbox := c.inbox + arrivals);
      if c.state.Read? then ReadDebt(c') else if c.state.Write? then WriteDebt(c', w) else 0
    case ReadChunk(_, arrivals) => ReadDebt(c.(inbox := c.inbox + arrivals))
    case RespondTo(_, r, mem, junks, w) => ReplyDebt(c, h, r, Detected(c, mem), junks, w)
    case _ => 0
  }

  lemma HandleAddsDebt(c: Conn, h: Heap, e: Event)
    requires e.Accept? ==> c == NewConn() && (Busy(h) ==> CanReply(c, Refusal(e.date), false, e.junks))
    requires !e.Accept? ==> Well(c) && c.open && (!e.Ready? && !e.Tick? ==> c.state.Nop?)
    requires e.RespondTo? ==> CanReply(c, e.r, Detected(c, e.mem), e.junks)
    ensures Handle(c, h, e).h.uncounted == h.uncounted + EventDebt(c, h, e)
  {
    hide ReadAndHandle, WriteAndHandle, RespondAndWrite, CanReply, Sane, ReadDebt, WriteDebt, ReplyDebt;
    match e
    case Accept(date, junks, arrivals, w) =>
      var c' := c.(inbox := arrivals);
      if Busy(h) {
        RespondOnAccept(c, arrivals, Refusal(date), junks); ReplyAddsDebt(c', h, Refusal(date), false, junks, w);
      }
      else { ReadAddsDebt(c', h); }
    case Ready(_, arrivals, w) =>
      var c' := c.(inbox := c.inbox + arrivals);
      if c.state.Read? { ReadAddsDebt(c', h); }
      else if c.state.Write? { WriteAddsDebt(c', h, w); }
    case Tick(_) =>
    case ReadChunk(_, arrivals) => ReadAddsDebt(c.(inbox := c.inbox + arrivals), h);
    case RespondTo(_, r, mem, junks, w) => ReplyAddsDebt(c, h, r, Detected(c, mem), junks, w);
    case SetKeepAlive(_, on) =>
    case FreeBuffer(_) =>
  }

  /** The debt of a run: the sum of what its events add. */
  ghost function DebtOf(events: seq<Event>): int {
    if events == [] then 0
    else
      var s := After(events[..|events| - 1]);
      var e := events[|events| - 1];
      DebtOf(events[..|events| - 1]) + if Enabled(s, e) then EventDebt(Subject(s, e), s.h, e) else 0
  }

  lemma {:induction false} DebtIsUncounted(events: seq<Event>)
    ensures After(events).h.uncounted == DebtOf(events)
  {
    hide Handle, EventDebt, Well, CanReply;
    if events != [] {
      var before := events[..|events| - 1];
      DebtIsUncounted(before);
      var s, e := After(before), events[|events| - 1];
      if Enabled(s, e) {
        HandleAddsDebt(Subject(s, e), s.h, e);
      }
    }
  }

  /** After every run the estimate falls short of the sum of the capacities of all live buffers by exactly
      the resizes the parser has made for small bodies. */
  lemma EstimateLessTheResizes(events: seq<Event>)
    ensures After(events).h.memused == AllHeld(After(events).conns) - DebtOf(events)
  {
    hide After, AllHeld, DebtOf;
    LedgerIsExact(events);
    DebtIsUncounted(events);
  }
}

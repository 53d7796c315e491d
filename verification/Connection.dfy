/**
  One connection and the memory it owns: reading, replying, writing, timing out and closing,
  as functions of the connection and of the server's memory ledger.
 */
module Connection {
  import opened Automaton
  import Accessors
  import opened Parser
  import opened ReadBuffer
  import opened ReadSocket
  import opened OutputBuffer
  import opened Respond

  datatype SessionState = Init | Read | Write | Nop

  const REQUEST_TIMEOUT := 20
  const KEEP_ALIVE_TIMEOUT := 120
  const REQUEST_BUF_SIZE := 1024
  const MAX_REQUEST_BUF_SIZE := 8388608

  /** A pointer to an allocation; allocations are numbered in the order in which they are made. */
  datatype Pointer = Null | Block(id: nat)

  /** A reply as it was made: with the keep-alive decision that went into it. */
  datatype Answered = Answered(reply: Reply, keepAlive: bool)

  /** A connection. `block` is the buffer's allocation and `inbox` what has arrived at the socket;
      `wire` are the bytes the socket has accepted, `promised` those of all replies, `answers` the replies. */
  datatype Conn = Conn(
    open: bool, state: SessionState, timeout: int,
    keepAlive: bool, automatic: bool, chunked: bool,
    block: Pointer, reader: Reader, inbox: seq<Arrival>, written: nat,
    wire: string, promised: string, answers: seq<Answered>)

  datatype Next = Next(c: Conn, h: Heap)

  // --- buffers ---

  /** Releases the buffer, if there is one. */
  function BufferFree(c: Conn, h: Heap): Next {
    match c.block
    case Null => Next(c, h)
    case Block(id) => Next(c.(block := Null), h.(memused := h.memused - c.reader.b.capacity, freed := h.freed + [id]))
  }

  function Terminate(c: Conn, h: Heap): Next {
    var n := BufferFree(c, h);
    n.(c := n.c.(open := false))
  }

  /** The reader with a new buffer and a new parser; the token array stays. */
  function Renewed(r: Reader): Reader {
    Reader(FRESH_PARSER, Buffer("", REQUEST_BUF_SIZE, 0, 0, 0, 0), r.tokens, r.calls)
  }

  function BufferInit(c: Conn, h: Heap): Next {
    Next(c.(block := Block(h.next), reader := Renewed(c.reader)),
      h.(memused := h.memused + REQUEST_BUF_SIZE, next := h.next + 1))
  }

  // --- reading ---

  predicate Announces(t: Token) { t.kind.HeadersDone? && (t.Streamed() || t.NoBody()) }

  predicate AnyAnnounces(tokens: seq<Token>) { exists i :: 0 <= i < |tokens| && Announces(tokens[i]) }

  lemma AnyOfBoth(a: seq<Token>, b: seq<Token>)
    ensures AnyAnnounces(a + b) <==> AnyAnnounces(a) || AnyAnnounces(b)
  {
    forall i | 0 <= i < |a| ensures (a + b)[i] == a[i] {}
    forall i | 0 <= i < |b| ensures (a + b)[|a| + i] == b[i] {}
  }

  /** The capacity after the read calls of a visit, before any token is taken. */
  function CapacityRead(r: Reader, incoming: seq<Arrival>, max: int): int
    requires Fits(r.b, max)
  {
    if r.b.index >= r.b.length then ReadLoop(r.b, incoming, max).b.capacity else r.b.capacity
  }

  /** What a visit of the reader leaves behind. A callback runs in the state NOP; announcing a body, or
      none, sets the bit that also stands for keep-alive. */
  function Visited(c: Conn, v: Visit): Conn
    requires |c.reader.tokens| <= |v.r.tokens|
  {
    var news := v.r.tokens[|c.reader.tokens|..];
    c.(reader := v.r, inbox := v.incoming,
       state := if v.r.calls == c.reader.calls then Read else Nop,
       keepAlive := c.keepAlive || AnyAnnounces(news))
  }

  lemma {:induction false} DispatchAppends(r: Reader, max: int)
    requires r.b.Valid() && Tidy(r.p.core)
    ensures r.tokens <= Dispatch(r, max).tokens && r.calls <= Dispatch(r, max).calls
    decreases r.b.length - r.b.index
  {
    hide Exec;
    ExecConsumes(r.p, r.b, max);
    var o := Exec(r.p, r.b, max);
    if !Returns(o.token) {
      DispatchAppends(Take(r, o), max);
    }
  }

  /** A run of the dispatch loop that announces a body, or none, is one that ends with calling the handler at the
      end of a head. */
  lemma {:induction false} DispatchAnnounces(r: Reader, max: int)
    requires r.b.Valid() && Tidy(r.p.core)
    ensures r.tokens <= Dispatch(r, max).tokens
    ensures var d := Dispatch(r, max);
      AnyAnnounces(d.tokens[|r.tokens|..]) <==>
        d.calls == r.calls + [Handler] && d.tokens != [] && d.tokens[|d.tokens| - 1].kind.HeadersDone?
    ensures Dispatch(r, max).calls != r.calls ==> |Dispatch(r, max).tokens| > |r.tokens|
    decreases r.b.length - r.b.index
  {
    hide Exec, AnyAnnounces;
    ExecConsumes(r.p, r.b, max);
    DispatchAppends(r, max);
    var o := Exec(r.p, r.b, max);
    var d, news := Dispatch(r, max), Dispatch(r, max).tokens[|r.tokens|..];
    OneTokenAnnounces(o.token);
    if Returns(o.token) {
      assert news == TokensFor(o.token);
    } else {
      DispatchAnnounces(Take(r, o), max);
      assert r.calls + [] == r.calls;
      assert news == TokensFor(o.token) + d.tokens[|Take(r, o).tokens|..];
      AnyOfBoth(TokensFor(o.token), d.tokens[|Take(r, o).tokens|..]);
    }
  }

  lemma OneTokenAnnounces(t: Token)
    ensures AnyAnnounces(TokensFor(t)) <==>
      CallsFor(t) == [Handler] && TokensFor(t) != [] && TokensFor(t)[|TokensFor(t)| - 1].kind.HeadersDone?
    ensures !Returns(t) ==> CallsFor(t) == [] && |TokensFor(t)| == 1
    ensures CallsFor(t) == [Handler] ==> TokensFor(t) == [t]
    ensures CallsFor(t) != [] ==> TokensFor(t) != []
  {
    assert t.kind.HeadersDone? ==> TokensFor(t)[0] == t;
  }

  lemma VisitAppends(r: Reader, incoming: seq<Arrival>, max: int)
    requires Sane(r, max)
    ensures var v := ReadRequest(r, incoming, max); r.tokens <= v.r.tokens && r.calls <= v.r.calls
    ensures var v := ReadRequest(r, incoming, max); r.b.capacity <= CapacityRead(r, incoming, max) <= v.r.b.capacity
  {
    hide Dispatch, ReadLoop;
    if r.b.index >= r.b.length {
      ReadLoopIsAppend(r.b, incoming, max);
      var e := ReadLoop(r.b, incoming, max);
      var r' := r.(b := e.b.(sequenceId := NextSequence(e.b.sequenceId)));
      assert Sane(r', max);
      if e.rc != 0 {
        DispatchAppends(r', max);
        DispatchKeepsSane(r', max);
      }
    } else {
      DispatchAppends(r, max);
      DispatchKeepsSane(r, max);
    }
  }

  /** The reader may be called: it has no buffer yet, or is between two visits. */
  ghost predicate CanRead(c: Conn) { c.block.Null? || Sane(c.reader, MAX_REQUEST_BUF_SIZE) }

  lemma RenewedIsSane(r: Reader)
    ensures Sane(Renewed(r), MAX_REQUEST_BUF_SIZE)
  {
  }

  function Allocated(c: Conn, h: Heap): Next {
    if c.block.Null? then BufferInit(c, h) else Next(c, h)
  }

  /** A visit of the reader; growth of the buffer while reading is counted, growth while parsing is not. */
  ghost function AfterVisit(c: Conn, h: Heap): Next
    requires Sane(c.reader, MAX_REQUEST_BUF_SIZE)
  {
    VisitAppends(c.reader, c.inbox, MAX_REQUEST_BUF_SIZE);
    var v := ReadRequest(c.reader, c.inbox, MAX_REQUEST_BUF_SIZE);
    var counted := CapacityRead(c.reader, c.inbox, MAX_REQUEST_BUF_SIZE) - c.reader.b.capacity;
    Next(Visited(c, v),
         h.(memused := h.memused + counted,
            uncounted := h.uncounted + (v.r.b.capacity - c.reader.b.capacity - counted)))
  }

  /** Reads and dispatches; the end of the input closes the connection. */
  ghost function ReadAndHandle(c: Conn, h: Heap): Next
    requires CanRead(c)
  {
    RenewedIsSane(c.reader);
    var n := Allocated(c.(state := Read, timeout := REQUEST_TIMEOUT), h);
    var n' := AfterVisit(n.c, n.h);
    if ReadRequest(n.c.reader, n.c.inbox, MAX_REQUEST_BUF_SIZE).rc.SocketError? then Terminate(n'.c, n'.h) else n'
  }

  // --- writing ---

  datatype WriteRc = WriteContinue | WriteSuccess | WriteChunk | WriteClose | WriteError

  function Accepted(c: Conn, w: Written): nat
    requires c.written <= c.reader.b.length
  {
    var left := c.reader.b.length - c.written;
    if w.Took? then (if w.n < left then w.n else left) else 0
  }

  function WriteSocket(c: Conn, w: Written): Conn
    requires c.written <= c.reader.b.length <= |c.reader.b.mem|
  {
    var n := Accepted(c, w);
    c.(wire := c.wire + c.reader.b.mem[c.written..c.written + n], written := c.written + n)
  }

  /** The return code, when the bytes have been handed over. */
  function WriteCode(c: Conn, w: Written): WriteRc {
    if w.Broken? then WriteError
    else if c.written != c.reader.b.length then WriteContinue
    else if c.chunked then WriteChunk
    else if c.keepAlive then WriteSuccess
    else WriteClose
  }

  /** There is something left to write. */
  ghost predicate CanWrite(c: Conn) {
    c.block.Block? && c.written < c.reader.b.length <= |c.reader.b.mem| && 0 < c.reader.b.capacity
  }

  ghost function WriteAndHandle(c: Conn, h: Heap, w: Written): Next
    requires CanWrite(c)
  {
    var c1 := WriteSocket(c, w);
    var rc := WriteCode(c1, w);
    var c2 := c1.(timeout := if rc.WriteSuccess? then KEEP_ALIVE_TIMEOUT else REQUEST_TIMEOUT);
    var n := if rc.WriteContinue? then Next(c2, h) else BufferFree(c2, h);
    match rc
    case WriteClose => Terminate(n.c, n.h)
    case WriteError => Terminate(n.c, n.h)
    case WriteSuccess => ReadAndHandle(n.c, n.h)
    case WriteChunk => Next(n.c.(state := Nop), n.h)
    case WriteContinue => n
  }

  // --- replying ---

  predicate SerializesHead(r: Reply, started: bool) { r.Whole? || (r.ChunkOf? && !started) }

  /** What the tokens of the connection say about keeping it alive, `mem` being the memory they point into. */
  predicate Detected(c: Conn, mem: string) { Accessors.KeepsAlive(c.reader.tokens, mem, c.keepAlive) }

  /** If the reply needs that, `mem` starts with the buffer and is long enough for all tokens. */
  ghost predicate Sees(c: Conn, r: Reply, mem: string) {
    c.automatic && SerializesHead(r, c.chunked) ==>
      Accessors.Detectable(c.reader.tokens, mem) && (c.block.Block? ==> c.reader.b.mem <= mem)
  }

  /** The keep-alive decision as of the reply: `detected` if it is left to the server. */
  predicate KeepAliveFor(c: Conn, r: Reply, detected: bool) {
    if c.automatic && SerializesHead(r, c.chunked) then detected else c.keepAlive
  }

  ghost predicate CanReply(c: Conn, r: Reply, detected: bool, junks: seq<string>) {
    Safe(r, KeepAliveFor(c, r, detected), c.chunked)
      && JunkFor(ReplyPieces(r, KeepAliveFor(c, r, detected), c.chunked), junks)
  }

  /** Serializes the reply into a new allocation, releases the request's and puts the new one in its place. */
  ghost function PerformResponse(c: Conn, h: Heap, r: Reply, detected: bool, junks: seq<string>): Next
    requires CanReply(c, r, detected, junks)
  {
    var keep := KeepAliveFor(c, r, detected);
    var o := Run(Out("", RESPONSE_BUF_SIZE), ReplyPieces(r, keep, c.chunked), junks);
    var n := BufferFree(c, h.(memused := h.memused + o.capacity, next := h.next + 1));
    Next(n.c.(block := Block(h.next), written := 0, state := Write,
              keepAlive := keep, chunked := StartedAfter(r, c.chunked),
              reader := c.reader.(b := c.reader.b.(mem := o.text, length := |o.text|, capacity := o.capacity)),
              promised := c.promised + o.text, answers := c.answers + [Answered(r, keep)]),
         n.h)
  }

  /** A reply is never empty. */
  lemma ReplyIsNotEmpty(r: Reply, keep: bool, started: bool, junks: seq<string>)
    requires Safe(r, keep, started) && JunkFor(ReplyPieces(r, keep, started), junks)
    ensures var o := Run(Out("", RESPONSE_BUF_SIZE), ReplyPieces(r, keep, started), junks); 0 < |o.text| <= o.capacity
  {
    var pieces := ReplyPieces(r, keep, started);
    assert pieces + [] == pieces;
    Room(Out("", RESPONSE_BUF_SIZE), pieces, [], junks);
    FirstPieceIsNotEmpty(r, keep, started);
    assert Joined(pieces) == pieces[0].s + Joined(pieces[1..]);
    RunKeepsPrefix(Out("", RESPONSE_BUF_SIZE), pieces, junks);
  }

  lemma FirstPieceIsNotEmpty(r: Reply, keep: bool, started: bool)
    ensures var pieces := ReplyPieces(r, keep, started); pieces != [] && |pieces[0].s| > 0
  {
  }

  ghost function RespondAndWrite(c: Conn, h: Heap, r: Reply, detected: bool, junks: seq<string>, w: Written): Next
    requires CanReply(c, r, detected, junks)
  {
    var n := PerformResponse(c, h, r, detected, junks);
    ReplyIsNotEmpty(r, KeepAliveFor(c, r, detected), c.chunked, junks);
    WriteAndHandle(n.c, n.h, w)
  }

  /** Reading and writing make no reply. */
  ghost predicate SameAnswers(c: Conn, c': Conn) {
    c'.answers == c.answers && c'.chunked == c.chunked && c'.promised == c.promised
  }

  lemma ReadKeepsAnswers(c: Conn, h: Heap)
    requires CanRead(c)
    ensures SameAnswers(c, ReadAndHandle(c, h).c)
  {
    hide Sane, CapacityRead, ReadRequest;
  }

  lemma WriteKeepsAnswers(c: Conn, h: Heap, w: Written)
    requires CanWrite(c)
    ensures SameAnswers(c, WriteAndHandle(c, h, w).c)
  {
    hide Sane, ReadAndHandle;
    var n := BufferFree(WriteSocket(c, w).(timeout := KEEP_ALIVE_TIMEOUT), h);
    if WriteCode(WriteSocket(c, w), w).WriteSuccess? {
      ReadKeepsAnswers(n.c, n.h);
    }
  }

  // --- events of a connection ---

  /** The socket is ready; what that means depends on the session state. */
  ghost function OnSocket(c: Conn, h: Heap, arrivals: seq<Arrival>, w: Written): Next
    requires c.state.Read? ==> CanRead(c)
    requires c.state.Write? ==> CanWrite(c)
  {
    var c := c.(inbox := c.inbox + arrivals);
    if c.state.Read? then ReadAndHandle(c, h)
    else if c.state.Write? then WriteAndHandle(c, h, w)
    else Next(c, h)
  }

  /** A second has passed. */
  function OnTimer(c: Conn, h: Heap): Next {
    var c := c.(timeout := c.timeout - 1);
    if c.timeout == 0 then Terminate(c, h) else Next(c, h)
  }

  function NewConn(): Conn {
    Conn(true, Init, REQUEST_TIMEOUT, false, true, false, Null,
         Reader(FRESH_PARSER, Buffer("", 0, 0, 0, 0, 0), [], []), [], 0, "", "", [])
  }
}

/**
  The event handlers of a connection, on the request object, its socket and the ledger, each proved
  against the function of module Connection that says what it does.
 */
module IoEvents {
  import opened Automaton
  import opened HeadRoundTrip
  import opened ParserObject
  import opened ReadBuffer
  import opened ReadSocket
  import opened OutputBuffer
  import opened Respond
  import opened Connection
  import opened RequestObject
  import RequestUtil
  import Server

  /** Gives the buffer back, unless that has been done. */
  method BufferFree(request: HttpRequest)
    requires request.Valid()
    modifies request`holding, request`block, request.ledger
    ensures request.Valid()
    ensures var n := Connection.BufferFree(old(request.Value()), old(request.ledger.View()));
      request.Value() == n.c && request.ledger.View() == n.h
  {
    var ledger := request.ledger;
    if request.holding {
      ledger.memused := ledger.memused - request.buffer.capacity;
      ledger.freed := ledger.freed + [request.block.id];
      request.holding := false;
      request.block := Null;
    }
  }

  method TerminateConnection(request: HttpRequest)
    requires request.Valid()
    modifies request`holding, request`block, request`open, request.ledger
    ensures request.Valid()
    ensures var n := Terminate(old(request.Value()), old(request.ledger.View()));
      request.Value() == n.c && request.ledger.View() == n.h
  {
    BufferFree(request);
    request.open := false;
  }

  /** Reads, parses and makes callbacks; the end of the input closes the connection. */
  method ReadSocketAndHandleReturnCode(request: HttpRequest)
    requires request.Valid() && CanRead(request.Value())
    modifies request, request.parser, request.buffer, request.tokens, request.tokens.buf
    modifies request.socket`incoming, request.ledger
    ensures request.Valid() && (request.tokens.buf == old(request.tokens.buf) || fresh(request.tokens.buf))
    ensures var n := ReadAndHandle(old(request.Value()), old(request.ledger.View()));
      request.Value() == n.c && request.ledger.View() == n.h
  {
    hide AfterVisit, ReadRequest, Sane, Allocated;
    var rc := request.ReadRequestAndExecUserCb();
    if rc.SocketError? {
      TerminateConnection(request);
    }
  }

  method BeginRead(request: HttpRequest)
    requires request.Valid() && CanRead(request.Value())
    modifies request, request.parser, request.buffer, request.tokens, request.tokens.buf
    modifies request.socket`incoming, request.ledger
    ensures request.Valid() && (request.tokens.buf == old(request.tokens.buf) || fresh(request.tokens.buf))
    ensures var n := ReadAndHandle(old(request.Value()), old(request.ledger.View()));
      request.Value() == n.c && request.ledger.View() == n.h
  {
    hide AfterVisit, ReadRequest, Sane;
    request.state := Connection.Read;
    ReadSocketAndHandleReturnCode(request);
  }

  /** Writes as much as the socket takes, and says how far the response has got. */
  method WriteSocket(request: HttpRequest) returns (rc: WriteRc)
    requires request.Valid() && CanWrite(request.Value())
    modifies request`bytesWritten, request.socket`outgoing, request.socket`sent
    ensures request.Valid()
    ensures var w := old(request.socket.NextWrite());
      request.Value() == Connection.WriteSocket(old(request.Value()), w) && rc == WriteCode(request.Value(), w)
  {
    var buffer := request.buffer;
    var bytes, brokenPipe := request.socket.Write(buffer.mem[request.bytesWritten..buffer.length]);
    if bytes > 0 {
      request.bytesWritten := request.bytesWritten + bytes;
    }
    rc := WriteSuccess;
    if brokenPipe {
      rc := WriteError;
    } else if request.bytesWritten != buffer.length {
      rc := WriteContinue;
    } else if request.chunked {
      rc := WriteChunk;
    } else if !request.keepAlive {
      rc := WriteClose;
    }
  }

  method WriteSocketAndHandleReturnCode(request: HttpRequest)
    requires request.Valid() && CanWrite(request.Value())
    modifies request, request.parser, request.buffer, request.tokens, request.tokens.buf, request.socket, request.ledger
    ensures request.Valid() && (request.tokens.buf == old(request.tokens.buf) || fresh(request.tokens.buf))
    ensures var n := WriteAndHandle(old(request.Value()), old(request.ledger.View()), old(request.socket.NextWrite()));
      request.Value() == n.c && request.ledger.View() == n.h
  {
    hide ReadAndHandle, Connection.WriteSocket, Sane;
    var rc := WriteSocket(request);
    request.timeout := if rc.WriteSuccess? then KEEP_ALIVE_TIMEOUT else REQUEST_TIMEOUT;
    if !rc.WriteContinue? {
      BufferFree(request);
    }
    match rc
    case WriteClose => TerminateConnection(request);
    case WriteError => TerminateConnection(request);
    case WriteSuccess => BeginRead(request);
    case WriteChunk => request.state := Nop;
    case WriteContinue =>
  }

  method BeginWrite(request: HttpRequest)
    requires request.Valid() && CanWrite(request.Value())
    modifies request, request.parser, request.buffer, request.tokens, request.tokens.buf, request.socket, request.ledger
    ensures request.Valid() && (request.tokens.buf == old(request.tokens.buf) || fresh(request.tokens.buf))
    ensures var c := old(request.Value()).(state := Connection.Write);
      var n := WriteAndHandle(c, old(request.ledger.View()), old(request.socket.NextWrite()));
      request.Value() == n.c && request.ledger.View() == n.h
  {
    hide WriteAndHandle;
    request.state := Connection.Write;
    WriteSocketAndHandleReturnCode(request);
  }

  /** The socket of the connection is ready. */
  method OnClientConnectionEvent(request: HttpRequest)
    requires request.Valid()
    requires request.state.Read? ==> CanRead(request.Value())
    requires request.state.Write? ==> CanWrite(request.Value())
    modifies request, request.parser, request.buffer, request.tokens, request.tokens.buf, request.socket, request.ledger
    ensures request.Valid() && (request.tokens.buf == old(request.tokens.buf) || fresh(request.tokens.buf))
    ensures var n := OnSocket(old(request.Value()), old(request.ledger.View()), [], old(request.socket.NextWrite()));
      request.Value() == n.c && request.ledger.View() == n.h
  {
    hide ReadAndHandle, WriteAndHandle;
    assert request.Value().(inbox := request.Value().inbox + []) == request.Value();
    if request.state.Read? {
      ReadSocketAndHandleReturnCode(request);
    } else if request.state.Write? {
      WriteSocketAndHandleReturnCode(request);
    }
  }

  /** A second has passed. */
  method OnRequestTimerEvent(request: HttpRequest)
    requires request.Valid()
    modifies request`timeout, request`holding, request`block, request`open, request.ledger
    ensures request.Valid()
    ensures var n := OnTimer(old(request.Value()), old(request.ledger.View()));
      request.Value() == n.c && request.ledger.View() == n.h
  {
    request.timeout := request.timeout - 1;
    if request.timeout == 0 {
      TerminateConnection(request);
    }
  }

  // --- replies ---

  /** The buffer takes the place, the length and the capacity of the output. */
  method SetOutput(buffer: HshBuffer, ctx: GrowBuf)
    requires ctx.Valid() && ctx.size <= ctx.buf.Length
    modifies buffer
    ensures buffer.View() == old(buffer.View()).(mem := ctx.text, length := |ctx.text|, capacity := ctx.buf.Length)
  {
    buffer.mem, buffer.length, buffer.capacity := ctx.buf[..ctx.size], ctx.size, ctx.buf.Length;
    assert buffer.mem == ctx.text;
  }

  /** The request takes over the allocation of the output buffer. */
  method TakeOver(request: HttpRequest, ctx: GrowBuf, keepAlive: bool, chunked: bool, ghost id: nat,
      ghost answer: Answered)
    requires request.Valid() && ctx.Valid() && ctx.size <= ctx.buf.Length
    modifies request`holding, request`block, request`keepAlive, request`chunked, request`bytesWritten, request`state
    modifies request`promised, request`answers, request.buffer
    ensures request.Valid()
    ensures var c := old(request.Value()); var o := ctx.View();
      var b := c.reader.b.(mem := o.text, length := |o.text|, capacity := o.capacity);
      request.Value() == c.(block := Block(id), written := 0, state := Connection.Write,
                            keepAlive := keepAlive, chunked := chunked, reader := c.reader.(b := b),
                            promised := c.promised + o.text, answers := c.answers + [answer])
  {
    SetOutput(request.buffer, ctx);
    request.keepAlive, request.chunked := keepAlive, chunked;
    request.holding, request.block := true, Block(id);
    request.promised := request.promised + ctx.text;
    request.answers := request.answers + [answer];
    request.bytesWritten := 0;
    request.state := Connection.Write;
  }

  lemma FreeLeavesTheRest(c: Conn, h: Heap)
    ensures Connection.BufferFree(c, h).c == c.(block := Null)
  {
  }

  /** Puts the serialized reply in the place of the request's buffer. */
  method InstallResponse(request: HttpRequest, ctx: GrowBuf, keepAlive: bool, chunked: bool,
                         ghost c: Conn, ghost h: Heap, ghost r: Reply, ghost detected: bool, ghost junks: seq<string>)
    requires request.Valid() && request.Value() == c
    requires CanReply(c, r, detected, junks) && Carries(ctx, r, KeepAliveFor(c, r, detected), c.chunked, junks)
    requires keepAlive == KeepAliveFor(c, r, detected) && chunked == StartedAfter(r, c.chunked)
    requires request.ledger.View() == h.(memused := h.memused + ctx.buf.Length)
    modifies request, request.buffer, request.ledger
    ensures request.Valid()
    ensures var n := Connection.PerformResponse(c, h, r, detected, junks);
      request.Value() == n.c && request.ledger.View() == n.h
  {
    hide ReplyPieces, JunkFor, Inside, Run, Connection.BufferFree, Safe;
    var ledger := request.ledger;
    ghost var h' := h.(memused := h.memused + ctx.buf.Length, next := h.next + 1);
    FreeLeavesTheRest(c, h');
    ghost var id := ledger.next;
    ledger.next := ledger.next + 1;
    assert ledger.View() == h' && request.Value() == c;
    BufferFree(request);
    TakeOver(request, ctx, keepAlive, chunked, id, Answered(r, keepAlive));
  }

  /** Puts the serialized reply in place, and starts writing it. */
  method PerformResponse(request: HttpRequest, ctx: GrowBuf, keepAlive: bool, chunked: bool,
                         ghost c: Conn, ghost h: Heap, ghost r: Reply, ghost detected: bool, ghost junks: seq<string>)
    requires request.Valid() && request.Value() == c
    requires CanReply(c, r, detected, junks) && Carries(ctx, r, KeepAliveFor(c, r, detected), c.chunked, junks)
    requires keepAlive == KeepAliveFor(c, r, detected) && chunked == StartedAfter(r, c.chunked)
    requires request.ledger.View() == h.(memused := h.memused + ctx.buf.Length)
    modifies request, request.parser, request.buffer, request.tokens, request.tokens.buf, request.socket, request.ledger
    ensures request.Valid() && (request.tokens.buf == old(request.tokens.buf) || fresh(request.tokens.buf))
    ensures var n := RespondAndWrite(c, h, r, detected, junks, old(request.socket.NextWrite()));
      request.Value() == n.c && request.ledger.View() == n.h
  {
    hide WriteAndHandle, ReplyPieces, JunkFor, Inside, Run;
    ReplyIsNotEmpty(r, keepAlive, c.chunked, junks);
    InstallResponse(request, ctx, keepAlive, chunked, c, h, r, detected, junks);
    BeginWrite(request);
  }

  /** The keep-alive decision, if it is left to the server: what the tokens of the connection say. */
  method DecideKeepAlive(request: HttpRequest, mem: string) returns (keepAlive: bool)
    requires request.Valid() && (request.automatic ==> Accessors.Detectable(request.tokens.Contents(), mem))
    ensures keepAlive == if request.automatic then Detected(request.Value(), mem) else request.keepAlive
  {
    keepAlive := request.keepAlive;
    if request.automatic {
      keepAlive := RequestUtil.DetectKeepAlive(request.tokens, mem, request.keepAlive);
    }
  }

  /** A whole response. */
  method RequestRespond(request: HttpRequest, response: HttpResponse, mem: string, reason: string, date: string)
    returns (ghost junks: seq<string>)
    requires request.Valid()
    requires var c, r := request.Value(), WholeReply(response, reason, date);
      Sees(c, r, mem) && Safe(r, KeepAliveFor(c, r, Detected(c, mem)), c.chunked)
    modifies request, request.parser, request.buffer, request.tokens, request.tokens.buf, request.socket, request.ledger
    modifies response`headers
    ensures request.Valid() && (request.tokens.buf == old(request.tokens.buf) || fresh(request.tokens.buf))
    ensures var c, r := old(request.Value()), old(WholeReply(response, reason, date)); var detected := Detected(c, mem);
      && CanReply(c, r, detected, junks)
      && var n := RespondAndWrite(c, old(request.ledger.View()), r, detected, junks, old(request.socket.NextWrite()));
         request.Value() == n.c && request.ledger.View() == n.h
  {
    hide RespondAndWrite, Safe, ReplyPieces, JunkFor, Run;
    ghost var c, h, r := request.Value(), request.ledger.View(), WholeReply(response, reason, date);
    var keepAlive := DecideKeepAlive(request, mem);
    var ctx: GrowBuf;
    ctx, junks := RespondWhole(response, keepAlive, request.chunked, reason, date, request.ledger);
    PerformResponse(request, ctx, keepAlive, request.chunked, c, h, r, Detected(c, mem), junks);
  }

  /** A chunk of a chunked response; the first one brings the head. */
  method RequestRespondChunk(request: HttpRequest, response: HttpResponse, mem: string, reason: string, date: string)
    returns (ghost junks: seq<string>)
    requires request.Valid()
    requires var c, r := request.Value(), ChunkReply(response, reason, date);
      Sees(c, r, mem) && Safe(r, KeepAliveFor(c, r, Detected(c, mem)), c.chunked)
    modifies request, request.parser, request.buffer, request.tokens, request.tokens.buf, request.socket, request.ledger
    modifies response`headers
    ensures request.Valid() && (request.tokens.buf == old(request.tokens.buf) || fresh(request.tokens.buf))
    ensures var c, r := old(request.Value()), old(ChunkReply(response, reason, date)); var detected := Detected(c, mem);
      && CanReply(c, r, detected, junks)
      && var n := RespondAndWrite(c, old(request.ledger.View()), r, detected, junks, old(request.socket.NextWrite()));
         request.Value() == n.c && request.ledger.View() == n.h
  {
    hide RespondAndWrite, Safe, ReplyPieces, JunkFor, Run;
    ghost var c, h, r := request.Value(), request.ledger.View(), ChunkReply(response, reason, date);
    var keepAlive := request.keepAlive;
    if !request.chunked {
      keepAlive := DecideKeepAlive(request, mem);
    }
    var ctx: GrowBuf;
    ctx, junks := RespondChunk(response, keepAlive, request.chunked, reason, date, request.ledger);
    PerformResponse(request, ctx, keepAlive, true, c, h, r, Detected(c, mem), junks);
  }

  /** The end of a chunked response. */
  method RequestRespondChunkEnd(request: HttpRequest, response: HttpResponse, ghost detected: bool)
      returns (ghost junks: seq<string>)
    requires request.Valid() && Safe(LastChunk(response.headers), request.keepAlive, request.chunked)
    modifies request, request.parser, request.buffer, request.tokens, request.tokens.buf, request.socket, request.ledger
    ensures request.Valid() && (request.tokens.buf == old(request.tokens.buf) || fresh(request.tokens.buf))
    ensures var c, r := old(request.Value()), LastChunk(response.headers);
      && CanReply(c, r, detected, junks)
      && var n := RespondAndWrite(c, old(request.ledger.View()), r, detected, junks, old(request.socket.NextWrite()));
         request.Value() == n.c && request.ledger.View() == n.h
  {
    hide RespondAndWrite, Safe, ReplyPieces, JunkFor, Run;
    ghost var c, h, r := request.Value(), request.ledger.View(), LastChunk(response.headers);
    var ctx: GrowBuf;
    ctx, junks := RespondChunkEnd(response, request.keepAlive, request.chunked, request.ledger);
    PerformResponse(request, ctx, request.keepAlive, false, c, h, r, detected, junks);
  }

  // --- accepting ---

  /** A short reply for errors; a code that is no status is replaced by 500. */
  method RespondError(request: HttpRequest, code: int, mem: string, reason: string, message: string, date: string)
    returns (ghost junks: seq<string>, ghost r: Reply)
    requires request.Valid()
    requires var r := Whole(if 100 <= code <= 599 then code else 500, reason, date,
                            [Header("Content-Type", "text/plain")], message);
      var c := request.Value(); Sees(c, r, mem) && Safe(r, KeepAliveFor(c, r, Detected(c, mem)), c.chunked)
    modifies request, request.parser, request.buffer, request.tokens, request.tokens.buf, request.socket, request.ledger
    ensures request.Valid() && (request.tokens.buf == old(request.tokens.buf) || fresh(request.tokens.buf))
    ensures r == Whole(if 100 <= code <= 599 then code else 500, reason, date,
                       [Header("Content-Type", "text/plain")], message)
    ensures var c := old(request.Value()); var detected := Detected(c, mem);
      && CanReply(c, r, detected, junks)
      && var n := RespondAndWrite(c, old(request.ledger.View()), r, detected, junks, old(request.socket.NextWrite()));
         request.Value() == n.c && request.ledger.View() == n.h
  {
    hide RespondAndWrite, Safe, CanReply;
    var response := new HttpResponse();
    response.SetStatus(code);
    response.SetHeader("Content-Type", "text/plain");
    response.SetBody(message);
    r := WholeReply(response, reason, date);
    assert r.headers == [Header("Content-Type", "text/plain")];
    junks := RequestRespond(request, response, mem, reason, date);
  }

  lemma NothingDetected(tokens: seq<Token>)
    ensures tokens == [] ==> Accessors.Detectable(tokens, "") && !Accessors.KeepsAlive(tokens, "", false)
  {
  }

  /** A new connection is refused while the estimate is above the limit; otherwise its first request is read. */
  method BeginRequestCycle(socket: Socket, ledger: Ledger, date: string)
    returns (request: HttpRequest, ghost junks: seq<string>)
    requires |date| < 32 && socket.sent == ""
    modifies socket, ledger
    ensures request.Valid() && request.socket == socket && request.ledger == ledger
    ensures fresh(request) && fresh(request.parser) && fresh(request.buffer)
    ensures fresh(request.tokens) && fresh(request.tokens.buf)
    ensures var h := old(ledger.View());
      && (Server.Busy(h) ==> CanReply(NewConn(), Server.Refusal(date), false, junks))
      && var n := Server.Handle(NewConn(), h, Server.Accept(date, junks, old(socket.incoming),
        old(socket.NextWrite())));
         request.Value() == n.c && ledger.View() == n.h
  {
    hide RespondAndWrite, ReadAndHandle, Safe, JunkFor, ReplyPieces;
    request := new HttpRequest(socket, ledger);
    junks := [];
    Server.RefusalFits(date, false);
    if ledger.memused > Server.MAX_TOTAL_EST_MEM_USAGE {
      ghost var r: Reply;
      NothingDetected(request.Value().reader.tokens);
      junks, r := RespondError(request, 503, "", "Service Unavailable", "Service Unavailable", date);
    } else {
      BeginRead(request);
    }
  }

  /** The server after accepting clients one by one. */
  ghost function Accepting(s: Server.Server, events: seq<Server.Event>): (s': Server.Server)
    requires Server.AllWell(s)
    ensures Server.AllWell(s')
  {
    if events == [] then s else Server.Do(Accepting(s, events[..|events| - 1]), events[|events| - 1])
  }

  lemma AcceptingNone(s: Server.Server)
    requires Server.AllWell(s)
    ensures Accepting(s, []) == s
  {
  }

  lemma AcceptingOneMore(s: Server.Server, events: seq<Server.Event>, e: Server.Event)
    requires Server.AllWell(s) && e.Accept? && Server.Enabled(Accepting(s, events), e)
    ensures var before := Accepting(s, events);
      var n := Server.Handle(NewConn(), before.h, e);
      Accepting(s, events + [e]) == Server.Server(before.conns + [n.c], n.h)
  {
    hide Server.Handle;
    assert (events + [e])[..|events + [e]| - 1] == events;
  }

  /** Every client that is waiting is accepted, in order, and the ledger moves along. */
  method AcceptAndBeginRequestCycle(clients: seq<Socket>, ledger: Ledger, date: string, ghost s: Server.Server)
    returns (requests: seq<HttpRequest>, ghost events: seq<Server.Event>)
    requires |date| < 32 && forall i :: 0 <= i < |clients| ==> clients[i].sent == ""
    requires forall i, j :: 0 <= i < j < |clients| ==> clients[i] != clients[j]
    requires Server.AllWell(s) && s.h == ledger.View()
    modifies clients, ledger
    ensures |requests| == |events| == |clients|
    ensures forall i :: 0 <= i < |clients| ==>
      && requests[i].Valid() && requests[i].socket == clients[i] && requests[i].ledger == ledger
      && events[i].Accept? && events[i].date == date
      && events[i].arrivals == old(clients[i].incoming) && events[i].w == old(clients[i].NextWrite())
    ensures var s' := Accepting(s, events);
      && |s'.conns| == |s.conns| + |clients| && s.conns <= s'.conns && s'.h == ledger.View()
      && forall i :: 0 <= i < |clients| ==> s'.conns[|s.conns| + i] == requests[i].Value()
  {
    hide Server.Handle, Server.AllWell, Accepting, CanReply, HttpRequest.Value, HttpRequest.Valid;
    requests, events := [], [];
    AcceptingNone(s);
    while |requests| < |clients|
      invariant |requests| == |events| <= |clients|
      invariant forall i :: |requests| <= i < |clients| ==>
        clients[i].incoming == old(clients[i].incoming) && clients[i].NextWrite() == old(clients[i].NextWrite())
        && clients[i].sent == ""
      invariant forall i :: 0 <= i < |requests| ==>
        && fresh(requests[i]) && fresh(requests[i].parser) && fresh(requests[i].buffer)
        && fresh(requests[i].tokens) && fresh(requests[i].tokens.buf)
      invariant forall i :: 0 <= i < |requests| ==>
        && requests[i].Valid() && requests[i].socket == clients[i] && requests[i].ledger == ledger
        && events[i].Accept? && events[i].date == date
        && events[i].arrivals == old(clients[i].incoming) && events[i].w == old(clients[i].NextWrite())
      invariant Server.AllWell(s)
      invariant var s' := Accepting(s, events);
        && |s'.conns| == |s.conns| + |requests| && s.conns <= s'.conns && s'.h == ledger.View()
        && forall i :: 0 <= i < |requests| ==> s'.conns[|s.conns| + i] == requests[i].Value()
    {
      var client := clients[|requests|];
      ghost var h, w, arrivals := ledger.View(), client.NextWrite(), client.incoming;
      ghost var before := Accepting(s, events);
      var request, junks := BeginRequestCycle(client, ledger, date);
      ghost var e := Server.Accept(date, junks, arrivals, w);
      AcceptingOneMore(s, events, e);
      requests, events := requests + [request], events + [e];
    }
  }
}

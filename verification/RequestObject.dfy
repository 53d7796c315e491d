/**
  The request object: its growing token array, the loop that dispatches tokens to user
  callbacks, and the reader, proved against the functions of modules ReadSocket and Connection.
 */
module RequestObject {
  import opened Automaton
  import P = Parser
  import opened ParserObject
  import opened ReadBuffer
  import opened ReadSocket
  import opened Connection

  class TokenArray {
    var buf: array<Token>
    var size: nat

    ghost predicate Valid()
      reads this
    {
      0 < buf.Length && size <= buf.Length
    }

    ghost function Contents(): seq<Token>
      reads this, buf
      requires Valid()
    {
      buf[..size]
    }

    constructor (capacity: nat)
      requires 0 < capacity
      ensures Valid() && fresh(buf) && Contents() == [] && buf.Length == capacity
    {
      buf := new Token[capacity](_ => NO_TOKEN);
      size := 0;
    }

    /** Appends a token; a full array is replaced by one of twice the capacity. */
    method Push(a: Token)
      requires Valid()
      modifies this, buf
      ensures Valid() && (buf == old(buf) || fresh(buf))
      ensures Contents() == old(Contents()) + [a]
      ensures buf.Length == if old(size) == old(buf.Length) then 2 * old(buf.Length) else old(buf.Length)
    {
      if size == buf.Length {
        var bigger := new Token[2 * buf.Length](i requires 0 <= i < 2 * buf.Length reads this, buf =>
          if i < buf.Length then buf[i] else NO_TOKEN);
        assert bigger[..size] == buf[..size];
        buf := bigger;
      }
      buf[size] := a;
      size := size + 1;
    }
  }

  class HttpRequest {
    const parser: HshParser
    const buffer: HshBuffer
    const tokens: TokenArray
    const socket: Socket
    const ledger: Ledger
    var open: bool
    var state: SessionState
    var timeout: int
    var keepAlive: bool
    var automatic: bool
    var chunked: bool
    var holding: bool
    var bytesWritten: nat
    var calls: seq<Call>
    ghost var block: Pointer
    ghost var promised: string
    ghost var answers: seq<Answered>

    ghost predicate Valid()
      reads this, parser, tokens
    {
      !parser.ready && tokens.Valid() && (holding <==> block.Block?)
    }

    ghost function View(): Reader
      reads this, parser, buffer, tokens, tokens.buf
      requires Valid()
    {
      Reader(parser.View(), buffer.View(), tokens.Contents(), calls)
    }

    /** The connection this object and its socket stand for. */
    ghost function Value(): Conn
      reads this, parser, buffer, tokens, tokens.buf, socket
      requires Valid()
    {
      Conn(open, state, timeout, keepAlive, automatic, chunked, block, View(), socket.incoming, bytesWritten,
           socket.sent, promised, answers)
    }

    /** A connection as it is accepted. */
    constructor (socket: Socket, ledger: Ledger)
      ensures this.socket == socket && this.ledger == ledger
      ensures Valid() && fresh(parser) && fresh(buffer) && fresh(tokens) && fresh(tokens.buf)
      ensures Value() == NewConn().(inbox := socket.incoming, wire := socket.sent)
    {
      this.socket, this.ledger := socket, ledger;
      parser := new HshParser();
      buffer := new HshBuffer(0);
      tokens := new TokenArray(32);
      open, state, timeout, calls := true, Init, REQUEST_TIMEOUT, [];
      keepAlive, automatic, chunked, holding, bytesWritten := false, true, false, false, 0;
      block, promised, answers := Null, "", [];
    }

    /** A callback runs in the state NOP, with what it is about on top of the token array; what the user does in
        it is a later step. */
    method ExecCallback(call: Call)
      requires Valid() && OnTop(call, tokens.Contents())
      modifies this`state, this`calls
      ensures state == Nop && calls == old(calls) + [call]
    {
      state := Nop;
      calls := calls + [call];
    }

    /** A small body goes to the handler, a piece to the chunk callback; behind the last piece of a large body comes
        a token of length zero. */
    method HandOutBody(token: Token)
      requires Valid() && token.kind.Body?
      modifies this`state, this`calls, tokens, tokens.buf
      ensures Valid() && (tokens.buf == old(tokens.buf) || fresh(tokens.buf))
      ensures tokens.Contents() == old(tokens.Contents()) + TokensFor(token)
      ensures calls == old(calls) + CallsFor(token) && state == Nop
    {
      tokens.Push(token);
      if token.Small() {
        ExecCallback(Handler);
      } else if token.Final() && token.len > 0 {
        ExecCallback(Chunk(token));
        tokens.Push(END_OF_BODY);
        ExecCallback(Chunk(END_OF_BODY));
      } else {
        ExecCallback(Chunk(token));
      }
    }

    /** Files a token and makes the callbacks it calls for; `last` if the loop over the tokens ends with it. */
    method HandOut(token: Token) returns (last: bool)
      requires Valid()
      modifies this`state, this`calls, this`keepAlive, tokens, tokens.buf
      ensures Valid() && (tokens.buf == old(tokens.buf) || fresh(tokens.buf))
      ensures tokens.Contents() == old(tokens.Contents()) + TokensFor(token)
      ensures calls == old(calls) + CallsFor(token) && last == Returns(token)
      ensures state == (if CallsFor(token) == [] then old(state) else Nop)
      ensures keepAlive == (old(keepAlive) || AnyAnnounces(TokensFor(token)))
    {
      hide AnyAnnounces;
      last := true;
      OneAnnounces(token);
      match token.kind
      case HeadersDone =>
        tokens.Push(token);
        if token.Streamed() || token.NoBody() {
          keepAlive := true;
          ExecCallback(Handler);
        } else {
          last := false;
        }
      case Body =>
        HandOutBody(token);
      case None =>
      case _ =>
        tokens.Push(token);
        last := false;
    }

    /** Takes tokens from the parser until one of them makes a callback, or there is none. */
    method ParseBufferAndExecUserCb(max: int)
      requires Valid() && buffer.View().Valid() && Tidy(parser.Core())
      modifies this`state, this`calls, this`keepAlive, parser, buffer, tokens, tokens.buf
      ensures Valid() && (tokens.buf == old(tokens.buf) || fresh(tokens.buf))
      ensures View() == Dispatch(old(View()), max) && old(tokens.Contents()) <= tokens.Contents()
      ensures state == if calls == old(calls) then old(state) else Nop
      ensures keepAlive == (old(keepAlive) || AnyAnnounces(tokens.Contents()[|old(tokens.Contents())|..]))
    {
      hide P.Exec, Tidy, AnyAnnounces;
      ghost var tokens0 := tokens.Contents();
      ghost var news: seq<Token> := [];
      NothingAnnounced([]);
      var last := false;
      while !last
        invariant Valid() && (tokens.buf == old(tokens.buf) || fresh(tokens.buf))
        invariant buffer.View().Valid() && Tidy(parser.Core())
        invariant Dispatch(old(View()), max) == if last then View() else Dispatch(View(), max)
        invariant |old(calls)| <= |calls| && calls[..|old(calls)|] == old(calls)
        invariant state == if calls == old(calls) then old(state) else Nop
        invariant !last ==> calls == old(calls)
        invariant tokens.Contents() == tokens0 + news && keepAlive == (old(keepAlive) || AnyAnnounces(news))
        decreases !last, buffer.length - buffer.index
      {
        ghost var before := View();
        ExecConsumes(before.p, before.b, max);
        var token := parser.Exec(buffer, max);
        last := HandOut(token);
        AnyOfBoth(news, TokensFor(token));
        news := news + TokensFor(token);
        assert View() == Take(before, P.Exec(before.p, before.b, max));
      }
      assert tokens.Contents()[|tokens0|..] == news;
    }

    /** Reads the socket if the buffer has been consumed, then dispatches. A request without a buffer is
        given a new one first, and a new parser. */
    method ReadRequestAndExecUserCb() returns (rc: ReadRc)
      requires Valid() && CanRead(Value())
      modifies this, parser, buffer, tokens, tokens.buf, socket`incoming, ledger
      ensures Valid() && (tokens.buf == old(tokens.buf) || fresh(tokens.buf))
      ensures var n := Allocated(old(Value()).(state := Read, timeout := REQUEST_TIMEOUT), old(ledger.View()));
        && Sane(n.c.reader, MAX_REQUEST_BUF_SIZE)
        && Value() == AfterVisit(n.c, n.h).c && ledger.View() == AfterVisit(n.c, n.h).h
        && rc == ReadRequest(n.c.reader, n.c.inbox, MAX_REQUEST_BUF_SIZE).rc
    {
      hide AfterVisit, ReadRequest, Sane;
      RenewedIsSane(View());
      state := Read;
      timeout := REQUEST_TIMEOUT;
      if !holding {
        BufferInit();
      }
      rc := Visit();
    }

    method BufferInit()
      requires Valid() && !holding
      modifies this`holding, this`block, parser, buffer, ledger
      ensures Valid()
      ensures var n := Connection.BufferInit(old(Value()), old(ledger.View())); Value() == n.c && ledger.View() == n.h
    {
      buffer.Clear(REQUEST_BUF_SIZE);
      ledger.memused := ledger.memused + REQUEST_BUF_SIZE;
      holding := true;
      block := Block(ledger.next);
      ledger.next := ledger.next + 1;
      parser.Init();
    }

    /** Reads the socket, if the buffer has been consumed. */
    method FillBuffer() returns (eof: bool)
      requires Valid() && Fits(buffer.View(), MAX_REQUEST_BUF_SIZE)
      modifies buffer, socket`incoming, ledger`memused
      ensures Fits(buffer.View(), MAX_REQUEST_BUF_SIZE)
      ensures buffer.capacity == CapacityRead(old(View()), old(socket.incoming), MAX_REQUEST_BUF_SIZE)
      ensures ledger.memused == old(ledger.memused) + buffer.capacity - old(buffer.capacity)
      ensures if old(buffer.index < buffer.length)
        then !eof && buffer.View() == old(buffer.View()) && socket.incoming == old(socket.incoming)
              else
                var e := ReadLoop(old(buffer.View()), old(socket.incoming), MAX_REQUEST_BUF_SIZE);
                && buffer.View() == e.b.(sequenceId := P.NextSequence(e.b.sequenceId))
                && socket.incoming == e.incoming && (eof <==> e.rc == 0)
    {
      hide ReadLoop, P.Append, P.NextSequence;
      eof := false;
      if buffer.index >= buffer.length {
        ReadLoopIsAppend(buffer.View(), socket.incoming, MAX_REQUEST_BUF_SIZE);
        var bytes, taken := ReadIntoBuffer(buffer, socket, ledger, MAX_REQUEST_BUF_SIZE);
        eof := bytes == 0;
      }
    }

    method Visit() returns (rc: ReadRc)
      requires Valid() && Sane(View(), MAX_REQUEST_BUF_SIZE) && state.Read?
      modifies this`state, this`calls, this`keepAlive, parser, buffer, tokens, tokens.buf
      modifies socket`incoming, ledger`memused, ledger`uncounted
      ensures Valid() && (tokens.buf == old(tokens.buf) || fresh(tokens.buf))
      ensures var n := AfterVisit(old(Value()), old(ledger.View())); Value() == n.c && ledger.View() == n.h
      ensures rc == ReadRequest(old(View()), old(socket.incoming), MAX_REQUEST_BUF_SIZE).rc
    {
      hide Dispatch, ReadLoop, AnyAnnounces, Sane, Fits, Tidy, CapacityRead, P.Append, P.NextSequence;
      SaneParts(View(), MAX_REQUEST_BUF_SIZE);
      VisitAppends(View(), socket.incoming, MAX_REQUEST_BUF_SIZE);
      var eof := FillBuffer();
      if eof {
        NothingAnnounced(tokens.Contents());
        return SocketError;
      }
      Parse();
      return Success;
    }

    /** Parses, and books the growth of the buffer that the ledger is not told about. */
    method Parse()
      requires Valid() && Fits(buffer.View(), MAX_REQUEST_BUF_SIZE) && Tidy(parser.Core())
      modifies this`state, this`calls, this`keepAlive, parser, buffer, tokens, tokens.buf, ledger`uncounted
      ensures Valid() && (tokens.buf == old(tokens.buf) || fresh(tokens.buf))
      ensures View() == Dispatch(old(View()), MAX_REQUEST_BUF_SIZE) && old(tokens.Contents()) <= tokens.Contents()
      ensures state == if calls == old(calls) then old(state) else Nop
      ensures keepAlive == (old(keepAlive) || AnyAnnounces(tokens.Contents()[|old(tokens.Contents())|..]))
      ensures ledger.uncounted == old(ledger.uncounted) + buffer.capacity - old(buffer.capacity)
    {
      hide AnyAnnounces, Tidy;
      ParseBufferAndExecUserCb(MAX_REQUEST_BUF_SIZE);
      ledger.uncounted := ledger.uncounted + (buffer.capacity - old(buffer.capacity));
    }
  }

  lemma SaneParts(r: Reader, max: int)
    requires Sane(r, max)
    ensures Fits(r.b, max) && Tidy(r.p.core)
  {
  }

  lemma OneAnnounces(t: Token)
    ensures AnyAnnounces(TokensFor(t)) <==> Announces(t)
  {
    assert t.kind.HeadersDone? ==> TokensFor(t) == [t] && (Announces(t) ==> Announces(TokensFor(t)[0]));
  }

  lemma NothingAnnounced(tokens: seq<Token>)
    ensures !AnyAnnounces(tokens[|tokens|..]) && !AnyAnnounces([])
  {
  }
}

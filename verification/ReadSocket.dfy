/**
  The token array, the loop that hands tokens to the user's callbacks, and the reader that
  drives it.
 */
module ReadSocket {
  import opened Automaton
  import opened Parser
  import opened Sessions
  import opened HeadCuts
  import opened HeadResults
  import opened ReadBuffer

  /** A callback into user code: the request handler, or the chunk callback with its chunk token. */
  datatype Call = Handler | Chunk(token: Token)

  /** The token injected after the last piece of a large body. */
  const END_OF_BODY := Token(Body, false, false, 0, 0)

  /** A reader: its parser and buffer, the token array and the callbacks made so far. */
  datatype Reader = Reader(p: Parser, b: Buffer, tokens: seq<Token>, calls: seq<Call>)

  /** Does the loop return to its caller after a token, or go on? */
  predicate Returns(t: Token) {
    t.kind.None? || t.kind.Body? || (t.kind.HeadersDone? && (t.Streamed() || t.NoBody()))
  }

  function CallsFor(t: Token): seq<Call> {
    if t.kind.HeadersDone? then (if t.Streamed() || t.NoBody() then [Handler] else [])
    else if !t.kind.Body? then []
    else if t.Small() then [Handler]
    else if t.Final() && t.len > 0 then [Chunk(t), Chunk(END_OF_BODY)]
    else [Chunk(t)]
  }

  function TokensFor(t: Token): seq<Token> {
    if t.kind.None? then []
    else if t.kind.Body? && !t.Small() && t.Final() && t.len > 0 then [t, END_OF_BODY]
    else [t]
  }

  /** What a callback is about is the last token of the array while it runs: the handler finds the end of the
      head or the small body, the chunk callback its piece. */
  predicate OnTop(call: Call, tokens: seq<Token>) {
    tokens != [] &&
    var last := tokens[|tokens| - 1];
    match call
    case Handler => last.kind.HeadersDone? || (last.kind.Body? && last.Small())
    case Chunk(token) => last == token
  }

  // --- every pass of the loop that does not return consumes a byte ---

  /** There is always some token in hand, and in the states that hand out a body it is a body token. */
  ghost predicate Tidy(k: Core) {
    !k.token.kind.None? && (k.state.InData? || k.state.Rescan? || k.state.InSmall? || k.state.InLarge?
      ==> k.token.kind.Body?)
  }

  ghost predicate Consumes(b: Buffer, i: nat, r: Result) {
    Tidy(r.core) && (r.signal.Break? && !r.signal.ready ==> !r.signal.done) &&
    (r.signal.Break? && r.signal.ready && !r.core.token.kind.Body? ==> i < r.at <= r.b.length == b.length)
  }

  lemma MoveConsumes(k: Core, m: Move, b: Buffer, i: nat, c: char, max: int)
    requires b.Valid() && i < b.length && Tidy(k) && (m.Go? ==> !IsBody(m.to))
    ensures Consumes(b, i, HeadStep(k, m, b, i, c, max))
  {
  }

  lemma BodyConsumes(k: Core, b: Buffer, i: nat, c: char, max: int)
    requires b.Valid() && i < b.length && Tidy(k) && IsBody(k.state)
    ensures Consumes(b, i, BodyStep(k, b, i, c, max))
  {
    hide RescanStep, Compact;
    if k.state.Rescan? {
      RescanConsumes(k, b, i, c, max);
    }
  }

  lemma RescanConsumes(k: Core, b: Buffer, i: nat, c: char, max: int)
    requires b.Valid() && i < b.length && Tidy(k) && k.state.Rescan?
    ensures Consumes(b, i, RescanStep(k, b, i, c, max))
  {
    hide RescanTarget, Compact;
  }

  lemma StepConsumes(k: Core, b: Buffer, i: nat, max: int)
    requires b.Valid() && i < b.length && Tidy(k) && !k.state.Error?
    ensures Consumes(b, i, Step(k, b, i, max))
  {
    hide HeadMove, HeadStep, BodyStep;
    if IsBody(k.state) {
      BodyConsumes(k, b, i, b.mem[i], max);
    } else {
      HeadMovesElsewhere(k.state, b.mem[i]);
      MoveConsumes(k, HeadMove(k.state, b.mem[i]), b, i, b.mem[i], max);
    }
  }

  lemma {:induction false} ScanConsumes(k: Core, b: Buffer, i: nat, max: int)
    requires b.Valid() && Tidy(k)
    ensures Consumes(b, i, Scan(k, b, i, max))
    decreases b.length - i
  {
    hide Step;
    if i < b.length && !k.state.Error? {
      StepConsumes(k, b, i, max);
      var r := Step(k, b, i, max);
      if r.signal.Continue? {
        ScanConsumes(r.core, b, i + 1, max);
      }
    }
  }

  lemma ExecConsumes(p: Parser, b: Buffer, max: int)
    requires b.Valid() && Tidy(p.core)
    ensures var o := Exec(p, b, max);
      Tidy(o.p.core) && (!Returns(o.token) ==> b.index < o.b.index <= o.b.length == b.length)
  {
    hide Scan;
    ScanConsumes(p.core, b, b.index, max);
  }

  // --- the buffer stays within its bounds ---

  /** The buffer has room for what it holds, and nothing unread lies before the end of the head. */
  ghost predicate Bounded(p: Parser, b: Buffer, max: int) {
    Fits(b, max) && b.afterHeaders <= b.index && Beyond(p.core, b, p.done, b.afterHeaders)
  }

  ghost predicate StaysBounded(b: Buffer, r: Result, max: int) {
    && r.b.Valid() && r.b.length <= b.length && r.b.sequenceId == b.sequenceId
    && b.capacity <= r.b.capacity && (r.b.capacity == b.capacity || r.b.capacity <= max)
    && r.b.afterHeaders <= r.at
    && Beyond(r.core, r.b, r.signal.Break? && r.signal.ready && r.signal.done, r.b.afterHeaders)
  }

  lemma ReadChunkStaysBounded(k: Core, b: Buffer, i: nat, max: int)
    requires b.Valid() && b.afterHeaders <= i < b.length && b.afterHeaders <= k.token.index
    ensures StaysBounded(b, ReadChunk(k, b, i, max), max)
  {
  }

  lemma BodyStaysBounded(k: Core, b: Buffer, i: nat, c: char, max: int)
    requires b.Valid() && IsBody(k.state) && b.afterHeaders <= i < b.length && Beyond(k, b, false, b.afterHeaders)
    ensures StaysBounded(b, BodyStep(k, b, i, c, max), max)
  {
    hide RescanTarget, ReadChunk;
    match k.state
    case DataStart(first) =>
      ReadChunkStaysBounded(EnterBody(k, i).(state := if first then Rescan(First) else InData), b, i, max);
    case InData => ReadChunkStaysBounded(k, b, i, max);
    case Rescan(_) => ReadChunkStaysBounded(Rescanned(k, i, c), b, i, max);
    case _ =>
  }

  lemma MoveStaysBounded(k: Core, m: Move, b: Buffer, i: nat, c: char, max: int)
    requires b.Valid() && b.afterHeaders <= i < b.length && (m.Go? ==> !IsBody(m.to))
    ensures StaysBounded(b, HeadStep(k, m, b, i, c, max), max)
  {
  }

  lemma {:induction false} ScanStaysBounded(k: Core, b: Buffer, i: nat, max: int)
    requires b.Valid() && b.afterHeaders <= i && Beyond(k, b, false, b.afterHeaders)
    ensures StaysBounded(b, Scan(k, b, i, max), max)
    decreases b.length - i
  {
    hide HeadMove, HeadStep, BodyStep;
    if i < b.length && !k.state.Error? {
      if IsBody(k.state) {
        BodyStaysBounded(k, b, i, b.mem[i], max);
      } else {
        HeadMovesElsewhere(k.state, b.mem[i]);
        MoveStaysBounded(k, HeadMove(k.state, b.mem[i]), b, i, b.mem[i], max);
      }
      var r := Step(k, b, i, max);
      if r.signal.Continue? {
        ScanStaysBounded(r.core, b, i + 1, max);
      }
    }
  }

  lemma ExecStaysBounded(p: Parser, b: Buffer, max: int)
    requires Bounded(p, b, max)
    ensures var o := Exec(p, b, max); Bounded(o.p, o.b, max) && b.capacity <= o.b.capacity && o.b.length <= b.length
  {
    hide Scan;
    if !p.done {
      ScanStaysBounded(p.core, b, b.index, max);
    }
  }

  // --- the loop and the reader ---

  /** What holds of a reader whenever no call of it is running. */
  ghost predicate Sane(r: Reader, max: int) { Bounded(r.p, r.b, max) && Tidy(r.p.core) }

  /** One token handed out. */
  function Take(r: Reader, o: Outcome): Reader {
    Reader(o.p, o.b, r.tokens + TokensFor(o.token), r.calls + CallsFor(o.token))
  }

  lemma TakeKeeps(r: Reader, o: Outcome)
    ensures Take(r, o).p == o.p && Take(r, o).b == o.b
  {
  }

  /** The loop over the tokens: it ends because the unread part of the buffer shrinks. */
  function Dispatch(r: Reader, max: int): (r': Reader)
    requires r.b.Valid() && Tidy(r.p.core)
    decreases r.b.length - r.b.index
  {
    ExecConsumes(r.p, r.b, max);
    var o := Exec(r.p, r.b, max);
    if Returns(o.token) then Take(r, o) else Dispatch(Take(r, o), max)
  }

  datatype ReadRc = Success | SocketError

  /** A call of the reader: reads if the buffer has been consumed, then dispatches. */
  datatype Visit = Visit(r: Reader, incoming: seq<Arrival>, taken: string, rc: ReadRc)

  function ReadRequest(r: Reader, incoming: seq<Arrival>, max: int): Visit
    requires Sane(r, max)
  {
    if r.b.index >= r.b.length then
      ReadLoopIsAppend(r.b, incoming, max);
      var e := ReadLoop(r.b, incoming, max);
      var r' := r.(b := e.b.(sequenceId := NextSequence(e.b.sequenceId)));
      if e.rc == 0 then Visit(r', e.incoming, e.taken, SocketError)
      else Visit(Dispatch(r', max), e.incoming, e.taken, Success)
    else
      Visit(Dispatch(r, max), incoming, "", Success)
  }

  /** The buffer has been consumed and has no room. */
  predicate Full(b: Buffer) { b.index >= b.length && b.length == b.capacity }

  /** As long as the input does not end, a visit takes it for ended if and only if the buffer is consumed and
      full. */
  lemma FullBufferIsTheEnd(r: Reader, incoming: seq<Arrival>, max: int)
    requires Sane(r, max) && NoEnd(incoming)
    ensures var v := ReadRequest(r, incoming, max);
      NoEnd(v.incoming) && (v.rc.SocketError? <==> Full(r.b)) && Weight(v.incoming) <= Weight(incoming)
    ensures var v := ReadRequest(r, incoming, max);
      r.b.index >= r.b.length && !Full(r.b) && incoming != [] ==> Weight(v.incoming) < Weight(incoming)
  {
    hide ReadLoop, Dispatch, Weight;
    ReadLoopEnds(r.b, incoming, max);
    ReadLoopIsAppend(r.b, incoming, max);
  }

  /** And then it takes nothing, makes no callback, and leaves the buffer full. */
  lemma FullStaysFull(r: Reader, incoming: seq<Arrival>, max: int)
    requires Sane(r, max) && Full(r.b) && r.b.capacity == max
    ensures var v := ReadRequest(r, incoming, max);
      && v.rc.SocketError? && v.incoming == incoming && v.r == r.(b := v.r.b)
      && v.r.b == r.b.(sequenceId := v.r.b.sequenceId) && Full(v.r.b)
  {
    hide Append, Dispatch;
    AppendNothing(r.b);
  }

  lemma {:induction false} DispatchKeepsSane(r: Reader, max: int)
    requires Sane(r, max)
    ensures Sane(Dispatch(r, max), max) && r.b.capacity <= Dispatch(r, max).b.capacity
    ensures Dispatch(r, max).b.length <= r.b.length
    decreases r.b.length - r.b.index
  {
    hide Exec;
    ExecConsumes(r.p, r.b, max);
    ExecStaysBounded(r.p, r.b, max);
    var o := Exec(r.p, r.b, max);
    if !Returns(o.token) {
      DispatchKeepsSane(Take(r, o), max);
    }
  }

  /** A visit keeps the reader sane, and the buffer only grows. */
  lemma VisitKeepsSane(r: Reader, incoming: seq<Arrival>, max: int)
    requires Sane(r, max)
    ensures var v := ReadRequest(r, incoming, max);
      Sane(v.r, max) && r.b.capacity <= v.r.b.capacity && Pending(incoming) == v.taken + Pending(v.incoming)
  {
    hide Dispatch, ReadLoop;
    if r.b.index >= r.b.length {
      ReadLoopIsAppend(r.b, incoming, max);
      var e := ReadLoop(r.b, incoming, max);
      var r' := r.(b := e.b.(sequenceId := NextSequence(e.b.sequenceId)));
      assert Sane(r', max);
      if e.rc != 0 {
        DispatchKeepsSane(r', max);
      }
    } else {
      DispatchKeepsSane(r, max);
    }
  }

  /** There is room in the buffer unless it is as large as it may be. */
  predicate Roomy(b: Buffer, max: int) { b.length < b.capacity || b.capacity == max }

  lemma VisitKeepsRoomy(r: Reader, incoming: seq<Arrival>, max: int)
    requires Sane(r, max) && Roomy(r.b, max)
    ensures Roomy(ReadRequest(r, incoming, max).r.b, max)
  {
    hide Dispatch, ReadLoop, Tidy;
    if r.b.index >= r.b.length {
      ReadLoopIsAppend(r.b, incoming, max);
      var e := ReadLoop(r.b, incoming, max);
      if e.rc != 0 {
        DispatchKeepsSane(r.(b := e.b.(sequenceId := NextSequence(e.b.sequenceId))), max);
      }
    } else {
      DispatchKeepsSane(r, max);
    }
  }

  // --- visits are schedules ---

  function CallsOf(tokens: seq<Token>): seq<Call> {
    if tokens == [] then [] else CallsOf(tokens[..|tokens| - 1]) + CallsFor(tokens[|tokens| - 1])
  }

  function TokensOf(tokens: seq<Token>): seq<Token> {
    if tokens == [] then [] else TokensOf(tokens[..|tokens| - 1]) + TokensFor(tokens[|tokens| - 1])
  }

  lemma OneMore(tokens: seq<Token>, t: Token)
    ensures CallsOf(tokens + [t]) == CallsOf(tokens) + CallsFor(t)
    ensures TokensOf(tokens + [t]) == TokensOf(tokens) + TokensFor(t)
  {
    assert (tokens + [t])[..|tokens + [t]| - 1] == tokens;
  }

  /** The session has seen what the reader has seen; callbacks and token array follow from its tokens. */
  ghost predicate Tracks(s: Session, r: Reader) {
    s.b.Valid() && s.p == r.p && s.b == r.b && r.calls == CallsOf(s.tokens) && r.tokens == TokensOf(s.tokens)
  }

  lemma {:induction false} DispatchIsParses(s: Session, r: Reader, max: int) returns (n: nat)
    requires Tracks(s, r) && Tidy(r.p.core)
    ensures Tracks(Play(s, Parses(n), max), Dispatch(r, max))
    ensures Play(s, Parses(n), max).received == s.received
    decreases r.b.length - r.b.index
  {
    hide Exec, CallsFor, TokensFor;
    ExecConsumes(r.p, r.b, max);
    var o := Exec(r.p, r.b, max);
    var s1 := Happen(s, Parse, max);
    OneMore(s.tokens, o.token);
    assert o.token.kind.None? ==> CallsFor(o.token) == [] && TokensFor(o.token) == [] by { NothingForNone(o.token); }
    assert Tracks(s1, Take(r, o));
    assert Parses(1) == [Parse] && Play(s, [], max) == s;
    assert [Parse][..0] == [];
    assert Play(s, [Parse], max) == s1;
    n := 1;
    if !Returns(o.token) {
      var m := DispatchIsParses(s1, Take(r, o), max);
      assert Parses(1 + m) == [Parse] + Parses(m);
      PlayAppend(s, [Parse], Parses(m), max);
      n := 1 + m;
    }
  }

  lemma NothingForNone(t: Token)
    ensures t.kind.None? ==> CallsFor(t) == [] && TokensFor(t) == []
  {
  }
}

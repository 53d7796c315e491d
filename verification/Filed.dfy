/**
  What user code finds in the token array: behind the head the pieces of the body in order, and while a
  callback runs the token it is about in the last place.
 */
module Filed {
  import opened Automaton
  import opened Parser
  import opened Head
  import opened Sessions
  import opened HeadResults
  import opened Bodies
  import opened ChunkStream
  import opened ChunkLooks
  import opened Chunks
  import opened ReadBuffer
  import opened ReadSocket
  import opened Callbacks
  import opened Accessors

  // --- the array and the callbacks ---

  /** A token handed out in the chunk callback. */
  predicate Streams(t: Token) { t.kind.Body? && !t.Small() }

  /** The streamed body tokens of an array, in order. */
  function StreamedOf(tokens: seq<Token>): seq<Token> {
    if tokens == [] then []
    else
      var before, last := StreamedOf(tokens[..|tokens| - 1]), tokens[|tokens| - 1];
      if Streams(last) then before + [last] else before
  }

  /** The tokens of the chunk callbacks, in order. */
  function CalledWith(calls: seq<Call>): seq<Token> {
    if calls == [] then []
    else
      var before := CalledWith(calls[..|calls| - 1]);
      match calls[|calls| - 1]
      case Handler => before
      case Chunk(token) => before + [token]
  }

  lemma {:induction false} StreamedOfBoth(a: seq<Token>, b: seq<Token>)
    ensures StreamedOf(a + b) == StreamedOf(a) + StreamedOf(b)
  {
    if b == [] {
      assert a + b == a;
    } else {
      assert (a + b)[..|a + b| - 1] == a + b[..|b| - 1];
      StreamedOfBoth(a, b[..|b| - 1]);
    }
  }

  lemma {:induction false} CalledWithBoth(a: seq<Call>, b: seq<Call>)
    ensures CalledWith(a + b) == CalledWith(a) + CalledWith(b)
  {
    if b == [] {
      assert a + b == a;
    } else {
      assert (a + b)[..|a + b| - 1] == a + b[..|b| - 1];
      CalledWithBoth(a, b[..|b| - 1]);
    }
  }

  /** Every piece has been filed, and every piece filed has been handed out. */
  ghost predicate InStep(tokens: seq<Token>, calls: seq<Call>) { StreamedOf(tokens) == CalledWith(calls) }

  /** The last callback is about the last token. */
  ghost predicate Topped(tokens: seq<Token>, calls: seq<Call>) { calls != [] && OnTop(calls[|calls| - 1], tokens) }

  lemma TokenIsFiled(t: Token)
    ensures InStep(TokensFor(t), CallsFor(t)) && (CallsFor(t) != [] ==> Topped(TokensFor(t), CallsFor(t)))
    ensures CallsFor(t) == [] || Returns(t)
  {
    var tokens, calls := TokensFor(t), CallsFor(t);
    if |tokens| == 2 {
      assert tokens[..1] == [t] && [t][..0] == [] && StreamedOf([t]) == [t];
      assert calls[..1] == [Chunk(t)] && [Chunk(t)][..0] == [] && CalledWith([Chunk(t)]) == [t];
    } else {
      assert |tokens| == 1 ==> tokens[..0] == [];
      assert |calls| == 1 ==> calls[..0] == [];
    }
  }

  /** A run of the dispatch loop keeps array and callbacks in step; and when it has made a callback, what the
      last one is about is on top. */
  lemma {:induction false} DispatchFiles(r: Reader, max: int)
    requires r.b.Valid() && Tidy(r.p.core) && InStep(r.tokens, r.calls)
    ensures var r' := Dispatch(r, max);
      InStep(r'.tokens, r'.calls) && (r'.calls == r.calls || Topped(r'.tokens, r'.calls))
    decreases r.b.length - r.b.index
  {
    hide Exec, CallsFor, TokensFor, Returns, StreamedOf, CalledWith;
    ExecConsumes(r.p, r.b, max);
    var o := Exec(r.p, r.b, max);
    TokenIsFiled(o.token);
    StreamedOfBoth(r.tokens, TokensFor(o.token));
    CalledWithBoth(r.calls, CallsFor(o.token));
    if !Returns(o.token) {
      assert r.calls + [] == r.calls;
      DispatchFiles(Take(r, o), max);
    } else if CallsFor(o.token) == [] {
      assert r.calls + [] == r.calls;
    }
  }

  lemma VisitFiles(r: Reader, incoming: seq<Arrival>, max: int)
    requires Sane(r, max) && InStep(r.tokens, r.calls)
    ensures var r' := ReadRequest(r, incoming, max).r;
      InStep(r'.tokens, r'.calls) && (r'.calls == r.calls || Topped(r'.tokens, r'.calls))
  {
    hide Dispatch, ReadLoop, Tidy, InStep, Topped;
    if r.b.index >= r.b.length {
      ReadLoopIsAppend(r.b, incoming, max);
      var e := ReadLoop(r.b, incoming, max);
      if e.rc != 0 {
        DispatchFiles(r.(b := e.b.(sequenceId := NextSequence(e.b.sequenceId))), max);
      }
    } else {
      DispatchFiles(r, max);
    }
  }

  // --- the array of a whole request ---

  lemma {:induction false} FiledAsTheyAre(tokens: seq<Token>)
    requires forall k :: 0 <= k < |tokens| ==> TokensFor(tokens[k]) == [tokens[k]]
    ensures TokensOf(tokens) == tokens
  {
    if tokens != [] {
      FiledAsTheyAre(tokens[..|tokens| - 1]);
    }
  }

  lemma {:induction false} FiledBoth(a: seq<Token>, b: seq<Token>)
    ensures TokensOf(a + b) == TokensOf(a) + TokensOf(b)
  {
    hide TokensFor;
    if b == [] {
      assert a + b == a;
    } else {
      assert (a + b)[..|a + b| - 1] == a + b[..|b| - 1];
      FiledBoth(a, b[..|b| - 1]);
    }
  }

  lemma HeadIsFiled(s0: Session, max: int)
    requires HeadComplete(s0, max)
    ensures TokensOf(s0.tokens) == s0.tokens
  {
    hide Fold;
    FoldSound(s0.received, max);
    FiledAsTheyAre(s0.tokens);
  }

  /** Behind the head of a request with a large body: the pieces in order, and when all have been handed out one
      token of length zero. */
  lemma LargeBodyIsFiled(s0: Session, events: seq<Event>, r: Reader, max: int)
    requires HeadComplete(s0, max) && s0.p.core.state.LargeStart? && s0.p.core.contentRemaining > 0
    requires Tracks(Play(s0, events, max), r)
    ensures var s := Play(s0, events, max);
      s0.tokens <= s.tokens && r.tokens == s0.tokens + Pieces(s0, s) + if s.p.done then [END_OF_BODY] else []
  {
    hide HeadComplete, Play, SumOfLengths, TokensOf, TokensFor;
    FromHead(s0, max);
    var s := Play(s0, events, max);
    LargeBodyAddsUp(s0, events, max);
    HeadIsFiled(s0, max);
    var pieces := Pieces(s0, s);
    assert s.tokens == s0.tokens + pieces;
    FiledBoth(s0.tokens, pieces);
    PiecesAreFiled(pieces, s0.b.index, s.p.done);
  }

  lemma OneIsFiled(t: Token)
    ensures !t.kind.None? && !(Streams(t) && t.Final() && t.len > 0) ==> TokensFor(t) == [t]
    ensures Streams(t) && t.Final() && t.len > 0 ==> TokensFor(t) == [t, END_OF_BODY]
  {
  }

  lemma PiecesAreFiled(pieces: seq<Token>, at: nat, done: bool)
    requires LargePieces(pieces, at, done)
    ensures TokensOf(pieces) == pieces + if done then [END_OF_BODY] else []
  {
    hide TokensFor, TokensOf;
    forall k | 0 <= k < |pieces| && !(done && k == |pieces| - 1) ensures TokensFor(pieces[k]) == [pieces[k]] {
      OneIsFiled(pieces[k]);
    }
    if done {
      var n := |pieces| - 1;
      FiledAsTheyAre(pieces[..n]);
      OneMore(pieces[..n], pieces[n]);
      OneIsFiled(pieces[n]);
      assert pieces == pieces[..n] + [pieces[n]];
    } else {
      FiledAsTheyAre(pieces);
    }
  }

  /** Behind the head of a chunked request: one token for each chunk, and one of length zero at the end. */
  lemma ChunkedBodyIsFiled(s0: Session, events: seq<Event>, chunks: seq<Segment>, tail: string, r: Reader, max: int)
    requires HeadComplete(s0, max) && s0.p.core.state == SizeStart(true) && GoodChunks(chunks)
    requires Delivers(s0, Play(s0, events, max), Stream(chunks, tail))
    requires InPlace(s0, chunks, events, max) && Tracks(Play(s0, events, max), r)
    ensures var s := Play(s0, events, max); var n := if s.p.done then |chunks| else |r.tokens| - |s0.tokens|;
      && 0 <= n <= |chunks|
      && r.tokens == s0.tokens + ChunkTokens(chunks, s0.b.index, n) + if s.p.done then [FINAL_CHUNK] else []
  {
    hide HeadComplete, Play, TokensOf, TokensFor, Frames, InPlace, Stream, Between, Within, FirstLooks, DataOffset;
    hide GoodChunks;
    FromHead(s0, max);
    var s := Play(s0, events, max);
    ChunksAreDelivered(s0, events, chunks, tail, false, max);
    HeadIsFiled(s0, max);
    var n := if s.p.done then |chunks| else Next(s0, s);
    var body := ChunkTokens(chunks, s0.b.index, n) + if s.p.done then [FINAL_CHUNK] else [];
    assert s.tokens == s0.tokens + body;
    FiledBoth(s0.tokens, body);
    ChunksAreFiled(chunks, s0.b.index, n, s.p.done);
  }

  lemma ChunksAreFiled(chunks: seq<Segment>, at: nat, n: nat, done: bool)
    requires n <= |chunks|
    ensures var body := ChunkTokens(chunks, at, n) + if done then [FINAL_CHUNK] else []; TokensOf(body) == body
  {
    hide TokensFor, TokensOf, DataOffset;
    var body := ChunkTokens(chunks, at, n) + if done then [FINAL_CHUNK] else [];
    forall k | 0 <= k < |body| ensures TokensFor(body[k]) == [body[k]] {
      OneIsFiled(body[k]);
    }
    FiledAsTheyAre(body);
  }

  /** Behind the head of a request with a small body: the body, in one token. */
  lemma SmallBodyIsFiled(s0: Session, events: seq<Event>, r: Reader, max: int)
    requires HeadComplete(s0, max) && s0.p.core.state.SmallStart? && Tracks(Play(s0, events, max), r)
    ensures r.tokens == s0.tokens +
      if Play(s0, events, max).p.done then [Token(Body, false, true, s0.p.core.contentLength, s0.b.index)] else []
  {
    hide HeadComplete, Play, TokensOf, TokensFor;
    FromHead(s0, max);
    SmallBodyIsDelivered(s0, events, false, max);
    HeadIsFiled(s0, max);
    var body := [Token(Body, false, true, s0.p.core.contentLength, s0.b.index)];
    FiledBoth(s0.tokens, body);
    OneIsFiled(body[0]);
    FiledAsTheyAre(body);
  }

  // --- behind a head that announces a body there are only body tokens ---

  ghost predicate InBody(k: Core) { (IsBody(k.state) || k.state.Error?) && Tidy(k) }

  ghost predicate StaysInBody(r: Result) {
    InBody(r.core) && (r.signal.Break? && r.signal.ready ==> r.core.token.kind.Body?)
  }

  lemma StepInBody(k: Core, b: Buffer, i: nat, c: char, max: int)
    requires b.Valid() && i < b.length && Tidy(k) && IsBody(k.state)
    ensures StaysInBody(BodyStep(k, b, i, c, max))
  {
    hide RescanStep, Compact;
    if k.state.Rescan? {
      RescanInBody(k, b, i, c, max);
    }
  }

  lemma RescanInBody(k: Core, b: Buffer, i: nat, c: char, max: int)
    requires b.Valid() && i < b.length && Tidy(k) && k.state.Rescan?
    ensures StaysInBody(RescanStep(k, b, i, c, max))
  {
    hide RescanTarget, Compact;
  }

  lemma {:induction false} ScanInBody(k: Core, b: Buffer, i: nat, max: int)
    requires b.Valid() && InBody(k)
    ensures StaysInBody(Scan(k, b, i, max))
    decreases b.length - i
  {
    hide BodyStep;
    if i < b.length && !k.state.Error? {
      StepInBody(k, b, i, b.mem[i], max);
      var r := Step(k, b, i, max);
      if r.signal.Continue? {
        ScanInBody(r.core, b, i + 1, max);
      }
    }
  }

  lemma ExecInBody(p: Parser, b: Buffer, max: int)
    requires b.Valid() && InBody(p.core)
    ensures var o := Exec(p, b, max); InBody(o.p.core) && (o.token.kind.None? || o.token.kind.Body?)
  {
    hide Scan;
    ScanInBody(p.core, b, b.index, max);
  }

  lemma {:induction false} BodyTokens(s0: Session, events: seq<Event>, max: int)
    requires s0.b.Valid() && InBody(s0.p.core)
    ensures var s := Play(s0, events, max);
      InBody(s.p.core) && s0.tokens <= s.tokens && forall k :: |s0.tokens| <= k < |s.tokens| ==> s.tokens[k].kind.Body?
  {
    hide Exec, InBody;
    if events != [] {
      var n := |events| - 1;
      BodyTokens(s0, events[..n], max);
      if events[n].Parse? {
        ExecInBody(Play(s0, events[..n], max).p, Play(s0, events[..n], max).b, max);
      }
    }
  }

  /** Nothing but body tokens is filed then. */
  lemma BodyIsFiled(s0: Session, events: seq<Event>, max: int)
    requires HeadComplete(s0, max) && IsBody(s0.p.core.state)
    ensures s0.b.Valid()
    ensures var filed := TokensOf(Play(s0, events, max).tokens);
      s0.tokens <= filed && forall k :: |s0.tokens| <= k < |filed| ==> filed[k].kind.Body?
  {
    hide Play, TokensOf;
    FromHead(s0, max);
    LastTokenIsHeld(s0.received, max) by { hide Fold; assert Fold(s0.received, max).end > 0; }
    FoldSound(s0.received, max) by { hide Fold; }
    BodyTokens(s0, events, max);
    HeadIsFiled(s0, max);
    var s := Play(s0, events, max);
    var body := s.tokens[|s0.tokens|..];
    assert s.tokens == s0.tokens + body;
    FiledBoth(s0.tokens, body);
    BodiesAreFiled(body);
  }

  lemma {:induction false} BodiesAreFiled(tokens: seq<Token>)
    requires forall k :: 0 <= k < |tokens| ==> tokens[k].kind.Body?
    ensures forall k :: 0 <= k < |TokensOf(tokens)| ==> TokensOf(tokens)[k].kind.Body?
  {
    if tokens != [] {
      BodiesAreFiled(tokens[..|tokens| - 1]);
    }
  }

  // --- what user code is given in the chunk callbacks ---

  /** The strings of the last token while the callbacks for a streamed token run; the array grows between them. */
  function SeenFor(filed: seq<Token>, mem: string, t: Token): seq<string> {
    seq(|CallsFor(t)|, k requires 0 <= k < |CallsFor(t)| => StringText(mem, LastOf(filed + TokensFor(t)[..k + 1])))
  }

  /** What the chunk callbacks since `s0` have been given, one after the other. */
  ghost function Seen(s0: Session, events: seq<Event>, max: int): seq<string>
    requires s0.b.Valid()
  {
    if events == [] then []
    else
      var n := |events| - 1;
      var s := Play(s0, events[..n], max);
      var o := Exec(s.p, s.b, max);
      Seen(s0, events[..n], max) +
        if events[n].Parse? && Streams(o.token) then SeenFor(TokensOf(s.tokens), o.b.mem, o.token) else []
  }

  /** The text of each piece, and nothing once more behind one that is final. */
  function Given(tokens: seq<Token>, texts: seq<string>): seq<string>
    requires |tokens| == |texts|
  {
    if tokens == [] then []
    else
      var n := |tokens| - 1;
      Given(tokens[..n], texts[..n]) + [texts[n]] + if tokens[n].Final() && tokens[n].len > 0 then [""] else []
  }

  lemma OneSeen(filed: seq<Token>, mem: string, t: Token)
    requires Streams(t)
    ensures SeenFor(filed, mem, t) == [Peek(mem, t)] + if t.Final() && t.len > 0 then [""] else []
  {
    OneIsFiled(t);
    var seen := SeenFor(filed, mem, t);
    var final := t.Final() && t.len > 0;
    assert CallsFor(t) == if final then [Chunk(t), Chunk(END_OF_BODY)] else [Chunk(t)];
    assert TokensFor(t)[..1] == [t];
    LastIs(filed, [], t, mem);
    assert seen[0] == StringText(mem, LastOf(filed + [t])) == Peek(mem, t);
    if final {
      assert TokensFor(t)[..2] == [t] + [END_OF_BODY];
      LastIs(filed, [t], END_OF_BODY, mem);
      assert seen[1] == StringText(mem, LastOf(filed + ([t] + [END_OF_BODY]))) == "";
    }
  }

  lemma LastIs(filed: seq<Token>, before: seq<Token>, t: Token, mem: string)
    ensures StringText(mem, LastOf(filed + (before + [t]))) == Peek(mem, t)
    ensures before == [] ==> before + [t] == [t]
  {
  }

  lemma OneMoreGiven(tokens: seq<Token>, texts: seq<string>, t: Token, text: string)
    requires |tokens| == |texts|
    ensures Given(tokens + [t], texts + [text])
      == Given(tokens, texts) + ([text] + if t.Final() && t.len > 0 then [""] else [])
  {
    assert (tokens + [t])[..|tokens + [t]| - 1] == tokens && (texts + [text])[..|texts + [text]| - 1] == texts;
  }

  lemma OneMoreSeen(s0: Session, events: seq<Event>, max: int)
    requires s0.b.Valid() && events != []
    ensures var n := |events| - 1; var s := Play(s0, events[..n], max);
      var r := Play(s0, events, max); var o := Exec(s.p, s.b, max);
      if events[n].Parse? && !o.token.kind.None? then
        && r.tokens == s.tokens + [o.token] && r.texts == s.texts + [Peek(o.b.mem, o.token)]
        && (Streams(o.token) ==>
              Seen(s0, events, max) == Seen(s0, events[..n], max) + SeenFor(TokensOf(s.tokens), o.b.mem, o.token))
      else r.tokens == s.tokens && r.texts == s.texts && Seen(s0, events, max) == Seen(s0, events[..n], max)
  {
    hide Exec, SeenFor, TokensOf;
  }

  lemma {:induction false} SeenIsGiven(s0: Session, events: seq<Event>, max: int)
    requires s0.b.Valid() && |s0.texts| == |s0.tokens| <= |Play(s0, events, max).tokens|
    requires forall k :: |s0.tokens| <= k < |Play(s0, events, max).tokens| ==> Streams(Play(s0, events, max).tokens[k])
    ensures var s := Play(s0, events, max);
      |s.texts| == |s.tokens| && Seen(s0, events, max) == Given(s.tokens[|s0.tokens|..], s.texts[|s0.texts|..])
  {
    hide Exec, SeenFor, Seen, TokensOf, Given, Play, Streams;
    if events == [] {
      NothingSeen(s0, max);
    } else {
      var n, m := |events| - 1, |s0.tokens|;
      var s, r := Play(s0, events[..n], max), Play(s0, events, max);
      SessionsGrow(s0, events[..n], max);
      OneMoreSeen(s0, events, max);
      assert s.tokens <= r.tokens;
      forall k | m <= k < |s.tokens| ensures s.tokens[k] == r.tokens[k] {}
      SeenIsGiven(s0, events[..n], max);
      var o := Exec(s.p, s.b, max);
      if events[n].Parse? && !o.token.kind.None? {
        assert r.tokens[|s.tokens|] == o.token;
        OneSeen(TokensOf(s.tokens), o.b.mem, o.token);
        OneMoreGiven(s.tokens[m..], s.texts[m..], o.token, Peek(o.b.mem, o.token));
        assert r.tokens[m..] == s.tokens[m..] + [o.token] && r.texts[m..] == s.texts[m..] + [Peek(o.b.mem, o.token)];
      }
    }
  }

  lemma NothingSeen(s0: Session, max: int)
    requires s0.b.Valid() && |s0.texts| == |s0.tokens|
    ensures Play(s0, [], max) == s0 && Seen(s0, [], max) == Given(s0.tokens[|s0.tokens|..], s0.texts[|s0.texts|..])
  {
  }

  lemma {:induction false} GivenPieces(tokens: seq<Token>, texts: seq<string>)
    requires |tokens| == |texts|
    requires forall k :: 0 <= k < |tokens| - 1 ==> !tokens[k].Final() || tokens[k].len == 0
    ensures var last := tokens != [] && tokens[|tokens| - 1].Final() && tokens[|tokens| - 1].len > 0;
      Given(tokens, texts) == texts + if last then [""] else []
  {
    if tokens != [] {
      var n := |tokens| - 1;
      GivenPieces(tokens[..n], texts[..n]);
    }
  }

  /** In every schedule: in its callbacks user code is given the pieces of a large body, and once all have been
      handed out nothing, once. */
  lemma LargeBodyIsSeen(s0: Session, events: seq<Event>, max: int)
    requires HeadComplete(s0, max) && s0.p.core.state.LargeStart? && s0.p.core.contentRemaining > 0
    ensures s0.b.Valid()
    ensures var s := Play(s0, events, max);
      && |s0.texts| <= |s.texts| && Seen(s0, events, max) == s.texts[|s0.texts|..] + (if s.p.done then [""] else [])
      && Concat(Seen(s0, events, max)) == Delivered(s0, s)
  {
    hide HeadComplete, Play, SumOfLengths, Seen, Given, Concat;
    FromHead(s0, max);
    LargeBodyAddsUp(s0, events, max);
    var s := Play(s0, events, max);
    forall k | |s0.tokens| <= k < |s.tokens| ensures s.tokens[k] == Pieces(s0, s)[k - |s0.tokens|] {}
    SeenIsGiven(s0, events, max);
    GivenPieces(s.tokens[|s0.tokens|..], s.texts[|s0.texts|..]);
    ConcatMore(s.texts[|s0.texts|..], "");
    assert s.texts[|s0.texts|..] + [] == s.texts[|s0.texts|..];
  }

  /** With clean cuts user code is given the data of the chunks, and nothing at the end. */
  lemma ChunksAreSeen(s0: Session, events: seq<Event>, chunks: seq<Segment>, tail: string, max: int)
    requires HeadComplete(s0, max) && s0.p.core.state == SizeStart(true) && GoodChunks(chunks)
    requires Delivers(s0, Play(s0, events, max), Stream(chunks, tail))
    requires CleanCuts(s0, chunks, events, max)
    ensures s0.b.Valid()
    ensures var s := Play(s0, events, max); var n := if s.p.done then |chunks| else |s.tokens| - |s0.tokens|;
      0 <= n <= |chunks| && Seen(s0, events, max) == Datas(chunks[..n]) + if s.p.done then [""] else []
  {
    hide HeadComplete, Play, Seen, Given, Frames, InPlace, Stream, Between, Within, FirstLooks, DataOffset, GoodChunks;
    hide NeverOneShort;
    FromHead(s0, max);
    ChunksAreDelivered(s0, events, chunks, tail, true, max);
    var s := Play(s0, events, max);
    var n := if s.p.done then |chunks| else |s.tokens| - |s0.tokens|;
    assert chunks[..|chunks|] == chunks;
    var body := ChunkTokens(chunks, s0.b.index, n) + if s.p.done then [FINAL_CHUNK] else [];
    assert s.tokens == s0.tokens + body;
    assert s.texts == s0.texts + (Datas(chunks[..n]) + if s.p.done then [""] else []);
    ChunksAreGiven(s0, events, chunks, s0.b.index, n, s.p.done, max);
  }

  lemma ChunksAreGiven(s0: Session, events: seq<Event>, chunks: seq<Segment>, at: nat, n: nat, done: bool, max: int)
    requires s0.b.Valid() && n <= |chunks| && |s0.texts| == |s0.tokens|
    requires Play(s0, events, max).tokens ==
      s0.tokens + (ChunkTokens(chunks, at, n) + if done then [FINAL_CHUNK] else [])
    ensures |s0.texts| <= |Play(s0, events, max).texts|
      && Seen(s0, events, max) == Play(s0, events, max).texts[|s0.texts|..]
  {
    hide Play, Seen, Given, DataOffset;
    var s := Play(s0, events, max);
    var body := ChunkTokens(chunks, at, n) + if done then [FINAL_CHUNK] else [];
    forall k | |s0.tokens| <= k < |s.tokens| ensures s.tokens[k] == body[k - |s0.tokens|] {}
    SeenIsGiven(s0, events, max);
    assert s.tokens[|s0.tokens|..] == body;
    GivenPieces(body, s.texts[|s0.texts|..]);
  }

  /** A small body that is complete when the handler runs is what user code finds as the body. */
  lemma SmallBodyIsFound(s0: Session, events: seq<Event>, r: Reader, max: int)
    requires HeadComplete(s0, max) && s0.p.core.state.SmallStart? && Tracks(Play(s0, events, max), r)
    requires Play(s0, events, max).p.done
    requires NeverCalledAt(s0, events, s0.b.index + s0.p.core.contentLength - 1, max)
    ensures var at, n := s0.b.index, s0.p.core.contentLength;
      && at + n <= |r.b.mem| && at + n <= |Play(s0, events, max).received|
      && StringText(r.b.mem, FirstOf(r.tokens, Body)) == Play(s0, events, max).received[at..at + n]
  {
    hide HeadComplete, Play, NeverCalledAt, TokensOf;
    FromHead(s0, max);
    SmallBodyIsDelivered(s0, events, true, max);
    SmallBodyIsFiled(s0, events, r, max);
    HeadHasNoBody(s0, max);
    var at, n := s0.b.index, s0.p.core.contentLength;
    EarlierRequestsComeFirst(s0.tokens, [Token(Body, false, true, n, at)], Body);
    assert FirstOf([Token(Body, false, true, n, at)], Body) == Slice(at, n);
    assert r.b.mem[at..at + n] == r.b.mem[..r.b.length][at..at + n];
  }

  lemma HeadHasNoBody(s0: Session, max: int)
    requires HeadComplete(s0, max)
    ensures FirstOf(s0.tokens, Body).Null?
  {
    hide Fold, FirstOf;
    FoldSound(s0.received, max);
    EarlierRequestsComeFirst(s0.tokens, [], Body);
  }
}

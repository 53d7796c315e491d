/**
  Chunked requests whose bytes are all there when the reader first looks. The buffer grows by doubling, and
  the reader stops reading when it has reached its largest size, so that it parses what it has by then; a
  chunk which that cut falls into is looked at incomplete.
 */
module AtOnce {
  import opened Automaton
  import opened Parser
  import opened HeadRoundTrip
  import opened Sessions
  import opened HeadCuts
  import opened HeadResults
  import opened Bodies
  import opened ChunkStream
  import opened ChunkLooks
  import opened Chunks
  import opened ReadBuffer
  import opened ReadSocket
  import opened Callbacks
  import opened ChunkShortfalls
  import opened EndToEnd
  import opened Completion
  import opened Visits
  import opened Serving
  import opened ChunkServing

  // --- reading ---

  /** How much a buffer holds when it is about to grow to its largest size. */
  function Once(capacity: int, max: int): (c: int)
    requires 0 < capacity <= max
    ensures capacity <= c <= max <= 2 * c
    decreases max - capacity
  {
    if 2 * capacity >= max then capacity else Once(2 * capacity, max)
  }

  function Least(a: int, b: int): int { if a < b then a else b }

  lemma OnePass(b: Buffer, w: string, max: int)
    requires Fits(b, max) && b.length < b.capacity && w != ""
    ensures var count := b.capacity - b.length; var a := ReadOnce([Data(w)], count); var b' := AfterRead(b, a, max);
      && Fits(b', max) && a.n == |a.bytes| == Least(|w|, count) && b'.length == b.length + a.n
      && a.bytes == w[..Least(|w|, count)]
      && a.rest == (if |w| <= count then [] else [Data(w[count..])])
      && b'.capacity == if |w| < count || b.capacity == max then b.capacity else Least(2 * b.capacity, max)
  {
    hide Append;
    AfterReadFits(b, [Data(w)], max);
    assert w[..|w|] == w && [Data(w)][1..] == [];
  }

  /** The bytes the reader takes first. */
  lemma {:induction false} ReadAtOnce(b: Buffer, w: string, max: int)
    requires Fits(b, max) && b.length < b.capacity && w != ""
    ensures var e := ReadLoop(b, [Data(w)], max); var n := Least(|w|, Once(b.capacity, max) - b.length);
      && e.taken == w[..n] && e.incoming == (if n == |w| then [] else [Data(w[n..])]) && e.rc != 0
      && (n == Once(b.capacity, max) - b.length ==> e.b.capacity == max)
    decreases max - b.length
  {
    hide Append, ReadOnce, AfterRead;
    var count := b.capacity - b.length;
    var a := ReadOnce([Data(w)], count);
    var b' := AfterRead(b, a, max);
    OnePass(b, w, max);
    if b'.capacity < max {
      if |w| <= count {
        NothingToRead(b', max);
        assert a.bytes + "" == w;
      } else {
        ReadAtOnce(b', w[count..], max);
        Rest(w, count, Least(|w|, Once(b.capacity, max) - b.length));
      }
    }
  }

  lemma Rest(w: string, i: nat, n: nat)
    requires i <= n <= |w|
    ensures w[..i] + w[i..][..n - i] == w[..n] && w[i..][n - i..] == w[n..]
  {
  }

  lemma NothingToRead(b: Buffer, max: int)
    requires Fits(b, max) && b.length < b.capacity
    ensures ReadLoop(b, [], max) == ReadEnd(b, [], "", -1)
  {
  }

  /** What a visit that finds all of `w` takes, and leaves. */
  lemma VisitAtOnce(rd: Reader, w: string, max: int)
    requires Sane(rd, max) && rd.b.index >= rd.b.length && rd.b.length < rd.b.capacity && w != ""
    ensures var v := ReadRequest(rd, [Data(w)], max); var n := Least(|w|, Once(rd.b.capacity, max) - rd.b.length);
      && v.taken == w[..n] && v.incoming == (if n == |w| then [] else [Data(w[n..])]) && v.rc == Success
      && (n == Once(rd.b.capacity, max) - rd.b.length ==> v.r.b.capacity == max)
  {
    hide ReadLoop, Dispatch, Append, Once;
    ReadAtOnce(rd.b, w, max);
    ReadLoopIsAppend(rd.b, [Data(w)], max);
    var e := ReadLoop(rd.b, [Data(w)], max);
    DispatchKeepsSane(rd.(b := e.b.(sequenceId := NextSequence(e.b.sequenceId))), max);
  }

  // --- visits that finish the body ---

  /** When all of the chunks has been received, each visit hands out one of those that are left. */
  lemma {:induction false} VisitsFinish(capacity: int, visits: seq<seq<Arrival>>, s0: Session, s: Session, r: Request,
      chunks: seq<Segment>, tail: string, first: Glimpse, max: int)
      returns (k: nat, f: Session)
    requires 0 < capacity <= max && GoodChunks(chunks) && HeadTaken(s0, r, max) && FramingOf(r, max).Chunked?
    requires Tracks(s, Serve(capacity, visits, max).r) && Dechunking(s0, s, chunks, first, false)
    requires !s.p.done && s.p.sequenceId != s.b.sequenceId && Delivers(s0, s, Stream(chunks, tail))
    requires s0.b.index + |Frames(chunks) + LAST_CHUNK| <= |s.received|
    requires chunks != [] ==> s0.b.index + DataOffset(chunks, 0) <= |s.received|
    requires ComesOut(s, first, chunks, s0.b.index, max)
    ensures Tracks(f, Serve(capacity, visits + NoArrivals(k), max).r) && ChunksFinished(f, r, chunks)
    decreases |chunks| - Next(s0, s)
  {
    hide HeadTaken, FramingOf, ReadRequest, Stream, Frames, Serve, Dechunking, ComesOut, Tracks, Exec, Dispatch,
      DataOffset, ChunksFinished;
    var v := Serve(capacity, visits, max);
    TracksIsValid(s, v.r);
    var first' := ParseGetsTheNext(s0, s, chunks, tail, first, false, max);
    f := Happen(s, Parse, max);
    BodyTokenReturns(s0, s, v.r, chunks, first, first', max);
    ATokenIsRead(s, max);
    NoRead(v.r, v.incoming, max);
    OneCall(s, v.r, max);
    IdleVisit(capacity, visits, max);
    assert visits + [[]] == visits + NoArrivals(1);
    k := 1;
    if f.p.done {
      AllHandedOut(s0, f, r, chunks, first', false, max);
    } else {
      HandedOutUpTo(s0, f, chunks, first', false);
      OutAlready(s0, f, first', chunks, max);
      var m;
      m, f := VisitsFinish(capacity, visits + [[]], s0, f, r, chunks, tail, first', max);
      assert visits + [[]] + NoArrivals(m) == visits + NoArrivals(1 + m);
      k := 1 + m;
    }
  }

  lemma BodyTokenReturns(s0: Session, s: Session, rd: Reader, chunks: seq<Segment>, first: Glimpse, first': Glimpse,
      max: int)
    requires Tracks(s, rd) && Dechunking(s0, s, chunks, first, false)
    requires !s.p.done && Dechunking(s0, Happen(s, Parse, max), chunks, first', false)
    ensures Returns(Exec(rd.p, rd.b, max).token)
  {
    hide Exec, Between, Within, DataOffset, CallsOf, TokensOf;
    var f := Happen(s, Parse, max);
    var o := Exec(rd.p, rd.b, max);
    if !o.token.kind.None? {
      assert f.tokens == s.tokens + [o.token];
      assert f.tokens[|s.tokens|] == o.token;
    }
  }

  lemma ATokenIsRead(s: Session, max: int)
    requires s.b.Valid() && |Happen(s, Parse, max).tokens| != |s.tokens|
    ensures s.b.index < s.b.length
  {
    hide Exec;
    if !Active(s) {
      IdleCall(s, max);
    }
  }

  lemma HandedOutUpTo(s0: Session, s: Session, chunks: seq<Segment>, first: Glimpse, exact: bool)
    requires Dechunking(s0, s, chunks, first, exact) && !s.p.done
    ensures 0 <= Next(s0, s) <= |chunks| && s.b.Valid()
  {
    hide Between, Within;
  }

  lemma OutAlready(s0: Session, s: Session, first: Glimpse, chunks: seq<Segment>, max: int)
    requires chunks != [] ==> s0.b.index + DataOffset(chunks, 0) <= |s.received|
    requires chunks == [] || first == Gives(|chunks[0].data|)
    ensures ComesOut(s, first, chunks, s0.b.index, max)
  {
    hide DataOffset;
  }

  // --- runs that cannot be finished any more ---

  /** All callbacks of a chunked request have been made. */
  ghost predicate ServedAll(rd: Reader, r: Request, chunks: seq<Segment>) {
    && rd.p.done
    && rd.calls == [Handler] + ChunkCalls(ChunkTokens(chunks, |PrintRequest(r)|, |chunks|)) + [Chunk(FINAL_CHUNK)]
  }

  /** The input has been used up, and no more of it will come in. */
  predicate Starved(rd: Reader, incoming: seq<Arrival>, max: int) {
    !rd.p.done && rd.b.index >= rd.b.length && (incoming == [] || (Full(rd.b) && rd.b.capacity == max))
  }

  ghost predicate Hopeless(s0: Session, s: Session, v: Served, chunks: seq<Segment>, max: int) {
    WrongFirst(s0, s, chunks) || (Stuck(v.r) && !v.r.p.done) || Starved(v.r, v.incoming, max)
  }

  lemma StarvedStays(rd: Reader, incoming: seq<Arrival>, max: int)
    requires Sane(rd, max) && Starved(rd, incoming, max)
    ensures var v := ReadRequest(rd, incoming, max); Starved(v.r, v.incoming, max)
  {
    hide Append, Tidy;
    if Full(rd.b) && rd.b.capacity == max {
      FullStaysFull(rd, incoming, max);
    } else if Full(rd.b) {
      ReadLoopEnds(rd.b, [], max);
      ReadLoopIsAppend(rd.b, [], max);
      AppendNothing(rd.b);
    } else {
      NothingToRead(rd.b, max);
      var rd1 := rd.(b := rd.b.(sequenceId := NextSequence(rd.b.sequenceId)));
      ReadKeepsTidy(rd, rd1, max);
      NothingToCall(rd1, max);
    }
  }

  lemma NothingToCall(rd: Reader, max: int)
    requires Tidy(rd.p.core) && rd.b.Valid() && rd.b.index >= rd.b.length
    ensures var d := Dispatch(rd, max); d == rd.(p := rd.p.(sequenceId := d.p.sequenceId))
  {
    hide Exec;
    ExecConsumes(rd.p, rd.b, max);
    if rd.p.done || rd.p.sequenceId == rd.b.sequenceId {
      BlockedExec(rd.p, rd.b, max);
    } else {
      ExecAtEnd(rd.p, rd.b, max);
    }
    assert rd.tokens + [] == rd.tokens && rd.calls + [] == rd.calls;
  }

  lemma HopelessStays(s0: Session, s: Session, capacity: int, visits: seq<seq<Arrival>>, chunks: seq<Segment>, max: int)
      returns (s': Session)
    requires 0 < capacity <= max && Tracks(s, Serve(capacity, visits, max).r)
    requires Hopeless(s0, s, Serve(capacity, visits, max), chunks, max)
    ensures var w := Serve(capacity, visits + [[]], max); Tracks(s', w.r) && Hopeless(s0, s', w, chunks, max)
  {
    hide ReadRequest, Serve, Sane, Play, Starved, Tracks;
    var v := Serve(capacity, visits, max);
    IdleVisit(capacity, visits, max);
    TracksIsValid(s, v.r);
    var events := VisitIsSchedule(s, v.r, v.incoming, max);
    s' := Play(s, events, max);
    if WrongFirst(s0, s, chunks) {
      SessionsGrow(s, events, max);
      assert s'.tokens[|s0.tokens|] == s.tokens[|s0.tokens|];
    } else if Starved(v.r, v.incoming, max) {
      StarvedStays(v.r, v.incoming, max);
    } else {
      StuckReaderIsSilent(v.r, v.incoming, max);
    }
  }

  lemma ServedStays(capacity: int, visits: seq<seq<Arrival>>, r: Request, chunks: seq<Segment>, max: int)
    requires 0 < capacity <= max && ServedAll(Serve(capacity, visits, max).r, r, chunks)
    ensures ServedAll(Serve(capacity, visits + [[]], max).r, r, chunks)
  {
    hide Serve, Dispatch, ReadLoop, PrintRequest, ChunkCalls, ChunkTokens;
    var v := Serve(capacity, visits, max);
    IdleVisit(capacity, visits, max);
    if v.r.b.index >= v.r.b.length {
      SaneFits(v.r, max);
      ReadLoopIsAppend(v.r.b, v.incoming, max);
      var e := ReadLoop(v.r.b, v.incoming, max);
      var rd1 := v.r.(b := e.b.(sequenceId := NextSequence(e.b.sequenceId)));
      ReadKeepsTidy(v.r, rd1, max);
      DoneIsSilent(rd1, max);
    } else {
      NoRead(v.r, v.incoming, max);
      DoneIsSilent(v.r, max);
    }
  }

  lemma DoneIsSilent(rd: Reader, max: int)
    requires Tidy(rd.p.core) && rd.b.Valid() && rd.p.done
    ensures Dispatch(rd, max) == rd
  {
    hide Exec;
    BlockedExec(rd.p, rd.b, max);
    ExecConsumes(rd.p, rd.b, max);
    assert rd.tokens + [] == rd.tokens && rd.calls + [] == rd.calls;
  }

  /** Such a run is never finished, before or after. */
  lemma {:induction false} HopelessForGood(s0: Session, s: Session, capacity: int, visits: seq<seq<Arrival>>,
      r: Request,
      chunks: seq<Segment>, n: nat, max: int)
      returns (f: Session)
    requires 0 < capacity <= max && Tracks(s, Serve(capacity, visits, max).r)
    requires Hopeless(s0, s, Serve(capacity, visits, max), chunks, max)
    ensures var w := Serve(capacity, visits + NoArrivals(n), max); Tracks(f, w.r) && Hopeless(s0, f, w, chunks, max)
  {
    hide Serve, Hopeless, Tracks;
    if n == 0 {
      assert visits + NoArrivals(0) == visits;
      f := s;
    } else {
      var before := HopelessForGood(s0, s, capacity, visits, r, chunks, n - 1, max);
      assert visits + NoArrivals(n - 1) + [[]] == visits + NoArrivals(n);
      f := HopelessStays(s0, before, capacity, visits + NoArrivals(n - 1), chunks, max);
    }
  }

  lemma {:induction false} ServedForGood(capacity: int, visits: seq<seq<Arrival>>, r: Request, chunks: seq<Segment>,
      n: nat,
      max: int)
    requires 0 < capacity <= max && ServedAll(Serve(capacity, visits, max).r, r, chunks)
    ensures ServedAll(Serve(capacity, visits + NoArrivals(n), max).r, r, chunks)
  {
    hide Serve, ServedAll;
    if n == 0 {
      assert visits + NoArrivals(0) == visits;
    } else {
      ServedForGood(capacity, visits, r, chunks, n - 1, max);
      assert visits + NoArrivals(n - 1) + [[]] == visits + NoArrivals(n);
      ServedStays(capacity, visits + NoArrivals(n - 1), r, chunks, max);
    }
  }

  lemma HopelessIsUnserved(s0: Session, s: Session, v: Served, r: Request, chunks: seq<Segment>, max: int)
    requires Tracks(s, v.r) && Hopeless(s0, s, v, chunks, max) && CallsOf(s0.tokens) == [Handler]
    ensures !ServedAll(v.r, r, chunks)
  {
    hide CallsOf, TokensOf, ChunkCalls, ChunkTokens, PrintRequest;
    if WrongFirst(s0, s, chunks) && v.r.p.done {
      WrongIsGone(s0, s, chunks);
      GoneIsUnfinished(s0, s, r, chunks);
    }
  }

  /** Once a run is hopeless, none of its visits has served the request, and none will. */
  lemma NeverServed(s0: Session, s: Session, capacity: int, visits: seq<seq<Arrival>>, k: nat, r: Request,
      chunks: seq<Segment>, n: nat, max: int)
    requires 0 < capacity <= max && Tracks(s, Serve(capacity, visits + NoArrivals(k), max).r)
    requires Hopeless(s0, s, Serve(capacity, visits + NoArrivals(k), max), chunks, max)
      && CallsOf(s0.tokens) == [Handler]
    ensures !ServedAll(Serve(capacity, visits + NoArrivals(n), max).r, r, chunks)
  {
    hide Serve, Hopeless, ServedAll, CallsOf, Tracks;
    if n <= k {
      assert visits + NoArrivals(n) + NoArrivals(k - n) == visits + NoArrivals(k);
      HopelessIsUnserved(s0, s, Serve(capacity, visits + NoArrivals(k), max), r, chunks, max);
      if ServedAll(Serve(capacity, visits + NoArrivals(n), max).r, r, chunks) {
        ServedForGood(capacity, visits + NoArrivals(n), r, chunks, k - n, max);
      }
    } else {
      assert visits + NoArrivals(k) + NoArrivals(n - k) == visits + NoArrivals(n);
      var f := HopelessForGood(s0, s, capacity, visits + NoArrivals(k), r, chunks, n - k, max);
      HopelessIsUnserved(s0, f, Serve(capacity, visits + NoArrivals(n), max), r, chunks, max);
    }
  }

  // --- the rest is read ---

  /** A call that looks at all of the first chunk and does not hand it out as it is. */
  lemma BadCall(s0: Session, s: Session, rd: Reader, chunks: seq<Segment>, tail: string, first: Glimpse, max: int)
    requires GoodChunks(chunks) && Dechunking(s0, s, chunks, first, false) && !s.p.done
    requires Tracks(s, rd) && Tidy(rd.p.core) && s.p.sequenceId != s.b.sequenceId
    requires Delivers(s0, s, Stream(chunks, tail))
    requires chunks != [] ==> s0.b.index + DataEnd(chunks, 0) <= |s.received|
    requires !ComesOut(s, first, chunks, s0.b.index, max)
    ensures var f := Happen(s, Parse, max); var rd' := Dispatch(rd, max);
      && Tracks(f, rd') && f.received == s.received
      && (WrongFirst(s0, f, chunks) || (!f.p.done
        && (Stuck(rd') || (f.b == s.b.(index := f.b.index) && f.b.index >= f.b.length))))
  {
    hide Frames, Stream, Scan, InLine, Waiting, Exec, Look, Ended, DataOffset, CallsOf, TokensOf, Dispatch,
      Within;
    var f := Happen(s, Parse, max);
    var at := s0.b.index;
    if Active(s) {
      CallOutcome(s, first.lead, chunks, tail, at, 0, max);
      LookEnds(s, LookAt(s, first.lead, chunks, at, 0, max), chunks, at, 0, max);
    } else {
      IdleCall(s, max);
    }
    assert f.tokens == s.tokens || f.tokens[|s.tokens|].kind.Body?;
    CalledBody(s, rd, max);
    OneCall(s, rd, max);
  }

  lemma CalledBody(s: Session, rd: Reader, max: int)
    requires Tracks(s, rd)
    requires var f := Happen(s, Parse, max); f.tokens == s.tokens || f.tokens[|s.tokens|].kind.Body?
    ensures Returns(Exec(rd.p, rd.b, max).token)
  {
    hide Exec, CallsOf, TokensOf;
  }

  /** The input up to the cut has been used up; the visit that reads the rest decides. */
  lemma RestDecides(capacity: int, visits: seq<seq<Arrival>>, s0: Session, s: Session, r: Request, chunks: seq<Segment>,
      tail: string, first: Glimpse, all: string, c: nat, max: int)
      returns (k: nat, s1: Session, f: Session)
    requires 0 < capacity <= max && GoodChunks(chunks) && HeadTaken(s0, r, max) && FramingOf(r, max).Chunked?
    requires all == PrintRequest(r) + Stream(chunks, tail) && c < |all| && c < max
    requires |PrintRequest(r)| + |Frames(chunks) + LAST_CHUNK| <= Least(|all|, max)
    requires Tracks(s, Serve(capacity, visits, max).r) && Serve(capacity, visits, max).incoming == [Data(all[c..])]
    requires s.received == all[..c] && s.b.length == c && s.b.capacity == max && s.b.index >= c
    requires Dechunking(s0, s, chunks, first, false) && !s.p.done && s.p.sequenceId != NextSequence(s.b.sequenceId)
    ensures s1.received == all[..Least(|all|, max)] && s1.b.index == s.b.index
    ensures chunks != [] ==> s0.b.index + DataOffset(chunks, 0) <= |s1.received|
    ensures var w := Serve(capacity, visits + NoArrivals(k), max);
      && Tracks(f, w.r)
      && if ComesOut(s1, first, chunks, s0.b.index, max) then ChunksFinished(f, r, chunks)
         else Hopeless(s0, f, w, chunks, max)
  {
    hide HeadTaken, FramingOf, ReadRequest, Stream, Frames, Serve, Dechunking, ComesOut, Exec, Dispatch, PrintRequest,
      DataOffset, ChunksFinished, Once, CallsOf, TokensOf, Append, Sane;
    var v, t := Serve(capacity, visits, max), Least(|all|, max);
    HeadTakenIsChunked(s0, r, max);
    AllDataReceived(chunks);
    assert Once(max, max) == max by { OnceIsAll(max); }
    VisitAtOnce(v.r, all[c..], max);
    Rest(all, c, t);
    var e, rd1 := ReadFirst(s, v.r, v.incoming, max);
    s1 := Happen(s, e, max);
    assert s1.received == all[..t];
    DechunkingByRead(s0, s, chunks, first, false, e.bytes, e.capacity, max);
    DeliveredSoFar(s0, s1, r, Stream(chunks, tail), all, t);
    SaneIsTidy(rd1, max);
    IdleVisit(capacity, visits, max);
    assert visits + [[]] == visits + NoArrivals(1);
    f := Happen(s1, Parse, max);
    k := 1;
    if ComesOut(s1, first, chunks, s0.b.index, max) {
      var first' := ParseGetsTheNext(s0, s1, chunks, tail, first, false, max);
      BodyTokenReturns(s0, s1, rd1, chunks, first, first', max);
      OneCall(s1, rd1, max);
      if f.p.done {
        AllHandedOut(s0, f, r, chunks, first', false, max);
      } else {
        OutAlready(s0, f, first', chunks, max);
        var m;
        m, f := VisitsFinish(capacity, visits + [[]], s0, f, r, chunks, tail, first', max);
        assert visits + [[]] + NoArrivals(m) == visits + NoArrivals(1 + m);
        k := 1 + m;
      }
    } else {
      BadCall(s0, s1, rd1, chunks, tail, first, max);
    }
  }

  lemma OnceIsAll(max: int)
    requires 0 < max
    ensures Once(max, max) == max
  {
  }

  lemma DeliveredSoFar(s0: Session, s: Session, r: Request, w: string, all: string, t: nat)
    requires all == PrintRequest(r) + w && t <= |all| && s.received == all[..t] && s0.b.index == |PrintRequest(r)| <= t
    ensures Delivers(s0, s, w)
  {
    hide PrintRequest;
    var n := |PrintRequest(r)|;
    assert all[..t][n..] == all[n..][..t - n] && all[n..] == w;
  }

  // --- the cut ---

  /** The first chunk, from `j` on, that is not handed out when the stream has been received up to offset `x`:
      more than its last byte is missing, or its data has not begun. */
  function CutChunk(chunks: seq<Segment>, x: int, j: nat): (i: nat)
    requires j <= |chunks|
    ensures j <= i <= |chunks|
    decreases |chunks| - j
  {
    if j == |chunks| || x <= DataOffset(chunks, j) || x + 1 < DataEnd(chunks, j) then j
    else CutChunk(chunks, x, j + 1)
  }

  /** What the cut does to chunk `j`, if that is the one it falls into: nothing if it falls before the data; the
      first chunk has to come out of two looks, a later one must not have to be moved. */
  ghost predicate CutIsHarmless(chunks: seq<Segment>, all: string, at: nat, c: int, j: nat, max: int)
    requires j <= |chunks|
  {
    j == |chunks| || c <= at + DataOffset(chunks, j) ||
    if j > 0 then c - 1 + |chunks[j].data| <= max
    else
      var d := at + DataOffset(chunks, 0);
      c <= |all| && InTwoLooks(|chunks[0].data|, all[d..], c - d, max - d) == Gives(|chunks[0].data|)
  }

  /** The state in which the chunks before the cut are handed out. */
  ghost predicate BeforeCut(s0: Session, s: Session, v: Served, chunks: seq<Segment>, first: Glimpse, all: string,
      c: nat,
      max: int)
  {
    && Tracks(s, v.r) && c < |all| && v.incoming == [Data(all[c..])]
    && s.received == all[..c] && s.b.length == c < max == s.b.capacity
    && Dechunking(s0, s, chunks, first, false) && !s.p.done
    && s.p.sequenceId != s.b.sequenceId && s.p.sequenceId != NextSequence(s.b.sequenceId)
    && var j := Next(s0, s);
       && (j == 0 ==> first == Waits(Kept))
       && (j < |chunks| ==> s.b.index <= s0.b.index + DataOffset(chunks, j))
  }

  /** A look at the data of the first chunk, up to the cut and, if it is awaited, all of it. */
  lemma TwoLooks(s: Session, s1: Session, chunks: seq<Segment>, all: string, at: nat, c: nat, t: nat, max: int)
    requires chunks != [] && c <= t <= |all| && s.received == all[..c] && s1.received == all[..t]
    requires at + DataOffset(chunks, 0) < c
    ensures var d := at + DataOffset(chunks, 0); var len := |chunks[0].data|;
      && all[..t][d..][..c - d] == all[d..c]
      && (s.b.index <= d ==> LookAt(s, Kept, chunks, at, 0, max) == FirstLook(len, all[..t][d..], c - d, max - d))
      && (s1.b.index == c && FirstLook(len, all[..t][d..], c - d, max - d).Waits? ==>
            LookAt(s1, FirstLook(len, all[..t][d..], c - d, max - d).lead, chunks, at, 0, max)
              == InTwoLooks(len, all[..t][d..], c - d, max - d))
  {
    hide DataOffset, Look;
    var d := at + DataOffset(chunks, 0);
    assert all[..t][d..][..c - d] == all[d..c];
    assert s.received[d..] == all[d..c];
    assert s1.received[d..] == all[..t][d..];
  }

  /** A visit that makes one call. */
  lemma OneIdleCall(capacity: int, visits: seq<seq<Arrival>>, s: Session, max: int)
    requires 0 < capacity <= max && Tracks(s, Serve(capacity, visits, max).r) && s.b.Valid() && s.b.index < s.b.length
    requires var f := Happen(s, Parse, max); f.tokens == s.tokens || f.tokens[|s.tokens|].kind.Body?
    ensures var w := Serve(capacity, visits + [[]], max);
      Tracks(Happen(s, Parse, max), w.r) && w.incoming == Serve(capacity, visits, max).incoming
  {
    hide Serve, Dispatch, Exec, CallsOf, TokensOf, ReadRequest, Sane;
    var v := Serve(capacity, visits, max);
    NoRead(v.r, v.incoming, max);
    CalledBody(s, v.r, max);
    OneCall(s, v.r, max);
    IdleVisit(capacity, visits, max);
  }

  /** Before the data of the next chunk, or behind the last one, the cut does no harm. */
  lemma CutBeforeData(s0: Session, s: Session, v: Served, chunks: seq<Segment>, first: Glimpse, all: string, c: nat,
      max: int)
    requires BeforeCut(s0, s, v, chunks, first, all, c, max) && GoodChunks(chunks)
    requires var j := Next(s0, s); j < |chunks| ==> c <= s0.b.index + DataOffset(chunks, j)
    ensures 0 <= Next(s0, s) <= |chunks|
    ensures var i := CutChunk(chunks, c - s0.b.index, Next(s0, s));
      i == Next(s0, s) && CutIsHarmless(chunks, all[..Least(|all|, max)], s0.b.index, c, i, max)
  {
    hide DataOffset, Between, Within;
    HandedOutUpTo(s0, s, chunks, first, false);
  }

  lemma NextIsOut(s0: Session, s1: Session, chunks: seq<Segment>, first: Glimpse, max: int)
    requires GoodChunks(chunks) && (chunks == [] || first == Gives(|chunks[0].data|) || (first == Waits(Kept)
      && s1.b.index <= s0.b.index + DataOffset(chunks, 0)))
    requires s0.b.index + |Frames(chunks) + LAST_CHUNK| <= |s1.received|
    ensures chunks != [] ==> s0.b.index + DataOffset(chunks, 0) <= |s1.received|
    ensures ComesOut(s1, first, chunks, s0.b.index, max)
  {
    hide DataOffset, Frames, LookAt;
    AllDataReceived(chunks);
    if chunks != [] && first.Waits? {
      AllDataReceived(chunks);
      WholeChunk(s1, Kept, chunks, s0.b.index, 0, max);
    }
  }

  /** All up to the cut has been handed out, or is none of a chunk: the rest is read, and all comes out. */
  lemma CutElsewhere(capacity: int, visits: seq<seq<Arrival>>, s0: Session, s: Session, r: Request,
      chunks: seq<Segment>, tail: string, first: Glimpse, all: string, c: nat, max: int)
      returns (k: nat, f: Session)
    requires 0 < capacity <= max && GoodChunks(chunks) && HeadTaken(s0, r, max) && FramingOf(r, max).Chunked?
    requires all == PrintRequest(r) + Stream(chunks, tail)
    requires c < |PrintRequest(r)| + |Frames(chunks) + LAST_CHUNK| <= Least(|all|, max)
    requires BeforeCut(s0, s, Serve(capacity, visits, max), chunks, first, all, c, max)
    requires var j := Next(s0, s); s.b.index >= c || !Looks(s, chunks, s0.b.index, j)
    ensures 0 <= Next(s0, s) <= |chunks|
    ensures Tracks(f, Serve(capacity, visits + NoArrivals(k), max).r) && ChunksFinished(f, r, chunks)
    ensures var i := CutChunk(chunks, c - s0.b.index, Next(s0, s));
      CutIsHarmless(chunks, all[..Least(|all|, max)], s0.b.index, c, i, max)
  {
    hide HeadTaken, FramingOf, Stream, Frames, Serve, Exec, PrintRequest, DataOffset, ChunksFinished, ComesOut, Between,
      Within, CutIsHarmless, CutChunk;
    var v, at := Serve(capacity, visits, max), s0.b.index;
    HeadTakenIsChunked(s0, r, max);
    HandedOutUpTo(s0, s, chunks, first, false);
    CutBeforeData(s0, s, v, chunks, first, all, c, max);
    var s1;
    if s.b.index >= c {
      k, s1, f := RestDecides(capacity, visits, s0, s, r, chunks, tail, first, all, c, max);
      NextIsOut(s0, s1, chunks, first, max);
    } else {
      var f1 := LineCall(s0, s, r, chunks, tail, first, all, c, max);
      OneIdleCall(capacity, visits, s, max);
      NextDiffers(s.b.sequenceId);
      k, s1, f := RestDecides(capacity, visits + [[]], s0, f1, r, chunks, tail, first, all, c, max);
      NextIsOut(s0, s1, chunks, first, max);
      assert visits + [[]] + NoArrivals(k) == visits + NoArrivals(1 + k);
      k := 1 + k;
    }
  }

  /** A call that comes to no data uses up the input. */
  lemma LineCall(s0: Session, s: Session, r: Request, chunks: seq<Segment>, tail: string, first: Glimpse, all: string,
      c: nat, max: int)
      returns (f: Session)
    requires GoodChunks(chunks) && all == PrintRequest(r) + Stream(chunks, tail) && s0.b.index == |PrintRequest(r)| <= c
    requires c < |PrintRequest(r)| + |Frames(chunks) + LAST_CHUNK| && c < |all|
    requires s.received == all[..c] && s.b.length == c && s.b.index < c && s.p.sequenceId != s.b.sequenceId
    requires Dechunking(s0, s, chunks, first, false) && !s.p.done && !Looks(s, chunks, s0.b.index, Next(s0, s))
    ensures f == Happen(s, Parse, max) && Dechunking(s0, f, chunks, first, false) && !f.p.done
    ensures f.tokens == s.tokens && f.received == s.received && f.b == s.b.(index := c)
    ensures f.p.sequenceId == s.b.sequenceId
  {
    hide Stream, PrintRequest, Scan, InLine, Waiting, Look, Ended, DataOffset, DataEnd, Frames, Within;
    f := Happen(s, Parse, max);
    DeliveredSoFar(s0, s, r, Stream(chunks, tail), all, c);
    DechunkingByLine(s0, s, chunks, tail, first, false, max);
    CallOutcome(s, if first.Waits? then first.lead else Kept, chunks, tail, s0.b.index, Next(s0, s), max);
    WholeOffset(chunks);
  }

  lemma WholeOffset(chunks: seq<Segment>)
    ensures Offset(chunks, |chunks|) + 3 == |Frames(chunks) + LAST_CHUNK|
  {
    hide Frames;
    assert chunks[..|chunks|] == chunks;
  }

  /** A look at a chunk that is complete up to a byte hands it out. */
  lemma CompleteAtCut(s: Session, chunks: seq<Segment>, at: nat, j: nat, c: nat, max: int)
    requires j < |chunks| && |s.received| == c && s.b.index < c && at + DataOffset(chunks, j) < c
    requires at + DataEnd(chunks, j) <= c + 1
    ensures LookAt(s, Kept, chunks, at, j, max) == Gives(|chunks[j].data|)
  {
    hide DataOffset;
    var d := at + DataOffset(chunks, j);
    WholeLook(j == 0, Kept, |chunks[j].data|, s.received[d..], if s.b.index > d then s.b.index - d else 0, max - d);
  }

  lemma HandedOutIsBody(s0: Session, s: Session, r: Request, chunks: seq<Segment>, tail: string, first: Glimpse,
      all: string, c: nat, max: int)
    requires GoodChunks(chunks) && all == PrintRequest(r) + Stream(chunks, tail) && s0.b.index == |PrintRequest(r)| <= c
    requires c < |all| && s.received == all[..c] && s.b.length == c && s.b.index < c
    requires Dechunking(s0, s, chunks, first, false) && !s.p.done && (Next(s0, s) == 0 ==> first == Waits(Kept))
    requires Looks(s, chunks, s0.b.index, Next(s0, s)) && s0.b.index + DataEnd(chunks, Next(s0, s)) <= c + 1
    ensures var f := Happen(s, Parse, max); |f.tokens| == |s.tokens| + 1 && f.tokens[|s.tokens|].kind.Body?
  {
    hide Stream, PrintRequest, Scan, InLine, Waiting, LookAt, Ended, DataOffset, Frames, Within, Exec;
    var at, j := s0.b.index, Next(s0, s);
    DeliveredSoFar(s0, s, r, Stream(chunks, tail), all, c);
    CompleteAtCut(s, chunks, at, j, c, max);
    CallOutcome(s, Kept, chunks, tail, at, j, max);
    LookEnds(s, Gives(|chunks[j].data|), chunks, at, j, max);
  }

  /** The chunk is handed out, and the next one is before the cut. */
  lemma HandedOutAtCut(s0: Session, s: Session, v: Served, w: Served, r: Request, chunks: seq<Segment>, tail: string,
      first: Glimpse, all: string, c: nat, max: int)
      returns (f: Session)
    requires GoodChunks(chunks) && all == PrintRequest(r) + Stream(chunks, tail) && s0.b.index == |PrintRequest(r)| <= c
    requires BeforeCut(s0, s, v, chunks, first, all, c, max) && Next(s0, s) < |chunks| && s.b.index < c
    requires Looks(s, chunks, s0.b.index, Next(s0, s)) && s0.b.index + DataEnd(chunks, Next(s0, s)) <= c + 1
    requires Tracks(Happen(s, Parse, max), w.r) && w.incoming == v.incoming
    ensures f == Happen(s, Parse, max) && Next(s0, f) == Next(s0, s) + 1
    ensures BeforeCut(s0, f, w, chunks, Gives(|chunks[0].data|), all, c, max)
  {
    hide Stream, PrintRequest, Scan, InLine, Waiting, LookAt, Ended, DataOffset, Frames, Within, CallsOf, TokensOf,
      Exec;
    var at, j := s0.b.index, Next(s0, s);
    f := Happen(s, Parse, max);
    HandedOutUpTo(s0, s, chunks, first, false);
    DeliveredSoFar(s0, s, r, Stream(chunks, tail), all, c);
    CompleteAtCut(s, chunks, at, j, c, max);
    CallOutcome(s, Kept, chunks, tail, at, j, max);
    LookEnds(s, Gives(|chunks[j].data|), chunks, at, j, max);
    ChunkAdded(s0, s, f, chunks, tail, first, Gives(|chunks[0].data|), false);
    FramesSplit(chunks, j);
    if j + 1 < |chunks| {
      NextData(chunks, j);
    }
  }

  lemma NextData(chunks: seq<Segment>, j: nat)
    requires j + 1 < |chunks|
    ensures DataEnd(chunks, j) <= DataOffset(chunks, j + 1)
  {
    hide Frames;
    FramesSplit(chunks, j);
  }

  /** The cut falls into the data of the next chunk. */
  lemma CutInData(capacity: int, visits: seq<seq<Arrival>>, s0: Session, s: Session, r: Request,
      chunks: seq<Segment>, tail: string, first: Glimpse, all: string, c: nat, max: int)
      returns (k: nat, f: Session)
    requires 0 < capacity <= max && GoodChunks(chunks) && HeadTaken(s0, r, max) && FramingOf(r, max).Chunked?
    requires all == PrintRequest(r) + Stream(chunks, tail)
    requires c < |PrintRequest(r)| + |Frames(chunks) + LAST_CHUNK| <= Least(|all|, max)
    requires BeforeCut(s0, s, Serve(capacity, visits, max), chunks, first, all, c, max)
    requires 0 <= Next(s0, s) < |chunks| && s.b.index < c && Looks(s, chunks, s0.b.index, Next(s0, s))
    requires c + 1 < s0.b.index + DataEnd(chunks, Next(s0, s))
    ensures var w := Serve(capacity, visits + NoArrivals(k), max);
      && Tracks(f, w.r)
      && if CutIsHarmless(chunks, all[..Least(|all|, max)], s0.b.index, c, Next(s0, s), max)
        then ChunksFinished(f, r, chunks)
         else Hopeless(s0, f, w, chunks, max)
  {
    hide HeadTaken, FramingOf, Stream, Frames, Serve, Exec, PrintRequest, DataOffset, ChunksFinished, Between, LookAt,
      Within, Scan, InLine, Waiting, Look, Ended, CallsOf, TokensOf, InTwoLooks, ComesOut;
    var v, at, j := Serve(capacity, visits, max), s0.b.index, Next(s0, s);
    var t := Least(|all|, max);
    HeadTakenIsChunked(s0, r, max);
    DeliveredSoFar(s0, s, r, Stream(chunks, tail), all, c);
    var g := LookAt(s, Kept, chunks, at, j, max);
    CallOutcome(s, Kept, chunks, tail, at, j, max);
    LookEnds(s, g, chunks, at, j, max);
    LooksAhead(s, chunks, at, j, Kept, max);
    var f1 := Happen(s, Parse, max);
    OneIdleCall(capacity, visits, s, max);
    assert visits + [[]] == visits + NoArrivals(1);
    k, f := 1, f1;
    if g.Waits? {
      NextDiffers(s.b.sequenceId);
      var first' := if j == 0 then g else first;
      DechunkingByLook(s0, s, chunks, tail, first, first', false, max);
      var s1;
      k, s1, f := RestDecides(capacity, visits + [[]], s0, f1, r, chunks, tail, first', all, c, max);
      assert visits + [[]] + NoArrivals(k) == visits + NoArrivals(1 + k);
      k := 1 + k;
      AwaitedAtCut(s0, s, s1, v, chunks, first, first', all, c, t, max);
    } else {
      LostAtCut(s0, s, f1, v, Serve(capacity, visits + NoArrivals(1), max), chunks, first, all, c, t, max);
    }
  }

  /** If the chunk is awaited: it comes out of the next look exactly if the cut does no harm. */
  lemma AwaitedAtCut(s0: Session, s: Session, s1: Session, v: Served, chunks: seq<Segment>, first: Glimpse,
      first': Glimpse,
      all: string, c: nat, t: nat, max: int)
    requires GoodChunks(chunks) && BeforeCut(s0, s, v, chunks, first, all, c, max) && c <= t <= |all|
    requires 0 <= Next(s0, s) < |chunks| && s.b.index < c && s0.b.index + DataOffset(chunks, Next(s0, s)) < c
    requires c + 1 < s0.b.index + DataEnd(chunks, Next(s0, s))
    requires var g := LookAt(s, Kept, chunks, s0.b.index, Next(s0, s), max);
      g.Waits? && first' == if Next(s0, s) == 0 then g else first
    requires s1.received == all[..t] && s1.b.index == c
    requires s0.b.index + DataOffset(chunks, 0) <= |s1.received|
    ensures ComesOut(s1, first', chunks, s0.b.index, max)
      <==> CutIsHarmless(chunks, all[..t], s0.b.index, c, Next(s0, s), max)
  {
    hide DataOffset, Between, Within, LookAt, InTwoLooks, FirstLook;
    var at, j := s0.b.index, Next(s0, s);
    LooksAhead(s, chunks, at, j, Kept, max);
    if j == 0 {
      TwoLooks(s, s1, chunks, all, at, c, t, max);
      LooksTwice(|chunks[0].data|, all[..t][at + DataOffset(chunks, 0)..], c - at - DataOffset(chunks, 0),
        max - at - DataOffset(chunks, 0));
    }
  }

  lemma LooksTwice(len: nat, data: string, m: nat, room: int)
    requires m <= |data|
    ensures var g := FirstLook(len, data, m, room); !g.Waits? ==> InTwoLooks(len, data, m, room) == g
  {
    hide Look, FirstLook;
  }

  /** If it is not: the cut does harm, and the run is hopeless. */
  lemma LostAtCut(s0: Session, s: Session, f: Session, v: Served, w: Served, chunks: seq<Segment>, first: Glimpse,
      all: string,
      c: nat, t: nat, max: int)
    requires GoodChunks(chunks) && BeforeCut(s0, s, v, chunks, first, all, c, max) && c <= t <= |all|
    requires 0 <= Next(s0, s) < |chunks| && s.b.index < c && s0.b.index + DataOffset(chunks, Next(s0, s)) < c
    requires c + 1 < s0.b.index + DataEnd(chunks, Next(s0, s))
    requires var g := LookAt(s, Kept, chunks, s0.b.index, Next(s0, s), max);
      !g.Waits? && Glimpsed(s, f, g, chunks, s0.b.index, Next(s0, s))
    requires Tracks(f, w.r)
    ensures !CutIsHarmless(chunks, all[..t], s0.b.index, c, Next(s0, s), max) && Hopeless(s0, f, w, chunks, max)
  {
    hide DataOffset, Between, Within, LookAt, InTwoLooks, FirstLook, CallsOf, TokensOf;
    var at, j := s0.b.index, Next(s0, s);
    LooksAhead(s, chunks, at, j, Kept, max);
    if j == 0 {
      TwoLooks(s, s.(received := all[..t]), chunks, all, at, c, t, max);
      LooksTwice(|chunks[0].data|, all[..t][at + DataOffset(chunks, 0)..], c - at - DataOffset(chunks, 0),
        max - at - DataOffset(chunks, 0));
    }
  }

  /** All that happens up to the cut and from there on. */
  lemma {:induction false} CutRun(capacity: int, visits: seq<seq<Arrival>>, s0: Session, s: Session, r: Request,
      chunks: seq<Segment>, tail: string, first: Glimpse, all: string, c: nat, max: int)
      returns (k: nat, f: Session)
    requires 0 < capacity <= max && GoodChunks(chunks) && HeadTaken(s0, r, max) && FramingOf(r, max).Chunked?
    requires all == PrintRequest(r) + Stream(chunks, tail)
    requires c < |PrintRequest(r)| + |Frames(chunks) + LAST_CHUNK| <= Least(|all|, max)
    requires BeforeCut(s0, s, Serve(capacity, visits, max), chunks, first, all, c, max)
    ensures 0 <= Next(s0, s) <= |chunks|
    ensures var w := Serve(capacity, visits + NoArrivals(k), max); var i := CutChunk(chunks, c - s0.b.index,
      Next(s0, s));
      && Tracks(f, w.r)
      && if CutIsHarmless(chunks, all[..Least(|all|, max)], s0.b.index, c, i, max) then ChunksFinished(f, r, chunks)
         else Hopeless(s0, f, w, chunks, max)
    decreases |chunks| - Next(s0, s)
  {
    hide HeadTaken, FramingOf, Stream, Frames, Serve, Exec, PrintRequest, DataOffset, ChunksFinished, Between, Hopeless,
      Within, CallsOf, TokensOf, CutIsHarmless;
    var v, at := Serve(capacity, visits, max), s0.b.index;
    HeadTakenIsChunked(s0, r, max);
    HandedOutUpTo(s0, s, chunks, first, false);
    var j := Next(s0, s);
    if s.b.index >= c || !Looks(s, chunks, at, j) {
      k, f := CutElsewhere(capacity, visits, s0, s, r, chunks, tail, first, all, c, max);
    } else if c + 1 < at + DataEnd(chunks, j) {
      k, f := CutInData(capacity, visits, s0, s, r, chunks, tail, first, all, c, max);
    } else {
      assert visits + [[]] == visits + NoArrivals(1);
      HandedOutIsBody(s0, s, r, chunks, tail, first, all, c, max);
      OneIdleCall(capacity, visits, s, max);
      var f1 := HandedOutAtCut(s0, s, v, Serve(capacity, visits + [[]], max), r, chunks, tail, first, all, c, max);
      k, f := CutRun(capacity, visits + [[]], s0, f1, r, chunks, tail, Gives(|chunks[0].data|), all, c, max);
      assert visits + [[]] + NoArrivals(k) == visits + NoArrivals(1 + k);
      k := 1 + k;
    }
  }

  // --- all at once ---

  /** A head complete in the first or second visit, with all of the chunks in the buffer. */
  lemma AllInBuffer(capacity: int, visits: seq<seq<Arrival>>, s0: Session, r: Request, chunks: seq<Segment>,
      tail: string,
      all: string, t: nat, max: int)
      returns (k: nat, f: Session)
    requires 0 < capacity <= max && GoodChunks(chunks) && HeadTaken(s0, r, max) && FramingOf(r, max).Chunked?
    requires all == PrintRequest(r) + Stream(chunks, tail) && t <= |all| && s0.received == all[..t]
    requires |PrintRequest(r)| + |Frames(chunks) + LAST_CHUNK| <= t
    requires Tracks(s0, Serve(capacity, visits, max).r)
    ensures Tracks(f, Serve(capacity, visits + NoArrivals(k), max).r) && ChunksFinished(f, r, chunks)
  {
    hide HeadTaken, FramingOf, Stream, Frames, Serve, PrintRequest, Dechunking, ComesOut, DataOffset;
    HeadTakenIsChunked(s0, r, max);
    FromHead(s0, max);
    NothingBefore(s0, chunks, false, max);
    DeliveredSoFar(s0, s0, r, Stream(chunks, tail), all, t);
    NextIsOut(s0, s0, chunks, Waits(Kept), max);
    k, f := VisitsFinish(capacity, visits, s0, s0, r, chunks, tail, Waits(Kept), max);
  }

  /** No chunk lies across a cut behind all of them. */
  lemma {:induction false} NoneAcross(chunks: seq<Segment>, x: int, j: nat)
    requires j <= |chunks| && |Frames(chunks) + LAST_CHUNK| <= x && GoodChunks(chunks)
    ensures CutChunk(chunks, x, j) == |chunks|
    decreases |chunks| - j
  {
    hide Frames, DataOffset;
    if j < |chunks| {
      WholeFrames(chunks, j);
      NoneAcross(chunks, x, j + 1);
    }
  }

  /** What the cut does to a chunked request whose bytes are all there: the condition under which it is
      finished. */
  ghost predicate SurvivesTheCut(r: Request, chunks: seq<Segment>, tail: string, c: int, max: int)
    requires 0 <= max
  {
    var all := PrintRequest(r) + Stream(chunks, tail);
    CutIsHarmless(chunks, all[..Least(|all|, max)], |PrintRequest(r)|, c, CutChunk(chunks, c - |PrintRequest(r)|, 0),
      max)
  }

  lemma CutsElsewhereAreHarmless(r: Request, chunks: seq<Segment>, tail: string, c: int, max: int)
    requires 0 <= max && GoodChunks(chunks)
    requires c < |PrintRequest(r)| || |PrintRequest(r)| + |Frames(chunks) + LAST_CHUNK| <= c
    ensures SurvivesTheCut(r, chunks, tail, c, max)
  {
    hide Frames, PrintRequest, Stream, DataOffset;
    if c >= |PrintRequest(r)| {
      NoneAcross(chunks, c - |PrintRequest(r)|, 0);
    }
  }

  /** The visit that finds all, and one that finds the rest of a head. */
  lemma OpeningVisits(capacity: int, r: Request, chunks: seq<Segment>, tail: string, all: string, max: int)
      returns (k: nat, s0: Session)
    requires 0 < capacity <= max && GoodRequest(r) && FramingOf(r, max).Chunked?
    requires all == PrintRequest(r) + Stream(chunks, tail) && |PrintRequest(r)| < Least(|all|, max)
    ensures var c := Once(capacity, max); var t := Least(|all|, if |PrintRequest(r)| <= c then c else max);
      var v := Serve(capacity, [[Data(all)]] + NoArrivals(k), max);
      && HeadTaken(s0, r, max) && Tracks(s0, v.r) && s0.received == all[..t]
      && s0.p.sequenceId != NextSequence(s0.b.sequenceId)
      && (|PrintRequest(r)| <= c < |all| ==> v.incoming == [Data(all[c..])] && s0.b.capacity == max)
  {
    hide HeadTaken, FramingOf, Stream, Frames, PrintRequest, GoodRequest, ReadRequest, Reading, Once, CallsOf, TokensOf;
    var c := Once(capacity, max);
    var first := [[Data(all)]];
    FreshHead(capacity, max);
    RequestIsNotEmpty(r);
    OneArrival(all);
    FirstVisitIs(capacity, all, max);
    VisitAtOnce(NewReader(capacity), all, max);
    var v := ReadRequest(NewReader(capacity), [Data(all)], max);
    VisitKeepsSane(NewReader(capacity), [Data(all)], max);
    assert "" + Pending([Data(all)]) == all;
    var s := HeadersVisit(Start(capacity), NewReader(capacity), [Data(all)], r, Stream(chunks, tail), max);
    assert "" + v.taken == v.taken;
    NextDiffers(0);
    k, s0 := 0, s;
    assert first + NoArrivals(0) == first;
    if s.b.afterHeaders == 0 {
      ReadingIsBounded(s, max);
      HeadNotWhole(s, r, Stream(chunks, tail), max);
      VisitKeepsRoomy(NewReader(capacity), [Data(all)], max);
      s0 := SecondVisit(capacity, s, v, r, Stream(chunks, tail), all, c, max);
      IdleVisit(capacity, first, max);
      assert first + [[]] == first + NoArrivals(1);
      k := 1;
    } else {
      HeadTakenIsWhole(s, r, max);
    }
  }

  lemma FirstVisitIs(capacity: int, all: string, max: int)
    requires 0 < capacity <= max
    ensures Sane(NewReader(capacity), max)
    ensures var v := ReadRequest(NewReader(capacity), [Data(all)], max);
      Serve(capacity, [[Data(all)]], max) == Served(v.r, v.incoming)
  {
    hide ReadRequest;
    assert [[Data(all)]][..0] == [] && [] + [Data(all)] == [Data(all)];
  }

  lemma HeadTakenIsWhole(s: Session, r: Request, max: int)
    requires HeadTaken(s, r, max)
    ensures |PrintRequest(r)| <= |s.received| && s.b.length == |s.received|
  {
    hide HeadComplete, PrintRequest, FramingOf, RequestTokens;
    FromHead(s, max);
  }

  lemma SecondVisit(capacity: int, s: Session, v: Visit, r: Request, body: string, all: string, c: nat, max: int)
      returns (s0: Session)
    requires GoodRequest(r) && FramingOf(r, max).Chunked? && all == PrintRequest(r) + body
    requires Tracks(s, v.r) && Sane(v.r, max) && Roomy(v.r.b, max) && HeadState(s, v.r, max) && s.b.length == c
    requires c < |PrintRequest(r)| < Least(|all|, max) && s.received == all[..c] && v.incoming == [Data(all[c..])]
    requires v.r.b.capacity == max
    ensures var w := ReadRequest(v.r, v.incoming, max);
      && HeadTaken(s0, r, max) && Tracks(s0, w.r) && s0.received == all[..Least(|all|, max)]
      && s0.p.sequenceId != NextSequence(s0.b.sequenceId)
  {
    hide HeadTaken, FramingOf, PrintRequest, GoodRequest, ReadRequest, Reading, Once, CallsOf, TokensOf, Sane;
    var t := Least(|all|, max);
    OneArrival(all[c..]);
    OnceIsAll(max);
    assert all[..c] + all[c..] == all;
    assert s.received + Pending(v.incoming) == all;
    VisitAtOnce(v.r, all[c..], max);
    Rest(all, c, t);
    s0 := HeadersVisit(s, v.r, v.incoming, r, body, max);
    VisitKeepsSane(v.r, v.incoming, max);
    NextDiffers(s.b.sequenceId);
    if s0.b.afterHeaders == 0 {
      ReadingIsBounded(s0, max);
      HeadNotWhole(s0, r, body, max);
    }
  }

  /** A chunked request that fits into the largest buffer and whose bytes are all there when the reader first
      looks is finished by some number of visits if it survives the cut, and by none otherwise. */
  lemma ArrivesAtOnce(capacity: int, r: Request, chunks: seq<Segment>, tail: string, max: int) returns (k: nat)
    requires 0 < capacity <= max && GoodRequest(r) && FramingOf(r, max).Chunked? && GoodChunks(chunks)
    requires |PrintRequest(r)| + |Frames(chunks) + LAST_CHUNK| <= max
    ensures var all := PrintRequest(r) + Stream(chunks, tail);
      if SurvivesTheCut(r, chunks, tail, Once(capacity, max), max)
      then ServedAll(Serve(capacity, [[Data(all)]] + NoArrivals(k), max).r, r, chunks)
      else forall n: nat :: !ServedAll(Serve(capacity, [[Data(all)]] + NoArrivals(n), max).r, r, chunks)
  {
    hide HeadTaken, FramingOf, Stream, Frames, PrintRequest, GoodRequest, Once, Serve, ServedAll, Hopeless, CallsOf,
      TokensOf, CutIsHarmless, DataOffset, Dechunking;
    var all := PrintRequest(r) + Stream(chunks, tail);
    var c := Once(capacity, max);
    var first := [[Data(all)]];
    StreamLength(chunks, tail);
    var n, s0 := OpeningVisits(capacity, r, chunks, tail, all, max);
    var f;
    if c < |PrintRequest(r)| || |PrintRequest(r)| + |Frames(chunks) + LAST_CHUNK| <= c {
      CutsElsewhereAreHarmless(r, chunks, tail, c, max);
      k, f := AllInBuffer(capacity, first + NoArrivals(n), s0, r, chunks, tail, all, |s0.received|, max);
      FinishedIsServed(f, Serve(capacity, first + NoArrivals(n) + NoArrivals(k), max).r, r, chunks);
    } else {
      HeadTakenIsChunked(s0, r, max);
      StartsBeforeCut(s0, Serve(capacity, first + NoArrivals(n), max), r, chunks, all, c, max);
      k, f := CutRun(capacity, first + NoArrivals(n), s0, s0, r, chunks, tail, Waits(Kept), all, c, max);
      if SurvivesTheCut(r, chunks, tail, c, max) {
        FinishedIsServed(f, Serve(capacity, first + NoArrivals(n) + NoArrivals(k), max).r, r, chunks);
      } else {
        HeadAnnouncesBody(s0, max);
        assert first + NoArrivals(n) + NoArrivals(k) == first + NoArrivals(n + k);
        forall m: nat ensures !ServedAll(Serve(capacity, first + NoArrivals(m), max).r, r, chunks) {
          NeverServed(s0, f, capacity, first, n + k, r, chunks, m, max);
        }
      }
    }
    assert first + NoArrivals(n) + NoArrivals(k) == first + NoArrivals(n + k);
    k := n + k;
  }

  lemma FinishedIsServed(f: Session, rd: Reader, r: Request, chunks: seq<Segment>)
    requires Tracks(f, rd) && ChunksFinished(f, r, chunks)
    ensures ServedAll(rd, r, chunks)
  {
    hide CallsOf, TokensOf, ChunkCalls, ChunkTokens, PrintRequest;
  }

  lemma StartsBeforeCut(s0: Session, v: Served, r: Request, chunks: seq<Segment>, all: string, c: nat, max: int)
    requires HeadTaken(s0, r, max) && FramingOf(r, max).Chunked? && Tracks(s0, v.r)
    requires c < |all| && c < max && s0.received == all[..c] && v.incoming == [Data(all[c..])] && s0.b.capacity == max
    requires s0.p.sequenceId != NextSequence(s0.b.sequenceId)
    ensures BeforeCut(s0, s0, v, chunks, Waits(Kept), all, c, max)
  {
    hide HeadTaken, FramingOf, CallsOf, TokensOf, Dechunking, Frames;
    HeadTakenIsChunked(s0, r, max);
    HeadTakenIsWhole(s0, r, max);
    FromHead(s0, max);
    NothingBefore(s0, chunks, false, max);
  }

  /** So it is finished if it fits into what the buffer holds before it grows to its largest size. */
  lemma FittingChunksAreServed(capacity: int, r: Request, chunks: seq<Segment>, tail: string, max: int) returns (k: nat)
    requires 0 < capacity <= max && GoodRequest(r) && FramingOf(r, max).Chunked? && GoodChunks(chunks)
    requires |PrintRequest(r)| + |Frames(chunks) + LAST_CHUNK| <= Once(capacity, max)
    ensures var all := PrintRequest(r) + Stream(chunks, tail);
      ServedAll(Serve(capacity, [[Data(all)]] + NoArrivals(k), max).r, r, chunks)
  {
    hide FramingOf, Stream, Frames, PrintRequest, GoodRequest, Once, Serve, ServedAll;
    CutsElsewhereAreHarmless(r, chunks, tail, Once(capacity, max), max);
    k := ArrivesAtOnce(capacity, r, chunks, tail, max);
  }

  /** One chunk of text, with the cut behind its second byte, is lost however much room there is. */
  lemma TextAcrossTheCutIsLost(capacity: int, r: Request, x: Segment, tail: string, n: nat, max: int)
    requires 0 < capacity <= max && GoodRequest(r) && FramingOf(r, max).Chunked?
    requires |PrintRequest(r)| + |Frames([x]) + LAST_CHUNK| <= max && |x.data| > 2 && GoodSize(x)
    requires var d := |PrintRequest(r)| + DataOffset([x], 0); d + 1 < Once(capacity, max) < d + |x.data| - 1
    requires !IsHexDigit(x.data[1]) && !IsHexDigit(x.data[2])
    ensures var all := PrintRequest(r) + Stream([x], tail);
      !ServedAll(Serve(capacity, [[Data(all)]] + NoArrivals(n), max).r, r, [x])
  {
    hide FramingOf, Stream, PrintRequest, GoodRequest, Once, Serve, ServedAll, InTwoLooks, Frames;
    var all, c, at := PrintRequest(r) + Stream([x], tail), Once(capacity, max), |PrintRequest(r)|;
    var d, t := at + DataOffset([x], 0), Least(|all|, max);
    StreamLength([x], tail);
    WholeFrames([x], 0);
    FrameParts([x], tail, 0);
    var data := all[..t][d..];
    assert data[1] == Stream([x], tail)[DataOffset([x], 0) + 1] && data[2] == Stream([x], tail)[DataOffset([x], 0) + 2];
    TextIsReadAsTheEnd(|x.data|, data, c - d, 1, max - d);
    assert CutChunk([x], c - at, 0) == 0;
    assert !SurvivesTheCut(r, [x], tail, c, max);
    var k := ArrivesAtOnce(capacity, r, [x], tail, max);
  }
}

/**
  Where the parser falls short on chunked bodies, and exactly when: the first chunk can lose its length,
  a chunk is handed out one byte early, and moving the data of a chunk strands the connection.
 */
module ChunkShortfalls {
  import opened Automaton
  import opened Parser
  import opened Sessions
  import opened Bodies
  import opened HeadResults
  import opened Digits
  import opened ChunkStream
  import opened ChunkLooks
  import opened Chunks
  import opened ReadSocket
  import opened Callbacks

  // --- the first chunk ---

  /** What has come of the first chunk, when the looks at it have come to `g`. */
  ghost predicate FirstSoFar(s0: Session, s: Session, g: Glimpse, chunks: seq<Segment>)
    requires chunks != []
  {
    var d := s0.b.index + DataOffset(chunks, 0);
    match g
    case Waits(lead) =>
      && s.tokens == s0.tokens && s.texts == s0.texts && !s.p.done && s0.b.index <= |s.received|
      && Between(s, lead, chunks, s0.b.index, 0)
    case Gives(len) => s0.tokens + [Token(Body, false, false, len, d)] <= s.tokens
    case Moves => s0.tokens <= s.tokens
  }

  lemma FirstByRead(s0: Session, s: Session, g: Glimpse, chunks: seq<Segment>, bytes: string, capacity: int, max: int)
    requires chunks != [] && s.b.Valid() && FirstSoFar(s0, s, g, chunks)
    ensures FirstSoFar(s0, Happen(s, Read(bytes, capacity), max), g, chunks)
  {
    hide InLine, Waiting;
  }

  lemma TokensGrow(s: Session, max: int)
    requires s.b.Valid()
    ensures s.tokens <= Happen(s, Parse, max).tokens
  {
    hide Exec;
  }

  lemma FirstByParse(s0: Session, s: Session, g: Glimpse, chunks: seq<Segment>, tail: string, max: int)
    requires chunks != [] && GoodChunks(chunks) && s.b.Valid() && FirstSoFar(s0, s, g, chunks)
    requires g.Waits? ==> s.received[s0.b.index..] <= Stream(chunks, tail)
    ensures var g' := if g.Waits? && Looks(s, chunks, s0.b.index, 0)
      then LookAt(s, g.lead, chunks, s0.b.index, 0, max) else g;
      FirstSoFar(s0, Happen(s, Parse, max), g', chunks)
  {
    hide Frames, Stream, Scan, InLine, Waiting, Exec, Look, Ended, DataOffset, DataEnd;
    var at := s0.b.index;
    TokensGrow(s, max);
    if g.Waits? {
      if !Active(s) {
        IdleCall(s, max);
      } else {
        CallOutcome(s, g.lead, chunks, tail, at, 0, max);
        if Looks(s, chunks, at, 0) {
          var g' := LookAt(s, g.lead, chunks, at, 0, max);
          LooksAhead(s, chunks, at, 0, g.lead, max) by { assert |s.received| == s.b.length; }
          LookEnds(s, g', chunks, at, 0, max);
        } else {
          StillInLine(s, g.lead, chunks, at, 0);
          NoDataYet(s, Happen(s, Parse, max), g.lead, chunks, at, max);
        }
      }
    }
  }

  lemma NoDataYet(s: Session, r: Session, lead: Lead, chunks: seq<Segment>, at: nat, max: int)
    requires Between(s, lead, chunks, at, 0) && chunks != [] && Active(s) && lead.Kept?
    requires var x := Scan(s.p.core, s.b, s.b.index, max);
      x.b == s.b && x.signal == STOP && x.at == s.b.length && at <= x.at && InLine(x.core, chunks, 0, x.at - at)
    requires r == Happen(s, Parse, max)
    ensures Between(r, lead, chunks, at, 0) && r.tokens == s.tokens && r.texts == s.texts && !r.p.done
      && r.received == s.received
  {
    hide InLine, Waiting, DataOffset, DataEnd, Scan;
  }

  /** What comes of the first chunk under any schedule, however it is cut: nothing while the looks at its
      data say so, and then a token with the length its data have been read as, so that it is the chunk's
      own if and only if the looks end with its own length. */
  lemma {:induction false} FirstChunkExactly(s0: Session, events: seq<Event>, chunks: seq<Segment>, tail: string,
      max: int)
    requires HeadComplete(s0, max) && s0.p.core.state == SizeStart(true) && GoodChunks(chunks) && chunks != []
    requires Delivers(s0, Play(s0, events, max), Stream(chunks, tail))
    ensures var s := Play(s0, events, max); var g := FirstLooks(s0, chunks, events, max);
      && FirstSoFar(s0, s, g, chunks)
      && (!g.Moves? ==> (s0.tokens + [ChunkToken(chunks, s0.b.index, 0)] <= s.tokens <==> g == Gives(|chunks[0].data|)))
  {
    hide Exec, HeadComplete, Frames, Stream, LookAt, Looks, FirstSoFar;
    FromHead(s0, max);
    if events == [] {
      NothingBefore(s0, chunks, true, max);
      NothingSoFar(s0, chunks);
    } else {
      var n := |events| - 1;
      var s := Play(s0, events[..n], max);
      ReceivedGrows(s0, events[..n], max);
      var r := Play(s0, events, max);
      assert s.received <= r.received && s.received[s0.b.index..] <= r.received[s0.b.index..];
      FirstChunkExactly(s0, events[..n], chunks, tail, max);
      var g := FirstLooks(s0, chunks, events[..n], max);
      match events[n]
      case Read(bytes, capacity) => FirstByRead(s0, s, g, chunks, bytes, capacity, max);
      case Parse => FirstByParse(s0, s, g, chunks, tail, max);
    }
    if !FirstLooks(s0, chunks, events, max).Moves? {
      ItsOwnLength(s0, Play(s0, events, max), FirstLooks(s0, chunks, events, max), chunks);
    }
  }

  lemma NothingSoFar(s0: Session, chunks: seq<Segment>)
    requires chunks != [] && Dechunking(s0, s0, chunks, Waits(Kept), true) && !s0.p.done
    ensures FirstSoFar(s0, s0, Waits(Kept), chunks)
  {
    hide InLine, Waiting;
  }

  lemma ItsOwnLength(s0: Session, s: Session, g: Glimpse, chunks: seq<Segment>)
    requires chunks != [] && FirstSoFar(s0, s, g, chunks) && !g.Moves?
    ensures s0.tokens + [ChunkToken(chunks, s0.b.index, 0)] <= s.tokens <==> g == Gives(|chunks[0].data|)
  {
    hide DataOffset, InLine, Waiting;
    if g.Gives? {
      var t := Token(Body, false, false, g.len, s0.b.index + DataOffset(chunks, 0));
      assert (s0.tokens + [t])[|s0.tokens|] == s.tokens[|s0.tokens|];
      var own := ChunkToken(chunks, s0.b.index, 0);
      assert s0.tokens + [own] <= s.tokens ==> (s0.tokens + [own])[|s0.tokens|] == s.tokens[|s0.tokens|];
    }
  }

  // --- in two reads ---

  function FirstLook(len: nat, data: string, m: nat, room: int): Glimpse
    requires m <= |data|
  {
    if m == 0 then Waits(Kept) else Look(true, Kept, len, data[..m], 0, room)
  }

  /** A look at the first `m` bytes of the data, if there are any, and one at all of it. */
  function InTwoLooks(len: nat, data: string, m: nat, room: int): Glimpse
    requires m <= |data|
  {
    var g := FirstLook(len, data, m, room);
    if g.Waits? then Look(true, g.lead, len, data, m, room) else g
  }

  /** The second byte seen and all that follow up to `m` are zero digits. */
  predicate ZerosUpTo(data: string, m: nat)
    requires m <= |data|
  {
    forall i :: 1 <= i < m ==> data[i] == '0'
  }

  lemma {:induction false} KeptWhile(len: nat, data: string, m: nat, p: nat, room: int)
    requires p <= m <= |data| && m + 1 < len && ZerosUpTo(data, m)
    ensures Look(true, Kept, len, data[..m], p, room) == if p < m && m - 1 + len > room then Moves else Waits(Kept)
    decreases m - p
  {
    if p < m {
      KeptWhile(len, data, m, p + 1, room);
    }
  }

  /** A chunk of which one byte is there at the first look, or nothing, or just zero digits after the first
      byte, is handed out at the second, unless it has to be moved before. */
  lemma KeptInTwoLooks(len: nat, data: string, m: nat, room: int)
    requires 0 < len <= |data| && m < len && ZerosUpTo(data, m)
    ensures InTwoLooks(len, data, m, room) == Gives(len) <==> m == 0 || m + 1 == len || m - 1 + len <= room
  {
    if 0 < m < len - 1 {
      KeptWhile(len, data, m, 0, room);
    }
  }

  /** Up to the first byte `q` that is no zero digit all is well; then the data are read as a size. */
  lemma {:induction false} LostFrom(len: nat, s: string, p: nat, q: nat, room: int)
    requires p <= q < |s| && 1 <= q && |s| + 1 < len && ZerosUpTo(s, q) && s[q] != '0' && q + len <= room
    ensures Look(true, Kept, len, s, p, room) == Look(true, Lost(HexDigitValue(s[q])), len, s, q + 1, room)
    decreases q - p
  {
    if p < q {
      LostFrom(len, s, p + 1, q, room);
    }
  }

  /** Ordinary text that is cut: if the first byte after the zero digits is no digit, and the next one no
      digit but zero, then the chunk is handed out with length zero, which tells the user that the body
      has ended. */
  lemma TextIsReadAsTheEnd(len: nat, data: string, m: nat, q: nat, room: int)
    requires 1 <= q < m && m + 1 < len <= |data| && q + len <= room
    requires ZerosUpTo(data, q) && !IsHexDigit(data[q]) && (IsHexDigit(data[q + 1]) ==> data[q + 1] == '0')
    ensures InTwoLooks(len, data, m, room) == Gives(0)
  {
    var s := data[..m];
    LostFrom(len, s, 0, q, room);
    if q + 1 == m {
      assert Look(true, Kept, len, s, 0, room) == Waits(Lost(0));
    }
  }

  /** The first `a` bytes of the stream, a call, what follows up to `b`, and a call. */
  function TwoReads(w: string, a: nat, b: nat, c1: int, c2: int): seq<Event>
    requires a <= b <= |w|
  {
    [Read(w[..a], c1), Parse, Read(w[a..b], c2), Parse]
  }

  /** The session after the first read and the first call of two. */
  lemma FirstOfTwo(s0: Session, chunks: seq<Segment>, tail: string, a: nat, c1: int, max: int) returns (s2: Session)
    requires HeadComplete(s0, max) && s0.p.core.state == SizeStart(true) && GoodChunks(chunks) && chunks != []
    requires |s0.received| == s0.b.index && s0.p.sequenceId != NextSequence(s0.b.sequenceId)
    requires DataOffset(chunks, 0) <= a <= |Stream(chunks, tail)|
    ensures var w := Stream(chunks, tail); var d := DataOffset(chunks, 0); var len := |chunks[0].data|;
      var g := if a == d then Waits(Kept) else Look(true, Kept, len, w[d..a], 0, max - s0.b.index - d);
      && s2 == Play(s0, [Read(w[..a], c1), Parse], max) && FirstLooks(s0, chunks, [Read(w[..a], c1), Parse], max) == g
      && s2.b.Valid() && s2.received == s0.received + w[..a]
      && (g.Waits? ==> !s2.p.done && s2.b.index == s2.b.length == |s2.received| && s2.p.sequenceId == s2.b.sequenceId)
      && (g.Waits? ==> s2.tokens == s0.tokens)
      && (g.Gives? ==>
            && s2.tokens == s0.tokens + [Token(Body, false, false, g.len, s0.b.index + d)] && !s2.p.done
            && s2.b.index == s0.b.index + d + g.len && s2.b.length == |s2.received|
              && s2.p.sequenceId != s2.b.sequenceId)
  {
    hide Frames, Stream, Scan, InLine, Waiting, Exec, Look, Ended, DataOffset, DataEnd, HeadComplete;
    FromHead(s0, max);
    NothingBefore(s0, chunks, true, max);
    var w, at := Stream(chunks, tail), s0.b.index;
    var read := Read(w[..a], c1);
    var s1 := Happen(s0, read, max);
    s2 := Happen(s1, Parse, max);
    assert [read, Parse][..1] == [read] && [read][..0] == [];
    assert Play(s0, [], max) == s0 && Play(s0, [read], max) == s1;
    assert FirstLooks(s0, chunks, [], max) == Waits(Kept) && FirstLooks(s0, chunks, [read], max) == Waits(Kept);
    assert s1.received[at..] == w[..a];
    assert s1.received[at + DataOffset(chunks, 0)..] == w[DataOffset(chunks, 0)..a];
    NothingSoFar(s0, chunks);
    FirstByRead(s0, s0, Waits(Kept), chunks, w[..a], c1, max);
    SizeLineIsThere(chunks);
    assert Active(s1);
    CallOutcome(s1, Kept, chunks, tail, at, 0, max);
    if Looks(s1, chunks, at, 0) {
      LookEnds(s1, LookAt(s1, Kept, chunks, at, 0, max), chunks, at, 0, max);
    } else {
      CallAtEnd(s1, max);
    }
  }

  lemma SizeLineIsThere(chunks: seq<Segment>)
    requires chunks != []
    ensures DataOffset(chunks, 0) > 0
  {
    hide Frames;
  }

  lemma CallAtEnd(s: Session, max: int)
    requires s.b.Valid() && Active(s) && s.b.mem[..s.b.length] == s.received
    requires var x := Scan(s.p.core, s.b, s.b.index, max); x.b == s.b && x.signal == STOP && x.at == s.b.length
    ensures var r := Happen(s, Parse, max);
      !r.p.done && r.b == s.b.(index := s.b.length) && r.p.sequenceId == s.b.sequenceId && r.received == s.received
        && r.tokens == s.tokens
  {
    hide Scan;
  }

  /** Two reads, each followed by a call, are two looks. */
  lemma TwoReadsAreTwoLooks(s0: Session, chunks: seq<Segment>, tail: string, m: nat, b: nat, c1: int, c2: int, max: int)
    requires HeadComplete(s0, max) && s0.p.core.state == SizeStart(true) && GoodChunks(chunks) && chunks != []
    requires |s0.received| == s0.b.index && s0.p.sequenceId != NextSequence(s0.b.sequenceId)
    requires m <= |chunks[0].data| && DataEnd(chunks, 0) <= b <= |Stream(chunks, tail)|
    ensures var w := Stream(chunks, tail); var d := DataOffset(chunks, 0); var events := TwoReads(w, d + m, b, c1, c2);
      && Play(s0, events, max).received == s0.received + w[..b]
      && FirstLooks(s0, chunks, events, max) == InTwoLooks(|chunks[0].data|, w[d..b], m, max - s0.b.index - d)
      && (FirstLook(|chunks[0].data|, w[d..b], m, max - s0.b.index - d).Waits?
        ==> |Play(s0, events, max).tokens| <= |s0.tokens| + 1)
  {
    hide Frames, Stream, Exec, Look, DataOffset, HeadComplete, Play, FirstLooks, LookAt, Looks, Happen,
      Receive;
    var w, at, d := Stream(chunks, tail), s0.b.index, DataOffset(chunks, 0);
    var s2 := FirstOfTwo(s0, chunks, tail, d + m, c1, max);
    var first := [Read(w[..d + m], c1), Parse];
    var read := Read(w[d + m..b], c2);
    assert first + [read, Parse] == TwoReads(w, d + m, b, c1, c2);
    assert s0.b.Valid() by { FromHead(s0, max); }
    ReadAndCall(s0, chunks, first, read, max);
    SliceOfData(w, d, m, b);
    ReadThenParse(s0, s2, w, d + m, b, c2, max);
    if m == |chunks[0].data| {
      WholeLook(true, Kept, |chunks[0].data|, w[d..d + m], 0, max - at - d);
    }
    var g := FirstLooks(s0, chunks, first, max);
    if g.Waits? {
      SecondLook(s0, s2, g.lead, chunks, w, m, b, c2, max);
    }
  }

  lemma SliceOfData(w: string, d: nat, m: nat, b: nat)
    requires d + m <= b <= |w|
    ensures w[d..b][..m] == w[d..d + m]
  {
  }

  lemma ReadThenParse(s0: Session, s: Session, w: string, a: nat, b: nat, c2: int, max: int)
    requires s.b.Valid() && a <= b <= |w| && s.received == s0.received + w[..a]
    ensures var r := Happen(Happen(s, Read(w[a..b], c2), max), Parse, max);
      r.received == s0.received + w[..b] && |r.tokens| <= |s.tokens| + 1
  {
    hide Exec, Receive;
    var s1 := Happen(s, Read(w[a..b], c2), max);
    assert s1.received == s0.received + w[..b] by {
      assert w[..a] + w[a..b] == w[..b];
      assert s0.received + w[..a] + w[a..b] == s0.received + (w[..a] + w[a..b]);
    }
    assert s1.tokens == s.tokens;
    AtMostOneToken(s1, max);
  }

  lemma AtMostOneToken(s: Session, max: int)
    requires s.b.Valid()
    ensures var r := Happen(s, Parse, max); r.received == s.received && |r.tokens| <= |s.tokens| + 1
  {
    hide Exec;
  }

  lemma ReadAndCall(s0: Session, chunks: seq<Segment>, events: seq<Event>, read: Event, max: int)
    requires s0.b.Valid() && chunks != []
    ensures var s := Happen(Play(s0, events, max), read, max); var all := events + [read, Parse];
      var g := FirstLooks(s0, chunks, events, max);
      && FirstLooks(s0, chunks, all, max) ==
           (if read.Parse? then FirstLooks(s0, chunks, all, max)
            else if g.Waits? && Looks(s, chunks, s0.b.index, 0)
              then LookAt(s, g.lead, chunks, s0.b.index, 0, max) else g)
      && Play(s0, all, max) == Happen(s, Parse, max)
  {
    hide Exec, LookAt, Looks;
    var all := events + [read, Parse];
    assert all[..|all| - 1] == events + [read];
    assert (events + [read])[..|events + [read]| - 1] == events;
  }

  lemma SecondLook(s0: Session, s2: Session, lead: Lead, chunks: seq<Segment>, w: string, m: nat, b: nat, c2: int,
      max: int)
    requires chunks != [] && m < |chunks[0].data| && DataEnd(chunks, 0) <= b <= |w| && s2.b.Valid()
      && |s0.received| == s0.b.index
    requires s2.received == s0.received + w[..DataOffset(chunks, 0) + m]
    requires !s2.p.done && s2.b.index == s2.b.length == |s2.received| && s2.p.sequenceId == s2.b.sequenceId
    ensures var d := DataOffset(chunks, 0); var s3 := Happen(s2, Read(w[d + m..b], c2), max);
      && Looks(s3, chunks, s0.b.index, 0)
      && LookAt(s3, lead, chunks, s0.b.index, 0, max)
        == Look(true, lead, |chunks[0].data|, w[d..b], m, max - s0.b.index - d)
  {
    hide DataOffset, Look;
    var d := DataOffset(chunks, 0);
    var s3 := Happen(s2, Read(w[d + m..b], c2), max);
    assert w[..d + m] + w[d + m..b] == w[..b];
    assert s3.received == s0.received + w[..b];
    assert s3.received[s0.b.index + d..] == w[d..b];
  }

  /** The first chunk, with any number of its bytes in the first read, comes out as it was sent if and only
      if the two looks at its bytes say so. */
  lemma FirstChunkInTwoReads(s0: Session, chunks: seq<Segment>, tail: string, m: nat, b: nat, c1: int, c2: int,
      max: int)
    requires HeadComplete(s0, max) && s0.p.core.state == SizeStart(true) && GoodChunks(chunks) && chunks != []
    requires |s0.received| == s0.b.index && s0.p.sequenceId != NextSequence(s0.b.sequenceId)
    requires m <= |chunks[0].data| && DataEnd(chunks, 0) <= b <= |Stream(chunks, tail)|
    ensures var w := Stream(chunks, tail); var d := DataOffset(chunks, 0);
      var s := Play(s0, TwoReads(w, d + m, b, c1, c2), max);
      var g := InTwoLooks(|chunks[0].data|, w[d..b], m, max - s0.b.index - d);
      && (!g.Moves? ==> (s0.tokens + [ChunkToken(chunks, s0.b.index, 0)] <= s.tokens <==> g == Gives(|chunks[0].data|)))
      && (g.Waits? ==> s.tokens == s0.tokens)
      && (g.Gives? ==> s0.tokens + [Token(Body, false, false, g.len, s0.b.index + d)] <= s.tokens)
      && (g.Gives? && FirstLook(|chunks[0].data|, w[d..b], m, max - s0.b.index - d).Waits? ==>
            s.tokens == s0.tokens + [Token(Body, false, false, g.len, s0.b.index + d)])
  {
    hide Frames, Stream, Exec, Look, HeadComplete, Play, InTwoLooks, FirstLooks, FirstLook, DataOffset;
    TwoReadsAreTwoLooks(s0, chunks, tail, m, b, c1, c2, max);
    var w, d := Stream(chunks, tail), DataOffset(chunks, 0);
    assert (s0.received + w[..b])[s0.b.index..] == w[..b] by { FromHead(s0, max); }
    FirstChunkExactly(s0, TwoReads(w, d + m, b, c1, c2), chunks, tail, max);
  }

  // --- sizes that are none ---

  /** A size line with a byte behind its first digit that is neither a hexadecimal digit nor a carriage
      return: no schedule hands out anything from there on. */
  lemma BadDigitIsRejected(s0: Session, digits: string, c: char, more: string, c1: int, events: seq<Event>, max: int)
    requires HeadComplete(s0, max) && s0.p.core.state == SizeStart(true) && |s0.received| == s0.b.index
    requires s0.p.sequenceId != NextSequence(s0.b.sequenceId)
    requires digits != "" && digits[0] != '0' && forall i :: 0 <= i < |digits| ==> IsHexDigit(digits[i])
    requires !IsHexDigit(c) && c != '\r'
    ensures var s := Play(s0, [Read(digits + [c] + more, c1), Parse], max);
      && s.p.core.state.Error? && s.tokens == s0.tokens && s.b.Valid()
      && Play(s, events, max).tokens == s0.tokens
  {
    hide Frames, Stream, HeadComplete, Scan, GoodChunks;
    FromHead(s0, max);
    var w, at, n := digits + [c] + more, s0.b.index, |digits|;
    var read := Read(w, c1);
    assert [read, Parse][..1] == [read] && [read][..0] == [];
    assert Play(s0, [], max) == s0 && Play(s0, [read], max) == Happen(s0, read, max);
    var s1 := Happen(s0, read, max);
    var chunks := [Segment(seq(HexValue(digits), _ => 'x'), digits)];
    SpelledSize(digits);
    assert Stream(chunks, "")[..n] == digits by { StreamStarts(chunks); }
    assert s1.received[at..] == w;
    forall x | at <= x < at + n ensures s1.b.mem[x] == Stream(chunks, "")[x - at] {
      assert s1.b.mem[x] == s1.received[x] == s1.received[at..][x - at] == w[x - at] == digits[x - at];
    }
    assert s1.b.mem[at + n] == s1.received[at..][n] == c;
    StreamStarts(chunks);
    ScanToBadDigit(s1.p.core, s1.b, at, max, chunks, "", at, 0, at + n);
    ErrorsAreAbsorbing(Play(s0, [read, Parse], max), events, max);
  }

  lemma {:induction false} SizeIsPositive(digits: string)
    requires digits != "" && digits[0] != '0' && forall i :: 0 <= i < |digits| ==> IsHexDigit(digits[i])
    ensures HexValue(digits) > 0
  {
    if |digits| > 1 {
      SizeIsPositive(digits[..|digits| - 1]);
    } else {
      assert digits[..0] == "";
    }
  }

  lemma SpelledSize(digits: string)
    requires digits != "" && digits[0] != '0' && forall i :: 0 <= i < |digits| ==> IsHexDigit(digits[i])
    ensures GoodChunks([Segment(seq(HexValue(digits), _ => 'x'), digits)])
  {
    SizeIsPositive(digits);
  }

  lemma StreamStarts(chunks: seq<Segment>)
    requires chunks != []
    ensures Offset(chunks, 0) == 0 && |Stream(chunks, "")| > |chunks[0].size| + 2
    ensures Stream(chunks, "")[..|chunks[0].size|] == chunks[0].size
  {
    hide Frames;
    NoFrames();
    assert chunks[..0] == [];
    FrameParts(chunks, "", 0);
    FrameInStream(chunks, "", 0);
  }

  // --- a run in which the first chunk is lost ---

  /** "hello", cut after its second byte. */
  const HELLO := [Segment("hello")]

  const HELLO_STREAM := "5\r\nhello\r\n0\r\n\r\n"

  lemma LooksAtHello(room: int)
    requires 16 <= room
    ensures InTwoLooks(5, "hello\r\n0\r\n\r\n", 2, room) == Gives(0)
    ensures FirstLook(5, "hello\r\n0\r\n\r\n", 2, room).Waits?
  {
    var data := "hello\r\n0\r\n\r\n";
    var he := data[..2];
    assert he == "he";
    assert Look(true, Lost(14), 5, he, 2, room) == Waits(Lost(14));
    assert Look(true, Kept, 5, he, 1, room) == Waits(Lost(14));
    assert Look(true, Kept, 5, he, 0, room) == Waits(Lost(14));
    assert Look(true, Lost(0), 5, data, 3, room) == Gives(0);
    assert Look(true, Lost(14), 5, data, 2, room) == Gives(0);
  }

  lemma HelloStream()
    ensures Stream(HELLO, "\r\n") == HELLO_STREAM && DataOffset(HELLO, 0) == 3 && DataEnd(HELLO, 0) == 8
  {
    assert PrintHex(5) == "5";
    assert HELLO[..0] == [];
    assert Frames([]) == "" && Frames(HELLO) == Frames([]) + Frame(Segment("hello"));
  }

  /** The failing run: after a chunked head, with nothing of the body there yet, the parser is called on
      "5", a line end and "he", and again when the rest has arrived. The user's chunk callback is called
      with length zero, as if the body had ended. */
  lemma HelloIsLost(s0: Session, c1: int, c2: int, max: int)
    requires HeadComplete(s0, max) && s0.p.core.state == SizeStart(true)
    requires |s0.received| == s0.b.index && s0.p.sequenceId != NextSequence(s0.b.sequenceId) && s0.b.index + 19 <= max
    ensures var s := Play(s0, [Read("5\r\nhe", c1), Parse, Read("llo\r\n0\r\n\r\n", c2), Parse], max);
      var t := Token(Body, false, false, 0, s0.b.index + 3);
      s.tokens == s0.tokens + [t] && CallsOf(s.tokens) == [Handler, Chunk(t)]
  {
    hide Frames, Exec, Look, HeadComplete, Play, InTwoLooks, FirstLooks, FirstLook, CallsOf, Stream,
      DataOffset, DataEnd;
    HelloStream();
    PrintedSizeIsGood("hello");
    var w := HELLO_STREAM;
    assert w[..5] == "5\r\nhe" && w[5..15] == "llo\r\n0\r\n\r\n" && w[3..15] == "hello\r\n0\r\n\r\n";
    LooksAtHello(max - s0.b.index - 3);
    FirstChunkInTwoReads(s0, HELLO, "\r\n", 2, 15, c1, c2, max);
    HeadAnnouncesBody(s0, max);
    OneMore(s0.tokens, Token(Body, false, false, 0, s0.b.index + 3));
  }

  /** Schedules that cannot lose it: whenever the parser looks at incomplete data of the first chunk, there
      are only zero digits after its first byte, and room for the chunk behind them. */
  ghost predicate Harmless(s0: Session, chunks: seq<Segment>, events: seq<Event>, max: int)
    requires s0.b.Valid() && chunks != []
  {
    var d := s0.b.index + DataOffset(chunks, 0);
    forall n :: 0 <= n < |events| && events[n].Parse? && Looks(Play(s0, events[..n], max), chunks, s0.b.index, 0) ==>
      var data := Play(s0, events[..n], max).received[d..];
      |data| + 1 >= |chunks[0].data| || (ZerosUpTo(data, |data|) && |data| - 1 + |chunks[0].data| <= max - d)
  }

  /** Then the first chunk keeps its length, and is awaited or handed out with it. */
  lemma {:induction false} HarmlessCutsKeepTheFirst(s0: Session, chunks: seq<Segment>, events: seq<Event>, max: int)
    requires s0.b.Valid() && chunks != [] && Harmless(s0, chunks, events, max)
    ensures FirstIsKept(s0, chunks, events, max)
    ensures FirstLooks(s0, chunks, events, max).Waits? ==> FirstLooks(s0, chunks, events, max) == Waits(Kept)
  {
    hide Play, Active, DataOffset;
    if events != [] {
      var n := |events| - 1;
      forall k | 0 <= k < n ensures events[..n][..k] == events[..k] && events[..n][k] == events[k] {}
      HarmlessCutsKeepTheFirst(s0, chunks, events[..n], max);
      var s := Play(s0, events[..n], max);
      if events[n].Parse? && Looks(s, chunks, s0.b.index, 0) && FirstLooks(s0, chunks, events[..n], max).Waits? {
        var d := s0.b.index + DataOffset(chunks, 0);
        var data := s.received[d..];
        var p := if s.b.index > d then s.b.index - d else 0;
        if |data| + 1 >= |chunks[0].data| {
          WholeLookAnywhere(|chunks[0].data|, data, p, max - d);
        } else {
          assert data[..|data|] == data;
          KeptWhile(|chunks[0].data|, data, |data|, if p <= |data| then p else |data|, max - d);
        }
      }
    }
  }

  lemma WholeLookAnywhere(len: nat, data: string, p: nat, room: int)
    requires |data| + 1 >= len
    ensures Look(true, Kept, len, data, p, room) == Gives(len) || Look(true, Kept, len, data, p, room) == Waits(Kept)
  {
  }

  // --- one byte early ---

  /** At every moment all chunks handed out so far lie within the bytes received. */
  ghost predicate AllBacked(s0: Session, events: seq<Event>, max: int)
    requires s0.b.Valid()
  {
    forall k :: 0 <= k <= |events| ==> Backed(s0, Play(s0, events[..k], max))
  }

  ghost predicate Backed(s0: Session, s: Session) {
    |s0.tokens| <= |s.tokens| && Within(s.tokens[|s0.tokens|..], |s.received|)
  }

  lemma BackedBefore(s0: Session, events: seq<Event>, max: int)
    requires s0.b.Valid() && events != []
    ensures AllBacked(s0, events, max) <==>
      AllBacked(s0, events[..|events| - 1], max) && Backed(s0, Play(s0, events, max))
  {
    hide Play, Backed;
    var n := |events| - 1;
    forall k | 0 <= k <= n ensures events[..n][..k] == events[..k] {}
    assert events[..|events|] == events;
  }

  lemma OneShortBefore(s0: Session, chunks: seq<Segment>, events: seq<Event>, max: int)
    requires s0.b.Valid() && events != []
    ensures var n := |events| - 1;
      NeverOneShort(s0, chunks, events, max) <==>
        NeverOneShort(s0, chunks, events[..n], max) &&
        !(events[n].Parse?
          && OneShort(s0, Play(s0, events[..n], max), chunks, Firstly(s0, chunks, events[..n], max), max))
  {
    hide Play, OneShort, Firstly;
    var n := |events| - 1;
    forall k | 0 <= k < n ensures events[..n][..k] == events[..k] && events[..n][k] == events[k] {}
  }

  /** A call one byte short hands out the chunk all the same. */
  lemma OneShortIsHandedOut(s0: Session, s: Session, chunks: seq<Segment>, tail: string, first: Glimpse, max: int)
    requires Dechunking(s0, s, chunks, first, true) && GoodChunks(chunks)
      && s.received[s0.b.index..] <= Stream(chunks, tail)
    requires !s.p.done && OneShort(s0, s, chunks, first, max)
    ensures var r := Happen(s, Parse, max); var j := Next(s0, s);
      r.received == s.received && r.tokens == s.tokens + [ChunkToken(chunks, s0.b.index, j)] && !Backed(s0, r)
  {
    hide Frames, Stream, Scan, InLine, Waiting, Exec, Look, Ended, DataOffset;
    var at, j := s0.b.index, Next(s0, s);
    var lead := if first.Waits? then first.lead else Kept;
    CallOutcome(s, lead, chunks, tail, at, j, max);
    var d := at + DataOffset(chunks, j);
    assert |s.received| == s.b.length;
    if j > 0 {
      WholeLook(false, Kept, |chunks[j].data|, s.received[d..], if s.b.index > d then s.b.index - d else 0, max - d);
    }
    LookEnds(s, Gives(|chunks[j].data|), chunks, at, j, max);
    var r := Happen(s, Parse, max);
    var pieces := r.tokens[|s0.tokens|..];
    assert pieces[|pieces| - 1] == ChunkToken(chunks, at, j);
  }

  lemma DechunkingIsBacked(s0: Session, s: Session, chunks: seq<Segment>, first: Glimpse)
    requires Dechunking(s0, s, chunks, first, true)
    ensures Backed(s0, s)
  {
    hide Between, Within, ChunkTokens;
  }

  lemma NothingNextWhenDone(s0: Session, s: Session, chunks: seq<Segment>, first: Glimpse, max: int)
    requires Dechunking(s0, s, chunks, first, true) && s.p.done
    ensures !OneShort(s0, s, chunks, first, max)
  {
    hide Between, Within;
  }

  /** Every chunk handed out lies within the bytes received at that moment, over a whole schedule in which
      the first chunk keeps its length and nothing is moved, if and only if the parser never looks at the
      next chunk when exactly its last byte is missing. */
  lemma {:induction false} ChunksAreBacked(s0: Session, events: seq<Event>, chunks: seq<Segment>, tail: string,
      max: int)
    requires HeadComplete(s0, max) && s0.p.core.state == SizeStart(true) && GoodChunks(chunks)
    requires Delivers(s0, Play(s0, events, max), Stream(chunks, tail))
    requires FirstIsKept(s0, chunks, events, max) && NeverMoved(s0, chunks, events, max)
    ensures AllBacked(s0, events, max) <==> NeverOneShort(s0, chunks, events, max)
  {
    hide Play, HeadComplete, FirstIsKept, NeverMoved, NeverOneShort, AllBacked, Dechunking, OneShort, Stream, Backed,
      Firstly;
    FromHead(s0, max);
    if events == [] {
      NothingYet(s0, chunks, max);
    } else {
      var n := |events| - 1;
      var before := events[..n];
      CutsBefore(s0, chunks, events, max);
      DeliversBefore(s0, events, Stream(chunks, tail), max);
      ChunksAreBacked(s0, before, chunks, tail, max);
      BackedBefore(s0, events, max);
      OneShortBefore(s0, chunks, events, max);
      if NeverOneShort(s0, chunks, before, max) {
        var s, first := Play(s0, before, max), Firstly(s0, chunks, before, max);
        ChunksAreDelivered(s0, before, chunks, tail, true, max);
        if events[n].Parse? && OneShort(s0, s, chunks, first, max) {
          if s.p.done {
            NothingNextWhenDone(s0, s, chunks, first, max);
          }
          OneShortIsHandedOut(s0, s, chunks, tail, first, max);
          LastEvent(s0, events, max);
        } else {
          ChunksAreDelivered(s0, events, chunks, tail, true, max);
          DechunkingIsBacked(s0, Play(s0, events, max), chunks, Firstly(s0, chunks, events, max));
        }
      }
    }
  }

  lemma NothingYet(s0: Session, chunks: seq<Segment>, max: int)
    requires s0.b.Valid()
    ensures AllBacked(s0, [], max) && NeverOneShort(s0, chunks, [], max)
  {
    forall k | 0 <= k <= 0 ensures Backed(s0, Play(s0, [][..k], max)) {}
  }

  lemma LastEvent(s0: Session, events: seq<Event>, max: int)
    requires s0.b.Valid() && events != []
    ensures Play(s0, events, max) == Happen(Play(s0, events[..|events| - 1], max), events[|events| - 1], max)
  {
  }

  lemma DeliversBefore(s0: Session, events: seq<Event>, w: string, max: int)
    requires s0.b.Valid() && events != [] && s0.b.index <= |s0.received| && Delivers(s0, Play(s0, events, max), w)
    ensures Delivers(s0, Play(s0, events[..|events| - 1], max), w)
  {
    hide Exec;
    var s := Play(s0, events[..|events| - 1], max);
    var r := Play(s0, events, max);
    ReceivedGrows(s0, events[..|events| - 1], max);
    assert s.received <= r.received && s.received[s0.b.index..] <= r.received[s0.b.index..];
  }

  /** The failing run: a chunk of two bytes or more of which all but the last has arrived is handed out. */
  lemma ChunkOneByteShort(s0: Session, chunks: seq<Segment>, tail: string, c1: int, max: int)
    requires HeadComplete(s0, max) && s0.p.core.state == SizeStart(true) && GoodChunks(chunks) && chunks != []
    requires |s0.received| == s0.b.index && s0.p.sequenceId != NextSequence(s0.b.sequenceId) && |chunks[0].data| >= 2
    requires DataEnd(chunks, 0) <= |Stream(chunks, tail)|
    ensures var s := Play(s0, [Read(Stream(chunks, tail)[..DataEnd(chunks, 0) - 1], c1), Parse], max);
      var t := ChunkToken(chunks, s0.b.index, 0);
      s0.tokens + [t] <= s.tokens && t.index + t.len == |s.received| + 1
  {
    hide Frames, Stream, Exec, Look, HeadComplete, Play, FirstLooks, DataOffset, FirstSoFar;
    var w, d := Stream(chunks, tail), DataOffset(chunks, 0);
    var a := DataEnd(chunks, 0) - 1;
    var s := FirstOfTwo(s0, chunks, tail, a, c1, max);
    WholeLook(true, Kept, |chunks[0].data|, w[d..a], 0, max - s0.b.index - d);
    assert (s0.received + w[..a])[s0.b.index..] == w[..a];
    FirstChunkExactly(s0, [Read(w[..a], c1), Parse], chunks, tail, max);
  }

  // --- moving the data of a chunk ---

  /** The reader will not read, and the parser will not parse. */
  ghost predicate Stranded(s: Session) { s.b.index < s.b.length && s.p.sequenceId == s.b.sequenceId }

  /** A call that sees incomplete data of a chunk after the first returns nothing, and strands the reader if
      and only if the last byte received and the chunk's length together reach beyond the largest buffer. */
  lemma IncompleteChunkStrands(s0: Session, events: seq<Event>, chunks: seq<Segment>, tail: string, max: int)
    requires HeadComplete(s0, max) && s0.p.core.state == SizeStart(true) && GoodChunks(chunks)
    requires Delivers(s0, Play(s0, events, max), Stream(chunks, tail)) && InPlace(s0, chunks, events, max)
    requires var s := Play(s0, events, max); var j := Next(s0, s);
      j > 0 && Looks(s, chunks, s0.b.index, j) && |s.received| < s0.b.index + DataEnd(chunks, j) - 1
    ensures var s := Play(s0, events, max); var r := Happen(s, Parse, max); var len := |chunks[Next(s0, s)].data|;
      && r.tokens == s.tokens && r.received == s.received && !r.p.done
      && (Stranded(r) <==> |s.received| - 1 + len > max)
  {
    hide Frames, Stream, Scan, InLine, Waiting, Exec, Look, Ended, DataOffset, Play, HeadComplete,
      InPlace, Within, Firstly;
    FromHead(s0, max);
    ChunksAreDelivered(s0, events, chunks, tail, false, max);
    var s := Play(s0, events, max);
    var at, j := s0.b.index, Next(s0, s);
    CallOutcome(s, Kept, chunks, tail, at, j, max);
    assert |s.received| == s.b.length;
    LooksAhead(s, chunks, at, j, Kept, max);
    LookEnds(s, LookAt(s, Kept, chunks, at, j, max), chunks, at, j, max);
  }

  /** So does a call whose look at the data of the first chunk ends with moving them, and no other. */
  lemma MovedFirstChunkStrands(s0: Session, events: seq<Event>, chunks: seq<Segment>, tail: string, max: int)
    requires HeadComplete(s0, max) && s0.p.core.state == SizeStart(true) && GoodChunks(chunks) && chunks != []
    requires Delivers(s0, Play(s0, events, max), Stream(chunks, tail)) && FirstLooks(s0, chunks, events, max).Waits?
    requires Looks(Play(s0, events, max), chunks, s0.b.index, 0)
    ensures var s := Play(s0, events, max); var r := Happen(s, Parse, max);
      var g := LookAt(s, FirstLooks(s0, chunks, events, max).lead, chunks, s0.b.index, 0, max);
      && r.received == s.received && !r.p.done
      && (Stranded(r) <==> g.Moves?) && (g.Moves? ==> r.tokens == s.tokens)
  {
    hide Frames, Stream, Scan, InLine, Waiting, Exec, Look, Ended, DataOffset, Play, HeadComplete, FirstLooks;
    FromHead(s0, max);
    FirstChunkExactly(s0, events, chunks, tail, max);
    var s, lead := Play(s0, events, max), FirstLooks(s0, chunks, events, max).lead;
    CallOutcome(s, lead, chunks, tail, s0.b.index, 0, max);
    LookEnds(s, LookAt(s, lead, chunks, s0.b.index, 0, max), chunks, s0.b.index, 0, max);
  }

  /** From then on a reader neither reads nor makes a callback, whatever arrives. */
  lemma MovedFirstChunkStalls(s0: Session, events: seq<Event>, chunks: seq<Segment>, tail: string, rd: Reader, max: int)
    requires HeadComplete(s0, max) && s0.p.core.state == SizeStart(true) && GoodChunks(chunks) && chunks != []
    requires Delivers(s0, Play(s0, events, max), Stream(chunks, tail)) && FirstLooks(s0, chunks, events, max).Waits?
    requires var s := Play(s0, events, max);
      && Looks(s, chunks, s0.b.index, 0)
      && LookAt(s, FirstLooks(s0, chunks, events, max).lead, chunks, s0.b.index, 0, max).Moves?
    requires Tracks(Play(s0, events, max), rd) && Sane(rd, max)
    ensures var r := Dispatch(rd, max);
      && r.calls == rd.calls && r.tokens == rd.tokens && Stuck(r)
      && forall incoming :: Sane(r, max) && ReadRequest(r, incoming, max) == Visit(r, incoming, "", Success)
  {
    hide HeadComplete, Play, FirstLooks, LookAt, Looks, Stream, Exec, Tidy, Bounded, CallsOf, TokensOf, ReadRequest,
      Delivers;
    FromHead(s0, max);
    MovedFirstChunkStrands(s0, events, chunks, tail, max);
    ExecConsumes(rd.p, rd.b, max);
    DispatchKeepsSane(rd, max);
    NoTokenNoCall(Play(s0, events, max), rd, max);
    var r := Dispatch(rd, max);
    forall incoming ensures ReadRequest(r, incoming, max) == Visit(r, incoming, "", Success) {
      StuckReaderIsSilent(r, incoming, max);
    }
  }

  /** The same of a reader and a later chunk. */
  lemma CompactionStalls(s0: Session, events: seq<Event>, chunks: seq<Segment>, tail: string, rd: Reader, max: int)
    requires HeadComplete(s0, max) && s0.p.core.state == SizeStart(true) && GoodChunks(chunks)
    requires Delivers(s0, Play(s0, events, max), Stream(chunks, tail)) && InPlace(s0, chunks, events, max)
    requires var s := Play(s0, events, max); var j := Next(s0, s);
      j > 0 && Looks(s, chunks, s0.b.index, j) && |s.received| < s0.b.index + DataEnd(chunks, j) - 1
    requires Tracks(Play(s0, events, max), rd) && Sane(rd, max)
    ensures var s := Play(s0, events, max); var r := Dispatch(rd, max); var len := |chunks[Next(s0, s)].data|;
      && r.calls == rd.calls && r.tokens == rd.tokens
      && (Stuck(r) <==> |s.received| - 1 + len > max)
      && (Stuck(r) ==>
            forall incoming :: Sane(r, max) && ReadRequest(r, incoming, max) == Visit(r, incoming, "", Success))
  {
    hide HeadComplete, Play, InPlace, Looks, Stream, Exec, Tidy, Bounded, CallsOf, TokensOf, ReadRequest, Delivers,
      DataEnd;
    FromHead(s0, max);
    IncompleteChunkStrands(s0, events, chunks, tail, max);
    var s := Play(s0, events, max);
    ExecConsumes(rd.p, rd.b, max);
    DispatchKeepsSane(rd, max);
    NoTokenNoCall(s, rd, max);
    var r := Dispatch(rd, max);
    if Stuck(r) {
      forall incoming ensures ReadRequest(r, incoming, max) == Visit(r, incoming, "", Success) {
        StuckReaderIsSilent(r, incoming, max);
      }
    }
  }

  lemma NoTokenNoCall(s: Session, rd: Reader, max: int)
    requires Tracks(s, rd) && Tidy(rd.p.core) && Happen(s, Parse, max).tokens == s.tokens
    ensures var r := Dispatch(rd, max); var s' := Happen(s, Parse, max);
      r.p == s'.p && r.b == s'.b && r.calls == rd.calls && r.tokens == rd.tokens
  {
    hide Exec, Tidy, CallsOf, TokensOf;
    ExecConsumes(rd.p, rd.b, max);
    var o := Exec(rd.p, rd.b, max);
    assert o.token.kind.None?;
    assert rd.calls + [] == rd.calls && rd.tokens + [] == rd.tokens;
  }

  /** A run that gets there: a chunk of one byte, and the first byte of one that does not fit behind it. */
  lemma CompactionRun(s0: Session, x: Segment, tail: string, c1: int, max: int)
    requires HeadComplete(s0, max) && s0.p.core.state == SizeStart(true)
    requires |s0.received| == s0.b.index && s0.p.sequenceId != NextSequence(s0.b.sequenceId)
    requires |x.data| >= 3 && GoodSize(x) && s0.b.index + DataOffset([Segment("a"), x], 1) + |x.data| > max
    requires DataOffset([Segment("a"), x], 1) < |Stream([Segment("a"), x], tail)|
    ensures var w := Stream([Segment("a"), x], tail);
      Stranded(Play(s0, [Read(w[..DataOffset([Segment("a"), x], 1) + 1], c1), Parse, Parse], max))
  {
    hide Frames, Stream, Exec, Look, HeadComplete, Play, FirstLooks, DataOffset, LookAt, InPlace;
    PrintedSizeIsGood("a");
    var chunks := [Segment("a"), x];
    var w, d, a := Stream(chunks, tail), DataOffset(chunks, 0), DataOffset(chunks, 1) + 1;
    var events := [Read(w[..a], c1), Parse];
    FromHead(s0, max);
    FrameOrder(x);
    var s := FirstOfTwo(s0, chunks, tail, a, c1, max);
    WholeLook(true, Kept, 1, w[d..a], 0, max - s0.b.index - d);
    OneReadIsClean(s0, chunks, w[..a], c1, max);
    assert (s0.received + w[..a])[s0.b.index..] == w[..a];
    IncompleteChunkStrands(s0, events, chunks, tail, max);
    assert [Read(w[..a], c1), Parse, Parse][..2] == events;
    LastEvent(s0, [Read(w[..a], c1), Parse, Parse], max);
  }

  /** One read and one call that hands out the first chunk, which is complete. */
  lemma OneReadIsClean(s0: Session, chunks: seq<Segment>, bytes: string, c1: int, max: int)
    requires s0.b.Valid() && chunks != [] && FirstLooks(s0, chunks, [Read(bytes, c1), Parse], max)
      == Gives(|chunks[0].data|)
    requires |s0.received| == s0.b.index && DataEnd(chunks, 0) <= |bytes|
    ensures CleanCuts(s0, chunks, [Read(bytes, c1), Parse], max)
  {
    hide Exec, FirstLooks, DataOffset, LookAt;
    var events := [Read(bytes, c1), Parse];
    assert events[..1] == [Read(bytes, c1)] && events[..1][..0] == [] && Play(s0, [], max) == s0;
    assert Play(s0, events[..1], max) == Happen(s0, Read(bytes, c1), max);
  }

  lemma FrameOrder(x: Segment)
    ensures var chunks := [Segment("a"), x];
      DataEnd(chunks, 0) + 2 == Offset(chunks, 1) <= DataOffset(chunks, 1)
  {
    hide Frames;
    FramesSplit([Segment("a"), x], 0);
  }
}
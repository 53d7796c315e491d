/**
  The 8-bit sequence ids: a parser that has run dry is held back until the buffer carries another id, and
  after 256 reads the buffer carries the same one again.
 */
module Wraparound {
  import opened Automaton
  import opened Parser
  import opened HeadRoundTrip
  import opened Sessions
  import opened Bodies
  import opened ChunkStream
  import opened ChunkLooks
  import opened Chunks
  import opened ChunkShortfalls
  import opened Completion
  import opened AtOnce

  /** The id after `n` reads. */
  function IdAfter(n: nat): int { if n == 0 then 0 else NextSequence(IdAfter(n - 1)) }

  lemma {:induction false} IdsWrap(n: nat)
    ensures IdAfter(n) == (n + 128) % 256 - 128
  {
    if n > 0 {
      IdsWrap(n - 1);
    }
  }

  /** Two ids are the same exactly if the reads between them are a multiple of 256. */
  lemma SameIds(m: nat, n: nat)
    ensures IdAfter(m + n) == IdAfter(m) <==> n % 256 == 0
  {
    IdsWrap(m);
    IdsWrap(m + n);
  }

  // --- a run in which that happens ---

  /** How much of the stream has arrived with `n` chunks, the last one without its line end. */
  function UpTo(chunks: seq<Segment>, n: nat): nat
    requires n <= |chunks|
  {
    if n == 0 then 0 else DataEnd(chunks, n - 1)
  }

  lemma UpToGrows(chunks: seq<Segment>, tail: string, n: nat)
    requires 0 < n <= |chunks|
    ensures UpTo(chunks, n - 1) <= DataOffset(chunks, n - 1) <= UpTo(chunks, n) <= |Stream(chunks, tail)|
  {
    hide Frames;
    StreamLength(chunks, tail);
    WholeFrames(chunks, n - 1);
    if n > 1 {
      NextData(chunks, n - 2);
    }
  }

  /** What arrives with chunk `n`. */
  function Part(w: string, chunks: seq<Segment>, n: nat): string
    requires 0 < n <= |chunks|
  {
    if UpTo(chunks, n - 1) <= UpTo(chunks, n) <= |w| then w[UpTo(chunks, n - 1)..UpTo(chunks, n)] else ""
  }

  /** One chunk in each read, and a call after it. */
  function Drip(w: string, chunks: seq<Segment>, capacity: int, n: nat): seq<Event>
    requires n <= |chunks|
  {
    if n == 0 then [] else Drip(w, chunks, capacity, n - 1) + [Read(Part(w, chunks, n), capacity)] + [Parse]
  }

  /** `n` chunks have been handed out, the buffer has been used up, and no call has come back without one. */
  ghost predicate Dripped(s0: Session, s: Session, chunks: seq<Segment>, tail: string, n: nat)
    requires n <= |chunks|
  {
    var w := Stream(chunks, tail);
    && UpTo(chunks, n) <= |w| && s.received == s0.received + w[..UpTo(chunks, n)] && s.b.index == s.b.length
    && Dechunking(s0, s, chunks, if n == 0 then Waits(Kept) else Gives(|chunks[0].data|), false) && !s.p.done
    && Next(s0, s) == n && s.p.sequenceId == 0 && s.b.sequenceId == IdAfter(n + 1)
  }

  /** The read that brings the next chunk. */
  lemma NextPart(s0: Session, s: Session, chunks: seq<Segment>, tail: string, capacity: int, n: nat, max: int)
      returns (s1: Session)
    requires 0 < n <= |chunks| && Dripped(s0, s, chunks, tail, n - 1) && |s0.received| == s0.b.index
    ensures s.b.Valid() && s1 == Happen(s, Read(Part(Stream(chunks, tail), chunks, n), capacity), max)
    ensures Dechunking(s0, s1, chunks, if n == 1 then Waits(Kept) else Gives(|chunks[0].data|), false)
    ensures UpTo(chunks, n) <= |Stream(chunks, tail)| && s1.tokens == s.tokens
    ensures s1.received == s0.received + Stream(chunks, tail)[..UpTo(chunks, n)]
    ensures Delivers(s0, s1, Stream(chunks, tail)) && s1.b.index == |s.received| && !s1.p.done
    ensures |s1.received| == s1.b.length == s0.b.index + DataEnd(chunks, n - 1)
    ensures s1.p.sequenceId == 0 && s1.b.sequenceId == IdAfter(n + 1)
  {
    hide Stream, Frames, Between, Within, DataOffset, DataEnd;
    var w := Stream(chunks, tail);
    var part := Part(w, chunks, n);
    UpToGrows(chunks, tail, n);
    s1 := Happen(s, Read(part, capacity), max);
    DechunkingByRead(s0, s, chunks, if n == 1
      then Waits(Kept) else Gives(|chunks[0].data|), false, part, capacity, max);
    Joined(s0.received, w, UpTo(chunks, n - 1), UpTo(chunks, n));
    assert (s0.received + w[..UpTo(chunks, n)])[s0.b.index..] == w[..UpTo(chunks, n)];
    Whole(s0, s, chunks, n - 1);
    Whole1(s0, s1, chunks, n);
  }

  lemma Joined(a: string, w: string, i: nat, j: nat)
    requires i <= j <= |w|
    ensures a + w[..i] + w[i..j] == a + w[..j]
  {
  }

  lemma Whole(s0: Session, s: Session, chunks: seq<Segment>, n: nat)
    requires n <= |chunks|
    requires Dechunking(s0, s, chunks, if n == 0 then Waits(Kept) else Gives(|chunks[0].data|), false)
    ensures |s.received| == s.b.length
  {
    hide Between, Within;
  }

  lemma Whole1(s0: Session, s: Session, chunks: seq<Segment>, n: nat)
    requires 0 < n <= |chunks|
    requires Dechunking(s0, s, chunks, if n == 1 then Waits(Kept) else Gives(|chunks[0].data|), false)
    ensures |s.received| == s.b.length
  {
    hide Between, Within;
  }

  /** The call after it, unless it is held back. */
  lemma NextDripped(s0: Session, s: Session, s1: Session, chunks: seq<Segment>, tail: string, n: nat, max: int)
    requires GoodChunks(chunks) && 0 < n <= |chunks| && n + 1 < 256 && Next(s0, s1) == n - 1
    requires Dechunking(s0, s1, chunks, if n == 1 then Waits(Kept) else Gives(|chunks[0].data|), false) && !s1.p.done
    requires UpTo(chunks, n) <= |Stream(chunks, tail)|
    requires s1.received == s0.received + Stream(chunks, tail)[..UpTo(chunks, n)]
    requires Delivers(s0, s1, Stream(chunks, tail))
    requires |s1.received| == s1.b.length == s0.b.index + DataEnd(chunks, n - 1)
    requires s1.b.index <= s0.b.index + DataOffset(chunks, n - 1)
    requires s1.p.sequenceId == 0 && s1.b.sequenceId == IdAfter(n + 1)
    ensures Dripped(s0, Happen(s1, Parse, max), chunks, tail, n)
  {
    hide Stream, Frames, Within, Scan, InLine, Waiting, LookAt, Ended, DataOffset, Exec;
    SameIds(0, n + 1);
    var at, c := s0.b.index, s1.b.length;
    HandedOutUpTo(s0, s1, chunks, if n == 1 then Waits(Kept) else Gives(|chunks[0].data|), false);
    CompleteAtCut(s1, chunks, at, n - 1, c, max);
    CallOutcome(s1, Kept, chunks, tail, at, n - 1, max);
    LookEnds(s1, Gives(|chunks[n - 1].data|), chunks, at, n - 1, max);
    ChunkAdded(s0, s1, Happen(s1, Parse, max), chunks, tail, if n == 1 then Waits(Kept) else Gives(|chunks[0].data|),
      Gives(|chunks[0].data|), false);
  }

  lemma {:induction false} DripRun(s0: Session, chunks: seq<Segment>, tail: string, capacity: int, n: nat, max: int)
    requires HeadComplete(s0, max) && s0.p.core.state == SizeStart(true) && GoodChunks(chunks)
    requires |s0.received| == s0.b.index && s0.p.sequenceId == 0 && s0.b.sequenceId == 1
    requires n <= |chunks| && n + 1 < 256
    ensures s0.b.Valid() && Dripped(s0, Play(s0, Drip(Stream(chunks, tail), chunks, capacity, n), max), chunks, tail, n)
  {
    hide HeadComplete, Stream, Frames, Dripped, Dechunking, DataOffset, Play, Happen;
    FromHead(s0, max);
    if n == 0 {
      NothingDripped(s0, chunks, tail, max);
    } else {
      var w := Stream(chunks, tail);
      var before := Drip(w, chunks, capacity, n - 1);
      DripRun(s0, chunks, tail, capacity, n - 1, max);
      var s := Play(s0, before, max);
      var s1 := NextPart(s0, s, chunks, tail, capacity, n, max);
      UpToGrows(chunks, tail, n);
      PlayMore(s0, before, Read(Part(w, chunks, n), capacity), max);
      PlayMore(s0, before + [Read(Part(w, chunks, n), capacity)], Parse, max);
      NextOf(s0, s, chunks, tail, n - 1);
      NextDripped(s0, s, s1, chunks, tail, n, max);
    }
  }

  lemma NextOf(s0: Session, s: Session, chunks: seq<Segment>, tail: string, n: nat)
    requires n <= |chunks| && Dripped(s0, s, chunks, tail, n) && |s0.received| == s0.b.index
    ensures Next(s0, s) == n && |s.received| == s0.b.index + UpTo(chunks, n)
  {
    hide Dechunking, Stream, DataEnd;
  }

  lemma NothingDripped(s0: Session, chunks: seq<Segment>, tail: string, max: int)
    requires HeadComplete(s0, max) && s0.p.core.state == SizeStart(true)
    requires |s0.received| == s0.b.index && s0.p.sequenceId == 0 && s0.b.sequenceId == 1
    ensures s0.b.Valid() && Dripped(s0, Play(s0, [], max), chunks, tail, 0)
  {
    hide HeadComplete, Dechunking, Frames;
    FromHead(s0, max);
    NothingBefore(s0, chunks, false, max);
    assert s0.received + Stream(chunks, tail)[..0] == s0.received;
    IdsWrap(1);
  }

  /** The run: a body of 255 chunks or more that arrives one chunk at a time. The last of 255 is there, whole,
      and neither handed out nor will it be: the parser is held back, and the reader does not read. */
  lemma OneChunkInEachRead(s0: Session, chunks: seq<Segment>, tail: string, capacity: int, max: int)
    requires HeadComplete(s0, max) && s0.p.core.state == SizeStart(true) && GoodChunks(chunks) && |chunks| >= 255
    requires |s0.received| == s0.b.index && s0.p.sequenceId == 0 && s0.b.sequenceId == 1
    ensures var s := Play(s0, Drip(Stream(chunks, tail), chunks, capacity, 255), max);
      && Stranded(s) && !s.p.done && |s.tokens| == |s0.tokens| + 254
      && |s.received| == s0.b.index + DataEnd(chunks, 254)
  {
    hide HeadComplete, Stream, Frames, Dechunking, DataOffset, Play, DataEnd, Receive, Exec;
    FromHead(s0, max);
    var w := Stream(chunks, tail);
    var before := Drip(w, chunks, capacity, 254);
    DripRun(s0, chunks, tail, capacity, 254, max);
    var s := Play(s0, before, max);
    var s1 := NextPart(s0, s, chunks, tail, capacity, 255, max);
    UpToGrows(chunks, tail, 255);
    NextOf(s0, s, chunks, tail, 254);
    PlayMore(s0, before, Read(Part(w, chunks, 255), capacity), max);
    PlayMore(s0, before + [Read(Part(w, chunks, 255), capacity)], Parse, max);
    SameIds(0, 256);
    BlockedExec(s1.p, s1.b, max);
    LongerThanBefore(chunks, 255);
  }

  lemma LongerThanBefore(chunks: seq<Segment>, n: nat)
    requires 0 < n <= |chunks| && GoodChunks(chunks)
    ensures UpTo(chunks, n - 1) < DataEnd(chunks, n - 1)
  {
    hide Frames, DataOffset;
    if n > 1 {
      NextData(chunks, n - 2);
    }
    assert |chunks[n - 1].data| > 0;
  }

  /** For every chunked request whose head arrives alone. */
  lemma DrippedRequestIsStranded(r: Request, chunks: seq<Segment>, tail: string, capacity: int, max: int)
      returns (n: nat)
    requires GoodRequest(r) && FramingOf(r, max).Chunked? && GoodChunks(chunks) && |chunks| >= 255
    ensures var s := Play(Start(capacity),
        InOneRead(PrintRequest(r), capacity, n) + Drip(Stream(chunks, tail), chunks, capacity, 255), max);
      && Stranded(s) && !s.p.done && |s.received| == |PrintRequest(r)| + DataEnd(chunks, 254)
      && |s.tokens| == |RequestTokens(r)| + 1 + 254
  {
    hide Play, GoodRequest, PrintRequest, RequestTokens, HeadComplete, FramingOf, Stream, DataEnd, Drip;
    n := HeadAlone(r, capacity, max);
    var s0 := Play(Start(capacity), InOneRead(PrintRequest(r), capacity, n), max);
    SequenceAfterOneRead(PrintRequest(r), capacity, n, max);
    FromHead(s0, max);
    OneChunkInEachRead(s0, chunks, tail, capacity, max);
    PlayAppend(Start(capacity), InOneRead(PrintRequest(r), capacity, n),
      Drip(Stream(chunks, tail), chunks, capacity, 255), max);
  }
}

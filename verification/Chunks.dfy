/**
  Chunked bodies under every schedule: the parser takes apart what the responder prints for a list of
  chunks, and hands out each chunk with its data.
 */
module Chunks {
  import opened Automaton
  import opened Parser
  import opened Sessions
  import opened Bodies
  import opened HeadResults
  import opened Digits
  import opened ChunkStream
  import opened ChunkLooks

  // --- looks at the data ---

  /** A call of the parser would look at data of chunk `j`, if that is the next to be handed out. */
  ghost predicate Looks(s: Session, chunks: seq<Segment>, at: nat, j: int) {
    0 <= j < |chunks| && Active(s) && at + DataOffset(chunks, j) < |s.received|
  }

  /** What the look ends with. */
  function LookAt(s: Session, lead: Lead, chunks: seq<Segment>, at: nat, j: nat, max: int): Glimpse
    requires j < |chunks| && at + DataOffset(chunks, j) <= |s.received|
  {
    var d := at + DataOffset(chunks, j);
    Look(j == 0, lead, |chunks[j].data|, s.received[d..], if s.b.index > d then s.b.index - d else 0, max - d)
  }

  /** What the looks at the data of the first chunk have come to, one after the other. */
  ghost function FirstLooks(s0: Session, chunks: seq<Segment>, events: seq<Event>, max: int): Glimpse
    requires s0.b.Valid() && chunks != []
  {
    if events == [] then Waits(Kept)
    else
      var n := |events| - 1;
      var g := FirstLooks(s0, chunks, events[..n], max);
      var s := Play(s0, events[..n], max);
      if g.Waits? && events[n].Parse? && Looks(s, chunks, s0.b.index, 0)
        then LookAt(s, g.lead, chunks, s0.b.index, 0, max)
      else g
  }

  /** What the looks at the first chunk have come to; there is none if there are no chunks. */
  ghost function Firstly(s0: Session, chunks: seq<Segment>, events: seq<Event>, max: int): Glimpse
    requires s0.b.Valid()
  {
    if chunks == [] then Waits(Kept) else FirstLooks(s0, chunks, events, max)
  }

  /** The first chunk is awaited, or has been handed out with its own length. */
  ghost predicate FirstIsKept(s0: Session, chunks: seq<Segment>, events: seq<Event>, max: int)
    requires s0.b.Valid()
  {
    chunks != [] ==> var g := FirstLooks(s0, chunks, events, max); g.Waits? || g == Gives(|chunks[0].data|)
  }

  /** The chunk that is handed out next. */
  function Next(s0: Session, s: Session): int { |s.tokens| - |s0.tokens| }

  /** Exactly the last byte of the next chunk is missing; of the first, if its own length is still or again
      what the parser expects. */
  ghost predicate OneShort(s0: Session, s: Session, chunks: seq<Segment>, first: Glimpse, max: int) {
    var at, j := s0.b.index, Next(s0, s);
    && Looks(s, chunks, at, j) && |s.received| == at + DataEnd(chunks, j) - 1
    && (j == 0 ==> first.Waits? && LookAt(s, first.lead, chunks, at, 0, max) == Gives(|chunks[0].data|))
  }

  /** The data of the next chunk, not the first, is incomplete, and cannot stay where it is. */
  ghost predicate MustMove(s0: Session, s: Session, chunks: seq<Segment>, max: int) {
    var j := Next(s0, s);
    && Looks(s, chunks, s0.b.index, j) && j > 0 && |s.received| < s0.b.index + DataEnd(chunks, j) - 1
    && |s.received| - 1 + |chunks[j].data| > max
  }

  ghost predicate NeverOneShort(s0: Session, chunks: seq<Segment>, events: seq<Event>, max: int)
    requires s0.b.Valid()
  {
    forall n :: 0 <= n < |events| && events[n].Parse? ==>
      !OneShort(s0, Play(s0, events[..n], max), chunks, Firstly(s0, chunks, events[..n], max), max)
  }

  ghost predicate NeverMoved(s0: Session, chunks: seq<Segment>, events: seq<Event>, max: int)
    requires s0.b.Valid()
  {
    forall n :: 0 <= n < |events| && events[n].Parse? ==> !MustMove(s0, Play(s0, events[..n], max), chunks, max)
  }

  /** The first chunk keeps its length, and incomplete data can stay where they are. */
  ghost predicate InPlace(s0: Session, chunks: seq<Segment>, events: seq<Event>, max: int)
    requires s0.b.Valid()
  {
    FirstIsKept(s0, chunks, events, max) && NeverMoved(s0, chunks, events, max)
  }

  /** And the parser never looks when exactly one byte of the next chunk is missing. */
  ghost predicate CleanCuts(s0: Session, chunks: seq<Segment>, events: seq<Event>, max: int)
    requires s0.b.Valid()
  {
    InPlace(s0, chunks, events, max) && NeverOneShort(s0, chunks, events, max)
  }

  lemma CutsBefore(s0: Session, chunks: seq<Segment>, events: seq<Event>, max: int)
    requires s0.b.Valid() && events != []
    ensures var before := events[..|events| - 1];
      && (FirstIsKept(s0, chunks, events, max) ==> FirstIsKept(s0, chunks, before, max))
      && (NeverOneShort(s0, chunks, events, max) ==> NeverOneShort(s0, chunks, before, max))
      && (NeverMoved(s0, chunks, events, max) ==> NeverMoved(s0, chunks, before, max))
  {
    hide Play, OneShort, MustMove, LookAt, Looks, Firstly;
    var n := |events| - 1;
    forall k | 0 <= k < n ensures events[..n][..k] == events[..k] && events[..n][k] == events[k] {}
  }

  // --- sessions ---

  function ChunkTokens(chunks: seq<Segment>, at: nat, n: nat): seq<Token>
    requires n <= |chunks|
  {
    seq(n, j requires 0 <= j < n => ChunkToken(chunks, at, j))
  }

  /** What has been received since the head is the beginning of `w`. */
  ghost predicate Delivers(s0: Session, s: Session, w: string) {
    s0.b.index <= |s.received| && s.received[s0.b.index..] <= w
  }

  function LeadOf(lead: Lead, j: nat): Lead { if j == 0 then lead else Kept }

  /** The next chunk is being looked for, behind one that may have been handed out one byte early, or its
      data is awaited. */
  ghost predicate Between(s: Session, lead: Lead, chunks: seq<Segment>, at: nat, j: nat)
    requires j <= |chunks|
  {
    && s.b.Valid() && s.b.mem[..s.b.length] == s.received
    && (|| (at <= s.b.index <= s.b.length + 1 && InLine(s.p.core, chunks, j, s.b.index - at) && (j == 0 ==> lead.Kept?))
        || (Waiting(s.p.core, LeadOf(lead, j), chunks, at, j) && at + DataOffset(chunks, j) < s.b.index <= s.b.length
            && (LeadOf(lead, j).Kept? ==> s.b.index < at + DataEnd(chunks, j) - 1)))
  }

  lemma ReceivedMatches(b: Buffer, received: string, at: nat, w: string)
    requires b.Valid() && b.mem[..b.length] == received && at <= |received| && received[at..] <= w
    ensures Matches(b, at, w)
  {
    forall x | at <= x < b.length ensures x - at < |w| && b.mem[x] == w[x - at] {
      assert b.mem[..b.length][x] == received[at..][x - at];
    }
  }

  /** What a call of the parser does then. */
  lemma CallOutcome(s: Session, lead: Lead, chunks: seq<Segment>, tail: string, at: nat, j: nat, max: int)
    requires j <= |chunks| && GoodChunks(chunks) && Between(s, lead, chunks, at, j) && Active(s)
    requires at <= |s.received| && s.received[at..] <= Stream(chunks, tail)
    ensures var r := Scan(s.p.core, s.b, s.b.index, max);
      if Looks(s, chunks, at, j) then Ended(r, s.b, LookAt(s, LeadOf(lead, j), chunks, at, j, max), chunks, at, j)
      else
        || (r.b == s.b && r.signal == STOP && r.at == s.b.length && at <= r.at && InLine(r.core, chunks, j, r.at - at))
        || (r.b == s.b && j == |chunks| && r.signal == Break(true, true, false) && r.core.token == FINAL_CHUNK
          && r.at == at + Offset(chunks, |chunks|) + 3 <= s.b.length)
  {
    hide Frames, Stream, Scan, InLine, Waiting, Look, Ended, DataOffset, DataEnd;
    assert |s.received| == s.b.length;
    if at <= s.b.index <= s.b.length && InLine(s.p.core, chunks, j, s.b.index - at) {
      ReceivedMatches(s.b, s.received, at, Stream(chunks, tail));
      ScanLine(s.p.core, s.b, s.b.index, max, chunks, tail, at, j);
      LineFacts(s.p.core, chunks, j, s.b.index - at);
      if Looks(s, chunks, at, j) {
        DataReceived(s, chunks, at, j);
        NotInLine(Scan(s.p.core, s.b, s.b.index, max), s.b, chunks, at, j);
      }
    } else {
      WaitingIsNext(s.p.core, LeadOf(lead, j), chunks, at, j);
      ScanWaiting(s.p.core, s.b, s.b.index, max, LeadOf(lead, j), chunks, at, j);
      DataReceived(s, chunks, at, j);
    }
  }

  lemma WaitingIsNext(k: Core, lead: Lead, chunks: seq<Segment>, at: nat, j: nat)
    ensures Waiting(k, lead, chunks, at, j) ==> j < |chunks|
  {
  }

  lemma DataReceived(s: Session, chunks: seq<Segment>, at: nat, j: nat)
    requires s.b.Valid() && s.b.mem[..s.b.length] == s.received && j < |chunks|
      && at + DataOffset(chunks, j) <= |s.received|
    ensures at + DataOffset(chunks, j) <= s.b.length
    ensures DataOf(s.b, chunks, at, j) == s.received[at + DataOffset(chunks, j)..]
  {
    hide DataOffset;
  }

  lemma NotInLine(r: Result, b: Buffer, chunks: seq<Segment>, at: nat, j: nat)
    requires j < |chunks| && at + DataOffset(chunks, j) < b.length
    ensures !(r.at == b.length && at <= r.at && InLine(r.core, chunks, j, r.at - at))
  {
    hide Frames;
    if r.at == b.length && at <= r.at && InLine(r.core, chunks, j, r.at - at) {
      LineFacts(r.core, chunks, j, r.at - at);
    }
  }

  lemma ExecAtEnd(p: Parser, b: Buffer, max: int)
    requires b.Valid() && b.index >= b.length && !p.done && p.sequenceId != b.sequenceId
    ensures Exec(p, b, max) == Outcome(p.(sequenceId := b.sequenceId), b, NO_TOKEN)
  {
  }

  /** A call that does not look at a byte changes nothing but the sequence id of the parser. */
  lemma IdleCall(s: Session, max: int)
    requires s.b.Valid() && !Active(s)
    ensures var r := Happen(s, Parse, max); r == s.(p := s.p.(sequenceId := r.p.sequenceId)) && !Active(r)
  {
    hide Exec;
    if s.p.done || s.p.sequenceId == s.b.sequenceId {
      BlockedExec(s.p, s.b, max);
    } else {
      ExecAtEnd(s.p, s.b, max);
    }
  }

  /** A session after a call whose look at the data of chunk `j` ended with `g`. */
  ghost predicate Glimpsed(s: Session, r: Session, g: Glimpse, chunks: seq<Segment>, at: nat, j: nat)
    requires j < |chunks|
  {
    var d := at + DataOffset(chunks, j);
    && r.received == s.received && r.b.Valid() && !r.p.done
    && match g
       case Waits(lead) =>
         && r.tokens == s.tokens && r.texts == s.texts && r.b == s.b.(index := s.b.length)
         && Waiting(r.p.core, lead, chunks, at, j) && r.p.sequenceId == s.b.sequenceId
       case Gives(len) =>
         && r.tokens == s.tokens + [Token(Body, false, false, len, d)]
         && r.texts == s.texts + [Peek(s.b.mem, Token(Body, false, false, len, d))]
         && r.b == s.b.(index := d + len) && r.p.core.state.ChunkEndCr? && r.p.sequenceId == s.p.sequenceId
       case Moves =>
         && r.tokens == s.tokens && r.texts == s.texts && r.b.index < r.b.length && r.p.sequenceId == r.b.sequenceId
  }

  lemma LookEnds(s: Session, g: Glimpse, chunks: seq<Segment>, at: nat, j: nat, max: int)
    requires j < |chunks| && s.b.Valid() && Active(s)
    requires Ended(Scan(s.p.core, s.b, s.b.index, max), s.b, g, chunks, at, j)
    ensures Glimpsed(s, Happen(s, Parse, max), g, chunks, at, j)
  {
    hide Scan, DataOffset, Waiting;
  }

  /** Chunks handed out lie within the first `n` bytes. */
  ghost predicate Within(tokens: seq<Token>, n: nat) {
    forall i :: 0 <= i < |tokens| ==> tokens[i].index + tokens[i].len <= n
  }

  /** `s` has handed out the first chunks of the stream and nothing else; `first` is what the looks at the
      first one have come to. With `exact`, each was handed out with its data, all of it received. */
  ghost predicate Dechunking(s0: Session, s: Session, chunks: seq<Segment>, first: Glimpse, exact: bool) {
    var at := s0.b.index;
    && s.b.Valid() && |s0.texts| == |s0.tokens| <= |s.tokens| == |s.texts| && s.b.mem[..s.b.length] == s.received
    && at <= |s.received| && (exact ==> Within(s.tokens[|s0.tokens|..], |s.received|))
    && (chunks != [] ==> if s.tokens == s0.tokens then first.Waits? else first == Gives(|chunks[0].data|))
    && (if s.p.done then
          && s.tokens == s0.tokens + ChunkTokens(chunks, at, |chunks|) + [FINAL_CHUNK]
          && (exact ==> s.texts == s0.texts + Datas(chunks) + [""])
          && s.b.index == at + Offset(chunks, |chunks|) + 3 <= s.b.length
        else
          var j := Next(s0, s);
          && j <= |chunks| && s.tokens == s0.tokens + ChunkTokens(chunks, at, j)
          && (exact ==> s.texts == s0.texts + Datas(chunks[..j]))
          && Between(s, if first.Waits? then first.lead else Kept, chunks, at, j))
  }

  lemma DechunkingByRead(s0: Session, s: Session, chunks: seq<Segment>, first: Glimpse, exact: bool,
                          bytes: string, capacity: int, max: int)
    requires Dechunking(s0, s, chunks, first, exact)
    ensures Dechunking(s0, Happen(s, Read(bytes, capacity), max), chunks, first, exact)
  {
    hide InLine, Waiting;
  }

  lemma ChunkText(b: Buffer, chunks: seq<Segment>, tail: string, at: nat, j: nat)
    requires b.Valid() && j < |chunks| && Matches(b, at, Stream(chunks, tail)) && at + DataEnd(chunks, j) <= b.length
    ensures Peek(b.mem, ChunkToken(chunks, at, j)) == chunks[j].data
  {
    hide Frames, Stream;
    FrameParts(chunks, tail, j);
    var w, q := Stream(chunks, tail), DataOffset(chunks, j);
    var text := b.mem[at + q..at + q + |chunks[j].data|];
    forall x | 0 <= x < |chunks[j].data| ensures text[x] == chunks[j].data[x] {
      assert w[q..q + |chunks[j].data|][x] == w[q + x] == b.mem[at + q + x];
    }
  }

  /** A chunk handed out. */
  lemma ChunkAdded(s0: Session, s: Session, r: Session, chunks: seq<Segment>, tail: string, first: Glimpse,
      first': Glimpse, exact: bool)
    requires Dechunking(s0, s, chunks, first, exact) && !s.p.done && Next(s0, s) < |chunks|
      && first' == Gives(|chunks[0].data|)
    requires s.received[s0.b.index..] <= Stream(chunks, tail)
    requires var j := Next(s0, s);
      && Glimpsed(s, r, Gives(|chunks[j].data|), chunks, s0.b.index, j)
      && s0.b.index + DataEnd(chunks, j) <= |s.received| + if exact then 0 else 1
    ensures Dechunking(s0, r, chunks, first', exact)
  {
    hide Frames, Stream, Waiting, Between;
    var at, j := s0.b.index, Next(s0, s);
    ReceivedMatches(s.b, s.received, at, Stream(chunks, tail)) by { BetweenIsValid(s, first, chunks, at, j); }
    assert |s.received| == s.b.length;
    if exact {
      ChunkText(s.b, chunks, tail, at, j);
    }
    assert chunks[..j + 1] == chunks[..j] + [chunks[j]];
    assert ChunkTokens(chunks, at, j + 1) == ChunkTokens(chunks, at, j) + [ChunkToken(chunks, at, j)];
    assert r.tokens[|s0.tokens|..] == s.tokens[|s0.tokens|..] + [ChunkToken(chunks, at, j)];
    NextLine(r, Kept, chunks, at, j);
  }

  lemma BetweenIsValid(s: Session, first: Glimpse, chunks: seq<Segment>, at: nat, j: nat)
    requires j <= |chunks| && Between(s, if first.Waits? then first.lead else Kept, chunks, at, j)
    ensures s.b.Valid() && s.b.mem[..s.b.length] == s.received
  {
  }

  lemma NextLine(r: Session, lead: Lead, chunks: seq<Segment>, at: nat, j: nat)
    requires j < |chunks| && r.p.core.state.ChunkEndCr? && r.b.index == at + DataEnd(chunks, j) <= r.b.length + 1
    requires r.b.Valid() && r.b.mem[..r.b.length] == r.received
    ensures Between(r, lead, chunks, at, j + 1)
  {
    hide Frames;
    FramesSplit(chunks, j);
  }

  /** `first'` is what the looks at the first chunk have come to after one more call, and is no harm. */
  ghost predicate Firsts(s: Session, chunks: seq<Segment>, at: nat, first: Glimpse, first': Glimpse, max: int) {
    && first' == (if first.Waits? && Looks(s, chunks, at, 0) then LookAt(s, first.lead, chunks, at, 0, max) else first)
    && (chunks != [] ==> first'.Waits? || first' == Gives(|chunks[0].data|))
  }

  /** A look at the data of the next chunk, with a clean cut. */
  lemma DechunkingByLook(s0: Session, s: Session, chunks: seq<Segment>, tail: string, first: Glimpse, first': Glimpse,
      exact: bool, max: int)
    requires Dechunking(s0, s, chunks, first, exact) && GoodChunks(chunks)
      && s.received[s0.b.index..] <= Stream(chunks, tail)
    requires !s.p.done && Looks(s, chunks, s0.b.index, Next(s0, s))
    requires !(exact && OneShort(s0, s, chunks, first, max)) && !MustMove(s0, s, chunks, max)
    requires Firsts(s, chunks, s0.b.index, first, first', max)
    ensures Dechunking(s0, Happen(s, Parse, max), chunks, first', exact)
  {
    hide Frames, Stream, Scan, InLine, Waiting, Exec, Look, Within;
    var at, j := s0.b.index, Next(s0, s);
    var lead := LeadOf(if first.Waits? then first.lead else Kept, j);
    CallOutcome(s, if first.Waits? then first.lead else Kept, chunks, tail, at, j, max);
    var g := LookAt(s, lead, chunks, at, j, max);
    LookEnds(s, g, chunks, at, j, max);
    var r := Happen(s, Parse, max);
    var d := at + DataOffset(chunks, j);
    LooksAhead(s, chunks, at, j, lead, max);
    if g == Gives(|chunks[j].data|) {
      ChunkAdded(s0, s, r, chunks, tail, first, first', exact);
    }
  }

  /** What a look can end with, in terms of the bytes received. */
  lemma LooksAhead(s: Session, chunks: seq<Segment>, at: nat, j: nat, lead: Lead, max: int)
    requires j < |chunks| && at + DataOffset(chunks, j) < |s.received| && s.b.index < |s.received|
    requires j > 0 ==> lead.Kept?
    ensures var g := LookAt(s, lead, chunks, at, j, max); var end := at + DataEnd(chunks, j);
      && (g.Gives? ==> at + DataOffset(chunks, j) + g.len <= |s.received| + 1)
      && (g == Waits(Kept) ==> |s.received| < end - 1)
      && (j > 0 ==>
            g == if end <= |s.received| + 1 then Gives(|chunks[j].data|)
                 else if |s.received| - 1 + |chunks[j].data| > max then Moves else Waits(Kept))
  {
    hide Frames, DataOffset;
    var d := at + DataOffset(chunks, j);
    var data := s.received[d..];
    var p := if s.b.index > d then s.b.index - d else 0;
    if j > 0 {
      LaterLook(|chunks[j].data|, data, p, max - d);
    }
    GivesWhatIsThere(j == 0, lead, |chunks[j].data|, data, p, max - d);
    if LookAt(s, lead, chunks, at, j, max) == Waits(Kept) {
      KeptIsIncomplete(j == 0, lead, |chunks[j].data|, data, p, max - d);
    }
  }

  lemma {:induction false} GivesWhatIsThere(first: bool, lead: Lead, len: nat, s: string, p: nat, room: int)
    ensures var g := Look(first, lead, len, s, p, room); g.Gives? ==> g.len <= |s| + 1
    decreases |s| - p
  {
    if p < |s| {
      GivesWhatIsThere(first, NextLead(first, lead, len, s[p], p), len, s, p + 1, room);
    }
  }

  /** A call that comes to no data, or to the end of the body. */
  lemma DechunkingByLine(s0: Session, s: Session, chunks: seq<Segment>, tail: string, first: Glimpse, exact: bool,
      max: int)
    requires Dechunking(s0, s, chunks, first, exact) && GoodChunks(chunks)
      && s.received[s0.b.index..] <= Stream(chunks, tail)
    requires Active(s) && !Looks(s, chunks, s0.b.index, Next(s0, s))
    ensures Dechunking(s0, Happen(s, Parse, max), chunks, first, exact)
  {
    hide Frames, Stream, Scan, InLine, Waiting, Look, Ended, DataOffset, DataEnd;
    var at, j := s0.b.index, Next(s0, s);
    CallOutcome(s, if first.Waits? then first.lead else Kept, chunks, tail, at, j, max);
    var r := Happen(s, Parse, max);
    if Scan(s.p.core, s.b, s.b.index, max).signal.Break? && r.p.done {
      assert chunks[..j] == chunks;
      assert Peek(s.b.mem, FINAL_CHUNK) == "";
      assert r.tokens[|s0.tokens|..] == s.tokens[|s0.tokens|..] + [FINAL_CHUNK];
    } else {
      StillInLine(s, if first.Waits? then first.lead else Kept, chunks, at, j);
    }
  }

  lemma StillInLine(s: Session, lead: Lead, chunks: seq<Segment>, at: nat, j: nat)
    requires j <= |chunks| && Between(s, lead, chunks, at, j) && Active(s) && !Looks(s, chunks, at, j)
    ensures j == 0 ==> lead.Kept?
  {
    hide DataOffset, DataEnd, InLine;
    assert |s.received| == s.b.length;
  }

  lemma DechunkingByParse(s0: Session, s: Session, chunks: seq<Segment>, tail: string, first: Glimpse,
      first': Glimpse, exact: bool, max: int)
    requires Dechunking(s0, s, chunks, first, exact) && GoodChunks(chunks)
      && s.received[s0.b.index..] <= Stream(chunks, tail)
    requires !(exact && OneShort(s0, s, chunks, first, max)) && !MustMove(s0, s, chunks, max)
    requires Firsts(s, chunks, s0.b.index, first, first', max)
    ensures Dechunking(s0, Happen(s, Parse, max), chunks, first', exact)
  {
    hide Frames, Stream, Exec, InLine, Waiting, OneShort, MustMove, LookAt, DataOffset, DataEnd;
    var j := Next(s0, s);
    assert s.p.done || j == 0 || !first.Waits? || chunks == [];
    if !Active(s) {
      IdleCall(s, max);
    } else if Looks(s, chunks, s0.b.index, Next(s0, s)) {
      DechunkingByLook(s0, s, chunks, tail, first, first', exact, max);
    } else {
      DechunkingByLine(s0, s, chunks, tail, first, exact, max);
    }
  }

  lemma {:induction false} ReceivedGrows(s: Session, events: seq<Event>, max: int)
    requires s.b.Valid()
    ensures s.received <= Play(s, events, max).received
  {
    hide Exec;
    if events != [] {
      ReceivedGrows(s, events[..|events| - 1], max);
    }
  }

  lemma NothingBefore(s0: Session, chunks: seq<Segment>, exact: bool, max: int)
    requires HeadComplete(s0, max) && s0.p.core.state == SizeStart(true)
    ensures Dechunking(s0, s0, chunks, Waits(Kept), exact)
  {
    hide HeadComplete, Frames;
    FromHead(s0, max);
    assert s0.texts + Datas(chunks[..0]) == s0.texts && s0.tokens + ChunkTokens(chunks, s0.b.index, 0) == s0.tokens;
    assert chunks[..0] == [] && Offset(chunks, 0) == 0 by { NoFrames(); }
  }

  /** Chunked round trip: under every schedule in which the first chunk keeps its length and nothing is moved
      the tokens returned after the head are those of the printed chunks in order, up to some chunk; and
      when the parser is done, all of them followed by one final token of length zero. If the cuts are
      clean, they spell the chunks. */
  lemma {:induction false} ChunksAreDelivered(s0: Session, events: seq<Event>, chunks: seq<Segment>, tail: string,
      exact: bool, max: int)
    requires HeadComplete(s0, max) && s0.p.core.state == SizeStart(true) && GoodChunks(chunks)
    requires Delivers(s0, Play(s0, events, max), Stream(chunks, tail))
    requires InPlace(s0, chunks, events, max) && (exact ==> NeverOneShort(s0, chunks, events, max))
    ensures Dechunking(s0, Play(s0, events, max), chunks, Firstly(s0, chunks, events, max), exact)
  {
    hide Exec, HeadComplete, Frames, Stream, Dechunking, OneShort, MustMove, LookAt, Looks;
    FromHead(s0, max);
    if events == [] {
      NothingBefore(s0, chunks, exact, max);
    } else {
      var n := |events| - 1;
      var before := events[..n];
      var s := Play(s0, before, max);
      CutsBefore(s0, chunks, events, max);
      ReceivedGrows(s0, before, max);
      var r := Play(s0, events, max);
      assert s.received <= r.received && s.received[s0.b.index..] <= r.received[s0.b.index..];
      ChunksAreDelivered(s0, before, chunks, tail, exact, max);
      match events[n]
      case Read(bytes, capacity) =>
        DechunkingByRead(s0, s, chunks, Firstly(s0, chunks, before, max), exact, bytes, capacity, max);
      case Parse =>
        var first, first' := Firstly(s0, chunks, before, max), Firstly(s0, chunks, events, max);
        assert Firsts(s, chunks, s0.b.index, first, first', max) by { NoFirst(s, chunks, s0.b.index); }
        DechunkingByParse(s0, s, chunks, tail, first, first', exact, max);
    }
  }

  lemma NoFirst(s: Session, chunks: seq<Segment>, at: nat)
    ensures chunks == [] ==> !Looks(s, chunks, at, 0)
  {
  }

  lemma BetweenIsBeforeTheEnd(s: Session, lead: Lead, chunks: seq<Segment>, at: nat, j: nat)
    requires j <= |chunks| && Between(s, lead, chunks, at, j) && LeadOf(lead, j).Kept?
    ensures s.b.index < at + |Frames(chunks) + LAST_CHUNK|
  {
    hide Frames, Frame;
    assert chunks[..|chunks|] == chunks;
    FramesSplit(chunks, j);
    if j < |chunks| {
      FramesSplit(chunks, j + 1);
      assert DataEnd(chunks, j) + 2 <= |Frames(chunks)|;
    }
    var q := s.b.index - at;
    if at <= s.b.index && InLine(s.p.core, chunks, j, q) {
      LineFacts(s.p.core, chunks, j, q);
    }
  }

  // --- when all has been received ---

  /** The first chunk has been handed out, or the next call that is not held back hands it out as it is. */
  ghost predicate ComesOut(s: Session, first: Glimpse, chunks: seq<Segment>, at: nat, max: int)
    requires chunks != [] ==> at + DataOffset(chunks, 0) <= |s.received|
  {
    chunks != [] && first.Waits? ==> LookAt(s, first.lead, chunks, at, 0, max) == Gives(|chunks[0].data|)
  }

  lemma AllDataReceived(chunks: seq<Segment>)
    ensures chunks != [] ==> DataOffset(chunks, 0) <= DataEnd(chunks, 0) <= |Frames(chunks) + LAST_CHUNK|
  {
    hide Frames, DataOffset;
    if chunks != [] {
      WholeFrames(chunks, 0);
    }
  }

  /** Once all has been received, a first chunk that has kept its length comes out. */
  lemma KeptComesOut(s0: Session, s: Session, chunks: seq<Segment>, first: Glimpse, exact: bool, max: int)
    requires Dechunking(s0, s, chunks, first, exact) && GoodChunks(chunks) && (first.Waits? ==> first.lead.Kept?)
    requires s0.b.index + |Frames(chunks) + LAST_CHUNK| <= |s.received| && !s.p.done
    ensures chunks != [] ==> s0.b.index + DataOffset(chunks, 0) <= |s.received|
    ensures ComesOut(s, first, chunks, s0.b.index, max)
  {
    hide Frames, InLine, Waiting, LookAt, Within;
    AllDataReceived(chunks);
    if chunks != [] && first.Waits? {
      BetweenIsValid(s, first, chunks, s0.b.index, 0);
      assert |s.received| == s.b.length;
      BetweenIsBeforeTheEnd(s, first.lead, chunks, s0.b.index, 0);
      WholeChunk(s, first.lead, chunks, s0.b.index, 0, max);
    }
  }

  lemma LooksAtAByte(s: Session, lead: Lead, chunks: seq<Segment>, at: nat, j: nat, max: int)
    requires j < |chunks| && at + DataOffset(chunks, j) <= |s.received|
    ensures LookAt(s, lead, chunks, at, j, max).Gives? ==>
      s.b.index < |s.received| && at + DataOffset(chunks, j) < |s.received|
  {
    hide DataOffset;
  }

  /** A look at the data of chunk `j` then finds it. */
  lemma WholeChunk(s: Session, lead: Lead, chunks: seq<Segment>, at: nat, j: nat, max: int)
    requires j < |chunks| && chunks[j].data != "" && lead.Kept? && at + |Frames(chunks)| <= |s.received|
      && s.b.index < |s.received|
    ensures at + DataEnd(chunks, j) <= |s.received| && LookAt(s, lead, chunks, at, j, max) == Gives(|chunks[j].data|)
  {
    hide Frames, DataOffset;
    WholeFrames(chunks, j);
    var d := at + DataOffset(chunks, j);
    WholeLook(j == 0, lead, |chunks[j].data|, s.received[d..], if s.b.index > d then s.b.index - d else 0, max - d);
  }

  lemma WholeFrames(chunks: seq<Segment>, j: nat)
    requires j < |chunks|
    ensures DataEnd(chunks, j) <= |Frames(chunks)|
  {
    hide Frames, Frame;
    FramesSplit(chunks, j);
    FramesSplit(chunks, j + 1);
  }

  /** A call that is not held back returns the next token, if the first chunk comes out. */
  lemma ParseGetsTheNext(s0: Session, s: Session, chunks: seq<Segment>, tail: string, first: Glimpse, exact: bool,
      max: int)
    returns (first': Glimpse)
    requires Dechunking(s0, s, chunks, first, exact) && GoodChunks(chunks)
    requires !s.p.done && s.p.sequenceId != s.b.sequenceId && Delivers(s0, s, Stream(chunks, tail))
    requires s0.b.index + |Frames(chunks) + LAST_CHUNK| <= |s.received|
    requires chunks != [] ==> s0.b.index + DataOffset(chunks, 0) <= |s.received|
    requires ComesOut(s, first, chunks, s0.b.index, max)
    ensures chunks == [] || first' == Gives(|chunks[0].data|)
    ensures var r := Happen(s, Parse, max);
      && Dechunking(s0, r, chunks, first', exact) && |r.tokens| == |s.tokens| + 1
      && r.p.sequenceId == s.p.sequenceId && r.b.sequenceId == s.b.sequenceId && r.received == s.received
      && (r.p.done <==> Next(s0, s) == |chunks|)
  {
    hide Frames, Stream, Exec, InLine, Waiting, LookAt, Within, Ended;
    var at, j := s0.b.index, Next(s0, s);
    var lead := if first.Waits? then first.lead else Kept;
    first' := if chunks != [] then Gives(|chunks[0].data|) else first;
    BetweenIsValid(s, first, chunks, at, j);
    assert |s.received| == s.b.length;
    if j == 0 && chunks != [] {
      LooksAtAByte(s, lead, chunks, at, 0, max);
      AllDataReceived(chunks);
    } else {
      WaitingIsNext(s.p.core, lead, chunks, at, j);
      BetweenIsBeforeTheEnd(s, lead, chunks, at, j);
    }
    var r := Happen(s, Parse, max);
    if j < |chunks| {
      if j > 0 {
        WholeChunk(s, Kept, chunks, at, j, max);
      }
      CallOutcome(s, lead, chunks, tail, at, j, max);
      LookEnds(s, Gives(|chunks[j].data|), chunks, at, j, max);
      ChunkAdded(s0, s, r, chunks, tail, first, first', exact);
    } else {
      DechunkingByLine(s0, s, chunks, tail, first, exact, max);
      LastCallEnds(s0, s, chunks, tail, first, exact, max);
    }
  }

  lemma LastCallEnds(s0: Session, s: Session, chunks: seq<Segment>, tail: string, first: Glimpse, exact: bool, max: int)
    requires Dechunking(s0, s, chunks, first, exact) && GoodChunks(chunks) && Active(s) && Next(s0, s) == |chunks|
    requires Delivers(s0, s, Stream(chunks, tail))
    requires s0.b.index + |Frames(chunks) + LAST_CHUNK| <= |s.received|
    ensures var r := Happen(s, Parse, max);
      && r.tokens == s.tokens + [FINAL_CHUNK] && r.p.done
      && r.p.sequenceId == s.p.sequenceId && r.b.sequenceId == s.b.sequenceId
  {
    hide Frames, Stream, Scan, InLine, Waiting, Ended, Within;
    var at, j := s0.b.index, |chunks|;
    CallOutcome(s, if first.Waits? then first.lead else Kept, chunks, tail, at, j, max);
    var r := Scan(s.p.core, s.b, s.b.index, max);
    assert chunks[..j] == chunks && |s.received| == s.b.length;
    if r.signal == STOP {
      LineFacts(r.core, chunks, j, r.at - at);
    }
  }

  /** Once all has been received, whatever the cuts, as many calls as tokens are left hand out every chunk
      that is left and the final token, if the parser is not held back and the first chunk comes out. */
  lemma {:induction false} ChunksAreFinished(s0: Session, s: Session, chunks: seq<Segment>, tail: string,
      first: Glimpse,
      exact: bool, n: nat, max: int)
    returns (first': Glimpse)
    requires Dechunking(s0, s, chunks, first, exact) && GoodChunks(chunks)
    requires !s.p.done && s.p.sequenceId != s.b.sequenceId && Delivers(s0, s, Stream(chunks, tail))
    requires s0.b.index + |Frames(chunks) + LAST_CHUNK| <= |s.received|
    requires chunks != [] ==> s0.b.index + DataOffset(chunks, 0) <= |s.received|
    requires ComesOut(s, first, chunks, s0.b.index, max)
    requires n <= |chunks| + 1 - Next(s0, s)
    ensures n == 0 ==> first' == first
    ensures n > 0 ==> chunks == [] || first' == Gives(|chunks[0].data|)
    ensures var r := Play(s, Parses(n), max);
      && Dechunking(s0, r, chunks, first', exact) && |r.tokens| == |s.tokens| + n && r.received == s.received
      && r.p.sequenceId == s.p.sequenceId && r.b.sequenceId == s.b.sequenceId
      && (r.p.done <==> n == |chunks| + 1 - Next(s0, s))
  {
    hide Exec, Frames, Between, Within;
    if n == 0 {
      first' := first;
    } else {
      assert Parses(n)[..n - 1] == Parses(n - 1);
      var before := ChunksAreFinished(s0, s, chunks, tail, first, exact, n - 1, max);
      first' := ParseGetsTheNext(s0, Play(s, Parses(n - 1), max), chunks, tail, before, exact, max);
    }
  }

  /** The first chunk has not come out as it is, and no further call hands it out. */
  ghost predicate GoneFor(s0: Session, s: Session, chunks: seq<Segment>)
    requires chunks != []
  {
    && s.b.Valid() && s0.tokens <= s.tokens
    && if s.tokens == s0.tokens then !Active(s)
       else
         var t := s.tokens[|s0.tokens|];
         t == ChunkToken(chunks, s0.b.index, 0).(len := t.len) && 0 <= t.len != |chunks[0].data|
  }

  /** If it does not come out, then no number of calls hands it out. */
  lemma {:induction false} DoesNotComeOut(s0: Session, s: Session, chunks: seq<Segment>, tail: string, lead: Lead,
      n: nat,
      max: int)
    requires chunks != [] && GoodChunks(chunks) && s.tokens == s0.tokens && !s.p.done
    requires Between(s, lead, chunks, s0.b.index, 0) && Delivers(s0, s, Stream(chunks, tail))
    requires s0.b.index + DataEnd(chunks, 0) <= |s.received|
    requires !ComesOut(s, Waits(lead), chunks, s0.b.index, max) && n > 0
    ensures GoneFor(s0, Play(s, Parses(n), max), chunks)
  {
    hide Frames, Stream, Scan, InLine, Waiting, Exec, Look, Ended, DataOffset;
    assert Parses(n)[..n - 1] == Parses(n - 1);
    if n == 1 {
      assert Play(s, Parses(0), max) == s;
      if Active(s) {
        CallOutcome(s, lead, chunks, tail, s0.b.index, 0, max);
        LookEnds(s, LookAt(s, lead, chunks, s0.b.index, 0, max), chunks, s0.b.index, 0, max);
      } else {
        IdleCall(s, max);
      }
    } else {
      DoesNotComeOut(s0, s, chunks, tail, lead, n - 1, max);
      StillGone(s0, Play(s, Parses(n - 1), max), chunks, max);
    }
  }

  lemma StillGone(s0: Session, s: Session, chunks: seq<Segment>, max: int)
    requires chunks != [] && GoneFor(s0, s, chunks)
    ensures GoneFor(s0, Happen(s, Parse, max), chunks)
  {
    hide Exec, DataOffset;
    if !Active(s) {
      IdleCall(s, max);
    }
  }
}

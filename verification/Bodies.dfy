/**
  Bodies with a content length. From the moment the head is complete, every schedule that
  follows is considered: a large body is handed out piece by piece and adds up to its
  announced length, a small one is handed out whole.
 */
module Bodies {
  import opened Automaton
  import opened Parser
  import opened Head
  import opened Sessions
  import opened HeadCuts

  // --- the moment the head is complete ---

  ghost predicate HeadComplete(s: Session, max: int) {
    && s.b.Valid() && !s.p.done && s.p.sequenceId != s.b.sequenceId
    && 0 < s.b.afterHeaders == s.b.index <= s.b.length
    && s.b.mem[..s.b.length] == s.received
    && Fold(s.received, max) == HeadRun(s.p.core, s.tokens, s.b.index)
    && |s.texts| == |s.tokens|
  }

  lemma ExecCompletesHead(p: Parser, b: Buffer, max: int, tokens: seq<Token>)
    requires b.Valid() && b.index <= b.length && b.afterHeaders == 0 && !p.done && InHead(p.core)
    requires Fold(b.mem[..b.index], max) == HeadRun(p.core, tokens, 0)
    ensures var o := Exec(p, b, max);
      o.b.afterHeaders > 0 ==> o.p.sequenceId != o.b.sequenceId && !o.p.done && !o.token.kind.None?
  {
    hide Fold;
    ScanFollowsFold(p.core, b, b.index, max, tokens);
  }

  lemma ParseCompletesHead(s: Session, max: int)
    requires Reading(s, max) && |s.texts| == |s.tokens|
    requires Happen(s, Parse, max).b.afterHeaders > 0
    ensures HeadComplete(Happen(s, Parse, max), max)
  {
    hide Fold, Exec;
    var r := Happen(s, Parse, max);
    assert s.received[..s.b.index] == s.b.mem[..s.b.index];
    ExecFollowsFold(s.p, s.b, max, s.tokens);
    ExecCompletesHead(s.p, s.b, max, s.tokens);
    assert s.received[..r.b.index] == s.b.mem[..r.b.index];
    HeadEnds(s.received, r.b.index, max);
  }

  lemma {:induction false} TextsMatchTokens(s: Session, events: seq<Event>, max: int)
    requires s.b.Valid() && |s.texts| == |s.tokens|
    ensures |Play(s, events, max).texts| == |Play(s, events, max).tokens|
  {
    hide Exec;
    if events != [] {
      TextsMatchTokens(s, events[..|events| - 1], max);
    }
  }

  /** A schedule that gets beyond the head passes through the moment the head is complete. */
  lemma {:induction false} HeadIsCompleted(capacity: int, events: seq<Event>, max: int) returns (n: nat)
    requires Play(Start(capacity), events, max).b.afterHeaders > 0
    ensures n <= |events| && HeadComplete(Play(Start(capacity), events[..n], max), max)
  {
    hide Fold, Exec, Reading, Past, HeadComplete;
    n := |events|;
    assert events[..n] == events;
    if events != [] {
      var before := events[..|events| - 1];
      var s := Play(Start(capacity), before, max);
      EverySchedule(capacity, before, max);
      TextsMatchTokens(Start(capacity), before, max);
      if s.b.afterHeaders > 0 {
        n := HeadIsCompleted(capacity, before, max);
        assert events[..n] == before[..n];
      } else {
        assert Past(s, max) ==> s.b.afterHeaders > 0 by { PastHasHead(s, max); }
        ParseCompletesHead(s, max);
      }
    }
  }

  lemma PastHasHead(s: Session, max: int)
    ensures Past(s, max) ==> s.b.afterHeaders > 0
  {
    hide Fold;
  }

  /** When a small body is chosen, the buffer is given room for head and body, within the largest buffer;
      otherwise it is left as it is. The flags of the token say whether the body is streamed, or absent. */
  lemma SmallBodyGetsRoom(k: Core, b: Buffer, i: nat, max: int)
    ensures var k' := FinishCore(k, i, max); var b' := FinishBuffer(k, b, i, max);
      && (k'.state.SmallStart? && !k.state.SmallStart? ==>
            b'.capacity >= b'.afterHeaders + k'.contentLength && (b'.capacity == b.capacity || b'.capacity <= max))
      && (!k'.state.SmallStart? ==> b'.capacity == b.capacity)
      && b.capacity <= b'.capacity
  {
  }

  /** What the state after a complete head says about how the body is delimited. */
  ghost predicate Decided(k: Core, end: nat, max: int) {
    && k.contentRemaining == k.contentLength
    && (k.state.SizeStart? <==> k.chunked)
    && (k.state.HeadDone? <==> !k.chunked && k.contentLength == 0)
    && (k.state.SmallStart? <==> !k.chunked && 0 < k.contentLength <= max - end)
    && (k.state.LargeStart? <==> !k.chunked && 0 < k.contentLength && max - end < k.contentLength)
  }

  lemma FinishDecides(r: HeadRun, m: Move, i: nat, c: char, max: int)
    requires Sound(r, i) && IsHead(r.k.state) && HeadLike(r.k.state, m) && AdvanceBy(r, m, i, c, max).end > 0
    ensures var r' := AdvanceBy(r, m, i, c, max); Decided(r'.k, r'.end, max)
  {
    hide InOrder, Terminated, RunDigit, Limit;
    if m.Go? {
      PreparedInOrder(r, m, i, c);
    }
  }

  lemma {:induction false} FoldDecides(s: string, max: int)
    requires Fold(s, max).end > 0
    ensures Decided(Fold(s, max).k, Fold(s, max).end, max)
  {
    hide HeadMove;
    FoldSound(s, max);
    if s != "" {
      var i := |s| - 1;
      var r := Fold(s[..i], max);
      FoldSound(s[..i], max);
      if IsHead(r.k.state) {
        MovesAreHeadLike(r.k.state, s[i]);
        FinishDecides(r, HeadMove(r.k.state, s[i]), i, s[i], max);
      } else {
        FoldDecides(s[..i], max);
      }
    }
  }

  /** In every schedule, when the head is complete, the body is delimited in exactly one way, decided by the
      coding and the length the head announces: chunked, absent, small if it fits behind the head into the
      largest buffer, and large otherwise. */
  lemma FramingDecision(s: Session, max: int)
    requires HeadComplete(s, max)
    ensures Decided(s.p.core, s.b.afterHeaders, max)
  {
    hide Fold;
    FoldDecides(s.received, max);
  }

  // --- schedules after the head ---

  /** A call of the parser would look at a byte. */
  ghost predicate Active(s: Session) { !s.p.done && s.p.sequenceId != s.b.sequenceId && s.b.index < s.b.length }

  /** The parser never looks at a byte when exactly `n` bytes have been received. */
  ghost predicate NeverCalledAt(s: Session, events: seq<Event>, n: int, max: int)
    requires s.b.Valid()
  {
    forall k :: 0 <= k < |events| && events[k].Parse? && Active(Play(s, events[..k], max)) ==>
      |Play(s, events[..k], max).received| != n
  }

  function SumOfLengths(tokens: seq<Token>): int {
    if tokens == [] then 0 else SumOfLengths(tokens[..|tokens| - 1]) + tokens[|tokens| - 1].len
  }

  function Concat(texts: seq<string>): string {
    if texts == [] then "" else Concat(texts[..|texts| - 1]) + texts[|texts| - 1]
  }

  lemma SumMore(tokens: seq<Token>, t: Token)
    ensures SumOfLengths(tokens + [t]) == SumOfLengths(tokens) + t.len
  {
    assert (tokens + [t])[..|tokens + [t]| - 1] == tokens;
  }

  lemma ConcatMore(texts: seq<string>, x: string)
    ensures Concat(texts + [x]) == Concat(texts) + x
  {
    assert (texts + [x])[..|texts + [x]| - 1] == texts;
  }

  // --- large bodies ---

  /** The pieces of a large body handed out by `s` since `s0`. */
  function Pieces(s0: Session, s: Session): seq<Token>
    requires |s0.tokens| <= |s.tokens|
  {
    s.tokens[|s0.tokens|..]
  }

  ghost predicate LargePieces(tokens: seq<Token>, at: nat, done: bool) {
    && (done ==> tokens != [])
    && forall k :: 0 <= k < |tokens| ==>
         && tokens[k].kind.Body? && tokens[k].index == at && tokens[k].len > 0 && !tokens[k].Small()
         && (tokens[k].Final() <==> done && k == |tokens| - 1)
  }

  /** `total` is the announced length. */
  ghost predicate Streaming(s0: Session, s: Session, total: nat) {
    && s.b.Valid() && s0.tokens <= s.tokens
    && s.b.afterHeaders == s.b.index == s0.b.index <= s.b.length
    && (s.p.core.state.LargeStart? || s.p.core.state.InLarge?)
    && (s.p.core.state.InLarge? ==>
          s.p.core.token.kind.Body? && !s.p.core.token.bit2 && (!s.p.done ==> !s.p.core.token.bit1))
    && (s.p.done <==> s.p.core.contentRemaining == 0) && 0 <= s.p.core.contentRemaining
    && SumOfLengths(Pieces(s0, s)) + s.p.core.contentRemaining == total
    && LargePieces(Pieces(s0, s), s0.b.index, s.p.done)
  }

  lemma LargeExec(p: Parser, b: Buffer, max: int)
    requires b.Valid() && b.afterHeaders == b.index <= b.length
    requires !p.done && p.sequenceId != b.sequenceId && 0 < p.core.contentRemaining
    requires p.core.state.LargeStart? || (p.core.state.InLarge? && p.core.token.kind.Body? && !p.core.token.bit1
      && !p.core.token.bit2)
    ensures var o := Exec(p, b, max); var n := b.length - b.index; var left := p.core.contentRemaining;
      if n == 0 then o == Outcome(p.(sequenceId := b.sequenceId), b, NO_TOKEN)
      else if n >= left - 1 then
        && o.token == Token(Body, true, false, left, b.index) && o.b == b
        && o.p.done && o.p.core.contentRemaining == 0 && o.p.core.state.InLarge? && o.p.core.token == o.token
      else
        && o.token == Token(Body, false, false, n, b.index) && o.b == b.(length := b.index)
        && !o.p.done && o.p.core.contentRemaining == left - n && o.p.core.state.InLarge? && o.p.core.token == o.token
        && o.p.sequenceId == b.sequenceId
  {
    if b.index < b.length {
      assert Step(p.core, b, b.index, max).signal.Break?;
    }
  }

  lemma PieceAdded(s0: Session, s: Session, r: Session, total: nat, t: Token)
    requires Streaming(s0, s, total) && !s.p.done
    requires r.tokens == s.tokens + [t] && t.kind.Body? && t.index == s0.b.index && t.len > 0 && !t.Small()
    requires r.b.Valid() && r.b.afterHeaders == r.b.index == s0.b.index <= r.b.length
    requires r.p.core.state.InLarge? && r.p.core.token == t && (t.Final() <==> r.p.done)
    requires r.p.core.contentRemaining == s.p.core.contentRemaining - t.len && 0 <= r.p.core.contentRemaining
    requires r.p.done <==> r.p.core.contentRemaining == 0
    ensures Streaming(s0, r, total)
  {
    var pieces := Pieces(s0, s);
    assert Pieces(s0, r) == pieces + [t];
    SumMore(pieces, t);
    assert LargePieces(pieces + [t], s0.b.index, r.p.done);
  }

  lemma LargeParse(s0: Session, s: Session, total: nat, max: int)
    requires Streaming(s0, s, total)
    ensures var r := Happen(s, Parse, max);
      && Streaming(s0, r, total)
      && (|r.tokens| > |s.tokens| ==> r.p.core.contentRemaining < s.p.core.contentRemaining)
  {
    hide Exec, LargePieces, SumOfLengths;
    var r := Happen(s, Parse, max);
    if !s.p.done && s.p.sequenceId != s.b.sequenceId {
      LargeExec(s.p, s.b, max);
      if s.b.length > s.b.index {
        PieceAdded(s0, s, r, total, r.tokens[|s.tokens|]);
      }
    } else {
      BlockedExec(s.p, s.b, max);
    }
  }

  lemma BlockedExec(p: Parser, b: Buffer, max: int)
    requires b.Valid() && (p.done || p.sequenceId == b.sequenceId)
    ensures Exec(p, b, max) == Outcome(p, b, NO_TOKEN)
  {
  }

  /** Conservation: over every schedule the pieces and what remains add up to the announced length,
      each piece starts where the body starts, and exactly the last piece of a finished body is final. */
  lemma {:induction false} LargeBodyAddsUp(s0: Session, events: seq<Event>, max: int)
    requires HeadComplete(s0, max) && s0.p.core.state.LargeStart? && s0.p.core.contentRemaining > 0
    ensures Streaming(s0, Play(s0, events, max), s0.p.core.contentRemaining)
  {
    hide Exec, HeadComplete;
    assert s0.b.Valid() && !s0.p.done && s0.b.afterHeaders == s0.b.index <= s0.b.length by { FromHead(s0, max); }
    if events == [] {
      assert Pieces(s0, s0) == [];
    } else {
      var s := Play(s0, events[..|events| - 1], max);
      LargeBodyAddsUp(s0, events[..|events| - 1], max);
      match events[|events| - 1]
      case Read(bytes, capacity) => assert s.tokens == Happen(s, Read(bytes, capacity), max).tokens;
      case Parse => LargeParse(s0, s, s0.p.core.contentRemaining, max);
    }
  }

  lemma FromHead(s: Session, max: int)
    requires HeadComplete(s, max)
    ensures s.b.Valid() && !s.p.done && 0 < s.b.afterHeaders == s.b.index <= s.b.length
    ensures s.p.sequenceId != s.b.sequenceId && s.b.mem[..s.b.length] == s.received && |s.texts| == |s.tokens|
  {
  }

  /** The bytes of the pieces handed out since `s0`, one after the other. */
  function Delivered(s0: Session, s: Session): string
    requires |s0.texts| <= |s.texts|
  {
    Concat(s.texts[|s0.texts|..])
  }

  /** The bytes handed out so far, followed by those still in the buffer, are the bytes received. */
  ghost predicate Conserved(s0: Session, s: Session, total: nat) {
    var at := s0.b.index;
    && |s0.texts| <= |s.texts| && at <= |s.received|
    && s.b.Valid() && at == s.b.index <= s.b.length && 0 <= s.p.core.contentRemaining
    && (if s.p.done then at + total <= |s.received| && Delivered(s0, s) == s.received[at..at + total]
        else |Delivered(s0, s)| == total - s.p.core.contentRemaining
             && Delivered(s0, s) + s.b.mem[at..s.b.length] == s.received[at..])
  }

  lemma ConservedByRead(s0: Session, s: Session, total: nat, bytes: string, capacity: int, max: int)
    requires Conserved(s0, s, total)
    ensures Conserved(s0, Happen(s, Read(bytes, capacity), max), total)
  {
    hide Concat;
    var r := Happen(s, Read(bytes, capacity), max);
    var at := s0.b.index;
    if s.p.done {
      assert r.received[at..at + total] == s.received[at..at + total];
    } else {
      assert r.b.mem[at..r.b.length] == r.b.mem[..r.b.length][at..] == (s.b.mem[..s.b.length] + bytes)[at..];
      assert (s.b.mem[..s.b.length] + bytes)[at..] == s.b.mem[at..s.b.length] + bytes;
      assert r.received[at..] == s.received[at..] + bytes;
    }
  }

  lemma ConservedByParse(s0: Session, s: Session, total: nat, max: int)
    requires Conserved(s0, s, total) && Streaming(s0, s, total)
    requires Active(s) ==> |s.received| != s0.b.index + total - 1
    ensures Conserved(s0, Happen(s, Parse, max), total)
  {
    hide Exec, Concat, LargePieces, SumOfLengths;
    var r := Happen(s, Parse, max);
    var at := s0.b.index;
    if !s.p.done && s.p.sequenceId != s.b.sequenceId {
      LargeExec(s.p, s.b, max);
      if s.b.length > at {
        var t := r.tokens[|s.tokens|];
        var piece := s.b.mem[at..at + t.len];
        assert Delivered(s0, s) + s.b.mem[at..s.b.length] == s.received[at..];
        assert t.len <= s.b.length - at;
        assert r.texts == s.texts + [piece];
        assert r.texts[|s0.texts|..] == s.texts[|s0.texts|..] + [piece];
        ConcatMore(s.texts[|s0.texts|..], piece);
        assert s.b.mem[at..s.b.length] == piece + s.b.mem[at + t.len..s.b.length];
        assert r.p.done ==> s.received[at..at + total] == s.received[at..][..total];
      }
    } else {
      BlockedExec(s.p, s.b, max);
    }
  }

  /** If the parser is never called when exactly one byte of the body is missing, the pieces spell the body: all of
      it once the parser is done, and what has been handed out before. */
  lemma {:induction false} LargeBodyIsDelivered(s0: Session, events: seq<Event>, max: int)
    requires HeadComplete(s0, max) && s0.p.core.state.LargeStart? && s0.p.core.contentRemaining > 0
    requires NeverCalledAt(s0, events, s0.b.index + s0.p.core.contentRemaining - 1, max)
    ensures Conserved(s0, Play(s0, events, max), s0.p.core.contentRemaining)
  {
    hide Exec, HeadComplete, Streaming;
    var total := s0.p.core.contentRemaining;
    FromHead(s0, max);
    if events == [] {
      assert Delivered(s0, s0) == "";
      assert s0.received[s0.b.index..] == s0.b.mem[s0.b.index..s0.b.length];
    } else {
      var before := events[..|events| - 1];
      var s := Play(s0, before, max);
      assert NeverCalledAt(s0, before, s0.b.index + total - 1, max) by {
        forall k | 0 <= k < |before| ensures before[..k] == events[..k] && before[k] == events[k] {}
      }
      LargeBodyIsDelivered(s0, before, max);
      match events[|events| - 1]
      case Read(bytes, capacity) => ConservedByRead(s0, s, total, bytes, capacity, max);
      case Parse =>
        LargeBodyAddsUp(s0, before, max);
        assert before == events[..|before|];
        ConservedByParse(s0, s, total, max);
    }
  }

  lemma CalledOneShort(s0: Session, s: Session, total: nat, max: int)
    requires Conserved(s0, s, total) && Streaming(s0, s, total) && Active(s)
    requires |s.received| == s0.b.index + total - 1
    ensures var r := Happen(s, Parse, max); r.received == s.received && r.p.done
  {
    hide Exec, Concat, SumOfLengths, LargePieces;
    LargeExec(s.p, s.b, max);
    assert |Delivered(s0, s)| + (s.b.length - s0.b.index) == |s.received[s0.b.index..]|;
  }

  lemma DoneStaysDone(s: Session, e: Event, max: int)
    requires s.b.Valid() && s.p.done
    ensures Happen(s, e, max).p.done
  {
  }

  /** While a large body is not declared complete no byte of it has been lost, whatever the cuts. */
  lemma {:induction false} UnfinishedIsConserved(s0: Session, events: seq<Event>, max: int)
    requires HeadComplete(s0, max) && s0.p.core.state.LargeStart? && s0.p.core.contentRemaining > 0
    ensures var s := Play(s0, events, max); !s.p.done ==> Conserved(s0, s, s0.p.core.contentRemaining)
  {
    hide Exec, HeadComplete, Streaming, Conserved, Active;
    var total := s0.p.core.contentRemaining;
    FromHead(s0, max);
    if events == [] {
      LargeBodyIsDelivered(s0, [], max);
    } else {
      var before := events[..|events| - 1];
      var s := Play(s0, before, max);
      UnfinishedIsConserved(s0, before, max);
      LargeBodyAddsUp(s0, before, max);
      if s.p.done {
        DoneStaysDone(s, events[|events| - 1], max);
      } else {
        match events[|events| - 1]
        case Read(bytes, capacity) => ConservedByRead(s0, s, total, bytes, capacity, max);
        case Parse =>
          if Active(s) && |s.received| == s0.b.index + total - 1 {
            CalledOneShort(s0, s, total, max);
          } else {
            ConservedByParse(s0, s, total, max);
          }
      }
    }
  }

  /** Once all of a large body has been received, the next call that is not held back finishes it, and the
      pieces are the bytes sent. */
  lemma LargeBodyIsFinished(s0: Session, events: seq<Event>, max: int)
    requires HeadComplete(s0, max) && s0.p.core.state.LargeStart? && s0.p.core.contentRemaining > 0
    requires var s := Play(s0, events, max); !s.p.done && s.p.sequenceId != s.b.sequenceId
    requires s0.b.index + s0.p.core.contentRemaining <= |Play(s0, events, max).received|
    ensures var r := Happen(Play(s0, events, max), Parse, max);
      r.p.done && Conserved(s0, r, s0.p.core.contentRemaining)
  {
    hide Exec, HeadComplete, Concat, SumOfLengths, LargePieces;
    var total := s0.p.core.contentRemaining;
    FromHead(s0, max);
    var s := Play(s0, events, max);
    UnfinishedIsConserved(s0, events, max);
    LargeBodyAddsUp(s0, events, max);
    assert |Delivered(s0, s)| + (s.b.length - s0.b.index) == |s.received[s0.b.index..]|;
    LargeExec(s.p, s.b, max);
    ConservedByParse(s0, s, total, max);
  }

  // --- small bodies ---

  /** A small body is waited for in the buffer, then handed out in one token. With `exact`, that
      token spells the body. */
  ghost predicate Collecting(s0: Session, s: Session, total: nat, exact: bool) {
    var at := s0.b.index;
    && s.b.Valid() && s.b.afterHeaders == at <= s.b.index <= s.b.length
    && s.b.mem[..s.b.length] == s.received
    && |s.texts| == |s.tokens| && |s0.texts| == |s0.tokens|
    && s.p.core.contentLength == total
    && (s.p.core.state.SmallStart? || (s.p.core.state.InSmall? && s.p.core.token.kind.Body? && !s.p.core.token.bit1))
    && (if s.p.done then
          && s.tokens == s0.tokens + [Token(Body, false, true, total, at)]
          && (exact ==> at + total <= |s.received| && s.texts == s0.texts + [s.received[at..at + total]])
        else s.tokens == s0.tokens && s.texts == s0.texts && (s.b.index == at || s.b.index < at + total - 1))
  }

  lemma SmallExec(p: Parser, b: Buffer, max: int)
    requires b.Valid() && b.afterHeaders <= b.index <= b.length && !p.done && p.sequenceId != b.sequenceId
    requires p.core.state.SmallStart? || (p.core.state.InSmall? && p.core.token.kind.Body? && !p.core.token.bit1)
    ensures var o := Exec(p, b, max); var n := p.core.contentLength;
      if b.index == b.length then o == Outcome(p.(sequenceId := b.sequenceId), b, NO_TOKEN)
      else
        && o.p.core == p.core.(state := InSmall, token := Token(Body, false, true, n, b.afterHeaders))
        && o.b == b.(index := b.length)
        && (if b.length >= b.afterHeaders + n - 1 then o.token == o.p.core.token && o.p.done
            else o.token == NO_TOKEN && !o.p.done && o.p.sequenceId == b.sequenceId)
  {
    if b.index < b.length {
      assert Step(p.core, b, b.index, max).signal.Break?;
    }
  }

  /** Once all of a small body has been received, the next call that is not held back hands it out. */
  lemma SmallBodyIsFinished(s0: Session, events: seq<Event>, max: int)
    requires HeadComplete(s0, max) && s0.p.core.state.SmallStart? && s0.p.core.contentLength > 0
    requires var s := Play(s0, events, max); !s.p.done && s.p.sequenceId != s.b.sequenceId
    requires s0.b.index + s0.p.core.contentLength <= |Play(s0, events, max).received|
    ensures var r := Happen(Play(s0, events, max), Parse, max);
      r.p.done && Collecting(s0, r, s0.p.core.contentLength, true)
  {
    hide Exec, HeadComplete;
    var total := s0.p.core.contentLength;
    FromHead(s0, max);
    var s := Play(s0, events, max);
    SmallBodyIsDelivered(s0, events, false, max);
    assert Collecting(s0, s, total, true);
    CollectingByParse(s0, s, total, true, max);
  }

  lemma CollectingByRead(s0: Session, s: Session, total: nat, exact: bool, bytes: string, capacity: int, max: int)
    requires Collecting(s0, s, total, exact)
    ensures Collecting(s0, Happen(s, Read(bytes, capacity), max), total, exact)
  {
    var r := Happen(s, Read(bytes, capacity), max);
    var at := s0.b.index;
    assert s.p.done && exact ==> r.received[at..at + total] == s.received[at..at + total];
  }

  lemma SliceOfPrefix(mem: string, n: nat, i: nat, j: nat)
    requires i <= j <= n <= |mem|
    ensures mem[..n][i..j] == mem[i..j]
  {
  }

  lemma CollectingByParse(s0: Session, s: Session, total: nat, exact: bool, max: int)
    requires Collecting(s0, s, total, exact)
    requires exact && Active(s) ==> |s.received| != s0.b.index + total - 1
    ensures var r := Happen(s, Parse, max);
      && Collecting(s0, r, total, exact)
      && (s.p.sequenceId != s.b.sequenceId && s.b.index < s.b.length && s0.b.index + total <= |s.received| ==> r.p.done)
  {
    hide Exec;
    if !s.p.done && s.p.sequenceId != s.b.sequenceId {
      SmallExec(s.p, s.b, max);
      var at := s0.b.index;
      var r := Happen(s, Parse, max);
      if r.p.done && exact {
        assert |s.received| == s.b.length >= at + total;
        SliceOfPrefix(s.b.mem, s.b.length, at, at + total);
      }
    } else {
      BlockedExec(s.p, s.b, max);
    }
  }

  /** A small body gives exactly one body token, which starts after the head and has the announced
      length; if the parser is never called one byte short of it, the token spells the whole body. */
  lemma {:induction false} SmallBodyIsDelivered(s0: Session, events: seq<Event>, exact: bool, max: int)
    requires HeadComplete(s0, max) && s0.p.core.state.SmallStart?
    requires exact ==> NeverCalledAt(s0, events, s0.b.index + s0.p.core.contentLength - 1, max)
    ensures Collecting(s0, Play(s0, events, max), s0.p.core.contentLength, exact)
  {
    hide Exec, HeadComplete;
    var total := s0.p.core.contentLength;
    FromHead(s0, max);
    if events != [] {
      var before := events[..|events| - 1];
      var s := Play(s0, before, max);
      if exact {
        forall k | 0 <= k < |before| ensures before[..k] == events[..k] && before[k] == events[k] {}
      }
      SmallBodyIsDelivered(s0, before, exact, max);
      match events[|events| - 1]
      case Read(bytes, capacity) => CollectingByRead(s0, s, total, exact, bytes, capacity, max);
      case Parse =>
        assert before == events[..|before|];
        CollectingByParse(s0, s, total, exact, max);
    }
  }
}

/**
  Consequences of the schedule invariant: the cut into reads does not matter, errors are
  absorbing, and head tokens keep their bytes.
 */
module HeadResults {
  import opened Automaton
  import opened Parser
  import opened Head
  import opened Sessions
  import opened HeadCuts

  /** Nothing of the head is left to be read: it is complete, wrong, or out of input. */
  ghost predicate Settled(s: Session) {
    s.b.afterHeaders > 0 || s.p.core.state.Error? || s.b.index == s.b.length
  }

  /** A settled session has returned the tokens of the fold over everything received. */
  lemma SettledSessionsFollowTheFold(capacity: int, events: seq<Event>, max: int)
    ensures var s := Play(Start(capacity), events, max); var run := Fold(s.received, max);
      Settled(s) ==>
        && run.tokens <= s.tokens
        && (s.b.afterHeaders > 0 <==> run.end > 0)
        && (run.end == 0 ==> s.tokens == run.tokens && s.p.core == run.k)
  {
    hide Fold, Play;
    EverySchedule(capacity, events, max);
    var s := Play(Start(capacity), events, max);
    if Settled(s) && Reading(s, max) {
      if s.b.index == s.b.length {
        assert s.received[..s.b.index] == s.received;
      } else {
        FoldAbsorbs(s.received[..s.b.index], s.received[s.b.index..], max);
        assert s.received == s.received[..s.b.index] + s.received[s.b.index..];
      }
      FoldSound(s.received, max);
    }
  }

  /** However the same bytes were cut into reads, the head is read alike. */
  lemma CutsDoNotMatter(capacity1: int, events1: seq<Event>, capacity2: int, events2: seq<Event>, max: int)
    requires var s1 := Play(Start(capacity1), events1, max); var s2 := Play(Start(capacity2), events2, max);
      s1.received == s2.received && Settled(s1) && Settled(s2)
    ensures var s1 := Play(Start(capacity1), events1, max); var s2 := Play(Start(capacity2), events2, max);
      var n := |Fold(s1.received, max).tokens|;
      && n <= |s1.tokens| && n <= |s2.tokens| && s1.tokens[..n] == s2.tokens[..n]
      && (s1.b.afterHeaders > 0 <==> s2.b.afterHeaders > 0)
      && (s1.b.afterHeaders > 0 ==> n > 0 && s1.tokens[n - 1].kind.HeadersDone?)
      && (s1.b.afterHeaders == 0 ==> s1.p.core == s2.p.core && n == |s1.tokens| == |s2.tokens|)
  {
    hide Fold, Play;
    SettledSessionsFollowTheFold(capacity1, events1, max);
    SettledSessionsFollowTheFold(capacity2, events2, max);
    FoldSound(Play(Start(capacity1), events1, max).received, max);
  }

  ghost predicate Progress(p: Parser, b: Buffer, o: Outcome) {
    if o.token.kind.None?
    then o.b.index == b.length || o.p.core.state.Error? || o.p.core.limitCount > o.p.core.limitMax
    else b.index < o.b.index && (InHead(o.p.core) ==> o.p.sequenceId == p.sequenceId)
  }

  lemma ReturnMakesProgress(p: Parser, b: Buffer, tokens: seq<Token>, r: Result, max: int)
    requires b.Valid() && Follows(b, max, tokens, r) && r.signal.Break?
    requires r.signal == READY ==> b.index < r.at
    ensures Progress(p, b, Return(p, b, r))
  {
  }

  lemma ProgressSettles(s: Session, r: Session, o: Outcome, max: int)
    requires Reading(s, max) && Progress(s.p, s.b, o) && WithinLimits(s.received, max)
    requires r.p == o.p && r.b == o.b && r.received == s.received
    requires r.tokens == if o.token.kind.None? then s.tokens else s.tokens + [o.token]
    requires Reading(r, max) || Past(r, max)
    requires o.b.length == s.b.length
    ensures Settled(r) || (|r.tokens| == |s.tokens| + 1 && s.b.index < r.b.index && r.p.sequenceId == s.p.sequenceId)
  {
    if Past(r, max) {
      FoldSound(r.received, max);
    } else {
      WithinLimitsAt(s.received, r.b.index, max);
    }
  }

  /** A call that is not held back returns a token and consumes a byte, or settles the session. */
  lemma ParseMakesProgress(s: Session, max: int)
    requires Reading(s, max) && s.p.sequenceId != s.b.sequenceId && WithinLimits(s.received, max)
    ensures var r := Happen(s, Parse, max);
      && r.b.sequenceId == s.b.sequenceId
      && (Settled(r) ||
          (|r.tokens| == |s.tokens| + 1 && s.b.index < r.b.index && r.p.sequenceId == s.p.sequenceId))
  {
    hide Fold, Follows, WithinLimits, Progress;
    var r := Scan(s.p.core, s.b, s.b.index, max);
    assert s.received[..s.b.index] == s.b.mem[..s.b.index];
    ScanFollowsFold(s.p.core, s.b, s.b.index, max, s.tokens);
    ScanAdvances(s.p.core, s.b, s.b.index, max);
    ReturnMakesProgress(s.p, s.b, s.tokens, r, max);
    ParseInHead(s, max);
    ProgressSettles(s, Happen(s, Parse, max), Return(s.p, s.b, r), max);
  }

  lemma HeadStepAdvances(k: Core, b: Buffer, i: nat, max: int)
    requires b.Valid() && i < b.length && IsHead(k.state)
    ensures var r := Step(k, b, i, max); (r.signal.Continue? ==> InHead(r.core)) && (r.signal == READY ==> i < r.at)
  {
    hide HeadMove;
    MovesAreHeadLike(k.state, b.mem[i]);
    StepInHead(k, b, i, max);
  }

  lemma {:induction false} ScanAdvances(k: Core, b: Buffer, i: nat, max: int)
    requires b.Valid() && i <= b.length && InHead(k)
    ensures var r := Scan(k, b, i, max); r.signal.Break? && (r.signal == READY ==> i < r.at)
    decreases b.length - i
  {
    hide HeadMove, Step;
    if i < b.length && IsHead(k.state) {
      var r := Step(k, b, i, max);
      HeadStepAdvances(k, b, i, max);
      if r.signal.Continue? {
        ScanAdvances(r.core, b, i + 1, max);
      }
    }
  }

  function Parses(n: nat): (events: seq<Event>)
    ensures |events| == n
  {
    seq(n, i => Parse)
  }

  ghost predicate SettledAfter(s: Session, n: nat, max: int) {
    Settled(s) || (n <= s.b.index && Reading(s, max) && s.p.sequenceId == 0 && s.b.sequenceId == 1)
  }

  lemma AnotherParse(s: Session, n: nat, max: int)
    requires Reading(s, max) || Past(s, max)
    requires SettledAfter(s, n, max) && WithinLimits(s.received, max)
    ensures SettledAfter(Happen(s, Parse, max), n + 1, max) && Happen(s, Parse, max).received == s.received
  {
    if Settled(s) {
      SettledStays(s, max);
    } else {
      ParseMakesProgress(s, max);
      ParseInHead(s, max);
    }
  }

  lemma UncutRead(capacity: int, input: string, max: int)
    requires WithinLimits(input, max)
    ensures var s := Happen(Start(capacity), Read(input, capacity), max); s.received == input && SettledAfter(s, 0, max)
  {
    hide WithinLimits;
    var start := Start(capacity);
    assert Reading(start, max);
    ReadKeeps(start, input, capacity, max);
    assert "" + input == input;
  }

  /** With the whole input in one read, as many calls as there are bytes settle the session. */
  lemma {:induction false} UncutSettles(capacity: int, input: string, n: nat, max: int)
    requires WithinLimits(input, max)
    ensures var s := Play(Start(capacity), [Read(input, capacity)] + Parses(n), max);
      s.received == input && SettledAfter(s, n, max)
  {
    hide Fold, WithinLimits, SettledAfter, Reading, Past, Play, Happen;
    var read := [Read(input, capacity)];
    if n == 0 {
      assert [] + read == read && read + Parses(0) == read;
      PlayMore(Start(capacity), [], Read(input, capacity), max);
      NothingPlayed(Start(capacity), max);
      UncutRead(capacity, input, max);
    } else {
      var before := read + Parses(n - 1);
      assert before + [Parse] == read + Parses(n);
      PlayMore(Start(capacity), before, Parse, max);
      EverySchedule(capacity, before, max);
      UncutSettles(capacity, input, n - 1, max);
      AnotherParse(Play(Start(capacity), before, max), n - 1, max);
    }
  }

  lemma NothingPlayed(s: Session, max: int)
    requires s.b.Valid()
    ensures Play(s, [], max) == s
  {
  }

  lemma SettledStays(s: Session, max: int)
    requires (Reading(s, max) || Past(s, max)) && Settled(s)
    ensures Settled(Happen(s, Parse, max))
  {
    if Past(s, max) {
      ParsePastHead(s, max);
    }
  }

  /** The tokens of any settled schedule are those the uncut input gives. */
  lemma SameTokensAsUncut(capacity: int, events: seq<Event>, max: int)
    requires var s := Play(Start(capacity), events, max); Settled(s) && WithinLimits(s.received, max)
    ensures var s := Play(Start(capacity), events, max);
      var u := Play(Start(capacity), [Read(s.received, capacity)] + Parses(|s.received| + 1), max);
      var n := |Fold(s.received, max).tokens|;
      && Settled(u)
      && n <= |s.tokens| && n <= |u.tokens| && s.tokens[..n] == u.tokens[..n]
      && (s.b.afterHeaders > 0 <==> u.b.afterHeaders > 0)
  {
    hide Fold, Play, WithinLimits;
    var s := Play(Start(capacity), events, max);
    UncutSettles(capacity, s.received, |s.received| + 1, max);
    CutsDoNotMatter(capacity, events, capacity, [Read(s.received, capacity)] + Parses(|s.received| + 1), max);
  }

  /** Once wrong, a request stays wrong and yields no further token. */
  lemma {:induction false} ErrorsAreAbsorbing(s: Session, events: seq<Event>, max: int)
    requires s.b.Valid() && s.p.core.state.Error?
    ensures var r := Play(s, events, max); r.p.core == s.p.core && r.tokens == s.tokens
  {
    if events != [] {
      ErrorsAreAbsorbing(s, events[..|events| - 1], max);
    }
  }

  // --- head tokens stay where they are ---

  /** The token at `k` belongs to the head: none up to it ends the head. */
  ghost predicate IsHeadToken(tokens: seq<Token>, k: nat) {
    k < |tokens| && forall j :: 0 <= j <= k ==> !tokens[j].kind.HeadersDone?
  }

  lemma HeadTokensInPlace(s: Session, k: nat, max: int)
    requires (Reading(s, max) || Past(s, max)) && IsHeadToken(s.tokens, k)
    ensures var t := s.tokens[k];
      && 0 <= t.len && TokenEnd(t) <= s.b.length && TokenEnd(t) <= |s.received|
      && s.b.mem[t.index..TokenEnd(t)] == s.received[t.index..TokenEnd(t)]
      && forall j :: 0 <= j < k ==> TokenEnd(s.tokens[j]) <= t.index
  {
    hide Fold;
    var run := if Reading(s, max) then Fold(s.received[..s.b.index], max) else Fold(s.received, max);
    var n := if Reading(s, max) then s.b.length else run.end;
    if Reading(s, max) {
      FoldSound(s.received[..s.b.index], max);
    } else {
      FoldSound(s.received, max);
    }
    assert k < |run.tokens| && run.tokens[k] == s.tokens[k];
    var t := s.tokens[k];
    assert s.b.mem[..n][t.index..TokenEnd(t)] == s.received[..n][t.index..TokenEnd(t)];
    forall j | 0 <= j < k ensures TokenEnd(s.tokens[j]) <= t.index {
      assert run.tokens[j] == s.tokens[j];
    }
  }

  lemma {:induction false} SessionsGrow(s: Session, events: seq<Event>, max: int)
    requires s.b.Valid()
    ensures var r := Play(s, events, max); s.tokens <= r.tokens && s.received <= r.received
  {
    if events != [] {
      SessionsGrow(s, events[..|events| - 1], max);
    }
  }

  lemma TokenKeepsItsBytes(s: Session, r: Session, k: nat, max: int)
    requires (Reading(s, max) || Past(s, max)) && (Reading(r, max) || Past(r, max))
    requires s.tokens <= r.tokens && s.received <= r.received && IsHeadToken(s.tokens, k)
    ensures var t := s.tokens[k];
      && k < |r.tokens| && r.tokens[k] == t
      && 0 <= t.len && TokenEnd(t) <= s.b.length && TokenEnd(t) <= r.b.length
      && r.b.mem[t.index..TokenEnd(t)] == s.b.mem[t.index..TokenEnd(t)]
      && forall j :: 0 <= j < k ==> TokenEnd(s.tokens[j]) <= t.index
  {
    hide Reading, Past;
    var t := s.tokens[k];
    assert r.tokens[..|s.tokens|] == s.tokens;
    assert IsHeadToken(r.tokens, k);
    HeadTokensInPlace(s, k, max);
    HeadTokensInPlace(r, k, max);
    assert r.received[..|s.received|][t.index..TokenEnd(t)] == r.received[t.index..TokenEnd(t)];
  }

  /** Head stability: an emitted head token lies in the buffer, overlaps no other, and spells the
      same bytes after any continuation of the schedule. */
  lemma HeadTokensKeepTheirBytes(capacity: int, before: seq<Event>, after: seq<Event>, k: nat, max: int)
    requires IsHeadToken(Play(Start(capacity), before, max).tokens, k)
    ensures var s := Play(Start(capacity), before, max); var r := Play(s, after, max);
      var t := s.tokens[k];
      && k < |r.tokens| && r.tokens[k] == t
      && 0 <= t.len && TokenEnd(t) <= s.b.length && TokenEnd(t) <= r.b.length
      && r.b.mem[t.index..TokenEnd(t)] == s.b.mem[t.index..TokenEnd(t)]
      && forall j :: 0 <= j < k ==> TokenEnd(s.tokens[j]) <= t.index
  {
    hide Fold, Play, Reading, Past;
    var s := Play(Start(capacity), before, max);
    SessionsGrow(s, after, max);
    EverySchedule(capacity, before, max);
    EverySchedule(capacity, before + after, max);
    PlayAppend(Start(capacity), before, after, max);
    TokenKeepsItsBytes(s, Play(s, after, max), k, max);
  }
}

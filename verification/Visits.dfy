/**
  What one visit of the reader does to a printed request: in the head it goes on until the input is used up
  or the head is complete, in a body it makes one call.
 */
module Visits {
  import opened Automaton
  import opened Parser
  import opened Head
  import opened HeadRoundTrip
  import opened Sessions
  import opened HeadCuts
  import opened HeadResults
  import opened Bodies
  import opened ReadSocket
  import opened EndToEnd
  import opened Completion

  // --- calls in the head ---

  /** A returned token that ends the loop is none of the head, unless it completes it. */
  lemma ReturnsAfterHead(s: Session, t: Token, max: int)
    requires Reading(s, max) && s.tokens != [] && s.tokens[|s.tokens| - 1] == t
    ensures !Returns(t)
  {
    hide Fold;
    FoldSound(s.received[..s.b.index], max);
  }

  /** A call in the head that returns a token leaves the sequence id of the parser, another one sets it. */
  lemma CallInHead(s: Session, max: int)
    requires Reading(s, max) && s.p.sequenceId != s.b.sequenceId
    ensures var o := Exec(s.p, s.b, max);
      && o.b.sequenceId == s.b.sequenceId && o.b.length == s.b.length
      && o.p.sequenceId == if o.token.kind.None? then s.b.sequenceId else s.p.sequenceId
  {
    hide Fold;
    assert s.received[..s.b.index] == s.b.mem[..s.b.index];
    ScanFollowsFold(s.p.core, s.b, s.b.index, max, s.tokens);
    ScanKeepsSequence(s.p.core, s.b, s.b.index, max);
  }

  lemma OneTake(s: Session, r: Reader, max: int)
    requires Tracks(s, r) && s.b.Valid()
    ensures var o := Exec(r.p, r.b, max); var s1 := Happen(s, Parse, max);
      Tracks(s1, Take(r, o)) && s1.received == s.received
  {
    hide Exec, CallsFor, TokensFor, CallsOf, TokensOf;
    var o := Exec(r.p, r.b, max);
    OneMore(s.tokens, o.token);
    NothingForNone(o.token);
  }

  /** A dispatch whose first call returns to the caller is that call. */
  lemma OneCall(s: Session, r: Reader, max: int)
    requires Tracks(s, r) && Tidy(r.p.core) && Returns(Exec(r.p, r.b, max).token)
    ensures Tracks(Happen(s, Parse, max), Dispatch(r, max)) && Happen(s, Parse, max).received == s.received
    ensures Play(s, Parses(1), max) == Happen(s, Parse, max)
  {
    hide Exec, Take, Tracks;
    TracksIsValid(s, r);
    OneTake(s, r, max);
    assert Parses(1)[..0] == [] && Play(s, [], max) == s;
  }

  lemma TracksIsValid(s: Session, r: Reader)
    requires Tracks(s, r)
    ensures s.b.Valid() && s.p == r.p && s.b == r.b
  {
  }

  /** The input has been used up. */
  ghost predicate Dry(s: Session) { s.b.index >= s.b.length && s.p.sequenceId == s.b.sequenceId }

  /** What a call in the head of a printed request leads to. */
  lemma HeadCall(s: Session, r: Request, body: string, max: int)
    requires GoodRequest(r) && Reading(s, max) && |s.texts| == |s.tokens| && s.received <= PrintRequest(r) + body
    requires s.p.sequenceId != s.b.sequenceId
    ensures var o := Exec(s.p, s.b, max); var s1 := Happen(s, Parse, max);
      && s1.received == s.received && |s1.texts| == |s1.tokens|
      && s1.b.sequenceId == s.b.sequenceId
      && if s1.b.afterHeaders > 0 then
           && HeadTaken(s1, r, max) && s1.p.sequenceId == s.p.sequenceId
           && o.token == DoneToken(FramingOf(r, max))
         else
           && Reading(s1, max)
           && (if o.token.kind.None? then Dry(s1)
               else !Returns(o.token) && s1.p.sequenceId == s.p.sequenceId)
  {
    hide Fold, Exec, GoodRequest, PrintRequest, WithinLimits, HeadComplete, FramingOf, RequestTokens, DoneToken;
    var o, s1 := Exec(s.p, s.b, max), Happen(s, Parse, max);
    var all := PrintRequest(r) + body;
    CallInHead(s, max);
    ParseInHead(s, max);
    PastHasHead(s1, max);
    if s1.b.afterHeaders > 0 {
      ParseCompletesHead(s, max);
      CompleteIsTaken(s1, r, body, max);
      FromHead(s1, max);
      assert s.received[..s.b.index] == s.b.mem[..s.b.index];
      ExecCompletesHead(s.p, s.b, max, s.tokens);
      assert s1.tokens == s.tokens + [o.token];
      assert s1.tokens[|s1.tokens| - 1] == o.token;
    } else {
      assert Reading(s1, max);
      RequestWithinLimits(r, body, max);
      assert all == s.received + all[|s.received|..];
      LimitsOfPrefix(s.received, all[|s.received|..], max);
      if o.token.kind.None? {
        ParseMakesProgress(s, max);
        NoErrorInHead(s1, r, body, max);
      } else {
        ReturnsAfterHead(s1, o.token, max);
      }
    }
  }

  lemma {:induction false} LimitsOfPrefix(s: string, t: string, max: int)
    requires WithinLimits(s + t, max)
    ensures WithinLimits(s, max)
  {
    hide Fold;
    if t == "" {
      assert s + t == s;
    } else {
      assert (s + t)[..|s + t| - 1] == s + t[..|t| - 1];
      LimitsOfPrefix(s, t[..|t| - 1], max);
    }
  }

  lemma DoneTokenReturns(r: Request, max: int)
    ensures Returns(DoneToken(FramingOf(r, max))) <==> !FramingOf(r, max).Small?
    ensures !DoneToken(FramingOf(r, max)).kind.None?
  {
  }

  /** A dispatch that starts in the head of a printed request uses up the input, or completes the head; then
      it returns, unless the body is small, which takes one more call. `m` is the moment the head is
      complete. */
  lemma {:induction false} DispatchInHead(s: Session, rd: Reader, r: Request, body: string, max: int)
      returns (n: nat, m: nat)
    requires Tracks(s, rd) && Tidy(rd.p.core) && Reading(s, max) && |s.texts| == |s.tokens|
    requires GoodRequest(r) && s.received <= PrintRequest(r) + body && s.p.sequenceId != s.b.sequenceId
    ensures m <= n
    ensures var d := Play(s, Parses(n), max); var s0 := Play(s, Parses(m), max);
      && Tracks(d, Dispatch(rd, max)) && d.received == s.received
      && if s0.b.afterHeaders == 0 then n == m && Reading(d, max) && Dry(d) && |d.texts| == |d.tokens|
         else
           && HeadTaken(s0, r, max) && s0.p.sequenceId == s.p.sequenceId && s0.b.sequenceId == s.b.sequenceId
           && s0.received == s.received
           && (if FramingOf(r, max).Small? then n == m + 1 && d == Happen(s0, Parse, max) else n == m)
    decreases rd.b.length - rd.b.index
  {
    hide Fold, Exec, Take, GoodRequest, PrintRequest, HeadTaken, Returns, Reading, Dry, FramingOf, DoneToken, Play,
      Happen, Tracks;
    TracksIsValid(s, rd);
    ExecConsumes(rd.p, rd.b, max);
    var o, s1 := Exec(rd.p, rd.b, max), Happen(s, Parse, max);
    HeadCall(s, r, body, max);
    OneTake(s, rd, max);
    TakeKeeps(rd, o);
    DoneTokenReturns(r, max);
    NothingPlayed(s, max);
    PlayMore(s, [], Parse, max);
    assert Parses(1) == [] + [Parse];
    n, m := 1, 1;
    if Returns(o.token) {
      OneCall(s, rd, max);
      NoneReturns(o.token);
    } else if s1.b.afterHeaders > 0 {
      var rd1 := Take(rd, o);
      SmallCallReturns(s1, rd1, r, max);
      OneCall(s1, rd1, max);
      n := 2;
      assert Parses(2) == Parses(1) + [Parse];
      PlayMore(s, Parses(1), Parse, max);
    } else {
      NoneReturns(o.token);
      var n1, m1 := DispatchInHead(s1, Take(rd, o), r, body, max);
      assert Parses(1 + n1) == Parses(1) + Parses(n1) && Parses(1 + m1) == Parses(1) + Parses(m1);
      PlayAppend(s, Parses(1), Parses(n1), max);
      PlayAppend(s, Parses(1), Parses(m1), max);
      n, m := 1 + n1, 1 + m1;
    }
  }

  lemma NoneReturns(t: Token)
    ensures t.kind.None? ==> Returns(t)
  {
  }

  lemma SmallCallReturns(s0: Session, rd: Reader, r: Request, max: int)
    requires Tracks(s0, rd) && HeadTaken(s0, r, max) && FramingOf(r, max).Small?
    ensures Returns(Exec(rd.p, rd.b, max).token)
  {
    hide Exec, FramingOf, PrintRequest, RequestTokens, HeadComplete;
    FromHead(s0, max);
    SmallExec(rd.p, rd.b, max);
  }
}

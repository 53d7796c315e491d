/**
  The order of the head tokens: METHOD TARGET VERSION (KEY VALUE)+ HEADERS_DONE, exactly
  when no header value starts with a carriage return that is not followed by a line feed.
 */
module HeadShape {
  import opened Automaton
  import opened Parser
  import opened Head
  import opened HeadRoundTrip

  /** What may come next in a well-shaped head; `some` says that a header has been seen. */
  datatype Expect = WantMethod | WantTarget | WantVersion | WantKey(some: bool) | WantValue | Complete | Broken

  function Accept(e: Expect, kind: TokenKind): Expect {
    match (e, kind)
    case (WantMethod, Method) => WantTarget
    case (WantTarget, Target) => WantVersion
    case (WantVersion, Version) => WantKey(false)
    case (WantKey(_), HeaderKey) => WantValue
    case (WantValue, HeaderValue) => WantKey(true)
    case (WantKey(some), HeadersDone) => if some then Complete else Broken
    case _ => Broken
  }

  function Recognize(tokens: seq<Token>): Expect {
    if tokens == [] then WantMethod
    else Accept(Recognize(tokens[..|tokens| - 1]), tokens[|tokens| - 1].kind)
  }

  predicate WellShaped(tokens: seq<Token>) { Recognize(tokens).Complete? }

  /** Some header value starts with a carriage return, and something else than a line feed follows. */
  ghost predicate BareReturn(s: string, max: int) {
    exists n :: 0 <= n < |s| && Fold(s[..n], max).k.state.EmptyValue? && s[n] != '\n'
  }

  predicate Wants(s: State, e: Expect) {
    if s.MethodStart? || s.InMethod? then e.WantMethod?
    else if s.TargetStart? || s.InTarget? then e.WantTarget?
    else if s.InVersion? then e.WantVersion?
    else if s.RequestLineEnd? || s.FirstHeader? then e == WantKey(false)
    else if s.InKey? || s.Keyword? then e.WantKey?
    else if s.ValueEnd? || s.EmptyValue? || s.NextHeader? || s.HeadEnd? then e == WantKey(true)
    else if AtBody(s) then e.Complete?
    else if s.Error? then true
    else e.WantValue?
  }

  /** After a bare return the second value is still to come, or it has come. */
  predicate Spoilt(s: State, e: Expect) { e.Broken? || (s.InValue? && e == WantKey(true)) || s.Error? }

  /** What is wanted after the move `m`. */
  function Then(s: State, m: Move, e: Expect): Expect
    requires m.Go?
  {
    if m.finish then Accept(e, HeadersDone)
    else if m.emit then Accept(e, if m.enter.None? then KindOf(s) else m.enter)
    else e
  }

  /** How one move changes what is wanted. */
  ghost predicate KeepsOrder(s: State, m: Move, c: char, e: Expect) {
    m.Go? ==>
      && (m.emit ==> !m.count || !m.enter.None?)
      && (Wants(s, e) && !(s.EmptyValue? && c != '\n') ==> Wants(if m.finish then SmallStart else m.to, Then(s, m, e)))
      && ((Wants(s, e) && s.EmptyValue? && c != '\n') || Spoilt(s, e) ==> Spoilt(m.to, Then(s, m, e)))
  }

  lemma MovesKeepOrder(s: State, c: char, e: Expect)
    requires IsHead(s)
    ensures KeepsOrder(s, HeadMove(s, c), c, e)
  {
    if s.Keyword? || s.InKey? || s.HeadEnd? {
      KeyMovesKeepOrder(s, c, e);
    } else if s.ValueStart? || s.InValue? || s.InDigits? || s.InCoding? || s.EmptyValue? || s.ValueEnd? {
      ValueMovesKeepOrder(s, c, e);
    }
  }

  lemma KeyMovesKeepOrder(s: State, c: char, e: Expect)
    requires s.Keyword? || s.InKey? || s.HeadEnd?
    ensures KeepsOrder(s, HeadMove(s, c), c, e)
  {
  }

  lemma ValueMovesKeepOrder(s: State, c: char, e: Expect)
    requires s.ValueStart? || s.InValue? || s.InDigits? || s.InCoding? || s.EmptyValue? || s.ValueEnd?
    ensures KeepsOrder(s, HeadMove(s, c), c, e)
  {
    if s.ValueStart? || s.EmptyValue? {
      BlankMovesKeepOrder(s, c, e);
    }
  }

  lemma BlankMovesKeepOrder(s: State, c: char, e: Expect)
    requires s.ValueStart? || s.EmptyValue?
    ensures KeepsOrder(s, HeadMove(s, c), c, e)
  {
  }

  lemma RecognizeMore(tokens: seq<Token>, t: Token)
    ensures Recognize(tokens + [t]) == Accept(Recognize(tokens), t.kind)
  {
    assert (tokens + [t])[..|tokens + [t]| - 1] == tokens;
  }

  lemma AdvanceOutcome(r: HeadRun, m: Move, i: nat, c: char, max: int)
    requires Sound(r, i) && IsHead(r.k.state) && HeadLike(r.k.state, m) && m.Go?
    requires m.emit ==> !m.count || !m.enter.None?
    ensures var r' := AdvanceBy(r, m, i, c, max);
      && (if m.finish then AtBody(r'.k.state) else r'.k.state == m.to)
      && (if m.finish || m.emit then
            && r'.tokens == r.tokens + [r'.k.token]
            && r'.k.token.kind
              == (if m.finish then HeadersDone else if m.enter.None? then KindOf(r.k.state) else m.enter)
          else r'.tokens == r.tokens)
  {
    hide InOrder, Terminated, RunDigit;
    PreparedInOrder(r, m, i, c);
  }

  lemma AdvanceKeepsOrder(r: HeadRun, m: Move, i: nat, c: char, max: int)
    requires Sound(r, i) && IsHead(r.k.state) && HeadLike(r.k.state, m)
      && KeepsOrder(r.k.state, m, c, Recognize(r.tokens))
    ensures var r' := AdvanceBy(r, m, i, c, max); var e := Recognize(r.tokens); var e' := Recognize(r'.tokens);
      && (Wants(r.k.state, e) && !(r.k.state.EmptyValue? && c != '\n') ==> Wants(r'.k.state, e'))
      && ((Wants(r.k.state, e) && r.k.state.EmptyValue? && c != '\n') || Spoilt(r.k.state, e) ==>
            Spoilt(r'.k.state, e'))
  {
    hide Recognize, Sound, Prepare, FinishCore;
    if m.Go? {
      AdvanceOutcome(r, m, i, c, max);
      RecognizeMore(r.tokens, AdvanceBy(r, m, i, c, max).k.token);
    }
  }

  lemma BareReturnStep(s: string, max: int)
    requires s != ""
    ensures var i := |s| - 1;
      BareReturn(s, max) <==>
      BareReturn(s[..i], max) || (Fold(s[..i], max).k.state.EmptyValue? && s[i] != '\n')
  {
    hide Fold;
    var i := |s| - 1;
    forall n | 0 <= n <= i ensures s[..i][..n] == s[..n] {}
    if BareReturn(s[..i], max) {
      var n :| 0 <= n < i && Fold(s[..i][..n], max).k.state.EmptyValue? && s[..i][n] != '\n';
      assert Fold(s[..n], max).k.state.EmptyValue?;
    }
    if BareReturn(s, max) {
      var n :| 0 <= n < |s| && Fold(s[..n], max).k.state.EmptyValue? && s[n] != '\n';
      assert n < i ==> Fold(s[..i][..n], max).k.state.EmptyValue? && s[..i][n] != '\n';
    }
  }

  lemma {:induction false} FoldOrder(s: string, max: int)
    ensures var r := Fold(s, max); var e := Recognize(r.tokens);
      if BareReturn(s, max) then Spoilt(r.k.state, e) && (r.end > 0 ==> e.Broken?) else Wants(r.k.state, e)
  {
    hide HeadMove, AdvanceBy, BareReturn, InOrder, Terminated;
    if s == "" {
      assert !BareReturn(s, max) by { EmptyIsNotBare(max); }
    } else {
      var i := |s| - 1;
      var r := Fold(s[..i], max);
      FoldOrder(s[..i], max);
      FoldSound(s[..i], max);
      FoldSound(s, max);
      BareReturnStep(s, max);
      if IsHead(r.k.state) {
        MovesAreHeadLike(r.k.state, s[i]);
        MovesKeepOrder(r.k.state, s[i], Recognize(r.tokens));
        AdvanceKeepsOrder(r, HeadMove(r.k.state, s[i]), i, s[i], max);
      }
    }
  }

  lemma EmptyIsNotBare(max: int)
    ensures !BareReturn("", max)
  {
  }

  /** The exact condition under which a complete head has well-shaped tokens. */
  lemma WellShapedUnlessBareReturn(s: string, max: int)
    requires Fold(s, max).end > 0
    ensures WellShaped(Fold(s, max).tokens) <==> !BareReturn(s, max)
  {
    hide Fold, Recognize, BareReturn;
    FoldOrder(s, max);
    FoldSound(s, max);
  }

  lemma EmptyValueMeansReturn(s: State, c: char)
    requires IsHead(s)
    ensures HeadMove(s, c).Go? && HeadMove(s, c).to.EmptyValue? ==> c == '\r'
  {
  }

  lemma EmptyValueAfterReturn(s: string, max: int)
    requires Fold(s, max).k.state.EmptyValue?
    ensures s != "" && s[|s| - 1] == '\r'
  {
    hide HeadMove;
    var r := Fold(s[..|s| - 1], max);
    assert IsHead(r.k.state) by {
      FoldSound(s[..|s| - 1], max);
    }
    EmptyValueMeansReturn(r.k.state, s[|s| - 1]);
    EmptyValueByMove(r, HeadMove(r.k.state, s[|s| - 1]), |s| - 1, s[|s| - 1], max);
  }

  lemma EmptyValueByMove(r: HeadRun, m: Move, i: nat, c: char, max: int)
    requires AdvanceBy(r, m, i, c, max).k.state.EmptyValue?
    ensures m.Go? && m.to.EmptyValue?
  {
  }

  /** A condition on the bytes alone: every carriage return that is followed by a byte is followed
      by a line feed. */
  lemma PairedReturnsAreNotBare(s: string, max: int)
    requires forall n :: 0 <= n < |s| - 1 && s[n] == '\r' ==> s[n + 1] == '\n'
    ensures !BareReturn(s, max)
  {
    hide Fold;
    forall n | 0 <= n < |s| && Fold(s[..n], max).k.state.EmptyValue? ensures s[n] == '\n' {
      EmptyValueAfterReturn(s[..n], max);
      assert s[n - 1] == '\r';
    }
  }

  const BARE_LINE := Request("A", "B", '0', [Header("K", "")])

  lemma BareMoves(f: Field)
    ensures HeadMove(ValueStart(f), '\r') == EndMove("")
    ensures HeadMove(EmptyValue, 'x') == Count(InValue)
    ensures HeadMove(InValue, '\r') == Emit(ValueEnd)
    ensures HeadMove(ValueEnd, '\n') == Count(NextHeader)
  {
  }

  /** The value is emitted twice: empty, and then with the carriage return as its first byte. */
  lemma ReadBareValue(s: string, f: Field, max: int)
    requires Fold(s, max).k.state == ValueStart(f)
    ensures Fold(s + "\r", max).k.state.EmptyValue?
    ensures var r := Fold(s + "\r" + "x" + "\r" + "\n", max);
      && r.k.state.NextHeader?
      && r.tokens == Fold(s, max).tokens + [Token(HeaderValue, false, false, 0, |s|),
        Token(HeaderValue, false, false, 2, |s|)]
  {
    hide Fold, HeadMove, WithinLimits;
    BareMoves(f);
    FoldChar(s, '\r', EndMove(""), max);
    FoldChar(s + "\r", 'x', Count(InValue), max);
    FoldChar(s + "\r" + "x", '\r', Emit(ValueEnd), max);
    FoldChar(s + "\r" + "x" + "\r", '\n', Count(NextHeader), max);
    var empty, full := Token(HeaderValue, false, false, 0, |s|), Token(HeaderValue, false, false, 2, |s|);
    assert Fold(s + "\r", max).tokens == Fold(s, max).tokens + [empty];
    assert Fold(s + "\r" + "x" + "\r", max).tokens == Fold(s, max).tokens + [empty] + [full];
    assert Fold(s, max).tokens + [empty] + [full] == Fold(s, max).tokens + [empty, full];
  }

  lemma ReadEndOfHead(s: string, max: int)
    requires Fold(s, max).k.state.NextHeader?
    ensures var r := Fold(s + "\r" + "\n", max);
      && r.end > 0 && |r.tokens| == |Fold(s, max).tokens| + 1 && Fold(s, max).tokens <= r.tokens
      && r.tokens[|r.tokens| - 1].kind.HeadersDone?
  {
    hide Fold, HeadMove, WithinLimits;
    FinishMoves();
    FoldChar(s, '\r', Enter(HeaderKey, HeadEnd), max);
    FoldChar(s + "\r", '\n', FINISH, max);
  }

  /** A complete head whose tokens are not well-shaped: behind its one name come two values in a row. */
  lemma BareReturnExample(max: int)
    ensures var line := PrintRequestLine(BARE_LINE);
      var tokens := Fold(line + "K" + ": " + "\r" + "x" + "\r" + "\n" + "\r" + "\n", max).tokens;
      && |tokens| == 7 && tokens[..3] == RequestLineTokens(BARE_LINE) && tokens[3] == MakeToken(HeaderKey, |line|, "K")
      && tokens[4] == Token(HeaderValue, false, false, 0, |line| + 3)
      && tokens[5] == Token(HeaderValue, false, false, 2, |line| + 3)
      && tokens[6].kind.HeadersDone? && !WellShaped(tokens)
  {
    hide Fold, Recognize, WithinLimits, PrintRequestLine, RequestLineTokens, FieldOf;
    var line := PrintRequestLine(BARE_LINE);
    var s0 := line + "K" + ":" + " ";
    ReadRequestLine(BARE_LINE, max);
    ReadName(line, "K", max);
    assert " "[..1] == " ";
    ReadBlanks(line + "K" + ":", FieldOf("K"), " ", 1, max);
    assert s0 == line + "K" + ": ";
    ReadBareValue(s0, FieldOf("K"), max);
    var s1 := s0 + "\r" + "x" + "\r" + "\n";
    ReadEndOfHead(s1, max);
    var s := s1 + "\r" + "\n";
    assert s[..|s0| + 1] == s0 + "\r" && s[|s0| + 1] == 'x';
    assert BareReturn(s, max);
    WellShapedUnlessBareReturn(s, max);
    NothingRead(max);
    assert |RequestLineTokens(BARE_LINE)| == 3 by { ThreeTokens(); }
  }

  lemma NothingRead(max: int)
    ensures Fold("", max).tokens == []
  {
  }

  lemma ThreeTokens()
    ensures |RequestLineTokens(BARE_LINE)| == 3
  {
  }
}

/**
  Reading the head of a request. The reference is a fold of the automaton over the
  bytes, with no buffer and no calls; the results say that every schedule of reads and
  parser calls follows it.
 */
module Head {
  import opened Automaton
  import opened Parser

  /** Parser and emitted tokens; `end` is the length of the head once it is complete, else 0. */
  datatype HeadRun = HeadRun(k: Core, tokens: seq<Token>, end: nat)

  function AdvanceBy(r: HeadRun, m: Move, i: nat, c: char, max: int): HeadRun {
    var k := ApplyMove(r.k, m, i, c, max);
    HeadRun(k,
            if MoveSignal(r.k, m, i, c) == READY then r.tokens + [k.token] else r.tokens,
            if IsHead(k.state) || k.state.Error? then 0 else i + 1)
  }

  function Advance(r: HeadRun, i: nat, c: char, max: int): HeadRun {
    if IsHead(r.k.state) then AdvanceBy(r, HeadMove(r.k.state, c), i, c, max) else r
  }

  function Fold(s: string, max: int): HeadRun {
    if s == "" then HeadRun(FRESH_CORE, [], 0)
    else Advance(Fold(s[..|s| - 1], max), |s| - 1, s[|s| - 1], max)
  }

  // --- what every fold satisfies ---

  /** States in which the token being read has been entered and not yet emitted. */
  predicate InToken(s: State) {
    s.InMethod? || s.InTarget? || (s.InVersion? && s.n > 0) || s.InKey? || s.Keyword? || s.HeadEnd? ||
    s.InValue? || s.InDigits? || s.InCoding? || s.EmptyValue?
  }

  /** The kind of the token read in such a state. */
  function KindOf(s: State): TokenKind {
    if s.InMethod? then Method else if s.InTarget? then Target else if s.InVersion? then Version
    else if s.InKey? || s.Keyword? || s.HeadEnd? then HeaderKey else HeaderValue
  }

  function TokenEnd(t: Token): int { t.index + t.len }

  /** Head tokens lie in the first `n` bytes, in order and without overlap. */
  ghost predicate InOrder(tokens: seq<Token>, n: int) {
    && (forall k :: 0 <= k < |tokens| && !tokens[k].kind.HeadersDone? ==>
          0 <= tokens[k].index && 0 <= tokens[k].len && TokenEnd(tokens[k]) <= n)
    && (forall j, k :: 0 <= j < k < |tokens| && !tokens[j].kind.HeadersDone? && !tokens[k].kind.HeadersDone? ==>
          TokenEnd(tokens[j]) <= tokens[k].index)
  }

  predicate IsHeadKind(kind: TokenKind) {
    kind.Method? || kind.Target? || kind.Version? || kind.HeaderKey? || kind.HeaderValue?
  }

  /** Exactly the last token of a complete head says that it is complete. */
  ghost predicate Terminated(tokens: seq<Token>, complete: bool) {
    && (complete ==> |tokens| > 0 && tokens[|tokens| - 1].kind.HeadersDone?)
    && (forall k :: 0 <= k < |tokens| && (complete ==> k < |tokens| - 1) ==> IsHeadKind(tokens[k].kind))
  }

  /** Where the head leaves the automaton. */
  predicate AtBody(s: State) {
    s.HeadDone? || s == SizeStart(true) || s.SmallStart? || s.LargeStart?
  }

  ghost predicate Sound(r: HeadRun, n: nat) {
    && (r.k.state.HeadEnd? ==> r.k.limitCount == 1 && r.k.limitMax == 256)
    && (if r.end == 0 then IsHead(r.k.state) || r.k.state.Error? else AtBody(r.k.state))
    && r.end <= n
    && Terminated(r.tokens, r.end > 0)
    && (InToken(r.k.state) ==> r.k.token.kind == KindOf(r.k.state) && r.k.token.index <= n)
    && InOrder(r.tokens, if r.end > 0 then r.end else n)
    && (InToken(r.k.state) ==> InOrder(r.tokens, r.k.token.index))
  }

  /** What the moves of the head have in common. */
  ghost predicate HeadLike(s: State, m: Move) {
    m.Fail? ||
    (&& (m.finish <==> m.to.HeadDone?)
     && (m.finish ==> s.HeadEnd? && m.count && !m.emit && m.enter.None?)
     && (!m.finish ==> IsHead(m.to))
     && (m.emit ==> if m.enter.None? then InToken(s) else m.enter.HeaderValue?)
     && (InToken(m.to) ==> if m.enter.None? then InToken(s) && KindOf(m.to) == KindOf(s) else m.enter == KindOf(m.to))
     && (m.emit && InToken(m.to) ==> m.enter.HeaderValue?)
     && (m.to.HeadEnd? ==> m.enter.HeaderKey? && m.count && !m.emit))
  }

  lemma MovesAreHeadLike(s: State, c: char)
    requires IsHead(s)
    ensures HeadLike(s, HeadMove(s, c))
  {
  }

  lemma InOrderExtended(tokens: seq<Token>, n: int, t: Token)
    requires InOrder(tokens, n)
    requires t.kind.HeadersDone? || (0 <= t.len && 0 <= n <= t.index)
    ensures InOrder(tokens + [t], if t.kind.HeadersDone? then n else TokenEnd(t))
  {
  }

  lemma InOrderGrows(tokens: seq<Token>, n: int, n': int)
    requires InOrder(tokens, n) && n <= n'
    ensures InOrder(tokens, n')
  {
  }

  /** After the actions that precede the limit check the open token starts where it should. */
  lemma PreparedInOrder(r: HeadRun, m: Move, i: nat, c: char)
    requires Sound(r, i) && IsHead(r.k.state) && HeadLike(r.k.state, m) && m.Go?
    ensures var q := Prepare(r.k, m, i, c);
      && q.state == m.to
      && (InToken(m.to) || m.emit ==>
            && q.token.kind == (if m.enter.None? then KindOf(r.k.state) else m.enter)
            && q.token.index <= i && InOrder(r.tokens, q.token.index))
      && (m.to.HeadEnd? ==> q.limitCount == 1 && q.limitMax == 256)
      && (m.finish ==> q.limitCount == 2 && q.limitMax == 256)
  {
    if m.enter.None? {
      assert InToken(m.to) || m.emit ==> InToken(r.k.state);
    }
  }

  lemma EmittedInOrder(r: HeadRun, m: Move, i: nat, c: char, max: int)
    requires Sound(r, i) && IsHead(r.k.state) && HeadLike(r.k.state, m)
    requires m.Go? && m.emit && !Trips(Prepare(r.k, m, i, c), m)
    ensures var r' := AdvanceBy(r, m, i, c, max);
      && r'.k == Prepare(r.k, m, i, c).(token := r'.k.token) && r'.end == 0
      && InOrder(r'.tokens, i) && Terminated(r'.tokens, false)
      && (InToken(m.to) ==> r'.k.token.index == i)
  {
    hide Limit;
    PreparedInOrder(r, m, i, c);
    var q := Prepare(r.k, m, i, c);
    InOrderExtended(r.tokens, q.token.index, q.token.(len := i - q.token.index));
  }

  lemma EmitSound(r: HeadRun, m: Move, i: nat, c: char, max: int)
    requires Sound(r, i) && IsHead(r.k.state) && HeadLike(r.k.state, m)
    requires m.Go? && m.emit && !Trips(Prepare(r.k, m, i, c), m)
    ensures Sound(AdvanceBy(r, m, i, c, max), i + 1)
  {
    PreparedInOrder(r, m, i, c);
    EmittedInOrder(r, m, i, c, max);
    InOrderGrows(AdvanceBy(r, m, i, c, max).tokens, i, i + 1);
  }

  lemma FinishSound(r: HeadRun, m: Move, i: nat, c: char, max: int)
    requires Sound(r, i) && IsHead(r.k.state) && HeadLike(r.k.state, m)
    requires m.Go? && m.finish
    ensures Sound(AdvanceBy(r, m, i, c, max), i + 1)
    ensures AdvanceBy(r, m, i, c, max).end == i + 1
  {
    hide Prepare, Trips, FinishCore;
    FinishMove(r, m, i, c, max);
    InOrderGrows(r.tokens, i, i + 1);
    var q := FinishCore(Prepare(r.k, m, i, c), i, max);
    InOrderExtended(r.tokens, i + 1, q.token);
  }

  lemma FinishMove(r: HeadRun, m: Move, i: nat, c: char, max: int)
    requires Sound(r, i) && IsHead(r.k.state) && HeadLike(r.k.state, m)
    requires m.Go? && m.finish
    ensures var q := FinishCore(Prepare(r.k, m, i, c), i, max);
      AdvanceBy(r, m, i, c, max) == HeadRun(q, r.tokens + [q.token], i + 1) && q.token.kind.HeadersDone?
        && AtBody(q.state)
  {
    hide InOrder, Terminated;
    PreparedInOrder(r, m, i, c);
  }

  lemma MoveSound(r: HeadRun, m: Move, i: nat, c: char, max: int)
    requires Sound(r, i) && IsHead(r.k.state) && HeadLike(r.k.state, m)
    requires m.Fail? || (!m.finish && (!m.emit || Trips(Prepare(r.k, m, i, c), m)))
    ensures Sound(AdvanceBy(r, m, i, c, max), i + 1)
  {
    InOrderGrows(r.tokens, i, i + 1);
    if m.Go? {
      PreparedInOrder(r, m, i, c);
    }
  }

  lemma AdvanceBySound(r: HeadRun, m: Move, i: nat, c: char, max: int)
    requires Sound(r, i) && IsHead(r.k.state) && HeadLike(r.k.state, m)
    ensures Sound(AdvanceBy(r, m, i, c, max), i + 1)
  {
    if m.Go? && m.finish {
      FinishSound(r, m, i, c, max);
    } else if m.Go? && m.emit && !Trips(Prepare(r.k, m, i, c), m) {
      EmitSound(r, m, i, c, max);
    } else {
      MoveSound(r, m, i, c, max);
    }
  }

  lemma AdvanceSound(r: HeadRun, i: nat, c: char, max: int)
    requires Sound(r, i)
    ensures Sound(Advance(r, i, c, max), i + 1)
  {
    if IsHead(r.k.state) {
      MovesAreHeadLike(r.k.state, c);
      AdvanceBySound(r, HeadMove(r.k.state, c), i, c, max);
    }
  }

  lemma {:induction false} FoldSound(s: string, max: int)
    ensures Sound(Fold(s, max), |s|)
  {
    if s != "" {
      FoldSound(s[..|s| - 1], max);
      AdvanceSound(Fold(s[..|s| - 1], max), |s| - 1, s[|s| - 1], max);
    }
  }

  /** No token of the head in `s` is longer than its limit. */
  predicate WithinLimits(s: string, max: int) {
    (s == "" || WithinLimits(s[..|s| - 1], max)) && Fold(s, max).k.limitCount <= Fold(s, max).k.limitMax
  }

  lemma {:induction false} WithinLimitsAt(s: string, n: nat, max: int)
    requires WithinLimits(s, max) && n <= |s|
    ensures Fold(s[..n], max).k.limitCount <= Fold(s[..n], max).k.limitMax
  {
    hide Fold;
    if n == |s| {
      assert s[..n] == s;
    } else {
      assert s[..|s| - 1][..n] == s[..n];
      WithinLimitsAt(s[..|s| - 1], n, max);
    }
  }
}

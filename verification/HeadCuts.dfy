/**
  Every schedule of reads and parser calls reads a head as the fold over its bytes does,
  and leaves the bytes of the head in place from then on.
 */
module HeadCuts {
  import opened Automaton
  import opened Parser
  import opened Head
  import opened Sessions

  ghost predicate InHead(k: Core) { IsHead(k.state) || k.state.Error? }

  /** The reference run that corresponds to the result of a transition, when the tokens before were `tokens`. */
  function Seen(r: Result, tokens: seq<Token>): HeadRun {
    HeadRun(r.core, if r.signal == READY then tokens + [r.core.token] else tokens, r.b.afterHeaders)
  }

  lemma FoldStep(s: string, i: nat, max: int)
    requires i < |s|
    ensures Fold(s[..i + 1], max) == Advance(Fold(s[..i], max), i, s[i], max)
  {
    assert s[..i + 1][..i] == s[..i];
  }

  ghost predicate Shape(r: Result) {
    && (!InHead(r.core) ==> r.signal == READY)
    && (r.signal.Continue? ==> IsHead(r.core.state))
    && (r.signal.Break? ==> r.signal == READY || r.signal == STOP)
    && (r.signal == READY ==> !r.core.token.kind.None?)
  }

  /** `r` continues the reference run up to the next byte to be read. */
  ghost predicate Follows(b: Buffer, max: int, tokens: seq<Token>, r: Result)
    requires b.Valid()
  {
    && r.at <= b.length
    && r.b == b.(afterHeaders := r.b.afterHeaders, capacity := r.b.capacity)
    && r.b.afterHeaders == (if InHead(r.core) then 0 else r.at)
    && Fold(b.mem[..r.at], max) == Seen(r, tokens)
    && Shape(r)
    && (r.signal == STOP ==> r.at == b.length || r.core.state.Error? || r.core.limitCount > r.core.limitMax)
  }

  lemma MoveFollowsFold(k: Core, m: Move, b: Buffer, i: nat, c: char, max: int, tokens: seq<Token>)
    requires b.Valid() && i < b.length && b.afterHeaders == 0
    requires Sound(HeadRun(k, tokens, 0), i) && IsHead(k.state) && HeadLike(k.state, m)
    ensures var r := HeadStep(k, m, b, i, c, max);
      && r.at == i + 1
      && AdvanceBy(HeadRun(k, tokens, 0), m, i, c, max) == Seen(r, tokens)
      && Shape(r)
      && (r.signal == STOP ==> r.core.state.Error? || r.core.limitCount > r.core.limitMax)
      && r.b == b.(afterHeaders := r.b.afterHeaders, capacity := r.b.capacity)
      && r.b.afterHeaders == (if InHead(r.core) then 0 else r.at)
  {
    if m.Go? {
      PreparedInOrder(HeadRun(k, tokens, 0), m, i, c);
    }
  }

  lemma FoldMove(s: string, i: nat, max: int, k: Core, tokens: seq<Token>)
    requires i < |s| && IsHead(k.state) && Fold(s[..i], max) == HeadRun(k, tokens, 0)
    ensures var m := HeadMove(k.state, s[i]);
      && Sound(HeadRun(k, tokens, 0), i) && HeadLike(k.state, m)
      && Fold(s[..i + 1], max) == AdvanceBy(HeadRun(k, tokens, 0), m, i, s[i], max)
  {
    FoldSound(s[..i], max);
    MovesAreHeadLike(k.state, s[i]);
    FoldStep(s, i, max);
  }

  lemma StepInHead(k: Core, b: Buffer, i: nat, max: int)
    requires b.Valid() && i < b.length && IsHead(k.state)
    ensures Step(k, b, i, max) == HeadStep(k, HeadMove(k.state, b.mem[i]), b, i, b.mem[i], max)
  {
  }

  lemma StepFollowsFold(k: Core, b: Buffer, i: nat, max: int, tokens: seq<Token>)
    requires b.Valid() && i < b.length && b.afterHeaders == 0
    requires IsHead(k.state) && Fold(b.mem[..i], max) == HeadRun(k, tokens, 0)
    ensures Follows(b, max, tokens, Step(k, b, i, max))
  {
    var m := HeadMove(k.state, b.mem[i]);
    FoldMove(b.mem, i, max, k, tokens);
    MoveFollowsFold(k, m, b, i, b.mem[i], max, tokens);
    StepInHead(k, b, i, max);
  }

  lemma {:induction false} ScanFollowsFold(k: Core, b: Buffer, i: nat, max: int, tokens: seq<Token>)
    requires b.Valid() && i <= b.length && b.afterHeaders == 0
    requires InHead(k) && Fold(b.mem[..i], max) == HeadRun(k, tokens, 0)
    ensures Follows(b, max, tokens, Scan(k, b, i, max))
    decreases b.length - i
  {
    if i < b.length && IsHead(k.state) {
      StepFollowsFold(k, b, i, max, tokens);
      var r := Step(k, b, i, max);
      if r.signal.Continue? {
        ScanFollowsFold(r.core, b, i + 1, max, tokens);
      }
    }
  }

  // --- after the head: nothing below its end is touched ---

  ghost predicate Beyond(k: Core, b: Buffer, done: bool, h: nat) {
    h <= b.afterHeaders <= b.length && (!done && (k.state.InData? || k.state.Rescan?) ==> h <= k.token.index)
  }

  ghost predicate KeepsBelow(b: Buffer, r: Result, h: nat) {
    Beyond(r.core, r.b, r.signal.Break? && r.signal.ready && r.signal.done, h) && h <= r.at && h <= |b.mem|
      && h <= |r.b.mem| && r.b.mem[..h] == b.mem[..h]
  }

  lemma ReadChunkKeepsBelow(k: Core, b: Buffer, i: nat, max: int, h: nat)
    requires b.Valid() && h <= i < b.length && h <= b.afterHeaders <= b.length && h <= k.token.index
    ensures KeepsBelow(b, ReadChunk(k, b, i, max), h)
  {
    assert Compact(b, i).mem[..b.afterHeaders] == b.mem[..b.afterHeaders];
    assert Compact(b, i).mem[..b.afterHeaders][..h] == b.mem[..b.afterHeaders][..h];
  }

  lemma BodyKeepsBelow(k: Core, b: Buffer, i: nat, c: char, max: int, h: nat)
    requires b.Valid() && IsBody(k.state) && h <= i < b.length && Beyond(k, b, false, h)
    ensures KeepsBelow(b, BodyStep(k, b, i, c, max), h)
  {
    hide RescanTarget, ReadChunk;
    match k.state
    case DataStart(first) =>
      ReadChunkKeepsBelow(EnterBody(k, i).(state := if first then Rescan(First) else InData), b, i, max, h);
    case InData => ReadChunkKeepsBelow(k, b, i, max, h);
    case Rescan(_) => ReadChunkKeepsBelow(Rescanned(k, i, c), b, i, max, h);
    case _ =>
  }

  lemma HeadMovesElsewhere(s: State, c: char)
    requires !IsBody(s) && !s.Error?
    ensures HeadMove(s, c).Go? ==> !IsBody(HeadMove(s, c).to)
  {
    if IsHead(s) {
      MovesAreHeadLike(s, c);
    }
  }

  lemma StepKeepsBelow(k: Core, b: Buffer, i: nat, max: int, h: nat)
    requires b.Valid() && h <= i < b.length && Beyond(k, b, false, h) && !k.state.Error?
    ensures KeepsBelow(b, Step(k, b, i, max), h)
  {
    if IsBody(k.state) {
      BodyKeepsBelow(k, b, i, b.mem[i], max, h);
    } else {
      HeadMovesElsewhere(k.state, b.mem[i]);
      MoveKeepsBelow(k, HeadMove(k.state, b.mem[i]), b, i, b.mem[i], max, h);
    }
  }

  lemma MoveKeepsBelow(k: Core, m: Move, b: Buffer, i: nat, c: char, max: int, h: nat)
    requires b.Valid() && h <= i < b.length && h <= b.afterHeaders <= b.length
    requires m.Go? ==> !IsBody(m.to)
    ensures KeepsBelow(b, HeadStep(k, m, b, i, c, max), h)
  {
  }

  lemma {:induction false} ScanKeepsBelow(k: Core, b: Buffer, i: nat, max: int, h: nat)
    requires b.Valid() && h <= i && Beyond(k, b, false, h)
    ensures KeepsBelow(b, Scan(k, b, i, max), h)
    decreases b.length - i
  {
    if i < b.length && !k.state.Error? {
      StepKeepsBelow(k, b, i, max, h);
      var r := Step(k, b, i, max);
      if r.signal.Continue? {
        ScanKeepsBelow(r.core, b, i + 1, max, h);
      }
    }
  }

  // --- whole schedules ---

  /** The session is still in the head, and agrees with the fold over the bytes it has consumed. */
  ghost predicate Reading(s: Session, max: int) {
    && s.b.Valid() && s.b.afterHeaders == 0 && !s.p.done && InHead(s.p.core)
    && s.b.index <= s.b.length && s.b.mem[..s.b.length] == s.received
    && Fold(s.received[..s.b.index], max) == HeadRun(s.p.core, s.tokens, 0)
  }

  /** The head is complete: its tokens came first, and its bytes are still where they were. */
  ghost predicate Past(s: Session, max: int) {
    var run := Fold(s.received, max);
    && s.b.Valid() && 0 < run.end && run.end <= |s.received| && run.end <= s.b.index
    && Beyond(s.p.core, s.b, s.p.done, run.end)
    && s.b.mem[..run.end] == s.received[..run.end]
    && run.tokens <= s.tokens
  }

  lemma {:induction false} FoldAbsorbs(s: string, t: string, max: int)
    requires !IsHead(Fold(s, max).k.state)
    ensures Fold(s + t, max) == Fold(s, max)
  {
    if t == "" {
      assert s + t == s;
    } else {
      assert (s + t)[..|s + t| - 1] == s + t[..|t| - 1];
      FoldAbsorbs(s, t[..|t| - 1], max);
    }
  }

  lemma ReadKeeps(s: Session, bytes: string, capacity: int, max: int)
    requires Reading(s, max) || Past(s, max)
    ensures var r := Happen(s, Read(bytes, capacity), max); Reading(r, max) || Past(r, max)
  {
    hide Fold;
    var r := Happen(s, Read(bytes, capacity), max);
    if Reading(s, max) {
      assert r.received[..s.b.index] == s.received[..s.b.index];
    } else {
      var run := Fold(s.received, max);
      FoldSound(s.received, max);
      FoldAbsorbs(s.received, bytes, max);
      assert r.received[..run.end] == s.received[..run.end];
      assert r.b.mem[..s.b.length][..run.end] == s.b.mem[..s.b.length][..run.end];
    }
  }

  lemma HeadEnds(s: string, at: nat, max: int)
    requires at <= |s| && Fold(s[..at], max).end == at > 0
    ensures Fold(s, max) == Fold(s[..at], max)
  {
    FoldSound(s[..at], max);
    FoldAbsorbs(s[..at], s[at..], max);
    assert s == s[..at] + s[at..];
  }

  lemma ExecFollowsFold(p: Parser, b: Buffer, max: int, tokens: seq<Token>)
    requires b.Valid() && b.index <= b.length && b.afterHeaders == 0 && !p.done && InHead(p.core)
    requires Fold(b.mem[..b.index], max) == HeadRun(p.core, tokens, 0)
    ensures var o := Exec(p, b, max);
      && o.b.index <= o.b.length == b.length && o.b.mem == b.mem && !o.p.done
      && o.b.afterHeaders == (if InHead(o.p.core) then 0 else o.b.index)
      && Fold(b.mem[..o.b.index], max) ==
           HeadRun(o.p.core, if o.token.kind.None? then tokens else tokens + [o.token], o.b.afterHeaders)
  {
    ScanFollowsFold(p.core, b, b.index, max, tokens);
  }

  lemma ReadingOrPast(s: Session, max: int)
    requires s.b.Valid() && s.b.index <= s.b.length && !s.p.done && s.b.mem[..s.b.length] == s.received
    requires Fold(s.b.mem[..s.b.index], max) == HeadRun(s.p.core, s.tokens, s.b.afterHeaders)
    requires s.b.afterHeaders == (if InHead(s.p.core) then 0 else s.b.index)
    ensures Reading(s, max) || Past(s, max)
  {
    assert s.received[..s.b.index] == s.b.mem[..s.b.index];
    if !InHead(s.p.core) {
      FoldSound(s.received[..s.b.index], max);
      HeadEnds(s.received, s.b.index, max);
    }
  }

  lemma ParseInHead(s: Session, max: int)
    requires Reading(s, max)
    ensures var r := Happen(s, Parse, max); Reading(r, max) || Past(r, max)
  {
    assert s.received[..s.b.index] == s.b.mem[..s.b.index];
    ExecFollowsFold(s.p, s.b, max, s.tokens);
    ReadingOrPast(Happen(s, Parse, max), max);
  }

  lemma ParsePastHead(s: Session, max: int)
    requires Past(s, max)
    ensures Past(Happen(s, Parse, max), max)
  {
    if !s.p.done && s.p.sequenceId != s.b.sequenceId {
      ScanKeepsBelow(s.p.core, s.b, s.b.index, max, Fold(s.received, max).end);
    }
  }

  /** The main invariant: it holds after every schedule, from an empty buffer on. */
  lemma {:induction false} EverySchedule(capacity: int, events: seq<Event>, max: int)
    ensures var s := Play(Start(capacity), events, max); Reading(s, max) || Past(s, max)
  {
    if events != [] {
      var before := events[..|events| - 1];
      EverySchedule(capacity, before, max);
      var s := Play(Start(capacity), before, max);
      match events[|events| - 1]
      case Read(bytes, capacity) => ReadKeeps(s, bytes, capacity, max);
      case Parse =>
        if Reading(s, max) {
          ParseInHead(s, max);
        } else {
          ParsePastHead(s, max);
        }
    }
  }
}

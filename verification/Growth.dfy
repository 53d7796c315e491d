/**
  When the parser itself makes the buffer grow: exactly when it completes the head of a request with a
  small body, and then to what head and body need.
 */
module Growth {
  import opened Automaton
  import opened Parser
  import opened HeadCuts
  import opened ReadSocket

  /** A small body is being waited for, or has been handed out. */
  predicate IsSmall(s: State) { s.SmallStart? || s.InSmall? }

  function Larger(a: int, b: int): int { if a < b then b else a }

  /** What the buffer needs for the head and the small body of a request. */
  function Need(k: Core, b: Buffer): int { k.contentLength + b.afterHeaders }

  /** The growth between two moments: none, unless the head of a request with a small body has been
      completed between them. */
  ghost predicate Grows(k: Core, b: Buffer, k': Core, b': Buffer) {
    && b'.capacity == (if IsSmall(k'.state) && !IsSmall(k.state) then Larger(b.capacity, Need(k', b')) else b.capacity)
    && (IsSmall(k.state) ==> IsSmall(k'.state) && Need(k', b') == Need(k, b))
  }

  lemma MoveGrows(k: Core, m: Move, b: Buffer, i: nat, c: char, max: int)
    requires b.Valid() && i < b.length && !IsBody(k.state) && (m.Go? ==> !IsBody(m.to))
    ensures var r := HeadStep(k, m, b, i, c, max);
      Grows(k, b, r.core, r.b) && (IsSmall(r.core.state) ==> r.signal == READY && r.core.token.kind.HeadersDone?)
  {
  }

  lemma BodyGrows(k: Core, b: Buffer, i: nat, c: char, max: int)
    requires b.Valid() && i < b.length && IsBody(k.state)
    ensures var r := BodyStep(k, b, i, c, max);
      Grows(k, b, r.core, r.b) && (IsSmall(r.core.state) ==> IsSmall(k.state) && r.signal.Break?)
  {
    hide RescanStep, StartChunkSize;
    if k.state.Rescan? {
      RescanGrows(k, b, i, c, max);
    }
  }

  lemma RescanGrows(k: Core, b: Buffer, i: nat, c: char, max: int)
    requires b.Valid() && i < b.length && k.state.Rescan?
    ensures var r := RescanStep(k, b, i, c, max); r.b.capacity == b.capacity && !IsSmall(r.core.state)
  {
    hide RescanTarget;
  }

  lemma {:induction false} ScanGrows(k: Core, b: Buffer, i: nat, max: int)
    requires b.Valid()
    ensures var r := Scan(k, b, i, max);
      Grows(k, b, r.core, r.b) &&
      (IsSmall(r.core.state) && !IsSmall(k.state) ==> r.signal == READY && r.core.token.kind.HeadersDone?)
    decreases b.length - i
  {
    hide HeadMove, HeadStep, BodyStep;
    if i < b.length && !k.state.Error? {
      if IsBody(k.state) {
        BodyGrows(k, b, i, b.mem[i], max);
      } else {
        HeadMovesElsewhere(k.state, b.mem[i]);
        MoveGrows(k, HeadMove(k.state, b.mem[i]), b, i, b.mem[i], max);
      }
      var r := Step(k, b, i, max);
      if r.signal.Continue? {
        ScanGrows(r.core, b, i + 1, max);
      }
    }
  }

  lemma ExecGrows(p: Parser, b: Buffer, max: int)
    requires b.Valid()
    ensures var o := Exec(p, b, max);
      Grows(p.core, b, o.p.core, o.b) &&
      (IsSmall(o.p.core.state) && !IsSmall(p.core.state) ==> o.token.kind.HeadersDone?)
  {
    hide Scan;
    ScanGrows(p.core, b, b.index, max);
  }

  lemma GrowsTwice(k: Core, b: Buffer, k1: Core, b1: Buffer, k2: Core, b2: Buffer)
    requires Grows(k, b, k1, b1) && Grows(k1, b1, k2, b2)
    ensures Grows(k, b, k2, b2)
  {
  }

  /** A run of the dispatch loop makes the buffer grow exactly if it completes the head of a request with a
      small body, and then to the larger of what it was and what head and body need. */
  lemma {:induction false} DispatchGrows(r: Reader, max: int)
    requires r.b.Valid() && Tidy(r.p.core)
    ensures var d := Dispatch(r, max); Grows(r.p.core, r.b, d.p.core, d.b)
    decreases r.b.length - r.b.index
  {
    hide Exec, Grows;
    ExecConsumes(r.p, r.b, max);
    ExecGrows(r.p, r.b, max);
    var o := Exec(r.p, r.b, max);
    if !Returns(o.token) {
      DispatchGrows(Take(r, o), max);
      var d := Dispatch(r, max);
      GrowsTwice(r.p.core, r.b, o.p.core, o.b, d.p.core, d.b);
    }
  }
}

/**
  Where the parser falls short on bodies with a content length, and exactly when: they are declared
  complete one byte early.
 */
module Shortfalls {
  import opened Automaton
  import opened Parser
  import opened Sessions
  import opened Bodies

  /** Whenever the parser is done, all bytes up to `end` have been received. */
  ghost predicate Backed(s0: Session, events: seq<Event>, end: int, max: int)
    requires s0.b.Valid()
  {
    forall k :: 0 <= k <= |events| && Play(s0, events[..k], max).p.done ==> end <= |Play(s0, events[..k], max).received|
  }

  lemma BackedPrefix(s0: Session, events: seq<Event>, n: nat, end: int, max: int)
    requires s0.b.Valid() && n <= |events|
    ensures Backed(s0, events, end, max) ==> Backed(s0, events[..n], end, max)
    ensures NeverCalledAt(s0, events, end, max) ==> NeverCalledAt(s0, events[..n], end, max)
  {
    hide Play, Active;
    forall k | 0 <= k <= n ensures events[..n][..k] == events[..k] {}
  }

  /** The parser never looks at the buffer at `n`, but for the last event. */
  lemma LastCall(s0: Session, events: seq<Event>, n: int, max: int)
    requires s0.b.Valid() && events != []
    requires NeverCalledAt(s0, events[..|events| - 1], n, max) && !NeverCalledAt(s0, events, n, max)
    ensures var s := Play(s0, events[..|events| - 1], max);
      events[|events| - 1].Parse? && Active(s) && |s.received| == n
  {
    hide Play, Active;
    var last := |events| - 1;
    forall k | 0 <= k < last ensures events[..last][..k] == events[..k] && events[..last][k] == events[k] {}
  }

  /** A large body is complete whenever it is declared complete, if and only if the parser never looks
      at the buffer while exactly one byte is missing. */
  lemma {:induction false} LargeBodyIsBacked(s0: Session, events: seq<Event>, max: int)
    requires HeadComplete(s0, max) && s0.p.core.state.LargeStart? && s0.p.core.contentRemaining > 0
    ensures var end := s0.b.index + s0.p.core.contentRemaining;
      Backed(s0, events, end, max) <==> NeverCalledAt(s0, events, end - 1, max)
  {
    hide Exec, HeadComplete, Streaming, Conserved, Play, Active;
    FromHead(s0, max);
    var total := s0.p.core.contentRemaining;
    var end := s0.b.index + total;
    if NeverCalledAt(s0, events, end - 1, max) {
      forall k | 0 <= k <= |events| && Play(s0, events[..k], max).p.done
        ensures end <= |Play(s0, events[..k], max).received| {
        BackedPrefix(s0, events, k, end - 1, max);
        LargeBodyIsDelivered(s0, events[..k], max);
        DeliveredIsReceived(s0, Play(s0, events[..k], max), total);
      }
    } else {
      var n := |events| - 1;
      var before := events[..n];
      LargeBodyIsBacked(s0, before, max);
      BackedPrefix(s0, events, n, end, max);
      if NeverCalledAt(s0, before, end - 1, max) {
        LastCall(s0, events, end - 1, max);
        LargeBodyIsDelivered(s0, before, max);
        LargeBodyAddsUp(s0, before, max);
        var s := Play(s0, before, max);
        CalledOneShort(s0, s, total, max);
        OneMoreEvent(s0, events, max);
      }
    }
  }

  /** The case that fails: a body of which all but the last byte arrives first is handed out in full length,
      and declared finished. */
  lemma LargeOneByteShort(s0: Session, x: string, capacity: int, max: int)
    requires HeadComplete(s0, max) && s0.p.core.state.LargeStart? && |s0.received| == s0.b.index
    requires 0 < |x| == s0.p.core.contentRemaining - 1 && s0.p.sequenceId != NextSequence(s0.b.sequenceId)
    ensures var s := Play(s0, [Read(x, capacity), Parse], max); var total := s0.p.core.contentRemaining;
      && s.p.done && s.tokens == s0.tokens + [Token(Body, true, false, total, s0.b.index)]
      && |s.received| == s0.b.index + total - 1
  {
    hide Exec, HeadComplete;
    var read := [Read(x, capacity)];
    FromHead(s0, max);
    assert read[..|read| - 1] == [] && Play(s0, [], max) == s0;
    var s := Play(s0, read, max);
    assert s == Happen(s0, Read(x, capacity), max);
    assert [Read(x, capacity), Parse][..1] == read;
    LargeBodyAddsUp(s0, [], max);
    LargeExec(s.p, s.b, max);
  }

  lemma DeliveredIsReceived(s0: Session, s: Session, total: nat)
    requires Conserved(s0, s, total) && s.p.done
    ensures s0.b.index + total <= |s.received|
  {
  }

  lemma SmallCalledOneShort(s0: Session, s: Session, total: nat, max: int)
    requires Collecting(s0, s, total, true) && Active(s) && |s.received| == s0.b.index + total - 1
    ensures var r := Happen(s, Parse, max); r.received == s.received && r.p.done
  {
    hide Exec;
    SmallExec(s.p, s.b, max);
  }

  /** The same for a small body. */
  lemma {:induction false} SmallBodyIsBacked(s0: Session, events: seq<Event>, max: int)
    requires HeadComplete(s0, max) && s0.p.core.state.SmallStart?
    ensures var end := s0.b.index + s0.p.core.contentLength;
      Backed(s0, events, end, max) <==> NeverCalledAt(s0, events, end - 1, max)
  {
    hide Exec, HeadComplete, Collecting, Play, Active;
    FromHead(s0, max);
    var total := s0.p.core.contentLength;
    var end := s0.b.index + total;
    if NeverCalledAt(s0, events, end - 1, max) {
      forall k | 0 <= k <= |events| && Play(s0, events[..k], max).p.done
        ensures end <= |Play(s0, events[..k], max).received| {
        BackedPrefix(s0, events, k, end - 1, max);
        SmallBodyIsDelivered(s0, events[..k], true, max);
        CollectedIsReceived(s0, Play(s0, events[..k], max), total);
      }
    } else {
      var n := |events| - 1;
      var before := events[..n];
      SmallBodyIsBacked(s0, before, max);
      BackedPrefix(s0, events, n, end, max);
      if NeverCalledAt(s0, before, end - 1, max) {
        LastCall(s0, events, end - 1, max);
        SmallBodyIsDelivered(s0, before, true, max);
        SmallCalledOneShort(s0, Play(s0, before, max), total, max);
        OneMoreEvent(s0, events, max);
      }
    }
  }

  /** The case that fails: a body of two bytes or more of which all but the last arrives first. The
      handler runs, and is given a body that is one byte longer than what was received. */
  lemma OneByteShortIsHandedOut(s0: Session, x: string, capacity: int, max: int)
    requires HeadComplete(s0, max) && s0.p.core.state.SmallStart? && |s0.received| == s0.b.index
    requires 0 < |x| == s0.p.core.contentLength - 1 && s0.p.sequenceId != NextSequence(s0.b.sequenceId)
    ensures var s := Play(s0, [Read(x, capacity), Parse], max); var total := s0.p.core.contentLength;
      && s.p.done && s.tokens == s0.tokens + [Token(Body, false, true, total, s0.b.index)]
      && |s.received| == s0.b.index + total - 1
  {
    hide Exec, HeadComplete;
    var read := [Read(x, capacity)];
    FromHead(s0, max);
    assert read[..|read| - 1] == [] && Play(s0, [], max) == s0;
    var s := Play(s0, read, max);
    assert s == Happen(s0, Read(x, capacity), max);
    assert [Read(x, capacity), Parse][..1] == read;
    SmallBodyIsDelivered(s0, read, true, max);
    SmallCalledOneShort(s0, s, s0.p.core.contentLength, max);
    CollectingByParse(s0, s, s0.p.core.contentLength, false, max) by {
      NotExact(s0, s, s0.p.core.contentLength);
    }
  }

  lemma NotExact(s0: Session, s: Session, total: nat)
    requires Collecting(s0, s, total, true)
    ensures Collecting(s0, s, total, false)
  {
  }

  lemma CollectedIsReceived(s0: Session, s: Session, total: nat)
    requires Collecting(s0, s, total, true) && s.p.done
    ensures s0.b.index + total <= |s.received|
  {
  }

  lemma OneMoreEvent(s0: Session, events: seq<Event>, max: int)
    requires s0.b.Valid() && events != []
    ensures events[..|events|] == events
    ensures Play(s0, events, max) == Happen(Play(s0, events[..|events| - 1], max), events[|events| - 1], max)
  {
  }
}

/**
  A parser and its buffer under a schedule of events: reads that append any bytes, at
  any time, and calls of the parser. The reader of the server produces a subset of these
  schedules, so what holds for all of them holds for it under every cut into reads.
 */
module Sessions {
  import opened Automaton
  import opened Parser

  /** `capacity` is what the buffer has grown to when the read is over. */
  datatype Event = Read(bytes: string, capacity: int) | Parse

  /** `tokens` are the tokens returned so far, `texts` the bytes each of them spelled at the time it
      was returned, and `received` all bytes read so far. */
  datatype Session = Session(p: Parser, b: Buffer, tokens: seq<Token>, texts: seq<string>, received: string)

  /** The bytes of the buffer's memory a token refers to, as far as they have been written. */
  function Peek(mem: string, t: Token): string {
    if 0 <= t.len && t.index + t.len <= |mem| then mem[t.index..t.index + t.len] else ""
  }

  function Start(capacity: int): (s: Session)
    ensures s.b.Valid()
  {
    Session(FRESH_PARSER, Buffer("", capacity, 0, 0, 0, 0), [], [], "")
  }

  function Happen(s: Session, e: Event, max: int): (r: Session)
    requires s.b.Valid()
    ensures r.b.Valid()
  {
    match e
    case Read(bytes, capacity) => s.(b := Receive(s.b, bytes).(capacity := capacity), received := s.received + bytes)
    case Parse =>
      var o := Exec(s.p, s.b, max);
      var s' := s.(p := o.p, b := o.b);
      if o.token.kind.None? then s'
      else s'.(tokens := s.tokens + [o.token], texts := s.texts + [Peek(o.b.mem, o.token)])
  }

  function Play(s: Session, events: seq<Event>, max: int): (r: Session)
    requires s.b.Valid()
    ensures r.b.Valid()
  {
    if events == [] then s
    else Happen(Play(s, events[..|events| - 1], max), events[|events| - 1], max)
  }

  lemma {:induction false} PlayAppend(s: Session, e1: seq<Event>, e2: seq<Event>, max: int)
    requires s.b.Valid()
    ensures Play(s, e1 + e2, max) == Play(Play(s, e1, max), e2, max)
  {
    if e2 == [] {
      assert e1 + e2 == e1;
    } else {
      var n := |e2| - 1;
      assert (e1 + e2)[..|e1 + e2| - 1] == e1 + e2[..n];
      PlayAppend(s, e1, e2[..n], max);
    }
  }

  lemma PlayMore(s: Session, events: seq<Event>, e: Event, max: int)
    requires s.b.Valid()
    ensures Play(s, events + [e], max) == Happen(Play(s, events, max), e, max)
  {
    assert (events + [e])[..|events|] == events;
  }
}

/**
  What the parser makes of a chunk whose data it looks at before all of it is there. Later chunks are
  waited for; over the data of the first one the size actions run again, so that its bytes may change
  the length it is expected to have.
 */
module ChunkLooks {
  import opened Automaton
  import opened Parser
  import opened Digits
  import opened ChunkStream

  /** The length expected of a chunk: still its own, or what its data have been read as. */
  datatype Lead = Kept | Lost(size: nat)

  /** What a look at the data ends with: the chunk is awaited, or handed out with some length, or what is
      unread is moved to the front. */
  datatype Glimpse = Waits(lead: Lead) | Gives(len: nat) | Moves

  /** The length expected when the byte `c` is looked at. */
  function Size(lead: Lead, len: nat, c: char): nat {
    match lead
    case Kept => len
    case Lost(size) => if IsHexDigit(c) then 16 * size + HexDigitValue(c) else size
  }

  /** Only the first byte of the first chunk's data, and zero digits right after it, leave the length as
      it is; then a byte starts a new one, a zero digit continues it, and any other byte clears it. */
  function NextLead(first: bool, lead: Lead, len: nat, c: char, p: nat): Lead {
    if !first || p == 0 || (lead.Kept? && c == '0') then lead
    else if lead.Kept? then Lost(HexDigitValue(c))
    else Lost(if c == '0' then Size(lead, len, c) else 0)
  }

  /** A look at the data `s` received so far of a chunk of length `len`, from position `p` on; `room` is how
      far the data may reach in the largest buffer. */
  function Look(first: bool, lead: Lead, len: nat, s: string, p: nat, room: int): Glimpse
    decreases |s| - p
  {
    if p >= |s| then Waits(lead)
    else
      var size := Size(lead, len, s[p]);
      if size <= |s| + 1 then Gives(size)
      else if p + size > room then Moves
      else Look(first, NextLead(first, lead, len, s[p], p), len, s, p + 1, room)
  }

  /** Chunks after the first are handed out as soon as at most one byte is missing, and moved if the last
      byte received and the length together reach beyond the largest buffer. */
  lemma {:induction false} LaterLook(len: nat, s: string, p: nat, room: int)
    requires p < |s|
    ensures Look(false, Kept, len, s, p, room) ==
      if len <= |s| + 1 then Gives(len) else if |s| - 1 + len > room then Moves else Waits(Kept)
    decreases |s| - p
  {
    if p + 1 < |s| {
      LaterLook(len, s, p + 1, room);
    }
  }

  /** A chunk that keeps its length is awaited only while more than one byte is missing. */
  lemma {:induction false} KeptIsIncomplete(first: bool, lead: Lead, len: nat, s: string, p: nat, room: int)
    requires p < |s| && Look(first, lead, len, s, p, room) == Waits(Kept)
    ensures lead.Kept? && |s| + 1 < len
    decreases |s| - p
  {
    if p + 1 < |s| {
      KeptIsIncomplete(first, NextLead(first, lead, len, s[p], p), len, s, p + 1, room);
    }
  }

  /** A look at all the data, and no look before, finds the chunk. */
  lemma WholeLook(first: bool, lead: Lead, len: nat, s: string, p: nat, room: int)
    requires lead.Kept? && p < |s| && len <= |s| + 1
    ensures Look(first, lead, len, s, p, room) == Gives(len)
  {
  }

  // --- the parser ---

  function ChunkToken(chunks: seq<Segment>, at: nat, j: nat): Token
    requires j < |chunks|
  {
    Token(Body, false, false, |chunks[j].data|, at + DataOffset(chunks, j))
  }

  /** The data of chunk `j` has begun, and the length expected of it is as `lead` says. */
  ghost predicate Waiting(k: Core, lead: Lead, chunks: seq<Segment>, at: nat, j: nat) {
    && j < |chunks| && k.token == ChunkToken(chunks, at, j).(len := k.token.len)
    && k.contentLength == (if lead.Kept? then |chunks[j].data| else lead.size)
    && (if j > 0 then k.state.InData? && lead.Kept?
        else k.state.Rescan? && Stands(k.state.at, lead))
  }

  /** After a carriage return the length is zero, so the next byte is never read in vain. */
  ghost predicate Stands(at: Reread, lead: Lead) {
    if lead.Kept? then at.First? || at.Zeros?
    else (at.Text? || at.Zero?) || ((at.TextCr? || at.ZeroCr? || at.ZerosCr?) && lead.size == 0)
  }

  /** How a scan ends whose look at the data of chunk `j` ends with `g`. */
  ghost predicate Ended(r: Result, b: Buffer, g: Glimpse, chunks: seq<Segment>, at: nat, j: nat)
    requires j < |chunks|
  {
    var d := at + DataOffset(chunks, j);
    match g
    case Waits(lead) => r.b == b && r.signal == STOP && r.at == b.length && Waiting(r.core, lead, chunks, at, j)
    case Gives(len) =>
      && r.b == b && r.signal == READY && r.core.state.ChunkEndCr?
      && r.core.token == Token(Body, false, false, len, d) && r.at == d + len
    case Moves =>
      && r.signal == Break(false, false, true) && r.at == b.afterHeaders < r.b.length
      && r.b.sequenceId == b.sequenceId
  }

  /** The data of chunk `j` in the buffer. */
  function DataOf(b: Buffer, chunks: seq<Segment>, at: nat, j: nat): string
    requires b.Valid() && j < |chunks| && at + DataOffset(chunks, j) <= b.length
  {
    b.mem[at + DataOffset(chunks, j)..b.length]
  }

  /** What the next byte does to awaited data. */
  ghost predicate Advances(r: Result, b: Buffer, i: nat, max: int, lead: Lead, chunks: seq<Segment>, at: nat, j: nat)
    requires b.Valid() && j < |chunks| && at + DataOffset(chunks, j) <= i < b.length
  {
    var d := at + DataOffset(chunks, j);
    var size := Size(lead, |chunks[j].data|, b.mem[i]);
    if size <= b.length - d + 1 then Ended(r, b, Gives(size), chunks, at, j)
    else if i + size > max then Ended(r, b, Moves, chunks, at, j)
    else r.signal.Continue? && Waiting(r.core, NextLead(j == 0, lead, |chunks[j].data|, b.mem[i], i - d), chunks, at, j)
  }

  lemma RescanKept(k: Core, b: Buffer, i: nat, max: int, chunks: seq<Segment>, at: nat)
    requires b.Valid() && Waiting(k, Kept, chunks, at, 0) && at + DataOffset(chunks, 0) < i < b.length
    ensures Advances(RescanStep(k, b, i, b.mem[i], max), b, i, max, Kept, chunks, at, 0)
  {
    hide Frames, DataOffset;
  }

  lemma RescanLost(k: Core, b: Buffer, i: nat, max: int, lead: Lead, chunks: seq<Segment>, at: nat)
    requires b.Valid() && Waiting(k, lead, chunks, at, 0) && lead.Lost? && at + DataOffset(chunks, 0) < i < b.length
    ensures Advances(RescanStep(k, b, i, b.mem[i], max), b, i, max, lead, chunks, at, 0)
  {
    hide Frames, DataOffset;
  }

  lemma StepWaiting(k: Core, b: Buffer, i: nat, max: int, lead: Lead, chunks: seq<Segment>, at: nat, j: nat)
    requires b.Valid() && Waiting(k, lead, chunks, at, j) && at + DataOffset(chunks, j) < i < b.length
    ensures Advances(Step(k, b, i, max), b, i, max, lead, chunks, at, j)
  {
    hide Frames, DataOffset, RescanStep, HeadStep;
    if j == 0 {
      if lead.Kept? {
        RescanKept(k, b, i, max, chunks, at);
      } else {
        RescanLost(k, b, i, max, lead, chunks, at);
      }
    }
  }

  lemma StepFromData(k: Core, b: Buffer, i: nat, max: int, chunks: seq<Segment>, at: nat, j: nat)
    requires b.Valid() && j < |chunks| && i == at + DataOffset(chunks, j) < b.length
    requires k.state == DataStart(j == 0) && k.contentLength == |chunks[j].data|
    ensures Advances(Step(k, b, i, max), b, i, max, Kept, chunks, at, j)
  {
    hide Frames, DataOffset, RescanStep, HeadStep;
  }

  /** A scan of awaited data is the look. */
  lemma {:induction false} ScanWaiting(k: Core, b: Buffer, i: nat, max: int, lead: Lead, chunks: seq<Segment>,
      at: nat, j: nat)
    requires b.Valid() && Waiting(k, lead, chunks, at, j) && at + DataOffset(chunks, j) < i <= b.length
    ensures var d := at + DataOffset(chunks, j);
      Ended(Scan(k, b, i, max), b, Look(j == 0, lead, |chunks[j].data|, DataOf(b, chunks, at, j), i - d, max - d),
        chunks,
        at, j)
    decreases b.length - i
  {
    hide Frames, Step, Size, NextLead;
    if i < b.length {
      assert !k.state.Error?;
      var d := at + DataOffset(chunks, j);
      assert DataOf(b, chunks, at, j)[i - d] == b.mem[i];
      StepWaiting(k, b, i, max, lead, chunks, at, j);
      var r := Step(k, b, i, max);
      if r.signal.Continue? {
        ScanWaiting(r.core, b, i + 1, max, NextLead(j == 0, lead, |chunks[j].data|, b.mem[i], i - d), chunks, at, j);
      }
    }
  }

  /** A scan that comes to the data is a look at all of it. */
  lemma ScanFromData(k: Core, b: Buffer, i: nat, max: int, chunks: seq<Segment>, at: nat, j: nat)
    requires b.Valid() && j < |chunks| && i == at + DataOffset(chunks, j) < b.length
    requires k.state == DataStart(j == 0) && k.contentLength == |chunks[j].data|
    ensures Ended(Scan(k, b, i, max), b, Look(j == 0, Kept, |chunks[j].data|, DataOf(b, chunks, at, j), 0, max - i),
      chunks, at, j)
  {
    hide Frames, DataOffset, Step, Waiting;
    StepFromData(k, b, i, max, chunks, at, j);
    assert DataOf(b, chunks, at, j)[0] == b.mem[i];
    var r := Step(k, b, i, max);
    if r.signal.Continue? {
      ScanWaiting(r.core, b, i + 1, max, Kept, chunks, at, j);
    }
  }

  lemma AtData(k: Core, chunks: seq<Segment>, j: nat, q: int)
    requires j <= |chunks| && InLine(k, chunks, j, q) && k.state.DataStart?
    ensures j < |chunks| && q == DataOffset(chunks, j) && k.state == DataStart(j == 0)
      && k.contentLength == |chunks[j].data|
  {
    hide Frames;
  }

  const FINAL_CHUNK := Token(Body, true, false, 0, 0)

  /** The buffer holds the stream from `at` on. */
  ghost predicate Matches(b: Buffer, at: nat, w: string)
    requires b.Valid()
  {
    forall x :: at <= x < b.length ==> x - at < |w| && b.mem[x] == w[x - at]
  }

  /** What a scan that starts between the data of two chunks ends with: it has run out of input there,
      has come to the end of the body, or has looked at the data of the next chunk. */
  ghost predicate LineOutcome(r: Result, b: Buffer, max: int, chunks: seq<Segment>, at: nat, j: nat)
    requires b.Valid() && j <= |chunks|
  {
    || (r.b == b && r.signal == STOP && r.at == b.length && at <= r.at && InLine(r.core, chunks, j, r.at - at))
    || (r.b == b && j == |chunks| && r.signal == Break(true, true, false) && r.core.token == FINAL_CHUNK
      && r.at == at + Offset(chunks, |chunks|) + 3 <= b.length)
    || (j < |chunks| && at + DataOffset(chunks, j) < b.length
        && Ended(r, b, Look(j == 0, Kept, |chunks[j].data|, DataOf(b, chunks, at, j), 0,
          max - at - DataOffset(chunks, j)), chunks, at, j))
  }

  lemma {:induction false} ScanLine(k: Core, b: Buffer, i: nat, max: int, chunks: seq<Segment>, tail: string, at: nat,
      j: nat)
    requires b.Valid() && at <= i <= b.length && j <= |chunks| && GoodChunks(chunks)
    requires InLine(k, chunks, j, i - at) && Matches(b, at, Stream(chunks, tail))
    ensures LineOutcome(Scan(k, b, i, max), b, max, chunks, at, j)
    decreases b.length - i
  {
    hide Frames, Stream, InLine, ReadChunk, HeadStep, RescanStep, Look, Ended;
    if i < b.length {
      var c := b.mem[i];
      assert i - at < |Stream(chunks, tail)| && c == Stream(chunks, tail)[i - at];
      LineFacts(k, chunks, j, i - at);
      if k.state.DataStart? {
        AtData(k, chunks, j, i - at);
        ScanFromData(k, b, i, max, chunks, at, j);
      } else if k.state.LastChunkLf? {
        EndInStream(chunks, tail);
        var w, q := Stream(chunks, tail), Offset(chunks, j);
        assert w[q..q + 3][2] == w[i - at] == '\n';
      } else {
        LineStep(k, b, i, max, chunks, tail, j, i - at);
        ScanLine(Step(k, b, i, max).core, b, i + 1, max, chunks, tail, at, j);
      }
    }
  }
}

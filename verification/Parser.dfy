/**
  The resumable parser: what one byte does to the parser and the buffer it reads
  (Step), and what one call over a partly filled buffer does (Exec).
 */
module Parser {
  import opened Automaton

  /** The parser's fields that the actions read and write. */
  datatype Core = Core(
    state: State,
    contentLength: nat, contentRemaining: int,
    token: Token,
    limitCount: int, limitMax: int,
    chunked: bool)

  /** What survives between two calls: `done` after the last token of the body, and the sequence
      id of the buffer the parser last ran dry on. */
  datatype Parser = Parser(core: Core, done: bool, sequenceId: int)

  const FRESH_CORE := Core(MethodStart, 0, 0, Token(Method, false, false, 0, 0), 0, 0, false)
  const FRESH_PARSER := Parser(FRESH_CORE, false, 0)

  /** A request buffer. `mem` are the bytes written so far, of which the first `length` are
      current; `capacity` is the size of the allocation. */
  datatype Buffer = Buffer(
    mem: string, capacity: int, length: nat,
    index: nat, afterHeaders: nat, sequenceId: int)
  {
    predicate Valid() { length <= |mem| && afterHeaders <= |mem| }
  }

  /** The 8-bit counter behind the sequence ids wraps around. */
  function NextSequence(id: int): int { if id == 127 then -128 else id + 1 }

  /** memcpy of `s` to position `at`. */
  function Overwrite(mem: string, at: nat, s: string): (r: string)
    requires at <= |mem|
    ensures |r| == if at + |s| < |mem| then |mem| else at + |s|
    ensures r[..at] == mem[..at] && r[at..at + |s|] == s
    ensures forall i :: at + |s| <= i < |r| ==> r[i] == mem[i]
  {
    mem[..at] + s + (if at + |s| < |mem| then mem[at + |s|..] else "")
  }

  /** Appends bytes to the current ones. */
  function Append(b: Buffer, bytes: string): (r: Buffer)
    requires b.Valid()
    ensures r.Valid() && r.length == b.length + |bytes|
    ensures r.mem[..r.length] == b.mem[..b.length] + bytes
    ensures r == b.(mem := r.mem, length := r.length)
  {
    var r := b.(mem := Overwrite(b.mem, b.length, bytes), length := b.length + |bytes|);
    assert r.mem[..r.length] == r.mem[..b.length] + r.mem[b.length..r.length];
    r
  }

  /** Appends what was read and marks the buffer as new. */
  function Receive(b: Buffer, bytes: string): (r: Buffer)
    requires b.Valid()
    ensures r.Valid() && r.length == b.length + |bytes|
    ensures r.mem[..r.length] == b.mem[..b.length] + bytes
  {
    Append(b, bytes).(sequenceId := NextSequence(b.sequenceId))
  }

  function Limit(kind: TokenKind): int {
    match kind
    case Method => 32
    case Target => 1024
    case Version => 16
    case HeaderKey => 256
    case HeaderValue => 4096
    case _ => 0
  }

  // --- actions of the head ---

  function RunDigit(k: Core, c: char): Core {
    k.(contentLength := k.contentLength * 10 + DigitValue(c))
  }

  function RunEnter(k: Core, kind: TokenKind, i: nat): Core {
    k.(token := Token(kind, false, false, k.token.len, i), limitCount := 0, limitMax := Limit(kind))
  }

  /** The fields after the actions that precede the limit check. */
  function Prepare(k: Core, m: Move, i: nat, c: char): Core
    requires m.Go?
  {
    var k0 := k.(state := m.to);
    var k1 := if m.digit then RunDigit(k0, c) else k0;
    var k2 := if m.coding then k1.(chunked := true) else k1;
    var k3 := if m.enter.None? then k2 else RunEnter(k2, m.enter, i);
    if m.count then k3.(limitCount := k3.limitCount + 1) else k3
  }

  predicate Trips(k: Core, m: Move)
    requires m.Go?
  {
    m.count && k.limitCount > k.limitMax
  }

  /** How the body of a request is delimited, decided at the end of its head. */
  datatype Framing = Chunked | NoBody | Large | Small

  function DecideFraming(chunked: bool, contentLength: int, afterHeaders: int, max: int): Framing {
    if chunked then Chunked
    else if contentLength == 0 then NoBody
    else if contentLength > max - afterHeaders then Large
    else Small
  }

  function FinishCore(k: Core, i: nat, max: int): Core {
    var q := k.(contentRemaining := k.contentLength, token := Token(HeadersDone, false, false, 0, 0));
    match DecideFraming(k.chunked, k.contentLength, i + 1, max)
    case Chunked => q.(token := q.token.(bit2 := true), state := SizeStart(true))
    case NoBody => q.(token := q.token.(bit1 := true))
    case Large => q.(token := q.token.(bit2 := true), state := LargeStart)
    case Small => q.(state := SmallStart)
  }

  function FinishBuffer(k: Core, b: Buffer, i: nat, max: int): Buffer {
    var b' := b.(afterHeaders := i + 1);
    if DecideFraming(k.chunked, k.contentLength, i + 1, max).Small? && k.contentLength + i + 1 > b.capacity
    then b'.(capacity := k.contentLength + i + 1)
    else b'
  }

  /** The loop over the bytes goes on, or an action leaves it (fbreak): with a token ready, with the
      body complete, and with the buffer marked as exhausted. */
  datatype Signal = Continue | Break(ready: bool, done: bool, dry: bool)

  const STOP := Break(false, false, false)
  const READY := Break(true, false, false)

  /** The fields after a head transition. */
  function ApplyMove(k: Core, m: Move, i: nat, c: char, max: int): Core {
    if m.Fail? then k.(state := Error)
    else
      var q := Prepare(k, m, i, c);
      if Trips(q, m) then q
      else if m.emit then q.(token := q.token.(len := i - q.token.index))
      else if m.finish then FinishCore(q, i, max)
      else q
  }

  function MoveSignal(k: Core, m: Move, i: nat, c: char): Signal {
    if m.Fail? || Trips(Prepare(k, m, i, c), m) then STOP
    else if m.emit || m.finish then READY
    else Continue
  }

  /** The state after a transition; `at` is where the next byte is read. */
  datatype Result = Result(core: Core, b: Buffer, at: nat, signal: Signal)

  function HeadStep(k: Core, m: Move, b: Buffer, i: nat, c: char, max: int): (r: Result)
    requires b.Valid() && i < b.length
    ensures r.b.Valid()
  {
    Result(ApplyMove(k, m, i, c, max),
           if m.Go? && m.finish && !m.emit && MoveSignal(k, m, i, c) == READY
           then FinishBuffer(Prepare(k, m, i, c), b, i, max) else b,
           i + 1, MoveSignal(k, m, i, c))
  }

  // --- actions of the bodies ---

  function EnterBody(k: Core, i: nat): Core {
    k.(token := Token(Body, false, false, k.token.len, i))
  }

  function RunChunkSize(k: Core, c: char): Core {
    if 'A' <= c <= 'F' then k.(contentLength := k.contentLength * 16 + (c as int - 55))
    else if 'a' <= c <= 'f' then k.(contentLength := k.contentLength * 16 + (c as int - 87))
    else if IsDigit(c) then k.(contentLength := k.contentLength * 16 + DigitValue(c))
    else k
  }

  function StartChunkSize(k: Core, c: char): Core {
    RunChunkSize(k.(contentLength := 0), c)
  }

  /** What is unread moves to the end of the head, and no byte of the head or of what moves changes. */
  function Compact(b: Buffer, i: nat): (r: Buffer)
    requires b.Valid() && i <= b.length
    ensures r.Valid()
    ensures r.length == b.afterHeaders + (b.length - i) && r.mem[b.afterHeaders..r.length] == b.mem[i..b.length]
    ensures r.mem[..b.afterHeaders] == b.mem[..b.afterHeaders]
  {
    b.(mem := Overwrite(b.mem, b.afterHeaders, b.mem[i..b.length]), length := b.afterHeaders + b.length - i)
  }

  /** Completes the chunk, moves its data, or leaves the byte at `i` for later. */
  function ReadChunk(k: Core, b: Buffer, i: nat, max: int): (r: Result)
    requires b.Valid() && i < b.length
    ensures r.b.Valid()
    ensures r.signal.Continue? ==> r == Result(k, b, i + 1, Continue)
  {
    if b.length >= k.token.index + k.contentLength - 1 then
      Result(k.(token := k.token.(len := k.contentLength), state := ChunkEndCr),
             b, k.token.index + k.contentLength, READY)
    else if i + k.contentLength > max then
      Result(k.(token := k.token.(index := b.afterHeaders)),
             Compact(b, i), b.afterHeaders, Break(false, false, true))
    else
      Result(k, b, i + 1, Continue)
  }

  function EndStream(k: Core, b: Buffer, i: nat): Result {
    Result(k.(token := Token(Body, true, false, 0, 0)), b, i + 1, Break(true, true, false))
  }

  function ReadSmall(k: Core, b: Buffer): Result {
    var complete := b.length >= b.afterHeaders + k.contentLength - 1;
    Result(k.(token := k.token.(index := b.afterHeaders, len := k.contentLength, bit2 := true)),
           b, b.length, Break(complete, complete, false))
  }

  function ReadLarge(k: Core, b: Buffer, i: nat): Result {
    if b.length >= b.afterHeaders + k.contentRemaining - 1 then
      Result(k.(token := k.token.(index := b.afterHeaders, bit1 := true, bit2 := false, len := k.contentRemaining),
                contentRemaining := 0),
             b, i, Break(true, true, false))
    else
      Result(k.(token := k.token.(index := b.afterHeaders, len := b.length - i),
                contentRemaining := k.contentRemaining - (b.length - i)),
             b.(length := b.afterHeaders), b.afterHeaders, Break(true, false, true))
  }

  function Pass(k: Core, to: State, b: Buffer, i: nat): Result { Result(k.(state := to), b, i + 1, Continue) }

  function FailStep(k: Core, b: Buffer, i: nat): Result { Result(k.(state := Error), b, i + 1, STOP) }

  function RescanTarget(at: Reread, c: char): Reread {
    if at.First? || at.Zeros? then
      (if c == '0' then Zeros else if at.Zeros? && c == '\r' then ZerosCr else Text)
    else if c == '\n' && at.TextCr? then TextCrLf
    else if c == '\n' && at.ZeroCr? then ZeroCrLf
    else if c == '\n' && at.ZerosCr? then ZerosCrLf
    else if c == '\r' then (if at.Zero? then ZeroCr else TextCr)
    else if c == '0' then Zero
    else Text
  }

  /** The size actions run on this byte before the attempt to read the chunk. */
  predicate Resized(at: Reread, c: char) { IsHexDigit(c) && !at.First? && !at.Zeros? }

  /** The fields when the attempt to read the chunk is made. */
  function Rescanned(k: Core, i: nat, c: char): Core
    requires k.state.Rescan?
  {
    var q := k.(state := Rescan(RescanTarget(k.state.at, c)));
    var q1 := if Resized(k.state.at, c) then RunChunkSize(q, c) else q;
    if k.state.at.TextCrLf? || k.state.at.ZeroCrLf? then EnterBody(q1, i) else q1
  }

  /** In these states the size actions run on chunk data, around the attempt to read the chunk. */
  function RescanStep(k: Core, b: Buffer, i: nat, c: char, max: int): (r: Result)
    requires k.state.Rescan?
    requires b.Valid() && i < b.length
    ensures r.b.Valid()
    ensures r.signal.Continue? ==> r.b == b && r.at == i + 1 && !r.core.state.Error?
  {
    var at := k.state.at;
    var q := Rescanned(k, i, c);
    var r := ReadChunk(q, b, i, max);
    if r.signal.Break? || c == '0' then r
    else if Resized(at, c) then r.(core := q.(contentLength := 0))
    else if c == '\n' && (at.ZeroCr? || at.ZerosCr?) then EndStream(StartChunkSize(q, c), b, i)
    else r.(core := StartChunkSize(q, c))
  }

  function BodyStep(k: Core, b: Buffer, i: nat, c: char, max: int): (r: Result)
    requires IsBody(k.state)
    requires b.Valid() && i < b.length
    ensures r.b.Valid()
    ensures r.signal.Continue? ==> r.b == b && r.at == i + 1 && !r.core.state.Error?
  {
    match k.state
    case ChunkEndCr => if c == '\r' then Pass(k, ChunkEndLf, b, i) else FailStep(k, b, i)
    case ChunkEndLf => if c == '\n' then Pass(k, SizeStart(false), b, i) else FailStep(k, b, i)
    case SizeStart(first) =>
      if c == '0' then Pass(k, LastChunkCr(first), b, i) else Pass(StartChunkSize(k, c), InSize(first), b, i)
    case InSize(first) =>
      if c == '\r' then Pass(k, SizeEnd(first), b, i)
      else if IsHexDigit(c) then Pass(RunChunkSize(k, c), InSize(first), b, i)
      else FailStep(k, b, i)
    case SizeEnd(first) => if c == '\n' then Pass(k, DataStart(first), b, i) else FailStep(k, b, i)
    case DataStart(first) => ReadChunk(EnterBody(k, i).(state := if first then Rescan(First) else InData), b, i, max)
    case InData => ReadChunk(k, b, i, max)
    case LastChunkCr(first) => if c == '\r' then Pass(k, LastChunkLf(first), b, i) else FailStep(k, b, i)
    case LastChunkLf(first) => if c == '\n' then EndStream(k.(state := StreamEnd(first)), b, i) else FailStep(k, b, i)
    case StreamEnd(first) => FailStep(k, b, i)
    case Rescan(_) => RescanStep(k, b, i, c, max)
    case SmallStart => ReadSmall(EnterBody(k, i).(state := InSmall), b)
    case InSmall => ReadSmall(k, b)
    case LargeStart => ReadLarge(EnterBody(k, i).(state := InLarge), b, i)
    case InLarge => ReadLarge(k, b, i)
  }

  /** The transition on the byte at `i`. */
  function Step(k: Core, b: Buffer, i: nat, max: int): (r: Result)
    requires b.Valid() && i < b.length && !k.state.Error?
    ensures r.b.Valid()
    ensures r.signal.Continue? ==> r.b == b && r.at == i + 1
  {
    var c := b.mem[i];
    if IsBody(k.state) then BodyStep(k, b, i, c, max) else HeadStep(k, HeadMove(k.state, c), b, i, c, max)
  }

  /** Bytes are consumed from `i` until an action leaves the loop or the buffer is exhausted. */
  function Scan(k: Core, b: Buffer, i: nat, max: int): (r: Result)
    requires b.Valid()
    ensures r.b.Valid()
    decreases b.length - i
  {
    if i >= b.length || k.state.Error? then Result(k, b, i, STOP)
    else
      var r := Step(k, b, i, max);
      if r.signal.Break? then r else Scan(r.core, b, i + 1, max)
  }

  datatype Outcome = Outcome(p: Parser, b: Buffer, token: Token)

  /** What a call returns when its scan ended with `r`. */
  function Return(p: Parser, b: Buffer, r: Result): Outcome {
    var b' := r.b.(index := r.at);
    if r.signal.Break? && r.signal.ready then
      Outcome(Parser(r.core, r.signal.done, if r.signal.dry then b.sequenceId else p.sequenceId), b', r.core.token)
    else
      Outcome(Parser(r.core, false, b.sequenceId), b', NO_TOKEN)
  }

  /** One call of the parser: at most one token, or the token of kind None. */
  function Exec(p: Parser, b: Buffer, max: int): (o: Outcome)
    requires b.Valid()
    ensures o.b.Valid()
  {
    if p.done || p.sequenceId == b.sequenceId then Outcome(p, b, NO_TOKEN)
    else Return(p, b, Scan(p.core, b, b.index, max))
  }
}

/**
  The byte automaton of the request parser: its states, the tokens it emits and
  the moves it makes while reading a request head. The states carry names instead
  of the generated numbers; the keyword-prefix states are collapsed into "matched n
  bytes of the keyword".
 */
module Automaton {

  datatype TokenKind =
    | Method | Target | Version | HeaderKey | HeaderValue | HeadersDone | Body | None

  /** `bit1` and `bit2` are the flag bits 0x1 and 0x2. What they mean depends on the kind. */
  datatype Token = Token(kind: TokenKind, bit1: bool, bit2: bool, len: int, index: nat) {
    // on HeadersDone tokens
    predicate NoBody() { bit1 }
    predicate Streamed() { bit2 }
    // on Body tokens
    predicate Final() { bit1 }
    predicate Small() { bit2 }
  }

  const NO_TOKEN := Token(None, false, false, 0, 0)

  /** Header names the grammar singles out. */
  datatype Field = Other | ContentLength | TransferEncoding

  /** How far the second scan of a first chunk has got: what its bytes so far look like to the size line
      automaton that runs over them. */
  datatype Reread = First | Zeros | ZerosCr | ZerosCrLf | Text | TextCr | TextCrLf | Zero | ZeroCr | ZeroCrLf

  datatype State =
    | Error
    // request line
    | MethodStart | InMethod | TargetStart | InTarget | InVersion(n: nat) | RequestLineEnd
    // headers
    | FirstHeader | InKey | Keyword(field: Field, n: nat) | Colon(field: Field) | ValueStart(field: Field)
    | InValue | InDigits | InCoding(n: nat) | ValueEnd | EmptyValue | NextHeader | HeadEnd
    | HeadDone
    // chunked bodies; `first` holds in the copy of the states used before the first chunk
    | ChunkEndCr | ChunkEndLf
    | SizeStart(first: bool) | InSize(first: bool) | SizeEnd(first: bool) | DataStart(first: bool)
    | InData | LastChunkCr(first: bool) | LastChunkLf(first: bool) | StreamEnd(first: bool)
    // states in which the body of a first chunk that was not buffered whole is scanned again
    | Rescan(at: Reread)
    // bodies with a content length
    | SmallStart | InSmall | LargeStart | InLarge

  /** States before the end of the head has been seen. */
  predicate IsHead(s: State) {
    s.MethodStart? || s.InMethod? || s.TargetStart? || s.InTarget? || s.InVersion? || s.RequestLineEnd? ||
    s.FirstHeader? || s.InKey? || s.Keyword? || s.Colon? || s.ValueStart? || s.InValue? || s.InDigits? ||
    s.InCoding? || s.ValueEnd? || s.EmptyValue? || s.NextHeader? || s.HeadEnd?
  }

  /** Bodies are read by states whose actions look at how much of the buffer is filled. */
  predicate IsBody(s: State) {
    s.ChunkEndCr? || s.ChunkEndLf? || s.SizeStart? || s.InSize? || s.SizeEnd? || s.DataStart? || s.InData? ||
    s.LastChunkCr? || s.LastChunkLf? || s.StreamEnd? || s.Rescan? ||
    s.SmallStart? || s.InSmall? || s.LargeStart? || s.InLarge?
  }

  // Character classes

  predicate IsAlpha(c: char) { 'a' <= c <= 'z' || 'A' <= c <= 'Z' }
  predicate IsDigit(c: char) { '0' <= c <= '9' }
  predicate IsHexDigit(c: char) { IsDigit(c) || 'A' <= c <= 'F' || 'a' <= c <= 'f' }
  predicate IsBlank(c: char) { c == ' ' || c == '\t' }

  /** Characters excluded from header names, the colon included. */
  predicate IsSeparator(c: char) {
    c == '\t' || c == ' ' || c == '"' || c == ',' || c == '/' || c == '{' || c == '}' ||
    '(' <= c <= ')' || ':' <= c <= '@' || '[' <= c <= ']'
  }

  function Lower(c: char): char {
    if 'A' <= c <= 'Z' then (c as int + 32) as char else c
  }

  function DigitValue(c: char): nat { if IsDigit(c) then c as int - '0' as int else 0 }

  const VERSION_PREFIX := "HTTP/1."
  const CHUNKED := "chunked"

  function KeywordText(f: Field): string {
    match f
    case Other => ""
    case ContentLength => "content-length"
    case TransferEncoding => "transfer-encoding"
  }

  /** The name a header key starting with `c` may turn out to be. */
  function FirstKeyState(c: char): State {
    if Lower(c) == 'c' then Keyword(ContentLength, 1)
    else if Lower(c) == 't' then Keyword(TransferEncoding, 1)
    else InKey
  }

  /** One transition: the next state and which of the head actions run, in the order
      digit/coding, enter, count, emit, finish. */
  datatype Move =
    | Fail
    | Go(to: State, enter: TokenKind, count: bool, emit: bool, digit: bool, coding: bool, finish: bool)

  function Plain(to: State): Move { Go(to, None, false, false, false, false, false) }
  function Count(to: State): Move { Go(to, None, true, false, false, false, false) }
  function Emit(to: State): Move { Go(to, None, false, true, false, false, false) }
  function Enter(kind: TokenKind, to: State): Move { Go(to, kind, true, false, false, false, false) }

  function KeyMove(c: char, other: State): Move {
    if c == ':' then Emit(Colon(Other)) else if IsSeparator(c) then Fail else Count(other)
  }

  function HeadMove(s: State, c: char): Move
    requires IsHead(s) || s.HeadDone?
  {
    match s
    case MethodStart => if IsAlpha(c) then Enter(Method, InMethod) else Fail
    case InMethod => if c == ' ' then Emit(TargetStart) else if IsAlpha(c) then Count(InMethod) else Fail
    case TargetStart => if c == ' ' then Fail else Enter(Target, InTarget)
    case InTarget => if c == ' ' then Emit(InVersion(0)) else Count(InTarget)
    case InVersion(n) =>
      if n == 0 then (if c == 'H' then Plain(InVersion(1)).(enter := Version) else Fail)
      else if n < 7 then (if c == VERSION_PREFIX[n] then Plain(InVersion(n + 1)) else Fail)
      else if n == 7 then (if c == '0' || c == '1' then Plain(InVersion(8)) else Fail)
      else (if c == '\r' then Emit(RequestLineEnd) else Fail)
    case RequestLineEnd => if c == '\n' then Plain(FirstHeader) else Fail
    case FirstHeader => if IsSeparator(c) then Fail else Enter(HeaderKey, FirstKeyState(c))
    case InKey => KeyMove(c, InKey)
    case Keyword(f, n) =>
      var text := KeywordText(f);
      if n < |text| && Lower(c) == text[n] then Count(Keyword(f, n + 1))
      else if n == |text| && c == ':' then Emit(Colon(f))
      else KeyMove(c, InKey)
    case Colon(f) => if IsBlank(c) then Plain(ValueStart(f)) else Fail
    case ValueStart(f) =>
      if IsBlank(c) then Enter(HeaderValue, ValueStart(f))
      else if c == '\r' then Enter(HeaderValue, EmptyValue).(emit := true)
      else if f.ContentLength? && IsDigit(c) then Enter(HeaderValue, InDigits).(digit := true)
      else if f.TransferEncoding? && c == 'c' then Enter(HeaderValue, InCoding(1))
      else Enter(HeaderValue, InValue)
    case InValue => if c == '\n' then Fail else if c == '\r' then Emit(ValueEnd) else Count(InValue)
    case InDigits =>
      if c == '\n' then Fail else if c == '\r' then Emit(ValueEnd)
      else if IsDigit(c) then Go(InDigits, None, true, false, true, false, false) else Count(InValue)
    case InCoding(n) =>
      if c == '\n' then Fail else if c == '\r' then Emit(ValueEnd)
      else if n < |CHUNKED| && c == CHUNKED[n] then
        (if n + 1 == |CHUNKED| then Count(InValue).(coding := true) else Count(InCoding(n + 1)))
      else Count(InValue)
    case ValueEnd => if c == '\n' then Count(NextHeader) else Fail
    case EmptyValue =>
      if c == '\n' then Count(NextHeader) else if c == '\r' then Emit(ValueEnd) else Count(InValue)
    case NextHeader =>
      if c == '\r' then Enter(HeaderKey, HeadEnd)
      else if IsSeparator(c) then Fail else Enter(HeaderKey, FirstKeyState(c))
    case HeadEnd => if c == '\n' then Go(HeadDone, None, true, false, false, false, true) else KeyMove(c, InKey)
    case HeadDone => KeyMove(c, InKey)
  }
}

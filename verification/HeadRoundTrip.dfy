/**
  Printing a request head and reading it back: the tokens spell exactly what was printed.
 */
module HeadRoundTrip {
  import opened Automaton
  import opened Parser
  import opened Head

  /** A header; `blanks` are the spaces and tabs between the colon and the value. */
  datatype Header = Header(key: string, value: string, blanks: string := " ")
  datatype Request = Request(verb: string, target: string, minor: char, headers: seq<Header>)

  // --- what may be printed ---

  predicate NameChar(c: char) { !IsSeparator(c) }

  predicate ValueChar(c: char) { c != '\r' && c != '\n' }

  predicate GoodKey(s: string) {
    0 < |s| <= 256 && s[0] != '\r' && forall i :: 0 <= i < |s| ==> NameChar(s[i])
  }

  predicate GoodValue(s: string) {
    |s| < 4096 && (s != "" ==> !IsBlank(s[0])) && forall i :: 0 <= i < |s| ==> ValueChar(s[i])
  }

  predicate GoodBlanks(s: string) { s != "" && forall i :: 0 <= i < |s| ==> IsBlank(s[i]) }

  predicate GoodHeader(h: Header) { GoodKey(h.key) && GoodBlanks(h.blanks) && GoodValue(h.value) }

  predicate GoodRequest(r: Request) {
    && 0 < |r.verb| <= 32 && (forall i :: 0 <= i < |r.verb| ==> IsAlpha(r.verb[i]))
    && 0 < |r.target| <= 1024 && (forall i :: 0 <= i < |r.target| ==> r.target[i] != ' ')
    && (r.minor == '0' || r.minor == '1')
    && 0 < |r.headers| && (forall i :: 0 <= i < |r.headers| ==> GoodHeader(r.headers[i]))
  }

  function PrintHeader(h: Header): string { h.key + ":" + h.blanks + h.value + "\r\n" }

  function PrintHeaders(hs: seq<Header>): string {
    if hs == [] then "" else PrintHeaders(hs[..|hs| - 1]) + PrintHeader(hs[|hs| - 1])
  }

  function PrintRequestLine(r: Request): string {
    r.verb + " " + r.target + " " + "HTTP/1." + [r.minor] + "\r\n"
  }

  function PrintRequest(r: Request): string { PrintRequestLine(r) + PrintHeaders(r.headers) + "\r\n" }

  // --- what is read ---

  function MakeToken(kind: TokenKind, index: nat, text: string): Token { Token(kind, false, false, |text|, index) }

  function HeaderTokens(h: Header, at: nat): seq<Token> {
    [MakeToken(HeaderKey, at, h.key), MakeToken(HeaderValue, at + |h.key| + 1 + |h.blanks|, h.value)]
  }

  function HeadersTokens(hs: seq<Header>, at: nat): seq<Token> {
    if hs == [] then []
    else HeadersTokens(hs[..|hs| - 1], at) + HeaderTokens(hs[|hs| - 1], at + |PrintHeaders(hs[..|hs| - 1])|)
  }

  predicate IsKeywordPrefix(f: Field, s: string) {
    |s| <= |KeywordText(f)| && forall i :: 0 <= i < |s| ==> Lower(s[i]) == KeywordText(f)[i]
  }

  /** Which header a key names, the case of its letters ignored. */
  function FieldOf(key: string): Field {
    if |key| == |KeywordText(ContentLength)| && IsKeywordPrefix(ContentLength, key) then ContentLength
    else if |key| == |KeywordText(TransferEncoding)| && IsKeywordPrefix(TransferEncoding, key) then TransferEncoding
    else Other
  }

  predicate AllDigits(s: string) { forall i :: 0 <= i < |s| ==> IsDigit(s[i]) }

  /** `n` extended by the leading digits of `s`. */
  function AppendDigits(n: nat, s: string): nat {
    if s == "" then n
    else if AllDigits(s) then AppendDigits(n, s[..|s| - 1]) * 10 + DigitValue(s[|s| - 1])
    else AppendDigits(n, s[..|s| - 1])
  }

  function LengthAfterHeader(n: nat, h: Header): nat {
    if FieldOf(h.key).ContentLength? then AppendDigits(n, h.value) else n
  }

  /** The content length announced by the headers: the digits of all Content-Length headers in a row. */
  function LengthOf(hs: seq<Header>): nat {
    if hs == [] then 0 else LengthAfterHeader(LengthOf(hs[..|hs| - 1]), hs[|hs| - 1])
  }

  predicate AsksForChunks(h: Header) { FieldOf(h.key).TransferEncoding? && CHUNKED <= h.value }

  predicate IsChunked(hs: seq<Header>) { exists i :: 0 <= i < |hs| && AsksForChunks(hs[i]) }

  // --- reading one header ---

  function KeyState(s: string): (r: State)
    ensures r.Keyword? || r.InKey?
  {
    if IsKeywordPrefix(ContentLength, s) then Keyword(ContentLength, |s|)
    else if IsKeywordPrefix(TransferEncoding, s) then Keyword(TransferEncoding, |s|)
    else InKey
  }

  lemma KeywordPrefixStep(f: Field, s: string, c: char)
    ensures IsKeywordPrefix(f, s + [c]) <==>
            IsKeywordPrefix(f, s) && |s| < |KeywordText(f)| && Lower(c) == KeywordText(f)[|s|]
  {
    forall i | 0 <= i < |s| ensures s[i] == (s + [c])[i] {}
    assert (s + [c])[|s|] == c;
  }

  lemma KeywordsDiffer(s: string)
    requires s != ""
    ensures !(IsKeywordPrefix(ContentLength, s) && IsKeywordPrefix(TransferEncoding, s))
    ensures !IsKeywordPrefix(Other, s)
  {
    assert KeywordText(ContentLength)[0] != KeywordText(TransferEncoding)[0];
  }

  lemma KeyStateStep(s: string, c: char)
    requires s != "" && NameChar(c)
    ensures HeadMove(KeyState(s), c) == Count(KeyState(s + [c]))
  {
    hide IsKeywordPrefix;
    KeywordsDiffer(s);
    KeywordPrefixStep(ContentLength, s, c);
    KeywordPrefixStep(TransferEncoding, s, c);
  }

  /** The fold over a string ending in `x`, when the move on its last byte is `m`. */
  lemma FoldBy(s: string, x: string, m: Move, max: int)
    requires x != "" && IsHead(Fold(s + x[..|x| - 1], max).k.state)
    requires m == HeadMove(Fold(s + x[..|x| - 1], max).k.state, x[|x| - 1])
    ensures var n := |x| - 1;
      && Fold(s + x, max) == AdvanceBy(Fold(s + x[..n], max), m, |s| + n, x[n], max)
      && (WithinLimits(s + x, max) <==>
            WithinLimits(s + x[..n], max) && Fold(s + x, max).k.limitCount <= Fold(s + x, max).k.limitMax)
  {
    hide HeadMove, AdvanceBy;
    assert (s + x)[..|s + x| - 1] == s + x[..|x| - 1];
  }

  /** The run `r` after entering a token of kind `kind` at `at` and counting `n` of its bytes. */
  function Entered(r: HeadRun, to: State, kind: TokenKind, at: nat, n: int): HeadRun {
    HeadRun(r.k.(state := to, token := Token(kind, false, false, r.k.token.len, at),
                 limitCount := n, limitMax := Limit(kind)), r.tokens, 0)
  }

  lemma Counted(r: HeadRun, to: State, kind: TokenKind, at: nat, n: nat, m: Move, i: nat, c: char, max: int)
    requires n < Limit(kind) && m.Go? && m == Count(m.to) && IsHead(m.to)
    ensures AdvanceBy(Entered(r, to, kind, at, n), m, i, c, max) == Entered(r, m.to, kind, at, n + 1)
  {
  }

  lemma FirstCounted(r: HeadRun, kind: TokenKind, m: Move, i: nat, c: char, max: int)
    requires 0 < Limit(kind) && !kind.None? && m.Go? && m == Enter(kind, m.to) && IsHead(m.to)
    ensures AdvanceBy(r, m, i, c, max) == Entered(r, m.to, kind, i, 1)
  {
  }

  predicate AtKey(s: State) { s.FirstHeader? || s.NextHeader? }

  lemma FirstKeyMove(s: State, c: char)
    requires AtKey(s) && NameChar(c) && c != '\r'
    ensures HeadMove(s, c) == Enter(HeaderKey, KeyState([c]))
  {
    assert [c][0] == c;
    assert IsKeywordPrefix(ContentLength, [c]) <==> Lower(c) == 'c';
    assert IsKeywordPrefix(TransferEncoding, [c]) <==> Lower(c) == 't';
  }

  lemma {:induction false} ReadKey(s: string, key: string, n: nat, max: int)
    requires AtKey(Fold(s, max).k.state) && GoodKey(key) && 0 < n <= |key|
    ensures Fold(s + key[..n], max) == Entered(Fold(s, max), KeyState(key[..n]), HeaderKey, |s|, n)
    ensures WithinLimits(s, max) ==> WithinLimits(s + key[..n], max)
  {
    hide HeadMove, AdvanceBy, KeyState;
    var x := key[..n];
    var y := key[..n - 1];
    var c := key[n - 1];
    assert x[..n - 1] == y && x == y + [c];
    if n == 1 {
      assert s + y == s;
      var m := Enter(HeaderKey, KeyState(x));
      FirstKeyMove(Fold(s, max).k.state, c);
      FoldBy(s, x, m, max);
      FirstCounted(Fold(s, max), HeaderKey, m, |s|, c, max);
    } else {
      ReadKey(s, key, n - 1, max);
      KeyStateStep(y, c);
      var m := Count(KeyState(x));
      FoldBy(s, x, m, max);
      Counted(Fold(s, max), KeyState(y), HeaderKey, |s|, n - 1, m, |s| + n - 1, c, max);
    }
  }

  function ValueState(f: Field, s: string): State {
    if f.ContentLength? && AllDigits(s) then InDigits
    else if f.TransferEncoding? && |s| < |CHUNKED| && s <= CHUNKED then InCoding(|s|)
    else InValue
  }

  /** The effect of a header value on the parser's fields. */
  function ValueRead(r: HeadRun, f: Field, s: string): HeadRun {
    r.(k := r.k.(contentLength := if f.ContentLength? then AppendDigits(r.k.contentLength, s) else r.k.contentLength,
                 chunked := r.k.chunked || (f.TransferEncoding? && CHUNKED <= s)))
  }

  lemma AllDigitsStep(s: string, c: char)
    ensures AllDigits(s + [c]) <==> AllDigits(s) && IsDigit(c)
  {
    forall i | 0 <= i < |s| ensures s[i] == (s + [c])[i] {}
    assert (s + [c])[|s|] == c;
  }

  lemma ChunkedStep(s: string, c: char)
    ensures s + [c] <= CHUNKED <==> s <= CHUNKED && |s| < |CHUNKED| && c == CHUNKED[|s|]
    ensures CHUNKED <= s + [c] <==> CHUNKED <= s || s + [c] == CHUNKED
  {
    assert (s + [c])[..|s|] == s;
  }

  /** The move on the byte of a value that follows `s`. */
  function ValueMove(f: Field, s: string, c: char): Move {
    Go(ValueState(f, s + [c]), if s == "" then HeaderValue else None, true, false,
       f.ContentLength? && AllDigits(s + [c]), f.TransferEncoding? && s + [c] == CHUNKED, false)
  }

  lemma ValueStateStep(f: Field, s: string, c: char)
    requires ValueChar(c) && (s == "" ==> !IsBlank(c))
    ensures HeadMove(if s == "" then ValueStart(f) else ValueState(f, s), c) == ValueMove(f, s, c)
  {
    AllDigitsStep(s, c);
    ChunkedStep(s, c);
  }

  lemma AppendDigitsStep(n: nat, s: string, c: char)
    ensures AppendDigits(n, s + [c]) ==
      if AllDigits(s + [c]) then AppendDigits(n, s) * 10 + DigitValue(c) else AppendDigits(n, s)
  {
    assert (s + [c])[..|s + [c]| - 1] == s;
  }

  lemma ValueCounted(r: HeadRun, f: Field, s: string, at: nat, c: char, max: int)
    requires |s| < 4096
    ensures var r0 := if s == "" then r else ValueRead(Entered(r, ValueState(f, s), HeaderValue, at, |s|), f, s);
      AdvanceBy(r0, ValueMove(f, s, c), at + |s|, c, max)
        == ValueRead(Entered(r, ValueState(f, s + [c]), HeaderValue, at, |s| + 1), f, s + [c])
  {
    var x := s + [c];
    ChunkedStep(s, c);
    AllDigitsStep(s, c);
    AppendDigitsStep(r.k.contentLength, s, c);
  }

  lemma {:induction false} ReadValue(s: string, f: Field, value: string, n: nat, max: int)
    requires Fold(s, max).k.state == ValueStart(f) && GoodValue(value) && 0 < n <= |value|
    ensures Fold(s + value[..n], max) ==
      ValueRead(Entered(Fold(s, max), ValueState(f, value[..n]), HeaderValue, |s|, n), f, value[..n])
    ensures WithinLimits(s, max) ==> WithinLimits(s + value[..n], max)
  {
    hide HeadMove, AdvanceBy, ValueMove, AllDigits, AppendDigits;
    var x := value[..n];
    var y := value[..n - 1];
    assert x[..n - 1] == y && x == y + [value[n - 1]];
    if n == 1 {
      assert s + y == s;
    } else {
      ReadValue(s, f, value, n - 1, max);
    }
    ValueStateStep(f, y, value[n - 1]);
    FoldBy(s, x, ValueMove(f, y, value[n - 1]), max);
    ValueCounted(Fold(s, max), f, y, |s|, value[n - 1], max);
  }

  /** One more byte, by the move `m`. */
  lemma FoldChar(s: string, c: char, m: Move, max: int)
    requires IsHead(Fold(s, max).k.state) && m == HeadMove(Fold(s, max).k.state, c)
    ensures Fold(s + [c], max) == AdvanceBy(Fold(s, max), m, |s|, c, max)
    ensures WithinLimits(s + [c], max) <==>
      WithinLimits(s, max) && Fold(s + [c], max).k.limitCount <= Fold(s + [c], max).k.limitMax
  {
    hide HeadMove, AdvanceBy;
    assert s + [c][..0] == s;
    FoldBy(s, [c], m, max);
  }

  lemma ColonMove(key: string)
    requires key != ""
    ensures HeadMove(KeyState(key), ':') == Emit(Colon(FieldOf(key)))
  {
    KeywordsDiffer(key);
  }

  /** The run `r` one header part later: same fields but for those given. */
  ghost predicate Continues(r: HeadRun, r': HeadRun, tokens: seq<Token>, to: State, length: nat, chunked: bool) {
    r'.end == 0 && r'.tokens == r.tokens + tokens && r'.k.state == to &&
    r'.k.contentLength == length && r'.k.chunked == chunked
  }

  lemma ReadName(s: string, key: string, max: int)
    requires AtKey(Fold(s, max).k.state) && GoodKey(key)
    ensures var r := Fold(s, max);
      Continues(r, Fold(s + key + ":", max), [MakeToken(HeaderKey, |s|, key)],
                Colon(FieldOf(key)), r.k.contentLength, r.k.chunked)
    ensures WithinLimits(s, max) ==> WithinLimits(s + key + ":", max)
  {
    hide Fold, WithinLimits, HeadMove, KeyState, FieldOf;
    assert key[..|key|] == key;
    ReadKey(s, key, |key|, max);
    ColonMove(key);
    FoldChar(s + key, ':', Emit(Colon(FieldOf(key))), max);
  }

  lemma BlankMoves(f: Field, c: char)
    requires IsBlank(c)
    ensures HeadMove(Colon(f), c) == Plain(ValueStart(f))
    ensures HeadMove(ValueStart(f), c) == Enter(HeaderValue, ValueStart(f))
  {
  }

  /** However many blanks there are, the value starts behind the last one. */
  lemma {:induction false} ReadBlanks(s: string, f: Field, blanks: string, n: nat, max: int)
    requires Fold(s, max).k.state == Colon(f) && GoodBlanks(blanks) && 0 < n <= |blanks|
    ensures var r := Fold(s, max);
      Continues(r, Fold(s + blanks[..n], max), [], ValueStart(f), r.k.contentLength, r.k.chunked)
    ensures WithinLimits(s, max) ==> WithinLimits(s + blanks[..n], max)
  {
    hide HeadMove, AdvanceBy, Fold, WithinLimits;
    var x := blanks[..n];
    assert x[..n - 1] == blanks[..n - 1];
    BlankMoves(f, blanks[n - 1]);
    if n == 1 {
      assert s + x[..0] == s && s[..|s|] == s;
      if WithinLimits(s, max) {
        WithinLimitsAt(s, |s|, max);
      }
      FoldBy(s, x, Plain(ValueStart(f)), max);
      Skipped(Fold(s, max), f, |s|, x[0], max);
    } else {
      ReadBlanks(s, f, blanks, n - 1, max);
      FoldBy(s, x, Enter(HeaderValue, ValueStart(f)), max);
      FirstCounted(Fold(s + x[..n - 1], max), HeaderValue, Enter(HeaderValue, ValueStart(f)), |s|
        + n - 1, x[n - 1], max);
    }
  }

  lemma Skipped(r: HeadRun, f: Field, i: nat, c: char, max: int)
    requires r.k.state == Colon(f)
    ensures var r' := AdvanceBy(r, Plain(ValueStart(f)), i, c, max);
      && Continues(r, r', [], ValueStart(f), r.k.contentLength, r.k.chunked)
      && r'.k.limitCount == r.k.limitCount && r'.k.limitMax == r.k.limitMax
  {
    assert r.tokens + [] == r.tokens;
  }

  /** The move at the end of a value. */
  function EndMove(value: string): Move {
    if value == "" then Go(EmptyValue, HeaderValue, true, true, false, false, false) else Emit(ValueEnd)
  }

  lemma EndMoves(f: Field, value: string)
    ensures HeadMove(if value == "" then ValueStart(f) else ValueState(f, value), '\r') == EndMove(value)
    ensures HeadMove(EndMove(value).to, '\n') == Count(NextHeader)
  {
  }

  lemma NoDigits(n: nat)
    ensures AppendDigits(n, "") == n
  {
  }

  lemma ReadRest(s: string, f: Field, value: string, max: int)
    requires Fold(s, max).k.state == ValueStart(f) && GoodValue(value)
    ensures var r := Fold(s, max);
      Continues(r, Fold(s + value + "\r\n", max), [MakeToken(HeaderValue, |s|, value)], NextHeader,
                if f.ContentLength? then AppendDigits(r.k.contentLength, value) else r.k.contentLength,
                r.k.chunked || (f.TransferEncoding? && CHUNKED <= value))
    ensures WithinLimits(s, max) ==> WithinLimits(s + value + "\r\n", max)
  {
    hide Fold, WithinLimits, HeadMove, AppendDigits, InOrder, Terminated;
    FoldSound(s, max);
    if value == "" {
      NoDigits(Fold(s, max).k.contentLength);
      assert s + value == s;
    } else {
      assert value[..|value|] == value;
      ReadValue(s, f, value, |value|, max);
    }
    EndMoves(f, value);
    FoldChar(s + value, '\r', EndMove(value), max);
    FoldChar(s + value + "\r", '\n', Count(NextHeader), max);
    assert s + value + "\r" + "\n" == s + value + "\r\n";
  }

  lemma ReadHeader(s: string, h: Header, max: int)
    requires AtKey(Fold(s, max).k.state) && GoodHeader(h)
    ensures var r := Fold(s, max);
      Continues(r, Fold(s + PrintHeader(h), max), HeaderTokens(h, |s|), NextHeader,
                LengthAfterHeader(r.k.contentLength, h), r.k.chunked || AsksForChunks(h))
    ensures WithinLimits(s, max) ==> WithinLimits(s + PrintHeader(h), max)
  {
    hide Fold, WithinLimits, FieldOf, AppendDigits;
    ReadName(s, h.key, max);
    assert h.blanks[..|h.blanks|] == h.blanks;
    ReadBlanks(s + h.key + ":", FieldOf(h.key), h.blanks, |h.blanks|, max);
    ReadRest(s + h.key + ":" + h.blanks, FieldOf(h.key), h.value, max);
    assert s + h.key + ":" + h.blanks + h.value + "\r\n" == s + PrintHeader(h);
  }

  lemma {:induction false} ReadHeaders(s: string, hs: seq<Header>, max: int)
    requires Fold(s, max).k.state.FirstHeader?
    requires Fold(s, max).k.contentLength == 0 && !Fold(s, max).k.chunked
    requires 0 < |hs| && forall i :: 0 <= i < |hs| ==> GoodHeader(hs[i])
    ensures Continues(Fold(s, max), Fold(s + PrintHeaders(hs), max), HeadersTokens(hs, |s|), NextHeader,
                      LengthOf(hs), IsChunked(hs))
    ensures WithinLimits(s, max) ==> WithinLimits(s + PrintHeaders(hs), max)
  {
    hide Fold, WithinLimits, AsksForChunks, LengthAfterHeader, HeaderTokens, PrintHeader, GoodHeader;
    var before := hs[..|hs| - 1];
    var h := hs[|hs| - 1];
    if before == [] {
      assert s + PrintHeaders(before) == s;
    } else {
      ReadHeaders(s, before, max);
    }
    ReadHeader(s + PrintHeaders(before), h, max);
    assert s + PrintHeaders(before) + PrintHeader(h) == s + PrintHeaders(hs);
    assert IsChunked(hs) <==> IsChunked(before) || AsksForChunks(h) by {
      assert forall i :: 0 <= i < |before| ==> before[i] == hs[i];
    }
  }

  // --- the request line ---

  lemma {:induction false} ReadVerb(verb: string, n: nat, max: int)
    requires 0 < n <= |verb| <= 32 && forall i :: 0 <= i < |verb| ==> IsAlpha(verb[i])
    ensures Fold(verb[..n], max) == Entered(Fold("", max), InMethod, Method, 0, n)
    ensures WithinLimits(verb[..n], max)
  {
    hide HeadMove, AdvanceBy;
    var x := verb[..n];
    assert x[..n - 1] == verb[..n - 1] && "" + x == x && "" + x[..n - 1] == x[..n - 1];
    assert WithinLimits("", max);
    if n == 1 {
      VerbMoves(MethodStart, verb[0]);
      FoldBy("", x, Enter(Method, InMethod), max);
      FirstCounted(Fold("", max), Method, Enter(Method, InMethod), 0, verb[0], max);
    } else {
      ReadVerb(verb, n - 1, max);
      VerbMoves(InMethod, verb[n - 1]);
      FoldBy("", x, Count(InMethod), max);
      Counted(Fold("", max), InMethod, Method, 0, n - 1, Count(InMethod), n - 1, verb[n - 1], max);
    }
  }

  lemma VerbMoves(s: State, c: char)
    requires s.MethodStart? || s.InMethod?
    ensures IsAlpha(c) ==> HeadMove(s, c) == if s.MethodStart? then Enter(Method, InMethod) else Count(InMethod)
    ensures s.InMethod? && c == ' ' ==> HeadMove(s, c) == Emit(TargetStart)
  {
  }

  lemma TargetMoves(s: State, c: char)
    requires s.TargetStart? || s.InTarget?
    ensures c != ' ' ==> HeadMove(s, c) == if s.TargetStart? then Enter(Target, InTarget) else Count(InTarget)
    ensures s.InTarget? && c == ' ' ==> HeadMove(s, c) == Emit(InVersion(0))
  {
  }

  lemma {:induction false} ReadTarget(s: string, target: string, n: nat, max: int)
    requires Fold(s, max).k.state.TargetStart?
    requires 0 < n <= |target| <= 1024 && forall i :: 0 <= i < |target| ==> target[i] != ' '
    ensures Fold(s + target[..n], max) == Entered(Fold(s, max), InTarget, Target, |s|, n)
    ensures WithinLimits(s, max) ==> WithinLimits(s + target[..n], max)
  {
    hide HeadMove, AdvanceBy;
    var x := target[..n];
    var c := target[n - 1];
    assert x[..n - 1] == target[..n - 1];
    if n == 1 {
      assert s + x[..0] == s;
      TargetMoves(TargetStart, c);
      FoldBy(s, x, Enter(Target, InTarget), max);
      FirstCounted(Fold(s, max), Target, Enter(Target, InTarget), |s|, c, max);
    } else {
      ReadTarget(s, target, n - 1, max);
      TargetMoves(InTarget, c);
      FoldBy(s, x, Count(InTarget), max);
      Counted(Fold(s, max), InTarget, Target, |s|, n - 1, Count(InTarget), |s| + n - 1, c, max);
    }
  }

  function VersionMove(n: nat): Move {
    if n == 0 then Go(InVersion(1), Version, false, false, false, false, false) else Plain(InVersion(n + 1))
  }

  lemma VersionMoves(version: string, n: nat)
    requires version == "HTTP/1.0" || version == "HTTP/1.1"
    ensures n < 8 ==> HeadMove(InVersion(n), version[n]) == VersionMove(n)
    ensures HeadMove(InVersion(8), '\r') == Emit(RequestLineEnd)
    ensures HeadMove(RequestLineEnd, '\n') == Plain(FirstHeader)
  {
  }

  lemma VersionAdvance(r: HeadRun, at: nat, n: nat, i: nat, c: char, max: int)
    requires n == 0 ==> at == i
    ensures AdvanceBy(if n == 0 then r else Entered(r, InVersion(n), Version, at, 0), VersionMove(n), i, c, max)
         == Entered(r, InVersion(n + 1), Version, at, 0)
  {
  }

  lemma {:induction false} ReadVersion(s: string, version: string, n: nat, max: int)
    requires Fold(s, max).k.state == InVersion(0) && (version == "HTTP/1.0" || version == "HTTP/1.1")
    requires 0 < n <= 8
    ensures Fold(s + version[..n], max) == Entered(Fold(s, max), InVersion(n), Version, |s|, 0)
    ensures WithinLimits(s, max) ==> WithinLimits(s + version[..n], max)
  {
    hide HeadMove, AdvanceBy, VersionMove, Fold;
    var x := version[..n];
    assert x[..n - 1] == version[..n - 1];
    if n == 1 {
      assert s + x[..0] == s;
    } else {
      ReadVersion(s, version, n - 1, max);
    }
    VersionMoves(version, n - 1);
    FoldBy(s, x, VersionMove(n - 1), max);
    VersionAdvance(Fold(s, max), |s|, n - 1, |s| + n - 1, version[n - 1], max);
  }

  function VersionText(r: Request): string { "HTTP/1." + [r.minor] }

  function RequestLineTokens(r: Request): seq<Token> {
    [MakeToken(Method, 0, r.verb), MakeToken(Target, |r.verb| + 1, r.target),
     MakeToken(Version, |r.verb| + |r.target| + 2, VersionText(r))]
  }

  lemma ReadMethod(verb: string, max: int)
    requires 0 < |verb| <= 32 && forall i :: 0 <= i < |verb| ==> IsAlpha(verb[i])
    ensures Continues(Fold("", max), Fold(verb + " ", max), [MakeToken(Method, 0, verb)], TargetStart, 0, false)
    ensures WithinLimits(verb + " ", max)
  {
    hide HeadMove, WithinLimits;
    assert verb[..|verb|] == verb;
    ReadVerb(verb, |verb|, max);
    VerbMoves(InMethod, ' ');
    FoldChar(verb, ' ', Emit(TargetStart), max);
  }

  lemma ReadTargetPart(s: string, target: string, max: int)
    requires Fold(s, max).k.state.TargetStart?
    requires 0 < |target| <= 1024 && forall i :: 0 <= i < |target| ==> target[i] != ' '
    ensures var r := Fold(s, max);
      Continues(r, Fold(s + target + " ", max), [MakeToken(Target, |s|, target)], InVersion(0),
                r.k.contentLength, r.k.chunked)
    ensures WithinLimits(s, max) ==> WithinLimits(s + target + " ", max)
  {
    hide Fold, HeadMove, WithinLimits;
    assert target[..|target|] == target;
    ReadTarget(s, target, |target|, max);
    TargetMoves(InTarget, ' ');
    FoldChar(s + target, ' ', Emit(InVersion(0)), max);
  }

  lemma ReadVersionPart(s: string, version: string, max: int)
    requires Fold(s, max).k.state == InVersion(0) && (version == "HTTP/1.0" || version == "HTTP/1.1")
    ensures var r := Fold(s, max);
      Continues(r, Fold(s + version + "\r\n", max), [MakeToken(Version, |s|, version)], FirstHeader,
                r.k.contentLength, r.k.chunked)
    ensures WithinLimits(s, max) ==> WithinLimits(s + version + "\r\n", max)
  {
    hide Fold, HeadMove, WithinLimits;
    assert version[..8] == version;
    ReadVersion(s, version, 8, max);
    VersionMoves(version, 8);
    FoldChar(s + version, '\r', Emit(RequestLineEnd), max);
    FoldChar(s + version + "\r", '\n', Plain(FirstHeader), max);
    assert s + version + "\r" + "\n" == s + version + "\r\n";
  }

  lemma ReadRequestLine(r: Request, max: int)
    requires GoodRequest(r)
    ensures Continues(Fold("", max), Fold(PrintRequestLine(r), max), RequestLineTokens(r), FirstHeader, 0, false)
    ensures WithinLimits(PrintRequestLine(r), max)
  {
    hide Fold, WithinLimits;
    var version := VersionText(r);
    assert version == "HTTP/1.0" || version == "HTTP/1.1";
    ReadMethod(r.verb, max);
    var s1 := r.verb + " ";
    ReadTargetPart(s1, r.target, max);
    var s2 := s1 + r.target + " ";
    ReadVersionPart(s2, version, max);
    assert s2 + version + "\r\n" == PrintRequestLine(r);
  }

  // --- the whole head ---

  const FINISH := Go(HeadDone, None, true, false, false, false, true)

  lemma FinishMoves()
    ensures HeadMove(NextHeader, '\r') == Enter(HeaderKey, HeadEnd)
    ensures HeadMove(HeadEnd, '\n') == FINISH
  {
  }

  /** The token that ends a head whose body is framed so. */
  function DoneToken(f: Framing): Token { Token(HeadersDone, f.NoBody?, f.Chunked? || f.Large?, 0, 0) }

  function BodyState(f: Framing): State {
    match f
    case Chunked => SizeStart(true)
    case NoBody => HeadDone
    case Large => LargeStart
    case Small => SmallStart
  }

  /** A header block, read after the request line, gives back its names and values in order. */
  lemma ReadHeaderBlock(s: string, hs: seq<Header>, max: int)
    requires Fold(s, max).k.state.FirstHeader?
    requires Fold(s, max).k.contentLength == 0 && !Fold(s, max).k.chunked
    requires 0 < |hs| && forall i :: 0 <= i < |hs| ==> GoodHeader(hs[i])
    ensures var block := PrintHeaders(hs) + "\r\n"; var r := Fold(s + block, max);
      var f := DecideFraming(IsChunked(hs), LengthOf(hs), |s + block|, max);
      && r.tokens == Fold(s, max).tokens + HeadersTokens(hs, |s|) + [DoneToken(f)]
      && r.end == |s + block| && r.k.state == BodyState(f)
      && r.k.contentLength == LengthOf(hs) == r.k.contentRemaining && r.k.chunked == IsChunked(hs)
    ensures WithinLimits(s, max) ==> WithinLimits(s + (PrintHeaders(hs) + "\r\n"), max)
  {
    hide Fold, WithinLimits, HeadMove, LengthOf, IsChunked, HeadersTokens, PrintHeaders, GoodHeader;
    var s1 := s + PrintHeaders(hs);
    ReadHeaders(s, hs, max);
    FinishMoves();
    FoldChar(s1, '\r', Enter(HeaderKey, HeadEnd), max);
    FoldChar(s1 + "\r", '\n', FINISH, max);
    assert s1 + "\r" + "\n" == s + (PrintHeaders(hs) + "\r\n");
  }

  function RequestTokens(r: Request): seq<Token> {
    RequestLineTokens(r) + HeadersTokens(r.headers, |PrintRequestLine(r)|)
  }

  function FramingOf(r: Request, max: int): Framing {
    DecideFraming(IsChunked(r.headers), LengthOf(r.headers), |PrintRequest(r)|, max)
  }

  /** Reading a printed head gives its tokens, the token that ends it, and the body framing. */
  lemma RequestReadsBack(r: Request, max: int)
    requires GoodRequest(r)
    ensures var run := Fold(PrintRequest(r), max);
      && run.tokens == RequestTokens(r) + [DoneToken(FramingOf(r, max))]
      && run.end == |PrintRequest(r)| && run.k.state == BodyState(FramingOf(r, max))
      && run.k.contentLength == LengthOf(r.headers) == run.k.contentRemaining
      && run.k.chunked == IsChunked(r.headers)
    ensures WithinLimits(PrintRequest(r), max)
  {
    hide WithinLimits, HeadMove, Advance, LengthOf, IsChunked, HeadersTokens, PrintHeaders, GoodHeader;
    ReadRequestLine(r, max);
    ReadHeaderBlock(PrintRequestLine(r), r.headers, max);
    assert PrintRequestLine(r) + (PrintHeaders(r.headers) + "\r\n") == PrintRequest(r);
    assert Fold("", max).tokens == [];
    assert [] + RequestLineTokens(r) == RequestLineTokens(r);
  }

  // --- the tokens spell the request ---

  function TextOf(s: string, t: Token): string
    requires 0 <= t.len && TokenEnd(t) <= |s|
  {
    s[t.index..TokenEnd(t)]
  }

  function HeaderTexts(hs: seq<Header>): seq<string> {
    if hs == [] then [] else HeaderTexts(hs[..|hs| - 1]) + [hs[|hs| - 1].key, hs[|hs| - 1].value]
  }

  function RequestTexts(r: Request): seq<string> { [r.verb, r.target, VersionText(r)] + HeaderTexts(r.headers) }

  ghost predicate Spell(s: string, tokens: seq<Token>, texts: seq<string>) {
    |tokens| == |texts| &&
    forall k :: 0 <= k < |tokens| ==>
      0 <= tokens[k].len && TokenEnd(tokens[k]) <= |s| && TextOf(s, tokens[k]) == texts[k]
  }

  lemma SpellMore(s: string, s': string, tokens: seq<Token>, texts: seq<string>, tokens': seq<Token>,
      texts': seq<string>)
    requires Spell(s, tokens, texts) && s <= s' && Spell(s', tokens', texts')
    ensures Spell(s', tokens + tokens', texts + texts')
  {
    forall k | 0 <= k < |tokens| ensures TextOf(s', tokens[k]) == texts[k] {
      var t := tokens[k];
      assert s'[..|s|][t.index..TokenEnd(t)] == s'[t.index..TokenEnd(t)];
    }
  }

  lemma SpellAlso(s: string, s': string, tokens: seq<Token>, texts: seq<string>)
    requires Spell(s, tokens, texts) && s <= s'
    ensures Spell(s', tokens, texts)
  {
    SpellMore(s, s', tokens, texts, [], []);
    assert tokens + [] == tokens && texts + [] == texts;
  }

  lemma HeaderSpells(s: string, h: Header)
    ensures Spell(s + PrintHeader(h), HeaderTokens(h, |s|), [h.key, h.value])
  {
    var key, value := HeaderTokens(h, |s|)[0], HeaderTokens(h, |s|)[1];
    assert TextOf(s + PrintHeader(h), key) == h.key;
    assert TextOf(s + PrintHeader(h), value) == h.value;
  }

  lemma {:induction false} HeadersSpell(s: string, hs: seq<Header>)
    ensures Spell(s + PrintHeaders(hs), HeadersTokens(hs, |s|), HeaderTexts(hs))
  {
    hide PrintHeader, HeaderTokens;
    if hs != [] {
      var before := hs[..|hs| - 1];
      var h := hs[|hs| - 1];
      var s1 := s + PrintHeaders(before);
      HeadersSpell(s, before);
      HeaderSpells(s1, h);
      assert s + PrintHeaders(hs) == s1 + PrintHeader(h);
      SpellMore(s1, s + PrintHeaders(hs), HeadersTokens(before, |s|), HeaderTexts(before),
                HeaderTokens(h, |s1|), [h.key, h.value]);
    }
  }

  /** Round trip: the head tokens spell method, target, version and every header, in order. */
  lemma TokensSpellRequest(r: Request)
    ensures Spell(PrintRequest(r), RequestTokens(r), RequestTexts(r))
  {
    var line := PrintRequestLine(r);
    var tokens := RequestLineTokens(r);
    assert TextOf(line, tokens[0]) == r.verb;
    assert TextOf(line, tokens[1]) == r.target;
    assert TextOf(line, tokens[2]) == VersionText(r);
    assert Spell(line, tokens, [r.verb, r.target, VersionText(r)]);
    HeadersSpell(line, r.headers);
    SpellMore(line, line + PrintHeaders(r.headers), tokens, [r.verb, r.target, VersionText(r)],
              HeadersTokens(r.headers, |line|), HeaderTexts(r.headers));
    SpellMore(line + PrintHeaders(r.headers), PrintRequest(r), RequestTokens(r), RequestTexts(r), [], []);
    assert RequestTokens(r) + [] == RequestTokens(r) && RequestTexts(r) + [] == RequestTexts(r);
  }
}

/**
  What user code can ask of a token array: token strings, header lookup, header iteration and the
  keep-alive decision, as functions of the array and of the memory the tokens point into.
 */
module Accessors {
  import opened Automaton
  import opened Head
  import opened HeadShape

  /** A string inside the request buffer, or the null string. */
  datatype HttpString = Null | Slice(index: nat, len: int)

  function StringOf(t: Token): HttpString { Slice(t.index, t.len) }

  // --- the shape of the token array of a complete head ---

  /** `n` headers, between the three tokens of the request line and the end of the head. */
  ghost predicate HeadArray(tokens: seq<Token>, n: nat) {
    && 4 + 2 * n <= |tokens|
    && tokens[0].kind.Method? && tokens[1].kind.Target? && tokens[2].kind.Version?
    && (forall i :: 0 <= i < n ==> tokens[3 + 2 * i].kind.HeaderKey? && tokens[4 + 2 * i].kind.HeaderValue?)
    && tokens[3 + 2 * n].kind.HeadersDone?
  }

  ghost predicate Headers(tokens: seq<Token>, n: nat) {
    forall i :: 0 <= i < n && 4 + 2 * i < |tokens|
      ==> tokens[3 + 2 * i].kind.HeaderKey? && tokens[4 + 2 * i].kind.HeaderValue?
  }

  ghost predicate RequestLine(tokens: seq<Token>) {
    && (|tokens| > 0 ==> tokens[0].kind.Method?) && (|tokens| > 1 ==> tokens[1].kind.Target?)
    && (|tokens| > 2 ==> tokens[2].kind.Version?)
  }

  /** What the recognizer's state says about the tokens seen. */
  lemma {:induction false} RecognizedTokens(tokens: seq<Token>) returns (n: nat)
    ensures match Recognize(tokens)
      case WantMethod => tokens == [] && n == 0
      case WantTarget => |tokens| == 1 && RequestLine(tokens) && n == 0
      case WantVersion => |tokens| == 2 && RequestLine(tokens) && n == 0
      case WantKey(some) => |tokens| == 3 + 2 * n && RequestLine(tokens) && Headers(tokens, n) && (some <==> n > 0)
      case WantValue => |tokens| == 4 + 2 * n && RequestLine(tokens) && Headers(tokens, n)
        && tokens[3 + 2 * n].kind.HeaderKey?
      case Complete => |tokens| == 4 + 2 * n && HeadArray(tokens, n) && n > 0
      case Broken => true
  {
    n := 0;
    if tokens != [] {
      var before := tokens[..|tokens| - 1];
      n := RecognizedTokens(before);
      forall i | 0 <= i < |before| ensures tokens[i] == before[i] {}
      if Recognize(before).WantValue? && Recognize(tokens) == WantKey(true) {
        n := n + 1;
      }
    }
  }

  /** A well-shaped head is a head array with at least one header. */
  lemma WellShapedHeads(tokens: seq<Token>) returns (n: nat)
    requires WellShaped(tokens)
    ensures HeadArray(tokens, n) && n > 0 && |tokens| == 4 + 2 * n
  {
    n := RecognizedTokens(tokens);
  }

  // --- accessors ---

  function FirstOf(tokens: seq<Token>, kind: TokenKind): HttpString {
    if tokens == [] then Null
    else if tokens[0].kind == kind then StringOf(tokens[0])
    else FirstOf(tokens[1..], kind)
  }

  /** The token array is not emptied between the requests of a connection: an accessor finds the token an
      earlier request left, if there is one. */
  lemma {:induction false} EarlierRequestsComeFirst(earlier: seq<Token>, tokens: seq<Token>, kind: TokenKind)
    ensures FirstOf(earlier + tokens, kind)
      == if FirstOf(earlier, kind).Null? then FirstOf(tokens, kind) else FirstOf(earlier, kind)
    ensures FirstOf(earlier, kind).Null? <==> forall i :: 0 <= i < |earlier| ==> earlier[i].kind != kind
  {
    if earlier == [] {
      assert earlier + tokens == tokens;
    } else {
      assert (earlier + tokens)[1..] == earlier[1..] + tokens;
      EarlierRequestsComeFirst(earlier[1..], tokens, kind);
      if earlier[0].kind != kind {
        forall i | 1 <= i < |earlier| ensures earlier[i] == earlier[1..][i - 1] {}
        forall i | 0 <= i < |earlier| - 1 ensures earlier[1..][i] == earlier[i + 1] {}
      }
    }
  }

  /** So it answers for the present request if and only if no earlier one left a token of the kind, or that
      token has the same index and length. */
  lemma AnswersForThePresent(earlier: seq<Token>, tokens: seq<Token>, kind: TokenKind)
    ensures FirstOf(earlier + tokens, kind) == FirstOf(tokens, kind) <==>
      FirstOf(earlier, kind).Null? || FirstOf(earlier, kind) == FirstOf(tokens, kind)
  {
    EarlierRequestsComeFirst(earlier, tokens, kind);
  }

  /** The string of the last token. */
  function LastOf(tokens: seq<Token>): HttpString { if tokens == [] then Null else StringOf(tokens[|tokens| - 1]) }

  /** The bytes of the present buffer that a string stands for. */
  function StringText(mem: string, str: HttpString): string {
    if str.Slice? && 0 <= str.len && str.index + str.len <= |mem| then mem[str.index..str.index + str.len] else ""
  }

  // --- header lookup ---

  /** The two cases of one letter. */
  predicate BothCases(upper: char, lower: char) { 'A' <= upper <= 'Z' && lower as int == upper as int + 32 }

  /** Characters that count as the same are the same, or the two cases of one letter. */
  lemma SameLetter(a: string, b: string)
    ensures SameIgnoringCase(a, b) <==>
      |a| == |b| && forall i :: 0 <= i < |a| ==> a[i] == b[i] || BothCases(a[i], b[i]) || BothCases(b[i], a[i])
  {
    forall i | 0 <= i < |a| && |a| == |b|
      ensures Lower(a[i]) == Lower(b[i]) <==> a[i] == b[i] || BothCases(a[i], b[i]) || BothCases(b[i], a[i])
    {
    }
  }

  predicate SameIgnoringCase(a: string, b: string) {
    |a| == |b| && forall i :: 0 <= i < |a| ==> Lower(a[i]) == Lower(b[i])
  }

  /** The token lies in the buffer. */
  predicate InMemory(t: Token, mem: string) { 0 <= t.len && TokenEnd(t) <= |mem| }

  predicate NamedBy(t: Token, mem: string, key: string)
    requires InMemory(t, mem)
  {
    SameIgnoringCase(mem[t.index..TokenEnd(t)], key)
  }

  /** Every header name has a token after it, and both lie in the buffer. */
  ghost predicate Searchable(tokens: seq<Token>, mem: string) {
    forall i :: 0 <= i < |tokens| && tokens[i].kind.HeaderKey? ==>
      InMemory(tokens[i], mem) && i + 1 < |tokens| && InMemory(tokens[i + 1], mem)
  }

  ghost predicate Names(tokens: seq<Token>, mem: string, key: string, i: nat)
    requires Searchable(tokens, mem)
  {
    i < |tokens| && tokens[i].kind.HeaderKey? && NamedBy(tokens[i], mem, key)
  }

  ghost predicate NamesFirst(tokens: seq<Token>, mem: string, key: string, i: nat)
    requires Searchable(tokens, mem)
  {
    Names(tokens, mem, key, i) && forall j: nat :: j < i ==> !Names(tokens, mem, key, j)
  }

  /** What lookup finds: the value after the first header name that is `key`, or null. */
  function ValueOf(tokens: seq<Token>, mem: string, key: string): HttpString {
    if |tokens| < 2 then Null
    else if tokens[0].kind.HeaderKey? && InMemory(tokens[0], mem) && NamedBy(tokens[0], mem, key)
      then StringOf(tokens[1])
    else ValueOf(tokens[1..], mem, key)
  }

  /** Nothing before `i` is such a name. */
  lemma {:induction false} ValueIsLater(tokens: seq<Token>, mem: string, key: string, i: nat)
    requires Searchable(tokens, mem) && i <= |tokens| && forall j: nat :: j < i ==> !Names(tokens, mem, key, j)
    ensures ValueOf(tokens, mem, key) == ValueOf(tokens[i..], mem, key)
  {
    if i > 0 {
      ValueIsLater(tokens, mem, key, i - 1);
      assert !Names(tokens, mem, key, i - 1);
      assert tokens[i - 1..][1..] == tokens[i..];
      assert |tokens[i - 1..]| < 2 ==> |tokens[i..]| < 2;
    }
  }

  lemma ValueAfterName(tokens: seq<Token>, mem: string, key: string, i: nat)
    requires Searchable(tokens, mem)
    ensures NamesFirst(tokens, mem, key, i) ==> ValueOf(tokens, mem, key) == StringOf(tokens[i + 1])
    ensures i == |tokens| && (forall j: nat :: !Names(tokens, mem, key, j)) ==> ValueOf(tokens, mem, key).Null?
  {
    if NamesFirst(tokens, mem, key, i) {
      ValueIsLater(tokens, mem, key, i);
      assert tokens[i..][0] == tokens[i] && tokens[i..][1] == tokens[i + 1];
    } else if i == |tokens| && forall j: nat :: !Names(tokens, mem, key, j) {
      ValueIsLater(tokens, mem, key, i);
    }
  }

  /** In the tokens of the first request that is the first of the n pairs with the name. */
  lemma FirstRequestNames(tokens: seq<Token>, mem: string, key: string, n: nat, i: nat)
    requires HeadArray(tokens, n) && Searchable(tokens, mem)
    requires forall j :: 4 + 2 * n <= j < |tokens| ==> !tokens[j].kind.HeaderKey?
    ensures NamesFirst(tokens, mem, key, i) <==>
      exists k ::
        && 0 <= k < n && i == 3 + 2 * k && NamedBy(tokens[3 + 2 * k], mem, key)
        && forall j :: 0 <= j < k ==> !NamedBy(tokens[3 + 2 * j], mem, key)
  {
    forall j: nat | Names(tokens, mem, key, j)
      ensures 3 <= j < 3 + 2 * n && j == 3 + 2 * ((j - 3) / 2)
    {
      HeaderKeysOnly(tokens, n, j);
    }
    forall j | 0 <= j < n
      ensures Names(tokens, mem, key, 3 + 2 * j) <==> NamedBy(tokens[3 + 2 * j], mem, key)
    {
    }
    if NamesFirst(tokens, mem, key, i) {
      var k := (i - 3) / 2;
      assert i == 3 + 2 * k;
      forall j | 0 <= j < k ensures !NamedBy(tokens[3 + 2 * j], mem, key) {
        assert !Names(tokens, mem, key, 3 + 2 * j);
      }
    }
  }

  lemma HeaderKeysOnly(tokens: seq<Token>, n: nat, i: nat)
    requires HeadArray(tokens, n) && i < |tokens| && tokens[i].kind.HeaderKey?
    requires forall j :: 4 + 2 * n <= j < |tokens| ==> !tokens[j].kind.HeaderKey?
    ensures 3 <= i < 3 + 2 * n && (i - 3) % 2 == 0
  {
    if 3 <= i < 3 + 2 * n && (i - 3) % 2 == 1 {
      ValuesAreBetween(tokens, n, i);
    }
  }

  lemma ValuesAreBetween(tokens: seq<Token>, n: nat, i: nat)
    requires HeadArray(tokens, n) && 3 <= i < 3 + 2 * n && (i - 3) % 2 == 1
    ensures tokens[i].kind.HeaderValue?
  {
    assert tokens[4 + 2 * ((i - 4) / 2)].kind.HeaderValue?;
  }

  function Pairs(tokens: seq<Token>, n: nat): seq<(HttpString, HttpString)>
    requires 3 + 2 * n <= |tokens|
  {
    seq(n, i requires 0 <= i < n => (StringOf(tokens[3 + 2 * i]), StringOf(tokens[4 + 2 * i])))
  }

  // --- the keep-alive decision ---

  /** The C code reads the last byte of the version, and the tokens of every header. */
  ghost predicate Detectable(tokens: seq<Token>, mem: string) {
    && Searchable(tokens, mem)
    && var version := FirstOf(tokens, Version);
       version.Slice? ==> version.len > 0 && version.index + version.len <= |mem|
  }

  /** The version ends with a 1. */
  predicate IsVersion1(mem: string, version: HttpString) {
    var text := StringText(mem, version);
    text != "" && text[|text| - 1] == '1'
  }

  /** What the request asks for: not to be kept if its Connection header says close, or if there is none, or an
      empty one, and the version is 1.0. Without a version the decision stays. */
  predicate KeepsAlive(tokens: seq<Token>, mem: string, keepAlive: bool) {
    var version := FirstOf(tokens, Version);
    var value := ValueOf(tokens, mem, "Connection");
    if version.Null? then keepAlive
    else if value.Null? || value.len == 0 then IsVersion1(mem, version)
    else !SameIgnoringCase(StringText(mem, value), "close")
  }
}

/**
  Whether a connection outlives a response: what a request asks for, and that a directive of user code
  goes before it.
 */
module KeepAlive {
  import opened Automaton
  import opened HeadRoundTrip
  import opened Accessors

  // --- what a printed request asks for ---

  predicate IsConnection(h: Header) { SameIgnoringCase(h.key, "Connection") }

  /** The place of the first header that is called so. */
  function FirstConnection(hs: seq<Header>): (k: nat)
    ensures k <= |hs| && (k < |hs| ==> IsConnection(hs[k])) && forall j :: 0 <= j < k ==> !IsConnection(hs[j])
  {
    if hs == [] then 0
    else if IsConnection(hs[0]) then 0
    else
      var k := 1 + FirstConnection(hs[1..]);
      assert forall j :: 0 < j <= k && j < |hs| ==> hs[j] == hs[1..][j - 1];
      k
  }

  /** Its value, or nothing. */
  function ConnectionOf(hs: seq<Header>): string {
    var k := FirstConnection(hs);
    if k < |hs| then hs[k].value else ""
  }

  /** What the request asks for. */
  predicate AsksToBeKept(r: Request) {
    var value := ConnectionOf(r.headers);
    if value == "" then r.minor == '1' else !SameIgnoringCase(value, "close")
  }

  /** The tokens of a header list, and what they spell, header by header. */
  lemma {:induction false} HeaderAt(hs: seq<Header>, at: nat, k: nat)
    requires k < |hs|
    ensures |HeadersTokens(hs, at)| == |HeaderTexts(hs)| == 2 * |hs|
    ensures var tokens, texts := HeadersTokens(hs, at), HeaderTexts(hs);
      && tokens[2 * k].kind.HeaderKey? && tokens[2 * k + 1].kind.HeaderValue?
      && texts[2 * k] == hs[k].key && texts[2 * k + 1] == hs[k].value
  {
    var n := |hs| - 1;
    if n > 0 {
      HeaderAt(hs[..n], at, if k < n then k else 0);
    }
  }

  /** The token array of a printed request, and whatever its body has added. */
  function ArrayOf(r: Request, done: Token, more: seq<Token>): seq<Token> { RequestTokens(r) + [done] + more }

  ghost predicate OnlyBody(done: Token, more: seq<Token>) {
    done.kind.HeadersDone? && forall k :: 0 <= k < |more| ==> !more[k].kind.HeaderKey?
  }

  lemma FiledHead(r: Request, done: Token, more: seq<Token>, mem: string)
    requires OnlyBody(done, more) && Spell(mem, RequestTokens(r), RequestTexts(r)) && 0 < |r.headers|
    ensures var tokens, n := ArrayOf(r, done, more), |r.headers|;
      && HeadArray(tokens, n) && (forall j :: 4 + 2 * n <= j < |tokens| ==> !tokens[j].kind.HeaderKey?)
      && forall k :: 0 <= k < n ==>
           && InMemory(tokens[3 + 2 * k], mem) && InMemory(tokens[4 + 2 * k], mem)
           && TextOf(mem, tokens[3 + 2 * k]) == r.headers[k].key && TextOf(mem, tokens[4 + 2 * k]) == r.headers[k].value
  {
    hide HeadersTokens, HeaderTexts;
    var tokens, n := ArrayOf(r, done, more), |r.headers|;
    var at := |PrintRequestLine(r)|;
    HeaderAt(r.headers, at, 0);
    assert tokens[3 + 2 * n] == done;
    forall k | 0 <= k < n
      ensures tokens[3 + 2 * k] == HeadersTokens(r.headers, at)[2 * k] == RequestTokens(r)[3 + 2 * k]
      ensures tokens[4 + 2 * k] == HeadersTokens(r.headers, at)[2 * k + 1] == RequestTokens(r)[4 + 2 * k]
      ensures tokens[3 + 2 * k].kind.HeaderKey? && tokens[4 + 2 * k].kind.HeaderValue?
      ensures RequestTexts(r)[3 + 2 * k] == r.headers[k].key && RequestTexts(r)[4 + 2 * k] == r.headers[k].value
    {
      HeaderAt(r.headers, at, k);
    }
    forall j | 4 + 2 * n <= j < |tokens| ensures !tokens[j].kind.HeaderKey? {
      assert tokens[j] == more[j - 4 - 2 * n];
    }
  }

  /** In the tokens of a first request a header lookup finds what was printed. */
  lemma LookupInRequest(r: Request, done: Token, more: seq<Token>, mem: string)
    requires OnlyBody(done, more) && Spell(mem, RequestTokens(r), RequestTexts(r)) && 0 < |r.headers|
    ensures var tokens := ArrayOf(r, done, more); var value := ValueOf(tokens, mem, "Connection");
      && Searchable(tokens, mem) && StringText(mem, value) == ConnectionOf(r.headers)
      && (value.Slice? ==> value.len == |ConnectionOf(r.headers)|)
  {
    hide RequestTokens, RequestTexts, HeadArray, ValueOf, Spell, ArrayOf, SameIgnoringCase, FirstConnection;
    var tokens, n, k := ArrayOf(r, done, more), |r.headers|, FirstConnection(r.headers);
    FiledHead(r, done, more, mem);
    HeadIsSearchable(tokens, n, mem);
    if k < n {
      FirstRequestNames(tokens, mem, "Connection", n, 3 + 2 * k);
      ValueAfterName(tokens, mem, "Connection", 3 + 2 * k);
    } else {
      NothingIsNamed(tokens, n, mem);
      ValueAfterName(tokens, mem, "Connection", |tokens|);
    }
  }

  lemma HeadIsSearchable(tokens: seq<Token>, n: nat, mem: string)
    requires HeadArray(tokens, n) && forall j :: 4 + 2 * n <= j < |tokens| ==> !tokens[j].kind.HeaderKey?
    requires forall k :: 0 <= k < n ==> InMemory(tokens[3 + 2 * k], mem) && InMemory(tokens[4 + 2 * k], mem)
    ensures Searchable(tokens, mem)
  {
    forall i | 0 <= i < |tokens| && tokens[i].kind.HeaderKey?
      ensures InMemory(tokens[i], mem) && i + 1 < |tokens| && InMemory(tokens[i + 1], mem) {
      HeaderKeysOnly(tokens, n, i);
      assert i == 3 + 2 * ((i - 3) / 2);
    }
  }

  lemma NothingIsNamed(tokens: seq<Token>, n: nat, mem: string)
    requires HeadArray(tokens, n) && forall j :: 4 + 2 * n <= j < |tokens| ==> !tokens[j].kind.HeaderKey?
    requires Searchable(tokens, mem)
    requires forall k :: 0 <= k < n ==> !NamedBy(tokens[3 + 2 * k], mem, "Connection")
    ensures forall i: nat :: !Names(tokens, mem, "Connection", i)
  {
    hide SameIgnoringCase;
    forall i: nat | i < |tokens| && tokens[i].kind.HeaderKey? ensures !NamedBy(tokens[i], mem, "Connection") {
      HeaderKeysOnly(tokens, n, i);
      assert i == 3 + 2 * ((i - 3) / 2);
    }
  }

  /** The decision for a first request is the one its version and its Connection header ask for, whatever its
      body has added to the array. */
  lemma RequestDecides(r: Request, done: Token, more: seq<Token>, mem: string, keepAlive: bool)
    requires OnlyBody(done, more) && Spell(mem, RequestTokens(r), RequestTexts(r)) && 0 < |r.headers|
    ensures var tokens := ArrayOf(r, done, more);
      Detectable(tokens, mem) && KeepsAlive(tokens, mem, keepAlive) == AsksToBeKept(r)
  {
    hide ValueOf, Searchable, ConnectionOf, HeadersTokens, HeaderTexts, SameIgnoringCase, Spell;
    LookupInRequest(r, done, more, mem);
    var tokens := ArrayOf(r, done, more);
    VersionIsThird(tokens);
    assert RequestTokens(r)[2] == tokens[2] && RequestTexts(r)[2] == VersionText(r);
    assert TextOf(mem, tokens[2]) == RequestTexts(r)[2] by { SpelledAt(mem, RequestTokens(r), RequestTexts(r), 2); }
  }

  lemma VersionIsThird(tokens: seq<Token>)
    requires 3 <= |tokens| && tokens[0].kind.Method? && tokens[1].kind.Target? && tokens[2].kind.Version?
    ensures FirstOf(tokens, Version) == StringOf(tokens[2])
  {
    assert tokens[1..][1..] == tokens[2..] && tokens[2..][0] == tokens[2];
    assert FirstOf(tokens, Version) == FirstOf(tokens[1..], Version) == FirstOf(tokens[2..], Version);
  }

  lemma SpelledAt(mem: string, tokens: seq<Token>, texts: seq<string>, k: nat)
    requires Spell(mem, tokens, texts) && k < |tokens|
    ensures |texts| == |tokens| && InMemory(tokens[k], mem) && TextOf(mem, tokens[k]) == texts[k]
  {
  }

  /** A request without a Connection header is decided by the last byte of the version in memory, whatever the
      request said when it was read. */
  lemma MemoryDecides(r: Request, done: Token, more: seq<Token>, minor: char, keepAlive: bool)
    requires GoodRequest(r) && ConnectionOf(r.headers) == "" && OnlyBody(done, more)
    ensures var tokens, mem := ArrayOf(r, done, more), PrintRequest(r.(minor := minor));
      Detectable(tokens, mem) && KeepsAlive(tokens, mem, keepAlive) == (minor == '1')
  {
    hide ConnectionOf, PrintHeaders, HeadersTokens, HeaderTexts, KeepsAlive, Detectable, Spell, GoodHeader;
    var other := r.(minor := minor);
    TokensSpellRequest(other);
    assert RequestTokens(other) == RequestTokens(r);
    RequestDecides(other, done, more, PrintRequest(other), keepAlive);
  }
}

/**
  The accessors user code calls inside its callbacks: token strings, header lookup, header
  iteration and the keep-alive decision.
 */
module RequestUtil {
  import opened Automaton
  import opened Head
  import opened Accessors
  import opened ReadSocket
  import opened RequestObject

  /** The first token of the kind, or null. */
  method GetTokenString(tokens: TokenArray, kind: TokenKind) returns (str: HttpString)
    requires tokens.Valid()
    ensures str == FirstOf(tokens.Contents(), kind)
    ensures str.Null? ==> forall i :: 0 <= i < tokens.size ==> tokens.Contents()[i].kind != kind
    ensures str.Slice? ==>
      exists i ::
        && 0 <= i < tokens.size && tokens.Contents()[i].kind == kind && str == StringOf(tokens.Contents()[i])
        && forall j :: 0 <= j < i ==> tokens.Contents()[j].kind != kind
  {
    var i := 0;
    while i < tokens.size
      invariant 0 <= i <= tokens.size
      invariant forall j :: 0 <= j < i ==> tokens.Contents()[j].kind != kind
      invariant FirstOf(tokens.Contents(), kind) == FirstOf(tokens.Contents()[i..], kind)
    {
      var token := tokens.buf[i];
      assert tokens.Contents()[i..][1..] == tokens.Contents()[i + 1..];
      if token.kind == kind {
        assert tokens.Contents()[i] == token;
        return StringOf(token);
      }
      i := i + 1;
    }
    return Null;
  }

  /** What the chunk callback is about: the last token of the array. */
  method RequestChunk(tokens: TokenArray) returns (str: HttpString)
    requires tokens.Valid() && tokens.size > 0
    ensures str == LastOf(tokens.Contents())
    ensures forall t :: OnTop(Chunk(t), tokens.Contents()) ==> str == StringOf(t)
  {
    return StringOf(tokens.buf[tokens.size - 1]);
  }

  method CaseInsensitiveCmp(a: string, b: string, len: nat) returns (same: bool)
    requires len <= |a| && len <= |b|
    ensures same <==> SameIgnoringCase(a[..len], b[..len])
  {
    var i := 0;
    while i < len
      invariant 0 <= i <= len
      invariant forall j :: 0 <= j < i ==> Lower(a[j]) == Lower(b[j])
    {
      var c1 := if 'A' <= a[i] <= 'Z' then (a[i] as int + 32) as char else a[i];
      var c2 := if 'A' <= b[i] <= 'Z' then (b[i] as int + 32) as char else b[i];
      if c1 != c2 {
        assert Lower(a[..len][i]) != Lower(b[..len][i]);
        return false;
      }
      i := i + 1;
    }
    return true;
  }

  /** The value after the first header name that is `key`, the case of its letters ignored, among all the
      tokens of the connection. */
  method Header(tokens: TokenArray, mem: string, key: string) returns (str: HttpString)
    requires tokens.Valid() && Searchable(tokens.Contents(), mem)
    ensures str == ValueOf(tokens.Contents(), mem, key)
    ensures str.Null? <==> forall i: nat :: !Names(tokens.Contents(), mem, key, i)
    ensures str.Slice? ==>
      exists i: nat :: NamesFirst(tokens.Contents(), mem, key, i) && str == StringOf(tokens.Contents()[i + 1])
  {
    var i := 0;
    ghost var ts := tokens.Contents();
    while i < tokens.size
      invariant 0 <= i <= tokens.size
      invariant forall j: nat :: j < i ==> !Names(ts, mem, key, j)
    {
      var token := tokens.buf[i];
      assert token == ts[i];
      if token.kind.HeaderKey? && token.len == |key| {
        var name := mem[token.index..TokenEnd(token)];
        var same := CaseInsensitiveCmp(name, key, |key|);
        assert name[..|key|] == name && key[..|key|] == key;
        if same {
          assert NamesFirst(ts, mem, key, i) && tokens.buf[i + 1] == ts[i + 1];
          ValueAfterName(ts, mem, key, i);
          return StringOf(tokens.buf[i + 1]);
        }
      }
      i := i + 1;
    }
    ValueAfterName(ts, mem, key, tokens.size);
    return Null;
  }

  /** One step of the iteration: from 0 or from the position the previous step left. */
  method IterateHeaders(tokens: TokenArray, iter: nat, ghost n: nat)
    returns (more: bool, key: HttpString, value: HttpString, iter': nat)
    requires tokens.Valid() && HeadArray(tokens.Contents(), n) && n > 0
    requires iter == 0 || (iter % 2 == 0 && 4 <= iter <= 2 + 2 * n)
    ensures var k := if iter == 0 then 0 else (iter - 2) / 2;
      && iter' == 4 + 2 * k && (more <==> k < n)
      && (more ==> key == StringOf(tokens.Contents()[3 + 2 * k]) && value == StringOf(tokens.Contents()[4 + 2 * k]))
  {
    ghost var ts := tokens.Contents();
    iter', key, value := iter, Null, Null;
    if iter == 0 {
      while iter' < tokens.size
        invariant 0 <= iter' <= 3
      {
        assert tokens.buf[iter'] == ts[iter'];
        if tokens.buf[iter'].kind.HeaderKey? {
          assert ts[3 + 2 * 0].kind.HeaderKey?;
          more, key, value := KeyAndValue(tokens, iter', n);
          iter' := iter' + 1;
          return;
        }
        assert ts[3 + 2 * 0].kind.HeaderKey?;
        iter' := iter' + 1;
      }
      more := false;
    } else {
      iter' := iter' + 1;
      more, key, value := KeyAndValue(tokens, iter', n);
      iter' := iter' + 1;
    }
  }

  method KeyAndValue(tokens: TokenArray, iter: nat, ghost n: nat)
      returns (more: bool, key: HttpString, value: HttpString)
    requires tokens.Valid() && HeadArray(tokens.Contents(), n)
    requires 3 <= iter <= 3 + 2 * n && iter % 2 == 1
    ensures more <==> iter < 3 + 2 * n
    ensures more ==> key == StringOf(tokens.Contents()[iter]) && value == StringOf(tokens.Contents()[iter + 1])
  {
    ghost var ts := tokens.Contents();
    assert iter < 3 + 2 * n ==> ts[3 + 2 * ((iter - 3) / 2)].kind.HeaderKey?;
    var token := tokens.buf[iter];
    assert token == ts[iter];
    if token.kind.HeadersDone? {
      return false, Null, Null;
    }
    assert tokens.buf[iter + 1] == ts[iter + 1];
    return true, StringOf(token), StringOf(tokens.buf[iter + 1]);
  }

  /** Iterating from 0 until there is no more visits every header exactly once, in order. */
  method AllHeaders(tokens: TokenArray, ghost n: nat) returns (pairs: seq<(HttpString, HttpString)>)
    requires tokens.Valid() && HeadArray(tokens.Contents(), n) && n > 0
    ensures pairs == Pairs(tokens.Contents(), n)
  {
    pairs := [];
    var iter, more := 0, true;
    while more
      invariant more ==> |pairs| < n + 1 && iter == (if pairs == [] then 0 else 2 + 2 * |pairs|)
      invariant |pairs| <= n && pairs == Pairs(tokens.Contents(), n)[..|pairs|]
      invariant !more ==> |pairs| == n
      decreases more, n - |pairs|
    {
      var key, value: HttpString;
      more, key, value, iter := IterateHeaders(tokens, iter, n);
      if more {
        assert (key, value) == Pairs(tokens.Contents(), n)[|pairs|];
        pairs := pairs + [(key, value)];
      }
    }
  }

  /** Close if the first Connection header says so, or if there is none (or an empty one) and the version is
      1.0. Without a version the decision is not touched. */
  method DetectKeepAlive(tokens: TokenArray, mem: string, keepAlive: bool) returns (keep: bool)
    requires tokens.Valid() && Detectable(tokens.Contents(), mem)
    ensures keep == KeepsAlive(tokens.Contents(), mem, keepAlive)
    ensures var ts := tokens.Contents(); var version := FirstOf(ts, Version);
      if version.Null? then keep == keepAlive
      else
        var old1 := mem[version.index + version.len - 1] != '1';
        if forall i: nat :: !Names(ts, mem, "Connection", i) then keep == !old1
        else
          exists i: nat ::
            && NamesFirst(ts, mem, "Connection", i)
            && (keep <==> !NamedBy(ts[i + 1], mem, "close") && !(ts[i + 1].len == 0 && old1))
  {
    ghost var ts := tokens.Contents();
    var str := GetTokenString(tokens, Version);
    if str.Null? {
      return keepAlive;
    }
    var version1 := mem[str.index + str.len - 1] == '1';
    str := Header(tokens, mem, "Connection");
    var close := false;
    if str.Slice? && str.len == 5 {
      var value := mem[str.index..str.index + str.len];
      close := CaseInsensitiveCmp(value, "close", 5);
      assert value[..5] == value && "close"[..5] == "close";
    }
    keep := !(close || ((str.Null? || str.len == 0) && !version1));
  }

  const KEEP_ALIVE := 1
  const CLOSE := 0

  /** User code decides: the decision is no longer left to the server. Other directives are ignored. */
  method SetKeepAliveFlag(request: HttpRequest, directive: int)
    modifies request`automatic, request`keepAlive
    ensures directive == KEEP_ALIVE || directive == CLOSE
      ==> !request.automatic && request.keepAlive == (directive == KEEP_ALIVE)
    ensures directive != KEEP_ALIVE && directive != CLOSE ==>
      request.automatic == old(request.automatic) && request.keepAlive == old(request.keepAlive)
  {
    if directive == KEEP_ALIVE {
      request.automatic, request.keepAlive := false, true;
    } else if directive == CLOSE {
      request.automatic, request.keepAlive := false, false;
    }
  }
}

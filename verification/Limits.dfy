/**
  The limits of the tokens: of the heads that are otherwise in order, exactly those are read without reaching
  a limit whose tokens are all short enough.
 */
module Limits {
  import opened Automaton
  import opened Head
  import opened HeadRoundTrip

  /** Names and values in order, of any length. */
  predicate InOrderHeader(h: Header) {
    && h.key != "" && h.key[0] != '\r' && (forall i :: 0 <= i < |h.key| ==> NameChar(h.key[i]))
    && GoodBlanks(h.blanks)
    && (h.value != "" ==> !IsBlank(h.value[0])) && (forall i :: 0 <= i < |h.value| ==> ValueChar(h.value[i]))
  }

  predicate InOrderRequest(r: Request) {
    && r.verb != "" && (forall i :: 0 <= i < |r.verb| ==> IsAlpha(r.verb[i]))
    && r.target != "" && (forall i :: 0 <= i < |r.target| ==> r.target[i] != ' ')
    && (r.minor == '0' || r.minor == '1')
    && r.headers != [] && forall i :: 0 <= i < |r.headers| ==> InOrderHeader(r.headers[i])
  }

  /** The lengths the parser puts up with. */
  predicate ShortHeader(h: Header) { |h.key| <= 256 && |h.value| <= 4095 }

  predicate ShortRequest(r: Request) {
    |r.verb| <= 32 && |r.target| <= 1024 && forall i :: 0 <= i < |r.headers| ==> ShortHeader(r.headers[i])
  }

  lemma ShortIsGood(r: Request)
    requires InOrderRequest(r) && ShortRequest(r)
    ensures GoodRequest(r)
  {
    forall i | 0 <= i < |r.headers| ensures GoodHeader(r.headers[i]) {
      assert InOrderHeader(r.headers[i]) && ShortHeader(r.headers[i]);
    }
  }

  /** What is over a limit stays over it, whatever follows. */
  lemma {:induction false} OverStaysOver(s: string, t: string, max: int)
    requires !WithinLimits(s, max)
    ensures !WithinLimits(s + t, max)
  {
    hide Fold;
    if t == "" {
      assert s + t == s;
    } else {
      OverStaysOver(s, t[..|t| - 1], max);
      assert (s + t)[..|s + t| - 1] == s + t[..|t| - 1];
    }
  }

  lemma OverPrefix(s: string, all: string, max: int)
    requires !WithinLimits(s, max) && s <= all
    ensures !WithinLimits(all, max)
  {
    hide WithinLimits;
    assert s + all[|s|..] == all;
    OverStaysOver(s, all[|s|..], max);
  }

  /** One byte more than the limit is counted. */
  lemma OneTooMany(s: string, m: Move, c: char, max: int)
    requires IsHead(Fold(s, max).k.state) && Fold(s, max).k.limitCount == Fold(s, max).k.limitMax
    requires m == HeadMove(Fold(s, max).k.state, c) && m.Go? && m.count && m.enter.None?
    ensures !WithinLimits(s + [c], max)
  {
    hide HeadMove, Fold, WithinLimits;
    FoldChar(s, c, m, max);
    CountsOn(Fold(s, max), m, |s|, c, max);
  }

  lemma CountsOn(r: HeadRun, m: Move, i: nat, c: char, max: int)
    requires m.Go? && m.count && m.enter.None? && r.k.limitCount == r.k.limitMax
    ensures AdvanceBy(r, m, i, c, max).k.limitCount > AdvanceBy(r, m, i, c, max).k.limitMax
  {
  }

  lemma LongVerb(verb: string, max: int)
    requires |verb| > 32 && forall i :: 0 <= i < |verb| ==> IsAlpha(verb[i])
    ensures !WithinLimits(verb[..33], max)
  {
    hide Fold, HeadMove, WithinLimits;
    assert verb[..32][..32] == verb[..32] && verb[..33] == verb[..32] + [verb[32]];
    ReadVerb(verb[..32], 32, max);
    VerbMoves(InMethod, verb[32]);
    OneTooMany(verb[..32], Count(InMethod), verb[32], max);
  }

  lemma LongTarget(s: string, target: string, max: int)
    requires Fold(s, max).k.state.TargetStart?
    requires |target| > 1024 && forall i :: 0 <= i < |target| ==> target[i] != ' '
    ensures !WithinLimits(s + target[..1025], max)
  {
    hide Fold, HeadMove, WithinLimits;
    assert target[..1024][..1024] == target[..1024];
    assert s + target[..1025] == s + target[..1024] + [target[1024]];
    ReadTarget(s, target[..1024], 1024, max);
    TargetMoves(InTarget, target[1024]);
    OneTooMany(s + target[..1024], Count(InTarget), target[1024], max);
  }

  lemma LongKey(s: string, key: string, max: int)
    requires AtKey(Fold(s, max).k.state) && |key| > 256 && key[0] != '\r'
    requires forall i :: 0 <= i < |key| ==> NameChar(key[i])
    ensures !WithinLimits(s + key[..257], max)
  {
    hide Fold, HeadMove, WithinLimits, KeyState;
    var x := key[..256];
    assert x[..256] == x && s + key[..257] == s + x + [key[256]];
    ReadKey(s, x, 256, max);
    KeyStateStep(x, key[256]);
    OneTooMany(s + x, Count(KeyState(x + [key[256]])), key[256], max);
  }

  lemma LongValue(s: string, f: Field, value: string, max: int)
    requires Fold(s, max).k.state == ValueStart(f) && |value| > 4095 && !IsBlank(value[0])
    requires forall i :: 0 <= i < |value| ==> ValueChar(value[i])
    ensures !WithinLimits(s + value + "\r" + "\n", max)
  {
    hide Fold, HeadMove, WithinLimits, ValueState;
    var x, c := value[..4095], value[4095];
    var y := value[..4096];
    assert x[..4095] == x && y == x + [c] && s + y == s + x + [c];
    ReadValue(s, f, x, 4095, max);
    ValueStateStep(f, x, c);
    InValueStates(f, x);
    FoldChar(s + x, c, ValueMove(f, x, c), max);
    ValueCounted(Fold(s, max), f, x, |s|, c, max);
    InValueStates(f, y);
    if |value| > 4096 {
      var d := value[4096];
      ValueStateStep(f, y, d);
      OneTooMany(s + y, ValueMove(f, y, d), d, max);
      assert s + y + [d] <= s + value + "\r" + "\n";
      OverPrefix(s + y + [d], s + value + "\r" + "\n", max);
    } else {
      assert y == value;
      EndOfLongValue(ValueState(f, y));
      FoldChar(s + y, '\r', Emit(ValueEnd), max);
      EmitKeepsCount(Fold(s + y, max), |s + y|, max);
      OneTooMany(s + y + "\r", Count(NextHeader), '\n', max);
    }
  }

  lemma InValueStates(f: Field, s: string)
    ensures var q := ValueState(f, s); q.InValue? || q.InDigits? || q.InCoding?
  {
  }

  lemma EndOfLongValue(q: State)
    requires q.InValue? || q.InDigits? || q.InCoding?
    ensures IsHead(q) && HeadMove(q, '\r') == Emit(ValueEnd) && HeadMove(ValueEnd, '\n') == Count(NextHeader)
  {
  }

  lemma EmitKeepsCount(r: HeadRun, i: nat, max: int)
    ensures var k := AdvanceBy(r, Emit(ValueEnd), i, '\r', max).k;
      k.state.ValueEnd? && k.limitCount == r.k.limitCount && k.limitMax == r.k.limitMax
  {
  }

  lemma LongHeader(s: string, h: Header, max: int)
    requires AtKey(Fold(s, max).k.state) && InOrderHeader(h) && !ShortHeader(h)
    ensures !WithinLimits(s + PrintHeader(h), max)
  {
    hide Fold, WithinLimits, FieldOf;
    var all := s + PrintHeader(h);
    if |h.key| > 256 {
      LongKey(s, h.key, max);
      OverPrefix(s + h.key[..257], all, max) by {
        assert all == s + h.key[..257] + (h.key[257..] + ":" + h.blanks + h.value + "\r\n");
      }
    } else {
      ReadName(s, h.key, max);
      assert h.blanks[..|h.blanks|] == h.blanks;
      ReadBlanks(s + h.key + ":", FieldOf(h.key), h.blanks, |h.blanks|, max);
      LongValue(s + h.key + ":" + h.blanks, FieldOf(h.key), h.value, max);
      assert s + h.key + ":" + h.blanks + h.value + "\r" + "\n" == all;
    }
  }

  lemma {:induction false} LongHeaders(s: string, hs: seq<Header>, max: int)
    requires Fold(s, max).k.state.FirstHeader? && Fold(s, max).k.contentLength == 0 && !Fold(s, max).k.chunked
    requires forall i :: 0 <= i < |hs| ==> InOrderHeader(hs[i])
    requires exists i :: 0 <= i < |hs| && !ShortHeader(hs[i])
    ensures !WithinLimits(s + PrintHeaders(hs), max)
  {
    hide Fold, WithinLimits, InOrderHeader, ShortHeader, PrintHeader;
    var n := |hs| - 1;
    var before := hs[..n];
    forall i | 0 <= i < n ensures before[i] == hs[i] {}
    assert s + PrintHeaders(before) + PrintHeader(hs[n]) == s + PrintHeaders(hs);
    if i :| 0 <= i < n && !ShortHeader(before[i]) {
      LongHeaders(s, before, max);
      OverStaysOver(s + PrintHeaders(before), PrintHeader(hs[n]), max);
    } else {
      if n == 0 {
        assert s + PrintHeaders(before) == s;
      } else {
        forall i | 0 <= i < n ensures GoodHeader(before[i]) { ShortHeaderIsGood(before[i]); }
        ReadHeaders(s, before, max);
      }
      LongHeader(s + PrintHeaders(before), hs[n], max);
    }
  }

  lemma ShortHeaderIsGood(h: Header)
    requires InOrderHeader(h) && ShortHeader(h)
    ensures GoodHeader(h)
  {
  }

  lemma LongLine(r: Request, max: int)
    requires InOrderRequest(r) && (|r.verb| > 32 || |r.target| > 1024)
    ensures !WithinLimits(PrintRequest(r), max)
  {
    hide Fold, WithinLimits, PrintHeaders;
    var all := PrintRequest(r);
    if |r.verb| > 32 {
      LongVerb(r.verb, max);
      OverPrefix(r.verb[..33], all, max);
    } else {
      ReadMethod(r.verb, max);
      LongTarget(r.verb + " ", r.target, max);
      OverPrefix(r.verb + " " + r.target[..1025], all, max) by {
        assert r.target == r.target[..1025] + r.target[1025..];
      }
    }
  }

  lemma RequestLineOnly(r: Request, max: int)
    requires InOrderRequest(r) && |r.verb| <= 32 && |r.target| <= 1024
    ensures var run := Fold(PrintRequestLine(r), max);
      run.k.state.FirstHeader? && run.k.contentLength == 0 && !run.k.chunked
  {
    hide Fold, WithinLimits;
    ReadRequestLine(r.(headers := [Header("K", "")]), max);
    assert PrintRequestLine(r.(headers := [Header("K", "")])) == PrintRequestLine(r);
  }

  /** Exactly the heads whose method, target, names and values are within 32, 1024, 256 and 4095 bytes are read
      without reaching a limit. */
  lemma WithinLimitsIfShort(r: Request, max: int)
    requires InOrderRequest(r)
    ensures WithinLimits(PrintRequest(r), max) <==> ShortRequest(r)
  {
    hide Fold, WithinLimits, InOrderHeader, ShortHeader, PrintHeaders, PrintRequestLine, GoodRequest;
    if ShortRequest(r) {
      ShortIsGood(r);
      RequestReadsBack(r, max);
    } else if |r.verb| > 32 || |r.target| > 1024 {
      LongLine(r, max);
    } else {
      RequestLineOnly(r, max);
      LongHeaders(PrintRequestLine(r), r.headers, max);
      OverStaysOver(PrintRequestLine(r) + PrintHeaders(r.headers), "\r\n", max);
    }
  }
}

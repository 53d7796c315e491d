/**
  Numbers on the wire. The responder prints lengths in decimal ("%d") and chunk sizes in
  hexadecimal ("%X"); the parser accumulates them digit by digit.
 */
module Digits {
  import opened Automaton
  import opened Parser
  import opened HeadRoundTrip

  function DecimalDigit(d: nat): char
    requires d < 10
  {
    ('0' as int + d) as char
  }

  function PrintDecimal(n: nat): (s: string)
    ensures s != ""
  {
    if n < 10 then [DecimalDigit(n)] else PrintDecimal(n / 10) + [DecimalDigit(n % 10)]
  }

  function HexDigit(d: nat): char
    requires d < 16
  {
    if d < 10 then ('0' as int + d) as char else ('A' as int + d - 10) as char
  }

  function PrintHex(n: nat): (s: string)
    ensures s != ""
  {
    if n < 16 then [HexDigit(n)] else PrintHex(n / 16) + [HexDigit(n % 16)]
  }

  function HexDigitValue(c: char): nat {
    if IsDigit(c) then DigitValue(c)
    else if 'A' <= c <= 'F' then c as int - 55
    else if 'a' <= c <= 'f' then c as int - 87
    else 0
  }

  /** The value the chunk size action accumulates from the digits `s`. */
  function HexValue(s: string): nat {
    if s == "" then 0 else HexValue(s[..|s| - 1]) * 16 + HexDigitValue(s[|s| - 1])
  }

  lemma HexValueMore(s: string, c: char)
    ensures HexValue(s + [c]) == HexValue(s) * 16 + HexDigitValue(c)
  {
    assert (s + [c])[..|s + [c]| - 1] == s;
  }

  /** There are sixteen digits, in either case, and the chunk size action counts each by its place among them. */
  lemma SixteenDigits(k: Core, c: char, d: nat)
    requires d < 16
    ensures c == "0123456789ABCDEF"[d] || c == "0123456789abcdef"[d] ==>
      IsHexDigit(c) && HexDigitValue(c) == d && RunChunkSize(k, c).contentLength == k.contentLength * 16 + d
    ensures IsHexDigit(c) && HexDigitValue(c) == d ==> c == "0123456789ABCDEF"[d] || c == "0123456789abcdef"[d]
  {
  }

  /** What is printed is in upper case. */
  lemma {:induction false} PrintedInUpperCase(n: nat)
    ensures forall i :: 0 <= i < |PrintHex(n)| ==> PrintHex(n)[i] in "0123456789ABCDEF"
  {
    if n >= 16 {
      PrintedInUpperCase(n / 16);
    }
  }

  /** The actions compute HexValue one digit at a time. */
  lemma ChunkSizeDigits(k: Core, s: string, c: char)
    requires IsHexDigit(c)
    ensures s == "" ==> StartChunkSize(k, c) == k.(contentLength := HexValue([c]))
    ensures k.contentLength == HexValue(s) ==> RunChunkSize(k, c) == k.(contentLength := HexValue(s + [c]))
  {
    HexValueMore(s, c);
    HexValueMore("", c);
    assert "" + [c] == [c];
  }

  /** No prefix of the longer text exceeds the number, if none of the shorter one does. */
  lemma PrefixesStayBelow(t: string, c: char, n: nat)
    requires forall i :: 0 <= i <= |t| ==> HexValue(t[..i]) <= n / 16
    requires HexValue(t + [c]) == n
    ensures forall i :: 0 <= i <= |t + [c]| ==> HexValue((t + [c])[..i]) <= n
  {
    hide HexValue;
    var s := t + [c];
    forall i | 0 <= i <= |s| ensures HexValue(s[..i]) <= n {
      if i <= |t| {
        assert s[..i] == t[..i];
      } else {
        assert s[..i] == s;
      }
    }
  }

  /** Decoding undoes printing, and the number is never exceeded on the way. */
  lemma {:induction false} HexRoundTrip(n: nat)
    ensures var s := PrintHex(n);
      && HexValue(s) == n && (n > 0 ==> s[0] != '0')
      && (forall i :: 0 <= i < |s| ==> IsHexDigit(s[i]))
      && (forall i :: 0 <= i <= |s| ==> HexValue(s[..i]) <= n)
  {
    if n < 16 {
      OneDigit(n);
    } else {
      hide HexValue;
      var t, c := PrintHex(n / 16), HexDigit(n % 16);
      HexRoundTrip(n / 16);
      HexValueMore(t, c);
      PrefixesStayBelow(t, c, n);
    }
  }

  lemma OneDigit(n: nat)
    requires n < 16
    ensures var s := PrintHex(n);
      && HexValue(s) == n && (n > 0 ==> s[0] != '0') && IsHexDigit(s[0])
      && |s| == 1 && forall i :: 0 <= i <= |s| ==> HexValue(s[..i]) <= n
  {
    var s := PrintHex(n);
    assert s[..0] == "" && s[..1] == s && HexValue("") == 0;
  }

  /** The same for a printed content length, read by the header automaton. */
  lemma {:induction false} DecimalRoundTrip(n: nat)
    ensures var s := PrintDecimal(n);
      && AppendDigits(0, s) == n && AllDigits(s)
      && (forall i :: 0 <= i <= |s| ==> AppendDigits(0, s[..i]) <= n)
  {
    var s := PrintDecimal(n);
    if n < 10 {
      assert s[..0] == "" && s[..1] == s;
    } else {
      var t := PrintDecimal(n / 10);
      DecimalRoundTrip(n / 10);
      AllDigitsStep(t, DecimalDigit(n % 10));
      AppendDigitsStep(0, t, DecimalDigit(n % 10));
      forall i | 0 <= i <= |s| ensures AppendDigits(0, s[..i]) <= n {
        assert if i <= |t| then s[..i] == t[..i] else s[..i] == s;
      }
    }
  }

  /** Headers with other names do not announce a length. */
  lemma {:induction false} OthersAnnounceNothing(hs: seq<Header>, more: seq<Header>)
    requires forall i :: 0 <= i < |more| ==> !FieldOf(more[i].key).ContentLength?
    ensures LengthOf(hs + more) == LengthOf(hs)
  {
    hide FieldOf;
    if more == [] {
      assert hs + more == hs;
    } else {
      var n := |more| - 1;
      assert (hs + more)[..|hs + more| - 1] == hs + more[..n];
      OthersAnnounceNothing(hs, more[..n]);
    }
  }

  /** Blanks behind the digits change nothing. */
  lemma {:induction false} TrailingBlanks(n: nat, s: string, trail: string)
    requires AllDigits(s) && forall i :: 0 <= i < |trail| ==> IsBlank(trail[i])
    ensures AppendDigits(n, s + trail) == AppendDigits(n, s)
  {
    if trail == "" {
      assert s + trail == s;
    } else {
      var m := |trail| - 1;
      assert (s + trail)[..|s + trail| - 1] == s + trail[..m] && (s + trail)[|s| + m] == trail[m];
      TrailingBlanks(n, s, trail[..m]);
    }
  }

  /** A head with one printed content length, and any other headers around it, announces just that number,
      whatever the case of the letters in the name and however many blanks there are around the digits. */
  lemma AnnouncedLength(before: seq<Header>, key: string, blanks: string, n: nat, trail: string, after: seq<Header>)
    requires FieldOf(key).ContentLength? && forall i :: 0 <= i < |trail| ==> IsBlank(trail[i])
    requires forall i :: 0 <= i < |before| ==> !FieldOf(before[i].key).ContentLength?
    requires forall i :: 0 <= i < |after| ==> !FieldOf(after[i].key).ContentLength?
    ensures LengthOf(before + [Header(key, PrintDecimal(n) + trail, blanks)] + after) == n
  {
    hide FieldOf, PrintDecimal;
    var h := Header(key, PrintDecimal(n) + trail, blanks);
    DecimalRoundTrip(n);
    TrailingBlanks(0, PrintDecimal(n), trail);
    OthersAnnounceNothing([], before);
    assert [] + before == before;
    assert (before + [h])[..|before + [h]| - 1] == before;
    OthersAnnounceNothing(before + [h], after);
  }

  /** A Transfer-Encoding value that starts with the word asks for chunks, whatever follows it. */
  lemma AsksWithBlanks(key: string, blanks: string, trail: string)
    requires FieldOf(key).TransferEncoding?
    ensures AsksForChunks(Header(key, CHUNKED + trail, blanks))
  {
    hide FieldOf;
  }
}

/**
  The growable output buffer behind every response. Copying is exact; printing is exact
  exactly when the piece leaves room for its terminating zero.
 */
module OutputBuffer {
  import opened ReadBuffer

  /** The bytes counted as written so far, and the capacity of the allocation. */
  datatype Out = Out(text: string, capacity: nat)

  /** A piece of output, formatted or copied. */
  datatype Piece = Print(s: string) | Copy(s: string)

  function Doubled(capacity: nat, need: nat): (c: nat)
    requires 0 < capacity
    ensures need <= c && capacity <= c
    decreases need - capacity
  {
    if need <= capacity then capacity else Doubled(2 * capacity, need)
  }

  function Twice(n: nat, k: nat): nat { if k == 0 then n else 2 * Twice(n, k - 1) }

  /** The capacity is doubled as often as necessary, and not once more. */
  lemma {:induction false} DoubledAsNeeded(capacity: nat, need: nat) returns (k: nat)
    requires 0 < capacity
    ensures Doubled(capacity, need) == Twice(capacity, k) && (k > 0 ==> Twice(capacity, k - 1) < need)
    decreases need - capacity
  {
    k := 0;
    if need > capacity {
      var m := DoubledAsNeeded(2 * capacity, need);
      TwiceFirst(capacity, m);
      if m > 0 {
        TwiceFirst(capacity, m - 1);
      }
      k := m + 1;
    }
  }

  lemma {:induction false} TwiceFirst(n: nat, k: nat)
    ensures Twice(2 * n, k) == Twice(n, k + 1)
  {
    if k > 0 {
      TwiceFirst(n, k - 1);
    }
  }

  /** What formatting `s` into `room` bytes leaves in its |s| bytes: the last one is lost if there is
      no room for the terminating zero. */
  function Printed(s: string, room: nat): (r: string)
    requires |s| <= room
    ensures |r| == |s|
  {
    if |s| < room || s == "" then s else s[..|s| - 1] + ['\0']
  }

  /** `junk` is what happens to lie behind a piece that made the buffer grow: the count of the second
      attempt is added to that of the first. */
  function Put(o: Out, p: Piece, junk: string): Out
    requires 0 < o.capacity && |junk| == |p.s|
  {
    var size := |o.text| + |p.s|;
    match p
    case Copy(s) => Out(o.text + s, if size > o.capacity then size else o.capacity)
    case Print(s) =>
      if size > o.capacity then
        var capacity := Doubled(o.capacity, size);
        Out(o.text + Printed(s, capacity - |o.text|) + junk, capacity)
      else Out(o.text + Printed(s, o.capacity - |o.text|), o.capacity)
  }

  /** Printed text is a C string. */
  predicate NoZero(p: Piece) { p.Print? ==> '\0' !in p.s }

  predicate FitsIn(size: nat, capacity: nat, p: Piece) { p.Copy? || p.s == "" || size + |p.s| < capacity }

  /** The exact condition under which a piece is appended as it is. */
  lemma PutIsExact(o: Out, p: Piece, junk: string)
    requires 0 < o.capacity && |o.text| <= o.capacity && |junk| == |p.s| && NoZero(p)
    ensures Put(o, p, junk).text == o.text + p.s <==> FitsIn(|o.text|, o.capacity, p)
    ensures FitsIn(|o.text|, o.capacity, p) ==> |Put(o, p, junk).text| <= Put(o, p, junk).capacity
    ensures o.text <= Put(o, p, junk).text && |o.text| + |p.s| <= |Put(o, p, junk).text|
  {
    if p.Print? && p.s != "" && |o.text| + |p.s| == o.capacity {
      var t := Put(o, p, junk).text;
      assert t[o.capacity - 1] == '\0' && (o.text + p.s)[o.capacity - 1] == p.s[|p.s| - 1];
    }
  }

  // --- sequences of pieces ---

  function Joined(pieces: seq<Piece>): string {
    if pieces == [] then "" else pieces[0].s + Joined(pieces[1..])
  }

  /** Each piece fits when those before it have been written. */
  predicate AllFit(size: nat, capacity: nat, pieces: seq<Piece>)
    decreases |pieces|
  {
    pieces == [] ||
    (var size' := size + |pieces[0].s|;
     FitsIn(size, capacity, pieces[0]) &&
     AllFit(size', if pieces[0].Copy? && size' > capacity then size' else capacity, pieces[1..]))
  }

  predicate JunkFor(pieces: seq<Piece>, junks: seq<string>) {
    |junks| == |pieces| && forall i :: 0 <= i < |pieces| ==> |junks[i]| == |pieces[i].s|
  }

  function Run(o: Out, pieces: seq<Piece>, junks: seq<string>): (r: Out)
    requires 0 < o.capacity && JunkFor(pieces, junks)
    ensures 0 < r.capacity
    decreases |pieces|
  {
    if pieces == [] then o else Run(Put(o, pieces[0], junks[0]), pieces[1..], junks[1..])
  }

  lemma {:induction false} RunKeepsPrefix(o: Out, pieces: seq<Piece>, junks: seq<string>)
    requires 0 < o.capacity && JunkFor(pieces, junks)
    ensures o.text <= Run(o, pieces, junks).text
    ensures |o.text| + |Joined(pieces)| <= |Run(o, pieces, junks).text|
    decreases |pieces|
  {
    if pieces != [] {
      RunKeepsPrefix(Put(o, pieces[0], junks[0]), pieces[1..], junks[1..]);
    }
  }

  /** The output buffer refines concatenation: the contents are the concatenation of the pieces exactly
      when every printed piece fits strictly, and bytes written before are never changed. */
  lemma {:induction false} OutputIsConcatenation(o: Out, pieces: seq<Piece>, junks: seq<string>)
    requires 0 < o.capacity && |o.text| <= o.capacity && JunkFor(pieces, junks)
    requires forall i :: 0 <= i < |pieces| ==> NoZero(pieces[i])
    ensures Run(o, pieces, junks).text == o.text + Joined(pieces) <==> AllFit(|o.text|, o.capacity, pieces)
    ensures AllFit(|o.text|, o.capacity, pieces) ==> |Run(o, pieces, junks).text| <= Run(o, pieces, junks).capacity
    decreases |pieces|
  {
    if pieces == [] {
      assert o.text + "" == o.text;
    } else {
      hide Put, FitsIn, AllFit;
      var p := pieces[0];
      var o1 := Put(o, p, junks[0]);
      var r := Run(o, pieces, junks);
      PutIsExact(o, p, junks[0]);
      RunKeepsPrefix(o1, pieces[1..], junks[1..]);
      assert o.text + p.s + Joined(pieces[1..]) == o.text + Joined(pieces);
      AllFitUnfolds(o, p, junks[0], pieces);
      if FitsIn(|o.text|, o.capacity, p) {
        OutputIsConcatenation(o1, pieces[1..], junks[1..]);
      } else {
        Diverged(o.text + p.s, o1.text, Joined(pieces[1..]), r.text);
      }
    }
  }

  lemma Diverged(prefix: string, written: string, rest: string, text: string)
    requires written != prefix && |prefix| <= |written| && written <= text && |written| + |rest| <= |text|
    ensures text != prefix + rest
  {
    assert (prefix + rest)[..|prefix|] == prefix;
    assert |written| == |prefix| ==> text[..|prefix|] == written;
  }

  lemma AllFitUnfolds(o: Out, p: Piece, junk: string, pieces: seq<Piece>)
    requires 0 < o.capacity && |o.text| <= o.capacity && |junk| == |p.s| && pieces != [] && p == pieces[0]
    ensures AllFit(|o.text|, o.capacity, pieces) <==>
      FitsIn(|o.text|, o.capacity, p) && AllFit(|Put(o, p, junk).text|, Put(o, p, junk).capacity, pieces[1..])
  {
  }

  lemma {:induction false} CopiesFit(size: nat, capacity: nat, pieces: seq<Piece>)
    requires forall i :: 0 <= i < |pieces| ==> pieces[i].Copy?
    ensures AllFit(size, capacity, pieces)
    decreases |pieces|
  {
    if pieces != [] {
      var size' := size + |pieces[0].s|;
      CopiesFit(size', if size' > capacity then size' else capacity, pieces[1..]);
    }
  }

  /** Printed pieces in front fit exactly if together they stay below the capacity. */
  lemma {:induction false} PrintsThen(size: nat, capacity: nat, prints: seq<Piece>, rest: seq<Piece>)
    requires forall i :: 0 <= i < |prints| ==> prints[i].Print? && prints[i].s != ""
    requires size < capacity
    ensures AllFit(size, capacity, prints + rest) <==>
      size + |Joined(prints)| < capacity && AllFit(size + |Joined(prints)|, capacity, rest)
    decreases |prints|
  {
    if prints == [] {
      assert prints + rest == rest;
    } else {
      var all := prints + rest;
      assert all[0] == prints[0] && all[1..] == prints[1..] + rest;
      if size + |prints[0].s| < capacity {
        PrintsThen(size + |prints[0].s|, capacity, prints[1..], rest);
      }
    }
  }

  /** Printed pieces followed by copies fit exactly if the printed ones together stay below the capacity. */
  lemma PrintsFitIfShort(size: nat, capacity: nat, prints: seq<Piece>, copies: seq<Piece>)
    requires forall i :: 0 <= i < |prints| ==> prints[i].Print? && prints[i].s != ""
    requires forall i :: 0 <= i < |copies| ==> copies[i].Copy?
    requires size < capacity
    ensures AllFit(size, capacity, prints + copies) <==> size + |Joined(prints)| < capacity
  {
    PrintsThen(size, capacity, prints, copies);
    CopiesFit(size + |Joined(prints)|, capacity, copies);
  }

  // --- the object ---

  class GrowBuf {
    var buf: array<char>
    var size: nat
    ghost var text: string

    ghost predicate Valid()
      reads this, buf
    {
      0 < buf.Length && |text| == size && forall i :: 0 <= i < size && i < buf.Length ==> buf[i] == text[i]
    }

    ghost function View(): Out
      reads this, buf
    {
      Out(text, buf.Length)
    }

    constructor (capacity: nat, ledger: Ledger)
      requires 0 < capacity
      modifies ledger`memused
      ensures Valid() && fresh(buf) && View() == Out("", capacity)
      ensures ledger.memused == old(ledger.memused) + capacity
    {
      buf := new char[capacity];
      size, text := 0, "";
      new;
      ledger.memused := ledger.memused + capacity;
    }

    /** realloc: a larger allocation with the old bytes in front. */
    method Resize(capacity: nat, ledger: Ledger)
      requires Valid() && size <= buf.Length <= capacity
      modifies this, ledger`memused
      ensures Valid() && fresh(buf) && buf.Length == capacity && size == old(size) && text == old(text)
      ensures forall i :: 0 <= i < old(buf.Length) ==> buf[i] == old(buf[i])
      ensures ledger.memused == old(ledger.memused) - old(buf.Length) + capacity
    {
      ledger.memused := ledger.memused - buf.Length;
      var bigger := new char[capacity];
      forall i | 0 <= i < buf.Length {
        bigger[i] := buf[i];
      }
      buf := bigger;
      ledger.memused := ledger.memused + capacity;
    }

    /** memcpy to the end of the contents, after growing to the exact size if needed. */
    method Memcpy(src: string, ledger: Ledger)
      requires Valid() && size <= buf.Length
      modifies this, buf, ledger`memused
      ensures Valid() && (buf == old(buf) || fresh(buf)) && size <= buf.Length
      ensures View() == Put(old(View()), Copy(src), src)
      ensures ledger.memused - old(ledger.memused) == buf.Length - old(buf.Length)
    {
      if size + |src| > buf.Length {
        Resize(size + |src|, ledger);
      }
      forall i | 0 <= i < |src| {
        buf[size + i] := src[i];
      }
      size := size + |src|;
      text := text + src;
    }

    /** Formats `s` behind the contents: at most the room left is written, a terminating zero included;
        the count returned is that of the whole piece. */
    method Vsnprintf(s: string) returns (bytes: nat)
      requires Valid() && size <= buf.Length
      modifies buf
      ensures bytes == |s|
      ensures Valid()
      ensures size + |s| <= buf.Length ==>
        forall k :: size <= k < size + |s| ==> buf[k] == Printed(s, buf.Length - size)[k - size]
    {
      var room := buf.Length - size;
      if room > 0 {
        var n := if |s| < room then |s| else room - 1;
        forall i | 0 <= i < n {
          buf[size + i] := s[i];
        }
        buf[size + n] := '\0';
        assert |s| <= room ==> forall i :: 0 <= i < |s| ==> Printed(s, room)[i] == if i < n then s[i] else '\0';
      }
      bytes := |s|;
    }

    /** Prints a piece; if it does not fit, the capacity is doubled until it does and the piece is
        printed again, and counted again. */
    method Printf(s: string, ledger: Ledger) returns (ghost junk: string)
      requires Valid() && size <= buf.Length
      modifies this, buf, ledger`memused
      ensures Valid() && (buf == old(buf) || fresh(buf)) && |junk| == |s|
      ensures View() == Put(old(View()), Print(s), junk)
      ensures ledger.memused - old(ledger.memused) == buf.Length - old(buf.Length)
    {
      hide Printed;
      var bytes := Vsnprintf(s);
      junk := s;
      if bytes + size > buf.Length {
        var capacity := buf.Length;
        while bytes + size > capacity
          invariant 0 < buf.Length <= capacity
          invariant Doubled(buf.Length, bytes + size) == Doubled(capacity, bytes + size)
          decreases bytes + size - capacity
        {
          capacity := capacity * 2;
        }
        Resize(capacity, ledger);
        var again := Vsnprintf(s);
        junk := seq(|s|, i requires 0 <= i < |s| reads this, buf =>
          if size + |s| + i < buf.Length then buf[size + |s| + i] else '?');
        text := text + Printed(s, buf.Length - size) + junk;
        size := size + bytes + again;
      } else {
        text := text + Printed(s, buf.Length - size);
        size := size + bytes;
      }
    }
  }
}

/**
  The chunked coding on the wire: what the responder prints for a list of chunks, and how the parser
  reads the lines between the data.
 */
module ChunkStream {
  import opened Automaton
  import opened Parser
  import opened Digits

  // --- the stream ---

  /** A chunk and how its size is spelled: by default as the responder prints it. */
  datatype Segment = Segment(data: string, size: string := PrintHex(|data|))

  /** Any spelling of the size will do, with digits of either case, if it does not start with a zero. */
  predicate GoodSize(c: Segment) {
    && c.size != "" && c.size[0] != '0' && (forall i :: 0 <= i < |c.size| ==> IsHexDigit(c.size[i]))
    && HexValue(c.size) == |c.data|
  }

  lemma PrintedSizeIsGood(data: string)
    ensures data != "" ==> GoodSize(Segment(data))
  {
    HexRoundTrip(|data|);
  }

  /** One chunk on the wire. */
  function Frame(chunk: Segment): string { chunk.size + "\r\n" + chunk.data + "\r\n" }

  /** The data of the chunks. */
  function Datas(chunks: seq<Segment>): seq<string> {
    seq(|chunks|, j requires 0 <= j < |chunks| => chunks[j].data)
  }

  function Frames(chunks: seq<Segment>): string {
    if chunks == [] then "" else Frames(chunks[..|chunks| - 1]) + Frame(chunks[|chunks| - 1])
  }

  const LAST_CHUNK := "0\r\n"

  /** All chunks, the size line of the last chunk, and whatever follows. */
  function Stream(chunks: seq<Segment>, tail: string): string { Frames(chunks) + LAST_CHUNK + tail }

  /** Where frame `j` starts, where its data starts and where its data ends. */
  function Offset(chunks: seq<Segment>, j: nat): nat
    requires j <= |chunks|
  {
    |Frames(chunks[..j])|
  }

  function DataOffset(chunks: seq<Segment>, j: nat): nat
    requires j < |chunks|
  {
    Offset(chunks, j) + |chunks[j].size| + 2
  }

  function DataEnd(chunks: seq<Segment>, j: nat): nat
    requires j < |chunks|
  {
    DataOffset(chunks, j) + |chunks[j].data|
  }

  lemma {:induction false} FramesSplit(chunks: seq<Segment>, j: nat)
    requires j <= |chunks|
    ensures Frames(chunks[..j]) <= Frames(chunks)
    ensures j < |chunks| ==> Frames(chunks[..j]) + Frame(chunks[j]) <= Frames(chunks)
    ensures j < |chunks| ==> Offset(chunks, j + 1) == DataEnd(chunks, j) + 2
  {
    var n := |chunks| - 1;
    if j < |chunks| {
      assert chunks[..j + 1][..j] == chunks[..j];
      assert Frames(chunks[..j + 1]) == Frames(chunks[..j]) + Frame(chunks[j]);
    }
    if j == |chunks| {
      assert chunks[..j] == chunks;
    } else if j == n {
      assert chunks[..j + 1] == chunks;
    } else {
      assert chunks[..n][..j] == chunks[..j];
      FramesSplit(chunks[..n], j);
    }
  }

  lemma FrameInStream(chunks: seq<Segment>, tail: string, j: nat)
    requires j < |chunks|
    ensures var w := Stream(chunks, tail); var at := Offset(chunks, j);
      at + |Frame(chunks[j])| <= |w| && w[at..at + |Frame(chunks[j])|] == Frame(chunks[j])
  {
    hide Frames, Frame;
    FramesSplit(chunks, j);
    var f := Frames(chunks);
    var g := Frames(chunks[..j]) + Frame(chunks[j]);
    assert f[..|g|] == g;
    assert Stream(chunks, tail)[..|g|] == g;
  }

  /** Position `q` lies in the stream and holds `s`. */
  ghost predicate Holds(w: string, q: int, s: string) { 0 <= q && q + |s| <= |w| && w[q..q + |s|] == s }

  lemma HoldsPart(w: string, q: int, a: string, b: string, c: string)
    requires Holds(w, q, a + b + c)
    ensures Holds(w, q + |a|, b)
  {
    var s := a + b + c;
    forall i | 0 <= i < |b| ensures w[q + |a| + i] == b[i] {
      assert w[q..q + |s|][|a| + i] == s[|a| + i];
    }
  }

  lemma FrameParts(chunks: seq<Segment>, tail: string, j: nat)
    requires j < |chunks|
    ensures var w := Stream(chunks, tail); var size := chunks[j].size;
      && Holds(w, Offset(chunks, j), size)
      && Holds(w, Offset(chunks, j) + |size|, "\r\n")
      && Holds(w, DataOffset(chunks, j), chunks[j].data)
      && Holds(w, DataEnd(chunks, j), "\r\n")
  {
    hide Frames, Stream;
    FrameInStream(chunks, tail, j);
    var w, q, size, data := Stream(chunks, tail), Offset(chunks, j), chunks[j].size, chunks[j].data;
    assert Frame(chunks[j]) == "" + size + ("\r\n" + data + "\r\n");
    HoldsPart(w, q, "", size, "\r\n" + data + "\r\n");
    assert Frame(chunks[j]) == size + "\r\n" + (data + "\r\n");
    HoldsPart(w, q, size, "\r\n", data + "\r\n");
    assert Frame(chunks[j]) == (size + "\r\n") + data + "\r\n";
    HoldsPart(w, q, size + "\r\n", data, "\r\n");
    assert Frame(chunks[j]) == (size + "\r\n" + data) + "\r\n" + "";
    HoldsPart(w, q, size + "\r\n" + data, "\r\n", "");
  }

  lemma EndInStream(chunks: seq<Segment>, tail: string)
    ensures Holds(Stream(chunks, tail), Offset(chunks, |chunks|), LAST_CHUNK)
  {
    assert chunks[..|chunks|] == chunks;
  }

  // --- reading size lines ---

  /** The automaton's fields at offset `q` of the stream, when `j` chunks have been read and the data
      of the next has not begun. */
  ghost predicate InLine(k: Core, chunks: seq<Segment>, j: nat, q: int)
    requires j <= |chunks|
  {
    var start := Offset(chunks, j);
    if q == start - 2 then j > 0 && k.state.ChunkEndCr?
    else if q == start - 1 then j > 0 && k.state.ChunkEndLf?
    else if q == start then k.state == SizeStart(j == 0)
    else if j == |chunks| then
      (q == start + 1 && k.state == LastChunkCr(j == 0)) || (q == start + 2 && k.state == LastChunkLf(j == 0))
    else
      var size := chunks[j].size;
      if start < q <= start + |size| then k.state == InSize(j == 0) && k.contentLength == HexValue(size[..q - start])
      else if q == start + |size| + 1 then k.state == SizeEnd(j == 0) && k.contentLength == |chunks[j].data|
      else q == DataOffset(chunks, j) && k.state == DataStart(j == 0) && k.contentLength == |chunks[j].data|
  }

  /** The chunks have data, and their sizes are spelled in some way. */
  predicate GoodChunks(chunks: seq<Segment>) {
    forall j :: 0 <= j < |chunks| ==> chunks[j].data != "" && GoodSize(chunks[j])
  }

  /** Inside a line one byte of the stream leads to the next position. */
  lemma LineStep(k: Core, b: Buffer, i: nat, max: int, chunks: seq<Segment>, tail: string, j: nat, q: int)
    requires b.Valid() && i < b.length && j <= |chunks| && GoodChunks(chunks)
    requires InLine(k, chunks, j, q) && !k.state.DataStart? && !k.state.LastChunkLf?
    requires 0 <= q < |Stream(chunks, tail)| && b.mem[i] == Stream(chunks, tail)[q]
    ensures var r := Step(k, b, i, max); r.signal.Continue? && InLine(r.core, chunks, j, q + 1)
  {
    hide Frames, Stream, HexValue;
    var w := Stream(chunks, tail);
    var start := Offset(chunks, j);
    if q < start {
      FrameParts(chunks, tail, j - 1);
      FramesSplit(chunks, j - 1);
      assert w[start - 2..start][q - (start - 2)] == w[q];
    } else if j == |chunks| {
      EndStep(k, b, i, max, chunks, tail, q);
    } else {
      SizeStep(k, b, i, max, chunks, tail, j, q);
    }
  }

  lemma EndStep(k: Core, b: Buffer, i: nat, max: int, chunks: seq<Segment>, tail: string, q: int)
    requires b.Valid() && i < b.length
    requires InLine(k, chunks, |chunks|, q) && !k.state.LastChunkLf? && Offset(chunks, |chunks|) <= q
    requires 0 <= q < |Stream(chunks, tail)| && b.mem[i] == Stream(chunks, tail)[q]
    ensures var r := Step(k, b, i, max); r.signal.Continue? && InLine(r.core, chunks, |chunks|, q + 1)
  {
    hide Frames, Stream, HexValue;
    var w := Stream(chunks, tail);
    var start := Offset(chunks, |chunks|);
    EndInStream(chunks, tail);
    assert w[start..start + 3][q - start] == w[q];
  }

  lemma SizeStep(k: Core, b: Buffer, i: nat, max: int, chunks: seq<Segment>, tail: string, j: nat, q: int)
    requires b.Valid() && i < b.length && j < |chunks| && GoodSize(chunks[j])
    requires InLine(k, chunks, j, q) && !k.state.DataStart? && Offset(chunks, j) <= q
    requires 0 <= q < |Stream(chunks, tail)| && b.mem[i] == Stream(chunks, tail)[q]
    ensures var r := Step(k, b, i, max); r.signal.Continue? && InLine(r.core, chunks, j, q + 1)
  {
    hide Frames, Stream, HexValue;
    var w := Stream(chunks, tail);
    var start := Offset(chunks, j);
    var size := chunks[j].size;
    var m := |size|;
    FrameParts(chunks, tail, j);
    if q < start + m {
      var d := q - start;
      assert w[start..start + m][d] == w[q] == size[d];
      ChunkSizeDigits(k, size[..d], w[q]);
      assert size[..d] + [w[q]] == size[..d + 1];
      assert d == 0 ==> size[..1] == [w[q]];
    } else {
      assert size[..m] == size;
      assert q - start - m == 0 || q - start - m == 1;
      assert w[q] == "\r\n"[q - start - m];
    }
  }

  lemma LineFacts(k: Core, chunks: seq<Segment>, j: nat, q: int)
    requires j <= |chunks| && InLine(k, chunks, j, q)
    ensures !k.state.Error? && IsBody(k.state)
    ensures k.state.DataStart? ==> j < |chunks| && q == DataOffset(chunks, j)
    ensures k.state.LastChunkLf? ==> j == |chunks| && q == Offset(chunks, j) + 2
    ensures q <= if j < |chunks| then DataOffset(chunks, j) else Offset(chunks, j) + 2
  {
    hide Frames;
  }

  lemma NoFrames()
    ensures |Frames([])| == 0
  {
  }

  // --- bytes that do not belong there ---

  /** Where the coding leaves no choice: the line ends, and the byte behind the zero of the last chunk. */
  function Due(chunks: seq<Segment>, j: nat, q: int): string
    requires j <= |chunks|
  {
    var start := Offset(chunks, j);
    if q == start - 2 then "\r"
    else if q == start - 1 then "\n"
    else if j == |chunks| then (if q == start + 1 then "\r" else if q == start + 2 then "\n" else "")
    else if q == start + |chunks[j].size| + 1 then "\n"
    else ""
  }

  /** A byte that is not the one that is due, and behind the first digit of a size one that is neither a
      hexadecimal digit nor a carriage return, ends in the error state; the others do not. */
  lemma LineErrors(k: Core, b: Buffer, i: nat, max: int, chunks: seq<Segment>, j: nat, q: int)
    requires b.Valid() && i < b.length && j <= |chunks| && InLine(k, chunks, j, q) && !k.state.DataStart?
    requires j < |chunks| ==> chunks[j].size != ""
    ensures var c := b.mem[i]; var failed := Step(k, b, i, max).core.state.Error?;
      if Due(chunks, j, q) != "" then failed <==> [c] != Due(chunks, j, q)
      else if q == Offset(chunks, j) then !failed
      else failed <==> !IsHexDigit(c) && c != '\r'
  {
    hide Frames, HexValue;
  }

  /** A scan that meets such a byte in a size ends there, in the error state. */
  lemma {:induction false} ScanToBadDigit(k: Core, b: Buffer, i: nat, max: int, chunks: seq<Segment>, tail: string,
      at: nat,
      j: nat, n: nat)
    requires b.Valid() && at <= i <= n < b.length && j < |chunks| && GoodChunks(chunks) && InLine(k, chunks, j, i - at)
    requires Offset(chunks, j) < n - at <= Offset(chunks, j) + |chunks[j].size| && n - at < |Stream(chunks, tail)|
    requires forall x :: i <= x < n ==> b.mem[x] == Stream(chunks, tail)[x - at]
    requires !IsHexDigit(b.mem[n]) && b.mem[n] != '\r'
    ensures var r := Scan(k, b, i, max); r.core.state.Error? && r.signal == STOP && r.b == b && r.at == n + 1
    decreases n - i
  {
    hide Frames, Stream, HexValue;
    if i == n {
      LineErrors(k, b, i, max, chunks, j, i - at);
    } else {
      assert !k.state.DataStart? && !k.state.LastChunkLf?;
      LineStep(k, b, i, max, chunks, tail, j, i - at);
      ScanToBadDigit(Step(k, b, i, max).core, b, i + 1, max, chunks, tail, at, j, n);
    }
  }
}

/**
  Filling the request buffer from a socket, with capped doubling of its capacity.
 */
module ReadBuffer {
  import opened Parser
  import opened ParserObject

  /** What successive read calls on a non-blocking socket find; no data is as if the call would block. */
  datatype Arrival = Data(bytes: string) | WouldBlock | Eof

  /** The return value of one read call, the bytes it delivers, and what later calls will find. A call that
      asks for no bytes returns zero. */
  datatype Answer = Answer(n: int, bytes: string, rest: seq<Arrival>)

  function ReadOnce(incoming: seq<Arrival>, count: nat): (a: Answer)
    ensures a.n > 0 ==> a.n == |a.bytes| <= count
    ensures a.n <= 0 ==> a.bytes == ""
  {
    if count == 0 then Answer(0, "", incoming)
    else if incoming == [] then Answer(-1, "", [])
    else match incoming[0]
      case WouldBlock => Answer(-1, "", incoming[1..])
      case Eof => Answer(0, "", incoming)
      case Data(bytes) =>
        if bytes == "" then Answer(-1, "", incoming[1..])
        else if |bytes| <= count then Answer(|bytes|, bytes, incoming[1..])
        else Answer(count, bytes[..count], [Data(bytes[count..])] + incoming[1..])
  }

  /** All bytes the socket will deliver. */
  function Pending(incoming: seq<Arrival>): string {
    if incoming == [] then ""
    else (if incoming[0].Data? then incoming[0].bytes else "") + Pending(incoming[1..])
  }

  lemma ReadOnceConserves(incoming: seq<Arrival>, count: nat)
    ensures var a := ReadOnce(incoming, count); Pending(incoming) == a.bytes + Pending(a.rest)
  {
    var a := ReadOnce(incoming, count);
    if count > 0 && incoming != [] && incoming[0].Data? && |incoming[0].bytes| > count {
      var bytes, rest := incoming[0].bytes, Pending(incoming[1..]);
      assert a.rest[1..] == incoming[1..];
      assert Pending(a.rest) == bytes[count..] + rest;
      CutInTwo(bytes, count, rest);
    } else {
      assert "" + Pending(a.rest) == Pending(a.rest);
    }
  }

  lemma CutInTwo(bytes: string, count: nat, rest: string)
    requires count <= |bytes|
    ensures bytes + rest == bytes[..count] + (bytes[count..] + rest)
  {
  }

  /** The buffer, the socket and the return code when the loop ends; `taken` are the bytes read. */
  datatype ReadEnd = ReadEnd(b: Buffer, incoming: seq<Arrival>, taken: string, rc: int)

  ghost predicate Fits(b: Buffer, max: int) { b.Valid() && 0 < b.capacity && b.length <= b.capacity <= max }

  function Grow(b: Buffer, max: int): Buffer {
    if b.length == b.capacity && b.capacity != max
      then b.(capacity := if 2 * b.capacity > max then max else 2 * b.capacity)
    else b
  }

  function AfterRead(b: Buffer, a: Answer, max: int): Buffer
    requires b.Valid()
  {
    Grow(if a.n > 0 then Append(b, a.bytes) else b, max)
  }

  function ReadLoop(b: Buffer, incoming: seq<Arrival>, max: int): ReadEnd
    requires Fits(b, max)
    decreases max - b.length
  {
    var a := ReadOnce(incoming, b.capacity - b.length);
    var b' := AfterRead(b, a, max);
    if a.n > 0 && b'.capacity < max then
      var e := ReadLoop(b', a.rest, max);
      e.(taken := a.bytes + e.taken)
    else
      ReadEnd(b', a.rest, a.bytes, a.n)
  }

  lemma AppendTwice(b: Buffer, x: string, y: string)
    requires b.Valid()
    ensures Append(Append(b, x), y) == Append(b, x + y)
  {
    var l := b.length;
    var m0 := Overwrite(b.mem, l, x);
    var m1 := Overwrite(m0, l + |x|, y);
    var m2 := Overwrite(b.mem, l, x + y);
    forall i | 0 <= i < |m1| ensures m1[i] == m2[i] {
      assert i < l ==> m1[i] == m1[..l + |x|][i] == m0[..l][i] == b.mem[..l][i] && m2[i] == m2[..l][i];
      assert l <= i < l + |x| ==> m1[i] == m1[..l + |x|][i] == m0[l..l + |x|][i - l];
      assert l + |x| <= i < l + |x| + |y| ==> m1[i] == m1[l + |x|..l + |x| + |y|][i - l - |x|];
      assert l <= i < l + |x + y| ==> m2[i] == m2[l..l + |x + y|][i - l];
    }
    assert m1 == m2;
  }

  /** One pass of the loop. */
  lemma AfterReadFits(b: Buffer, incoming: seq<Arrival>, max: int)
    requires Fits(b, max)
    ensures var a := ReadOnce(incoming, b.capacity - b.length); var b' := AfterRead(b, a, max);
      && b' == Append(b, a.bytes).(capacity := b'.capacity) && b'.length == b.length + |a.bytes|
      && Fits(b', max) && b.capacity <= b'.capacity && (b'.length < b'.capacity || b'.capacity == max)
  {
    hide Append;
    AppendNothing(b);
  }

  /** The buffer is its old contents followed by the bytes read, in order; none are lost; the capacity
      only grows and never passes the maximum; and there is room left unless it is exhausted. */
  lemma {:induction false} ReadLoopIsAppend(b: Buffer, incoming: seq<Arrival>, max: int)
    requires Fits(b, max)
    ensures var e := ReadLoop(b, incoming, max);
      && e.b == Append(b, e.taken).(capacity := e.b.capacity)
      && Pending(incoming) == e.taken + Pending(e.incoming)
      && Fits(e.b, max) && b.capacity <= e.b.capacity
      && (e.b.length < e.b.capacity || e.b.capacity == max)
      && (e.rc > 0 ==> e.b.capacity == max)
    decreases max - b.length
  {
    hide Append, AfterRead, ReadOnce, Pending;
    var a := ReadOnce(incoming, b.capacity - b.length);
    var b' := AfterRead(b, a, max);
    ReadOnceConserves(incoming, b.capacity - b.length);
    AfterReadFits(b, incoming, max);
    if a.n > 0 && b'.capacity < max {
      var e := ReadLoop(b', a.rest, max);
      ReadLoopIsAppend(b', a.rest, max);
      AppendTwice(b, a.bytes, e.taken);
      CapacityIsKept(Append(b, a.bytes), b'.capacity, e.taken);
      assert a.bytes + e.taken + Pending(e.incoming) == a.bytes + (e.taken + Pending(e.incoming));
    }
  }

  /** The client does not end its input. */
  predicate NoEnd(incoming: seq<Arrival>) { forall i :: 0 <= i < |incoming| ==> !incoming[i].Eof? }

  /** How much is left to be read: bytes and arrivals. */
  function Weight(incoming: seq<Arrival>): nat { |Pending(incoming)| + |incoming| }

  lemma ReadOnceTakes(incoming: seq<Arrival>, count: nat)
    requires NoEnd(incoming)
    ensures var a := ReadOnce(incoming, count);
      && NoEnd(a.rest) && (a.n == 0 <==> count == 0) && Weight(a.rest) <= Weight(incoming)
      && (count > 0 && incoming != [] ==> Weight(a.rest) < Weight(incoming))
  {
    ReadOnceConserves(incoming, count);
  }

  /** As long as the input does not end, the loop returns zero, which stands for its end, if and only if
      there was no room when it was called; and if there was, something that has arrived is gone. */
  lemma {:induction false} ReadLoopEnds(b: Buffer, incoming: seq<Arrival>, max: int)
    requires Fits(b, max) && NoEnd(incoming)
    ensures var e := ReadLoop(b, incoming, max);
      && NoEnd(e.incoming) && (e.rc == 0 <==> b.length == b.capacity) && Weight(e.incoming) <= Weight(incoming)
      && (b.length < b.capacity && incoming != [] ==> Weight(e.incoming) < Weight(incoming))
    decreases max - b.length
  {
    hide Append, AfterRead, ReadOnce, Weight;
    var a := ReadOnce(incoming, b.capacity - b.length);
    ReadOnceTakes(incoming, b.capacity - b.length);
    AfterReadFits(b, incoming, max);
    var b' := AfterRead(b, a, max);
    if a.n > 0 && b'.capacity < max {
      ReadLoopEnds(b', a.rest, max);
    }
  }

  lemma CapacityIsKept(b: Buffer, capacity: int, x: string)
    requires b.Valid()
    ensures Append(b.(capacity := capacity), x) == Append(b, x).(capacity := capacity)
  {
  }

  lemma AppendNothing(b: Buffer)
    requires b.Valid()
    ensures Append(b, "") == b
  {
    assert Append(b, "").mem == b.mem;
  }

  // --- the objects ---

  /** The outcome of one write call: how many bytes the socket takes, would block, or EPIPE. */
  datatype Written = Took(n: nat) | Refused | Broken

  /** `sent` are the bytes the socket has accepted, `outgoing` the outcomes of later write calls. */
  class Socket {
    var incoming: seq<Arrival>
    var outgoing: seq<Written>
    var sent: string

    method Read(count: nat) returns (n: int, bytes: string)
      modifies this`incoming
      ensures var a := ReadOnce(old(incoming), count); n == a.n && bytes == a.bytes && incoming == a.rest
    {
      var a := ReadOnce(incoming, count);
      n, bytes, incoming := a.n, a.bytes, a.rest;
    }

    /** The next outcome of a write call. */
    function NextWrite(): Written
      reads this
    {
      if outgoing == [] then Refused else outgoing[0]
    }

    /** Hands over as much of `bytes` as the socket takes. */
    method Write(bytes: string) returns (n: int, brokenPipe: bool)
      modifies this`outgoing, this`sent
      ensures var w := old(NextWrite());
        && brokenPipe == w.Broken?
        && n == (if w.Took? then (if w.n < |bytes| then w.n else |bytes|) else -1)
      ensures sent == old(sent) + if n > 0 then bytes[..n] else ""
    {
      var w := NextWrite();
      brokenPipe, n := w.Broken?, -1;
      if w.Took? {
        n := if w.n < |bytes| then w.n else |bytes|;
        sent := sent + bytes[..n];
      }
      if outgoing != [] {
        outgoing := outgoing[1..];
      }
    }
  }

  /** The server's estimate of the memory in use, the number of allocations made, those released so far,
      in order, and the growth of buffers that the estimate was not told about. */
  datatype Heap = Heap(memused: int, next: nat, freed: seq<nat>, uncounted: int)

  class Ledger {
    var memused: int
    ghost var next: nat
    ghost var freed: seq<nat>
    ghost var uncounted: int

    ghost function View(): Heap
      reads this
    {
      Heap(memused, next, freed, uncounted)
    }
  }

  method ReadIntoBuffer(buffer: HshBuffer, socket: Socket, ledger: Ledger, max: int)
    returns (rc: int, ghost taken: string)
    requires Fits(buffer.View(), max)
    modifies buffer, socket`incoming, ledger`memused
    ensures var e := ReadLoop(old(buffer.View()), old(socket.incoming), max);
      && rc == e.rc && taken == e.taken && socket.incoming == e.incoming
      && buffer.View() == e.b.(sequenceId := NextSequence(e.b.sequenceId))
      && ledger.memused - old(ledger.memused) == e.b.capacity - old(buffer.capacity)
  {
    hide Append, AfterRead, ReadOnce;
    var more := true;
    rc, taken := 0, "";
    ghost var b0, in0 := buffer.View(), socket.incoming;
    while more
      invariant Fits(buffer.View(), max)
      invariant more ==> (
        var e := ReadLoop(buffer.View(), socket.incoming, max);
        ReadLoop(b0, in0, max) == e.(taken := taken + e.taken))
      invariant !more ==> ReadLoop(b0, in0, max) == ReadEnd(buffer.View(), socket.incoming, taken, rc)
      invariant ledger.memused - old(ledger.memused) == buffer.capacity - old(buffer.capacity)
      decreases more, max - buffer.length
    {
      ghost var b1, in1 := buffer.View(), socket.incoming;
      ghost var e := ReadLoop(b1, in1, max);
      AfterReadFits(b1, in1, max);
      rc, more := ReadStep(buffer, socket, ledger, max);
      ghost var a := ReadOnce(in1, b1.capacity - b1.length);
      assert more ==> taken + e.taken == taken + a.bytes + ReadLoop(buffer.View(), socket.incoming, max).taken;
      taken := taken + a.bytes;
    }
    buffer.sequenceId := NextSequence(buffer.sequenceId);
  }

  /** One read call, and growth of the buffer if it is full. */
  method ReadStep(buffer: HshBuffer, socket: Socket, ledger: Ledger, max: int) returns (bytes: int, more: bool)
    requires Fits(buffer.View(), max)
    modifies buffer, socket`incoming, ledger`memused
    ensures var a := ReadOnce(old(socket.incoming), old(buffer.capacity - buffer.length));
      && bytes == a.n && socket.incoming == a.rest && buffer.View() == AfterRead(old(buffer.View()), a, max)
      && (more <==> a.n > 0 && buffer.capacity < max)
      && ledger.memused - old(ledger.memused) == buffer.capacity - old(buffer.capacity)
  {
    hide ReadOnce;
    var data: string;
    bytes, data := socket.Read(buffer.capacity - buffer.length);
    if bytes > 0 {
      buffer.mem := Overwrite(buffer.mem, buffer.length, data);
      buffer.length := buffer.length + bytes;
    }
    if buffer.length == buffer.capacity && buffer.capacity != max {
      ledger.memused := ledger.memused - buffer.capacity;
      buffer.capacity := buffer.capacity * 2;
      if buffer.capacity > max {
        buffer.capacity := max;
      }
      ledger.memused := ledger.memused + buffer.capacity;
    }
    more := bytes > 0 && buffer.capacity < max;
  }
}

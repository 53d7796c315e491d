/**
  The parser and its buffer as the objects the server updates in place. Every method is
  proved against the functions of module Parser.
 */
module ParserObject {
  import opened Automaton
  import P = Parser

  class HshBuffer {
    var mem: string
    var capacity: int
    var length: nat
    var index: nat
    var afterHeaders: nat
    var sequenceId: int

    constructor (capacity: int)
      ensures View() == P.Buffer("", capacity, 0, 0, 0, 0)
    {
      mem, this.capacity := "", capacity;
      length, index, afterHeaders, sequenceId := 0, 0, 0, 0;
    }

    /** A new buffer: nothing in it, and all counters zero. */
    method Clear(capacity: int)
      modifies this
      ensures View() == P.Buffer("", capacity, 0, 0, 0, 0)
    {
      mem, this.capacity := "", capacity;
      length, index, afterHeaders, sequenceId := 0, 0, 0, 0;
    }

    function View(): P.Buffer
      reads this
    {
      P.Buffer(mem, capacity, length, index, afterHeaders, sequenceId)
    }
  }

  predicate Ready(s: P.Signal) { s.Break? && s.ready }
  predicate Done(s: P.Signal) { s.Break? && s.done }
  predicate Dry(s: P.Signal) { s.Break? && s.dry }

  predicate ReadsData(s: State) {
    s.DataStart? || s.InData? || s.Rescan? || s.SmallStart? || s.InSmall? || s.LargeStart? || s.InLarge?
  }

  class HshParser {
    var state: State
    var contentLength: nat
    var contentRemaining: int
    var token: Token
    var limitCount: int
    var limitMax: int
    var chunked: bool
    var ready: bool
    var done: bool
    var sequenceId: int

    constructor ()
      ensures View() == P.FRESH_PARSER && !ready
    {
      state, token := MethodStart, Token(Method, false, false, 0, 0);
      contentLength, contentRemaining, limitCount, limitMax := 0, 0, 0, 0;
      chunked, ready, done, sequenceId := false, false, false, 0;
    }

    method Init()
      modifies this
      ensures View() == P.FRESH_PARSER && !ready
    {
      state, token := MethodStart, Token(Method, false, false, 0, 0);
      contentLength, contentRemaining, limitCount, limitMax := 0, 0, 0, 0;
      chunked, ready, done, sequenceId := false, false, false, 0;
    }

    function Core(): P.Core
      reads this
    {
      P.Core(state, contentLength, contentRemaining, token, limitCount, limitMax, chunked)
    }

    function View(): P.Parser
      reads this
    {
      P.Parser(Core(), done, sequenceId)
    }

    // --- head actions ---

    method EnterToken(kind: TokenKind, i: nat)
      modifies this
      ensures Core() == P.RunEnter(old(Core()), kind, i)
      ensures unchanged(`ready) && unchanged(`done) && unchanged(`sequenceId)
    {
      token := Token(kind, false, false, token.len, i);
      limitCount := 0;
      limitMax := P.Limit(kind);
    }

    method DoneHeaders(buffer: HshBuffer, i: nat, max: int)
      modifies this, buffer
      ensures Core() == P.FinishCore(old(Core()), i, max)
      ensures buffer.View() == P.FinishBuffer(old(Core()), old(buffer.View()), i, max)
      ensures ready && unchanged(`done) && unchanged(`sequenceId)
      ensures unchanged(buffer`sequenceId)
    {
      buffer.afterHeaders := i + 1;
      contentRemaining := contentLength;
      token := Token(HeadersDone, false, false, 0, 0);
      ready := true;
      if chunked {
        token := token.(bit2 := true);
        state := SizeStart(true);
      } else if contentLength == 0 {
        token := token.(bit1 := true);
      } else if contentLength > max - buffer.afterHeaders {
        token := token.(bit2 := true);
        state := LargeStart;
      } else {
        if contentLength + buffer.afterHeaders > buffer.capacity {
          buffer.capacity := contentLength + buffer.afterHeaders;
        }
        state := SmallStart;
      }
    }

    /** The actions of a head transition up to the limit check. */
    method RunActions(m: Move, i: nat, c: char)
      requires m.Go?
      modifies this
      ensures Core() == P.Prepare(old(Core()), m, i, c)
      ensures unchanged(`ready) && unchanged(`done) && unchanged(`sequenceId)
    {
      state := m.to;
      if m.digit {
        contentLength := contentLength * 10 + DigitValue(c);
      }
      if m.coding {
        chunked := true;
      }
      if !m.enter.None? {
        EnterToken(m.enter, i);
      }
      if m.count {
        limitCount := limitCount + 1;
      }
    }

    /** The actions of one head transition; `stop` if one of them leaves the loop over the bytes. */
    method RunMove(m: Move, buffer: HshBuffer, i: nat, c: char, max: int) returns (stop: bool)
      requires buffer.View().Valid() && i < buffer.length && !ready && !done
      modifies this, buffer
      ensures var r := P.HeadStep(old(Core()), m, old(buffer.View()), i, c, max);
        && Core() == r.core && buffer.View() == r.b && stop == r.signal.Break?
        && ready == Ready(r.signal) && done == Done(r.signal) && unchanged(`sequenceId)
      ensures unchanged(buffer`sequenceId)
    {
      hide P.Prepare, P.FinishCore, P.FinishBuffer;
      if m.Fail? {
        state := Error;
        return true;
      }
      RunActions(m, i, c);
      if m.count && limitCount > limitMax {
        return true;
      }
      if m.emit {
        token := token.(len := i - token.index);
        ready := true;
        return true;
      }
      if m.finish {
        DoneHeaders(buffer, i, max);
        return true;
      }
      return false;
    }

    // --- body actions ---

    method EnterBody(i: nat)
      modifies this
      ensures Core() == P.EnterBody(old(Core()), i)
      ensures unchanged(`ready) && unchanged(`done) && unchanged(`sequenceId)
    {
      token := Token(Body, false, false, token.len, i);
    }

    method ReadChunk(buffer: HshBuffer, i: nat, max: int) returns (at: nat, stop: bool)
      requires buffer.View().Valid() && i < buffer.length && !ready && !done
      modifies this, buffer
      ensures var r := P.ReadChunk(old(Core()), old(buffer.View()), i, max);
        && Core() == r.core && buffer.View() == r.b && at == r.at && stop == r.signal.Break?
        && ready == Ready(r.signal) && !done && !Done(r.signal)
        && sequenceId == if Dry(r.signal) then old(buffer.sequenceId) else old(sequenceId)
      ensures unchanged(buffer`sequenceId)
    {
      var last := token.index + contentLength - 1;
      if buffer.length >= last {
        token := token.(len := contentLength);
        ready := true;
        state := ChunkEndCr;
        return last + 1, true;
      } else if i + contentLength > max {
        buffer.mem := P.Overwrite(buffer.mem, buffer.afterHeaders, buffer.mem[i..buffer.length]);
        buffer.length := buffer.afterHeaders + buffer.length - i;
        token := token.(index := buffer.afterHeaders);
        sequenceId := buffer.sequenceId;
        return buffer.afterHeaders, true;
      }
      return i + 1, false;
    }

    method ReadSmall(buffer: HshBuffer) returns (at: nat)
      requires !ready && !done
      modifies this
      ensures var r := P.ReadSmall(old(Core()), buffer.View());
        && Core() == r.core && r.b == buffer.View() && at == r.at && r.signal.Break?
        && ready == Ready(r.signal) && done == Done(r.signal) && (done ==> ready)
        && !Dry(r.signal) && unchanged(`sequenceId)
    {
      token := token.(index := buffer.afterHeaders, len := contentLength, bit2 := true);
      var last := token.index + contentLength - 1;
      if buffer.length >= last {
        ready := true;
        done := true;
      }
      at := buffer.length;
    }

    method ReadLarge(buffer: HshBuffer, i: nat) returns (at: nat)
      requires !ready && !done
      modifies this, buffer
      ensures var r := P.ReadLarge(old(Core()), old(buffer.View()), i);
        && Core() == r.core && buffer.View() == r.b && at == r.at && r.signal.Break?
        && ready && Ready(r.signal) && done == Done(r.signal)
        && sequenceId == if Dry(r.signal) then old(buffer.sequenceId) else old(sequenceId)
      ensures unchanged(buffer`sequenceId)
    {
      token := token.(index := buffer.afterHeaders);
      var last := buffer.afterHeaders + contentRemaining - 1;
      ready := true;
      if buffer.length >= last {
        token := token.(bit1 := true, bit2 := false, len := contentRemaining);
        contentRemaining := 0;
        done := true;
        at := i;
      } else {
        token := token.(len := buffer.length - i);
        contentRemaining := contentRemaining - token.len;
        at := buffer.afterHeaders;
        buffer.length := buffer.afterHeaders;
        sequenceId := buffer.sequenceId;
      }
    }

    method EndStream()
      requires !ready && !done
      modifies this
      ensures Core() == old(Core()).(token := Token(Body, true, false, 0, 0))
      ensures ready && done && unchanged(`sequenceId)
    {
      token := Token(Body, true, false, 0, 0);
      ready := true;
      done := true;
    }

    method RunChunkSize(c: char)
      modifies this
      ensures Core() == P.RunChunkSize(old(Core()), c)
      ensures unchanged(`ready) && unchanged(`done) && unchanged(`sequenceId)
    {
      if 'A' <= c <= 'F' {
        contentLength := contentLength * 16;
        contentLength := contentLength + (c as int - 55);
      } else if 'a' <= c <= 'f' {
        contentLength := contentLength * 16;
        contentLength := contentLength + (c as int - 87);
      } else if '0' <= c <= '9' {
        contentLength := contentLength * 16;
        contentLength := contentLength + DigitValue(c);
      }
    }

    /** The chunk size and chunk data actions in the order in which the rescanning states run them. */
    method RunRescan(buffer: HshBuffer, i: nat, c: char, max: int) returns (at: nat, stop: bool)
      requires state.Rescan? && buffer.View().Valid() && i < buffer.length && !ready && !done
      modifies this, buffer
      ensures var r := P.RescanStep(old(Core()), old(buffer.View()), i, c, max);
        && Core() == r.core && buffer.View() == r.b && at == r.at && stop == r.signal.Break?
        && ready == Ready(r.signal) && done == Done(r.signal) && (done ==> ready)
        && sequenceId == if Dry(r.signal) then old(buffer.sequenceId) else old(sequenceId)
      ensures unchanged(buffer`sequenceId)
    {
      hide P.RunChunkSize, P.RescanTarget, P.ReadChunk;
      var from := state.at;
      var sized := P.Resized(from, c);
      state := Rescan(P.RescanTarget(from, c));
      if sized {
        RunChunkSize(c);
      }
      if from.TextCrLf? || from.ZeroCrLf? {
        EnterBody(i);
      }
      at, stop := ReadChunk(buffer, i, max);
      if !stop && c != '0' {
        contentLength := 0;
        if !sized {
          RunChunkSize(c);
          if c == '\n' && (from.ZeroCr? || from.ZerosCr?) {
            EndStream();
            stop := true;
          }
        }
      }
    }

    /** The states between the chunks: size lines, line ends and the last chunk. */
    method RunChunkLine(buffer: HshBuffer, i: nat, c: char, max: int) returns (stop: bool)
      requires IsBody(state) && !ReadsData(state)
      requires buffer.View().Valid() && i < buffer.length && !ready && !done
      modifies this
      ensures var r := P.BodyStep(old(Core()), buffer.View(), i, c, max);
        && Core() == r.core && buffer.View() == r.b && i + 1 == r.at && stop == r.signal.Break?
        && ready == Ready(r.signal) && done == Done(r.signal) && (done ==> ready)
        && !Dry(r.signal) && unchanged(`sequenceId)
    {
      hide P.RescanStep, P.ReadChunk, P.ReadSmall, P.ReadLarge;
      stop := false;
      match state
      case ChunkEndCr => if c == '\r' { state := ChunkEndLf; } else { state, stop := Error, true; }
      case ChunkEndLf => if c == '\n' { state := SizeStart(false); } else { state, stop := Error, true; }
      case SizeStart(first) =>
        if c == '0' {
          state := LastChunkCr(first);
        } else {
          contentLength := 0;
          RunChunkSize(c);
          state := InSize(first);
        }
      case InSize(first) =>
        if c == '\r' {
          state := SizeEnd(first);
        } else if IsHexDigit(c) {
          RunChunkSize(c);
        } else {
          state, stop := Error, true;
        }
      case SizeEnd(first) => if c == '\n' { state := DataStart(first); } else { state, stop := Error, true; }
      case LastChunkCr(first) => if c == '\r' { state := LastChunkLf(first); } else { state, stop := Error, true; }
      case LastChunkLf(first) =>
        stop := true;
        if c == '\n' {
          state := StreamEnd(first);
          EndStream();
        } else {
          state := Error;
        }
      case StreamEnd(first) => state, stop := Error, true;
    }

    /** The states that read data. */
    method RunBodyData(buffer: HshBuffer, i: nat, c: char, max: int) returns (at: nat, stop: bool)
      requires ReadsData(state)
      requires buffer.View().Valid() && i < buffer.length && !ready && !done
      modifies this, buffer
      ensures var r := P.BodyStep(old(Core()), old(buffer.View()), i, c, max);
        && Core() == r.core && buffer.View() == r.b && at == r.at && stop == r.signal.Break?
        && ready == Ready(r.signal) && done == Done(r.signal) && (done ==> ready)
        && sequenceId == if Dry(r.signal) then old(buffer.sequenceId) else old(sequenceId)
      ensures unchanged(buffer`sequenceId)
    {
      hide P.RescanStep, P.ReadChunk, P.ReadSmall, P.ReadLarge, P.RunChunkSize;
      at, stop := i + 1, true;
      match state
      case DataStart(first) =>
        EnterBody(i);
        state := if first then Rescan(First) else InData;
        at, stop := ReadChunk(buffer, i, max);
      case InData => at, stop := ReadChunk(buffer, i, max);
      case Rescan(_) => at, stop := RunRescan(buffer, i, c, max);
      case SmallStart =>
        EnterBody(i);
        state := InSmall;
        at := ReadSmall(buffer);
      case InSmall => at := ReadSmall(buffer);
      case LargeStart =>
        EnterBody(i);
        state := InLarge;
        at := ReadLarge(buffer, i);
      case InLarge => at := ReadLarge(buffer, i);
    }

    method RunBody(buffer: HshBuffer, i: nat, c: char, max: int) returns (at: nat, stop: bool)
      requires IsBody(state) && buffer.View().Valid() && i < buffer.length && !ready && !done
      modifies this, buffer
      ensures var r := P.BodyStep(old(Core()), old(buffer.View()), i, c, max);
        && Core() == r.core && buffer.View() == r.b && at == r.at && stop == r.signal.Break?
        && ready == Ready(r.signal) && done == Done(r.signal) && (done ==> ready)
        && sequenceId == if Dry(r.signal) then old(buffer.sequenceId) else old(sequenceId)
      ensures unchanged(buffer`sequenceId)
    {
      hide P.BodyStep, IsBody, ReadsData;
      if ReadsData(state) {
        at, stop := RunBodyData(buffer, i, c, max);
      } else {
        stop := RunChunkLine(buffer, i, c, max);
        at := i + 1;
      }
    }

    method RunByte(buffer: HshBuffer, i: nat, max: int) returns (at: nat, stop: bool)
      requires buffer.View().Valid() && i < buffer.length && !ready && !done && state != Error
      modifies this, buffer
      ensures var r := P.Step(old(Core()), old(buffer.View()), i, max);
        && Core() == r.core && buffer.View() == r.b && at == r.at && stop == r.signal.Break?
        && ready == Ready(r.signal) && done == Done(r.signal) && (done ==> ready)
        && sequenceId == if Dry(r.signal) then old(buffer.sequenceId) else old(sequenceId)
      ensures unchanged(buffer`sequenceId)
    {
      hide HeadMove, P.BodyStep;
      if IsBody(state) {
        at, stop := RunBody(buffer, i, buffer.mem[i], max);
      } else {
        stop := RunMove(HeadMove(state, buffer.mem[i]), buffer, i, buffer.mem[i], max);
        at := i + 1;
      }
    }

    /** Consumes bytes of the buffer until a token is ready, an action breaks off, or none are left. */
    method Exec(buffer: HshBuffer, max: int) returns (result: Token)
      requires buffer.View().Valid() && !ready
      modifies this, buffer
      ensures var o := P.Exec(old(View()), old(buffer.View()), max);
        View() == o.p && buffer.View() == o.b && result == o.token && !ready
    {
      hide P.Step;
      if done || sequenceId == buffer.sequenceId {
        return NO_TOKEN;
      }
      var i: nat := buffer.index;
      var stop := false;
      ghost var scan := P.Scan(Core(), buffer.View(), i, max);
      while !stop && i < buffer.length && state != Error
        invariant buffer.View().Valid() && buffer.sequenceId == old(buffer.sequenceId)
        invariant if stop then scan == P.Result(Core(), buffer.View(), i, scan.signal) && scan.signal.Break?
                  else buffer.View() == old(buffer.View()) && scan == P.Scan(Core(), buffer.View(), i, max)
        invariant ready == (stop && Ready(scan.signal)) && done == (stop && Done(scan.signal)) && (done ==> ready)
        invariant sequenceId == if stop && Dry(scan.signal) then old(buffer.sequenceId) else old(sequenceId)
        decreases !stop, buffer.length - i
      {
        i, stop := RunByte(buffer, i, max);
      }
      buffer.index := i;
      if ready {
        ready := false;
        return token;
      }
      sequenceId := buffer.sequenceId;
      return NO_TOKEN;
    }
  }
}

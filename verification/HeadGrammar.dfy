/**
  The language of request heads: a line grammar that knows nothing of the automaton, and that the automaton
  accepts it, all of it and nothing else, and gives up at the first byte that does not fit.
 */
module HeadGrammar {
  import opened Automaton
  import opened Parser
  import opened Head
  import opened HeadRoundTrip
  import opened HeadShape
  import opened Sessions
  import opened HeadCuts
  import opened HeadResults

  // --- the grammar ---

  predicate IsVerb(s: string) { s != "" && forall i :: 0 <= i < |s| ==> 'a' <= s[i] <= 'z' || 'A' <= s[i] <= 'Z' }

  predicate IsTarget(s: string) { s != "" && forall i :: 0 <= i < |s| ==> s[i] != ' ' }

  predicate TokenChar(c: char) { c !in "()<>@,;:\\\"/[]?={} \t" }

  predicate IsName(s: string) { s != "" && forall i :: 0 <= i < |s| ==> TokenChar(s[i]) }

  predicate IsBlanks(s: string) { s != "" && forall i :: 0 <= i < |s| ==> s[i] in " \t" }

  /** A value does not start with a blank, and has no line ends, but for a carriage return or a line feed that it
      may start with. */
  predicate IsValue(s: string) {
    s == "" || (s[0] !in " \t" && forall i :: 1 <= i < |s| ==> s[i] !in "\r\n")
  }

  /** What would end the head is no name, except on the first line. */
  predicate IsLine(h: Header, first: bool) {
    IsName(h.key) && IsBlanks(h.blanks) && IsValue(h.value) && (!first ==> !("\r\n" <= h.key))
  }

  predicate AreLines(hs: seq<Header>) { forall i :: 0 <= i < |hs| ==> IsLine(hs[i], i == 0) }

  predicate IsRequestLine(r: Request) { IsVerb(r.verb) && IsTarget(r.target) && r.minor in "01" }

  /** The printed request is a head of the grammar. */
  predicate IsRequest(r: Request) { IsRequestLine(r) && r.headers != [] && AreLines(r.headers) }

  // --- the states alone ---

  function Next(q: State, c: char): State {
    if !IsHead(q) then q
    else
      match HeadMove(q, c)
      case Fail => Error
      case Go(to, _, _, _, _, _, _) => to
  }

  function Run(s: string): State {
    if s == "" then MethodStart else Next(Run(s[..|s| - 1]), s[|s| - 1])
  }

  lemma RunMore(s: string, c: char)
    ensures Run(s + [c]) == Next(Run(s), c)
  {
    assert (s + [c])[..|s + [c]| - 1] == s;
  }

  lemma {:induction false} RunStops(s: string, t: string)
    requires !IsHead(Run(s))
    ensures Run(s + t) == Run(s)
  {
    if t == "" {
      assert s + t == s;
    } else {
      var n := |t| - 1;
      RunStops(s, t[..n]);
      assert s + t == s + t[..n] + [t[n]];
      RunMore(s + t[..n], t[n]);
    }
  }

  lemma MovesGoOn(q: State, c: char)
    requires IsHead(q)
    ensures HeadMove(q, c).Go? ==> (HeadMove(q, c).finish <==> HeadMove(q, c).to.HeadDone?)
    ensures HeadMove(q, c).Go? && HeadMove(q, c).emit ==> !HeadMove(q, c).count || !HeadMove(q, c).enter.None?
  {
    MovesAreHeadLike(q, c);
    MovesKeepOrder(q, c, Broken);
  }

  /** The fold moves through the same states, whatever the limits of the tokens. */
  lemma {:induction false} FoldRuns(s: string, max: int)
    ensures Fold(s, max).end <= |s|
    ensures var r := Fold(s, max);
      if r.end > 0 then Run(s).HeadDone? && Run(s[..r.end]).HeadDone? && IsHead(Run(s[..r.end - 1]))
      else r.k.state == Run(s) && (IsHead(Run(s)) || Run(s).Error?)
  {
    hide HeadMove, AdvanceBy, Fold, Sound, Run;
    if s == "" {
      NothingRun(max);
    } else {
      var i := |s| - 1;
      FoldRuns(s[..i], max);
      assert s == s[..i] + [s[i]];
      if Fold(s[..i], max).end > 0 {
        FoldStops(s[..i], s[i], max);
        assert s[..Fold(s[..i], max).end] == s[..i][..Fold(s[..i], max).end];
        assert s[..Fold(s[..i], max).end - 1] == s[..i][..Fold(s[..i], max).end - 1];
      } else if IsHead(Run(s[..i])) {
        OneMoreByte(s[..i], s[i], max);
        assert s[..|s|] == s;
      } else {
        FoldStops(s[..i], s[i], max);
      }
      RunMore(s[..i], s[i]);
    }
  }

  lemma NothingRun(max: int)
    ensures Fold("", max) == HeadRun(FRESH_CORE, [], 0) && Run("") == MethodStart
  {
  }

  lemma FoldStops(s: string, c: char, max: int)
    requires !IsHead(Fold(s, max).k.state) || Fold(s, max).end > 0
    ensures Fold(s + [c], max) == Fold(s, max)
  {
    hide Fold;
    FoldSound(s, max);
    FoldAbsorbs(s, [c], max);
  }

  lemma OneMoreByte(s: string, c: char, max: int)
    requires IsHead(Fold(s, max).k.state) && Fold(s, max).end == 0
    ensures var q := Next(Fold(s, max).k.state, c); var r := Fold(s + [c], max);
      if q.HeadDone? then r.end == |s| + 1 else r.end == 0 && r.k.state == q && (IsHead(q) || q.Error?)
  {
    hide HeadMove, AdvanceBy, Fold, WithinLimits, Sound;
    var r := Fold(s, max);
    var m := HeadMove(r.k.state, c);
    FoldSound(s, max);
    MovesAreHeadLike(r.k.state, c);
    MovesGoOn(r.k.state, c);
    FoldChar(s, c, m, max);
    ByMove(r, m, |s|, c, max);
  }

  lemma ByMove(r: HeadRun, m: Move, i: nat, c: char, max: int)
    requires Sound(r, i) && IsHead(r.k.state) && HeadLike(r.k.state, m) && r.end == 0
    requires m.Go? ==> (m.finish <==> m.to.HeadDone?) && (m.emit ==> !m.count || !m.enter.None?)
    ensures var r' := AdvanceBy(r, m, i, c, max);
      if m.Go? && m.finish then r'.end == i + 1
      else r'.end == 0 && (r'.k.state == if m.Go? then m.to else Error) && (m.Go? ==> IsHead(m.to))
  {
    hide Sound, Prepare, FinishCore;
    if m.Go? {
      AdvanceOutcome(r, m, i, c, max);
      if m.finish {
        FinishSound(r, m, i, c, max);
      }
    }
  }

  // --- a head in the making ---

  /** What the bytes read so far are the beginning of: a request of which some headers are complete. */
  datatype Part =
    | InVerb(verb: string)
    | InPath(verb: string, target: string)
    | InHttp(r: Request, n: nat)
    | InName(r: Request, key: string)
    | InBlanks(r: Request, key: string, blanks: string)
    | InText(r: Request, key: string, blanks: string, value: string)
    | Returned(r: Request, key: string, blanks: string, value: string)
    | Ended(r: Request)

  function LinesText(r: Request): string { PrintRequestLine(r) + PrintHeaders(r.headers) }

  /** The bytes. */
  function PartText(p: Part): string {
    match p
    case InVerb(verb) => verb
    case InPath(verb, target) => verb + " " + target
    case InHttp(r, n) => r.verb + " " + r.target + " " + ("HTTP/1." + [r.minor] + "\r\n")[..if n < 9 then n else 9]
    case InName(r, key) => LinesText(r) + key
    case InBlanks(r, key, blanks) => LinesText(r) + key + ":" + blanks
    case InText(r, key, blanks, value) => LinesText(r) + key + ":" + blanks + value
    case Returned(r, key, blanks, value) => LinesText(r) + key + ":" + blanks + value + "\r"
    case Ended(r) => PrintRequest(r)
  }

  predicate AreLetters(s: string) { s == "" || IsVerb(s) }

  /** A name so far, behind the headers of `r`. */
  predicate NameSoFar(r: Request, key: string) {
    IsName(key) && (r.headers != [] ==> key != "\r" && !("\r\n" <= key))
  }

  /** A whole name. */
  predicate NameThere(r: Request, key: string) { IsName(key) && (r.headers != [] ==> !("\r\n" <= key)) }

  predicate GoodLines(r: Request) { IsRequestLine(r) && AreLines(r.headers) }

  /** The state the automaton is in then. */
  predicate Fits(p: Part, q: State) {
    match p
    case InVerb(verb) => if verb == "" then q.MethodStart? else q.InMethod? && IsVerb(verb)
    case InPath(verb, target) => IsVerb(verb) && if target == ""
      then q.TargetStart? else q.InTarget? && IsTarget(target)
    case InHttp(r, n) =>
      && IsVerb(r.verb) && IsTarget(r.target) && r.headers == []
      && (n >= 8 ==> r.minor in "01") && (if n < 9 then q == InVersion(n) else n == 9 && q.RequestLineEnd?)
    case InName(r, key) =>
      && GoodLines(r)
      && (if q.FirstHeader? then key == "" && r.headers == []
          else if q.NextHeader? then key == "" && r.headers != []
          else if q.HeadEnd? then key == "\r" && r.headers != []
          else (q.InKey? || q.Keyword?) && NameSoFar(r, key))
    case InBlanks(r, key, blanks) =>
      && GoodLines(r) && NameThere(r, key)
      && if blanks == "" then q.Colon? else q.ValueStart? && IsBlanks(blanks)
    case InText(r, key, blanks, value) =>
      && GoodLines(r) && NameThere(r, key) && IsBlanks(blanks) && value != "" && IsValue(value)
      && (q.InValue? || q.InDigits? || q.InCoding?)
    case Returned(r, key, blanks, value) =>
      && GoodLines(r) && NameThere(r, key) && IsBlanks(blanks) && IsValue(value)
      && if value == "" then q.EmptyValue? || q.ValueEnd? else q.ValueEnd?
    case Ended(r) => IsRequest(r) && q.HeadDone?
  }

  lemma SeparatorsAreNot(c: char)
    ensures TokenChar(c) <==> !IsSeparator(c)
  {
  }

  /** One more byte of it. */
  ghost predicate GoesOn(p: Part, p': Part, q: State, c: char)
    requires IsHead(q)
  {
    HeadMove(q, c).Go? && Fits(p', HeadMove(q, c).to) && PartText(p') == PartText(p) + [c]
  }

  lemma VerbGoesOn(verb: string, q: State, c: char) returns (p': Part)
    requires Fits(InVerb(verb), q) && IsHead(q) && HeadMove(q, c).Go?
    ensures GoesOn(InVerb(verb), p', q, c)
  {
    p' := if c == ' ' then InPath(verb, "") else InVerb(verb + [c]);
    assert verb + " " + "" == verb + [' '];
  }

  lemma PathGoesOn(verb: string, target: string, q: State, c: char) returns (p': Part)
    requires Fits(InPath(verb, target), q) && IsHead(q) && HeadMove(q, c).Go?
    ensures GoesOn(InPath(verb, target), p', q, c)
  {
    if c == ' ' {
      p' := InHttp(Request(verb, target, '0', []), 0);
      assert PartText(p') == verb + " " + target + " " + "";
    } else {
      p' := InPath(verb, target + [c]);
    }
  }

  lemma HttpGoesOn(r: Request, n: nat, q: State, c: char) returns (p': Part)
    requires Fits(InHttp(r, n), q) && IsHead(q) && HeadMove(q, c).Go?
    ensures GoesOn(InHttp(r, n), p', q, c)
  {
    var r' := if n == 7 then r.(minor := c) else r;
    var text := "HTTP/1." + [r'.minor] + "\r\n";
    if n < 9 {
      p' := InHttp(r', n + 1);
      assert ("HTTP/1." + [r.minor] + "\r\n")[..n] == text[..n];
      assert text[..n + 1] == text[..n] + [c];
    } else {
      p' := InName(r, "");
      assert text == text[..9] + "\n";
      assert LinesText(r) + "" == r.verb + " " + r.target + " " + text;
    }
  }

  /** The moves in a name. */
  lemma NameMoves(q: State, c: char)
    requires q.FirstHeader? || q.NextHeader? || q.HeadEnd? || q.InKey? || q.Keyword?
    requires HeadMove(q, c).Go?
    ensures var to := HeadMove(q, c).to;
      if c == ':' then to.Colon? && !q.FirstHeader? && !q.NextHeader?
      else if q.HeadEnd? && c == '\n' then to.HeadDone?
      else if q.NextHeader? && c == '\r' then to.HeadEnd?
      else TokenChar(c) && (to.InKey? || to.Keyword?)
  {
    hide TokenChar, IsSeparator;
    if q.Keyword? {
      KeywordsHaveNoSeparators(q.field, q.n, c);
    }
    SeparatorsAreNot(c);
    SeparatorsAreNot(':');
    assert IsSeparator(':') && !IsSeparator('\r') && !IsSeparator('\n') by { KnownSeparators(); }
  }

  lemma KeywordsHaveNoSeparators(f: Field, n: nat, c: char)
    ensures n < |KeywordText(f)| && Lower(c) == KeywordText(f)[n] ==> !IsSeparator(c)
  {
  }

  lemma KnownSeparators()
    ensures IsSeparator(':') && !IsSeparator('\r') && !IsSeparator('\n')
  {
  }

  lemma NameGrows(r: Request, key: string, c: char)
    requires key == "" || IsName(key)
    requires r.headers != [] ==> !("\r\n" <= key) && (key == "" ==> c != '\r') && (key == "\r" ==> c != '\n')
    requires TokenChar(c)
    ensures NameSoFar(r, key + [c]) && LinesText(r) + (key + [c]) == LinesText(r) + key + [c]
  {
    hide TokenChar, LinesText;
    var x := key + [c];
    forall i | 0 <= i < |x| ensures TokenChar(x[i]) {
      assert x[i] == if i < |key| then key[i] else c;
    }
    if "\r\n" <= x {
      assert x[0] == x[..2][0] == '\r' && x[1] == x[..2][1] == '\n';
      assert |key| >= 2 ==> x[..2] == key[..2];
      assert |key| == 1 ==> key == "\r" && c == '\n';
    }
    assert x[0] == if key == "" then c else key[0];
  }

  lemma ReturnIsName()
    ensures IsName("\r") && !IsName("")
  {
  }

  lemma NameGoesOn(r: Request, key: string, q: State, c: char) returns (p': Part)
    requires Fits(InName(r, key), q) && IsHead(q) && HeadMove(q, c).Go?
    ensures GoesOn(InName(r, key), p', q, c)
  {
    hide HeadMove, PrintRequestLine, PrintHeaders, AreLines, IsRequestLine, TokenChar, IsName;
    NameMoves(q, c);
    ReturnIsName();
    if c == ':' {
      p' := InBlanks(r, key, "");
      assert LinesText(r) + key + ":" + "" == LinesText(r) + key + [':'];
    } else if q.HeadEnd? && c == '\n' {
      p' := Ended(r);
      assert LinesText(r) + "\r" + ['\n'] == PrintRequest(r);
    } else if q.NextHeader? && c == '\r' {
      p' := InName(r, "\r");
      assert LinesText(r) + "" + ['\r'] == LinesText(r) + "\r";
    } else {
      p' := InName(r, key + [c]);
      NameGrows(r, key, c);
    }
  }

  lemma BlanksGoOn(r: Request, key: string, blanks: string, q: State, c: char) returns (p': Part)
    requires Fits(InBlanks(r, key, blanks), q) && IsHead(q) && HeadMove(q, c).Go?
    ensures GoesOn(InBlanks(r, key, blanks), p', q, c)
  {
    hide LinesText, AreLines, IsRequestLine, NameThere;
    if c in " \t" {
      p' := InBlanks(r, key, blanks + [c]);
    } else if c == '\r' {
      p' := Returned(r, key, blanks, "");
    } else {
      p' := InText(r, key, blanks, [c]);
    }
  }

  lemma TextGoesOn(r: Request, key: string, blanks: string, value: string, q: State, c: char) returns (p': Part)
    requires Fits(InText(r, key, blanks, value), q) && IsHead(q) && HeadMove(q, c).Go?
    ensures GoesOn(InText(r, key, blanks, value), p', q, c)
  {
    hide LinesText, AreLines, IsRequestLine, NameThere, IsBlanks;
    p' := if c == '\r' then Returned(r, key, blanks, value) else InText(r, key, blanks, value + [c]);
  }

  /** The moves behind a carriage return in a value. */
  lemma ReturnMoves(q: State, c: char)
    requires (q.EmptyValue? || q.ValueEnd?) && HeadMove(q, c).Go?
    ensures var to := HeadMove(q, c).to;
      if c == '\n' then to.NextHeader? else q.EmptyValue? && if c == '\r' then to.ValueEnd? else to.InValue?
  {
  }

  lemma ReturnGoesOn(r: Request, key: string, blanks: string, value: string, q: State, c: char) returns (p': Part)
    requires Fits(Returned(r, key, blanks, value), q) && IsHead(q) && HeadMove(q, c).Go?
    ensures GoesOn(Returned(r, key, blanks, value), p', q, c)
  {
    hide HeadMove, LinesText, IsBlanks, IsName;
    ReturnMoves(q, c);
    if c == '\n' {
      var h := Header(key, value, blanks);
      p' := InName(r.(headers := r.headers + [h]), "");
      HeaderIsComplete(r, h);
      LinesGrow(r, h);
    } else if c == '\r' {
      p' := Returned(r, key, blanks, "\r");
    } else {
      p' := InText(r, key, blanks, "\r" + [c]);
    }
  }

  lemma LinesGrow(r: Request, h: Header)
    requires GoodLines(r) && IsLine(h, r.headers == [])
    ensures GoodLines(r.(headers := r.headers + [h]))
  {
    hide IsLine;
    var hs := r.headers + [h];
    forall i | 0 <= i < |hs| ensures IsLine(hs[i], i == 0) {
      assert i < |r.headers| ==> hs[i] == r.headers[i];
    }
  }

  lemma HeaderIsComplete(r: Request, h: Header)
    ensures LinesText(r.(headers := r.headers + [h])) == LinesText(r) + h.key + ":" + h.blanks + h.value + "\r" + "\n"
  {
    var r' := r.(headers := r.headers + [h]);
    assert r'.headers[..|r'.headers| - 1] == r.headers;
    assert PrintHeaders(r'.headers) == PrintHeaders(r.headers) + PrintHeader(h);
  }

  lemma PartGoesOn(p: Part, q: State, c: char) returns (p': Part)
    requires Fits(p, q) && IsHead(q) && HeadMove(q, c).Go?
    ensures GoesOn(p, p', q, c)
  {
    hide GoesOn, HeadMove;
    match p
    case InVerb(verb) => p' := VerbGoesOn(verb, q, c);
    case InPath(verb, target) => p' := PathGoesOn(verb, target, q, c);
    case InHttp(r, n) => p' := HttpGoesOn(r, n, q, c);
    case InName(r, key) => p' := NameGoesOn(r, key, q, c);
    case InBlanks(r, key, blanks) => p' := BlanksGoOn(r, key, blanks, q, c);
    case InText(r, key, blanks, value) => p' := TextGoesOn(r, key, blanks, value, q, c);
    case Returned(r, key, blanks, value) => p' := ReturnGoesOn(r, key, blanks, value, q, c);
  }

  /** Bytes that lead to a state of the head, or to its end, are what that state stands for. */
  lemma {:induction false} RunIsPart(s: string) returns (p: Part)
    requires IsHead(Run(s)) || (Run(s).HeadDone? && IsHead(Run(s[..|s| - 1])))
    ensures Fits(p, Run(s)) && PartText(p) == s
  {
    hide HeadMove, Fits, PartText;
    if s == "" {
      p := InVerb("");
      NothingIsPart();
    } else {
      var before, c := s[..|s| - 1], s[|s| - 1];
      assert IsHead(Run(before)) by { StillHead(Run(before), c); }
      var p0 := RunIsPart(before);
      p := PartGoesOn(p0, Run(before), c);
      assert s == before + [c];
    }
  }

  lemma NothingIsPart()
    ensures Fits(InVerb(""), MethodStart) && PartText(InVerb("")) == ""
  {
  }

  lemma StillHead(q: State, c: char)
    ensures IsHead(Next(q, c)) ==> IsHead(q)
  {
  }

  // --- every head of the grammar is accepted ---

  /** Bytes on which the automaton stays within some states. */
  lemma {:induction false} Stays(s: string, x: string, inside: State -> bool, good: char -> bool)
    requires inside(Run(s)) && forall i :: 0 <= i < |x| ==> good(x[i])
    requires forall q, c :: inside(q) && good(c) ==> inside(Next(q, c))
    ensures inside(Run(s + x))
  {
    hide Run, Next;
    if x == "" {
      assert s + x == s;
    } else {
      var n := |x| - 1;
      Stays(s, x[..n], inside, good);
      assert s + x == s + x[..n] + [x[n]];
      RunMore(s + x[..n], x[n]);
    }
  }

  /** The same behind a first byte that gets there. */
  lemma Enters(s: string, x: string, inside: State -> bool, good: char -> bool)
    requires x != "" && inside(Next(Run(s), x[0])) && forall i :: 1 <= i < |x| ==> good(x[i])
    requires forall q, c :: inside(q) && good(c) ==> inside(Next(q, c))
    ensures inside(Run(s + x))
  {
    hide Run, Next;
    RunMore(s, x[0]);
    Stays(s + [x[0]], x[1..], inside, good);
    assert s + [x[0]] + x[1..] == s + x;
  }

  lemma AcceptsVerb(verb: string)
    requires IsVerb(verb)
    ensures Run(verb + " ").TargetStart?
  {
    assert "" + verb == verb;
    Enters("", verb, (q: State) => q.InMethod?, (c: char) => 'a' <= c <= 'z' || 'A' <= c <= 'Z');
    RunMore(verb, ' ');
  }

  lemma AcceptsTarget(s: string, target: string)
    requires Run(s).TargetStart? && IsTarget(target)
    ensures Run(s + target + " ") == InVersion(0)
  {
    Enters(s, target, (q: State) => q.InTarget?, (c: char) => c != ' ');
    RunMore(s + target, ' ');
  }

  /** The state behind `n` bytes of the version and its line end. */
  function VersionState(n: nat): State {
    if n < 9 then InVersion(n) else if n == 9 then RequestLineEnd else FirstHeader
  }

  lemma VersionGoesOn(minor: char, n: nat)
    requires n < 10 && minor in "01"
    ensures Next(VersionState(n), ("HTTP/1." + [minor] + "\r\n")[n]) == VersionState(n + 1)
  {
  }

  lemma {:induction false} AcceptsVersion(s: string, minor: char, n: nat)
    requires Run(s) == InVersion(0) && minor in "01" && n <= 10
    ensures Run(s + ("HTTP/1." + [minor] + "\r\n")[..n]) == VersionState(n)
  {
    hide Run, Next;
    var text := "HTTP/1." + [minor] + "\r\n";
    if n == 0 {
      assert s + text[..0] == s;
    } else {
      AcceptsVersion(s, minor, n - 1);
      VersionGoesOn(minor, n - 1);
      assert s + text[..n] == s + text[..n - 1] + [text[n - 1]];
      RunMore(s + text[..n - 1], text[n - 1]);
    }
  }

  lemma AcceptsRequestLine(r: Request)
    requires IsRequestLine(r)
    ensures Run(PrintRequestLine(r)).FirstHeader?
  {
    hide Run, IsVerb, IsTarget;
    AcceptsVerb(r.verb);
    AcceptsTarget(r.verb + " ", r.target);
    var text := "HTTP/1." + [r.minor] + "\r\n";
    AcceptsVersion(r.verb + " " + r.target + " ", r.minor, 10);
    assert text[..10] == text;
    assert r.verb + " " + r.target + " " + text == PrintRequestLine(r);
  }

  predicate InNameState(q: State) { q.InKey? || q.Keyword? }

  lemma NameStays(q: State, c: char)
    requires InNameState(q)
    ensures TokenChar(c) ==> InNameState(Next(q, c))
    ensures c == ':' ==> Next(q, c).Colon?
  {
    hide TokenChar, IsSeparator;
    SeparatorsAreNot(c);
    KnownSeparators();
    if q.Keyword? {
      KeywordsHaveNoSeparators(q.field, q.n, c);
    }
  }

  /** A name goes on to its colon; on a later line it may start with a carriage return, but not end the head. */
  lemma AcceptsName(s: string, key: string)
    requires AtKey(Run(s)) && IsName(key) && (Run(s).NextHeader? ==> !("\r\n" <= key))
    ensures Run(s + key + ":").Colon?
  {
    hide Run, TokenChar, Next;
    forall q, c | InNameState(q) && TokenChar(c) ensures InNameState(Next(q, c)) { NameStays(q, c); }
    FirstOfName(Run(s), key[0]);
    if Run(s).NextHeader? && key[0] == '\r' {
      RunMore(s, '\r');
      if |key| == 1 {
        assert s + key == s + ['\r'];
        SecondOfName(':');
      } else {
        assert key[1] != '\n' by { assert key[..2] == "\r\n" <==> key[0] == '\r' && key[1] == '\n'; }
        SecondOfName(key[1]);
        Enters(s + ['\r'], key[1..], InNameState, TokenChar);
        assert s + ['\r'] + key[1..] == s + key;
        NameStays(Run(s + key), ':');
      }
    } else {
      Enters(s, key, InNameState, TokenChar);
      NameStays(Run(s + key), ':');
    }
    RunMore(s + key, ':');
  }

  lemma FirstOfName(q: State, c: char)
    requires AtKey(q) && TokenChar(c)
    ensures if q.NextHeader? && c == '\r' then Next(q, c).HeadEnd? else InNameState(Next(q, c))
  {
    SeparatorsAreNot(c);
  }

  lemma SecondOfName(c: char)
    ensures Next(HeadEnd, ':').Colon?
    ensures TokenChar(c) && c != '\n' ==> InNameState(Next(HeadEnd, c))
  {
    SeparatorsAreNot(c);
  }

  lemma AcceptsBlanks(s: string, blanks: string)
    requires Run(s).Colon? && IsBlanks(blanks)
    ensures Run(s + blanks).ValueStart?
  {
    Enters(s, blanks, (q: State) => q.ValueStart?, (c: char) => c in " \t");
  }

  predicate InValueState(q: State) { q.InValue? || q.InDigits? || q.InCoding? }

  lemma ValueStays(q: State, c: char)
    requires InValueState(q)
    ensures c !in "\r\n" ==> InValueState(Next(q, c))
    ensures c == '\r' ==> Next(q, c).ValueEnd?
  {
  }

  lemma FirstOfValue(q: State, c: char)
    requires q.ValueStart? && c !in " \t"
    ensures if c == '\r' then Next(q, c).EmptyValue? else InValueState(Next(q, c))
  {
  }

  lemma AfterReturn(c: char)
    ensures Next(EmptyValue, '\n').NextHeader? && Next(EmptyValue, '\r').ValueEnd? && Next(ValueEnd, '\n').NextHeader?
    ensures c !in "\r\n" ==> InValueState(Next(EmptyValue, c))
  {
  }

  /** A value goes on to the end of its line. */
  lemma AcceptsValue(s: string, value: string)
    requires Run(s).ValueStart? && IsValue(value)
    ensures Run(s + value + "\r" + "\n").NextHeader?
  {
    hide Run, Next;
    forall q, c | InValueState(q) && c !in "\r\n" ensures InValueState(Next(q, c)) { ValueStays(q, c); }
    var good := (c: char) => c !in "\r\n";
    AfterReturn('\r');
    FirstOfValue(Run(s), if value == "" then '\r' else value[0]);
    if value == "" {
      assert s + value == s;
    } else if value[0] == '\r' {
      RunMore(s, '\r');
      if |value| == 1 {
        assert s + value == s + ['\r'];
      } else {
        AfterReturn(value[1]);
        Enters(s + ['\r'], value[1..], InValueState, good);
        assert s + ['\r'] + value[1..] == s + value;
        ValueStays(Run(s + value), '\r');
      }
    } else {
      Enters(s, value, InValueState, good);
      ValueStays(Run(s + value), '\r');
    }
    RunMore(s + value, '\r');
    RunMore(s + value + "\r", '\n');
  }

  lemma AcceptsLine(s: string, h: Header)
    requires AtKey(Run(s)) && IsLine(h, Run(s).FirstHeader?)
    ensures Run(s + PrintHeader(h)).NextHeader?
  {
    hide Run, IsName, IsBlanks, IsValue;
    AcceptsName(s, h.key);
    AcceptsBlanks(s + h.key + ":", h.blanks);
    AcceptsValue(s + h.key + ":" + h.blanks, h.value);
    assert s + h.key + ":" + h.blanks + h.value + "\r" + "\n" == s + PrintHeader(h);
  }

  lemma {:induction false} AcceptsLines(s: string, hs: seq<Header>)
    requires Run(s).FirstHeader? && AreLines(hs)
    ensures if hs == [] then Run(s + PrintHeaders(hs)).FirstHeader? else Run(s + PrintHeaders(hs)).NextHeader?
  {
    hide Run, IsLine, PrintHeader;
    if hs == [] {
      assert s + PrintHeaders(hs) == s;
    } else {
      var n := |hs| - 1;
      AcceptsLines(s, hs[..n]);
      AcceptsLine(s + PrintHeaders(hs[..n]), hs[n]);
      assert s + PrintHeaders(hs[..n]) + PrintHeader(hs[n]) == s + PrintHeaders(hs);
    }
  }

  lemma HeadEnds(s: string)
    requires Run(s).NextHeader?
    ensures IsHead(Run(s + "\r")) && Run(s + "\r" + "\n").HeadDone?
  {
    RunMore(s, '\r');
    RunMore(s + "\r", '\n');
  }

  lemma AcceptsRequest(r: Request)
    requires IsRequest(r)
    ensures PrintRequest(r) != "" && Run(PrintRequest(r)).HeadDone?
    ensures IsHead(Run(PrintRequest(r)[..|PrintRequest(r)| - 1]))
  {
    hide Run, PrintRequestLine, PrintHeaders, IsRequestLine, AreLines;
    AcceptsRequestLine(r);
    AcceptsLines(PrintRequestLine(r), r.headers);
    var lines := PrintRequestLine(r) + PrintHeaders(r.headers);
    HeadEnds(lines);
    assert lines + "\r" + "\n" == PrintRequest(r);
    assert PrintRequest(r)[..|PrintRequest(r)| - 1] == lines + "\r";
  }

  // --- from every state of the head there is a way to its end ---

  /** A byte that leads on. */
  function Onward(q: State): char {
    match q
    case MethodStart => 'A'
    case InMethod => ' '
    case TargetStart => 'A'
    case InTarget => ' '
    case InVersion(n) => if n < 7 then VERSION_PREFIX[n] else if n == 7 then '0' else '\r'
    case FirstHeader => 'A'
    case InKey => ':'
    case Keyword(_, _) => ':'
    case Colon(_) => ' '
    case RequestLineEnd => '\n'
    case ValueEnd => '\n'
    case EmptyValue => '\n'
    case HeadEnd => '\n'
    case _ => '\r'
  }

  /** How many bytes it takes at most. */
  function Distance(q: State): nat {
    match q
    case MethodStart => 24
    case InMethod => 23
    case TargetStart => 22
    case InTarget => 21
    case InVersion(n) => if n < 8 then 20 - n else 12
    case RequestLineEnd => 11
    case FirstHeader => 10
    case InKey => 9
    case Keyword(_, _) => 9
    case Colon(_) => 8
    case ValueStart(_) => 7
    case EmptyValue => 5
    case ValueEnd => 5
    case NextHeader => 4
    case HeadEnd => 3
    case _ => 6
  }

  lemma OnwardIsNearer(q: State)
    requires IsHead(q)
    ensures var q' := Next(q, Onward(q)); q'.HeadDone? || (IsHead(q') && Distance(q') < Distance(q))
  {
  }

  /** Every beginning of a head that has not failed can be continued to a head. */
  lemma {:induction false} CanBeEnded(s: string) returns (t: string)
    requires IsHead(Run(s))
    ensures t != "" && Run(s + t).HeadDone? && IsHead(Run((s + t)[..|s + t| - 1]))
    decreases Distance(Run(s))
  {
    hide Run, Next, Onward, Distance;
    var c := Onward(Run(s));
    OnwardIsNearer(Run(s));
    RunMore(s, c);
    if Run(s + [c]).HeadDone? {
      t := [c];
      assert (s + t)[..|s + t| - 1] == s;
    } else {
      var t' := CanBeEnded(s + [c]);
      t := [c] + t';
      assert s + t == s + [c] + t';
    }
  }

  // --- the automaton accepts the grammar ---

  lemma RunsToRequest(s: string) returns (r: Request)
    requires s != "" && Run(s).HeadDone? && IsHead(Run(s[..|s| - 1]))
    ensures IsRequest(r) && PrintRequest(r) == s
  {
    hide Run, IsRequest, PrintRequest;
    var p := RunIsPart(s);
    assert p.Ended? by { OnlyTheEndFits(p, Run(s)); }
    r := p.r;
  }

  lemma OnlyTheEndFits(p: Part, q: State)
    requires q.HeadDone? && Fits(p, q)
    ensures p.Ended?
  {
  }

  /** `s` begins with a head of the grammar. */
  ghost predicate HasHead(s: string) { exists r :: IsRequest(r) && PrintRequest(r) <= s }

  /** `s` begins with a head of the grammar, or is the beginning of one. */
  ghost predicate Viable(s: string) { HasHead(s) || exists r :: IsRequest(r) && s <= PrintRequest(r) }

  lemma StillBefore(s: string, n: nat)
    requires n <= |s| && IsHead(Run(s))
    ensures IsHead(Run(s[..n]))
  {
    hide Run;
    assert s[..n] + s[n..] == s;
    if !IsHead(Run(s[..n])) {
      RunStops(s[..n], s[n..]);
    }
  }

  lemma HeadIsRead(s: string, r: Request, max: int)
    requires IsRequest(r) && PrintRequest(r) <= s
    ensures Fold(s, max).end == |PrintRequest(r)| > 0
  {
    hide Fold, IsRequest, PrintRequest, Run;
    var head := PrintRequest(r);
    AcceptsRequest(r);
    FoldRuns(head, max);
    FoldSound(head, max);
    var n := Fold(head, max).end;
    var m := if n < |head| then n else |head| - 1;
    StillBefore(head[..|head| - 1], m);
    assert head[..|head| - 1][..m] == head[..m];
    FoldAbsorbs(head, s[|head|..], max);
    assert head + s[|head|..] == s;
  }

  /** The head is complete if and only if the bytes begin with a head of the grammar, and it ends where that ends. */
  lemma HeadsAreOfTheGrammar(s: string, max: int)
    ensures Fold(s, max).end > 0 <==> HasHead(s)
    ensures forall r :: IsRequest(r) && PrintRequest(r) <= s ==> Fold(s, max).end == |PrintRequest(r)|
  {
    hide Fold, IsRequest, PrintRequest, Run;
    forall r | IsRequest(r) && PrintRequest(r) <= s ensures Fold(s, max).end == |PrintRequest(r)| > 0 {
      HeadIsRead(s, r, max);
    }
    var n := Fold(s, max).end;
    if n > 0 {
      FoldRuns(s, max);
      assert s[..n][..n - 1] == s[..n - 1];
      var r := RunsToRequest(s[..n]);
    }
  }

  /** The automaton has given up if and only if the bytes neither begin with a head of the grammar nor are the
      beginning of one: so at the first byte that does not fit, and not before. */
  lemma ErrorsAreOutsideTheGrammar(s: string, max: int)
    ensures Fold(s, max).k.state.Error? <==> !Viable(s)
  {
    hide Fold, IsRequest, PrintRequest, Run;
    FoldSound(s, max);
    FoldRuns(s, max);
    HeadsAreOfTheGrammar(s, max);
    if Fold(s, max).end == 0 && IsHead(Run(s)) {
      var t := CanBeEnded(s);
      var r := RunsToRequest(s + t);
      assert s <= PrintRequest(r);
    }
    forall r | IsRequest(r) && s <= PrintRequest(r) ensures !Fold(s, max).k.state.Error? {
      BeginningsAreFine(s, r, max);
    }
  }

  lemma BeginningsAreFine(s: string, r: Request, max: int)
    requires IsRequest(r) && s <= PrintRequest(r)
    ensures !Fold(s, max).k.state.Error?
  {
    hide Fold, IsRequest, PrintRequest;
    HeadIsRead(PrintRequest(r), r, max);
    FoldSound(PrintRequest(r), max);
    assert s + PrintRequest(r)[|s|..] == PrintRequest(r);
    if !IsHead(Fold(s, max).k.state) {
      FoldAbsorbs(s, PrintRequest(r)[|s|..], max);
    }
  }

  /** So under every schedule of reads and parser calls: once the input received has been worked off, the head is
      complete exactly if there is one, and the parser is in the error state exactly if there can be none. */
  lemma SchedulesFollowTheGrammar(capacity: int, events: seq<Event>, max: int)
    requires Settled(Play(Start(capacity), events, max))
    ensures var s := Play(Start(capacity), events, max);
      && (s.b.afterHeaders > 0 <==> HasHead(s.received))
      && (s.b.afterHeaders == 0 ==> (s.p.core.state.Error? <==> !Viable(s.received)))
  {
    hide Fold, Play, HasHead, Viable;
    var s := Play(Start(capacity), events, max);
    SettledSessionsFollowTheFold(capacity, events, max);
    HeadsAreOfTheGrammar(s.received, max);
    ErrorsAreOutsideTheGrammar(s.received, max);
  }
}

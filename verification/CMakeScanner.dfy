/** The call scanner of tools/codegraph.py: finds `name(...)` calls in CMake text. */
module CMakeScanner {
  import opened Text

  /** The scanning state between two characters of a call's body. */
  datatype Automaton = Automaton(depth: nat, quote: Option<char>, escaped: bool)

  const START := Automaton(1, None, false)

  /** One character of the inner loop; a closed automaton reads no more. */
  function Step(a: Automaton, c: char): Automaton {
    if a.depth == 0 then a
    else if a.escaped then a.(escaped := false)
    else if c == '\\' && a.quote.Some? then a.(escaped := true)
    else if c == '"' || c == '\'' then
      a.(quote := if a.quote == Some(c) then None else if a.quote.None? then Some(c) else a.quote)
    else if a.quote.Some? then a
    else if c == '(' then a.(depth := a.depth + 1)
    else if c == ')' then a.(depth := a.depth - 1)
    else a
  }

  function Run(a: Automaton, s: string): Automaton
    decreases |s|
  {
    if s == "" then a else Run(Step(a, s[0]), s[1..])
  }

  /** Index just past the character that brings the depth to zero. */
  function CloseFrom(text: string, i: nat, a: Automaton): (e: Option<nat>)
    requires i <= |text|
    ensures e.Some? ==> i <= e.value <= |text|
    decreases |text| - i
  {
    if a.depth == 0 then Some(i)
    else if i == |text| then None
    else CloseFrom(text, i + 1, Step(a, text[i]))
  }

  /** A match of the head pattern: the name is `text[start..nameEnd]`, the body begins at `open`. */
  datatype Head = Head(start: nat, nameEnd: nat, open: nat)

  function WordEnd(text: string, p: nat): (e: nat)
    requires p <= |text|
    ensures p <= e <= |text|
    ensures forall i :: p <= i < e ==> IsWord(text[i])
    ensures e < |text| ==> !IsWord(text[e])
    decreases |text| - p
  {
    if p < |text| && IsWord(text[p]) then WordEnd(text, p + 1) else p
  }

  function SpaceEnd(text: string, p: nat): (e: nat)
    requires p <= |text|
    ensures p <= e <= |text|
    ensures forall i :: p <= i < e ==> IsSpace(text[i])
    ensures e < |text| ==> !IsSpace(text[e])
    decreases |text| - p
  {
    if p < |text| && IsSpace(text[p]) then SpaceEnd(text, p + 1) else p
  }

  /** The head that begins at `p`, if one does. */
  function HeadAt(text: string, names: set<string>, p: nat): (h: Option<Head>)
    requires p <= |text|
    ensures h.Some? ==> h.value.start == p <= h.value.nameEnd < h.value.open <= |text|
  {
    var e := WordEnd(text, p);
    var s := SpaceEnd(text, e);
    if (p == 0 || !IsWord(text[p - 1])) && Lower(text[p..e]) in names && s < |text| && text[s] == '('
    then Some(Head(p, e, s + 1)) else None
  }

  /** The head pattern read as a regular expression: a word boundary, one of the names in any
      case, white space, an opening parenthesis. */
  ghost predicate MatchesHead(text: string, names: set<string>, h: Head) {
    && h.start < h.nameEnd < h.open <= |text|
    && (h.start == 0 || IsWord(text[h.start - 1]) != IsWord(text[h.start]))
    && Lower(text[h.start..h.nameEnd]) in names
    && (forall i :: h.nameEnd <= i < h.open - 1 ==> IsSpace(text[i]))
    && text[h.open - 1] == '('
  }

  /** The names a caller may look for: non-empty lower-case words. */
  ghost predicate CallNames(names: set<string>) {
    forall n :: n in names ==> n != "" && forall i :: 0 <= i < |n| ==> IsWord(n[i]) && LowerChar(n[i]) == n[i]
  }

  /** Whatever order the names take in the alternation, a position has one match or none. */
  lemma HeadAtIsThePattern(text: string, names: set<string>, h: Head)
    requires CallNames(names) && h.start <= |text|
    ensures HeadAt(text, names, h.start) == Some(h) <==> MatchesHead(text, names, h)
  {
    var e, s := WordEnd(text, h.start), SpaceEnd(text, WordEnd(text, h.start));
    if HeadAt(text, names, h.start) == Some(h) {
      assert Lower(text[h.start..h.nameEnd]) != "";
      assert IsWord(text[h.start]);
    }
    if MatchesHead(text, names, h) {
      var w := Lower(text[h.start..h.nameEnd]);
      forall i | h.start <= i < h.nameEnd ensures IsWord(text[i]) {
        assert w[i - h.start] == LowerChar(text[i]);
      }
      assert IsWord(text[h.start]);
      assert !IsWord(text[h.nameEnd]) by {
        assert h.nameEnd < h.open - 1 ==> IsSpace(text[h.nameEnd]);
      }
      assert e == h.nameEnd;
      assert s == h.open - 1;
    }
  }

  /** The leftmost head at or after `p`. */
  function FindHead(text: string, names: set<string>, p: nat): (h: Option<Head>)
    requires p <= |text|
    ensures h.Some? ==> p <= h.value.start <= |text| && HeadAt(text, names, h.value.start) == h
    decreases |text| - p
  {
    if HeadAt(text, names, p).Some? then HeadAt(text, names, p)
    else if p == |text| then None
    else FindHead(text, names, p + 1)
  }

  lemma {:induction false} FindHeadIsLeftmost(text: string, names: set<string>, p: nat, q: nat)
    requires p <= q <= |text| && HeadAt(text, names, q).Some?
    ensures FindHead(text, names, p).Some? && FindHead(text, names, p).value.start <= q
    decreases q - p
  {
    if HeadAt(text, names, p).None? {
      FindHeadIsLeftmost(text, names, p + 1, q);
    }
  }

  /** A reported call: `body` is the text from `open` to the parenthesis before `end`. */
  datatype Call = Call(name: string, body: string, start: nat, open: nat, end: nat)

  function CallOf(text: string, h: Head, end: nat): Call
    requires h.start <= h.nameEnd < h.open < end <= |text|
  {
    Call(Lower(text[h.start..h.nameEnd]), text[h.open..end - 1], h.start, h.open, end)
  }

  /** The recursive specification of the scan from `p`. */
  function Scan(text: string, names: set<string>, p: nat): seq<Call>
    requires p <= |text|
    decreases |text| - p
  {
    match FindHead(text, names, p)
    case None => []
    case Some(h) =>
      match CloseFrom(text, h.open, START)
      case Some(e) => [CallOf(text, h, e)] + Scan(text, names, e)
      case None => Scan(text, names, h.open)
  }

  function Yields(calls: seq<Call>): seq<(string, string)> {
    seq(|calls|, i requires 0 <= i < |calls| => (calls[i].name, calls[i].body))
  }

  /** One turn of the outer loop, for the calls already reported. */
  lemma ScanReports(text: string, names: set<string>, p: nat, h: Head, e: nat, done: seq<(string, string)>)
    requires p <= |text| && FindHead(text, names, p) == Some(h) && CloseFrom(text, h.open, START) == Some(e)
    ensures h.open < e
    ensures done + Yields(Scan(text, names, p)) ==
            done + [(Lower(text[h.start..h.nameEnd]), text[h.open..e - 1])] + Yields(Scan(text, names, e))
  {
  }

  /** The inner loop: reads a body until its parenthesis closes or the text ends. */
  method ReadBody(text: string, open: nat) returns (depth: int, index: nat)
    requires open <= |text|
    ensures index <= |text|
    ensures CloseFrom(text, open, START) == if depth == 0 then Some(index) else None
  {
    depth, index := 1, open;
    var quote: Option<char> := None;
    var escaped := false;
    ghost var a := START;
    while index < |text| && depth != 0
      invariant open <= index <= |text|
      invariant a == Automaton(depth, quote, escaped)
      invariant CloseFrom(text, index, a) == CloseFrom(text, open, START)
    {
      var c := text[index];
      a := Step(a, c);
      if escaped {
        escaped := false;
      } else if c == '\\' && quote.Some? {
        escaped := true;
      } else if c == '"' || c == '\'' {
        quote := if quote == Some(c) then None else if quote.None? then Some(c) else quote;
      } else if quote.None? {
        if c == '(' {
          depth := depth + 1;
        } else if c == ')' {
          depth := depth - 1;
        }
      }
      index := index + 1;
    }
  }

  method IterCMakeCalls(text: string, names: set<string>) returns (calls: seq<(string, string)>)
    ensures calls == Yields(Scan(text, names, 0))
  {
    calls := [];
    var position := 0;
    var found := FindHead(text, names, position);
    while found.Some?
      invariant position <= |text| && found == FindHead(text, names, position)
      invariant calls + Yields(Scan(text, names, position)) == Yields(Scan(text, names, 0))
      decreases |text| - position
    {
      var head := found.value;
      var depth, index := ReadBody(text, head.open);
      if depth == 0 {
        ScanReports(text, names, position, head, index, calls);
        calls := calls + [(Lower(text[head.start..head.nameEnd]), text[head.open..index - 1])];
        position := index;
      } else {
        position := head.open;
      }
      found := FindHead(text, names, position);
    }
  }
}

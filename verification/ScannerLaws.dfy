/** What the call scanner reports on arbitrary text. */
module ScannerLaws {
  import opened Text
  import opened TextLaws
  import opened CMakeScanner

  /** Escapes happen only inside quotes, and a body closes only outside them. */
  ghost predicate Sane(a: Automaton) {
    && (a.escaped ==> a.quote.Some?)
    && (a.depth == 0 ==> a.quote.None?)
  }

  lemma {:induction false} RunStaysSane(a: Automaton, s: string)
    requires Sane(a)
    ensures Sane(Run(a, s))
    decreases |s|
  {
    if s != "" {
      RunStaysSane(Step(a, s[0]), s[1..]);
    }
  }

  /** No prefix of `s` closes the automaton. */
  ghost predicate StaysOpen(a: Automaton, s: string) {
    forall k :: 0 <= k <= |s| ==> Run(a, s[..k]).depth > 0
  }

  lemma StaysOpenCons(a: Automaton, c: char, s: string)
    ensures StaysOpen(a, [c] + s) <==> a.depth > 0 && StaysOpen(Step(a, c), s)
  {
    forall k | 0 <= k <= |s| ensures Run(Step(a, c), s[..k]) == Run(a, ([c] + s)[..k + 1]) {
      assert ([c] + s)[..k + 1][1..] == s[..k];
    }
    assert Run(a, ([c] + s)[..0]) == a;
    if a.depth > 0 && StaysOpen(Step(a, c), s) {
      forall k | 0 <= k <= |s| + 1 ensures Run(a, ([c] + s)[..k]).depth > 0 {
        if k > 0 {
          assert Run(Step(a, c), s[..k - 1]).depth > 0;
        }
      }
    }
  }

  /** A body ends exactly at the first position where the depth outside quotes reaches zero. */
  lemma {:induction false} CloseIsFirstZero(text: string, i: nat, a: Automaton, e: nat)
    requires i < e <= |text|
    ensures CloseFrom(text, i, a) == Some(e) <==>
            StaysOpen(a, text[i..e - 1]) && Run(a, text[i..e]).depth == 0
    decreases e - i
  {
    assert text[i..e] == [text[i]] + text[i + 1..e];
    var b := Step(a, text[i]);
    if a.depth == 0 {
      assert Run(a, text[i..e - 1][..0]) == a;
    } else if e == i + 1 {
      assert Run(a, text[i..e]) == Run(b, "");
      assert text[i..e - 1] == "";
    } else {
      CloseIsFirstZero(text, i + 1, b, e);
      assert text[i..e - 1] == [text[i]] + text[i + 1..e - 1];
      StaysOpenCons(a, text[i], text[i + 1..e - 1]);
      if CloseFrom(text, i, a) == Some(e) {
        assert CloseFrom(text, i + 1, b) == Some(e);
      }
    }
  }

  /** A call the scan may report: a head, and the body up to its closing parenthesis. */
  ghost predicate IsCall(text: string, names: set<string>, c: Call) {
    && c.start < c.open < c.end <= |text|
    && HeadAt(text, names, c.start).Some?
    && var h := HeadAt(text, names, c.start).value;
    && h.open == c.open && CloseFrom(text, h.open, START) == Some(c.end)
    && c == CallOf(text, h, c.end)
  }

  /** A list of calls in increasing and disjoint spans, the first at or after `p`. */
  ghost predicate Ordered(calls: seq<Call>, p: nat) {
    && (calls != [] ==> p <= calls[0].start)
    && (forall i :: 0 <= i < |calls| ==> calls[i].start < calls[i].end)
    && (forall i, j :: 0 <= i < j < |calls| ==> calls[i].end <= calls[j].start)
  }

  lemma OrderedCons(c: Call, calls: seq<Call>, p: nat)
    requires p <= c.start < c.end && Ordered(calls, c.end)
    ensures Ordered([c] + calls, p)
  {
    var all := [c] + calls;
    forall i | 0 < i < |all| ensures c.end <= all[i].start {
      assert calls[0].end <= calls[i - 1].start || i == 1;
    }
  }

  /** Everything reported is a call, in increasing and disjoint spans. */
  lemma {:induction false} ReportedSpans(text: string, names: set<string>, p: nat)
    requires p <= |text|
    ensures forall c :: c in Scan(text, names, p) ==> IsCall(text, names, c)
    ensures Ordered(Scan(text, names, p), p)
    decreases |text| - p
  {
    var found := FindHead(text, names, p);
    if found.Some? {
      var h := found.value;
      var close := CloseFrom(text, h.open, START);
      if close.Some? {
        var call, rest := CallOf(text, h, close.value), Scan(text, names, close.value);
        ReportedSpans(text, names, close.value);
        assert IsCall(text, names, call);
        OrderedCons(call, rest, p);
        assert Scan(text, names, p) == [call] + rest;
      } else {
        ReportedSpans(text, names, h.open);
      }
    }
  }

  /** Every call at or after `p` is reported, unless it begins inside a reported one. In particular
      an unclosed head hides no later call, and none inside its own text. */
  lemma {:induction false} EveryCallIsCovered(text: string, names: set<string>, p: nat, call: Call)
    requires p <= call.start && IsCall(text, names, call)
    ensures call in Scan(text, names, p) ||
            exists c :: c in Scan(text, names, p) && c.start < call.start < c.end
    decreases |text| - p
  {
    FindHeadIsLeftmost(text, names, p, call.start);
    var h := FindHead(text, names, p).value;
    var close := CloseFrom(text, h.open, START);
    if close.Some? {
      var first, rest := CallOf(text, h, close.value), Scan(text, names, close.value);
      assert Scan(text, names, p) == [first] + rest;
      if h.start == call.start {
        assert call == Scan(text, names, p)[0];
      } else if call.start < close.value {
        assert first in Scan(text, names, p);
      } else {
        EveryCallIsCovered(text, names, close.value, call);
        assert forall c :: c in rest ==> c in Scan(text, names, p);
      }
    } else {
      OverlappingHeads(text, names, h.start, call.start);
      EveryCallIsCovered(text, names, h.open, call);
    }
  }

  /** Two heads that overlap share their parenthesis. */
  lemma OverlappingHeads(text: string, names: set<string>, p: nat, q: nat)
    requires p <= q <= |text| && HeadAt(text, names, p).Some? && HeadAt(text, names, q).Some?
    ensures q < HeadAt(text, names, p).value.open ==>
            HeadAt(text, names, q).value.open == HeadAt(text, names, p).value.open
  {
    var h := HeadAt(text, names, p).value;
    if h.nameEnd <= q < h.open {
      assert WordEnd(text, q) == q;
      SpaceEndUnique(text, h.nameEnd, q);
    }
  }

  lemma {:induction false} SpaceEndUnique(text: string, p: nat, q: nat)
    requires p <= |text| && p <= q <= SpaceEnd(text, p)
    ensures SpaceEnd(text, q) == SpaceEnd(text, p)
    decreases q - p
  {
    if p < q {
      SpaceEndUnique(text, p + 1, q);
    }
  }

  /** Exactly the outermost calls are reported. */
  lemma ReportedIffOutermost(text: string, names: set<string>, call: Call)
    requires IsCall(text, names, call)
    ensures call in Scan(text, names, 0) <==>
            !exists c :: c in Scan(text, names, 0) && c.start < call.start < c.end
  {
    EveryCallIsCovered(text, names, 0, call);
    ReportedSpans(text, names, 0);
    var cs := Scan(text, names, 0);
    if call in cs {
      var i :| 0 <= i < |cs| && cs[i] == call;
      forall c | c in cs ensures !(c.start < call.start < c.end) {
        var j :| 0 <= j < |cs| && cs[j] == c;
        assert j < i ==> cs[j].end <= cs[i].start;
        assert i < j ==> cs[i].end <= cs[j].start;
      }
    }
  }

  /** A head read letter by letter: after no word character, one of the names in any case, white space, an
      opening parenthesis. */
  ghost predicate SpellsHead(text: string, names: set<string>, h: Head, name: string) {
    && h.start < h.nameEnd < h.open <= |text|
    && (h.start > 0 ==> !IsWord(text[h.start - 1]))
    && name in names && Spells(text[h.start..h.nameEnd], name)
    && (forall i :: h.nameEnd <= i < h.open - 1 ==> IsSpace(text[i]))
    && text[h.open - 1] == '('
  }

  lemma NameIsSpelled(names: set<string>, word: string, name: string)
    requires CallNames(names) && name in names
    ensures Spells(word, name) <==> Lower(word) == name
  {
    hide Spells;
    hide LowerChar;
    SpellsIff(word, name);
    assert Lower(name) == name;
  }

  /** The heads are those whose letters spell a name, and a call is reported under the name it spells. */
  lemma HeadsAreSpelled(text: string, names: set<string>, h: Head, name: string)
    requires CallNames(names) && h.start <= |text|
    ensures HeadAt(text, names, h.start) == Some(h) && Lower(text[h.start..h.nameEnd]) == name <==>
            SpellsHead(text, names, h, name)
  {
    hide WordEnd;
    hide SpaceEnd;
    hide Spells;
    hide HeadAt;
    hide Lower;
    hide IsWord;
    HeadAtIsThePattern(text, names, h);
    if name in names && h.start < h.nameEnd < h.open <= |text| {
      NameIsSpelled(names, text[h.start..h.nameEnd], name);
      if Lower(text[h.start..h.nameEnd]) == name {
        StartsWithWord(names, text[h.start..h.nameEnd], name);
      }
    }
  }

  lemma StartsWithWord(names: set<string>, word: string, name: string)
    requires CallNames(names) && name in names && Lower(word) == name
    ensures word != "" && IsWord(word[0])
  {
    assert IsWord(name[0]) && name[0] == LowerChar(word[0]);
  }
}

/** Scanning is sequential, and printing calls then scanning gives them back. */
module ScannerSeams {
  import opened Text
  import opened CMakeScanner
  import opened CallGrammar

  /** Every head the scan from `p` meets is closed. */
  ghost predicate AllClosed(text: string, names: set<string>, p: nat)
    requires p <= |text|
    decreases |text| - p
  {
    match FindHead(text, names, p)
    case None => true
    case Some(h) =>
      var close := CloseFrom(text, h.open, START);
      close.Some? && AllClosed(text, names, close.value)
  }

  /** Joining `a` and `b` neither splits a word nor makes a head that reaches across. */
  ghost predicate CleanSeam(a: string, b: string, names: set<string>) {
    && SplitsNoWord(a, b)
    && forall p :: 0 <= p < |a| && HeadAt(a + b, names, p).Some? ==> HeadAt(a + b, names, p).value.open <= |a|
  }

  function Shift(calls: seq<Call>, k: nat): seq<Call> {
    seq(|calls|, i requires 0 <= i < |calls| =>
      calls[i].(start := calls[i].start + k, open := calls[i].open + k, end := calls[i].end + k))
  }

  /** The seam does not make one word of two. */
  ghost predicate SplitsNoWord(a: string, b: string) {
    a == "" || b == "" || !IsWord(a[|a| - 1]) || !IsWord(b[0])
  }

  /** `x` stands in `t` at `k`. */
  ghost predicate StandsAt(t: string, k: nat, x: string) {
    k + |x| <= |t| && forall i :: k <= i < k + |x| ==> t[i] == x[i - k]
  }

  function Moved(h: Head, k: nat): Head {
    Head(h.start + k, h.nameEnd + k, h.open + k)
  }

  lemma SliceStands(t: string, k: nat, x: string, i: nat, j: nat)
    requires StandsAt(t, k, x) && i <= j <= |x|
    ensures t[i + k..j + k] == x[i..j]
  {
  }

  /** A head inside `x` is a head of the text `x` stands in, and the other way round. */
  lemma MatchMoves(t: string, k: nat, x: string, names: set<string>, h: Head)
    requires CallNames(names) && StandsAt(t, k, x) && h.open <= |x|
    requires k == 0 || (x != "" ==> !IsWord(t[k - 1]) || !IsWord(x[0]))
    ensures MatchesHead(x, names, h) <==> MatchesHead(t, names, Moved(h, k))
  {
    if h.start < h.nameEnd < h.open {
      SliceStands(t, k, x, h.start, h.nameEnd);
      var w := Lower(x[h.start..h.nameEnd]);
      assert w[0] == LowerChar(x[h.start]);
      if w in names {
        assert IsWord(w[0]) && IsWord(x[h.start]);
        assert t[h.start + k] == x[h.start];
        assert h.start > 0 ==> t[h.start + k - 1] == x[h.start - 1];
        assert t[h.open + k - 1] == x[h.open - 1];
        assert forall i :: h.nameEnd <= i < h.open - 1 ==> x[i] == t[i + k];
        assert forall i :: h.nameEnd + k <= i < h.open + k - 1 ==> t[i] == x[i - k];
      }
    }
  }

  lemma HeadMoves(t: string, k: nat, x: string, names: set<string>, p: nat)
    requires CallNames(names) && StandsAt(t, k, x) && p <= |x|
    requires k == 0 || (x != "" ==> !IsWord(t[k - 1]) || !IsWord(x[0]))
    ensures match HeadAt(x, names, p)
            case Some(h) => HeadAt(t, names, p + k) == Some(Moved(h, k))
            case None => HeadAt(t, names, p + k).Some? ==> HeadAt(t, names, p + k).value.open > k + |x|
  {
    hide HeadAt;
    hide MatchesHead;
    hide CallNames;
    var inner, outer := HeadAt(x, names, p), HeadAt(t, names, p + k);
    if inner.Some? {
      HeadAtIsThePattern(x, names, inner.value);
      MatchMoves(t, k, x, names, inner.value);
      HeadAtIsThePattern(t, names, Moved(inner.value, k));
    } else if outer.Some? && outer.value.open <= k + |x| {
      var h := outer.value;
      HeadAtIsThePattern(t, names, h);
      OuterHeadFits(t, names, h);
      var g := Head(p, h.nameEnd - k, h.open - k);
      MatchMoves(t, k, x, names, g);
      assert Moved(g, k) == h;
      HeadAtIsThePattern(x, names, g);
    }
  }

  lemma OuterHeadFits(t: string, names: set<string>, h: Head)
    requires MatchesHead(t, names, h)
    ensures h.start < h.nameEnd < h.open <= |t|
  {
  }

  lemma HeadBeforeSeam(a: string, b: string, names: set<string>, p: nat)
    requires CallNames(names) && p < |a| && CleanSeam(a, b, names)
    ensures HeadAt(a + b, names, p) == HeadAt(a, names, p)
  {
    hide HeadAt;
    HeadMoves(a + b, 0, a, names, p);
  }

  lemma HeadAfterSeam(a: string, b: string, names: set<string>, q: nat)
    requires CallNames(names) && q <= |b| && SplitsNoWord(a, b)
    ensures HeadAt(a + b, names, |a| + q) ==
            match HeadAt(b, names, q) case None => None case Some(h) => Some(Moved(h, |a|))
  {
    hide HeadAt;
    HeadMoves(a + b, |a|, b, names, q);
  }

  lemma {:induction false} CloseBeforeSeam(a: string, b: string, i: nat, s: Automaton)
    requires i <= |a| && CloseFrom(a, i, s).Some?
    ensures CloseFrom(a + b, i, s) == CloseFrom(a, i, s)
    decreases |a| - i
  {
    if s.depth != 0 {
      CloseBeforeSeam(a, b, i + 1, Step(s, a[i]));
    }
  }

  lemma {:induction false} CloseAfterSeam(a: string, b: string, i: nat, s: Automaton)
    requires i <= |b|
    ensures CloseFrom(a + b, |a| + i, s) ==
            match CloseFrom(b, i, s) case None => None case Some(e) => Some(|a| + e)
    decreases |b| - i
  {
    if s.depth != 0 && i < |b| {
      CloseAfterSeam(a, b, i + 1, Step(s, b[i]));
    }
  }

  lemma NoHeadAtEnd(text: string, names: set<string>)
    ensures HeadAt(text, names, |text|).None? && FindHead(text, names, |text|).None? && Scan(text, names, |text|) == []
  {
  }

  lemma {:induction false} FindBeforeSeam(a: string, b: string, names: set<string>, p: nat)
    requires CallNames(names) && p <= |a| && CleanSeam(a, b, names)
    ensures FindHead(a + b, names, p) ==
            if FindHead(a, names, p).Some? then FindHead(a, names, p) else FindHead(a + b, names, |a|)
    decreases |a| - p
  {
    NoHeadAtEnd(a, names);
    hide HeadAt;
    hide CleanSeam;
    if p < |a| {
      HeadBeforeSeam(a, b, names, p);
      FindBeforeSeam(a, b, names, p + 1);
    }
  }

  lemma {:induction false} FindAfterSeam(a: string, b: string, names: set<string>, q: nat)
    requires CallNames(names) && q <= |b| && SplitsNoWord(a, b)
    ensures FindHead(a + b, names, |a| + q) ==
            match FindHead(b, names, q) case None => None case Some(h) => Some(Moved(h, |a|))
    decreases |b| - q
  {
    hide HeadAt;
    HeadAfterSeam(a, b, names, q);
    if q < |b| {
      FindAfterSeam(a, b, names, q + 1);
    }
  }

  lemma CallMoves(t: string, k: nat, x: string, h: Head, e: nat)
    requires StandsAt(t, k, x) && h.start <= h.nameEnd < h.open < e <= |x|
    ensures [CallOf(t, Moved(h, k), e + k)] == Shift([CallOf(x, h, e)], k)
  {
    SliceStands(t, k, x, h.start, h.nameEnd);
    SliceStands(t, k, x, h.open, e - 1);
  }

  lemma ShiftCons(c: Call, calls: seq<Call>, k: nat)
    ensures Shift([c] + calls, k) == Shift([c], k) + Shift(calls, k)
  {
  }

  lemma ScanUnfolds(text: string, names: set<string>, p: nat)
    requires p <= |text|
    ensures FindHead(text, names, p).None? ==> Scan(text, names, p) == []
    ensures FindHead(text, names, p).Some? ==>
              var h := FindHead(text, names, p).value;
              match CloseFrom(text, h.open, START)
              case Some(e) => h.open < e && Scan(text, names, p) == [CallOf(text, h, e)] + Scan(text, names, e)
              case None => Scan(text, names, p) == Scan(text, names, h.open)
  {
  }

  lemma {:induction false} ScanAfterSeam(a: string, b: string, names: set<string>, q: nat)
    requires CallNames(names) && q <= |b| && SplitsNoWord(a, b)
    ensures Scan(a + b, names, |a| + q) == Shift(Scan(b, names, q), |a|)
    decreases |b| - q
  {
    hide Scan;
    hide HeadAt;
    hide FindHead;
    hide CloseFrom;
    hide CallOf;
    hide StandsAt;
    hide SplitsNoWord;
    hide CallNames;
    var t, found := a + b, FindHead(b, names, q);
    FindAfterSeam(a, b, names, q);
    ScanUnfolds(b, names, q);
    ScanUnfolds(t, names, |a| + q);
    if found.Some? {
      var h := found.value;
      CloseAfterSeam(a, b, h.open, START);
      var close := CloseFrom(b, h.open, START);
      if close.Some? {
        var call, rest := CallOf(b, h, close.value), Scan(b, names, close.value);
        ScanAfterSeam(a, b, names, close.value);
        SecondStands(a, b);
        CallMoves(t, |a|, b, h, close.value);
        ShiftCons(call, rest, |a|);
      } else {
        ScanAfterSeam(a, b, names, h.open);
      }
    }
  }

  lemma SecondStands(a: string, b: string)
    ensures StandsAt(a + b, |a|, b) && StandsAt(a + b, 0, a)
  {
  }

  /** A first fragment that leaves no call open is scanned as if it stood alone, and so is the second. */
  lemma {:induction false} ScanIsSequential(a: string, b: string, names: set<string>, p: nat)
    requires CallNames(names) && p <= |a| && CleanSeam(a, b, names) && AllClosed(a, names, p)
    ensures Scan(a + b, names, p) == Scan(a, names, p) + Shift(Scan(b, names, 0), |a|)
    decreases |a| - p
  {
    hide Scan;
    hide HeadAt;
    hide FindHead;
    hide CloseFrom;
    hide CallOf;
    hide StandsAt;
    hide CleanSeam;
    hide CallNames;
    var t, found := a + b, FindHead(a, names, p);
    FindBeforeSeam(a, b, names, p);
    ScanUnfolds(a, names, p);
    if found.Some? {
      ScanUnfolds(t, names, p);
      var h := found.value;
      CloseBeforeSeam(a, b, h.open, START);
      var e := CloseFrom(a, h.open, START).value;
      ScanIsSequential(a, b, names, e);
      SecondStands(a, b);
      SameCall(t, a, h, e);
    } else {
      SeamSplitsNoWord(a, b, names);
      SameHeadSameScan(t, names, p, |a|);
      ScanAfterSeam(a, b, names, 0);
    }
  }

  lemma SameCall(t: string, x: string, h: Head, e: nat)
    requires StandsAt(t, 0, x) && h.start <= h.nameEnd < h.open < e <= |x|
    ensures CallOf(t, h, e) == CallOf(x, h, e)
  {
    SliceStands(t, 0, x, h.start, h.nameEnd);
    SliceStands(t, 0, x, h.open, e - 1);
  }

  lemma SeamSplitsNoWord(a: string, b: string, names: set<string>)
    requires CleanSeam(a, b, names)
    ensures SplitsNoWord(a, b)
  {
  }

  lemma SameHeadSameScan(text: string, names: set<string>, p: nat, q: nat)
    requires p <= q <= |text| && FindHead(text, names, p) == FindHead(text, names, q)
    ensures Scan(text, names, p) == Scan(text, names, q)
  {
  }

  lemma YieldsAreSequential(a: string, b: string, names: set<string>)
    requires CallNames(names) && CleanSeam(a, b, names) && AllClosed(a, names, 0)
    ensures Yields(Scan(a + b, names, 0)) == Yields(Scan(a, names, 0)) + Yields(Scan(b, names, 0))
  {
    hide Scan;
    hide CleanSeam;
    hide AllClosed;
    ScanIsSequential(a, b, names, 0);
  }

  // ----- the round trip

  /** A call as it may be written: text before it, its name in any case, white space, its body. */
  datatype Written = Written(gap: string, name: string, space: string, body: Body)

  ghost predicate Fits(w: Written, names: set<string>) {
    && (forall p :: 0 <= p <= |w.gap| ==> HeadAt(w.gap, names, p).None?)
    && (w.gap == "" || !IsWord(w.gap[|w.gap| - 1]))
    && Lower(w.name) in names
    && (forall i :: 0 <= i < |w.space| ==> IsSpace(w.space[i]))
    && WellFormed(w.body)
  }

  function PrintCall(w: Written): string {
    w.gap + w.name + w.space + "(" + Print(w.body) + ")"
  }

  function PrintCalls(ws: seq<Written>, tail: string): string {
    if ws == [] then tail else PrintCall(ws[0]) + PrintCalls(ws[1..], tail)
  }

  function Expected(ws: seq<Written>): seq<(string, string)> {
    seq(|ws|, i requires 0 <= i < |ws| => (Lower(ws[i].name), Print(ws[i].body)))
  }

  function HeadOf(w: Written): Head {
    var n := |w.gap| + |w.name|;
    Head(|w.gap|, n, n + |w.space| + 1)
  }

  lemma PrintedParts(w: Written, names: set<string>)
    requires CallNames(names) && Fits(w, names)
    ensures var t, h := PrintCall(w), HeadOf(w);
            && h.start < h.nameEnd < h.open <= |t|
            && |t| == h.open + |Print(w.body)| + 1
            && StandsAt(t, 0, w.gap)
            && t[h.start..h.nameEnd] == w.name
            && t[h.open..h.open + |Print(w.body)|] == Print(w.body)
            && t[|t| - 1] == ')' && t[h.open - 1] == '('
            && IsWord(t[h.start]) && (w.gap != "" ==> !IsWord(t[h.start - 1]))
            && forall i :: h.nameEnd <= i < h.open - 1 ==> IsSpace(t[i])
  {
    var t, h := PrintCall(w), HeadOf(w);
    assert Lower(w.name)[0] == LowerChar(w.name[0]);
    assert t[h.start] == w.name[0];
    assert forall i :: h.nameEnd <= i < h.open - 1 ==> t[i] == w.space[i - h.nameEnd];
    assert w.gap != "" ==> t[h.start - 1] == w.gap[|w.gap| - 1];
  }

  lemma PrintedHead(w: Written, names: set<string>)
    requires CallNames(names) && Fits(w, names)
    ensures HeadAt(PrintCall(w), names, |w.gap|) == Some(HeadOf(w))
  {
    hide PrintCall;
    PrintedParts(w, names);
    assert MatchesHead(PrintCall(w), names, HeadOf(w));
    HeadAtIsThePattern(PrintCall(w), names, HeadOf(w));
  }

  lemma NoHeadInGap(w: Written, names: set<string>, p: nat)
    requires CallNames(names) && Fits(w, names) && p < |w.gap|
    ensures |PrintCall(w)| > p && HeadAt(PrintCall(w), names, p).None?
  {
    hide PrintCall;
    hide HeadAt;
    hide WellFormed;
    var t, k := PrintCall(w), |w.gap|;
    PrintedParts(w, names);
    HeadMoves(t, 0, w.gap, names, p);
    if HeadAt(t, names, p).Some? {
      var h := HeadAt(t, names, p).value;
      HeadAtIsThePattern(t, names, h);
      HeadStopsAtEdge(t, names, h, k);
    }
  }

  /** A head that starts before a word's beginning ends before it. */
  lemma HeadStopsAtEdge(t: string, names: set<string>, h: Head, k: nat)
    requires CallNames(names) && MatchesHead(t, names, h)
    requires h.start < k < |t| && IsWord(t[k]) && !IsWord(t[k - 1])
    ensures h.open <= k
  {
    WordRun(t, names, h);
    assert !IsWord('(') && forall c :: IsSpace(c) ==> !IsWord(c);
  }

  /** A head's name is all word characters. */
  lemma WordRun(t: string, names: set<string>, h: Head)
    requires CallNames(names) && MatchesHead(t, names, h)
    ensures forall i :: h.start <= i < h.nameEnd ==> IsWord(t[i])
  {
    var w := Lower(t[h.start..h.nameEnd]);
    forall i | h.start <= i < h.nameEnd ensures IsWord(t[i]) {
      assert w[i - h.start] == LowerChar(t[i]);
    }
  }

  lemma PrintedCallScans(w: Written, names: set<string>)
    requires CallNames(names) && Fits(w, names)
    ensures AllClosed(PrintCall(w), names, 0)
    ensures Yields(Scan(PrintCall(w), names, 0)) == [(Lower(w.name), Print(w.body))]
  {
    hide PrintCall;
    hide HeadAt;
    hide FindHead;
    hide CloseFrom;
    hide Scan;
    hide StandsAt;
    hide Print;
    hide WellFormed;
    hide CallNames;
    var t, h := PrintCall(w), HeadOf(w);
    PrintedParts(w, names);
    PrintedHead(w, names);
    FindHeadIsLeftmost(t, names, 0, h.start);
    var found := FindHead(t, names, 0).value;
    if found.start < h.start {
      NoHeadInGap(w, names, found.start);
    }
    TreeCloses(t, h.open, w.body);
    ScanUnfolds(t, names, 0);
    NoHeadAtEnd(t, names);
  }

  lemma SeamAfterCall(w: Written, rest: string, names: set<string>)
    requires CallNames(names) && Fits(w, names)
    ensures CleanSeam(PrintCall(w), rest, names)
  {
    hide PrintCall;
    hide HeadAt;
    hide CallNames;
    PrintedParts(w, names);
    var a := PrintCall(w);
    var t, k := a + rest, |a| - 1;
    assert t[k] == ')';
    forall p | 0 <= p < |a| && HeadAt(t, names, p).Some? ensures HeadAt(t, names, p).value.open <= |a| {
      var h := HeadAt(t, names, p).value;
      HeadAtIsThePattern(t, names, h);
      WordRun(t, names, h);
    }
  }

  /** Scanning printed calls returns exactly those calls, names folded to lower case, whatever heads
      their bodies contain. */
  lemma {:induction false} RoundTrip(ws: seq<Written>, tail: string, names: set<string>)
    requires CallNames(names) && (forall i :: 0 <= i < |ws| ==> Fits(ws[i], names))
    requires Yields(Scan(tail, names, 0)) == []
    ensures Yields(Scan(PrintCalls(ws, tail), names, 0)) == Expected(ws)
    decreases |ws|
  {
    hide PrintCall;
    hide Scan;
    hide CleanSeam;
    hide AllClosed;
    hide Print;
    hide Yields;
    if ws != [] {
      var a, b := PrintCall(ws[0]), PrintCalls(ws[1..], tail);
      RoundTrip(ws[1..], tail, names);
      PrintedCallScans(ws[0], names);
      SeamAfterCall(ws[0], b, names);
      YieldsAreSequential(a, b, names);
      assert Expected(ws) == [(Lower(ws[0].name), Print(ws[0].body))] + Expected(ws[1..]);
    }
  }
}

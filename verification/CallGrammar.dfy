/** An independent account of call bodies: the grammar of balanced parentheses and quoted strings. */
module CallGrammar {
  import opened Text
  import opened CMakeScanner
  import opened ScannerLaws

  datatype Glyph = Raw(c: char) | Escaped(c: char)

  datatype Body =
    | End
    | Plain(c: char, next: Body)
    | Quoted(q: char, glyphs: seq<Glyph>, next: Body)
    | Group(inner: Body, next: Body)

  predicate IsQuote(c: char) {
    c == '"' || c == '\''
  }

  /** Outside quotes a backslash is an ordinary character; inside, it takes the next one with it. */
  ghost predicate WellFormed(b: Body) {
    match b
    case End => true
    case Plain(c, next) => !IsQuote(c) && c != '(' && c != ')' && WellFormed(next)
    case Quoted(q, glyphs, next) =>
      && IsQuote(q) && WellFormed(next)
      && forall i :: 0 <= i < |glyphs| ==> GlyphFits(q, glyphs[i])
    case Group(inner, next) => WellFormed(inner) && WellFormed(next)
  }

  predicate GlyphFits(q: char, g: Glyph) {
    g.Raw? ==> g.c != q && g.c != '\\'
  }

  function PrintGlyphs(glyphs: seq<Glyph>): string {
    if glyphs == [] then ""
    else (if glyphs[0].Raw? then [glyphs[0].c] else ['\\', glyphs[0].c]) + PrintGlyphs(glyphs[1..])
  }

  function Print(b: Body): string {
    match b
    case End => ""
    case Plain(c, next) => [c] + Print(next)
    case Quoted(q, glyphs, next) => [q] + (PrintGlyphs(glyphs) + ([q] + Print(next)))
    case Group(inner, next) => ['('] + (Print(inner) + ([')'] + Print(next)))
  }

  /** Outside any quote, `depth` parentheses deep. */
  function At(depth: nat): Automaton {
    Automaton(depth, None, false)
  }

  function Inside(depth: nat, q: char): Automaton {
    Automaton(depth, Some(q), false)
  }

  // ----- every tree is read as a body

  lemma {:induction false} RunConcat(a: Automaton, s: string, t: string)
    ensures Run(a, s + t) == Run(Run(a, s), t)
    ensures StaysOpen(a, s + t) <==> StaysOpen(a, s) && StaysOpen(Run(a, s), t)
    decreases |s|
  {
    if s == "" {
      assert s + t == t;
      assert StaysOpen(a, t) ==> Run(a, t[..0]).depth > 0;
    } else {
      assert s == [s[0]] + s[1..] && s + t == [s[0]] + (s[1..] + t);
      RunConcat(Step(a, s[0]), s[1..], t);
      StaysOpenCons(a, s[0], s[1..]);
      StaysOpenCons(a, s[0], s[1..] + t);
    }
  }

  lemma RunChar(a: Automaton, c: char, s: string)
    ensures Run(a, [c] + s) == Run(Step(a, c), s)
    ensures StaysOpen(a, [c] + s) <==> a.depth > 0 && StaysOpen(Step(a, c), s)
  {
    StaysOpenCons(a, c, s);
  }

  lemma {:induction false} GlyphsAreQuoted(depth: nat, q: char, glyphs: seq<Glyph>)
    requires depth > 0 && IsQuote(q) && forall i :: 0 <= i < |glyphs| ==> GlyphFits(q, glyphs[i])
    ensures Run(Inside(depth, q), PrintGlyphs(glyphs)) == Inside(depth, q)
    ensures StaysOpen(Inside(depth, q), PrintGlyphs(glyphs))
    decreases |glyphs|
  {
    if glyphs != [] {
      var rest := PrintGlyphs(glyphs[1..]);
      GlyphsAreQuoted(depth, q, glyphs[1..]);
      if glyphs[0].Raw? {
        RunChar(Inside(depth, q), glyphs[0].c, rest);
      } else {
        assert PrintGlyphs(glyphs) == ['\\'] + ([glyphs[0].c] + rest);
        RunChar(Inside(depth, q), '\\', [glyphs[0].c] + rest);
        RunChar(Step(Inside(depth, q), '\\'), glyphs[0].c, rest);
      }
    }
  }

  lemma {:induction false} TreesAreBalanced(depth: nat, b: Body)
    requires depth > 0 && WellFormed(b)
    ensures Run(At(depth), Print(b)) == At(depth) && StaysOpen(At(depth), Print(b))
    decreases b
  {
    match b
    case End =>
    case Plain(c, next) =>
      TreesAreBalanced(depth, next);
      RunChar(At(depth), c, Print(next));
    case Quoted(q, glyphs, next) =>
      TreesAreBalanced(depth, next);
      GlyphsAreQuoted(depth, q, glyphs);
      RunChar(At(depth), q, PrintGlyphs(glyphs) + ([q] + Print(next)));
      RunConcat(Inside(depth, q), PrintGlyphs(glyphs), [q] + Print(next));
      RunChar(Inside(depth, q), q, Print(next));
    case Group(inner, next) =>
      TreesAreBalanced(depth + 1, inner);
      TreesAreBalanced(depth, next);
      RunChar(At(depth), '(', Print(inner) + ([')'] + Print(next)));
      RunConcat(At(depth + 1), Print(inner), [')'] + Print(next));
      RunChar(At(depth + 1), ')', Print(next));
  }

  lemma BalancedCloses(text: string, i: nat, s: string)
    requires Run(START, s) == START && StaysOpen(START, s)
    requires i + |s| < |text| && text[i..i + |s|] == s && text[i + |s|] == ')'
    ensures CloseFrom(text, i, START) == Some(i + |s| + 1)
  {
    var e := i + |s| + 1;
    assert text[i..e] == s + [')'] && text[i..e - 1] == s;
    RunConcat(START, s, [')']);
    assert Run(START, [')']) == Run(At(0), "");
    CloseIsFirstZero(text, i, START, e);
  }

  /** A printed tree and its closing parenthesis are read as one body, wherever they stand. */
  lemma TreeCloses(text: string, i: nat, b: Body)
    requires WellFormed(b) && i + |Print(b)| < |text|
    requires text[i..i + |Print(b)|] == Print(b) && text[i + |Print(b)|] == ')'
    ensures CloseFrom(text, i, START) == Some(i + |Print(b)| + 1)
  {
    TreesAreBalanced(1, b);
    BalancedCloses(text, i, Print(b));
  }

  // ----- every body is read as a tree

  /** Reading from one parenthesis deeper closes the inner one first, outside quotes. */
  lemma {:induction false} InnerClosesFirst(text: string, i: nat, a: Automaton, e: nat) returns (m: nat)
    requires i <= |text| && a.depth > 0 && Sane(a)
    requires CloseFrom(text, i, a.(depth := a.depth + 1)) == Some(e)
    ensures i < m < e <= |text| && CloseFrom(text, i, a) == Some(m) && CloseFrom(text, m, START) == Some(e)
    decreases |text| - i
  {
    var b := Step(a, text[i]);
    assert Step(a.(depth := a.depth + 1), text[i]) == b.(depth := b.depth + 1);
    if b.depth == 0 {
      m := i + 1;
    } else {
      m := InnerClosesFirst(text, i + 1, b, e);
    }
  }

  lemma {:induction false} QuotedPart(text: string, i: nat, q: char, e: nat)
    returns (glyphs: seq<Glyph>, k: nat)
    requires i <= |text| && IsQuote(q) && CloseFrom(text, i, Inside(1, q)) == Some(e)
    ensures i <= k < e <= |text| && text[k] == q && text[i..k] == PrintGlyphs(glyphs)
    ensures forall j :: 0 <= j < |glyphs| ==> GlyphFits(q, glyphs[j])
    ensures CloseFrom(text, k + 1, START) == Some(e)
    decreases |text| - i
  {
    var c := text[i];
    if c == q {
      glyphs, k := [], i;
    } else if c == '\\' {
      assert CloseFrom(text, i + 1, Step(Inside(1, q), c)) == Some(e);
      var rest;
      rest, k := QuotedPart(text, i + 2, q, e);
      glyphs := [Escaped(text[i + 1])] + rest;
      assert text[i..k] == ['\\', text[i + 1]] + text[i + 2..k];
    } else {
      var rest;
      rest, k := QuotedPart(text, i + 1, q, e);
      glyphs := [Raw(c)] + rest;
      assert text[i..k] == [c] + text[i + 1..k];
    }
  }

  lemma FirstChar(text: string, i: nat, e: nat)
    requires i <= |text| && CloseFrom(text, i, START) == Some(e)
    ensures i < |text|
    ensures text[i] == ')' ==> e == i + 1
    ensures text[i] == '(' ==> CloseFrom(text, i + 1, At(2)) == Some(e)
    ensures IsQuote(text[i]) ==> CloseFrom(text, i + 1, Inside(1, text[i])) == Some(e)
    ensures !IsQuote(text[i]) && text[i] != '(' && text[i] != ')' ==> CloseFrom(text, i + 1, START) == Some(e)
  {
  }

  lemma PlainPrints(text: string, i: nat, e: nat, next: Body)
    requires i < e <= |text| && Print(next) == text[i + 1..e]
    ensures Print(Plain(text[i], next)) == text[i..e]
  {
  }

  lemma GroupPrints(text: string, i: nat, m: nat, e: nat, inner: Body, next: Body)
    requires i + 1 < m <= e <= |text| && text[i] == '(' && text[m - 1] == ')'
    requires Print(inner) == text[i + 1..m - 1] && Print(next) == text[m..e]
    ensures Print(Group(inner, next)) == text[i..e]
  {
  }

  lemma QuotedPrints(text: string, i: nat, k: nat, e: nat, glyphs: seq<Glyph>, next: Body)
    requires i < k < e <= |text| && text[i] == text[k]
    requires PrintGlyphs(glyphs) == text[i + 1..k] && Print(next) == text[k + 1..e]
    ensures Print(Quoted(text[i], glyphs, next)) == text[i..e]
  {
  }

  ghost predicate IsTreeOf(text: string, i: nat, e: nat, b: Body) {
    i < e <= |text| && text[e - 1] == ')' && WellFormed(b) && Print(b) == text[i..e - 1]
  }

  lemma {:induction false} BodyTree(text: string, i: nat, e: nat) returns (b: Body)
    requires i <= |text| && CloseFrom(text, i, START) == Some(e)
    ensures IsTreeOf(text, i, e, b)
    decreases |text| - i
  {
    FirstChar(text, i, e);
    var c := text[i];
    if c == ')' {
      assert text[i..e - 1] == "";
      b := End;
    } else if c == '(' {
      var m := InnerClosesFirst(text, i + 1, START, e);
      var inner := BodyTree(text, i + 1, m);
      var next := BodyTree(text, m, e);
      GroupPrints(text, i, m, e - 1, inner, next);
      b := Group(inner, next);
    } else if IsQuote(c) {
      var glyphs, k := QuotedPart(text, i + 1, c, e);
      var next := BodyTree(text, k + 1, e);
      QuotedPrints(text, i, k, e - 1, glyphs, next);
      b := Quoted(c, glyphs, next);
    } else {
      var next := BodyTree(text, i + 1, e);
      PlainPrints(text, i, e - 1, next);
      b := Plain(c, next);
    }
  }

  /** `s` is read as the body of a call exactly when the grammar derives it. */
  lemma BodyIffTree(s: string)
    ensures CloseFrom(s + ")", 0, START) == Some(|s| + 1) <==> exists b :: WellFormed(b) && Print(b) == s
  {
    if CloseFrom(s + ")", 0, START) == Some(|s| + 1) {
      var b := BodyTree(s + ")", 0, |s| + 1);
      assert Print(b) == s;
    }
    if exists b :: WellFormed(b) && Print(b) == s {
      var b :| WellFormed(b) && Print(b) == s;
      assert (s + ")")[0..|s|] == s;
      TreeCloses(s + ")", 0, b);
    }
  }

  /** Every body the scanner reports, on any text, is balanced in the grammar's sense. */
  lemma ReportedBodiesAreTrees(text: string, names: set<string>, c: Call)
    requires c in Scan(text, names, 0)
    ensures exists b :: WellFormed(b) && Print(b) == c.body
  {
    ReportedSpans(text, names, 0);
    assert IsCall(text, names, c);
    var b := BodyTree(text, c.open, c.end);
    assert Print(b) == c.body;
  }
}

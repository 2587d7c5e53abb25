/** Include directives and their resolution in tools/codegraph.py. */
module Includes {
  import opened Text
  import opened RepoPaths
  import opened Components
  import S = CMakeScanner

  // ----- directives

  /** Where the directive that begins at line start `p` ends, if one does: white space, `#`, white
      space, `include`, white space, `open`, at least one other character than `close`, `close`. */
  function DirectiveAt(text: string, p: nat, open: char, close: char): (e: Option<nat>)
    requires p <= |text|
    ensures e.Some? ==> p < e.value <= |text| && BodyStart(text, p, open).Some?
    ensures e.Some? ==> BodyStart(text, p, open).value < e.value - 1
  {
    if p > 0 && text[p - 1] != '\n' then None
    else
      match BodyStart(text, p, open)
      case None => None
      case Some(b) =>
        var k := IndexFrom(text, close, b);
        if b < k < |text| then Some(k + 1) else None
  }

  /** Index just past the opening delimiter. */
  function BodyStart(text: string, p: nat, open: char): (b: Option<nat>)
    requires p <= |text|
    ensures b.Some? ==> p < b.value <= |text|
  {
    var hash := S.SpaceEnd(text, p);
    if hash == |text| || text[hash] != '#' then None
    else
      var word := S.SpaceEnd(text, hash + 1);
      if !("include" <= text[word..]) then None
      else
        var delimiter := S.SpaceEnd(text, word + 7);
        if delimiter < |text| && text[delimiter] == open then Some(delimiter + 1) else None
  }

  /** The directives from `p` on, left to right. */
  function Directives(text: string, p: nat, open: char, close: char): seq<string>
    requires p <= |text|
    decreases |text| - p
  {
    match DirectiveAt(text, p, open, close)
    case Some(e) => [text[BodyStart(text, p, open).value..e - 1]] + Directives(text, e, open, close)
    case None => if p == |text| then [] else Directives(text, p + 1, open, close)
  }

  ghost predicate AllSpace(text: string, i: nat, j: nat) {
    i <= j <= |text| && forall k :: i <= k < j ==> IsSpace(text[k])
  }

  /** The directive pattern read as a regular expression: from a line start at `p`, with its `#` at
      `hash`, its word at `word` and its opening delimiter at `d`, to just past the closing one. */
  ghost predicate MatchesDirective(text: string, p: nat, hash: nat, word: nat, d: nat, e: nat, open: char,
      close: char) {
    && p <= hash < word + 7 <= d && d + 2 < e <= |text|
    && (p == 0 || text[p - 1] == '\n')
    && AllSpace(text, p, hash) && text[hash] == '#'
    && AllSpace(text, hash + 1, word) && text[word..word + 7] == "include"
    && AllSpace(text, word + 7, d) && text[d] == open
    && text[e - 1] == close && forall k :: d < k < e - 1 ==> text[k] != close
  }

  lemma SpaceEndIs(text: string, i: nat, j: nat)
    requires AllSpace(text, i, j) && j < |text| && !IsSpace(text[j])
    ensures S.SpaceEnd(text, i) == j
  {
  }

  /** A line start has one match of the pattern or none, and it is the one found. */
  lemma DirectiveIsThePattern(text: string, p: nat, e: nat, open: char, close: char)
    requires p <= |text| && !IsSpace(open)
    ensures DirectiveAt(text, p, open, close) == Some(e) <==>
            exists hash, word, d :: MatchesDirective(text, p, hash, word, d, e, open, close)
  {
    hide S.SpaceEnd;
    hide IsSpace;
    if DirectiveAt(text, p, open, close) == Some(e) {
      var hash := S.SpaceEnd(text, p);
      var word := S.SpaceEnd(text, hash + 1);
      var d := S.SpaceEnd(text, word + 7);
      assert MatchesDirective(text, p, hash, word, d, e, open, close);
    }
    if exists hash, word, d :: MatchesDirective(text, p, hash, word, d, e, open, close) {
      var hash: nat, word: nat, d: nat :| MatchesDirective(text, p, hash, word, d, e, open, close);
      DirectiveFound(text, p, hash, word, d, e, open, close);
    }
  }

  lemma DirectiveFound(text: string, p: nat, hash: nat, word: nat, d: nat, e: nat, open: char, close: char)
    requires MatchesDirective(text, p, hash, word, d, e, open, close) && !IsSpace(open)
    ensures DirectiveAt(text, p, open, close) == Some(e)
  {
    hide BodyStart;
    hide AllSpace;
    BodyFound(text, p, hash, word, d, e, open, close);
    assert IndexFrom(text, close, d + 1) == e - 1;
  }

  lemma BodyFound(text: string, p: nat, hash: nat, word: nat, d: nat, e: nat, open: char, close: char)
    requires MatchesDirective(text, p, hash, word, d, e, open, close) && !IsSpace(open)
    ensures BodyStart(text, p, open) == Some(d + 1)
  {
    hide S.SpaceEnd;
    hide IsSpace;
    NoSpaces();
    WordStands(text, word);
    SpaceEndIs(text, p, hash);
    SpaceEndIs(text, hash + 1, word);
    SpaceEndIs(text, word + 7, d);
  }

  lemma WordStands(text: string, word: nat)
    requires word + 7 <= |text| && text[word..word + 7] == "include"
    ensures text[word] == 'i' && "include" <= text[word..]
  {
    assert text[word] == text[word..word + 7][0];
  }

  lemma NoSpaces()
    ensures !IsSpace('#') && !IsSpace('i')
  {
  }

  function EndOf(text: string, p: nat, open: char, close: char): (e: nat)
    requires p <= |text| && DirectiveAt(text, p, open, close).Some?
    ensures p < e <= |text|
  {
    DirectiveAt(text, p, open, close).value
  }

  function BodyOf(text: string, p: nat, open: char, close: char): string
    requires p <= |text| && DirectiveAt(text, p, open, close).Some?
  {
    text[BodyStart(text, p, open).value..EndOf(text, p, open, close) - 1]
  }

  /** Where the reported directives begin, from `p` on. */
  function Starts(text: string, p: nat, open: char, close: char): seq<nat>
    requires p <= |text|
    decreases |text| - p
  {
    match DirectiveAt(text, p, open, close)
    case Some(e) => [p] + Starts(text, e, open, close)
    case None => if p == |text| then [] else Starts(text, p + 1, open, close)
  }

  ghost predicate IsDirective(text: string, p: nat, open: char, close: char) {
    p <= |text| && DirectiveAt(text, p, open, close).Some?
  }

  /** The directive at `r` begins before `q` and ends after it. */
  ghost predicate Spans(text: string, r: nat, q: nat, open: char, close: char) {
    IsDirective(text, r, open, close) && r < q < EndOf(text, r, open, close)
  }

  /** What is reported are the texts of the directives at these positions, one after the other. */
  lemma {:induction false} DirectivesAreBodies(text: string, p: nat, open: char, close: char)
    requires p <= |text|
    ensures var starts := Starts(text, p, open, close);
            && |Directives(text, p, open, close)| == |starts|
            && (forall i :: 0 <= i < |starts| ==> p <= starts[i] && IsDirective(text, starts[i], open, close))
            && (forall i :: 0 <= i < |starts| ==>
                  Directives(text, p, open, close)[i] == BodyOf(text, starts[i], open, close))
            && (forall i :: 0 <= i < |starts| - 1 ==> EndOf(text, starts[i], open, close) <= starts[i + 1])
    decreases |text| - p
  {
    hide DirectiveAt;
    hide BodyStart;
    match DirectiveAt(text, p, open, close)
    case Some(e) => DirectivesAreBodies(text, e, open, close);
    case None =>
      if p < |text| {
        DirectivesAreBodies(text, p + 1, open, close);
      }
  }

  /** Every directive from `p` on is reported, unless it begins inside the text of a reported one. */
  lemma {:induction false} EveryDirectiveIsCovered(text: string, p: nat, q: nat, open: char, close: char)
    requires p <= q && IsDirective(text, q, open, close)
    ensures q in Starts(text, p, open, close) ||
            exists r :: r in Starts(text, p, open, close) && Spans(text, r, q, open, close)
    decreases |text| - p
  {
    hide DirectiveAt;
    var here := DirectiveAt(text, p, open, close);
    if here.Some? && p < q < here.value {
      assert p in Starts(text, p, open, close) && Spans(text, p, q, open, close);
    } else if p < q {
      var next := if here.Some? then here.value else p + 1;
      EveryDirectiveIsCovered(text, next, q, open, close);
      StartsFollow(text, p, next, open, close);
    }
  }

  lemma StartsFollow(text: string, p: nat, next: nat, open: char, close: char)
    requires p < |text|
    requires next == match DirectiveAt(text, p, open, close) case Some(e) => e case None => p + 1
    ensures forall r :: r in Starts(text, next, open, close) ==> r in Starts(text, p, open, close)
  {
    hide DirectiveAt;
  }

  lemma {:induction false} StartsAreApart(text: string, p: nat, q: nat, r: nat, open: char, close: char)
    requires p <= |text| && q in Starts(text, p, open, close) && r in Starts(text, p, open, close)
    ensures p <= q && IsDirective(text, q, open, close) && !Spans(text, r, q, open, close)
    decreases |text| - p
  {
    hide DirectiveAt;
    var here := DirectiveAt(text, p, open, close);
    if here.None? {
      StartsAreApart(text, p + 1, q, r, open, close);
    } else {
      var rest := Starts(text, here.value, open, close);
      if q in rest {
        StartsAreApart(text, here.value, q, q, open, close);
      }
      if q in rest && r in rest {
        StartsAreApart(text, here.value, q, r, open, close);
      } else if r in rest {
        StartsAreApart(text, here.value, r, r, open, close);
      }
    }
  }

  /** A directive is reported exactly when it does not begin inside the text of a reported one. */
  lemma DirectiveReportedIff(text: string, q: nat, open: char, close: char)
    ensures q in Starts(text, 0, open, close) <==>
            IsDirective(text, q, open, close) &&
            !exists r :: r in Starts(text, 0, open, close) && Spans(text, r, q, open, close)
  {
    hide Starts;
    hide IsDirective;
    hide Spans;
    if q in Starts(text, 0, open, close) {
      StartsAreApart(text, 0, q, q, open, close);
      forall r | r in Starts(text, 0, open, close) ensures !Spans(text, r, q, open, close) {
        StartsAreApart(text, 0, q, r, open, close);
      }
    } else if IsDirective(text, q, open, close) {
      EveryDirectiveIsCovered(text, 0, q, open, close);
    }
  }

  function QuotedIncludes(text: string): set<string> {
    set x | x in Directives(text, 0, '"', '"')
  }

  function AngleIncludes(text: string): set<string> {
    set x | x in Directives(text, 0, '<', '>')
  }

  /** A reported directive with these delimiters has this body. */
  ghost predicate Reports(text: string, p: nat, hash: nat, word: nat, d: nat, e: nat, open: char, close: char,
      body: string) {
    && p in Starts(text, 0, open, close) && MatchesDirective(text, p, hash, word, d, e, open, close)
    && body == text[d + 1..e - 1]
  }

  lemma {:induction false} DirectivesIff(text: string, open: char, close: char, body: string)
    requires !IsSpace(open)
    ensures body in Directives(text, 0, open, close) <==>
            exists p, hash, word, d, e :: Reports(text, p, hash, word, d, e, open, close, body)
  {
    hide MatchesDirective;
    hide DirectiveAt;
    hide BodyStart;
    hide IsSpace;
    hide Starts;
    hide Directives;
    DirectivesAreBodies(text, 0, open, close);
    var starts := Starts(text, 0, open, close);
    if body in Directives(text, 0, open, close) {
      var i :| 0 <= i < |starts| && body == Directives(text, 0, open, close)[i];
      var p := starts[i];
      DirectiveIsThePattern(text, p, EndOf(text, p, open, close), open, close);
      var e := EndOf(text, p, open, close);
      var hash: nat, word: nat, d: nat :| MatchesDirective(text, p, hash, word, d, e, open, close);
      BodyStands(text, p, hash, word, d, e, open, close);
      assert Reports(text, p, hash, word, d, e, open, close, body);
    }
    if exists p, hash, word, d, e :: Reports(text, p, hash, word, d, e, open, close, body) {
      var p: nat, hash: nat, word: nat, d: nat, e: nat :|
        Reports(text, p, hash, word, d, e, open, close, body);
      BodyStands(text, p, hash, word, d, e, open, close);
      var i :| 0 <= i < |starts| && starts[i] == p;
      assert Directives(text, 0, open, close)[i] == body;
    }
  }

  lemma BodyStands(text: string, p: nat, hash: nat, word: nat, d: nat, e: nat, open: char, close: char)
    requires MatchesDirective(text, p, hash, word, d, e, open, close) && !IsSpace(open)
    ensures IsDirective(text, p, open, close) && BodyOf(text, p, open, close) == text[d + 1..e - 1]
  {
    hide BodyStart;
    hide IsSpace;
    hide DirectiveAt;
    DirectiveFound(text, p, hash, word, d, e, open, close);
    BodyFound(text, p, hash, word, d, e, open, close);
  }

  /** The quoted and the bracketed includes of a text are the bodies of its reported directives. */
  lemma IncludesAre(text: string, body: string)
    ensures body in QuotedIncludes(text) <==>
            exists p, hash, word, d, e :: Reports(text, p, hash, word, d, e, '"', '"', body)
    ensures body in AngleIncludes(text) <==>
            exists p, hash, word, d, e :: Reports(text, p, hash, word, d, e, '<', '>', body)
  {
    hide Reports;
    hide Directives;
    DirectivesIff(text, '"', '"', body);
    DirectivesIff(text, '<', '>', body);
  }

  // ----- resolution

  /** The directories an include is looked up in, best first. */
  function Roots(source: string): seq<Path> {
    [Parent(Parts(Slashes(source))), Parts(Classify(source).path), Parts("."), Parts("src/lib"), Parts("src")]
  }

  /** The first tracked candidate: in each root the path itself, then its `.in` template. */
  function Search(roots: seq<Path>, quoted: Path, tracked: set<string>): Option<string> {
    if roots == [] then None
    else
      match Normalize(Child(roots[0], quoted))
      case None => Search(roots[1..], quoted, tracked)
      case Some(c) =>
        if c in tracked then Some(c)
        else if c + ".in" in tracked then Some(c + ".in")
        else Search(roots[1..], quoted, tracked)
  }

  function Resolve(source: string, quoted: string, trackedPaths: set<string>): Option<string> {
    Search(Roots(source), Parts(Slashes(quoted)), set t | t in trackedPaths :: Slashes(t))
  }

  /** The texts differ at most in the direction of their slashes. */
  ghost predicate SamePath(a: string, b: string) {
    |a| == |b| && forall i :: 0 <= i < |a| ==> a[i] == b[i] || (a[i] in {'/', '\\'} && b[i] in {'/', '\\'})
  }

  lemma SlashesSame(a: string, b: string)
    ensures SamePath(a, b) <==> Slashes(a) == Slashes(b)
  {
    if Slashes(a) == Slashes(b) {
      forall i | 0 <= i < |a| ensures a[i] == b[i] || (a[i] in {'/', '\\'} && b[i] in {'/', '\\'}) {
        assert Slashes(a)[i] == Slashes(b)[i];
      }
    }
  }

  /** Each path of the one set has its like in the other. */
  ghost predicate Covers(a: set<string>, b: set<string>) {
    forall t :: t in a ==> exists u :: u in b && SamePath(t, u)
  }

  lemma SlashesCover(a: set<string>, b: set<string>)
    requires Covers(a, b)
    ensures (set t | t in a :: Slashes(t)) <= (set t | t in b :: Slashes(t))
  {
    hide Slashes;
    hide SamePath;
    forall t | t in a ensures Slashes(t) in set u | u in b :: Slashes(u) {
      var u :| u in b && SamePath(t, u);
      SlashesSame(t, u);
    }
  }

  /** Backslashes and slashes are one: in a file's path, in an include and in the tracked paths. */
  lemma BackslashesAreSlashes(source: string, source': string, quoted: string, quoted': string, tracked: set<string>,
      tracked': set<string>)
    requires SamePath(source, source') && SamePath(quoted, quoted') && Covers(tracked, tracked')
    requires Covers(tracked', tracked)
    ensures Classify(source) == Classify(source')
    ensures Resolve(source, quoted, tracked) == Resolve(source', quoted', tracked')
  {
    hide Slashes;
    hide SamePath;
    hide Covers;
    hide Parts;
    hide ClassifyParts;
    hide Search;
    SlashesSame(source, source');
    SlashesSame(quoted, quoted');
    SlashesCover(tracked, tracked');
    SlashesCover(tracked', tracked);
    assert (set t | t in tracked :: Slashes(t)) == (set t | t in tracked' :: Slashes(t));
  }

  /** Candidate number `k` over the roots, two to a root. */
  function Candidate(roots: seq<Path>, quoted: Path, k: nat): Option<string>
    requires k < 2 * |roots|
  {
    match Normalize(Child(roots[k / 2], quoted))
    case None => None
    case Some(c) => Some(if k % 2 == 0 then c else c + ".in")
  }

  ghost predicate Hit(roots: seq<Path>, quoted: Path, tracked: set<string>, k: nat) {
    k < 2 * |roots| && Candidate(roots, quoted, k).Some? && Candidate(roots, quoted, k).value in tracked
  }

  /** Candidate `k` is tracked, is `r`, and none before it is tracked. */
  ghost predicate FirstHit(roots: seq<Path>, quoted: Path, tracked: set<string>, k: nat, r: Option<string>) {
    && Hit(roots, quoted, tracked, k) && Candidate(roots, quoted, k) == r
    && forall j: nat :: j < k ==> !Hit(roots, quoted, tracked, j)
  }

  lemma HitLater(roots: seq<Path>, quoted: Path, tracked: set<string>, k: nat)
    requires roots != []
    ensures Hit(roots[1..], quoted, tracked, k) <==> Hit(roots, quoted, tracked, k + 2)
    ensures k < 2 * |roots| - 2 ==> Candidate(roots[1..], quoted, k) == Candidate(roots, quoted, k + 2)
  {
    assert (k + 2) / 2 == k / 2 + 1 && (k + 2) % 2 == k % 2;
  }

  lemma FirstHitLater(roots: seq<Path>, quoted: Path, tracked: set<string>, k: nat, r: Option<string>)
    requires roots != [] && !Hit(roots, quoted, tracked, 0) && !Hit(roots, quoted, tracked, 1)
    requires FirstHit(roots[1..], quoted, tracked, k, r)
    ensures FirstHit(roots, quoted, tracked, k + 2, r)
  {
    hide Candidate;
    HitLater(roots, quoted, tracked, k);
    forall j: nat | j < k + 2 ensures !Hit(roots, quoted, tracked, j) {
      if j >= 2 {
        HitLater(roots, quoted, tracked, j - 2);
      }
    }
  }

  lemma FirstTwo(roots: seq<Path>, quoted: Path, tracked: set<string>)
    requires roots != []
    ensures var c := Normalize(Child(roots[0], quoted));
            && (Hit(roots, quoted, tracked, 0) <==> c.Some? && c.value in tracked)
            && (Hit(roots, quoted, tracked, 1) <==> c.Some? && c.value + ".in" in tracked)
            && Candidate(roots, quoted, 0) == c
            && Candidate(roots, quoted, 1) == match c case None => None case Some(t) => Some(t + ".in")
  {
    hide Normalize;
  }

  /** The search returns the least-ranked tracked candidate, and nothing exactly when none is tracked. */
  lemma {:induction false} SearchIsLeast(roots: seq<Path>, quoted: Path, tracked: set<string>)
    ensures var r := Search(roots, quoted, tracked);
            if r.Some? then exists k: nat :: FirstHit(roots, quoted, tracked, k, r)
            else forall k: nat :: !Hit(roots, quoted, tracked, k)
    decreases |roots|
  {
    hide Normalize;
    hide Candidate;
    if roots != [] {
      var c := Normalize(Child(roots[0], quoted));
      FirstTwo(roots, quoted, tracked);
      if c.Some? && c.value in tracked {
        assert FirstHit(roots, quoted, tracked, 0, c);
      } else if c.Some? && c.value + ".in" in tracked {
        assert FirstHit(roots, quoted, tracked, 1, Some(c.value + ".in"));
      } else {
        SearchIsLeast(roots[1..], quoted, tracked);
        var r := Search(roots[1..], quoted, tracked);
        if r.Some? {
          var k: nat :| FirstHit(roots[1..], quoted, tracked, k, r);
          FirstHitLater(roots, quoted, tracked, k, r);
        } else {
          forall k: nat ensures !Hit(roots, quoted, tracked, k) {
            if k >= 2 {
              HitLater(roots, quoted, tracked, k - 2);
            }
          }
        }
      }
    }
  }

  /** The ten ranked candidates of one include. */
  function Ranked(source: string, quoted: string, k: nat): Option<string>
    requires k < 10
  {
    Candidate(Roots(source), Parts(Slashes(quoted)), k)
  }

  /** `text` is the plain path `p`: names only, no `.`, `..`, root or backslash. */
  ghost predicate IsPlainPath(p: Path, text: string) {
    p != [] && AllSegments(p) && AllOrdinary(p) && text == Join(p, "/") && Slashes(text) == text
  }

  lemma PlainChild(root: Path, q: Path, quoted: string)
    requires AllOrdinary(root) && IsPlainPath(q, quoted)
    ensures Normalize(Child(root, q)) == Some(Join(root + q, "/"))
  {
    hide Walk;
    hide Join;
    hide Slashes;
    NotAbsolute(q);
    assert AllOrdinary(root + q);
    OrdinaryStays(root + q, []);
    assert [] + (root + q) == root + q;
  }

  lemma FixedRoots()
    ensures Parts(".") == [] && Parts("src/lib") == ["src", "lib"] && Parts("src") == ["src"]
  {
    assert Split(".") == ["."] && Kept(["."]) == [];
    assert "src" + "/" + "lib" == "src/lib";
    Pair("src", "lib", "src/lib");
    Word("src");
  }

  lemma BelowSrc(q: Path)
    requires q != []
    ensures Join(["src", "lib"] + q, "/") == "src/lib/" + Join(q, "/")
    ensures Join(["src"] + q, "/") == "src/" + Join(q, "/")
    ensures [] + q == q
  {
    hide Join;
    JoinUnfolds(["src", "lib"] + q);
    JoinUnfolds(["lib"] + q);
    JoinUnfolds(["src"] + q);
    assert (["src", "lib"] + q)[1..] == ["lib"] + q && (["lib"] + q)[1..] == q && (["src"] + q)[1..] == q;
    assert "src" + "/" + ("lib" + "/" + Join(q, "/")) == "src/lib/" + Join(q, "/");
    assert "src" + "/" + Join(q, "/") == "src/" + Join(q, "/");
  }

  lemma PlainRoots(p: Path, source: string)
    requires IsPlainPath(p, source)
    ensures var own := Parts(Classify(source).path);
            && Roots(source) == [p[..|p| - 1], own, [], ["src", "lib"], ["src"]] && own <= p
            && forall j :: 0 <= j < 5 ==> AllOrdinary(Roots(source)[j])
  {
    hide Parts;
    hide ClassifyParts;
    hide Join;
    hide AllOrdinary;
    hide AllSegments;
    hide Slashes;
    PartsOfJoin(p);
    FixedRoots();
    PathIsPrefix(p);
    PrefixIsOrdinary(p, p[..|p| - 1]);
    PrefixIsOrdinary(p, Parts(Classify(source).path));
    OrdinaryWords();
    ParentOfPlain(p, source);
  }

  lemma RankedUnder(source: string, q: Path, quoted: string, j: nat)
    requires IsPlainPath(q, quoted) && j < 5 && AllOrdinary(Roots(source)[j])
    ensures var c := Join(Roots(source)[j] + q, "/");
            Ranked(source, quoted, 2 * j) == Some(c) && Ranked(source, quoted, 2 * j + 1) == Some(c + ".in")
  {
    hide Normalize;
    hide Child;
    hide Parts;
    hide Join;
    hide AllOrdinary;
    hide AllSegments;
    hide Slashes;
    PartsOfJoin(q);
    PlainChild(Roots(source)[j], q, quoted);
    assert (2 * j) / 2 == j && (2 * j + 1) / 2 == j;
  }

  /** The ranks written out for a plain include in a plain path: the including file's directory, its
      component's, the repository itself, `src/lib` and `src`, each followed by its template. */
  lemma PlainCandidates(p: Path, q: Path, source: string, quoted: string)
    requires IsPlainPath(p, source) && IsPlainPath(q, quoted)
    ensures Ranked(source, quoted, 0) == Some(Join(p[..|p| - 1] + q, "/"))
    ensures var own := Parts(Classify(source).path); own <= p && Ranked(source, quoted, 2) == Some(Join(own + q, "/"))
    ensures Ranked(source, quoted, 4) == Some(quoted)
    ensures Ranked(source, quoted, 6) == Some("src/lib/" + quoted)
    ensures Ranked(source, quoted, 8) == Some("src/" + quoted)
    ensures forall j :: 0 <= j < 5 ==> IsTemplateOf(Ranked(source, quoted, 2 * j + 1), Ranked(source, quoted, 2 * j))
  {
    hide Ranked;
    hide Roots;
    hide Classify;
    hide Parts;
    hide Join;
    hide IsPlainPath;
    hide AllOrdinary;
    PlainRoots(p, source);
    JoinedPlain(q, quoted);
    BelowSrc(q);
    forall j: nat | j < 5
      ensures Ranked(source, quoted, 2 * j) == Some(Join(Roots(source)[j] + q, "/"))
      ensures IsTemplateOf(Ranked(source, quoted, 2 * j + 1), Ranked(source, quoted, 2 * j))
    {
      RankedUnder(source, q, quoted, j);
    }
    assert Ranked(source, quoted, 2 * 0) == Some(Join(Roots(source)[0] + q, "/"));
    assert Ranked(source, quoted, 2 * 1) == Some(Join(Roots(source)[1] + q, "/"));
    assert Ranked(source, quoted, 2 * 2) == Some(Join(Roots(source)[2] + q, "/"));
    assert Ranked(source, quoted, 2 * 3) == Some(Join(Roots(source)[3] + q, "/"));
    assert Ranked(source, quoted, 2 * 4) == Some(Join(Roots(source)[4] + q, "/"));
  }

  ghost predicate IsTemplateOf(t: Option<string>, c: Option<string>) {
    c.Some? && t == Some(c.value + ".in")
  }

  lemma JoinedPlain(q: Path, quoted: string)
    requires IsPlainPath(q, quoted)
    ensures q != [] && Join(q, "/") == quoted
  {
  }

  lemma PrefixIsOrdinary(p: Path, r: Path)
    requires AllOrdinary(p) && r <= p
    ensures AllOrdinary(r)
  {
  }

  lemma OrdinaryWords()
    ensures AllOrdinary([]) && AllOrdinary(["src", "lib"]) && AllOrdinary(["src"])
  {
  }

  lemma ParentOfPlain(p: Path, text: string)
    requires IsPlainPath(p, text)
    ensures Parent(p) == p[..|p| - 1]
  {
    NotAbsolute(p);
  }

  lemma NotAbsolute(p: Path)
    requires p != [] && AllSegments(p)
    ensures !Absolute(p)
  {
    assert Segment(p[0]) && p[0][0] != '/' && "/"[0] == '/';
  }

  ghost predicate Found(source: string, quoted: string, trackedPaths: set<string>, k: nat) {
    k < 10 && exists t :: t in trackedPaths && Ranked(source, quoted, k) == Some(Slashes(t))
  }

  ghost predicate FirstFound(source: string, quoted: string, trackedPaths: set<string>, k: nat, r: Option<string>) {
    && Found(source, quoted, trackedPaths, k) && Ranked(source, quoted, k) == r
    && forall j: nat :: j < k ==> !Found(source, quoted, trackedPaths, j)
  }

  lemma HitIsFound(source: string, quoted: string, trackedPaths: set<string>, k: nat)
    ensures Hit(Roots(source), Parts(Slashes(quoted)), set t | t in trackedPaths :: Slashes(t), k)
            <==> Found(source, quoted, trackedPaths, k)
  {
    hide Candidate;
    hide Parts;
    hide Slashes;
    hide Classify;
  }

  /** Resolution is first-match and complete over the ten candidates. */
  lemma ResolveIsLeast(source: string, quoted: string, trackedPaths: set<string>)
    ensures var r := Resolve(source, quoted, trackedPaths);
            if r.Some? then exists k: nat :: FirstFound(source, quoted, trackedPaths, k, r)
            else forall k: nat :: !Found(source, quoted, trackedPaths, k)
  {
    hide Candidate;
    hide Search;
    hide Roots;
    hide Parts;
    hide Slashes;
    hide Found;
    var roots, path := Roots(source), Parts(Slashes(quoted));
    var tracked := set t | t in trackedPaths :: Slashes(t);
    SearchIsLeast(roots, path, tracked);
    forall k: nat ensures Hit(roots, path, tracked, k) <==> Found(source, quoted, trackedPaths, k) {
      HitIsFound(source, quoted, trackedPaths, k);
    }
    var r := Resolve(source, quoted, trackedPaths);
    if r.Some? {
      var k: nat :| FirstHit(roots, path, tracked, k, r);
      FoundInRange(source, quoted, trackedPaths, k);
      assert FirstFound(source, quoted, trackedPaths, k, r);
    }
  }

  lemma FoundInRange(source: string, quoted: string, trackedPaths: set<string>, k: nat)
    requires Found(source, quoted, trackedPaths, k)
    ensures k < 10
  {
  }

  /** Tracking more files never unresolves an include, and moves it to no later candidate. */
  lemma ResolveIsMonotone(source: string, quoted: string, small: set<string>, large: set<string>)
    requires small <= large && Resolve(source, quoted, small).Some?
    ensures Resolve(source, quoted, large).Some?
    ensures exists j: nat, k: nat ::
              && j <= k
              && FirstFound(source, quoted, large, j, Resolve(source, quoted, large))
              && FirstFound(source, quoted, small, k, Resolve(source, quoted, small))
  {
    hide Resolve;
    hide Ranked;
    ResolveIsLeast(source, quoted, small);
    ResolveIsLeast(source, quoted, large);
    var k: nat :| FirstFound(source, quoted, small, k, Resolve(source, quoted, small));
    assert Found(source, quoted, large, k);
    var j: nat :| FirstFound(source, quoted, large, j, Resolve(source, quoted, large));
    assert j <= k;
  }
}

/** Repository paths in tools/codegraph.py: pure POSIX paths and their normalisation. */
module RepoPaths {
  import opened Text

  /** A path's parts: its root (`/` or `//`) if it has one, then its segments. */
  type Path = seq<string>

  function Split(s: string): seq<string>
    decreases |s|
  {
    var k := IndexFrom(s, '/', 0);
    if k == |s| then [s] else [s[..k]] + Split(s[k + 1..])
  }

  /** Segments a path keeps: neither empty nor `.`. */
  function Kept(segments: seq<string>): seq<string> {
    if segments == [] then []
    else (if segments[0] == "" || segments[0] == "." then [] else [segments[0]]) + Kept(segments[1..])
  }

  /** Exactly two leading slashes make the root `//`; any other positive number makes it `/`. */
  function Root(text: string): Path {
    if "/" <= text then (if "//" <= text && !("///" <= text) then ["//"] else ["/"]) else []
  }

  function Parts(text: string): Path {
    Root(text) + Kept(Split(text))
  }

  predicate Absolute(p: Path) {
    p != [] && "/" <= p[0]
  }

  /** The `/` operator: an absolute right-hand side replaces the left. */
  function Child(p: Path, q: Path): Path {
    if Absolute(q) then q else p + q
  }

  function Parent(p: Path): Path {
    if p == [] || (|p| == 1 && Absolute(p)) then p else p[..|p| - 1]
  }

  /** The parent of a path leaves out its last part; a root, or nothing, is its own parent. */
  lemma ParentIs(p: Path, name: string)
    requires p != [] || !("/" <= name)
    ensures Parent(p + [name]) == p
    ensures Parent(["/"]) == ["/"] && Parent(["//"]) == ["//"] && Parent([]) == []
  {
    assert (p + [name])[..|p|] == p;
    assert "/"[0] == '/' && "//"[0] == '/';
  }

  function Slashes(text: string): string {
    seq(|text|, i requires 0 <= i < |text| => if text[i] == '\\' then '/' else text[i])
  }

  // ----- normalisation

  predicate Skipped(part: string) {
    part == "" || part == "."
  }

  predicate Ordinary(part: string) {
    part != "" && part != "." && part != ".."
  }

  /** Walking the parts with a stack of the names entered; None once `..` leaves the root. */
  function Walk(p: Path, stack: seq<string>): Option<seq<string>>
    decreases |p|
  {
    if p == [] then Some(stack)
    else if Skipped(p[0]) then Walk(p[1..], stack)
    else if p[0] == ".." then (if stack == [] then None else Walk(p[1..], stack[..|stack| - 1]))
    else Walk(p[1..], stack + [p[0]])
  }

  function Normal(p: Path): Option<seq<string>> {
    Walk(p, [])
  }

  function Normalize(p: Path): Option<string> {
    match Normal(p)
    case None => None
    case Some(s) => Some(Join(s, "/"))
  }

  method NormalizeRelativePath(path: Path) returns (r: Option<string>)
    ensures r == Normalize(path)
  {
    var parts: seq<string> := [];
    assert path[0..] == path;
    for i := 0 to |path|
      invariant Walk(path[i..], parts) == Normal(path)
    {
      assert path[i..][1..] == path[i + 1..];
      var part := path[i];
      if part == "" || part == "." {
        continue;
      }
      if part == ".." {
        if parts == [] {
          return None;
        }
        parts := parts[..|parts| - 1];
      } else {
        parts := parts + [part];
      }
    }
    r := Some(Join(parts, "/"));
  }

  // ----- what a walk leaves

  lemma {:induction false} WalkConcat(p: Path, q: Path, stack: seq<string>)
    ensures Walk(p + q, stack) == match Walk(p, stack) case None => None case Some(s) => Walk(q, s)
    decreases |p|
  {
    if p == [] {
      assert p + q == q;
    } else {
      assert (p + q)[0] == p[0] && (p + q)[1..] == p[1..] + q;
      if Skipped(p[0]) {
        WalkConcat(p[1..], q, stack);
      } else if p[0] == ".." {
        if stack != [] {
          WalkConcat(p[1..], q, stack[..|stack| - 1]);
        }
      } else {
        WalkConcat(p[1..], q, stack + [p[0]]);
      }
    }
  }

  ghost predicate AllOrdinary(s: seq<string>) {
    forall i :: 0 <= i < |s| ==> Ordinary(s[i])
  }

  lemma {:induction false} OrdinaryStays(s: seq<string>, stack: seq<string>)
    requires AllOrdinary(s)
    ensures Walk(s, stack) == Some(stack + s)
    decreases |s|
  {
    if s == [] {
      assert stack + s == stack;
    } else {
      assert Ordinary(s[0]);
      OrdinaryStays(s[1..], stack + [s[0]]);
      assert stack + [s[0]] + s[1..] == stack + s;
    }
  }

  /** Names entered minus names left, over the first `k` parts. */
  function Depth(p: Path, k: nat): int
    requires k <= |p|
  {
    if k == 0 then 0 else Depth(p, k - 1) + Move(p[k - 1])
  }

  function Move(part: string): int {
    if part == ".." then -1 else if Skipped(part) then 0 else 1
  }

  /** Part `i` names a directory that the walk enters and never leaves again. */
  ghost predicate Survives(p: Path, i: nat) {
    i < |p| && Ordinary(p[i]) && forall k :: i < k <= |p| ==> Depth(p, k) >= Depth(p, i + 1)
  }

  /** The parts `at` lists, in order. */
  function Select(p: Path, at: seq<nat>): seq<string>
    requires forall j :: 0 <= j < |at| ==> at[j] < |p|
  {
    seq(|at|, j requires 0 <= j < |at| => p[at[j]])
  }

  /** `at` lists the surviving parts in increasing order, one per level. */
  ghost predicate AreSurvivors(p: Path, at: seq<nat>) {
    Listed(p, at) && forall i :: Survives(p, i) ==> i in at
  }

  ghost predicate Listed(p: Path, at: seq<nat>) {
    && |at| == Depth(p, |p|)
    && (forall j :: 0 <= j < |at| ==> Survives(p, at[j]) && at[j] < |p| && Depth(p, at[j] + 1) == j + 1)
    && (forall j, k :: 0 <= j < k < |at| ==> at[j] < at[k])
  }

  lemma {:induction false} DepthOfPrefix(p: Path, q: Path, k: nat)
    requires k <= |p|
    ensures Depth(p + q, k) == Depth(p, k)
    decreases k
  {
    if k > 0 {
      DepthOfPrefix(p, q, k - 1);
    }
  }

  lemma SurvivesLonger(p: Path, x: string, i: nat)
    requires i < |p|
    ensures Survives(p + [x], i) <==> Survives(p, i) && Depth(p + [x], |p| + 1) >= Depth(p, i + 1)
    ensures Depth(p + [x], i + 1) == Depth(p, i + 1)
  {
    var q := p + [x];
    forall k: nat | k <= |p| ensures Depth(q, k) == Depth(p, k) {
      DepthOfPrefix(p, [x], k);
    }
  }

  lemma NewestSurvives(p: Path, x: string)
    ensures Survives(p + [x], |p|) <==> Ordinary(x)
  {
    hide Depth;
    var q := p + [x];
    assert q[|p|] == x && |q| == |p| + 1;
  }

  lemma DepthAtEnd(p: Path, x: string)
    ensures Depth(p + [x], |p| + 1) == Depth(p, |p|) + Move(x)
  {
    DepthOfPrefix(p, [x], |p|);
  }

  lemma SurvivorInRange(p: Path, i: nat)
    requires Survives(p, i)
    ensures i < |p|
  {
  }

  /** The survivors after one more part: it joins them, changes nothing, or drops the last of them. */
  function Stepped(p: Path, x: string, at: seq<nat>): seq<nat>
    requires x == ".." ==> at != []
  {
    if x == ".." then at[..|at| - 1] else if Skipped(x) then at else at + [|p|]
  }

  lemma ListedStep(p: Path, x: string, at: seq<nat>)
    requires Listed(p, at) && (x == ".." ==> at != [])
    ensures Listed(p + [x], Stepped(p, x, at))
  {
    hide Survives;
    hide Depth;
    var q, next := p + [x], Stepped(p, x, at);
    NewestSurvives(p, x);
    DepthAtEnd(p, x);
    forall j | 0 <= j < |next|
      ensures Survives(q, next[j]) && next[j] < |q| && Depth(q, next[j] + 1) == j + 1
    {
      if j < |at| {
        SurvivesLonger(p, x, at[j]);
      }
    }
  }

  lemma StepMisses(p: Path, x: string, at: seq<nat>, i: nat)
    requires AreSurvivors(p, at) && (x == ".." ==> at != []) && Survives(p + [x], i)
    ensures i in Stepped(p, x, at)
  {
    hide Survives;
    hide Depth;
    var next := Stepped(p, x, at);
    NewestSurvives(p, x);
    DepthAtEnd(p, x);
    SurvivorInRange(p + [x], i);
    if i < |p| {
      SurvivesLonger(p, x, i);
      var j :| 0 <= j < |at| && at[j] == i;
      assert Depth(p, at[j] + 1) == j + 1;
      assert next[j] == i;
    } else {
      assert next[|at|] == i;
    }
  }

  lemma SurvivorsStep(p: Path, x: string, at: seq<nat>)
    requires AreSurvivors(p, at) && (x == ".." ==> at != [])
    ensures AreSurvivors(p + [x], Stepped(p, x, at))
  {
    hide Survives;
    hide Depth;
    hide Listed;
    ListedStep(p, x, at);
    forall i: nat | Survives(p + [x], i) ensures i in Stepped(p, x, at) {
      StepMisses(p, x, at, i);
    }
  }

  /** Some prefix has more `..` than names. */
  ghost predicate Falls(p: Path) {
    exists k :: 0 <= k <= |p| && Depth(p, k) < 0
  }

  lemma FallsLonger(p: Path, x: string)
    ensures Falls(p + [x]) <==> Falls(p) || Depth(p, |p|) + Move(x) < 0
  {
    hide Depth;
    var q := p + [x];
    forall k: nat | k <= |p| ensures Depth(q, k) == Depth(p, k) {
      DepthOfPrefix(p, [x], k);
    }
    DepthAtEnd(p, x);
    if Falls(p) {
      var k :| 0 <= k <= |p| && Depth(p, k) < 0;
      assert Depth(q, k) < 0;
    }
    if Depth(p, |p|) + Move(x) < 0 {
      assert Depth(q, |q|) < 0;
    }
    if Falls(q) && !Falls(p) {
      var k :| 0 <= k <= |q| && Depth(q, k) < 0;
      assert k == |q|;
    }
  }

  /** The walk of a path and its survivors, prefix by prefix. */
  lemma {:induction false} WalkLeavesSurvivors(p: Path) returns (at: seq<nat>)
    ensures Normal(p).None? <==> Falls(p)
    ensures Normal(p).Some? ==> AreSurvivors(p, at) && Normal(p).value == Select(p, at)
    decreases |p|
  {
    hide Survives;
    hide Walk;
    hide Falls;
    hide Depth;
    if p == [] {
      EmptyWalk();
      at := [];
    } else {
      var q, x := p[..|p| - 1], p[|p| - 1];
      assert p == q + [x];
      var before := WalkLeavesSurvivors(q);
      WalkConcat(q, [x], []);
      FallsLonger(q, x);
      NeverDeeper(q);
      at := [];
      if Normal(q).Some? {
        WalkOne(x, Normal(q).value);
        if x != ".." || before != [] {
          at := Stepped(q, x, before);
          SurvivorsStep(q, x, before);
          StepSelects(q, x, before);
        }
      }
    }
  }

  lemma NeverDeeper(p: Path)
    ensures !Falls(p) ==> Depth(p, |p|) >= 0
  {
  }

  lemma EmptyWalk()
    ensures Normal([]) == Some([]) && AreSurvivors([], []) && Select([], []) == [] && !Falls([])
  {
  }

  lemma WalkOne(x: string, stack: seq<string>)
    ensures Walk([x], stack) ==
            if Skipped(x) then Some(stack)
            else if x == ".." then (if stack == [] then None else Some(stack[..|stack| - 1]))
            else Some(stack + [x])
  {
    assert [x][1..] == [];
  }

  lemma StepSelects(q: Path, x: string, at: seq<nat>)
    requires (forall j :: 0 <= j < |at| ==> at[j] < |q|) && (x == ".." ==> at != [])
    ensures var next := Stepped(q, x, at);
            && (forall j :: 0 <= j < |next| ==> next[j] < |q + [x]|)
            && Walk([x], Select(q, at)) == Some(Select(q + [x], next))
  {
    hide Walk;
    WalkOne(x, Select(q, at));
    assert Select(q + [x], at) == Select(q, at);
    if x == ".." {
      assert Select(q, at)[..|at| - 1] == Select(q + [x], at[..|at| - 1]);
    } else if !Skipped(x) {
      assert Select(q, at) + [x] == Select(q + [x], at + [|q|]);
    }
  }

  /** Normalisation fails exactly when some prefix has more `..` than names. */
  lemma NormalFailsIff(p: Path)
    ensures Normal(p).None? <==> Falls(p)
  {
    var at := WalkLeavesSurvivors(p);
  }

  /** Otherwise it keeps, in order, exactly the names that are entered and never left. */
  lemma NormalKeepsSurvivors(p: Path)
    requires Normal(p).Some?
    ensures AllOrdinary(Normal(p).value) && |Normal(p).value| == Depth(p, |p|)
    ensures exists at: seq<nat> ::
              && (forall j :: 0 <= j < |at| ==> at[j] < |p|)
              && (forall j, k :: 0 <= j < k < |at| ==> at[j] < at[k])
              && (forall i :: i in at <==> Survives(p, i))
              && Normal(p).value == Select(p, at)
  {
    var at := WalkLeavesSurvivors(p);
    assert forall i :: i in at <==> Survives(p, i);
  }

  /** Normalising first changes nothing that follows, and normalising again changes nothing. */
  lemma NormalComposes(p: Path, q: Path)
    ensures Normal(p + q) == match Normal(p) case None => None case Some(s) => Normal(s + q)
    ensures Normal(p).Some? ==> Normal(Normal(p).value) == Normal(p)
  {
    WalkConcat(p, q, []);
    if Normal(p).Some? {
      NormalKeepsSurvivors(p);
      var s := Normal(p).value;
      OrdinaryStays(s, []);
      assert [] + s == s;
      WalkConcat(s, q, []);
    }
  }

  // ----- and as text

  /** A name a path can hold as one segment. */
  ghost predicate Segment(s: string) {
    s != "" && s != "." && forall i :: 0 <= i < |s| ==> s[i] != '/'
  }

  ghost predicate AllSegments(p: Path) {
    forall i :: 0 <= i < |p| ==> Segment(p[i])
  }

  lemma {:induction false} SlashAfter(s: string, t: string, p: nat)
    requires p <= |s| && forall i :: 0 <= i < |s| ==> s[i] != '/'
    ensures IndexFrom(s + "/" + t, '/', p) == |s|
    decreases |s| - p
  {
    assert (s + "/" + t)[|s|] == '/';
    if p < |s| {
      assert (s + "/" + t)[p] == s[p];
      SlashAfter(s, t, p + 1);
    }
  }

  lemma {:induction false} SplitJoin(p: Path)
    requires p != [] && forall i :: 0 <= i < |p| ==> forall j :: 0 <= j < |p[i]| ==> p[i][j] != '/'
    ensures Split(Join(p, "/")) == p
    decreases |p|
  {
    if |p| > 1 {
      var rest := Join(p[1..], "/");
      SlashAfter(p[0], rest, 0);
      assert Join(p, "/")[..|p[0]|] == p[0] && Join(p, "/")[|p[0]| + 1..] == rest;
      SplitJoin(p[1..]);
    }
  }

  lemma {:induction false} SegmentsKept(p: Path)
    requires AllSegments(p)
    ensures Kept(p) == p
    decreases |p|
  {
    if p != [] {
      assert Segment(p[0]);
      SegmentsKept(p[1..]);
    }
  }

  /** Joined segments read back as the same path. */
  lemma PartsOfJoin(p: Path)
    requires AllSegments(p)
    ensures Parts(Join(p, "/")) == p
  {
    hide Kept;
    if p == [] {
      EmptyParts();
    } else {
      var t := Join(p, "/");
      assert Segment(p[0]);
      assert t[0] == p[0][0];
      assert forall i :: 0 <= i < |p| ==> Segment(p[i]);
      SplitJoin(p);
      SegmentsKept(p);
      assert Root(t) == [];
    }
  }

  lemma EmptyParts()
    ensures Parts("") == [] && Kept(Split("")) == []
  {
    assert Split("") == [""];
  }

  lemma {:induction false} SplitHasNoSlash(s: string)
    ensures forall i :: 0 <= i < |Split(s)| ==> forall j :: 0 <= j < |Split(s)[i]| ==> Split(s)[i][j] != '/'
    decreases |s|
  {
    var k := IndexFrom(s, '/', 0);
    if k < |s| {
      SplitHasNoSlash(s[k + 1..]);
    }
  }

  lemma {:induction false} KeptAreSegments(p: Path)
    requires forall i :: 0 <= i < |p| ==> forall j :: 0 <= j < |p[i]| ==> p[i][j] != '/'
    ensures AllSegments(Kept(p))
    decreases |p|
  {
    if p != [] {
      assert forall i :: 0 <= i < |p[1..]| ==> p[1..][i] == p[i + 1];
      KeptAreSegments(p[1..]);
    }
  }

  lemma PartsAreSegments(text: string)
    ensures !Absolute(Parts(text)) ==> AllSegments(Parts(text))
    ensures Absolute(Parts(text)) <==> "/" <= text
    ensures AllSegments(Kept(Split(text)))
  {
    hide Split;
    hide Kept;
    SplitHasNoSlash(text);
    KeptAreSegments(Split(text));
    var s := Kept(Split(text));
    if s != [] {
      assert Segment(s[0]) && s[0][0] != '/';
    }
    assert "/" <= "//" && "/" <= "/";
  }

  lemma {:induction false} WalkKeepsSegments(p: Path, stack: seq<string>)
    requires AllSegments(p) && AllSegments(stack) && Walk(p, stack).Some?
    ensures AllSegments(Walk(p, stack).value)
    decreases |p|
  {
    if p != [] {
      assert Segment(p[0]);
      assert AllSegments(p[1..]);
      if p[0] == ".." {
        WalkKeepsSegments(p[1..], stack[..|stack| - 1]);
      } else {
        WalkKeepsSegments(p[1..], stack + [p[0]]);
      }
    }
  }

  /** A relative path's normal form, written out and read back, is its own normal form. */
  lemma NormalizeIsIdempotent(p: Path)
    requires AllSegments(p) && Normalize(p).Some?
    ensures Parts(Normalize(p).value) == Normal(p).value
    ensures Normalize(Parts(Normalize(p).value)) == Normalize(p)
  {
    WalkKeepsSegments(p, []);
    PartsOfJoin(Normal(p).value);
    NormalComposes(p, []);
  }

  /** A root, then segments. */
  ghost predicate Rooted(p: Path) {
    p != [] && (p[0] == "/" || p[0] == "//") && AllSegments(p[1..])
  }

  lemma SlashSplit(text: string)
    ensures Kept(Split("/" + text)) == Kept(Split(text))
  {
    hide Kept;
    assert ("/" + text)[1..] == text;
    assert Split("/" + text) == [""] + Split(text);
    KeptDropsEmpty(Split(text));
  }

  lemma KeptDropsEmpty(p: Path)
    ensures Kept([""] + p) == Kept(p)
  {
    assert ([""] + p)[1..] == p;
  }

  lemma JoinStarts(p: Path)
    requires AllSegments(p) && p != []
    ensures var t := Join(p, "/"); t != "" && t[0] != '/'
  {
    assert Segment(p[0]) && Join(p, "/")[0] == p[0][0];
  }

  function OtherRoot(root: string): string {
    if root == "/" then "//" else "/"
  }

  lemma RootedParts(root: string, t: string)
    requires (root == "/" || root == "//") && t != "" && t[0] != '/'
    ensures Parts(root + "/" + t) == [OtherRoot(root)] + Parts(t)
  {
    hide Split;
    hide Kept;
    SlashSplit(t);
    SlashSplit("/" + t);
    SlashSplit("/" + ("/" + t));
    if root == "/" {
      var x := "/" + ("/" + t);
      assert root + "/" + t == x && x[..2] == "//" && x[2] == t[0];
      assert !("///" <= x) by {
        assert "///"[2] == '/';
      }
    } else {
      var x := "/" + ("/" + ("/" + t));
      assert root + "/" + t == x && x[..3] == "///";
    }
  }

  /** A root joined like a segment reads back as the other root. */
  lemma PartsOfRooted(p: Path)
    requires Rooted(p) && |p| > 1
    ensures Parts(Join(p, "/")) == [OtherRoot(p[0])] + p[1..]
    ensures Join(p, "/") == p[0] + "/" + Join(p[1..], "/")
  {
    hide Parts;
    hide AllSegments;
    hide Join;
    JoinStarts(p[1..]);
    PartsOfJoin(p[1..]);
    RootedParts(p[0], Join(p[1..], "/"));
    JoinUnfolds(p);
  }

  lemma JoinUnfolds(p: Path)
    requires |p| > 1
    ensures Join(p, "/") == p[0] + "/" + Join(p[1..], "/")
  {
  }

  lemma RootedChanges(s: Path, r: string)
    requires Rooted(s) && |s| > 1 && AllOrdinary(s) && r == Join(s, "/")
    ensures Normalize(Parts(r)) != Some(r) && "//" <= r && |r| > 2
  {
    hide Split;
    hide Kept;
    hide Walk;
    var t, u := Join(s[1..], "/"), [OtherRoot(s[0])] + s[1..];
    PartsOfRooted(s);
    JoinStarts(s[1..]);
    assert AllOrdinary(u);
    OrdinaryStays(u, []);
    assert [] + u == u && u[1..] == s[1..];
    assert Normalize(Parts(r)) == Some(u[0] + "/" + t);
    assert |u[0] + "/" + t| != |r|;
  }

  lemma SegmentsStay(s: Path, r: string)
    requires AllSegments(s) && AllOrdinary(s) && r == Join(s, "/")
    ensures Normalize(Parts(r)) == Some(r) && !("//" <= r)
  {
    hide Split;
    hide Kept;
    PartsOfJoin(s);
    OrdinaryStays(s, []);
    assert [] + s == s;
    if s != [] {
      JoinStarts(s);
    }
  }

  lemma PartsAfterRoot(text: string)
    ensures var p := Parts(text);
            if "/" <= text then p != [] && (p[0] == "/" || p[0] == "//") && AllSegments(p[1..]) else AllSegments(p)
  {
    hide Split;
    hide Kept;
    hide Segment;
    PartsAreSegments(text);
    var segments := Kept(Split(text));
    if "/" <= text {
      assert Parts(text)[1..] == segments;
    } else {
      assert Parts(text) == segments;
    }
  }

  /** The root of a rooted path stays first in the normal form exactly if the walk never leaves it. */
  lemma RootSurvives(text: string)
    requires Normal(Parts(text)).Some?
    ensures var p, s := Parts(text), Normal(Parts(text)).value;
            && |s| == Depth(p, |p|)
            && (if "/" <= text && Survives(p, 0) then s != [] && s[0] == p[0] && Rooted(s) else AllSegments(s))
  {
    hide Parts;
    hide Survives;
    hide Depth;
    hide Walk;
    hide Segment;
    PartsAfterRoot(text);
    var p, s := Parts(text), Normal(Parts(text)).value;
    var at := WalkLeavesSurvivors(p);
    forall k | 0 <= k < |s| && at[k] > 0 ensures Segment(s[k]) {
      assert s[k] == p[at[k]];
      SegmentAt(p, at[k]);
    }
    if "/" <= text && Survives(p, 0) {
      assert 0 in at;
      var k: nat :| k < |at| && at[k] == 0;
      assert at[0] <= at[k];
    } else if "/" <= text {
      forall k | 0 <= k < |at| ensures at[k] > 0 {
        assert Survives(p, at[k]);
      }
    } else {
      forall k | 0 <= k < |s| ensures Segment(s[k]) {
        assert s[k] == p[at[k]];
      }
    }
  }

  lemma SegmentAt(p: Path, k: nat)
    requires 0 < k < |p| && (AllSegments(p[1..]) || AllSegments(p))
    ensures Segment(p[k])
  {
    assert p[k] == p[1..][k - 1];
  }

  /** Written out, read back and normalised again, a path's normal form is itself, unless the path has a
      root that its walk never leaves and the walk ends below it: roots are joined like segments. */
  lemma IdempotentIff(text: string, r: string)
    requires Normalize(Parts(text)) == Some(r)
    ensures var p := Parts(text);
            Normalize(Parts(r)) == Some(r) <==> !("/" <= text && Survives(p, 0) && Depth(p, |p|) > 1)
  {
    hide Parts;
    hide Walk;
    hide Segment;
    hide Survives;
    hide Depth;
    hide Join;
    var s := Normal(Parts(text)).value;
    RootSurvives(text);
    NormalKeepsSurvivors(Parts(text));
    JoinOne(s);
    if AllSegments(s) && !("/" <= text && Survives(Parts(text), 0)) {
      SegmentsStay(s, r);
    } else if |s| == 1 {
      RootAlone(s[0]);
    } else {
      RootedChanges(s, r);
    }
  }

  lemma JoinOne(s: Path)
    ensures |s| == 1 ==> Join(s, "/") == s[0]
  {
  }

  /** A rooted name never settles: from the second round on its two writings alternate. */
  lemma RootedNamesAlternate(name: string)
    requires Segment(name) && Ordinary(name)
    ensures Normalize(Parts("/" + name)) == Some("//" + name)
    ensures Normalize(Parts("//" + name)) == Some("///" + name)
    ensures Normalize(Parts("///" + name)) == Some("//" + name)
  {
    hide Split;
    hide Kept;
    hide Walk;
    SlashSplit(name);
    PartsOfJoin([name]);
    JoinOne([name]);
    assert Parts(name) == [name] && name[0] != '/' && Root(name) == [];
    assert ("/" + name)[1] == name[0] && Root("/" + name) == ["/"];
    assert Parts("/" + name) == ["/", name];
    RootedParts("/", name);
    RootedParts("//", name);
    assert "/" + "/" == "//";
    assert "//" + "/" == "///";
    assert ["//"] + [name] == ["//", name] && ["/"] + [name] == ["/", name];
    RootedName("/", name);
    RootedName("//", name);
  }

  lemma RootedName(root: string, name: string)
    requires (root == "/" || root == "//") && Ordinary(name)
    ensures Normalize([root, name]) == Some(root + "/" + name)
  {
    hide Walk;
    hide Join;
    var p := [root, name];
    assert Ordinary(root);
    OrdinaryStays(p, []);
    assert [] + p == p && p[1..] == [name];
    JoinUnfolds(p);
    JoinOne([name]);
  }

  lemma RootAlone(root: string)
    requires root == "/" || root == "//"
    ensures Normalize(Parts(root)) == Some(root)
  {
    hide Kept;
    EmptyParts();
    SlashSplit("");
    SlashSplit("/");
    assert "/" + "" == "/" && "/" + "/" == "//";
    assert Parts(root) == [root];
    OrdinaryStays([root], []);
    assert [] + [root] == [root];
  }
}

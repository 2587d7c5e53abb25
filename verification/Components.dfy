/** Path-driven component classification in tools/codegraph.py. */
module Components {
  import opened Text
  import opened RepoPaths

  datatype Kind =
    | Application | Library | Test | Tool | Deployment | Automation
    | Localization | Documentation | Build | Resource | Support

  datatype Component = Component(id: string, kind: Kind, path: string)

  function LastDot(s: string, n: nat): (k: int)
    requires n <= |s|
    ensures -1 <= k < n
    ensures k >= 0 ==> s[k] == '.'
    ensures forall j :: k < j < n ==> s[j] != '.'
  {
    if n == 0 then -1 else if s[n - 1] == '.' then n - 1 else LastDot(s, n - 1)
  }

  /** A file name without its last suffix. */
  function Stem(name: string): string {
    var k := LastDot(name, |name|);
    if 0 < k < |name| - 1 then name[..k] else name
  }

  function Suffix(name: string): string {
    var k := LastDot(name, |name|);
    if 0 < k < |name| - 1 then name[k..] else ""
  }

  predicate Under(p: Path, first: string, second: string) {
    |p| >= 2 && p[0] == first && p[1] == second
  }

  predicate At(p: Path, first: string) {
    p != [] && p[0] == first
  }

  function ClassifyParts(p: Path): Component {
    if |p| == 3 && p[0] == "src" && p[1] in {"apps", "lib", "unittests"} && p[2] == "CMakeLists.txt" then
      Component("support:source-build", Build, "src")
    else if Under(p, "src", "lib") && |p| >= 4 then
      Component("lib:" + p[2], Library, "src/lib/" + p[2])
    else if Under(p, "src", "apps") && |p| >= 4 then
      Component("app:" + p[2], Application, "src/apps/" + p[2])
    else if Under(p, "src", "unittests") && |p| >= 4 then
      Component("test:" + p[2], Test, "src/unittests/" + p[2])
    else if Under(p, "tools", "tests") then
      Component("test:codegraph-tools", Test, "tools/tests")
    else if At(p, "tools") && |p| >= 2 then
      Component("tool:" + (if |p| >= 3 then p[1] else Stem(p[1])), Tool, "tools/" + p[1])
    else if At(p, "deploy") then
      var name := if |p| >= 3 then p[1] else "root";
      Component("deploy:" + name, Deployment, if name != "root" then "deploy/" + name else "deploy")
    else if At(p, ".github") then Component("support:github", Automation, ".github")
    else if At(p, "translations") then Component("support:translations", Localization, "translations")
    else if At(p, "docs") then Component("support:docs", Documentation, "docs")
    else if At(p, "cmake") then Component("support:cmake", Build, "cmake")
    else if At(p, "artwork") then Component("support:artwork", Resource, "artwork")
    else Component("support:root", Support, ".")
  }

  function Classify(path: string): Component {
    ClassifyParts(Parts(Slashes(path)))
  }

  // ----- the id is the component

  /** Ids outside the `tool:` family and other than the codegraph tests' determine a path. */
  predicate Exempt(id: string) {
    "to" <= id || id == "test:codegraph-tools"
  }

  /** The kind, read off an id: the families differ in their first two characters, the support ids
      in the character after the colon. */
  function KindOf(id: string): Kind
    requires |id| >= 4
  {
    if id[0] == 'l' then Library
    else if id[0] == 'a' then Application
    else if id[0] == 'd' then Deployment
    else if id[0] == 't' then (if id[1] == 'e' then Test else Tool)
    else if |id| <= 8 then Support
    else SupportKind(id[8])
  }

  function SupportKind(initial: char): Kind {
    if initial == 's' || initial == 'c' then Build
    else if initial == 'g' then Automation
    else if initial == 't' then Localization
    else if initial == 'd' then Documentation
    else if initial == 'a' then Resource
    else Support
  }

  function SupportPath(name: string): string {
    if name == "" || name[0] == 'r' then "."
    else if name[0] == 's' then "src"
    else if name[0] == 'g' then ".github"
    else name
  }

  /** The path, read off an id that is not exempt. */
  function PathOf(id: string): string
    requires |id| >= 4
  {
    if id[0] == 'l' then "src/lib/" + id[4..]
    else if id[0] == 'a' then "src/apps/" + id[4..]
    else if id[0] == 't' then (if |id| >= 5 then "src/unittests/" + id[5..] else "")
    else if id[0] == 'd' then (if |id| < 7 || id[7..] == "root" then "deploy" else "deploy/" + id[7..])
    else if |id| <= 8 then "."
    else SupportPath(id[8..])
  }

  lemma Prefixed(prefix: string, name: string)
    ensures (prefix + name)[|prefix|..] == name
    ensures forall i :: 0 <= i < |prefix| ==> (prefix + name)[i] == prefix[i]
  {
  }

  lemma SupportId(name: string)
    requires name != ""
    ensures var id := "support:" + name; |id| > 8 && id[0] == 's' && id[8] == name[0] && id[8..] == name
    ensures !Exempt("support:" + name)
  {
    Prefixed("support:", name);
    assert ("support:" + name)[0] == "support:"[0];
    assert "to"[0] == 't' && "test:codegraph-tools"[0] == 't';
  }

  lemma NamedId(family: string, name: string)
    requires |family| >= 4
    ensures var id := family + name;
            |id| >= 4 && id[0] == family[0] && id[1] == family[1] && id[|family|..] == name
    ensures family[0] != 't' ==> !Exempt(family + name)
    ensures family[0] == 't' && family[1] == 'o' ==> Exempt(family + name)
  {
    Prefixed(family, name);
    assert "to"[0] == 't' && "to"[1] == 'o' && "test:codegraph-tools"[0] == 't';
    var id := family + name;
    assert id[0] == 't' && id[1] == 'o' ==> id[..2] == "to";
  }

  ghost predicate Determined(c: Component) {
    |c.id| >= 4 && c.kind == KindOf(c.id) && (!Exempt(c.id) ==> c.path == PathOf(c.id))
  }

  lemma SourceIds(name: string)
    ensures Determined(Component("lib:" + name, Library, "src/lib/" + name))
    ensures Determined(Component("app:" + name, Application, "src/apps/" + name))
    ensures Determined(Component("test:" + name, Test, "src/unittests/" + name))
  {
    hide Exempt;
    NamedId("lib:", name);
    NamedId("app:", name);
    NamedId("test:", name);
  }

  lemma ToolIds(name: string, path: string)
    ensures Determined(Component("tool:" + name, Tool, path))
    ensures Determined(Component("test:codegraph-tools", Test, path))
  {
    NamedId("tool:", name);
    assert "test:codegraph-tools"[0] == 't' && "test:codegraph-tools"[1] == 'e';
  }

  lemma DeployIds(name: string)
    ensures Determined(Component("deploy:" + name, Deployment, if name != "root" then "deploy/" + name else "deploy"))
  {
    hide Exempt;
    NamedId("deploy:", name);
  }

  lemma OneSupportId(name: string, id: string, kind: Kind, path: string)
    requires name != "" && id == "support:" + name
    requires kind == SupportKind(name[0]) && path == SupportPath(name)
    ensures Determined(Component(id, kind, path))
  {
    SupportId(name);
  }

  lemma BuildIds()
    ensures Determined(Component("support:source-build", Build, "src"))
    ensures Determined(Component("support:cmake", Build, "cmake"))
    ensures Determined(Component("support:root", Support, "."))
  {
    hide Determined;
    OneSupportId("source-build", "support:source-build", Build, "src");
    OneSupportId("cmake", "support:cmake", Build, "cmake");
    OneSupportId("root", "support:root", Support, ".");
  }

  lemma SupportIds()
    ensures Determined(Component("support:github", Automation, ".github"))
    ensures Determined(Component("support:translations", Localization, "translations"))
    ensures Determined(Component("support:docs", Documentation, "docs"))
    ensures Determined(Component("support:artwork", Resource, "artwork"))
  {
    hide Determined;
    OneSupportId("github", "support:github", Automation, ".github");
    OneSupportId("translations", "support:translations", Localization, "translations");
    OneSupportId("docs", "support:docs", Documentation, "docs");
    OneSupportId("artwork", "support:artwork", Resource, "artwork");
  }

  /** A component's id determines its kind, and, outside the `tool:` family and the codegraph tests,
      its path. */
  lemma IdDetermines(p: Path)
    ensures Determined(ClassifyParts(p))
  {
    hide Determined;
    hide Stem;
    BuildIds();
    SupportIds();
    if |p| >= 3 {
      SourceIds(p[2]);
    }
    if |p| >= 2 {
      ToolIds(if |p| >= 3 then p[1] else Stem(p[1]), "tools/" + p[1]);
      ToolIds("", "tools/tests");
    }
    DeployIds(if |p| >= 3 then p[1] else "root");
  }

  /** So components with one id agree, and for the others' sake the last file visited wins. */
  lemma SameIdSameComponent(p: string, q: string)
    requires Classify(p).id == Classify(q).id
    ensures Classify(p).kind == Classify(q).kind
    ensures !Exempt(Classify(p).id) ==> Classify(p) == Classify(q)
  {
    hide ClassifyParts;
    hide KindOf;
    hide PathOf;
    IdDetermines(Parts(Slashes(p)));
    IdDetermines(Parts(Slashes(q)));
  }

  /** A name that a path's text can hold as one part, whatever is appended to it. */
  ghost predicate IsPlainName(name: string) {
    name != "" && forall i :: 0 <= i < |name| ==> name[i] != '/' && name[i] != '\\'
  }

  ghost predicate HasNone(p: Path, c: char) {
    forall i :: 0 <= i < |p| ==> forall j :: 0 <= j < |p[i]| ==> p[i][j] != c
  }

  lemma {:induction false} SplitHasNone(s: string, c: char)
    requires forall j :: 0 <= j < |s| ==> s[j] != c
    ensures HasNone(Split(s), c)
    decreases |s|
  {
    var k := IndexFrom(s, '/', 0);
    if k < |s| {
      SplitHasNone(s[k + 1..], c);
    }
  }

  lemma {:induction false} KeptHasNone(p: Path, c: char)
    requires HasNone(p, c)
    ensures HasNone(Kept(p), c)
    decreases |p|
  {
    if p != [] {
      assert HasNone(p[1..], c);
      KeptHasNone(p[1..], c);
    }
  }

  lemma PartIsPlain(path: string, k: nat)
    requires 0 < k < |Parts(Slashes(path))|
    ensures IsPlainName(Parts(Slashes(path))[k])
  {
    hide Split;
    hide Kept;
    var text := Slashes(path);
    var kept := Kept(Split(text));
    PartsAreSegments(text);
    SplitHasNone(text, '\\');
    KeptHasNone(Split(text), '\\');
    var at := if "/" <= text then k - 1 else k;
    assert Parts(text)[k] == kept[at];
    assert Segment(kept[at]);
  }

  lemma StemIsPlain(name: string)
    requires IsPlainName(name)
    ensures IsPlainName(Stem(name))
  {
  }

  /** Ids that begin like a tool's are a tool's. */
  lemma ToolName(path: string) returns (name: string)
    requires "to" <= Classify(path).id
    ensures IsPlainName(name) && Classify(path).id == "tool:" + name
  {
    hide Parts;
    hide Stem;
    hide Slashes;
    var p := Parts(Slashes(path));
    if |p| >= 2 {
      PartIsPlain(path, 1);
      StemIsPlain(p[1]);
    }
    name := if |p| >= 3 then p[1] else if |p| == 2 then Stem(p[1]) else "x";
    NotATool(p);
  }

  lemma NotATool(p: Path)
    ensures "to" <= ClassifyParts(p).id ==> At(p, "tools") && |p| >= 2 && !Under(p, "tools", "tests")
  {
    hide Stem;
    forall name ensures !("to" <= "test:" + name) && !("to" <= "lib:" + name) && !("to" <= "app:" + name) {
      NoToPrefix("test:", name);
      NoToPrefix("lib:", name);
      NoToPrefix("app:", name);
    }
    forall name ensures !("to" <= "deploy:" + name) {
      NoToPrefix("deploy:", name);
    }
    NoToWord("test:codegraph-tools");
    NoToWord("support:root");
    NoToWord("support:github");
    NoToWord("support:translations");
    NoToWord("support:docs");
    NoToWord("support:cmake");
    NoToWord("support:artwork");
    NoToWord("support:source-build");
  }

  lemma NoToWord(id: string)
    requires |id| >= 2 && !(id[0] == 't' && id[1] == 'o')
    ensures !("to" <= id)
  {
    assert "to"[0] == 't' && "to"[1] == 'o';
  }

  lemma NoToPrefix(family: string, name: string)
    requires |family| >= 2 && !(family[0] == 't' && family[1] == 'o')
    ensures !("to" <= family + name)
  {
    var id := family + name;
    assert id[0] == family[0] && id[1] == family[1];
    assert id[0] != "to"[0] || id[1] != "to"[1];
  }

  lemma PlainSlashes(text: string)
    requires forall i :: 0 <= i < |text| ==> text[i] != '\\'
    ensures Slashes(text) == text
  {
  }

  /** A script beside the tools takes its name for an id, whatever its suffix. */
  lemma ScriptTool(name: string, suffix: string)
    requires IsPlainName(name) && suffix in {".py", ".sh"}
    ensures Classify("tools" + "/" + (name + suffix)) == Component("tool:" + name, Tool, "tools/" + (name + suffix))
  {
    hide Parts;
    hide Stem;
    hide Slashes;
    var file := name + suffix;
    ScriptStem(name, suffix);
    PlainSlashes("tools" + "/" + file);
    Pair("tools", file, "tools" + "/" + file);
  }

  lemma ScriptStem(name: string, suffix: string)
    requires IsPlainName(name) && suffix in {".py", ".sh"}
    ensures var file := name + suffix;
            Stem(file) == name && IsPlainName(file) && Segment(file) && file != "tests"
  {
    var file, n := name + suffix, |name|;
    assert |suffix| == 3 && suffix[0] == '.' && suffix[1] != '.' && suffix[2] != '.' && suffix[2] in {'y', 'h'};
    assert file[n] == '.' && file[n + 1] == suffix[1] && file[n + 2] == suffix[2];
    assert LastDot(file, n + 3) == n;
    assert file[..n] == name;
    assert "tests"[4] == 's';
    assert file[|file| - 1] != "tests"[4];
  }

  lemma JoinFirst(x: string, ys: Path, rest: string, text: string)
    requires ys != [] && Join(ys, "/") == rest && text == x + "/" + rest
    ensures Join([x] + ys, "/") == text
  {
    hide Join;
    JoinUnfolds([x] + ys);
    assert ([x] + ys)[1..] == ys;
  }

  function TestFile(name: string): string {
    "src" + "/" + ("unittests" + "/" + (name + "/" + "y"))
  }

  lemma PartsOfTestFile(name: string)
    requires IsPlainName(name) && name != "."
    ensures Parts(Slashes(TestFile(name))) == ["src", "unittests", name, "y"]
  {
    hide Parts;
    hide Join;
    var y, t, u, q := ["y"], [name, "y"], ["unittests", name, "y"], ["src", "unittests", name, "y"];
    JoinOne(y);
    assert t == [name] + y && u == ["unittests"] + t && q == ["src"] + u;
    JoinFirst(name, y, "y", name + "/" + "y");
    JoinFirst("unittests", t, name + "/" + "y", "unittests" + "/" + (name + "/" + "y"));
    JoinFirst("src", u, "unittests" + "/" + (name + "/" + "y"), TestFile(name));
    PlainSlashes(TestFile(name));
    PartsOfJoin(q);
  }

  lemma TestsClash()
    ensures Classify("tools" + "/" + "tests") == Component("test:codegraph-tools", Test, "tools/tests")
    ensures Classify(TestFile("codegraph-tools")) ==
            Component("test:codegraph-tools", Test, "src/unittests/" + "codegraph-tools")
    ensures "tools/tests" != "src/unittests/" + "codegraph-tools"
  {
    hide Parts;
    hide Slashes;
    hide TestFile;
    PlainSlashes("tools" + "/" + "tests");
    Pair("tools", "tests", "tools" + "/" + "tests");
    PartsOfTestFile("codegraph-tools");
    assert "test:" + "codegraph-tools" == "test:codegraph-tools";
    assert ("src/unittests/" + "codegraph-tools")[0] == 's' && "tools/tests"[0] == 't';
  }

  /** Two files with this id and different paths. */
  ghost predicate Clash(id: string, q: string, r: string) {
    Classify(q).id == id && Classify(r).id == id && Classify(q).path != Classify(r).path
  }

  /** Every exempt id that a file has, two files have whose components differ in their path. */
  lemma ExemptIdsClash(p: string)
    requires Exempt(Classify(p).id)
    ensures exists q, r :: Clash(Classify(p).id, q, r)
  {
    hide Classify;
    if Classify(p).id == "test:codegraph-tools" {
      TestsClash();
      assert Clash(Classify(p).id, "tools" + "/" + "tests", TestFile("codegraph-tools"));
    } else {
      var name := ToolName(p);
      ScriptTool(name, ".py");
      ScriptTool(name, ".sh");
      var q, r := "tools/" + (name + ".py"), "tools/" + (name + ".sh");
      assert q[|name| + 8] == 'y' && r[|name| + 8] == 'h';
      assert Clash(Classify(p).id, "tools" + "/" + (name + ".py"), "tools" + "/" + (name + ".sh"));
    }
  }

  /** An id that a file has determines the path exactly when it is not exempt. */
  lemma IdDeterminesPathIff(p: string)
    ensures !Exempt(Classify(p).id) <==>
            forall q, r :: Classify(q).id == Classify(p).id && Classify(r).id == Classify(p).id ==>
              Classify(q).path == Classify(r).path
  {
    hide Classify;
    hide Exempt;
    if Exempt(Classify(p).id) {
      ExemptIdsClash(p);
      var q, r :| Clash(Classify(p).id, q, r);
      assert Classify(q).id == Classify(p).id && Classify(r).id == Classify(p).id;
    } else {
      forall q, r | Classify(q).id == Classify(p).id && Classify(r).id == Classify(p).id
        ensures Classify(q).path == Classify(r).path
      {
        SameIdSameComponent(q, r);
      }
    }
  }

  /** A component's path is `.` or leads to every file of the component, wherever the file is. */
  lemma PathLeadsToFile(path: string)
    ensures var c := Classify(path); c.path == "." || Parts(c.path) <= Parts(Slashes(path))
  {
    hide Parts;
    hide Slashes;
    hide AllSegments;
    hide Segment;
    PartsAfterRoot(Slashes(path));
    var p := Parts(Slashes(path));
    if !("/" <= Slashes(path)) {
      PathIsPrefix(p);
    }
  }

  lemma PathIsPrefix(p: Path)
    requires AllSegments(p)
    ensures var c := ClassifyParts(p); c.path == "." || Parts(c.path) <= p
  {
    hide Parts;
    hide AllSegments;
    hide Segment;
    if |p| >= 3 && p[0] == "src" && p[1] in {"lib", "apps", "unittests"} {
      SourcePath(p);
    } else if |p| >= 2 && (p[0] == "tools" || p[0] == "deploy") {
      ToolPath(p);
    } else {
      PartsOfWords();
    }
  }

  lemma SourcePath(p: Path)
    requires AllSegments(p) && |p| >= 3 && p[0] == "src" && p[1] in {"lib", "apps", "unittests"}
    ensures var c := ClassifyParts(p); c.path == "." || Parts(c.path) <= p
  {
    hide Parts;
    PartsOfWords();
    assert Segment(p[2]);
    assert p[..3] == [p[0], p[1], p[2]];
    Nested(p[..3], "src/" + p[1] + "/" + p[2]);
    assert "src/" + "lib" + "/" == "src/lib/" && "src/" + "apps" + "/" == "src/apps/";
    assert "src/" + "unittests" + "/" == "src/unittests/";
  }

  lemma ToolPath(p: Path)
    requires AllSegments(p) && |p| >= 2 && (p[0] == "tools" || p[0] == "deploy")
    ensures var c := ClassifyParts(p); c.path == "." || Parts(c.path) <= p
  {
    hide Parts;
    hide Stem;
    PartsOfWords();
    assert Segment(p[0]) && Segment(p[1]);
    assert p[..2] == [p[0], p[1]];
    Pair(p[0], p[1], p[0] + "/" + p[1]);
    assert "tools" + "/" == "tools/" && "deploy" + "/" == "deploy/";
    assert p[0] == "tools" ==> p[0] + "/" + p[1] == "tools/" + p[1];
  }

  lemma Nested(q: Path, text: string)
    requires |q| == 3 && q[0] == "src" && q[1] in {"lib", "apps", "unittests"} && Segment(q[2])
    requires text == "src/" + q[1] + "/" + q[2]
    ensures Parts(text) == q
  {
    assert q[1..] == [q[1], q[2]] && q[1..][1..] == [q[2]];
    assert Join(q[1..], "/") == q[1] + "/" + q[2];
    assert Join(q, "/") == text;
    PartsOfJoin(q);
  }

  lemma Pair(first: string, name: string, text: string)
    requires Segment(first) && Segment(name) && text == first + "/" + name
    ensures Parts(text) == [first, name]
  {
    assert [first, name][1..] == [name];
    PartsOfJoin([first, name]);
  }

  lemma Word(name: string)
    requires Segment(name)
    ensures Parts(name) == [name]
  {
    PartsOfJoin([name]);
  }

  lemma PartsOfWords()
    ensures forall w :: w in {"src", "deploy", ".github", "translations", "docs", "cmake", "artwork"} ==>
              Parts(w) == [w]
    ensures Parts("tools/tests") == ["tools", "tests"]
  {
    forall w | w in {"src", "deploy", ".github", "translations", "docs", "cmake", "artwork"} ensures Parts(w) == [w] {
      Word(w);
    }
    assert "tools" + "/" + "tests" == "tools/tests";
    Pair("tools", "tests", "tools/tests");
  }
}

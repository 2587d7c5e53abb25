/** Which files each component has, told from the parts of a path. */
module ComponentFiles {
  import opened Text
  import opened RepoPaths
  import opened Components

  /** The parts of a file's path, as the classification reads them. */
  function PartsOf(path: string): Path {
    Parts(Slashes(path))
  }

  // ----- the families of files

  /** A file at least one directory below `src/<group>/<name>`. */
  predicate InGroup(p: Path, group: string) {
    |p| >= 4 && p[0] == "src" && p[1] == group
  }

  predicate InTests(p: Path) {
    InGroup(p, "unittests") || (|p| >= 2 && p[0] == "tools" && p[1] == "tests")
  }

  predicate InTools(p: Path) {
    |p| >= 2 && p[0] == "tools" && p[1] != "tests"
  }

  predicate Heads(p: Path, first: string) {
    p != [] && p[0] == first
  }

  /** The list files of the three source groups. */
  predicate IsSourceList(p: Path) {
    |p| == 3 && p[0] == "src" && (p[1] == "apps" || p[1] == "lib" || p[1] == "unittests") && p[2] == "CMakeLists.txt"
  }

  /** Every file that no other family takes. */
  predicate InNoFamily(p: Path) {
    && !InGroup(p, "lib") && !InGroup(p, "apps") && !InTests(p) && !InTools(p) && !IsSourceList(p)
    && !Heads(p, "deploy") && !Heads(p, ".github") && !Heads(p, "translations") && !Heads(p, "docs")
    && !Heads(p, "cmake") && !Heads(p, "artwork")
  }

  /** The first two characters of an id. */
  function Initials(id: string): (char, char)
    requires |id| >= 2
  {
    (id[0], id[1])
  }

  lemma FamilyInitials(family: string, name: string)
    requires |family| >= 4
    ensures |family + name| >= 4 && Initials(family + name) == Initials(family)
  {
    Prefixed(family, name);
  }

  lemma LiteralInitials()
    ensures Initials("lib:") == ('l', 'i') && Initials("app:") == ('a', 'p') && Initials("test:") == ('t', 'e')
    ensures Initials("tool:") == ('t', 'o') && Initials("deploy:") == ('d', 'e')
    ensures Initials("test:codegraph-tools") == ('t', 'e')
  {
  }

  lemma SupportInitials(p: Path)
    requires !InGroup(p, "lib") && !InGroup(p, "apps") && !InTests(p) && !InTools(p) && !Heads(p, "deploy")
    ensures var id := ClassifyParts(p).id; |id| >= 4 && Initials(id) == ('s', 'u')
  {
    hide Stem;
  }

  /** The first characters of an id tell its family. */
  lemma FamilyOfId(p: Path)
    ensures var id := ClassifyParts(p).id;
            && |id| >= 4
            && (id[0] == 'l' <==> InGroup(p, "lib"))
            && (id[0] == 'a' <==> InGroup(p, "apps"))
            && (id[0] == 'd' <==> Heads(p, "deploy"))
            && (id[0] == 't' && id[1] == 'e' <==> InTests(p))
            && (id[0] == 't' && id[1] == 'o' <==> InTools(p))
  {
    hide ClassifyParts;
    LiteralInitials();
    FamilyIds(p);
    if InGroup(p, "lib") {
      FamilyInitials("lib:", p[2]);
    } else if InGroup(p, "apps") {
      FamilyInitials("app:", p[2]);
    } else if InGroup(p, "unittests") {
      FamilyInitials("test:", p[2]);
    } else if InTests(p) {
    } else if InTools(p) {
      FamilyInitials("tool:", if |p| >= 3 then p[1] else Stem(p[1]));
    } else if Heads(p, "deploy") {
      FamilyInitials("deploy:", if |p| >= 3 then p[1] else "root");
    } else {
      SupportInitials(p);
    }
  }

  lemma FamilyIds(p: Path)
    ensures var id := ClassifyParts(p).id;
            && (InGroup(p, "lib") ==> id == "lib:" + p[2])
            && (InGroup(p, "apps") ==> id == "app:" + p[2])
            && (InGroup(p, "unittests") ==> id == "test:" + p[2])
            && (InTests(p) && !InGroup(p, "unittests") ==> id == "test:codegraph-tools")
            && (InTools(p) ==> id == "tool:" + (if |p| >= 3 then p[1] else Stem(p[1])))
            && (Heads(p, "deploy") ==> id == "deploy:" + (if |p| >= 3 then p[1] else "root"))
  {
    hide Stem;
  }

  /** A name can be read off an id after its family. */
  lemma SameName(family: string, x: string, y: string)
    ensures family + x == family + y <==> x == y
  {
    Prefixed(family, x);
    Prefixed(family, y);
  }

  // ----- sources

  lemma LibraryFiles(path: string, name: string)
    ensures var p := PartsOf(path);
            && (Classify(path).id == "lib:" + name <==> InGroup(p, "lib") && p[2] == name)
            && (InGroup(p, "lib") ==> Classify(path) == Component("lib:" + p[2], Library, "src/lib/" + p[2]))
  {
    hide Parts;
    hide Slashes;
    hide Stem;
    var p := PartsOf(path);
    FamilyOfId(p);
    Prefixed("lib:", name);
    if InGroup(p, "lib") {
      SameName("lib:", p[2], name);
    }
  }

  lemma ApplicationFiles(path: string, name: string)
    ensures var p := PartsOf(path);
            && (Classify(path).id == "app:" + name <==> InGroup(p, "apps") && p[2] == name)
            && (InGroup(p, "apps") ==> Classify(path) == Component("app:" + p[2], Application, "src/apps/" + p[2]))
  {
    hide Parts;
    hide Slashes;
    hide Stem;
    var p := PartsOf(path);
    FamilyOfId(p);
    Prefixed("app:", name);
    if InGroup(p, "apps") {
      SameName("app:", p[2], name);
    }
  }

  /** The tests of the tools are a test component of their own. */
  lemma TestFiles(path: string, name: string)
    ensures var p := PartsOf(path);
            var toolTests := |p| >= 2 && p[0] == "tools" && p[1] == "tests";
            && (Classify(path).id == "test:" + name <==>
                  (InGroup(p, "unittests") && p[2] == name) || (toolTests && name == "codegraph-tools"))
            && (InGroup(p, "unittests") ==> Classify(path) == Component("test:" + p[2], Test, "src/unittests/" + p[2]))
            && (toolTests ==> Classify(path) == Component("test:" + "codegraph-tools", Test, "tools/tests"))
  {
    hide Parts;
    hide Slashes;
    hide Stem;
    var p := PartsOf(path);
    FamilyOfId(p);
    Prefixed("test:", name);
    assert "test:" + "codegraph-tools" == "test:codegraph-tools";
    if InGroup(p, "unittests") {
      SameName("test:", p[2], name);
    } else if InTests(p) {
      SameName("test:", "codegraph-tools", name);
    }
  }

  // ----- tools

  /** `name` is `stem`, a dot and a suffix without dots, none of them empty. */
  ghost predicate HasSuffix(name: string, stem: string, suffix: string) {
    && name == stem + "." + suffix && stem != "" && suffix != ""
    && forall i :: 0 <= i < |suffix| ==> suffix[i] != '.'
  }

  /** What is left of a file name without its suffix, or the whole name if it has none. */
  ghost predicate IsStemOf(name: string, stem: string) {
    (exists suffix :: HasSuffix(name, stem, suffix)) ||
    (stem == name && !exists other, suffix :: HasSuffix(name, other, suffix))
  }

  lemma SuffixIsAfterLastDot(name: string, stem: string, suffix: string)
    requires HasSuffix(name, stem, suffix)
    ensures LastDot(name, |name|) == |stem| && Stem(name) == stem && Suffix(name) == "." + suffix
  {
    var k := |stem|;
    assert name[k] == '.';
    assert forall i :: k < i < |name| ==> name[i] == suffix[i - k - 1];
    assert name[..k] == stem && name[k..] == "." + suffix;
  }

  lemma StemIsLeft(name: string, stem: string)
    ensures Stem(name) == stem <==> IsStemOf(name, stem)
  {
    hide Stem;
    hide LastDot;
    forall other, suffix | HasSuffix(name, other, suffix) ensures Stem(name) == other {
      SuffixIsAfterLastDot(name, other, suffix);
    }
    StemCases(name);
  }

  lemma StemCases(name: string)
    ensures Stem(name) == name || exists suffix :: HasSuffix(name, Stem(name), suffix)
    ensures Stem(name) == name ==> !exists other, suffix :: HasSuffix(name, other, suffix)
  {
    var k := LastDot(name, |name|);
    if 0 < k < |name| - 1 {
      assert name == name[..k] + "." + name[k + 1..];
      assert HasSuffix(name, name[..k], name[k + 1..]);
    } else {
      forall other, suffix ensures !HasSuffix(name, other, suffix) {
        if HasSuffix(name, other, suffix) {
          SuffixIsAfterLastDot(name, other, suffix);
        }
      }
    }
  }

  /** A directory of the tools is a tool, and so is a script beside them, without its suffix. */
  lemma ToolFiles(path: string, name: string)
    ensures var p := PartsOf(path);
            && (Classify(path).id == "tool:" + name <==>
                  InTools(p) && (if |p| >= 3 then p[1] == name else IsStemOf(p[1], name)))
            && (InTools(p) ==> Classify(path).kind == Tool && Classify(path).path == "tools/" + p[1])
  {
    hide Parts;
    hide Slashes;
    hide Stem;
    hide IsStemOf;
    var p := PartsOf(path);
    FamilyOfId(p);
    Prefixed("tool:", name);
    if InTools(p) {
      StemIsLeft(p[1], name);
      SameName("tool:", if |p| >= 3 then p[1] else Stem(p[1]), name);
    }
  }

  // ----- the rest

  lemma DeployFiles(path: string, name: string)
    ensures var p := PartsOf(path);
            && (Classify(path).id == "deploy:" + name <==>
                  Heads(p, "deploy") && (if |p| >= 3 then p[1] == name else name == "root"))
            && (Heads(p, "deploy") ==>
                  Classify(path).kind == Deployment &&
                  Classify(path).path == if |p| >= 3 && p[1] != "root" then "deploy/" + p[1] else "deploy")
  {
    hide Parts;
    hide Slashes;
    hide Stem;
    var p := PartsOf(path);
    FamilyOfId(p);
    Prefixed("deploy:", name);
    if Heads(p, "deploy") {
      SameName("deploy:", if |p| >= 3 then p[1] else "root", name);
    }
  }

  /** The seven other components, by the first directory; the last takes exactly what no family takes. */
  lemma SupportFiles(path: string)
    ensures var p, c := PartsOf(path), Classify(path);
            && (IsSourceList(p) <==> c == Component("support:source-build", Build, "src"))
            && (Heads(p, ".github") <==> c == Component("support:github", Automation, ".github"))
            && (Heads(p, "translations") <==> c == Component("support:translations", Localization, "translations"))
            && (Heads(p, "docs") <==> c == Component("support:docs", Documentation, "docs"))
            && (Heads(p, "cmake") <==> c == Component("support:cmake", Build, "cmake"))
            && (Heads(p, "artwork") <==> c == Component("support:artwork", Resource, "artwork"))
            && (InNoFamily(p) <==> c == Component("support:root", Support, "."))
  {
    hide Parts;
    hide Slashes;
    hide Stem;
    SupportComponents(PartsOf(path));
  }

  lemma SupportComponents(p: Path)
    ensures var c := ClassifyParts(p);
            && (IsSourceList(p) <==> c == Component("support:source-build", Build, "src"))
            && (Heads(p, ".github") <==> c == Component("support:github", Automation, ".github"))
            && (Heads(p, "translations") <==> c == Component("support:translations", Localization, "translations"))
            && (Heads(p, "docs") <==> c == Component("support:docs", Documentation, "docs"))
            && (Heads(p, "cmake") <==> c == Component("support:cmake", Build, "cmake"))
            && (Heads(p, "artwork") <==> c == Component("support:artwork", Resource, "artwork"))
            && (InNoFamily(p) <==> c == Component("support:root", Support, "."))
  {
    hide Stem;
    assert Build != Support && Automation != Support;
    assert "src" != "cmake" by {
      assert "src"[0] == 's' && "cmake"[0] == 'c';
    }
  }

  /** Each id of the seven belongs to the one component with it. */
  lemma SupportIdsTell(path: string, other: Component)
    requires other in {
      Component("support:source-build", Build, "src"), Component("support:github", Automation, ".github"),
      Component("support:translations", Localization, "translations"),
      Component("support:docs", Documentation, "docs"), Component("support:cmake", Build, "cmake"),
      Component("support:artwork", Resource, "artwork"), Component("support:root", Support, ".") }
    ensures Classify(path).id == other.id <==> Classify(path) == other
  {
    hide ClassifyParts;
    hide KindOf;
    hide PathOf;
    BuildIds();
    SupportIds();
    NotExemptSupport(other);
    IdDetermines(PartsOf(path));
  }

  lemma NotExemptSupport(c: Component)
    requires c.id in {"support:source-build", "support:github", "support:translations", "support:docs", "support:cmake",
                      "support:artwork", "support:root"}
    ensures !Exempt(c.id)
  {
    assert c.id[0] == 's';
    NoToWord(c.id);
    assert "test:codegraph-tools"[0] == 't';
  }
}

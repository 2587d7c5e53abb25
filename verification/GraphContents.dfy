/** What a finished graph holds, told from the tracked files and their texts. */
module GraphContents {
  import opened Text
  import opened TextLaws
  import opened Order
  import opened RepoPaths
  import opened Components
  import opened ComponentFiles
  import opened Includes
  import opened CMakeVariables
  import opened CMakeParser
  import opened CMakeLaws
  import opened CMakeCalls
  import opened GraphTables
  import opened GraphBuilder
  import opened GraphLaws
  import opened GraphRows
  import S = CMakeScanner

  // ----- files

  /** A tracked file is in the graph unless it is one of the graph's own outputs. */
  predicate InGraph(repo: Repository, path: string) {
    path in repo.tracked && IsKept(path)
  }

  predicate IsText(repo: Repository, path: string) {
    InGraph(repo, path) && repo.read(path).TextFile?
  }

  ghost predicate EndsIn(name: string, ending: string) {
    exists stem, suffix :: HasSuffix(name, stem, suffix) && Spells(suffix, ending)
  }

  /** The last part of the path is a name with this suffix, in any case. */
  ghost predicate HasEnding(path: string, ending: string) {
    var p := Parts(path);
    p != [] && EndsIn(p[|p| - 1], ending)
  }

  ghost predicate IsCMakePath(path: string) {
    var p := Parts(path);
    (p != [] && p[|p| - 1] == "CMakeLists.txt") || HasEnding(path, "cmake")
  }

  ghost predicate IsCPath(path: string) {
    || HasEnding(path, "c") || HasEnding(path, "cc") || HasEnding(path, "cpp") || HasEnding(path, "cxx")
    || HasEnding(path, "h") || HasEnding(path, "hh") || HasEnding(path, "hpp") || HasEnding(path, "hxx")
    || HasEnding(path, "m") || HasEnding(path, "mm")
  }

  /** The tables' paths and texts are those of the files in the graph. */
  ghost function Texts(repo: Repository): map<string, string> {
    TextTable(repo, Represented(repo.tracked))
  }

  ghost function InGraphSet(repo: Repository): set<string> {
    set p | p in repo.tracked && IsKept(p)
  }

  lemma {:induction false} RepresentedIff(paths: seq<string>, path: string)
    ensures path in Represented(paths) <==> path in paths && IsKept(path)
    ensures path in Excluded(paths) <==> path in paths && !IsKept(path)
    decreases |paths|
  {
    if paths != [] {
      RepresentedIff(paths[1..], path);
      assert paths == [paths[0]] + paths[1..];
    }
  }

  lemma TextsAre(repo: Repository)
    ensures forall p :: p in Texts(repo) <==> IsText(repo, p)
    ensures forall p :: p in Texts(repo) ==> Texts(repo)[p] == repo.read(p).text
    ensures (set p | p in Represented(repo.tracked)) == InGraphSet(repo)
  {
    hide Represented;
    forall p ensures p in Represented(repo.tracked) <==> InGraph(repo, p) {
      RepresentedIff(repo.tracked, p);
    }
  }

  // ----- names

  lemma LastPart(path: string)
    ensures var p := Parts(path); Name(path) == if p == [] || p == ["/"] || p == ["//"] then "" else p[|p| - 1]
  {
    hide Split;
    hide Kept;
    var p := Parts(path);
    if |p| == 1 && Absolute(p) {
      PartsAreSegments(path);
    }
  }

  lemma RootHasNoSuffix(stem: string, suffix: string)
    ensures !HasSuffix("/", stem, suffix) && !HasSuffix("//", stem, suffix)
  {
  }

  lemma LowerAfterDot(suffix: string)
    ensures Lower("." + suffix) == "." + Lower(suffix)
  {
  }

  lemma SuffixSpells(name: string, ending: string)
    requires ending != ""
    ensures Lower(Suffix(name)) == "." + Lower(ending) <==> EndsIn(name, ending)
  {
    hide Suffix;
    hide Lower;
    hide Spells;
    hide LastDot;
    forall stem, suffix | HasSuffix(name, stem, suffix)
      ensures Suffix(name) == "." + suffix && Lower(Suffix(name)) == "." + Lower(suffix)
      ensures Spells(suffix, ending) <==> Lower(suffix) == Lower(ending)
    {
      SuffixIsAfterLastDot(name, stem, suffix);
      LowerAfterDot(suffix);
      SpellsIff(suffix, ending);
    }
    SuffixCases(name);
    if Lower(Suffix(name)) == "." + Lower(ending) && Suffix(name) != "" {
      var stem, suffix :| HasSuffix(name, stem, suffix);
      DotTwice(Lower(suffix), Lower(ending));
    }
  }

  lemma DotTwice(a: string, b: string)
    requires "." + a == "." + b
    ensures a == b
  {
    assert ("." + a)[1..] == a && ("." + b)[1..] == b;
  }

  lemma SuffixCases(name: string)
    ensures Suffix(name) == "" || exists stem, suffix :: HasSuffix(name, stem, suffix)
  {
    var k := LastDot(name, |name|);
    if 0 < k < |name| - 1 {
      assert name == name[..k] + "." + name[k + 1..];
      assert HasSuffix(name, name[..k], name[k + 1..]);
    }
  }

  lemma EndingIff(path: string, ending: string)
    requires ending != ""
    ensures Lower(Suffix(Name(path))) == "." + Lower(ending) <==> HasEnding(path, ending)
  {
    hide Suffix;
    hide Lower;
    hide Spells;
    hide Parts;
    hide Name;
    hide HasSuffix;
    LastPart(path);
    SuffixSpells(Name(path), ending);
    forall stem, suffix ensures !HasSuffix("/", stem, suffix) && !HasSuffix("//", stem, suffix)
                                && !HasSuffix("", stem, suffix)
    {
      RootHasNoSuffix(stem, suffix);
      NothingHasNoSuffix(stem, suffix);
    }
  }

  lemma NothingHasNoSuffix(stem: string, suffix: string)
    ensures !HasSuffix("", stem, suffix)
  {
  }

  /** The CMake files are the list files and what ends in `.cmake`; the C family goes by its ten suffixes. */
  lemma CMakePathIff(path: string)
    ensures IsCMakeFile(path) <==> IsCMakePath(path)
  {
    hide Suffix;
    hide Parts;
    hide Name;
    hide HasEnding;
    LastPart(path);
    EndingIff(path, "cmake");
    assert "." + Lower("cmake") == ".cmake";
    assert "CMakeLists.txt"[0] == 'C';
  }

  lemma CPathIff(path: string)
    ensures IsCFamily(path) <==> IsCPath(path)
  {
    hide Suffix;
    hide Name;
    hide HasEnding;
    EndingIff(path, "c");
    EndingIff(path, "cc");
    EndingIff(path, "cpp");
    EndingIff(path, "cxx");
    EndingIff(path, "h");
    EndingIff(path, "hh");
    EndingIff(path, "hpp");
    EndingIff(path, "hxx");
    EndingIff(path, "m");
    EndingIff(path, "mm");
    Endings();
  }

  lemma Endings()
    ensures "." + Lower("c") == ".c" && "." + Lower("cc") == ".cc" && "." + Lower("cpp") == ".cpp"
    ensures "." + Lower("cxx") == ".cxx" && "." + Lower("h") == ".h" && "." + Lower("hh") == ".hh"
    ensures "." + Lower("hpp") == ".hpp" && "." + Lower("hxx") == ".hxx"
    ensures "." + Lower("m") == ".m" && "." + Lower("mm") == ".mm"
  {
  }

  // ----- targets and links

  /** The environment every CMake file starts from: what the root file's own `set` calls leave, or nothing
      if there is no such text file. */
  ghost predicate StartsFrom(repo: Repository, env: Env) {
    if IsText(repo, "CMakeLists.txt") then
      AssignAll(SetCalls(repo.read("CMakeLists.txt").text), map[], repo.tok) == Some(env)
    else
      env == map[]
  }

  lemma NoCalls(tok: Tokenizer)
    ensures Variables("", map[], tok) == Some(map[])
  {
    assert Lines("") == [] && CutComments([]) == [] && StripComments("") == "";
    assert S.Scan("", SET, 0) == [];
  }

  lemma RootIs(repo: Repository, env: Env)
    ensures StartsFrom(repo, env) <==> RootVariables(Texts(repo), repo.tok) == Some(env)
  {
    hide AssignAll;
    hide Texts;
    hide Clean;
    hide S.Scan;
    hide S.Yields;
    TextsAre(repo);
    NoCalls(repo.tok);
  }

  /** A CMake file of the graph, as parsing it in this environment reads it. */
  ghost predicate Reads(repo: Repository, env: Env, path: string, parsed: Parsed) {
    IsText(repo, path) && IsCMakePath(path) && Parse(repo.read(path).text, env, repo.tok) == Some(parsed)
  }

  lemma ReadsIff(repo: Repository, env: Env, path: string, parsed: Parsed)
    requires StartsFrom(repo, env)
    ensures Reads(repo, env, path, parsed) <==>
            path in Texts(repo) && path in CMakeFiles(Texts(repo)) &&
            ParsedFile(Texts(repo), path, repo.tok) == Some(parsed)
  {
    hide Parse;
    hide RootVariables;
    hide StartsFrom;
    hide Texts;
    hide IsCMakePath;
    hide IsCMakeFile;
    TextsAre(repo);
    RootIs(repo, env);
    CMakePathIff(path);
  }

  /** A build succeeds exactly when the root variables can be read and every CMake file parses in them. */
  lemma GraphIsBuiltIff(repo: Repository)
    ensures CMakeParses(Texts(repo), repo.tok) <==>
            exists env :: StartsFrom(repo, env) &&
              forall p :: IsText(repo, p) && IsCMakePath(p) ==> Parse(repo.read(p).text, env, repo.tok).Some?
  {
    hide Parse;
    hide RootVariables;
    hide StartsFrom;
    hide Texts;
    hide IsCMakePath;
    hide IsCMakeFile;
    TextsAre(repo);
    forall env: Env ensures StartsFrom(repo, env) <==> RootVariables(Texts(repo), repo.tok) == Some(env) {
      RootIs(repo, env);
    }
    forall p: string ensures IsCMakeFile(p) <==> IsCMakePath(p) {
      CMakePathIff(p);
    }
    if CMakeParses(Texts(repo), repo.tok) {
      var env := RootVariables(Texts(repo), repo.tok).value;
      assert StartsFrom(repo, env);
      forall p | IsText(repo, p) && IsCMakePath(p) ensures Parse(repo.read(p).text, env, repo.tok).Some? {
        assert p in CMakeFiles(Texts(repo));
      }
    }
  }

  lemma GraphTargets(g: Graph, repo: Repository, owners: map<string, string>, edges: EdgeTable)
    requires IsGraph(g, repo, owners, edges)
    ensures g.targets == Targets(Texts(repo), repo.tok, CMakeFiles(Texts(repo)))
    ensures AreOwners(owners, Texts(repo), repo.tok, CMakeFiles(Texts(repo)))
  {
    hide Represented;
    hide TextTable;
    hide AreRows;
    hide AreEdgeRows;
    hide IsQuotient;
    hide IsIndex;
    hide Targets;
    hide AreOwners;
  }

  /** The targets of a graph are exactly those its CMake files declare, each with its file's component. */
  lemma TargetsAreDeclared(
    g: Graph, repo: Repository, owners: map<string, string>, edges: EdgeTable, env: Env, t: Target)
    requires IsGraph(g, repo, owners, edges) && StartsFrom(repo, env)
    ensures t in g.targets <==>
            t.component == Classify(t.source).id &&
            exists parsed :: Reads(repo, env, t.source, parsed) && TargetDecl(t.name, t.kind) in parsed.targets
  {
    hide IsGraph;
    hide StartsFrom;
    hide ParsedFile;
    hide Classify;
    hide Texts;
    hide Reads;
    hide CMakeFiles;
    GraphTargets(g, repo, owners, edges);
    forall parsed
      ensures Reads(repo, env, t.source, parsed) <==>
              t.source in Texts(repo) && t.source in CMakeFiles(Texts(repo)) &&
              ParsedFile(Texts(repo), t.source, repo.tok) == Some(parsed)
    {
      ReadsIff(repo, env, t.source, parsed);
    }
    if t.component == Classify(t.source).id &&
       exists parsed :: Reads(repo, env, t.source, parsed) && TargetDecl(t.name, t.kind) in parsed.targets
    {
      var parsed :| Reads(repo, env, t.source, parsed) && TargetDecl(t.name, t.kind) in parsed.targets;
      assert Target(ComponentOf(t.source), t.kind, t.name, t.source) == t;
    }
  }

  /** Names belong to the component of the first file, by path, among those that declare them. */
  ghost predicate OwnsFirst(g: Graph, n: string, t: Target) {
    t in g.targets && t.name == n &&
    forall u :: u in g.targets && u.name == n ==> t.source == u.source || Less(t.source, u.source)
  }

  lemma DeclaresTarget(g: Graph, repo: Repository, owners: map<string, string>, edges: EdgeTable, p: string, n: string)
    requires IsGraph(g, repo, owners, edges)
    ensures Declares(Texts(repo), repo.tok, p, n) <==>
            exists t :: t in g.targets && t.source == p && t.name == n && t.component == ComponentOf(p)
    ensures forall t :: t in g.targets ==> t.source in CMakeFiles(Texts(repo)) && t.component == ComponentOf(t.source)
  {
    hide IsGraph;
    hide ParsedFile;
    hide ComponentOf;
    hide Texts;
    hide IsCMakeFile;
    GraphTargets(g, repo, owners, edges);
    if Declares(Texts(repo), repo.tok, p, n) {
      var d :| d in ParsedFile(Texts(repo), p, repo.tok).value.targets && d.name == n;
      assert Target(ComponentOf(p), d.kind, d.name, p) in g.targets;
    }
  }

  lemma OwnersAreFirst(g: Graph, repo: Repository, owners: map<string, string>, edges: EdgeTable, n: string)
    requires IsGraph(g, repo, owners, edges)
    ensures n in owners <==> exists t :: t in g.targets && t.name == n
    ensures n in owners ==> exists t :: OwnsFirst(g, n, t) && owners[n] == t.component
  {
    hide IsGraph;
    hide ComponentOf;
    hide Less;
    hide Texts;
    hide Declares;
    hide CMakeFiles;
    GraphTargets(g, repo, owners, edges);
    var among := CMakeFiles(Texts(repo));
    forall p ensures Declares(Texts(repo), repo.tok, p, n) <==>
                     exists t :: t in g.targets && t.source == p && t.name == n && t.component == ComponentOf(p)
    {
      DeclaresTarget(g, repo, owners, edges, p, n);
    }
    DeclaresTarget(g, repo, owners, edges, "", n);
    if n in owners {
      var p :| FirstDeclares(Texts(repo), repo.tok, p, n, among) && owners[n] == ComponentOf(p);
      var t :| t in g.targets && t.source == p && t.name == n && t.component == ComponentOf(p);
      assert OwnsFirst(g, n, t);
    }
  }

  /** A CMake file of the graph links these. */
  ghost predicate LinkedIn(repo: Repository, env: Env, l: Link) {
    exists parsed :: Reads(repo, env, l.0, parsed) && l.1 in parsed.links
  }

  lemma LinksAre(repo: Repository, env: Env, l: Link)
    requires StartsFrom(repo, env)
    ensures l in Links(Texts(repo), repo.tok, CMakeFiles(Texts(repo))) <==> LinkedIn(repo, env, l)
  {
    hide StartsFrom;
    hide ParsedFile;
    hide Texts;
    hide Reads;
    hide CMakeFiles;
    forall parsed
      ensures Reads(repo, env, l.0, parsed) <==>
              l.0 in Texts(repo) && l.0 in CMakeFiles(Texts(repo)) &&
              ParsedFile(Texts(repo), l.0, repo.tok) == Some(parsed)
    {
      ReadsIff(repo, env, l.0, parsed);
    }
  }

  /** A link leads from the owner of its source, or else from its file's component, to the owner of its target. */
  ghost predicate LeadsTo(owners: map<string, string>, l: Link, a: string, b: string) {
    && (if l.1.source in owners then owners[l.1.source] == a else Classify(l.0).id == a)
    && l.1.target in owners && owners[l.1.target] == b
  }

  /** Link edges join the components that the links of the CMake files lead between, with their lines. */
  lemma LinkEdgesAre(repo: Repository, env: Env, owners: map<string, string>, a: string, b: string, line: string)
    requires StartsFrom(repo, env)
    ensures LinkJoins(repo, owners, a, b) <==> exists l :: LinkedIn(repo, env, l) && LeadsTo(owners, l, a, b)
    ensures LinkShows(repo, owners, a, b, line) <==>
            exists l :: LinkedIn(repo, env, l) && LeadsTo(owners, l, a, b) && LinkText(l) == line
  {
    hide StartsFrom;
    hide TextTable;
    hide Represented;
    hide Links;
    hide LinkedIn;
    hide CMakeFiles;
    hide Classify;
    hide LinkText;
    forall l: Link
      ensures l in Links(Texts(repo), repo.tok, CMakeFiles(Texts(repo))) <==> LinkedIn(repo, env, l)
      ensures LinkJoinsBy(owners, l, a, b) <==> LeadsTo(owners, l, a, b)
    {
      LinksAre(repo, env, l);
    }
  }

  // ----- a name of the root file

  lemma WholeReference(name: string, env: Env)
    requires name != "" && (forall i :: 0 <= i < |name| ==> name[i] != '}')
    requires name in env && forall i :: 0 <= i < |env[name]| ==> env[name][i] != '$'
    ensures Expand("${" + name + "}", env) == env[name]
  {
    hide Round;
    var t := "${" + name + "}";
    assert t + "" == t;
    WrittenRef(name, "", env);
    assert Round("", env) == "" by {
      PlainRound("", env);
    }
    assert Round(t, env) == env[name];
    assert Rounds(t, env, 0) == t;
    assert Rounds(t, env, 1) == env[name];
    PlainRound(env[name], env);
    FixedStaysFixed(t, env, 1, ROUNDS);
  }

  /** None of the calls assigns the name. */
  ghost predicate LeavesAlone(calls: seq<(string, string)>, tok: Tokenizer, name: string) {
    forall c :: c in calls && tok(c.1).Some? ==> tok(c.1).value == [] || tok(c.1).value[0] != name
  }

  lemma StaysBound(calls: seq<(string, string)>, env: Env, last: Env, tok: Tokenizer, name: string)
    requires LeavesAlone(calls, tok, name) && AssignAll(calls, env, tok) == Some(last) && name in env
    ensures name in last && last[name] == env[name]
  {
    UnassignedNamesKeep(calls, env, tok, name);
  }

  /** A reference to a name that the root file binds to a plain value, and that the file itself leaves
      alone, declares the executable of that value. */
  lemma RootNameReachesTarget(
    g: Graph, repo: Repository, owners: map<string, string>, edges: EdgeTable, env: Env, path: string, name: string,
    call: (string, string))
    requires IsGraph(g, repo, owners, edges) && StartsFrom(repo, env) && IsText(repo, path) && IsCMakePath(path)
    requires name != "" && forall i :: 0 <= i < |name| ==> name[i] != '}'
    requires name in env && forall i :: 0 <= i < |env[name]| ==> env[name][i] != '$'
    requires var text := repo.read(path).text;
             && Parse(text, env, repo.tok).Some? && LeavesAlone(SetCalls(Clean(text)), repo.tok, name)
             && call in BuildCalls(text) && call.0 == "add_executable"
    requires repo.tok(call.1).Some? && |repo.tok(call.1).value| > 0 && repo.tok(call.1).value[0] == "${" + name + "}"
    ensures Target(Classify(path).id, Executable, env[name], path) in g.targets
  {
    hide IsGraph;
    hide StartsFrom;
    hide IsCMakePath;
    hide LeavesAlone;
    hide Classify;
    hide Expand;
    hide SetCalls;
    hide BuildCalls;
    hide Clean;
    hide Parse;
    hide AssignAll;
    var text := repo.read(path).text;
    var parsed := Parse(text, env, repo.tok).value;
    var local := LocalEnv(text, env, repo.tok);
    StaysBound(SetCalls(Clean(text)), env, local, repo.tok, name);
    WholeReference(name, local);
    ExpandedFirst(call, local, repo.tok, env[name]);
    var t := Target(Classify(path).id, Executable, env[name], path);
    var decl := TargetDecl(t.name, t.kind);
    assert DeclaredAmong(BuildCalls(text), local, repo.tok, decl);
    TextDeclares(text, env, local, repo.tok, decl, TargetLink("", ""));
    TargetsAreDeclared(g, repo, owners, edges, env, t);
    assert Reads(repo, env, path, parsed);
  }

  lemma LocalEnv(text: string, env: Env, tok: Tokenizer) returns (local: Env)
    requires Parse(text, env, tok).Some?
    ensures AssignAll(SetCalls(Clean(text)), env, tok) == Some(local)
  {
    hide Clean;
    hide AssignAll;
    hide S.Scan;
    hide S.Yields;
    local := Variables(Clean(text), env, tok).value;
  }

  lemma ExpandedFirst(call: (string, string), env: Env, tok: Tokenizer, value: string)
    requires call.0 == "add_executable" && tok(call.1).Some? && |tok(call.1).value| > 0
    requires Expand(tok(call.1).value[0], env) == value
    ensures exists tokens :: HasTokens(call, env, tok, tokens) &&
                             DeclaresBy(call.0, tokens, TargetDecl(value, Executable))
  {
    hide Expand;
    var tokens := ExpandAll(tok(call.1).value, env);
    assert HasTokens(call, env, tok, tokens) && DeclaresBy(call.0, tokens, TargetDecl(value, Executable));
  }

  // ----- includes

  /** A C-family text file of the graph includes this name in quotes, or in angle brackets. */
  ghost predicate Quotes(repo: Repository, source: string, name: string) {
    IsText(repo, source) && IsCPath(source) && name in QuotedIncludes(repo.read(source).text)
  }

  ghost predicate Brackets(repo: Repository, source: string, name: string) {
    IsText(repo, source) && IsCPath(source) && name in AngleIncludes(repo.read(source).text)
  }

  lemma DirectivesAre(repo: Repository, source: string, name: string)
    ensures Quoted(source, name) in AllDirectives(Texts(repo)) <==> Quotes(repo, source, name)
    ensures Angle(source, name) in AllDirectives(Texts(repo)) <==> Brackets(repo, source, name)
  {
    hide Texts;
    hide IsCFamily;
    hide IsCPath;
    hide QuotedIncludes;
    hide AngleIncludes;
    TextsAre(repo);
    CPathIff(source);
    if Quotes(repo, source, name) {
      assert Quoted(source, name) in DirectivesOf(source, Texts(repo)[source]);
    }
    if Brackets(repo, source, name) {
      assert Angle(source, name) in DirectivesOf(source, Texts(repo)[source]);
    }
  }

  lemma GraphIncludesAre(g: Graph, repo: Repository, owners: map<string, string>, edges: EdgeTable)
    requires IsGraph(g, repo, owners, edges)
    ensures g.fileEdges == FileEdges(AllDirectives(Texts(repo)), InGraphSet(repo))
    ensures g.unresolved == Unresolved(AllDirectives(Texts(repo)), InGraphSet(repo))
  {
    hide IsGraph;
    hide TextTable;
    hide Represented;
    hide AllDirectives;
    GraphIncludes(g, repo, owners, edges);
    TextsAre(repo);
  }

  /** File edges are exactly the quoted includes that resolve, and the others are unresolved. */
  lemma FileEdgesAre(g: Graph, repo: Repository, owners: map<string, string>, edges: EdgeTable, e: FileEdge)
    requires IsGraph(g, repo, owners, edges)
    ensures e in g.fileEdges <==>
            Quotes(repo, e.source, e.quoted) && Resolve(e.source, e.quoted, InGraphSet(repo)) == Some(e.target)
    ensures (e.source, e.quoted) in g.unresolved <==>
            Quotes(repo, e.source, e.quoted) && Resolve(e.source, e.quoted, InGraphSet(repo)) == None
  {
    hide IsGraph;
    hide Texts;
    hide InGraphSet;
    hide AllDirectives;
    hide Quotes;
    hide Resolve;
    GraphIncludesAre(g, repo, owners, edges);
    DirectivesAre(repo, e.source, e.quoted);
    var d := Quoted(e.source, e.quoted);
    if Resolves(d, InGraphSet(repo)) {
      assert EdgeOf(d, InGraphSet(repo)).target == Resolve(e.source, e.quoted, InGraphSet(repo)).value;
    }
  }

  /** The files that need an external dependency of the graph. */
  ghost predicate Needs(g: Graph, kind: DependencyKind, name: string, source: string) {
    (kind, name) in g.dependencies && source in g.dependencies[(kind, name)]
  }

  lemma GraphDependencies(g: Graph, repo: Repository, owners: map<string, string>, edges: EdgeTable)
    requires IsGraph(g, repo, owners, edges)
    ensures IsIndex(g.dependencies, IncludeDependencies(AllDirectives(Texts(repo)), InGraphSet(repo)) +
                                    LinkDependencies(owners, Links(Texts(repo), repo.tok, CMakeFiles(Texts(repo)))))
  {
    hide TextTable;
    hide Represented;
    hide AreRows;
    hide AreEdgeRows;
    hide IsQuotient;
    hide IsIndex;
    hide AllDirectives;
    hide Links;
    hide LinkDependencies;
    hide IncludeDependencies;
    TextsAre(repo);
  }

  lemma LinkDependenciesAre(repo: Repository, env: Env, owners: map<string, string>, name: string, source: string)
    requires StartsFrom(repo, env)
    ensures Dependency(CMakeLink, name, source) in
              LinkDependencies(owners, Links(Texts(repo), repo.tok, CMakeFiles(Texts(repo)))) <==>
            name !in owners && exists from :: LinkedIn(repo, env, (source, TargetLink(from, name)))
  {
    hide StartsFrom;
    hide Texts;
    hide Links;
    hide LinkedIn;
    hide CMakeFiles;
    var links := Links(Texts(repo), repo.tok, CMakeFiles(Texts(repo)));
    forall l: Link ensures l in links <==> LinkedIn(repo, env, l) {
      LinksAre(repo, env, l);
    }
    var dep := Dependency(CMakeLink, name, source);
    if dep in LinkDependencies(owners, links) {
      var l :| l in links && l.1.target !in owners && LinkDependency(l) == dep;
      assert l == (source, TargetLink(l.1.source, name));
    }
    if name !in owners && exists from :: LinkedIn(repo, env, (source, TargetLink(from, name))) {
      var from :| LinkedIn(repo, env, (source, TargetLink(from, name)));
      assert LinkDependency((source, TargetLink(from, name))) == dep;
    }
  }

  lemma IncludeDependenciesAre(ds: set<Directive>, tracked: set<string>, name: string, source: string)
    ensures Dependency(SystemInclude, name, source) in IncludeDependencies(ds, tracked) <==> Angle(source, name) in ds
    ensures Dependency(UnresolvedQuotedInclude, name, source) in IncludeDependencies(ds, tracked) <==>
            Quoted(source, name) in ds && Resolve(source, name, tracked) == None
    ensures Dependency(CMakeLink, name, source) !in IncludeDependencies(ds, tracked)
  {
    hide Resolve;
    var deps := IncludeDependencies(ds, tracked);
    var q, a := Quoted(source, name), Angle(source, name);
    assert IncludeDependency(q) == Dependency(UnresolvedQuotedInclude, name, source);
    assert IncludeDependency(a) == Dependency(SystemInclude, name, source);
    assert q in ds && !Resolves(q, tracked) ==> IncludeDependency(q) in deps;
    assert a in ds && !Resolves(a, tracked) ==> IncludeDependency(a) in deps;
  }

  /** The external dependencies are exactly the bracketed includes, the quoted ones that do not resolve, and
      the links to what no CMake file declares, each with the files that need it. */
  lemma DependenciesAre(
    g: Graph, repo: Repository, owners: map<string, string>, edges: EdgeTable, env: Env, name: string, source: string)
    requires IsGraph(g, repo, owners, edges) && StartsFrom(repo, env)
    ensures Needs(g, SystemInclude, name, source) <==> Brackets(repo, source, name)
    ensures Needs(g, UnresolvedQuotedInclude, name, source) <==>
            Quotes(repo, source, name) && Resolve(source, name, InGraphSet(repo)) == None
    ensures Needs(g, CMakeLink, name, source) <==>
            name !in owners && exists from :: LinkedIn(repo, env, (source, TargetLink(from, name)))
  {
    hide IsGraph;
    hide StartsFrom;
    hide Texts;
    hide InGraphSet;
    hide AllDirectives;
    hide IncludeDependencies;
    hide LinkDependencies;
    hide Links;
    hide LinkedIn;
    hide CMakeFiles;
    hide Quotes;
    hide Brackets;
    hide Resolve;
    GraphDependencies(g, repo, owners, edges);
    DirectivesAre(repo, source, name);
    IncludeDependenciesAre(AllDirectives(Texts(repo)), InGraphSet(repo), name, source);
    LinkDependenciesAre(repo, env, owners, name, source);
    OnlyLinks(owners, Links(Texts(repo), repo.tok, CMakeFiles(Texts(repo))), name, source);
  }

  lemma OnlyLinks(owners: map<string, string>, links: set<Link>, name: string, source: string)
    ensures Dependency(SystemInclude, name, source) !in LinkDependencies(owners, links)
    ensures Dependency(UnresolvedQuotedInclude, name, source) !in LinkDependencies(owners, links)
  {
  }
}

/** `build_graph` in tools/codegraph.py, over the tracked paths and what reading them returns. */
module GraphBuilder {
  import opened Text
  import opened Order
  import opened RepoPaths
  import opened Components
  import opened Includes
  import opened CMakeVariables
  import opened CMakeParser
  import opened GraphTables

  datatype Content = Binary(size: nat) | TextFile(size: nat, text: string)

  /** The repository: its tracked paths in order, the reader, and the two library tables. */
  datatype Repository = Repository(
    tracked: seq<string>, read: string -> Content, language: string -> string, tok: Tokenizer)

  datatype Node = Node(path: string, component: string, language: string, lines: Option<nat>, size: nat)

  datatype FileEdge = FileEdge(source: string, target: string, quoted: string)

  datatype Target = Target(component: string, kind: TargetKind, name: string, source: string)

  datatype ComponentRow = ComponentRow(
    id: string, kind: Kind, path: string, fileCount: nat, languageCounts: map<string, nat>, lineCount: nat,
    targets: seq<string>)

  datatype EdgeRow = EdgeRow(source: string, target: string, data: EdgeData)

  datatype Graph = Graph(
    nodes: seq<Node>, excluded: seq<string>, fileEdges: set<FileEdge>, unresolved: set<(string, string)>,
    dependencies: DependencyTable, targets: set<Target>, components: seq<ComponentRow>, edges: seq<EdgeRow>)

  // ----- inventory

  const OUTPUT_PREFIX := "docs/codegraph/"

  function Represented(paths: seq<string>): seq<string> {
    if paths == [] then []
    else (if OUTPUT_PREFIX <= paths[0] then [] else [paths[0]]) + Represented(paths[1..])
  }

  function Excluded(paths: seq<string>): seq<string> {
    if paths == [] then []
    else (if OUTPUT_PREFIX <= paths[0] then [paths[0]] else []) + Excluded(paths[1..])
  }

  function Newlines(text: string): nat {
    if text == "" then 0 else (if text[0] == '\n' then 1 else 0) + Newlines(text[1..])
  }

  function LineCount(text: string): nat {
    if text == "" then 0 else Newlines(text) + (if text[|text| - 1] == '\n' then 0 else 1)
  }

  function ComponentOf(path: string): string {
    Classify(path).id
  }

  function NodeOf(repo: Repository, path: string): Node {
    var data := repo.read(path);
    Node(path, ComponentOf(path), repo.language(path),
         if data.TextFile? then Some(LineCount(data.text)) else None, data.size)
  }

  function Nodes(repo: Repository, paths: seq<string>): seq<Node> {
    if paths == [] then [] else Nodes(repo, paths[..|paths| - 1]) + [NodeOf(repo, paths[|paths| - 1])]
  }

  function ByComponent(n: Node): string {
    n.component
  }

  function ByLanguage(n: Node): string {
    n.language
  }

  /** The nodes with one key, in order. */
  function Pick(nodes: seq<Node>, key: Node -> string, k: string): seq<Node> {
    if nodes == [] then []
    else
      var last := nodes[|nodes| - 1];
      Pick(nodes[..|nodes| - 1], key, k) + (if key(last) == k then [last] else [])
  }

  /** The component tables: the last file of a component decides how it is described. */
  function Refs(paths: seq<string>): map<string, Component> {
    if paths == [] then map[]
    else
      var c := Classify(paths[|paths| - 1]);
      Refs(paths[..|paths| - 1])[c.id := c]
  }

  /** What reading the paths returns, for the text files. */
  function TextTable(repo: Repository, paths: seq<string>): map<string, string> {
    map p | p in paths && repo.read(p).TextFile? :: repo.read(p).text
  }

  ghost predicate AreComponentFiles(files: map<string, seq<Node>>, nodes: seq<Node>) {
    && (forall id :: id in files <==> Pick(nodes, ByComponent, id) != [])
    && (forall id :: id in files ==> files[id] == Pick(nodes, ByComponent, id))
  }

  lemma NodesSnoc(repo: Repository, paths: seq<string>, path: string)
    ensures Nodes(repo, paths + [path]) == Nodes(repo, paths) + [NodeOf(repo, path)]
    ensures Refs(paths + [path]) == Refs(paths)[ComponentOf(path) := Classify(path)]
  {
    assert (paths + [path])[..|paths|] == paths;
  }

  lemma FilesSnoc(files: map<string, seq<Node>>, nodes: seq<Node>, n: Node)
    requires AreComponentFiles(files, nodes)
    ensures var seen := if n.component in files then files[n.component] else [];
            AreComponentFiles(files[n.component := seen + [n]], nodes + [n])
  {
    hide Pick;
    forall id ensures Pick(nodes + [n], ByComponent, id) ==
                      if n.component == id then Pick(nodes, ByComponent, id) + [n] else Pick(nodes, ByComponent, id)
    {
      PickSnoc(nodes, n, ByComponent, id);
    }
  }

  method TakeInventory(repo: Repository, paths: seq<string>)
    returns (nodes: seq<Node>, text: map<string, string>, refs: map<string, Component>, files: map<string, seq<Node>>)
    ensures nodes == Nodes(repo, paths) && refs == Refs(paths)
    ensures text == TextTable(repo, paths) && AreComponentFiles(files, nodes)
  {
    hide Classify;
    hide Pick;
    hide Nodes;
    hide Refs;
    hide LineCount;
    hide AreComponentFiles;
    nodes, text, refs, files := [], map[], map[], map[];
    EmptyInventory(repo);
    for i := 0 to |paths|
      invariant nodes == Nodes(repo, paths[..i]) && refs == Refs(paths[..i])
      invariant text == TextTable(repo, paths[..i]) && AreComponentFiles(files, nodes)
    {
      var path := paths[i];
      assert paths[..i + 1] == paths[..i] + [path];
      NodesSnoc(repo, paths[..i], path);
      var component := Classify(path);
      refs := refs[component.id := component];
      var data := repo.read(path);
      if data.TextFile? {
        text := text[path := data.text];
      }
      var node := Node(path, component.id, repo.language(path),
                       if data.TextFile? then Some(LineCount(data.text)) else None, data.size);
      FilesSnoc(files, nodes, node);
      nodes := nodes + [node];
      files := files[component.id := (if component.id in files then files[component.id] else []) + [node]];
    }
    assert paths[..|paths|] == paths;
  }

  lemma EmptyInventory(repo: Repository)
    ensures Nodes(repo, []) == [] && Refs([]) == map[] && AreComponentFiles(map[], [])
    ensures TextTable(repo, []) == map[]
  {
  }

  // ----- includes

  const C_FAMILY := {".c", ".cc", ".cpp", ".cxx", ".h", ".hh", ".hpp", ".hxx", ".m", ".mm"}

  function Name(path: string): string {
    var p := Parts(path);
    if p == [] || (|p| == 1 && Absolute(p)) then "" else p[|p| - 1]
  }

  predicate IsCFamily(path: string) {
    Lower(Suffix(Name(path))) in C_FAMILY
  }

  /** One distinct directive of one file. */
  datatype Directive = Quoted(source: string, name: string) | Angle(source: string, name: string)

  ghost function DirectivesOf(path: string, text: string): set<Directive> {
    (set q | q in QuotedIncludes(text) :: Quoted(path, q)) + (set a | a in AngleIncludes(text) :: Angle(path, a))
  }

  /** All directives of the C-family text files. */
  ghost function AllDirectives(text: map<string, string>): set<Directive> {
    set p, d | p in text && IsCFamily(p) && d in DirectivesOf(p, text[p]) :: d
  }

  predicate Resolves(d: Directive, tracked: set<string>) {
    d.Quoted? && Resolve(d.source, d.name, tracked).Some?
  }

  function TargetOf(d: Directive, tracked: set<string>): string
    requires Resolves(d, tracked)
  {
    Resolve(d.source, d.name, tracked).value
  }

  function EdgeOf(d: Directive, tracked: set<string>): FileEdge
    requires Resolves(d, tracked)
  {
    FileEdge(d.source, TargetOf(d, tracked), d.name)
  }

  function IncludeWitness(d: Directive, tracked: set<string>): Witness
    requires Resolves(d, tracked)
  {
    var t := TargetOf(d, tracked);
    Witness(ComponentOf(d.source), ComponentOf(t), IncludeEdge,
            d.source + ": #include \"" + d.name + "\" -> " + t)
  }

  function IncludeDependency(d: Directive): Dependency {
    Dependency(if d.Quoted? then UnresolvedQuotedInclude else SystemInclude, d.name, d.source)
  }

  ghost function FileEdges(ds: set<Directive>, tracked: set<string>): set<FileEdge> {
    set d | d in ds && Resolves(d, tracked) :: EdgeOf(d, tracked)
  }

  ghost function Unresolved(ds: set<Directive>, tracked: set<string>): set<(string, string)> {
    set d | d in ds && d.Quoted? && !Resolves(d, tracked) :: (d.source, d.name)
  }

  ghost function IncludeWitnesses(ds: set<Directive>, tracked: set<string>): set<Witness> {
    set d | d in ds && Resolves(d, tracked) :: IncludeWitness(d, tracked)
  }

  ghost function IncludeDependencies(ds: set<Directive>, tracked: set<string>): set<Dependency> {
    set d | d in ds && !Resolves(d, tracked) :: IncludeDependency(d)
  }

  datatype IncludeTables = IncludeTables(
    fileEdges: set<FileEdge>, unresolved: set<(string, string)>, edges: EdgeTable, dependencies: DependencyTable)

  ghost predicate Accounts(t: IncludeTables, ds: set<Directive>, tracked: set<string>) {
    && t.fileEdges == FileEdges(ds, tracked)
    && t.unresolved == Unresolved(ds, tracked)
    && IsQuotient(t.edges, IncludeWitnesses(ds, tracked))
    && IsIndex(t.dependencies, IncludeDependencies(ds, tracked))
  }

  /** One turn of the include loops. */
  method RecordDirective(t: IncludeTables, d: Directive, tracked: set<string>, ghost ds: set<Directive>)
    returns (next: IncludeTables)
    requires Accounts(t, ds, tracked)
    ensures Accounts(next, ds + {d}, tracked)
  {
    hide Resolve;
    hide Classify;
    hide AddEdge;
    hide AddDependency;
    hide IsQuotient;
    hide IsIndex;
    DirectiveAdds(ds, d, tracked);
    if d.Angle? {
      AddDependencyKeepsIndex(t.dependencies, IncludeDependencies(ds, tracked), IncludeDependency(d));
      next := t.(dependencies := AddDependency(t.dependencies, Dependency(SystemInclude, d.name, d.source)));
      return;
    }
    var target := Resolve(d.source, d.name, tracked);
    if target.None? {
      AddDependencyKeepsIndex(t.dependencies, IncludeDependencies(ds, tracked), IncludeDependency(d));
      next := t.(unresolved := t.unresolved + {(d.source, d.name)},
                 dependencies := AddDependency(t.dependencies, Dependency(UnresolvedQuotedInclude, d.name, d.source)));
    } else {
      AddEdgeKeepsQuotient(t.edges, IncludeWitnesses(ds, tracked), IncludeWitness(d, tracked));
      var w := Witness(ComponentOf(d.source), ComponentOf(target.value), IncludeEdge,
                       d.source + ": #include \"" + d.name + "\" -> " + target.value);
      next := t.(fileEdges := t.fileEdges + {FileEdge(d.source, target.value, d.name)}, edges := AddEdge(t.edges, w));
    }
  }

  lemma DirectiveAdds(ds: set<Directive>, d: Directive, tracked: set<string>)
    ensures Resolves(d, tracked) ==>
              && FileEdges(ds + {d}, tracked) == FileEdges(ds, tracked) + {EdgeOf(d, tracked)}
              && IncludeWitnesses(ds + {d}, tracked) == IncludeWitnesses(ds, tracked) + {IncludeWitness(d, tracked)}
              && Unresolved(ds + {d}, tracked) == Unresolved(ds, tracked)
              && IncludeDependencies(ds + {d}, tracked) == IncludeDependencies(ds, tracked)
    ensures !Resolves(d, tracked) ==>
              && FileEdges(ds + {d}, tracked) == FileEdges(ds, tracked)
              && IncludeWitnesses(ds + {d}, tracked) == IncludeWitnesses(ds, tracked)
              && Unresolved(ds + {d}, tracked) ==
                   Unresolved(ds, tracked) + (if d.Quoted? then {(d.source, d.name)} else {})
              && IncludeDependencies(ds + {d}, tracked) == IncludeDependencies(ds, tracked) + {IncludeDependency(d)}
  {
    hide Resolves;
    hide EdgeOf;
    hide IncludeWitness;
    hide IncludeDependency;
  }

  method RecordFile(t: IncludeTables, path: string, text: string, tracked: set<string>, ghost ds: set<Directive>)
    returns (next: IncludeTables)
    requires Accounts(t, ds, tracked)
    ensures Accounts(next, ds + DirectivesOf(path, text), tracked)
  {
    hide Accounts;
    hide QuotedIncludes;
    hide AngleIncludes;
    hide DirectivesOf;
    hide SortedOf;
    hide Less;
    StringsAreOrdered();
    next := t;
    ghost var done := ds;
    var quoted := SortSet(QuotedIncludes(text), Less);
    for j := 0 to |quoted|
      invariant Accounts(next, done, tracked) && done == ds + set q | q in quoted[..j] :: Quoted(path, q)
    {
      next := RecordDirective(next, Quoted(path, quoted[j]), tracked, done);
      done := done + {Quoted(path, quoted[j])};
      OneMore(quoted, j);
    }
    assert quoted[..|quoted|] == quoted;
    ghost var middle := done;
    var angled := SortSet(AngleIncludes(text), Less);
    for j := 0 to |angled|
      invariant Accounts(next, done, tracked) && done == middle + set a | a in angled[..j] :: Angle(path, a)
    {
      next := RecordDirective(next, Angle(path, angled[j]), tracked, done);
      done := done + {Angle(path, angled[j])};
      OneMore(angled, j);
    }
    assert angled[..|angled|] == angled;
    AllRecorded(path, text, quoted, angled);
    assert done == ds + DirectivesOf(path, text);
  }

  lemma OneMore(names: seq<string>, j: nat)
    requires j < |names|
    ensures forall x :: x in names[..j + 1] <==> x in names[..j] || x == names[j]
  {
    assert names[..j + 1] == names[..j] + [names[j]];
  }

  lemma AllRecorded(path: string, text: string, quoted: seq<string>, angled: seq<string>)
    requires SortedOf(quoted, QuotedIncludes(text), Less) && SortedOf(angled, AngleIncludes(text), Less)
    ensures DirectivesOf(path, text) ==
            (set q | q in quoted :: Quoted(path, q)) + (set a | a in angled :: Angle(path, a))
  {
    hide QuotedIncludes;
    hide AngleIncludes;
    hide Less;
  }

  method ScanIncludes(text: map<string, string>, tracked: set<string>) returns (t: IncludeTables)
    ensures Accounts(t, AllDirectives(text), tracked)
  {
    hide Accounts;
    hide IsCFamily;
    hide DirectivesOf;
    hide Less;
    StringsAreOrdered();
    t := IncludeTables({}, {}, map[], map[]);
    NothingRecorded(tracked);
    ghost var ds: set<Directive> := {};
    var sources := SortSet(text.Keys, Less);
    for i := 0 to |sources|
      invariant Accounts(t, ds, tracked)
      invariant ds == set p, d | p in sources[..i] && p in text && IsCFamily(p) && d in DirectivesOf(p, text[p]) :: d
    {
      var path := sources[i];
      assert sources[..i + 1] == sources[..i] + [path];
      if IsCFamily(path) {
        t := RecordFile(t, path, text[path], tracked, ds);
        ds := ds + DirectivesOf(path, text[path]);
      }
    }
    assert sources[..|sources|] == sources;
    assert ds == AllDirectives(text);
  }

  lemma NothingRecorded(tracked: set<string>)
    ensures Accounts(IncludeTables({}, {}, map[], map[]), {}, tracked)
  {
  }

  // ----- CMake targets and links

  predicate IsCMakeFile(path: string) {
    Name(path) == "CMakeLists.txt" || Lower(Suffix(Name(path))) == ".cmake"
  }

  function CMakeFiles(text: map<string, string>): set<string> {
    set p | p in text && IsCMakeFile(p)
  }

  /** The variables of the root CMake file, which every CMake file starts from. */
  function RootVariables(text: map<string, string>, tok: Tokenizer): Option<Env> {
    Variables(if "CMakeLists.txt" in text then text["CMakeLists.txt"] else "", map[], tok)
  }

  function ParsedFile(text: map<string, string>, path: string, tok: Tokenizer): Option<Parsed>
    requires path in text
  {
    match RootVariables(text, tok)
    case None => None
    case Some(root) => Parse(text[path], root, tok)
  }

  /** Every CMake file can be parsed. */
  ghost predicate CMakeParses(text: map<string, string>, tok: Tokenizer) {
    RootVariables(text, tok).Some? && forall p :: p in CMakeFiles(text) ==> ParsedFile(text, p, tok).Some?
  }

  ghost predicate Declares(text: map<string, string>, tok: Tokenizer, path: string, name: string) {
    path in CMakeFiles(text) && ParsedFile(text, path, tok).Some? &&
    exists d :: d in ParsedFile(text, path, tok).value.targets && d.name == name
  }

  /** `p` is the first file, by path, that declares `n`. */
  ghost predicate FirstDeclares(text: map<string, string>, tok: Tokenizer, p: string, n: string, among: set<string>) {
    p in among && Declares(text, tok, p, n) &&
    forall q :: q in among && Declares(text, tok, q, n) ==> p == q || Less(p, q)
  }

  ghost predicate OwnedBy(text: map<string, string>, tok: Tokenizer, n: string, among: set<string>, c: string) {
    exists p :: FirstDeclares(text, tok, p, n, among) && c == ComponentOf(p)
  }

  /** Each declared target, and nothing else, belongs to the component of the first file that declares it. */
  ghost predicate AreOwners(owners: map<string, string>, text: map<string, string>, tok: Tokenizer,
      among: set<string>) {
    && (forall n :: n in owners ==> OwnedBy(text, tok, n, among, owners[n]))
    && (forall p, n :: p in among && Declares(text, tok, p, n) ==> n in owners)
  }

  ghost function Targets(text: map<string, string>, tok: Tokenizer, among: set<string>): set<Target> {
    set p, d | p in among && p in text && ParsedFile(text, p, tok).Some? && d in ParsedFile(text, p, tok).value.targets
      :: Target(ComponentOf(p), d.kind, d.name, p)
  }

  ghost function Links(text: map<string, string>, tok: Tokenizer, among: set<string>): set<(string, TargetLink)> {
    set p, l | p in among && p in text && ParsedFile(text, p, tok).Some? && l in ParsedFile(text, p, tok).value.links
      :: (p, l)
  }

  datatype CMakeTables = CMakeTables(
    targets: set<Target>, owners: map<string, string>, links: set<(string, TargetLink)>)

  ghost predicate ReadsCMake(t: CMakeTables, text: map<string, string>, tok: Tokenizer, among: set<string>) {
    && t.targets == Targets(text, tok, among) && t.links == Links(text, tok, among)
    && AreOwners(t.owners, text, tok, among)
  }

  /** One CMake file: its targets keep an owner they already have. */
  function RecordCMake(t: CMakeTables, path: string, parsed: Parsed): CMakeTables {
    var owner := ComponentOf(path);
    CMakeTables(
      t.targets + (set d | d in parsed.targets :: Target(owner, d.kind, d.name, path)),
      (map d | d in parsed.targets :: d.name := owner) + t.owners,
      t.links + (set l | l in parsed.links :: (path, l)))
  }

  lemma RecordCMakeReads(t: CMakeTables, text: map<string, string>, tok: Tokenizer, among: set<string>, path: string)
    requires ReadsCMake(t, text, tok, among) && path in CMakeFiles(text) && ParsedFile(text, path, tok).Some?
    requires forall q :: q in among ==> Less(q, path)
    ensures ReadsCMake(RecordCMake(t, path, ParsedFile(text, path, tok).value), text, tok, among + {path})
  {
    hide Less;
    hide Classify;
    hide ParsedFile;
    hide IsCMakeFile;
    var parsed := ParsedFile(text, path, tok).value;
    var next, all := RecordCMake(t, path, parsed), among + {path};
    assert next.targets == Targets(text, tok, all);
    assert next.links == Links(text, tok, all);
    RecordedOwners(t, text, tok, among, path);
  }

  lemma OwnersAfter(t: CMakeTables, text: map<string, string>, tok: Tokenizer, path: string, n: string)
    requires path in CMakeFiles(text) && ParsedFile(text, path, tok).Some?
    ensures var next := RecordCMake(t, path, ParsedFile(text, path, tok).value).owners;
            && (n in next <==> n in t.owners || Declares(text, tok, path, n))
            && (n in next ==> next[n] == if n in t.owners then t.owners[n] else ComponentOf(path))
  {
    hide Classify;
    hide ParsedFile;
  }

  lemma OwnedLater(text: map<string, string>, tok: Tokenizer, n: string, among: set<string>, c: string, path: string)
    requires OwnedBy(text, tok, n, among, c) && forall q :: q in among ==> Less(q, path)
    ensures OwnedBy(text, tok, n, among + {path}, c)
  {
    hide Less;
    hide Declares;
    var p :| FirstDeclares(text, tok, p, n, among) && c == ComponentOf(p);
    assert FirstDeclares(text, tok, p, n, among + {path});
  }

  lemma RecordedOwners(t: CMakeTables, text: map<string, string>, tok: Tokenizer, among: set<string>, path: string)
    requires AreOwners(t.owners, text, tok, among) && path in CMakeFiles(text) && ParsedFile(text, path, tok).Some?
    requires forall q :: q in among ==> Less(q, path)
    ensures path in text
    ensures AreOwners(RecordCMake(t, path, ParsedFile(text, path, tok).value).owners, text, tok, among + {path})
  {
    hide Less;
    hide ComponentOf;
    hide ParsedFile;
    hide RecordCMake;
    hide Declares;
    hide OwnedBy;
    var next, all := RecordCMake(t, path, ParsedFile(text, path, tok).value).owners, among + {path};
    forall n
      ensures n in next ==> OwnedBy(text, tok, n, all, next[n])
      ensures n in t.owners || Declares(text, tok, path, n) ==> n in next
    {
      OwnersAfter(t, text, tok, path, n);
      if n in t.owners {
        OwnedLater(text, tok, n, among, t.owners[n], path);
      } else if n in next {
        OwnedNow(text, tok, n, among, path);
      }
    }
  }

  lemma OwnedNow(text: map<string, string>, tok: Tokenizer, n: string, among: set<string>, path: string)
    requires Declares(text, tok, path, n) && forall p :: p in among ==> !Declares(text, tok, p, n)
    ensures OwnedBy(text, tok, n, among + {path}, ComponentOf(path))
  {
    hide Less;
    hide Declares;
    assert FirstDeclares(text, tok, path, n, among + {path});
  }

  method ReadCMake(text: map<string, string>, tok: Tokenizer) returns (r: Option<CMakeTables>)
    ensures r.Some? <==> CMakeParses(text, tok)
    ensures r.Some? ==> ReadsCMake(r.value, text, tok, CMakeFiles(text))
  {
    hide ReadsCMake;
    hide RecordCMake;
    hide Less;
    hide IsCMakeFile;
    hide Variables;
    hide Parse;
    var root := ParseCMakeVariables(if "CMakeLists.txt" in text then text["CMakeLists.txt"] else "", map[], tok);
    if root.None? {
      return None;
    }
    StringsAreOrdered();
    var t := CMakeTables({}, map[], {});
    NothingRead(text, tok);
    var files := SortSet(CMakeFiles(text), Less);
    assert files[..0] == [];
    ghost var done: set<string> := {};
    for i := 0 to |files|
      invariant done == set p | p in files[..i]
      invariant ReadsCMake(t, text, tok, done)
      invariant forall p :: p in done ==> p in text && ParsedFile(text, p, tok).Some?
    {
      var path := files[i];
      assert path in CMakeFiles(text);
      assert files[..i + 1] == files[..i] + [path];
      var parsed := ParseCMake(text[path], root.value, tok);
      if parsed.None? {
        return None;
      }
      assert forall q :: q in done ==> Less(q, path);
      RecordCMakeReads(t, text, tok, done, path);
      t := RecordCMake(t, path, parsed.value);
      done := done + {path};
    }
    assert files[..|files|] == files;
    assert done == CMakeFiles(text);
    r := Some(t);
  }

  lemma NothingRead(text: map<string, string>, tok: Tokenizer)
    ensures ReadsCMake(CMakeTables({}, map[], {}), text, tok, {})
  {
  }

  // ----- link edges

  type Link = (string, TargetLink)

  function LinkSource(owners: map<string, string>, l: Link): string {
    if l.1.source in owners then owners[l.1.source] else ComponentOf(l.0)
  }

  function LinkWitness(owners: map<string, string>, l: Link): Witness
    requires l.1.target in owners
  {
    Witness(LinkSource(owners, l), owners[l.1.target], LinkEdge,
            l.0 + ": target_link_libraries(" + l.1.source + " " + l.1.target + ")")
  }

  function LinkDependency(l: Link): Dependency {
    Dependency(CMakeLink, l.1.target, l.0)
  }

  ghost function LinkWitnesses(owners: map<string, string>, links: set<Link>): set<Witness> {
    set l | l in links && l.1.target in owners :: LinkWitness(owners, l)
  }

  ghost function LinkDependencies(owners: map<string, string>, links: set<Link>): set<Dependency> {
    set l | l in links && l.1.target !in owners :: LinkDependency(l)
  }

  method AddLinks(edges0: EdgeTable, dependencies0: DependencyTable, owners: map<string, string>, links: set<Link>,
                  ghost ws: set<Witness>, ghost ds: set<Dependency>)
    returns (edges: EdgeTable, dependencies: DependencyTable)
    requires IsQuotient(edges0, ws) && IsIndex(dependencies0, ds)
    ensures IsQuotient(edges, ws + LinkWitnesses(owners, links))
    ensures IsIndex(dependencies, ds + LinkDependencies(owners, links))
  {
    hide IsQuotient;
    hide IsIndex;
    hide AddEdge;
    hide AddDependency;
    hide LinkWitness;
    hide LinkDependency;
    edges, dependencies := edges0, dependencies0;
    var todo := links;
    assert links - todo == {};
    assert ws + LinkWitnesses(owners, {}) == ws && ds + LinkDependencies(owners, {}) == ds;
    while todo != {}
      invariant todo <= links
      invariant IsQuotient(edges, ws + LinkWitnesses(owners, links - todo))
      invariant IsIndex(dependencies, ds + LinkDependencies(owners, links - todo))
      decreases |todo|
    {
      var l :| l in todo;
      ghost var done := links - todo;
      assert links - (todo - {l}) == done + {l};
      todo := todo - {l};
      if l.1.target in owners {
        AddEdgeKeepsQuotient(edges, ws + LinkWitnesses(owners, done), LinkWitness(owners, l));
        assert ws + LinkWitnesses(owners, done) + {LinkWitness(owners, l)} == ws + LinkWitnesses(owners, done + {l});
        assert LinkDependencies(owners, done) == LinkDependencies(owners, done + {l});
        edges := AddEdge(edges, LinkWitness(owners, l));
      } else {
        AddDependencyKeepsIndex(dependencies, ds + LinkDependencies(owners, done), LinkDependency(l));
        assert ds + LinkDependencies(owners, done) + {LinkDependency(l)} == ds + LinkDependencies(owners, done + {l});
        assert LinkWitnesses(owners, done) == LinkWitnesses(owners, done + {l});
        dependencies := AddDependency(dependencies, LinkDependency(l));
      }
    }
    assert links - todo == links;
  }

  // ----- component rows

  function LinesIn(n: Node): nat {
    if n.lines.Some? then n.lines.value else 0
  }

  function Total(nodes: seq<Node>, weight: Node -> nat): nat {
    if nodes == [] then 0 else Total(nodes[..|nodes| - 1], weight) + weight(nodes[|nodes| - 1])
  }

  ghost predicate AreLanguageCounts(counts: map<string, nat>, nodes: seq<Node>) {
    && (forall l :: l in counts <==> Pick(nodes, ByLanguage, l) != [])
    && (forall l :: l in counts ==> counts[l] == |Pick(nodes, ByLanguage, l)|)
  }

  method CountFiles(files: seq<Node>) returns (languages: map<string, nat>, lines: nat)
    ensures AreLanguageCounts(languages, files) && lines == Total(files, LinesIn)
  {
    hide AreLanguageCounts;
    hide Total;
    languages, lines := map[], 0;
    NothingCounted();
    for i := 0 to |files|
      invariant AreLanguageCounts(languages, files[..i]) && lines == Total(files[..i], LinesIn)
    {
      var n := files[i];
      assert files[..i + 1] == files[..i] + [n];
      LanguagesSnoc(languages, files[..i], n);
      languages := languages[n.language := (if n.language in languages then languages[n.language] else 0) + 1];
      if n.lines.Some? {
        lines := lines + n.lines.value;
      }
    }
    assert files[..|files|] == files;
  }

  lemma NothingCounted()
    ensures AreLanguageCounts(map[], []) && Total([], LinesIn) == 0
  {
  }

  lemma PickSnoc(nodes: seq<Node>, n: Node, key: Node -> string, k: string)
    ensures Pick(nodes + [n], key, k) == if key(n) == k then Pick(nodes, key, k) + [n] else Pick(nodes, key, k)
  {
    assert (nodes + [n])[..|nodes|] == nodes;
  }

  lemma LanguagesSnoc(counts: map<string, nat>, nodes: seq<Node>, n: Node)
    requires AreLanguageCounts(counts, nodes)
    ensures var seen := if n.language in counts then counts[n.language] else 0;
            AreLanguageCounts(counts[n.language := seen + 1], nodes + [n])
    ensures Total(nodes + [n], LinesIn) == Total(nodes, LinesIn) + LinesIn(n)
  {
    hide Pick;
    assert (nodes + [n])[..|nodes|] == nodes;
    forall l ensures Pick(nodes + [n], ByLanguage, l) ==
                     if n.language == l then Pick(nodes, ByLanguage, l) + [n] else Pick(nodes, ByLanguage, l)
    {
      PickSnoc(nodes, n, ByLanguage, l);
    }
  }

  function NamesOwnedBy(id: string, targets: set<Target>): set<string> {
    set t | t in targets && t.component == id :: t.name
  }

  /** A row describes its component, and counts exactly its files. */
  ghost predicate IsRow(row: ComponentRow, id: string, c: Component, files: seq<Node>, targets: set<Target>) {
    && row.id == id && row.kind == c.kind && row.path == c.path
    && row.fileCount == |files| && row.lineCount == Total(files, LinesIn)
    && AreLanguageCounts(row.languageCounts, files)
    && SortedOf(row.targets, NamesOwnedBy(id, targets), Less)
  }

  ghost predicate AreRows(rows: seq<ComponentRow>, refs: map<string, Component>, nodes: seq<Node>,
      targets: set<Target>) {
    && (forall i :: 0 <= i < |rows| ==>
          rows[i].id in refs &&
              IsRow(rows[i], rows[i].id, refs[rows[i].id], Pick(nodes, ByComponent, rows[i].id), targets))
    && (forall i, j :: 0 <= i < j < |rows| ==> Less(rows[i].id, rows[j].id))
    && (forall id :: id in refs ==> exists i :: 0 <= i < |rows| && rows[i].id == id)
  }

  lemma OwnFiles(files: map<string, seq<Node>>, nodes: seq<Node>, id: string)
    requires AreComponentFiles(files, nodes)
    ensures (if id in files then files[id] else []) == Pick(nodes, ByComponent, id)
  {
  }

  method Summarise(refs: map<string, Component>, files: map<string, seq<Node>>, ghost nodes: seq<Node>,
      targets: set<Target>)
    returns (rows: seq<ComponentRow>)
    requires AreComponentFiles(files, nodes)
    ensures AreRows(rows, refs, nodes, targets)
  {
    hide Less;
    hide Total;
    hide Pick;
    hide AreLanguageCounts;
    hide AreComponentFiles;
    hide NamesOwnedBy;
    StringsAreOrdered();
    rows := [];
    var ids := SortSet(refs.Keys, Less);
    for i := 0 to |ids|
      invariant |rows| == i && forall j :: 0 <= j < i ==> rows[j].id == ids[j]
      invariant forall j :: 0 <= j < i ==>
        rows[j].id in refs &&
            IsRow(rows[j], rows[j].id, refs[rows[j].id], Pick(nodes, ByComponent, rows[j].id), targets)
    {
      var id := ids[i];
      assert id in refs.Keys;
      var own := if id in files then files[id] else [];
      OwnFiles(files, nodes, id);
      var languages, lines := CountFiles(own);
      var names := SortSet(NamesOwnedBy(id, targets), Less);
      rows := rows + [ComponentRow(id, refs[id].kind, refs[id].path, |own|, languages, lines, names)];
    }
    forall id | id in refs ensures exists i :: 0 <= i < |rows| && rows[i].id == id {
      assert id in ids;
      var i :| 0 <= i < |ids| && ids[i] == id;
      assert rows[i].id == id;
    }
  }

  // ----- the graph

  ghost predicate AreEdgeRows(rows: seq<EdgeRow>, edges: EdgeTable) {
    && (forall i :: 0 <= i < |rows| ==>
        (rows[i].source, rows[i].target) in edges && rows[i].data == edges[(rows[i].source, rows[i].target)])
    && (forall i, j :: 0 <= i < j < |rows| ==>
        PairLess((rows[i].source, rows[i].target), (rows[j].source, rows[j].target)))
    && (forall a, b :: (a, b) in edges ==> exists i :: 0 <= i < |rows| && rows[i].source == a && rows[i].target == b)
  }

  method ListEdges(edges: EdgeTable) returns (rows: seq<EdgeRow>)
    ensures AreEdgeRows(rows, edges)
  {
    hide PairLess;
    PairsAreOrdered();
    rows := [];
    var keys := SortSet(edges.Keys, PairLess);
    for i := 0 to |keys|
      invariant |rows| == i
      invariant forall j :: 0 <= j < i ==>
          keys[j] == (rows[j].source, rows[j].target) && keys[j] in edges && rows[j].data == edges[keys[j]]
    {
      assert keys[i] in edges.Keys;
      rows := rows + [EdgeRow(keys[i].0, keys[i].1, edges[keys[i]])];
    }
    forall a, b | (a, b) in edges ensures exists i :: 0 <= i < |rows| && rows[i].source == a && rows[i].target == b {
      assert (a, b) in keys;
      var i :| 0 <= i < |keys| && keys[i] == (a, b);
      assert rows[i].source == a && rows[i].target == b;
    }
  }

  /** What a finished graph says of the repository it was built from. */
  ghost predicate IsGraph(g: Graph, repo: Repository, owners: map<string, string>, edges: EdgeTable) {
    var paths := Represented(repo.tracked);
    var text, tracked := TextTable(repo, paths), set p | p in paths;
    var ds, files := AllDirectives(text), CMakeFiles(text);
    var links := Links(text, repo.tok, files);
    && g.nodes == Nodes(repo, paths) && g.excluded == Excluded(repo.tracked)
    && g.fileEdges == FileEdges(ds, tracked) && g.unresolved == Unresolved(ds, tracked)
    && g.targets == Targets(text, repo.tok, files) && AreOwners(owners, text, repo.tok, files)
    && IsIndex(g.dependencies, IncludeDependencies(ds, tracked) + LinkDependencies(owners, links))
    && IsQuotient(edges, IncludeWitnesses(ds, tracked) + LinkWitnesses(owners, links))
    && AreEdgeRows(g.edges, edges)
    && AreRows(g.components, Refs(paths), g.nodes, g.targets)
  }

  method BuildGraph(repo: Repository)
    returns (r: Option<Graph>, ghost owners: map<string, string>, ghost edges: EdgeTable)
    ensures r.Some? <==> CMakeParses(TextTable(repo, Represented(repo.tracked)), repo.tok)
    ensures r.Some? ==> IsGraph(r.value, repo, owners, edges)
  {
    hide Represented;
    hide Excluded;
    hide Nodes;
    hide Refs;
    hide AllDirectives;
    hide FileEdges;
    hide Unresolved;
    hide IncludeWitnesses;
    hide IncludeDependencies;
    hide CMakeParses;
    hide CMakeFiles;
    hide Targets;
    hide Links;
    hide AreOwners;
    hide LinkWitnesses;
    hide LinkDependencies;
    hide IsQuotient;
    hide IsIndex;
    hide AreRows;
    hide AreEdgeRows;
    hide AreComponentFiles;
    owners, edges := map[], map[];
    var paths := Represented(repo.tracked);
    var tracked := set p | p in paths;
    var nodes, text, refs, files := TakeInventory(repo, paths);
    var includes := ScanIncludes(text, tracked);
    var read := ReadCMake(text, repo.tok);
    if read.None? {
      return None, owners, edges;
    }
    var cmake := read.value;
    ghost var ds := AllDirectives(text);
    var table, dependencies := AddLinks(
      includes.edges, includes.dependencies, cmake.owners, cmake.links,
      IncludeWitnesses(ds, tracked), IncludeDependencies(ds, tracked));
    var rows := Summarise(refs, files, nodes, cmake.targets);
    var edgeRows := ListEdges(table);
    owners, edges := cmake.owners, table;
    r := Some(Graph(nodes, Excluded(repo.tracked), includes.fileEdges, includes.unresolved, dependencies,
                    cmake.targets, rows, edgeRows));
  }
}

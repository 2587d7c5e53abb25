/** What a finished graph accounts for. */
module GraphLaws {
  import opened Order
  import opened RepoPaths
  import opened Components
  import opened Includes
  import opened GraphTables
  import opened GraphBuilder

  // ----- inventory

  /** Tracked files are the excluded ones and the represented ones. */
  lemma {:induction false} TrackedIsExcludedPlusRepresented(paths: seq<string>)
    ensures multiset(paths) == multiset(Excluded(paths)) + multiset(Represented(paths))
    ensures |paths| == |Excluded(paths)| + |Represented(paths)|
    decreases |paths|
  {
    if paths != [] {
      assert paths == [paths[0]] + paths[1..];
      TrackedIsExcludedPlusRepresented(paths[1..]);
    }
  }

  lemma {:induction false} NodesAreThePaths(repo: Repository, paths: seq<string>)
    ensures |Nodes(repo, paths)| == |paths|
    ensures forall i :: 0 <= i < |paths| ==> Nodes(repo, paths)[i] == NodeOf(repo, paths[i])
    decreases |paths|
  {
    hide NodeOf;
    if paths != [] {
      NodesAreThePaths(repo, paths[..|paths| - 1]);
    }
  }

  predicate Distinct(ks: seq<string>) {
    forall i, j :: 0 <= i < j < |ks| ==> ks[i] != ks[j]
  }

  /** The weights of the groups `ks`, added up. */
  function GroupSum(nodes: seq<Node>, key: Node -> string, weight: Node -> nat, ks: seq<string>): nat {
    if ks == [] then 0 else Total(Pick(nodes, key, ks[0]), weight) + GroupSum(nodes, key, weight, ks[1..])
  }

  lemma {:induction false} GroupSumSnoc(nodes: seq<Node>, n: Node, key: Node -> string, weight: Node -> nat,
      ks: seq<string>)
    requires Distinct(ks)
    ensures GroupSum(nodes + [n], key, weight, ks) ==
            GroupSum(nodes, key, weight, ks) + (if key(n) in ks then weight(n) else 0)
    decreases |ks|
  {
    if ks != [] {
      var all, own := nodes + [n], Pick(nodes, key, ks[0]);
      assert all[..|nodes|] == nodes;
      GroupSumSnoc(nodes, n, key, weight, ks[1..]);
      assert ks == [ks[0]] + ks[1..];
      if key(n) == ks[0] {
        assert Pick(all, key, ks[0]) == own + [n] && (own + [n])[..|own|] == own;
      } else {
        assert Pick(all, key, ks[0]) == own + [] && own + [] == own;
      }
    }
  }

  /** Grouping by any key, with each key listed once, loses and repeats nothing. */
  lemma {:induction false} GroupsPartition(nodes: seq<Node>, key: Node -> string, weight: Node -> nat, ks: seq<string>)
    requires Distinct(ks) && forall n :: n in nodes ==> key(n) in ks
    ensures GroupSum(nodes, key, weight, ks) == Total(nodes, weight)
    decreases |nodes|
  {
    if nodes == [] {
      EmptyGroups(key, weight, ks);
    } else {
      var front, last := nodes[..|nodes| - 1], nodes[|nodes| - 1];
      assert nodes == front + [last];
      GroupsPartition(front, key, weight, ks);
      GroupSumSnoc(front, last, key, weight, ks);
    }
  }

  lemma {:induction false} EmptyGroups(key: Node -> string, weight: Node -> nat, ks: seq<string>)
    ensures GroupSum([], key, weight, ks) == 0
    decreases |ks|
  {
    if ks != [] {
      EmptyGroups(key, weight, ks[1..]);
    }
  }

  function One(n: Node): nat {
    1
  }

  lemma {:induction false} TotalOfOnes(nodes: seq<Node>)
    ensures Total(nodes, One) == |nodes|
    decreases |nodes|
  {
    if nodes != [] {
      TotalOfOnes(nodes[..|nodes| - 1]);
    }
  }

  function Ids(rows: seq<ComponentRow>): seq<string> {
    seq(|rows|, i requires 0 <= i < |rows| => rows[i].id)
  }

  function FileSum(rows: seq<ComponentRow>): nat {
    if rows == [] then 0 else rows[0].fileCount + FileSum(rows[1..])
  }

  function LineSum(rows: seq<ComponentRow>): nat {
    if rows == [] then 0 else rows[0].lineCount + LineSum(rows[1..])
  }

  lemma {:induction false} RowSums(rows: seq<ComponentRow>, nodes: seq<Node>)
    requires forall i :: 0 <= i < |rows| ==>
               var own := Pick(nodes, ByComponent, rows[i].id);
               rows[i].fileCount == |own| && rows[i].lineCount == Total(own, LinesIn)
    ensures FileSum(rows) == GroupSum(nodes, ByComponent, One, Ids(rows))
    ensures LineSum(rows) == GroupSum(nodes, ByComponent, LinesIn, Ids(rows))
    decreases |rows|
  {
    hide Pick;
    if rows != [] {
      assert Ids(rows)[0] == rows[0].id && Ids(rows)[1..] == Ids(rows[1..]);
      assert forall i :: 0 <= i < |rows[1..]| ==> rows[1..][i] == rows[i + 1];
      RowSums(rows[1..], nodes);
      TotalOfOnes(Pick(nodes, ByComponent, rows[0].id));
    }
  }

  lemma {:induction false} RefsAreTheComponents(paths: seq<string>, id: string)
    ensures id in Refs(paths) <==> exists p :: p in paths && ComponentOf(p) == id
    ensures id in Refs(paths) ==> exists p :: p in paths && Refs(paths)[id] == Classify(p) && ComponentOf(p) == id
    decreases |paths|
  {
    hide Classify;
    if paths != [] {
      var front, last := paths[..|paths| - 1], paths[|paths| - 1];
      assert paths == front + [last];
      RefsAreTheComponents(front, id);
      assert last in paths && forall p :: p in paths <==> p in front || p == last;
      assert Refs(paths) == Refs(front)[ComponentOf(last) := Classify(last)];
      if ComponentOf(last) == id {
        assert Refs(paths)[id] == Classify(last);
      } else if id in Refs(front) {
        var p :| p in front && Refs(front)[id] == Classify(p) && ComponentOf(p) == id;
        assert p in paths;
      }
    }
  }

  lemma NodeIsListed(g: Graph, repo: Repository, owners: map<string, string>, edges: EdgeTable, n: Node)
    requires IsGraph(g, repo, owners, edges) && n in g.nodes
    ensures n.component in Ids(g.components)
  {
    hide Classify;
    hide Nodes;
    hide Refs;
    var paths := Represented(repo.tracked);
    NodesAreThePaths(repo, paths);
    var i :| 0 <= i < |g.nodes| && g.nodes[i] == n;
    RefsAreTheComponents(paths, n.component);
    ListedComponent(g, repo, owners, edges, paths[i]);
  }

  /** Every represented file's component is listed. */
  lemma ListedComponent(g: Graph, repo: Repository, owners: map<string, string>, edges: EdgeTable, path: string)
    requires IsGraph(g, repo, owners, edges) && path in Represented(repo.tracked)
    ensures ComponentOf(path) in Ids(g.components)
  {
    hide Classify;
    hide Nodes;
    hide Represented;
    hide Less;
    RefsAreTheComponents(Represented(repo.tracked), ComponentOf(path));
    var i :| 0 <= i < |g.components| && g.components[i].id == ComponentOf(path);
    assert Ids(g.components)[i] == ComponentOf(path);
  }

  lemma RowsAreDistinct(g: Graph, repo: Repository, owners: map<string, string>, edges: EdgeTable)
    requires IsGraph(g, repo, owners, edges)
    ensures Distinct(Ids(g.components))
  {
    StringsAreOrdered();
  }

  lemma RowTotals(rows: seq<ComponentRow>, refs: map<string, Component>, nodes: seq<Node>, targets: set<Target>)
    requires AreRows(rows, refs, nodes, targets) && Distinct(Ids(rows))
    requires forall n :: n in nodes ==> ByComponent(n) in Ids(rows)
    ensures FileSum(rows) == |nodes|
    ensures LineSum(rows) == Total(nodes, LinesIn)
  {
    hide Pick;
    hide Total;
    RowSums(rows, nodes);
    GroupsPartition(nodes, ByComponent, One, Ids(rows));
    GroupsPartition(nodes, ByComponent, LinesIn, Ids(rows));
    TotalOfOnes(nodes);
  }

  /** Every represented file is counted in exactly one component, and every line of every text file. */
  lemma InventoryIsConserved(g: Graph, repo: Repository, owners: map<string, string>, edges: EdgeTable)
    requires IsGraph(g, repo, owners, edges)
    ensures |repo.tracked| == |g.excluded| + |g.nodes|
    ensures FileSum(g.components) == |g.nodes|
    ensures LineSum(g.components) == Total(g.nodes, LinesIn)
  {
    hide Represented;
    hide Excluded;
    hide Nodes;
    hide AreRows;
    TrackedIsExcludedPlusRepresented(repo.tracked);
    NodesAreThePaths(repo, Represented(repo.tracked));
    RowsAreDistinct(g, repo, owners, edges);
    forall n | n in g.nodes ensures ByComponent(n) in Ids(g.components) {
      NodeIsListed(g, repo, owners, edges, n);
    }
    RowTotals(g.components, Refs(Represented(repo.tracked)), g.nodes, g.targets);
  }

  /** The sum of a row's language counts, over its languages in any order. */
  function CountSum(counts: map<string, nat>, ls: seq<string>): nat {
    if ls == [] then 0 else (if ls[0] in counts then counts[ls[0]] else 0) + CountSum(counts, ls[1..])
  }

  lemma {:induction false} CountSumIsGroupSum(counts: map<string, nat>, nodes: seq<Node>, ls: seq<string>)
    requires AreLanguageCounts(counts, nodes)
    ensures CountSum(counts, ls) == GroupSum(nodes, ByLanguage, One, ls)
    decreases |ls|
  {
    hide Pick;
    if ls != [] {
      CountSumIsGroupSum(counts, nodes, ls[1..]);
      TotalOfOnes(Pick(nodes, ByLanguage, ls[0]));
    }
  }

  lemma {:induction false} PickedIn(nodes: seq<Node>, key: Node -> string, n: Node)
    requires n in nodes
    ensures Pick(nodes, key, key(n)) != []
    decreases |nodes|
  {
    if n != nodes[|nodes| - 1] {
      PickedIn(nodes[..|nodes| - 1], key, n);
    }
  }

  /** A component's language counts add up to its file count. */
  lemma LanguagesAddUp(row: ComponentRow, c: Component, files: seq<Node>, targets: set<Target>, ls: seq<string>)
    requires IsRow(row, row.id, c, files, targets)
    requires Distinct(ls) && forall l :: l in row.languageCounts ==> l in ls
    ensures CountSum(row.languageCounts, ls) == row.fileCount
  {
    hide Pick;
    hide Total;
    forall n | n in files ensures ByLanguage(n) in ls {
      PickedIn(files, ByLanguage, n);
    }
    CountSumIsGroupSum(row.languageCounts, files, ls);
    GroupsPartition(files, ByLanguage, One, ls);
    TotalOfOnes(files);
  }

  /** Visiting the files in another order describes the same components, and describes each in the
      same way unless its id is exempt. */
  lemma ComponentsAreOrderFree(p: seq<string>, q: seq<string>, id: string)
    requires forall x :: x in p <==> x in q
    ensures id in Refs(p) <==> id in Refs(q)
    ensures id in Refs(p) ==> Refs(p)[id].kind == Refs(q)[id].kind && (!Exempt(id) ==> Refs(p)[id] == Refs(q)[id])
  {
    hide Classify;
    hide Refs;
    hide Exempt;
    RefsAreTheComponents(p, id);
    RefsAreTheComponents(q, id);
    if id in Refs(p) {
      var x :| x in p && Refs(p)[id] == Classify(x) && ComponentOf(x) == id;
      var y :| y in q && Refs(q)[id] == Classify(y) && ComponentOf(y) == id;
      SameIdSameComponent(x, y);
    }
  }

  // ----- includes

  ghost function QuotedOf(ds: set<Directive>): set<Directive> {
    set d | d in ds && d.Quoted?
  }

  lemma NewEdge(rest: set<Directive>, d: Directive, tracked: set<string>)
    requires d !in rest && Resolves(d, tracked)
    ensures EdgeOf(d, tracked) !in FileEdges(rest, tracked)
  {
    hide Resolve;
  }

  lemma NewUnresolved(rest: set<Directive>, d: Directive, tracked: set<string>)
    requires d !in rest && d.Quoted?
    ensures (d.source, d.name) !in Unresolved(rest, tracked)
  {
    hide Resolves;
  }

  lemma QuotedAdds(rest: set<Directive>, d: Directive)
    requires d !in rest
    ensures QuotedOf(rest + {d}) == if d.Quoted? then QuotedOf(rest) + {d} else QuotedOf(rest)
    ensures d !in QuotedOf(rest)
  {
  }

  lemma NoDirectives(tracked: set<string>)
    ensures FileEdges({}, tracked) == {} && Unresolved({}, tracked) == {} && QuotedOf({}) == {}
  {
  }

  /** Distinct quoted directives become, one for one, file edges or unresolved entries. */
  lemma {:induction false} IncludesSplit(ds: set<Directive>, tracked: set<string>)
    ensures |FileEdges(ds, tracked)| + |Unresolved(ds, tracked)| == |QuotedOf(ds)|
    decreases |ds|
  {
    hide Resolve;
    hide EdgeOf;
    hide FileEdges;
    hide Unresolved;
    hide QuotedOf;
    if ds == {} {
      NoDirectives(tracked);
    } else {
      var d :| d in ds;
      var rest := ds - {d};
      assert ds == rest + {d};
      IncludesSplit(rest, tracked);
      DirectiveAdds(rest, d, tracked);
      QuotedAdds(rest, d);
      if Resolves(d, tracked) {
        NewEdge(rest, d, tracked);
      } else if d.Quoted? {
        NewUnresolved(rest, d, tracked);
      }
    }
  }

  /** The number of distinct quoted includes, file by file. */
  ghost function IncludeTotal(text: map<string, string>, sources: seq<string>): nat
    requires forall i :: 0 <= i < |sources| ==> sources[i] in text
  {
    if sources == [] then 0
    else
      var s := sources[|sources| - 1];
      IncludeTotal(text, sources[..|sources| - 1]) + (if IsCFamily(s) then |QuotedIncludes(text[s])| else 0)
  }

  ghost function QuotedFrom(text: map<string, string>, sources: seq<string>): set<Directive>
    requires forall i :: 0 <= i < |sources| ==> sources[i] in text
  {
    set i, q | 0 <= i < |sources| && IsCFamily(sources[i]) && q in QuotedIncludes(text[sources[i]]) ::
      Quoted(sources[i], q)
  }

  lemma {:induction false} QuotedSize(qs: set<string>, source: string)
    ensures |set q | q in qs :: Quoted(source, q)| == |qs|
    decreases |qs|
  {
    if qs != {} {
      var q :| q in qs;
      QuotedSize(qs - {q}, source);
      assert (set x | x in qs :: Quoted(source, x)) ==
             (set x | x in qs - {q} :: Quoted(source, x)) + {Quoted(source, q)};
    }
  }

  lemma NoQuoted(text: map<string, string>)
    ensures QuotedFrom(text, []) == {}
  {
  }

  lemma {:induction false} TotalIsSize(text: map<string, string>, sources: seq<string>)
    requires (forall i :: 0 <= i < |sources| ==> sources[i] in text) && Distinct(sources)
    ensures |QuotedFrom(text, sources)| == IncludeTotal(text, sources)
    decreases |sources|
  {
    hide IsCFamily;
    hide QuotedIncludes;
    hide QuotedFrom;
    NoQuoted(text);
    if sources != [] {
      var front, s := sources[..|sources| - 1], sources[|sources| - 1];
      assert sources == front + [s];
      TotalIsSize(text, front);
      QuotedSize(QuotedIncludes(text[s]), s);
      QuotedFromSnoc(text, front, s);
    }
  }

  lemma QuotedFromSnoc(text: map<string, string>, front: seq<string>, s: string)
    requires (forall i :: 0 <= i < |front| ==> front[i] in text && front[i] != s) && s in text
    ensures var own := if IsCFamily(s) then set q | q in QuotedIncludes(text[s]) :: Quoted(s, q) else {};
            QuotedFrom(text, front + [s]) == QuotedFrom(text, front) + own && QuotedFrom(text, front) !! own
  {
    hide IsCFamily;
    hide QuotedIncludes;
    var all := front + [s];
    assert forall i :: 0 <= i < |front| ==> all[i] == front[i];
    assert all[|front|] == s;
  }

  /** Over a whole graph: every distinct quoted include of every C-family text file is one file edge
      or one unresolved entry. */
  lemma IncludesAreConserved(
    g: Graph, repo: Repository, owners: map<string, string>, edges: EdgeTable, sources: seq<string>)
    requires IsGraph(g, repo, owners, edges)
    requires SortedOf(sources, TextTable(repo, Represented(repo.tracked)).Keys, Less)
    ensures forall i :: 0 <= i < |sources| ==> sources[i] in TextTable(repo, Represented(repo.tracked))
    ensures |g.fileEdges| + |g.unresolved| == IncludeTotal(TextTable(repo, Represented(repo.tracked)), sources)
  {
    hide IsGraph;
    hide Represented;
    hide TextTable;
    hide Less;
    hide AllDirectives;
    hide IncludeTotal;
    hide StrictTotal;
    var text := TextTable(repo, Represented(repo.tracked));
    GraphIncludes(g, repo, owners, edges);
    SortedSources(sources, text.Keys);
    IncludesSplit(AllDirectives(text), set p | p in Represented(repo.tracked));
    TotalIsSize(text, sources);
    QuotedIsFromSources(text, sources);
  }

  lemma GraphIncludes(g: Graph, repo: Repository, owners: map<string, string>, edges: EdgeTable)
    requires IsGraph(g, repo, owners, edges)
    ensures var paths := Represented(repo.tracked);
            var ds, tracked := AllDirectives(TextTable(repo, paths)), set p | p in paths;
            g.fileEdges == FileEdges(ds, tracked) && g.unresolved == Unresolved(ds, tracked)
  {
    hide Represented;
    hide TextTable;
    hide AllDirectives;
    hide AreRows;
    hide AreEdgeRows;
    hide IsQuotient;
    hide IsIndex;
  }

  lemma SortedSources(sources: seq<string>, keys: set<string>)
    requires SortedOf(sources, keys, Less)
    ensures Distinct(sources) && forall i :: 0 <= i < |sources| ==> sources[i] in keys
  {
    hide Less;
    StringsAreOrdered();
    assert forall i :: 0 <= i < |sources| ==> sources[i] in sources;
  }

  lemma QuotedIsFromSources(text: map<string, string>, sources: seq<string>)
    requires (forall i :: 0 <= i < |sources| ==> sources[i] in text) && forall s :: s in sources <==> s in text.Keys
    ensures QuotedOf(AllDirectives(text)) == QuotedFrom(text, sources)
  {
    hide IsCFamily;
    hide QuotedIncludes;
    hide AngleIncludes;
    forall d ensures d in QuotedOf(AllDirectives(text)) <==> d in QuotedFrom(text, sources) {
      if d in QuotedOf(AllDirectives(text)) {
        assert d.source in sources;
      }
      if d in QuotedFrom(text, sources) {
        assert d in DirectivesOf(d.source, text[d.source]);
      }
    }
  }

  /** A quoted include is unresolved exactly when the external dependencies list it with its source. */
  lemma UnresolvedIsExternal(
    g: Graph, repo: Repository, owners: map<string, string>, edges: EdgeTable, source: string, name: string)
    requires IsGraph(g, repo, owners, edges)
    ensures (source, name) in g.unresolved <==>
            var key := (UnresolvedQuotedInclude, name); key in g.dependencies && source in g.dependencies[key]
  {
    hide Represented;
    hide Nodes;
    hide AreRows;
    hide AreEdgeRows;
    hide IsQuotient;
    hide Resolve;
    hide AllDirectives;
    hide Links;
    var paths := Represented(repo.tracked);
    var text, tracked := TextTable(repo, paths), set p | p in paths;
    var ds := AllDirectives(text);
    var dep := Dependency(UnresolvedQuotedInclude, name, source);
    var links := Links(text, repo.tok, CMakeFiles(text));
    assert dep in IncludeDependencies(ds, tracked) + LinkDependencies(owners, links) <==>
           dep in IncludeDependencies(ds, tracked);
    if (source, name) in g.unresolved {
      var d :| d in ds && d.Quoted? && !Resolves(d, tracked) && (d.source, d.name) == (source, name);
      assert IncludeDependency(d) == dep;
    }
  }

  // ----- component edges

  /** Some file edge leads from one component to the other. */
  ghost predicate IncludeJoins(g: Graph, a: string, b: string) {
    exists e :: e in g.fileEdges && ComponentOf(e.source) == a && ComponentOf(e.target) == b
  }

  ghost predicate LinkJoinsBy(owners: map<string, string>, l: Link, a: string, b: string) {
    l.1.target in owners && LinkSource(owners, l) == a && owners[l.1.target] == b
  }

  /** Some link to a declared target leads from one component to the other. */
  ghost predicate LinkJoins(repo: Repository, owners: map<string, string>, a: string, b: string) {
    var text := TextTable(repo, Represented(repo.tracked));
    exists l :: l in Links(text, repo.tok, CMakeFiles(text)) && LinkJoinsBy(owners, l, a, b)
  }

  ghost function AllWitnesses(repo: Repository, owners: map<string, string>): set<Witness> {
    var paths := Represented(repo.tracked);
    var text, tracked := TextTable(repo, paths), set p | p in paths;
    IncludeWitnesses(AllDirectives(text), tracked) + LinkWitnesses(owners, Links(text, repo.tok, CMakeFiles(text)))
  }

  lemma IncludeWitnessesJoin(ds: set<Directive>, tracked: set<string>, a: string, b: string)
    ensures (exists w :: w in IncludeWitnesses(ds, tracked) && Between(w, a, b)) <==>
            exists e :: e in FileEdges(ds, tracked) && ComponentOf(e.source) == a && ComponentOf(e.target) == b
    ensures forall w :: w in IncludeWitnesses(ds, tracked) ==> w.kind == IncludeEdge
  {
    hide Resolves;
    hide TargetOf;
    hide ComponentOf;
    var ws, es := IncludeWitnesses(ds, tracked), FileEdges(ds, tracked);
    if exists w :: w in ws && Between(w, a, b) {
      var w :| w in ws && Between(w, a, b);
      var d :| d in ds && Resolves(d, tracked) && IncludeWitness(d, tracked) == w;
      assert EdgeOf(d, tracked) in es;
    }
    if exists e :: e in es && ComponentOf(e.source) == a && ComponentOf(e.target) == b {
      var e :| e in es && ComponentOf(e.source) == a && ComponentOf(e.target) == b;
      var d :| d in ds && Resolves(d, tracked) && EdgeOf(d, tracked) == e;
      assert IncludeWitness(d, tracked) in ws && Between(IncludeWitness(d, tracked), a, b);
    }
  }

  lemma LinkWitnessesJoin(owners: map<string, string>, links: set<Link>, a: string, b: string)
    ensures (exists w :: w in LinkWitnesses(owners, links) && Between(w, a, b)) <==>
            exists l :: l in links && LinkJoinsBy(owners, l, a, b)
    ensures forall w :: w in LinkWitnesses(owners, links) ==> w.kind == LinkEdge
  {
    hide LinkSource;
    var ws := LinkWitnesses(owners, links);
    if exists w :: w in ws && Between(w, a, b) {
      var w :| w in ws && Between(w, a, b);
      var l :| l in links && l.1.target in owners && LinkWitness(owners, l) == w;
      assert LinkJoinsBy(owners, l, a, b);
    }
    if exists l :: l in links && LinkJoinsBy(owners, l, a, b) {
      var l :| l in links && LinkJoinsBy(owners, l, a, b);
      assert LinkWitness(owners, l) in ws && Between(LinkWitness(owners, l), a, b);
    }
  }

  lemma WitnessesJoin(g: Graph, repo: Repository, owners: map<string, string>, edges: EdgeTable, a: string, b: string)
    requires IsGraph(g, repo, owners, edges)
    ensures (exists w :: w in AllWitnesses(repo, owners) && Between(w, a, b) && w.kind == IncludeEdge) <==>
        IncludeJoins(g, a, b)
    ensures (exists w :: w in AllWitnesses(repo, owners) && Between(w, a, b) && w.kind == LinkEdge) <==>
        LinkJoins(repo, owners, a, b)
  {
    hide IsGraph;
    hide Represented;
    hide TextTable;
    hide AllDirectives;
    hide FileEdges;
    hide IncludeWitnesses;
    hide Links;
    hide LinkWitnesses;
    hide CMakeFiles;
    hide LinkJoinsBy;
    hide ComponentOf;
    GraphIncludes(g, repo, owners, edges);
    var paths := Represented(repo.tracked);
    var text, tracked := TextTable(repo, paths), set p | p in paths;
    IncludeWitnessesJoin(AllDirectives(text), tracked, a, b);
    LinkWitnessesJoin(owners, Links(text, repo.tok, CMakeFiles(text)), a, b);
  }

  /** A file edge as a line of evidence. */
  function EdgeText(e: FileEdge): string {
    e.source + ": #include \"" + e.quoted + "\" -> " + e.target
  }

  /** A link as a line of evidence. */
  function LinkText(l: Link): string {
    l.0 + ": target_link_libraries(" + l.1.source + " " + l.1.target + ")"
  }

  /** Some file edge from one component to the other reads like this. */
  ghost predicate IncludeShows(g: Graph, a: string, b: string, text: string) {
    exists e :: e in g.fileEdges && ComponentOf(e.source) == a && ComponentOf(e.target) == b && EdgeText(e) == text
  }

  /** Some link to a declared target from one component to the other reads like this. */
  ghost predicate LinkShows(repo: Repository, owners: map<string, string>, a: string, b: string, text: string) {
    var table := TextTable(repo, Represented(repo.tracked));
    exists l :: l in Links(table, repo.tok, CMakeFiles(table)) && LinkJoinsBy(owners, l, a, b) && LinkText(l) == text
  }

  lemma IncludeWitnessesShow(ds: set<Directive>, tracked: set<string>, a: string, b: string, text: string)
    ensures (exists w :: w in IncludeWitnesses(ds, tracked) && Between(w, a, b) && w.evidence == text) <==>
            exists e :: e in FileEdges(ds, tracked) && ComponentOf(e.source) == a && ComponentOf(e.target) == b &&
                EdgeText(e) == text
  {
    hide Resolves;
    hide TargetOf;
    hide ComponentOf;
    var ws, es := IncludeWitnesses(ds, tracked), FileEdges(ds, tracked);
    if exists w :: w in ws && Between(w, a, b) && w.evidence == text {
      var w :| w in ws && Between(w, a, b) && w.evidence == text;
      var d :| d in ds && Resolves(d, tracked) && IncludeWitness(d, tracked) == w;
      assert EdgeOf(d, tracked) in es && EdgeText(EdgeOf(d, tracked)) == text;
    }
    if exists e :: e in es && ComponentOf(e.source) == a && ComponentOf(e.target) == b && EdgeText(e) == text {
      var e :| e in es && ComponentOf(e.source) == a && ComponentOf(e.target) == b && EdgeText(e) == text;
      var d :| d in ds && Resolves(d, tracked) && EdgeOf(d, tracked) == e;
      var w := IncludeWitness(d, tracked);
      assert w in ws && Between(w, a, b) && w.evidence == text;
    }
  }

  lemma LinkWitnessesShow(owners: map<string, string>, links: set<Link>, a: string, b: string, text: string)
    ensures (exists w :: w in LinkWitnesses(owners, links) && Between(w, a, b) && w.evidence == text) <==>
            exists l :: l in links && LinkJoinsBy(owners, l, a, b) && LinkText(l) == text
  {
    hide LinkSource;
    var ws := LinkWitnesses(owners, links);
    if exists w :: w in ws && Between(w, a, b) && w.evidence == text {
      var w :| w in ws && Between(w, a, b) && w.evidence == text;
      var l :| l in links && l.1.target in owners && LinkWitness(owners, l) == w;
      assert LinkJoinsBy(owners, l, a, b) && LinkText(l) == text;
    }
    if exists l :: l in links && LinkJoinsBy(owners, l, a, b) && LinkText(l) == text {
      var l :| l in links && LinkJoinsBy(owners, l, a, b) && LinkText(l) == text;
      var w := LinkWitness(owners, l);
      assert w in ws && Between(w, a, b) && w.evidence == text;
    }
  }

  lemma WitnessesShow(
    g: Graph, repo: Repository, owners: map<string, string>, edges: EdgeTable, a: string, b: string, text: string)
    requires IsGraph(g, repo, owners, edges)
    ensures (exists w :: w in AllWitnesses(repo, owners) && Between(w, a, b) && w.evidence == text) <==>
            IncludeShows(g, a, b, text) || LinkShows(repo, owners, a, b, text)
  {
    hide IsGraph;
    hide Represented;
    hide TextTable;
    hide AllDirectives;
    hide FileEdges;
    hide IncludeWitnesses;
    hide Links;
    hide LinkWitnesses;
    hide CMakeFiles;
    hide LinkJoinsBy;
    hide ComponentOf;
    hide EdgeText;
    hide LinkText;
    hide Between;
    GraphIncludes(g, repo, owners, edges);
    var paths := Represented(repo.tracked);
    var table, tracked := TextTable(repo, paths), set p | p in paths;
    IncludeWitnessesShow(AllDirectives(table), tracked, a, b, text);
    LinkWitnessesShow(owners, Links(table, repo.tok, CMakeFiles(table)), a, b, text);
  }

  /** The row for an ordered pair of components. */
  ghost predicate IsEdgeRow(g: Graph, i: int, a: string, b: string) {
    0 <= i < |g.edges| && g.edges[i].source == a && g.edges[i].target == b
  }

  /** The component graph is the exact quotient of the file edges and links: it has a row for just the
      pairs of distinct components that one of them joins, its kinds say which, and its evidence holds
      exactly their lines. */
  lemma ComponentEdgesAreTheQuotient(
    g: Graph, repo: Repository, owners: map<string, string>, edges: EdgeTable, a: string, b: string)
    requires IsGraph(g, repo, owners, edges)
    ensures (exists i :: IsEdgeRow(g, i, a, b)) <==> a != b && (IncludeJoins(g, a, b) || LinkJoins(repo, owners, a, b))
    ensures forall i :: IsEdgeRow(g, i, a, b) ==>
              && (IncludeEdge in g.edges[i].data.kinds <==> IncludeJoins(g, a, b))
              && (LinkEdge in g.edges[i].data.kinds <==> LinkJoins(repo, owners, a, b))
    ensures forall i, text :: IsEdgeRow(g, i, a, b) ==>
              (text in g.edges[i].data.evidence <==>
                 IncludeShows(g, a, b, text) || LinkShows(repo, owners, a, b, text))
  {
    hide IsGraph;
    hide IncludeJoins;
    hide LinkJoins;
    hide IncludeShows;
    hide LinkShows;
    hide Between;
    hide AllWitnesses;
    hide PairLess;
    WitnessesJoin(g, repo, owners, edges, a, b);
    QuotientOfAll(g, repo, owners, edges);
    var ws := AllWitnesses(repo, owners);
    assert forall w :: w in ws ==> w.kind == IncludeEdge || w.kind == LinkEdge;
    forall i, text | IsEdgeRow(g, i, a, b)
      ensures text in g.edges[i].data.evidence <==>
                IncludeShows(g, a, b, text) || LinkShows(repo, owners, a, b, text)
    {
      WitnessesShow(g, repo, owners, edges, a, b, text);
    }
    if (a, b) in edges {
      var i :| 0 <= i < |g.edges| && g.edges[i].source == a && g.edges[i].target == b;
      assert IsEdgeRow(g, i, a, b);
    }
  }

  lemma QuotientOfAll(g: Graph, repo: Repository, owners: map<string, string>, edges: EdgeTable)
    requires IsGraph(g, repo, owners, edges)
    ensures IsQuotient(edges, AllWitnesses(repo, owners)) && AreEdgeRows(g.edges, edges)
  {
    hide IsQuotient;
    hide AreEdgeRows;
    hide AreRows;
    hide Represented;
    hide IsIndex;
  }

  lemma EdgeRowsDistinct(rows: seq<EdgeRow>, edges: EdgeTable, i: nat, j: nat)
    requires AreEdgeRows(rows, edges) && i < j < |rows|
    ensures rows[i].source != rows[j].source || rows[i].target != rows[j].target
  {
    hide PairLess;
    PairsAreOrdered();
  }

  // ----- every endpoint is listed

  lemma SlashesTwice(path: string)
    ensures ComponentOf(Slashes(path)) == ComponentOf(path)
  {
    hide ClassifyParts;
    hide Parts;
    assert Slashes(Slashes(path)) == Slashes(path);
  }

  lemma {:induction false} SearchFindsTracked(roots: seq<Path>, quoted: Path, tracked: set<string>)
    ensures Search(roots, quoted, tracked).Some? ==> Search(roots, quoted, tracked).value in tracked
    decreases |roots|
  {
    hide Normalize;
    if roots != [] {
      SearchFindsTracked(roots[1..], quoted, tracked);
    }
  }

  lemma TargetIsTracked(d: Directive, tracked: set<string>)
    requires Resolves(d, tracked)
    ensures exists t :: t in tracked && TargetOf(d, tracked) == Slashes(t)
  {
    hide Search;
    hide Roots;
    hide Parts;
    SearchFindsTracked(Roots(d.source), Parts(Slashes(d.name)), set t | t in tracked :: Slashes(t));
  }

  lemma DirectiveSource(text: map<string, string>, d: Directive)
    requires d in AllDirectives(text)
    ensures d.source in text
  {
    hide QuotedIncludes;
    hide AngleIncludes;
    hide IsCFamily;
  }

  lemma OwnerIsRepresented(repo: Repository, owners: map<string, string>, n: string)
    requires var text := TextTable(repo, Represented(repo.tracked)); AreOwners(owners, text, repo.tok, CMakeFiles(text))
    requires n in owners
    ensures exists p :: p in Represented(repo.tracked) && ComponentOf(p) == owners[n]
  {
    hide Represented;
    hide Declares;
    hide Classify;
    hide Less;
    var text := TextTable(repo, Represented(repo.tracked));
    assert OwnedBy(text, repo.tok, n, CMakeFiles(text), owners[n]);
    var p :| FirstDeclares(text, repo.tok, p, n, CMakeFiles(text)) && owners[n] == ComponentOf(p);
    assert p in text;
  }

  lemma FileEdgeEndpoints(g: Graph, repo: Repository, owners: map<string, string>, edges: EdgeTable, e: FileEdge)
    requires IsGraph(g, repo, owners, edges) && e in g.fileEdges
    ensures ComponentOf(e.source) in Ids(g.components) && ComponentOf(e.target) in Ids(g.components)
  {
    hide Represented;
    hide Nodes;
    hide AreRows;
    hide AreEdgeRows;
    hide IsQuotient;
    hide IsIndex;
    hide Resolve;
    hide AllDirectives;
    hide Classify;
    hide Slashes;
    var paths := Represented(repo.tracked);
    var text, tracked := TextTable(repo, paths), set p | p in paths;
    var d :| d in AllDirectives(text) && Resolves(d, tracked) && EdgeOf(d, tracked) == e;
    DirectiveSource(text, d);
    ListedComponent(g, repo, owners, edges, d.source);
    TargetIsTracked(d, tracked);
    var t :| t in tracked && TargetOf(d, tracked) == Slashes(t);
    SlashesTwice(t);
    ListedComponent(g, repo, owners, edges, t);
  }

  lemma LinkEndpoints(g: Graph, repo: Repository, owners: map<string, string>, edges: EdgeTable, a: string, b: string)
    requires IsGraph(g, repo, owners, edges) && LinkJoins(repo, owners, a, b)
    ensures a in Ids(g.components) && b in Ids(g.components)
  {
    hide Represented;
    hide Nodes;
    hide AreRows;
    hide AreEdgeRows;
    hide IsQuotient;
    hide IsIndex;
    hide AreOwners;
    hide ParsedFile;
    hide Classify;
    var text := TextTable(repo, Represented(repo.tracked));
    var l :| l in Links(text, repo.tok, CMakeFiles(text)) && LinkJoinsBy(owners, l, a, b);
    OwnerIsRepresented(repo, owners, l.1.target);
    var q :| q in Represented(repo.tracked) && ComponentOf(q) == b;
    ListedComponent(g, repo, owners, edges, q);
    if l.1.source in owners {
      OwnerIsRepresented(repo, owners, l.1.source);
      var p :| p in Represented(repo.tracked) && ComponentOf(p) == a;
      ListedComponent(g, repo, owners, edges, p);
    } else {
      assert l.0 in text;
      ListedComponent(g, repo, owners, edges, l.0);
    }
  }

  /** Both ends of every component edge are listed components. */
  lemma EndpointsAreListed(g: Graph, repo: Repository, owners: map<string, string>, edges: EdgeTable, i: nat)
    requires IsGraph(g, repo, owners, edges) && i < |g.edges|
    ensures g.edges[i].source in Ids(g.components) && g.edges[i].target in Ids(g.components)
    ensures g.edges[i].source != g.edges[i].target
  {
    hide IsGraph;
    hide Ids;
    hide LinkJoins;
    var a, b := g.edges[i].source, g.edges[i].target;
    assert IsEdgeRow(g, i, a, b);
    ComponentEdgesAreTheQuotient(g, repo, owners, edges, a, b);
    if IncludeJoins(g, a, b) {
      var e :| e in g.fileEdges && ComponentOf(e.source) == a && ComponentOf(e.target) == b;
      FileEdgeEndpoints(g, repo, owners, edges, e);
    } else {
      LinkEndpoints(g, repo, owners, edges, a, b);
    }
  }
}

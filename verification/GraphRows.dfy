/** The inventory of a finished graph, counted from the tracked files. */
module GraphRows {
  import opened Text
  import opened Order
  import opened Components
  import opened GraphTables
  import opened GraphBuilder
  import opened GraphLaws

  // ----- lines

  lemma {:induction false} NewlinesConcat(a: string, b: string)
    ensures Newlines(a + b) == Newlines(a) + Newlines(b)
    decreases |a|
  {
    if a == "" {
      assert a + b == b;
    } else {
      NewlinesConcat(a[1..], b);
      assert (a + b)[1..] == a[1..] + b;
    }
  }

  lemma {:induction false} NoNewlines(line: string)
    requires forall i :: 0 <= i < |line| ==> line[i] != '\n'
    ensures Newlines(line) == 0
    decreases |line|
  {
    if line != "" {
      NoNewlines(line[1..]);
    }
  }

  /** A text has one line more than what follows its first line, and the last line needs no newline. */
  lemma LinesAreCounted(line: string, rest: string)
    requires forall i :: 0 <= i < |line| ==> line[i] != '\n'
    ensures LineCount("") == 0 && (line != "" ==> LineCount(line) == 1)
    ensures LineCount(line + ("\n" + rest)) == 1 + LineCount(rest)
  {
    NoNewlines(line);
    var t := "\n" + rest;
    assert t[1..] == rest;
    NewlinesConcat(line, t);
    assert (line + t)[|line + t| - 1] == t[|t| - 1];
    assert rest != "" ==> t[|t| - 1] == rest[|rest| - 1];
  }

  // ----- files

  /** A file is kept if it is none of the graph's own outputs. */
  predicate IsKept(path: string) {
    !("docs/codegraph/" <= path)
  }

  /** Files are kept or left out one by one, in order. */
  lemma {:induction false} KeptInOrder(a: seq<string>, b: seq<string>, path: string)
    ensures Represented(a + b) == Represented(a) + Represented(b) && Excluded(a + b) == Excluded(a) + Excluded(b)
    ensures Represented([path]) == (if IsKept(path) then [path] else [])
    ensures Excluded([path]) == (if IsKept(path) then [] else [path])
    decreases |a|
  {
    hide IsKept;
    hide Represented;
    hide Excluded;
    OneKept(path);
    if a == [] {
      assert a + b == b;
    } else {
      KeptInOrder(a[1..], b, path);
      KeptCons(a);
      KeptCons(a + b);
      assert (a + b)[1..] == a[1..] + b;
    }
  }

  lemma KeptCons(paths: seq<string>)
    requires paths != []
    ensures Represented(paths) == (if IsKept(paths[0]) then [paths[0]] else []) + Represented(paths[1..])
    ensures Excluded(paths) == (if IsKept(paths[0]) then [] else [paths[0]]) + Excluded(paths[1..])
  {
  }

  lemma OneKept(path: string)
    ensures Represented([path]) == (if IsKept(path) then [path] else [])
    ensures Excluded([path]) == (if IsKept(path) then [] else [path])
    ensures Represented([]) == [] && Excluded([]) == []
  {
    hide IsKept;
    KeptCons([path]);
    assert [path][1..] == [];
  }

  lemma KeptSnoc(paths: seq<string>)
    requires paths != []
    ensures var front, last := paths[..|paths| - 1], paths[|paths| - 1];
            Represented(paths) == if IsKept(last) then Represented(front) + [last] else Represented(front)
  {
    hide Represented;
    var front, last := paths[..|paths| - 1], paths[|paths| - 1];
    assert paths == front + [last];
    KeptInOrder(front, [last], last);
    assert Represented(front) + [] == Represented(front);
  }

  /** The node of a file: its component, its language, and the lines of a text. */
  ghost predicate IsNodeOf(repo: Repository, n: Node, path: string) {
    && n.path == path && n.component == Classify(path).id && n.language == repo.language(path)
    && match repo.read(path)
       case TextFile(size, text) => n.size == size && n.lines == Some(LineCount(text))
       case Binary(size) => n.size == size && n.lines == None
  }

  /** The nodes are those of the kept files, in order, and the others are listed as excluded. */
  lemma NodesAreTheFiles(g: Graph, repo: Repository, owners: map<string, string>, edges: EdgeTable)
    requires IsGraph(g, repo, owners, edges)
    ensures var kept := Represented(repo.tracked);
            |g.nodes| == |kept| && forall i :: 0 <= i < |kept| ==> IsNodeOf(repo, g.nodes[i], kept[i])
    ensures g.excluded == Excluded(repo.tracked)
  {
    hide Represented;
    hide Classify;
    hide LineCount;
    NodesAreThePaths(repo, Represented(repo.tracked));
  }

  // ----- counts

  /** What the files weigh together. */
  function Sum(paths: seq<string>, weight: string -> nat): nat {
    if paths == [] then 0 else Sum(paths[..|paths| - 1], weight) + weight(paths[|paths| - 1])
  }

  function FileOf(id: string): string -> nat {
    p => if IsKept(p) && Classify(p).id == id then 1 else 0
  }

  function FileIn(repo: Repository, id: string, language: string): string -> nat {
    p => if IsKept(p) && Classify(p).id == id && repo.language(p) == language then 1 else 0
  }

  function LinesOf(repo: Repository, path: string): nat {
    match repo.read(path)
    case TextFile(_, text) => LineCount(text)
    case Binary(_) => 0
  }

  function LinesFrom(repo: Repository, id: string): string -> nat {
    p => if IsKept(p) && Classify(p).id == id then LinesOf(repo, p) else 0
  }

  /** What the nodes of one component weigh is what its files weigh. */
  lemma {:induction false} PickedSum(repo: Repository, paths: seq<string>, id: string, weight: Node -> nat,
      own: string -> nat)
    requires forall p :: own(p) == if IsKept(p) && ComponentOf(p) == id then weight(NodeOf(repo, p)) else 0
    ensures Total(Pick(Nodes(repo, Represented(paths)), ByComponent, id), weight) == Sum(paths, own)
    decreases |paths|
  {
    hide Represented;
    hide IsKept;
    hide Classify;
    hide LineCount;
    if paths == [] {
      OneKept("");
    } else {
      var front, last := paths[..|paths| - 1], paths[|paths| - 1];
      PickedSum(repo, front, id, weight, own);
      KeptSnoc(paths);
      if IsKept(last) {
        PickedOneMore(repo, Represented(front), last, id, weight);
      }
    }
  }

  lemma PickedOneMore(repo: Repository, paths: seq<string>, last: string, id: string, weight: Node -> nat)
    ensures Total(Pick(Nodes(repo, paths + [last]), ByComponent, id), weight) ==
            Total(Pick(Nodes(repo, paths), ByComponent, id), weight) +
            if ComponentOf(last) == id then weight(NodeOf(repo, last)) else 0
  {
    hide Classify;
    hide LineCount;
    hide Pick;
    hide Nodes;
    NodesSnoc(repo, paths, last);
    PickSnoc(Nodes(repo, paths), NodeOf(repo, last), ByComponent, id);
    var own := Pick(Nodes(repo, paths), ByComponent, id);
    assert (own + [NodeOf(repo, last)])[..|own|] == own;
  }

  /** One for each node in the language. */
  function OneIn(language: string): Node -> nat {
    (n: Node) => if n.language == language then 1 else 0
  }

  lemma {:induction false} PickedCount(nodes: seq<Node>, language: string)
    ensures |Pick(nodes, ByLanguage, language)| == Total(nodes, OneIn(language))
    decreases |nodes|
  {
    if nodes != [] {
      PickedCount(nodes[..|nodes| - 1], language);
    }
  }

  lemma RowIs(g: Graph, repo: Repository, owners: map<string, string>, edges: EdgeTable, i: nat)
    requires IsGraph(g, repo, owners, edges) && i < |g.components|
    ensures var row, refs := g.components[i], Refs(Represented(repo.tracked));
            row.id in refs && IsRow(row, row.id, refs[row.id],
                                    Pick(Nodes(repo, Represented(repo.tracked)), ByComponent, row.id), g.targets)
  {
    hide Represented;
    hide Refs;
    hide Nodes;
    hide Pick;
    hide IsRow;
    hide IsQuotient;
    hide IsIndex;
    hide AreEdgeRows;
  }

  /** A row counts the kept files of its component, all and by language, and the lines of its texts. */
  lemma RowCounts(g: Graph, repo: Repository, owners: map<string, string>, edges: EdgeTable, i: nat, language: string)
    requires IsGraph(g, repo, owners, edges) && i < |g.components|
    ensures var row := g.components[i];
            && row.fileCount == Sum(repo.tracked, FileOf(row.id))
            && row.lineCount == Sum(repo.tracked, LinesFrom(repo, row.id))
            && (if language in row.languageCounts then row.languageCounts[language] else 0) ==
                 Sum(repo.tracked, FileIn(repo, row.id, language))
            && (language in row.languageCounts <==> Sum(repo.tracked, FileIn(repo, row.id, language)) > 0)
  {
    hide IsGraph;
    hide Represented;
    hide Refs;
    hide Nodes;
    hide Pick;
    hide Total;
    hide Sum;
    hide Classify;
    hide LineCount;
    hide Less;
    var row := g.components[i];
    var files := Pick(Nodes(repo, Represented(repo.tracked)), ByComponent, row.id);
    RowIs(g, repo, owners, edges, i);
    TotalOfOnes(files);
    PickedCount(files, language);
    PickedSum(repo, repo.tracked, row.id, One, FileOf(row.id));
    PickedSum(repo, repo.tracked, row.id, LinesIn, LinesFrom(repo, row.id));
    PickedSum(repo, repo.tracked, row.id, OneIn(language), FileIn(repo, row.id, language));
    assert |Pick(files, ByLanguage, language)| > 0 <==> Pick(files, ByLanguage, language) != [];
  }

  // ----- descriptions

  /** File number `k` is the last kept one of the component. */
  ghost predicate IsLastOf(paths: seq<string>, id: string, k: nat) {
    && k < |paths| && IsKept(paths[k]) && Classify(paths[k]).id == id
    && forall j :: k < j < |paths| && IsKept(paths[j]) ==> Classify(paths[j]).id != id
  }

  lemma {:induction false} LastDescribes(paths: seq<string>, id: string) returns (k: nat)
    requires id in Refs(Represented(paths))
    ensures IsLastOf(paths, id, k) && Refs(Represented(paths))[id] == Classify(paths[k])
    decreases |paths|
  {
    hide Classify;
    hide Represented;
    hide IsKept;
    OneKept("");
    assert paths != [];
    var front, last := paths[..|paths| - 1], paths[|paths| - 1];
    KeptSnoc(paths);
    if IsKept(last) && ComponentOf(last) == id {
      k := |paths| - 1;
    } else {
      if IsKept(last) {
        assert (Represented(front) + [last])[..|Represented(front)|] == Represented(front);
      }
      k := LastDescribes(front, id);
    }
  }

  ghost predicate DescribedBy(paths: seq<string>, row: ComponentRow, k: nat) {
    && IsLastOf(paths, row.id, k)
    && row.kind == Classify(paths[k]).kind && row.path == Classify(paths[k]).path
  }

  /** Some target of the component has this name. */
  ghost predicate Supplies(g: Graph, id: string, name: string) {
    exists t :: t in g.targets && t.component == id && t.name == name
  }

  /** The last file of a component describes it, and its targets are those of its CMake files. */
  lemma RowDescribes(g: Graph, repo: Repository, owners: map<string, string>, edges: EdgeTable, i: nat)
    requires IsGraph(g, repo, owners, edges) && i < |g.components|
    ensures exists k :: DescribedBy(repo.tracked, g.components[i], k)
    ensures forall name :: name in g.components[i].targets <==> Supplies(g, g.components[i].id, name)
  {
    hide IsGraph;
    hide Represented;
    hide Refs;
    hide Pick;
    hide Classify;
    hide Less;
    hide IsLastOf;
    RowIs(g, repo, owners, edges, i);
    var row := g.components[i];
    var k := LastDescribes(repo.tracked, row.id);
    assert DescribedBy(repo.tracked, row, k);
    forall name ensures name in row.targets <==> Supplies(g, row.id, name) {
      assert name in row.targets <==> name in NamesOwnedBy(row.id, g.targets);
    }
  }

  /** There is a row for each component of a kept file, in the order of the ids. */
  lemma RowsAreTheComponents(g: Graph, repo: Repository, owners: map<string, string>, edges: EdgeTable, id: string)
    requires IsGraph(g, repo, owners, edges)
    ensures id in Ids(g.components) <==> exists k: nat :: IsLastOf(repo.tracked, id, k)
    ensures forall i, j :: 0 <= i < j < |g.components| ==> Precedes(g.components[i].id, g.components[j].id)
  {
    hide IsGraph;
    hide AreRows;
    hide Represented;
    hide Refs;
    hide Classify;
    hide IsKept;
    hide Less;
    hide Precedes;
    var kept := Represented(repo.tracked);
    ListedIds(g, repo, owners, edges, id);
    RefsAreTheComponents(kept, id);
    if id in Refs(kept) {
      var k := LastDescribes(repo.tracked, id);
    }
    if exists k: nat :: IsLastOf(repo.tracked, id, k) {
      var k: nat :| IsLastOf(repo.tracked, id, k);
      KeptIsRepresented(repo.tracked, k);
    }
    forall i, j | 0 <= i < j < |g.components| ensures Precedes(g.components[i].id, g.components[j].id) {
      LessIff(g.components[i].id, g.components[j].id);
    }
  }

  lemma ListedIds(g: Graph, repo: Repository, owners: map<string, string>, edges: EdgeTable, id: string)
    requires IsGraph(g, repo, owners, edges)
    ensures id in Ids(g.components) <==> id in Refs(Represented(repo.tracked))
    ensures forall i, j :: 0 <= i < j < |g.components| ==> Less(g.components[i].id, g.components[j].id)
  {
    hide Represented;
    hide Refs;
    hide Nodes;
    hide Less;
    hide IsRow;
    hide IsQuotient;
    hide IsIndex;
    hide AreEdgeRows;
    if id in Refs(Represented(repo.tracked)) {
      var i :| 0 <= i < |g.components| && g.components[i].id == id;
      assert Ids(g.components)[i] == id;
    }
  }

  lemma {:induction false} KeptIsRepresented(paths: seq<string>, k: nat)
    requires k < |paths| && IsKept(paths[k])
    ensures paths[k] in Represented(paths)
    decreases |paths|
  {
    if k > 0 {
      KeptIsRepresented(paths[1..], k - 1);
    }
  }
}

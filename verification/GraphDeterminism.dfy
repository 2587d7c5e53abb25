/** One repository state has one graph: every table and every list is determined by the inputs. */
module GraphDeterminism {
  import opened Order
  import opened Components
  import opened CMakeParser
  import opened GraphTables
  import opened GraphBuilder
  import opened GraphLaws

  lemma IndexIsUnique(t: DependencyTable, u: DependencyTable, ds: set<Dependency>)
    requires IsIndex(t, ds) && IsIndex(u, ds)
    ensures t == u
  {
    forall key ensures key in t <==> key in u {
      var (k, n) := key;
      if (k, n) in t {
        var s :| s in t[(k, n)];
        assert Dependency(k, n, s) in ds;
      }
      if (k, n) in u {
        var s :| s in u[(k, n)];
        assert Dependency(k, n, s) in ds;
      }
    }
    forall key | key in t ensures t[key] == u[key] {
      var (k, n) := key;
      forall s ensures s in t[(k, n)] <==> s in u[(k, n)] {
        assert Dependency(k, n, s) in ds <==> s in t[(k, n)];
      }
    }
  }

  lemma OwnersAreUnique(o: map<string, string>, p: map<string, string>, text: map<string, string>, tok: Tokenizer,
      among: set<string>)
    requires AreOwners(o, text, tok, among) && AreOwners(p, text, tok, among)
    ensures o == p
  {
    hide Less;
    hide Declares;
    hide ComponentOf;
    hide OwnedBy;
    StringsAreOrdered();
    forall n ensures n in o <==> n in p {
      if n in o {
        OwnerDeclares(text, tok, n, among, o[n]);
      }
      if n in p {
        OwnerDeclares(text, tok, n, among, p[n]);
      }
    }
    forall n | n in o ensures o[n] == p[n] {
      SameOwner(text, tok, n, among, o[n], p[n]);
    }
  }

  lemma OwnerDeclares(text: map<string, string>, tok: Tokenizer, n: string, among: set<string>, c: string)
    requires OwnedBy(text, tok, n, among, c)
    ensures exists p :: p in among && Declares(text, tok, p, n)
  {
    hide Less;
    hide Declares;
    hide ComponentOf;
  }

  lemma SameOwner(text: map<string, string>, tok: Tokenizer, n: string, among: set<string>, c: string, d: string)
    requires OwnedBy(text, tok, n, among, c) && OwnedBy(text, tok, n, among, d)
    ensures c == d
  {
    hide Less;
    hide Declares;
    hide ComponentOf;
    StringsAreOrdered();
    var p :| FirstDeclares(text, tok, p, n, among) && c == ComponentOf(p);
    var q :| FirstDeclares(text, tok, q, n, among) && d == ComponentOf(q);
    assert p != q ==> Less(p, q) && Less(q, p) && Less(p, p);
  }

  function EdgeKeys(rows: seq<EdgeRow>): seq<(string, string)> {
    seq(|rows|, i requires 0 <= i < |rows| => (rows[i].source, rows[i].target))
  }

  lemma EdgeKeysSorted(rows: seq<EdgeRow>, edges: EdgeTable)
    requires AreEdgeRows(rows, edges)
    ensures SortedOf(EdgeKeys(rows), edges.Keys, PairLess)
  {
    hide PairLess;
    var ks := EdgeKeys(rows);
    forall key ensures key in ks <==> key in edges.Keys {
      var (a, b) := key;
      if (a, b) in edges {
        var i :| 0 <= i < |rows| && rows[i].source == a && rows[i].target == b;
        assert ks[i] == (a, b);
      }
    }
  }

  lemma EdgeRowsAreUnique(r: seq<EdgeRow>, s: seq<EdgeRow>, edges: EdgeTable)
    requires AreEdgeRows(r, edges) && AreEdgeRows(s, edges)
    ensures r == s
  {
    hide PairLess;
    PairsAreOrdered();
    EdgeKeysSorted(r, edges);
    EdgeKeysSorted(s, edges);
    SortedIsUnique(EdgeKeys(r), EdgeKeys(s), edges.Keys, PairLess);
    assert |r| == |EdgeKeys(r)| && |s| == |EdgeKeys(s)|;
    forall i | 0 <= i < |r| ensures r[i] == s[i] {
      assert EdgeKeys(r)[i] == EdgeKeys(s)[i];
    }
  }

  lemma IdsSorted(rows: seq<ComponentRow>, refs: map<string, Component>, nodes: seq<Node>, targets: set<Target>)
    requires AreRows(rows, refs, nodes, targets)
    ensures SortedOf(Ids(rows), refs.Keys, Less)
  {
    hide Less;
    hide IsRow;
    var ids := Ids(rows);
    forall id ensures id in ids <==> id in refs.Keys {
      if id in refs {
        var i :| 0 <= i < |rows| && rows[i].id == id;
        assert ids[i] == id;
      }
    }
  }

  lemma SameRow(r: ComponentRow, s: ComponentRow, c: Component, files: seq<Node>, targets: set<Target>)
    requires IsRow(r, r.id, c, files, targets) && IsRow(s, r.id, c, files, targets)
    ensures r == s
  {
    hide Pick;
    hide Total;
    hide Less;
    StringsAreOrdered();
    SortedIsUnique(r.targets, s.targets, NamesOwnedBy(r.id, targets), Less);
    assert r.languageCounts == s.languageCounts;
  }

  lemma RowsAreUnique(r: seq<ComponentRow>, s: seq<ComponentRow>, refs: map<string, Component>, nodes: seq<Node>,
      targets: set<Target>)
    requires AreRows(r, refs, nodes, targets) && AreRows(s, refs, nodes, targets)
    ensures r == s
  {
    hide Less;
    hide IsRow;
    hide Pick;
    StringsAreOrdered();
    IdsSorted(r, refs, nodes, targets);
    IdsSorted(s, refs, nodes, targets);
    SortedIsUnique(Ids(r), Ids(s), refs.Keys, Less);
    assert |r| == |Ids(r)| && |s| == |Ids(s)|;
    forall i | 0 <= i < |r| ensures r[i] == s[i] {
      assert Ids(r)[i] == r[i].id && Ids(s)[i] == s[i].id;
      SameRow(r[i], s[i], refs[r[i].id], Pick(nodes, ByComponent, r[i].id), targets);
    }
  }

  /** The graph, its target owners and its edge table are functions of the repository: building twice
      at one revision gives the same result, whatever order sets are iterated in. */
  lemma GraphIsDetermined(
    g: Graph, h: Graph, repo: Repository, o: map<string, string>, p: map<string, string>, e: EdgeTable, f: EdgeTable)
    requires IsGraph(g, repo, o, e) && IsGraph(h, repo, p, f)
    ensures g == h && o == p && e == f
  {
    hide Represented;
    hide TextTable;
    hide AllDirectives;
    hide FileEdges;
    hide Unresolved;
    hide IncludeWitnesses;
    hide IncludeDependencies;
    hide CMakeFiles;
    hide Targets;
    hide Links;
    hide AreOwners;
    hide LinkWitnesses;
    hide LinkDependencies;
    hide IsQuotient;
    hide IsIndex;
    hide AreRows;
    hide AreEdgeRows;
    hide Refs;
    hide Nodes;
    hide Excluded;
    var paths := Represented(repo.tracked);
    var text, tracked := TextTable(repo, paths), set x | x in paths;
    var ds, files := AllDirectives(text), CMakeFiles(text);
    OwnersAreUnique(o, p, text, repo.tok, files);
    var links := Links(text, repo.tok, files);
    QuotientIsUnique(e, f, IncludeWitnesses(ds, tracked) + LinkWitnesses(o, links));
    IndexIsUnique(g.dependencies, h.dependencies, IncludeDependencies(ds, tracked) + LinkDependencies(o, links));
    EdgeRowsAreUnique(g.edges, h.edges, e);
    RowsAreUnique(g.components, h.components, Refs(paths), g.nodes, g.targets);
  }
}

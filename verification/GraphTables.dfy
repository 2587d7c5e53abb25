/** The tables `build_graph` fills: the component edges, and the external dependencies. */
module GraphTables {
  datatype EdgeKind = IncludeEdge | LinkEdge

  /** One reason for a component edge. */
  datatype Witness = Witness(source: string, target: string, kind: EdgeKind, evidence: string)

  datatype EdgeData = EdgeData(kinds: set<EdgeKind>, evidence: set<string>)

  type EdgeTable = map<(string, string), EdgeData>

  /** `add_component_edge`: no edge inside a component; otherwise one entry per ordered pair. */
  function AddEdge(edges: EdgeTable, w: Witness): EdgeTable {
    if w.source == w.target then edges
    else
      var key := (w.source, w.target);
      var data := if key in edges then edges[key] else EdgeData({}, {});
      edges[key := EdgeData(data.kinds + {w.kind}, data.evidence + {w.evidence})]
  }

  ghost predicate Between(w: Witness, a: string, b: string) {
    w.source == a && w.target == b
  }

  /** The edge table is the exact quotient of the witnesses: an entry for just the pairs of distinct
      components that some witness joins, with just those witnesses' kinds and evidence. */
  ghost predicate IsQuotient(edges: EdgeTable, ws: set<Witness>) {
    && (forall a, b :: (a, b) in edges <==> a != b && exists w :: w in ws && Between(w, a, b))
    && (forall a, b, k :: (a, b) in edges ==>
          (k in edges[(a, b)].kinds <==> exists w :: w in ws && Between(w, a, b) && w.kind == k))
    && (forall a, b, e :: (a, b) in edges ==>
          (e in edges[(a, b)].evidence <==> exists w :: w in ws && Between(w, a, b) && w.evidence == e))
  }

  lemma AddEdgeKeepsQuotient(edges: EdgeTable, ws: set<Witness>, w: Witness)
    requires IsQuotient(edges, ws)
    ensures IsQuotient(AddEdge(edges, w), ws + {w})
  {
    var next, all, key := AddEdge(edges, w), ws + {w}, (w.source, w.target);
    assert w in all;
    forall a, b ensures (a, b) in next <==> a != b && exists v :: v in all && Between(v, a, b) {
      if (a, b) in edges {
        var v :| v in ws && Between(v, a, b);
        assert v in all;
      }
      if (a, b) == key {
        assert Between(w, a, b);
      }
    }
    forall a, b, k | (a, b) in next
      ensures k in next[(a, b)].kinds <==> exists v :: v in all && Between(v, a, b) && v.kind == k
    {
      if exists v :: v in ws && Between(v, a, b) && v.kind == k {
        var v :| v in ws && Between(v, a, b) && v.kind == k;
        assert v in all;
      }
      if (a, b) == key {
        assert Between(w, a, b);
      }
    }
    forall a, b, e | (a, b) in next
      ensures e in next[(a, b)].evidence <==> exists v :: v in all && Between(v, a, b) && v.evidence == e
    {
      if exists v :: v in ws && Between(v, a, b) && v.evidence == e {
        var v :| v in ws && Between(v, a, b) && v.evidence == e;
        assert v in all;
      }
      if (a, b) == key {
        assert Between(w, a, b);
      }
    }
  }

  /** The witnesses determine the table. */
  lemma QuotientIsUnique(e: EdgeTable, f: EdgeTable, ws: set<Witness>)
    requires IsQuotient(e, ws) && IsQuotient(f, ws)
    ensures e == f
  {
    forall key ensures key in e <==> key in f {
      var (a, b) := key;
    }
    forall key | key in e ensures e[key] == f[key] {
      var (a, b) := key;
      assert (a, b) in f;
      assert e[(a, b)].kinds == f[(a, b)].kinds;
      assert e[(a, b)].evidence == f[(a, b)].evidence;
    }
  }

  datatype DependencyKind = UnresolvedQuotedInclude | SystemInclude | CMakeLink

  datatype Dependency = Dependency(kind: DependencyKind, name: string, source: string)

  type DependencyTable = map<(DependencyKind, string), set<string>>

  function AddDependency(table: DependencyTable, d: Dependency): DependencyTable {
    var key := (d.kind, d.name);
    table[key := (if key in table then table[key] else {}) + {d.source}]
  }

  /** Each dependency lists exactly the files that need it. */
  ghost predicate IsIndex(table: DependencyTable, ds: set<Dependency>) {
    && (forall k, n :: (k, n) in table ==> table[(k, n)] != {})
    && (forall k, n, s :: Dependency(k, n, s) in ds <==> (k, n) in table && s in table[(k, n)])
  }

  lemma AddDependencyKeepsIndex(table: DependencyTable, ds: set<Dependency>, d: Dependency)
    requires IsIndex(table, ds)
    ensures IsIndex(AddDependency(table, d), ds + {d})
  {
  }
}

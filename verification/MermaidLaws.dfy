/** The diagram of a built graph. */
module MermaidLaws {
  import opened GraphTables
  import opened GraphBuilder
  import GraphLaws
  import opened Text
  import M = MermaidRenderer

  lemma BuiltIdsAreDistinct(g: Graph, repo: Repository, owners: map<string, string>, edges: EdgeTable)
    requires IsGraph(g, repo, owners, edges)
    ensures M.DistinctIds(g.components)
  {
    hide IsGraph;
    GraphLaws.RowsAreDistinct(g, repo, owners, edges);
    var ids := GraphLaws.Ids(g.components);
    assert forall i :: 0 <= i < |g.components| ==> g.components[i].id == ids[i];
  }

  /** For a built graph no edge is skipped: each component edge has exactly one line, between the two
      nodes of its two distinct components, and no two of these lines read the same. */
  lemma EveryBuiltEdgeIsDrawn(g: Graph, repo: Repository, owners: map<string, string>, edges: EdgeTable)
    requires IsGraph(g, repo, owners, edges)
    ensures var lines := M.EdgeLines(M.NodeIds(g.components), g.edges);
            && |lines| == |g.edges|
            && (forall i :: 0 <= i < |lines| ==> DrawsEdge(lines[i], g.components, g.edges[i]))
            && (forall i, j :: 0 <= i < j < |lines| ==> M.Show(lines[i]) != M.Show(lines[j]))
  {
    hide IsGraph;
    hide M.EdgeLines;
    hide M.Show;
    hide M.NodeId;
    hide M.KindNames;
    hide Join;
    var rows, ids := g.components, M.NodeIds(g.components);
    hide M.NodeIds;
    var lines := M.EdgeLines(ids, g.edges);
    BuiltIdsAreDistinct(g, repo, owners, edges);
    M.RowsHaveIds(rows);
    forall i | 0 <= i < |g.edges| ensures M.EndsListed(ids, g.edges[i]) {
      GraphLaws.EndpointsAreListed(g, repo, owners, edges, i);
      var a := ListedRow(rows, g.edges[i].source);
      var b := ListedRow(rows, g.edges[i].target);
    }
    M.EveryEdgeIsDrawnIff(ids, g.edges);
    forall i | 0 <= i < |lines| ensures DrawsEdge(lines[i], rows, g.edges[i]) {
      GraphLaws.EndpointsAreListed(g, repo, owners, edges, i);
      var a := ListedRow(rows, g.edges[i].source);
      var b := ListedRow(rows, g.edges[i].target);
      M.NodeOfRow(rows, a);
      M.NodeOfRow(rows, b);
      assert Draws(lines[i], rows, g.edges[i], a, b);
    }
    forall i, j | 0 <= i < j < |lines| ensures M.Show(lines[i]) != M.Show(lines[j]) {
      var a, b :| Draws(lines[i], rows, g.edges[i], a, b);
      var c, d :| Draws(lines[j], rows, g.edges[j], c, d);
      M.EdgeLinesReadDifferently(a, b, c, d, lines[i].caption, lines[j].caption);
      EdgeRowsDiffer(g, repo, owners, edges, i, j);
    }
  }

  /** The line joins nodes `a` and `b`, which are the components of the edge. */
  ghost predicate Draws(line: M.Line, rows: seq<ComponentRow>, e: EdgeRow, a: nat, b: nat) {
    && a < |rows| && b < |rows| && rows[a].id == e.source && rows[b].id == e.target
    && line.EdgeLine? && line.source == M.NodeId(a) && line.target == M.NodeId(b)
  }

  ghost predicate DrawsEdge(line: M.Line, rows: seq<ComponentRow>, e: EdgeRow) {
    exists a: nat, b: nat :: Draws(line, rows, e, a, b)
  }

  lemma ListedRow(rows: seq<ComponentRow>, id: string) returns (i: nat)
    requires id in GraphLaws.Ids(rows)
    ensures i < |rows| && rows[i].id == id
  {
    i :| 0 <= i < |rows| && GraphLaws.Ids(rows)[i] == id;
  }

  lemma EdgeRowsDiffer(g: Graph, repo: Repository, owners: map<string, string>, edges: EdgeTable, i: nat, j: nat)
    requires IsGraph(g, repo, owners, edges) && i < j < |g.edges|
    ensures g.edges[i].source != g.edges[j].source || g.edges[i].target != g.edges[j].target
  {
    hide IsGraph;
    GraphLaws.QuotientOfAll(g, repo, owners, edges);
    GraphLaws.EdgeRowsDistinct(g.edges, edges, i, j);
  }
}

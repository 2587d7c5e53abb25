/** `render_mermaid` in tools/codegraph.py. */
module MermaidRenderer {
  import opened Text
  import opened TextLaws
  import opened Components
  import opened GraphTables
  import opened StableSorting
  import GraphBuilder
  import Order

  // ----- node ids

  /** Decimal, padded with zeros to `width`. */
  function Padded(n: nat, width: nat): string {
    var d := Decimal(n);
    seq(if |d| < width then width - |d| else 0, _ => '0') + d
  }

  function NodeId(index: nat): string {
    "n" + Padded(index, 3)
  }

  lemma {:induction false} ValueIgnoresZeros(k: nat, s: string)
    ensures Value(seq(k, _ => '0') + s) == Value(s)
    decreases |s|, k
  {
    var zeros := seq(k, _ => '0');
    var t := zeros + s;
    if s == "" {
      assert t == zeros;
      if k > 0 {
        assert t[..k - 1] == seq(k - 1, _ => '0') + "";
        ValueIgnoresZeros(k - 1, "");
      }
    } else {
      assert t[..|t| - 1] == zeros + s[..|s| - 1];
      ValueIgnoresZeros(k, s[..|s| - 1]);
    }
  }

  /** Node ids of different components differ, however many there are. */
  lemma NodeIdsAreDistinct(i: nat, j: nat)
    ensures NodeId(i) == NodeId(j) <==> i == j
    ensures forall k :: 0 <= k < |NodeId(i)| ==> NodeId(i)[k] != ' '
  {
    hide Value;
    hide Decimal;
    forall n: nat | n == i || n == j ensures Value(NodeId(n)[1..]) == n {
      ValueOfDecimal(n);
      assert NodeId(n)[1..] == Padded(n, 3);
      var d := Decimal(n);
      ValueIgnoresZeros(if |d| < 3 then 3 - |d| else 0, d);
    }
    ValueOfDecimal(i);
  }

  // ----- lines

  type Row = GraphBuilder.ComponentRow
  type Edge = GraphBuilder.EdgeRow

  datatype Style = ApplicationStyle | LibraryStyle | TestStyle | SupportStyle

  /** One line of the diagram; `owner` is the component a node line declares. */
  datatype Line =
    | Header(text: string)
    | Subgraph(index: nat, caption: string)
    | NodeLine(node: string, caption: string, owner: Row)
    | EndLine
    | ClassLine(node: string, style: Style)
    | EdgeLine(source: string, caption: string, target: string)

  function Label(value: string): string {
    seq(|value|, i requires 0 <= i < |value| =>
      if value[i] == '"' then '\'' else if value[i] == '\n' then ' ' else value[i])
  }

  function StyleName(s: Style): string {
    match s
    case ApplicationStyle => "application"
    case LibraryStyle => "library"
    case TestStyle => "test"
    case SupportStyle => "support"
  }

  function Show(l: Line): string {
    match l
    case Header(text) => text
    case Subgraph(index, caption) => "  subgraph g" + Padded(index, 2) + "[\"" + Label(caption) + "\"]"
    case NodeLine(node, caption, _) => "    " + node + "[\"" + caption + "\"]"
    case EndLine => "  end"
    case ClassLine(node, style) => "  class " + node + " " + StyleName(style)
    case EdgeLine(source, caption, target) => "  " + source + " -->|\"" + Label(caption) + "\"| " + target
  }

  function ClassDef(name: string, fill: string, stroke: string, color: string): Line {
    Header("  classDef " + name + " fill:" + fill + ",stroke:" + stroke + ",color:" + color)
  }

  const HEADERS: seq<Line> := [
    Header("flowchart LR"),
    ClassDef("application", "#dbeafe", "#2563eb", "#172554"),
    ClassDef("library", "#dcfce7", "#16a34a", "#052e16"),
    ClassDef("test", "#fef3c7", "#d97706", "#451a03"),
    ClassDef("support", "#f3e8ff", "#9333ea", "#3b0764")]

  /** The groups in the order of their labels. */
  const GROUPS: seq<(Kind, string)> := [
    (Application, "Applications"), (Library, "Libraries"), (Test, "Tests"), (Tool, "Tools"),
    (Deployment, "Deployment"), (Automation, "Automation"), (Localization, "Localization"),
    (Documentation, "Documentation"), (Build, "Build support"), (Resource, "Resources"),
    (Support, "Other support")]

  function StyleOf(k: Kind): Style {
    match k
    case Application => ApplicationStyle
    case Library => LibraryStyle
    case Test => TestStyle
    case _ => SupportStyle
  }

  function KindNames(kinds: set<EdgeKind>): seq<string> {
    (if IncludeEdge in kinds then ["include"] else []) + (if LinkEdge in kinds then ["link"] else [])
  }

  /** The node id of each component; a repeated id would take the last position. */
  function NodeIds(rows: seq<Row>): map<string, string> {
    if rows == [] then map[]
    else NodeIds(rows[..|rows| - 1])[rows[|rows| - 1].id := NodeId(|rows| - 1)]
  }

  predicate IdNotAfter(a: Row, b: Row) {
    a.id == b.id || Order.Less(a.id, b.id)
  }

  function OfKind(k: Kind): Row -> bool {
    (r: Row) => r.kind == k
  }

  function NodeOf(ids: map<string, string>, r: Row): Line
    requires r.id in ids
  {
    var targets := Join(r.targets, ", ");
    var detail := if targets != "" then "<br/>" + targets else "";
    NodeLine(ids[r.id], Label(r.id) + Label(detail), r)
  }

  function NodeLines(ids: map<string, string>, rows: seq<Row>): seq<Line>
    requires forall i :: 0 <= i < |rows| ==> rows[i].id in ids
  {
    seq(|rows|, i requires 0 <= i < |rows| => NodeOf(ids, rows[i]))
  }

  /** One group: nothing when it has no component, else a subgraph around its components. */
  function GroupLines(ids: map<string, string>, rows: seq<Row>, g: nat): seq<Line>
    requires g < |GROUPS| && forall i :: 0 <= i < |rows| ==> rows[i].id in ids
  {
    var items := Filter(rows, OfKind(GROUPS[g].0));
    if items == [] then []
    else
      SortedItems(ids, rows, OfKind(GROUPS[g].0));
      [Subgraph(g, GROUPS[g].1)] + NodeLines(ids, StableSort(items, IdNotAfter)) + [EndLine]
  }

  lemma SortedItems(ids: map<string, string>, rows: seq<Row>, p: Row -> bool)
    requires forall i :: 0 <= i < |rows| ==> rows[i].id in ids
    ensures var items := StableSort(Filter(rows, p), IdNotAfter);
            && multiset(items) == multiset(Filter(rows, p))
            && forall i :: 0 <= i < |items| ==> items[i].id in ids && items[i] in rows && p(items[i])
  {
    hide StableSort;
    hide Filter;
    IdsAreOrdered();
    var picked := Filter(rows, p);
    FilterLaws(rows, p);
    SortSorts(picked, IdNotAfter);
    var items := StableSort(picked, IdNotAfter);
    forall i | 0 <= i < |items| ensures items[i] in picked {
      assert items[i] in multiset(items);
    }
  }

  lemma IdsAreOrdered()
    ensures TotalPreorder(IdNotAfter)
  {
    hide Order.Less;
    Order.StringsAreOrdered();
    forall a: Row, b: Row ensures IdNotAfter(a, b) || IdNotAfter(b, a) {
      assert a.id == b.id || Order.Less(a.id, b.id) || Order.Less(b.id, a.id);
    }
    forall a: Row, b: Row, c: Row | IdNotAfter(a, b) && IdNotAfter(b, c) ensures IdNotAfter(a, c) {
      assert Order.Less(a.id, b.id) && Order.Less(b.id, c.id) ==> Order.Less(a.id, c.id);
    }
  }

  /** The first `g` groups. */
  function Groups(ids: map<string, string>, rows: seq<Row>, g: nat): seq<Line>
    requires g <= |GROUPS| && forall i :: 0 <= i < |rows| ==> rows[i].id in ids
  {
    if g == 0 then [] else Groups(ids, rows, g - 1) + GroupLines(ids, rows, g - 1)
  }

  function ClassLines(ids: map<string, string>, rows: seq<Row>): seq<Line>
    requires forall i :: 0 <= i < |rows| ==> rows[i].id in ids
  {
    seq(|rows|, i requires 0 <= i < |rows| => ClassLine(ids[rows[i].id], StyleOf(rows[i].kind)))
  }

  /** An edge whose end is no component is skipped. */
  function EdgeLines(ids: map<string, string>, edges: seq<Edge>): seq<Line> {
    if edges == [] then []
    else
      var e := edges[|edges| - 1];
      EdgeLines(ids, edges[..|edges| - 1]) +
      (if e.source in ids && e.target in ids
       then [EdgeLine(ids[e.source], Join(KindNames(e.data.kinds), " + "), ids[e.target])] else [])
  }

  lemma {:induction false} RowsHaveIds(rows: seq<Row>)
    ensures forall id :: id in NodeIds(rows) <==> exists i :: 0 <= i < |rows| && rows[i].id == id
    ensures forall i :: 0 <= i < |rows| ==> rows[i].id in NodeIds(rows)
    decreases |rows|
  {
    hide NodeId;
    if rows != [] {
      var front := rows[..|rows| - 1];
      RowsHaveIds(front);
      assert forall i :: 0 <= i < |front| ==> rows[i] == front[i];
    }
  }

  function Diagram(rows: seq<Row>, edges: seq<Edge>): seq<Line> {
    var ids := NodeIds(rows);
    RowsHaveIds(rows);
    HEADERS + Groups(ids, rows, |GROUPS|) + ClassLines(ids, rows) + EdgeLines(ids, edges)
  }

  function ShowAll(lines: seq<Line>): seq<string> {
    seq(|lines|, i requires 0 <= i < |lines| => Show(lines[i]))
  }

  method NumberNodes(rows: seq<Row>) returns (ids: map<string, string>)
    ensures ids == NodeIds(rows)
  {
    ids := map[];
    for i := 0 to |rows|
      invariant ids == NodeIds(rows[..i])
    {
      assert rows[..i + 1][..i] == rows[..i];
      ids := ids[rows[i].id := NodeId(i)];
    }
    assert rows[..|rows|] == rows;
  }

  method RenderGroup(ids: map<string, string>, rows: seq<Row>, g: nat) returns (lines: seq<Line>)
    requires g < |GROUPS| && forall i :: 0 <= i < |rows| ==> rows[i].id in ids
    ensures lines == GroupLines(ids, rows, g)
  {
    hide StableSort;
    hide Filter;
    hide NodeOf;
    var items := Filter(rows, OfKind(GROUPS[g].0));
    if items == [] {
      return [];
    }
    SortedItems(ids, rows, OfKind(GROUPS[g].0));
    var ordered := StableSort(items, IdNotAfter);
    var nodes: seq<Line> := [];
    for j := 0 to |ordered|
      invariant nodes == NodeLines(ids, ordered)[..j]
    {
      nodes := nodes + [NodeOf(ids, ordered[j])];
    }
    lines := [Subgraph(g, GROUPS[g].1)] + nodes + [EndLine];
  }

  method RenderGroups(ids: map<string, string>, rows: seq<Row>) returns (lines: seq<Line>)
    requires forall i :: 0 <= i < |rows| ==> rows[i].id in ids
    ensures lines == Groups(ids, rows, |GROUPS|)
  {
    hide GroupLines;
    lines := [];
    for g := 0 to |GROUPS|
      invariant lines == Groups(ids, rows, g)
    {
      var group := RenderGroup(ids, rows, g);
      lines := lines + group;
    }
  }

  method RenderEdges(ids: map<string, string>, edges: seq<Edge>) returns (lines: seq<Line>)
    ensures lines == EdgeLines(ids, edges)
  {
    hide Join;
    hide KindNames;
    lines := [];
    for i := 0 to |edges|
      invariant lines == EdgeLines(ids, edges[..i])
    {
      assert edges[..i + 1][..i] == edges[..i];
      var e := edges[i];
      if e.source !in ids || e.target !in ids {
        continue;
      }
      lines := lines + [EdgeLine(ids[e.source], Join(KindNames(e.data.kinds), " + "), ids[e.target])];
    }
    assert edges[..|edges|] == edges;
  }

  method RenderMermaid(rows: seq<Row>, edges: seq<Edge>) returns (text: string, lines: seq<Line>)
    ensures lines == Diagram(rows, edges)
    ensures text == Join(ShowAll(lines), "\n") + "\n"
  {
    hide Groups;
    hide EdgeLines;
    hide NodeIds;
    hide ShowAll;
    hide Join;
    RowsHaveIds(rows);
    var ids := NumberNodes(rows);
    var groups := RenderGroups(ids, rows);
    var classes: seq<Line> := [];
    for i := 0 to |rows|
      invariant classes == ClassLines(ids, rows)[..i]
    {
      classes := classes + [ClassLine(ids[rows[i].id], StyleOf(rows[i].kind))];
    }
    var links := RenderEdges(ids, edges);
    lines := HEADERS + groups + classes + links;
    text := Join(ShowAll(lines), "\n") + "\n";
  }

  // ----- nothing is lost

  /** The components declared by node lines, in order. */
  function Declared(lines: seq<Line>): seq<Row> {
    if lines == [] then []
    else (if lines[0].NodeLine? then [lines[0].owner] else []) + Declared(lines[1..])
  }

  /** The position of a kind among the groups. */
  function Position(k: Kind): nat {
    match k
    case Application => 0 case Library => 1 case Test => 2 case Tool => 3 case Deployment => 4
    case Automation => 5 case Localization => 6 case Documentation => 7 case Build => 8
    case Resource => 9 case Support => 10
  }

  /** What the subgraph of a kind is called. */
  function Title(k: Kind): string {
    match k
    case Application => "Applications" case Library => "Libraries" case Test => "Tests" case Tool => "Tools"
    case Deployment => "Deployment" case Automation => "Automation" case Localization => "Localization"
    case Documentation => "Documentation" case Build => "Build support" case Resource => "Resources"
    case Support => "Other support"
  }

  ghost predicate Titles(k: Kind, g: nat, caption: string) {
    Position(k) == g && Title(k) == caption
  }

  lemma KindsAreGrouped(k: Kind, g: nat)
    requires g < |GROUPS|
    ensures Position(k) < |GROUPS| && (GROUPS[g].0 == k <==> Position(k) == g)
  {
  }

  lemma GroupsAreTitled(g: nat)
    requires g < |GROUPS|
    ensures Titles(GROUPS[g].0, g, GROUPS[g].1)
  {
  }

  /** Subgraphs do not nest and are all closed; node lines stand inside the subgraph of their own
      kind, under its title; nothing else does. */
  ghost predicate Balanced(lines: seq<Line>, open: Option<nat>)
    decreases |lines|
  {
    if lines == [] then open.None?
    else
      match lines[0]
      case Subgraph(g, caption) => open.None? && (exists k :: Titles(k, g, caption)) && Balanced(lines[1..], Some(g))
      case EndLine => open.Some? && Balanced(lines[1..], None)
      case NodeLine(_, _, owner) =>
        open == Some(Position(owner.kind)) && Balanced(lines[1..], open)
      case _ => open.None? && Balanced(lines[1..], open)
  }

  lemma {:induction false} DeclaredConcat(a: seq<Line>, b: seq<Line>)
    ensures Declared(a + b) == Declared(a) + Declared(b)
    decreases |a|
  {
    if a == [] {
      assert a + b == b;
    } else {
      assert (a + b)[0] == a[0] && (a + b)[1..] == a[1..] + b;
      DeclaredConcat(a[1..], b);
    }
  }

  lemma {:induction false} BalancedConcat(a: seq<Line>, b: seq<Line>, open: Option<nat>)
    requires Balanced(a, open) && Balanced(b, None)
    ensures Balanced(a + b, open)
    decreases |a|
  {
    if a == [] {
      assert a + b == b;
    } else {
      assert (a + b)[0] == a[0] && (a + b)[1..] == a[1..] + b;
      match a[0]
      case Subgraph(g, _) => BalancedConcat(a[1..], b, Some(g));
      case EndLine => BalancedConcat(a[1..], b, None);
      case _ => BalancedConcat(a[1..], b, open);
    }
  }

  lemma {:induction false} NodesDeclare(ids: map<string, string>, rows: seq<Row>, g: nat)
    requires g < |GROUPS| && forall i :: 0 <= i < |rows| ==> rows[i].id in ids && rows[i].kind == GROUPS[g].0
    ensures Declared(NodeLines(ids, rows) + [EndLine]) == rows
    ensures Balanced(NodeLines(ids, rows) + [EndLine], Some(g))
    decreases |rows|
  {
    hide NodeOf;
    var lines := NodeLines(ids, rows) + [EndLine];
    if rows == [] {
      assert lines == [EndLine] && [EndLine][1..] == [];
    } else {
      NodesDeclare(ids, rows[1..], g);
      KindsAreGrouped(rows[0].kind, g);
      assert lines[1..] == NodeLines(ids, rows[1..]) + [EndLine];
      NodeLineOf(ids, rows[0]);
    }
  }

  lemma NodeLineOf(ids: map<string, string>, r: Row)
    requires r.id in ids
    ensures var l := NodeOf(ids, r); l.NodeLine? && l.owner == r && l.node == ids[r.id]
  {
  }

  lemma {:induction false} GroupDeclares(ids: map<string, string>, rows: seq<Row>, g: nat)
    requires g < |GROUPS| && forall i :: 0 <= i < |rows| ==> rows[i].id in ids
    ensures multiset(Declared(GroupLines(ids, rows, g))) == multiset(Filter(rows, OfKind(GROUPS[g].0)))
    ensures Balanced(GroupLines(ids, rows, g), None)
  {
    hide StableSort;
    hide Filter;
    hide NodeLines;
    var items := Filter(rows, OfKind(GROUPS[g].0));
    if items != [] {
      SortedItems(ids, rows, OfKind(GROUPS[g].0));
      var ordered := StableSort(items, IdNotAfter);
      NodesDeclare(ids, ordered, g);
      GroupsAreTitled(g);
      var tail := NodeLines(ids, ordered) + [EndLine];
      var lines := GroupLines(ids, rows, g);
      assert lines == [Subgraph(g, GROUPS[g].1)] + tail;
      assert lines[1..] == tail;
    }
  }

  lemma {:induction false} FilterSplits(rows: seq<Row>, p: Row -> bool, q: Row -> bool, both: Row -> bool)
    requires forall r :: (both(r) <==> p(r) || q(r)) && !(p(r) && q(r))
    ensures multiset(Filter(rows, both)) == multiset(Filter(rows, p)) + multiset(Filter(rows, q))
    decreases |rows|
  {
    if rows != [] {
      FilterSplits(rows[1..], p, q, both);
    }
  }

  lemma {:induction false} FilterAll(rows: seq<Row>, p: Row -> bool)
    requires forall r :: p(r)
    ensures Filter(rows, p) == rows
    decreases |rows|
  {
    if rows != [] {
      FilterAll(rows[1..], p);
    }
  }

  lemma {:induction false} FilterNone(rows: seq<Row>, p: Row -> bool)
    requires forall r :: !p(r)
    ensures Filter(rows, p) == []
    decreases |rows|
  {
    if rows != [] {
      FilterNone(rows[1..], p);
    }
  }

  function Before(g: nat): Row -> bool {
    (r: Row) => Position(r.kind) < g
  }

  lemma {:induction false} GroupsDeclare(ids: map<string, string>, rows: seq<Row>, g: nat)
    requires g <= |GROUPS| && forall i :: 0 <= i < |rows| ==> rows[i].id in ids
    ensures multiset(Declared(Groups(ids, rows, g))) == multiset(Filter(rows, Before(g)))
    ensures Balanced(Groups(ids, rows, g), None)
    decreases g
  {
    hide GroupLines;
    hide Declared;
    hide Balanced;
    hide Filter;
    hide Position;
    if g == 0 {
      NothingDeclared(rows);
    } else {
      var front, last := Groups(ids, rows, g - 1), GroupLines(ids, rows, g - 1);
      GroupsDeclare(ids, rows, g - 1);
      GroupDeclares(ids, rows, g - 1);
      DeclaredConcat(front, last);
      BalancedConcat(front, last, None);
      forall r: Row ensures OfKind(GROUPS[g - 1].0)(r) <==> Position(r.kind) == g - 1 {
        KindsAreGrouped(r.kind, g - 1);
      }
      FilterSplits(rows, Before(g - 1), OfKind(GROUPS[g - 1].0), Before(g));
    }
  }

  lemma NothingDeclared(rows: seq<Row>)
    ensures Declared([]) == [] && Balanced([], None) && Filter(rows, Before(0)) == []
  {
    FilterNone(rows, Before(0));
  }

  lemma {:induction false} PlainLines(lines: seq<Line>)
    requires forall i :: 0 <= i < |lines| ==> lines[i].Header? || lines[i].ClassLine? || lines[i].EdgeLine?
    ensures Declared(lines) == [] && Balanced(lines, None)
    decreases |lines|
  {
    if lines != [] {
      PlainLines(lines[1..]);
    }
  }

  lemma {:induction false} EdgesArePlain(ids: map<string, string>, edges: seq<Edge>)
    ensures forall i :: 0 <= i < |EdgeLines(ids, edges)| ==> EdgeLines(ids, edges)[i].EdgeLine?
    decreases |edges|
  {
    hide KindNames;
    hide Join;
    if edges != [] {
      EdgesArePlain(ids, edges[..|edges| - 1]);
    }
  }

  /** Each component is declared once, in the one subgraph of its kind, and the subgraphs are balanced. */
  lemma EveryComponentIsDeclaredOnce(rows: seq<Row>, edges: seq<Edge>)
    ensures multiset(Declared(Diagram(rows, edges))) == multiset(rows)
    ensures Balanced(Diagram(rows, edges), None)
  {
    hide Groups;
    hide Declared;
    hide Balanced;
    hide EdgeLines;
    hide Filter;
    var ids := NodeIds(rows);
    hide NodeIds;
    RowsHaveIds(rows);
    GroupsDeclare(ids, rows, |GROUPS|);
    forall r: Row ensures Before(|GROUPS|)(r) {
      KindsAreGrouped(r.kind, 0);
    }
    FilterAll(rows, Before(|GROUPS|));
    EdgesArePlain(ids, edges);
    var groups, classes, links := Groups(ids, rows, |GROUPS|), ClassLines(ids, rows), EdgeLines(ids, edges);
    PlainLines(HEADERS);
    PlainLines(classes);
    PlainLines(links);
    DeclaredConcat(HEADERS + groups + classes, links);
    DeclaredConcat(HEADERS + groups, classes);
    DeclaredConcat(HEADERS, groups);
    BalancedConcat(HEADERS, groups, None);
    BalancedConcat(HEADERS + groups, classes, None);
    BalancedConcat(HEADERS + groups + classes, links, None);
  }

  ghost predicate DistinctIds(rows: seq<Row>) {
    forall i, j :: 0 <= i < j < |rows| ==> rows[i].id != rows[j].id
  }

  /** With distinct ids, component `i` is node `i`. */
  lemma {:induction false} NodeOfRow(rows: seq<Row>, i: nat)
    requires DistinctIds(rows) && i < |rows|
    ensures rows[i].id in NodeIds(rows) && NodeIds(rows)[rows[i].id] == NodeId(i)
    decreases |rows|
  {
    hide NodeId;
    if i < |rows| - 1 {
      NodeOfRow(rows[..|rows| - 1], i);
    }
  }

  /** The nodes given a style by class lines, in order. */
  function Classed(lines: seq<Line>): seq<(string, Style)> {
    if lines == [] then []
    else (if lines[0].ClassLine? then [(lines[0].node, lines[0].style)] else []) + Classed(lines[1..])
  }

  lemma {:induction false} ClassedConcat(a: seq<Line>, b: seq<Line>)
    ensures Classed(a + b) == Classed(a) + Classed(b)
    decreases |a|
  {
    if a == [] {
      assert a + b == b;
    } else {
      assert (a + b)[0] == a[0] && (a + b)[1..] == a[1..] + b;
      ClassedConcat(a[1..], b);
    }
  }

  lemma {:induction false} NoneClassed(lines: seq<Line>)
    requires forall i :: 0 <= i < |lines| ==> !lines[i].ClassLine?
    ensures Classed(lines) == []
    decreases |lines|
  {
    if lines != [] {
      NoneClassed(lines[1..]);
    }
  }

  lemma {:induction false} AllClassed(lines: seq<Line>)
    requires forall i :: 0 <= i < |lines| ==> lines[i].ClassLine?
    ensures |Classed(lines)| == |lines|
    ensures forall i :: 0 <= i < |lines| ==> Classed(lines)[i] == (lines[i].node, lines[i].style)
    decreases |lines|
  {
    if lines != [] {
      AllClassed(lines[1..]);
    }
  }

  /** A line of a group; a node line shows the component it declares. */
  ghost predicate FitsGroup(ids: map<string, string>, l: Line) {
    !l.ClassLine? && (l.NodeLine? ==> l.owner.id in ids && l == NodeOf(ids, l.owner))
  }

  lemma GroupLinesFit(ids: map<string, string>, rows: seq<Row>, g: nat)
    requires g < |GROUPS| && forall i :: 0 <= i < |rows| ==> rows[i].id in ids
    ensures forall i :: 0 <= i < |GroupLines(ids, rows, g)| ==> FitsGroup(ids, GroupLines(ids, rows, g)[i])
  {
    hide StableSort;
    hide Filter;
    hide Label;
    hide Join;
    SortedItems(ids, rows, OfKind(GROUPS[g].0));
  }

  lemma {:induction false} GroupsFit(ids: map<string, string>, rows: seq<Row>, g: nat)
    requires g <= |GROUPS| && forall i :: 0 <= i < |rows| ==> rows[i].id in ids
    ensures forall i :: 0 <= i < |Groups(ids, rows, g)| ==> FitsGroup(ids, Groups(ids, rows, g)[i])
    decreases g
  {
    hide GroupLines;
    hide FitsGroup;
    if g > 0 {
      GroupsFit(ids, rows, g - 1);
      GroupLinesFit(ids, rows, g - 1);
    }
  }

  /** The node line of component `i` carries the number, the id and the targets of component `i`. */
  lemma NodeLinesShowTheirComponents(rows: seq<Row>, edges: seq<Edge>, l: Line)
    requires l in Diagram(rows, edges) && l.NodeLine?
    ensures l.owner.id in NodeIds(rows) && l == NodeOf(NodeIds(rows), l.owner)
  {
    hide Groups;
    hide EdgeLines;
    hide NodeOf;
    var ids := NodeIds(rows);
    hide NodeIds;
    RowsHaveIds(rows);
    GroupsFit(ids, rows, |GROUPS|);
    EdgesArePlain(ids, edges);
    assert l in Groups(ids, rows, |GROUPS|);
  }

  /** With distinct ids, the class lines style component after component, each once and by its kind. */
  lemma EveryComponentIsClassedOnce(rows: seq<Row>, edges: seq<Edge>)
    requires DistinctIds(rows)
    ensures var styles := Classed(Diagram(rows, edges));
            |styles| == |rows| && forall i :: 0 <= i < |rows| ==> styles[i] == (NodeId(i), StyleOf(rows[i].kind))
  {
    hide Groups;
    hide EdgeLines;
    hide Classed;
    hide NodeOf;
    hide NodeId;
    hide StyleOf;
    hide DistinctIds;
    var ids := NodeIds(rows);
    hide NodeIds;
    RowsHaveIds(rows);
    GroupsFit(ids, rows, |GROUPS|);
    EdgesArePlain(ids, edges);
    var groups, classes, links := Groups(ids, rows, |GROUPS|), ClassLines(ids, rows), EdgeLines(ids, edges);
    NoneClassed(HEADERS);
    NoneClassed(groups);
    AllClassed(classes);
    NoneClassed(links);
    ClassedConcat(HEADERS + groups + classes, links);
    ClassedConcat(HEADERS + groups, classes);
    ClassedConcat(HEADERS, groups);
    assert Classed(Diagram(rows, edges)) == Classed(classes);
    forall i | 0 <= i < |rows| ensures Classed(classes)[i] == (NodeId(i), StyleOf(rows[i].kind)) {
      NodeOfRow(rows, i);
    }
  }

  ghost predicate EndsListed(ids: map<string, string>, e: Edge) {
    e.source in ids && e.target in ids
  }

  /** Every edge is drawn, in order, exactly when both ends of every edge are components. */
  lemma {:induction false} EveryEdgeIsDrawnIff(ids: map<string, string>, edges: seq<Edge>)
    ensures |EdgeLines(ids, edges)| <= |edges|
    ensures |EdgeLines(ids, edges)| == |edges| <==> forall i :: 0 <= i < |edges| ==> EndsListed(ids, edges[i])
    ensures (forall i :: 0 <= i < |edges| ==> EndsListed(ids, edges[i])) ==>
              forall i :: 0 <= i < |edges| ==>
                EdgeLines(ids, edges)[i] ==
                EdgeLine(ids[edges[i].source], Join(KindNames(edges[i].data.kinds), " + "), ids[edges[i].target])
    decreases |edges|
  {
    hide KindNames;
    hide Join;
    if edges != [] {
      var front := edges[..|edges| - 1];
      EveryEdgeIsDrawnIff(ids, front);
      assert forall i :: 0 <= i < |front| ==> edges[i] == front[i];
    }
  }

  /** Edge lines of different node pairs read differently, whatever their captions. */
  lemma EdgeLinesReadDifferently(i: nat, j: nat, k: nat, l: nat, c: string, d: string)
    ensures Show(EdgeLine(NodeId(i), c, NodeId(j))) == Show(EdgeLine(NodeId(k), d, NodeId(l))) ==> i == k && j == l
  {
    hide NodeId;
    hide Label;
    NodeIdsAreDistinct(i, k);
    NodeIdsAreDistinct(j, l);
    NodeIdsAreDistinct(k, i);
    NodeIdsAreDistinct(l, j);
    var s, t := Show(EdgeLine(NodeId(i), c, NodeId(j))), Show(EdgeLine(NodeId(k), d, NodeId(l)));
    if s == t {
      FirstWord("  ", NodeId(i), " -->|\"" + Label(c) + "\"| " + NodeId(j), NodeId(k),
          " -->|\"" + Label(d) + "\"| " + NodeId(l), s);
      LastWord("  " + NodeId(i) + " -->|\"" + Label(c) + "\"|", NodeId(j),
          "  " + NodeId(k) + " -->|\"" + Label(d) + "\"|", NodeId(l), s);
    }
  }

  lemma FirstWord(p: string, a: string, x: string, b: string, y: string, s: string)
    requires s == p + a + x && s == p + b + y && x != "" && y != "" && x[0] == ' ' && y[0] == ' '
    requires (forall k :: 0 <= k < |a| ==> a[k] != ' ') && forall k :: 0 <= k < |b| ==> b[k] != ' '
    ensures a == b
  {
    assert s[|p| + |a|] == ' ' && s[|p| + |b|] == ' ';
    assert forall k :: 0 <= k < |a| ==> s[|p| + k] == a[k];
    assert forall k :: 0 <= k < |b| ==> s[|p| + k] == b[k];
    assert |a| == |b|;
    assert a == s[|p|..|p| + |a|] == b;
  }

  lemma LastWord(x: string, a: string, y: string, b: string, s: string)
    requires s == x + " " + a && s == y + " " + b
    requires (forall k :: 0 <= k < |a| ==> a[k] != ' ') && forall k :: 0 <= k < |b| ==> b[k] != ' '
    ensures a == b
  {
    assert s[|x|] == ' ' && s[|y|] == ' ';
    assert forall k :: 0 <= k < |a| ==> s[|x| + 1 + k] == a[k];
    assert forall k :: 0 <= k < |b| ==> s[|y| + 1 + k] == b[k];
    assert |x| == |y|;
    assert a == s[|x| + 1..] == b;
  }
}

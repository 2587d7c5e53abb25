/** What the lines of a diagram say about its components and edges, letter by letter. */
module MermaidWords {
  import opened Text
  import opened TextLaws
  import opened Components
  import opened GraphTables
  import opened MermaidRenderer

  /** The number in decimal, filled up with zeros to the width. */
  ghost predicate IsPaddedNumber(s: string, n: nat, width: nat) {
    && |s| >= width && s != "" && Value(s) == n && (|s| > width && |s| > 1 ==> s[0] != '0')
    && forall i :: 0 <= i < |s| ==> '0' <= s[i] <= '9'
  }

  lemma PaddedIs(n: nat, width: nat)
    ensures IsPaddedNumber(Padded(n, width), n, width)
  {
    hide Decimal;
    hide Value;
    var d := Decimal(n);
    var k := if |d| < width then width - |d| else 0;
    ValueOfDecimal(n);
    DecimalIsNumeral(n);
    ValueIgnoresZeros(k, d);
    assert Padded(n, width) == seq(k, _ => '0') + d;
  }

  /** The node of component number `i`. */
  ghost predicate IsNode(node: string, i: nat) {
    node != "" && node[0] == 'n' && IsPaddedNumber(node[1..], i, 3)
  }

  lemma NodeIs(i: nat)
    ensures IsNode(NodeId(i), i)
  {
    hide Padded;
    hide IsPaddedNumber;
    PaddedIs(i, 3);
    assert NodeId(i)[1..] == Padded(i, 3);
  }

  /** The text with double quotes made single and line breaks made blanks. */
  ghost predicate IsLabelOf(shown: string, text: string) {
    |shown| == |text| && forall i :: 0 <= i < |text| ==>
      shown[i] == if text[i] == '"' then '\'' else if text[i] == '\n' then ' ' else text[i]
  }

  /** A component's id and, if it has any, its targets. */
  function Caption(r: Row): string {
    if Join(r.targets, ", ") == "" then r.id else r.id + ("<br/>" + Join(r.targets, ", "))
  }

  lemma CaptionIs(ids: map<string, string>, r: Row)
    requires r.id in ids
    ensures IsLabelOf(NodeOf(ids, r).caption, Caption(r))
  {
    hide Join;
    var targets := Join(r.targets, ", ");
    var detail := if targets != "" then "<br/>" + targets else "";
    assert Label(r.id) + Label(detail) == Label(r.id + detail);
    assert r.id + "" == r.id;
  }

  ghost predicate IsStyleWord(k: Kind, word: string) {
    match k
    case Application => word == "application"
    case Library => word == "library"
    case Test => word == "test"
    case _ => word == "support"
  }

  lemma StyleIs(k: Kind)
    ensures IsStyleWord(k, StyleName(StyleOf(k)))
  {
  }

  lemma {:induction false} DeclaredHasLine(lines: seq<Line>, r: Row)
    requires r in Declared(lines)
    ensures exists l :: l in lines && l.NodeLine? && l.owner == r
    decreases |lines|
  {
    if lines[0].NodeLine? && lines[0].owner == r {
      assert lines[0] in lines;
    } else {
      DeclaredHasLine(lines[1..], r);
    }
  }

  lemma ShownInText(lines: seq<Line>, l: Line)
    requires l in lines
    ensures Show(l) in ShowAll(lines)
  {
    hide Show;
    var i :| 0 <= i < |lines| && lines[i] == l;
    assert ShowAll(lines)[i] == Show(l);
  }

  /** With distinct ids, component number `i` has a line that shows its id and its targets at node `i`, and
      a line that gives that node the style of its kind. */
  lemma ComponentLines(rows: seq<Row>, edges: seq<Edge>, i: nat) returns (node: string, caption: string, word: string)
    requires DistinctIds(rows) && i < |rows|
    ensures IsNode(node, i) && IsLabelOf(caption, Caption(rows[i])) && IsStyleWord(rows[i].kind, word)
    ensures "    " + node + "[\"" + caption + "\"]" in ShowAll(Diagram(rows, edges))
    ensures "  class " + node + " " + word in ShowAll(Diagram(rows, edges))
  {
    hide Diagram;
    hide NodeId;
    hide IsNode;
    hide IsLabelOf;
    hide IsStyleWord;
    hide Caption;
    hide StyleName;
    hide Declared;
    hide Balanced;
    hide ShowAll;
    hide NodeOf;
    var ids := NodeIds(rows);
    hide NodeIds;
    NodeIs(i);
    NodeOfRow(rows, i);
    StyleIs(rows[i].kind);
    EveryComponentIsDeclaredOnce(rows, edges);
    assert rows[i] in multiset(rows);
    DeclaredHasLine(Diagram(rows, edges), rows[i]);
    var l :| l in Diagram(rows, edges) && l.NodeLine? && l.owner == rows[i];
    NodeLinesShowTheirComponents(rows, edges, l);
    CaptionIs(ids, rows[i]);
    NodeLineOf(ids, rows[i]);
    ShownInText(Diagram(rows, edges), l);
    ClassLineStands(rows, edges, i);
    ShownInText(Diagram(rows, edges), ClassLine(NodeId(i), StyleOf(rows[i].kind)));
    node, caption, word := l.node, l.caption, StyleName(StyleOf(rows[i].kind));
  }

  lemma ClassLineStands(rows: seq<Row>, edges: seq<Edge>, i: nat)
    requires DistinctIds(rows) && i < |rows|
    ensures ClassLine(NodeId(i), StyleOf(rows[i].kind)) in Diagram(rows, edges)
  {
    hide Groups;
    hide EdgeLines;
    hide NodeId;
    hide StyleOf;
    var ids := NodeIds(rows);
    hide NodeIds;
    RowsHaveIds(rows);
    NodeOfRow(rows, i);
    assert ClassLines(ids, rows)[i] == ClassLine(NodeId(i), StyleOf(rows[i].kind));
    assert ClassLines(ids, rows)[i] in ClassLines(ids, rows);
  }

  /** How an edge is labelled: by what it is there for, includes before links. */
  ghost predicate IsEdgeWord(kinds: set<EdgeKind>, word: string) {
    && (IncludeEdge in kinds && LinkEdge !in kinds ==> word == "include")
    && (IncludeEdge !in kinds && LinkEdge in kinds ==> word == "link")
    && (IncludeEdge in kinds && LinkEdge in kinds ==> word == "include + link")
    && (IncludeEdge !in kinds && LinkEdge !in kinds ==> word == "")
  }

  lemma EdgeWordIs(kinds: set<EdgeKind>)
    ensures IsEdgeWord(kinds, Label(Join(KindNames(kinds), " + ")))
  {
    assert Join(["include", "link"], " + ") == "include" + " + " + "link" == "include + link" by {
      assert ["include", "link"][1..] == ["link"];
    }
    assert Label("include") == "include" && Label("link") == "link" && Label("") == "";
    assert Label("include + link") == "include + link";
  }

  lemma {:induction false} EdgeLineStands(ids: map<string, string>, edges: seq<Edge>, e: Edge)
    requires e in edges && e.source in ids && e.target in ids
    ensures EdgeLine(ids[e.source], Join(KindNames(e.data.kinds), " + "), ids[e.target]) in EdgeLines(ids, edges)
    decreases |edges|
  {
    hide KindNames;
    hide Join;
    var front, last := edges[..|edges| - 1], edges[|edges| - 1];
    assert edges == front + [last];
    if e != last {
      EdgeLineStands(ids, front, e);
    }
  }

  /** An edge from component `a` to component `b` has a line from node `a` to node `b` that says what it is
      there for. */
  lemma EdgeLineSays(rows: seq<Row>, edges: seq<Edge>, e: Edge, a: nat, b: nat)
    returns (source: string, word: string, target: string)
    requires DistinctIds(rows) && a < |rows| && b < |rows|
    requires e in edges && e.source == rows[a].id && e.target == rows[b].id
    ensures IsNode(source, a) && IsNode(target, b) && IsEdgeWord(e.data.kinds, word)
    ensures "  " + source + " -->|\"" + word + "\"| " + target in ShowAll(Diagram(rows, edges))
  {
    hide Groups;
    hide EdgeLines;
    hide NodeId;
    hide IsNode;
    hide IsEdgeWord;
    hide KindNames;
    hide Join;
    hide Label;
    hide ShowAll;
    hide DistinctIds;
    var ids := NodeIds(rows);
    hide NodeIds;
    RowsHaveIds(rows);
    NodeIs(a);
    NodeIs(b);
    NodeOfRow(rows, a);
    NodeOfRow(rows, b);
    EdgeWordIs(e.data.kinds);
    EdgeLineStands(ids, edges, e);
    var caption := Join(KindNames(e.data.kinds), " + ");
    var l := EdgeLine(NodeId(a), caption, NodeId(b));
    assert l in Diagram(rows, edges);
    ShownInText(Diagram(rows, edges), l);
    source, word, target := NodeId(a), Label(caption), NodeId(b);
  }

  /** A subgraph line shows its number and its title. */
  lemma SubgraphSays(index: nat, caption: string) returns (number: string, shown: string)
    ensures IsPaddedNumber(number, index, 2) && IsLabelOf(shown, caption)
    ensures Show(Subgraph(index, caption)) == "  subgraph g" + number + "[\"" + shown + "\"]"
    ensures Show(EndLine) == "  end"
  {
    hide Padded;
    hide IsPaddedNumber;
    PaddedIs(index, 2);
    number, shown := Padded(index, 2), Label(caption);
  }

  /** A style's definition: its name, fill, stroke and text colour. */
  function Definition(name: string, fill: string, stroke: string, color: string): string {
    "  classDef " + (name + (" fill:" + (fill + (",stroke:" + (stroke + (",color:" + color))))))
  }

  lemma DefinitionIs(name: string, fill: string, stroke: string, color: string)
    ensures Show(ClassDef(name, fill, stroke, color)) == Definition(name, fill, stroke, color)
  {
    var t := (",color:" + color);
    assert ("  classDef " + name + " fill:" + fill + ",stroke:" + stroke) + ",color:" + color ==
           ("  classDef " + name + " fill:" + fill) + (",stroke:" + (stroke + t));
    assert ("  classDef " + name + " fill:" + fill) + (",stroke:" + (stroke + t)) ==
           "  classDef " + (name + (" fill:" + (fill + (",stroke:" + (stroke + t)))));
  }

  /** The diagram opens with its direction and defines each of the four styles that class lines use. */
  lemma StylesAreDefined(rows: seq<Row>, edges: seq<Edge>)
    ensures HEADERS <= Diagram(rows, edges) && |HEADERS| == 5 && Show(HEADERS[0]) == "flowchart LR"
    ensures Show(HEADERS[1]) == Definition("application", "#dbeafe", "#2563eb", "#172554")
    ensures Show(HEADERS[2]) == Definition("library", "#dcfce7", "#16a34a", "#052e16")
    ensures Show(HEADERS[3]) == Definition("test", "#fef3c7", "#d97706", "#451a03")
    ensures Show(HEADERS[4]) == Definition("support", "#f3e8ff", "#9333ea", "#3b0764")
  {
    hide Definition;
    hide ClassDef;
    hide Groups;
    hide EdgeLines;
    DefinitionIs("application", "#dbeafe", "#2563eb", "#172554");
    DefinitionIs("library", "#dcfce7", "#16a34a", "#052e16");
    DefinitionIs("test", "#fef3c7", "#d97706", "#451a03");
    DefinitionIs("support", "#f3e8ff", "#9333ea", "#3b0764");
  }
}

/** The diagram as text: what is printed can be read back line by line, whatever characters the names of
    components and targets hold. */
module MermaidText {
  import opened Text
  import opened TextLaws
  import opened MermaidRenderer
  import opened StableSorting

  /** The text between line breaks. */
  function Pieces(text: string): seq<string>
    decreases |text|
  {
    var k := IndexFrom(text, '\n', 0);
    if k == |text| then [text] else [text[..k]] + Pieces(text[k + 1..])
  }

  predicate OneLine(s: string) {
    '\n' !in s
  }

  lemma PiecesOf(line: string, rest: string)
    requires OneLine(line)
    ensures Pieces(line + "\n" + rest) == [line] + Pieces(rest)
  {
    hide Pieces;
    var text := line + "\n" + rest;
    assert text[|line|] == '\n' && forall i :: 0 <= i < |line| ==> text[i] == line[i];
    assert IndexFrom(text, '\n', 0) == |line|;
    assert text[..|line|] == line && text[|line| + 1..] == rest;
    PiecesUnfold(text);
  }

  lemma PiecesUnfold(text: string)
    ensures var k := IndexFrom(text, '\n', 0);
            Pieces(text) == if k == |text| then [text] else [text[..k]] + Pieces(text[k + 1..])
  {
    hide IndexFrom;
  }

  lemma {:induction false} PiecesOfJoined(lines: seq<string>)
    requires lines != [] && forall i :: 0 <= i < |lines| ==> OneLine(lines[i])
    ensures Pieces(Join(lines, "\n") + "\n") == lines + [""]
    decreases |lines|
  {
    hide Pieces;
    hide OneLine;
    var rest := lines[1..];
    PiecesUnfold("");
    if rest == [] {
      PiecesOf(lines[0], "");
      assert lines[0] + "\n" + "" == Join(lines, "\n") + "\n";
    } else {
      PiecesOfJoined(rest);
      PiecesOf(lines[0], Join(rest, "\n") + "\n");
      assert lines[0] + "\n" + (Join(rest, "\n") + "\n") == Join(lines, "\n") + "\n";
    }
    assert [lines[0]] + (rest + [""]) == lines + [""];
  }

  /** Labels hold neither line breaks nor double quotes. */
  lemma LabelIsClean(value: string)
    ensures OneLine(Label(value)) && '"' !in Label(value)
  {
    var t := Label(value);
    assert forall i :: 0 <= i < |t| ==> t[i] != '\n' && t[i] != '"';
  }

  predicate IsNodeName(s: string) {
    OneLine(s) && '"' !in s
  }

  lemma NodeIdIsName(index: nat)
    ensures IsNodeName(NodeId(index))
  {
    PaddedIsName(index, 3);
    assert "n"[0] == 'n';
  }

  lemma PaddedIsName(n: nat, width: nat)
    ensures IsNodeName(Padded(n, width))
  {
    ValueOfDecimal(n);
    var d := Decimal(n);
    assert forall i :: 0 <= i < |d| ==> d[i] != '\n' && d[i] != '"';
  }

  lemma {:induction false} NodeIdsAreNames(rows: seq<Row>)
    ensures forall id :: id in NodeIds(rows) ==> IsNodeName(NodeIds(rows)[id])
    decreases |rows|
  {
    hide NodeId;
    hide IsNodeName;
    if rows != [] {
      NodeIdsAreNames(rows[..|rows| - 1]);
      NodeIdIsName(|rows| - 1);
    }
  }

  /** A line of the diagram whose parts hold no line break, nor a quote where one would end them early. */
  predicate IsClean(l: Line) {
    match l
    case Header(text) => OneLine(text)
    case Subgraph(_, caption) => true
    case NodeLine(node, caption, _) => IsNodeName(node) && OneLine(caption) && '"' !in caption
    case EndLine => true
    case ClassLine(node, _) => IsNodeName(node)
    case EdgeLine(source, _, target) => IsNodeName(source) && IsNodeName(target)
  }

  lemma HeadersAreClean()
    ensures forall i :: 0 <= i < |HEADERS| ==> IsClean(HEADERS[i])
  {
    hide IsClean;
    hide ClassDef;
    HeaderIsClean("flowchart LR");
    ClassDefIsClean("application", "#dbeafe", "#2563eb", "#172554");
    ClassDefIsClean("library", "#dcfce7", "#16a34a", "#052e16");
    ClassDefIsClean("test", "#fef3c7", "#d97706", "#451a03");
    ClassDefIsClean("support", "#f3e8ff", "#9333ea", "#3b0764");
  }

  lemma HeaderIsClean(text: string)
    requires OneLine(text)
    ensures IsClean(Header(text))
  {
  }

  lemma ClassDefIsClean(name: string, fill: string, stroke: string, color: string)
    requires OneLine(name) && OneLine(fill) && OneLine(stroke) && OneLine(color)
    ensures IsClean(ClassDef(name, fill, stroke, color))
  {
  }

  lemma NodeLinesAreClean(ids: map<string, string>, r: Row)
    requires r.id in ids && IsNodeName(ids[r.id])
    ensures IsClean(NodeOf(ids, r))
  {
    hide Label;
    hide Join;
    var targets := Join(r.targets, ", ");
    var detail := if targets != "" then "<br/>" + targets else "";
    LabelIsClean(r.id);
    LabelIsClean(detail);
  }

  /** A line that a group can hold. */
  ghost predicate IsGroupLine(ids: map<string, string>, l: Line) {
    l.Subgraph? || l.EndLine? || (l.NodeLine? && l.owner.id in ids && l == NodeOf(ids, l.owner))
  }

  lemma GroupHoldsGroupLines(ids: map<string, string>, rows: seq<Row>, g: nat)
    requires g < |GROUPS| && forall i :: 0 <= i < |rows| ==> rows[i].id in ids
    ensures forall i :: 0 <= i < |GroupLines(ids, rows, g)| ==> IsGroupLine(ids, GroupLines(ids, rows, g)[i])
  {
    hide StableSort;
    hide Filter;
    hide Label;
    hide Join;
    SortedItems(ids, rows, OfKind(GROUPS[g].0));
  }

  lemma {:induction false} GroupsAreClean(ids: map<string, string>, rows: seq<Row>, g: nat)
    requires g <= |GROUPS| && forall i :: 0 <= i < |rows| ==> rows[i].id in ids
    requires forall id :: id in ids ==> IsNodeName(ids[id])
    ensures forall i :: 0 <= i < |Groups(ids, rows, g)| ==> IsClean(Groups(ids, rows, g)[i])
    decreases g
  {
    hide GroupLines;
    hide IsNodeName;
    hide NodeOf;
    hide IsClean;
    if g > 0 {
      var last := GroupLines(ids, rows, g - 1);
      GroupsAreClean(ids, rows, g - 1);
      GroupHoldsGroupLines(ids, rows, g - 1);
      forall i | 0 <= i < |last| ensures IsClean(last[i]) {
        GroupLineIsClean(ids, last[i]);
      }
    }
  }

  lemma GroupLineIsClean(ids: map<string, string>, l: Line)
    requires IsGroupLine(ids, l) && forall id :: id in ids ==> IsNodeName(ids[id])
    ensures IsClean(l)
  {
    hide NodeOf;
    if l.NodeLine? {
      NodeLinesAreClean(ids, l.owner);
    }
  }

  lemma {:induction false} EdgesAreClean(ids: map<string, string>, edges: seq<Edge>)
    requires forall id :: id in ids ==> IsNodeName(ids[id])
    ensures forall i :: 0 <= i < |EdgeLines(ids, edges)| ==> IsClean(EdgeLines(ids, edges)[i])
    decreases |edges|
  {
    hide IsNodeName;
    hide KindNames;
    hide Join;
    if edges != [] {
      EdgesAreClean(ids, edges[..|edges| - 1]);
    }
  }

  lemma DiagramIsClean(rows: seq<Row>, edges: seq<Edge>)
    ensures forall i :: 0 <= i < |Diagram(rows, edges)| ==> IsClean(Diagram(rows, edges)[i])
    ensures Diagram(rows, edges) != []
  {
    hide Groups;
    hide EdgeLines;
    hide IsNodeName;
    hide StyleOf;
    var ids := NodeIds(rows);
    hide NodeIds;
    RowsHaveIds(rows);
    NodeIdsAreNames(rows);
    HeadersAreClean();
    GroupsAreClean(ids, rows, |GROUPS|);
    EdgesAreClean(ids, edges);
  }

  lemma CleanShows(l: Line)
    requires IsClean(l)
    ensures OneLine(Show(l))
  {
    hide Label;
    hide Padded;
    match l
    case Subgraph(index, caption) =>
      PaddedIsName(index, 2);
      LabelIsClean(caption);
    case EdgeLine(_, caption, _) => LabelIsClean(caption);
    case _ =>
  }

  /** The diagram's text splits back into exactly its lines. */
  lemma TextIsItsLines(rows: seq<Row>, edges: seq<Edge>)
    ensures Pieces(Join(ShowAll(Diagram(rows, edges)), "\n") + "\n") == ShowAll(Diagram(rows, edges)) + [""]
  {
    hide Diagram;
    hide Pieces;
    hide Join;
    hide Show;
    hide OneLine;
    hide IsClean;
    var lines := Diagram(rows, edges);
    DiagramIsClean(rows, edges);
    forall i | 0 <= i < |lines| ensures OneLine(ShowAll(lines)[i]) {
      CleanShows(lines[i]);
    }
    PiecesOfJoined(ShowAll(lines));
  }

  /** In a node line the text between the first quote and the last two characters is the caption, whatever
      the names of the component and its targets, and what precedes it names the node. */
  lemma NodeLineReadsBack(rows: seq<Row>, edges: seq<Edge>, l: Line)
    requires l in Diagram(rows, edges) && l.NodeLine?
    ensures var t := Show(l);
            var k := IndexFrom(t, '"', 0);
            && 5 <= k < |t| - 2 && t[4..k - 1] == l.node && t[k + 1..|t| - 2] == l.caption && '"' !in l.caption
  {
    hide Diagram;
    DiagramIsClean(rows, edges);
    var i :| 0 <= i < |Diagram(rows, edges)| && Diagram(rows, edges)[i] == l;
    assert IsClean(l);
    QuotedReadsBack(l.node, l.caption);
  }

  lemma QuotedReadsBack(node: string, caption: string)
    requires '"' !in node
    ensures var t := "    " + node + "[\"" + caption + "\"]";
            var k := |node| + 5;
            IndexFrom(t, '"', 0) == k && k < |t| - 2 && t[4..k - 1] == node && t[k + 1..|t| - 2] == caption
  {
    var t, k := "    " + node + "[\"" + caption + "\"]", |node| + 5;
    assert t[k] == '"' && t[k - 1] == '[';
    forall i | 0 <= i < k ensures t[i] != '"' {
      if 4 <= i < k - 1 {
        assert t[i] == node[i - 4];
      }
    }
    assert IndexFrom(t, '"', 0) == k;
  }
}

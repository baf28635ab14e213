/** The snapshot tool itself: from the node list to the text lines and the table of references. */
module Outline {
  import opened Runs
  import opened Forests
  import opened Snapshot
  import opened Boxes
  import Find
  import Numerals
  import Refs

  // ----- the node list as a tree

  /** The map has exactly the ids of the listed nodes, and for each the last node with it. */
  ghost predicate Files(nodes: seq<AxNode>, byId: map<string, AxNode>) {
    && (forall i :: 0 <= i < |nodes| ==> nodes[i].id in byId)
    && (forall id :: id in byId ==> exists i :: LastWithId(nodes, i, id) && byId[id] == nodes[i])
  }

  ghost predicate LastWithId(nodes: seq<AxNode>, i: int, id: string) {
    0 <= i < |nodes| && nodes[i].id == id && forall j :: i < j < |nodes| ==> nodes[j].id != id
  }

  /** The loop that files the nodes under their ids. */
  method FileNodes(nodes: seq<AxNode>) returns (byId: map<string, AxNode>)
    ensures Files(nodes, byId)
  {
    byId := map[];
    for i := 0 to |nodes|
      invariant Files(nodes[..i], byId)
    {
      FiledOneMore(nodes[..i], byId, nodes[i]);
      assert nodes[..i + 1] == nodes[..i] + [nodes[i]];
      byId := byId[nodes[i].id := nodes[i]];
    }
    assert nodes[..|nodes|] == nodes;
  }

  lemma FiledOneMore(nodes: seq<AxNode>, byId: map<string, AxNode>, node: AxNode)
    requires Files(nodes, byId)
    ensures Files(nodes + [node], byId[node.id := node])
  {
    var more, after := nodes + [node], byId[node.id := node];
    forall id | id in after ensures exists i :: LastWithId(more, i, id) && after[id] == more[i] {
      if id == node.id {
        assert LastWithId(more, |nodes|, id);
      } else {
        var i :| LastWithId(nodes, i, id) && byId[id] == nodes[i];
        assert LastWithId(more, i, id);
      }
    }
  }

  /** No listed node is its own descendant: child ids only lead to listed nodes of lower rank. */
  ghost predicate Ranked(nodes: seq<AxNode>, rank: string -> nat) {
    forall i, j :: 0 <= i < |nodes| && 0 <= j < |nodes| && nodes[j].id in nodes[i].childIds ==> rank(nodes[j].id) < rank(nodes[i].id)
  }

  lemma RankedIsAcyclic(nodes: seq<AxNode>, byId: map<string, AxNode>, rank: string -> nat)
    requires Files(nodes, byId) && Ranked(nodes, rank)
    ensures Acyclic(byId, rank)
    ensures forall i :: 0 <= i < |nodes| ==> Under(byId, rank, nodes[i].childIds, rank(nodes[i].id))
  {
    forall i, child | 0 <= i < |nodes| && child in nodes[i].childIds && child in byId ensures rank(child) < rank(nodes[i].id) {
      var j :| LastWithId(nodes, j, child) && byId[child] == nodes[j];
    }
    forall id, child | id in byId && child in byId[id].childIds && child in byId ensures rank(child) < rank(id) {
      var i :| LastWithId(nodes, i, id) && byId[id] == nodes[i];
    }
  }

  /** Child references only go to lower ranks, so the graph has no cycle. */
  ghost predicate Acyclic(byId: map<string, AxNode>, rank: string -> nat) {
    forall id, child :: id in byId && child in byId[id].childIds && child in byId ==> rank(child) < rank(id)
  }

  ghost predicate Under(byId: map<string, AxNode>, rank: string -> nat, ids: seq<string>, height: nat) {
    forall id :: id in ids && id in byId ==> rank(id) < height
  }

  /** The trees below a list of child ids; ids without a node are skipped. */
  ghost function Unfold(byId: map<string, AxNode>, rank: string -> nat, ids: seq<string>, height: nat): seq<Tree>
    requires Acyclic(byId, rank) && Under(byId, rank, ids, height)
    decreases height, |ids|
  {
    if ids == [] then []
    else
      assert forall id :: id in ids[1..] ==> id in ids;
      var rest := Unfold(byId, rank, ids[1..], height);
      if ids[0] !in byId then rest
      else
        var node := byId[ids[0]];
        [Tree(node, Unfold(byId, rank, node.childIds, rank(ids[0])))] + rest
  }

  lemma {:induction false} UnfoldAppend(byId: map<string, AxNode>, rank: string -> nat, ids: seq<string>, id: string, height: nat)
    requires Acyclic(byId, rank) && Under(byId, rank, ids + [id], height)
    ensures Under(byId, rank, ids, height)
    ensures Unfold(byId, rank, ids + [id], height) == Unfold(byId, rank, ids, height) +
            (if id in byId then [Tree(byId[id], Unfold(byId, rank, byId[id].childIds, rank(id)))] else [])
    decreases |ids|
  {
    assert forall x :: x in ids ==> x in ids + [id];
    assert id in ids + [id];
    if ids != [] {
      assert (ids + [id])[1..] == ids[1..] + [id];
      UnfoldAppend(byId, rank, ids[1..], id, height);
    }
  }

  /** The nodes that the ids lead to, in order; an id without a node leads nowhere. */
  ghost function Present(byId: map<string, AxNode>, ids: seq<string>): seq<AxNode> {
    if ids == [] then [] else (if ids[0] in byId then [byId[ids[0]]] else []) + Present(byId, ids[1..])
  }

  ghost function Roots(ts: seq<Tree>): seq<AxNode> {
    seq(|ts|, i requires 0 <= i < |ts| => ts[i].node)
  }

  /** Below every node of the tree are exactly the nodes that its child ids lead to, in order. */
  ghost predicate Complete(byId: map<string, AxNode>, t: Tree) {
    Roots(t.kids) == Present(byId, t.node.childIds) && forall i :: 0 <= i < |t.kids| ==> Complete(byId, t.kids[i])
  }

  lemma {:induction false} UnfoldIsComplete(byId: map<string, AxNode>, rank: string -> nat, ids: seq<string>, height: nat)
    requires Acyclic(byId, rank) && Under(byId, rank, ids, height)
    ensures Roots(Unfold(byId, rank, ids, height)) == Present(byId, ids)
    ensures forall i :: 0 <= i < |Unfold(byId, rank, ids, height)| ==> Complete(byId, Unfold(byId, rank, ids, height)[i])
    decreases height, |ids|
  {
    if ids != [] {
      assert forall id :: id in ids[1..] ==> id in ids;
      UnfoldIsComplete(byId, rank, ids[1..], height);
      if ids[0] in byId {
        var node := byId[ids[0]];
        UnfoldIsComplete(byId, rank, node.childIds, rank(ids[0]));
        assert Complete(byId, Tree(node, Unfold(byId, rank, node.childIds, rank(ids[0]))));
      }
    }
  }

  /** And nothing else is there. */
  lemma {:induction false} OnlyChildrenThere(byId: map<string, AxNode>, ids: seq<string>, x: AxNode)
    requires x in Present(byId, ids)
    ensures exists id :: id in ids && id in byId && byId[id] == x
  {
    assert ids == [ids[0]] + ids[1..];
    if ids[0] !in byId || x != byId[ids[0]] {
      OnlyChildrenThere(byId, ids[1..], x);
      var id :| id in ids[1..] && id in byId && byId[id] == x;
      assert id in ids;
    }
  }

  /** A child id of a tree's root that leads to a node has that node among the root's kids. */
  lemma {:induction false} ChildIsThere(byId: map<string, AxNode>, ids: seq<string>, id: string)
    requires id in ids && id in byId
    ensures byId[id] in Present(byId, ids)
  {
    if ids[0] != id {
      assert ids == [ids[0]] + ids[1..];
      ChildIsThere(byId, ids[1..], id);
    }
  }

  lemma {:induction false} RenderedAppend(a: seq<Tree>, b: seq<Tree>, indent: nat, depth: nat, limit: int)
    ensures Rendered(a + b, indent, depth, limit) == Rendered(a, indent, depth, limit) + Rendered(b, indent, depth, limit)
  {
    if a == [] {
      assert a + b == b;
    } else {
      RenderedAppend(a[1..], b, indent, depth, limit);
      assert (a + b)[1..] == a[1..] + b;
      Assoc(FirstRendered(a[0], indent, depth, limit), Rendered(a[1..], indent, depth, limit), Rendered(b, indent, depth, limit));
    }
  }

  lemma OneRendered(t: Tree, indent: nat, depth: nat, limit: int)
    ensures Rendered([t], indent, depth, limit) == FirstRendered(t, indent, depth, limit)
  {
    assert [t][1..] == [];
    assert FirstRendered(t, indent, depth, limit) + [] == FirstRendered(t, indent, depth, limit);
  }

  // ----- one line of text

  function Spaces(n: nat): string {
    if n == 0 then "" else "  " + Spaces(n - 1)
  }

  const SHOWN: set<string> := {"checked", "disabled", "expanded", "focused", "pressed", "readonly", "required", "selected"}

  /** How one property is shown, if at all. */
  function Property(property: (string, string)): string {
    var (name, value) := property;
    if name in SHOWN && value != "" && value != "false"
    then " [" + name + (if value != "true" then "=" + value else "") + "]" else ""
  }

  function Properties(properties: seq<(string, string)>): string {
    if properties == [] then "" else Properties(properties[..|properties| - 1]) + Property(properties[|properties| - 1])
  }

  function RoleText(node: AxNode): string {
    if node.role == "" then "generic" else node.role
  }

  function NameText(node: AxNode, quote: string -> string): string {
    if node.name != "" then " " + quote(node.name) else ""
  }

  function RefText(node: AxNode, earlier: nat): string {
    if node.backend != 0 then " [ref=" + Refs.RefName(earlier) + "]" else ""
  }

  function ValueText(node: AxNode, quote: string -> string): string {
    if node.value != "" && node.value != node.name then " " + quote(node.value) else ""
  }

  function BoxText(box: string): string {
    if box != "" then " " + box else ""
  }

  /** The text from the dash on of a node that comes after `earlier` nodes with a reference. */
  function Body(node: AxNode, earlier: nat, box: string, quote: string -> string): string {
    "- " + RoleText(node) + NameText(node, quote) + RefText(node, earlier) + ValueText(node, quote) + Properties(node.properties)
    + BoxText(box)
  }

  /** The backend ids of the rows that have one, in order. */
  function Backends(rows: seq<Row<AxNode>>): seq<int> {
    if rows == [] then []
    else
      Backends(rows[..|rows| - 1]) + (if rows[|rows| - 1].item.backend != 0 then [rows[|rows| - 1].item.backend] else [])
  }

  function BoxOf(boxes: map<int, string>, backend: int): string {
    if backend in boxes then boxes[backend] else ""
  }

  /** The line of a row that comes after `earlier` rows with a reference. */
  function LineOf(row: Row<AxNode>, earlier: nat, boxes: map<int, string>, quote: string -> string): string {
    Spaces(row.indent) + Body(row.item, earlier, BoxOf(boxes, row.item.backend), quote)
  }

  /** The line as `render` builds it, appending part after part. */
  method BuildLine(node: AxNode, indent: nat, earlier: nat, boxes: map<int, string>, quote: string -> string) returns (line: string)
    ensures line == LineOf(Row(indent, node), earlier, boxes, quote)
  {
    ghost var body := "- " + RoleText(node) + NameText(node, quote) + RefText(node, earlier) + ValueText(node, quote);
    line := BuildHead(node, indent, earlier, quote);
    var properties := AppendProperties(node.properties);
    Assoc(Spaces(indent), body, properties);
    line := line + properties;
    var box := BoxOf(boxes, node.backend);
    Assoc(Spaces(indent), body + properties, BoxText(box));
    if box != "" {
      line := line + (" " + box);
    }
  }

  method BuildHead(node: AxNode, indent: nat, earlier: nat, quote: string -> string) returns (line: string)
    ensures line ==
      Spaces(indent) + ("- " + RoleText(node) + NameText(node, quote) + RefText(node, earlier) + ValueText(node, quote))
  {
    var role := node.role;
    if role == "" {
      role := "generic";
    }
    line := Spaces(indent) + ("- " + role);
    Assoc(Spaces(indent), "- " + role, NameText(node, quote));
    if node.name != "" {
      line := line + (" " + quote(node.name));
    }
    Assoc(Spaces(indent), "- " + role + NameText(node, quote), RefText(node, earlier));
    if node.backend != 0 {
      line := line + (" [ref=" + Refs.RefName(earlier) + "]");
    }
    Assoc(Spaces(indent), "- " + role + NameText(node, quote) + RefText(node, earlier), ValueText(node, quote));
    if node.value != "" && node.value != node.name {
      line := line + (" " + quote(node.value));
    }
  }

  /** The loop over a node's properties. */
  method AppendProperties(properties: seq<(string, string)>) returns (text: string)
    ensures text == Properties(properties)
  {
    text := "";
    for i := 0 to |properties|
      invariant text == Properties(properties[..i])
    {
      assert properties[..i + 1][..i] == properties[..i];
      text := text + Property(properties[i]);
    }
    assert properties[..|properties|] == properties;
  }

  type Drawing = (Row<AxNode>, nat) -> string

  function Drawer(boxes: map<int, string>, quote: string -> string): Drawing {
    (row: Row<AxNode>, earlier: nat) => LineOf(row, earlier, boxes, quote)
  }

  function LinesOf(rows: seq<Row<AxNode>>, draw: Drawing): (lines: seq<string>)
    ensures |lines| == |rows|
  {
    if rows == [] then []
    else
      var before := rows[..|rows| - 1];
      LinesOf(before, draw) + [draw(rows[|rows| - 1], |Backends(before)|)]
  }

  // ----- what a line shows

  /** A property is shown if it is one of eight and its value is neither empty nor false; true goes without saying. */
  ghost predicate ShowsProperty(property: (string, string), text: string) {
    if property.0 in {"checked", "disabled", "expanded", "focused", "pressed", "readonly", "required", "selected"}
       && property.1 !in {"", "false"}
    then text == (if property.1 == "true" then " [" + property.0 + "]" else " [" + property.0 + "=" + property.1 + "]")
    else text == ""
  }

  lemma PropertyShows(property: (string, string))
    ensures ShowsProperty(property, Property(property))
  {
  }

  ghost function Texts(properties: seq<(string, string)>): seq<string> {
    seq(|properties|, i requires 0 <= i < |properties| => Property(properties[i]))
  }

  lemma TextsOneMore(properties: seq<(string, string)>)
    requires properties != []
    ensures Texts(properties) == Texts(properties[..|properties| - 1]) + [Property(properties[|properties| - 1])]
  {
  }

  lemma {:induction false} PropertiesJoin(properties: seq<(string, string)>)
    ensures Properties(properties) == Find.Join(Texts(properties), "")
  {
    if properties != [] {
      var n := |properties| - 1;
      PropertiesJoin(properties[..n]);
      TextsOneMore(properties);
      JoinOneMore(Texts(properties[..n]), Property(properties[n]));
    }
  }

  /** One text per property, one after the other. */
  lemma PropertiesShow(properties: seq<(string, string)>) returns (texts: seq<string>)
    ensures |texts| == |properties| && Properties(properties) == Find.Join(texts, "")
    ensures forall i :: 0 <= i < |texts| ==> ShowsProperty(properties[i], texts[i])
  {
    texts := Texts(properties);
    PropertiesJoin(properties);
    forall i | 0 <= i < |texts| ensures ShowsProperty(properties[i], texts[i]) {
      PropertyShows(properties[i]);
    }
  }

  lemma {:induction false} JoinOneMore(texts: seq<string>, text: string)
    ensures Find.Join(texts + [text], "") == Find.Join(texts, "") + text
  {
    if texts == [] {
      assert texts + [text] == [text];
    } else if |texts| == 1 {
      assert (texts + [text])[1..] == [text];
    } else {
      JoinOneMore(texts[1..], text);
      assert (texts + [text])[1..] == texts[1..] + [text];
      assert texts[0] + "" == texts[0];
      Assoc(texts[0], Find.Join(texts[1..], ""), text);
    }
  }

  /** An optional part of a line: there if and only if it is due. */
  ghost predicate Part(due: bool, part: string, text: string) {
    (due ==> part == text) && (!due ==> part == "")
  }

  /**
   A line is the indent, a dash, the role or `generic`, the quoted name, the reference, the quoted value if it is not
   the name, the shown properties and the box, in this order, each only if there is one.
   */
  lemma LineShows(row: Row<AxNode>, earlier: nat, boxes: map<int, string>, quote: string -> string)
    returns (role: string, name: string, ref: string, value: string, texts: seq<string>, box: string)
    ensures LineOf(row, earlier, boxes, quote) ==
            Spaces(row.indent) + ("- " + role + name + ref + value + Find.Join(texts, "") + box)
    ensures role == if row.item.role != "" then row.item.role else "generic"
    ensures Part(row.item.name != "", name, " " + quote(row.item.name))
    ensures Part(row.item.backend != 0, ref, " [ref=" + Refs.RefName(earlier) + "]")
    ensures Part(row.item.value != "" && row.item.value != row.item.name, value, " " + quote(row.item.value))
    ensures |texts| == |row.item.properties| && forall i :: 0 <= i < |texts| ==> ShowsProperty(row.item.properties[i], texts[i])
    ensures var b := row.item.backend;
      Part(b in boxes && boxes[b] != "", box, if b in boxes then " " + boxes[b] else "")
  {
    var node := row.item;
    role, name, ref, value := RoleText(node), NameText(node, quote), RefText(node, earlier), ValueText(node, quote);
    texts := PropertiesShow(node.properties);
    box := BoxText(BoxOf(boxes, node.backend));
  }

  /** The indent a line of text shows. */
  function IndentOf(line: string): nat {
    if "  " <= line then 1 + IndentOf(line[2..]) else 0
  }

  lemma {:induction false} IndentOfSpaces(n: nat, rest: string)
    requires !("  " <= rest)
    ensures IndentOf(Spaces(n) + rest) == n
  {
    if n == 0 {
      assert Spaces(0) + rest == rest;
    } else {
      IndentOfSpaces(n - 1, rest);
      assert (Spaces(n) + rest)[2..] == Spaces(n - 1) + rest;
      assert (Spaces(n) + rest)[..2] == "  ";
    }
  }

  /** The indents that the lines show. */
  function IndentRows(lines: seq<string>): seq<Row<()>> {
    seq(|lines|, i requires 0 <= i < |lines| => Row(IndentOf(lines[i]), ()))
  }

  lemma LineShowsIndent(row: Row<AxNode>, earlier: nat, boxes: map<int, string>, quote: string -> string)
    ensures IndentOf(LineOf(row, earlier, boxes, quote)) == row.indent
  {
    BodyStartsWithDash(row.item, earlier, BoxOf(boxes, row.item.backend), quote);
    IndentOfSpaces(row.indent, Body(row.item, earlier, BoxOf(boxes, row.item.backend), quote));
  }

  lemma BodyStartsWithDash(node: AxNode, earlier: nat, box: string, quote: string -> string)
    ensures Body(node, earlier, box, quote) != "" && Body(node, earlier, box, quote)[0] == '-'
  {
  }

  lemma {:induction false} LinesShowIndents(rows: seq<Row<AxNode>>, draw: Drawing)
    requires forall row, k :: IndentOf(draw(row, k)) == row.indent
    ensures IndentRows(LinesOf(rows, draw)) == EraseRows(rows)
  {
    if rows != [] {
      var before := rows[..|rows| - 1];
      LinesShowIndents(before, draw);
      forall i | 0 <= i < |rows| ensures IndentRows(LinesOf(rows, draw))[i] == EraseRows(rows)[i] {
        if i < |rows| - 1 {
          assert IndentRows(LinesOf(before, draw))[i] == EraseRows(before)[i];
        }
      }
    }
  }

  lemma DrawerShowsIndents(rows: seq<Row<AxNode>>, boxes: map<int, string>, quote: string -> string)
    ensures IndentRows(LinesOf(rows, Drawer(boxes, quote))) == EraseRows(rows)
  {
    forall row, k ensures IndentOf(Drawer(boxes, quote)(row, k)) == row.indent {
      LineShowsIndent(row, k, boxes, quote);
    }
    LinesShowIndents(rows, Drawer(boxes, quote));
  }

  /** From the indents of the printed lines alone, the shape of the spliced forest can be read back. */
  lemma LinesShowShape(ts: seq<Tree>, limit: int, boxes: map<int, string>, quote: string -> string)
    ensures var lines := LinesOf(Rendered(ts, 0, 0, limit), Drawer(boxes, quote));
      Parse(IndentRows(lines), 0) == Erase(Cut(Splice(ts), 0, limit))
  {
    var f := Cut(Splice(ts), 0, limit);
    RenderIsSpliceThenPrint(ts, 0, 0, limit);
    DrawerShowsIndents(Preorder(f, 0), boxes, quote);
    PreorderErase(f, 0);
    ParsePreorder(Erase(f), 0);
  }

  /** Indents start at 0 and rise by at most 1 from line to line. */
  lemma IndentsStepByOne(ts: seq<Tree>, limit: int, boxes: map<int, string>, quote: string -> string, j: nat)
    requires j < |Rendered(ts, 0, 0, limit)|
    ensures var lines := LinesOf(Rendered(ts, 0, 0, limit), Drawer(boxes, quote));
      if j == 0 then IndentOf(lines[0]) == 0 else IndentOf(lines[j]) <= IndentOf(lines[j - 1]) + 1
  {
    var rows := Rendered(ts, 0, 0, limit);
    var f := Cut(Splice(ts), 0, limit);
    RenderIsSpliceThenPrint(ts, 0, 0, limit);
    PreorderSteps(f, 0);
    DrawerShowsIndents(rows, boxes, quote);
    assert IndentRows(LinesOf(rows, Drawer(boxes, quote)))[j] == EraseRows(rows)[j];
    if j > 0 {
      assert IndentRows(LinesOf(rows, Drawer(boxes, quote)))[j - 1] == EraseRows(rows)[j - 1];
    }
  }

  // ----- the text

  predicate Plain(s: string) {
    '\n' !in s
  }

  /** Nothing that is printed of the node without quoting holds a newline. */
  predicate PlainNode(node: AxNode) {
    Plain(node.role) && forall i :: 0 <= i < |node.properties| ==> Plain(node.properties[i].1)
  }

  ghost predicate PlainParts(boxes: map<int, string>, quote: string -> string) {
    (forall b :: b in boxes ==> Plain(boxes[b])) && (forall s :: Plain(quote(s)))
  }

  lemma ShownIsPlain(name: string)
    requires name in SHOWN
    ensures Plain(name)
  {
  }

  lemma PropertyIsPlain(property: (string, string))
    requires Plain(property.1)
    ensures Plain(Property(property))
  {
    if property.0 in SHOWN {
      ShownIsPlain(property.0);
    }
  }

  lemma {:induction false} PropertiesArePlain(properties: seq<(string, string)>)
    requires forall i :: 0 <= i < |properties| ==> Plain(properties[i].1)
    ensures Plain(Properties(properties))
  {
    if properties != [] {
      PropertiesArePlain(properties[..|properties| - 1]);
      PropertyIsPlain(properties[|properties| - 1]);
      PlainConcat(Properties(properties[..|properties| - 1]), Property(properties[|properties| - 1]));
    }
  }

  lemma PlainConcat(s: string, t: string)
    requires Plain(s) && Plain(t)
    ensures Plain(s + t)
  {
  }

  lemma {:induction false} SpacesArePlain(n: nat)
    ensures Plain(Spaces(n))
  {
    if n > 0 {
      SpacesArePlain(n - 1);
    }
  }

  lemma RefIsPlain(node: AxNode, earlier: nat)
    ensures Plain(RefText(node, earlier))
  {
    Numerals.DecimalReadsBack(earlier + 1);
  }

  lemma LineIsPlain(row: Row<AxNode>, earlier: nat, boxes: map<int, string>, quote: string -> string)
    requires PlainNode(row.item) && PlainParts(boxes, quote)
    ensures Plain(LineOf(row, earlier, boxes, quote))
  {
    SpacesArePlain(row.indent);
    RefIsPlain(row.item, earlier);
    PropertiesArePlain(row.item.properties);
    assert Plain(BoxText(BoxOf(boxes, row.item.backend)));
  }

  lemma {:induction false} LinesArePlain(rows: seq<Row<AxNode>>, draw: Drawing)
    requires forall row: Row<AxNode>, k: nat :: PlainNode(row.item) ==> Plain(draw(row, k))
    requires forall i :: 0 <= i < |rows| ==> PlainNode(rows[i].item)
    ensures forall i :: 0 <= i < |rows| ==> Plain(LinesOf(rows, draw)[i])
  {
    if rows != [] {
      LinesArePlain(rows[..|rows| - 1], draw);
    }
  }

  lemma DrawerIsPlain(rows: seq<Row<AxNode>>, boxes: map<int, string>, quote: string -> string)
    requires PlainParts(boxes, quote) && forall i :: 0 <= i < |rows| ==> PlainNode(rows[i].item)
    ensures forall i :: 0 <= i < |rows| ==> Plain(LinesOf(rows, Drawer(boxes, quote))[i])
  {
    forall row: Row<AxNode>, k: nat | PlainNode(row.item) ensures Plain(Drawer(boxes, quote)(row, k)) {
      LineIsPlain(row, k, boxes, quote);
    }
    LinesArePlain(rows, Drawer(boxes, quote));
  }

  /**
   From the snapshot's text, split at its newlines, the shape of the spliced forest can be read back, if something
   is printed and nothing printed without quoting holds a newline.
   */
  lemma TextShowsShape(ts: seq<Tree>, limit: int, boxes: map<int, string>, quote: string -> string)
    requires Rendered(ts, 0, 0, limit) != [] && PlainParts(boxes, quote)
    requires forall i :: 0 <= i < |Rendered(ts, 0, 0, limit)| ==> PlainNode(Rendered(ts, 0, 0, limit)[i].item)
    ensures var text := Find.Join(LinesOf(Rendered(ts, 0, 0, limit), Drawer(boxes, quote)), "\n");
      Parse(IndentRows(Find.Split(text)), 0) == Erase(Cut(Splice(ts), 0, limit))
  {
    var rows := Rendered(ts, 0, 0, limit);
    DrawerIsPlain(rows, boxes, quote);
    var lines := LinesOf(rows, Drawer(boxes, quote));
    assert forall i :: 0 <= i < |lines| ==> Plain(lines[i]);
    Find.SplitJoin(lines);
    LinesShowShape(ts, limit, boxes, quote);
  }

  // ----- the references in the text

  /** The k-th printed reference names the k-th row that has a backend id. */
  lemma {:induction false} PrintedRefs(rows: seq<Row<AxNode>>, draw: Drawing, j: nat)
    requires j < |rows| && rows[j].item.backend != 0
    ensures |Backends(rows[..j])| < |Backends(rows)| && Backends(rows)[|Backends(rows[..j])|] == rows[j].item.backend
    ensures LinesOf(rows, draw)[j] == draw(rows[j], |Backends(rows[..j])|)
  {
    var n := |rows| - 1;
    if j < n {
      PrintedRefs(rows[..n], draw, j);
      assert rows[..n][..j] == rows[..j] && rows[..n][j] == rows[j];
    }
  }

  ghost predicate Contains(text: string, part: string) {
    exists before, after :: text == before + part + after
  }

  lemma LineShowsRef(row: Row<AxNode>, earlier: nat, boxes: map<int, string>, quote: string -> string)
    requires row.item.backend != 0
    ensures Contains(LineOf(row, earlier, boxes, quote), " [ref=" + Refs.RefName(earlier) + "]")
  {
    var node := row.item;
    var head, ref := "- " + RoleText(node) + NameText(node, quote), RefText(node, earlier);
    var v, p, b := ValueText(node, quote), Properties(node.properties), BoxText(BoxOf(boxes, node.backend));
    Surrounded(Spaces(row.indent), head, ref, v, p, b);
    assert ref == " [ref=" + Refs.RefName(earlier) + "]";
  }

  lemma Surrounded(spaces: string, head: string, ref: string, v: string, p: string, b: string)
    ensures Contains(spaces + (head + ref + v + p + b), ref)
  {
    assert spaces + (head + ref + v + p + b) == (spaces + head) + ref + (v + p + b);
  }

  /**
   The line printed on a row with a backend id shows a reference that, bare or after `ref=` and padded with blanks,
   resolves in the stored table to the very node of that row.
   */
  lemma PrintedRefResolves(rows: seq<Row<AxNode>>, boxes: map<int, string>, quote: string -> string, j: nat, before: string, after: string)
    returns (ref: string)
    requires j < |rows| && rows[j].item.backend != 0 && Refs.Blank(before) && Refs.Blank(after)
    ensures Contains(LinesOf(rows, Drawer(boxes, quote))[j], " [ref=" + ref + "]")
    ensures Refs.Resolves(Refs.RefTable(Backends(rows)), before + ref + after, rows[j].item.backend)
    ensures Refs.Resolves(Refs.RefTable(Backends(rows)), before + ("ref=" + ref) + after, rows[j].item.backend)
  {
    var k := |Backends(rows[..j])|;
    ref := Refs.RefName(k);
    PrintedRefs(rows, Drawer(boxes, quote), j);
    RefIsPrinted(rows[j], k, boxes, quote, LinesOf(rows, Drawer(boxes, quote))[j]);
    Refs.RefRoundTrip(Backends(rows), k, before, after);
  }

  lemma RefIsPrinted(row: Row<AxNode>, k: nat, boxes: map<int, string>, quote: string -> string, line: string)
    requires row.item.backend != 0 && line == Drawer(boxes, quote)(row, k)
    ensures Contains(line, " [ref=" + Refs.RefName(k) + "]")
  {
    LineShowsRef(row, k, boxes, quote);
  }

  // ----- the renderer

  /** What one more row adds to the text, the table and the count. */
  lemma RowAppended(rows: seq<Row<AxNode>>, row: Row<AxNode>, draw: Drawing)
    ensures LinesOf(rows + [row], draw) == LinesOf(rows, draw) + [draw(row, |Backends(rows)|)]
    ensures Backends(rows + [row]) == Backends(rows) + (if row.item.backend != 0 then [row.item.backend] else [])
    ensures var b := row.item.backend;
      b != 0 ==> Refs.RefTable(Backends(rows) + [b]) == Refs.RefTable(Backends(rows))[Refs.RefName(|Backends(rows)|) := b]
  {
    assert (rows + [row])[..|rows|] == rows;
    assert (Backends(rows) + [row.item.backend])[..|Backends(rows)|] == Backends(rows);
  }

  /** What one more child id adds to the rows. */
  lemma KidRendered(byId: map<string, AxNode>, rank: string -> nat, ids: seq<string>, id: string, height: nat,
                    indent: nat, depth: nat, limit: int)
    requires Acyclic(byId, rank)
    requires forall x :: x in ids + [id] && x in byId ==> rank(x) < height
    ensures Under(byId, rank, ids, height) && Under(byId, rank, ids + [id], height)
    ensures id in byId ==> Under(byId, rank, byId[id].childIds, rank(id)) && rank(id) < height
    ensures Rendered(Unfold(byId, rank, ids + [id], height), indent, depth, limit) ==
            Rendered(Unfold(byId, rank, ids, height), indent, depth, limit) +
            (if id in byId then FirstRendered(Tree(byId[id], Unfold(byId, rank, byId[id].childIds, rank(id))), indent, depth, limit) else [])
  {
    assert id in ids + [id];
    UnfoldAppend(byId, rank, ids, id, height);
    var before := Unfold(byId, rank, ids, height);
    if id in byId {
      var t := Tree(byId[id], Unfold(byId, rank, byId[id].childIds, rank(id)));
      RenderedAppend(before, [t], indent, depth, limit);
      OneRendered(t, indent, depth, limit);
    } else {
      assert before + [] == before;
    }
  }

  /** The closure `render` and the variables it updates. */
  class Renderer {
    const byId: map<string, AxNode>
    const limit: int
    const boxes: map<int, string>
    const quote: string -> string
    ghost const draw: Drawing
    var lines: seq<string>
    var refs: map<string, int>
    var refCount: nat

    ghost var rows: seq<Row<AxNode>>

    ghost predicate Valid()
      reads this
    {
      && (forall row: Row<AxNode>, k: nat {:trigger LineOf(row, k, boxes, quote)} :: draw(row, k) == LineOf(row, k, boxes, quote))
      && lines == LinesOf(rows, draw) && refs == Refs.RefTable(Backends(rows)) && refCount == |Backends(rows)|
    }

    constructor (byId: map<string, AxNode>, limit: int, boxes: map<int, string>, quote: string -> string)
      ensures Valid() && rows == [] && this.byId == byId && this.limit == limit && this.draw == Drawer(boxes, quote)
    {
      this.byId, this.limit, this.boxes, this.quote, this.draw := byId, limit, boxes, quote, Drawer(boxes, quote);
      lines, refs, refCount, rows := [], map[], 0, [];
    }

    /** Prints one node that is not ignored. */
    method PrintLine(node: AxNode, indent: nat)
      requires Valid()
      modifies this
      ensures Valid() && rows == old(rows) + [Row(indent, node)]
    {
      RowAppended(rows, Row(indent, node), draw);
      assert node.backend == 0 ==> Backends(rows) + [] == Backends(rows);
      var line := BuildLine(node, indent, refCount, boxes, quote);
      lines := lines + [line];
      if node.backend != 0 {
        refs := refs[Refs.RefName(refCount) := node.backend];
        refCount := refCount + 1;
      }
      rows := rows + [Row(indent, node)];
    }

    method Render(node: AxNode, indent: nat, depth: nat, ghost rank: string -> nat, ghost height: nat)
      requires Valid() && Acyclic(byId, rank) && Under(byId, rank, node.childIds, height)
      modifies this
      ensures Valid()
      ensures rows == old(rows) + FirstRendered(Tree(node, Unfold(byId, rank, node.childIds, height)), indent, depth, limit)
      decreases height, 1
    {
      if limit > 0 && depth > limit {
        return;
      }
      if node.ignored {
        RenderKids(node.childIds, indent, depth, rank, height);
        return;
      }
      ghost var before := rows;
      PrintLine(node, indent);
      RenderKids(node.childIds, indent + 1, depth + 1, rank, height);
      Assoc(before, [Row(indent, node)], Rendered(Unfold(byId, rank, node.childIds, height), indent + 1, depth + 1, limit));
    }

    /** The loop over child ids. */
    method RenderKids(ids: seq<string>, indent: nat, depth: nat, ghost rank: string -> nat, ghost height: nat)
      requires Valid() && Acyclic(byId, rank) && Under(byId, rank, ids, height)
      modifies this
      ensures Valid()
      ensures rows == old(rows) + Rendered(Unfold(byId, rank, ids, height), indent, depth, limit)
      decreases height, 0
    {
      ghost var printed: seq<Row<AxNode>> := [];
      for i := 0 to |ids|
        invariant Valid() && Under(byId, rank, ids[..i], height)
        invariant printed == Rendered(Unfold(byId, rank, ids[..i], height), indent, depth, limit)
        invariant rows == old(rows) + printed
      {
        assert ids[..i + 1] == ids[..i] + [ids[i]];
        KidRendered(byId, rank, ids[..i], ids[i], height, indent, depth, limit);
        if ids[i] in byId {
          Render(byId[ids[i]], indent, depth, rank, rank(ids[i]));
          ghost var more := FirstRendered(Tree(byId[ids[i]], Unfold(byId, rank, byId[ids[i]].childIds, rank(ids[i]))), indent, depth, limit);
          Assoc(old(rows), printed, more);
          printed := printed + more;
        } else {
          printed := printed + [];
        }
      }
      assert ids[..|ids|] == ids;
    }
  }

  // ----- the collector of boxes

  /** What collect visits for one tree. */
  function FirstCollected(t: Tree, depth: nat, limit: int): seq<AxNode> {
    if Beyond(limit, depth) then [] else [t.node] + Collected(t.kids, depth + 1, limit)
  }

  lemma {:induction false} CollectedAppend(a: seq<Tree>, t: Tree, depth: nat, limit: int)
    ensures Collected(a + [t], depth, limit) == Collected(a, depth, limit) + FirstCollected(t, depth, limit)
  {
    if a == [] {
      assert [] + [t] == [t] && [t][1..] == [];
      assert FirstCollected(t, depth, limit) + [] == FirstCollected(t, depth, limit);
    } else {
      CollectedAppend(a[1..], t, depth, limit);
      assert (a + [t])[1..] == a[1..] + [t];
      Assoc(FirstCollected(a[0], depth, limit), Collected(a[1..], depth, limit), FirstCollected(t, depth, limit));
    }
  }

  lemma KidCollected(byId: map<string, AxNode>, rank: string -> nat, ids: seq<string>, id: string, height: nat, depth: nat, limit: int)
    requires Acyclic(byId, rank)
    requires forall x :: x in ids + [id] && x in byId ==> rank(x) < height
    ensures Under(byId, rank, ids, height) && Under(byId, rank, ids + [id], height)
    ensures id in byId ==> Under(byId, rank, byId[id].childIds, rank(id)) && rank(id) < height
    ensures Collected(Unfold(byId, rank, ids + [id], height), depth, limit) ==
            Collected(Unfold(byId, rank, ids, height), depth, limit) +
            (if id in byId then FirstCollected(Tree(byId[id], Unfold(byId, rank, byId[id].childIds, rank(id))), depth, limit) else [])
  {
    assert id in ids + [id];
    UnfoldAppend(byId, rank, ids, id, height);
    var before := Unfold(byId, rank, ids, height);
    if id in byId {
      CollectedAppend(before, Tree(byId[id], Unfold(byId, rank, byId[id].childIds, rank(id))), depth, limit);
    } else {
      assert before + [] == before;
    }
  }

  lemma AskedOneMore(nodes: seq<AxNode>, node: AxNode)
    ensures forall b :: Asked(nodes + [node], b) <==> Asked(nodes, b) || (b != 0 && b == node.backend)
  {
    forall b ensures Asked(nodes + [node], b) <==> Asked(nodes, b) || (b != 0 && b == node.backend) {
      assert node in nodes + [node];
      if Asked(nodes, b) {
        var x :| x in nodes && x.backend == b;
        assert x in nodes + [node];
      }
    }
  }

  /** The closure `collect`: `actions` are the backend ids whose box is asked for, each once. */
  class Collector {
    const byId: map<string, AxNode>
    const limit: int
    var seen: set<int>
    var actions: seq<int>

    ghost var visited: seq<AxNode>

    ghost predicate Valid()
      reads this
    {
      && (forall i, j :: 0 <= i < j < |actions| ==> actions[i] != actions[j])
      && (forall b :: b in actions <==> b in seen)
      && (forall b :: b in seen <==> Asked(visited, b))
    }

    constructor (byId: map<string, AxNode>, limit: int)
      ensures Valid() && visited == [] && this.byId == byId && this.limit == limit
    {
      this.byId, this.limit := byId, limit;
      seen, actions, visited := {}, [], [];
    }

    method Note(node: AxNode)
      requires Valid()
      modifies this
      ensures Valid() && visited == old(visited) + [node]
    {
      AskedOneMore(visited, node);
      visited := visited + [node];
      if node.backend != 0 && node.backend !in seen {
        seen := seen + {node.backend};
        actions := actions + [node.backend];
      }
    }

    method Collect(node: AxNode, depth: nat, ghost rank: string -> nat, ghost height: nat)
      requires Valid() && Acyclic(byId, rank) && Under(byId, rank, node.childIds, height)
      modifies this
      ensures Valid()
      ensures visited == old(visited) + FirstCollected(Tree(node, Unfold(byId, rank, node.childIds, height)), depth, limit)
      decreases height, |node.childIds| + 1
    {
      if limit > 0 && depth > limit {
        return;
      }
      Note(node);
      ghost var before := visited;
      ghost var found: seq<AxNode> := [];
      var ids := node.childIds;
      for i := 0 to |ids|
        invariant Valid() && Under(byId, rank, ids[..i], height)
        invariant found == Collected(Unfold(byId, rank, ids[..i], height), depth + 1, limit)
        invariant visited == before + found
      {
        assert ids[..i + 1] == ids[..i] + [ids[i]];
        KidCollected(byId, rank, ids[..i], ids[i], height, depth + 1, limit);
        if ids[i] in byId {
          Collect(byId[ids[i]], depth + 1, rank, rank(ids[i]));
          ghost var more := FirstCollected(Tree(byId[ids[i]], Unfold(byId, rank, byId[ids[i]].childIds, rank(ids[i]))), depth + 1, limit);
          Assoc(before, found, more);
          found := found + more;
        } else {
          found := found + [];
        }
      }
      assert ids[..|ids|] == ids;
      Assoc(old(visited), [node], found);
    }
  }

  /** The boxes a snapshot asks for: once each, and exactly those of the nodes of the tree within the limit. */
  method AskBoxes(byId: map<string, AxNode>, root: AxNode, limit: int, ghost rank: string -> nat, ghost height: nat)
    returns (actions: seq<int>)
    requires Acyclic(byId, rank) && Under(byId, rank, root.childIds, height)
    ensures forall i, j :: 0 <= i < j < |actions| ==> actions[i] != actions[j]
    ensures var tree := [Tree(root, Unfold(byId, rank, root.childIds, height))];
      forall b :: b in actions <==> b != 0 && WithinLimit(Places(tree, 0, 0), limit, b)
  {
    var c := new Collector(byId, limit);
    c.Collect(root, 0, rank, height);
    ghost var tree := [Tree(root, Unfold(byId, rank, root.childIds, height))];
    assert tree[1..] == [] && c.visited == Collected(tree, 0, limit);
    forall b ensures Asked(c.visited, b) <==> b != 0 && WithinLimit(Places(tree, 0, 0), limit, b) {
      AskedIs(tree, limit, b);
    }
    actions := c.actions;
  }

  // ----- the tool

  ghost predicate FirstWith(nodes: seq<AxNode>, i: int, target: int) {
    0 <= i < |nodes| && nodes[i].backend == target && forall j :: 0 <= j < i ==> nodes[j].backend != target
  }

  /** Which node the snapshot starts from: the first of the list, or the first with the wanted backend id. */
  method FindRoot(nodes: seq<AxNode>, target: int) returns (root: Option<AxNode>)
    requires nodes != []
    ensures target == 0 ==> root == Some(nodes[0])
    ensures target != 0 && root.Some? ==> exists i :: FirstWith(nodes, i, target) && nodes[i] == root.value
    ensures target != 0 && root.None? ==> forall j :: 0 <= j < |nodes| ==> nodes[j].backend != target
  {
    if target == 0 {
      return Some(nodes[0]);
    }
    for i := 0 to |nodes|
      invariant forall j :: 0 <= j < i ==> nodes[j].backend != target
    {
      if nodes[i].backend == target {
        assert FirstWith(nodes, i, target);
        return Some(nodes[i]);
      }
    }
    return None;
  }

  /**
   BrowserSnapshot once the nodes and boxes are known: the text is that of the spliced forest in preorder, and the
   table stored is the one its references come from. The tree starts at a listed node, the first or the first with
   the wanted backend id, and has under each node all that its child ids lead to. None is an empty or targetless
   snapshot.
   */
  method TakeSnapshot(nodes: seq<AxNode>, target: int, limit: int, boxes: map<int, string>, quote: string -> string, ghost rank: string -> nat)
    returns (result: Option<(string, map<string, int>)>, ghost byId: map<string, AxNode>, ghost tree: Tree)
    requires Ranked(nodes, rank)
    ensures result.None? <==> nodes == [] || (target != 0 && forall n :: n in nodes ==> n.backend != target)
    ensures result.Some? ==>
      && Files(nodes, byId) && Complete(byId, tree)
      && (if target == 0 then tree.node == nodes[0] else exists i :: FirstWith(nodes, i, target) && nodes[i] == tree.node)
      && var rows := Preorder(Cut(Splice([tree]), 0, limit), 0);
      && result.value.0 == Find.Join(LinesOf(rows, Drawer(boxes, quote)), "\n")
      && result.value.1 == Refs.RefTable(Backends(rows))
  {
    byId, tree := map[], Tree(AxNode("", false, "", "", "", [], 0, []), []);
    if nodes == [] {
      return None, byId, tree;
    }
    var filed := FileNodes(nodes);
    var found := FindRoot(nodes, target);
    if found.None? {
      return None, byId, tree;
    }
    byId := filed;
    ghost var height := rank(found.value.id);
    RankedIsAcyclic(nodes, filed, rank);
    var r := new Renderer(filed, limit, boxes, quote);
    r.Render(found.value, 0, 0, rank, height);
    tree := Tree(found.value, Unfold(filed, rank, found.value.childIds, height));
    UnfoldIsComplete(filed, rank, found.value.childIds, height);
    RenderIsSpliceThenPrint([tree], 0, 0, limit);
    OneRendered(tree, 0, 0, limit);
    assert [] + Rendered([tree], 0, 0, limit) == Rendered([tree], 0, 0, limit);
    return Some((Find.Join(r.lines, "\n"), r.refs)), byId, tree;
  }
}

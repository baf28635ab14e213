/**
 The accessibility outline: which nodes `render` prints and how far right, as a splicing of the ignored
 nodes out of the tree followed by a plain preorder print.
 */
module Snapshot {
  import opened Forests

  /** An accessibility node; role, name and value are the decoded texts, `backend` 0 means none. */
  datatype AxNode = AxNode(id: string, ignored: bool, role: string, name: string, value: string,
                           properties: seq<(string, string)>, backend: int, childIds: seq<string>)

  datatype Tree = Tree(node: AxNode, kids: seq<Tree>)

  /** Depth 0 or less means no limit. */
  predicate Beyond(limit: int, depth: nat) {
    limit > 0 && depth > limit
  }

  // ----- what render prints

  /** The rows that render prints for a list of trees at this indent and depth. */
  function Rendered(ts: seq<Tree>, indent: nat, depth: nat, limit: int): seq<Row<AxNode>>
    decreases ts
  {
    if ts == [] then [] else FirstRendered(ts[0], indent, depth, limit) + Rendered(ts[1..], indent, depth, limit)
  }

  /** And for one tree. */
  function FirstRendered(t: Tree, indent: nat, depth: nat, limit: int): seq<Row<AxNode>>
    decreases t
  {
    if Beyond(limit, depth) then []
    else if t.node.ignored then Rendered(t.kids, indent, depth, limit)
    else [Row(indent, t.node)] + Rendered(t.kids, indent + 1, depth + 1, limit)
  }

  /** The forest without its ignored nodes: the kids of an ignored node take its place. */
  function Splice(ts: seq<Tree>): seq<Item<AxNode>>
    decreases ts
  {
    if ts == [] then [] else FirstSpliced(ts[0]) + Splice(ts[1..])
  }

  function FirstSpliced(t: Tree): seq<Item<AxNode>>
    decreases t
  {
    if t.node.ignored then Splice(t.kids) else [Item(t.node, Splice(t.kids))]
  }

  /** The forest down to the given depth, for roots at `depth`. */
  function Cut(f: seq<Item<AxNode>>, depth: nat, limit: int): seq<Item<AxNode>> {
    if f == [] || Beyond(limit, depth) then []
    else [Item(f[0].item, Cut(f[0].kids, depth + 1, limit))] + Cut(f[1..], depth, limit)
  }

  lemma {:induction false} CutConcat(f: seq<Item<AxNode>>, g: seq<Item<AxNode>>, depth: nat, limit: int)
    ensures Cut(f + g, depth, limit) == Cut(f, depth, limit) + Cut(g, depth, limit)
  {
    if f == [] {
      assert f + g == g;
    } else if !Beyond(limit, depth) {
      var first := [Item(f[0].item, Cut(f[0].kids, depth + 1, limit))];
      CutConcat(f[1..], g, depth, limit);
      assert (f + g)[1..] == f[1..] + g;
      Assoc(first, Cut(f[1..], depth, limit), Cut(g, depth, limit));
      assert Cut(f, depth, limit) == first + Cut(f[1..], depth, limit);
    }
  }

  lemma CutBeyond(f: seq<Item<AxNode>>, depth: nat, limit: int)
    requires Beyond(limit, depth)
    ensures Cut(f, depth, limit) == []
  {
  }

  lemma {:induction false} RenderedBeyond(ts: seq<Tree>, indent: nat, depth: nat, limit: int)
    requires Beyond(limit, depth)
    ensures Rendered(ts, indent, depth, limit) == []
  {
    if ts != [] {
      RenderedBeyond(ts[1..], indent, depth, limit);
    }
  }

  lemma SplicedPrinted(kids: seq<Item<AxNode>>, rest: seq<Item<AxNode>>, indent: nat, depth: nat, limit: int)
    ensures Preorder(Cut(kids + rest, depth, limit), indent) ==
            Preorder(Cut(kids, depth, limit), indent) + Preorder(Cut(rest, depth, limit), indent)
  {
    CutConcat(kids, rest, depth, limit);
    PreorderConcat(Cut(kids, depth, limit), Cut(rest, depth, limit), indent);
  }

  lemma ItemPrinted(x: Item<AxNode>, indent: nat, depth: nat, limit: int)
    requires !Beyond(limit, depth)
    ensures Preorder(Cut([x], depth, limit), indent) == [Row(indent, x.item)] + Preorder(Cut(x.kids, depth + 1, limit), indent + 1)
  {
    assert [x][1..] == [];
    var cut := Item(x.item, Cut(x.kids, depth + 1, limit));
    assert Cut([x], depth, limit) == [cut] && [cut][1..] == [];
  }

  /** Rendering is splicing, cutting at the depth and printing in preorder. */
  lemma {:induction false} RenderIsSpliceThenPrint(ts: seq<Tree>, indent: nat, depth: nat, limit: int)
    ensures Rendered(ts, indent, depth, limit) == Preorder(Cut(Splice(ts), depth, limit), indent)
    decreases ts
  {
    if ts != [] {
      FirstIsSpliced(ts[0], indent, depth, limit);
      RenderIsSpliceThenPrint(ts[1..], indent, depth, limit);
      SplicedPrinted(FirstSpliced(ts[0]), Splice(ts[1..]), indent, depth, limit);
    }
  }

  lemma {:induction false} FirstIsSpliced(t: Tree, indent: nat, depth: nat, limit: int)
    ensures FirstRendered(t, indent, depth, limit) == Preorder(Cut(FirstSpliced(t), depth, limit), indent)
    decreases t
  {
    if Beyond(limit, depth) {
      CutBeyond(FirstSpliced(t), depth, limit);
    } else if t.node.ignored {
      RenderIsSpliceThenPrint(t.kids, indent, depth, limit);
    } else {
      RenderIsSpliceThenPrint(t.kids, indent + 1, depth + 1, limit);
      ItemPrinted(Item(t.node, Splice(t.kids)), indent, depth, limit);
    }
  }

  lemma {:induction false} CutUnlimited(f: seq<Item<AxNode>>, depth: nat, limit: int)
    requires limit <= 0
    ensures Cut(f, depth, limit) == f
  {
    if f != [] {
      CutUnlimited(f[0].kids, depth + 1, limit);
      CutUnlimited(f[1..], depth, limit);
    }
  }

  /** Without a limit nothing is lost: lists of trees that print the same rows have the same spliced forest. */
  lemma UnlimitedLosesNothing(ts: seq<Tree>, us: seq<Tree>, limit: int)
    requires limit <= 0
    ensures Rendered(ts, 0, 0, limit) == Rendered(us, 0, 0, limit) <==> Splice(ts) == Splice(us)
  {
    RenderIsSpliceThenPrint(ts, 0, 0, limit);
    RenderIsSpliceThenPrint(us, 0, 0, limit);
    CutUnlimited(Splice(ts), 0, limit);
    CutUnlimited(Splice(us), 0, limit);
    if Rendered(ts, 0, 0, limit) == Rendered(us, 0, 0, limit) {
      OutlineInjective(Splice(ts), Splice(us), 0);
    }
  }

  // ----- the depth limit

  /** The rows indented at most `limit`. */
  function Upto(rows: seq<Row<AxNode>>, limit: int): seq<Row<AxNode>> {
    if rows == [] then []
    else (if rows[0].indent <= limit then [rows[0]] else []) + Upto(rows[1..], limit)
  }

  lemma {:induction false} UptoConcat(a: seq<Row<AxNode>>, b: seq<Row<AxNode>>, limit: int)
    ensures Upto(a + b, limit) == Upto(a, limit) + Upto(b, limit)
  {
    if a == [] {
      assert a + b == b;
    } else {
      var tail, rest := a[1..], Upto(b, limit);
      UptoConcat(tail, b, limit);
      assert (a + b)[1..] == tail + b;
      Assoc(if a[0].indent <= limit then [a[0]] else [], Upto(tail, limit), rest);
    }
  }

  lemma {:induction false} UptoNothing(rows: seq<Row<AxNode>>, limit: int)
    requires forall j :: 0 <= j < |rows| ==> rows[j].indent > limit
    ensures Upto(rows, limit) == []
  {
    if rows != [] {
      UptoNothing(rows[1..], limit);
    }
  }

  lemma {:induction false} RenderedIndents(ts: seq<Tree>, indent: nat, depth: nat, limit: int)
    ensures forall j :: 0 <= j < |Rendered(ts, indent, depth, limit)| ==> Rendered(ts, indent, depth, limit)[j].indent >= indent
  {
    RenderIsSpliceThenPrint(ts, indent, depth, limit);
    PreorderSteps(Cut(Splice(ts), depth, limit), indent);
  }

  /** With a depth limit, render prints exactly those unlimited rows that are indented at most that much. */
  lemma {:induction false} DepthIsAFilter(ts: seq<Tree>, level: nat, limit: int)
    requires limit > 0
    ensures Rendered(ts, level, level, limit) == Upto(Rendered(ts, level, level, 0), limit)
  {
    if ts != [] {
      var t := ts[0];
      if level > limit {
        RenderedBeyond(ts, level, level, limit);
        RenderedIndents(ts, level, level, 0);
        UptoNothing(Rendered(ts, level, level, 0), limit);
      } else {
        DepthIsAFilter(ts[1..], level, limit);
        var rest := Rendered(ts[1..], level, level, 0);
        if t.node.ignored {
          DepthIsAFilter(t.kids, level, limit);
          UptoConcat(Rendered(t.kids, level, level, 0), rest, limit);
        } else {
          DepthIsAFilter(t.kids, level + 1, limit);
          var below := Rendered(t.kids, level + 1, level + 1, 0);
          UptoConcat([Row(level, t.node)] + below, rest, limit);
          assert ([Row(level, t.node)] + below)[1..] == below;
        }
      }
    }
  }
}

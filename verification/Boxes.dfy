/** Which nodes `collect` visits, and for which of the rendered nodes a box is asked. */
module Boxes {
  import opened Forests
  import opened Snapshot

  /** The nodes collect visits, in its order; it counts ignored nodes as depth. */
  function Collected(ts: seq<Tree>, depth: nat, limit: int): seq<AxNode> {
    if ts == [] then []
    else
      (if Beyond(limit, depth) then [] else [ts[0].node] + Collected(ts[0].kids, depth + 1, limit))
      + Collected(ts[1..], depth, limit)
  }

  // ----- every node of the tree, with both ways to count its depth

  /** A node, its depth without ignored nodes and its depth with them. */
  datatype Place = Place(node: AxNode, shown: nat, depth: nat)

  /** How many levels render goes down at this tree's root. */
  function Down(t: Tree): nat {
    if t.node.ignored then 0 else 1
  }

  /** All nodes in preorder. */
  function Places(ts: seq<Tree>, shown: nat, depth: nat): seq<Place> {
    if ts == [] then []
    else [Place(ts[0].node, shown, depth)] + Places(ts[0].kids, shown + Down(ts[0]), depth + 1) + Places(ts[1..], shown, depth)
  }

  type Test = Place -> bool

  /** The nodes of the places that pass a test, in order. */
  function Chosen(ps: seq<Place>, test: Test): seq<AxNode> {
    if ps == [] then [] else (if test(ps[0]) then [ps[0].node] else []) + Chosen(ps[1..], test)
  }

  /** Within the limit as collect counts. */
  function Visited(limit: int): Test {
    (p: Place) => !Beyond(limit, p.depth)
  }

  /** Printed: not ignored, and within the limit as render counts. */
  function Printed(limit: int): Test {
    (p: Place) => !p.node.ignored && !Beyond(limit, p.shown)
  }

  lemma {:induction false} PlacesGoDown(ts: seq<Tree>, shown: nat, depth: nat)
    ensures forall i :: 0 <= i < |Places(ts, shown, depth)| ==>
      Places(ts, shown, depth)[i].shown >= shown && Places(ts, shown, depth)[i].depth >= depth
    ensures shown <= depth ==>
      forall i :: 0 <= i < |Places(ts, shown, depth)| ==> Places(ts, shown, depth)[i].shown <= Places(ts, shown, depth)[i].depth
  {
    if ts != [] {
      PlacesGoDown(ts[0].kids, shown + Down(ts[0]), depth + 1);
      PlacesGoDown(ts[1..], shown, depth);
    }
  }

  lemma {:induction false} ChosenConcat(a: seq<Place>, b: seq<Place>, test: Test)
    ensures Chosen(a + b, test) == Chosen(a, test) + Chosen(b, test)
  {
    if a == [] {
      assert a + b == b;
    } else {
      ChosenConcat(a[1..], b, test);
      assert (a + b)[1..] == a[1..] + b;
      Assoc(if test(a[0]) then [a[0].node] else [], Chosen(a[1..], test), Chosen(b, test));
    }
  }

  lemma {:induction false} ChosenNone(ps: seq<Place>, test: Test)
    requires forall i :: 0 <= i < |ps| ==> !test(ps[i])
    ensures Chosen(ps, test) == []
  {
    if ps != [] {
      ChosenNone(ps[1..], test);
    }
  }

  /** The nodes chosen in the first tree, then those in the others. */
  lemma ChosenUnfold(ts: seq<Tree>, shown: nat, depth: nat, test: Test)
    requires ts != []
    ensures Chosen(Places(ts, shown, depth), test) ==
            ((if test(Place(ts[0].node, shown, depth)) then [ts[0].node] else [])
             + Chosen(Places(ts[0].kids, shown + Down(ts[0]), depth + 1), test))
            + Chosen(Places(ts[1..], shown, depth), test)
  {
    var own, below := Place(ts[0].node, shown, depth), Places(ts[0].kids, shown + Down(ts[0]), depth + 1);
    ChosenConcat([own] + below, Places(ts[1..], shown, depth), test);
    assert ([own] + below)[1..] == below;
  }

  /** Cutting the recursion of collect at the limit leaves exactly the nodes within it. */
  lemma {:induction false} CollectedIs(ts: seq<Tree>, shown: nat, depth: nat, limit: int)
    ensures Collected(ts, depth, limit) == Chosen(Places(ts, shown, depth), Visited(limit))
  {
    if ts != [] {
      var t := ts[0];
      ChosenUnfold(ts, shown, depth, Visited(limit));
      CollectedIs(ts[1..], shown, depth, limit);
      if Beyond(limit, depth) {
        PlacesGoDown(t.kids, shown + Down(t), depth + 1);
        ChosenNone(Places(t.kids, shown + Down(t), depth + 1), Visited(limit));
      } else {
        CollectedIs(t.kids, shown + Down(t), depth + 1, limit);
      }
    }
  }

  function Labels(rows: seq<Row<AxNode>>): seq<AxNode> {
    seq(|rows|, i requires 0 <= i < |rows| => rows[i].item)
  }

  lemma LabelsConcat(a: seq<Row<AxNode>>, b: seq<Row<AxNode>>)
    ensures Labels(a + b) == Labels(a) + Labels(b)
  {
  }

  /** Cutting the recursion of render leaves exactly the nodes that are not ignored and within the limit as it counts. */
  lemma {:induction false} RenderedIs(ts: seq<Tree>, indent: nat, shown: nat, depth: nat, limit: int)
    ensures Labels(Rendered(ts, indent, shown, limit)) == Chosen(Places(ts, shown, depth), Printed(limit))
  {
    if ts != [] {
      var t := ts[0];
      ChosenUnfold(ts, shown, depth, Printed(limit));
      RenderedIs(ts[1..], indent, shown, depth, limit);
      if Beyond(limit, shown) {
        PlacesGoDown(t.kids, shown + Down(t), depth + 1);
        ChosenNone(Places(t.kids, shown + Down(t), depth + 1), Printed(limit));
        assert Rendered(ts, indent, shown, limit) == Rendered(ts[1..], indent, shown, limit);
      } else {
        RenderedIs(t.kids, indent + Down(t), shown + Down(t), depth + 1, limit);
        RenderedUnfold(ts, indent, shown, limit);
      }
    }
  }

  function OwnRows(t: Tree, indent: nat): seq<Row<AxNode>> {
    if t.node.ignored then [] else [Row(indent, t.node)]
  }

  lemma RenderedFirst(ts: seq<Tree>, indent: nat, shown: nat, limit: int)
    requires ts != [] && !Beyond(limit, shown)
    ensures Rendered(ts, indent, shown, limit) ==
            (OwnRows(ts[0], indent) + Rendered(ts[0].kids, indent + Down(ts[0]), shown + Down(ts[0]), limit))
            + Rendered(ts[1..], indent, shown, limit)
  {
    if ts[0].node.ignored {
      var below := Rendered(ts[0].kids, indent, shown, limit);
      assert [] + below == below;
    }
  }

  lemma RenderedUnfold(ts: seq<Tree>, indent: nat, shown: nat, limit: int)
    requires ts != [] && !Beyond(limit, shown)
    ensures Labels(Rendered(ts, indent, shown, limit)) ==
            (Labels(OwnRows(ts[0], indent))
             + Labels(Rendered(ts[0].kids, indent + Down(ts[0]), shown + Down(ts[0]), limit)))
            + Labels(Rendered(ts[1..], indent, shown, limit))
    ensures Labels(OwnRows(ts[0], indent)) == if ts[0].node.ignored then [] else [ts[0].node]
  {
    RenderedFirst(ts, indent, shown, limit);
    var own := OwnRows(ts[0], indent);
    var below := Rendered(ts[0].kids, indent + Down(ts[0]), shown + Down(ts[0]), limit);
    LabelsConcat(own, below);
    LabelsConcat(own + below, Rendered(ts[1..], indent, shown, limit));
  }

  /** A node is chosen exactly if it is at a place that passes. */
  lemma {:induction false} ChosenHas(ps: seq<Place>, test: Test, x: AxNode)
    ensures x in Chosen(ps, test) <==> exists i :: 0 <= i < |ps| && test(ps[i]) && ps[i].node == x
  {
    if ps != [] {
      ChosenHas(ps[1..], test, x);
      if i :| 0 <= i < |ps[1..]| && test(ps[1..][i]) && ps[1..][i].node == x {
        assert test(ps[i + 1]) && ps[i + 1].node == x;
      }
      if i :| 0 <= i < |ps| && test(ps[i]) && ps[i].node == x {
        assert i == 0 || ps[1..][i - 1] == ps[i];
      }
    }
  }

  // ----- nodes: what collect visits of what render prints

  function Visible(nodes: seq<AxNode>): seq<AxNode> {
    if nodes == [] then []
    else (if nodes[0].ignored then [] else [nodes[0]]) + Visible(nodes[1..])
  }

  /** Printed, but beyond the limit as collect counts. */
  predicate TooDeep(p: Place, limit: int) {
    Printed(limit)(p) && Beyond(limit, p.depth)
  }

  /** Visited and printed nodes are the same if no place is too deep, and there are fewer of the former otherwise. */
  lemma {:induction false} VisibleOrFewer(ps: seq<Place>, limit: int)
    requires forall i :: 0 <= i < |ps| ==> ps[i].shown <= ps[i].depth
    ensures |Visible(Chosen(ps, Visited(limit)))| <= |Chosen(ps, Printed(limit))|
    ensures (forall i :: 0 <= i < |ps| ==> !TooDeep(ps[i], limit)) ==> Visible(Chosen(ps, Visited(limit))) == Chosen(ps, Printed(limit))
    ensures (exists i :: 0 <= i < |ps| && TooDeep(ps[i], limit)) ==> |Visible(Chosen(ps, Visited(limit)))| < |Chosen(ps, Printed(limit))|
  {
    if ps != [] {
      VisibleOrFewer(ps[1..], limit);
      var rest := Chosen(ps[1..], Visited(limit));
      assert ([ps[0].node] + rest)[1..] == rest && [] + rest == rest;
      if i :| 0 <= i < |ps| && TooDeep(ps[i], limit) {
        assert i == 0 || TooDeep(ps[1..][i - 1], limit);
      }
    }
  }

  /** Collect visits the rendered nodes, all of them and in their order, if and only if none of them is too deep. */
  lemma VisitsAllRendered(ts: seq<Tree>, limit: int)
    ensures Visible(Collected(ts, 0, limit)) == Labels(Rendered(ts, 0, 0, limit)) <==>
            forall i :: 0 <= i < |Places(ts, 0, 0)| ==> !TooDeep(Places(ts, 0, 0)[i], limit)
  {
    CollectedIs(ts, 0, 0, limit);
    RenderedIs(ts, 0, 0, 0, limit);
    PlacesGoDown(ts, 0, 0);
    VisibleOrFewer(Places(ts, 0, 0), limit);
  }

  lemma {:induction false} VisibleArePrinted(ps: seq<Place>, limit: int)
    requires forall i :: 0 <= i < |ps| ==> ps[i].shown <= ps[i].depth
    ensures multiset(Visible(Chosen(ps, Visited(limit)))) <= multiset(Chosen(ps, Printed(limit)))
  {
    if ps != [] {
      VisibleArePrinted(ps[1..], limit);
      var rest := Chosen(ps[1..], Visited(limit));
      assert ([ps[0].node] + rest)[1..] == rest && [] + rest == rest;
      assert Visible(Chosen(ps, Visited(limit))) ==
             (if Visited(limit)(ps[0]) && !ps[0].node.ignored then [ps[0].node] else []) + Visible(rest);
    }
  }

  /** Every visited node that is not ignored is rendered, at least as often as it is visited. */
  lemma CollectedAreRendered(ts: seq<Tree>, limit: int)
    ensures multiset(Visible(Collected(ts, 0, limit))) <= multiset(Labels(Rendered(ts, 0, 0, limit)))
  {
    CollectedIs(ts, 0, 0, limit);
    RenderedIs(ts, 0, 0, 0, limit);
    PlacesGoDown(ts, 0, 0);
    VisibleArePrinted(Places(ts, 0, 0), limit);
  }

  // ----- boxes: they are asked by backend id, for ignored nodes too

  /** A visit to these nodes asks for the box of backend id b. */
  ghost predicate Asked(nodes: seq<AxNode>, b: int) {
    b != 0 && exists x :: x in nodes && x.backend == b
  }

  /** Some node within the limit, ignored or not, has backend id b. */
  ghost predicate WithinLimit(ps: seq<Place>, limit: int, b: int) {
    exists i :: 0 <= i < |ps| && !Beyond(limit, ps[i].depth) && ps[i].node.backend == b
  }

  lemma AskedIs(ts: seq<Tree>, limit: int, b: int)
    ensures Asked(Collected(ts, 0, limit), b) <==> b != 0 && WithinLimit(Places(ts, 0, 0), limit, b)
  {
    var ps := Places(ts, 0, 0);
    CollectedIs(ts, 0, 0, limit);
    if Asked(Collected(ts, 0, limit), b) {
      var x :| x in Collected(ts, 0, limit) && x.backend == b;
      ChosenHas(ps, Visited(limit), x);
    }
    if WithinLimit(ps, limit, b) {
      var i :| 0 <= i < |ps| && !Beyond(limit, ps[i].depth) && ps[i].node.backend == b;
      assert Visited(limit)(ps[i]);
      ChosenHas(ps, Visited(limit), ps[i].node);
    }
  }

  /** Place i is not too deep, or has no backend id, or shares it with a node within the limit. */
  ghost predicate Excused(ps: seq<Place>, i: nat, limit: int)
    requires i < |ps|
  {
    TooDeep(ps[i], limit) && ps[i].node.backend != 0 ==> WithinLimit(ps, limit, ps[i].node.backend)
  }

  /** Every too-deep printed node with a backend id shares it with a node within the limit. */
  ghost predicate AllExcused(ps: seq<Place>, limit: int) {
    forall i :: 0 <= i < |ps| ==> Excused(ps, i, limit)
  }

  /** A rendered node is at a printed place. */
  lemma RenderedHas(ts: seq<Tree>, limit: int, x: AxNode)
    ensures x in Labels(Rendered(ts, 0, 0, limit)) <==>
            exists i :: 0 <= i < |Places(ts, 0, 0)| && Printed(limit)(Places(ts, 0, 0)[i]) && Places(ts, 0, 0)[i].node == x
  {
    RenderedIs(ts, 0, 0, 0, limit);
    ChosenHas(Places(ts, 0, 0), Printed(limit), x);
  }

  /** A box is asked for every rendered node that has a backend id. */
  ghost predicate NoBoxMissed(ts: seq<Tree>, limit: int) {
    forall x :: x in Labels(Rendered(ts, 0, 0, limit)) && x.backend != 0 ==> Asked(Collected(ts, 0, limit), x.backend)
  }

  /**
   No box is missed if and only if every rendered node that has a backend id and is too deep shares that id with
   some node within the limit.
   */
  lemma BoxesForAllRendered(ts: seq<Tree>, limit: int)
    ensures NoBoxMissed(ts, limit) <==> AllExcused(Places(ts, 0, 0), limit)
  {
    var ps := Places(ts, 0, 0);
    if NoBoxMissed(ts, limit) {
      forall i | 0 <= i < |ps| ensures Excused(ps, i, limit) {
        RenderedHas(ts, limit, ps[i].node);
        AskedIs(ts, limit, ps[i].node.backend);
      }
    }
    if AllExcused(ps, limit) {
      forall x | x in Labels(Rendered(ts, 0, 0, limit)) && x.backend != 0 ensures Asked(Collected(ts, 0, limit), x.backend) {
        RenderedHas(ts, limit, x);
        var i :| 0 <= i < |ps| && Printed(limit)(ps[i]) && ps[i].node == x;
        assert Excused(ps, i, limit);
        AskedIs(ts, limit, x.backend);
      }
    }
  }

  /** Without a limit a box is asked for every rendered node that has a backend id. */
  lemma BoxesUnlimited(ts: seq<Tree>, limit: int)
    requires limit <= 0
    ensures NoBoxMissed(ts, limit)
  {
    BoxesForAllRendered(ts, limit);
  }

  /** With depth 1, a node under two ignored ones with other backend ids is rendered and its box is never asked for. */
  lemma BoxMissed(node: AxNode, ghost1: AxNode, ghost2: AxNode)
    requires !node.ignored && ghost1.ignored && ghost2.ignored
    requires node.backend != 0 && node.backend != ghost1.backend && node.backend != ghost2.backend
    ensures var ts := [Tree(ghost1, [Tree(ghost2, [Tree(node, [])])])];
      Labels(Rendered(ts, 0, 0, 1)) == [node] && !Asked(Collected(ts, 0, 1), node.backend)
  {
    var leaf := [Tree(node, [])];
    var mid := [Tree(ghost2, leaf)];
    assert FirstRendered(leaf[0], 0, 0, 1) == [Row(0, node)];
    assert Rendered(leaf, 0, 0, 1) == [Row(0, node)];
    assert FirstRendered(mid[0], 0, 0, 1) == [Row(0, node)];
    assert Rendered(mid, 0, 0, 1) == [Row(0, node)];
    assert FirstRendered(Tree(ghost1, mid), 0, 0, 1) == [Row(0, node)];
    assert Collected(leaf, 2, 1) == [];
    assert Collected(mid, 1, 1) == [ghost2];
    assert Collected([Tree(ghost1, mid)], 0, 1) == [ghost1, ghost2];
  }
}

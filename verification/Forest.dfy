/** Forests and their indented outlines: one row per item, in preorder, one deeper per level. */
module Forests {
  datatype Item<T> = Item(item: T, kids: seq<Item<T>>)
  datatype Row<T> = Row(indent: nat, item: T)

  function Preorder<T>(f: seq<Item<T>>, indent: nat): seq<Row<T>> {
    if f == [] then []
    else [Row(indent, f[0].item)] + Preorder(f[0].kids, indent + 1) + Preorder(f[1..], indent)
  }

  /** How many rows at the front are indented more than `indent`. */
  function Deeper<T>(rows: seq<Row<T>>, indent: nat): (n: nat)
    ensures n <= |rows|
  {
    if rows == [] || rows[0].indent <= indent then 0 else 1 + Deeper(rows[1..], indent)
  }

  /** Reads an outline: a row's kids are the more indented rows right below it. */
  function Parse<T>(rows: seq<Row<T>>, indent: nat): seq<Item<T>>
    decreases |rows|
  {
    if rows == [] then []
    else
      var n := Deeper(rows[1..], indent);
      [Item(rows[0].item, Parse(rows[1..1 + n], indent + 1))] + Parse(rows[1 + n..], indent)
  }

  /** Rows of an outline start at its indent, never go left of it and go right by at most one at a time. */
  lemma {:induction false} PreorderSteps<T>(f: seq<Item<T>>, indent: nat)
    ensures f != [] <==> Preorder(f, indent) != []
    ensures f != [] ==> Preorder(f, indent)[0] == Row(indent, f[0].item)
    ensures forall j :: 0 <= j < |Preorder(f, indent)| ==> Preorder(f, indent)[j].indent >= indent
    ensures forall j :: 0 < j < |Preorder(f, indent)| ==> Preorder(f, indent)[j].indent <= Preorder(f, indent)[j - 1].indent + 1
  {
    if f != [] {
      PreorderSteps(f[0].kids, indent + 1);
      PreorderSteps(f[1..], indent);
    }
  }

  lemma {:induction false} DeeperStops<T>(a: seq<Row<T>>, b: seq<Row<T>>, indent: nat)
    requires forall j :: 0 <= j < |a| ==> a[j].indent > indent
    requires b != [] ==> b[0].indent <= indent
    ensures Deeper(a + b, indent) == |a|
  {
    if a == [] {
      assert a + b == b;
    } else {
      DeeperStops(a[1..], b, indent);
      assert (a + b)[1..] == a[1..] + b;
    }
  }

  /** Reading a printed outline gives the forest back. */
  lemma {:induction false} ParsePreorder<T>(f: seq<Item<T>>, indent: nat)
    ensures Parse(Preorder(f, indent), indent) == f
  {
    if f != [] {
      var kids, rest := Preorder(f[0].kids, indent + 1), Preorder(f[1..], indent);
      var rows := Preorder(f, indent);
      assert rows[1..] == kids + rest;
      PreorderSteps(f[0].kids, indent + 1);
      PreorderSteps(f[1..], indent);
      DeeperStops(kids, rest, indent);
      assert rows[1..1 + |kids|] == kids && rows[1 + |kids|..] == rest;
      ParsePreorder(f[0].kids, indent + 1);
      ParsePreorder(f[1..], indent);
      assert f == [f[0]] + f[1..];
    }
  }

  /** Different forests have different outlines. */
  lemma OutlineInjective<T>(f: seq<Item<T>>, g: seq<Item<T>>, indent: nat)
    requires Preorder(f, indent) == Preorder(g, indent)
    ensures f == g
  {
    ParsePreorder(f, indent);
    ParsePreorder(g, indent);
  }

  // ----- shapes: the indents alone

  function Erase<T>(f: seq<Item<T>>): seq<Item<()>> {
    if f == [] then [] else [Item((), Erase(f[0].kids))] + Erase(f[1..])
  }

  function EraseRows<T>(rows: seq<Row<T>>): seq<Row<()>> {
    seq(|rows|, i requires 0 <= i < |rows| => Row(rows[i].indent, ()))
  }

  lemma {:induction false} PreorderErase<T>(f: seq<Item<T>>, indent: nat)
    ensures Preorder(Erase(f), indent) == EraseRows(Preorder(f, indent))
  {
    if f != [] {
      PreorderErase(f[0].kids, indent + 1);
      PreorderErase(f[1..], indent);
      assert Erase(f)[1..] == Erase(f[1..]);
    }
  }

  lemma Assoc<T>(x: seq<T>, y: seq<T>, z: seq<T>)
    ensures x + (y + z) == (x + y) + z
  {
  }

  lemma {:induction false} PreorderConcat<T>(f: seq<Item<T>>, g: seq<Item<T>>, indent: nat)
    ensures Preorder(f + g, indent) == Preorder(f, indent) + Preorder(g, indent)
  {
    if f == [] {
      assert f + g == g;
    } else {
      PreorderConcat(f[1..], g, indent);
      assert (f + g)[1..] == f[1..] + g;
      var top := [Row(indent, f[0].item)] + Preorder(f[0].kids, indent + 1);
      assert Preorder(f, indent) == top + Preorder(f[1..], indent);
      Assoc(top, Preorder(f[1..], indent), Preorder(g, indent));
    }
  }
}

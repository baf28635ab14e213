/** The list of open pages: a set, an order and a current page, kept in step. */
module TabLists {
  import opened Runs

  datatype TabList<T> = TabList(pages: set<T>, order: seq<T>, current: Option<T>)

  /** The list without x; the others keep their order. */
  function Without<T(==)>(s: seq<T>, x: T): seq<T> {
    if s == [] then [] else if s[0] == x then s[1..] else [s[0]] + Without(s[1..], x)
  }

  function Opened<T>(l: TabList<T>, p: T): TabList<T> {
    TabList(l.pages + {p}, l.order + [p], Some(p))
  }

  function Removed<T(==)>(l: TabList<T>, p: T): TabList<T> {
    var order := Without(l.order, p);
    TabList(l.pages - {p}, order,
            if l.current != Some(p) then l.current
            else if order == [] then None else Some(order[|order| - 1]))
  }

  function Selected<T>(l: TabList<T>, i: nat): TabList<T>
    requires i < |l.order|
  {
    l.(current := Some(l.order[i]))
  }

  /** The order lists exactly the pages, once each; there is a current page, one of them, unless there is none. */
  ghost predicate Consistent<T>(l: TabList<T>) {
    && (forall i, j :: 0 <= i < j < |l.order| ==> l.order[i] != l.order[j])
    && (forall p :: p in l.order ==> p in l.pages) && (forall p :: p in l.pages ==> p in l.order)
    && (l.current.None? <==> l.order == [])
    && (l.current.Some? ==> l.current.value in l.order)
  }

  /** a comes before b. */
  ghost predicate Before<T>(s: seq<T>, a: T, b: T) {
    exists i, j :: 0 <= i < j < |s| && s[i] == a && s[j] == b
  }

  /** Removing x from a list without duplicates removes x and nothing else, and moves nothing past anything. */
  lemma {:induction false} WithoutKeeps<T>(s: seq<T>, x: T)
    requires forall i, j :: 0 <= i < j < |s| ==> s[i] != s[j]
    ensures forall i, j :: 0 <= i < j < |Without(s, x)| ==> Without(s, x)[i] != Without(s, x)[j]
    ensures forall p :: p in Without(s, x) ==> p in s && p != x
    ensures forall p :: p in s && p != x ==> p in Without(s, x)
  {
    if s != [] {
      assert s == [s[0]] + s[1..];
      if s[0] == x {
        assert forall p :: p in s[1..] ==> p in s && p != x;
      } else {
        WithoutKeeps(s[1..], x);
        assert forall p :: p in s[1..] ==> p != s[0];
        assert forall j :: 0 <= j < |Without(s[1..], x)| ==> Without(s[1..], x)[j] in Without(s[1..], x);
      }
    }
  }

  lemma {:induction false} WithoutKeepsOrder<T>(s: seq<T>, x: T, a: T, b: T)
    requires a != x && b != x
    ensures Before(Without(s, x), a, b) <==> Before(s, a, b)
  {
    if s != [] {
      BeforeCons(s, a, b);
      if s[0] != x {
        WithoutKeepsOrder(s[1..], x, a, b);
        BeforeCons([s[0]] + Without(s[1..], x), a, b);
        assert ([s[0]] + Without(s[1..], x))[1..] == Without(s[1..], x);
        WithoutHas(s[1..], x, b);
      }
    }
  }

  lemma {:induction false} WithoutHas<T>(s: seq<T>, x: T, b: T)
    requires b != x
    ensures b in Without(s, x) <==> b in s
  {
    if s != [] {
      assert s == [s[0]] + s[1..];
      if s[0] != x {
        WithoutHas(s[1..], x, b);
      }
    }
  }

  lemma BeforeCons<T>(s: seq<T>, a: T, b: T)
    requires s != []
    ensures Before(s, a, b) <==> (s[0] == a && b in s[1..]) || Before(s[1..], a, b)
  {
    if Before(s, a, b) {
      var i, j :| 0 <= i < j < |s| && s[i] == a && s[j] == b;
      assert s[1..][j - 1] == b;
      if i > 0 { assert s[1..][i - 1] == a; }
    }
    if s[0] == a && b in s[1..] {
      var j :| 0 <= j < |s[1..]| && s[1..][j] == b;
      assert s[j + 1] == b;
    }
    if Before(s[1..], a, b) {
      var i, j :| 0 <= i < j < |s[1..]| && s[1..][i] == a && s[1..][j] == b;
      assert s[i + 1] == a && s[j + 1] == b;
    }
  }

  lemma OpenedKeeps<T>(l: TabList<T>, p: T)
    requires Consistent(l) && p !in l.pages
    ensures Consistent(Opened(l, p))
  {
  }

  lemma RemovedKeeps<T>(l: TabList<T>, p: T)
    requires Consistent(l)
    ensures Consistent(Removed(l, p))
  {
    WithoutKeeps(l.order, p);
  }

  lemma SelectedKeeps<T>(l: TabList<T>, i: nat)
    requires Consistent(l) && i < |l.order|
    ensures Consistent(Selected(l, i))
  {
  }

  // ----- what opening, removing and selecting come to

  /** A new page is listed last and current; the others stay where they are. */
  ghost predicate Opens<T>(l: TabList<T>, m: TabList<T>, p: T) {
    && m.current == Some(p) && |m.order| == |l.order| + 1 && m.order[|l.order|] == p
    && (forall i :: 0 <= i < |l.order| ==> m.order[i] == l.order[i])
    && m.pages == l.pages + {p}
  }

  /** A removed page is gone and no other; current only changes if it was the page, and then to the last one left. */
  ghost predicate Removes<T>(l: TabList<T>, m: TabList<T>, p: T) {
    && m.pages == l.pages - {p}
    && (forall q :: q in m.order ==> q in l.order && q != p) && (forall q :: q in l.order && q != p ==> q in m.order)
    && (forall a, b :: a in m.order && b in m.order ==> (Before(m.order, a, b) <==> Before(l.order, a, b)))
    && (l.current != Some(p) ==> m.current == l.current)
    && (l.current == Some(p) && m.order != [] ==> m.current == Some(m.order[|m.order| - 1]))
    && (l.current == Some(p) && m.order == [] ==> m.current.None?)
  }

  /** The selected page is the one at the index; set and order stay. */
  ghost predicate Selects<T>(l: TabList<T>, m: TabList<T>, i: nat) {
    i < |l.order| && m.current == Some(l.order[i]) && m.order == l.order && m.pages == l.pages
  }

  lemma OpenedOpens<T>(l: TabList<T>, p: T)
    ensures Opens(l, Opened(l, p), p)
  {
  }

  lemma RemovedRemoves<T>(l: TabList<T>, p: T)
    requires Consistent(l)
    ensures Removes(l, Removed(l, p), p)
  {
    WithoutKeeps(l.order, p);
    forall a, b | a in Without(l.order, p) && b in Without(l.order, p) ensures Before(Without(l.order, p), a, b) <==> Before(l.order, a, b) {
      WithoutKeepsOrder(l.order, p, a, b);
    }
  }

  lemma SelectedSelects<T>(l: TabList<T>, i: nat)
    requires i < |l.order|
    ensures Selects(l, Selected(l, i), i)
  {
  }

  lemma NoPagesNoTabs<T>(l: TabList<T>)
    requires Consistent(l)
    ensures l.pages == {} ==> l == TabList({}, [], None)
  {
    assert l.order == [] || l.order[0] in l.pages;
  }
}

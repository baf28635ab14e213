/**
 The browser's tab list as the object it is: a set, a list edited in place and a current page. Each method named
 in its comment as a lock region moves the ghost `protocol` by one step; `ClosePage`, `CloseTab` and `Close` are the
 sequences of such regions that the program runs.
 */
module Tabs {
  import opened Orders
  import opened Runs
  import opened TabLists
  import opened TabProtocol

  class Page {
    ghost const number: nat
    var closed: bool

    constructor (ghost number: nat)
      ensures this.number == number && !closed
    {
      this.number := number;
      closed := false;
    }
  }

  ghost function Numbers(s: seq<Page>): seq<nat> {
    seq(|s|, i requires 0 <= i < |s| => s[i].number)
  }

  // ----- the loop of removePage

  lemma {:induction false} WithoutAt(s: seq<Page>, x: Page, i: nat)
    requires i < |s| && s[i] == x && forall j :: 0 <= j < i ==> s[j] != x
    ensures Without(s, x) == s[..i] + s[i + 1..]
  {
    if i > 0 {
      WithoutAt(s[1..], x, i - 1);
      assert s[..i] == [s[0]] + s[1..][..i - 1];
      assert s[i + 1..] == s[1..][i..];
    }
  }

  lemma {:induction false} WithoutNone(s: seq<Page>, x: Page)
    requires forall j :: 0 <= j < |s| ==> s[j] != x
    ensures Without(s, x) == s
  {
    if s != [] {
      WithoutNone(s[1..], x);
    }
  }

  /** Removing a page removes its number, if the numbers tell the pages apart. */
  lemma {:induction false} WithoutNumbers(s: seq<Page>, x: Page)
    requires forall i :: 0 <= i < |s| ==> (s[i].number == x.number ==> s[i] == x)
    ensures Numbers(Without(s, x)) == Without(Numbers(s), x.number)
    ensures forall i :: 0 <= i < |Without(s, x)| ==> Without(s, x)[i] in s
  {
    if s != [] {
      assert Numbers(s)[1..] == Numbers(s[1..]);
      if s[0] != x {
        WithoutNumbers(s[1..], x);
        assert Numbers([s[0]] + Without(s[1..], x)) == [s[0].number] + Numbers(Without(s[1..], x));
      }
    }
  }

  lemma NextIsNew(s: State)
    requires TabProtocol.Reachable(s)
    ensures s.nextPage !in s.shut && s.nextPage !in s.creating
  {
    InvReachable(s);
  }

  // ----- the list of pages and the list of their numbers

  /** The page is the one that was created under its number. */
  ghost predicate KnownIn(all: seq<Page>, page: Page) {
    page.number < |all| && all[page.number] == page
  }

  /** m is l with numbers for pages. */
  ghost predicate Matches(l: TabList<Page>, m: TabList<nat>, all: seq<Page>) {
    && (forall p :: p in l.pages ==> KnownIn(all, p) && p.number in m.pages)
    && (forall k :: k in m.pages ==> k < |all| && all[k].number == k && all[k] in l.pages)
    && Numbers(l.order) == m.order && (forall i :: 0 <= i < |l.order| ==> KnownIn(all, l.order[i]))
    && (l.current.None? <==> m.current.None?)
    && (l.current.Some? ==> KnownIn(all, l.current.value) && m.current == Some(l.current.value.number))
  }

  lemma MatchesOpened(l: TabList<Page>, m: TabList<nat>, all: seq<Page>, p: Page)
    requires Matches(l, m, all) && KnownIn(all, p)
    ensures Matches(Opened(l, p), Opened(m, p.number), all)
  {
    assert Numbers(l.order + [p]) == Numbers(l.order) + [p.number];
  }

  lemma MatchesRemoved(l: TabList<Page>, m: TabList<nat>, all: seq<Page>, p: Page)
    requires Matches(l, m, all) && KnownIn(all, p)
    ensures Matches(Removed(l, p), Removed(m, p.number), all)
  {
    WithoutNumbers(l.order, p);
    var order := Without(l.order, p);
    forall i | 0 <= i < |order| ensures KnownIn(all, order[i]) {
      assert order[i] in l.order;
    }
    assert order != [] ==> Numbers(order)[|order| - 1] == order[|order| - 1].number;
  }

  lemma MatchesSelected(l: TabList<Page>, m: TabList<nat>, all: seq<Page>, i: nat)
    requires Matches(l, m, all) && i < |l.order|
    ensures i < |m.order| && Matches(Selected(l, i), Selected(m, i), all)
  {
    assert Numbers(l.order)[i] == l.order[i].number;
  }

  /** What is proved of the numbers holds of the pages. */
  lemma MatchesConsistent(l: TabList<Page>, m: TabList<nat>, all: seq<Page>)
    requires Matches(l, m, all) && Consistent(m)
    ensures Consistent(l)
  {
    assert forall i :: 0 <= i < |l.order| ==> m.order[i] == l.order[i].number;
    forall i | 0 <= i < |l.order| ensures l.order[i] in l.pages {
      assert m.order[i] in m.pages;
    }
    forall p | p in l.pages ensures p in l.order {
      var i :| 0 <= i < |m.order| && m.order[i] == p.number;
      assert l.order[i] == p;
    }
    if l.current.Some? {
      var i :| 0 <= i < |m.order| && m.order[i] == l.current.value.number;
      assert l.order[i] == l.current.value;
    }
  }

  datatype TabResult = Done | NoSuchTab

  class Browser {
    var pages: set<Page>
    var pageOrder: seq<Page>
    var current: Page?
    var closed: bool
    var lost: bool

    ghost var protocol: State
    ghost var all: seq<Page>

    ghost function View(): TabList<Page>
      reads this
    {
      TabList(pages, pageOrder, if current == null then None else Some(current as Page))
    }

    ghost predicate Known(page: Page)
      reads this
    {
      KnownIn(all, page)
    }

    ghost predicate ListShows()
      reads this
    {
      Matches(View(), protocol.tabs, all)
    }

    ghost predicate FlagsShow()
      reads this, all
    {
      && |all| == protocol.nextPage && (forall k :: 0 <= k < |all| ==> all[k].number == k)
      && (forall k :: 0 <= k < |all| ==> (all[k].closed <==> k in protocol.shut))
      && closed == protocol.closed && lost == protocol.lost
    }

    ghost predicate Valid()
      reads this, all
    {
      ListShows() && FlagsShow() && Reachable(protocol)
    }

    constructor ()
      ensures Valid() && protocol == TabProtocol.Init() && View() == TabList({}, [], None)
    {
      pages, pageOrder, current, closed, lost := {}, [], null, false, false;
      protocol, all := TabProtocol.Init(), [];
      InitReached(Next, TabProtocol.Init());
    }

    /** What is proved of the interleavings holds of the object. */
    lemma ViewIsConsistent()
      requires Valid()
      ensures Consistent(View())
      ensures forall p :: p in pages ==> p.number in protocol.listed
      ensures forall i :: 0 <= i < |pageOrder| ==> pageOrder[i] in pages
    {
      InvReachable(protocol);
      MatchesConsistent(View(), protocol.tabs, all);
    }

    /** The state check that begins NewPage, one lock region, and the page it then makes. */
    method BeginPage() returns (page: Page?)
      requires Valid()
      modifies this`protocol, this`all
      ensures Valid() && Next(old(protocol), NewPageBegin) == Some(protocol)
      ensures page == null <==> closed || lost
      ensures page != null ==> fresh(page) && Known(page) && !page.closed && page.number in protocol.creating
    {
      StepReached(Next, TabProtocol.Init(), protocol, NewPageBegin);
      NextIsNew(protocol);
      protocol := Next(protocol, NewPageBegin).value;
      if closed || lost {
        return null;
      }
      page := new Page(|all|);
      all := all + [page];
    }

    /** The lock region that ends NewPage. */
    method AddPage(page: Page) returns (ok: bool)
      requires Valid() && Known(page) && page.number in protocol.creating
      modifies this
      ensures Valid() && Next(old(protocol), NewPageCommit(page.number)) == Some(protocol) && all == old(all)
      ensures ok == !(closed || lost) && closed == old(closed) && lost == old(lost)
      ensures View() == if ok then Opened(old(View()), page) else old(View())
      ensures ok ==> Opens(old(View()), View(), page)
    {
      StepReached(Next, TabProtocol.Init(), protocol, NewPageCommit(page.number));
      MatchesOpened(View(), protocol.tabs, all, page);
      protocol := Next(protocol, NewPageCommit(page.number)).value;
      if closed || lost {
        return false;
      }
      pages := pages + {page};
      pageOrder := pageOrder + [page];
      current := page;
      return true;
    }

    /** The lock region of watchDisconnect. */
    method LoseConnection()
      requires Valid()
      modifies this`protocol, this`lost
      ensures Valid() && Next(old(protocol), ConnectionLost) == Some(protocol)
      ensures lost <==> old(lost) || !closed
    {
      StepReached(Next, TabProtocol.Init(), protocol, ConnectionLost);
      protocol := Next(protocol, ConnectionLost).value;
      if !closed {
        lost := true;
      }
    }

    /** The step that Page.Close, or Browser.Close for the page it visits, takes in the page's own lock region. */
    ghost predicate Marks(step: Step, page: Page)
      reads this
    {
      && Next(protocol, step).Some?
      && (step == PageClose(page.number) || (step == CloseVisit && protocol.closing.list[protocol.closing.pos] == page.number))
    }

    /** The lock region of Page.Close: true for the first close. */
    method MarkClosed(page: Page, ghost step: Step) returns (first: bool)
      requires Valid() && Known(page) && Marks(step, page)
      modifies this`protocol, page
      ensures Valid() && Next(old(protocol), step) == Some(protocol)
      ensures first == !old(page.closed) && page.closed
    {
      StepReached(Next, TabProtocol.Init(), protocol, step);
      first := !page.closed;
      page.closed := true;
      protocol := Next(protocol, step).value;
    }

    method CutOut(page: Page)
      modifies this`pageOrder
      ensures pageOrder == Without(old(pageOrder), page)
    {
      for i := 0 to |pageOrder|
        invariant pageOrder == old(pageOrder)
        invariant forall j :: 0 <= j < i ==> pageOrder[j] != page
      {
        if pageOrder[i] == page {
          WithoutAt(pageOrder, page, i);
          pageOrder := pageOrder[..i] + pageOrder[i + 1..];
          return;
        }
      }
      WithoutNone(pageOrder, page);
    }

    /** The step that removePage takes, called by Page.Close or on behalf of Browser.Close. */
    ghost predicate Removes(step: Step, page: Page)
      reads this
    {
      && Next(protocol, step).Some?
      && (step == Step.RemovePage(page.number)
          || (step == CloseRemove && protocol.closing.list[protocol.closing.pos] == page.number))
    }

    /** The lock region of removePage. */
    method RemovePage(page: Page, ghost step: Step)
      requires Valid() && Known(page) && Removes(step, page)
      modifies this
      ensures Valid() && Next(old(protocol), step) == Some(protocol) && all == old(all)
      ensures View() == Removed(old(View()), page) && closed == old(closed) && lost == old(lost)
      ensures TabLists.Removes(old(View()), View(), page)
    {
      ViewIsConsistent();
      StepReached(Next, TabProtocol.Init(), protocol, step);
      MatchesRemoved(View(), protocol.tabs, all, page);
      RemovedRemoves(View(), page);
      TakeOut(page);
      protocol := Next(protocol, step).value;
    }

    method TakeOut(page: Page)
      modifies this`pages, this`pageOrder, this`current
      ensures View() == Removed(old(View()), page)
    {
      pages := pages - {page};
      CutOut(page);
      if current == page {
        current := null;
        if |pageOrder| != 0 {
          current := pageOrder[|pageOrder| - 1];
        }
      }
    }

    /** Page.Close of a page on the list or once on it, with nobody in between: a second close does nothing. */
    method ClosePage(page: Page)
      requires Valid() && Known(page) && page.number in protocol.listed
      modifies this, page
      ensures Valid() && page.closed && all == old(all) && closed == old(closed) && lost == old(lost)
      ensures View() == if old(page.closed) then old(View()) else Removed(old(View()), page)
      ensures !old(page.closed) ==> TabLists.Removes(old(View()), View(), page)
    {
      var first := MarkClosed(page, PageClose(page.number));
      if first {
        RemovePage(page, Step.RemovePage(page.number));
      }
    }

    /** BrowserTabs "select", one lock region. */
    method SelectTab(index: Option<int>) returns (result: TabResult)
      requires Valid()
      modifies this`current, this`protocol
      ensures Valid()
      ensures result.Done? <==> index.Some? && 0 <= index.value < |pageOrder|
      ensures View() == if result.Done? then Selected(old(View()), index.value) else old(View())
      ensures result.Done? ==> Selects(old(View()), View(), index.value)
      ensures protocol == if index.None? then old(protocol) else Next(old(protocol), Select(index.value)).value
    {
      if index.None? {
        return NoSuchTab;
      }
      StepReached(Next, TabProtocol.Init(), protocol, Select(index.value));
      protocol := Next(protocol, Select(index.value)).value;
      if index.value < 0 || index.value >= |pageOrder| {
        return NoSuchTab;
      }
      MatchesSelected(View(), old(protocol).tabs, all, index.value);
      current := pageOrder[index.value];
      return Done;
    }

    /** The lock region of BrowserTabs "close": the numbered tab, or the current one; it may be closing already. */
    method PickTab(index: Option<int>) returns (target: Page?)
      requires Valid()
      ensures target == if index.None? then current else if 0 <= index.value < |pageOrder| then pageOrder[index.value] else null
      ensures target != null ==> target in pages && Known(target) && target.number in protocol.listed
    {
      ViewIsConsistent();
      target := null;
      if index.None? {
        target := current;
      } else if 0 <= index.value < |pageOrder| {
        target := pageOrder[index.value];
      }
    }

    /** BrowserTabs "close" with nobody in between. */
    method CloseTab(index: Option<int>) returns (result: TabResult, ghost target: Page?)
      requires Valid()
      modifies this, pages
      ensures Valid()
      ensures target == if index.None? then old(current) else if 0 <= index.value < |old(pageOrder)| then old(pageOrder)[index.value] else null
      ensures result.Done? <==> target != null
      ensures View() == if target == null || old(target.closed) then old(View()) else Removed(old(View()), target)
    {
      var picked := PickTab(index);
      target := picked;
      if picked == null {
        return NoSuchTab, target;
      }
      ClosePage(picked);
      return Done, target;
    }

    /** The lock region of Browser.Close: the pages in the order in which the set yields them, or nothing the second time. */
    method BeginClose(order: seq<Page>) returns (list: seq<Page>)
      requires Valid() && Lists(order, pages)
      modifies this`protocol, this`closed
      ensures Valid() && closed && Next(old(protocol), CloseBegin(Numbers(order))) == Some(protocol)
      ensures list == if old(closed) then [] else order
    {
      NumbersList(order);
      StepReached(Next, TabProtocol.Init(), protocol, CloseBegin(Numbers(order)));
      protocol := Next(protocol, CloseBegin(Numbers(order))).value;
      if closed {
        return [];
      }
      closed := true;
      return order;
    }

    lemma NumbersList(order: seq<Page>)
      requires Valid() && Lists(order, pages)
      ensures Lists(Numbers(order), protocol.tabs.pages)
    {
      forall i, j | 0 <= i < |order| && i < j < |order| ensures Numbers(order)[i] != Numbers(order)[j] {
        assert order[i] in pages && order[j] in pages;
      }
      forall k | k in protocol.tabs.pages ensures k in Numbers(order) {
        var i :| 0 <= i < |order| && order[i] == all[k];
        assert Numbers(order)[i] == k;
      }
    }

    /**
     Browser.Close with nobody in between: every page that no other Page.Close has marked is closed and removed, in
     whatever order the set yields them. If there is no such mark, set, order and current end empty.
     */
    method Close(order: seq<Page>)
      requires Valid() && Lists(order, pages)
      modifies this, pages
      ensures Valid() && closed
      ensures old(closed) ==> View() == old(View())
      ensures !old(closed) ==> forall p :: p in pages <==> p in old(pages) && old(p.closed)
      ensures !old(closed) && (forall p :: p in old(pages) ==> !old(p.closed)) ==> View() == TabList({}, [], None)
    {
      if closed {
        return;
      }
      MarkedPages();
      ghost var marked := protocol.removing;
      var list := BeginClose(order);
      CloseAll(list);
      LeftOver();
      Emptied();
    }

    /** The loop of Browser.Close. */
    method CloseAll(list: seq<Page>)
      requires Valid() && protocol.closing == Visiting(Numbers(list), 0) && forall i :: 0 <= i < |list| ==> Known(list[i])
      modifies this, list
      ensures Valid() && CloseDone(protocol) && protocol.removing == old(protocol).removing
      ensures all == old(all) && closed == old(closed)
    {
      for i := 0 to |list|
        invariant Valid() && all == old(all) && closed == old(closed)
        invariant protocol.closing == Visiting(Numbers(list), i) && protocol.removing == old(protocol).removing
      {
        assert Numbers(list)[i] == list[i].number;
        Visit(list[i]);
      }
    }

    /** Browser.Close calls Page.Close for the next page of its list. */
    method Visit(page: Page)
      requires Valid() && Known(page) && protocol.closing.Visiting? && protocol.closing.pos < |protocol.closing.list|
      requires protocol.closing.list[protocol.closing.pos] == page.number
      modifies this, page
      ensures Valid() && all == old(all) && closed == old(closed) && protocol.removing == old(protocol).removing
      ensures protocol.closing == Visiting(old(protocol).closing.list, old(protocol).closing.pos + 1)
    {
      var first := MarkClosed(page, CloseVisit);
      if first {
        RemovePage(page, CloseRemove);
      }
    }

    /** Before Browser.Close the pages closed but still listed are those some Page.Close is about to remove. */
    lemma MarkedPages()
      requires Valid() && !closed
      ensures forall p :: p in pages ==> (p.closed <==> p.number in protocol.removing)
      ensures forall k :: k in protocol.removing ==> k < |all| && all[k] in pages
    {
      InvReachable(protocol);
    }

    /** After it only those are left. */
    lemma LeftOver()
      requires Valid() && CloseDone(protocol)
      ensures forall p :: p in pages <==> Known(p) && p.number in protocol.removing
    {
      CloseEmptiesTabs(protocol);
      forall p ensures p in pages <==> Known(p) && p.number in protocol.removing {
        if Known(p) && p.number in protocol.removing {
          assert all[p.number] in pages;
        }
      }
    }

    /** With no pages the list is empty. */
    lemma Emptied()
      requires Valid()
      ensures pages == {} ==> View() == TabList({}, [], None)
    {
      ViewIsConsistent();
      NoPagesNoTabs(View());
    }
  }
}

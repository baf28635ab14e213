/** Opening, selecting and closing pages, and closing the browser, in any interleaving of their lock regions. */
module TabProtocol {
  import opened Orders
  import opened Runs
  import opened TabLists

  /** Browser.Close: the pages it listed, how far it got, and whether it is inside the close of one of them. */
  datatype Closing = Idle | Visiting(list: seq<nat>, pos: nat) | InPage(list: seq<nat>, pos: nat)

  /**
   Pages are numbered in the order of NewPage. `creating` are those whose tab is being made, `listed` those ever
   put on the list, `shut` those whose own closed flag is set, `removing` those some Page.Close is about to remove.
   */
  datatype State = State(
    tabs: TabList<nat>, closed: bool, lost: bool,
    nextPage: nat, creating: set<nat>, listed: set<nat>, shut: set<nat>, removing: set<nat>,
    closing: Closing)

  function Init(): State {
    State(TabList({}, [], None), false, false, 0, {}, {}, {}, {}, Idle)
  }

  datatype Step =
    | NewPageBegin
    | NewPageFails(page: nat)
    | NewPageCommit(page: nat)
    | PageClose(page: nat)
    | RemovePage(page: nat)
    | Select(index: int)
    | ConnectionLost
    | CloseBegin(list: seq<nat>)
    | CloseVisit
    | CloseRemove

  predicate StateError(s: State) {
    s.closed || s.lost
  }

  function Next(s: State, a: Step): Option<State> {
    match a
    case NewPageBegin =>
      if StateError(s) then Some(s) else Some(s.(nextPage := s.nextPage + 1, creating := s.creating + {s.nextPage}))
    case NewPageFails(p) => if p in s.creating then Some(s.(creating := s.creating - {p})) else None
    case NewPageCommit(p) =>
      if p !in s.creating then None
      else if StateError(s) then Some(s.(creating := s.creating - {p}))
      else Some(s.(creating := s.creating - {p}, listed := s.listed + {p}, tabs := Opened(s.tabs, p)))
    case PageClose(p) =>
      if p !in s.listed then None
      else if p in s.shut then Some(s)
      else Some(s.(shut := s.shut + {p}, removing := s.removing + {p}))
    case RemovePage(p) =>
      if p !in s.removing then None else Some(s.(removing := s.removing - {p}, tabs := Removed(s.tabs, p)))
    case Select(i) => if 0 <= i < |s.tabs.order| then Some(s.(tabs := Selected(s.tabs, i))) else Some(s)
    case ConnectionLost => Some(if s.closed then s else s.(lost := true))
    case CloseBegin(list) =>
      if s.closed then Some(s)
      else if Lists(list, s.tabs.pages) then Some(s.(closed := true, closing := Visiting(list, 0)))
      else None
    case CloseVisit =>
      if !s.closing.Visiting? || s.closing.pos >= |s.closing.list| then None
      else
        var p := s.closing.list[s.closing.pos];
        if p in s.shut then Some(s.(closing := Visiting(s.closing.list, s.closing.pos + 1)))
        else Some(s.(shut := s.shut + {p}, closing := InPage(s.closing.list, s.closing.pos)))
    case CloseRemove =>
      if !s.closing.InPage? || s.closing.pos >= |s.closing.list| then None
      else
        Some(s.(tabs := Removed(s.tabs, s.closing.list[s.closing.pos]),
                closing := Visiting(s.closing.list, s.closing.pos + 1)))
  }

  ghost predicate Reachable(s: State) {
    ReachableFrom(Next, Init(), s)
  }

  /** Browser.Close has not yet dealt with p. */
  ghost predicate Ahead(s: State, p: nat) {
    match s.closing
    case Idle => true
    case Visiting(list, pos) => exists i :: pos <= i < |list| && list[i] == p
    case InPage(list, pos) => exists i :: pos <= i < |list| && list[i] == p
  }

  /** p's close by Browser.Close has set its flag and not yet removed it. */
  ghost predicate Inside(s: State, p: nat) {
    s.closing.InPage? && s.closing.pos < |s.closing.list| && s.closing.list[s.closing.pos] == p
  }

  /** The list is in step, and pages come and go as their numbers and flags say. */
  ghost predicate Pages(s: State) {
    && Consistent(s.tabs)
    && (forall p :: p in s.creating ==> p < s.nextPage && p !in s.listed)
    && (forall p :: p in s.listed ==> p < s.nextPage)
    && (forall p :: p in s.tabs.pages ==> p in s.listed)
    && (forall p :: p in s.shut ==> p in s.listed)
    && (forall p :: p in s.listed && p !in s.tabs.pages ==> p in s.shut)
  }

  /** A shut page is either off the list or being taken off it by exactly one closer. */
  ghost predicate Flags(s: State) {
    && (forall p :: p in s.removing ==> p in s.tabs.pages && p in s.shut && !Inside(s, p))
    && (forall p :: p in s.tabs.pages && p in s.shut ==> p in s.removing || Inside(s, p))
    && (forall p: nat :: Inside(s, p) ==> p in s.shut)
  }

  ghost predicate Progress(s: State) {
    && (s.closing.Idle? <==> !s.closed)
    && (!s.closing.Idle? ==> s.closing.pos <= |s.closing.list|)
    && (s.closing.InPage? ==> s.closing.pos < |s.closing.list|)
    && (!s.closing.Idle? ==> forall i :: 0 <= i < |s.closing.list| ==> s.closing.list[i] in s.listed)
    && (forall p :: p in s.tabs.pages ==> p in s.removing || Ahead(s, p))
  }

  ghost predicate Inv(s: State) {
    Pages(s) && Flags(s) && Progress(s)
  }

  lemma CloseBeginKeeps(s: State, list: seq<nat>)
    requires Inv(s) && Next(s, CloseBegin(list)).Some?
    ensures Inv(Next(s, CloseBegin(list)).value)
  {
    var s' := Next(s, CloseBegin(list)).value;
    if s' != s {
      forall p | p in s'.tabs.pages ensures Ahead(s', p) {
        assert p in list;
      }
    }
  }

  lemma CloseVisitKeeps(s: State)
    requires Inv(s) && Next(s, CloseVisit).Some?
    ensures Inv(Next(s, CloseVisit).value)
  {
    var s' := Next(s, CloseVisit).value;
    forall p | p in s'.tabs.pages ensures p in s'.removing || Ahead(s', p) {
      assert p in s.removing || Ahead(s, p);
    }
  }

  lemma CloseRemoveKeeps(s: State)
    requires Inv(s) && Next(s, CloseRemove).Some?
    ensures Inv(Next(s, CloseRemove).value)
  {
    var s' := Next(s, CloseRemove).value;
    var q := s.closing.list[s.closing.pos];
    RemovedKeeps(s.tabs, q);
    assert Inside(s, q);
    forall p | p in s'.tabs.pages ensures p in s'.removing || Ahead(s', p) {
      assert p in s.removing || Ahead(s, p);
    }
  }

  lemma CommitKeeps(s: State, p: nat)
    requires Inv(s) && Next(s, NewPageCommit(p)).Some?
    ensures Inv(Next(s, NewPageCommit(p)).value)
  {
    var s' := Next(s, NewPageCommit(p)).value;
    if StateError(s) {
      AheadFrame(s, s');
    } else {
      OpenedKeeps(s.tabs, p);
    }
  }

  lemma RemovePageKeeps(s: State, p: nat)
    requires Inv(s) && Next(s, RemovePage(p)).Some?
    ensures Inv(Next(s, RemovePage(p)).value)
  {
    var s' := Next(s, RemovePage(p)).value;
    RemovedKeeps(s.tabs, p);
    forall q | q in s'.tabs.pages ensures q in s'.removing || Ahead(s', q) {
      assert q in s.removing || Ahead(s, q);
    }
  }

  /** Steps that leave the closing alone and take no page out of `removing`. */
  lemma AheadFrame(s: State, s': State)
    requires Progress(s) && s'.closing == s.closing && s.removing <= s'.removing
    requires s'.tabs.pages == s.tabs.pages
    ensures forall p :: p in s'.tabs.pages ==> p in s'.removing || Ahead(s', p)
  {
    forall p | p in s'.tabs.pages ensures p in s'.removing || Ahead(s', p) {
      assert p in s.removing || Ahead(s, p);
    }
  }

  lemma PlainStepKeeps(s: State, a: Step)
    requires Inv(s) && Next(s, a).Some?
    requires a.NewPageBegin? || a.NewPageFails? || a.PageClose? || a.Select? || a.ConnectionLost?
    ensures Inv(Next(s, a).value)
  {
    AheadFrame(s, Next(s, a).value);
    if a.Select? && 0 <= a.index < |s.tabs.order| {
      SelectedKeeps(s.tabs, a.index);
    }
  }

  lemma InvKept(s: State, a: Step)
    requires Inv(s) && Next(s, a).Some?
    ensures Inv(Next(s, a).value)
  {
    match a
    case CloseBegin(list) => CloseBeginKeeps(s, list);
    case CloseVisit => CloseVisitKeeps(s);
    case CloseRemove => CloseRemoveKeeps(s);
    case NewPageCommit(p) => CommitKeeps(s, p);
    case RemovePage(p) => RemovePageKeeps(s, p);
    case _ => PlainStepKeeps(s, a);
  }

  lemma InvReachable(s: State)
    requires Reachable(s)
    ensures Inv(s)
  {
    forall x, a | Inv(x) && Next(x, a).Some? ensures Inv(Next(x, a).value) {
      InvKept(x, a);
    }
    KeptReached(Next, Init(), Inv, s);
  }

  /** In every interleaving the set, the order and the current page agree. */
  lemma TabsAreConsistent(s: State)
    requires Reachable(s)
    ensures Consistent(s.tabs)
  {
    InvReachable(s);
  }

  /** Browser.Close has gone through its whole list. */
  predicate CloseDone(s: State) {
    s.closing.Visiting? && s.closing.pos == |s.closing.list|
  }

  /**
   When Browser.Close is through, whatever order it visited the pages in, the pages left are those that another
   Page.Close has marked and not yet removed. So all three are empty if and only if no such close is under way.
   */
  lemma CloseEmptiesTabs(s: State)
    requires Reachable(s) && CloseDone(s)
    ensures forall p :: p in s.tabs.pages <==> p in s.removing
    ensures s.tabs == TabList({}, [], None) <==> s.removing == {}
  {
    InvReachable(s);
    forall p | p in s.tabs.pages ensures p in s.removing {
      assert p in s.removing || Ahead(s, p);
    }
    NoPagesNoTabs(s.tabs);
  }

  /** It does happen that a page is left: its own close was overtaken by Browser.Close between flag and removal. */
  lemma CloseLeavesPages() returns (s: State)
    ensures Reachable(s) && CloseDone(s) && s.removing == {0} && s.tabs == TabList({0}, [0], Some(0))
  {
    InitReached(Next, Init());
    s := Stepped(Init(), NewPageBegin);
    s := Stepped(s, NewPageCommit(0));
    s := Stepped(s, PageClose(0));
    assert Lists([0], s.tabs.pages);
    s := Stepped(s, CloseBegin([0]));
    s := Stepped(s, CloseVisit);
  }

  lemma Stepped(s: State, a: Step) returns (s': State)
    requires Reachable(s) && Next(s, a).Some?
    ensures s' == Next(s, a).value && Reachable(s')
  {
    StepReached(Next, Init(), s, a);
    s' := Next(s, a).value;
  }
}

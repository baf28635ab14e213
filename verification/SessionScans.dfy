/** Auto-attach: what is listed, what is spawned, and what a finished EnableAutoAttach loop has done. */
module SessionScans {
  import opened Runs
  import opened SessionProtocol
  import opened SessionInvariants
  import opened SessionCallers

  ghost predicate TaskOk(s: State, scan: Scan, i: nat)
    requires i < |scan.tasks|
  {
    && i < |scan.ids| && scan.tasks[i] < |s.callers| && s.callers[scan.tasks[i]].tab == scan.ids[i]
    && (i + 1 < |scan.tasks| || scan.result.Complete? ==>
          s.callers[scan.tasks[i]].status.Returned? && s.callers[scan.tasks[i]].status.answer.Got?)
  }

  ghost predicate ScanOk(s: State, scan: Scan) {
    && |scan.tasks| <= |scan.ids|
    && (forall i :: 0 <= i < |scan.tasks| ==> TaskOk(s, scan, i))
    && (scan.result.Complete? ==> |scan.tasks| == |scan.ids|)
    && (scan.result.Stopped? ==> StoppedOk(s, scan))
  }

  /** The loop stopped at the error its last attachTab returned. */
  ghost predicate StoppedOk(s: State, scan: Scan)
    requires scan.result.Stopped?
  {
    && scan.tasks != [] && scan.tasks[|scan.tasks| - 1] < |s.callers|
    && s.callers[scan.tasks[|scan.tasks| - 1]].status.Returned?
    && s.callers[scan.tasks[|scan.tasks| - 1]].status.answer == scan.result.answer && !scan.result.answer.Got?
  }

  ghost predicate Scans(s: State) {
    forall j :: 0 <= j < |s.scans| ==> ScanOk(s, s.scans[j])
  }

  /** Callers only grow, so a scan that is not itself stepped stays as it was. */
  lemma ScanStays(s: State, s': State, scan: Scan)
    requires ScanOk(s, scan)
    requires |s.callers| <= |s'.callers| && forall k :: 0 <= k < |s.callers| ==> CallerGrows(s.callers[k], s'.callers[k])
    ensures ScanOk(s', scan)
  {
    forall i | 0 <= i < |scan.tasks| ensures TaskOk(s', scan, i) {
      assert TaskOk(s, scan, i);
    }
    if scan.result.Stopped? {
      assert TaskOk(s, scan, |scan.tasks| - 1);
    }
  }

  /** A step that steps no scan. */
  lemma ScansFrame(s: State, s': State)
    requires Scans(s) && Grows(s, s') && s'.scans == s.scans
    ensures Scans(s')
  {
    forall j | 0 <= j < |s'.scans| ensures ScanOk(s', s'.scans[j]) {
      ScanStays(s, s', s.scans[j]);
    }
  }

  /** The last attachTab of a scan, if there was one, has returned a session. */
  ghost predicate LastGot(s: State, scan: Scan) {
    var n := |scan.tasks|;
    n != 0 ==>
      scan.tasks[n - 1] < |s.callers| && s.callers[scan.tasks[n - 1]].status.Returned? && s.callers[scan.tasks[n - 1]].status.answer.Got?
  }

  lemma ScanSpawns(s: State, s': State, scan: Scan, caller: Caller)
    requires ScanOk(s, scan) && scan.result.Running? && LastGot(s, scan) && |scan.tasks| < |scan.ids|
    requires s'.callers == s.callers + [caller] && caller.tab == scan.ids[|scan.tasks|]
    ensures ScanOk(s', scan.(tasks := scan.tasks + [|s.callers|]))
  {
    var scan' := scan.(tasks := scan.tasks + [|s.callers|]);
    forall i | 0 <= i < |scan'.tasks| ensures TaskOk(s', scan', i) {
      if i < |scan.tasks| { assert TaskOk(s, scan, i); }
    }
  }

  lemma ScanEnds(s: State, scan: Scan, result: ScanResult)
    requires ScanOk(s, scan) && scan.result.Running?
    requires result.Complete? ==> LastGot(s, scan) && |scan.tasks| == |scan.ids|
    requires result.Stopped? ==> StoppedOk(s, scan.(result := result))
    ensures ScanOk(s, scan.(result := result))
  {
    var scan' := scan.(result := result);
    forall i | 0 <= i < |scan'.tasks| ensures TaskOk(s, scan', i) {
      assert TaskOk(s, scan, i);
    }
  }

  lemma ScanAdvances(s: State, s': State, j: nat)
    requires OnScanStep(s, j) == Some(s') && ScanOk(s, s.scans[j])
    ensures ScanOk(s', s'.scans[j])
  {
    var scan := s.scans[j];
    if LastGot(s, scan) && |scan.tasks| < |scan.ids| {
      ScanSpawns(s, s', scan, Caller(scan.ids[|scan.tasks|], FromScan(j), Ready));
    } else {
      ScanEnds(s, scan, s'.scans[j].result);
      ScanStays(s, s', s'.scans[j]);
    }
  }

  lemma ScansScanStep(s: State, j: nat)
    requires Scans(s) && OnScanStep(s, j).Some?
    ensures Scans(OnScanStep(s, j).value)
  {
    var s' := OnScanStep(s, j).value;
    assert forall k :: 0 <= k < |s.callers| ==> CallerGrows(s.callers[k], s'.callers[k]);
    forall i | 0 <= i < |s'.scans| ensures ScanOk(s', s'.scans[i]) {
      if i != j {
        ScanStays(s, s', s.scans[i]);
      } else {
        ScanAdvances(s, s', j);
      }
    }
  }

  lemma ScansEnable(s: State, order: seq<int>)
    requires Scans(s) && OnEnableAutoAttach(s, order).Some?
    ensures Scans(OnEnableAutoAttach(s, order).value)
  {
    var s' := OnEnableAutoAttach(s, order).value;
    forall j | 0 <= j < |s'.scans| ensures ScanOk(s', s'.scans[j]) {
      if j < |s.scans| { ScanStays(s, s', s.scans[j]); }
    }
  }

  lemma ScansKept(s: State, a: Step)
    requires Core(s) && Callers(s) && Scans(s) && Next(s, a).Some?
    ensures Scans(Next(s, a).value)
  {
    CallersKept(s, a);
    match a
    case EnableAutoAttach(order) => ScansEnable(s, order);
    case ScanStep(j) => ScansScanStep(s, j);
    case _ =>
      NewsFrame(s, a);
      ScansFrame(s, Next(s, a).value);
  }

  // ----- no tab is missed

  /** Some attach task from number `from` on was started for tab t by its creation. */
  ghost predicate HasOwnTask(s: State, t: int, from: nat) {
    exists k :: from <= k < |s.callers| && s.callers[k].tab == t && s.callers[k].origin == TabEvent
  }

  /** Some EnableAutoAttach from number `from` on listed tab t. */
  ghost predicate IsListed(s: State, t: int, from: nat) {
    exists j :: from <= j < |s.scans| && t in s.scans[j].ids
  }

  /** If auto-attach is on and t is known, t has a task or a list no older than these. */
  ghost predicate Covered(s: State, t: int, tasks: nat, lists: nat) {
    s.autoAttach && t in s.knownTabs ==> HasOwnTask(s, t, tasks) || IsListed(s, t, lists)
  }

  /** A step that neither creates a tab nor turns auto-attach on. */
  lemma CoverStays(s: State, s': State, t: int, tasks: nat, lists: nat)
    requires Covered(s, t, tasks, lists)
    requires s'.autoAttach == s.autoAttach && s'.knownTabs.Keys <= s.knownTabs.Keys
    requires |s.callers| <= |s'.callers| && forall k :: 0 <= k < |s.callers| ==> CallerGrows(s.callers[k], s'.callers[k])
    requires |s.scans| == |s'.scans| && forall j :: 0 <= j < |s.scans| ==> s'.scans[j].ids == s.scans[j].ids
    ensures Covered(s', t, tasks, lists)
  {
    if s'.autoAttach && t in s'.knownTabs {
      if HasOwnTask(s, t, tasks) {
        var k :| tasks <= k < |s.callers| && s.callers[k].tab == t && s.callers[k].origin == TabEvent;
        assert s'.callers[k].tab == t && s'.callers[k].origin == TabEvent;
      } else {
        var j :| lists <= j < |s.scans| && t in s.scans[j].ids;
        assert t in s'.scans[j].ids;
      }
    }
  }

  /** A new tab gets its task at once if auto-attach is on, whether it was known before or not. */
  lemma CoverCreated(s: State, tab: Tab, t: int, tasks: nat, lists: nat)
    requires tasks <= |s.callers|
    requires Covered(s, t, tasks, lists) || tab.id == Some(t)
    ensures Covered(OnTabCreated(s, tab, TabEvent), t, tasks, lists)
  {
    var s' := OnTabCreated(s, tab, TabEvent);
    if tab.id == Some(t) {
      assert s'.autoAttach ==> s'.callers[|s.callers|].tab == t;
    } else if s'.autoAttach && t in s'.knownTabs && HasOwnTask(s, t, tasks) {
      var k :| tasks <= k < |s.callers| && s.callers[k].tab == t && s.callers[k].origin == TabEvent;
      assert s'.callers[k] == s.callers[k];
    }
  }

  lemma CoverReply(s: State, tab: Tab, t: int, tasks: nat, lists: nat)
    requires tasks <= |s.callers| && OnCreateReply(s, tab).Some?
    requires Covered(s, t, tasks, lists) || tab.id == Some(t)
    ensures Covered(OnCreateReply(s, tab).value, t, tasks, lists)
  {
    CoverCreated(s, tab, t, tasks, lists);
    CoverStays(OnTabCreated(s, tab, TabEvent), OnCreateReply(s, tab).value, t, tasks, lists);
  }

  lemma CoverScanStep(s: State, j: nat, t: int, tasks: nat, lists: nat)
    requires OnScanStep(s, j).Some? && Covered(s, t, tasks, lists)
    ensures Covered(OnScanStep(s, j).value, t, tasks, lists)
  {
    CoverStays(s, OnScanStep(s, j).value, t, tasks, lists);
  }

  lemma CoverEnable(s: State, order: seq<int>, t: int, tasks: nat, lists: nat)
    requires OnEnableAutoAttach(s, order).Some? && lists <= |s.scans|
    ensures Covered(OnEnableAutoAttach(s, order).value, t, tasks, lists)
  {
    var s' := OnEnableAutoAttach(s, order).value;
    assert t in s'.knownTabs ==> t in s'.scans[|s.scans|].ids;
  }

  lemma CoverKept(s: State, a: Step, t: int, tasks: nat, lists: nat)
    requires Core(s) && Callers(s) && Next(s, a).Some? && tasks <= |s.callers| && lists <= |s.scans|
    requires Covered(s, t, tasks, lists) || Creates(a, t)
    ensures Covered(Next(s, a).value, t, tasks, lists)
  {
    CallersKept(s, a);
    match a
    case TabCreated(tab) => CoverCreated(s, tab, t, tasks, lists);
    case CreateReply(tab) => CoverReply(s, tab, t, tasks, lists);
    case EnableAutoAttach(order) => CoverEnable(s, order, t, tasks, lists);
    case ScanStep(j) => CoverScanStep(s, j, t, tasks, lists);
    case _ =>
      NewsFrame(s, a);
      CoverStays(s, Next(s, a).value, t, tasks, lists);
  }

  /** The step creates tab t. */
  predicate Creates(a: Step, t: int) {
    (a.TabCreated? || a.CreateReply?) && a.tab.id == Some(t)
  }

  /** What a step other than these leaves alone: the lists, the flag, and unless it creates a tab, what is known. */
  lemma NewsFrame(s: State, a: Step)
    requires !a.EnableAutoAttach? && !a.ScanStep? && Next(s, a).Some?
    ensures Next(s, a).value.scans == s.scans && Next(s, a).value.autoAttach == s.autoAttach
    ensures a.TabCreated? || a.CreateReply? || Next(s, a).value.knownTabs.Keys <= s.knownTabs.Keys
  {
    if IsExchange(a) {
      assert Next(s, a) == Exchange(s, a);
      ExchangeShape(s, a);
    } else if Hears(a) {
      HeardFrame(s, a);
    } else if IsLeaders(a) {
      LeaderFrame(s, a);
    } else {
      match a
      case TabCreated(tab) =>
      case CreateReply(tab) =>
      case Begin(k) => assert Next(s, a) == OnBegin(s, k);
      case WaiterWoken(k) => assert Next(s, a) == OnWaiterWoken(s, k);
      case WaiterCancelled(k) => assert Next(s, a) == OnWaiterCancelled(s, k);
      case Emit(e) => assert Next(s, a) == OnEmit(s, e);
    }
  }

  lemma {:induction false} CoverRun(s: State, steps: seq<Step>, e: State, t: int, tasks: nat, lists: nat)
    requires Core(s) && Callers(s) && Reaches(Next, s, steps, e) && tasks <= |s.callers| && lists <= |s.scans|
    requires Covered(s, t, tasks, lists) || (steps != [] && Creates(steps[0], t))
    ensures Covered(e, t, tasks, lists)
    decreases |steps|
  {
    if steps != [] {
      var s' := Next(s, steps[0]).value;
      CoverKept(s, steps[0], t, tasks, lists);
      CoreKept(s, steps[0]);
      CallersKept(s, steps[0]);
      ScansGrow(s, steps[0]);
      CoverRun(s', steps[1..], e, t, tasks, lists);
    }
  }

  lemma ScansGrow(s: State, a: Step)
    requires Next(s, a).Some?
    ensures |s.scans| <= |Next(s, a).value.scans|
  {
    if a.EnableAutoAttach? || a.ScanStep? {
    } else {
      NewsFrame(s, a);
    }
  }
}

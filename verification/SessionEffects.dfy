/** What single steps of the router come to, and what callers are told in the end. */
module SessionEffects {
  import opened Orders
  import opened Runs
  import opened SessionProtocol
  import opened SessionInvariants
  import opened SessionCallers
  import opened SessionEvents
  import opened SessionScans
  import opened SessionTheorems
  import AttachLog

  // ----- the replies of the extension to an attempt

  /** The target description names its target. */
  ghost predicate NamesTarget(info: TargetInfo) {
    "targetId" in info && info["targetId"].Text? && info["targetId"].text != ""
  }

  ghost predicate IsUsable(reply: InfoReply) {
    reply.ReplyInfo? && NamesTarget(reply.info)
  }

  /** The error that a reply without usable information stands for. */
  ghost predicate Means(reply: InfoReply, error: AttachError) {
    match reply
    case ReplyError(text) => error == ExtensionError(text)
    case ReplyUndecodable => error == UndecodableInfo
    case ReplyInfo(_) => error == NoTargetId
  }

  /** A reply to getTargetInfo counts as usable exactly if it names a target; else the attempt holds the error it means. */
  lemma InfoReplyIsJudged(s: State, c: nat, reply: InfoReply)
    requires Next(s, GetInfoReply(c, reply)).Some?
    ensures c < |s.calls| && c < |Next(s, GetInfoReply(c, reply)).value.calls|
    ensures var s' := Next(s, GetInfoReply(c, reply)).value;
      s'.log == s.log + [Entry(s.calls[c].tab, if IsUsable(reply) then MUsable else MUnusable)]
    ensures var p := Next(s, GetInfoReply(c, reply)).value.calls[c].phase;
      if IsUsable(reply) then p == InfoUsable(reply.info) else p.InfoUnusable? && Means(reply, p.error)
  {
  }

  /** An attach is refused exactly if its reply carries an error. */
  lemma AttachReplyIsJudged(s: State, c: nat, error: Option<string>)
    requires Next(s, AttachReply(c, error)).Some?
    ensures c < |s.calls| && c < |Next(s, AttachReply(c, error)).value.calls|
    ensures var s' := Next(s, AttachReply(c, error)).value;
      s'.log == s.log + [Entry(s.calls[c].tab, if error.Some? then MRefused else MAccepted)]
    ensures var p := Next(s, AttachReply(c, error)).value.calls[c].phase;
      p == if error.Some? then Abandoning(ExtensionError(error.value)) else AttachAccepted
  {
  }

  /** The attempt is lost for this reason, and only has to be undone and reported. */
  ghost predicate Lost(s: State, c: nat, error: AttachError) {
    c < |s.calls|
    && s.calls[c].phase in {InfoUnusable(error), DetachSent(error), Abandoning(error), Finished(Failed(error))}
  }

  /** The attempt has this target description. */
  ghost predicate Won(s: State, c: nat, info: TargetInfo) {
    c < |s.calls| && var p := s.calls[c].phase;
    (p.InfoUsable? && p.info == info) || (p.Numbered? && p.info == info) || (p.Committed? && p.info == info) || (p.Finished? && p.answer.Got?)
  }

  lemma FateIsKept(s: State, a: Step, c: nat)
    requires Next(s, a).Some?
    ensures forall error :: Lost(s, c, error) ==> Lost(Next(s, a).value, c, error)
    ensures forall info :: Won(s, c, info) ==> Won(Next(s, a).value, c, info)
  {
    if IsExchange(a) {
      assert Next(s, a) == Exchange(s, a);
      ExchangeFate(s, a, c);
    } else if LeavesCore(a) {
      LeavesCoreFrame(s, a);
    } else if Hears(a) {
      HeardFrame(s, a);
    } else if IsLeaders(a) {
      LeaderFate(s, a, c);
    } else {
      assert Next(s, a) == OnBegin(s, a.caller);
    }
  }

  lemma LeaderFate(s: State, a: Step, c: nat)
    requires IsLeaders(a) && Next(s, a).Some?
    ensures forall error :: Lost(s, c, error) ==> Lost(Next(s, a).value, c, error)
    ensures forall info :: Won(s, c, info) ==> Won(Next(s, a).value, c, info)
  {
    match a
    case TakeNumber(d) => assert Next(s, a) == OnTakeNumber(s, d);
    case Commit(d) => CommitEnds(s, d);
    case Abandon(d) => AbandonEnds(s, d);
    case EmitAttached(d) => assert Next(s, a) == OnEmitAttached(s, d);
  }

  lemma ExchangeFate(s: State, a: Step, c: nat)
    requires Exchange(s, a).Some?
    ensures forall error :: Lost(s, c, error) ==> Lost(Exchange(s, a).value, c, error)
    ensures forall info :: Won(s, c, info) ==> Won(Exchange(s, a).value, c, info)
  {
  }

  lemma {:induction false} LostForGood(s: State, steps: seq<Step>, e: State, c: nat, error: AttachError)
    requires Reaches(Next, s, steps, e) && Lost(s, c, error)
    ensures Lost(e, c, error)
    decreases |steps|
  {
    if steps != [] {
      FateIsKept(s, steps[0], c);
      LostForGood(Next(s, steps[0]).value, steps[1..], e, c, error);
    }
  }

  lemma {:induction false} WonForGood(s: State, steps: seq<Step>, e: State, c: nat, info: TargetInfo)
    requires Reaches(Next, s, steps, e) && Won(s, c, info)
    ensures Won(e, c, info)
    decreases |steps|
  {
    if steps != [] {
      FateIsKept(s, steps[0], c);
      WonForGood(Next(s, steps[0]).value, steps[1..], e, c, info);
    }
  }

  /** Caller k has returned this answer of attempt c. */
  ghost predicate Told(s: State, k: nat, c: nat, a: Answer) {
    k < |s.callers| && s.callers[k].status == Returned(Attempt(c), a) && !a.ContextEnded?
  }

  /** What a caller is told is what the attempt published. */
  lemma ToldIsPublished(s: State, k: nat, c: nat, a: Answer)
    requires Reachable(s) && Told(s, k, c, a)
    ensures c < |s.calls| && Published(s.calls[c].phase) == Some(a)
  {
    InvReachable(s);
    assert CallerOk(s, k);
  }

  /**
   After a reply to getTargetInfo, however the run goes on: if it named no target, every caller that is told anything
   is told the error it means, and the attempt never draws a number; if it did, every caller is told a session, and
   the session that is filed when the attempt commits has this very description.
   */
  lemma InfoReplyReachesCallers(s: State, c: nat, reply: InfoReply, steps: seq<Step>, e: State, k: nat, a: Answer)
    requires Reachable(s) && Next(s, GetInfoReply(c, reply)).Some?
    requires Reaches(Next, Next(s, GetInfoReply(c, reply)).value, steps, e)
    ensures Told(e, k, c, a) ==> if IsUsable(reply) then a.Got? else a.Failed? && Means(reply, a.error)
    ensures c < |e.calls| && (!IsUsable(reply) ==> NumberOf(e.calls[c].phase).None?)
    ensures IsUsable(reply) && Next(e, Commit(c)).Some? ==>
      e.calls[c].tab in Next(e, Commit(c)).value.sessions
      && Next(e, Commit(c)).value.sessions[e.calls[c].tab].info == reply.info
  {
    var s' := Next(s, GetInfoReply(c, reply)).value;
    StepReachable(s, GetInfoReply(c, reply));
    RunReached(Next, Init(), s', steps, e);
    InfoReplyIsJudged(s, c, reply);
    if IsUsable(reply) {
      WonForGood(s', steps, e, c, reply.info);
      if Next(e, Commit(c)).Some? { CommitEnds(e, c); }
    } else {
      LostForGood(s', steps, e, c, s'.calls[c].phase.error);
    }
    if Told(e, k, c, a) { ToldIsPublished(e, k, c, a); }
  }

  lemma LogGrowsStep(s: State, a: Step)
    requires Next(s, a).Some?
    ensures s.log <= Next(s, a).value.log
  {
  }

  lemma {:induction false} LogGrows(s: State, steps: seq<Step>, e: State)
    requires Reaches(Next, s, steps, e)
    ensures s.log <= e.log
    decreases |steps|
  {
    if steps != [] {
      LogGrowsStep(s, steps[0]);
      LogGrows(Next(s, steps[0]).value, steps[1..], e);
    }
  }

  lemma {:induction false} TabLogGrows(log: seq<Entry>, more: seq<Entry>, t: int)
    requires log <= more
    ensures AttachLog.TabLog(log, t) <= AttachLog.TabLog(more, t)
    decreases |more|
  {
    if |log| < |more| {
      TabLogGrows(log, more[..|more| - 1], t);
    } else {
      assert log == more;
    }
  }

  /** After a reply that names no target, the next that tab ever sees is the compensating detach. */
  lemma UnusableReplyIsUndone(s: State, c: nat, reply: InfoReply, steps: seq<Step>, e: State)
    requires Reachable(s) && Next(s, GetInfoReply(c, reply)).Some? && !IsUsable(reply)
    requires Reaches(Next, Next(s, GetInfoReply(c, reply)).value, steps, e)
    ensures c < |s.calls|
    ensures var t := s.calls[c].tab;
      var x, log := |AttachLog.TabLog(s.log, t)|, AttachLog.TabLog(e.log, t);
      x < |log| && log[x] == MUnusable && (x + 1 < |log| ==> log[x + 1] == MDetach)
  {
    var s' := Next(s, GetInfoReply(c, reply)).value;
    InfoReplyIsJudged(s, c, reply);
    StepReachable(s, GetInfoReply(c, reply));
    RunReached(Next, Init(), s', steps, e);
    var t := s.calls[c].tab;
    AttachLog.TabLogAppend(s.log, Entry(t, MUnusable), t);
    LogGrows(s', steps, e);
    TabLogGrows(s'.log, e.log, t);
    var x, log := |AttachLog.TabLog(s.log, t)|, AttachLog.TabLog(e.log, t);
    assert AttachLog.TabLog(s'.log, t)[x] == MUnusable;
    if x + 1 < |log| {
      FailedAttemptIsUndone(e, t, x);
    }
  }

  /** After a refused attach every caller that is told anything is told the refusal. */
  lemma RefusalReachesCallers(s: State, c: nat, text: string, steps: seq<Step>, e: State, k: nat, a: Answer)
    requires Reachable(s) && Next(s, AttachReply(c, Some(text))).Some?
    requires Reaches(Next, Next(s, AttachReply(c, Some(text))).value, steps, e)
    ensures Told(e, k, c, a) ==> a == Failed(ExtensionError(text))
    ensures c < |e.calls| && NumberOf(e.calls[c].phase).None?
  {
    var s' := Next(s, AttachReply(c, Some(text))).value;
    StepReachable(s, AttachReply(c, Some(text)));
    RunReached(Next, Init(), s', steps, e);
    AttachReplyIsJudged(s, c, Some(text));
    LostForGood(s', steps, e, c, ExtensionError(text));
    if Told(e, k, c, a) { ToldIsPublished(e, k, c, a); }
  }

  /** Caller k comes to return that its context ended. */
  ghost predicate EndsContext(s: State, s': State, k: nat) {
    && k < |s'.callers| && s'.callers[k].status.Returned? && s'.callers[k].status.answer.ContextEnded?
    && (k < |s.callers| ==> s.callers[k].status != s'.callers[k].status)
  }

  /** Only a waiter whose own context ends is told so. */
  lemma ContextEndsOnlyByCancel(s: State, a: Step, k: nat)
    requires Reachable(s) && Next(s, a).Some?
    ensures EndsContext(s, Next(s, a).value, k) ==> a == WaiterCancelled(k) && k < |s.callers| && s.callers[k].status.Joined?
  {
    if IsExchange(a) {
      assert Next(s, a) == Exchange(s, a);
      ExchangeShape(s, a);
    } else if Hears(a) {
      HeardFrame(s, a);
    } else if IsLeaders(a) {
      LeaderReturns(s, a, k);
    } else if AppendsCallers(a) {
      AppendedAreReady(s, a);
    } else if a.Begin? {
      BeginTakesItsTurn(s, a.caller);
    } else if a.WaiterWoken? {
      WokenGetsPublished(s, a.caller);
    } else {
      assert Next(s, a) == OnWaiterCancelled(s, a.caller);
    }
  }

  lemma AppendedAreReady(s: State, a: Step)
    requires AppendsCallers(a) && Next(s, a).Some?
    ensures s.callers <= Next(s, a).value.callers
    ensures forall k :: |s.callers| <= k < |Next(s, a).value.callers| ==> Next(s, a).value.callers[k].status == Ready
  {
    match a
    case TabCreated(tab) =>
    case CreateReply(tab) => assert Next(s, a) == OnCreateReply(s, tab);
    case EnableAutoAttach(order) => assert Next(s, a) == OnEnableAutoAttach(s, order);
    case ScanStep(j) => assert Next(s, a) == OnScanStep(s, j);
    case Emit(e) => assert Next(s, a) == OnEmit(s, e);
  }

  /** A woken waiter returns what its attempt came to: its session, or its error. */
  lemma WokenGetsPublished(s: State, k: nat)
    requires Reachable(s) && Next(s, WaiterWoken(k)).Some?
    ensures k < |s.callers| && s.callers[k].status.Joined? && s.callers[k].status.call < |s.calls|
    ensures var c, s' := s.callers[k].status.call, Next(s, WaiterWoken(k)).value;
      var p := s.calls[c].phase;
      && (p.Committed? || (p.Finished? && !p.answer.ContextEnded?))
      && s'.callers == s.callers[k := s.callers[k].(status := Returned(Attempt(c), if p.Committed? then Got(p.number) else p.answer))]
  {
    InvReachable(s);
    assert CallerOk(s, k) && LeaderOk(s, s.callers[k].status.call);
  }

  /** A leader returns what its attempt came to. */
  lemma LeaderReturns(s: State, a: Step, k: nat)
    requires IsLeaders(a) && Next(s, a).Some?
    ensures |Next(s, a).value.callers| == |s.callers|
    ensures k < |s.callers| && Next(s, a).value.callers[k].status != s.callers[k].status ==>
      Next(s, a).value.callers[k].status.Returned? && !Next(s, a).value.callers[k].status.answer.ContextEnded?
  {
    match a
    case TakeNumber(c) => assert Next(s, a) == OnTakeNumber(s, c);
    case Commit(c) => assert Next(s, a) == OnCommit(s, c);
    case Abandon(c) => assert Next(s, a) == OnAbandon(s, c);
    case EmitAttached(c) => assert Next(s, a) == OnEmitAttached(s, c);
  }

  // ----- tabs

  /** What a step other than the creation or removal of tab t does to what is known of t: nothing. */
  lemma KnownStays(s: State, a: Step, t: int)
    requires Next(s, a).Some? && !Creates(a, t) && a != TabRemoved(t)
    ensures t in Next(s, a).value.knownTabs <==> t in s.knownTabs
    ensures t in s.knownTabs && t in Next(s, a).value.knownTabs ==> Next(s, a).value.knownTabs[t] == s.knownTabs[t]
  {
    if IsExchange(a) {
      assert Next(s, a) == Exchange(s, a);
      ExchangeShape(s, a);
    } else if IsLeaders(a) {
      LeaderFrame(s, a);
    } else {
      match a
      case TabCreated(tab) =>
      case CreateReply(tab) => assert Next(s, a) == OnCreateReply(s, tab);
      case TabRemoved(id) =>
      case DebuggerDetached(source) =>
      case DebuggerMessage(source, sourceSession, m, announced) => DebuggerFrame(s, source, sourceSession, m, announced);
      case EnableAutoAttach(order) => assert Next(s, a) == OnEnableAutoAttach(s, order);
      case ScanStep(j) => assert Next(s, a) == OnScanStep(s, j);
      case Begin(k) => assert Next(s, a) == OnBegin(s, k);
      case WaiterWoken(k) => assert Next(s, a) == OnWaiterWoken(s, k);
      case WaiterCancelled(k) => assert Next(s, a) == OnWaiterCancelled(s, k);
      case Emit(e) => assert Next(s, a) == OnEmit(s, e);
    }
  }

  /** No step of the run creates or removes tab t. */
  ghost predicate LeavesTab(steps: seq<Step>, t: int) {
    forall i :: 0 <= i < |steps| ==> !Creates(steps[i], t) && steps[i] != TabRemoved(t)
  }

  lemma {:induction false} KnownOverRun(s: State, steps: seq<Step>, e: State, t: int)
    requires Reaches(Next, s, steps, e) && LeavesTab(steps, t)
    ensures t in e.knownTabs <==> t in s.knownTabs
    ensures t in s.knownTabs && t in e.knownTabs ==> e.knownTabs[t] == s.knownTabs[t]
    decreases |steps|
  {
    if steps != [] {
      KnownStays(s, steps[0], t);
      KnownOverRun(Next(s, steps[0]).value, steps[1..], e, t);
    }
  }

  /** A created tab is known, as it was last created, until it is removed; a removed one is unknown until it is created. */
  lemma KnownFromCreationToRemoval(s: State, a: Step, steps: seq<Step>, e: State, t: int)
    requires Next(s, a).Some? && (Creates(a, t) || a == TabRemoved(t))
    requires Reaches(Next, Next(s, a).value, steps, e) && LeavesTab(steps, t)
    ensures t in e.knownTabs <==> Creates(a, t)
    ensures Creates(a, t) && t in e.knownTabs ==> e.knownTabs[t] == a.tab
  {
    KnownOverRun(Next(s, a).value, steps, e, t);
  }

  /** A creation with auto-attach on starts exactly one task of its own, for that tab; one with it off starts none. */
  lemma CreationStartsTask(s: State, tab: Tab)
    requires tab.id.Some?
    ensures var s' := Next(s, TabCreated(tab)).value;
      s'.callers == s.callers + (if s.autoAttach then [Caller(tab.id.value, TabEvent, Ready)] else [])
      && s'.sessions == s.sessions && s'.unsent == s.unsent && s'.autoAttach == s.autoAttach
  {
  }

  /** A create request attaches its tab itself, after the tab's own task if there is one. */
  lemma CreateRequestAttaches(s: State, tab: Tab)
    ensures Next(s, CreateReply(tab)).Some? <==> tab.id.Some?
    ensures tab.id.Some? ==> var s' := Next(s, CreateReply(tab)).value;
      s'.callers == Next(s, TabCreated(tab)).value.callers + [Caller(tab.id.value, CreateRequest, Ready)]
  {
  }

  /** A tab with a session loses it and owes its detached event; without one nothing is owed; nobody else notices. */
  ghost predicate Detaches(s: State, s': State, t: int) {
    && s'.sessions.Keys == s.sessions.Keys - {t} && (forall u :: u in s'.sessions ==> s'.sessions[u] == s.sessions[u])
    && s'.unsent == (if t in s.sessions then s.unsent + multiset{DetachedEvent(s.sessions[t].number)} else s.unsent)
    && s'.attaching == s.attaching && s'.calls == s.calls && s'.callers == s.callers
  }

  lemma RemovalDetaches(s: State, t: int)
    ensures Next(s, TabRemoved(t)).Some? && Detaches(s, Next(s, TabRemoved(t)).value, t)
    ensures Next(s, DebuggerDetached(Some(t))).Some? && Detaches(s, Next(s, DebuggerDetached(Some(t))).value, t)
    ensures Next(s, DebuggerDetached(Some(t))).value.knownTabs == s.knownTabs
    ensures Next(s, DebuggerDetached(None)) == Some(s)
  {
  }

  /** An event of an attached tab is owed under its own or the tab's session id, and changes that tab's children only. */
  lemma EventIsForwarded(s: State, t: int, sourceSession: string, cdpMethod: CdpMethod, announced: string)
    requires t in s.sessions
    ensures var s' := Next(s, DebuggerMessage(Some(t), sourceSession, cdpMethod, announced)).value;
      && s'.unsent == s.unsent + multiset{
           ForwardedEvent(if sourceSession != "" then sourceSession else SessionId(s.sessions[t].number), cdpMethod)}
      && t in s'.sessions && s'.sessions == s.sessions[t := s.sessions[t].(children := s'.sessions[t].children)]
      && (forall id :: id != announced ==> (id in s'.sessions[t].children <==> id in s.sessions[t].children))
      && (announced != "" && cdpMethod == AttachedToTarget ==> announced in s'.sessions[t].children)
      && (announced != "" && cdpMethod == DetachedFromTarget ==> announced !in s'.sessions[t].children)
      && (announced == "" || cdpMethod.OtherMethod? ==> s'.sessions[t].children == s.sessions[t].children)
  {
  }

  // ----- attachTab and EnableAutoAttach

  /** A caller gets the live session at once, or waits for the attempt under way, or leads a new one. */
  lemma BeginTakesItsTurn(s: State, k: nat)
    requires Next(s, Begin(k)).Some?
    ensures k < |s.callers| && k < |Next(s, Begin(k)).value.callers|
    ensures Next(s, Begin(k)).value.callers == s.callers[k := s.callers[k].(status := Next(s, Begin(k)).value.callers[k].status)]
    ensures var s', t := Next(s, Begin(k)).value, s.callers[k].tab;
      var now := s'.callers[k].status;
      && (t in s.sessions ==> now == Returned(Direct, Got(s.sessions[t].number)) && s'.calls == s.calls)
      && (t !in s.sessions && t in s.attaching ==> now == Joined(s.attaching[t]) && s'.calls == s.calls)
      && (t !in s.sessions && t !in s.attaching ==>
            now == Leads(|s.calls|) && s'.calls == s.calls + [Call(t, k, Starting)] && s'.attaching == s.attaching[t := |s.calls|])
  {
  }

  /** EnableAutoAttach turns auto-attach on for good and lists exactly the known tabs. */
  lemma EnableListsAll(s: State, order: seq<int>)
    requires Next(s, EnableAutoAttach(order)).Some?
    ensures var s' := Next(s, EnableAutoAttach(order)).value;
      s'.autoAttach && |s'.scans| == |s.scans| + 1 && s'.scans[|s.scans|].ids == order && s'.scans[|s.scans|].tasks == []
    ensures forall t :: t in order <==> t in s.knownTabs
  {
  }

  /** A loop that ended with an error tells the error of its last attachTab, after all before it succeeded. */
  lemma StoppedScanTellsWhy(s: State, j: nat)
    requires Reachable(s) && j < |s.scans| && s.scans[j].result.Stopped?
    ensures var scan := s.scans[j];
      && scan.tasks != [] && scan.tasks[|scan.tasks| - 1] < |s.callers|
      && s.callers[scan.tasks[|scan.tasks| - 1]].status.Returned?
      && s.callers[scan.tasks[|scan.tasks| - 1]].status.answer == scan.result.answer && !scan.result.answer.Got?
    ensures forall i :: 0 <= i < |s.scans[j].tasks| - 1 ==>
      s.scans[j].tasks[i] < |s.callers| && s.callers[s.scans[j].tasks[i]].status.Returned?
      && s.callers[s.scans[j].tasks[i]].status.answer.Got?
  {
    InvReachable(s);
    assert ScanOk(s, s.scans[j]);
    forall i | 0 <= i < |s.scans[j].tasks| - 1
      ensures s.scans[j].tasks[i] < |s.callers| && s.callers[s.scans[j].tasks[i]].status.Returned?
        && s.callers[s.scans[j].tasks[i]].status.answer.Got?
    {
      assert TaskOk(s, s.scans[j], i);
    }
  }

  /** A running loop goes on as soon as its last attachTab has returned: to its end, its error or its next tab. */
  lemma ScanGoesOn(s: State, j: nat)
    requires Reachable(s) && j < |s.scans| && s.scans[j].result.Running?
    requires s.scans[j].tasks != [] ==>
      var last := s.scans[j].tasks[|s.scans[j].tasks| - 1]; last < |s.callers| && s.callers[last].status.Returned?
    ensures Next(s, ScanStep(j)).Some? && j < |Next(s, ScanStep(j)).value.scans|
    ensures var scan, s' := s.scans[j], Next(s, ScanStep(j)).value;
      || (scan.tasks != [] && !s.callers[scan.tasks[|scan.tasks| - 1]].status.answer.Got? && s'.scans[j].result.Stopped?)
      || (|scan.tasks| == |scan.ids| && s'.scans[j].result.Complete?)
      || (|scan.tasks| < |scan.ids| && s'.callers == s.callers + [Caller(scan.ids[|scan.tasks|], FromScan(j), Ready)])
  {
    InvReachable(s);
    assert ScanOk(s, s.scans[j]);
  }
}

/** What every step of the session protocol keeps. */
module SessionInvariants {
  import opened Runs
  import opened SessionProtocol

  // ----- one attempt per tab

  ghost predicate OneAttempt(s: State) {
    && (forall t :: t in s.attaching ==>
          s.attaching[t] < |s.calls| && s.calls[s.attaching[t]].tab == t && InFlight(s.calls[s.attaching[t]].phase))
    && (forall c :: 0 <= c < |s.calls| && InFlight(s.calls[c].phase) ==>
          s.calls[c].tab in s.attaching && s.attaching[s.calls[c].tab] == c)
    && (forall t :: t in s.attaching ==> t !in s.sessions)
  }


  // ----- session numbers

  /** The number a call has taken, if any. */
  function NumberOf(p: Phase): Option<nat> {
    match p
    case Numbered(n, _) => Some(n)
    case Committed(n, _) => Some(n)
    case Finished(Got(n)) => Some(n)
    case _ => None
  }

  ghost predicate Taken(s: State, n: nat) {
    1 <= n < s.nextID
  }

  /** The numbers drawn and the calls that took them go together. */
  ghost predicate Drawn(s: State) {
    && |s.makers| + 1 == s.nextID
    && (forall i :: 0 <= i < |s.makers| ==> s.makers[i] < |s.calls| && NumberOf(s.calls[s.makers[i]].phase) == Some(i + 1))
    && (forall c :: 0 <= c < |s.calls| && NumberOf(s.calls[c].phase).Some? ==>
          Taken(s, NumberOf(s.calls[c].phase).value) && s.makers[NumberOf(s.calls[c].phase).value - 1] == c)
  }

  ghost predicate Numbers(s: State) {
    Drawn(s) && forall t :: t in s.sessions ==> LiveAs(s, t, s.sessions[t])
  }

  /** Session x of tab t was published by the call that took its number, and that call was for tab t. */
  ghost predicate LiveAs(s: State, t: int, x: Session) {
    && x.tab == t && 1 <= x.number <= |s.makers|
    && s.makers[x.number - 1] < |s.calls|
    && s.calls[s.makers[x.number - 1]].tab == t
    && Published(s.calls[s.makers[x.number - 1]].phase) == Some(Got(x.number))
  }


  ghost predicate Core(s: State) {
    OneAttempt(s) && Numbers(s)
  }

  /** Steps that leave calls and numbers alone and at most drop sessions or change their children. */
  lemma CoreFrame(s: State, s': State)
    requires Core(s)
    requires s'.calls == s.calls && s'.makers == s.makers && s'.nextID == s.nextID && s'.attaching == s.attaching
    requires forall t :: t in s'.sessions ==>
      t in s.sessions && s'.sessions[t].tab == s.sessions[t].tab && s'.sessions[t].number == s.sessions[t].number
    ensures Core(s')
  {
    forall t | t in s'.sessions ensures LiveAs(s', t, s'.sessions[t]) {
      assert LiveAs(s, t, s.sessions[t]);
    }
  }

  /** One call changes in a way that neither numbers nor published outcomes notice. */
  lemma NumbersSame(s: State, s': State, c: nat, p: Phase)
    requires Numbers(s) && s'.makers == s.makers && s'.nextID == s.nextID && c < |s.calls|
    requires s'.calls == s.calls[c := s.calls[c].(phase := p)]
    requires NumberOf(p) == NumberOf(s.calls[c].phase)
    requires Published(s.calls[c].phase).Some? ==> Published(p) == Published(s.calls[c].phase)
    ensures Drawn(s')
    ensures forall t :: t in s.sessions ==> LiveAs(s', t, s.sessions[t])
  {
    forall t | t in s.sessions ensures LiveAs(s', t, s.sessions[t]) {
      assert LiveAs(s, t, s.sessions[t]);
    }
  }

  lemma BeginLeads(s: State, k: nat)
    requires OneAttempt(s) && OnBegin(s, k).Some?
    ensures OneAttempt(OnBegin(s, k).value)
  {
  }

  /** A new call has no number yet, so it disturbs no number. */
  lemma NewCallNumbers(s: State, s': State, call: Call)
    requires Numbers(s) && NumberOf(call.phase).None?
    requires s'.calls == s.calls + [call] && s'.makers == s.makers && s'.nextID == s.nextID && s'.sessions == s.sessions
    ensures Numbers(s')
  {
    forall t | t in s'.sessions ensures LiveAs(s', t, s'.sessions[t]) {
      assert LiveAs(s, t, s.sessions[t]);
    }
  }

  /** A new call for tab t, led by caller k, is registered. */
  ghost predicate Starts(s: State, s': State, t: int, k: nat) {
    s'.calls == s.calls + [Call(t, k, Starting)] && s'.attaching == s.attaching[t := |s.calls|]
  }

  lemma BeginStarts(s: State, k: nat)
    requires k < |s.callers| && s.callers[k].status.Ready?
    requires s.callers[k].tab !in s.sessions && s.callers[k].tab !in s.attaching
    ensures OnBegin(s, k).Some? && Starts(s, OnBegin(s, k).value, s.callers[k].tab, k)
    ensures var s' := OnBegin(s, k).value;
      s'.sessions == s.sessions && s'.knownTabs == s.knownTabs && s'.autoAttach == s.autoAttach && s'.nextID == s.nextID
  {
  }

  /** The model's own fields and the calls are the same. */
  ghost predicate SameModel(s: State, s': State) {
    && s'.knownTabs == s.knownTabs && s'.sessions == s.sessions && s'.attaching == s.attaching
    && s'.autoAttach == s.autoAttach && s'.nextID == s.nextID && s'.calls == s.calls
  }

  /** A caller that finds a session or a call only changes its own standing. */
  lemma BeginWaits(s: State, k: nat)
    requires k < |s.callers| && s.callers[k].status.Ready?
    requires s.callers[k].tab in s.sessions || s.callers[k].tab in s.attaching
    ensures OnBegin(s, k).Some? && SameModel(s, OnBegin(s, k).value)
  {
  }

  lemma CoreBegin(s: State, k: nat)
    requires Core(s) && OnBegin(s, k).Some?
    ensures Core(OnBegin(s, k).value)
  {
    BeginLeads(s, k);
    var s' := OnBegin(s, k).value;
    if s'.calls == s.calls {
      CoreFrame(s, s');
    } else {
      NewCallNumbers(s, s', Call(s.callers[k].tab, k, Starting));
    }
  }

  /** A leader in flight moves to another phase in flight without a number. */
  lemma CoreMove(s: State, c: nat, p: Phase, mark: Mark)
    requires Core(s) && c < |s.calls| && InFlight(s.calls[c].phase) && InFlight(p)
    requires NumberOf(s.calls[c].phase).None? && NumberOf(p).None?
    ensures Core(Move(s, c, p, mark))
  {
    var s' := Move(s, c, p, mark);
    NumbersSame(s, s', c, p);
    AttemptSame(s, s', c, p);
  }

  /** An exchange moves a leader in flight that has no number yet. */
  lemma ExchangeShape(s: State, a: Step)
    requires Exchange(s, a).Some?
    ensures IsExchange(a) && ExchangeOf(s, a).Some?
    ensures var (c, p, mark) := ExchangeOf(s, a).value;
      && c < |s.calls| && InFlight(s.calls[c].phase) && InFlight(p)
      && NumberOf(s.calls[c].phase).None? && NumberOf(p).None?
      && Exchange(s, a) == Some(Move(s, c, p, mark))
  {
  }

  lemma CoreExchange(s: State, a: Step)
    requires Core(s) && Exchange(s, a).Some?
    ensures Core(Exchange(s, a).value)
  {
    ExchangeShape(s, a);
    var (c, p, mark) := ExchangeOf(s, a).value;
    CoreMove(s, c, p, mark);
  }

  lemma CoreTakeNumber(s: State, c: nat)
    requires Core(s) && OnTakeNumber(s, c).Some?
    ensures Core(OnTakeNumber(s, c).value)
  {
    var s' := OnTakeNumber(s, c).value;
    forall t | t in s'.sessions ensures LiveAs(s', t, s'.sessions[t]) {
      assert LiveAs(s, t, s.sessions[t]);
    }
  }

  /** The call at c moves to phase p, which is not in flight, and leaves `attaching`. */
  ghost predicate Ends(s: State, s': State, c: nat, p: Phase)
    requires c < |s.calls|
  {
    && s'.calls == s.calls[c := s.calls[c].(phase := p)] && s'.attaching == s.attaching - {s.calls[c].tab}
    && s'.makers == s.makers && s'.nextID == s.nextID
  }

  lemma AttemptEnds(s: State, s': State, c: nat, p: Phase)
    requires OneAttempt(s) && c < |s.calls| && InFlight(s.calls[c].phase) && !InFlight(p) && Ends(s, s', c, p)
    requires s'.sessions.Keys <= s.sessions.Keys + {s.calls[c].tab}
    ensures OneAttempt(s') && s.calls[c].tab !in s.sessions
  {
    assert s.calls[c].tab in s.attaching;
  }

  lemma CommitEnds(s: State, c: nat)
    requires OnCommit(s, c).Some?
    ensures var s', n, info := OnCommit(s, c).value, s.calls[c].phase.number, s.calls[c].phase.info;
      Ends(s, s', c, Committed(n, info)) && s'.sessions == s.sessions[s.calls[c].tab := Session(s.calls[c].tab, n, info, {})]
      && s'.knownTabs == s.knownTabs && s'.autoAttach == s.autoAttach
  {
  }

  lemma CommitAttempt(s: State, c: nat)
    requires OneAttempt(s) && OnCommit(s, c).Some?
    ensures OneAttempt(OnCommit(s, c).value)
    ensures s.calls[c].tab !in s.sessions
  {
    CommitEnds(s, c);
    AttemptEnds(s, OnCommit(s, c).value, c, Committed(s.calls[c].phase.number, s.calls[c].phase.info));
  }

  /** A call publishes the number it took. */
  lemma PublishedNumbers(s: State, s': State, c: nat, n: nat, info: TargetInfo)
    requires Numbers(s) && c < |s.calls| && s.calls[c].phase == Numbered(n, info) && Ends(s, s', c, Committed(n, info))
    requires s'.sessions == s.sessions[s.calls[c].tab := Session(s.calls[c].tab, n, info, {})]
    ensures Numbers(s')
  {
    NumbersSame(s, s', c, Committed(n, info));
    assert NumberOf(s.calls[c].phase) == Some(n);
    assert LiveAs(s', s.calls[c].tab, s'.sessions[s.calls[c].tab]);
  }

  lemma CommitNumbers(s: State, c: nat)
    requires Numbers(s) && OnCommit(s, c).Some?
    ensures Numbers(OnCommit(s, c).value)
  {
    CommitEnds(s, c);
    PublishedNumbers(s, OnCommit(s, c).value, c, s.calls[c].phase.number, s.calls[c].phase.info);
  }

  lemma AbandonEnds(s: State, c: nat)
    requires OnAbandon(s, c).Some?
    ensures Ends(s, OnAbandon(s, c).value, c, Finished(Failed(s.calls[c].phase.error)))
    ensures var s' := OnAbandon(s, c).value;
      s'.sessions == s.sessions && s'.knownTabs == s.knownTabs && s'.autoAttach == s.autoAttach
  {
  }

  lemma CoreAbandon(s: State, c: nat)
    requires Core(s) && OnAbandon(s, c).Some?
    ensures Core(OnAbandon(s, c).value)
  {
    var p := Finished(Failed(s.calls[c].phase.error));
    AbandonEnds(s, c);
    AttemptEnds(s, OnAbandon(s, c).value, c, p);
    NumbersSame(s, OnAbandon(s, c).value, c, p);
  }

  lemma CoreEmitAttached(s: State, c: nat)
    requires Core(s) && OnEmitAttached(s, c).Some?
    ensures Core(OnEmitAttached(s, c).value)
  {
    var s' := OnEmitAttached(s, c).value;
    assert s'.attaching == s.attaching && s'.sessions == s.sessions;
    NumbersSame(s, s', c, Finished(Got(s.calls[c].phase.number)));
    AttemptSame(s, s', c, Finished(Got(s.calls[c].phase.number)));
  }

  /** And in a way that does not take it in or out of flight. */
  lemma AttemptSame(s: State, s': State, c: nat, p: Phase)
    requires OneAttempt(s) && s'.attaching == s.attaching && s'.sessions == s.sessions && c < |s.calls|
    requires s'.calls == s.calls[c := s.calls[c].(phase := p)] && InFlight(p) == InFlight(s.calls[c].phase)
    ensures OneAttempt(s')
  {
  }

  /** The steps that change neither calls nor sessions nor numbers. */
  predicate LeavesCore(a: Step) {
    a.TabCreated? || a.CreateReply? || a.EnableAutoAttach? || a.ScanStep? || a.WaiterWoken? || a.WaiterCancelled? || a.Emit?
  }

  /** The steps by which the extension tells of removed tabs and of the debugger. */
  predicate Hears(a: Step) {
    a.TabRemoved? || a.DebuggerDetached? || a.DebuggerMessage?
  }

  /** What the browser tells: it can drop sessions and change children, and it queues at most one message. */
  function Heard(s: State, a: Step): State
    requires Hears(a)
  {
    match a
    case TabRemoved(id) => OnTabRemoved(s, id)
    case DebuggerDetached(source) => if source.Some? then DetachTabLocked(s, source.value) else s
    case DebuggerMessage(source, sourceSession, cdpMethod, announced) =>
      OnDebuggerEvent(s, source, sourceSession, cdpMethod, announced)
  }

  lemma DebuggerFrame(s: State, source: Option<int>, sourceSession: string, cdpMethod: CdpMethod, announced: string)
    ensures var s' := OnDebuggerEvent(s, source, sourceSession, cdpMethod, announced);
      s'.calls == s.calls && s'.callers == s.callers && s'.makers == s.makers && s'.nextID == s.nextID
      && s'.attaching == s.attaching && s'.log == s.log && s'.scans == s.scans && s'.autoAttach == s.autoAttach
      && s'.events == s.events && s.unsent <= s'.unsent && s'.knownTabs == s.knownTabs
  {
  }

  lemma HeardFrame(s: State, a: Step)
    requires Hears(a)
    ensures Next(s, a) == Some(Heard(s, a))
    ensures var s' := Heard(s, a);
      s'.calls == s.calls && s'.callers == s.callers && s'.makers == s.makers && s'.nextID == s.nextID
      && s'.attaching == s.attaching && s'.log == s.log && s'.scans == s.scans && s'.autoAttach == s.autoAttach
      && s'.events == s.events && s.unsent <= s'.unsent && s'.knownTabs.Keys <= s.knownTabs.Keys
  {
    match a
    case TabRemoved(id) => assert Heard(s, a) == OnTabRemoved(s, id);
    case DebuggerDetached(source) => assert Next(s, a) == Some(Heard(s, a));
    case DebuggerMessage(source, sourceSession, m, announced) => DebuggerFrame(s, source, sourceSession, m, announced);
  }

  /** Such a step drops a session or changes its children, and no more. */
  lemma HeardSessions(s: State, a: Step)
    requires Hears(a)
    ensures forall t :: t in Heard(s, a).sessions ==>
      t in s.sessions && Heard(s, a).sessions[t].tab == s.sessions[t].tab && Heard(s, a).sessions[t].number == s.sessions[t].number
  {
  }

  /** The lock regions and the emission a leader performs itself. */
  predicate IsLeaders(a: Step) {
    a.TakeNumber? || a.Commit? || a.Abandon? || a.EmitAttached?
  }

  lemma LeaderFrame(s: State, a: Step)
    requires IsLeaders(a) && Next(s, a).Some?
    ensures var s' := Next(s, a).value;
      s'.scans == s.scans && s'.autoAttach == s.autoAttach && s'.knownTabs == s.knownTabs
  {
    match a
    case TakeNumber(c) => assert Next(s, a) == OnTakeNumber(s, c);
    case Commit(c) => assert Next(s, a) == OnCommit(s, c);
    case Abandon(c) => assert Next(s, a) == OnAbandon(s, c);
    case EmitAttached(c) => assert Next(s, a) == OnEmitAttached(s, c);
  }

  lemma ScanStepFrame(s: State, j: nat)
    requires OnScanStep(s, j).Some?
    ensures var s' := OnScanStep(s, j).value;
      s'.calls == s.calls && s'.makers == s.makers && s'.nextID == s.nextID && s'.attaching == s.attaching
      && s'.sessions == s.sessions && s'.log == s.log && s'.history == s.history
  {
  }

  lemma LeavesCoreFrame(s: State, a: Step)
    requires LeavesCore(a) && Next(s, a).Some?
    ensures var s' := Next(s, a).value;
      s'.calls == s.calls && s'.makers == s.makers && s'.nextID == s.nextID && s'.attaching == s.attaching
      && s'.sessions == s.sessions && s'.log == s.log && s'.history == s.history
  {
    match a
    case TabCreated(tab) =>
    case CreateReply(tab) =>
    case EnableAutoAttach(order) => assert Next(s, a) == OnEnableAutoAttach(s, order);
    case ScanStep(j) => ScanStepFrame(s, j);
    case WaiterWoken(k) => assert Next(s, a) == OnWaiterWoken(s, k);
    case WaiterCancelled(k) => assert Next(s, a) == OnWaiterCancelled(s, k);
    case Emit(e) => assert Next(s, a) == OnEmit(s, e);
  }

  lemma CoreKept(s: State, a: Step)
    requires Core(s) && Next(s, a).Some?
    ensures Core(Next(s, a).value)
  {
    if IsExchange(a) {
      assert Next(s, a) == Exchange(s, a);
      CoreExchange(s, a);
    } else if LeavesCore(a) {
      LeavesCoreFrame(s, a);
      CoreFrame(s, Next(s, a).value);
    } else if Hears(a) {
      HeardFrame(s, a);
      HeardSessions(s, a);
      CoreFrame(s, Heard(s, a));
    } else {
      match a
      case Begin(k) => CoreBegin(s, k);
      case TakeNumber(c) => CoreTakeNumber(s, c);
      case Commit(c) => CommitAttempt(s, c); CommitNumbers(s, c);
      case Abandon(c) => CoreAbandon(s, c);
      case EmitAttached(c) => CoreEmitAttached(s, c);
    }
  }
}

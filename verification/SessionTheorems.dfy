/** What holds of the tab-to-session router in every reachable state and over every run. */
module SessionTheorems {
  import opened Orders
  import opened Runs
  import opened Numerals
  import opened SessionProtocol
  import opened SessionInvariants
  import opened SessionCallers
  import opened SessionEvents
  import opened SessionScans
  import opened SessionChildren
  import AttachLog

  ghost predicate Inv(s: State) {
    Core(s) && Callers(s) && EventsOk(s) && AttachLog.LogOk(s) && Scans(s) && Children(s)
  }

  lemma InvInit()
    ensures Inv(Init())
  {
    AttachLog.LogInit();
    forall n: nat ensures EventsOf(Init(), n) {
    }
  }

  lemma InvKept(s: State, a: Step)
    requires Inv(s) && Next(s, a).Some?
    ensures Inv(Next(s, a).value)
  {
    CoreKept(s, a);
    CallersKept(s, a);
    EventsKept(s, a);
    AttachLog.LogKept(s, a);
    ScansKept(s, a);
    ChildrenKept(s, a);
  }

  lemma InvReachable(s: State)
    requires Reachable(s)
    ensures Inv(s)
  {
    InvInit();
    forall x, a | Inv(x) && Next(x, a).Some? ensures Inv(Next(x, a).value) {
      InvKept(x, a);
    }
    KeptReached(Next, Init(), Inv, s);
  }

  lemma StepReachable(s: State, a: Step)
    requires Reachable(s) && Next(s, a).Some?
    ensures Reachable(Next(s, a).value)
  {
    StepReached(Next, Init(), s, a);
  }

  /** The lock regions as reachable steps, one by one. */
  lemma CreatedReachable(s: State, tab: Tab)
    requires Reachable(s)
    ensures Reachable(OnTabCreated(s, tab, TabEvent))
  {
    StepReachable(s, TabCreated(tab));
  }

  lemma RemovedReachable(s: State, id: int)
    requires Reachable(s)
    ensures Reachable(OnTabRemoved(s, id))
  {
    StepReachable(s, TabRemoved(id));
  }

  lemma DetachReachable(s: State, id: int)
    requires Reachable(s)
    ensures Reachable(DetachTabLocked(s, id))
  {
    StepReachable(s, DebuggerDetached(Some(id)));
  }

  lemma DebuggerReachable(s: State, source: Option<int>, sourceSession: string, cdpMethod: CdpMethod, announced: string)
    requires Reachable(s)
    ensures Reachable(OnDebuggerEvent(s, source, sourceSession, cdpMethod, announced))
  {
    StepReachable(s, DebuggerMessage(source, sourceSession, cdpMethod, announced));
  }

  lemma EnableReachable(s: State, order: seq<int>)
    requires Reachable(s) && Lists(order, s.knownTabs.Keys)
    ensures Reachable(OnEnableAutoAttach(s, order).value)
  {
    StepReachable(s, EnableAutoAttach(order));
  }

  lemma BeginReachable(s: State, k: nat)
    requires Reachable(s) && OnBegin(s, k).Some?
    ensures Reachable(OnBegin(s, k).value)
  {
    StepReachable(s, Begin(k));
  }

  lemma TakeNumberReachable(s: State, c: nat)
    requires Reachable(s) && OnTakeNumber(s, c).Some?
    ensures Reachable(OnTakeNumber(s, c).value)
  {
    StepReachable(s, TakeNumber(c));
  }

  lemma CommitReachable(s: State, c: nat)
    requires Reachable(s) && OnCommit(s, c).Some?
    ensures Reachable(OnCommit(s, c).value)
  {
    StepReachable(s, Commit(c));
  }

  lemma AbandonReachable(s: State, c: nat)
    requires Reachable(s) && c < |s.calls| && s.calls[c].phase.Abandoning?
    ensures OnAbandon(s, c).Some? && Reachable(OnAbandon(s, c).value)
  {
    InvReachable(s);
    assert LeaderOk(s, c);
    StepReachable(s, Abandon(c));
  }

  /** A leader about to finish has its caller still waiting for it, so the step that finishes is possible. */
  lemma LeaderCanFinish(s: State, c: nat)
    requires Reachable(s) && c < |s.calls|
    ensures s.calls[c].leader < |s.callers|
    ensures s.calls[c].phase.Abandoning? ==> Next(s, Abandon(c)).Some?
    ensures s.calls[c].phase.Committed? ==> Next(s, EmitAttached(c)).Some?
    ensures InFlight(s.calls[c].phase) ==> s.callers[s.calls[c].leader].status == Leads(c)
  {
    InvReachable(s);
    assert LeaderOk(s, c);
  }

  // ----- single flight

  /** At most one attempt per tab is in flight, and never beside a live session of that tab. */
  lemma SingleFlight(s: State, c: nat, d: nat)
    requires Reachable(s) && c < |s.calls| && d < |s.calls|
    requires InFlight(s.calls[c].phase) && InFlight(s.calls[d].phase) && s.calls[c].tab == s.calls[d].tab
    ensures c == d
    ensures s.calls[c].tab !in s.sessions
    ensures forall t :: t in s.attaching ==> t !in s.sessions
  {
    InvReachable(s);
  }

  /** Every tab's log is a sequence of finished attempts and the beginning of one more. */
  lemma AttemptsFollowGrammar(s: State, t: int)
    requires Reachable(s)
    ensures AttachLog.WellFormed(AttachLog.TabLog(s.log, t))
  {
    InvReachable(s);
    assert AttachLog.LogOf(s, t);
  }

  /** An attach that got no usable target info is undone before that tab sees anything else. */
  lemma FailedAttemptIsUndone(s: State, t: int, x: nat)
    requires Reachable(s)
    requires x + 1 < |AttachLog.TabLog(s.log, t)| && AttachLog.TabLog(s.log, t)[x] == MUnusable
    ensures AttachLog.TabLog(s.log, t)[x + 1] == MDetach
  {
    AttemptsFollowGrammar(s, t);
    AttachLog.DetachComesNext(AttachLog.TabLog(s.log, t), x);
  }

  // ----- conservation of sessions

  ghost predicate Reserved(s: State, n: nat) {
    exists c :: 0 <= c < |s.calls| && s.calls[c].phase.Numbered? && s.calls[c].phase.number == n
  }

  ghost predicate Live(s: State, n: nat) {
    exists t :: t in s.sessions && s.sessions[t].number == n
  }

  ghost predicate Detached(s: State, n: nat) {
    Total(s, DetachedEvent(n)) == 1
  }

  lemma LiveIsLive(s: State, n: nat)
    requires Core(s)
    ensures Live(s, n) <==> IsLive(s, n)
  {
    if Live(s, n) {
      var t :| t in s.sessions && s.sessions[t].number == n;
      assert LiveAs(s, t, s.sessions[t]);
    }
  }

  /** The numbers drawn and not yet committed. */
  lemma ReservedIs(s: State, n: nat)
    requires Core(s)
    ensures Reserved(s, n) <==> 1 <= n < s.nextID && !WasLive(s, n)
    ensures WasLive(s, n) ==> 1 <= n < s.nextID
  {
    if 1 <= n < s.nextID && !WasLive(s, n) {
      var c := s.makers[n - 1];
      assert NumberOf(s.calls[c].phase) == Some(n);
      assert s.calls[c].phase.Numbered?;
    }
    if Reserved(s, n) {
      var c :| 0 <= c < |s.calls| && s.calls[c].phase.Numbered? && s.calls[c].phase.number == n;
      assert NumberOf(s.calls[c].phase) == Some(n);
    }
  }

  /** Every number drawn is reserved, live or detached, and only one of these; no other number is any of them. */
  lemma Conservation(s: State, n: nat)
    requires Reachable(s)
    ensures 1 <= n < s.nextID <==> Reserved(s, n) || Live(s, n) || Detached(s, n)
    ensures !(Reserved(s, n) && Live(s, n)) && !(Reserved(s, n) && Detached(s, n)) && !(Live(s, n) && Detached(s, n))
    ensures Total(s, DetachedEvent(n)) <= 1
    ensures Total(s, AttachedEvent(n)) == (if Live(s, n) || Detached(s, n) then 1 else 0)
  {
    InvReachable(s);
    LiveIsLive(s, n);
    ReservedIs(s, n);
    assert EventsOf(s, n);
  }

  /** Both phases hold the same number, not yet committed. */
  predicate Holds(p: Phase, q: Phase) {
    p.Numbered? && q.Numbered? && p.number == q.number
  }

  /** A number belongs to one tab and, before that, to one call. */
  lemma OneOwner(s: State, t: int, u: int, c: nat, d: nat)
    requires Reachable(s)
    ensures t in s.sessions && u in s.sessions && s.sessions[t].number == s.sessions[u].number ==> t == u
    ensures c < |s.calls| && d < |s.calls| && Holds(s.calls[c].phase, s.calls[d].phase) ==> c == d
  {
    InvReachable(s);
    if t in s.sessions && u in s.sessions {
      OneTab(s, t, u);
    }
    if c < |s.calls| && d < |s.calls| && Holds(s.calls[c].phase, s.calls[d].phase) {
      OneCall(s, c, d);
    }
  }

  lemma OneTab(s: State, t: int, u: int)
    requires Numbers(s) && t in s.sessions && u in s.sessions
    ensures s.sessions[t].number == s.sessions[u].number ==> t == u
  {
    assert LiveAs(s, t, s.sessions[t]) && LiveAs(s, u, s.sessions[u]);
  }

  lemma OneCall(s: State, c: nat, d: nat)
    requires Drawn(s) && c < |s.calls| && d < |s.calls| && Holds(s.calls[c].phase, s.calls[d].phase)
    ensures c == d
  {
    assert NumberOf(s.calls[c].phase).Some? && NumberOf(s.calls[d].phase).Some?;
  }

  /** The next number to be drawn is not any live session's. */
  lemma NumbersBelowNext(s: State, t: int)
    requires Reachable(s) && t in s.sessions
    ensures s.sessions[t].tab == t && 1 <= s.sessions[t].number < s.nextID
  {
    InvReachable(s);
    assert LiveAs(s, t, s.sessions[t]);
  }

  /** A commit never replaces a live session, and what it makes live is what its attempt was told about. */
  lemma CommitIsFresh(s: State, c: nat)
    requires Reachable(s) && Next(s, Commit(c)).Some?
    ensures c < |s.calls| && s.calls[c].phase.Numbered? && s.calls[c].tab !in s.sessions
    ensures !Live(s, s.calls[c].phase.number) && !Detached(s, s.calls[c].phase.number)
    ensures StringValue(s.calls[c].phase.info, "targetId") != ""
    ensures Next(s, Commit(c)).value.sessions ==
            s.sessions[s.calls[c].tab := Session(s.calls[c].tab, s.calls[c].phase.number, s.calls[c].phase.info, {})]
  {
    InvReachable(s);
    assert InfoOk(s.calls[c].phase);
    Conservation(s, s.calls[c].phase.number);
    assert Reserved(s, s.calls[c].phase.number);
  }

  // ----- over runs

  ghost predicate Later(s: State, t: State) {
    && Grows(s, t)
    && forall n: nat :: Total(s, DetachedEvent(n)) <= Total(t, DetachedEvent(n))
  }

  /** Emitting an owed message turns what is unsent into what is sent. */
  lemma EmitKeepsTotal(s: State, s': State, e: Event, x: Event)
    requires s'.events == s.events + [e] && s'.unsent == s.unsent - multiset{e} && (e in s.unsent || x != e)
    ensures Total(s', x) == Total(s, x)
  {
    assert multiset(s'.events) == multiset(s.events) + multiset{e};
  }

  lemma LeaderTotal(s: State, a: Step, n: nat)
    requires IsLeaders(a) && Next(s, a).Some?
    ensures Total(s, DetachedEvent(n)) <= Total(Next(s, a).value, DetachedEvent(n))
  {
    match a
    case TakeNumber(c) => assert Next(s, a) == OnTakeNumber(s, c);
    case Commit(c) => assert Next(s, a) == OnCommit(s, c);
    case Abandon(c) => assert Next(s, a) == OnAbandon(s, c);
    case EmitAttached(c) =>
      assert Next(s, a) == OnEmitAttached(s, c);
      EmitKeepsTotal(s, OnEmitAttached(s, c).value, AttachedEvent(s.calls[c].phase.number), DetachedEvent(n));
  }

  lemma TotalGrows(s: State, a: Step, n: nat)
    requires Inv(s) && Next(s, a).Some?
    ensures Total(s, DetachedEvent(n)) <= Total(Next(s, a).value, DetachedEvent(n))
  {
    if IsExchange(a) {
      assert Next(s, a) == Exchange(s, a);
    } else if LeavesCore(a) && !a.Emit? {
      LeavesCoreEvents(s, a);
    } else if Hears(a) {
      HeardFrame(s, a);
    } else if IsLeaders(a) {
      LeaderTotal(s, a, n);
    } else {
      match a
      case Begin(k) => assert Next(s, a) == OnBegin(s, k);
      case Emit(e) =>
        assert Next(s, a) == OnEmit(s, e);
        EmitKeepsTotal(s, OnEmit(s, e).value, e, DetachedEvent(n));
    }
  }

  lemma LaterAtEnd(s: State, steps: seq<Step>, t: State)
    requires Reachable(s) && Reaches(Next, s, steps, t)
    ensures Later(s, t) && Inv(t)
  {
    InvReachable(s);
    forall x, a | Inv(x) && Next(x, a).Some? ensures Inv(Next(x, a).value) && Later(x, Next(x, a).value) {
      InvKept(x, a);
      CallersKept(x, a);
      forall n: nat ensures Total(x, DetachedEvent(n)) <= Total(Next(x, a).value, DetachedEvent(n)) {
        TotalGrows(x, a, n);
      }
    }
    forall x, y, z | Later(x, y) && Later(y, z) ensures Later(x, z) {
      LaterTransitive(x, y, z);
    }
    RunRelates(Next, Inv, Later, s, steps, t);
  }

  lemma LaterTransitive(x: State, y: State, z: State)
    requires Later(x, y) && Later(y, z)
    ensures Later(x, z)
  {
    forall c | 0 <= c < |x.calls| ensures CallGrows(x.calls[c], z.calls[c]) {
      assert CallGrows(x.calls[c], y.calls[c]) && CallGrows(y.calls[c], z.calls[c]);
    }
    forall k | 0 <= k < |x.callers| ensures CallerGrows(x.callers[k], z.callers[k]) {
      assert CallerGrows(x.callers[k], y.callers[k]) && CallerGrows(y.callers[k], z.callers[k]);
    }
    forall n: nat ensures Total(x, DetachedEvent(n)) <= Total(z, DetachedEvent(n)) {
      assert Total(x, DetachedEvent(n)) <= Total(y, DetachedEvent(n));
    }
  }

  /** A session id once detached never names a live tab again, whatever happens next. */
  lemma DetachedForever(s: State, steps: seq<Step>, t: State, n: nat)
    requires Reachable(s) && Detached(s, n) && Reaches(Next, s, steps, t)
    ensures Detached(t, n) && !Live(t, n)
    ensures forall x :: !FindsTop(t, SessionId(n), x)
  {
    LaterAtEnd(s, steps, t);
    assert Total(s, DetachedEvent(n)) <= Total(t, DetachedEvent(n));
    assert EventsOf(t, n);
    LiveIsLive(t, n);
    forall x ensures !FindsTop(t, SessionId(n), x) {
      if FindsTop(t, SessionId(n), x) {
        SessionIdInjective(t.sessions[x].number, n);
      }
    }
  }

  // ----- callers

  /** Callers that joined or led one attempt return the same answer, unless their own context ended first. */
  lemma CallersAgree(s: State, k: nat, l: nat, c: nat, a: Answer, b: Answer)
    requires Reachable(s) && k < |s.callers| && l < |s.callers|
    requires s.callers[k].status == Returned(Attempt(c), a) && s.callers[l].status == Returned(Attempt(c), b)
    requires !a.ContextEnded? && !b.ContextEnded?
    ensures a == b && s.callers[k].tab == s.callers[l].tab
  {
    InvReachable(s);
    assert CallerOk(s, k) && CallerOk(s, l);
  }

  /** A caller that gets a session gets one that was made for its own tab, and is live unless since detached. */
  lemma CallersGetTheirTab(s: State, k: nat, via: Via, n: nat)
    requires Reachable(s) && k < |s.callers| && s.callers[k].status == Returned(via, Got(n))
    ensures (s.callers[k].tab in s.sessions && s.sessions[s.callers[k].tab].number == n) || Detached(s, n)
  {
    InvReachable(s);
    assert CallerOk(s, k);
    assert EventsOf(s, n);
    match via
    case Direct =>
    case Attempt(c) => assert NumberOf(s.calls[c].phase) == Some(n);
  }

  /** A waiter waits for an attempt that is still in flight under its tab, or can be woken. */
  lemma WaitersAreWoken(s: State, k: nat)
    requires Reachable(s) && k < |s.callers| && s.callers[k].status.Joined?
    ensures var c := s.callers[k].status.call;
      c < |s.calls| && s.calls[c].tab == s.callers[k].tab
      && (Next(s, WaiterWoken(k)).Some? <==> !(s.calls[c].tab in s.attaching && s.attaching[s.calls[c].tab] == c))
  {
    InvReachable(s);
    assert CallerOk(s, k);
  }

  // ----- what the protocol does not promise

  lemma StartingIsReachable() returns (s: State)
    ensures Reachable(s) && |s.calls| == 1 && At(s, 0, Starting)
  {
    var tab := Tab(Some(1), "");
    InitReached(Next, Init());
    StepReachable(Init(), CreateReply(tab));
    s := OnCreateReply(Init(), tab).value;
    BeginReachable(s, 0);
    s := OnBegin(s, 0).value;
  }

  /** A run that ends with a numbered attempt: create a tab, attach, get its target info, draw a number. */
  lemma NumberedIsReachable() returns (s: State)
    ensures Reachable(s) && |s.calls| == 1 && s.calls[0].phase.Numbered?
  {
    var info: TargetInfo := map["targetId" := Text("target")];
    s := StartingIsReachable();
    s := Exchanged(s, SendAttach(0), AttachSent);
    s := Exchanged(s, AttachReply(0, None), AttachAccepted);
    s := Exchanged(s, SendGetInfo(0), InfoSent);
    assert AfterInfo(ReplyInfo(info)) == InfoUsable(info);
    s := Exchanged(s, GetInfoReply(0, ReplyInfo(info)), InfoUsable(info));
    TakeNumberReachable(s, 0);
    s := OnTakeNumber(s, 0).value;
  }

  lemma Exchanged(s: State, a: Step, p: Phase) returns (s': State)
    requires Reachable(s) && |s.calls| == 1 && ExchangeOf(s, a).Some? && ExchangeOf(s, a).value.0 == 0 && ExchangeOf(s, a).value.1 == p
    ensures Reachable(s') && |s'.calls| == 1 && At(s', 0, p)
  {
    assert Next(s, a) == Exchange(s, a);
    StepReachable(s, a);
    s' := Exchange(s, a).value;
  }

  /** Tab t has a live session and is not a known tab. */
  ghost predicate Stranded(s: State, t: int) {
    t in s.sessions && t !in s.knownTabs
  }

  /**
   A session without a known tab comes about exactly when an attempt commits for a tab that is not known at that
   moment, as after a removal during the attach.
   */
  lemma StrandedExactlyByCommit(s: State, a: Step, t: int)
    requires Reachable(s) && Next(s, a).Some?
    ensures Stranded(Next(s, a).value, t) && !Stranded(s, t) <==>
            a.Commit? && a.call < |s.calls| && s.calls[a.call].tab == t && t !in s.knownTabs
  {
    InvReachable(s);
    if a.Commit? {
      CommitAttempt(s, a.call);
    }
    if Stranded(Next(s, a).value, t) {
      StrandedOnlyByCommit(s, a, t);
    }
  }

  lemma StrandedOnlyByCommit(s: State, a: Step, t: int)
    requires Next(s, a).Some? && Stranded(Next(s, a).value, t)
    ensures t !in s.knownTabs
    ensures Stranded(s, t) || (a.Commit? && a.call < |s.calls| && s.calls[a.call].tab == t)
  {
  }

  /** It does happen: from any state with a numbered attempt, the tab may be removed before the commit. */
  lemma RemovalRace(s: State, c: nat)
    requires c < |s.calls| && s.calls[c].phase.Numbered?
    ensures var t := s.calls[c].tab;
      var removed := OnTabRemoved(s, t);
      && Next(s, TabRemoved(t)) == Some(removed) && Next(removed, Commit(c)).Some?
      && Stranded(Next(removed, Commit(c)).value, t)
  {
  }

  /** A number not yet committed has not been announced. */
  lemma NumberedUnheard(s: State, c: nat)
    requires Reachable(s) && c < |s.calls| && s.calls[c].phase.Numbered?
    ensures AttachedEvent(s.calls[c].phase.number) !in s.events
  {
    InvReachable(s);
    var n := s.calls[c].phase.number;
    assert NumberOf(s.calls[c].phase) == Some(n);
    assert EventsOf(s, n);
    assert AttachedEvent(n) !in multiset(s.events);
  }

  /**
   Whoever emits a detached event overtakes the attached event of the same session exactly if the leader that
   committed the session has not got round to emitting.
   */
  lemma DetachedOvertakes(s: State, n: nat)
    requires Reachable(s) && Next(s, Emit(DetachedEvent(n))).Some?
    ensures 1 <= n <= |s.makers| && s.makers[n - 1] < |s.calls|
    ensures AttachedEvent(n) !in s.events <==> s.calls[s.makers[n - 1]].phase.Committed?
  {
    InvReachable(s);
    assert EventsOf(s, n);
    assert DetachedEvent(n) in s.unsent;
    assert Total(s, DetachedEvent(n)) >= 1;
    assert AttachedEvent(n) in s.events <==> AttachedEvent(n) in multiset(s.events);
  }

  lemma RemovedAfterCommit(s: State, c: nat)
    requires c < |s.calls| && s.calls[c].phase.Numbered?
    ensures OnCommit(s, c).Some?
    ensures var removed := OnTabRemoved(OnCommit(s, c).value, s.calls[c].tab);
      removed.events == s.events && DetachedEvent(s.calls[c].phase.number) in removed.unsent
  {
  }

  /** It does happen: the attached event is emitted after the lock is released. */
  lemma DetachedCanComeFirst(s: State, c: nat, committed: State, removed: State)
    requires Reachable(s) && c < |s.calls| && s.calls[c].phase.Numbered?
    requires Next(s, Commit(c)) == Some(committed) && Next(committed, TabRemoved(s.calls[c].tab)) == Some(removed)
    ensures var n := s.calls[c].phase.number;
      Next(removed, Emit(DetachedEvent(n))).Some?
      && DetachedEvent(n) in Next(removed, Emit(DetachedEvent(n))).value.events
      && AttachedEvent(n) !in Next(removed, Emit(DetachedEvent(n))).value.events
  {
    NumberedUnheard(s, c);
    RemovedAfterCommit(s, c);
    var e := DetachedEvent(s.calls[c].phase.number);
    assert Next(removed, Emit(e)) == OnEmit(removed, e);
  }

  // ----- auto-attach

  /**
   From any moment on at which tab t is not known, or auto-attach is off, or t is created in the very next step: if
   later auto-attach is on and t is known, then t has an attach task of its own or is in an EnableAutoAttach list,
   and that task or list is no older than that moment.
   */
  lemma AutoAttachMissesNoTab(s: State, steps: seq<Step>, e: State, t: int)
    requires Reachable(s) && Reaches(Next, s, steps, e)
    requires t !in s.knownTabs || !s.autoAttach || (steps != [] && Creates(steps[0], t))
    requires t in e.knownTabs && e.autoAttach
    ensures HasOwnTask(e, t, |s.callers|) || IsListed(e, t, |s.scans|)
  {
    InvReachable(s);
    CoverRun(s, steps, e, t, |s.callers|, |s.scans|);
  }

  /** An EnableAutoAttach that returns nil has obtained a session for every tab it listed. */
  lemma CompleteScanAttachedAll(s: State, j: nat, i: nat)
    requires Reachable(s) && j < |s.scans| && s.scans[j].result.Complete? && i < |s.scans[j].ids|
    ensures i < |s.scans[j].tasks| && s.scans[j].tasks[i] < |s.callers|
    ensures var caller := s.callers[s.scans[j].tasks[i]];
      caller.tab == s.scans[j].ids[i] && caller.status.Returned? && caller.status.answer.Got?
  {
    InvReachable(s);
    assert ScanOk(s, s.scans[j]);
    assert TaskOk(s, s.scans[j], i);
  }

  // ----- children

  /** A live tab's children are those its events announced and did not withdraw since its commit. */
  lemma ChildrenAreReplayed(s: State, t: int)
    requires Reachable(s) && t in s.sessions
    ensures s.sessions[t].children == Replay(s.history, t)
    ensures StringValue(s.sessions[t].info, "targetId") != ""
  {
    InvReachable(s);
  }

  // ----- routing

  ghost predicate FindsTop(s: State, id: string, t: int) {
    t in s.sessions && SessionId(s.sessions[t].number) == id
  }

  ghost predicate FindsChild(s: State, id: string, t: int) {
    t in s.sessions && id in s.sessions[t].children
  }

  /**
   Forward with session id `sid` may send a command for tab t and child session `child`. Its two lookups are
   two lock regions: the first sees state s, the second, made only if the first found nothing, sees s'.
   */
  ghost predicate Forwards(s: State, s': State, sid: string, t: int, child: string) {
    if sid == "" then t in s.sessions && child == ""
    else if exists u :: FindsTop(s, sid, u) then FindsTop(s, sid, t) && child == ""
    else FindsChild(s', sid, t) && child == sid
  }

  lemma SessionIdInjective(m: nat, n: nat)
    requires SessionId(m) == SessionId(n)
    ensures m == n
  {
    assert SessionId(m)[|"pw-tab-"|..] == Decimal(m);
    assert SessionId(n)[|"pw-tab-"|..] == Decimal(n);
    DecimalInjective(m, n);
  }

  /** Whatever order the map is visited in, a top-level session id finds at most one tab, the one it is filed under. */
  lemma TopLookupIsUnique(s: State, id: string, t: int, u: int)
    requires Reachable(s) && FindsTop(s, id, t) && FindsTop(s, id, u)
    ensures t == u && s.sessions[t].tab == t
  {
    InvReachable(s);
    SessionIdInjective(s.sessions[t].number, s.sessions[u].number);
    assert LiveAs(s, t, s.sessions[t]) && LiveAs(s, u, s.sessions[u]);
  }
}

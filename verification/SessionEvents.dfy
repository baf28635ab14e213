/** The synthetic events: each session number is announced once and withdrawn once. */
module SessionEvents {
  import opened Runs
  import opened SessionProtocol
  import opened SessionInvariants

  /** How often e was emitted or is about to be. */
  function Total(s: State, e: Event): nat {
    multiset(s.events)[e] + s.unsent[e]
  }

  /** Number n was committed to a session at some time. */
  ghost predicate WasLive(s: State, n: nat) {
    && 1 <= n <= |s.makers| && s.makers[n - 1] < |s.calls|
    && Published(s.calls[s.makers[n - 1]].phase) == Some(Got(n))
  }

  ghost predicate IsLive(s: State, n: nat) {
    WasLive(s, n) && var t := s.calls[s.makers[n - 1]].tab; t in s.sessions && s.sessions[t].number == n
  }

  ghost predicate EventsOf(s: State, n: nat) {
    && Total(s, DetachedEvent(n)) == (if WasLive(s, n) && !IsLive(s, n) then 1 else 0)
    && s.unsent[AttachedEvent(n)] == (if WasLive(s, n) && s.calls[s.makers[n - 1]].phase.Committed? then 1 else 0)
    && multiset(s.events)[AttachedEvent(n)] == (if WasLive(s, n) && s.calls[s.makers[n - 1]].phase.Finished? then 1 else 0)
  }

  ghost predicate EventsOk(s: State) {
    forall n: nat :: EventsOf(s, n)
  }

  lemma EventsFrame(s: State, s': State)
    requires EventsOk(s)
    requires s'.events == s.events && s'.unsent == s.unsent && s'.sessions == s.sessions && s'.makers == s.makers
    requires s'.calls == s.calls
    ensures EventsOk(s')
  {
    forall n: nat ensures EventsOf(s', n) {
      assert EventsOf(s, n);
    }
  }

  lemma EventsDetach(s: State, id: int)
    requires Core(s) && EventsOk(s)
    ensures EventsOk(DetachTabLocked(s, id))
  {
    var s' := DetachTabLocked(s, id);
    if id in s.sessions {
      assert LiveAs(s, id, s.sessions[id]);
      forall n: nat ensures EventsOf(s', n) {
        assert EventsOf(s, n);
      }
    }
  }

  lemma EventsDebugger(s: State, source: Option<int>, sourceSession: string, cdpMethod: CdpMethod, announced: string)
    requires EventsOk(s)
    ensures EventsOk(OnDebuggerEvent(s, source, sourceSession, cdpMethod, announced))
  {
    var s' := OnDebuggerEvent(s, source, sourceSession, cdpMethod, announced);
    assert s'.calls == s.calls && s'.makers == s.makers && s'.events == s.events;
    forall n: nat ensures EventsOf(s', n) {
      assert EventsOf(s, n);
      assert WasLive(s', n) <==> WasLive(s, n);
      assert IsLive(s', n) <==> IsLive(s, n);
    }
  }

  /** Calls in flight come and go without touching what was published. */
  lemma EventsCalls(s: State, s': State)
    requires Numbers(s) && EventsOk(s)
    requires s'.events == s.events && s'.unsent == s.unsent && s'.sessions == s.sessions
    requires s.makers <= s'.makers && |s.calls| <= |s'.calls|
    requires forall c :: 0 <= c < |s.calls| && !InFlight(s.calls[c].phase) ==> s'.calls[c] == s.calls[c]
    requires forall c :: 0 <= c < |s.calls| && InFlight(s.calls[c].phase) ==> NumberOf(s'.calls[c].phase).None? || InFlight(s'.calls[c].phase)
    requires forall i :: |s.makers| <= i < |s'.makers| ==> s'.makers[i] < |s'.calls| && InFlight(s'.calls[s'.makers[i]].phase)
    ensures EventsOk(s')
  {
    forall n: nat ensures EventsOf(s', n) {
      assert EventsOf(s, n);
    }
  }

  lemma EventsBegin(s: State, k: nat)
    requires Numbers(s) && EventsOk(s) && OnBegin(s, k).Some?
    ensures EventsOk(OnBegin(s, k).value)
  {
    EventsCalls(s, OnBegin(s, k).value);
  }

  lemma EventsTakeNumber(s: State, c: nat)
    requires Numbers(s) && EventsOk(s) && OnTakeNumber(s, c).Some?
    ensures EventsOk(OnTakeNumber(s, c).value)
  {
    EventsCalls(s, OnTakeNumber(s, c).value);
  }

  lemma EventsAbandon(s: State, c: nat)
    requires Numbers(s) && EventsOk(s) && OnAbandon(s, c).Some?
    ensures EventsOk(OnAbandon(s, c).value)
  {
    EventsCalls(s, OnAbandon(s, c).value);
  }

  lemma EventsCommit(s: State, c: nat)
    requires Core(s) && EventsOk(s) && OnCommit(s, c).Some?
    ensures EventsOk(OnCommit(s, c).value)
  {
    var s' := OnCommit(s, c).value;
    CommitAttempt(s, c);
    forall n: nat ensures EventsOf(s', n) {
      assert EventsOf(s, n);
      if n == s.calls[c].phase.number {
        assert !WasLive(s, n) && WasLive(s', n);
      } else {
        assert WasLive(s', n) <==> WasLive(s, n);
        assert IsLive(s', n) <==> IsLive(s, n);
      }
    }
  }

  lemma EventsEmitAttached(s: State, c: nat)
    requires Core(s) && EventsOk(s) && OnEmitAttached(s, c).Some?
    ensures EventsOk(OnEmitAttached(s, c).value)
  {
    var s' := OnEmitAttached(s, c).value;
    assert multiset(s'.events) == multiset(s.events) + multiset{AttachedEvent(s.calls[c].phase.number)};
    forall n: nat ensures EventsOf(s', n) {
      assert EventsOf(s, n);
      assert WasLive(s', n) <==> WasLive(s, n);
      assert IsLive(s', n) <==> IsLive(s, n);
    }
  }

  lemma EventsEmit(s: State, e: Event)
    requires EventsOk(s) && OnEmit(s, e).Some?
    ensures EventsOk(OnEmit(s, e).value)
  {
    var s' := OnEmit(s, e).value;
    assert multiset(s'.events) == multiset(s.events) + multiset{e};
    forall n: nat ensures EventsOf(s', n) {
      assert EventsOf(s, n);
    }
  }

  lemma EventsHeard(s: State, a: Step)
    requires Core(s) && EventsOk(s) && Hears(a)
    ensures EventsOk(Heard(s, a)) && Next(s, a) == Some(Heard(s, a))
  {
    HeardFrame(s, a);
    match a
    case TabRemoved(id) =>
      var s0 := s.(knownTabs := s.knownTabs - {id});
      CoreFrame(s, s0);
      EventsFrame(s, s0);
      EventsDetach(s0, id);
    case DebuggerDetached(source) => if source.Some? { EventsDetach(s, source.value); }
    case DebuggerMessage(source, sourceSession, m, announced) => EventsDebugger(s, source, sourceSession, m, announced);
  }

  lemma EventsKept(s: State, a: Step)
    requires Core(s) && EventsOk(s) && Next(s, a).Some?
    ensures EventsOk(Next(s, a).value)
  {
    if IsExchange(a) {
      assert Next(s, a) == Exchange(s, a);
      ExchangeShape(s, a);
      EventsCalls(s, Exchange(s, a).value);
    } else if LeavesCore(a) && !a.Emit? {
      LeavesCoreEvents(s, a);
      LeavesCoreFrame(s, a);
      EventsFrame(s, Next(s, a).value);
    } else if Hears(a) {
      EventsHeard(s, a);
    } else {
      match a
      case Begin(k) => EventsBegin(s, k);
      case TakeNumber(c) => EventsTakeNumber(s, c);
      case Commit(c) => EventsCommit(s, c);
      case Abandon(c) => EventsAbandon(s, c);
      case EmitAttached(c) => EventsEmitAttached(s, c);
      case Emit(e) => EventsEmit(s, e);
    }
  }

  lemma LeavesCoreEvents(s: State, a: Step)
    requires LeavesCore(a) && !a.Emit? && Next(s, a).Some?
    ensures Next(s, a).value.events == s.events && Next(s, a).value.unsent == s.unsent
  {
    match a
    case TabCreated(tab) =>
    case CreateReply(tab) =>
    case EnableAutoAttach(order) =>
    case ScanStep(j) => assert Next(s, a) == OnScanStep(s, j);
    case WaiterWoken(k) => assert Next(s, a) == OnWaiterWoken(s, k);
    case WaiterCancelled(k) => assert Next(s, a) == OnWaiterCancelled(s, k);
  }
}

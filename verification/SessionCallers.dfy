/** Callers of attachTab: leaders, waiters and what they return, over every step. */
module SessionCallers {
  import opened Runs
  import opened SessionProtocol
  import opened SessionInvariants

  // ----- what is never undone

  /** From s to t the goroutines only move forward: outcomes once published and answers once returned stay. */
  ghost predicate Grows(s: State, t: State) {
    && |s.calls| <= |t.calls|
    && (forall c :: 0 <= c < |s.calls| ==> CallGrows(s.calls[c], t.calls[c]))
    && |s.callers| <= |t.callers|
    && (forall k :: 0 <= k < |s.callers| ==> CallerGrows(s.callers[k], t.callers[k]))
    && s.makers <= t.makers
    && (s.autoAttach ==> t.autoAttach)
    && s.nextID <= t.nextID
  }

  ghost predicate CallGrows(x: Call, y: Call) {
    x.tab == y.tab && x.leader == y.leader && (Published(x.phase).Some? ==> Published(y.phase) == Published(x.phase))
  }

  ghost predicate CallerGrows(x: Caller, y: Caller) {
    x.tab == y.tab && x.origin == y.origin && (x.status.Returned? ==> y.status == x.status)
  }

  // ----- the invariant

  /** Number n was drawn by a call for tab t, which has published it. */
  ghost predicate MadeFor(s: State, n: nat, t: int) {
    && 1 <= n <= |s.makers| && s.makers[n - 1] < |s.calls|
    && s.calls[s.makers[n - 1]].tab == t
    && Published(s.calls[s.makers[n - 1]].phase) == Some(Got(n))
  }

  ghost predicate CallerOk(s: State, k: nat)
    requires k < |s.callers|
  {
    match s.callers[k].status
    case Ready => true
    case Joined(c) => c < |s.calls| && s.calls[c].tab == s.callers[k].tab
    case Leads(c) =>
      c < |s.calls| && s.calls[c].tab == s.callers[k].tab && s.calls[c].leader == k && !s.calls[c].phase.Finished?
    case Returned(Attempt(c), a) =>
      c < |s.calls| && s.calls[c].tab == s.callers[k].tab && (a.ContextEnded? || Published(s.calls[c].phase) == Some(a))
    case Returned(Direct, a) => a.Got? && MadeFor(s, a.number, s.callers[k].tab)
  }

  ghost predicate LeaderOk(s: State, c: nat)
    requires c < |s.calls|
  {
    && s.calls[c].leader < |s.callers|
    && s.callers[s.calls[c].leader].tab == s.calls[c].tab
    && s.callers[s.calls[c].leader].status ==
       (if s.calls[c].phase.Finished? then Returned(Attempt(c), s.calls[c].phase.answer) else Leads(c))
    && (s.calls[c].phase.Finished? ==> !s.calls[c].phase.answer.ContextEnded?)
  }

  ghost predicate Callers(s: State) {
    && (forall k :: 0 <= k < |s.callers| ==> CallerOk(s, k))
    && (forall c :: 0 <= c < |s.calls| ==> LeaderOk(s, c))
  }

  // ----- steps that only append ready callers, or touch no goroutine

  lemma CallersAppend(s: State, s': State)
    requires Callers(s)
    requires s'.calls == s.calls && s'.makers == s.makers
    requires s.callers <= s'.callers && s.nextID == s'.nextID
    requires forall k :: |s.callers| <= k < |s'.callers| ==> s'.callers[k].status.Ready?
    requires s.autoAttach ==> s'.autoAttach
    ensures Callers(s') && Grows(s, s')
  {
    forall k | 0 <= k < |s'.callers| ensures CallerOk(s', k) {
      if k < |s.callers| { assert CallerOk(s, k); }
    }
    forall c | 0 <= c < |s'.calls| ensures LeaderOk(s', c) {
      assert LeaderOk(s, c);
    }
  }

  /** A caller that leads nothing changes its status. */
  lemma CallersStatus(s: State, k: nat, status: Status)
    requires Callers(s) && k < |s.callers| && (s.callers[k].status.Ready? || s.callers[k].status.Joined?)
    requires CallerOk(SetStatus(s, k, status), k)
    ensures Callers(SetStatus(s, k, status)) && Grows(s, SetStatus(s, k, status))
  {
    var s' := SetStatus(s, k, status);
    forall i | 0 <= i < |s'.callers| ensures CallerOk(s', i) {
      if i != k { assert CallerOk(s, i); }
    }
    forall c | 0 <= c < |s'.calls| ensures LeaderOk(s', c) {
      assert LeaderOk(s, c);
      assert CallerOk(s, s.calls[c].leader);
    }
  }

  /** A leader moves on without publishing, or publishes for the first time; it does not return yet. */
  lemma CallersPhase(s: State, s': State, c: nat, p: Phase)
    requires Callers(s) && c < |s.calls| && InFlight(s.calls[c].phase) && !p.Finished?
    requires s'.calls == s.calls[c := s.calls[c].(phase := p)]
    requires s'.callers == s.callers && s.makers <= s'.makers && s.nextID <= s'.nextID && s'.autoAttach == s.autoAttach
    ensures Callers(s') && Grows(s, s')
  {
    forall i | 0 <= i < |s'.callers| ensures CallerOk(s', i) {
      assert CallerOk(s, i);
    }
    forall d | 0 <= d < |s'.calls| ensures LeaderOk(s', d) {
      assert LeaderOk(s, d);
    }
  }

  /** A leader returns the answer it publishes, or has published. */
  lemma CallersReturn(s: State, s': State, c: nat, a: Answer)
    requires Callers(s) && c < |s.calls| && !s.calls[c].phase.Finished? && !a.ContextEnded?
    requires Published(s.calls[c].phase).Some? ==> Published(s.calls[c].phase) == Some(a)
    requires s.calls[c].leader < |s.callers|
    requires s'.calls == s.calls[c := s.calls[c].(phase := Finished(a))]
    requires s'.callers == SetStatus(s, s.calls[c].leader, Returned(Attempt(c), a)).callers
    requires s'.makers == s.makers && s'.nextID == s.nextID && s'.autoAttach == s.autoAttach
    ensures Callers(s') && Grows(s, s')
  {
    assert LeaderOk(s, c);
    forall i | 0 <= i < |s'.callers| ensures CallerOk(s', i) {
      assert CallerOk(s, i);
    }
    forall d | 0 <= d < |s'.calls| ensures LeaderOk(s', d) {
      assert LeaderOk(s, d);
    }
  }

  lemma CallersBegin(s: State, k: nat)
    requires Core(s) && Callers(s) && OnBegin(s, k).Some?
    ensures Callers(OnBegin(s, k).value) && Grows(s, OnBegin(s, k).value)
  {
    var t := s.callers[k].tab;
    var s' := OnBegin(s, k).value;
    if t in s.sessions {
      assert LiveAs(s, t, s.sessions[t]);
      CallersStatus(s, k, Returned(Direct, Got(s.sessions[t].number)));
    } else if t in s.attaching {
      CallersStatus(s, k, Joined(s.attaching[t]));
    } else {
      forall i | 0 <= i < |s'.callers| ensures CallerOk(s', i) {
        assert CallerOk(s, i);
      }
      forall c | 0 <= c < |s'.calls| ensures LeaderOk(s', c) {
        if c < |s.calls| {
          assert LeaderOk(s, c);
          assert CallerOk(s, s.calls[c].leader);
        }
      }
    }
  }

  predicate AppendsCallers(a: Step) {
    a.TabCreated? || a.CreateReply? || a.EnableAutoAttach? || a.ScanStep? || a.Emit?
  }

  lemma CallersAppended(s: State, a: Step)
    requires Callers(s) && AppendsCallers(a) && Next(s, a).Some?
    ensures Callers(Next(s, a).value) && Grows(s, Next(s, a).value)
  {
    match a
    case TabCreated(tab) => CallersAppend(s, Next(s, a).value);
    case CreateReply(tab) => CallersAppend(s, Next(s, a).value);
    case EnableAutoAttach(order) => CallersAppend(s, Next(s, a).value);
    case ScanStep(j) => CallersAppend(s, Next(s, a).value);
    case Emit(e) => CallersAppend(s, Next(s, a).value);
  }

  lemma CallersKept(s: State, a: Step)
    requires Core(s) && Callers(s) && Next(s, a).Some?
    ensures Callers(Next(s, a).value) && Grows(s, Next(s, a).value)
  {
    if IsExchange(a) {
      assert Next(s, a) == Exchange(s, a);
      ExchangeShape(s, a);
      var (c, p, mark) := ExchangeOf(s, a).value;
      CallersPhase(s, Move(s, c, p, mark), c, p);
    } else if Hears(a) {
      HeardFrame(s, a);
      CallersAppend(s, Heard(s, a));
    } else if AppendsCallers(a) {
      CallersAppended(s, a);
    } else {
      match a
      case Begin(k) => CallersBegin(s, k);
      case WaiterWoken(k) =>
        assert CallerOk(s, k);
        var c := s.callers[k].status.call;
        CallersStatus(s, k, Returned(Attempt(c), Published(s.calls[c].phase).value));
      case WaiterCancelled(k) =>
        assert CallerOk(s, k);
        CallersStatus(s, k, Returned(Attempt(s.callers[k].status.call), ContextEnded));
      case TakeNumber(c) => CallersPhase(s, Next(s, a).value, c, Numbered(s.nextID, s.calls[c].phase.info));
      case Commit(c) => CallersPhase(s, Next(s, a).value, c, Committed(s.calls[c].phase.number, s.calls[c].phase.info));
      case Abandon(c) => CallersReturn(s, Next(s, a).value, c, Failed(s.calls[c].phase.error));
      case EmitAttached(c) => CallersReturn(s, Next(s, a).value, c, Got(s.calls[c].phase.number));
    }
  }
}

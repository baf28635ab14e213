/** Routing over runs: what becomes of a child session, of a detached tab and of an event nobody is attached for. */
module SessionRouting {
  import opened Runs
  import opened SessionProtocol
  import opened SessionInvariants
  import opened SessionCallers
  import opened SessionEvents
  import opened SessionChildren
  import opened SessionTheorems

  // ----- a live session over a run

  /** Tab t has the session with number n. */
  ghost predicate HasSession(s: State, t: int, n: nat) {
    t in s.sessions && s.sessions[t].number == n
  }

  /** A session that a step takes from its tab is detached. */
  lemma DroppedIsDetached(s: State, a: Step, t: int, n: nat)
    requires Reachable(s) && HasSession(s, t, n) && Next(s, a).Some? && !HasSession(Next(s, a).value, t, n)
    ensures Detached(Next(s, a).value, n)
  {
    var s' := Next(s, a).value;
    StepReachable(s, a);
    InvReachable(s);
    InvReachable(s');
    CallersKept(s, a);
    GoneIsDetached(s, s', t, n);
  }

  lemma GoneIsDetached(s: State, s': State, t: int, n: nat)
    requires Core(s) && EventsOk(s') && Grows(s, s') && HasSession(s, t, n) && !HasSession(s', t, n)
    ensures Detached(s', n)
  {
    assert LiveAs(s, t, s.sessions[t]);
    var c := s.makers[n - 1];
    assert s'.makers[n - 1] == c && CallGrows(s.calls[c], s'.calls[c]);
    assert WasLive(s', n) && !IsLive(s', n);
    assert EventsOf(s', n);
  }

  /** A session still there at the end of a run was there after every step. */
  lemma StillThere(s: State, a: Step, steps: seq<Step>, e: State, t: int, n: nat)
    requires Reachable(s) && HasSession(s, t, n) && Next(s, a).Some?
    requires Reaches(Next, Next(s, a).value, steps, e) && HasSession(e, t, n)
    ensures HasSession(Next(s, a).value, t, n)
  {
    if !HasSession(Next(s, a).value, t, n) {
      DroppedIsDetached(s, a, t, n);
      StepReachable(s, a);
      DetachedForever(Next(s, a).value, steps, e, n);
      assert false;
    }
  }

  // ----- a child over a run

  /** The step tells that tab t's child is gone. */
  predicate Withdraws(a: Step, t: int, child: string) {
    a.DebuggerMessage? && a.source == Some(t) && a.cdpMethod == DetachedFromTarget && a.announced == child
  }

  /** A child stays with its session through every step that does not withdraw it. */
  lemma ChildStaysStep(s: State, a: Step, t: int, child: string)
    requires Core(s) && Next(s, a).Some? && !Withdraws(a, t, child)
    requires t in s.sessions && child in s.sessions[t].children && t in Next(s, a).value.sessions
    ensures child in Next(s, a).value.sessions[t].children
  {
    if IsExchange(a) {
      assert Next(s, a) == Exchange(s, a);
    } else if LeavesCore(a) {
      LeavesCoreFrame(s, a);
    } else if Hears(a) {
      HeardFrame(s, a);
      HeardChild(s, a, t, child);
    } else {
      match a
      case Commit(c) => CommitAttempt(s, c);
      case Begin(k) => assert Next(s, a) == OnBegin(s, k);
      case TakeNumber(c) => assert Next(s, a) == OnTakeNumber(s, c);
      case Abandon(c) => assert Next(s, a) == OnAbandon(s, c);
      case EmitAttached(c) => assert Next(s, a) == OnEmitAttached(s, c);
    }
  }

  lemma HeardChild(s: State, a: Step, t: int, child: string)
    requires Hears(a) && !Withdraws(a, t, child)
    requires t in s.sessions && child in s.sessions[t].children && t in Heard(s, a).sessions
    ensures child in Heard(s, a).sessions[t].children
  {
  }

  /** And through every run without such a step at whose end the session is still there. */
  lemma {:induction false} ChildStays(s: State, steps: seq<Step>, e: State, t: int, n: nat, child: string)
    requires Reachable(s) && Reaches(Next, s, steps, e)
    requires HasSession(s, t, n) && child in s.sessions[t].children && HasSession(e, t, n)
    requires forall i :: 0 <= i < |steps| ==> !Withdraws(steps[i], t, child)
    ensures child in e.sessions[t].children
    decreases |steps|
  {
    if steps != [] {
      StillThere(s, steps[0], steps[1..], e, t, n);
      InvReachable(s);
      ChildStaysStep(s, steps[0], t, child);
      StepReachable(s, steps[0]);
      ChildStays(Next(s, steps[0]).value, steps[1..], e, t, n, child);
    }
  }

  /** A child was announced, and not withdrawn nor its tab committed anew since. */
  ghost predicate Announced(history: seq<Happening>, t: int, child: string, j: nat) {
    && child != "" && j < |history| && history[j] == TabMessage(t, AttachedToTarget, child)
    && forall k :: j < k < |history| ==> history[k] != TabMessage(t, DetachedFromTarget, child) && history[k] != TabCommitted(t)
  }

  lemma {:induction false} EmptyIsNoChild(history: seq<Happening>, t: int)
    ensures "" !in Replay(history, t)
  {
    if history != [] {
      EmptyIsNoChild(history[..|history| - 1], t);
    }
  }

  /** The replay holds exactly the children so announced. */
  lemma {:induction false} ReplayIs(history: seq<Happening>, t: int, child: string)
    ensures child in Replay(history, t) <==> exists j: nat :: Announced(history, t, child, j)
  {
    if history != [] {
      var n := |history| - 1;
      var before, last := history[..n], history[n];
      ReplayIs(before, t, child);
      if child == "" {
        EmptyIsNoChild(history, t);
      } else if last == TabMessage(t, AttachedToTarget, child) {
        assert Announced(history, t, child, n);
      } else {
        if child in Replay(history, t) {
          var j: nat :| Announced(before, t, child, j);
          assert Announced(history, t, child, j);
        }
        if j: nat :| Announced(history, t, child, j) {
          assert Announced(before, t, child, j);
        }
      }
    }
  }

  /** What no event ever announced for tab u is no child of u. */
  lemma NeverAnnounced(s: State, u: int, child: string)
    requires Reachable(s) && u in s.sessions && TabMessage(u, AttachedToTarget, child) !in s.history
    ensures child !in s.sessions[u].children
  {
    ChildrenAreReplayed(s, u);
    ReplayIs(s.history, u, child);
  }

  // ----- the history over a run

  lemma HistoryGrowsStep(s: State, a: Step)
    requires Next(s, a).Some?
    ensures s.history <= Next(s, a).value.history
  {
  }

  /** A tab gets a session only by a commit, which the history shows. */
  lemma SessionByCommit(s: State, a: Step, t: int)
    requires Next(s, a).Some? && t !in s.sessions && t in Next(s, a).value.sessions
    ensures Next(s, a).value.history == s.history + [TabCommitted(t)]
  {
  }

  lemma {:induction false} HistoryGrows(s: State, steps: seq<Step>, e: State)
    requires Reaches(Next, s, steps, e)
    ensures s.history <= e.history
    decreases |steps|
  {
    if steps != [] {
      HistoryGrowsStep(s, steps[0]);
      HistoryGrows(Next(s, steps[0]).value, steps[1..], e);
    }
  }

  /** Tab t was committed at some time from `from` on. */
  ghost predicate CommittedSince(history: seq<Happening>, from: nat, t: int) {
    exists i :: from <= i < |history| && history[i] == TabCommitted(t)
  }

  ghost predicate AnnouncedSince(history: seq<Happening>, from: nat, t: int, child: string) {
    exists j: nat :: from <= j && Announced(history, t, child, j)
  }

  lemma {:induction false} SessionSince(s: State, steps: seq<Step>, e: State, t: int)
    requires Reaches(Next, s, steps, e) && t !in s.sessions && t in e.sessions
    ensures CommittedSince(e.history, |s.history|, t)
    decreases |steps|
  {
    if steps != [] {
      var s' := Next(s, steps[0]).value;
      HistoryGrowsStep(s, steps[0]);
      HistoryGrows(s', steps[1..], e);
      if t in s'.sessions {
        SessionByCommit(s, steps[0], t);
        assert e.history[|s.history|] == s'.history[|s.history|];
      } else {
        SessionSince(s', steps[1..], e, t);
      }
    }
  }

  // ----- theorems

  /** The events of a run give no other tab the same child, and no child has a top-level session's name. */
  ghost predicate OnlyOf(history: seq<Happening>, t: int, child: string) {
    && (forall u :: u != t ==> TabMessage(u, AttachedToTarget, child) !in history)
    && (forall n: nat :: child != SessionId(n))
  }

  /**
   An event of tab t is passed on under session id `sid`; the run goes on through `before`, then through `between`,
   and `sid` is sent back through Forward, whose two lookups see `first` and `second`. If t's session is still
   attached then, and the event's child session, if it has one, was announced and on the way no event withdrew it, then
   `sid` reaches tab t and that child and nothing else.
   */
  lemma EventRoundTrip(s: State, t: int, sourceSession: string, cdpMethod: CdpMethod, announced: string,
                       before: seq<Step>, first: State, between: seq<Step>, second: State, u: int, child: string)
    requires Reachable(s) && t in s.sessions
    requires var passed := OnDebuggerEvent(s, Some(t), sourceSession, cdpMethod, announced);
      Reaches(Next, passed, before, first) && Reaches(Next, first, between, second)
    requires HasSession(if sourceSession == "" then first else second, t, s.sessions[t].number)
    requires sourceSession != "" ==>
      && (exists j: nat :: Announced(s.history, t, sourceSession, j)) && !(cdpMethod == DetachedFromTarget && announced == sourceSession)
      && (forall i :: 0 <= i < |before + between| ==> !Withdraws((before + between)[i], t, sourceSession))
      && OnlyOf(second.history, t, sourceSession)
    ensures var sid := EventSession(s.sessions[t], sourceSession);
      && ForwardedEvent(sid, cdpMethod) in OnDebuggerEvent(s, Some(t), sourceSession, cdpMethod, announced).unsent
      && (Forwards(first, second, sid, u, child) <==> u == t && child == sourceSession)
  {
    var sid := EventSession(s.sessions[t], sourceSession);
    var passed := OnDebuggerEvent(s, Some(t), sourceSession, cdpMethod, announced);
    DebuggerReachable(s, Some(t), sourceSession, cdpMethod, announced);
    RunReached(Next, Init(), passed, before, first);
    RunReached(Next, Init(), first, between, second);
    if sourceSession == "" {
      assert FindsTop(first, sid, t);
      if FindsTop(first, sid, u) { TopLookupIsUnique(first, sid, t, u); }
    } else {
      ChildrenAreReplayed(s, t);
      ReplayIs(s.history, t, sid);
      RunsJoin(Next, passed, before, first, between, second);
      ChildStays(passed, before + between, second, t, s.sessions[t].number, sid);
      assert forall x :: !FindsTop(first, sid, x);
      forall x | x in second.sessions && x != t ensures !FindsChild(second, sid, x) {
        NeverAnnounced(second, x, sid);
      }
    }
  }

  /**
   After a detach of tab t, however the run goes on, Forward reaches t only if t was committed again since; a child
   of t is reached only if it was announced again after that; and the old session's own id never names t.
   */
  lemma DetachStopsRouting(s: State, t: int, before: seq<Step>, first: State, between: seq<Step>, second: State,
                           sid: string, child: string)
    requires Reachable(s) && t in s.sessions
    requires Reaches(Next, DetachTabLocked(s, t), before, first) && Reaches(Next, first, between, second)
    requires Forwards(first, second, sid, t, child)
    ensures CommittedSince(second.history, |s.history|, t)
    ensures child != "" ==> AnnouncedSince(second.history, |s.history|, t, child)
    ensures child == "" ==> sid != SessionId(s.sessions[t].number)
  {
    var gone, n := DetachTabLocked(s, t), s.sessions[t].number;
    DetachReachable(s, t);
    RunReached(Next, Init(), gone, before, first);
    RunReached(Next, Init(), first, between, second);
    RunsJoin(Next, gone, before, first, between, second);
    HistoryGrows(first, between, second);
    if t in first.sessions {
      SessionSince(gone, before, first, t);
      var i :| |s.history| <= i < |first.history| && first.history[i] == TabCommitted(t);
      assert second.history[i] == TabCommitted(t);
    } else {
      SessionSince(gone, before + between, second, t);
    }
    if child == "" {
      DroppedIsDetached(s, DebuggerDetached(Some(t)), t, n);
      DetachedForever(gone, before, first, n);
      assert sid == SessionId(n) ==> FindsTop(first, SessionId(n), t);
    } else {
      ChildrenAreReplayed(second, t);
      ReplayIs(second.history, t, child);
      var j: nat :| Announced(second.history, t, child, j);
      var i :| |s.history| <= i < |second.history| && second.history[i] == TabCommitted(t);
      assert i <= j;
    }
  }

  // ----- stray events

  /** The same state but for the record of what happened. */
  ghost predicate SameButHistory(s: State, u: State) {
    u == s.(history := u.history)
  }

  lemma HistoryUnreadByLeaders(s: State, u: State, a: Step)
    requires SameButHistory(s, u) && Next(u, a).Some? && (IsLeaders(a) || IsExchange(a))
    ensures Next(s, a).Some? && SameButHistory(Next(s, a).value, Next(u, a).value)
  {
    if IsExchange(a) {
      assert Next(u, a) == Exchange(u, a) && Next(s, a) == Exchange(s, a);
      assert ExchangeOf(s, a) == ExchangeOf(u, a);
    }
  }

  lemma HistoryUnreadByCallers(s: State, u: State, a: Step)
    requires SameButHistory(s, u) && Next(u, a).Some? && (a.Begin? || a.WaiterWoken? || a.WaiterCancelled?)
    ensures Next(s, a).Some? && SameButHistory(Next(s, a).value, Next(u, a).value)
  {
    match a
    case Begin(k) => assert Next(u, a) == OnBegin(u, k) && Next(s, a) == OnBegin(s, k);
    case WaiterWoken(k) => assert Next(u, a) == OnWaiterWoken(u, k) && Next(s, a) == OnWaiterWoken(s, k);
    case WaiterCancelled(k) => assert Next(u, a) == OnWaiterCancelled(u, k) && Next(s, a) == OnWaiterCancelled(s, k);
  }

  lemma HistoryUnreadByHearing(s: State, u: State, a: Step)
    requires SameButHistory(s, u) && Hears(a)
    ensures Next(s, a).Some? && Next(u, a).Some? && SameButHistory(Next(s, a).value, Next(u, a).value)
  {
    HeardFrame(s, a);
    HeardFrame(u, a);
  }

  /** No step looks at the record. */
  lemma HistoryUnread(s: State, u: State, a: Step)
    requires SameButHistory(s, u) && Next(u, a).Some?
    ensures Next(s, a).Some? && SameButHistory(Next(s, a).value, Next(u, a).value)
  {
    if IsLeaders(a) || IsExchange(a) {
      HistoryUnreadByLeaders(s, u, a);
    } else if a.Begin? || a.WaiterWoken? || a.WaiterCancelled? {
      HistoryUnreadByCallers(s, u, a);
    } else if Hears(a) {
      HistoryUnreadByHearing(s, u, a);
    } else {
      match a
      case TabCreated(tab) =>
      case CreateReply(tab) => assert Next(u, a) == OnCreateReply(u, tab) && Next(s, a) == OnCreateReply(s, tab);
      case ScanStep(j) => assert Next(u, a) == OnScanStep(u, j) && Next(s, a) == OnScanStep(s, j);
      case EnableAutoAttach(order) =>
      case Emit(e) => assert Next(u, a) == OnEmit(u, e) && Next(s, a) == OnEmit(s, e);
    }
  }

  /**
   A debugger event of a tab without a session, or of no tab, can be struck from any run: without it the run goes
   the same way and ends in the same state, with the same sessions, children and messages, but for the record.
   */
  lemma {:induction false} StrayEventErased(s: State, stray: Step, steps: seq<Step>, e: State)
    requires stray.DebuggerMessage? && (stray.source.None? || stray.source.value !in s.sessions)
    requires Reaches(Next, s, [stray] + steps, e)
    ensures exists e' :: Reaches(Next, s, steps, e') && SameButHistory(e', e)
  {
    assert ([stray] + steps)[1..] == steps;
    ghost var e' := Follow(s, Next(s, stray).value, steps, e);
  }

  lemma {:induction false} Follow(s: State, u: State, steps: seq<Step>, e: State) returns (e': State)
    requires SameButHistory(s, u) && Reaches(Next, u, steps, e)
    ensures Reaches(Next, s, steps, e') && SameButHistory(e', e)
    decreases |steps|
  {
    if steps == [] {
      e' := s;
    } else {
      HistoryUnread(s, u, steps[0]);
      e' := Follow(Next(s, steps[0]).value, Next(u, steps[0]).value, steps[1..], e);
    }
  }
}

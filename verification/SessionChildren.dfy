/** Child sessions: what a tab's set of children is at any time, told by the events alone. */
module SessionChildren {
  import opened Runs
  import opened SessionProtocol
  import opened SessionInvariants

  /** What one happening does to the children of tab t. */
  function ReplayOne(h: Happening, t: int, before: set<string>): set<string> {
    match h
    case TabCommitted(u) => if u == t then {} else before
    case TabMessage(u, AttachedToTarget, id) => if u == t && id != "" then before + {id} else before
    case TabMessage(u, DetachedFromTarget, id) => if u == t && id != "" then before - {id} else before
    case TabMessage(_, OtherMethod(_), _) => before
  }

  /** The children of tab t according to what happened since t was last committed. */
  function Replay(history: seq<Happening>, t: int): set<string> {
    if history == [] then {}
    else ReplayOne(history[|history| - 1], t, Replay(history[..|history| - 1], t))
  }

  /** Live sessions hold exactly the replayed children, and a usable target description. */
  ghost predicate Children(s: State) {
    && (forall t :: t in s.sessions ==> s.sessions[t].children == Replay(s.history, t))
    && (forall t :: t in s.sessions ==> StringValue(s.sessions[t].info, "targetId") != "")
    && (forall c :: 0 <= c < |s.calls| ==> InfoOk(s.calls[c].phase))
  }

  predicate InfoOk(p: Phase) {
    match p
    case InfoUsable(info) => StringValue(info, "targetId") != ""
    case Numbered(_, info) => StringValue(info, "targetId") != ""
    case Committed(_, info) => StringValue(info, "targetId") != ""
    case _ => true
  }

  lemma ReplayAppend(history: seq<Happening>, h: Happening, t: int)
    ensures Replay(history + [h], t) == ReplayOne(h, t, Replay(history, t))
  {
    assert (history + [h])[..|history|] == history;
  }

  lemma ReplayMessage(history: seq<Happening>, u: int, cdpMethod: CdpMethod, announced: string, t: int)
    ensures Replay(history + [TabMessage(u, cdpMethod, announced)], t) ==
            (if u == t then ChildrenAfter(Replay(history, t), cdpMethod, announced) else Replay(history, t))
  {
    ReplayAppend(history, TabMessage(u, cdpMethod, announced), t);
  }

  lemma ChildrenDebugger(s: State, source: Option<int>, sourceSession: string, cdpMethod: CdpMethod, announced: string)
    requires Children(s)
    ensures Children(OnDebuggerEvent(s, source, sourceSession, cdpMethod, announced))
  {
    if source.Some? {
      var u := source.value;
      var s' := OnDebuggerEvent(s, source, sourceSession, cdpMethod, announced);
      assert s'.history == s.history + [TabMessage(u, cdpMethod, announced)] && s'.calls == s.calls;
      assert s'.sessions.Keys == s.sessions.Keys;
      forall t | t in s'.sessions
        ensures s'.sessions[t].children == Replay(s'.history, t) && s'.sessions[t].info == s.sessions[t].info
      {
        assert s'.sessions[t].children == if t == u then ChildrenAfter(s.sessions[t].children, cdpMethod, announced) else s.sessions[t].children;
        ReplayMessage(s.history, u, cdpMethod, announced, t);
      }
    }
  }

  lemma ChildrenCommit(s: State, c: nat)
    requires Children(s) && OnCommit(s, c).Some?
    ensures Children(OnCommit(s, c).value)
  {
    var s' := OnCommit(s, c).value;
    assert InfoOk(s.calls[c].phase);
    forall t | t in s'.sessions ensures s'.sessions[t].children == Replay(s'.history, t) {
      ReplayAppend(s.history, TabCommitted(s.calls[c].tab), t);
    }
  }

  /** A step that neither commits nor hears from the debugger can only drop sessions. */
  lemma ChildrenFrame(s: State, s': State)
    requires Children(s) && s'.history == s.history
    requires forall t :: t in s'.sessions ==> t in s.sessions && s'.sessions[t] == s.sessions[t]
    requires forall c :: 0 <= c < |s'.calls| ==> InfoOk(s'.calls[c].phase)
    ensures Children(s')
  {
  }

  lemma ChildrenBegin(s: State, k: nat)
    requires Children(s) && OnBegin(s, k).Some?
    ensures Children(OnBegin(s, k).value)
  {
    ChildrenFrame(s, OnBegin(s, k).value);
  }

  lemma ChildrenTakeNumber(s: State, c: nat)
    requires Children(s) && OnTakeNumber(s, c).Some?
    ensures Children(OnTakeNumber(s, c).value)
  {
    assert InfoOk(s.calls[c].phase);
    ChildrenFrame(s, OnTakeNumber(s, c).value);
  }

  lemma ChildrenAbandon(s: State, c: nat)
    requires Children(s) && OnAbandon(s, c).Some?
    ensures Children(OnAbandon(s, c).value)
  {
    ChildrenFrame(s, OnAbandon(s, c).value);
  }

  lemma ChildrenEmitAttached(s: State, c: nat)
    requires Children(s) && OnEmitAttached(s, c).Some?
    ensures Children(OnEmitAttached(s, c).value)
  {
    ChildrenFrame(s, OnEmitAttached(s, c).value);
  }

  /** Only a reply with a target id makes its information usable. */
  lemma ChildrenExchange(s: State, a: Step)
    requires Children(s) && Exchange(s, a).Some?
    ensures Children(Exchange(s, a).value)
  {
    ChildrenFrame(s, Exchange(s, a).value);
  }

  lemma ChildrenHeard(s: State, a: Step)
    requires Children(s) && Hears(a)
    ensures Children(Heard(s, a)) && Next(s, a) == Some(Heard(s, a))
  {
    HeardFrame(s, a);
    match a
    case TabRemoved(id) => ChildrenFrame(s, OnTabRemoved(s, id));
    case DebuggerDetached(source) => ChildrenFrame(s, Heard(s, a));
    case DebuggerMessage(source, sourceSession, m, announced) => ChildrenDebugger(s, source, sourceSession, m, announced);
  }

  lemma ChildrenKept(s: State, a: Step)
    requires Children(s) && Next(s, a).Some?
    ensures Children(Next(s, a).value)
  {
    if IsExchange(a) {
      assert Next(s, a) == Exchange(s, a);
      ChildrenExchange(s, a);
    } else if LeavesCore(a) {
      LeavesCoreFrame(s, a);
      ChildrenFrame(s, Next(s, a).value);
    } else if Hears(a) {
      ChildrenHeard(s, a);
    } else {
      match a
      case Commit(c) => ChildrenCommit(s, c);
      case Begin(k) => ChildrenBegin(s, k);
      case TakeNumber(c) => ChildrenTakeNumber(s, c);
      case Abandon(c) => ChildrenAbandon(s, c);
      case EmitAttached(c) => ChildrenEmitAttached(s, c);
    }
  }
}

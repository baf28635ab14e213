/**
 The browser model as the object it is: maps of tab sessions and attach calls that methods update in place.
 Each method is one lock region. The ghost field `protocol` is the state machine's view of the same moment;
 every method moves it by exactly one step.
 */
module BrowserModels {
  import opened Orders
  import Numerals
  import opened Runs
  import opened SessionInvariants
  import opened SessionProtocol
  import opened SessionTheorems

  /** What a debugger event does to its tab's children: one announced comes, one withdrawn goes, no other changes. */
  ghost predicate Tracks(before: set<string>, after: set<string>, cdpMethod: string, announced: string) {
    && (announced != "" && cdpMethod == "Target.attachedToTarget" ==> after == before + {announced})
    && (announced != "" && cdpMethod == "Target.detachedFromTarget" ==> after == before - {announced})
    && (announced == "" || cdpMethod !in {"Target.attachedToTarget", "Target.detachedFromTarget"} ==> after == before)
  }

  class TabSession {
    const tabID: int
    const sessionID: string
    ghost const number: nat
    const targetInfo: TargetInfo
    var childSessions: set<string>

    constructor (tabID: int, sessionID: string, ghost number: nat, targetInfo: TargetInfo)
      requires sessionID == SessionId(number)
      ensures this.tabID == tabID && this.sessionID == sessionID && this.number == number
      ensures this.targetInfo == targetInfo && childSessions == {}
    {
      this.tabID := tabID;
      this.sessionID := sessionID;
      this.number := number;
      this.targetInfo := targetInfo;
      childSessions := {};
    }

    ghost function View(): Session
      reads this
    {
      Session(tabID, number, targetInfo, childSessions)
    }

    /** Keeps up with the child sessions that a debugger event announces or withdraws. */
    method TrackChild(cdpMethod: string, announced: string)
      modifies this
      ensures childSessions == ChildrenAfter(old(childSessions), MethodOf(cdpMethod), announced)
      ensures Tracks(old(childSessions), childSessions, cdpMethod, announced)
    {
      MethodIs(cdpMethod);
      if cdpMethod == "Target.attachedToTarget" && announced != "" {
        childSessions := childSessions + {announced};
      } else if cdpMethod == "Target.detachedFromTarget" && announced != "" {
        childSessions := childSessions - {announced};
      }
    }
  }

  /** A pending attach: `done` is the closed channel, `session` and `err` what waiters then read. */
  class AttachCall {
    var done: bool
    var session: TabSession?
    var err: Option<AttachError>

    constructor ()
      ensures !done
    {
      done, session, err := false, null, None;
    }

    /** Stores the outcome and closes the channel. */
    method Publish(session: TabSession?, err: Option<AttachError>)
      modifies this
      ensures done && this.session == session && this.err == err
    {
      this.session, this.err, done := session, err, true;
    }

    /** What a waiter on this call can see, given the call's tab and phase. */
    ghost predicate Shows(tab: int, p: Phase)
      reads this
    {
      done == Published(p).Some? && (done ==> Fits(session, err, tab, Published(p).value))
    }
  }

  /** Session and error are what this answer says. */
  ghost predicate Fits(session: TabSession?, err: Option<AttachError>, tab: int, a: Answer) {
    match a
    case Got(n) => session != null && session.number == n && session.tabID == tab && session.sessionID == SessionId(n) && err.None?
    case Failed(e) => session == null && err == Some(e)
    case ContextEnded => false
  }

  /** What a lookup looks for. */
  datatype Want = BySession(id: string) | ByChild(id: string) | ByTarget(id: string) | ByEither(sessionId: string, targetId: string)

  predicate Matches(want: Want, sessionID: string, children: set<string>, targetId: string) {
    match want
    case BySession(id) => sessionID == id
    case ByChild(id) => id in children
    case ByTarget(id) => targetId == id
    case ByEither(sid, tid) => (sid != "" && sessionID == sid) || (tid != "" && targetId == tid)
  }

  ghost predicate SessionMatches(want: Want, x: Session) {
    match want
    case BySession(id) => id == SessionId(x.number)
    case ByChild(id) => id in x.children
    case ByTarget(id) => id == StringValue(x.info, "targetId")
    case ByEither(sid, tid) => sid in {SessionId(x.number)} - {""} || tid in {StringValue(x.info, "targetId")} - {""}
  }

  class BrowserModel {
    var knownTabs: map<int, Tab>
    var sessions: map<int, TabSession>
    var attaching: map<int, AttachCall>
    var autoAttach: bool
    var nextID: nat

    ghost var protocol: State
    ghost var allCalls: seq<AttachCall>

    ghost predicate SessionsShow()
      reads this, sessions.Values
    {
      && sessions.Keys == protocol.sessions.Keys
      && (forall t :: t in sessions ==> sessions[t].View() == protocol.sessions[t])
      && (forall t :: t in sessions ==> sessions[t].tabID == t && sessions[t].sessionID == SessionId(sessions[t].number))
    }

    ghost predicate CallsShow()
      reads this, allCalls
    {
      && |allCalls| == |protocol.calls|
      && (forall i, j :: 0 <= i < j < |allCalls| ==> allCalls[i] != allCalls[j])
      && (forall i :: 0 <= i < |allCalls| ==> allCalls[i].Shows(protocol.calls[i].tab, protocol.calls[i].phase))
    }

    ghost predicate AttachingShows()
      reads this
    {
      && attaching.Keys == protocol.attaching.Keys
      && (forall t :: t in attaching ==> protocol.attaching[t] < |allCalls| && attaching[t] == allCalls[protocol.attaching[t]])
    }

    ghost predicate Shows()
      reads this, sessions.Values, allCalls
    {
      && knownTabs == protocol.knownTabs && autoAttach == protocol.autoAttach && nextID == protocol.nextID
      && SessionsShow() && CallsShow() && AttachingShows()
    }

    ghost predicate Valid()
      reads this, sessions.Values, allCalls
    {
      Shows() && Reachable(protocol)
    }

    /** Each attach call is one object. */
    lemma EachCallOnce(c: nat)
      requires CallsShow() && c < |allCalls|
      ensures forall i :: 0 <= i < |allCalls| && i != c ==> allCalls[i] != allCalls[c]
    {
    }

    constructor ()
      ensures Valid() && protocol == Init()
    {
      knownTabs, sessions, attaching, autoAttach, nextID := map[], map[], map[], false, 1;
      protocol, allCalls := Init(), [];
      InitReached(Next, Init());
    }

    /** `spawn` tells whether the caller must start an attach task for the tab. */
    method OnTabCreated(tab: Tab) returns (spawn: bool)
      requires Valid()
      modifies this
      ensures Valid() && protocol == SessionProtocol.OnTabCreated(old(protocol), tab, TabEvent)
      ensures knownTabs == if tab.id.Some? then old(knownTabs)[tab.id.value := tab] else old(knownTabs)
      ensures (spawn <==> tab.id.Some? && autoAttach) && autoAttach == old(autoAttach) && nextID == old(nextID)
      ensures spawn <==> tab.id.Some? && protocol.callers == old(protocol).callers + [Caller(tab.id.value, TabEvent, Ready)]
      ensures sessions == old(sessions) && attaching == old(attaching) && allCalls == old(allCalls)
    {
      CreatedReachable(protocol, tab);
      protocol := SessionProtocol.OnTabCreated(protocol, tab, TabEvent);
      if tab.id.None? {
        return false;
      }
      knownTabs := knownTabs[tab.id.value := tab];
      spawn := autoAttach;
    }

    /** Removes the tab's session and hands it to the caller, who must then emit the detached event. */
    method DetachTabLocked(tabID: int) returns (s: TabSession?)
      requires Shows()
      modifies this
      ensures Shows() && protocol == SessionProtocol.DetachTabLocked(old(protocol), tabID)
      ensures s == (if tabID in old(sessions) then old(sessions)[tabID] else null)
      ensures s != null ==> DetachedEvent(s.number) in protocol.unsent
      ensures sessions == old(sessions) - {tabID} && attaching == old(attaching) && allCalls == old(allCalls)
      ensures knownTabs == old(knownTabs) && autoAttach == old(autoAttach) && nextID == old(nextID)
    {
      s := if tabID in sessions then sessions[tabID] else null;
      assert s != null ==> sessions[tabID].View() == protocol.sessions[tabID];
      sessions := sessions - {tabID};
      protocol := SessionProtocol.DetachTabLocked(protocol, tabID);
    }

    method OnTabRemoved(tabID: int) returns (s: TabSession?)
      requires Valid()
      modifies this
      ensures Valid() && protocol == SessionProtocol.OnTabRemoved(old(protocol), tabID)
      ensures knownTabs == old(knownTabs) - {tabID} && sessions == old(sessions) - {tabID} && attaching == old(attaching)
      ensures autoAttach == old(autoAttach) && nextID == old(nextID)
      ensures s == (if tabID in old(sessions) then old(sessions)[tabID] else null)
      ensures s != null ==> DetachedEvent(s.number) in protocol.unsent
    {
      RemovedReachable(protocol, tabID);
      knownTabs := knownTabs - {tabID};
      protocol := protocol.(knownTabs := protocol.knownTabs - {tabID});
      s := DetachTabLocked(tabID);
    }

    method OnDebuggerDetach(source: Option<int>) returns (s: TabSession?)
      requires Valid()
      modifies this
      ensures Valid()
      ensures protocol == if source.Some? then SessionProtocol.DetachTabLocked(old(protocol), source.value) else old(protocol)
      ensures s == (if source.Some? && source.value in old(sessions) then old(sessions)[source.value] else null)
    {
      s := null;
      if source.Some? {
        DetachReachable(protocol, source.value);
        s := DetachTabLocked(source.value);
      }
    }

    /** Tracks child sessions and returns the session id and method to emit, if the tab is attached. */
    method OnDebuggerEvent(source: Option<int>, sourceSession: string, cdpMethod: string, announced: string)
      returns (message: Option<(string, string)>)
      requires Valid()
      modifies this, sessions.Values
      ensures Valid()
      ensures protocol == SessionProtocol.OnDebuggerEvent(old(protocol), source, sourceSession, MethodOf(cdpMethod), announced)
      ensures sessions == old(sessions) && attaching == old(attaching)
      ensures source.Some? && source.value in sessions ==>
        Tracks(old(sessions[source.value].childSessions), sessions[source.value].childSessions, cdpMethod, announced)
      ensures forall t :: t in sessions && source != Some(t) ==> sessions[t].childSessions == old(sessions[t].childSessions)
      ensures message ==
        if source.Some? && source.value in sessions
        then Some((if sourceSession == "" then sessions[source.value].sessionID else sourceSession, cdpMethod)) else None
    {
      ghost var m := MethodOf(cdpMethod);
      DebuggerReachable(protocol, source, sourceSession, m, announced);
      if source.None? {
        return None;
      }
      ghost var before := protocol;
      protocol := SessionProtocol.OnDebuggerEvent(protocol, source, sourceSession, m, announced);
      if source.value !in sessions {
        return None;
      }
      var s := sessions[source.value];
      assert s.View() == before.sessions[source.value];
      s.TrackChild(cdpMethod, announced);
      var sessionID := sourceSession;
      if sessionID == "" {
        sessionID := s.sessionID;
      }
      return Some((sessionID, cdpMethod));
    }

    /** Turns auto-attach on and lists the known tabs; `order` is the order in which the map yields its keys. */
    method EnableAutoAttach(order: seq<int>) returns (ids: seq<int>)
      requires Valid() && Lists(order, knownTabs.Keys)
      modifies this
      ensures Valid() && OnEnableAutoAttach(old(protocol), ids) == Some(protocol)
      ensures ids == order && autoAttach && nextID == old(nextID)
      ensures knownTabs == old(knownTabs) && sessions == old(sessions) && attaching == old(attaching)
    {
      autoAttach := true;
      ids := [];
      for i := 0 to |order|
        invariant ids == order[..i]
      {
        ids := ids + [order[i]];
      }
      EnableReachable(protocol, ids);
      protocol := OnEnableAutoAttach(protocol, ids).value;
    }

    /** The first lock region of attachTab: a live session, a call to wait for, or a call to lead. */
    method AttachBegin(tabID: int, ghost k: nat) returns (s: TabSession?, call: AttachCall?, leads: bool)
      requires Valid() && k < |protocol.callers| && protocol.callers[k].tab == tabID && protocol.callers[k].status.Ready?
      modifies this
      ensures Valid() && OnBegin(old(protocol), k) == Some(protocol)
      ensures sessions == old(sessions)
      ensures s == (if tabID in sessions then sessions[tabID] else null)
      ensures leads <==> tabID !in sessions && tabID !in old(attaching)
      ensures tabID !in sessions && !leads ==> call == old(attaching)[tabID]
      ensures leads ==> call != null && fresh(call) && attaching == old(attaching)[tabID := call] && allCalls == old(allCalls) + [call]
    {
      s, call, leads := null, null, false;
      BeginReachable(protocol, k);
      if tabID in sessions {
        s := sessions[tabID];
        BeginWaits(protocol, k);
        Follow(OnBegin(protocol, k).value);
      } else if tabID in attaching {
        call := attaching[tabID];
        BeginWaits(protocol, k);
        Follow(OnBegin(protocol, k).value);
      } else {
        BeginStarts(protocol, k);
        call := Lead(tabID, k, OnBegin(protocol, k).value);
        leads := true;
      }
    }

    /** The machine moves and no field does. */
    ghost method Follow(after: State)
      requires Shows() && SameModel(protocol, after)
      modifies this`protocol
      ensures Shows() && protocol == after
    {
      protocol := after;
    }

    /** Registers a new call that caller k leads. */
    method Lead(tabID: int, ghost k: nat, ghost after: State) returns (call: AttachCall)
      requires CallsShow() && AttachingShows() && Starts(protocol, after, tabID, k)
      modifies this`attaching, this`protocol, this`allCalls
      ensures CallsShow() && AttachingShows() && protocol == after && fresh(call)
      ensures attaching == old(attaching)[tabID := call] && allCalls == old(allCalls) + [call]
    {
      call := new AttachCall();
      attaching := attaching[tabID := call];
      allCalls := allCalls + [call];
      protocol := after;
    }

    /** The lock region of doAttachTab: a session id never used before. */
    method TakeSessionID(ghost c: nat) returns (sessionID: string)
      requires Valid() && c < |protocol.calls| && protocol.calls[c].phase.InfoUsable?
      modifies this
      ensures Valid() && OnTakeNumber(old(protocol), c) == Some(protocol)
      ensures sessionID == SessionId(old(nextID)) == "pw-tab-" + Numerals.Decimal(old(nextID)) && nextID == old(nextID) + 1
      ensures forall t :: t in sessions ==> sessions[t].sessionID != sessionID
      ensures sessions == old(sessions) && attaching == old(attaching) && allCalls == old(allCalls)
    {
      sessionID := SessionId(nextID);
      forall t | t in sessions ensures sessions[t].sessionID != sessionID {
        assert sessions[t].View() == protocol.sessions[t];
        NumbersBelowNext(protocol, t);
        if sessions[t].sessionID == sessionID {
          SessionIdInjective(sessions[t].number, nextID);
        }
      }
      TakeNumberReachable(protocol, c);
      nextID := nextID + 1;
      protocol := OnTakeNumber(protocol, c).value;
    }

    /** Publishes a call's outcome and takes the call out of the map, as both endings of attachTab do. */
    method PublishCall(tabID: int, call: AttachCall, session: TabSession?, err: Option<AttachError>, ghost c: nat, ghost after: State)
      requires CallsShow() && AttachingShows() && c < |allCalls| && allCalls[c] == call && protocol.calls[c].tab == tabID
      requires c < |after.calls| && Ends(protocol, after, c, after.calls[c].phase)
      requires Published(after.calls[c].phase).Some? && Fits(session, err, tabID, Published(after.calls[c].phase).value)
      modifies this`attaching, this`protocol, call
      ensures CallsShow() && AttachingShows() && protocol == after
      ensures call.done && call.session == session && call.err == err && attaching == old(attaching) - {tabID}
    {
      EachCallOnce(c);
      call.Publish(session, err);
      attaching := attaching - {tabID};
      protocol := after;
    }

    /** The last lock region of attachTab after success: commit and wake the waiters. */
    method AttachCommit(tabID: int, call: AttachCall, s: TabSession, ghost c: nat)
      requires Valid() && c < |protocol.calls| && protocol.calls[c].tab == tabID && allCalls[c] == call
      requires protocol.calls[c].phase == Numbered(s.number, s.targetInfo)
      requires s.tabID == tabID && s.childSessions == {} && s.sessionID == SessionId(s.number)
      modifies this, call
      ensures Valid() && OnCommit(old(protocol), c) == Some(protocol)
      ensures call.done && call.session == s && call.err.None?
      ensures sessions == old(sessions)[tabID := s] && attaching == old(attaching) - {tabID} && allCalls == old(allCalls)
    {
      CommitReachable(protocol, c);
      CommitEnds(protocol, c);
      PublishCall(tabID, call, s, None, c, OnCommit(protocol, c).value);
      sessions := sessions[tabID := s];
    }

    /** The last lock region of attachTab after failure: publish the error and wake the waiters. */
    method AttachAbandon(tabID: int, call: AttachCall, err: AttachError, ghost c: nat)
      requires Valid() && c < |protocol.calls| && protocol.calls[c].tab == tabID && allCalls[c] == call
      requires protocol.calls[c].phase == Abandoning(err)
      modifies this, call
      ensures Valid() && OnAbandon(old(protocol), c) == Some(protocol)
      ensures call.done && call.session == null && call.err == Some(err)
      ensures sessions == old(sessions) && attaching == old(attaching) - {tabID} && allCalls == old(allCalls)
    {
      AbandonReachable(protocol, c);
      AbandonEnds(protocol, c);
      PublishCall(tabID, call, null, Some(err), c, OnAbandon(protocol, c).value);
    }

    /**
     The first session in the map's order that is accepted, or null if none is. Whatever the order, null
     means that no session is accepted.
     */
    method FindSession(want: Want, order: seq<int>) returns (s: TabSession?)
      requires Valid() && Lists(order, sessions.Keys)
      ensures s != null ==> s.tabID in sessions && sessions[s.tabID] == s && SessionMatches(want, protocol.sessions[s.tabID])
      ensures s == null ==> forall t :: t in sessions ==> !SessionMatches(want, protocol.sessions[t])
    {
      for i := 0 to |order|
        invariant forall j :: 0 <= j < i ==> order[j] in sessions && !SessionMatches(want, protocol.sessions[order[j]])
      {
        var t := order[i];
        assert sessions[t].View() == protocol.sessions[t];
        if Matches(want, sessions[t].sessionID, sessions[t].childSessions, StringValue(sessions[t].targetInfo, "targetId")) {
          return sessions[t];
        }
      }
      return null;
    }

    /**
     The first lock region of Forward: any session for no session id, else the one with that id. What it decides
     does not depend on the state `later` that the second region would see.
     */
    method ForwardTop(sessionID: string, order: seq<int>, ghost later: State) returns (tab: Option<int>)
      requires Valid() && Lists(order, sessions.Keys)
      ensures tab.Some? ==> Forwards(protocol, later, sessionID, tab.value, "")
      ensures tab.None? && sessionID == "" ==> forall t, child :: !Forwards(protocol, later, sessionID, t, child)
      ensures tab.None? && sessionID != "" ==> forall u :: !FindsTop(protocol, sessionID, u)
    {
      if sessionID == "" {
        if order == [] {
          return None;
        }
        var any := sessions[order[0]];
        assert any.tabID == order[0];
        return Some(any.tabID);
      }
      var s := FindSession(BySession(sessionID), order);
      if s == null {
        assert forall u :: FindsTop(protocol, sessionID, u) ==> SessionMatches(BySession(sessionID), protocol.sessions[u]);
        return None;
      }
      assert FindsTop(protocol, sessionID, s.tabID);
      return Some(s.tabID);
    }

    /** The second lock region of Forward, after one that saw the state `earlier` and found no top-level session. */
    method ForwardChild(sessionID: string, order: seq<int>, ghost earlier: State) returns (tab: Option<int>)
      requires Valid() && Lists(order, sessions.Keys)
      requires sessionID != "" && forall u :: !FindsTop(earlier, sessionID, u)
      ensures tab.Some? ==> Forwards(earlier, protocol, sessionID, tab.value, sessionID)
      ensures tab.None? ==> forall t, child :: !Forwards(earlier, protocol, sessionID, t, child)
    {
      var s := FindSession(ByChild(sessionID), order);
      if s == null {
        assert forall u :: FindsChild(protocol, sessionID, u) ==> SessionMatches(ByChild(sessionID), protocol.sessions[u]);
        return None;
      }
      assert FindsChild(protocol, sessionID, s.tabID);
      return Some(s.tabID);
    }
  }
}

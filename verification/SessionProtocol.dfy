/**
 The tab-to-session protocol: every lock region of the browser model, and every point where a goroutine
 waits for the extension, is one step of a state machine. A run is any sequence of enabled steps, so it
 covers every interleaving of leaders, waiters, tab removals, detaches and event emission.
 */
module SessionProtocol {
  import opened Runs
  import opened Numerals
  import opened Orders

  // ----- values

  /** A decoded JSON value of a target description. */
  datatype Json = Text(text: string) | Flag(flag: bool) | OtherJson

  type TargetInfo = map<string, Json>

  function StringValue(info: TargetInfo, key: string): string {
    if key in info && info[key].Text? then info[key].text else ""
  }

  datatype Tab = Tab(id: Option<int>, url: string)

  function SessionId(number: nat): string {
    "pw-tab-" + Decimal(number)
  }

  /** An attached tab; its session id is `SessionId(number)`. */
  datatype Session = Session(tab: int, number: nat, info: TargetInfo, children: set<string>)

  datatype AttachError = ExtensionError(text: string) | UndecodableInfo | NoTargetId

  /** What a caller of attachTab gets back. */
  datatype Answer = Got(number: nat) | Failed(error: AttachError) | ContextEnded

  /** Where the leader of one attach attempt stands. `Committed` still owes its attached event. */
  datatype Phase =
    | Starting
    | AttachSent
    | AttachAccepted
    | InfoSent
    | InfoUnusable(error: AttachError)
    | DetachSent(error: AttachError)
    | InfoUsable(info: TargetInfo)
    | Numbered(number: nat, info: TargetInfo)
    | Abandoning(error: AttachError)
    | Committed(number: nat, info: TargetInfo)
    | Finished(answer: Answer)

  datatype Call = Call(tab: int, leader: nat, phase: Phase)

  predicate InFlight(p: Phase) {
    !p.Committed? && !p.Finished?
  }

  /** The outcome waiters see once the call's channel is closed. */
  function Published(p: Phase): Option<Answer> {
    match p
    case Committed(n, _) => Some(Got(n))
    case Finished(a) => Some(a)
    case _ => None
  }

  datatype Via = Direct | Attempt(call: nat)
  datatype Status = Ready | Joined(call: nat) | Leads(call: nat) | Returned(via: Via, answer: Answer)
  datatype Origin = TabEvent | CreateRequest | FromScan(scan: nat)
  datatype Caller = Caller(tab: int, origin: Origin, status: Status)

  /** One EnableAutoAttach loop: the tabs it listed and the attachTab calls it has made so far. */
  datatype ScanResult = Running | Stopped(answer: Answer) | Complete
  datatype Scan = Scan(ids: seq<int>, tasks: seq<nat>, result: ScanResult)

  /** Extension commands of the attach phase and their outcomes, as the per-tab log records them. */
  datatype Mark =
    | MAttach | MRefused | MAccepted
    | MGetInfo | MUsable | MUnusable
    | MDetach | MDetached
    | MCommit | MAbandon
  datatype Entry = Entry(tab: int, mark: Mark)

  datatype Event =
    | AttachedEvent(number: nat)
    | DetachedEvent(number: nat)
    | ForwardedEvent(sessionId: string, cdpMethod: CdpMethod)

  /** The method name of a debugger event; two of them tell of child sessions. */
  datatype CdpMethod = AttachedToTarget | DetachedFromTarget | OtherMethod(name: string)

  function MethodOf(name: string): CdpMethod {
    if name == "Target.attachedToTarget" then AttachedToTarget
    else if name == "Target.detachedFromTarget" then DetachedFromTarget
    else OtherMethod(name)
  }

  lemma MethodIs(name: string)
    ensures MethodOf(name) == AttachedToTarget <==> name == "Target.attachedToTarget"
    ensures MethodOf(name) == DetachedFromTarget <==> name == "Target.detachedFromTarget"
    ensures forall other :: MethodOf(name) == OtherMethod(other) ==> name == other
  {
    assert "Target.attachedToTarget"[7] != "Target.detachedFromTarget"[7];
  }

  /** What happened to the child sessions: commits of a tab and the debugger events of a tab. */
  datatype Happening =
    | TabCommitted(tab: int)
    | TabMessage(tab: int, cdpMethod: CdpMethod, announced: string)

  // ----- state

  /**
   `knownTabs` to `nextID` are the fields of the model; `calls`, `callers` and `scans` are the goroutines;
   the rest only records what happened: `makers[n-1]` is the call that took session number n, `unsent`
   holds the messages some goroutine is about to emit.
   */
  datatype State = State(
    knownTabs: map<int, Tab>,
    sessions: map<int, Session>,
    attaching: map<int, nat>,
    autoAttach: bool,
    nextID: nat,
    calls: seq<Call>,
    callers: seq<Caller>,
    scans: seq<Scan>,
    makers: seq<nat>,
    log: seq<Entry>,
    history: seq<Happening>,
    events: seq<Event>,
    unsent: multiset<Event>)

  function Init(): State {
    State(map[], map[], map[], false, 1, [], [], [], [], [], [], [], multiset{})
  }

  datatype InfoReply = ReplyError(text: string) | ReplyUndecodable | ReplyInfo(info: TargetInfo)

  datatype Step =
    | TabCreated(tab: Tab)
    | CreateReply(tab: Tab)
    | TabRemoved(id: int)
    | DebuggerDetached(source: Option<int>)
    | DebuggerMessage(source: Option<int>, sourceSession: string, cdpMethod: CdpMethod, announced: string)
    | EnableAutoAttach(order: seq<int>)
    | ScanStep(scan: nat)
    | Begin(caller: nat)
    | WaiterWoken(caller: nat)
    | WaiterCancelled(caller: nat)
    | SendAttach(call: nat)
    | AttachReply(call: nat, error: Option<string>)
    | SendGetInfo(call: nat)
    | GetInfoReply(call: nat, reply: InfoReply)
    | SendDetach(call: nat)
    | DetachReply(call: nat)
    | TakeNumber(call: nat)
    | Commit(call: nat)
    | Abandon(call: nat)
    | EmitAttached(call: nat)
    | Emit(event: Event)

  // ----- the steps

  function OnTabCreated(s: State, tab: Tab, origin: Origin): State {
    if tab.id.None? then s
    else
      s.(knownTabs := s.knownTabs[tab.id.value := tab],
         callers := if s.autoAttach then s.callers + [Caller(tab.id.value, origin, Ready)] else s.callers)
  }

  /** CreateTarget after a reply with a usable tab: the tab is created, then the request itself attaches it. */
  function OnCreateReply(s: State, tab: Tab): Option<State> {
    if tab.id.None? then None
    else
      var s' := OnTabCreated(s, tab, TabEvent);
      Some(s'.(callers := s'.callers + [Caller(tab.id.value, CreateRequest, Ready)]))
  }

  function DetachTabLocked(s: State, id: int): State {
    if id in s.sessions then
      s.(sessions := s.sessions - {id}, unsent := s.unsent + multiset{DetachedEvent(s.sessions[id].number)})
    else s
  }

  function OnTabRemoved(s: State, id: int): State {
    DetachTabLocked(s.(knownTabs := s.knownTabs - {id}), id)
  }

  function ChildrenAfter(children: set<string>, cdpMethod: CdpMethod, announced: string): set<string> {
    if announced == "" then children
    else
      match cdpMethod
      case AttachedToTarget => children + {announced}
      case DetachedFromTarget => children - {announced}
      case OtherMethod(_) => children
  }

  /** The session id under which a debugger event of `session` is passed on. */
  function EventSession(session: Session, sourceSession: string): string {
    if sourceSession == "" then SessionId(session.number) else sourceSession
  }

  function OnDebuggerEvent(s: State, source: Option<int>, sourceSession: string, cdpMethod: CdpMethod, announced: string): State {
    if source.None? then s
    else
      var t := source.value;
      var s' := s.(history := s.history + [TabMessage(t, cdpMethod, announced)]);
      if t !in s.sessions then s'
      else
        var session := s.sessions[t];
        s'.(sessions := s.sessions[t := session.(children := ChildrenAfter(session.children, cdpMethod, announced))],
            unsent := s.unsent + multiset{ForwardedEvent(EventSession(session, sourceSession), cdpMethod)})
  }

  /** The lock region of EnableAutoAttach; `order` is the order in which the map happened to be visited. */
  function OnEnableAutoAttach(s: State, order: seq<int>): Option<State> {
    if Lists(order, s.knownTabs.Keys) then Some(s.(autoAttach := true, scans := s.scans + [Scan(order, [], Running)]))
    else None
  }

  /** The loop of EnableAutoAttach: next attachTab, stop at the first error, or finish. */
  function OnScanStep(s: State, j: nat): Option<State> {
    if j >= |s.scans| || !s.scans[j].result.Running? then None
    else
      var scan := s.scans[j];
      var n := |scan.tasks|;
      if n != 0 && (scan.tasks[n - 1] >= |s.callers| || !s.callers[scan.tasks[n - 1]].status.Returned?) then None
      else if n != 0 && !s.callers[scan.tasks[n - 1]].status.answer.Got? then
        Some(s.(scans := s.scans[j := scan.(result := Stopped(s.callers[scan.tasks[n - 1]].status.answer))]))
      else if n < |scan.ids| then
        Some(s.(scans := s.scans[j := scan.(tasks := scan.tasks + [|s.callers|])],
                callers := s.callers + [Caller(scan.ids[n], FromScan(j), Ready)]))
      else
        Some(s.(scans := s.scans[j := scan.(result := Complete)]))
  }

  function SetStatus(s: State, k: nat, status: Status): State
    requires k < |s.callers|
  {
    s.(callers := s.callers[k := s.callers[k].(status := status)])
  }

  /** The first lock region of attachTab. */
  function OnBegin(s: State, k: nat): Option<State> {
    if k >= |s.callers| || !s.callers[k].status.Ready? then None
    else
      var t := s.callers[k].tab;
      if t in s.sessions then Some(SetStatus(s, k, Returned(Direct, Got(s.sessions[t].number))))
      else if t in s.attaching then Some(SetStatus(s, k, Joined(s.attaching[t])))
      else
        Some(SetStatus(s, k, Leads(|s.calls|)).(
             calls := s.calls + [Call(t, k, Starting)],
             attaching := s.attaching[t := |s.calls|]))
  }

  function OnWaiterWoken(s: State, k: nat): Option<State> {
    if k >= |s.callers| || !s.callers[k].status.Joined? then None
    else
      var c := s.callers[k].status.call;
      if c >= |s.calls| || Published(s.calls[c].phase).None? then None
      else Some(SetStatus(s, k, Returned(Attempt(c), Published(s.calls[c].phase).value)))
  }

  function OnWaiterCancelled(s: State, k: nat): Option<State> {
    if k >= |s.callers| || !s.callers[k].status.Joined? then None
    else Some(SetStatus(s, k, Returned(Attempt(s.callers[k].status.call), ContextEnded)))
  }

  /** The leader of call c moves on and its tab's log gains one entry. */
  function Move(s: State, c: nat, phase: Phase, mark: Mark): State
    requires c < |s.calls|
  {
    s.(calls := s.calls[c := s.calls[c].(phase := phase)], log := s.log + [Entry(s.calls[c].tab, mark)])
  }

  function AfterInfo(reply: InfoReply): Phase {
    match reply
    case ReplyError(text) => InfoUnusable(ExtensionError(text))
    case ReplyUndecodable => InfoUnusable(UndecodableInfo)
    case ReplyInfo(info) => if StringValue(info, "targetId") == "" then InfoUnusable(NoTargetId) else InfoUsable(info)
  }

  /** The lock region of doAttachTab that draws the session number. */
  function OnTakeNumber(s: State, c: nat): Option<State> {
    if c >= |s.calls| || !s.calls[c].phase.InfoUsable? then None
    else
      Some(s.(calls := s.calls[c := s.calls[c].(phase := Numbered(s.nextID, s.calls[c].phase.info))],
              nextID := s.nextID + 1,
              makers := s.makers + [c]))
  }

  /** The last lock region of attachTab after success. */
  function OnCommit(s: State, c: nat): Option<State> {
    if c >= |s.calls| || !s.calls[c].phase.Numbered? then None
    else
      var Call(t, _, Numbered(n, info)) := s.calls[c];
      Some(Move(s, c, Committed(n, info), MCommit).(
           sessions := s.sessions[t := Session(t, n, info, {})],
           attaching := s.attaching - {t},
           history := s.history + [TabCommitted(t)],
           unsent := s.unsent + multiset{AttachedEvent(n)}))
  }

  /** The last lock region of attachTab after failure; the leader returns its error. */
  function OnAbandon(s: State, c: nat): Option<State> {
    if c >= |s.calls| || !s.calls[c].phase.Abandoning? || s.calls[c].leader >= |s.callers| then None
    else
      var Call(t, k, Abandoning(error)) := s.calls[c];
      Some(SetStatus(Move(s, c, Finished(Failed(error)), MAbandon), k, Returned(Attempt(c), Failed(error))).(
           attaching := s.attaching - {t}))
  }

  /** The leader emits its attached event, outside the lock, and returns. */
  function OnEmitAttached(s: State, c: nat): Option<State> {
    if c >= |s.calls| || !s.calls[c].phase.Committed? || s.calls[c].leader >= |s.callers| then None
    else
      var Call(t, k, Committed(n, info)) := s.calls[c];
      Some(SetStatus(s, k, Returned(Attempt(c), Got(n))).(
           calls := s.calls[c := s.calls[c].(phase := Finished(Got(n)))],
           events := s.events + [AttachedEvent(n)],
           unsent := s.unsent - multiset{AttachedEvent(n)}))
  }

  function OnEmit(s: State, e: Event): Option<State> {
    if e !in s.unsent || e.AttachedEvent? then None
    else Some(s.(events := s.events + [e], unsent := s.unsent - multiset{e}))
  }

  predicate At(s: State, c: nat, p: Phase) {
    c < |s.calls| && s.calls[c].phase == p
  }

  /** What a leader sends to the extension and what comes back: the call, its new phase and the log mark. */
  function ExchangeOf(s: State, a: Step): Option<(nat, Phase, Mark)> {
    match a
    case SendAttach(c) => if At(s, c, Starting) then Some((c, AttachSent, MAttach)) else None
    case AttachReply(c, error) =>
      if !At(s, c, AttachSent) then None
      else if error.Some? then Some((c, Abandoning(ExtensionError(error.value)), MRefused))
      else Some((c, AttachAccepted, MAccepted))
    case SendGetInfo(c) => if At(s, c, AttachAccepted) then Some((c, InfoSent, MGetInfo)) else None
    case GetInfoReply(c, reply) =>
      if !At(s, c, InfoSent) then None
      else Some((c, AfterInfo(reply), if AfterInfo(reply).InfoUsable? then MUsable else MUnusable))
    case SendDetach(c) =>
      if c < |s.calls| && s.calls[c].phase.InfoUnusable? then Some((c, DetachSent(s.calls[c].phase.error), MDetach)) else None
    case DetachReply(c) =>
      if c < |s.calls| && s.calls[c].phase.DetachSent? then Some((c, Abandoning(s.calls[c].phase.error), MDetached)) else None
    case _ => None
  }

  function Exchange(s: State, a: Step): Option<State> {
    var x := ExchangeOf(s, a);
    if x.None? || x.value.0 >= |s.calls| then None else Some(Move(s, x.value.0, x.value.1, x.value.2))
  }

  predicate IsExchange(a: Step) {
    a.SendAttach? || a.AttachReply? || a.SendGetInfo? || a.GetInfoReply? || a.SendDetach? || a.DetachReply?
  }

  function Next(s: State, a: Step): Option<State> {
    match a
    case TabCreated(tab) => Some(OnTabCreated(s, tab, TabEvent))
    case CreateReply(tab) => OnCreateReply(s, tab)
    case TabRemoved(id) => Some(OnTabRemoved(s, id))
    case DebuggerDetached(source) => Some(if source.Some? then DetachTabLocked(s, source.value) else s)
    case DebuggerMessage(source, sourceSession, cdpMethod, announced) =>
      Some(OnDebuggerEvent(s, source, sourceSession, cdpMethod, announced))
    case EnableAutoAttach(order) => OnEnableAutoAttach(s, order)
    case ScanStep(j) => OnScanStep(s, j)
    case Begin(k) => OnBegin(s, k)
    case WaiterWoken(k) => OnWaiterWoken(s, k)
    case WaiterCancelled(k) => OnWaiterCancelled(s, k)
    case TakeNumber(c) => OnTakeNumber(s, c)
    case Commit(c) => OnCommit(s, c)
    case Abandon(c) => OnAbandon(s, c)
    case EmitAttached(c) => OnEmitAttached(s, c)
    case Emit(e) => OnEmit(s, e)
    case _ => Exchange(s, a)
  }

  ghost predicate Reachable(s: State) {
    ReachableFrom(Next, Init(), s)
  }
}

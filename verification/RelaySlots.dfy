/**
 The relay's two connection slots and the handler's sender and emitter, kept consistent under two locks.
 The server lock is held over several steps, because the handler's own lock lets closing connections act in
 between. Every extension connection carries its own pairing protocol, whose close callback is the one that
 clears the sender and then the slot.
 */
module RelaySlots {
  import opened Runs
  import Pairing
  import PairingTheorems

  /** How far handleExtension got with a connection; in the first two stages it holds the server lock. */
  datatype ExtStage = Entered | SenderSet | Installed | ExtRefused

  /** How far the close callback of a connection got. */
  datatype Callback = Before | SenderCleared | Over

  datatype Ext = Ext(conn: Pairing.State, stage: ExtStage, callback: Callback)

  /** How far handleCDP got: `Asking` has seen that the handler is not done, `Arrived` that it is ready; in CdpEntered and EmitterSet it holds the server lock. */
  datatype CdpStage = Asking | Arrived | CdpEntered | EmitterSet | Serving | EmitterCleared | Gone | CdpRefused

  datatype Lock = Free | ByExt(ext: nat) | ByCdp(cdp: nat)

  datatype State = State(
    lock: Lock,
    extSlot: Option<nat>,
    cdpSlot: Option<nat>,
    closed: bool,
    sender: Option<nat>,
    emitter: Option<nat>,
    ready: bool,
    doneErr: Option<string>,
    exts: seq<Ext>,
    cdps: seq<CdpStage>,
    rejections: nat)

  function Init(): State {
    State(Free, None, None, false, None, None, false, None, [], [], 0)
  }

  datatype Step =
    | ExtEnter
    | ExtAcceptFails
    | ExtSetSender
    | ExtInstall
    | ConnStep(ext: nat, step: Pairing.Step)
    | CallbackClearsSender(ext: nat, error: string)
    | CallbackClearsSlot(ext: nat)
    | ServeFails(error: string)
    | Initialized
    | CdpArrive
    | CdpAsks(cdp: nat)
    | CdpEnter(cdp: nat)
    | CdpAcceptFails
    | CdpSetEmitter
    | CdpInstall
    | CdpReadEnds(cdp: nat)
    | CdpRelease(cdp: nat)
    | Close

  function SetExt(s: State, e: nat, x: Ext): State
    requires e < |s.exts|
  {
    s.(exts := s.exts[e := x])
  }

  function SetCdp(s: State, d: nat, x: CdpStage): State
    requires d < |s.cdps|
  {
    s.(cdps := s.cdps[d := x])
  }

  /** Only the first disconnect reason is kept. */
  function FirstError(old_: Option<string>, error: string): Option<string> {
    if old_.Some? then old_ else Some(error)
  }

  // ----- handleExtension

  function OnExtEnter(s: State): Option<State> {
    if !s.lock.Free? then None
    else if s.closed || s.extSlot.Some? then Some(s)
    else Some(s.(lock := ByExt(|s.exts|), exts := s.exts + [Ext(Pairing.Init(), Entered, Before)]))
  }

  function OnExtAcceptFails(s: State): Option<State> {
    if !s.lock.ByExt? || s.lock.ext >= |s.exts| || s.exts[s.lock.ext].stage != Entered then None
    else Some(SetExt(s, s.lock.ext, s.exts[s.lock.ext].(stage := ExtRefused)).(lock := Free))
  }

  /** SetExtension under the server lock: refuses if the handler has a sender already. */
  function OnExtSetSender(s: State): Option<State> {
    if !s.lock.ByExt? || s.lock.ext >= |s.exts| || s.exts[s.lock.ext].stage != Entered then None
    else
      var e := s.lock.ext;
      if s.sender.Some? then
        Some(SetExt(s, e, s.exts[e].(stage := ExtRefused)).(lock := Free, rejections := s.rejections + 1))
      else
        Some(SetExt(s, e, s.exts[e].(stage := SenderSet)).(sender := Some(e)))
  }

  function OnExtInstall(s: State): Option<State> {
    if !s.lock.ByExt? || s.lock.ext >= |s.exts| || s.exts[s.lock.ext].stage != SenderSet then None
    else
      var e := s.lock.ext;
      Some(SetExt(s, e, s.exts[e].(stage := Installed)).(extSlot := Some(e), lock := Free))
  }

  // ----- a connection on its own, and its close callback

  predicate Connected(s: State, e: nat) {
    e < |s.exts| && (s.exts[e].stage.SenderSet? || s.exts[e].stage.Installed?)
  }

  function OnConnStep(s: State, e: nat, a: Pairing.Step): Option<State> {
    if !Connected(s, e) || a.Callback? || Pairing.Next(s.exts[e].conn, a).None? then None
    else Some(SetExt(s, e, s.exts[e].(conn := Pairing.Next(s.exts[e].conn, a).value)))
  }

  /** ExtensionDisconnected, called from the close callback: no sender, and the handler is done. */
  function OnCallbackClearsSender(s: State, e: nat, error: string): Option<State> {
    if !Connected(s, e) || Pairing.Next(s.exts[e].conn, Pairing.Callback).None? then None
    else
      Some(SetExt(s, e, s.exts[e].(conn := Pairing.Next(s.exts[e].conn, Pairing.Callback).value, callback := SenderCleared)).(
           sender := None, doneErr := FirstError(s.doneErr, error)))
  }

  /** The rest of onExtensionClosed, under the server lock: whatever is in the slot goes. */
  function OnCallbackClearsSlot(s: State, e: nat): Option<State> {
    if !s.lock.Free? || !Connected(s, e) || s.exts[e].callback != SenderCleared then None
    else Some(SetExt(s, e, s.exts[e].(callback := Over)).(extSlot := None))
  }

  // ----- handleCDP

  /** IsReady looks first whether the handler is done and then, without a lock, whether it is ready. */
  function OnCdpArrive(s: State): State {
    if s.doneErr.None? then s.(cdps := s.cdps + [Asking]) else s
  }

  function OnCdpAsks(s: State, d: nat): Option<State> {
    if d >= |s.cdps| || s.cdps[d] != Asking then None
    else Some(SetCdp(s, d, if s.ready then Arrived else CdpRefused))
  }

  function OnCdpEnter(s: State, d: nat): Option<State> {
    if !s.lock.Free? || d >= |s.cdps| || s.cdps[d] != Arrived then None
    else if s.closed || s.cdpSlot.Some? then Some(SetCdp(s, d, CdpRefused))
    else Some(SetCdp(s, d, CdpEntered).(lock := ByCdp(d)))
  }

  function OnCdpAcceptFails(s: State): Option<State> {
    if !s.lock.ByCdp? || s.lock.cdp >= |s.cdps| || s.cdps[s.lock.cdp] != CdpEntered then None
    else Some(SetCdp(s, s.lock.cdp, CdpRefused).(lock := Free))
  }

  function OnCdpSetEmitter(s: State): Option<State> {
    if !s.lock.ByCdp? || s.lock.cdp >= |s.cdps| || s.cdps[s.lock.cdp] != CdpEntered then None
    else if s.emitter.Some? then
      Some(SetCdp(s, s.lock.cdp, CdpRefused).(lock := Free, rejections := s.rejections + 1))
    else Some(SetCdp(s, s.lock.cdp, EmitterSet).(emitter := Some(s.lock.cdp)))
  }

  function OnCdpInstall(s: State): Option<State> {
    if !s.lock.ByCdp? || s.lock.cdp >= |s.cdps| || s.cdps[s.lock.cdp] != EmitterSet then None
    else Some(SetCdp(s, s.lock.cdp, Serving).(cdpSlot := Some(s.lock.cdp), lock := Free))
  }

  /** The read loop ends: whatever emitter is set goes. */
  function OnCdpReadEnds(s: State, d: nat): Option<State> {
    if d >= |s.cdps| || s.cdps[d] != Serving then None
    else Some(SetCdp(s, d, EmitterCleared).(emitter := None))
  }

  function OnCdpRelease(s: State, d: nat): Option<State> {
    if !s.lock.Free? || d >= |s.cdps| || s.cdps[d] != EmitterCleared then None
    else Some(SetCdp(s, d, Gone).(cdpSlot := if s.cdpSlot == Some(d) then None else s.cdpSlot))
  }

  function Next(s: State, a: Step): Option<State> {
    match a
    case ExtEnter => OnExtEnter(s)
    case ExtAcceptFails => OnExtAcceptFails(s)
    case ExtSetSender => OnExtSetSender(s)
    case ExtInstall => OnExtInstall(s)
    case ConnStep(e, step) => OnConnStep(s, e, step)
    case CallbackClearsSender(e, error) => OnCallbackClearsSender(s, e, error)
    case CallbackClearsSlot(e) => OnCallbackClearsSlot(s, e)
    case ServeFails(error) => Some(s.(sender := None, doneErr := FirstError(s.doneErr, error)))
    case Initialized => Some(s.(ready := true))
    case CdpArrive => Some(OnCdpArrive(s))
    case CdpAsks(d) => OnCdpAsks(s, d)
    case CdpEnter(d) => OnCdpEnter(s, d)
    case CdpAcceptFails => OnCdpAcceptFails(s)
    case CdpSetEmitter => OnCdpSetEmitter(s)
    case CdpInstall => OnCdpInstall(s)
    case CdpReadEnds(d) => OnCdpReadEnds(s, d)
    case CdpRelease(d) => OnCdpRelease(s, d)
    case Close => if s.lock.Free? then Some(s.(closed := true)) else None
  }

  ghost predicate Reachable(s: State) {
    ReachableFrom(Next, Init(), s)
  }

  // ----- the invariant

  /** What an extension connection's stage and callback say about lock, slot and sender. */
  ghost predicate ExtOk(s: State, e: nat)
    requires e < |s.exts|
  {
    var x := s.exts[e];
    && Pairing.Reachable(x.conn)
    && (x.callback == Before <==> x.conn.callbacks == 0)
    && (x.stage.Entered? || x.stage.SenderSet? <==> s.lock == ByExt(e))
    && (x.stage.Entered? || x.stage.ExtRefused? ==> x.callback == Before && s.sender != Some(e))
    && (x.stage.SenderSet? ==> x.callback != Over)
    && (s.extSlot == Some(e) <==> x.stage.Installed? && x.callback != Over)
    && (s.sender == Some(e) ==> x.callback == Before)
  }

  ghost predicate CdpOk(s: State, d: nat)
    requires d < |s.cdps|
  {
    && (s.cdps[d].CdpEntered? || s.cdps[d].EmitterSet? <==> s.lock == ByCdp(d))
    && (s.cdpSlot == Some(d) <==> s.cdps[d].Serving? || s.cdps[d].EmitterCleared?)
    && (s.emitter == Some(d) <==> s.cdps[d].Serving? || s.cdps[d].EmitterSet?)
  }

  ghost predicate Inv(s: State) {
    && (forall e: nat :: e < |s.exts| ==> ExtOk(s, e))
    && (forall d: nat :: d < |s.cdps| ==> CdpOk(s, d))
    && (s.lock.ByExt? ==> s.lock.ext < |s.exts| && s.extSlot.None?)
    && (s.lock.ByCdp? ==> s.lock.cdp < |s.cdps| && s.cdpSlot.None?)
    && (s.extSlot.Some? ==> s.extSlot.value < |s.exts|)
    && (s.cdpSlot.Some? ==> s.cdpSlot.value < |s.cdps|)
    && (s.sender.Some? ==> s.sender.value < |s.exts|)
    && (s.emitter.Some? ==> s.emitter.value < |s.cdps|)
    && s.rejections == 0
  }

  predicate IsExtStep(a: Step) {
    a.ExtEnter? || a.ExtAcceptFails? || a.ExtSetSender? || a.ExtInstall? || a.ConnStep? || a.CallbackClearsSender?
    || a.CallbackClearsSlot?
  }

  /** Steps of the extension side leave every CDP connection as it was. */
  lemma CdpsFrame(s: State, s': State)
    requires Inv(s) && s'.cdps == s.cdps && s'.cdpSlot == s.cdpSlot && s'.emitter == s.emitter
    requires s'.lock == s.lock || (!s'.lock.ByCdp? && !s.lock.ByCdp?)
    ensures forall d: nat :: d < |s'.cdps| ==> CdpOk(s', d)
  {
    forall d: nat | d < |s'.cdps| ensures CdpOk(s', d) {
      assert CdpOk(s, d);
    }
  }

  /** Steps of the CDP side leave every extension connection as it was. */
  lemma ExtsFrame(s: State, s': State)
    requires Inv(s) && s'.exts == s.exts && s'.extSlot == s.extSlot && (s'.sender == s.sender || s'.sender.None?)
    requires s'.lock == s.lock || (!s'.lock.ByExt? && !s.lock.ByExt?)
    ensures forall e: nat :: e < |s'.exts| ==> ExtOk(s', e)
  {
    forall e: nat | e < |s'.exts| ensures ExtOk(s', e) {
      assert ExtOk(s, e);
    }
  }

  /** A sender is that of the connection in the slot or of the one being installed. */
  lemma SenderHolder(s: State)
    requires Inv(s)
    ensures s.sender.Some? ==> s.extSlot == s.sender || s.lock == ByExt(s.sender.value)
  {
    assert s.sender.Some? ==> ExtOk(s, s.sender.value);
  }

  lemma EmitterHolder(s: State)
    requires Inv(s)
    ensures s.emitter.Some? ==> s.cdpSlot == s.emitter || s.lock == ByCdp(s.emitter.value)
  {
    assert s.emitter.Some? ==> CdpOk(s, s.emitter.value);
  }

  lemma ExtLockStepKeeps(s: State, a: Step)
    requires Inv(s) && (a.ExtEnter? || a.ExtAcceptFails? || a.ExtSetSender? || a.ExtInstall?) && Next(s, a).Some?
    ensures Inv(Next(s, a).value)
  {
    var s' := Next(s, a).value;
    CdpsFrame(s, s');
    match a
    case ExtEnter =>
      if s' != s {
        InitReached(Pairing.Next, Pairing.Init());
        ExtsStay(s, s', |s.exts|);
      }
    case ExtAcceptFails =>
      assert ExtOk(s, s.lock.ext);
      ExtsStay(s, s', s.lock.ext);
    case ExtSetSender =>
      assert ExtOk(s, s.lock.ext);
      SenderHolder(s);
      ExtsStay(s, s', s.lock.ext);
    case ExtInstall =>
      assert ExtOk(s, s.lock.ext);
      ExtsStay(s, s', s.lock.ext);
  }

  lemma ConnStepKeeps(s: State, e: nat, step: Pairing.Step)
    requires Inv(s) && OnConnStep(s, e, step).Some?
    ensures Inv(OnConnStep(s, e, step).value)
  {
    var s' := OnConnStep(s, e, step).value;
    CdpsFrame(s, s');
    assert ExtOk(s, e);
    PairingTheorems.StepReachable(s.exts[e].conn, step);
    OnlyCallbackCounts(s.exts[e].conn, step);
    ExtsStay(s, s', e);
  }

  lemma OnlyCallbackCounts(conn: Pairing.State, step: Pairing.Step)
    requires !step.Callback? && Pairing.Next(conn, step).Some?
    ensures Pairing.Next(conn, step).value.callbacks == conn.callbacks
  {
  }

  lemma ClearsSenderKeeps(s: State, e: nat, error: string)
    requires Inv(s) && OnCallbackClearsSender(s, e, error).Some?
    ensures Inv(OnCallbackClearsSender(s, e, error).value)
  {
    var s' := OnCallbackClearsSender(s, e, error).value;
    CdpsFrame(s, s');
    assert ExtOk(s, e);
    PairingTheorems.StepReachable(s.exts[e].conn, Pairing.Callback);
    PairingTheorems.OneCloseCallback(s'.exts[e].conn);
    ExtsStay(s, s', e);
  }

  lemma ClearsSlotKeeps(s: State, e: nat)
    requires Inv(s) && OnCallbackClearsSlot(s, e).Some?
    ensures Inv(OnCallbackClearsSlot(s, e).value)
  {
    var s' := OnCallbackClearsSlot(s, e).value;
    CdpsFrame(s, s');
    assert ExtOk(s, e);
    ExtsStay(s, s', e);
  }

  lemma ExtStepKeeps(s: State, a: Step)
    requires Inv(s) && IsExtStep(a) && Next(s, a).Some?
    ensures Inv(Next(s, a).value)
  {
    match a
    case ConnStep(e, step) => ConnStepKeeps(s, e, step);
    case CallbackClearsSender(e, error) => ClearsSenderKeeps(s, e, error);
    case CallbackClearsSlot(e) => ClearsSlotKeeps(s, e);
    case _ => ExtLockStepKeeps(s, a);
  }

  /** When connection e steps, the others keep their standing. */
  lemma ExtsStay(s: State, s': State, e: nat)
    requires Inv(s) && e < |s'.exts| && |s.exts| <= |s'.exts| <= |s.exts| + 1
    requires |s'.exts| > |s.exts| ==> e == |s.exts|
    requires forall k: nat :: k < |s.exts| && k != e ==> s'.exts[k] == s.exts[k]
    requires s'.lock == s.lock || ((s'.lock == ByExt(e) || s'.lock.Free?) && (s.lock == ByExt(e) || s.lock.Free?))
    requires s'.extSlot == s.extSlot || ((s'.extSlot == Some(e) || s'.extSlot.None?) && (s.extSlot == Some(e) || s.extSlot.None?))
    requires s'.sender == s.sender || s'.sender == Some(e) || s'.sender.None?
    requires ExtOk(s', e)
    ensures forall k: nat :: k < |s'.exts| ==> ExtOk(s', k)
  {
    forall k: nat | k < |s'.exts| ensures ExtOk(s', k) {
      if k != e { assert ExtOk(s, k); }
    }
  }

  /** When CDP connection d steps, the others keep their standing. */
  lemma CdpsStay(s: State, s': State, d: nat)
    requires Inv(s) && d < |s'.cdps| && |s.cdps| <= |s'.cdps| <= |s.cdps| + 1
    requires |s'.cdps| > |s.cdps| ==> d == |s.cdps|
    requires forall k: nat :: k < |s.cdps| && k != d ==> s'.cdps[k] == s.cdps[k]
    requires s'.lock == s.lock || ((s'.lock == ByCdp(d) || s'.lock.Free?) && (s.lock == ByCdp(d) || s.lock.Free?))
    requires s'.cdpSlot == s.cdpSlot || ((s'.cdpSlot == Some(d) || s'.cdpSlot.None?) && (s.cdpSlot == Some(d) || s.cdpSlot.None?))
    requires s'.emitter == s.emitter || ((s'.emitter == Some(d) || s'.emitter.None?) && (s.emitter == Some(d) || s.emitter.None?))
    requires CdpOk(s', d)
    ensures forall k: nat :: k < |s'.cdps| ==> CdpOk(s', k)
  {
    forall k: nat | k < |s'.cdps| ensures CdpOk(s', k) {
      if k != d { assert CdpOk(s, k); }
    }
  }

  /** handleCDP under the server lock. */
  lemma CdpLockStepKeeps(s: State, a: Step)
    requires Inv(s) && (a.CdpEnter? || a.CdpAcceptFails? || a.CdpSetEmitter? || a.CdpInstall?) && Next(s, a).Some?
    ensures Inv(Next(s, a).value)
  {
    var s' := Next(s, a).value;
    ExtsFrame(s, s');
    var d := if a.CdpEnter? then a.cdp else s.lock.cdp;
    assert CdpOk(s, d);
    EmitterHolder(s);
    CdpsStay(s, s', d);
  }

  /** handleCDP before its first lock region. */
  lemma CdpAskStepKeeps(s: State, a: Step)
    requires Inv(s) && (a.CdpArrive? || a.CdpAsks?) && Next(s, a).Some?
    ensures Inv(Next(s, a).value)
  {
    var s' := Next(s, a).value;
    ExtsFrame(s, s');
    assert a.CdpAsks? ==> CdpOk(s, a.cdp);
    if s' != s { CdpsStay(s, s', if a.CdpArrive? then |s.cdps| else a.cdp); }
  }

  /** handleCDP after its read loop. */
  lemma CdpEndStepKeeps(s: State, a: Step)
    requires Inv(s) && (a.CdpReadEnds? || a.CdpRelease?) && Next(s, a).Some?
    ensures Inv(Next(s, a).value)
  {
    var s' := Next(s, a).value;
    ExtsFrame(s, s');
    assert CdpOk(s, a.cdp);
    CdpsStay(s, s', a.cdp);
  }

  lemma OtherStepKeeps(s: State, a: Step)
    requires Inv(s) && (a.ServeFails? || a.Initialized? || a.Close?) && Next(s, a).Some?
    ensures Inv(Next(s, a).value)
  {
    CdpsFrame(s, Next(s, a).value);
    ExtsFrame(s, Next(s, a).value);
  }

  lemma InvKept(s: State, a: Step)
    requires Inv(s) && Next(s, a).Some?
    ensures Inv(Next(s, a).value)
  {
    if IsExtStep(a) {
      ExtStepKeeps(s, a);
    } else if a.ServeFails? || a.Initialized? || a.Close? {
      OtherStepKeeps(s, a);
    } else if a.CdpArrive? || a.CdpAsks? {
      CdpAskStepKeeps(s, a);
    } else if a.CdpReadEnds? || a.CdpRelease? {
      CdpEndStepKeeps(s, a);
    } else {
      CdpLockStepKeeps(s, a);
    }
  }

  lemma InvReachable(s: State)
    requires Reachable(s)
    ensures Inv(s)
  {
    forall x, a | Inv(x) && Next(x, a).Some? ensures Inv(Next(x, a).value) {
      InvKept(x, a);
    }
    KeptReached(Next, Init(), Inv, s);
  }

  // ----- theorems

  /** Whenever the server lock is free, an empty slot means that the handler side is empty too. */
  lemma SlotsAgree(s: State)
    requires Reachable(s) && s.lock.Free?
    ensures s.extSlot.None? ==> s.sender.None?
    ensures s.cdpSlot.None? ==> s.emitter.None?
    ensures s.sender.Some? ==> s.extSlot == s.sender
    ensures s.emitter.Some? ==> s.cdpSlot == s.emitter
  {
    InvReachable(s);
    SenderHolder(s);
    EmitterHolder(s);
  }

  /** After the slot check, SetExtension and SetCDPEmitter never refuse. */
  lemma SetNeverRefuses(s: State)
    requires Reachable(s)
    ensures s.rejections == 0
    ensures s.lock.ByExt? ==> s.lock.ext < |s.exts| && (s.exts[s.lock.ext].stage == Entered ==> s.sender.None?)
    ensures s.lock.ByCdp? ==> s.lock.cdp < |s.cdps| && (s.cdps[s.lock.cdp] == CdpEntered ==> s.emitter.None?)
  {
    InvReachable(s);
    SenderHolder(s);
    EmitterHolder(s);
    assert s.lock.ByExt? ==> ExtOk(s, s.lock.ext);
    assert s.lock.ByCdp? ==> CdpOk(s, s.lock.cdp);
  }

  /** A close callback that clears the slot clears its own connection out of it, never a newer one. */
  lemma CallbackEvictsItself(s: State, e: nat, error: string)
    requires Reachable(s)
    ensures Next(s, CallbackClearsSlot(e)).Some? ==> s.extSlot == Some(e)
    ensures Next(s, CallbackClearsSender(e, error)).Some? ==> s.sender.None? || s.sender == Some(e)
  {
    InvReachable(s);
    if Next(s, CallbackClearsSlot(e)).Some? {
      assert ExtOk(s, e);
    }
    if Next(s, CallbackClearsSender(e, error)).Some? && s.sender.Some? {
      assert ExtOk(s, e);
      assert ExtOk(s, s.sender.value);
      PairingTheorems.OneCloseCallback(s.exts[e].conn);
    }
  }

  /** A CDP connection that ends clears its own emitter and its own slot, never another's. */
  lemma CdpEvictsItself(s: State, d: nat)
    requires Reachable(s)
    ensures Next(s, CdpReadEnds(d)).Some? ==> s.emitter == Some(d)
    ensures Next(s, CdpRelease(d)).Some? ==> s.cdpSlot == Some(d)
  {
    InvReachable(s);
    if d < |s.cdps| { assert CdpOk(s, d); }
  }

  /** Only its own connection's end empties a slot. */
  lemma SlotsEmptiedByOwner(s: State, a: Step)
    requires Reachable(s) && Next(s, a).Some?
    ensures s.extSlot.Some? && Next(s, a).value.extSlot != s.extSlot ==> a == CallbackClearsSlot(s.extSlot.value)
    ensures s.cdpSlot.Some? && Next(s, a).value.cdpSlot != s.cdpSlot ==> a == CdpRelease(s.cdpSlot.value)
  {
    InvReachable(s);
    if a.CallbackClearsSlot? { assert ExtOk(s, a.ext); }
    if a.CdpRelease? { assert CdpOk(s, a.cdp); }
  }

  /** The callback of a connection runs at most once: it has run if and only if the connection's own count says one. */
  lemma CallbackRunsOnce(s: State, e: nat)
    requires Reachable(s) && e < |s.exts|
    ensures s.exts[e].conn.callbacks <= 1
    ensures s.exts[e].callback != Before <==> s.exts[e].conn.callbacks == 1
    ensures s.exts[e].callback != Before ==> s.exts[e].conn.closed
  {
    InvReachable(s);
    assert ExtOk(s, e);
    PairingTheorems.OneCloseCallback(s.exts[e].conn);
  }

  ghost predicate StaysShut(s: State, t: State) {
    s.closed ==> t.closed && (t.extSlot.None? || t.extSlot == s.extSlot) && (t.cdpSlot.None? || t.cdpSlot == s.cdpSlot)
  }

  ghost predicate ClosedInv(s: State) {
    Inv(s) && (s.closed ==> s.lock.Free?)
  }

  lemma ClosedInvKept(s: State, a: Step)
    requires ClosedInv(s) && Next(s, a).Some?
    ensures ClosedInv(Next(s, a).value) && StaysShut(s, Next(s, a).value)
  {
    InvKept(s, a);
    LocksOnlyWhenOpen(s, a);
  }

  /** A closed server whose lock is free hands out neither lock nor slot. */
  lemma LocksOnlyWhenOpen(s: State, a: Step)
    requires Next(s, a).Some? && (s.closed ==> s.lock.Free?)
    ensures var t := Next(s, a).value; (t.closed ==> t.lock.Free?) && StaysShut(s, t)
  {
  }

  lemma ClosedInvReachable(s: State)
    requires Reachable(s)
    ensures ClosedInv(s)
  {
    forall x, a | ClosedInv(x) && Next(x, a).Some? ensures ClosedInv(Next(x, a).value) {
      ClosedInvKept(x, a);
    }
    KeptReached(Next, Init(), ClosedInv, s);
  }

  /** Close needs the lock, so nobody is half-way in; afterwards no connection is ever installed. */
  lemma NothingInstalledAfterClose(s: State, steps: seq<Step>, t: State)
    requires Reachable(s) && s.closed && Reaches(Next, s, steps, t)
    ensures t.closed && t.lock.Free?
    ensures t.extSlot.None? || t.extSlot == s.extSlot
    ensures t.cdpSlot.None? || t.cdpSlot == s.cdpSlot
  {
    forall x, a | ClosedInv(x) && Next(x, a).Some? ensures ClosedInv(Next(x, a).value) && StaysShut(x, Next(x, a).value) {
      ClosedInvKept(x, a);
    }
    ClosedInvReachable(s);
    RunRelates(Next, ClosedInv, StaysShut, s, steps, t);
  }

  /** Whoever holds the lock to install a connection finds its slot empty and the server open. */
  lemma InstallMeetsEmptySlot(s: State)
    requires Reachable(s)
    ensures s.lock.ByExt? ==> s.extSlot.None? && !s.closed
    ensures s.lock.ByCdp? ==> s.cdpSlot.None? && !s.closed
  {
    ClosedInvReachable(s);
  }

  // ----- the handler's readiness over runs

  /** From s to t: a reason once given stays, readiness stays, and a handler that is done lets no CDP connection ask. */
  ghost predicate Settled(s: State, t: State) {
    && (s.doneErr.Some? ==> t.doneErr == s.doneErr && |t.cdps| == |s.cdps|)
    && (s.ready ==> t.ready) && |s.cdps| <= |t.cdps|
  }

  lemma StepSettles(s: State, a: Step)
    requires Next(s, a).Some?
    ensures Settled(s, Next(s, a).value)
  {
  }

  /** The first disconnect reason stays for the rest of the run, and no CDP connection gets in after it. */
  lemma FirstReasonStays(s: State, steps: seq<Step>, t: State)
    requires Reachable(s) && Reaches(Next, s, steps, t) && s.doneErr.Some?
    ensures t.doneErr == s.doneErr && |t.cdps| == |s.cdps|
  {
    forall x, a | Inv(x) && Next(x, a).Some? ensures Inv(Next(x, a).value) && Settled(x, Next(x, a).value) {
      InvKept(x, a);
      StepSettles(x, a);
    }
    InvReachable(s);
    RunRelates(Next, Inv, Settled, s, steps, t);
  }

  /** The first reason is that of the first disconnect or serving failure. */
  lemma FirstReasonIsGiven(s: State, a: Step)
    requires Next(s, a).Some? && s.doneErr.None? && Next(s, a).value.doneErr.Some?
    ensures (a.CallbackClearsSender? || a.ServeFails?) && Next(s, a).value.doneErr.value == a.error
  {
  }

  /** handleCDP has passed the question whether the handler is ready. */
  predicate Admitted(c: CdpStage) {
    !c.Asking? && !c.CdpRefused?
  }

  ghost predicate AdmittedWhenReady(s: State) {
    forall d :: 0 <= d < |s.cdps| && Admitted(s.cdps[d]) ==> s.ready
  }

  lemma AdmissionKept(s: State, a: Step)
    requires AdmittedWhenReady(s) && Next(s, a).Some?
    ensures AdmittedWhenReady(Next(s, a).value)
  {
  }

  /** No CDP connection is admitted before the extension has initialized. */
  lemma NoCdpBeforeReady(s: State, d: nat)
    requires Reachable(s) && d < |s.cdps| && Admitted(s.cdps[d])
    ensures s.ready
  {
    forall x, a | AdmittedWhenReady(x) && Next(x, a).Some? ensures AdmittedWhenReady(Next(x, a).value) {
      AdmissionKept(x, a);
    }
    KeptReached(Next, Init(), AdmittedWhenReady, s);
  }

  /** The handler becomes ready exactly by the extension's own word. */
  lemma ReadyByInitialized(s: State, a: Step)
    requires Next(s, a).Some? && !s.ready
    ensures Next(s, a).value.ready <==> a == Initialized
  {
  }

  lemma StepReachable(s: State, a: Step)
    requires Reachable(s) && Next(s, a).Some?
    ensures Reachable(Next(s, a).value)
  {
    StepReached(Next, Init(), s, a);
  }
}

/**
 Handler and server as the objects they are, each with its own lock. A connection is named by the order in
 which it was taken in. Every method is what happens under one lock and moves the ghost `protocol` by one step.
 */
module Relay {
  import opened Runs
  import opened RelaySlots

  class Handler {
    var sender: Option<nat>
    var emit: Option<nat>
    var ready: bool
    var done: bool
    var doneErr: Option<string>

    constructor ()
      ensures sender.None? && emit.None? && !ready && !done && doneErr.None?
    {
      sender, emit, ready, done, doneErr := None, None, false, false, None;
    }

    method SetExtension(extension: nat) returns (ok: bool)
      modifies this`sender
      ensures ok <==> old(sender).None?
      ensures sender == if ok then Some(extension) else old(sender)
    {
      if sender.Some? {
        return false;
      }
      sender := Some(extension);
      return true;
    }

    /** Forgets the sender; the first call also fixes the reason and closes `done`. */
    method ExtensionDisconnected(err: string)
      requires done <==> doneErr.Some?
      modifies this`sender, this`done, this`doneErr
      ensures sender.None? && done && doneErr == if old(doneErr).Some? then old(doneErr) else Some(err)
    {
      sender := None;
      if !done {
        doneErr := Some(err);
        done := true;
      }
    }

    method SetCDPEmitter(cdp: nat) returns (ok: bool)
      modifies this`emit
      ensures ok <==> old(emit).None?
      ensures emit == if ok then Some(cdp) else old(emit)
    {
      if emit.Some? {
        return false;
      }
      emit := Some(cdp);
      return true;
    }

    method ClearCDPEmitter()
      modifies this`emit
      ensures emit.None?
    {
      emit := None;
    }

    method Initialized()
      modifies this`ready
      ensures ready
    {
      ready := true;
    }

    /** Done wins over ready. */
    method IsReady() returns (r: bool)
      ensures r <==> ready && !done
    {
      if done {
        return false;
      }
      return ready;
    }
  }

  class Server {
    const handler: Handler
    var extensionConn: Option<nat>
    var cdpConn: Option<nat>
    var closed: bool

    ghost var protocol: State

    ghost predicate Valid()
      reads this, handler
    {
      && extensionConn == protocol.extSlot && cdpConn == protocol.cdpSlot && closed == protocol.closed
      && handler.sender == protocol.sender && handler.emit == protocol.emitter
      && handler.ready == protocol.ready && handler.doneErr == protocol.doneErr && (handler.done <==> handler.doneErr.Some?)
      && Reachable(protocol)
    }

    constructor ()
      ensures Valid() && protocol == Init() && fresh(handler)
    {
      handler := new Handler();
      extensionConn, cdpConn, closed := None, None, false;
      protocol := Init();
      InitReached(Next, Init());
    }

    /** handleExtension takes the lock for a new connection: true if it may go on. */
    method EnterExtension(extension: nat) returns (ok: bool)
      requires Valid() && protocol.lock.Free? && extension == |protocol.exts|
      modifies this`protocol
      ensures Valid() && Next(old(protocol), ExtEnter) == Some(protocol)
      ensures ok <==> !closed && extensionConn.None?
      ensures ok ==> protocol.lock == ByExt(extension)
      ensures !ok ==> protocol == old(protocol)
    {
      StepReachable(protocol, ExtEnter);
      ok := !(closed || extensionConn.Some?);
      protocol := OnExtEnter(protocol).value;
    }

    /** Still under the lock, after a successful accept: the handler gets its sender; it never refuses here. */
    method SetSender(extension: nat)
      requires Valid() && protocol.lock == ByExt(extension) && extension < |protocol.exts| && protocol.exts[extension].stage == Entered
      modifies this`protocol, handler`sender
      ensures Valid() && Next(old(protocol), ExtSetSender) == Some(protocol)
      ensures handler.sender == Some(extension) && protocol.lock == ByExt(extension)
    {
      StepReachable(protocol, ExtSetSender);
      SetNeverRefuses(protocol);
      var ok := handler.SetExtension(extension);
      assert ok;
      protocol := OnExtSetSender(protocol).value;
    }

    /** Fills the slot and leaves the lock. */
    method InstallExtension(extension: nat)
      requires Valid() && protocol.lock == ByExt(extension) && extension < |protocol.exts| && protocol.exts[extension].stage == SenderSet
      modifies this
      ensures Valid() && Next(old(protocol), ExtInstall) == Some(protocol)
      ensures extensionConn == Some(extension) && old(extensionConn).None? && !closed && protocol.lock.Free?
    {
      StepReachable(protocol, ExtInstall);
      InstallMeetsEmptySlot(protocol);
      extensionConn := Some(extension);
      protocol := OnExtInstall(protocol).value;
    }

    /** onExtensionClosed, first half: the handler forgets the sender. No server lock is needed. */
    method CallbackDisconnects(extension: nat, err: string)
      requires Valid() && Next(protocol, CallbackClearsSender(extension, err)).Some?
      modifies this`protocol, handler`sender, handler`done, handler`doneErr
      ensures Valid() && Next(old(protocol), CallbackClearsSender(extension, err)) == Some(protocol)
      ensures old(handler.sender).Some? ==> old(handler.sender) == Some(extension)
    {
      CallbackEvictsItself(protocol, extension, err);
      StepReachable(protocol, CallbackClearsSender(extension, err));
      handler.ExtensionDisconnected(err);
      protocol := OnCallbackClearsSender(protocol, extension, err).value;
    }

    /** onExtensionClosed, second half: the slot is emptied, whatever is in it, and the CDP connection is returned to be closed. */
    method CallbackEmptiesSlot(extension: nat) returns (cdp: Option<nat>)
      requires Valid() && Next(protocol, CallbackClearsSlot(extension)).Some?
      modifies this
      ensures Valid() && Next(old(protocol), CallbackClearsSlot(extension)) == Some(protocol)
      ensures old(extensionConn) == Some(extension) && extensionConn.None?
      ensures cdp == cdpConn == old(cdpConn)
    {
      CallbackEvictsItself(protocol, extension, "");
      StepReachable(protocol, CallbackClearsSlot(extension));
      extensionConn := None;
      cdp := cdpConn;
      protocol := OnCallbackClearsSlot(protocol, extension).value;
    }

    /** handleCDP takes the lock: true if it may go on. */
    method EnterCDP(cdp: nat) returns (ok: bool)
      requires Valid() && Next(protocol, CdpEnter(cdp)).Some?
      modifies this`protocol
      ensures Valid() && Next(old(protocol), CdpEnter(cdp)) == Some(protocol)
      ensures ok <==> !closed && cdpConn.None?
      ensures ok ==> protocol.lock == ByCdp(cdp)
    {
      StepReachable(protocol, CdpEnter(cdp));
      ok := !(closed || cdpConn.Some?);
      protocol := OnCdpEnter(protocol, cdp).value;
    }

    /** Still under the lock, after a successful accept: the handler gets its emitter; it never refuses here. */
    method SetEmitter(cdp: nat)
      requires Valid() && protocol.lock == ByCdp(cdp) && cdp < |protocol.cdps| && protocol.cdps[cdp] == CdpEntered
      modifies this`protocol, handler`emit
      ensures Valid() && Next(old(protocol), CdpSetEmitter) == Some(protocol)
      ensures handler.emit == Some(cdp)
    {
      StepReachable(protocol, CdpSetEmitter);
      SetNeverRefuses(protocol);
      var ok := handler.SetCDPEmitter(cdp);
      assert ok;
      protocol := OnCdpSetEmitter(protocol).value;
    }

    method InstallCDP(cdp: nat)
      requires Valid() && protocol.lock == ByCdp(cdp) && cdp < |protocol.cdps| && protocol.cdps[cdp] == EmitterSet
      modifies this
      ensures Valid() && Next(old(protocol), CdpInstall) == Some(protocol)
      ensures cdpConn == Some(cdp) && old(cdpConn).None? && !closed && protocol.lock.Free?
    {
      StepReachable(protocol, CdpInstall);
      InstallMeetsEmptySlot(protocol);
      cdpConn := Some(cdp);
      protocol := OnCdpInstall(protocol).value;
    }

    /** The read loop of a CDP connection has ended. */
    method CDPReadEnds(cdp: nat)
      requires Valid() && Next(protocol, CdpReadEnds(cdp)).Some?
      modifies this`protocol, handler`emit
      ensures Valid() && Next(old(protocol), CdpReadEnds(cdp)) == Some(protocol)
      ensures old(handler.emit) == Some(cdp) && handler.emit.None?
    {
      CdpEvictsItself(protocol, cdp);
      StepReachable(protocol, CdpReadEnds(cdp));
      handler.ClearCDPEmitter();
      protocol := OnCdpReadEnds(protocol, cdp).value;
    }

    /** Empties the CDP slot and returns the extension connection to be closed. */
    method ReleaseCDP(cdp: nat) returns (extension: Option<nat>)
      requires Valid() && Next(protocol, CdpRelease(cdp)).Some?
      modifies this
      ensures Valid() && Next(old(protocol), CdpRelease(cdp)) == Some(protocol)
      ensures cdpConn.None? && extension == extensionConn == old(extensionConn)
    {
      CdpEvictsItself(protocol, cdp);
      StepReachable(protocol, CdpRelease(cdp));
      if cdpConn == Some(cdp) {
        cdpConn := None;
      }
      extension := extensionConn;
      protocol := OnCdpRelease(protocol, cdp).value;
    }

    /** Sets the flag and returns the connections to be closed; a second call does nothing. */
    method Close() returns (extension: Option<nat>, cdp: Option<nat>)
      requires Valid() && protocol.lock.Free?
      modifies this
      ensures Valid() && Next(old(protocol), Step.Close) == Some(protocol)
      ensures closed && extensionConn == old(extensionConn) && cdpConn == old(cdpConn)
      ensures extension == (if old(closed) then None else extensionConn) && cdp == (if old(closed) then None else cdpConn)
    {
      StepReachable(protocol, Step.Close);
      if closed {
        return None, None;
      }
      closed := true;
      extension, cdp := extensionConn, cdpConn;
      protocol := protocol.(closed := true);
    }
  }
}

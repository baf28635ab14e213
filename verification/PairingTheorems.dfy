/** Nothing blocks, nothing is lost and every answer goes to the request it answers. */
module PairingTheorems {
  import opened Runs
  import opened Pairing

  // ----- every step keeps the invariant

  /** One request changes; the others see at most a longer list of received messages. */
  lemma OneChanges(s: State, s': State, id: int)
    requires Inv(s) && Known(s, id)
    requires s'.nextID == s.nextID && |s'.senders| == |s.senders| && s'.closed == s.closed
    requires s.received <= s'.received
    requires s'.pending == s.pending || s'.pending == s.pending - {id}
    requires s'.loop == s.loop || (s.loop == Reading && s'.loop.Delivering? && s'.loop.id == id)
             || (s.loop.Delivering? && s.loop.id == id && s'.loop == Reading)
    requires forall i :: 0 <= i < |s.senders| && i != id - 1 ==> s'.senders[i] == s.senders[i]
    requires SenderOk(s', id)
    requires s'.owedCallbacks + s'.callbacks == s.owedCallbacks + s.callbacks
    ensures Inv(s')
  {
    forall k | Known(s', k) ensures SenderOk(s', k) {
      if k != id {
        assert SenderOk(s, k);
        HeardStays(s, s', k);
      }
    }
  }

  lemma HeardStays(s: State, s': State, k: int)
    requires s.received <= s'.received && Known(s, k) && Known(s', k) && Of(s', k).since == Of(s, k).since
    ensures forall r :: Heard(s, k, r) ==> Heard(s', k, r)
  {
    forall r | Heard(s, k, r) ensures Heard(s', k, r) {
      var m :| Of(s, k).since <= m < |s.received| && s.received[m].id == k && Says(s.received[m], r);
      assert s'.received[m] == s.received[m];
    }
  }

  lemma MoveKeeps(s: State, id: int, from: Phase, to: Phase, removes: bool)
    requires Inv(s)
    requires var s0 := if removes then RemovePending(s, id) else s; Move(s0, id, from, to).Some?
    requires from.Registered? || from.Waiting? || from.Cancelling?
    requires to.Returned? ==> !to.outcome.Answered? && (removes || s.closed) && (to.outcome.ConnectionClosed? ==> s.closed)
    requires to.WriteBroken? ==> removes
    requires to.Waiting? || to.Registered? ==> from.Registered? && !removes
    ensures Inv(Move(if removes then RemovePending(s, id) else s, id, from, to).value)
  {
    assert SenderOk(s, id);
    var s' := Move(if removes then RemovePending(s, id) else s, id, from, to).value;
    HeardStays(s, s', id);
    OneChanges(s, s', id);
  }

  lemma ShutdownNeverBlocks(s: State, text: string)
    requires Inv(s)
    ensures OnShutdown(s, text).Some?
  {
    forall i | 0 <= i < |s.senders| && i + 1 in s.pending ensures s.senders[i].slot.None? {
      assert SenderOk(s, i + 1);
    }
  }

  lemma ShutdownKeeps(s: State, text: string)
    requires Inv(s) && OnShutdown(s, text).Some?
    ensures Inv(OnShutdown(s, text).value)
  {
    if !s.closed {
      var s' := OnShutdown(s, text).value;
      forall k | Known(s', k) ensures SenderOk(s', k) {
        assert SenderOk(s, k);
        HeardStays(s, s', k);
      }
    }
  }

  lemma SendBeginKeeps(s: State)
    requires Inv(s)
    ensures Inv(OnSendBegin(s))
  {
    var s' := OnSendBegin(s);
    forall k | Known(s', k) ensures SenderOk(s', k) {
      if k <= |s.senders| {
        assert SenderOk(s, k);
        HeardStays(s, s', k);
      }
    }
  }

  lemma ReadReplyKeeps(s: State, msg: Wire)
    requires Inv(s) && OnReadReply(s, msg).Some?
    ensures Inv(OnReadReply(s, msg).value)
  {
    var s' := OnReadReply(s, msg).value;
    assert s'.received[|s.received|] == msg;
    if msg.id in s.pending {
      assert SenderOk(s, msg.id);
      assert Heard(s', msg.id, Decode(msg));
      OneChanges(s, s', msg.id);
    } else {
      forall k | Known(s', k) ensures SenderOk(s', k) {
        assert SenderOk(s, k);
        HeardStays(s, s', k);
      }
    }
  }

  lemma SlotKeeps(s: State, a: Step)
    requires Inv(s) && (a.Deliver? || a.TakesSlot?) && Next(s, a).Some?
    ensures Inv(Next(s, a).value)
  {
    var s' := Next(s, a).value;
    var id := if a.Deliver? then s.loop.id else a.id;
    assert SenderOk(s, id);
    HeardStays(s, s', id);
    OneChanges(s, s', id);
  }

  lemma InvKept(s: State, a: Step)
    requires Inv(s) && Next(s, a).Some?
    ensures Inv(Next(s, a).value)
  {
    match a
    case SendBegin => SendBeginKeeps(s);
    case MarshalFails(id) => MoveKeeps(s, id, Registered, Returned(MarshalFailed), true);
    case WriteSucceeds(id) => MoveKeeps(s, id, Registered, Waiting, false);
    case WriteFails(id) => MoveKeeps(s, id, Registered, WriteBroken, true);
    case WriteShutdown(id, text) =>
      var s' := Move(s, id, WriteBroken, Returned(WriteFailed)).value;
      assert SenderOk(s, id);
      HeardStays(s, s', id);
      OneChanges(s, s', id);
      ShutdownKeeps(s', text);
    case ContextFires(id) => MoveKeeps(s, id, Waiting, Cancelling, false);
    case CancelRemoves(id) => MoveKeeps(s, id, Cancelling, Returned(ContextEnded), true);
    case DoneFires(id) => MoveKeeps(s, id, Waiting, Returned(ConnectionClosed), false);
    case TakesSlot(id) => SlotKeeps(s, a);
    case ReadReply(msg) => ReadReplyKeeps(s, msg);
    case Deliver => SlotKeeps(s, a);
    case LoopEnds => OtherKeeps(s, s.(loop := Ended));
    case Shutdown(text) => ShutdownKeeps(s, text);
    case Callback => OtherKeeps(s, Next(s, a).value);
  }

  lemma OtherKeeps(s: State, s': State)
    requires Inv(s) && s'.nextID == s.nextID && s'.pending == s.pending && s'.closed == s.closed && s'.senders == s.senders
    requires s'.received == s.received && s'.owedCallbacks + s'.callbacks == s.owedCallbacks + s.callbacks
    requires s'.loop == s.loop || (s.loop == Reading && s'.loop == Ended)
    ensures Inv(s')
  {
    forall k | Known(s', k) ensures SenderOk(s', k) {
      assert SenderOk(s, k);
      HeardStays(s, s', k);
    }
  }

  lemma InvReachable(s: State)
    requires Reachable(s)
    ensures Inv(s)
  {
    forall x, a | Inv(x) && Next(x, a).Some? ensures Inv(Next(x, a).value) {
      InvKept(x, a);
    }
    KeptReached(Next, Init(), Inv, s);
  }

  // ----- nothing blocks, nothing is lost

  /** Neither the unlocked send of a delivery nor the sends of shutdown under the lock can block. */
  lemma NoSendBlocks(s: State, text: string)
    requires Reachable(s)
    ensures s.loop.Delivering? ==> Next(s, Deliver).Some?
    ensures Next(s, Shutdown(text)).Some?
    ensures forall id :: Known(s, id) ==> Of(s, id).sends <= 1
  {
    InvReachable(s);
    if s.loop.Delivering? {
      assert SenderOk(s, s.loop.id);
    }
    ShutdownNeverBlocks(s, text);
    forall id | Known(s, id) ensures Of(s, id).sends <= 1 {
      assert SenderOk(s, id);
    }
  }

  /**
   A Send waiting at its select still has its id in `pending`, or its answer in its channel, or a delivery
   carrying its channel; and once the connection is closed its id is no longer pending.
   */
  lemma NoLostWaiter(s: State, id: int)
    requires Reachable(s) && Known(s, id) && Of(s, id).phase.Waiting?
    ensures (id in s.pending && !s.closed) || Of(s, id).slot.Some? || (s.loop.Delivering? && s.loop.id == id)
    ensures id !in s.pending ==> Of(s, id).answer.Some?
  {
    InvReachable(s);
    assert SenderOk(s, id);
  }

  // ----- pairing

  /**
   A Send that returns an answer returns what a message with its own id, received after it registered, said, or why
   the connection closed.
   */
  lemma AnswersArePaired(s: State, id: int, r: Response)
    requires Reachable(s) && Known(s, id) && Of(s, id).phase == Returned(Answered(r))
    ensures r.ShutdownError? ==> s.closed
    ensures !r.ShutdownError? ==>
      exists m :: Of(s, id).since <= m < |s.received| && s.received[m].id == id && Says(s.received[m], r)
  {
    InvReachable(s);
    assert SenderOk(s, id);
    if Heard(s, id, r) {
      var m :| Of(s, id).since <= m < |s.received| && s.received[m].id == id && Says(s.received[m], r);
    }
  }

  /** A Send returns an outcome exactly when what the outcome names happens to it. */
  lemma ReturnsForItsReason(s: State, a: Step, id: int)
    requires Reachable(s) && Next(s, a).Some? && Known(s, id) && !Of(s, id).phase.Returned?
    ensures Known(Next(s, a).value, id)
    ensures var p := Of(Next(s, a).value, id).phase;
      && (p == Returned(MarshalFailed) <==> a == MarshalFails(id))
      && (p == Returned(WriteFailed) <==> a.WriteShutdown? && a.id == id)
      && (p == Returned(ContextEnded) <==> a == CancelRemoves(id))
      && (p == Returned(ConnectionClosed) <==> a == DoneFires(id))
      && (p.Returned? && p.outcome.Answered? <==> a == TakesSlot(id))
      && (a == TakesSlot(id) ==> Of(s, id).slot.Some? && p == Returned(Answered(Of(s, id).slot.value)))
  {
    match a
    case WriteShutdown(i, text) => assert Next(s, a) == OnShutdown(Move(s, i, WriteBroken, Returned(WriteFailed)).value, text);
    case _ =>
  }

  /** Every request gets an id that no request had before. */
  lemma IdsAreFresh(s: State)
    requires Reachable(s) && !s.closed
    ensures var s' := Next(s, SendBegin).value;
      && s'.nextID == s.nextID + 1 && Known(s', s'.nextID) && !Known(s, s'.nextID) && s'.nextID !in s.pending
      && s'.pending == s.pending + {s'.nextID} && Of(s', s'.nextID) == Sender(Registered, None, 0, None, |s.received|)
      && forall id :: Known(s, id) ==> Known(s', id) && Of(s', id) == Of(s, id)
  {
    InvReachable(s);
  }

  /** A reply that is late, duplicate or was never asked for reaches nobody; so does any reply to a returned Send. */
  lemma StrayReplyIgnored(s: State, msg: Wire)
    requires Reachable(s) && Next(s, ReadReply(msg)).Some?
    requires msg.id !in s.pending
    ensures Next(s, ReadReply(msg)).value == s.(received := s.received + [msg])
    ensures forall id :: Known(s, id) && Of(s, id).phase.Returned? ==> id !in s.pending
  {
    InvReachable(s);
    forall id | Known(s, id) && Of(s, id).phase.Returned? ensures id !in s.pending {
      assert SenderOk(s, id);
    }
  }

  /** The close callback is owed or done once after closing, and never before. */
  lemma OneCloseCallback(s: State)
    requires Reachable(s)
    ensures s.owedCallbacks + s.callbacks == (if s.closed then 1 else 0)
  {
    InvReachable(s);
  }

  // ----- the atomic view: each request is a cell that is settled at most once

  datatype Cell = Open | Given(response: Response) | Withdrawn

  function CellOf(s: State, id: int): Cell
    requires Known(s, id)
  {
    if id in s.pending then Open
    else if Of(s, id).answer.Some? then Given(Of(s, id).answer.value)
    else Withdrawn
  }

  /** Cells are only added open, and a settled cell never changes. */
  ghost predicate Settles(s: State, t: State) {
    && |s.senders| <= |t.senders|
    && (forall id :: Known(s, id) && CellOf(s, id) != Open ==> CellOf(t, id) == CellOf(s, id))
    && (forall id :: Known(s, id) && Of(s, id).phase.Returned? ==> Of(t, id).phase == Of(s, id).phase)
  }

  /** Shutdown settles what is open. */
  lemma ShutdownSettles(s: State, text: string)
    requires Inv(s) && OnShutdown(s, text).Some?
    ensures Settles(s, OnShutdown(s, text).value)
  {
    var s' := OnShutdown(s, text).value;
    forall id | Known(s, id) ensures CellOf(s, id) != Open ==> CellOf(s', id) == CellOf(s, id) {
      assert SenderOk(s, id);
    }
    forall id | Known(s, id) && Of(s, id).phase.Returned? ensures Of(s', id).phase == Of(s, id).phase {
      assert SenderOk(s, id);
    }
  }

  /** A request moves on; it may leave `pending`, but only an open one gets an answer. */
  lemma OneSettles(s: State, s': State, id: int)
    requires Known(s, id) && |s'.senders| == |s.senders| && !Of(s, id).phase.Returned?
    requires forall k :: Known(s, k) && k != id ==> Of(s', k) == Of(s, k) && (k in s'.pending <==> k in s.pending)
    requires id in s'.pending ==> id in s.pending
    requires id in s.pending || Of(s', id).answer == Of(s, id).answer
    ensures Settles(s, s')
  {
  }

  lemma WriteShutdownSettles(s: State, id: int, text: string)
    requires Inv(s) && Next(s, WriteShutdown(id, text)).Some?
    ensures Settles(s, Next(s, WriteShutdown(id, text)).value)
  {
    var moved := Move(s, id, WriteBroken, Returned(WriteFailed)).value;
    assert SenderOk(s, id);
    HeardStays(s, moved, id);
    OneChanges(s, moved, id);
    OneSettles(s, moved, id);
    ShutdownSettles(moved, text);
    SettlesOn(s, moved, OnShutdown(moved, text).value);
  }

  /** The receive loop's steps: only the one that takes an id from `pending` settles anything. */
  lemma LoopSettles(s: State, a: Step)
    requires Inv(s) && (a.Deliver? || a.ReadReply? || a.LoopEnds? || a.Callback?) && Next(s, a).Some?
    ensures Settles(s, Next(s, a).value)
  {
    var s' := Next(s, a).value;
    if a.Deliver? {
      assert SenderOk(s, s.loop.id);
    } else if a.ReadReply? && a.msg.id in s.pending {
      assert SenderOk(s, a.msg.id);
      OneSettles(s, s', a.msg.id);
    }
  }

  lemma StepSettles(s: State, a: Step)
    requires Inv(s) && Next(s, a).Some?
    ensures Settles(s, Next(s, a).value)
  {
    match a
    case WriteShutdown(id, text) => WriteShutdownSettles(s, id, text);
    case Shutdown(text) => ShutdownSettles(s, text);
    case SendBegin => assert |s.senders| == s.nextID;
    case Deliver => LoopSettles(s, a);
    case ReadReply(_) => LoopSettles(s, a);
    case LoopEnds => LoopSettles(s, a);
    case Callback => LoopSettles(s, a);
    case _ => OneSettles(s, Next(s, a).value, a.id);
  }

  lemma SettlesOn(x: State, y: State, z: State)
    requires Settles(x, y) && Settles(y, z)
    ensures Settles(x, z)
  {
    forall k | Known(x, k) ensures CellOf(x, k) != Open ==> CellOf(z, k) == CellOf(x, k) {
      assert CellOf(x, k) != Open ==> CellOf(y, k) == CellOf(x, k);
    }
    forall k | Known(x, k) && Of(x, k).phase.Returned? ensures Of(z, k).phase == Of(x, k).phase {
      assert Of(y, k).phase == Of(x, k).phase;
    }
  }

  /** Over a whole run each request is settled at most once, for good; and Send returns the settled answer. */
  lemma AtMostOneAnswer(s: State, steps: seq<Step>, t: State, id: int)
    requires Reachable(s) && Reaches(Next, s, steps, t) && Known(s, id)
    ensures Known(t, id)
    ensures CellOf(s, id) != Open ==> CellOf(t, id) == CellOf(s, id)
    ensures Of(t, id).phase.Returned? && Of(t, id).phase.outcome.Answered? ==> CellOf(t, id) == Given(Of(t, id).phase.outcome.response)
    ensures Of(s, id).phase.Returned? ==> Of(t, id).phase == Of(s, id).phase
  {
    InvReachable(s);
    forall x, a | Inv(x) && Next(x, a).Some? ensures Inv(Next(x, a).value) && Settles(x, Next(x, a).value) {
      InvKept(x, a);
      StepSettles(x, a);
    }
    forall x, y, z | Settles(x, y) && Settles(y, z) ensures Settles(x, z) {
      SettlesOn(x, y, z);
    }
    RunRelates(Next, Inv, Settles, s, steps, t);
    assert SenderOk(t, id);
  }

  lemma StepReachable(s: State, a: Step)
    requires Reachable(s) && Next(s, a).Some?
    ensures Reachable(Next(s, a).value)
  {
    StepReached(Next, Init(), s, a);
  }

  /** Shutdown of an open connection, spelled out: who gets the error, and that nobody's channel was full. */
  lemma ShutdownOpens(s: State, text: string)
    requires Reachable(s)
    ensures OnShutdown(s, text).Some? && Reachable(OnShutdown(s, text).value)
    ensures !s.closed ==> OnShutdown(s, text).value.senders == Drained(s, text)
    ensures forall i :: 0 <= i < |s.senders| && i + 1 in s.pending ==> s.senders[i].slot.None?
    ensures forall i :: 0 <= i < |s.senders| ==>
      Drained(s, text)[i].slot == if i + 1 in s.pending then Some(ShutdownError(text)) else s.senders[i].slot
  {
    InvReachable(s);
    ShutdownNeverBlocks(s, text);
    StepReachable(s, Shutdown(text));
    forall i | 0 <= i < |s.senders| && i + 1 in s.pending ensures s.senders[i].slot.None? {
      assert SenderOk(s, i + 1);
    }
  }
}

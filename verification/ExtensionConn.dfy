/**
 The extension connection as the object it is: a request counter, a map from pending ids to one-slot
 channels and a closed flag. Each method is one lock region or one channel operation, and moves the ghost
 `protocol` by exactly the step it stands for.
 */
module ExtensionConns {
  import opened Orders
  import opened Runs
  import opened Pairing
  import opened PairingTheorems

  /** A channel with room for one response. */
  class Channel {
    var slot: Option<Response>

    constructor ()
      ensures slot == None
    {
      slot := None;
    }

    /** A send that does not block. */
    method Send(r: Response)
      requires slot.None?
      modifies this
      ensures slot == Some(r)
    {
      slot := Some(r);
    }

    /** A receive that does not block. */
    method Receive() returns (r: Response)
      requires slot.Some?
      modifies this
      ensures old(slot) == Some(r) && slot == None
    {
      r := slot.value;
      slot := None;
    }
  }

  /** The response that deliverResponse builds outside the lock. */
  method BuildResponse(msg: Wire) returns (response: Response)
    ensures Says(msg, response) && response == Decode(msg)
  {
    match msg.error
    case TextError(text) => response := RemoteError(text);
    case RawError(raw) => response := RemoteError("extension error: " + raw);
    case NoError =>
      var json := msg.result;
      if json == "" {
        json := "{}";
      }
      response := Result(json);
  }

  type Slots = seq<Option<Response>>

  /** The slots after the error was sent to these ids; id k's slot is at k - 1. */
  ghost function Told(slots: Slots, ids: set<int>, text: string): Slots {
    seq(|slots|, k requires 0 <= k < |slots| => if k + 1 in ids then Some(ShutdownError(text)) else slots[k])
  }

  ghost function SlotsOf(senders: seq<Sender>): Slots {
    seq(|senders|, k requires 0 <= k < |senders| => senders[k].slot)
  }

  lemma ToldNobody(slots: Slots, text: string)
    ensures Told(slots, {}, text) == slots
  {
  }

  lemma ToldOneMore(slots: Slots, ids: set<int>, id: int, text: string)
    requires 1 <= id <= |slots|
    ensures Told(slots, ids + {id}, text) == Told(slots, ids, text)[id - 1 := Some(ShutdownError(text))]
    ensures id !in ids ==> Told(slots, ids, text)[id - 1] == slots[id - 1]
  {
  }

  /** Shutdown of an open connection, slot by slot: no pending slot is full, and exactly these get the error. */
  lemma ShutdownTells(s: State, text: string)
    requires Reachable(s) && !s.closed
    ensures OnShutdown(s, text).Some? && Reachable(OnShutdown(s, text).value)
    ensures forall id :: id in s.pending ==> 1 <= id <= |s.senders| && SlotsOf(s.senders)[id - 1] == None
    ensures var t := OnShutdown(s, text).value;
      t.closed && t.pending == {} && t.nextID == s.nextID && SlotsOf(t.senders) == Told(SlotsOf(s.senders), s.pending, text)
  {
    ShutdownOpens(s, text);
    PairingTheorems.InvReachable(s);
    forall id | id in s.pending ensures 1 <= id <= |s.senders| && SlotsOf(s.senders)[id - 1] == None {
      assert s.senders[id - 1].slot.None?;
    }
  }

  class ExtensionConn {
    var nextID: int
    var pending: map<int, Channel>
    var closed: bool
    var done: bool

    ghost var protocol: State
    ghost var channels: seq<Channel>

    /** Each request has its own channel. */
    ghost predicate Distinct()
      reads this
    {
      forall i, j :: 0 <= i < j < |channels| ==> channels[i] != channels[j]
    }

    ghost predicate Registered(id: int)
      reads this
      requires id in pending
    {
      1 <= id <= |channels| && pending[id] == channels[id - 1]
    }

    ghost predicate Shows()
      reads this, channels
    {
      && nextID == protocol.nextID == |protocol.senders| && closed == protocol.closed && done == protocol.closed
      && |channels| == |protocol.senders|
      && Distinct()
      && SlotsAre(SlotsOf(protocol.senders))
      && pending.Keys == protocol.pending
      && (forall id :: id in pending ==> Registered(id))
    }

    ghost predicate Valid()
      reads this, channels
    {
      Shows() && Reachable(protocol)
    }

    constructor ()
      ensures Valid() && protocol == Init()
    {
      nextID, pending, closed, done := 0, map[], false, false;
      protocol, channels := Init(), [];
      InitReached(Next, Init());
    }

    /** The lock region of Send: None if the connection is closed, else a fresh id and its channel. */
    method Register() returns (registered: Option<(int, Channel)>)
      requires Valid()
      modifies this
      ensures Valid() && Next(old(protocol), SendBegin) == Some(protocol)
      ensures registered.None? <==> old(closed)
      ensures registered.Some? ==>
        var (id, ch) := registered.value;
        id == old(nextID) + 1 && fresh(ch) && ch.slot.None? && pending == old(pending)[id := ch] && channels == old(channels) + [ch]
    {
      StepReachable(protocol, SendBegin);
      protocol := OnSendBegin(protocol);
      if closed {
        return None;
      }
      nextID := nextID + 1;
      var result := new Channel();
      pending := pending[nextID := result];
      channels := channels + [result];
      return Some((nextID, result));
    }

    /** removePending, called after a failed marshal, a failed write or the end of the caller's context. */
    method RemovePending(id: int, ghost why: Step)
      requires Valid() && why in {MarshalFails(id), WriteFails(id), CancelRemoves(id)} && Next(protocol, why).Some?
      modifies this
      ensures Valid() && Next(old(protocol), why) == Some(protocol)
      ensures pending == old(pending) - {id} && channels == old(channels)
    {
      StepReachable(protocol, why);
      protocol := Next(protocol, why).value;
      pending := pending - {id};
    }

    /** The lock region of deliverResponse: takes the channel of a pending id, or nothing. */
    method TakeChannel(msg: Wire) returns (ch: Channel?)
      requires Valid() && protocol.loop == Reading
      modifies this
      ensures Valid() && Next(old(protocol), ReadReply(msg)) == Some(protocol)
      ensures ch == (if msg.id in old(pending) then old(pending)[msg.id] else null)
      ensures pending == old(pending) - {msg.id} && channels == old(channels)
      ensures ch != null ==> protocol.loop == Delivering(msg.id, Decode(msg))
      ensures ch == null ==> protocol.loop == Reading
    {
      StepReachable(protocol, ReadReply(msg));
      protocol := OnReadReply(protocol, msg).value;
      ch := if msg.id in pending then pending[msg.id] else null;
      pending := pending - {msg.id};
    }

    /** The unlocked send of deliverResponse. That the channel is empty, so that nothing blocks, is proved here. */
    method Deliver(ch: Channel, response: Response, ghost id: int)
      requires Valid() && protocol.loop == Delivering(id, response) && 1 <= id <= |channels| && channels[id - 1] == ch
      modifies this`protocol, ch
      ensures Valid() && Next(old(protocol), Step.Deliver) == Some(protocol)
      ensures old(ch.slot) == None && ch.slot == Some(response)
    {
      NoSendBlocks(protocol, "");
      StepReachable(protocol, Step.Deliver);
      protocol := OnDeliver(protocol).value;
      ch.Send(response);
    }

    /** deliverResponse with nobody in between: the pending channel gets what the message says; else nothing happens. */
    method DeliverResponse(msg: Wire)
      requires Valid() && protocol.loop == Reading
      modifies this, channels
      ensures Valid() && channels == old(channels) && pending == old(pending) - {msg.id}
      ensures msg.id in old(pending) ==> var ch := old(pending)[msg.id]; ch.slot.Some? && Says(msg, ch.slot.value)
      ensures forall k :: 0 <= k < |channels| && (k + 1 == msg.id ==> msg.id !in old(pending)) ==> channels[k].slot == old(channels[k].slot)
    {
      var ch := TakeChannel(msg);
      if ch == null {
        return;
      }
      var response := BuildResponse(msg);
      Deliver(ch, response, msg.id);
    }

    /** The branch of Send's select that receives from its own channel. */
    method TakeSlot(ch: Channel, ghost id: int) returns (response: Response)
      requires Valid() && Known(protocol, id) && Of(protocol, id).phase == Waiting && channels[id - 1] == ch && ch.slot.Some?
      modifies this`protocol, ch
      ensures Valid() && Next(old(protocol), TakesSlot(id)) == Some(protocol)
      ensures Of(protocol, id).phase == Returned(Answered(response))
      ensures response.ShutdownError? ==> closed
      ensures !response.ShutdownError? ==>
        exists m :: Of(protocol, id).since <= m < |protocol.received| && protocol.received[m].id == id && Says(protocol.received[m], response)
    {
      StepReachable(protocol, TakesSlot(id));
      protocol := OnTakesSlot(protocol, id).value;
      response := ch.Receive();
      AnswersArePaired(protocol, id, response);
    }

    ghost predicate SlotsAre(slots: Slots)
      reads this, channels
    {
      |slots| == |channels| && forall k :: 0 <= k < |channels| ==> channels[k].slot == slots[k]
    }

    /** Every pending id has its channel, and the channel is empty. */
    ghost predicate AllEmpty(slots: Slots)
      reads this
    {
      forall id :: id in pending ==> Registered(id) && id <= |slots| && slots[id - 1] == None
    }

    /** The drain loop of shutdown: every pending channel, in the map's order, gets the error without blocking. */
    method Drain(text: string, order: seq<int>, ghost slots: Slots)
      requires Lists(order, pending.Keys) && Distinct() && SlotsAre(slots) && AllEmpty(slots)
      modifies this`pending, channels
      ensures pending == map[] && SlotsAre(Told(slots, old(pending.Keys), text))
    {
      forall i: nat | i < |order| ensures Round(order, pending.Keys, i) {
        OneRound(order, pending.Keys, i);
      }
      AllRounds(order, pending.Keys);
      DrainRounds(text, order, slots);
      NoMembers(pending.Keys);
    }

    method DrainRounds(text: string, order: seq<int>, ghost slots: Slots)
      requires forall i: nat :: i < |order| ==> Round(order, pending.Keys, i)
      requires Distinct() && SlotsAre(slots) && AllEmpty(slots)
      modifies this`pending, channels
      ensures pending == old(pending) - Seen(order[..|order|])
      ensures SlotsAre(Told(slots, Seen(order[..|order|]), text))
    {
      ghost var all, now := pending, slots;
      ToldNobody(slots, text);
      for i := 0 to |order|
        invariant pending == all - Seen(order[..i])
        invariant SlotsAre(now) && now == Told(slots, Seen(order[..i]), text)
      {
        var id := order[i];
        assert Round(order, all.Keys, i);
        assert id in pending && Registered(id);
        ToldOneMore(slots, Seen(order[..i]), id, text);
        SendError(id, text, now);
        now := now[id - 1 := Some(ShutdownError(text))];
      }
    }

    /** One round: the channel gets the error and its id goes. */
    method SendError(id: int, text: string, ghost slots: Slots)
      requires Distinct() && id in pending && Registered(id) && SlotsAre(slots) && slots[id - 1] == None
      modifies this`pending, channels[id - 1]
      ensures pending == old(pending) - {id} && SlotsAre(slots[id - 1 := Some(ShutdownError(text))])
    {
      pending[id].Send(ShutdownError(text));
      pending := pending - {id};
    }

    /** The lock region of shutdown. True if onClose is due. */
    method Shutdown(text: string, order: seq<int>) returns (callback: bool)
      requires Valid() && Lists(order, pending.Keys)
      modifies this, channels
      ensures Valid() && OnShutdown(old(protocol), text) == Some(protocol)
      ensures channels == old(channels) && done && closed
      ensures callback <==> !old(closed)
      ensures callback ==> pending == map[]
    {
      if closed {
        return false;
      }
      ShutdownTells(protocol, text);
      closed := true;
      Drain(text, order, SlotsOf(protocol.senders));
      done := true;
      protocol := OnShutdown(protocol, text).value;
      return true;
    }
  }
}

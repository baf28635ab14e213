/**
 Request/response pairing of the extension connection. Request ids are 1, 2, ...; request id's one-slot
 channel and goroutine are `senders[id - 1]`. Lock regions, channel operations and the outcomes of
 marshalling, writing and reading are the steps; a run is any sequence of enabled steps.
 */
module Pairing {
  import opened Runs

  // ----- messages

  datatype WireError = NoError | TextError(text: string) | RawError(raw: string)

  /** A decoded message that carries an id. */
  datatype Wire = Wire(id: int, result: string, error: WireError)

  datatype Response = Result(json: string) | RemoteError(text: string) | ShutdownError(text: string)

  /** What the caller is told by a reply: its error if there is one, else its result, `{}` if that is empty. */
  function Decode(msg: Wire): Response {
    match msg.error
    case TextError(text) => RemoteError(text)
    case RawError(raw) => RemoteError("extension error: " + raw)
    case NoError => Result(if msg.result == "" then "{}" else msg.result)
  }

  /** The response is what the message says: a result exactly if it carries no error, else the error's text. */
  ghost predicate Says(msg: Wire, r: Response) {
    && (r.Result? <==> msg.error.NoError?) && (r.RemoteError? <==> !msg.error.NoError?)
    && (msg.error.NoError? && msg.result != "" ==> r.Result? && r.json == msg.result)
    && (msg.error.NoError? && msg.result == "" ==> r.Result? && r.json == "{}")
    && (msg.error.TextError? ==> r.RemoteError? && r.text == msg.error.text)
    && (msg.error.RawError? ==> r.RemoteError? && r.text == "extension error: " + msg.error.raw)
  }

  // ----- state

  datatype Outcome = Answered(response: Response) | ContextEnded | ConnectionClosed | MarshalFailed | WriteFailed

  datatype Phase = Registered | Waiting | Cancelling | WriteBroken | Returned(outcome: Outcome)

  /**
   One Send: where it stands, what its channel holds, how often its channel was sent to, and the answer
   that was assigned to it when its id left `pending`, if any. `since` is how many messages had been
   received when it registered.
   */
  datatype Sender = Sender(phase: Phase, slot: Option<Response>, sends: nat, answer: Option<Response>, since: nat)

  /** The receive loop: reading, carrying a response to a channel outside the lock, or ended. */
  datatype Loop = Reading | Delivering(id: int, response: Response) | Ended

  datatype State = State(
    nextID: nat,
    pending: set<int>,
    closed: bool,
    senders: seq<Sender>,
    loop: Loop,
    received: seq<Wire>,
    owedCallbacks: nat,
    callbacks: nat)

  function Init(): State {
    State(0, {}, false, [], Reading, [], 0, 0)
  }

  predicate Known(s: State, id: int) {
    1 <= id <= |s.senders|
  }

  function Of(s: State, id: int): Sender
    requires Known(s, id)
  {
    s.senders[id - 1]
  }

  datatype Step =
    | SendBegin
    | MarshalFails(id: int)
    | WriteSucceeds(id: int)
    | WriteFails(id: int)
    | WriteShutdown(id: int, text: string)
    | ContextFires(id: int)
    | CancelRemoves(id: int)
    | DoneFires(id: int)
    | TakesSlot(id: int)
    | ReadReply(msg: Wire)
    | Deliver
    | LoopEnds
    | Shutdown(text: string)
    | Callback

  function Put(s: State, id: int, x: Sender): State
    requires Known(s, id)
  {
    s.(senders := s.senders[id - 1 := x])
  }

  function Move(s: State, id: int, from: Phase, to: Phase): Option<State> {
    if Known(s, id) && Of(s, id).phase == from then Some(Put(s, id, Of(s, id).(phase := to))) else None
  }

  /** Leaves `pending`; an entry that is not there is no error. */
  function RemovePending(s: State, id: int): State {
    s.(pending := s.pending - {id})
  }

  /** A send on a one-slot channel; it would block if the slot were taken. */
  function PutSlot(x: Sender, r: Response): Sender {
    x.(slot := Some(r), sends := x.sends + 1)
  }

  /** The lock region of shutdown, drain loop included. It would block, holding the lock, on a full channel. */
  function OnShutdown(s: State, text: string): Option<State> {
    if s.closed then Some(s)
    else if exists i | 0 <= i < |s.senders| :: i + 1 in s.pending && s.senders[i].slot.Some? then None
    else Some(s.(closed := true, pending := {}, owedCallbacks := s.owedCallbacks + 1, senders := Drained(s, text)))
  }

  function Drained(s: State, text: string): seq<Sender> {
    seq(|s.senders|, i requires 0 <= i < |s.senders| =>
      if i + 1 in s.pending
      then PutSlot(s.senders[i], ShutdownError(text)).(answer := Some(ShutdownError(text)))
      else s.senders[i])
  }

  /** The lock region of deliverResponse. A reply nobody waits for is dropped. */
  function OnReadReply(s: State, msg: Wire): Option<State> {
    if s.loop != Reading then None
    else
      var s' := s.(received := s.received + [msg]);
      if msg.id !in s.pending || !Known(s, msg.id) then Some(s')
      else
        var taken := Put(RemovePending(s', msg.id), msg.id, Of(s, msg.id).(answer := Some(Decode(msg))));
        Some(taken.(loop := Delivering(msg.id, Decode(msg))))
  }

  /** The unlocked send of deliverResponse; it would block on a full channel. */
  function OnDeliver(s: State): Option<State> {
    match s.loop
    case Delivering(id, r) =>
      if !Known(s, id) || Of(s, id).slot.Some? then None
      else Some(Put(s, id, PutSlot(Of(s, id), r)).(loop := Reading))
    case _ => None
  }

  function OnTakesSlot(s: State, id: int): Option<State> {
    if Known(s, id) && Of(s, id).phase.Waiting? && Of(s, id).slot.Some?
    then Some(Put(s, id, Of(s, id).(phase := Returned(Answered(Of(s, id).slot.value)), slot := None)))
    else None
  }

  function OnSendBegin(s: State): State {
    if s.closed then s
    else s.(nextID := s.nextID + 1, pending := s.pending + {s.nextID + 1}, senders := s.senders + [Sender(Registered, None, 0, None, |s.received|)])
  }

  function Next(s: State, a: Step): Option<State> {
    match a
    case SendBegin => Some(OnSendBegin(s))
    case MarshalFails(id) => Move(RemovePending(s, id), id, Registered, Returned(MarshalFailed))
    case WriteSucceeds(id) => Move(s, id, Registered, Waiting)
    case WriteFails(id) => Move(RemovePending(s, id), id, Registered, WriteBroken)
    case WriteShutdown(id, text) =>
      var s' := Move(s, id, WriteBroken, Returned(WriteFailed));
      if s'.None? then None else OnShutdown(s'.value, text)
    case ContextFires(id) => Move(s, id, Waiting, Cancelling)
    case CancelRemoves(id) => Move(RemovePending(s, id), id, Cancelling, Returned(ContextEnded))
    case DoneFires(id) => if s.closed then Move(s, id, Waiting, Returned(ConnectionClosed)) else None
    case TakesSlot(id) => OnTakesSlot(s, id)
    case ReadReply(msg) => OnReadReply(s, msg)
    case Deliver => OnDeliver(s)
    case LoopEnds => if s.loop == Reading then Some(s.(loop := Ended)) else None
    case Shutdown(text) => OnShutdown(s, text)
    case Callback =>
      if s.owedCallbacks == 0 then None else Some(s.(owedCallbacks := s.owedCallbacks - 1, callbacks := s.callbacks + 1))
  }

  ghost predicate Reachable(s: State) {
    ReachableFrom(Next, Init(), s)
  }

  // ----- the invariant

  /** After request id was registered, a wire message with this id and this meaning was received. */
  ghost predicate Heard(s: State, id: int, r: Response)
    requires Known(s, id)
  {
    exists m :: Of(s, id).since <= m < |s.received| && s.received[m].id == id && Says(s.received[m], r)
  }

  ghost predicate SenderOk(s: State, id: int)
    requires Known(s, id)
  {
    var x := Of(s, id);
    && x.sends <= 1 && x.since <= |s.received|
    && (id in s.pending ==> x.slot.None? && x.sends == 0 && x.answer.None? && !x.phase.Returned? && !x.phase.WriteBroken? && !s.closed)
    && (s.loop.Delivering? && s.loop.id == id ==> id !in s.pending && x.slot.None? && x.sends == 0 && x.answer == Some(s.loop.response))
    && (x.slot.Some? ==> x.slot == x.answer && x.sends == 1)
    && (x.answer.Some? ==> Heard(s, id, x.answer.value) || (s.closed && x.answer.value.ShutdownError?))
    && (x.phase.Returned? && x.phase.outcome.Answered? ==> x.answer == Some(x.phase.outcome.response))
    && (x.phase.Returned? && x.phase.outcome.ConnectionClosed? ==> s.closed)
    && (x.phase.Waiting? || x.phase.Registered? ==>
          id in s.pending || x.slot.Some? || (s.loop.Delivering? && s.loop.id == id))
  }

  ghost predicate Inv(s: State) {
    && s.nextID == |s.senders|
    && (forall id :: id in s.pending ==> Known(s, id))
    && (s.loop.Delivering? ==> Known(s, s.loop.id))
    && (forall id :: Known(s, id) ==> SenderOk(s, id))
    && s.owedCallbacks + s.callbacks == (if s.closed then 1 else 0)
  }
}

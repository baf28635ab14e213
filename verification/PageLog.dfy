/** What the page observer records: the request log and its index, the console, the navigation count, the references. */
module PageLog {
  import opened Runs

  datatype Response = Response(status: int, statusText: string, headers: map<string, string>, mimeType: string)

  /** One entry of the request log. */
  datatype Request = Request(
    id: string, url: string, verb: string, resourceType: string, headers: map<string, string>, hasPostData: bool,
    response: Option<Response>, failure: string, finished: bool)

  datatype Level = LError | LWarning | LInfo | LDebug
  datatype Message = Message(level: Level, text: string, navigation: nat)

  /** What was sent, as the event tells it. */
  datatype Sent = Sent(url: string, verb: string, headers: map<string, string>, hasPostData: bool)

  datatype Event =
    | ConsoleLine(level: Level, text: string)
    | FrameNavigated(frame: Option<(string, string)>)
    | RequestWillBeSent(id: string, sent: Option<Sent>, redirect: Option<Response>, resourceType: string)
    | ResponseReceived(id: string, response: Option<Response>, resourceType: string)
    | LoadingFinished(id: string)
    | LoadingFailed(id: string, error: string)

  /** `index` gives, for each request id, the position the index of the page points to. */
  datatype State = State(
    requests: seq<Request>, index: map<string, nat>,
    console: seq<Message>, navigation: nat, mainFrame: string, refs: map<string, int>)

  function Init(): State {
    State([], map[], [], 0, "", map[])
  }

  datatype Step = Observe(event: Event) | StoreRefs(refs: map<string, int>)

  /** What an event may change about an entry. */
  datatype Change = Redirected(response: Response) | Responded(response: Response, resourceType: string) | Loaded | Broken(error: string)

  function Changed(r: Request, c: Change): Request {
    match c
    case Redirected(response) => r.(response := Some(response), finished := true)
    case Responded(response, resourceType) => r.(response := Some(response), resourceType := resourceType)
    case Loaded => r.(finished := true)
    case Broken(error) => r.(finished := true, failure := error)
  }

  /** What a change leaves of an entry, field by field. */
  ghost predicate Leaves(before: Request, after: Request, c: Change) {
    && after.id == before.id && after.url == before.url && after.verb == before.verb
    && after.headers == before.headers && after.hasPostData == before.hasPostData
    && (c.Redirected? || c.Responded? ==> after.response == Some(c.response))
    && (c.Loaded? || c.Broken? ==> after.response == before.response)
    && after.resourceType == (if c.Responded? then c.resourceType else before.resourceType)
    && (after.finished <==> before.finished || !c.Responded?)
    && after.failure == (if c.Broken? then c.error else before.failure)
  }

  lemma ChangedLeaves(r: Request, c: Change)
    ensures Leaves(r, Changed(r, c), c)
  {
  }

  /** The entry the index has for this id, changed; nothing if there is none. */
  function Update(s: State, id: string, c: Change): State {
    if id in s.index && s.index[id] < |s.requests|
    then s.(requests := s.requests[s.index[id] := Changed(s.requests[s.index[id]], c)])
    else s
  }

  function NewRequest(id: string, sent: Sent, resourceType: string): Request {
    Request(id, sent.url, sent.verb, resourceType, sent.headers, sent.hasPostData, None, "", false)
  }

  function Append(s: State, r: Request): State {
    s.(requests := s.requests + [r], index := s.index[r.id := |s.requests|])
  }

  function OnWillBeSent(s: State, id: string, sent: Option<Sent>, redirect: Option<Response>, resourceType: string): State {
    if sent.None? then s
    else
      var s' := if redirect.Some? then Update(s, id, Redirected(redirect.value)) else s;
      Append(s', NewRequest(id, sent.value, resourceType))
  }

  function OnResponse(s: State, id: string, response: Option<Response>, resourceType: string): State {
    if response.None? then s
    else Update(s, id, Responded(response.value, resourceType))
  }

  function OnNavigated(s: State, frame: Option<(string, string)>): State {
    if frame.Some? && frame.value.1 == "" then s.(mainFrame := frame.value.0, navigation := s.navigation + 1, refs := map[])
    else s
  }

  function Apply(s: State, e: Event): State {
    match e
    case ConsoleLine(level, text) => s.(console := s.console + [Message(level, text, s.navigation)])
    case FrameNavigated(frame) => OnNavigated(s, frame)
    case RequestWillBeSent(id, sent, redirect, resourceType) => OnWillBeSent(s, id, sent, redirect, resourceType)
    case ResponseReceived(id, response, resourceType) => OnResponse(s, id, response, resourceType)
    case LoadingFinished(id) => Update(s, id, Loaded)
    case LoadingFailed(id, error) => Update(s, id, Broken(error))
  }

  /** Events may come at any time; so may a snapshot's late store of its references. */
  function Next(s: State, a: Step): Option<State> {
    match a
    case Observe(e) => Some(Apply(s, e))
    case StoreRefs(refs) => Some(s.(refs := refs))
  }

  ghost predicate Reachable(s: State) {
    ReachableFrom(Next, Init(), s)
  }

  // ----- the index agrees with the log

  /** k is the last position in the log with this id. */
  ghost predicate LastWith(requests: seq<Request>, id: string, k: int) {
    0 <= k < |requests| && requests[k].id == id && forall j :: k < j < |requests| ==> requests[j].id != id
  }

  ghost predicate Inv(s: State) {
    && (forall id :: id in s.index ==> LastWith(s.requests, id, s.index[id]))
    && (forall k :: 0 <= k < |s.requests| ==> s.requests[k].id in s.index)
    && (forall i :: 0 <= i < |s.console| ==> s.console[i].navigation <= s.navigation)
    && (forall i, j :: 0 <= i < j < |s.console| ==> s.console[i].navigation <= s.console[j].navigation)
  }

  /** Entry k was superseded: a later entry has its id. */
  ghost predicate Superseded(s: State, k: nat) {
    k < |s.requests| && exists j :: k < j < |s.requests| && s.requests[j].id == s.requests[k].id
  }

  /** What a request number stands for. */
  ghost predicate SameRequest(a: Request, b: Request) {
    a.id == b.id && a.url == b.url && a.verb == b.verb && a.headers == b.headers && a.hasPostData == b.hasPostData
  }

  /** From s to t the logs only grow, numbers keep their request, and superseded entries are frozen. */
  ghost predicate Later(s: State, t: State) {
    && |s.requests| <= |t.requests|
    && (forall k :: 0 <= k < |s.requests| ==> SameRequest(s.requests[k], t.requests[k]) && (s.requests[k].finished ==> t.requests[k].finished))
    && (forall k: nat :: Superseded(s, k) ==> t.requests[k] == s.requests[k])
    && s.console <= t.console && s.navigation <= t.navigation
  }

  lemma ChangedSame(r: Request, c: Change)
    ensures SameRequest(r, Changed(r, c)) && (r.finished ==> Changed(r, c).finished)
  {
  }

  /** An entry that no later entry supersedes may change, and not its identity. */
  lemma ReplaceKeeps(s: State, k: nat, r: Request)
    requires Inv(s) && k < |s.requests| && LastWith(s.requests, s.requests[k].id, k)
    requires SameRequest(s.requests[k], r) && (s.requests[k].finished ==> r.finished)
    ensures Inv(s.(requests := s.requests[k := r])) && Later(s, s.(requests := s.requests[k := r]))
  {
    var s' := s.(requests := s.requests[k := r]);
    assert forall j :: 0 <= j < |s.requests| ==> s'.requests[j].id == s.requests[j].id;
    forall x | x in s'.index ensures LastWith(s'.requests, x, s'.index[x]) {
      assert LastWith(s.requests, x, s.index[x]);
    }
  }

  /** Only the entry the index points to changes. */
  lemma UpdateKeeps(s: State, id: string, c: Change)
    requires Inv(s)
    ensures Inv(Update(s, id, c)) && Later(s, Update(s, id, c))
    ensures Update(s, id, c).index == s.index && |Update(s, id, c).requests| == |s.requests|
  {
    if id in s.index {
      var k := s.index[id];
      assert LastWith(s.requests, id, k);
      ChangedSame(s.requests[k], c);
      ReplaceKeeps(s, k, Changed(s.requests[k], c));
    }
  }

  lemma AppendKeeps(s: State, r: Request)
    requires Inv(s)
    ensures Inv(Append(s, r)) && Later(s, Append(s, r))
  {
    var s' := Append(s, r);
    forall x | x in s'.index ensures LastWith(s'.requests, x, s'.index[x]) {
      if x != r.id { assert LastWith(s.requests, x, s.index[x]); }
    }
  }

  lemma LaterTransitive(x: State, y: State, z: State)
    requires Later(x, y) && Later(y, z)
    ensures Later(x, z)
  {
    forall k | 0 <= k < |x.requests| ensures SameRequest(x.requests[k], z.requests[k]) {
      assert SameRequest(x.requests[k], y.requests[k]) && SameRequest(y.requests[k], z.requests[k]);
    }
    forall k: nat | Superseded(x, k) ensures z.requests[k] == x.requests[k] {
      var j :| k < j < |x.requests| && x.requests[j].id == x.requests[k].id;
      assert SameRequest(x.requests[j], y.requests[j]);
      assert y.requests[k] == x.requests[k];
      assert Superseded(y, k);
    }
  }

  lemma WillBeSentKeeps(s: State, id: string, sent: Option<Sent>, redirect: Option<Response>, resourceType: string)
    requires Inv(s)
    ensures Inv(OnWillBeSent(s, id, sent, redirect, resourceType)) && Later(s, OnWillBeSent(s, id, sent, redirect, resourceType))
  {
    if sent.Some? {
      var r := NewRequest(id, sent.value, resourceType);
      if redirect.Some? {
        var s' := Update(s, id, Redirected(redirect.value));
        UpdateKeeps(s, id, Redirected(redirect.value));
        AppendKeeps(s', r);
        LaterTransitive(s, s', Append(s', r));
      } else {
        AppendKeeps(s, r);
      }
    }
  }

  /** A step that leaves the request log alone and adds at most one console message, tagged with the navigation. */
  lemma OtherLogKeeps(s: State, s': State)
    requires Inv(s) && s'.requests == s.requests && s'.index == s.index && s.navigation <= s'.navigation
    requires s'.console == s.console ||
      (|s'.console| == |s.console| + 1 && s.console <= s'.console && s'.console[|s.console|].navigation == s.navigation)
    ensures Inv(s') && Later(s, s')
  {
  }

  lemma ResponseKeeps(s: State, id: string, response: Option<Response>, resourceType: string)
    requires Inv(s)
    ensures Inv(OnResponse(s, id, response, resourceType)) && Later(s, OnResponse(s, id, response, resourceType))
  {
    if response.Some? { UpdateKeeps(s, id, Responded(response.value, resourceType)); }
  }

  lemma EventKeeps(s: State, e: Event)
    requires Inv(s)
    ensures Inv(Apply(s, e)) && Later(s, Apply(s, e))
  {
    match e
    case ConsoleLine(level, text) => OtherLogKeeps(s, s.(console := s.console + [Message(level, text, s.navigation)]));
    case FrameNavigated(frame) => OtherLogKeeps(s, OnNavigated(s, frame));
    case RequestWillBeSent(id, sent, redirect, resourceType) => WillBeSentKeeps(s, id, sent, redirect, resourceType);
    case ResponseReceived(id, response, resourceType) => ResponseKeeps(s, id, response, resourceType);
    case LoadingFinished(id) => UpdateKeeps(s, id, Loaded);
    case LoadingFailed(id, error) => UpdateKeeps(s, id, Broken(error));
  }

  lemma StepKeeps(s: State, a: Step)
    requires Inv(s)
    ensures Inv(Next(s, a).value) && Later(s, Next(s, a).value)
  {
    match a
    case Observe(e) => EventKeeps(s, e);
    case StoreRefs(refs) => OtherLogKeeps(s, s.(refs := refs));
  }

  lemma InvReachable(s: State)
    requires Reachable(s)
    ensures Inv(s)
  {
    forall x, a | Inv(x) && Next(x, a).Some? ensures Inv(Next(x, a).value) {
      StepKeeps(x, a);
    }
    KeptReached(Next, Init(), Inv, s);
  }

  // ----- theorems

  /** After any events, the index leads from an id to the last entry with that id, and knows exactly the ids of the log. */
  lemma IndexAgrees(s: State, id: string)
    requires Reachable(s)
    ensures id in s.index <==> exists k :: 0 <= k < |s.requests| && s.requests[k].id == id
    ensures id in s.index ==> LastWith(s.requests, id, s.index[id])
  {
    InvReachable(s);
    if id in s.index {
      assert LastWith(s.requests, id, s.index[id]);
    }
  }

  lemma LaterAtEnd(s: State, steps: seq<Step>, t: State)
    requires Reachable(s) && Reaches(Next, s, steps, t)
    ensures Later(s, t) && Inv(t)
  {
    InvReachable(s);
    forall x, a | Inv(x) && Next(x, a).Some? ensures Inv(Next(x, a).value) && Later(x, Next(x, a).value) {
      StepKeeps(x, a);
    }
    forall x, y, z | Later(x, y) && Later(y, z) ensures Later(x, z) {
      LaterTransitive(x, y, z);
    }
    RunRelates(Next, Inv, Later, s, steps, t);
  }

  /** Number k + 1 names the same request for the rest of the run. */
  lemma NumbersAreStable(s: State, steps: seq<Step>, t: State, k: nat)
    requires Reachable(s) && Reaches(Next, s, steps, t) && k < |s.requests|
    ensures k < |t.requests| && SameRequest(s.requests[k], t.requests[k])
  {
    LaterAtEnd(s, steps, t);
  }

  /** An entry with a later entry of the same id, such as a redirect hop, never changes again. */
  lemma SupersededIsFrozen(s: State, steps: seq<Step>, t: State, k: nat)
    requires Reachable(s) && Reaches(Next, s, steps, t) && Superseded(s, k)
    ensures k < |t.requests| && t.requests[k] == s.requests[k]
  {
    LaterAtEnd(s, steps, t);
  }

  // ----- what each event leaves in the log, field by field

  /** An entry as a request to be sent leaves it. */
  ghost predicate LoggedAs(r: Request, id: string, sent: Sent, resourceType: string) {
    && r.id == id && r.url == sent.url && r.verb == sent.verb && r.headers == sent.headers
    && r.hasPostData == sent.hasPostData && r.resourceType == resourceType
    && r.response.None? && r.failure == "" && !r.finished
  }

  lemma NewIsLogged(id: string, sent: Sent, resourceType: string)
    ensures LoggedAs(NewRequest(id, sent, resourceType), id, sent, resourceType)
  {
  }

  /** t has s's requests, but the one the index has for id is changed like this. */
  ghost predicate ChangesOnly(s: State, t: State, id: string, c: Change) {
    && |t.requests| >= |s.requests|
    && forall k :: 0 <= k < |s.requests| ==>
         if id in s.index && s.index[id] == k then Leaves(s.requests[k], t.requests[k], c) else t.requests[k] == s.requests[k]
  }

  /** A request to be sent is logged last, as it was sent; of the others at most a redirected hop changes. */
  lemma RequestIsLogged(s: State, id: string, sent: Sent, redirect: Option<Response>, resourceType: string)
    requires Reachable(s)
    ensures var t := Next(s, Observe(RequestWillBeSent(id, Some(sent), redirect, resourceType))).value;
      && |t.requests| == |s.requests| + 1 && LoggedAs(t.requests[|s.requests|], id, sent, resourceType)
      && t.index == s.index[id := |s.requests|] && t.console == s.console && t.navigation == s.navigation && t.refs == s.refs
      && (if redirect.Some? then ChangesOnly(s, t, id, Redirected(redirect.value)) else s.requests <= t.requests)
    ensures Next(s, Observe(RequestWillBeSent(id, None, redirect, resourceType))) == Some(s)
  {
    InvReachable(s);
    if redirect.Some? && id in s.index {
      assert LastWith(s.requests, id, s.index[id]);
      ChangedLeaves(s.requests[s.index[id]], Redirected(redirect.value));
    }
  }

  /** A redirect closes the hop with the redirect's response and opens a new entry under the same id. */
  lemma RedirectClosesHop(s: State, id: string, sent: Sent, response: Response, resourceType: string)
    requires Reachable(s) && id in s.index
    ensures s.index[id] < |s.requests|
    ensures var t := Next(s, Observe(RequestWillBeSent(id, Some(sent), Some(response), resourceType))).value;
      && |t.requests| == |s.requests| + 1 && LoggedAs(t.requests[|s.requests|], id, sent, resourceType)
      && t.requests[s.index[id]].response == Some(response) && t.requests[s.index[id]].finished
      && SameRequest(s.requests[s.index[id]], t.requests[s.index[id]])
      && t.index[id] == |s.requests| && Superseded(t, s.index[id])
  {
    InvReachable(s);
    assert LastWith(s.requests, id, s.index[id]);
    RequestIsLogged(s, id, sent, Some(response), resourceType);
    var t := Next(s, Observe(RequestWillBeSent(id, Some(sent), Some(response), resourceType))).value;
    assert t.requests[|s.requests|].id == t.requests[s.index[id]].id;
  }

  /** A response, an end or a failure changes the entry the index has for its id, as it says, and nothing else. */
  lemma NewsIsRecorded(s: State, id: string, response: Response, resourceType: string, error: string)
    requires Reachable(s)
    ensures Records(s, Next(s, Observe(ResponseReceived(id, Some(response), resourceType))).value, id, Responded(response, resourceType))
    ensures Records(s, Next(s, Observe(LoadingFinished(id))).value, id, Loaded)
    ensures Records(s, Next(s, Observe(LoadingFailed(id, error))).value, id, Broken(error))
    ensures Next(s, Observe(ResponseReceived(id, None, resourceType))) == Some(s)
  {
    UpdateRecords(s, id, Responded(response, resourceType));
    UpdateRecords(s, id, Loaded);
    UpdateRecords(s, id, Broken(error));
  }

  ghost predicate Records(s: State, t: State, id: string, c: Change) {
    && |t.requests| == |s.requests| && ChangesOnly(s, t, id, c)
    && t.index == s.index && t.console == s.console && t.navigation == s.navigation && t.refs == s.refs
  }

  lemma UpdateRecords(s: State, id: string, c: Change)
    requires Reachable(s)
    ensures Records(s, Update(s, id, c), id, c)
  {
    InvReachable(s);
    if id in s.index {
      assert LastWith(s.requests, id, s.index[id]);
      ChangedLeaves(s.requests[s.index[id]], c);
    }
  }

  /** A console line is kept last, as it was, under the navigation of its time. */
  lemma ConsoleLineIsKept(s: State, level: Level, text: string)
    ensures var t := Next(s, Observe(ConsoleLine(level, text))).value;
      && |t.console| == |s.console| + 1 && s.console <= t.console
      && t.console[|s.console|].level == level && t.console[|s.console|].text == text
      && t.console[|s.console|].navigation == s.navigation
      && t.requests == s.requests && t.index == s.index && t.navigation == s.navigation && t.refs == s.refs
  {
  }

  /** A navigation of the main frame counts and drops the references; one of another frame, or of none, does nothing. */
  lemma NavigationIsCounted(s: State, frame: string, parent: string)
    ensures parent == "" ==> var t := Next(s, Observe(FrameNavigated(Some((frame, parent))))).value;
      t.navigation == s.navigation + 1 && t.mainFrame == frame && t.refs == map[]
      && t.requests == s.requests && t.index == s.index && t.console == s.console
    ensures parent != "" ==> Next(s, Observe(FrameNavigated(Some((frame, parent))))) == Some(s)
    ensures Next(s, Observe(FrameNavigated(None))) == Some(s)
  {
  }

  /** The console only grows, and its navigation tags never decrease nor run ahead of the page. */
  lemma ConsoleIsOrdered(s: State, steps: seq<Step>, t: State)
    requires Reachable(s) && Reaches(Next, s, steps, t)
    ensures s.console <= t.console && s.navigation <= t.navigation
    ensures forall i :: 0 <= i < |t.console| ==> t.console[i].navigation <= t.navigation
    ensures forall i, j :: 0 <= i < j < |t.console| ==> t.console[i].navigation <= t.console[j].navigation
  {
    LaterAtEnd(s, steps, t);
  }

  lemma StepReachable(s: State, a: Step)
    requires Reachable(s)
    ensures Reachable(Next(s, a).value)
  {
    StepReached(Next, Init(), s, a);
  }
}

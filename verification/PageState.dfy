/**
 The page observer as the object it is: the log and the index point to the same request objects, so that an
 event changes a logged entry through the index. Listings hand out copies.
 */
module PageStates {
  import opened Runs
  import opened PageLog
  import Refs

  /** A header map; nothing writes to one once it is made, so only who holds it matters. */
  class Headers {
    const items: map<string, string>

    constructor (items: map<string, string>)
      ensures this.items == items
    {
      this.items := items;
    }
  }

  class NetworkResponse {
    const status: int
    const statusText: string
    const mimeType: string
    const headers: Headers

    /** A copy of a response, headers included. */
    constructor (r: Response)
      ensures View() == r && fresh(headers)
    {
      status, statusText, mimeType := r.status, r.statusText, r.mimeType;
      headers := new Headers(r.headers);
    }

    function View(): Response {
      Response(status, statusText, headers.items, mimeType)
    }
  }

  class NetworkRequest {
    const id: string
    const url: string
    const verb: string
    const headers: Headers
    const hasPostData: bool
    var resourceType: string
    var response: NetworkResponse?
    var failure: string
    var finished: bool

    /** A request of its own, with headers and response of its own. */
    constructor (r: Request)
      ensures View() == r && fresh(Parts())
    {
      id, url, verb, hasPostData := r.id, r.url, r.verb, r.hasPostData;
      resourceType, failure, finished := r.resourceType, r.failure, r.finished;
      headers := new Headers(r.headers);
      if r.response.Some? {
        response := new NetworkResponse(r.response.value);
      } else {
        response := null;
      }
    }

    /** The objects a request owns. */
    ghost function Parts(): set<object>
      reads this
    {
      {headers} + (if response == null then {} else {response, response.headers})
    }

    function View(): Request
      reads this
    {
      Request(id, url, verb, resourceType, headers.items, hasPostData,
              if response == null then None else Some(response.View()), failure, finished)
    }

    method Change(c: Change)
      modifies this
      ensures View() == Changed(old(View()), c)
    {
      match c
      case Redirected(r) =>
        response := new NetworkResponse(r);
        finished := true;
      case Responded(r, t) =>
        response := new NetworkResponse(r);
        resourceType := t;
      case Loaded => finished := true;
      case Broken(error) =>
        finished := true;
        failure := error;
    }
  }

  /** What a target text stands for: something to select, a reference nobody printed, or a node. */
  datatype Target = Selector | UnknownRef | Node(backend: int)

  class PageState {
    var requests: seq<NetworkRequest>
    var requestByID: map<string, NetworkRequest>
    var console: seq<Message>
    var navigation: nat
    var mainFrame: string
    var refs: map<string, int>

    ghost var log: State

    ghost predicate Shows()
      reads this, requests
    {
      && |requests| == |log.requests|
      && (forall i :: 0 <= i < |requests| ==> requests[i].View() == log.requests[i])
      && (forall i, j :: 0 <= i < j < |requests| ==> requests[i] != requests[j])
      && requestByID.Keys == log.index.Keys
      && (forall id :: id in requestByID ==> log.index[id] < |requests| && requestByID[id] == requests[log.index[id]])
      && console == log.console && navigation == log.navigation && mainFrame == log.mainFrame && refs == log.refs
    }

    ghost predicate Valid()
      reads this, requests
    {
      Shows() && Reachable(log)
    }

    /** The object the index has for an id is at one place in the log. */
    lemma OnlyOnce(id: string)
      requires Shows() && id in requestByID
      ensures log.index[id] < |requests| && requestByID[id] == requests[log.index[id]]
      ensures forall i :: 0 <= i < |requests| && i != log.index[id] ==> requests[i] != requestByID[id]
    {
    }

    constructor ()
      ensures Valid() && log == Init()
    {
      requests, requestByID, console, navigation, mainFrame, refs := [], map[], [], 0, "", map[];
      log := Init();
      InitReached(Next, Init());
    }

    /** Marks the entry the index has for this id as finished with a redirect, and logs the new hop. */
    method OnWillBeSent(id: string, sent: Option<Sent>, redirect: Option<Response>, resourceType: string)
      requires Shows()
      modifies this, requests
      ensures Shows() && log == PageLog.OnWillBeSent(old(log), id, sent, redirect, resourceType)
      ensures old(requests) <= requests && forall i :: |old(requests)| <= i < |requests| ==> fresh(requests[i])
      ensures |requests| == |old(requests)| + (if sent.Some? then 1 else 0)
      ensures sent.Some? ==> LoggedAs(requests[|requests| - 1].View(), id, sent.value, resourceType)
      ensures sent.Some? ==> requestByID == old(requestByID)[id := requests[|requests| - 1]]
    {
      if sent.None? {
        return;
      }
      CloseHop(id, redirect);
      NewIsLogged(id, sent.value, resourceType);
      Record(NewRequest(id, sent.value, resourceType));
    }

    method CloseHop(id: string, redirect: Option<Response>)
      requires Shows()
      modifies this`log, requests
      ensures Shows() && log == if redirect.Some? then Update(old(log), id, Redirected(redirect.value)) else old(log)
    {
      if redirect.Some? {
        Change(id, Redirected(redirect.value));
      }
    }

    /** Changes the entry that the index has for this id, if there is one. */
    method Change(id: string, c: Change)
      requires Shows()
      modifies this`log, requests
      ensures Shows() && log == Update(old(log), id, c)
    {
      if id in requestByID {
        OnlyOnce(id);
        requestByID[id].Change(c);
      }
      log := Update(log, id, c);
    }

    method Record(r: Request)
      requires Shows()
      modifies this
      ensures Shows() && log == Append(old(log), r)
      ensures |requests| == |old(requests)| + 1 && old(requests) <= requests && fresh(requests[|requests| - 1])
      ensures requests[|requests| - 1].View() == r && requestByID == old(requestByID)[r.id := requests[|requests| - 1]]
    {
      var x := new NetworkRequest(r);
      requests := requests + [x];
      requestByID := requestByID[r.id := x];
      log := Append(log, r);
    }

    method OnFrameNavigated(frame: Option<(string, string)>)
      requires Shows()
      modifies this
      ensures Shows() && log == OnNavigated(old(log), frame) && requests == old(requests)
      ensures frame.Some? && frame.value.1 == "" ==>
        navigation == old(navigation) + 1 && mainFrame == frame.value.0 && refs == map[]
      ensures frame.None? || frame.value.1 != "" ==>
        navigation == old(navigation) && mainFrame == old(mainFrame) && refs == old(refs)
    {
      log := OnNavigated(log, frame);
      if frame.Some? && frame.value.1 == "" {
        mainFrame := frame.value.0;
        navigation := navigation + 1;
        refs := map[];
      }
    }

    /** The event handler, one event under the lock. */
    method Handle(e: Event)
      requires Valid()
      modifies this, requests
      ensures Valid() && log == Apply(old(log), e)
      ensures old(requests) <= requests && forall i :: |old(requests)| <= i < |requests| ==> fresh(requests[i])
    {
      StepReachable(log, Observe(e));
      match e
      case ConsoleLine(level, text) =>
        console := console + [Message(level, text, navigation)];
        log := Apply(log, e);
      case FrameNavigated(frame) => OnFrameNavigated(frame);
      case RequestWillBeSent(id, sent, redirect, resourceType) => OnWillBeSent(id, sent, redirect, resourceType);
      case ResponseReceived(id, response, resourceType) =>
        if response.Some? {
          Change(id, Responded(response.value, resourceType));
        }
      case LoadingFinished(id) => Change(id, Loaded);
      case LoadingFailed(id, error) => Change(id, Broken(error));
    }

    /** The lock region at the end of a snapshot: its table replaces the one before. */
    method StoreRefs(table: map<string, int>)
      requires Valid()
      modifies this
      ensures Valid() && log == Next(old(log), PageLog.StoreRefs(table)).value
      ensures refs == table && requests == old(requests) && console == old(console) && navigation == old(navigation)
    {
      StepReachable(log, PageLog.StoreRefs(table));
      refs := table;
      log := Next(log, PageLog.StoreRefs(table)).value;
    }

    /** targetBackendID up to the point where a selector would be run. */
    method TargetOf(target: string) returns (t: Target)
      requires Valid()
      ensures forall b :: t == Node(b) <==> Refs.Resolves(refs, target, b)
      ensures t.Selector? <==> forall r :: Refs.IsRef(r) ==> Refs.NormalizeRef(target) != r
    {
      var ref := Refs.NormalizeRef(target);
      if ref == "" {
        return Selector;
      }
      assert Refs.IsRef(ref);
      if ref !in refs {
        return UnknownRef;
      }
      return Node(refs[ref]);
    }

    /**
     A copy of every logged request, in order, with headers and response of its own: no object of the log is handed
     out, and none of the log's objects is changed.
     */
    method NetworkRequests() returns (result: seq<NetworkRequest>)
      requires Valid()
      ensures |result| == |requests| && forall i :: 0 <= i < |result| ==> fresh(result[i]) && fresh(result[i].Parts())
      ensures forall i :: 0 <= i < |result| ==> result[i].View() == log.requests[i]
    {
      result := [];
      for i := 0 to |requests|
        invariant |result| == i && forall j :: 0 <= j < i ==> fresh(result[j]) && fresh(result[j].Parts())
        invariant forall j :: 0 <= j < i ==> result[j].View() == log.requests[j]
      {
        var copy := new NetworkRequest(requests[i].View());
        result := result + [copy];
      }
    }

    /** Events that come after a listing do not reach the copies it handed out. */
    method ListThenObserve(events: seq<Event>) returns (copies: seq<NetworkRequest>)
      requires Valid()
      modifies this, requests
      ensures Valid()
      ensures |copies| == |old(log).requests|
      ensures forall i :: 0 <= i < |copies| ==> copies[i].View() == old(log).requests[i]
    {
      copies := NetworkRequests();
      for k := 0 to |events|
        invariant Valid() && fresh(copies) && |copies| == |old(log).requests|
        invariant forall i, j :: 0 <= i < |copies| && 0 <= j < |requests| ==> copies[i] != requests[j]
        invariant forall j :: 0 <= j < |requests| ==> requests[j] in old(requests) || fresh(requests[j])
        invariant forall i :: 0 <= i < |copies| ==> copies[i].View() == old(log).requests[i]
      {
        Handle(events[k]);
      }
    }
  }
}

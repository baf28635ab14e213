/** The two network tools: the numbered listing and the look-up by number. */
module NetworkTools {
  import opened Runs
  import opened PageLog

  function Lower(c: char): char {
    if 'A' <= c <= 'Z' then ((c as int) + 32) as char else c
  }

  /** Equality up to the case of ASCII letters. */
  predicate EqualFold(a: string, b: string) {
    |a| == |b| && forall i :: 0 <= i < |a| ==> Lower(a[i]) == Lower(b[i])
  }

  predicate IsFetch(r: Request) {
    EqualFold(r.resourceType, "XHR") || EqualFold(r.resourceType, "Fetch")
  }

  /** A static request that succeeded; such requests are counted but not listed. */
  predicate Hides(r: Request, showStatic: bool) {
    !showStatic && !IsFetch(r) && r.response.Some? && r.response.value.status < 400 && r.failure == ""
  }

  datatype Line = Line(number: nat, request: Request)

  type Test = Request -> bool

  /** How many of the requests pass the test. */
  function Count(requests: seq<Request>, test: Test): nat {
    if requests == [] then 0
    else Count(requests[..|requests| - 1], test) + (if test(requests[|requests| - 1]) then 1 else 0)
  }

  lemma CountGrows(requests: seq<Request>, test: Test, r: Request)
    ensures Count(requests + [r], test) == Count(requests, test) + (if test(r) then 1 else 0)
  {
    assert (requests + [r])[..|requests|] == requests;
  }

  ghost predicate LineOk(line: Line, requests: seq<Request>, keep: Test) {
    1 <= line.number <= |requests| && line.request == requests[line.number - 1] && keep(line.request)
  }

  ghost predicate HasNumber(lines: seq<Line>, number: nat) {
    exists i :: 0 <= i < |lines| && lines[i].number == number
  }

  /** Exactly the requests to be kept, each under its number, in order. */
  ghost predicate ListingOf(lines: seq<Line>, requests: seq<Request>, keep: Test) {
    && (forall i :: 0 <= i < |lines| ==> LineOk(lines[i], requests, keep))
    && (forall i, j :: 0 <= i < j < |lines| ==> lines[i].number < lines[j].number)
    && (forall k :: 0 <= k < |requests| && keep(requests[k]) ==> HasNumber(lines, k + 1))
  }

  lemma ListingGrows(lines: seq<Line>, requests: seq<Request>, keep: Test, r: Request)
    requires ListingOf(lines, requests, keep)
    ensures keep(r) ==> ListingOf(lines + [Line(|requests| + 1, r)], requests + [r], keep)
    ensures !keep(r) ==> ListingOf(lines, requests + [r], keep)
  {
    var more := lines + [Line(|requests| + 1, r)];
    forall i | 0 <= i < |lines| ensures LineOk(lines[i], requests + [r], keep) && more[i] == lines[i] {
      assert LineOk(lines[i], requests, keep);
    }
    assert more[|lines|].number == |requests| + 1;
    forall k | 0 <= k < |requests| && keep((requests + [r])[k]) ensures HasNumber(lines, k + 1) && HasNumber(more, k + 1) {
      assert (requests + [r])[k] == requests[k];
      var i :| 0 <= i < |lines| && lines[i].number == k + 1;
      assert more[i].number == k + 1;
    }
  }

  /** What the loop has after these requests; `keep` and `reject` divide what it does not hide. */
  ghost predicate Listed(lines: seq<Line>, hidden: nat, rejected: nat, requests: seq<Request>, hides: Test, keep: Test, reject: Test) {
    && ListingOf(lines, requests, keep) && hidden == Count(requests, hides) && rejected == Count(requests, reject)
    && |lines| + hidden + rejected == |requests|
  }

  lemma ListedMore(lines: seq<Line>, hidden: nat, rejected: nat, requests: seq<Request>, hides: Test, keep: Test, reject: Test, r: Request)
    requires Listed(lines, hidden, rejected, requests, hides, keep, reject)
    ensures hides(r) && !keep(r) && !reject(r) ==> Listed(lines, hidden + 1, rejected, requests + [r], hides, keep, reject)
    ensures !hides(r) && keep(r) && !reject(r) ==>
      Listed(lines + [Line(|requests| + 1, r)], hidden, rejected, requests + [r], hides, keep, reject)
    ensures !hides(r) && !keep(r) && reject(r) ==> Listed(lines, hidden, rejected + 1, requests + [r], hides, keep, reject)
  {
    ListingGrows(lines, requests, keep, r);
    CountGrows(requests, hides, r);
    CountGrows(requests, reject, r);
  }

  /** The loop of the listing: hidden requests are counted, those the filter rejects are skipped. */
  method ListBy(requests: seq<Request>, hides: Test, filter: string -> bool) returns (lines: seq<Line>, hidden: nat)
    ensures ListingOf(lines, requests, r => !hides(r) && filter(r.url))
    ensures hidden == Count(requests, hides)
    ensures |lines| + hidden + Count(requests, r => !hides(r) && !filter(r.url)) == |requests|
  {
    ghost var keep := (r: Request) => !hides(r) && filter(r.url);
    ghost var reject := (r: Request) => !hides(r) && !filter(r.url);
    ghost var rejected := 0;
    lines, hidden := [], 0;
    for i := 0 to |requests|
      invariant Listed(lines, hidden, rejected, requests[..i], hides, keep, reject)
    {
      var r := requests[i];
      assert requests[..i + 1] == requests[..i] + [r];
      ListedMore(lines, hidden, rejected, requests[..i], hides, keep, reject, r);
      if hides(r) {
        hidden := hidden + 1;
      } else if filter(r.url) {
        lines := lines + [Line(i + 1, r)];
      } else {
        rejected := rejected + 1;
      }
    }
    assert requests[..|requests|] == requests;
  }

  /** XHR or Fetch, in any mixture of cases. */
  ghost predicate NamesFetch(t: string) {
    || (|t| == 3 && t[0] in {'X', 'x'} && t[1] in {'H', 'h'} && t[2] in {'R', 'r'})
    || (|t| == 5 && t[0] in {'F', 'f'} && t[1] in {'E', 'e'} && t[2] in {'T', 't'} && t[3] in {'C', 'c'} && t[4] in {'H', 'h'})
  }

  /** Not asked for, answered below 400, not failed, and neither XHR nor Fetch. */
  ghost predicate Hidden(r: Request, showStatic: bool) {
    !showStatic && r.response.Some? && r.response.value.status < 400 && r.failure == "" && !NamesFetch(r.resourceType)
  }

  lemma FetchIs(r: Request)
    ensures IsFetch(r) <==> NamesFetch(r.resourceType)
  {
    var t := r.resourceType;
    forall c: char
      ensures Lower(c) == 'x' <==> c in {'X', 'x'}
      ensures Lower(c) == 'h' <==> c in {'H', 'h'}
      ensures Lower(c) == 'r' <==> c in {'R', 'r'}
      ensures Lower(c) == 'f' <==> c in {'F', 'f'}
      ensures Lower(c) == 'e' <==> c in {'E', 'e'}
      ensures Lower(c) == 't' <==> c in {'T', 't'}
      ensures Lower(c) == 'c' <==> c in {'C', 'c'}
    {
    }
    XhrIs(t);
    FetchWordIs(t);
  }

  lemma XhrIs(t: string)
    ensures EqualFold(t, "XHR") <==> |t| == 3 && Lower(t[0]) == 'x' && Lower(t[1]) == 'h' && Lower(t[2]) == 'r'
  {
  }

  lemma FetchWordIs(t: string)
    ensures EqualFold(t, "Fetch") <==>
            |t| == 5 && Lower(t[0]) == 'f' && Lower(t[1]) == 'e' && Lower(t[2]) == 't' && Lower(t[3]) == 'c' && Lower(t[4]) == 'h'
  {
  }

  lemma HidesIs(r: Request, showStatic: bool)
    ensures Hides(r, showStatic) <==> Hidden(r, showStatic)
  {
    FetchIs(r);
  }

  /** BrowserNetworkRequests over the copied log: shown, hidden and rejected add up to the log. */
  method BrowserNetworkRequests(requests: seq<Request>, showStatic: bool, filter: string -> bool)
    returns (lines: seq<Line>, hidden: nat)
    ensures ListingOf(lines, requests, (r: Request) => !Hidden(r, showStatic) && filter(r.url))
    ensures hidden == Count(requests, (r: Request) => Hidden(r, showStatic))
    ensures |lines| + hidden + Count(requests, (r: Request) => !Hidden(r, showStatic) && !filter(r.url)) == |requests|
  {
    var hides := (r: Request) => Hides(r, showStatic);
    lines, hidden := ListBy(requests, hides, filter);
    forall r ensures hides(r) == Hidden(r, showStatic) {
      HidesIs(r, showStatic);
    }
    ListingSame(lines, requests, r => !hides(r) && filter(r.url), r => !Hidden(r, showStatic) && filter(r.url));
    CountSame(requests, r => !hides(r) && !filter(r.url), r => !Hidden(r, showStatic) && !filter(r.url));
    CountSame(requests, hides, r => Hidden(r, showStatic));
  }

  lemma {:induction false} CountSame(requests: seq<Request>, a: Test, b: Test)
    requires forall r :: a(r) == b(r)
    ensures Count(requests, a) == Count(requests, b)
  {
    if requests != [] {
      CountSame(requests[..|requests| - 1], a, b);
    }
  }

  lemma ListingSame(lines: seq<Line>, requests: seq<Request>, a: Test, b: Test)
    requires forall r :: a(r) == b(r)
    requires ListingOf(lines, requests, a)
    ensures ListingOf(lines, requests, b)
  {
    forall i | 0 <= i < |lines| ensures LineOk(lines[i], requests, b) {
      assert LineOk(lines[i], requests, a);
    }
  }

  datatype LookUp = BadIndex | NotFound | FoundRequest(request: Request)

  /** BrowserNetworkRequest: the entry a number stands for. */
  function LookUpRequest(requests: seq<Request>, index: int): LookUp {
    if index < 1 then BadIndex
    else if index > |requests| then NotFound
    else FoundRequest(requests[index - 1])
  }

  /** A number is refused exactly if it is below 1 or beyond the log, each for its own reason. */
  lemma LookUpRefuses(requests: seq<Request>, index: int)
    ensures LookUpRequest(requests, index) == BadIndex <==> index < 1
    ensures LookUpRequest(requests, index) == NotFound <==> index > |requests|
    ensures LookUpRequest(requests, index).FoundRequest? ==> LookUpRequest(requests, index).request == requests[index - 1]
  {
  }

  /** Every number a listing prints is accepted later on, whatever happened since, and finds the listed request. */
  lemma ListedNumbersStayValid(s: State, steps: seq<Step>, t: State, lines: seq<Line>, keep: Test, i: nat)
    requires Reachable(s) && Reaches(Next, s, steps, t)
    requires ListingOf(lines, s.requests, keep) && i < |lines|
    ensures LookUpRequest(s.requests, lines[i].number) == FoundRequest(lines[i].request)
    ensures LookUpRequest(t.requests, lines[i].number).FoundRequest?
    ensures SameRequest(lines[i].request, LookUpRequest(t.requests, lines[i].number).request)
  {
    assert LineOk(lines[i], s.requests, keep);
    NumbersAreStable(s, steps, t, lines[i].number - 1);
  }
}

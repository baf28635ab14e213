/** Searching the outline: lines, matches, and windows of context around the matches. */
module Find {
  // ----- lines

  function Join(lines: seq<string>, sep: string): string {
    if lines == [] then "" else if |lines| == 1 then lines[0] else lines[0] + sep + Join(lines[1..], sep)
  }

  /** The first line's length: up to the first newline or the end. */
  function FirstLine(text: string): (n: nat)
    ensures n <= |text| && (n < |text| ==> text[n] == '\n') && '\n' !in text[..n]
  {
    if text == "" || text[0] == '\n' then 0 else 1 + FirstLine(text[1..])
  }

  function Split(text: string): (lines: seq<string>)
    ensures lines != []
    decreases |text|
  {
    var n := FirstLine(text);
    if n == |text| then [text] else [text[..n]] + Split(text[n + 1..])
  }

  lemma {:induction false} SplitHasNoNewlines(text: string, i: nat)
    requires i < |Split(text)|
    ensures '\n' !in Split(text)[i]
    decreases |text|
  {
    var n := FirstLine(text);
    if n == |text| {
      assert text[..n] == text;
    } else if i > 0 {
      SplitHasNoNewlines(text[n + 1..], i - 1);
    }
  }

  lemma {:induction false} FirstLineOf(line: string, rest: string)
    requires '\n' !in line
    ensures FirstLine(line) == |line| && FirstLine(line + "\n" + rest) == |line|
  {
    if line == "" {
      assert line + "\n" + rest == "\n" + rest;
    } else {
      assert (line + "\n" + rest)[1..] == line[1..] + "\n" + rest;
      assert forall c :: c in line[1..] ==> c in line;
      assert line[0] in line;
      FirstLineOf(line[1..], rest);
    }
  }

  lemma {:induction false} SplitOfJoin(lines: seq<string>)
    requires lines != [] && forall i :: 0 <= i < |lines| ==> '\n' !in lines[i]
    ensures Split(Join(lines, "\n")) == lines
  {
    if |lines| == 1 {
      FirstLineOf(lines[0], "");
    } else {
      var rest := Join(lines[1..], "\n");
      FirstLineOf(lines[0], rest);
      var text := lines[0] + "\n" + rest;
      assert text[..|lines[0]|] == lines[0] && text[|lines[0]| + 1..] == rest;
      SplitOfJoin(lines[1..]);
    }
  }

  /** Splitting the joined text gives the lines back exactly when there is a line and no line holds a newline. */
  lemma SplitJoin(lines: seq<string>)
    ensures Split(Join(lines, "\n")) == lines <==> lines != [] && forall i :: 0 <= i < |lines| ==> '\n' !in lines[i]
  {
    if Split(Join(lines, "\n")) == lines {
      forall i | 0 <= i < |lines| ensures '\n' !in lines[i] {
        SplitHasNoNewlines(Join(lines, "\n"), i);
      }
    }
    if lines != [] && forall i :: 0 <= i < |lines| ==> '\n' !in lines[i] {
      SplitOfJoin(lines);
    }
  }

  // ----- windows

  datatype Window = Window(first: int, last: int)

  predicate Holds(w: Window, k: int) {
    w.first <= k <= w.last
  }

  ghost predicate Covered(ws: seq<Window>, k: int) {
    exists i :: 0 <= i < |ws| && Holds(ws[i], k)
  }

  /** Line k is in the text and within three lines of a match. */
  ghost predicate Near(n: nat, indices: seq<int>, k: int) {
    0 <= k < n && exists j :: 0 <= j < |indices| && indices[j] - 3 <= k <= indices[j] + 3
  }

  /** In range, in order, and with at least one hidden line between any two. */
  ghost predicate Apart(ws: seq<Window>, n: nat) {
    && (forall i :: 0 <= i < |ws| ==> 0 <= ws[i].first <= ws[i].last < n)
    && (forall i, j :: 0 <= i < j < |ws| ==> ws[i].last + 1 < ws[j].first)
  }

  ghost predicate Increasing(indices: seq<int>, n: nat) {
    && (forall i :: 0 <= i < |indices| ==> 0 <= indices[i] < n)
    && (forall i, j :: 0 <= i < j < |indices| ==> indices[i] < indices[j])
  }

  function Max(a: int, b: int): int { if a > b then a else b }
  function Min(a: int, b: int): int { if a < b then a else b }

  /** One round of the merge: the windows are exact for the matches so far, and stay exact with one more. */
  ghost predicate Exact(ws: seq<Window>, n: nat, indices: seq<int>) {
    && Apart(ws, n)
    && (forall k :: Covered(ws, k) <==> Near(n, indices, k))
    && (|ws| == 0 <==> |indices| == 0)
    && (|ws| > 0 ==> ws[|ws| - 1].last == Min(n - 1, indices[|indices| - 1] + 3))
    && (|ws| > 0 ==> ws[|ws| - 1].first <= Max(0, indices[|indices| - 1] - 3))
  }

  function Merged(ws: seq<Window>, n: nat, index: int): seq<Window> {
    var start, end := Max(0, index - 3), Min(n - 1, index + 3);
    if |ws| != 0 && start <= ws[|ws| - 1].last + 1
    then ws[|ws| - 1 := Window(ws[|ws| - 1].first, Max(ws[|ws| - 1].last, end))]
    else ws + [Window(start, end)]
  }

  lemma LastReplaced(ws: seq<Window>, w: Window, k: int)
    requires |ws| > 0
    ensures Covered(ws[|ws| - 1 := w], k) <==> Covered(ws[..|ws| - 1], k) || Holds(w, k)
    ensures Covered(ws, k) <==> Covered(ws[..|ws| - 1], k) || Holds(ws[|ws| - 1], k)
  {
    LastAppended(ws[..|ws| - 1], w, k);
    LastAppended(ws[..|ws| - 1], ws[|ws| - 1], k);
    assert ws[|ws| - 1 := w] == ws[..|ws| - 1] + [w];
    assert ws == ws[..|ws| - 1] + [ws[|ws| - 1]];
  }

  lemma LastAppended(ws: seq<Window>, w: Window, k: int)
    ensures Covered(ws + [w], k) <==> Covered(ws, k) || Holds(w, k)
  {
    var out := ws + [w];
    if Covered(ws, k) {
      var i :| 0 <= i < |ws| && Holds(ws[i], k);
      assert Holds(out[i], k);
    }
    if Holds(w, k) {
      assert Holds(out[|ws|], k);
    }
  }

  lemma MergedCovers(ws: seq<Window>, n: nat, index: int, k: int)
    requires 0 <= index < n && Apart(ws, n)
    requires |ws| > 0 ==> ws[|ws| - 1].first <= Max(0, index - 3)
    ensures Covered(Merged(ws, n, index), k) <==> Covered(ws, k) || (0 <= k < n && index - 3 <= k <= index + 3)
  {
    var start, end := Max(0, index - 3), Min(n - 1, index + 3);
    if |ws| != 0 && start <= ws[|ws| - 1].last + 1 {
      LastReplaced(ws, Window(ws[|ws| - 1].first, Max(ws[|ws| - 1].last, end)), k);
    } else {
      LastAppended(ws, Window(start, end), k);
    }
  }

  lemma MergedApart(ws: seq<Window>, n: nat, index: int)
    requires 0 <= index < n && Apart(ws, n)
    ensures Apart(Merged(ws, n, index), n)
  {
  }

  lemma NearAppend(n: nat, indices: seq<int>, index: int, k: int)
    ensures Near(n, indices + [index], k) <==> Near(n, indices, k) || (0 <= k < n && index - 3 <= k <= index + 3)
  {
    var more := indices + [index];
    if Near(n, indices, k) {
      var j :| 0 <= j < |indices| && indices[j] - 3 <= k <= indices[j] + 3;
      assert more[j] - 3 <= k <= more[j] + 3;
    }
    if 0 <= k < n && index - 3 <= k <= index + 3 {
      assert more[|indices|] == index;
    }
  }

  lemma MergedExact(ws: seq<Window>, n: nat, indices: seq<int>, index: int)
    requires Exact(ws, n, indices) && Increasing(indices + [index], n)
    ensures Exact(Merged(ws, n, index), n, indices + [index])
  {
    assert (indices + [index])[|indices|] == index;
    if |ws| > 0 {
      assert (indices + [index])[|indices| - 1] == indices[|indices| - 1] < index;
    }
    MergedApart(ws, n, index);
    forall k ensures Covered(Merged(ws, n, index), k) <==> Near(n, indices + [index], k) {
      MergedCovers(ws, n, index, k);
      NearAppend(n, indices, index, k);
      assert Covered(ws, k) <==> Near(n, indices, k);
    }
  }

  /** The merge loop: exactly the lines near a match are in a window, and windows never touch. */
  method FindWindows(n: nat, indices: seq<int>) returns (windows: seq<Window>)
    requires Increasing(indices, n)
    ensures Apart(windows, n)
    ensures forall k :: Covered(windows, k) <==> Near(n, indices, k)
    ensures windows == [] <==> indices == []
  {
    windows := [];
    for i := 0 to |indices|
      invariant Exact(windows, n, indices[..i])
    {
      var index := indices[i];
      var start, end := Max(0, index - 3), Min(n - 1, index + 3);
      assert indices[..i + 1] == indices[..i] + [index];
      assert Increasing(indices[..i + 1], n);
      MergedExact(windows, n, indices[..i], index);
      if |windows| != 0 && start <= windows[|windows| - 1].last + 1 {
        windows := windows[|windows| - 1 := Window(windows[|windows| - 1].first, Max(windows[|windows| - 1].last, end))];
      } else {
        windows := windows + [Window(start, end)];
      }
    }
    assert indices[..|indices|] == indices;
  }

  // ----- no fewer windows would do

  /** Distinct numbers below m are at most m many. */
  lemma {:induction false} Pigeonhole(s: seq<nat>, m: nat)
    requires forall i :: 0 <= i < |s| ==> s[i] < m
    requires forall i, j :: 0 <= i < j < |s| ==> s[i] != s[j]
    ensures |s| <= m
    decreases m
  {
    if |s| > 0 {
      assert s[0] < m;
      if x :| 0 <= x < |s| && s[x] == m - 1 {
        Pigeonhole(s[..x] + s[x + 1..], m - 1);
      } else {
        Pigeonhole(s, m - 1);
      }
    }
  }

  /** Which interval of the other cover holds the first line of each window. */
  lemma {:induction false} Representatives(ws: seq<Window>, cover: seq<Window>, n: nat) returns (picks: seq<nat>)
    requires Apart(ws, n) && forall k :: Covered(cover, k) <==> Covered(ws, k)
    ensures |picks| == |ws|
    ensures forall i :: 0 <= i < |ws| ==> picks[i] < |cover| && Holds(cover[picks[i]], ws[i].first)
  {
    picks := [];
    for i := 0 to |ws|
      invariant |picks| == i
      invariant forall j :: 0 <= j < i ==> picks[j] < |cover| && Holds(cover[picks[j]], ws[j].first)
    {
      assert Holds(ws[i], ws[i].first);
      assert Covered(ws, ws[i].first);
      var p: nat :| p < |cover| && Holds(cover[p], ws[i].first);
      picks := picks + [p];
    }
  }

  /** The line after a window is hidden. */
  lemma GapHidden(ws: seq<Window>, n: nat, i: nat)
    requires Apart(ws, n) && i < |ws|
    ensures !Covered(ws, ws[i].last + 1)
  {
    forall x | 0 <= x < |ws| ensures !Holds(ws[x], ws[i].last + 1) {
      if x < i { assert ws[x].last + 1 < ws[i].first; }
    }
  }

  /** Any other set of intervals that shows exactly the same lines has at least as many intervals. */
  lemma WindowsAreFewest(ws: seq<Window>, cover: seq<Window>, n: nat)
    requires Apart(ws, n) && forall k :: Covered(cover, k) <==> Covered(ws, k)
    ensures |ws| <= |cover|
  {
    var picks := Representatives(ws, cover, n);
    forall i, j | 0 <= i < j < |picks| ensures picks[i] != picks[j] {
      GapHidden(ws, n, i);
      assert !Covered(cover, ws[i].last + 1);
      assert !Holds(cover[picks[i]], ws[i].last + 1);
      assert Holds(cover[picks[j]], ws[j].first);
    }
    Pigeonhole(picks, |cover|);
  }

  /** No line is in two windows. */
  lemma ShownOnce(ws: seq<Window>, n: nat, i: nat, j: nat, k: int)
    requires Apart(ws, n) && i < |ws| && j < |ws| && Holds(ws[i], k) && Holds(ws[j], k)
    ensures i == j
  {
  }

  // ----- the tool

  datatype FindResult =
    | BadArguments
    | NoMatches
    | Found(count: nat, windows: seq<Window>, parts: seq<string>)

  method MatchIndices(lines: seq<string>, matches: string -> bool) returns (indices: seq<int>)
    ensures Increasing(indices, |lines|)
    ensures forall k :: 0 <= k < |lines| ==> (matches(lines[k]) <==> k in indices)
  {
    indices := [];
    for i := 0 to |lines|
      invariant Increasing(indices, i)
      invariant forall k :: 0 <= k < i ==> (matches(lines[k]) <==> k in indices)
    {
      if matches(lines[i]) {
        indices := indices + [i];
      }
    }
  }

  /** The windows of a result: exact for the lines that match, and each part is the text of its window. */
  ghost predicate ShowsMatches(lines: seq<string>, matches: string -> bool, indices: seq<int>, windows: seq<Window>) {
    && Increasing(indices, |lines|)
    && (forall k :: 0 <= k < |lines| ==> (matches(lines[k]) <==> k in indices))
    && Apart(windows, |lines|)
    && (forall k :: Covered(windows, k) <==> Near(|lines|, indices, k))
  }

  ghost predicate PartsOf(lines: seq<string>, windows: seq<Window>, parts: seq<string>) {
    && |parts| == |windows|
    && (forall i :: 0 <= i < |windows| ==> 0 <= windows[i].first <= windows[i].last < |lines|)
    && (forall i :: 0 <= i < |windows| ==> parts[i] == Join(lines[windows[i].first..windows[i].last + 1], "\n"))
  }

  method CutParts(lines: seq<string>, windows: seq<Window>) returns (parts: seq<string>)
    requires Apart(windows, |lines|)
    ensures PartsOf(lines, windows, parts)
  {
    parts := [];
    for i := 0 to |windows|
      invariant |parts| == i
      invariant forall j :: 0 <= j < i ==> parts[j] == Join(lines[windows[j].first..windows[j].last + 1], "\n")
    {
      parts := parts + [Join(lines[windows[i].first..windows[i].last + 1], "\n")];
    }
  }

  /** BrowserFind on a snapshot text, with the matcher that its text or regular expression stands for. */
  method BrowserFind(text: string, regex: string, snapshot: string, matches: string -> bool)
    returns (result: FindResult, ghost indices: seq<int>)
    ensures result.BadArguments? <==> ((text == "") <==> (regex == ""))
    ensures result.NoMatches? ==> forall k :: 0 <= k < |Split(snapshot)| ==> !matches(Split(snapshot)[k])
    ensures result.Found? ==>
      ShowsMatches(Split(snapshot), matches, indices, result.windows) && result.count == |indices| > 0
    ensures result.Found? ==> PartsOf(Split(snapshot), result.windows, result.parts)
  {
    indices := [];
    if (text == "") == (regex == "") {
      return BadArguments, indices;
    }
    var lines := Split(snapshot);
    var hits := MatchIndices(lines, matches);
    if |hits| == 0 {
      return NoMatches, indices;
    }
    var windows := FindWindows(|lines|, hits);
    var parts := CutParts(lines, windows);
    return Found(|hits|, windows, parts), hits;
  }
}

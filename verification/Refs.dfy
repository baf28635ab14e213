/** Snapshot references: how a target text is read, and the table from reference to node. */
module Refs {
  import opened Numerals

  // ----- strings.TrimSpace

  /** Unicode white space. */
  predicate IsSpace(c: char) {
    c in {'\t', '\n', '\U{0B}', '\U{0C}', '\r', ' ', '\U{85}', '\U{A0}', '\U{1680}', '\U{2028}', '\U{2029}', '\U{202F}',
          '\U{205F}', '\U{3000}'}
    || '\U{2000}' <= c <= '\U{200A}'
  }

  predicate Blank(s: string) {
    forall c :: c in s ==> IsSpace(c)
  }

  function TrimLeft(s: string): string {
    if s != [] && IsSpace(s[0]) then TrimLeft(s[1..]) else s
  }

  function TrimRight(s: string): string {
    if s != [] && IsSpace(s[|s| - 1]) then TrimRight(s[..|s| - 1]) else s
  }

  function TrimSpace(s: string): string {
    TrimRight(TrimLeft(s))
  }

  /** A text that neither begins nor ends with a space. */
  predicate Solid(s: string) {
    s != [] && !IsSpace(s[0]) && !IsSpace(s[|s| - 1])
  }

  lemma {:induction false} TrimLeftPad(pad: string, s: string)
    requires Blank(pad) && s != [] && !IsSpace(s[0])
    ensures TrimLeft(pad + s) == s
  {
    if pad == [] {
      assert pad + s == s;
    } else {
      assert (pad + s)[1..] == pad[1..] + s;
      assert Blank(pad[1..]);
      assert pad[0] in pad;
      TrimLeftPad(pad[1..], s);
    }
  }

  lemma {:induction false} TrimRightPad(s: string, pad: string)
    requires Blank(pad) && s != [] && !IsSpace(s[|s| - 1])
    ensures TrimRight(s + pad) == s
  {
    if pad == [] {
      assert s + pad == s;
    } else {
      var shorter := pad[..|pad| - 1];
      assert (s + pad)[..|s + pad| - 1] == s + shorter;
      assert pad[|pad| - 1] in pad;
      TrimRightPad(s, shorter);
    }
  }

  lemma {:induction false} TrimLeftSplits(s: string) returns (pad: string)
    ensures Blank(pad) && s == pad + TrimLeft(s)
    ensures TrimLeft(s) == [] || !IsSpace(TrimLeft(s)[0])
  {
    if s != [] && IsSpace(s[0]) {
      var rest := TrimLeftSplits(s[1..]);
      pad := [s[0]] + rest;
    } else {
      pad := [];
    }
  }

  lemma {:induction false} TrimRightSplits(s: string) returns (pad: string)
    ensures Blank(pad) && s == TrimRight(s) + pad
    ensures TrimRight(s) == [] || (!IsSpace(TrimRight(s)[|TrimRight(s)| - 1]) && TrimRight(s)[0] == s[0])
  {
    if s != [] && IsSpace(s[|s| - 1]) {
      var rest := TrimRightSplits(s[..|s| - 1]);
      pad := rest + [s[|s| - 1]];
      assert s == s[..|s| - 1] + [s[|s| - 1]];
    } else {
      pad := [];
    }
  }

  /** A solid text is what trimming leaves of s if and only if s is that text with blanks around it. */
  lemma TrimSpaceIs(s: string, core: string)
    requires Solid(core)
    ensures TrimSpace(s) == core <==> exists before, after :: Blank(before) && Blank(after) && s == before + core + after
  {
    if TrimSpace(s) == core {
      var before := TrimLeftSplits(s);
      var after := TrimRightSplits(TrimLeft(s));
      assert s == before + core + after;
    }
    if exists before, after :: Blank(before) && Blank(after) && s == before + core + after {
      var before, after :| Blank(before) && Blank(after) && s == before + core + after;
      assert s == before + (core + after);
      TrimLeftPad(before, core + after);
      TrimRightPad(core, after);
    }
  }

  // ----- normalizeRef

  /** The pattern ^e[0-9]+$. */
  predicate IsRef(s: string) {
    |s| >= 2 && s[0] == 'e' && forall c :: c in s[1..] ==> IsDigit(c)
  }

  function NormalizeRef(target: string): string {
    var t := TrimSpace(target);
    var r := if "ref=" <= t then t[|"ref="|..] else t;
    if IsRef(r) then r else ""
  }

  lemma RefSolid(r: string)
    requires IsRef(r)
    ensures Solid(r) && Solid("ref=" + r) && !("ref=" <= r)
  {
    assert r[1..][|r| - 2] == r[|r| - 1];
    assert IsDigit(r[|r| - 1]);
  }

  /** A target is read as reference r if and only if it is r, or `ref=` and r, with blanks around it. */
  lemma NormalizeRefIs(target: string, r: string)
    requires IsRef(r)
    ensures NormalizeRef(target) == r <==>
            exists before, after :: Blank(before) && Blank(after)
              && (target == before + r + after || target == before + ("ref=" + r) + after)
  {
    RefSolid(r);
    TrimSpaceIs(target, r);
    TrimSpaceIs(target, "ref=" + r);
    assert ("ref=" + r)[|"ref="|..] == r;
    var t := TrimSpace(target);
    if NormalizeRef(target) == r {
      if "ref=" <= t {
        assert t == "ref=" + r;
      }
    }
  }

  // ----- the table of references

  /** The k-th reference, counted from 0. */
  function RefName(k: nat): string {
    "e" + Decimal(k + 1)
  }

  /** What a snapshot stores: reference e1, e2, ... for the backend ids of the rows that have one. */
  function RefTable(backends: seq<int>): map<string, int> {
    if backends == [] then map[]
    else RefTable(backends[..|backends| - 1])[RefName(|backends| - 1) := backends[|backends| - 1]]
  }

  lemma RefNameIsRef(k: nat)
    ensures IsRef(RefName(k))
  {
    DecimalReadsBack(k + 1);
    assert RefName(k)[1..] == Decimal(k + 1);
  }

  lemma RefNameInjective(j: nat, k: nat)
    requires RefName(j) == RefName(k)
    ensures j == k
  {
    assert RefName(j)[1..] == Decimal(j + 1) && RefName(k)[1..] == Decimal(k + 1);
    DecimalInjective(j + 1, k + 1);
  }

  /** The keys are exactly e1..eN, and ek stands for the k-th backend id. */
  lemma {:induction false} RefTableIs(backends: seq<int>, ref: string)
    ensures ref in RefTable(backends) <==> exists k: nat :: k < |backends| && ref == RefName(k)
    ensures forall k: nat :: k < |backends| && ref == RefName(k) ==> ref in RefTable(backends) && RefTable(backends)[ref] == backends[k]
  {
    if backends != [] {
      var n := |backends| - 1;
      RefTableIs(backends[..n], ref);
      forall k: nat | k < |backends| && ref == RefName(k) ensures ref in RefTable(backends) && RefTable(backends)[ref] == backends[k] {
        if ref == RefName(n) {
          RefNameInjective(k, n);
        } else {
          assert backends[..n][k] == backends[k];
        }
      }
      if ref in RefTable(backends) && ref != RefName(n) {
        var k: nat :| k < n && ref == RefName(k);
      }
    }
  }

  /** The node a target text stands for, if it is a reference of the table. */
  predicate Resolves(refs: map<string, int>, target: string, backend: int) {
    NormalizeRef(target) != "" && NormalizeRef(target) in refs && refs[NormalizeRef(target)] == backend
  }

  /** A printed reference, bare or after `ref=`, with blanks around it, leads back to the node it was printed for. */
  lemma RefRoundTrip(backends: seq<int>, k: nat, before: string, after: string)
    requires k < |backends| && Blank(before) && Blank(after)
    ensures Resolves(RefTable(backends), before + RefName(k) + after, backends[k])
    ensures Resolves(RefTable(backends), before + ("ref=" + RefName(k)) + after, backends[k])
  {
    RefNameIsRef(k);
    NormalizeRefIs(before + RefName(k) + after, RefName(k));
    NormalizeRefIs(before + ("ref=" + RefName(k)) + after, RefName(k));
    RefTableIs(backends, RefName(k));
  }

  /** And only printed references lead anywhere: e0, e01 or a number too high are refused. */
  lemma OnlyPrintedRefsResolve(backends: seq<int>, target: string, backend: int)
    requires Resolves(RefTable(backends), target, backend)
    ensures exists k: nat :: k < |backends| && NormalizeRef(target) == RefName(k) && backends[k] == backend
  {
    RefTableIs(backends, NormalizeRef(target));
    var k: nat :| k < |backends| && NormalizeRef(target) == RefName(k);
  }
}

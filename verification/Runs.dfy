/** Options, and runs of a state machine given by a partial next-state function. */
module Runs {
  datatype Option<+T> = None | Some(value: T)

  /** `t` is where the machine stands after taking `steps`, in order, from `s`. */
  ghost predicate Reaches<S(!new), A(!new)>(next: (S, A) -> Option<S>, s: S, steps: seq<A>, t: S)
    decreases |steps|
  {
    if steps == [] then s == t
    else next(s, steps[0]).Some? && Reaches(next, next(s, steps[0]).value, steps[1..], t)
  }

  /** A run can be continued by another. */
  lemma {:induction false} RunsJoin<S(!new), A(!new)>(next: (S, A) -> Option<S>, s: S, before: seq<A>, m: S, after: seq<A>, e: S)
    requires Reaches(next, s, before, m) && Reaches(next, m, after, e)
    ensures Reaches(next, s, before + after, e)
    decreases |before|
  {
    if before == [] {
      assert before + after == after;
    } else {
      RunsJoin(next, next(s, before[0]).value, before[1..], m, after, e);
      assert (before + after)[1..] == before[1..] + after;
    }
  }

  /** What every step keeps, every run keeps. */
  lemma {:induction false} RunKeeps<S(!new), A(!new)>(next: (S, A) -> Option<S>, inv: S -> bool, s: S, steps: seq<A>, t: S)
    requires forall x, a {:trigger next(x, a)} :: inv(x) && next(x, a).Some? ==> inv(next(x, a).value)
    requires inv(s) && Reaches(next, s, steps, t)
    ensures inv(t)
    decreases |steps|
  {
    if steps != [] {
      RunKeeps(next, inv, next(s, steps[0]).value, steps[1..], t);
    }
  }

  /** A relation that is reflexive, transitive and contains every step from a good state contains every run. */
  lemma {:induction false} RunRelates<S(!new), A(!new)>(next: (S, A) -> Option<S>, inv: S -> bool, rel: (S, S) -> bool,
                                    s: S, steps: seq<A>, t: S)
    requires forall x, a {:trigger next(x, a)} :: inv(x) && next(x, a).Some? ==>
               inv(next(x, a).value) && rel(x, next(x, a).value)
    requires forall x {:trigger rel(x, x)} :: rel(x, x)
    requires forall x, y, z {:trigger rel(x, y), rel(y, z)} :: rel(x, y) && rel(y, z) ==> rel(x, z)
    requires inv(s) && Reaches(next, s, steps, t)
    ensures rel(s, t) && inv(t)
    decreases |steps|
  {
    if steps == [] {
      assert rel(s, s);
    } else {
      RunRelates(next, inv, rel, next(s, steps[0]).value, steps[1..], t);
    }
  }

  // ----- reachable states

  ghost predicate ReachableFrom<S(!new), A(!new)>(next: (S, A) -> Option<S>, init: S, s: S) {
    exists steps :: Reaches(next, init, steps, s)
  }

  lemma InitReached<S(!new), A(!new)>(next: (S, A) -> Option<S>, init: S)
    ensures ReachableFrom(next, init, init)
  {
    assert Reaches(next, init, [], init);
  }

  lemma RunReached<S(!new), A(!new)>(next: (S, A) -> Option<S>, init: S, s: S, steps: seq<A>, e: S)
    requires ReachableFrom(next, init, s) && Reaches(next, s, steps, e)
    ensures ReachableFrom(next, init, e)
  {
    var before :| Reaches(next, init, before, s);
    RunsJoin(next, init, before, s, steps, e);
  }

  lemma StepReached<S(!new), A(!new)>(next: (S, A) -> Option<S>, init: S, s: S, a: A)
    requires ReachableFrom(next, init, s) && next(s, a).Some?
    ensures ReachableFrom(next, init, next(s, a).value)
  {
    assert [a][1..] == [];
    assert Reaches(next, next(s, a).value, [], next(s, a).value);
    assert Reaches(next, s, [a], next(s, a).value);
    RunReached(next, init, s, [a], next(s, a).value);
  }

  /** What holds at first and is kept by every step holds of every reachable state. */
  lemma KeptReached<S(!new), A(!new)>(next: (S, A) -> Option<S>, init: S, inv: S -> bool, s: S)
    requires forall x, a {:trigger next(x, a)} :: inv(x) && next(x, a).Some? ==> inv(next(x, a).value)
    requires inv(init) && ReachableFrom(next, init, s)
    ensures inv(s)
  {
    var steps :| Reaches(next, init, steps, s);
    RunKeeps(next, inv, init, steps, s);
  }
}

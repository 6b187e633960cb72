/**
 Runs of a step function, and the one induction that the theorems about conversations rest on: what
 holds between a state and a replay of what was said, and is kept by every step, holds throughout.
 */
module Automaton {
  import opened Wrappers

  datatype Step<C, X> = Step(after: C, said: seq<X>)

  ghost function After<C, X>(next: C -> Step<C, X>, c: C, n: nat): C {
    if n == 0 then c else After(next, next(c).after, n - 1)
  }

  ghost function SaidBy<C, X>(next: C -> Step<C, X>, c: C, n: nat): seq<X> {
    if n == 0 then [] else next(c).said + SaidBy(next, next(c).after, n - 1)
  }

  /** Folds what was said into a view, oldest first. */
  ghost function Replay<V, X>(hear: (V, X) -> V, v: V, xs: seq<X>): V
    decreases |xs|
  {
    if xs == [] then v else Replay(hear, hear(v, xs[0]), xs[1..])
  }

  lemma {:induction false} ReplayConcat<V, X>(hear: (V, X) -> V, v: V, xs: seq<X>, ys: seq<X>)
    ensures Replay(hear, v, xs + ys) == Replay(hear, Replay(hear, v, xs), ys)
    decreases |xs|
  {
    if xs == [] {
      assert xs + ys == ys;
    } else {
      assert (xs + ys)[1..] == xs[1..] + ys;
      ReplayConcat(hear, hear(v, xs[0]), xs[1..], ys);
    }
  }

  ghost predicate KeepsAgreement<C, X, V>(
    next: C -> Step<C, X>, hear: (V, X) -> V, agrees: (C, V) -> bool, c: C, v: V)
  {
    agrees(c, v) ==> agrees(next(c).after, Replay(hear, v, next(c).said))
  }

  /** The induction principle. */
  lemma {:induction false} StepsAgree<C(!new), X, V(!new)>(
    next: C -> Step<C, X>, hear: (V, X) -> V, agrees: (C, V) -> bool, c: C, v: V, n: nat)
    requires agrees(c, v)
    requires forall c', v' :: KeepsAgreement(next, hear, agrees, c', v')
    ensures agrees(After(next, c, n), Replay(hear, v, SaidBy(next, c, n)))
    decreases n
  {
    if n == 0 {
    } else {
      var step := next(c);
      assert KeepsAgreement(next, hear, agrees, c, v);
      StepsAgree(next, hear, agrees, step.after, Replay(hear, v, step.said), n - 1);
      ReplayConcat(hear, v, step.said, SaidBy(next, step.after, n - 1));
    }
  }

  /** When each step says one thing at most, everything that is said has a step that says it. */
  lemma {:induction false} SaidAt<C(!new), X>(next: C -> Step<C, X>, c: C, n: nat, i: nat) returns (k: nat)
    requires forall c' :: |next(c').said| <= 1
    requires i < |SaidBy(next, c, n)|
    ensures k < n && next(After(next, c, k)).said == [SaidBy(next, c, n)[i]]
    ensures SaidBy(next, c, k) == SaidBy(next, c, n)[..i]
    decreases n
  {
    var step := next(c);
    if i < |step.said| {
      k := 0;
    } else {
      var later := SaidBy(next, step.after, n - 1);
      k := SaidAt(next, step.after, n - 1, i - |step.said|);
      assert (step.said + later)[..i] == step.said + later[..i - |step.said|];
      k := k + 1;
    }
  }

  ghost predicate SaysOnly<C, X>(next: C -> Step<C, X>, p: X -> bool, c: C) {
    forall x :: x in next(c).said ==> p(x)
  }

  /** What every step says holds of everything that is said. */
  lemma {:induction false} StepsSayOnly<C(!new), X>(next: C -> Step<C, X>, p: X -> bool, c: C, n: nat)
    requires forall c' :: SaysOnly(next, p, c')
    ensures forall x :: x in SaidBy(next, c, n) ==> p(x)
    decreases n
  {
    if n == 0 {
    } else {
      assert SaysOnly(next, p, c);
      StepsSayOnly(next, p, next(c).after, n - 1);
    }
  }

  /** Everything a step says suits the view of what was said before it. */
  ghost predicate SaysFitly<C, X, V>(
    next: C -> Step<C, X>, hear: (V, X) -> V, agrees: (C, V) -> bool, fits: (V, X) -> bool, c: C, v: V)
  {
    agrees(c, v) ==>
      forall i :: 0 <= i < |next(c).said| ==> fits(Replay(hear, v, next(c).said[..i]), next(c).said[i])
  }

  /** If every step does, so does everything that is said. */
  lemma {:induction false} StepsFit<C(!new), X, V(!new)>(
    next: C -> Step<C, X>, hear: (V, X) -> V, agrees: (C, V) -> bool, fits: (V, X) -> bool, c: C, v: V, n: nat, i: nat)
    requires agrees(c, v)
    requires forall c', v' :: KeepsAgreement(next, hear, agrees, c', v')
    requires forall c', v' :: SaysFitly(next, hear, agrees, fits, c', v')
    requires i < |SaidBy(next, c, n)|
    ensures fits(Replay(hear, v, SaidBy(next, c, n)[..i]), SaidBy(next, c, n)[i])
    decreases n
  {
    var step := next(c);
    assert KeepsAgreement(next, hear, agrees, c, v) && SaysFitly(next, hear, agrees, fits, c, v);
    var later := SaidBy(next, step.after, n - 1);
    if i < |step.said| {
      assert (step.said + later)[..i] == step.said[..i];
    } else {
      var k := i - |step.said|;
      StepsFit(next, hear, agrees, fits, step.after, Replay(hear, v, step.said), n - 1, k);
      assert (step.said + later)[..i] == step.said + later[..k];
      ReplayConcat(hear, v, step.said, later[..k]);
    }
  }

  /** A view that only collects what is made of each exchange. */
  ghost function Collecting<V, X>(make: X -> V): (seq<V>, X) -> seq<V> {
    (vs: seq<V>, x: X) => vs + [make(x)]
  }

  ghost function Made<V, X>(make: X -> V, xs: seq<X>): (vs: seq<V>)
    ensures |vs| == |xs|
    ensures forall i :: 0 <= i < |xs| ==> vs[i] == make(xs[i])
  {
    seq(|xs|, i requires 0 <= i < |xs| => make(xs[i]))
  }

  lemma {:induction false} ReplayCollects<V, X>(make: X -> V, vs: seq<V>, xs: seq<X>)
    ensures Replay(Collecting(make), vs, xs) == vs + Made(make, xs)
    decreases |xs|
  {
    if xs == [] {
    } else {
      ReplayCollects(make, vs + [make(xs[0])], xs[1..]);
      assert vs + [make(xs[0])] + Made(make, xs[1..]) == vs + Made(make, xs);
    }
  }

  /** A step from a state that is not done ends the run or uses up some of what there is to use. */
  ghost predicate Consumes<C, X>(next: C -> Step<C, X>, done: C -> bool, size: C -> nat, quantum: nat, c: C) {
    if done(c) then next(c) == Step(c, [])
    else done(next(c).after) || size(next(c).after) + quantum <= size(c)
  }

  /** `run` is the recursive form of running to the end. */
  ghost predicate Unfolds<C, X>(next: C -> Step<C, X>, done: C -> bool, run: C -> C, c: C) {
    run(c) == if done(c) then c else run(next(c).after)
  }

  lemma {:induction false} StaysDone<C(!new), X>(next: C -> Step<C, X>, c: C, n: nat)
    requires next(c) == Step(c, [])
    ensures After(next, c, n) == c && SaidBy(next, c, n) == []
    decreases n
  {
    if n == 0 {
    } else {
      StaysDone(next, c, n - 1);
    }
  }

  lemma {:induction false} RunsToTheEnd<C(!new), X>(
    next: C -> Step<C, X>, done: C -> bool, size: C -> nat, quantum: nat, run: C -> C, c: C, n: nat)
    requires forall c' :: Consumes(next, done, size, quantum, c')
    requires forall c' :: Unfolds(next, done, run, c')
    requires size(c) < quantum * n
    ensures done(After(next, c, n)) && After(next, c, n) == run(c)
    decreases n
  {
    assert Consumes(next, done, size, quantum, c) && Unfolds(next, done, run, c);
    if done(c) {
      StaysDone(next, c, n);
    } else {
      var after := next(c).after;
      assert n > 0 && After(next, c, n) == After(next, after, n - 1);
      if done(after) {
        assert Consumes(next, done, size, quantum, after) && Unfolds(next, done, run, after);
        StaysDone(next, after, n - 1);
      } else {
        assert quantum * n == quantum * (n - 1) + quantum;
        RunsToTheEnd(next, done, size, quantum, run, after, n - 1);
      }
    }
  }

  // ---------------------------------------------------------------------------------------------
  // Runs of labelled actions

  /** None of the calls made in this stretch of time fails. */
  ghost predicate Unfailing(fails: nat -> bool, from: nat, until: nat) {
    forall i :: from <= i < until ==> !fails(i)
  }

  /** Calls were made one after another, all without failing, or up to the first that failed. */
  ghost predicate WentOn(fails: nat -> bool, from: nat, until: nat, failed: bool) {
    if failed then from < until && Unfailing(fails, from, until - 1) && fails(until - 1)
    else from <= until && Unfailing(fails, from, until)
  }

  lemma WentOnce(fails: nat -> bool, at: nat)
    ensures WentOn(fails, at, at + 1, fails(at))
  {
  }

  lemma WentFurther(fails: nat -> bool, from: nat, middle: nat, until: nat, failed: bool)
    requires WentOn(fails, from, middle, false) && WentOn(fails, middle, until, failed)
    ensures WentOn(fails, from, until, failed)
  {
  }

  /** The state after a run of actions, if every one of them was possible when its turn came. */
  ghost function Exec<S, A>(take: (S, A) -> Option<S>, s: S, run: seq<A>): Option<S>
    decreases |run|
  {
    if run == [] then Some(s)
    else
      match take(s, run[0])
      case None => None
      case Some(s') => Exec(take, s', run[1..])
  }

  lemma {:induction false} ExecConcat<S, A>(take: (S, A) -> Option<S>, s: S, some: seq<A>, more: seq<A>)
    requires Exec(take, s, some).Some?
    ensures Exec(take, s, some + more) == Exec(take, Exec(take, s, some).value, more)
    decreases |some|
  {
    if some == [] {
      assert some + more == more;
    } else {
      assert (some + more)[1..] == some[1..] + more;
      ExecConcat(take, take(s, some[0]).value, some[1..], more);
    }
  }

  lemma ExecAppend<S, A>(take: (S, A) -> Option<S>, s: S, run: seq<A>, a: A)
    requires Exec(take, s, run).Some?
    ensures Exec(take, s, run + [a]) == take(Exec(take, s, run).value, a)
  {
    ExecConcat(take, s, run, [a]);
    assert [a][1..] == [];
  }

  /** A run that is spelt out, state by state. */
  lemma {:induction false} ExecTrace<S, A>(take: (S, A) -> Option<S>, run: seq<A>, states: seq<S>)
    requires |states| == |run| + 1
    requires forall i :: 0 <= i < |run| ==> take(states[i], run[i]) == Some(states[i + 1])
    ensures Exec(take, states[0], run) == Some(states[|run|])
    decreases |run|
  {
    if run == [] {
    } else {
      ExecTrace(take, run[1..], states[1..]);
    }
  }

  /**
   The run is possible, and leads there. It is said of every run equal to it, which spares a proof that
   has no use for its actions from following them.
   */
  ghost predicate LeadsTo<S, A(!new)>(take: (S, A) -> Option<S>, s: S, run: seq<A>, end: S) {
    forall same: seq<A> :: same == run ==> Exec(take, s, same) == Some(end)
  }

  lemma LeadsFurther<S, A(!new)>(take: (S, A) -> Option<S>, s: S, run: seq<A>, end: S, a: A)
    requires LeadsTo(take, s, run, end) && take(end, a).Some?
    ensures LeadsTo(take, s, run + [a], take(end, a).value)
  {
    assert Exec(take, s, run) == Some(end);
    ExecAppend(take, s, run, a);
  }

  ghost predicate Keeps<S, A>(take: (S, A) -> Option<S>, inv: S -> bool, s: S, a: A) {
    inv(s) && take(s, a).Some? ==> inv(take(s, a).value)
  }

  lemma {:induction false} ExecKeeps<S(!new), A(!new)>(take: (S, A) -> Option<S>, inv: S -> bool, s: S, run: seq<A>)
    requires inv(s) && Exec(take, s, run).Some?
    requires forall s', a :: Keeps(take, inv, s', a)
    ensures inv(Exec(take, s, run).value)
    decreases |run|
  {
    if run == [] {
    } else {
      assert Keeps(take, inv, s, run[0]);
      ExecKeeps(take, inv, take(s, run[0]).value, run[1..]);
    }
  }
}

/** Runs of a state machine: finite ones by a sequence of actions, endless ones by a schedule, and runs
    of a machine that has only one action. */
module Runs {

  function Fold<S, A>(step: (S, A) -> S, s: S, actions: seq<A>): S {
    if actions == [] then s else step(Fold(step, s, actions[..|actions| - 1]), actions[|actions| - 1])
  }

  lemma {:induction false} FoldAppend<S, A>(step: (S, A) -> S, s: S, xs: seq<A>, ys: seq<A>)
    ensures Fold(step, s, xs + ys) == Fold(step, Fold(step, s, xs), ys)
  {
    if ys == [] {
      assert xs + ys == xs;
    } else {
      var n := |ys| - 1;
      assert (xs + ys)[..|xs| + n] == xs + ys[..n];
      FoldAppend(step, s, xs, ys[..n]);
    }
  }

  lemma FoldOne<S, A>(step: (S, A) -> S, s: S, a: A)
    ensures Fold(step, s, [a]) == step(s, a)
  {
    assert [a][..0] == [];
  }

  lemma FoldCons<S, A>(step: (S, A) -> S, s: S, a: A, rest: seq<A>)
    ensures Fold(step, s, [a] + rest) == Fold(step, step(s, a), rest)
  {
    FoldOne(step, s, a);
    FoldAppend(step, s, [a], rest);
  }

  /** The state after n turns of a schedule. */
  function At<S, A>(step: (S, A) -> S, s: S, f: nat -> A, n: nat): S {
    if n == 0 then s else step(At(step, s, f, n - 1), f(n - 1))
  }

  lemma {:induction false} AtIsFold<S, A>(step: (S, A) -> S, s: S, f: nat -> A, n: nat, actions: seq<A>)
    requires |actions| == n && forall i :: 0 <= i < n ==> actions[i] == f(i)
    ensures At(step, s, f, n) == Fold(step, s, actions)
  {
    if n > 0 { AtIsFold(step, s, f, n - 1, actions[..n - 1]); }
  }

  ghost predicate RunsAgain<A>(f: nat -> A, a: A, n: nat) {
    exists m: nat :: m >= n && f(m) == a
  }

  /** The rest of a schedule after n turns. */
  function Later<A>(f: nat -> A, n: nat): nat -> A {
    (i: nat) => f(n + i)
  }

  lemma {:induction false} AtLater<S, A>(step: (S, A) -> S, s: S, f: nat -> A, n: nat, m: nat)
    ensures At(step, At(step, s, f, n), Later(f, n), m) == At(step, s, f, n + m)
  {
    if m > 0 {
      AtLater(step, s, f, n, m - 1);
      assert n + m - 1 == n + (m - 1);
    }
  }

  lemma RunsAgainLater<A>(f: nat -> A, a: A, n: nat, k: nat)
    requires RunsAgain(f, a, n + k)
    ensures RunsAgain(Later(f, n), a, k)
  {
    var m := NextTurn(f, a, n + k);
    assert Later(f, n)(m - n) == a;
  }

  lemma NextTurn<A>(f: nat -> A, a: A, n: nat) returns (k: nat)
    requires RunsAgain(f, a, n)
    ensures k >= n && f(k) == a
  {
    k :| k >= n && f(k) == a;
  }

  // ---------------------------------------------------------------- one function again and again

  function Iterate<T>(f: T -> T, x: T, n: nat): T {
    if n == 0 then x else f(Iterate(f, x, n - 1))
  }

  lemma {:induction false} IterateAdd<T>(f: T -> T, x: T, m: nat, n: nat)
    ensures Iterate(f, x, m + n) == Iterate(f, Iterate(f, x, m), n)
  {
    if n > 0 {
      IterateAdd(f, x, m, n - 1);
      assert m + n - 1 == m + (n - 1);
    }
  }

  lemma IterateSum<T>(f: T -> T, x: T, m: nat, n: nat, k: nat)
    requires k == m + n
    ensures Iterate(f, x, k) == Iterate(f, Iterate(f, x, m), n)
  {
    IterateAdd(f, x, m, n);
  }

  lemma IterateFour<T>(f: T -> T, x: T)
    ensures Iterate(f, x, 4) == f(f(f(f(x))))
  {
    assert Iterate(f, x, 4) == f(Iterate(f, x, 3));
    assert Iterate(f, x, 2) == f(Iterate(f, x, 1));
  }
}

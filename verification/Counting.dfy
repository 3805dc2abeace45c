/** Counting the threads that are in a given stage. */
module Counting {

  function Number<T(==)>(ts: seq<T>, t: T): nat {
    if ts == [] then 0 else (if ts[0] == t then 1 else 0) + Number(ts[1..], t)
  }

  lemma {:induction false} NumberSet<T>(ts: seq<T>, i: nat, t: T, u: T)
    requires i < |ts|
    ensures Number(ts[i := t], u) == Number(ts, u) - (if ts[i] == u then 1 else 0) + (if t == u then 1 else 0)
  {
    if i == 0 {
      assert ts[i := t][1..] == ts[1..];
    } else {
      assert ts[i := t][1..] == ts[1..][i - 1 := t];
      NumberSet(ts[1..], i - 1, t, u);
    }
  }

  lemma {:induction false} NumberSnoc<T>(ts: seq<T>, t: T, u: T)
    ensures Number(ts + [t], u) == Number(ts, u) + (if t == u then 1 else 0)
  {
    if ts != [] {
      assert (ts + [t])[1..] == ts[1..] + [t];
      NumberSnoc(ts[1..], t, u);
    }
  }

  lemma {:induction false} Bounded<T>(ts: seq<T>, t: T)
    ensures Number(ts, t) <= |ts|
  {
    if ts != [] { Bounded(ts[1..], t); }
  }

  lemma {:induction false} Present<T>(ts: seq<T>, t: T)
    ensures Number(ts, t) > 0 <==> t in ts
  {
    if ts != [] { Present(ts[1..], t); }
  }

  lemma SetThread<T>(ts: seq<T>, i: nat, t: T)
    requires i < |ts|
    ensures forall u :: u in ts[i := t] ==> u == t || u in ts
  {
  }

  lemma Position<T>(ts: seq<T>, t: T) returns (i: nat)
    requires t in ts
    ensures i < |ts| && ts[i] == t
  {
    i :| 0 <= i < |ts| && ts[i] == t;
  }
}

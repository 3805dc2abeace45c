/** Sorting records by their first byte: what the insertion sort computes, and that this is the only
    arrangement that is ordered and keeps records with equal first bytes in their order. */
module StableSort {
  import opened Words

  type Record = r: seq<Byte> | |r| >= 1 witness [0]

  function Key(r: Record): Byte {
    r[0]
  }

  function Insert(s: seq<Record>, x: Record): (t: seq<Record>)
    ensures |t| == |s| + 1
  {
    if s == [] then [x]
    else if Key(x) < Key(s[|s| - 1]) then Insert(s[..|s| - 1], x) + [s[|s| - 1]]
    else s + [x]
  }

  function Sorted(s: seq<Record>): (t: seq<Record>)
    ensures |t| == |s|
  {
    if s == [] then [] else Insert(Sorted(s[..|s| - 1]), s[|s| - 1])
  }

  predicate Ordered(s: seq<Record>) {
    forall i, j :: 0 <= i < j < |s| ==> Key(s[i]) <= Key(s[j])
  }

  /** The records with key k, in their order. */
  function WithKey(s: seq<Record>, k: Byte): seq<Record> {
    if s == [] then [] else WithKey(s[..|s| - 1], k) + if Key(s[|s| - 1]) == k then [s[|s| - 1]] else []
  }

  predicate SameByKey(s: seq<Record>, t: seq<Record>) {
    forall k: Byte :: WithKey(s, k) == WithKey(t, k)
  }

  // ---------------------------------------------------------------- what Insert and Sorted do

  lemma WithKeySnoc(s: seq<Record>, x: Record, k: Byte)
    ensures WithKey(s + [x], k) == WithKey(s, k) + if Key(x) == k then [x] else []
  {
    assert (s + [x])[..|s|] == s;
  }

  lemma {:induction false} InsertAdds(s: seq<Record>, x: Record)
    ensures multiset(Insert(s, x)) == multiset(s) + multiset{x}
  {
    if s != [] && Key(x) < Key(s[|s| - 1]) {
      InsertAdds(s[..|s| - 1], x);
      assert s == s[..|s| - 1] + [s[|s| - 1]];
    }
  }

  predicate Below(s: seq<Record>, b: Byte) {
    forall i :: 0 <= i < |s| ==> Key(s[i]) <= b
  }

  lemma {:induction false} InsertBelow(s: seq<Record>, x: Record, b: Byte)
    requires Below(s, b) && Key(x) <= b
    ensures Below(Insert(s, x), b)
  {
    if s != [] { InsertBelow(s[..|s| - 1], x, b); }
  }

  lemma {:induction false} InsertOrders(s: seq<Record>, x: Record)
    requires Ordered(s)
    ensures Ordered(Insert(s, x))
  {
    if s != [] && Key(x) < Key(s[|s| - 1]) {
      InsertOrders(s[..|s| - 1], x);
      InsertBelow(s[..|s| - 1], x, Key(s[|s| - 1]));
    }
  }

  lemma {:induction false} InsertKeepsOrder(s: seq<Record>, x: Record, k: Byte)
    requires Ordered(s)
    ensures WithKey(Insert(s, x), k) == WithKey(s, k) + if Key(x) == k then [x] else []
  {
    if s != [] && Key(x) < Key(s[|s| - 1]) {
      var init, last := s[..|s| - 1], s[|s| - 1];
      InsertKeepsOrder(init, x, k);
      WithKeySnoc(Insert(init, x), last, k);
      if Key(x) == k { assert WithKey(s, k) == WithKey(init, k); }
      if Key(last) == k { assert WithKey(s, k) == WithKey(init, k) + [last]; }
    } else {
      WithKeySnoc(s, x, k);
    }
  }

  /** Ordered by first byte, a permutation, and stable. */
  lemma {:induction false} SortedIsStable(s: seq<Record>)
    ensures Ordered(Sorted(s))
    ensures multiset(Sorted(s)) == multiset(s)
    ensures SameByKey(Sorted(s), s)
  {
    if s != [] {
      var init, last := s[..|s| - 1], s[|s| - 1];
      SortedIsStable(init);
      InsertOrders(Sorted(init), last);
      InsertAdds(Sorted(init), last);
      assert s == init + [last];
      forall k: Byte
        ensures WithKey(Sorted(s), k) == WithKey(s, k)
      {
        InsertKeepsOrder(Sorted(init), last, k);
      }
    }
  }

  // ---------------------------------------------------------------- and nothing else does

  lemma {:induction false} Occurs(s: seq<Record>, k: Byte)
    ensures WithKey(s, k) != [] <==> exists i :: 0 <= i < |s| && Key(s[i]) == k
  {
    if s != [] { Occurs(s[..|s| - 1], k); }
  }

  lemma LastOccurs(s: seq<Record>)
    requires s != []
    ensures var k := Key(s[|s| - 1]);
            WithKey(s, k) != [] && WithKey(s, k)[|WithKey(s, k)| - 1] == s[|s| - 1]
  {
  }

  lemma LastIsGreatest(s: seq<Record>, t: seq<Record>)
    requires Ordered(s) && SameByKey(s, t) && t != []
    ensures s != [] && Key(t[|t| - 1]) <= Key(s[|s| - 1])
  {
    var k := Key(t[|t| - 1]);
    LastOccurs(t);
    assert WithKey(s, k) == WithKey(t, k);
    Occurs(s, k);
  }

  lemma SameBothWays(s: seq<Record>, t: seq<Record>)
    requires SameByKey(s, t)
    ensures SameByKey(t, s)
  {
    forall k: Byte
      ensures WithKey(t, k) == WithKey(s, k)
    {
      assert WithKey(s, k) == WithKey(t, k);
    }
  }

  lemma SomeLeft(s: seq<Record>, t: seq<Record>)
    requires SameByKey(s, t) && s != []
    ensures t != []
  {
    var k := Key(s[|s| - 1]);
    LastOccurs(s);
    assert WithKey(s, k) == WithKey(t, k);
  }

  lemma SameLast(s: seq<Record>, t: seq<Record>)
    requires Ordered(s) && Ordered(t) && SameByKey(s, t) && s != []
    ensures t != [] && s[|s| - 1] == t[|t| - 1]
  {
    SomeLeft(s, t);
    LastIsGreatest(s, t);
    SameBothWays(s, t);
    LastIsGreatest(t, s);
    LastOccurs(s);
    LastOccurs(t);
    var k := Key(s[|s| - 1]);
    assert WithKey(s, k) == WithKey(t, k);
  }

  lemma SamePrefix(a: seq<Record>, b: seq<Record>, tail: seq<Record>)
    requires a + tail == b + tail
    ensures a == b
  {
    assert a == (a + tail)[..|a + tail| - |tail|];
    assert b == (b + tail)[..|b + tail| - |tail|];
  }

  /** Only one arrangement is ordered and keeps the records of each key in their order. */
  lemma {:induction false} StableSortIsUnique(s: seq<Record>, t: seq<Record>)
    requires Ordered(s) && Ordered(t) && SameByKey(s, t)
    ensures s == t
  {
    if s == [] {
      if t != [] { SameLast(t, s); }
    } else {
      SameLast(s, t);
      var x := s[|s| - 1];
      var s', t' := s[..|s| - 1], t[..|t| - 1];
      assert s == s' + [x] && t == t' + [x];
      forall k: Byte
        ensures WithKey(s', k) == WithKey(t', k)
      {
        WithKeySnoc(s', x, k);
        WithKeySnoc(t', x, k);
        assert WithKey(s, k) == WithKey(t, k);
        SamePrefix(WithKey(s', k), WithKey(t', k), if Key(x) == k then [x] else []);
      }
      StableSortIsUnique(s', t');
    }
  }
}

/** For which numbers of clients, shaves and seats every fair run of the sleeping barber finishes, and a
    schedule that always does. */
module BarberEnds {
  import opened Arithmetic
  import opened Runs
  import opened Barber
  import opened BarberRuns

  // ---------------------------------------------------------------- taking turns

  /** The barber and then each client, over and over. */
  function InTurn(clients: nat): Schedule {
    (n: nat) => n % (clients + 1)
  }

  lemma TurnsRecur(clients: nat, who: nat, n: nat) returns (m: nat)
    requires who <= clients
    ensures m >= n && m % (clients + 1) == who
  {
    m := n * (clients + 1) + who;
    Remainder(m, clients + 1, n, who);
    assert n * (clients + 1) == n * clients + n;
    Order(0, n, clients + 1);
    assert n * clients >= 0;
  }

  lemma InTurnIsFair(s0: Shop, clients: nat)
    requires |s0.locals| == clients
    ensures Fair(s0, InTurn(clients))
  {
    forall who: nat, n: nat | who <= clients
      ensures RunsAgain(InTurn(clients), who, n)
    {
      var m := TurnsRecur(clients, who, n);
      assert InTurn(clients)(m) == who;
    }
  }

  /** The number of whoever is next; after the last client the barber counts as one more. */
  function NextNumber(clients: nat, n: nat): nat {
    var who := n % (clients + 1);
    if who == 0 then clients + 1 else who
  }

  lemma NextNumberGrows(clients: nat, n: nat)
    ensures var who := n % (clients + 1);
            NextNumber(clients, n + 1) == if who == 0 && clients == 0 then 1 else who + 1
  {
    var k := clients + 1;
    var q, r := n / k, n % k;
    assert n == q * k + r;
    if r + 1 < k {
      Remainder(n + 1, k, q, r + 1);
    } else {
      assert (q + 1) * k == q * k + k;
      Remainder(n + 1, k, q + 1, 0);
    }
  }

  /** The client that woke the barber has had its turn of this round. */
  ghost predicate WakerIsBehind(s: Shop, clients: nat, n: nat) {
    && Coupled(s) && |s.locals| == clients
    && (s.status == WAKES ==> s.clientPid < NextNumber(clients, n))
  }

  lemma WakerStaysBehind(s: Shop, clients: nat, n: nat)
    requires WakerIsBehind(s, clients, n)
    ensures WakerIsBehind(Turn(s, n % (clients + 1)).0, clients, n + 1)
    ensures Polite(s, n % (clients + 1))
  {
    var who := n % (clients + 1);
    TurnCoupled(s, who);
    TurnKeepsClients(s, who);
    NextNumberGrows(clients, n);
  }

  lemma {:induction false} WakerAlwaysBehind(s0: Shop, clients: nat, n: nat)
    requires WakerIsBehind(s0, clients, 0)
    ensures WakerIsBehind(StateAt(s0, InTurn(clients), n), clients, n)
  {
    if n > 0 {
      WakerAlwaysBehind(s0, clients, n - 1);
      WakerStaysBehind(StateAt(s0, InTurn(clients), n - 1), clients, n - 1);
    }
  }

  /** Taking turns is polite: the barber's turn comes before the waker's next. */
  lemma InTurnIsPolite(clients: nat, shaves: nat, length: int, garbage: nat)
    ensures PoliteRun(Initial(clients, shaves, length, garbage), InTurn(clients))
  {
    var s0 := Initial(clients, shaves, length, garbage);
    InitialCoupled(clients, shaves, length, garbage);
    forall n: nat
      ensures PoliteAt(s0, InTurn(clients), n)
    {
      WakerAlwaysBehind(s0, clients, n);
      WakerStaysBehind(StateAt(s0, InTurn(clients), n), clients, n);
    }
  }

  /** With any number of clients, shaves and seats everybody finishes if they take turns. */
  lemma InTurnFinishes(clients: nat, shaves: nat, length: int, garbage: nat) returns (m: nat)
    ensures FinishedAt(Initial(clients, shaves, length, garbage), InTurn(clients), m)
    ensures forall p :: 0 < p <= clients ==>
              Visits(Initial(clients, shaves, length, garbage), InTurn(clients), m, p) == shaves
  {
    InTurnIsPolite(clients, shaves, length, garbage);
    InTurnIsFair(Initial(clients, shaves, length, garbage), clients);
    m := EverybodyFinishes(clients, shaves, length, garbage, InTurn(clients));
  }

  // ---------------------------------------------------------------- a run that cannot finish any more

  /** The owner of the chair has exited before sitting down, and client p waits. */
  ghost predicate Doomed(s: Shop, p: nat) {
    && s.status in {SITS_FIRST, SITS}
    && IsClient(s, s.clientPid) && Of(s, s.clientPid).left == 0
    && Unfinished(s, p) && Of(s, p).client != 0
  }

  lemma StaysDoomed(s: Shop, who: nat, p: nat)
    requires Doomed(s, p)
    ensures Doomed(Turn(s, who).0, p)
  {
  }

  lemma {:induction false} DoomedForEver(s0: Shop, f: Schedule, n: nat, m: nat, p: nat)
    requires n <= m && Doomed(StateAt(s0, f, n), p)
    ensures Doomed(StateAt(s0, f, m), p)
    decreases m
  {
    if n < m {
      DoomedForEver(s0, f, n, m - 1, p);
      StaysDoomed(StateAt(s0, f, m - 1), f(m - 1), p);
    }
  }

  lemma DoomedNeverFinishes(s0: Shop, f: Schedule, n: nat, m: nat, p: nat)
    requires Doomed(StateAt(s0, f, n), p)
    ensures !FinishedAt(s0, f, m)
  {
    if FinishedAt(s0, f, m) {
      var k := if m <= n then n else m;
      StaysFinished(s0, f, m, k);
      DoomedForEver(s0, f, n, k, p);
    }
  }

  // ---------------------------------------------------------------- schedules that begin as one likes

  /** First the given turns, then everybody in turn. */
  function Then(prefix: seq<nat>, clients: nat): Schedule {
    (n: nat) => if n < |prefix| then prefix[n] else n % (clients + 1)
  }

  lemma ThenIsFair(s0: Shop, prefix: seq<nat>, clients: nat)
    requires |s0.locals| == clients
    ensures Fair(s0, Then(prefix, clients))
  {
    forall who: nat, n: nat | who <= clients
      ensures RunsAgain(Then(prefix, clients), who, n)
    {
      var m := TurnsRecur(clients, who, n + |prefix|);
      assert Then(prefix, clients)(m) == who;
    }
  }

  predicate Reaches(s0: Shop, prefix: seq<nat>, s: Shop) {
    Fold(Turns(), s0, prefix) == s
  }

  lemma Goes(s0: Shop, prefix: seq<nat>, s: Shop, who: nat) returns (longer: seq<nat>, t: Shop)
    requires Reaches(s0, prefix, s)
    ensures t == Turn(s, who).0 && Reaches(s0, longer, t)
  {
    longer, t := prefix + [who], Turn(s, who).0;
    assert longer[..|prefix|] == prefix;
  }

  lemma GoesOn(s0: Shop, xs: seq<nat>, s: Shop, ys: seq<nat>, t: Shop)
    requires Reaches(s0, xs, s) && Reaches(s, ys, t)
    ensures Reaches(s0, xs + ys, t)
  {
    FoldAppend(Turns(), s0, xs, ys);
  }

  lemma ThenReaches(s0: Shop, prefix: seq<nat>, clients: nat, s: Shop)
    requires Reaches(s0, prefix, s)
    ensures StateAt(s0, Then(prefix, clients), |prefix|) == s
  {
    AtIsFold(Turns(), s0, Then(prefix, clients), |prefix|, prefix);
  }

  // ---------------------------------------------------------------- how to get there

  /** Nobody is in the shop, and client 1 wants k more shaves. */
  function Empty(k: nat, others: seq<Local>, length: int, garbage: nat): Shop {
    Shop(INVITES, 0, 0, length, [], garbage, [Local(0, k)] + others)
  }

  /** The barber falls asleep and client 1 wakes him. */
  lemma Wakes(k: nat, others: seq<Local>, length: int, garbage: nat) returns (xs: seq<nat>, t: Shop)
    requires k > 0
    ensures var s0 := Empty(k, others, length, garbage);
            Reaches(s0, xs, t) && t == s0.(status := WAKES, clientPid := 1)
  {
    var s0 := Empty(k, others, length, garbage);
    assert Fold(Turns(), s0, []) == s0;
    xs, t := Goes(s0, [], s0, 0);
    assert t == s0.(status := SLEEP);
    xs, t := Goes(s0, xs, t, 1);
  }

  /** A client in the chair of an otherwise idle shop is shaved and leaves. */
  lemma Shaved(s: Shop, me: Local) returns (xs: seq<nat>, t: Shop)
    requires s.status == WAKES && s.clientPid == 1 && IsClient(s, 1) && me == Of(s, 1) && me.left > 0
    ensures Reaches(s, xs, t)
    ensures t == s.(status := INVITES, clientPid := 0, locals := s.locals[0 := Local(0, me.left - 1)])
  {
    assert Fold(Turns(), s, []) == s;
    xs, t := Goes(s, [], s, 0);
    assert t == s.(status := SITS_FIRST);
    xs, t := Goes(s, xs, t, 1);
    assert t == s.(status := START, locals := s.locals[0 := me.(client := 1)]);
    xs, t := Goes(s, xs, t, 0);
    xs, t := Goes(s, xs, t, 0);
    assert t == s.(status := LEAVES, locals := s.locals[0 := me.(client := 1)]);
    xs, t := Goes(s, xs, t, 1);
    assert s.locals[0 := me.(client := 1)][0 := Local(0, me.left - 1)] == s.locals[0 := Local(0, me.left - 1)];
  }

  /** Client 1 alone has all its shaves but the last. */
  lemma {:induction false} AllButTheLast(k: nat, others: seq<Local>, length: int, garbage: nat) returns (xs: seq<nat>)
    requires k > 0
    ensures Reaches(Empty(k, others, length, garbage), xs, Empty(1, others, length, garbage))
  {
    var s0 := Empty(k, others, length, garbage);
    xs := [];
    if k > 1 {
      var ys, s := Wakes(k, others, length, garbage);
      var zs, t := Shaved(s, Local(0, k));
      assert t == Empty(k - 1, others, length, garbage);
      GoesOn(s0, ys, s, zs, t);
      var rest := AllButTheLast(k - 1, others, length, garbage);
      GoesOn(s0, ys + zs, t, rest, Empty(1, others, length, garbage));
      xs := ys + zs + rest;
    }
  }

  /** One seat: client 2 takes it, and the waker leaves because of the full queue and exits. */
  lemma DoomedWithOneSeat(others: seq<Local>, garbage: nat) returns (xs: seq<nat>, t: Shop)
    requires others != [] && others[0].left > 0 && others[0].client == 0
    ensures Reaches(Empty(1, others, 1, garbage), xs, t) && Doomed(t, 2)
  {
    var s0 := Empty(1, others, 1, garbage);
    xs, t := Wakes(1, others, 1, garbage);
    xs, t := Goes(s0, xs, t, 2);
    assert t.locals == [Local(0, 1)] + others[0 := others[0].(client := 2)];
    xs, t := Goes(s0, xs, t, 1);
    assert t.locals == [Local(0, 0)] + others[0 := others[0].(client := 2)];
    xs, t := Goes(s0, xs, t, 0);
  }

  /** More seats: the waker sits down in the waiting room too; it is shaved and exits, its message is
      still there, and it is invited once more when client 2 comes in. */
  lemma DoomedWithMoreSeats(others: seq<Local>, length: int, garbage: nat) returns (xs: seq<nat>, t: Shop)
    requires length > 1 && others != [] && others[0].left > 0 && others[0].client == 0
    ensures Reaches(Empty(1, others, length, garbage), xs, t) && Doomed(t, 2)
  {
    var s0 := Empty(1, others, length, garbage);
    var ys, s := Wakes(1, others, length, garbage);
    ys, s := Goes(s0, ys, s, 1);
    assert s.locals == [Local(1, 1)] + others && s.queue == [1];
    var zs, u := Shaved(s, Local(1, 1));
    GoesOn(s0, ys, s, zs, u);
    assert u.locals == [Local(0, 0)] + others;
    xs, t := Goes(s0, ys + zs, u, 0);
    assert t == u.(status := SITS, clientPid := 1, msgPid := 1, queue := []);
    xs, t := Goes(s0, xs, t, 2);
    assert t.locals == [Local(0, 0)] + others[0 := others[0].(client := 2)];
  }

  /** With two clients, a shave and a seat there are turns after which nobody can help client 2. */
  lemma CanBeDoomed(clients: nat, shaves: nat, length: int, garbage: nat) returns (prefix: seq<nat>, t: Shop)
    requires clients > 1 && shaves > 0 && length > 0
    ensures Reaches(Initial(clients, shaves, length, garbage), prefix, t) && Doomed(t, 2)
  {
    var others: seq<Local> := seq(clients - 1, _ => Local(0, shaves));
    var s0 := Initial(clients, shaves, length, garbage);
    assert s0 == Empty(shaves, others, length, garbage);
    var xs := AllButTheLast(shaves, others, length, garbage);
    var ys;
    if length == 1 {
      ys, t := DoomedWithOneSeat(others, garbage);
    } else {
      ys, t := DoomedWithMoreSeats(others, length, garbage);
    }
    GoesOn(s0, xs, Empty(1, others, length, garbage), ys, t);
    prefix := xs + ys;
  }

  // ---------------------------------------------------------------- exactly when every fair run finishes

  ghost predicate AlwaysFinishes(s0: Shop) {
    forall f: Schedule :: Fair(s0, f) ==> exists m: nat :: FinishedAt(s0, f, m)
  }

  /** With one client, or without a seat, there is nobody to be left waiting. */
  lemma NobodyToWait(s: Shop)
    requires Coupled(s) && (|s.locals| <= 1 || Room(s) == 0)
    ensures !Abandoned(s)
  {
    assert Room(s) == 0 ==> s.queue == [];
    assert forall p :: Unfinished(s, p) && Of(s, p).client != 0 ==> p in s.queue || InChair(s, p);
  }

  lemma TurnKeepsRoom(s: Shop, who: nat)
    ensures Room(Turn(s, who).0) == Room(s)
  {
  }

  lemma {:induction false} RunKeepsRoom(s0: Shop, f: Schedule, n: nat)
    ensures Room(StateAt(s0, f, n)) == Room(s0)
  {
    if n > 0 {
      RunKeepsRoom(s0, f, n - 1);
      TurnKeepsRoom(StateAt(s0, f, n - 1), f(n - 1));
    }
  }

  lemma FinishesAlone(s0: Shop, f: Schedule)
    requires Coupled(s0) && Fair(s0, f) && (|s0.locals| <= 1 || Room(s0) == 0)
    ensures exists m: nat :: FinishedAt(s0, f, m)
  {
    forall n: nat
      ensures !AbandonedAt(s0, f, n)
    {
      RunCoupled(s0, f, n);
      RunKeepsClients(s0, f, n);
      RunKeepsRoom(s0, f, n);
      NobodyToWait(StateAt(s0, f, n));
    }
    FinishesIffNeverAbandoned(s0, f);
  }

  /** Every fair run finishes, whatever the waker does, if and only if there is at most one client, or no
      shave is wanted, or the waiting room has no seat. */
  lemma AlwaysFinishesIff(clients: nat, shaves: nat, length: int, garbage: nat)
    ensures AlwaysFinishes(Initial(clients, shaves, length, garbage)) <==>
            clients <= 1 || shaves == 0 || length <= 0
  {
    var s0 := Initial(clients, shaves, length, garbage);
    InitialCoupled(clients, shaves, length, garbage);
    if clients <= 1 || shaves == 0 || length <= 0 {
      forall f: Schedule | Fair(s0, f)
        ensures exists m: nat :: FinishedAt(s0, f, m)
      {
        if shaves == 0 {
          assert FinishedAt(s0, f, 0);
        } else {
          FinishesAlone(s0, f);
        }
      }
    } else {
      var prefix, t := CanBeDoomed(clients, shaves, length, garbage);
      var f := Then(prefix, clients);
      ThenIsFair(s0, prefix, clients);
      ThenReaches(s0, prefix, clients, t);
      forall m: nat
        ensures !FinishedAt(s0, f, m)
      {
        DoomedNeverFinishes(s0, f, |prefix|, m, 2);
      }
    }
  }
}

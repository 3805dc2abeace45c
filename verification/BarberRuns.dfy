/** Whole runs of the sleeping barber: the order of service and the life of the chair on every
    schedule, the bound on the work, and progress. */
module BarberRuns {
  import opened Barber
  import opened Runs

  // ---------------------------------------------------------------- order of service

  function JoinsIn(e: Event): seq<nat> {
    if e.SitsInWaitingRoom? then [e.p] else []
  }

  function InvitedIn(e: Event): seq<nat> {
    if e.Invites? then [e.p] else []
  }

  function Joined(s0: Shop, f: Schedule, n: nat): seq<nat> {
    if n == 0 then [] else Joined(s0, f, n - 1) + JoinsIn(EventAt(s0, f, n - 1))
  }

  function Invited(s0: Shop, f: Schedule, n: nat): seq<nat> {
    if n == 0 then [] else Invited(s0, f, n - 1) + InvitedIn(EventAt(s0, f, n - 1))
  }

  lemma TurnInOrder(s: Shop, who: nat)
    requires Coupled(s)
    ensures InvitedIn(Turn(s, who).1) + Turn(s, who).0.queue == s.queue + JoinsIn(Turn(s, who).1)
  {
    if s.queue != [] { assert s.queue == [s.queue[0]] + s.queue[1..]; }
  }

  lemma Splice(before: seq<nat>, i: seq<nat>, q: seq<nat>, j: seq<nat>, t: seq<nat>)
    requires i + t == q + j
    ensures (before + i) + t == (before + q) + j
  {
    assert (before + i) + t == before + (i + t);
  }

  /** Those who were invited and those who still wait are those who joined, in the same order. */
  ghost predicate Served(s0: Shop, f: Schedule, n: nat) {
    Invited(s0, f, n) + StateAt(s0, f, n).queue == Joined(s0, f, n)
  }

  lemma ServedNext(s0: Shop, f: Schedule, m: nat, n: nat)
    requires n == m + 1 && Coupled(s0) && Served(s0, f, m)
    ensures Served(s0, f, n)
  {
    RunCoupled(s0, f, m);
    var s := StateAt(s0, f, m);
    var (t, e) := Turn(s, f(m));
    TurnInOrder(s, f(m));
    Splice(Invited(s0, f, m), InvitedIn(e), s.queue, JoinsIn(e), t.queue);
  }

  /** Clients are invited in the order in which they sat down in the waiting room. */
  lemma {:induction false} FirstComeFirstServed(s0: Shop, f: Schedule, n: nat)
    requires Coupled(s0) && s0.queue == []
    ensures Served(s0, f, n)
  {
    if n == 0 {
      assert StateAt(s0, f, n) == s0;
    } else {
      FirstComeFirstServed(s0, f, n - 1);
      ServedNext(s0, f, n - 1, n);
    }
  }

  // ---------------------------------------------------------------- the life of the chair

  /** One use of the chair: after the barber was woken, or by invitation from the waiting room. */
  datatype Cycle = ByWaking(p: nat) | ByInvitation(p: nat)

  function Story(c: Cycle): seq<Event> {
    match c
    case ByWaking(p) =>
      [FallsAsleep, WakesBarber(p), BarberWakes, SitsOnChair(p), StartsCutting(p), EndsCutting(p), Leaves(p)]
    case ByInvitation(p) =>
      [Invites(p), SitsOnChair(p), StartsCutting(p), EndsCutting(p), Leaves(p)]
  }

  function Stories(cs: seq<Cycle>): seq<Event> {
    if cs == [] then [] else Stories(cs[..|cs| - 1]) + Story(cs[|cs| - 1])
  }

  predicate AboutChair(e: Event) {
    !e.Idle? && !e.LeavesFull? && !e.SitsInWaitingRoom?
  }

  function ChairEvents(s0: Shop, f: Schedule, n: nat): seq<Event> {
    if n == 0 then [] else
      ChairEvents(s0, f, n - 1) + if AboutChair(EventAt(s0, f, n - 1)) then [EventAt(s0, f, n - 1)] else []
  }

  /** The status after the first k events of a cycle. */
  function StatusIn(c: Cycle, k: nat): Status
    requires k < |Story(c)|
  {
    if c.ByWaking? then [INVITES, SLEEP, WAKES, SITS_FIRST, START, END, LEAVES][k]
    else [INVITES, SITS, START, END, LEAVES][k]
  }

  predicate InCycle(s: Shop, c: Cycle, k: nat) {
    && k < |Story(c)| && s.status == StatusIn(c, k)
    && (s.clientPid != 0 ==> s.clientPid == c.p)
  }

  /** One turn in a cycle: it adds nothing about the chair, or the cycle's next event. */
  lemma TurnInCycle(s: Shop, who: nat, c: Cycle, k: nat) returns (c': Cycle)
    requires Coupled(s) && InCycle(s, c, k)
    ensures var (t, e) := Turn(s, who);
            if !AboutChair(e) then c' == c && InCycle(t, c, k)
            else && k < |Story(c')| && Story(c')[..k] == Story(c)[..k] && Story(c')[k] == e
                 && if k + 1 == |Story(c')| then t.status == INVITES && t.clientPid == 0 else InCycle(t, c', k + 1)
  {
    var (t, e) := Turn(s, who);
    c' := if e.Invites? then ByInvitation(e.p)
          else if e.WakesBarber? then ByWaking(e.p)
          else if e.FallsAsleep? then ByWaking(0) else c;
  }

  lemma StoriesSnoc(cs: seq<Cycle>, c: Cycle)
    ensures Stories(cs + [c]) == Stories(cs) + Story(c)
  {
    assert (cs + [c])[..|cs|] == cs;
  }

  /** `log` is made of the whole cycles `cs` and the first k events of `c`. */
  predicate Told(log: seq<Event>, cs: seq<Cycle>, c: Cycle, k: nat) {
    k <= |Story(c)| && log == Stories(cs) + Story(c)[..k]
  }

  lemma TellNext(log: seq<Event>, cs: seq<Cycle>, c: Cycle, k: nat, c': Cycle, e: Event)
    requires Told(log, cs, c, k)
    requires k < |Story(c')| && Story(c')[..k] == Story(c)[..k] && Story(c')[k] == e
    ensures Told(log + [e], cs, c', k + 1)
    ensures k + 1 == |Story(c')| ==> forall d :: Told(log + [e], cs + [c'], d, 0)
  {
    assert Story(c')[..k] + [e] == Story(c')[..k + 1];
    assert log + [e] == Stories(cs) + Story(c')[..k + 1];
    if k + 1 == |Story(c')| {
      assert Story(c')[..k + 1] == Story(c');
      StoriesSnoc(cs, c');
      forall d: Cycle
        ensures Told(log + [e], cs + [c'], d, 0)
      {
        assert Story(d)[..0] == [];
      }
    }
  }

  lemma EventsNext(s0: Shop, f: Schedule, n: nat, s: Shop, log: seq<Event>)
    requires s == StateAt(s0, f, n) && log == ChairEvents(s0, f, n)
    ensures var (t, e) := Turn(s, f(n));
            && StateAt(s0, f, n + 1) == t
            && ChairEvents(s0, f, n + 1) == log + if AboutChair(e) then [e] else []
  {
  }

  lemma CycleNext(s: Shop, who: nat, log: seq<Event>, cs: seq<Cycle>, c: Cycle, k: nat)
    returns (cs': seq<Cycle>, c': Cycle, k': nat)
    requires Coupled(s) && InCycle(s, c, k) && Told(log, cs, c, k)
    ensures var (t, e) := Turn(s, who);
            InCycle(t, c', k') && Told(log + if AboutChair(e) then [e] else [], cs', c', k')
  {
    var e := Turn(s, who).1;
    c' := TurnInCycle(s, who, c, k);
    cs', k' := cs, k;
    if AboutChair(e) {
      TellNext(log, cs, c, k, c', e);
      if k + 1 == |Story(c')| {
        cs', c', k' := cs + [c'], ByWaking(0), 0;
      } else {
        k' := k + 1;
      }
    } else {
      assert log + [] == log;
    }
  }

  lemma CycleNextAt(s0: Shop, f: Schedule, n: nat, cs: seq<Cycle>, c: Cycle, k: nat)
    returns (cs': seq<Cycle>, c': Cycle, k': nat)
    requires Coupled(s0) && InCycle(StateAt(s0, f, n), c, k) && Told(ChairEvents(s0, f, n), cs, c, k)
    ensures InCycle(StateAt(s0, f, n + 1), c', k') && Told(ChairEvents(s0, f, n + 1), cs', c', k')
  {
    RunCoupled(s0, f, n);
    EventsNext(s0, f, n, StateAt(s0, f, n), ChairEvents(s0, f, n));
    cs', c', k' := CycleNext(StateAt(s0, f, n), f(n), ChairEvents(s0, f, n), cs, c, k);
  }

  /** On every schedule the events about the chair are whole cycles and the start of one more; in
      each of them a single client wakes or is invited, sits, is shaved and leaves. */
  lemma {:induction false} ChairCycles(s0: Shop, f: Schedule, n: nat) returns (cs: seq<Cycle>, c: Cycle, k: nat)
    requires Coupled(s0) && s0.status == INVITES
    ensures InCycle(StateAt(s0, f, n), c, k)
    ensures Told(ChairEvents(s0, f, n), cs, c, k)
  {
    if n == 0 {
      cs, c, k := [], ByWaking(0), 0;
    } else {
      cs, c, k := ChairCycles(s0, f, n - 1);
      cs, c, k := CycleNextAt(s0, f, n - 1, cs, c, k);
    }
  }

  // ---------------------------------------------------------------- the visits

  /** A client's visit ends when it leaves shaved or is turned away. */
  function VisitEndsIn(e: Event, p: nat): nat {
    if e == Leaves(p) || e == LeavesFull(p) then 1 else 0
  }

  function Visits(s0: Shop, f: Schedule, n: nat, p: nat): nat {
    if n == 0 then 0 else Visits(s0, f, n - 1, p) + VisitEndsIn(EventAt(s0, f, n - 1), p)
  }

  lemma VisitInTurn(s: Shop, who: nat, p: nat)
    requires IsClient(s, p)
    ensures IsClient(Turn(s, who).0, p)
    ensures Of(Turn(s, who).0, p).left + VisitEndsIn(Turn(s, who).1, p) == Of(s, p).left
  {
  }

  ghost predicate Accounted(s0: Shop, f: Schedule, n: nat, p: nat)
    requires IsClient(s0, p)
  {
    IsClient(StateAt(s0, f, n), p) && Visits(s0, f, n, p) + Of(StateAt(s0, f, n), p).left == Of(s0, p).left
  }

  lemma VisitNext(s0: Shop, f: Schedule, m: nat, n: nat, p: nat)
    requires n == m + 1 && IsClient(s0, p) && Accounted(s0, f, m, p)
    ensures Accounted(s0, f, n, p)
  {
    VisitInTurn(StateAt(s0, f, m), f(m), p);
  }

  /** On every schedule, the visits a client has made and those it still wants are those it came for. */
  lemma {:induction false} VisitsAreCounted(s0: Shop, f: Schedule, n: nat, p: nat)
    requires IsClient(s0, p)
    ensures Accounted(s0, f, n, p)
  {
    if n > 0 {
      VisitsAreCounted(s0, f, n - 1, p);
      VisitNext(s0, f, n - 1, n, p);
    }
  }

  /** A client is turned away only when every seat is taken: by those in the queue and, while status is
      SITS, the one invited from it. */
  lemma TurnedAwayWhenFull(s: Shop, p: nat)
    requires Coupled(s) && IsClient(s, p)
    ensures ClientStep(s, p).1 == LeavesFull(p) ==> |s.queue| + (if s.status == SITS then 1 else 0) == Room(s)
    ensures ClientStep(s, p).1 == SitsInWaitingRoom(p) ==> |s.queue| + (if s.status == SITS then 1 else 0) < Room(s)
  {
  }

  /** A client outside, unless it is being served: it wakes a sleeping barber, stands by while the barber
      looks for the next client, and else sits down if there is a seat and leaves if there is none. */
  lemma Arrives(s: Shop, p: nat)
    requires Coupled(s) && IsClient(s, p) && Of(s, p).left > 0 && Of(s, p).client == 0
    requires s.clientPid != p || s.status == WAKES
    ensures ClientStep(s, p).1 ==
            if s.status == SLEEP then WakesBarber(p)
            else if s.status == INVITES then Idle
            else if |s.queue| + (if s.status == SITS then 1 else 0) < Room(s) then SitsInWaitingRoom(p)
            else LeavesFull(p)
  {
  }

  // ---------------------------------------------------------------- the amount of work

  function TotalLeft(ls: seq<Local>): nat {
    if ls == [] then 0 else ls[0].left + TotalLeft(ls[1..])
  }

  /** Clients that are neither waiting nor sitting. */
  function Outside(ls: seq<Local>): nat {
    if ls == [] then 0 else (if ls[0].client == 0 then 1 else 0) + Outside(ls[1..])
  }

  lemma {:induction false} UpdateTotals(ls: seq<Local>, i: nat, l: Local)
    requires i < |ls|
    ensures TotalLeft(ls[i := l]) == TotalLeft(ls) - ls[i].left + l.left
    ensures Outside(ls[i := l]) == Outside(ls) - (if ls[i].client == 0 then 1 else 0) + (if l.client == 0 then 1 else 0)
  {
    if i == 0 {
      assert ls[i := l][1..] == ls[1..];
    } else {
      assert ls[i := l][1..] == ls[1..][i - 1 := l];
      UpdateTotals(ls[1..], i - 1, l);
    }
  }

  function Rank(st: Status): nat {
    match st
    case INVITES => 7
    case SLEEP => 6
    case WAKES => 5
    case SITS_FIRST => 4
    case SITS => 4
    case START => 3
    case END => 2
    case LEAVES => 1
  }

  /** The work that is left. */
  function Work(s: Shop): nat {
    8 * TotalLeft(s.locals) + Outside(s.locals) + Rank(s.status)
  }

  /** Every turn that does something uses up some work, on every schedule. */
  lemma TurnWorks(s: Shop, who: nat)
    ensures Turn(s, who).1 == Idle ==> Turn(s, who).0 == s
    ensures Turn(s, who).1 != Idle ==> Work(Turn(s, who).0) < Work(s)
  {
    if IsClient(s, who) {
      var t := Turn(s, who).0;
      UpdateTotals(s.locals, who - 1, t.locals[who - 1]);
      if t.locals == s.locals {
      } else {
        assert t.locals == s.locals[who - 1 := t.locals[who - 1]];
      }
    }
  }

  function Busy(s0: Shop, f: Schedule, n: nat): nat {
    if n == 0 then 0 else Busy(s0, f, n - 1) + if EventAt(s0, f, n - 1) == Idle then 0 else 1
  }

  ghost predicate WithinWork(s0: Shop, f: Schedule, n: nat) {
    Busy(s0, f, n) + Work(StateAt(s0, f, n)) <= Work(s0)
  }

  lemma BusyNext(s0: Shop, f: Schedule, m: nat, n: nat)
    requires n == m + 1 && WithinWork(s0, f, m)
    ensures WithinWork(s0, f, n)
  {
    TurnWorks(StateAt(s0, f, m), f(m));
  }

  /** The number of turns that do something is bounded by the work there is at the start. */
  lemma {:induction false} BusyIsBounded(s0: Shop, f: Schedule, n: nat)
    ensures WithinWork(s0, f, n)
  {
    if n > 0 {
      BusyIsBounded(s0, f, n - 1);
      BusyNext(s0, f, n - 1, n);
    }
  }

  lemma {:induction false} TotalsOfEqual(ls: seq<Local>, shaves: nat)
    requires forall i :: 0 <= i < |ls| ==> ls[i] == Local(0, shaves)
    ensures TotalLeft(ls) == |ls| * shaves && Outside(ls) == |ls|
  {
    if ls != [] {
      TotalsOfEqual(ls[1..], shaves);
      assert |ls| * shaves == shaves + (|ls| - 1) * shaves;
    }
  }

  /** In figures: at most eight turns for each shave, one for each client and seven more. */
  lemma BusyInFigures(clients: nat, shaves: nat, length: int, garbage: nat, f: Schedule, n: nat)
    ensures Busy(Initial(clients, shaves, length, garbage), f, n) <= 8 * (clients * shaves) + clients + 7
  {
    var s0 := Initial(clients, shaves, length, garbage);
    TotalsOfEqual(s0.locals, shaves);
    BusyIsBounded(s0, f, n);
    assert Work(s0) == 8 * (clients * shaves) + clients + 7;
  }

  // ---------------------------------------------------------------- getting stuck

  predicate Unfinished(s: Shop, p: nat) {
    IsClient(s, p) && Of(s, p).left > 0
  }

  /** Nobody can do anything. */
  ghost predicate Stuck(s: Shop) {
    forall who: nat :: Turn(s, who).1 == Idle
  }

  /** The client that the chair is reserved for has exited, and everybody else waits for it. */
  ghost predicate ChairAbandoned(s: Shop) {
    && s.status in {SITS_FIRST, SITS, LEAVES}
    && IsClient(s, s.clientPid) && Of(s, s.clientPid).left == 0
    && forall p :: Unfinished(s, p) ==> Of(s, p).client != 0
  }

  /** The only way to get stuck with work undone, on any schedule. */
  lemma StuckIffChairAbandoned(s: Shop, p: nat)
    requires Coupled(s) && Unfinished(s, p)
    ensures Stuck(s) <==> ChairAbandoned(s)
  {
    assert Turn(s, 0) == BarberStep(s);
    assert Turn(s, p) == ClientStep(s, p);
    if Stuck(s) {
      assert s.status in {SITS_FIRST, SITS, LEAVES};
      assert Turn(s, s.clientPid) == ClientStep(s, s.clientPid);
      forall q | Unfinished(s, q)
        ensures Of(s, q).client != 0
      {
        assert Turn(s, q) == ClientStep(s, q);
      }
    }
  }

  // ---------------------------------------------------------------- progress

  /** The client that woke the barber waits until it has been noticed. */
  predicate Polite(s: Shop, who: nat) {
    s.status == WAKES ==> who != s.clientPid
  }

  predicate Distinct(q: seq<nat>) {
    forall i, j :: 0 <= i < j < |q| ==> q[i] != q[j]
  }

  lemma DistinctTail(q: seq<nat>)
    requires Distinct(q) && q != []
    ensures Distinct(q[1..]) && q[0] !in q[1..]
    ensures forall p: nat :: p in q <==> p == q[0] || p in q[1..]
  {
  }

  /** What polite schedules keep in addition: a client is in one place at a time, and nobody who is
      waiting or sitting has exited. */
  ghost predicate Orderly(s: Shop) {
    && Coupled(s)
    && Distinct(s.queue)
    && s.clientPid !in s.queue
    && (s.clientPid != 0 ==> Unfinished(s, s.clientPid))
    && (s.clientPid != 0 ==> (Of(s, s.clientPid).client != 0 <==> InChair(s, s.clientPid)))
    && (forall p :: p in s.queue ==> Unfinished(s, p) && Of(s, p).client != 0)
  }

  lemma BarberOrderly(s: Shop)
    requires Orderly(s)
    ensures Orderly(BarberStep(s).0)
  {
    TurnCoupled(s, 0);
    assert Turn(s, 0) == BarberStep(s);
    assert 0 !in s.queue;
    if s.queue != [] { DistinctTail(s.queue); }
  }

  lemma ClientOrderly(s: Shop, p: nat)
    requires Orderly(s) && IsClient(s, p) && Polite(s, p)
    ensures Orderly(ClientStep(s, p).0)
  {
    TurnCoupled(s, p);
    assert Turn(s, p) == ClientStep(s, p);
    var t := ClientStep(s, p).0;
    assert 0 !in s.queue;
    assert forall q :: IsClient(s, q) && q != p ==> Of(t, q) == Of(s, q);
  }

  lemma TurnOrderly(s: Shop, who: nat)
    requires Orderly(s) && Polite(s, who)
    ensures Orderly(Turn(s, who).0)
  {
    if who == 0 {
      BarberOrderly(s);
    } else if IsClient(s, who) {
      ClientOrderly(s, who);
    }
  }

  /** On a polite schedule, while a client still wants a shave somebody can do something useful, and
      is allowed to. */
  lemma SomebodyCanWork(s: Shop, p: nat) returns (who: nat)
    requires Orderly(s) && Unfinished(s, p)
    ensures Polite(s, who) && Turn(s, who).1 != Idle
    ensures who <= |s.locals|
  {
    who := if s.status == SLEEP then p else if s.status in {SITS_FIRST, SITS, LEAVES} then s.clientPid else 0;
  }

  predicate PoliteAt(s0: Shop, f: Schedule, n: nat) {
    Polite(StateAt(s0, f, n), f(n))
  }

  ghost predicate PoliteRun(s0: Shop, f: Schedule) {
    forall n: nat :: PoliteAt(s0, f, n)
  }

  ghost predicate Fair(s0: Shop, f: Schedule) {
    forall who: nat, n: nat :: who <= |s0.locals| ==> RunsAgain(f, who, n)
  }

  lemma TurnKeepsClients(s: Shop, who: nat)
    ensures |Turn(s, who).0.locals| == |s.locals|
  {
  }

  lemma {:induction false} RunOrderly(s0: Shop, f: Schedule, n: nat)
    requires Orderly(s0) && PoliteRun(s0, f)
    ensures Orderly(StateAt(s0, f, n))
  {
    if n > 0 {
      RunOrderly(s0, f, n - 1);
      var s := StateAt(s0, f, n - 1);
      assert PoliteAt(s0, f, n - 1);
      TurnOrderly(s, f(n - 1));
    }
  }

  /** From n to m either nothing happens or some work is used up. */
  lemma {:induction false} Between(s0: Shop, f: Schedule, n: nat, m: nat)
    requires n <= m
    ensures StateAt(s0, f, m) == StateAt(s0, f, n) || Work(StateAt(s0, f, m)) < Work(StateAt(s0, f, n))
    decreases m
  {
    if n < m {
      Between(s0, f, n, m - 1);
      TurnWorks(StateAt(s0, f, m - 1), f(m - 1));
    }
  }

  ghost predicate AllFinished(s: Shop) {
    forall p :: IsClient(s, p) ==> Of(s, p).left == 0
  }

  /** A turn that can do something now still uses up work when it comes later. */
  lemma WorksLater(s0: Shop, f: Schedule, n: nat, k: nat)
    requires n <= k && Turn(StateAt(s0, f, n), f(k)).1 != Idle
    ensures Work(StateAt(s0, f, k + 1)) < Work(StateAt(s0, f, n))
  {
    Between(s0, f, n, k);
    TurnWorks(StateAt(s0, f, k), f(k));
  }

  lemma {:induction false} RunKeepsClients(s0: Shop, f: Schedule, n: nat)
    ensures |StateAt(s0, f, n).locals| == |s0.locals|
  {
    if n > 0 {
      RunKeepsClients(s0, f, n - 1);
      TurnKeepsClients(StateAt(s0, f, n - 1), f(n - 1));
    }
  }

  /** The chair is abandoned while somebody still wants a shave. */
  ghost predicate Abandoned(s: Shop) {
    ChairAbandoned(s) && exists p :: Unfinished(s, p)
  }

  ghost predicate AbandonedAt(s0: Shop, f: Schedule, n: nat) {
    Abandoned(StateAt(s0, f, n))
  }

  ghost predicate FinishedAt(s0: Shop, f: Schedule, n: nat) {
    AllFinished(StateAt(s0, f, n))
  }

  lemma NotStuck(s: Shop, p: nat) returns (who: nat)
    requires Coupled(s) && Unfinished(s, p) && !ChairAbandoned(s)
    ensures who <= |s.locals| && Turn(s, who).1 != Idle
  {
    StuckIffChairAbandoned(s, p);
    who :| Turn(s, who).1 != Idle;
  }

  /** Unless the chair is abandoned, some work is used up sooner or later. */
  lemma WorksAgain(s0: Shop, f: Schedule, n: nat, p: nat) returns (m: nat)
    requires Coupled(s0) && Fair(s0, f)
    requires Unfinished(StateAt(s0, f, n), p) && !ChairAbandoned(StateAt(s0, f, n))
    ensures m > n && Work(StateAt(s0, f, m)) < Work(StateAt(s0, f, n))
  {
    RunCoupled(s0, f, n);
    RunKeepsClients(s0, f, n);
    var who := NotStuck(StateAt(s0, f, n), p);
    var k := NextTurn(f, who, n);
    WorksLater(s0, f, n, k);
    m := k + 1;
  }

  lemma {:induction false} FinishesFrom(s0: Shop, f: Schedule, n: nat) returns (m: nat)
    requires Coupled(s0) && Fair(s0, f) && forall k: nat :: !AbandonedAt(s0, f, k)
    ensures m >= n && FinishedAt(s0, f, m)
    decreases Work(StateAt(s0, f, n))
  {
    if AllFinished(StateAt(s0, f, n)) {
      m := n;
    } else {
      var p :| IsClient(StateAt(s0, f, n), p) && Of(StateAt(s0, f, n), p).left != 0;
      assert Unfinished(StateAt(s0, f, n), p) && !AbandonedAt(s0, f, n);
      var k := WorksAgain(s0, f, n, p);
      m := FinishesFrom(s0, f, k);
    }
  }

  lemma TurnStaysFinished(s: Shop, who: nat)
    requires AllFinished(s)
    ensures AllFinished(Turn(s, who).0)
  {
    var t := Turn(s, who).0;
    assert t.locals == s.locals;
    forall p | IsClient(t, p)
      ensures Of(t, p).left == 0
    {
      assert IsClient(s, p);
    }
  }

  lemma {:induction false} StaysFinished(s0: Shop, f: Schedule, n: nat, m: nat)
    requires n <= m && FinishedAt(s0, f, n)
    ensures FinishedAt(s0, f, m)
    decreases m
  {
    if n < m {
      StaysFinished(s0, f, n, m - 1);
      TurnStaysFinished(StateAt(s0, f, m - 1), f(m - 1));
    }
  }

  /** Once the chair is abandoned nothing changes any more. */
  lemma {:induction false} StaysAbandoned(s0: Shop, f: Schedule, n: nat, m: nat)
    requires n <= m && Coupled(s0) && AbandonedAt(s0, f, n)
    ensures StateAt(s0, f, m) == StateAt(s0, f, n)
    decreases m
  {
    if n < m {
      StaysAbandoned(s0, f, n, m - 1);
      var s := StateAt(s0, f, n);
      var p :| Unfinished(s, p);
      RunCoupled(s0, f, n);
      StuckIffChairAbandoned(s, p);
      assert Turn(s, f(m - 1)).1 == Idle;
      TurnWorks(s, f(m - 1));
    }
  }

  lemma NeverBoth(s0: Shop, f: Schedule, n: nat, m: nat)
    requires Coupled(s0) && AbandonedAt(s0, f, n)
    ensures !FinishedAt(s0, f, m)
  {
    if FinishedAt(s0, f, m) {
      if m <= n {
        StaysFinished(s0, f, m, n);
      } else {
        StaysAbandoned(s0, f, n, m);
      }
    }
  }

  /** On every fair schedule, polite or not: everybody finishes if and only if the chair is never
      abandoned while somebody still wants a shave. */
  lemma FinishesIffNeverAbandoned(s0: Shop, f: Schedule)
    requires Coupled(s0) && Fair(s0, f)
    ensures (exists m: nat :: FinishedAt(s0, f, m)) <==> (forall n: nat :: !AbandonedAt(s0, f, n))
  {
    if forall n: nat :: !AbandonedAt(s0, f, n) {
      var m := FinishesFrom(s0, f, 0);
    }
    forall n: nat, m: nat | AbandonedAt(s0, f, n)
      ensures !FinishedAt(s0, f, m)
    {
      NeverBoth(s0, f, n, m);
    }
  }

  /** A run is finished exactly when every client has made all its visits. */
  lemma AllVisited(s0: Shop, f: Schedule, m: nat)
    ensures FinishedAt(s0, f, m) <==> forall p: nat :: IsClient(s0, p) ==> Visits(s0, f, m, p) == Of(s0, p).left
  {
    var s := StateAt(s0, f, m);
    RunKeepsClients(s0, f, m);
    forall p: nat | IsClient(s0, p)
      ensures IsClient(s, p) && Visits(s0, f, m, p) + Of(s, p).left == Of(s0, p).left
    {
      VisitsAreCounted(s0, f, m, p);
    }
  }

  /** A polite run never abandons the chair: its owner still wants its shave. */
  lemma PoliteNeverAbandons(s0: Shop, f: Schedule, n: nat)
    requires Orderly(s0) && PoliteRun(s0, f)
    ensures !AbandonedAt(s0, f, n)
  {
    RunOrderly(s0, f, n);
  }

  /** On every fair and polite schedule every client gets through all its visits. */
  lemma EverybodyFinishes(clients: nat, shaves: nat, length: int, garbage: nat, f: Schedule) returns (m: nat)
    requires PoliteRun(Initial(clients, shaves, length, garbage), f)
    requires Fair(Initial(clients, shaves, length, garbage), f)
    ensures AllFinished(StateAt(Initial(clients, shaves, length, garbage), f, m))
    ensures forall p :: 0 < p <= clients ==> Visits(Initial(clients, shaves, length, garbage), f, m, p) == shaves
  {
    var s0 := Initial(clients, shaves, length, garbage);
    forall n: nat
      ensures !AbandonedAt(s0, f, n)
    {
      PoliteNeverAbandons(s0, f, n);
    }
    FinishesIffNeverAbandoned(s0, f);
    m :| FinishedAt(s0, f, m);
    AllVisited(s0, f, m);
  }

  /** Without politeness a run can get stuck: client 1 wakes the barber, finds the waiting room full
      and exits before the barber notices, and client 2 waits for ever. */
  lemma ImpoliteRunGetsStuck(f: Schedule)
    requires f(0) == 0 && f(1) == 1 && f(2) == 2 && f(3) == 1 && f(4) == 0
    ensures var s := StateAt(Initial(2, 1, 1, 0), f, 5); Unfinished(s, 2) && Stuck(s)
    ensures forall m: nat :: !FinishedAt(Initial(2, 1, 1, 0), f, m)
  {
    var s0 := Initial(2, 1, 1, 0);
    assert s0.locals == [Local(0, 1), Local(0, 1)];
    var s1 := StateAt(s0, f, 1);
    assert s1 == s0.(status := SLEEP);
    var s2 := StateAt(s0, f, 2);
    assert s2 == s0.(status := WAKES, clientPid := 1);
    var s3 := StateAt(s0, f, 3);
    assert s3 == Shop(WAKES, 1, 1, 1, [2], 0, [Local(0, 1), Local(2, 1)]);
    var s4 := StateAt(s0, f, 4);
    assert s4 == Shop(WAKES, 1, 1, 1, [2], 0, [Local(0, 0), Local(2, 1)]);
    var s5 := StateAt(s0, f, 5);
    assert s5 == Shop(SITS_FIRST, 1, 1, 1, [2], 0, [Local(0, 0), Local(2, 1)]);
    RunCoupled(s0, f, 5);
    StuckIffChairAbandoned(s5, 2);
    assert Unfinished(s5, 2) && AbandonedAt(s0, f, 5);
    forall m: nat
      ensures !FinishedAt(s0, f, m)
    {
      NeverBoth(s0, f, 5, m);
    }
  }
}

/** Whole runs of the semaphore version: every thread gets through its turnstile, every run can be
    completed, and every fair one completes. */
module TurnstileRuns {
  import opened Counting
  import opened LineBuffer
  import opened Runs
  import opened Turnstiles

  // ---------------------------------------------------------------- no token is made or lost

  /** A call that opens the turnstile of the other side. */
  predicate Opens(s: State, a: Action, c: Conf) {
    && Shaped(s.ring, c) && Enabled(s, a) && StageOf(s, a) == Ready
    && match a
       case Producer(_) => Add(s.ring, c).wake
       case Consumer(_) => Remove(s.ring, c).wake
  }

  /** How often a run has opened the turnstile of the consumers, or that of the producers. */
  function Openings(s: State, actions: seq<Action>, c: Conf, forConsumers: bool): nat {
    if actions == [] then 0 else
      var before, a := actions[..|actions| - 1], actions[|actions| - 1];
      Openings(s, before, c, forConsumers)
      + if a.Producer? == forConsumers && Opens(Run(s, before, c), a, c) then 1 else 0
  }

  /** The tokens of a turnstile: those it holds and those that somebody who is through it still owes. */
  function Tokens(s: State, forConsumers: bool): nat {
    if forConsumers then s.emptySem + Number(s.consumers, Through) else s.fullSem + Number(s.producers, Through)
  }

  lemma ActTokens(s: State, a: Action, c: Conf, forConsumers: bool)
    ensures Tokens(Act(s, a, c), forConsumers) ==
            Tokens(s, forConsumers) + if a.Producer? == forConsumers && Opens(s, a, c) then 1 else 0
  {
    if Shaped(s.ring, c) && Enabled(s, a) {
      match a
      case Producer(i) => NumberSet(s.producers, i, Act(s, a, c).producers[i], Through);
      case Consumer(i) => NumberSet(s.consumers, i, Act(s, a, c).consumers[i], Through);
    }
  }

  lemma {:induction false} AllReady(p: nat)
    ensures Number(seq(p, _ => Ready), Through) == 0
  {
    Present(seq(p, _ => Ready), Through);
  }

  /** In every run passing a turnstile leaves it as it was: that of the producers starts with one token,
      that of the consumers with none, and only the calls that wake the other side add any. */
  lemma {:induction false} TokensAreKept(file: seq<string>, p: nat, q: nat, c: Conf, actions: seq<Action>,
                                          forConsumers: bool)
    ensures var s0 := Initial(file, p, q, c);
            Tokens(Run(s0, actions, c), forConsumers) ==
            Openings(s0, actions, c, forConsumers) + if forConsumers then 0 else 1
  {
    if actions == [] {
      AllReady(p);
      AllReady(q);
    } else {
      var before := actions[..|actions| - 1];
      TokensAreKept(file, p, q, c, before, forConsumers);
      ActTokens(Run(Initial(file, p, q, c), before, c), actions[|actions| - 1], c, forConsumers);
    }
  }

  // ---------------------------------------------------------------- the turnstiles let everybody pass

  /** The last of the actions is a's own call, and the ring has something for it. */
  predicate Leads(s: State, actions: seq<Action>, a: Action, c: Conf) {
    && actions != [] && actions[|actions| - 1] == a
    && (forall b :: b in actions ==> SameSide(a, b))
    && var t := Run(s, actions[..|actions| - 1], c);
       Wants(t, a, c) && StageOf(t, a) == Ready && t.ring == s.ring
  }

  lemma LeadsFirst(s: State, b: Action, rest: seq<Action>, a: Action, c: Conf)
    requires SameSide(a, b) && Act(s, b, c).ring == s.ring && Leads(Act(s, b, c), rest, a, c)
    ensures Leads(s, [b] + rest, a, c)
  {
    var n := |rest| - 1;
    assert ([b] + rest)[..n + 1] == [b] + rest[..n];
    FoldCons(Steps(c), s, b, rest[..n]);
  }

  /** A thread that is not about to call: somebody of its side, it or another, brings it closer. */
  lemma Closer(s: State, a: Action, c: Conf) returns (b: Action, t: State)
    requires Sound(s, c) && c.timeout == 0 && Wants(s, a, c) && StageOf(s, a) != Ready
    ensures t == Act(s, b, c) && SameSide(a, b) && Sound(t, c) && t.ring == s.ring && Wants(t, a, c)
    ensures || Distance(t, a) < Distance(s, a)
            || (Distance(t, a) == Distance(s, a) && Turnstile(s, a) == 0 && Turnstile(t, a) > 0)
  {
    b := a;
    if StageOf(s, a) == Before && Turnstile(s, a) == 0 {
      b := SomebodyThrough(s, a, c);
      OtherIsCloser(s, b, a, c);
    } else {
      OtherPends(s, a, c);
      ActKeepsThreads(s, a, c);
    }
    t := Act(s, b, c);
    ActSound(s, b, c);
  }

  /** Whoever is through the turnstile opens it for the others. */
  lemma OtherIsCloser(s: State, b: Action, a: Action, c: Conf)
    requires Shaped(s.ring, c) && c.timeout == 0 && Wants(s, a, c) && SameSide(a, b)
    requires Enabled(s, b) && StageOf(s, a) == Before && StageOf(s, b) == Through
    ensures var t := Act(s, b, c);
            t.ring == s.ring && Wants(t, a, c) && Distance(t, a) == Distance(s, a) && Turnstile(t, a) > 0
  {
    OthersStay(s, b, a, c);
  }

  /** Any thread that is not done gets to a successful call of its own when the ring has something for
      it, by the steps of its own side alone. */
  lemma {:induction false} LetCall(s: State, a: Action, c: Conf) returns (actions: seq<Action>)
    requires Sound(s, c) && c.timeout == 0 && Wants(s, a, c)
    ensures Leads(s, actions, a, c)
    decreases Distance(s, a), Turnstile(s, a) == 0
  {
    if StageOf(s, a) == Ready {
      actions := [a];
      assert [a][..0] == [];
    } else {
      var b, t := Closer(s, a, c);
      var rest := LetCall(t, a, c);
      actions := [b] + rest;
      LeadsFirst(s, b, rest, a, c);
    }
  }

  /** Whatever leads to a call brings the end nearer. */
  lemma LeadsNearer(s: State, actions: seq<Action>, a: Action, c: Conf)
    requires Sound(s, c) && c.timeout == 0 && Leads(s, actions, a, c)
    ensures Pending(Run(s, actions, c)) < Pending(s)
  {
    var before := actions[..|actions| - 1];
    RunKeepsSound(s, before, c);
    RunNeverMore(s, before, c);
    CallPends(Run(s, before, c), a, c);
  }

  lemma {:induction false} RunNeverMore(s: State, actions: seq<Action>, c: Conf)
    requires Sound(s, c) && c.timeout == 0
    ensures Pending(Run(s, actions, c)) <= Pending(s)
  {
    if actions != [] {
      var before := actions[..|actions| - 1];
      RunNeverMore(s, before, c);
      RunKeepsSound(s, before, c);
      NeverMore(Run(s, before, c), actions[|actions| - 1], c);
    }
  }

  /** Until all threads have returned, the ring has something for one of them. */
  lemma SomebodyWants(s: State, c: Conf) returns (a: Action)
    requires Open(s, c) && c.bufferLength > 0 && s.producers != [] && s.consumers != [] && !AllDone(s)
    ensures Wants(s, a, c)
  {
    assert s.producers[0] in s.producers && s.consumers[0] in s.consumers;
    if s.ring.elements > 0 {
      a := Consumer(0);
    } else if !s.ring.endOfFile {
      a := Producer(0);
    } else if t :| t in s.consumers && t != Done {
      var i := Position(s.consumers, t);
      a := Consumer(i);
    } else {
      var t :| t in s.producers && t != Done;
      var i := Position(s.producers, t);
      a := Producer(i);
    }
  }

  lemma DoneIsComplete(s: State, c: Conf, file: seq<string>)
    requires Good(s, c, file) && s.consumers != [] && AllDone(s)
    ensures s.ring.printed == Selection(c, Numbered(file)) && Prints(c, file, s.ring.printed)
  {
    assert s.consumers[0] in s.consumers;
    WholeFilePrinted(s.ring, c, file);
  }

  lemma {:induction false} CanFinish(s: State, c: Conf, file: seq<string>) returns (actions: seq<Action>)
    requires Good(s, c, file) && c.timeout == 0 && c.bufferLength > 0 && s.producers != [] && s.consumers != []
    ensures AllDone(Run(s, actions, c)) && Run(s, actions, c).ring.printed == Selection(c, Numbered(file))
    decreases Pending(s)
  {
    if AllDone(s) {
      actions := [];
      DoneIsComplete(s, c, file);
    } else {
      var a := SomebodyWants(s, c);
      var first := LetCall(s, a, c);
      LeadsNearer(s, first, a, c);
      var t := Run(s, first, c);
      RunKeepsGood(s, first, c, file);
      ToDoIsNatural(t.ring, t.producers, t.consumers, Done);
      var rest := CanFinish(t, c, file);
      actions := first + rest;
      FoldAppend(Steps(c), s, first, rest);
    }
  }

  /** No reachable state is a deadlock: from each of them the threads can all return, and then the
      output is complete. */
  lemma EveryRunCanFinish(file: seq<string>, p: nat, q: nat, c: Conf, actions: seq<Action>) returns (more: seq<Action>)
    requires p > 0 && q > 0 && c.timeout == 0 && c.bufferLength > 0
    ensures var t := Run(Run(Initial(file, p, q, c), actions, c), more, c);
            AllDone(t) && t.ring.printed == Selection(c, Numbered(file))
  {
    InitialGood(file, p, q, c);
    RunKeepsGood(Initial(file, p, q, c), actions, c, file);
    more := CanFinish(Run(Initial(file, p, q, c), actions, c), c, file);
  }

  // ---------------------------------------------------------------- fair schedules

  /** Every thread is scheduled again and again; which waiter a post wakes is left open. */
  ghost predicate Fair(s0: State, f: nat -> Action) {
    forall a: Action, n: nat :: IsThread(s0, a) ==> RunsAgain(f, a, n)
  }

  lemma SoundAt(s: State, f: nat -> Action, n: nat, c: Conf)
    requires Sound(s, c)
    ensures Sound(StateAt(s, f, n, c), c)
    ensures |StateAt(s, f, n, c).producers| == |s.producers| && |StateAt(s, f, n, c).consumers| == |s.consumers|
  {
    var actions := seq(n, i requires 0 <= i < n => f(i));
    AtIsFold(Steps(c), s, f, n, actions);
    RunKeepsSound(s, actions, c);
  }

  lemma GoodAt(s0: State, f: nat -> Action, n: nat, c: Conf, file: seq<string>)
    requires Good(s0, c, file)
    ensures Good(StateAt(s0, f, n, c), c, file)
    ensures |StateAt(s0, f, n, c).producers| == |s0.producers| && |StateAt(s0, f, n, c).consumers| == |s0.consumers|
  {
    var actions := seq(n, i requires 0 <= i < n => f(i));
    AtIsFold(Steps(c), s0, f, n, actions);
    RunKeepsGood(s0, actions, c, file);
  }

  /** From s to t the end has come nearer, or the thread still can call and is no further from it. */
  predicate StillWants(s: State, t: State, a: Action, c: Conf)
    requires IsThread(s, a)
  {
    || Pending(t) < Pending(s)
    || (Pending(t) == Pending(s) && Wants(t, a, c) && Distance(t, a) <= Distance(s, a))
  }

  lemma StillWantsNext(s: State, t: State, b: Action, a: Action, c: Conf)
    requires IsThread(s, a) && Shaped(t.ring, c) && c.timeout == 0 && StillWants(s, t, a, c)
    ensures StillWants(s, Act(t, b, c), a, c)
  {
    NeverMore(t, b, c);
    if Wants(t, a, c) { StaysWanting(t, b, a, c); }
  }

  lemma {:induction false} WantsUntil(s: State, f: nat -> Action, k: nat, a: Action, c: Conf)
    requires Sound(s, c) && c.timeout == 0 && Wants(s, a, c)
    ensures StillWants(s, StateAt(s, f, k, c), a, c)
  {
    if k > 0 {
      WantsUntil(s, f, k - 1, a, c);
      SoundAt(s, f, k - 1, c);
      StillWantsNext(s, StateAt(s, f, k - 1, c), f(k - 1), a, c);
    }
  }

  lemma FairLater(s: State, f: nat -> Action, k: nat, c: Conf)
    requires Sound(s, c) && Fair(s, f)
    ensures Sound(StateAt(s, f, k, c), c) && Fair(StateAt(s, f, k, c), Later(f, k))
  {
    SoundAt(s, f, k, c);
    forall a: Action, n: nat | IsThread(s, a)
      ensures RunsAgain(Later(f, k), a, n)
    {
      RunsAgainLater(f, a, k, n);
    }
  }

  /** On its turn a thread that can call does so or gets closer to it, or else another of its side is
      already through the turnstile. */
  lemma OwnTurn(s: State, a: Action, c: Conf) returns (b: Action)
    requires Sound(s, c) && c.timeout == 0 && Wants(s, a, c)
    ensures if b == a then
              var t := Act(s, a, c);
              Pending(t) < Pending(s) || (Pending(t) == Pending(s) && Wants(t, a, c) && Distance(t, a) < Distance(s, a))
            else Wants(s, b, c) && Distance(s, b) < Distance(s, a)
  {
    b := a;
    if StageOf(s, a) == Ready {
      CallPends(s, a, c);
    } else if StageOf(s, a) == Before && Turnstile(s, a) == 0 {
      b := SomebodyThrough(s, a, c);
    } else {
      OtherPends(s, a, c);
    }
  }

  lemma StateNext(s: State, f: nat -> Action, n: nat, c: Conf)
    ensures StateAt(s, f, n + 1, c) == Act(StateAt(s, f, n, c), f(n), c)
  {
  }

  /** The end has come nearer, or a thread that can call is closer to its call than a was. */
  predicate CloserTo(s: State, a: Action, t: State, b: Action, c: Conf)
    requires IsThread(s, a)
  {
    || Pending(t) < Pending(s)
    || (Pending(t) == Pending(s) && Wants(t, b, c) && Distance(t, b) < Distance(s, a))
  }

  lemma TurnIsCloser(s: State, a: Action, t: State, c: Conf) returns (b: Action)
    requires Sound(t, c) && c.timeout == 0 && IsThread(s, a) && StillWants(s, t, a, c)
    ensures CloserTo(s, a, if b == a then Act(t, a, c) else t, b, c)
  {
    b := a;
    NeverMore(t, a, c);
    if Pending(t) == Pending(s) { b := OwnTurn(t, a, c); }
  }

  lemma NextCloser(s: State, f: nat -> Action, a: Action, c: Conf) returns (k: nat, b: Action)
    requires Sound(s, c) && c.timeout == 0 && Fair(s, f) && Wants(s, a, c)
    ensures CloserTo(s, a, StateAt(s, f, k, c), b, c)
  {
    assert RunsAgain(f, a, 0);
    k := NextTurn(f, a, 0);
    WantsUntil(s, f, k, a, c);
    SoundAt(s, f, k, c);
    b := TurnIsCloser(s, a, StateAt(s, f, k, c), c);
    StateNext(s, f, k, c);
    if b == a { k := k + 1; }
  }

  lemma NearerLater(s: State, f: nat -> Action, k: nat, t: State, more: nat, c: Conf)
    requires t == StateAt(s, f, k, c) && Pending(StateAt(t, Later(f, k), more, c)) < Pending(t) <= Pending(s)
    ensures Pending(StateAt(s, f, k + more, c)) < Pending(s)
  {
    AtLater(Steps(c), s, f, k, more);
  }

  /** A thread that can call brings the end nearer, or another one does so before it: at most three of
      the turns that follow matter. */
  lemma {:induction false} Nearer(s: State, f: nat -> Action, a: Action, c: Conf) returns (m: nat)
    requires Sound(s, c) && c.timeout == 0 && Fair(s, f) && Wants(s, a, c)
    ensures Pending(StateAt(s, f, m, c)) < Pending(s)
    decreases Distance(s, a)
  {
    var k, b := NextCloser(s, f, a, c);
    var t := StateAt(s, f, k, c);
    m := k;
    if Pending(t) == Pending(s) {
      FairLater(s, f, k, c);
      var more := Nearer(t, Later(f, k), b, c);
      NearerLater(s, f, k, t, more, c);
      m := k + more;
    }
  }

  lemma EndLater(s: State, f: nat -> Action, k: nat, more: nat, c: Conf)
    requires AllDone(StateAt(StateAt(s, f, k, c), Later(f, k), more, c))
    ensures AllDone(StateAt(s, f, k + more, c))
  {
    AtLater(Steps(c), s, f, k, more);
  }

  lemma OnTheWay(s: State, f: nat -> Action, c: Conf) returns (k: nat)
    requires Sound(s, c) && c.timeout == 0 && c.bufferLength > 0 && Fair(s, f)
    requires s.producers != [] && s.consumers != [] && !AllDone(s)
    ensures Sound(StateAt(s, f, k, c), c) && Fair(StateAt(s, f, k, c), Later(f, k))
    ensures StateAt(s, f, k, c).producers != [] && StateAt(s, f, k, c).consumers != []
    ensures 0 <= Pending(StateAt(s, f, k, c)) < Pending(s)
  {
    var a := SomebodyWants(s, c);
    k := Nearer(s, f, a, c);
    SoundAt(s, f, k, c);
    FairLater(s, f, k, c);
    var t := StateAt(s, f, k, c);
    ToDoIsNatural(t.ring, t.producers, t.consumers, Done);
  }

  /** On every fair schedule all threads return. */
  lemma {:induction false} FairRunsEnd(s: State, f: nat -> Action, c: Conf) returns (m: nat)
    requires Sound(s, c) && c.timeout == 0 && c.bufferLength > 0 && Fair(s, f)
    requires s.producers != [] && s.consumers != []
    ensures AllDone(StateAt(s, f, m, c))
    decreases Pending(s)
  {
    if AllDone(s) {
      m := 0;
    } else {
      var k := OnTheWay(s, f, c);
      var more := FairRunsEnd(StateAt(s, f, k, c), Later(f, k), c);
      EndLater(s, f, k, more, c);
      m := k + more;
    }
  }

  /** And then exactly the selected lines of the file have been printed, in their order. */
  lemma FairRunsFinish(s: State, f: nat -> Action, c: Conf, file: seq<string>) returns (m: nat)
    requires Good(s, c, file) && c.timeout == 0 && c.bufferLength > 0 && Fair(s, f)
    requires s.producers != [] && s.consumers != []
    ensures AllDone(StateAt(s, f, m, c)) && StateAt(s, f, m, c).ring.printed == Selection(c, Numbered(file))
    ensures Prints(c, file, StateAt(s, f, m, c).ring.printed)
  {
    m := FairRunsEnd(s, f, c);
    GoodAt(s, f, m, c, file);
    DoneIsComplete(StateAt(s, f, m, c), c, file);
  }

  // ---------------------------------------------------------------- a ring without room

  predicate Idling(s: State, file: seq<string>, c: Conf) {
    s.ring == Start(file, c) && Done !in s.producers && Done !in s.consumers
  }

  lemma ActIdles(s: State, a: Action, file: seq<string>, c: Conf)
    requires c.bufferLength == 0 && Idling(s, file, c)
    ensures Idling(Act(s, a, c), file, c)
  {
    if Enabled(s, a) && Shaped(s.ring, c) {
      match a
      case Producer(i) => SetThread(s.producers, i, Act(s, a, c).producers[i]);
      case Consumer(i) => SetThread(s.consumers, i, Act(s, a, c).consumers[i]);
    }
  }

  lemma {:induction false} NeverEnds(s0: State, f: nat -> Action, n: nat, file: seq<string>, c: Conf)
    requires c.bufferLength == 0 && Idling(s0, file, c)
    ensures Idling(StateAt(s0, f, n, c), file, c)
  {
    if n > 0 {
      NeverEnds(s0, f, n - 1, file, c);
      ActIdles(StateAt(s0, f, n - 1, c), f(n - 1), file, c);
    }
  }

  /** From the start: a fair run ends if and only if the ring has room. */
  lemma EndsIffRoom(file: seq<string>, p: nat, q: nat, c: Conf, f: nat -> Action)
    requires p > 0 && q > 0 && c.timeout == 0 && Fair(Initial(file, p, q, c), f)
    ensures (exists m: nat :: AllDone(StateAt(Initial(file, p, q, c), f, m, c))) <==> c.bufferLength > 0
  {
    var s0 := Initial(file, p, q, c);
    InitialGood(file, p, q, c);
    if c.bufferLength > 0 {
      var m := FairRunsFinish(s0, f, c, file);
    } else {
      forall m: nat
        ensures !AllDone(StateAt(s0, f, m, c))
      {
        NeverEnds(s0, f, m, file, c);
        GoodAt(s0, f, m, c, file);
        var t := StateAt(s0, f, m, c);
        assert t.consumers[0] in t.consumers;
      }
    }
  }
}

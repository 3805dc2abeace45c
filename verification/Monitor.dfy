/** The bounded buffer with a mutex and condition variables: no wake-up is lost, no state before the
    end is a deadlock, and the work is bounded. */
module Monitor {
  import opened Counting
  import opened LineBuffer
  import opened Runs

  /** A thread is about to call, waits on its condition variable, or has returned. */
  datatype Thread = Ready | Waiting | Done

  datatype State = State(ring: Ring, producers: seq<Thread>, consumers: seq<Thread>)

  /** One call under the mutex, or a spurious wake-up, which a condition variable may have. */
  datatype Action = Produce(i: nat) | Consume(i: nat) | WakeProducer(i: nat) | WakeConsumer(i: nat)

  function Next(code: Code, c: Conf): Thread {
    match code
    case Wait => Waiting
    case Again => Ready
    case Stop => if c.timeout == 0 then Done else Ready
  }

  /** A broadcast; a woken thread releases the mutex and calls again. */
  function Woken(ts: seq<Thread>): (r: seq<Thread>)
    ensures |r| == |ts|
    ensures forall i :: 0 <= i < |r| ==> r[i] == if ts[i] == Waiting then Ready else ts[i]
  {
    seq(|ts|, i requires 0 <= i < |ts| => if ts[i] == Waiting then Ready else ts[i])
  }

  predicate Enabled(s: State, a: Action) {
    match a
    case Produce(i) => i < |s.producers| && s.producers[i] == Ready
    case Consume(i) => i < |s.consumers| && s.consumers[i] == Ready
    case WakeProducer(i) => i < |s.producers| && s.producers[i] == Waiting
    case WakeConsumer(i) => i < |s.consumers| && s.consumers[i] == Waiting
  }

  function Act(s: State, a: Action, c: Conf): State {
    if !Shaped(s.ring, c) || !Enabled(s, a) then s else
      match a
      case Produce(i) =>
        var r := Add(s.ring, c);
        State(r.ring, s.producers[i := Next(r.code, c)], if r.wake then Woken(s.consumers) else s.consumers)
      case Consume(i) =>
        var r := Remove(s.ring, c);
        State(r.ring, if r.wake then Woken(s.producers) else s.producers, s.consumers[i := Next(r.code, c)])
      case WakeProducer(i) => s.(producers := s.producers[i := Ready])
      case WakeConsumer(i) => s.(consumers := s.consumers[i := Ready])
  }

  function Steps(c: Conf): (State, Action) -> State {
    (s: State, a: Action) => Act(s, a, c)
  }

  function Run(s: State, actions: seq<Action>, c: Conf): State {
    Fold(Steps(c), s, actions)
  }

  /** The state after n turns of an endless schedule. */
  function StateAt(s: State, f: nat -> Action, n: nat, c: Conf): State {
    At(Steps(c), s, f, n)
  }

  function Initial(file: seq<string>, p: nat, q: nat, c: Conf): State {
    State(Start(file, c), seq(p, _ => Ready), seq(q, _ => Ready))
  }

  // ---------------------------------------------------------------- safety

  /** A waiting consumer waits for lines that are not there, a waiting producer for room that is not
      there, and a thread that has returned had nothing left to do. */
  predicate Signalled(s: State, c: Conf) {
    && (Waiting in s.consumers ==> s.ring.elements == 0 && !s.ring.endOfFile)
    && (Waiting in s.producers ==> s.ring.elements == c.bufferLength)
    && (Done in s.producers ==> s.ring.endOfFile)
    && (Done in s.consumers ==> s.ring.endOfFile && s.ring.elements == 0)
  }

  predicate Good(s: State, c: Conf, file: seq<string>) {
    IsQueue(s.ring, c, file) && Signalled(s, c)
  }

  lemma WakeAll(ts: seq<Thread>)
    ensures Waiting !in Woken(ts)
    ensures Done in Woken(ts) <==> Done in ts
  {
    if Done in ts {
      var i :| 0 <= i < |ts| && ts[i] == Done;
      assert Woken(ts)[i] == Done;
    }
  }

  lemma ProduceSignalled(s: State, i: nat, c: Conf)
    requires Shaped(s.ring, c) && Signalled(s, c) && Enabled(s, Produce(i))
    requires s.ring.endOfFile ==> s.ring.source == []
    ensures Signalled(Act(s, Produce(i), c), c)
  {
    WakeAll(s.consumers);
    SetThread(s.producers, i, Next(Add(s.ring, c).code, c));
  }

  lemma ConsumeSignalled(s: State, i: nat, c: Conf)
    requires Shaped(s.ring, c) && Signalled(s, c) && Enabled(s, Consume(i))
    ensures Signalled(Act(s, Consume(i), c), c)
  {
    WakeAll(s.producers);
    SetThread(s.consumers, i, Next(Remove(s.ring, c).code, c));
  }

  lemma ProduceGood(s: State, i: nat, c: Conf, file: seq<string>)
    requires Good(s, c, file) && Enabled(s, Produce(i))
    ensures Good(Act(s, Produce(i), c), c, file)
  {
    AddKeepsQueue(s.ring, c, file);
    ProduceSignalled(s, i, c);
  }

  lemma ConsumeGood(s: State, i: nat, c: Conf, file: seq<string>)
    requires Good(s, c, file) && Enabled(s, Consume(i))
    ensures Good(Act(s, Consume(i), c), c, file)
  {
    RemoveKeepsQueue(s.ring, c, file);
    ConsumeSignalled(s, i, c);
  }

  lemma ActGood(s: State, a: Action, c: Conf, file: seq<string>)
    requires Good(s, c, file)
    ensures Good(Act(s, a, c), c, file)
  {
    if Enabled(s, a) {
      match a
      case Produce(i) => ProduceGood(s, i, c, file);
      case Consume(i) => ConsumeGood(s, i, c, file);
      case WakeProducer(i) => SetThread(s.producers, i, Ready);
      case WakeConsumer(i) => SetThread(s.consumers, i, Ready);
    }
  }

  lemma InitialSignalled(file: seq<string>, p: nat, q: nat, c: Conf)
    ensures Signalled(Initial(file, p, q, c), c)
  {
  }

  lemma InitialGood(file: seq<string>, p: nat, q: nat, c: Conf)
    ensures Good(Initial(file, p, q, c), c, file)
  {
    StartQueues(file, c);
    InitialSignalled(file, p, q, c);
  }

  lemma ActKeepsThreads(s: State, a: Action, c: Conf)
    ensures |Act(s, a, c).producers| == |s.producers| && |Act(s, a, c).consumers| == |s.consumers|
  {
  }

  /** In every run, from any good state and with spurious wake-ups, no wake-up is lost, the ring is a
      queue over the file, and no thread is lost. */
  lemma {:induction false} RunKeepsGood(s: State, actions: seq<Action>, c: Conf, file: seq<string>)
    requires Good(s, c, file)
    ensures Good(Run(s, actions, c), c, file)
    ensures |Run(s, actions, c).producers| == |s.producers| && |Run(s, actions, c).consumers| == |s.consumers|
  {
    if actions != [] {
      var before := actions[..|actions| - 1];
      RunKeepsGood(s, before, c, file);
      ActGood(Run(s, before, c), actions[|actions| - 1], c, file);
      ActKeepsThreads(Run(s, before, c), actions[|actions| - 1], c);
    }
  }

  lemma RunGood(file: seq<string>, p: nat, q: nat, c: Conf, actions: seq<Action>)
    ensures Good(Run(Initial(file, p, q, c), actions, c), c, file)
  {
    InitialGood(file, p, q, c);
    RunKeepsGood(Initial(file, p, q, c), actions, c, file);
  }

  // ---------------------------------------------------------------- no deadlock

  predicate AllDone(s: State) {
    AllAre(s.producers, s.consumers, Done)
  }

  /** A call that finds room, a line or the end of the file. */
  predicate Useful(s: State, a: Action, c: Conf) {
    && Enabled(s, a)
    && match a
       case Produce(_) => s.ring.elements < c.bufferLength
       case Consume(_) => s.ring.elements > 0 || s.ring.endOfFile
       case _ => false
  }

  /** Until all threads have returned, one of them can make a useful call. */
  lemma NoDeadlock(s: State, c: Conf) returns (a: Action)
    requires Signalled(s, c) && c.bufferLength > 0
    requires s.producers != [] && s.consumers != [] && !AllDone(s)
    ensures Enabled(s, a) && (a.Produce? || a.Consume?) && Useful(s, a, c)
  {
    assert s.producers[0] in s.producers && s.consumers[0] in s.consumers;
    if s.ring.elements > 0 {
      a := Consume(0);
    } else if !s.ring.endOfFile {
      a := Produce(0);
    } else if t :| t in s.consumers && t != Done {
      var i := Position(s.consumers, t);
      a := Consume(i);
    } else {
      var t :| t in s.producers && t != Done;
      var i := Position(s.producers, t);
      a := Produce(i);
    }
  }

  // ---------------------------------------------------------------- termination

  lemma {:induction false} NumberWoken(ts: seq<Thread>)
    ensures Number(Woken(ts), Done) == Number(ts, Done)
  {
    if ts != [] {
      assert Woken(ts)[1..] == Woken(ts[1..]);
      NumberWoken(ts[1..]);
    }
  }

  /** Calls that move a line, end a thread or reach the end of the file. */
  function Pending(s: State): int {
    ToDo(s.ring, s.producers, s.consumers, Done)
  }

  function Awake(s: State): nat {
    Number(s.producers, Ready) + Number(s.consumers, Ready)
  }

  function Weight(s: State): nat {
    |s.producers| + |s.consumers| + 1
  }

  /** All the calls that are still to come: each of those above can wake everybody once more. */
  function Work(s: State): int {
    Weight(s) * Pending(s) + Awake(s)
  }

  lemma WorkIsNatural(s: State)
    ensures Work(s) >= 0
  {
    ToDoIsNatural(s.ring, s.producers, s.consumers, Done);
  }

  /** A call either puts its thread to sleep or brings the end nearer. */
  lemma CallPends(s: State, a: Action, c: Conf)
    requires Shaped(s.ring, c) && Signalled(s, c) && c.timeout == 0 && Enabled(s, a) && (a.Produce? || a.Consume?)
    ensures var t := Act(s, a, c);
            && |t.producers| == |s.producers| && |t.consumers| == |s.consumers|
            && ((Pending(t) == Pending(s) && Awake(t) == Awake(s) - 1) || Pending(t) == Pending(s) - 1)
            && Awake(t) <= |s.producers| + |s.consumers|
  {
    var t := Act(s, a, c);
    NumberWoken(s.producers);
    NumberWoken(s.consumers);
    Bounded(t.producers, Ready);
    Bounded(t.consumers, Ready);
    match a
    case Produce(i) =>
      NumberSet(s.producers, i, t.producers[i], Done);
      NumberSet(s.producers, i, t.producers[i], Ready);
    case Consume(i) =>
      NumberSet(s.consumers, i, t.consumers[i], Done);
      NumberSet(s.consumers, i, t.consumers[i], Ready);
  }

  lemma OneLess(k: int, x: int)
    ensures k * (x - 1) == k * x - k
  {
  }

  lemma CallWorks(s: State, a: Action, c: Conf)
    requires Shaped(s.ring, c) && Signalled(s, c) && c.timeout == 0 && Enabled(s, a) && (a.Produce? || a.Consume?)
    ensures Work(Act(s, a, c)) < Work(s)
  {
    CallPends(s, a, c);
    OneLess(Weight(s), Pending(s));
  }

  lemma WakeWorks(s: State, a: Action, c: Conf)
    requires a.WakeProducer? || a.WakeConsumer?
    ensures Work(Act(s, a, c)) <= Work(s) + 1
  {
    if Shaped(s.ring, c) && Enabled(s, a) {
      match a
      case WakeProducer(i) =>
        NumberSet(s.producers, i, Ready, Done);
        NumberSet(s.producers, i, Ready, Ready);
      case WakeConsumer(i) =>
        NumberSet(s.consumers, i, Ready, Done);
        NumberSet(s.consumers, i, Ready, Ready);
    }
  }

  /** The calls made and the spurious wake-ups in a run. */
  function Calls(s: State, actions: seq<Action>, c: Conf): nat {
    if actions == [] then 0 else
      var before, a := actions[..|actions| - 1], actions[|actions| - 1];
      Calls(s, before, c) + if Enabled(Run(s, before, c), a) && (a.Produce? || a.Consume?) then 1 else 0
  }

  function Spurious(actions: seq<Action>): nat {
    if actions == [] then 0 else
      var a := actions[|actions| - 1];
      Spurious(actions[..|actions| - 1]) + if a.Produce? || a.Consume? then 0 else 1
  }

  /** Whatever the scheduler does, the number of calls is bounded, but for spurious wake-ups. */
  lemma {:induction false} CallsAreBounded(file: seq<string>, p: nat, q: nat, c: Conf, actions: seq<Action>)
    requires c.timeout == 0
    ensures var s0 := Initial(file, p, q, c);
            Calls(s0, actions, c) + Work(Run(s0, actions, c)) <= Work(s0) + Spurious(actions)
  {
    if actions != [] {
      var s0, before, a := Initial(file, p, q, c), actions[..|actions| - 1], actions[|actions| - 1];
      CallsAreBounded(file, p, q, c, before);
      RunGood(file, p, q, c, before);
      var s := Run(s0, before, c);
      if a.Produce? || a.Consume? {
        if Enabled(s, a) { CallWorks(s, a, c); }
      } else {
        WakeWorks(s, a, c);
      }
    }
  }

  /** From every reachable state the threads can all return, and then the output is complete. */
  lemma {:induction false} CanFinish(s: State, c: Conf, file: seq<string>) returns (actions: seq<Action>)
    requires Good(s, c, file) && c.timeout == 0 && c.bufferLength > 0 && s.producers != [] && s.consumers != []
    ensures AllDone(Run(s, actions, c)) && Run(s, actions, c).ring.printed == Selection(c, Numbered(file))
    decreases Work(s)
  {
    if AllDone(s) {
      actions := [];
      DoneIsComplete(s, c, file);
    } else {
      var a := NoDeadlock(s, c);
      ActGood(s, a, c, file);
      CallWorks(s, a, c);
      WorkIsNatural(Act(s, a, c));
      var rest := CanFinish(Act(s, a, c), c, file);
      actions := [a] + rest;
      FoldCons(Steps(c), s, a, rest);
    }
  }

  /** However a run has gone so far, it can be completed: the threads can all return, and then exactly
      the selected lines of the file have been printed, in their order. */
  lemma EveryRunCanFinish(file: seq<string>, p: nat, q: nat, c: Conf, actions: seq<Action>) returns (more: seq<Action>)
    requires p > 0 && q > 0 && c.timeout == 0 && c.bufferLength > 0
    ensures var t := Run(Run(Initial(file, p, q, c), actions, c), more, c);
            AllDone(t) && t.ring.printed == Selection(c, Numbered(file))
  {
    InitialGood(file, p, q, c);
    RunKeepsGood(Initial(file, p, q, c), actions, c, file);
    more := CanFinish(Run(Initial(file, p, q, c), actions, c), c, file);
  }

  // ---------------------------------------------------------------- fair schedules

  /** Every thread is given a call again and again; spurious wake-ups come as they please. */
  ghost predicate Fair(s0: State, f: nat -> Action) {
    && (forall i: nat, n: nat :: i < |s0.producers| ==> RunsAgain(f, Produce(i), n))
    && (forall i: nat, n: nat :: i < |s0.consumers| ==> RunsAgain(f, Consume(i), n))
  }

  lemma UsefulPends(s: State, a: Action, c: Conf)
    requires Shaped(s.ring, c) && c.timeout == 0 && Useful(s, a, c)
    ensures Pending(Act(s, a, c)) < Pending(s)
  {
    var t := Act(s, a, c);
    NumberWoken(s.producers);
    NumberWoken(s.consumers);
    match a
    case Produce(i) => NumberSet(s.producers, i, t.producers[i], Done);
    case Consume(i) => NumberSet(s.consumers, i, t.consumers[i], Done);
  }

  lemma WakePends(s: State, b: Action, c: Conf)
    requires b.WakeProducer? || b.WakeConsumer?
    ensures Pending(Act(s, b, c)) == Pending(s) && Act(s, b, c).ring == s.ring
  {
    if Shaped(s.ring, c) && Enabled(s, b) {
      match b
      case WakeProducer(i) => NumberSet(s.producers, i, Ready, Done);
      case WakeConsumer(i) => NumberSet(s.consumers, i, Ready, Done);
    }
  }

  /** A call that is not useful only puts its thread to sleep. */
  lemma SleepPends(s: State, b: Action, c: Conf)
    requires Shaped(s.ring, c) && c.timeout == 0 && Enabled(s, b) && !Useful(s, b, c) && (b.Produce? || b.Consume?)
    ensures Pending(Act(s, b, c)) == Pending(s) && Act(s, b, c).ring == s.ring
  {
    match b
    case Produce(i) => NumberSet(s.producers, i, Waiting, Done);
    case Consume(i) => NumberSet(s.consumers, i, Waiting, Done);
  }

  /** Until the end comes nearer, what is useful stays so. */
  lemma StaysUseful(s: State, b: Action, a: Action, c: Conf)
    requires Shaped(s.ring, c) && c.timeout == 0 && Useful(s, a, c)
    ensures var t := Act(s, b, c);
            Pending(t) < Pending(s) || (Pending(t) == Pending(s) && Useful(t, a, c))
  {
    if Useful(s, b, c) {
      UsefulPends(s, b, c);
    } else if b.WakeProducer? || b.WakeConsumer? {
      WakePends(s, b, c);
    } else if Enabled(s, b) {
      SleepPends(s, b, c);
    }
  }

  lemma NeverMore(s: State, b: Action, c: Conf)
    requires Shaped(s.ring, c) && c.timeout == 0
    ensures Pending(Act(s, b, c)) <= Pending(s)
  {
    if Useful(s, b, c) {
      UsefulPends(s, b, c);
    } else if b.WakeProducer? || b.WakeConsumer? {
      WakePends(s, b, c);
    } else if Enabled(s, b) {
      SleepPends(s, b, c);
    }
  }

  lemma GoodAt(s0: State, f: nat -> Action, n: nat, c: Conf, file: seq<string>)
    requires Good(s0, c, file)
    ensures Good(StateAt(s0, f, n, c), c, file)
    ensures |StateAt(s0, f, n, c).producers| == |s0.producers| && |StateAt(s0, f, n, c).consumers| == |s0.consumers|
  {
    var actions := seq(n, i requires 0 <= i < n => f(i));
    AtIsFold(Steps(c), s0, f, n, actions);
    RunKeepsGood(s0, actions, c, file);
  }

  /** From s to t the end has come nearer, or what was useful still is. */
  predicate StillUseful(s: State, t: State, a: Action, c: Conf) {
    Pending(t) < Pending(s) || (Pending(t) == Pending(s) && Useful(t, a, c))
  }

  lemma StillUsefulNext(s: State, t: State, b: Action, a: Action, c: Conf)
    requires Shaped(t.ring, c) && c.timeout == 0 && StillUseful(s, t, a, c)
    ensures StillUseful(s, Act(t, b, c), a, c)
  {
    NeverMore(t, b, c);
    if Useful(t, a, c) { StaysUseful(t, b, a, c); }
  }

  lemma {:induction false} UsefulUntil(s: State, f: nat -> Action, k: nat, a: Action, c: Conf, file: seq<string>)
    requires Good(s, c, file) && c.timeout == 0 && Useful(s, a, c)
    ensures StillUseful(s, StateAt(s, f, k, c), a, c)
  {
    if k > 0 {
      UsefulUntil(s, f, k - 1, a, c, file);
      GoodAt(s, f, k - 1, c, file);
      StillUsefulNext(s, StateAt(s, f, k - 1, c), f(k - 1), a, c);
    }
  }

  lemma FairLater(s: State, f: nat -> Action, k: nat, c: Conf, file: seq<string>)
    requires Good(s, c, file) && Fair(s, f)
    ensures Good(StateAt(s, f, k, c), c, file) && Fair(StateAt(s, f, k, c), Later(f, k))
  {
    GoodAt(s, f, k, c, file);
    forall i: nat, n: nat | i < |s.producers|
      ensures RunsAgain(Later(f, k), Produce(i), n)
    {
      RunsAgainLater(f, Produce(i), k, n);
    }
    forall i: nat, n: nat | i < |s.consumers|
      ensures RunsAgain(Later(f, k), Consume(i), n)
    {
      RunsAgainLater(f, Consume(i), k, n);
    }
  }

  lemma StateNext(s: State, f: nat -> Action, n: nat, c: Conf)
    ensures StateAt(s, f, n + 1, c) == Act(StateAt(s, f, n, c), f(n), c)
  {
  }

  /** Sooner or later a useful call brings the end nearer. */
  lemma Nearer(s: State, f: nat -> Action, a: Action, c: Conf, file: seq<string>) returns (m: nat)
    requires Good(s, c, file) && c.timeout == 0 && Fair(s, f) && Useful(s, a, c)
    ensures Pending(StateAt(s, f, m, c)) < Pending(s)
  {
    assert RunsAgain(f, a, 0);
    m := NextTurn(f, a, 0);
    UsefulUntil(s, f, m, a, c, file);
    if Pending(StateAt(s, f, m, c)) == Pending(s) {
      GoodAt(s, f, m, c, file);
      UsefulPends(StateAt(s, f, m, c), a, c);
      StateNext(s, f, m, c);
      m := m + 1;
    }
  }

  lemma DoneIsComplete(s: State, c: Conf, file: seq<string>)
    requires Good(s, c, file) && s.consumers != [] && AllDone(s)
    ensures s.ring.printed == Selection(c, Numbered(file)) && Prints(c, file, s.ring.printed)
  {
    assert s.consumers[0] in s.consumers;
    WholeFilePrinted(s.ring, c, file);
  }

  predicate Complete(s: State, c: Conf, file: seq<string>) {
    AllDone(s) && s.ring.printed == Selection(c, Numbered(file)) && Prints(c, file, s.ring.printed)
  }

  lemma CompleteLater(s: State, f: nat -> Action, k: nat, more: nat, c: Conf, file: seq<string>)
    requires Complete(StateAt(StateAt(s, f, k, c), Later(f, k), more, c), c, file)
    ensures Complete(StateAt(s, f, k + more, c), c, file)
  {
    AtLater(Steps(c), s, f, k, more);
  }

  lemma OnTheWay(s: State, f: nat -> Action, c: Conf, file: seq<string>) returns (k: nat)
    requires Good(s, c, file) && c.timeout == 0 && c.bufferLength > 0 && Fair(s, f)
    requires s.producers != [] && s.consumers != [] && !AllDone(s)
    ensures Good(StateAt(s, f, k, c), c, file) && Fair(StateAt(s, f, k, c), Later(f, k))
    ensures StateAt(s, f, k, c).producers != [] && StateAt(s, f, k, c).consumers != []
    ensures 0 <= Pending(StateAt(s, f, k, c)) < Pending(s)
  {
    var a := NoDeadlock(s, c);
    k := Nearer(s, f, a, c, file);
    GoodAt(s, f, k, c, file);
    FairLater(s, f, k, c, file);
    var t := StateAt(s, f, k, c);
    ToDoIsNatural(t.ring, t.producers, t.consumers, Done);
  }

  /** On every fair schedule all threads return, however many spurious wake-ups there are, and then
      exactly the selected lines of the file have been printed, in their order. */
  lemma {:induction false} FairRunsFinish(s: State, f: nat -> Action, c: Conf, file: seq<string>) returns (m: nat)
    requires Good(s, c, file) && c.timeout == 0 && c.bufferLength > 0 && Fair(s, f)
    requires s.producers != [] && s.consumers != []
    ensures Complete(StateAt(s, f, m, c), c, file)
    decreases Pending(s)
  {
    if AllDone(s) {
      m := 0;
      DoneIsComplete(s, c, file);
    } else {
      var k := OnTheWay(s, f, c, file);
      var more := FairRunsFinish(StateAt(s, f, k, c), Later(f, k), c, file);
      CompleteLater(s, f, k, more, c, file);
      m := k + more;
    }
  }

  /** A ring without room is the only length that stops the program: nobody ever returns. */
  lemma {:induction false} NoRoomNoEnd(file: seq<string>, p: nat, q: nat, c: Conf, actions: seq<Action>)
    requires c.bufferLength == 0
    ensures var s := Run(Initial(file, p, q, c), actions, c);
            s.ring == Start(file, c) && Done !in s.producers && Done !in s.consumers
  {
    if actions != [] {
      var before, a := actions[..|actions| - 1], actions[|actions| - 1];
      NoRoomNoEnd(file, p, q, c, before);
      var s := Run(Initial(file, p, q, c), before, c);
      if Enabled(s, a) {
        match a
        case Produce(i) => SetThread(s.producers, i, Waiting);
        case Consume(i) => SetThread(s.consumers, i, Waiting);
        case WakeProducer(i) => SetThread(s.producers, i, Ready);
        case WakeConsumer(i) => SetThread(s.consumers, i, Ready);
      }
    }
  }

  /** From the start: a fair run ends if and only if the ring has room. */
  lemma EndsIffRoom(file: seq<string>, p: nat, q: nat, c: Conf, f: nat -> Action)
    requires p > 0 && q > 0 && c.timeout == 0 && Fair(Initial(file, p, q, c), f)
    ensures (exists m: nat :: AllDone(StateAt(Initial(file, p, q, c), f, m, c))) <==> c.bufferLength > 0
  {
    var s0 := Initial(file, p, q, c);
    if c.bufferLength > 0 {
      InitialGood(file, p, q, c);
      var m := FairRunsFinish(s0, f, c, file);
    } else {
      forall m: nat
        ensures !AllDone(StateAt(s0, f, m, c))
      {
        var actions := seq(m, i requires 0 <= i < m => f(i));
        AtIsFold(Steps(c), s0, f, m, actions);
        NoRoomNoEnd(file, p, q, c, actions);
        InitialGood(file, p, q, c);
        RunKeepsGood(s0, actions, c, file);
        var t := Run(s0, actions, c);
        assert t.consumers[0] in t.consumers;
      }
    }
  }
}

/** The bounded buffer with semaphores: a thread that cannot go on leaves the lock and passes a
    turnstile, a semaphore that it posts again as soon as it has got through. */
module Turnstiles {
  import opened Counting
  import opened LineBuffer
  import opened Runs

  /** About to call, in front of the turnstile, through it but not yet having posted it, returned. */
  datatype Stage = Ready | Before | Through | Done

  datatype State = State(ring: Ring, producers: seq<Stage>, consumers: seq<Stage>, emptySem: nat, fullSem: nat)

  /** One atomic step of a thread: a critical section, a wait or a post. */
  datatype Action = Producer(i: nat) | Consumer(i: nat)

  function Next(code: Code, c: Conf): Stage {
    match code
    case Wait => Before
    case Again => Ready
    case Stop => if c.timeout == 0 then Done else Ready
  }

  predicate IsThread(s: State, a: Action) {
    match a
    case Producer(i) => i < |s.producers|
    case Consumer(i) => i < |s.consumers|
  }

  function StageOf(s: State, a: Action): Stage
    requires IsThread(s, a)
  {
    match a
    case Producer(i) => s.producers[i]
    case Consumer(i) => s.consumers[i]
  }

  /** The turnstile of a thread. */
  function Turnstile(s: State, a: Action): nat {
    if a.Producer? then s.fullSem else s.emptySem
  }

  predicate Enabled(s: State, a: Action) {
    IsThread(s, a) && StageOf(s, a) != Done && (StageOf(s, a) == Before ==> Turnstile(s, a) > 0)
  }

  function Act(s: State, a: Action, c: Conf): State {
    if !Shaped(s.ring, c) || !Enabled(s, a) then s else
      match a
      case Producer(i) =>
        if s.producers[i] == Ready then
          var r := Add(s.ring, c);
          s.(ring := r.ring, producers := s.producers[i := Next(r.code, c)],
             emptySem := s.emptySem + if r.wake then 1 else 0)
        else if s.producers[i] == Before then
          s.(producers := s.producers[i := Through], fullSem := s.fullSem - 1)
        else s.(producers := s.producers[i := Ready], fullSem := s.fullSem + 1)
      case Consumer(i) =>
        if s.consumers[i] == Ready then
          var r := Remove(s.ring, c);
          s.(ring := r.ring, consumers := s.consumers[i := Next(r.code, c)],
             fullSem := s.fullSem + if r.wake then 1 else 0)
        else if s.consumers[i] == Before then
          s.(consumers := s.consumers[i := Through], emptySem := s.emptySem - 1)
        else s.(consumers := s.consumers[i := Ready], emptySem := s.emptySem + 1)
  }

  function Steps(c: Conf): (State, Action) -> State {
    (s: State, a: Action) => Act(s, a, c)
  }

  function Run(s: State, actions: seq<Action>, c: Conf): State {
    Fold(Steps(c), s, actions)
  }

  /** The state after n turns of an endless schedule. */
  function StateAt(s: State, f: nat -> Action, n: nat, c: Conf): State {
    At(Steps(c), s, f, n)
  }

  function Initial(file: seq<string>, p: nat, q: nat, c: Conf): State {
    State(Start(file, c), seq(p, _ => Ready), seq(q, _ => Ready), 0, 1)
  }

  // ---------------------------------------------------------------- safety

  /** Whoever takes a turnstile's token still owes it, and the turnstile of the consumers has been
      opened once there was anything to take. */
  predicate Open(s: State, c: Conf) {
    && s.fullSem + Number(s.producers, Through) >= 1
    && (s.ring.lineNumber > 0 || s.ring.endOfFile ==> s.emptySem + Number(s.consumers, Through) >= 1)
    && (Done in s.producers ==> s.ring.endOfFile)
    && (Done in s.consumers ==> s.ring.endOfFile && s.ring.elements == 0)
  }

  predicate Good(s: State, c: Conf, file: seq<string>) {
    IsQueue(s.ring, c, file) && Open(s, c)
  }

  lemma ProducerOpen(s: State, i: nat, c: Conf)
    requires Shaped(s.ring, c) && Open(s, c) && Enabled(s, Producer(i))
    requires s.ring.elements <= s.ring.lineNumber && (s.ring.endOfFile ==> s.ring.source == [])
    ensures Open(Act(s, Producer(i), c), c)
  {
    var t := Act(s, Producer(i), c).producers[i];
    SetThread(s.producers, i, t);
    NumberSet(s.producers, i, t, Through);
  }

  lemma ConsumerOpen(s: State, i: nat, c: Conf)
    requires Shaped(s.ring, c) && Open(s, c) && Enabled(s, Consumer(i))
    ensures Open(Act(s, Consumer(i), c), c)
  {
    var t := Act(s, Consumer(i), c).consumers[i];
    SetThread(s.consumers, i, t);
    NumberSet(s.consumers, i, t, Through);
  }

  /** What progress rests on, whatever the file. */
  predicate Sound(s: State, c: Conf) {
    && Shaped(s.ring, c) && Open(s, c)
    && s.ring.elements <= s.ring.lineNumber && (s.ring.endOfFile ==> s.ring.source == [])
  }

  lemma ActSound(s: State, a: Action, c: Conf)
    requires Sound(s, c)
    ensures Sound(Act(s, a, c), c)
  {
    if Enabled(s, a) {
      match a
      case Producer(i) => ProducerOpen(s, i, c);
      case Consumer(i) => ConsumerOpen(s, i, c);
    }
  }

  lemma ActGood(s: State, a: Action, c: Conf, file: seq<string>)
    requires Good(s, c, file)
    ensures Good(Act(s, a, c), c, file)
  {
    if Enabled(s, a) {
      match a
      case Producer(i) => AddKeepsQueue(s.ring, c, file);
      case Consumer(i) => RemoveKeepsQueue(s.ring, c, file);
    }
    ActSound(s, a, c);
  }

  lemma InitialGood(file: seq<string>, p: nat, q: nat, c: Conf)
    ensures Good(Initial(file, p, q, c), c, file)
  {
    StartQueues(file, c);
  }

  lemma ActKeepsThreads(s: State, a: Action, c: Conf)
    ensures |Act(s, a, c).producers| == |s.producers| && |Act(s, a, c).consumers| == |s.consumers|
  {
  }

  /** In every run, from any good state, the ring is the same queue over the file as in the other
      version and the turnstiles stay open; no thread is lost. */
  lemma {:induction false} RunKeepsGood(s: State, actions: seq<Action>, c: Conf, file: seq<string>)
    requires Good(s, c, file)
    ensures Good(Run(s, actions, c), c, file)
    ensures |Run(s, actions, c).producers| == |s.producers| && |Run(s, actions, c).consumers| == |s.consumers|
  {
    if actions != [] {
      var before := actions[..|actions| - 1];
      RunKeepsGood(s, before, c, file);
      ActGood(Run(s, before, c), actions[|actions| - 1], c, file);
      ActKeepsThreads(Run(s, before, c), actions[|actions| - 1], c);
    }
  }

  lemma {:induction false} RunKeepsSound(s: State, actions: seq<Action>, c: Conf)
    requires Sound(s, c)
    ensures Sound(Run(s, actions, c), c)
    ensures |Run(s, actions, c).producers| == |s.producers| && |Run(s, actions, c).consumers| == |s.consumers|
  {
    if actions != [] {
      var before := actions[..|actions| - 1];
      RunKeepsSound(s, before, c);
      ActSound(Run(s, before, c), actions[|actions| - 1], c);
      ActKeepsThreads(Run(s, before, c), actions[|actions| - 1], c);
    }
  }

  lemma RunGood(file: seq<string>, p: nat, q: nat, c: Conf, actions: seq<Action>)
    ensures Good(Run(Initial(file, p, q, c), actions, c), c, file)
  {
    InitialGood(file, p, q, c);
    RunKeepsGood(Initial(file, p, q, c), actions, c, file);
  }

  predicate AllDone(s: State) {
    AllAre(s.producers, s.consumers, Done)
  }

  function Pending(s: State): int {
    ToDo(s.ring, s.producers, s.consumers, Done)
  }

  // ---------------------------------------------------------------- one turn

  /** The ring has something for the thread's call: room, or a line or the end of the file. */
  predicate CanCall(s: State, a: Action, c: Conf) {
    if a.Producer? then s.ring.elements < c.bufferLength else s.ring.elements > 0 || s.ring.endOfFile
  }

  predicate Wants(s: State, a: Action, c: Conf) {
    IsThread(s, a) && StageOf(s, a) != Done && CanCall(s, a, c)
  }

  /** How far a thread is from its next call. */
  function Distance(s: State, a: Action): nat
    requires IsThread(s, a)
  {
    match StageOf(s, a) case Before => 2 case Through => 1 case Ready => 0 case Done => 0
  }

  predicate SameSide(a: Action, b: Action) {
    a.Producer? == b.Producer?
  }

  /** A call that the ring has something for brings the end nearer. */
  lemma CallPends(s: State, a: Action, c: Conf)
    requires Shaped(s.ring, c) && c.timeout == 0 && Wants(s, a, c) && StageOf(s, a) == Ready
    ensures Pending(Act(s, a, c)) < Pending(s)
  {
    var t := Act(s, a, c);
    match a
    case Producer(i) => NumberSet(s.producers, i, t.producers[i], Done);
    case Consumer(i) => NumberSet(s.consumers, i, t.consumers[i], Done);
  }

  /** Any other step leaves the ring and what is pending as they are. */
  lemma OtherPends(s: State, b: Action, c: Conf)
    requires Shaped(s.ring, c) && c.timeout == 0 && Enabled(s, b)
    requires StageOf(s, b) == Ready ==> !CanCall(s, b, c)
    ensures Pending(Act(s, b, c)) == Pending(s) && Act(s, b, c).ring == s.ring
    ensures StageOf(Act(s, b, c), b) != Done
    ensures StageOf(s, b) == Through ==> StageOf(Act(s, b, c), b) == Ready
    ensures StageOf(s, b) == Before ==> StageOf(Act(s, b, c), b) == Through
  {
    var t := Act(s, b, c);
    match b
    case Producer(i) => NumberSet(s.producers, i, t.producers[i], Done);
    case Consumer(i) => NumberSet(s.consumers, i, t.consumers[i], Done);
  }

  lemma OthersStay(s: State, b: Action, a: Action, c: Conf)
    requires IsThread(s, a) && a != b
    ensures IsThread(Act(s, b, c), a) && StageOf(Act(s, b, c), a) == StageOf(s, a)
  {
  }

  lemma NeverMore(s: State, b: Action, c: Conf)
    requires Shaped(s.ring, c) && c.timeout == 0
    ensures Pending(Act(s, b, c)) <= Pending(s)
  {
    if Enabled(s, b) {
      if StageOf(s, b) == Ready && CanCall(s, b, c) {
        CallPends(s, b, c);
      } else {
        OtherPends(s, b, c);
      }
    }
  }

  /** Until the end comes nearer, a thread that can call stays so and gets no further away from it. */
  lemma StaysWanting(s: State, b: Action, a: Action, c: Conf)
    requires Shaped(s.ring, c) && c.timeout == 0 && Wants(s, a, c)
    ensures var t := Act(s, b, c);
            || Pending(t) < Pending(s)
            || (Pending(t) == Pending(s) && Wants(t, a, c) && Distance(t, a) <= Distance(s, a))
  {
    if Enabled(s, b) {
      if StageOf(s, b) == Ready && CanCall(s, b, c) {
        CallPends(s, b, c);
      } else {
        OtherPends(s, b, c);
        if a != b { OthersStay(s, b, a, c); }
      }
    }
  }

  /** When the turnstile is closed, somebody of the same side is through it. */
  lemma SomebodyThrough(s: State, a: Action, c: Conf) returns (b: Action)
    requires Sound(s, c) && Wants(s, a, c) && Turnstile(s, a) == 0
    ensures SameSide(a, b) && Wants(s, b, c) && StageOf(s, b) == Through
  {
    var ts := if a.Producer? then s.producers else s.consumers;
    Present(ts, Through);
    var j := Position(ts, Through);
    b := if a.Producer? then Producer(j) else Consumer(j);
  }
}

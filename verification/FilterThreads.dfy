/** All the threads of the filter at once, in any order, and the main thread polling their flags. */
module FilterThreads {
  import opened Arithmetic
  import opened Counting
  import opened ImageFilter

  /** A thread in its two outer loops, and its FINISHED flag. */
  datatype Thread = Thread(x: nat, y: nat, finished: bool)

  datatype Poll = Polling(i: nat, flag: bool) | Out

  /** `writes` records the pixels written, counted from 0. */
  datatype State = State(output: seq<seq<int>>, threads: seq<Thread>, poll: Poll, writes: multiset<(int, int)>)

  datatype Turn = Worker(k: nat) | Poller

  function Initial(t: Task): State
    requires Valid(t)
  {
    State(seq(t.height, _ => seq(t.width, _ => 0)),
          seq(t.threads, k requires 0 <= k < t.threads => Thread(1, Lo(t, k) + 1, false)),
          Polling(0, true), multiset{})
  }

  /** The two loop variables stay in their ranges. */
  predicate InRange(t: Task, k: nat, th: Thread)
    requires t.threads >= 1
  {
    1 <= th.x <= t.height + 1 && Lo(t, k) < th.y <= Hi(t, k) + 1 && (th.finished ==> th.x == t.height + 1)
  }

  predicate Shaped(t: Task, s: State) {
    && Valid(t)
    && |s.output| == t.height && (forall a :: 0 <= a < t.height ==> |s.output[a]| == t.width)
    && |s.threads| == t.threads && (forall k :: 0 <= k < t.threads ==> InRange(t, k, s.threads[k]))
    && (s.poll.Polling? ==> s.poll.i <= t.threads)
  }

  /** One pixel, one turn of the outer loop, or the flag. */
  function Work(t: Task, s: State, k: nat): (r: State)
    requires Shaped(t, s) && k < t.threads
    ensures Shaped(t, r) && r.poll == s.poll
    ensures forall m :: 0 <= m < t.threads && m != k ==> r.threads[m] == s.threads[m]
  {
    Adjacent(t, k);
    var th := s.threads[k];
    if th.finished then s
    else if th.x > t.height then s.(threads := s.threads[k := th.(finished := true)])
    else if th.y > Hi(t, k) then s.(threads := s.threads[k := Thread(th.x + 1, Lo(t, k) + 1, false)])
    else
      var a, b := th.x - 1, th.y - 1;
      s.(output := s.output[a := s.output[a][b := Pixel(t, th.x, th.y)]],
         threads := s.threads[k := th.(y := th.y + 1)],
         writes := s.writes + multiset{(a, b)})
  }

  /** One flag read by the main thread, or the end of one round. */
  function PollStep(t: Task, s: State): (r: State)
    requires Shaped(t, s)
    ensures Shaped(t, r) && r.threads == s.threads
  {
    match s.poll
    case Out => s
    case Polling(i, flag) =>
      if i < t.threads then s.(poll := Polling(i + 1, flag && s.threads[i].finished))
      else if flag then s.(poll := Out)
      else s.(poll := Polling(0, true))
  }

  function Step(t: Task, s: State, turn: Turn): (r: State)
    requires Shaped(t, s)
    ensures Shaped(t, r)
  {
    match turn
    case Worker(k) => if k < t.threads then Work(t, s, k) else s
    case Poller => PollStep(t, s)
  }

  lemma InitialShaped(t: Task)
    requires Valid(t)
    ensures Shaped(t, Initial(t))
  {
    forall k: nat | k < t.threads
      ensures Lo(t, k) <= Hi(t, k)
    {
      Adjacent(t, k);
    }
  }

  function Run(t: Task, turns: seq<Turn>): (r: State)
    requires Valid(t)
    ensures Shaped(t, r)
  {
    InitialShaped(t);
    if turns == [] then Initial(t) else Step(t, Run(t, turns[..|turns| - 1]), turns[|turns| - 1])
  }

  // ---------------------------------------------------------------- what has been written

  function Image(t: Task): (image: seq<seq<int>>)
    requires Valid(t)
    ensures |image| == t.height && forall a :: 0 <= a < t.height ==> |image[a]| == t.width
    ensures forall a, b :: 0 <= a < t.height && 0 <= b < t.width ==> image[a][b] == Pixel(t, a + 1, b + 1)
  {
    seq(t.height, a requires 0 <= a < t.height => seq(t.width, b requires 0 <= b < t.width => Pixel(t, a + 1, b + 1)))
  }

  predicate Passed(th: Thread, a: int, b: int) {
    a + 1 < th.x || (a + 1 == th.x && b + 1 < th.y)
  }

  /** The owner of the pixel has come past it, and then it has its value and was written once. */
  predicate Written(t: Task, s: State, a: int, b: int)
    requires Shaped(t, s) && 0 <= a < t.height && 0 <= b < t.width
  {
    var past := Passed(s.threads[Owner(t, b + 1)], a, b);
    && (past ==> s.output[a][b] == Pixel(t, a + 1, b + 1))
    && s.writes[(a, b)] == if past then 1 else 0
  }

  predicate AllWritten(t: Task, s: State)
    requires Shaped(t, s)
  {
    && (forall a, b :: 0 <= a < t.height && 0 <= b < t.width ==> Written(t, s, a, b))
    && (forall p :: p in s.writes ==> 0 <= p.0 < t.height && 0 <= p.1 < t.width)
  }

  predicate Polled(s: State) {
    match s.poll
    case Polling(i, flag) => flag ==> forall k :: 0 <= k < i && k < |s.threads| ==> s.threads[k].finished
    case Out => forall k :: 0 <= k < |s.threads| ==> s.threads[k].finished
  }

  lemma WorkWrites(t: Task, s: State, k: nat, a: int, b: int)
    requires Shaped(t, s) && k < t.threads && 0 <= a < t.height && 0 <= b < t.width
    requires Written(t, s, a, b)
    ensures Written(t, Work(t, s, k), a, b)
  {
    var o := Owner(t, b + 1);
    OneOwner(t, k, s.threads[k].y);
    OneOwner(t, k, b + 1);
  }

  lemma StepWritten(t: Task, s: State, turn: Turn, a: int, b: int)
    requires Shaped(t, s) && 0 <= a < t.height && 0 <= b < t.width
    requires Written(t, s, a, b)
    ensures Written(t, Step(t, s, turn), a, b)
  {
    if turn.Worker? && turn.k < t.threads { WorkWrites(t, s, turn.k, a, b); }
  }

  lemma StepWrites(t: Task, s: State, turn: Turn)
    requires Shaped(t, s) && AllWritten(t, s)
    ensures AllWritten(t, Step(t, s, turn))
  {
    var r := Step(t, s, turn);
    forall a, b | 0 <= a < t.height && 0 <= b < t.width
      ensures Written(t, r, a, b)
    {
      StepWritten(t, s, turn, a, b);
    }
    if turn.Worker? && turn.k < t.threads { Adjacent(t, turn.k); }
  }

  lemma StepPolls(t: Task, s: State, turn: Turn)
    requires Shaped(t, s) && Polled(s)
    ensures Polled(Step(t, s, turn))
  {
  }

  lemma InitialWrites(t: Task)
    requires Valid(t)
    ensures AllWritten(t, Run(t, [])) && Polled(Run(t, []))
  {
    InitialShaped(t);
    forall a, b | 0 <= a < t.height && 0 <= b < t.width
      ensures Written(t, Initial(t), a, b)
    {
      OneOwner(t, Owner(t, b + 1), b + 1);
    }
  }

  lemma {:induction false} RunWrites(t: Task, turns: seq<Turn>)
    requires Valid(t)
    ensures AllWritten(t, Run(t, turns)) && Polled(Run(t, turns))
  {
    if turns == [] {
      InitialWrites(t);
    } else {
      var before, turn := turns[..|turns| - 1], turns[|turns| - 1];
      RunWrites(t, before);
      StepWrites(t, Run(t, before), turn);
      StepPolls(t, Run(t, before), turn);
    }
  }

  ghost predicate Complete(t: Task, s: State)
    requires Valid(t)
  {
    && s.output == Image(t)
    && (forall a, b :: s.writes[(a, b)] == if 0 <= a < t.height && 0 <= b < t.width then 1 else 0)
  }

  lemma FinishedIsComplete(t: Task, s: State)
    requires Shaped(t, s) && AllWritten(t, s) && (forall k :: 0 <= k < t.threads ==> s.threads[k].finished)
    ensures Complete(t, s)
  {
    forall a, b | 0 <= a < t.height && 0 <= b < t.width
      ensures s.output[a][b] == Image(t)[a][b] && s.writes[(a, b)] == 1
    {
      assert Written(t, s, a, b);
      assert s.threads[Owner(t, b + 1)].finished;
    }
    assert forall a :: 0 <= a < t.height ==> s.output[a] == Image(t)[a];
    forall a, b
      ensures s.writes[(a, b)] > 0 ==> 0 <= a < t.height && 0 <= b < t.width
    {
      assert s.writes[(a, b)] > 0 ==> (a, b) in s.writes;
    }
  }

  /** Whatever the interleaving, when the main thread leaves its loop the output is the filtered image
      and every pixel of it was written exactly once. */
  lemma OutputIsImage(t: Task, turns: seq<Turn>)
    requires Valid(t)
    ensures Run(t, turns).poll.Out? ==> Complete(t, Run(t, turns))
  {
    RunWrites(t, turns);
    if Run(t, turns).poll.Out? { FinishedIsComplete(t, Run(t, turns)); }
  }

  // ---------------------------------------------------------------- termination

  /** The turns thread k needs: a row takes one for each column and one for the outer loop. */
  function Turns(t: Task, k: nat): int
    requires t.threads >= 1
  {
    t.height * (Hi(t, k) - Lo(t, k) + 1) + 1
  }

  function Left(t: Task, k: nat, th: Thread): int
    requires t.threads >= 1
  {
    if th.finished then 0
    else if th.x > t.height then 1
    else (t.height - th.x) * (Hi(t, k) - Lo(t, k) + 1) + Hi(t, k) - th.y + 3
  }

  /** A turn of a thread that has not finished brings it one turn nearer to its end. */
  lemma WorkLeft(t: Task, s: State, k: nat)
    requires Shaped(t, s) && k < t.threads
    ensures var before := Left(t, k, s.threads[k]);
            Left(t, k, Work(t, s, k).threads[k]) == if before > 0 then before - 1 else 0
    ensures Left(t, k, s.threads[k]) >= 0
  {
    var th, w := s.threads[k], Hi(t, k) - Lo(t, k) + 1;
    if th.x <= t.height {
      Order(0, t.height - th.x, w);
      assert (t.height - th.x) * w == (t.height - th.x - 1) * w + w;
    }
  }

  lemma StepLeft(t: Task, s: State, turn: Turn, k: nat)
    requires Shaped(t, s) && k < t.threads
    ensures Left(t, k, s.threads[k]) >= 0
    ensures var before := Left(t, k, s.threads[k]);
            Left(t, k, Step(t, s, turn).threads[k]) == if turn == Worker(k) && before > 0 then before - 1 else before
  {
    WorkLeft(t, s, k);
  }

  lemma InitialLeft(t: Task, k: nat)
    requires Valid(t) && k < t.threads
    ensures Left(t, k, Initial(t).threads[k]) == Turns(t, k)
  {
    var w := Hi(t, k) - Lo(t, k) + 1;
    assert t.height * w == (t.height - 1) * w + w;
  }

  /** In every run, what a thread still needs is what it needed less the turns it has had. */
  lemma {:induction false} TurnsCount(t: Task, turns: seq<Turn>, k: nat)
    requires Valid(t) && k < t.threads
    ensures var had, need := Number(turns, Worker(k)), Turns(t, k);
            Left(t, k, Run(t, turns).threads[k]) == if had < need then need - had else 0
  {
    if turns == [] {
      InitialLeft(t, k);
      InitialShaped(t);
      Order(0, t.height, Hi(t, k) - Lo(t, k) + 1);
    } else {
      var before, turn := turns[..|turns| - 1], turns[|turns| - 1];
      TurnsCount(t, before, k);
      assert turns == before + [turn];
      NumberSnoc(before, turn, Worker(k));
      StepLeft(t, Run(t, before), turn, k);
    }
  }

  predicate AllFinished(s: State) {
    forall k :: 0 <= k < |s.threads| ==> s.threads[k].finished
  }

  lemma NoneLeft(t: Task, k: nat, th: Thread)
    requires t.threads >= 1 && InRange(t, k, th) && Left(t, k, th) <= 0
    ensures th.finished
  {
    if th.x <= t.height { Order(0, t.height - th.x, Hi(t, k) - Lo(t, k) + 1); }
  }

  lemma TurnsFinish(t: Task, turns: seq<Turn>, k: nat)
    requires Valid(t) && k < t.threads && Number(turns, Worker(k)) >= Turns(t, k)
    ensures Run(t, turns).threads[k].finished
  {
    TurnsCount(t, turns, k);
    NoneLeft(t, k, Run(t, turns).threads[k]);
  }

  /** A schedule that gives every thread its turns finishes the image, in whatever order it does so. */
  lemma EnoughTurns(t: Task, turns: seq<Turn>)
    requires Valid(t) && forall k: nat :: k < t.threads ==> Number(turns, Worker(k)) >= Turns(t, k)
    ensures AllFinished(Run(t, turns)) && Complete(t, Run(t, turns))
  {
    forall k: nat | k < t.threads
      ensures Run(t, turns).threads[k].finished
    {
      TurnsFinish(t, turns, k);
    }
    RunWrites(t, turns);
    FinishedIsComplete(t, Run(t, turns));
  }

  function PollsLeft(t: Task, s: State): int {
    match s.poll
    case Out => 0
    case Polling(i, flag) => if flag then t.threads - i + 1 else 2 * t.threads - i + 2
  }

  /** How many polls there may still be after `had` of them. */
  function Remaining(t: Task, had: nat): nat {
    if had < 2 * t.threads + 2 then 2 * t.threads + 2 - had else 0
  }

  lemma PollsStep(t: Task, s: State, turn: Turn, had: nat)
    requires Shaped(t, s) && AllFinished(s) && PollsLeft(t, s) <= Remaining(t, had)
    ensures AllFinished(Step(t, s, turn))
    ensures PollsLeft(t, Step(t, s, turn)) <= Remaining(t, if turn == Poller then had + 1 else had)
  {
  }

  lemma RunSnoc(t: Task, turns: seq<Turn>, turn: Turn)
    requires Valid(t)
    ensures Run(t, turns + [turn]) == Step(t, Run(t, turns), turn)
  {
    assert (turns + [turn])[..|turns|] == turns;
  }

  lemma {:induction false} PollsCount(t: Task, first: seq<Turn>, second: seq<Turn>)
    requires Valid(t) && AllFinished(Run(t, first))
    ensures AllFinished(Run(t, first + second))
    ensures PollsLeft(t, Run(t, first + second)) <= Remaining(t, Number(second, Poller))
  {
    if second == [] {
      assert first + second == first;
    } else {
      var before, turn := second[..|second| - 1], second[|second| - 1];
      PollsCount(t, first, before);
      assert second == before + [turn] && first + second == (first + before) + [turn];
      NumberSnoc(before, turn, Poller);
      RunSnoc(t, first + before, turn);
      PollsStep(t, Run(t, first + before), turn, Number(before, Poller));
    }
  }

  /** The main thread leaves its loop once the threads and then it itself have had their turns. */
  lemma AlwaysEnds(t: Task, first: seq<Turn>, second: seq<Turn>)
    requires Valid(t) && forall k: nat :: k < t.threads ==> Number(first, Worker(k)) >= Turns(t, k)
    requires Number(second, Poller) >= 2 * t.threads + 2
    ensures Run(t, first + second).poll.Out? && Complete(t, Run(t, first + second))
  {
    EnoughTurns(t, first);
    PollsCount(t, first, second);
    OutputIsImage(t, first + second);
  }
}

/** The clock dividers: they keep the bit clock slow enough for the debug unit. */
module Prescaler {
  import opened UartTx
  import opened Dbgu
  import opened DumpRun

  const F_IN := 125000000
  const RATIO_A := F_IN / 1000000
  const RATIO_B := F_IN / 115200

  /** One section of the prescaler: a counter and a registered output. */
  datatype Divider = Divider(counter: nat, out: bool)

  function Tick(d: Divider, ratio: nat): Divider {
    Divider(if d.counter < ratio then d.counter + 1 else 0, d.counter >= ratio / 2)
  }

  function At(d: Divider, ratio: nat, n: nat): Divider {
    if n == 0 then d else Tick(At(d, ratio, n - 1), ratio)
  }

  predicate Rises(d: Divider, ratio: nat, n: nat) {
    !At(d, ratio, n).out && At(d, ratio, n + 1).out
  }

  predicate Falls(d: Divider, ratio: nat, n: nat) {
    At(d, ratio, n).out && !At(d, ratio, n + 1).out
  }

  /** A section of the prescaler as it updates its registers. */
  class Section {
    var counter: nat
    var out: bool
    const ratio: nat

    function View(): Divider
      reads this
    {
      Divider(counter, out)
    }

    constructor (ratio: nat)
      ensures View() == Divider(0, false) && this.ratio == ratio
    {
      counter, out := 0, false;
      this.ratio := ratio;
    }

    method ClockIn()
      modifies this
      ensures View() == Tick(old(View()), ratio)
    {
      out := counter >= ratio / 2;
      if counter < ratio { counter := counter + 1; } else { counter := 0; }
    }
  }

  /** The counter is in range and the output was set from it. */
  predicate Running(d: Divider, ratio: nat) {
    && d.counter <= ratio
    && (d.out <==> d.counter == 0 || d.counter > ratio / 2)
  }

  /** Whatever the registers hold at power-up, one tick later the divider runs. */
  lemma TickRuns(d: Divider, ratio: nat)
    requires ratio > 1
    ensures Running(Tick(d, ratio), ratio)
  {
  }

  lemma RunningAt(d: Divider, ratio: nat, n: nat)
    requires ratio > 1 && (n > 0 || Running(d, ratio))
    ensures Running(At(d, ratio, n), ratio)
  {
    if n > 0 { TickRuns(At(d, ratio, n - 1), ratio); }
  }

  /** The output rises when the counter is halfway and falls when it has wrapped round: from the second
      tick on for any registers, and from the first on if the divider was running. */
  lemma EdgesAt(d: Divider, ratio: nat, n: nat)
    requires ratio > 1 && (n > 0 || Running(d, ratio))
    ensures Rises(d, ratio, n) <==> At(d, ratio, n).counter == ratio / 2
    ensures Falls(d, ratio, n) <==> At(d, ratio, n).counter == 0
  {
    RunningAt(d, ratio, n);
  }

  /** Until it wraps round, the counter counts. */
  lemma {:induction false} Counts(d: Divider, ratio: nat, n: nat, k: nat)
    requires At(d, ratio, n).counter + k <= ratio
    ensures At(d, ratio, n + k).counter == At(d, ratio, n).counter + k
  {
    if k > 0 { Counts(d, ratio, n, k - 1); }
  }

  /** The next falling edge is at most one period away. */
  lemma NextFall(d: Divider, ratio: nat, n: nat) returns (k: nat)
    requires ratio > 1 && (n > 0 || Running(d, ratio))
    ensures n <= k <= n + ratio && Falls(d, ratio, k)
  {
    RunningAt(d, ratio, n);
    var c := At(d, ratio, n).counter;
    if c == 0 {
      k := n;
    } else {
      Counts(d, ratio, n, ratio - c);
      k := n + ratio - c + 1;
    }
    EdgesAt(d, ratio, k);
  }

  lemma Wraps(d: Divider, ratio: nat, m: nat)
    requires At(d, ratio, m).counter <= ratio
    ensures At(d, ratio, m + (ratio - At(d, ratio, m).counter) + 1).counter == 0
  {
    Counts(d, ratio, m, ratio - At(d, ratio, m).counter);
  }

  /** The counter takes h ticks from 0 to h. */
  lemma NotBefore(d: Divider, ratio: nat, z: nat, n: nat, h: nat)
    requires h <= ratio && z <= n && At(d, ratio, z).counter == 0 && At(d, ratio, n).counter == h
    ensures n >= z + h
  {
    if n < z + h { Counts(d, ratio, z, n - z); }
  }

  /** From a counter c to the next tick at which it is h, not above c. */
  lemma HalfwayApart(d: Divider, ratio: nat, m: nat, n: nat, c: nat, h: nat)
    requires m < n && c == At(d, ratio, m).counter && h == At(d, ratio, n).counter && h <= c <= ratio
    ensures n - m >= ratio + 1 - (c - h)
  {
    if n - m <= ratio - c {
      Counts(d, ratio, m, n - m);
    } else {
      Wraps(d, ratio, m);
      NotBefore(d, ratio, m + (ratio - c) + 1, n, h);
    }
  }

  /** Two rising edges are at least one period apart; only if the first is the very first tick of
      arbitrary registers it can be half a period. */
  lemma RisesApart(d: Divider, ratio: nat, m: nat, n: nat)
    requires ratio > 1 && m < n && Rises(d, ratio, m) && Rises(d, ratio, n)
    ensures n - m >= if m > 0 || Running(d, ratio) then ratio + 1 else ratio / 2 + 1
  {
    EdgesAt(d, ratio, n);
    if m > 0 || Running(d, ratio) {
      EdgesAt(d, ratio, m);
      HalfwayApart(d, ratio, m, n, ratio / 2, ratio / 2);
    } else {
      FirstRise(d, ratio, n);
    }
  }

  lemma FirstRise(d: Divider, ratio: nat, n: nat)
    requires ratio > 1 && n > 0 && Rises(d, ratio, 0) && Rises(d, ratio, n)
    ensures n >= ratio / 2 + 1
  {
    EdgesAt(d, ratio, n);
    assert d.counter >= ratio / 2;
    var c := At(d, ratio, 1).counter;
    if c == 0 {
      NotBefore(d, ratio, 1, n, ratio / 2);
    } else {
      assert c == d.counter + 1;
      HalfwayApart(d, ratio, 1, n, c, ratio / 2);
    }
  }

  function FallsIn(d: Divider, ratio: nat, from: nat, upto: nat): nat
    decreases upto
  {
    if upto <= from then 0 else FallsIn(d, ratio, from, upto - 1) + if Falls(d, ratio, upto - 1) then 1 else 0
  }

  lemma {:induction false} FallCounts(d: Divider, ratio: nat, from: nat, k: nat, upto: nat)
    requires from <= k < upto && Falls(d, ratio, k)
    ensures FallsIn(d, ratio, from, upto) >= FallsIn(d, ratio, from, k) + 1
    decreases upto
  {
    if k < upto - 1 { FallCounts(d, ratio, from, k, upto - 1); }
  }

  lemma {:induction false} FallsMonotone(d: Divider, ratio: nat, from: nat, k: nat, upto: nat)
    requires from <= k <= upto
    ensures FallsIn(d, ratio, from, k) <= FallsIn(d, ratio, from, upto)
    decreases upto
  {
    if k < upto { FallsMonotone(d, ratio, from, k, upto - 1); }
  }

  lemma {:induction false} FallsInPeriods(d: Divider, ratio: nat, from: nat, k: nat, upto: nat)
    requires ratio > 1 && from > 0 && upto == from + k * (ratio + 1)
    ensures FallsIn(d, ratio, from, upto) >= k
  {
    if k > 0 {
      var mid := from + (k - 1) * (ratio + 1);
      assert upto == mid + ratio + 1;
      FallsInPeriods(d, ratio, from, k - 1, mid);
      var f := NextFall(d, ratio, mid);
      FallsMonotone(d, ratio, from, mid, f);
      FallCounts(d, ratio, from, f, upto);
    }
  }

  /** Between two edges of the bit clock the debug unit gets at least eight, from any registers; only
      the first tick of arbitrary ones can be an edge that is followed by four. */
  lemma EightBetween(a: Divider, b: Divider, m: nat, n: nat)
    requires m < n && Rises(b, RATIO_B, m) && Rises(b, RATIO_B, n)
    ensures FallsIn(a, RATIO_A, m + 1, n) >= if m > 0 || Running(b, RATIO_B) then 8 else 4
  {
    RisesApart(b, RATIO_B, m, n);
    var k := if m > 0 || Running(b, RATIO_B) then 8 else 4;
    assert m + 1 + k * (RATIO_A + 1) <= n;
    FallsInPeriods(a, RATIO_A, m + 1, k, m + 1 + k * (RATIO_A + 1));
    FallsMonotone(a, RATIO_A, m + 1, m + 1 + k * (RATIO_A + 1), n);
  }

  // ---------------------------------------------------------------- the rates

  function Occurrences(p: nat -> bool, n: nat): nat {
    if n == 0 then 0 else Occurrences(p, n - 1) + if p(n - 1) then 1 else 0
  }

  /** At most one in any `period` numbers in a row, and at least one. */
  ghost predicate Periodic(p: nat -> bool, period: nat) {
    && (forall m: nat, n: nat :: m < n && p(m) && p(n) ==> n - m >= period)
    && (forall m: nat :: OccursFrom(p, m, period))
  }

  ghost predicate OccursFrom(p: nat -> bool, m: nat, period: nat) {
    exists k: nat :: m <= k < m + period && p(k)
  }

  lemma {:induction false} NoneUpTo(p: nat -> bool, m: nat, n: nat)
    requires m <= n && forall k: nat :: m <= k < n ==> !p(k)
    ensures Occurrences(p, n) == Occurrences(p, m)
    decreases n
  {
    if m < n { NoneUpTo(p, m, n - 1); }
  }

  lemma AtMostOne(p: nat -> bool, period: nat, m: nat, n: nat)
    requires Periodic(p, period) && m <= n <= m + period
    ensures Occurrences(p, n) <= Occurrences(p, m) + 1
  {
    if k: nat :| m <= k < n && p(k) {
      NoneUpTo(p, m, k);
      NoneUpTo(p, k + 1, n);
    } else {
      NoneUpTo(p, m, n);
    }
  }

  lemma ExactlyOne(p: nat -> bool, period: nat, m: nat)
    requires Periodic(p, period)
    ensures Occurrences(p, m + period) == Occurrences(p, m) + 1
  {
    assert OccursFrom(p, m, period);
    var k: nat :| m <= k < m + period && p(k);
    NoneUpTo(p, m, k);
    NoneUpTo(p, k + 1, m + period);
  }

  lemma {:induction false} OncePerPeriod(p: nat -> bool, period: nat, k: nat, n: nat)
    requires Periodic(p, period) && k * period <= n <= (k + 1) * period
    ensures k <= Occurrences(p, n) <= k + 1
    decreases k
  {
    if k == 0 {
      AtMostOne(p, period, 0, n);
    } else {
      assert (k - 1) * period == k * period - period && (k + 1) * period == k * period + period;
      OncePerPeriod(p, period, k - 1, n - period);
      ExactlyOne(p, period, n - period);
    }
  }

  lemma FallsApart(d: Divider, ratio: nat, m: nat, n: nat)
    requires ratio > 1 && Running(d, ratio) && m < n && Falls(d, ratio, m) && Falls(d, ratio, n)
    ensures n - m >= ratio + 1
  {
    EdgesAt(d, ratio, m);
    EdgesAt(d, ratio, n);
    if n - m <= ratio { Counts(d, ratio, m, n - m); }
  }

  function FallsOf(d: Divider, ratio: nat): nat -> bool {
    (n: nat) => Falls(d, ratio, n)
  }

  function RisesOf(d: Divider, ratio: nat): nat -> bool {
    (n: nat) => Rises(d, ratio, n)
  }

  lemma FallsArePeriodic(d: Divider, ratio: nat)
    requires ratio > 1 && Running(d, ratio)
    ensures Periodic(FallsOf(d, ratio), ratio + 1)
  {
    var p, period := FallsOf(d, ratio), ratio + 1;
    forall m: nat, n: nat | m < n && p(m) && p(n)
      ensures n - m >= ratio + 1
    {
      FallsApart(d, ratio, m, n);
    }
    forall m: nat
      ensures OccursFrom(p, m, period)
    {
      var k := NextFall(d, ratio, m);
      assert p(k);
    }
  }

  lemma RisesArePeriodic(d: Divider, ratio: nat)
    requires ratio > 1 && Running(d, ratio)
    ensures Periodic(RisesOf(d, ratio), ratio + 1)
  {
    var p, period := RisesOf(d, ratio), ratio + 1;
    forall m: nat, n: nat | m < n && p(m) && p(n)
      ensures n - m >= ratio + 1
    {
      RisesApart(d, ratio, m, n);
    }
    forall m: nat
      ensures OccursFrom(p, m, period)
    {
      var k := NextRise(d, ratio, m);
      assert p(k);
    }
  }

  /** In one second of the input clock the main clock falls 992063 or 992064 times: a counter up to the
      ratio takes one tick more than the ratio. */
  lemma MainClockRate(a: Divider, second: nat, period: nat)
    requires Running(a, RATIO_A) && second == 125000000 && period == 126
    ensures 992063 <= Occurrences(FallsOf(a, RATIO_A), second) <= 992064
  {
    FallsArePeriodic(a, RATIO_A);
    OncePerPeriod(FallsOf(a, RATIO_A), period, 992063, second);
  }

  /** And the bit clock rises 115101 or 115102 times, where 115200 were asked for. */
  lemma BitClockRate(b: Divider, second: nat, period: nat)
    requires Running(b, RATIO_B) && second == 125000000 && period == 1086
    ensures 115101 <= Occurrences(RisesOf(b, RATIO_B), second) <= 115102
  {
    RisesArePeriodic(b, RATIO_B);
    OncePerPeriod(RisesOf(b, RATIO_B), period, 115101, second);
  }

  // ---------------------------------------------------------------- the two clocks as events

  /** Edges that coincide are taken in either order. */
  function Batch(main: Event, falls: bool, rises: bool, mainFirst: bool): seq<Event> {
    var ms := if falls then [main] else [];
    var ss := if rises then [Ser] else [];
    if mainFirst then ms + ss else ss + ms
  }

  /** What one tick of the input clock brings. */
  function EventsAt(a: Divider, b: Divider, trig: nat -> bool, mainFirst: nat -> bool, n: nat): seq<Event> {
    Batch(Main(trig(n)), Falls(a, RATIO_A, n), Rises(b, RATIO_B, n), mainFirst(n))
  }

  function Events(a: Divider, b: Divider, trig: nat -> bool, mainFirst: nat -> bool, n: nat): seq<Event> {
    if n == 0 then [] else Events(a, b, trig, mainFirst, n - 1) + EventsAt(a, b, trig, mainFirst, n - 1)
  }

  lemma GapSnoc(es: seq<Event>, ev: Event)
    ensures Gap(es + [ev]) == if ev.Main? then 0 else Gap(es) + 1
    ensures Spaced(es + [ev], 1) <==> Spaced(es, 1) && Gap(es + [ev]) <= 1
    ensures Count(es + [ev]) == Count(es) + if ev.Main? then 0 else 1
  {
    assert (es + [ev])[..|es|] == es;
  }

  /** The last edge of the bit clock, at tick m, was not followed by one of the main clock. */
  predicate Waiting(a: Divider, b: Divider, m: nat, n: nat) {
    m < n && Rises(b, RATIO_B, m) && forall k :: m < k < n ==> !Falls(a, RATIO_A, k)
  }

  lemma WaitingIsShort(a: Divider, b: Divider, m: nat, n: nat)
    requires Waiting(a, b, m, n)
    ensures !Rises(b, RATIO_B, n)
  {
    if Rises(b, RATIO_B, n) {
      RisesApart(b, RATIO_B, m, n);
      var k := NextFall(a, RATIO_A, m + 1);
    }
  }

  /** Appending what one tick brings, when an edge of the bit clock comes only after the main clock. */
  lemma Appended(es: seq<Event>, main: Event, f: bool, r: bool, first: bool)
    requires main.Main? && Spaced(es, 1) && (r ==> Gap(es) == 0)
    ensures Spaced(es + Batch(main, f, r, first), 1)
    ensures Gap(es + Batch(main, f, r, first)) == if r && (first || !f) then 1 else if f then 0 else Gap(es)
    ensures Count(es + Batch(main, f, r, first)) == Count(es) + if r then 1 else 0
  {
    GapSnoc(es, main);
    GapSnoc(es, Ser);
    if f && r {
      GapSnoc(es + [main], Ser);
      GapSnoc(es + [Ser], main);
      assert es + ([main] + [Ser]) == es + [main] + [Ser];
      assert es + ([Ser] + [main]) == es + [Ser] + [main];
    } else {
      assert [main] + [] == [] + [main] == [main] && [Ser] + [] == [] + [Ser] == [Ser];
      if !f && !r { assert es + ([] + []) == es; }
    }
  }

  function RisesIn(b: Divider, n: nat): nat {
    if n == 0 then 0 else RisesIn(b, n - 1) + if Rises(b, RATIO_B, n - 1) then 1 else 0
  }

  /** The first n ticks brought `es`; m is the tick of the last edge of the bit clock if it waits. */
  ghost predicate Orderly(a: Divider, b: Divider, es: seq<Event>, n: nat, m: nat) {
    && Spaced(es, 1) && Gap(es) <= 1
    && (Gap(es) == 1 ==> Waiting(a, b, m, n))
    && Count(es) == RisesIn(b, n)
  }

  lemma OrderlyNext(a: Divider, b: Divider, es: seq<Event>, n: nat, m: nat, main: Event, first: bool) returns (m': nat)
    requires main.Main? && Orderly(a, b, es, n, m)
    ensures Orderly(a, b, es + Batch(main, Falls(a, RATIO_A, n), Rises(b, RATIO_B, n), first), n + 1, m')
  {
    if Gap(es) == 1 { WaitingIsShort(a, b, m, n); }
    Appended(es, main, Falls(a, RATIO_A, n), Rises(b, RATIO_B, n), first);
    m' := if Rises(b, RATIO_B, n) then n else m;
  }

  /** From any registers: the dividers never let two edges of the bit clock follow each other, and none
      of them is lost. */
  lemma {:induction false} ClocksAreSpaced(a: Divider, b: Divider, trig: nat -> bool, mainFirst: nat -> bool, n: nat)
    returns (m: nat)
    ensures Orderly(a, b, Events(a, b, trig, mainFirst, n), n, m)
  {
    m := 0;
    if n > 0 {
      m := ClocksAreSpaced(a, b, trig, mainFirst, n - 1);
      m := OrderlyNext(a, b, Events(a, b, trig, mainFirst, n - 1), n - 1, m, Main(trig(n - 1)), mainFirst(n - 1));
    }
  }

  lemma NextRise(d: Divider, ratio: nat, n: nat) returns (k: nat)
    requires ratio > 1 && (n > 0 || Running(d, ratio))
    ensures n <= k <= n + ratio && Rises(d, ratio, k)
  {
    RunningAt(d, ratio, n);
    var c, h := At(d, ratio, n).counter, ratio / 2;
    if c <= h {
      Counts(d, ratio, n, h - c);
      k := n + h - c;
    } else {
      Counts(d, ratio, n, ratio - c);
      Counts(d, ratio, n + ratio - c + 1, h);
      k := n + ratio - c + 1 + h;
    }
    EdgesAt(d, ratio, k);
  }

  lemma {:induction false} RisesMonotone(b: Divider, k: nat, n: nat)
    requires k <= n
    ensures RisesIn(b, k) <= RisesIn(b, n)
    decreases n
  {
    if k < n { RisesMonotone(b, k, n - 1); }
  }

  lemma {:induction false} RisesInPeriods(b: Divider, start: nat, k: nat, n: nat)
    requires (start > 0 || Running(b, RATIO_B)) && n == start + k * (RATIO_B + 1)
    ensures RisesIn(b, n) >= k
  {
    if k > 0 {
      var mid := start + (k - 1) * (RATIO_B + 1);
      assert n == mid + RATIO_B + 1;
      RisesInPeriods(b, start, k - 1, mid);
      var r := NextRise(b, RATIO_B, mid);
      RisesMonotone(b, mid, r);
      RisesMonotone(b, r + 1, n);
    }
  }

  /** The trigger once released is not pressed again. */
  ghost predicate OnePress(trig: nat -> bool) {
    forall i: nat, j: nat :: i < j && trig(j) ==> trig(i)
  }

  lemma ReleasedAppend(es: seq<Event>, evs: seq<Event>, level: bool)
    requires Released(es) && (level ==> Main(false) !in es)
    requires forall ev :: ev in evs ==> ev == Ser || ev == Main(level)
    ensures Released(es + evs) && (Main(false) in es + evs ==> Main(false) in es || !level)
  {
    var all := es + evs;
    forall i, j | 0 <= i < j < |all| && all[j] == Main(true)
      ensures all[i] != Main(false)
    {
      if i < |es| { assert es[i] in es; } else { assert evs[i - |es|] in evs; }
      if j >= |es| { assert evs[j - |es|] in evs; }
    }
  }

  lemma {:induction false} EventsReleased(a: Divider, b: Divider, trig: nat -> bool, mainFirst: nat -> bool, n: nat)
    requires OnePress(trig)
    ensures Released(Events(a, b, trig, mainFirst, n))
    ensures Main(false) in Events(a, b, trig, mainFirst, n) ==> !trig(n)
  {
    if n > 0 {
      EventsReleased(a, b, trig, mainFirst, n - 1);
      assert trig(n) ==> trig(n - 1);
      ReleasedAppend(Events(a, b, trig, mainFirst, n - 1), EventsAt(a, b, trig, mainFirst, n - 1), trig(n - 1));
    }
  }

  /** On the board: after one press, with the two clocks that the prescaler makes from any registers,
      and from 1206 of its bit periods on (and one tick more if it was not yet running), a receiver on
      the serial line has read exactly one dump. */
  lemma DumpOnBoard(s: Sys, e: Probe, a: Divider, b: Divider, trig: nat -> bool, mainFirst: nat -> bool, n: nat)
    requires Idle(s) && OnePress(trig)
    requires n >= 1206 * (RATIO_B + 1) + if Running(b, RATIO_B) then 0 else 1
    ensures var t := Run(MainStep(s, true, e), Events(a, b, trig, mainFirst, n), e);
            && Receive(Lines(IDLE, t.ins)) == Dump(e) && Shows(Receive(Lines(IDLE, t.ins)), e)
            && t.d.state == 0 && !t.g.pulse
  {
    var es := Events(a, b, trig, mainFirst, n);
    var m := ClocksAreSpaced(a, b, trig, mainFirst, n);
    EventsReleased(a, b, trig, mainFirst, n);
    var start := if Running(b, RATIO_B) then 0 else 1;
    RisesInPeriods(b, start, 1206, start + 1206 * (RATIO_B + 1));
    RisesMonotone(b, start + 1206 * (RATIO_B + 1), n);
    assert Enough(1) == 1206;
    OneTriggerOneDump(s, e, es, 1);
    DumpIsReceived(s, e, es, 1);
  }
}

/** The debug unit and the transmitter on their two clocks: what a whole run puts on the line. */
module DumpRun {
  import opened Arithmetic
  import opened Runs
  import opened Words
  import opened UartTx
  import opened Dbgu

  /** A period of the main clock (its rising edge moves the pulse stretcher and the memory's read
      port, its falling edge the debug unit), or a rising edge of the bit clock. */
  datatype Event = Main(trig: bool) | Ser

  /** The registers, the bytes latched so far and what the transmitter has sampled. */
  datatype Sys = Sys(d: Unit, u: Tx, g: Pulse, sent: seq<Byte>, ins: seq<Sample>)

  function MainStep(s: Sys, trig: bool, e: Probe): Sys {
    var g := PulseEdge(s.g, trig);
    s.(g := g, d := UnitEdge(s.d, s.u.bsy, g.pulse, e, e.mem[s.d.memA]))
  }

  function SerStep(s: Sys): Sys {
    var x := Sample(s.d.start, s.d.pOut);
    s.(u := Edge(s.u, x), sent := s.sent + LatchedBy(s.u, x), ins := s.ins + [x])
  }

  function Next(s: Sys, ev: Event, e: Probe): Sys {
    match ev
    case Main(trig) => MainStep(s, trig, e)
    case Ser => SerStep(s)
  }

  function Nexts(e: Probe): (Sys, Event) -> Sys {
    (s: Sys, ev: Event) => Next(s, ev, e)
  }

  function Run(s: Sys, es: seq<Event>, e: Probe): Sys {
    Fold(Nexts(e), s, es)
  }

  /** Edges of the bit clock since the last period of the main clock. */
  function Gap(es: seq<Event>): nat {
    if es == [] || es[|es| - 1].Main? then 0 else 1 + Gap(es[..|es| - 1])
  }

  /** Never more than k edges of the bit clock in a row. */
  predicate Spaced(es: seq<Event>, k: nat) {
    es == [] || (Gap(es) <= k && Spaced(es[..|es| - 1], k))
  }

  predicate Idle(s: Sys) {
    && s.d.state == 0 && !s.d.start && s.u == IDLE && !s.g.pulse && !s.g.prev
    && s.sent == [] && s.ins == []
  }

  // ---------------------------------------------------------------- order and number of the bytes

  function Dumps(e: Probe, j: nat): (r: seq<Byte>)
    ensures |r| == 86 * j
  {
    if j == 0 then [] else Dumps(e, j - 1) + Dump(e)
  }

  /** How many bytes of the dump under way have been latched. */
  function Taken(s: Sys): int {
    if s.d.start && !s.u.bsy then s.d.state - 2 else s.d.state - 1
  }

  /** After j whole dumps: the handshake between the two machines. */
  ghost predicate Delivering(s: Sys, e: Probe, j: nat, gap: nat) {
    && Sound(s.u) && Walking(s.d) && s.d.state <= LAST_STATE + 1
    && (s.d.start ==> s.d.state >= 2 && s.d.pOut == Dump(e)[s.d.state - 2])
    && (s.d.start && s.u.bsy ==> s.u.state <= gap)
    && if s.d.state == 0 then !s.u.bsy && s.sent == Dumps(e, j)
       else s.sent == Dumps(e, j) + Dump(e)[..Taken(s)]
  }

  lemma MainDelivers(s: Sys, trig: bool, e: Probe, j: nat, gap: nat) returns (j': nat)
    requires Delivering(s, e, j, gap)
    ensures Delivering(MainStep(s, trig, e), e, j', 0)
    ensures j' == if s.d.state == LAST_STATE + 1 && !s.u.bsy && !s.d.start then j + 1 else j
  {
    var d := s.d;
    if d.state > 0 && !s.u.bsy && !d.start {
      if d.state <= LAST_STATE {
        j' := j;
        PresentsDump(d, e, e.mem[d.memA]);
      } else {
        j' := j + 1;
        assert Dump(e)[..86] == Dump(e);
      }
    } else {
      j' := j;
      if d.state == 0 {
        assert Dump(e)[..0] == [];
      }
    }
  }

  lemma SerLatches(s: Sys, e: Probe, j: nat, gap: nat)
    requires Delivering(s, e, j, gap) && Latches(s.u, Sample(s.d.start, s.d.pOut))
    ensures Delivering(SerStep(s), e, j, gap + 1)
  {
    OneMore(Dumps(e, j), Dump(e), s.d.state - 2);
  }

  lemma OneMore(sent: seq<Byte>, text: seq<Byte>, k: nat)
    requires k < |text|
    ensures sent + text[..k] + [text[k]] == sent + text[..k + 1]
  {
  }

  lemma SerMoves(s: Sys, e: Probe, j: nat, gap: nat)
    requires Delivering(s, e, j, gap) && gap < 13 && !Latches(s.u, Sample(s.d.start, s.d.pOut))
    ensures Delivering(SerStep(s), e, j, gap + 1)
  {
    assert s.sent + [] == s.sent;
  }

  lemma SerDelivers(s: Sys, e: Probe, j: nat, gap: nat)
    requires Delivering(s, e, j, gap) && gap < 13
    ensures Delivering(SerStep(s), e, j, gap + 1)
  {
    if Latches(s.u, Sample(s.d.start, s.d.pOut)) {
      SerLatches(s, e, j, gap);
    } else {
      SerMoves(s, e, j, gap);
    }
  }

  /** On every interleaving in which the debug unit gets an edge among any fourteen of the bit clock,
      and for any triggers, the bytes latched are whole dumps and the start of another: none is lost,
      repeated or out of order. */
  lemma {:induction false} Delivery(s: Sys, es: seq<Event>, e: Probe) returns (j: nat)
    requires Idle(s) && Spaced(es, 13)
    ensures Delivering(Run(s, es, e), e, j, Gap(es))
  {
    if es == [] {
      j := 0;
    } else {
      var before := es[..|es| - 1];
      j := Delivery(s, before, e);
      var t := Run(s, before, e);
      match es[|es| - 1]
      case Main(trig) => j := MainDelivers(t, trig, e, j, Gap(before));
      case Ser => SerDelivers(t, e, j, Gap(before));
    }
  }

  function Sers(s: Sys, n: nat): Sys {
    if n == 0 then s else SerStep(Sers(s, n - 1))
  }

  /** While a frame is out, edges of the bit clock alone only move the transmitter. */
  lemma {:induction false} FrameAlone(s: Sys, n: nat)
    requires s.d.start && s.u == IDLE.(txbuf := s.u.txbuf) && 1 <= n <= 13
    ensures Sers(s, n).d == s.d && Sers(s, n).sent == s.sent + [s.d.pOut]
    ensures Sers(s, n).u.bsy && Sers(s, n).u.state == n
    ensures n >= 10 ==> Sers(s, n).u.txline == 1
  {
    if n > 1 {
      FrameAlone(s, n - 1);
      assert s.sent + [s.d.pOut] + [] == s.sent + [s.d.pOut];
    }
  }

  /** Fourteen edges of the bit clock in a row outlast the frame, so that the debug unit never sees the
      transmitter busy; after its next edge the byte is latched a second time. */
  lemma LatchedTwice(s: Sys, e: Probe, trig: bool)
    requires s.d.start && s.d.state > 0 && s.u == IDLE.(txbuf := s.u.txbuf)
    ensures SerStep(MainStep(Sers(s, 14), trig, e)).sent == s.sent + [s.d.pOut, s.d.pOut]
  {
    FrameAlone(s, 13);
    var t := Sers(s, 14);
    assert t.sent == s.sent + [s.d.pOut] + [] == s.sent + [s.d.pOut];
    assert !t.u.bsy && t.d == s.d;
    assert MainStep(t, trig, e).d == t.d;
  }

  /** The trigger and the first character, fourteen edges of the bit clock, and one more behind an edge
      of the main clock. */
  function TooSlow(trig: bool): seq<Event> {
    [Main(true), Main(false)] + seq(14, _ => Ser) + [Main(trig), Ser]
  }

  lemma {:induction false} RunSers(s: Sys, es: seq<Event>, n: nat, e: Probe)
    ensures Run(s, es + seq(n, _ => Ser), e) == Sers(Run(s, es, e), n)
  {
    if n == 0 {
      assert es + seq(n, _ => Ser) == es;
    } else {
      assert (es + seq(n, _ => Ser))[..|es| + n - 1] == es + seq(n - 1, _ => Ser);
      RunSers(s, es, n - 1, e);
    }
  }

  lemma RunTwo(s: Sys, es: seq<Event>, x: Event, y: Event, e: Probe)
    ensures Run(s, es + [x, y], e) == Next(Next(Run(s, es, e), x, e), y, e)
  {
    var t := Run(s, es, e);
    assert [x, y] == [x] + [y];
    FoldAppend(Nexts(e), s, es, [x, y]);
    FoldCons(Nexts(e), t, x, [y]);
    FoldOne(Nexts(e), Next(t, x, e), y);
  }

  lemma {:induction false} SersAreSpaced(es: seq<Event>, n: nat, k: nat)
    requires Spaced(es, k) && Gap(es) == 0 && n <= k
    ensures Spaced(es + seq(n, _ => Ser), k) && Gap(es + seq(n, _ => Ser)) == n
  {
    if n == 0 {
      assert es + seq(n, _ => Ser) == es;
    } else {
      assert (es + seq(n, _ => Ser))[..|es| + n - 1] == es + seq(n - 1, _ => Ser);
      SersAreSpaced(es, n - 1, k);
    }
  }

  /** So thirteen is the limit: with gaps of fourteen a run from idle sends its first byte twice, where
      every dump goes on with another. */
  lemma FourteenInARow(s: Sys, e: Probe, trig: bool)
    requires Idle(s)
    ensures Spaced(TooSlow(trig), 14)
    ensures Run(s, TooSlow(trig), e).sent == [13, 13] && Dump(e)[..2] == [13, 10]
  {
    var first: seq<Event> := [Main(true), Main(false)];
    var slow := first + seq(14, _ => Ser);
    assert [] + first == first;
    RunTwo(s, [], Main(true), Main(false), e);
    RunSers(s, first, 14, e);
    RunTwo(s, slow, Main(trig), Ser, e);
    Started(s, e);
    LatchedTwice(Run(s, first, e), e, trig);
    assert first[..1] == [Main(true)] && [Main(true)][..0] == [];
    SersAreSpaced(first, 14, 14);
    assert (slow + [Main(trig), Ser])[..17] == slow + [Main(trig)] && (slow + [Main(trig)])[..16] == slow;
    HeadCharIs(1, e, 0);
    HeadCharIs(2, e, 0);
  }

  /** Two periods of the main clock after the trigger the first character is presented. */
  lemma Started(s: Sys, e: Probe)
    requires Idle(s)
    ensures var t := MainStep(MainStep(s, true, e), false, e);
            && t.d.start && t.d.state == 2 && t.d.pOut == 13 && t.u == IDLE && t.sent == []
  {
  }

  // ---------------------------------------------------------------- one trigger, one dump

  function Mains(es: seq<Event>): nat {
    if es == [] then 0 else Mains(es[..|es| - 1]) + if es[|es| - 1].Main? then 1 else 0
  }

  function Count(es: seq<Event>): nat {
    if es == [] then 0 else Count(es[..|es| - 1]) + if es[|es| - 1].Ser? then 1 else 0
  }

  /** The trigger, once released, is not pressed again. */
  predicate Released(es: seq<Event>) {
    forall i, j :: 0 <= i < j < |es| && es[j] == Main(true) ==> es[i] != Main(false)
  }

  /** Edges of the bit clock that there can have been when the debug unit got to a state: k before the
      first character, and for each one a frame and the rest of a gap. */
  function Allowed(state: int, k: nat): int {
    (13 + k) * (state - 2) + k
  }

  lemma AllowedNext(state: int, k: nat)
    ensures Allowed(state + 1, k) == Allowed(state, k) + 13 + k
  {
    assert (13 + k) * (state - 1) == (13 + k) * (state - 2) + (13 + k);
  }

  lemma AllowedAtMost(state: int, k: nat)
    requires state <= LAST_STATE + 1
    ensures Allowed(state, k) <= Allowed(LAST_STATE + 1, k)
  {
    Order(state - 2, LAST_STATE - 1, 13 + k);
    assert (13 + k) * (state - 2) <= (13 + k) * (LAST_STATE - 1);
  }

  /** During the dump: the edges of the bit clock so far, `gap` of them since the last main period. */
  predicate InTime(s: Sys, gap: nat, count: nat, k: nat) {
    if s.d.state == 1 then !s.d.start && !s.u.bsy && count <= gap
    else if s.u.bsy then count <= Allowed(s.d.state, k) + s.u.state
    else if s.d.start then count <= Allowed(s.d.state, k)
    else 1 <= gap && count <= Allowed(s.d.state, k) + 13 + gap
  }

  /** What the run after the trigger keeps when at most k edges of the bit clock come in a row: each
      character takes two periods of the main clock, and so a whole dump outlasts the pulse. */
  ghost predicate Single(s: Sys, e: Probe, es: seq<Event>, k: nat) {
    && Delivering(s, e, if s.d.state == 0 then 1 else 0, Gap(es))
    && (s.g.pulse ==> s.g.cntr == Mains(es) <= 100)
    && if s.d.state == 0 then Mains(es) >= 2 * LAST_STATE + 1
       else && Mains(es) >= 2 * (s.d.state - 1) - (if s.d.start then 1 else 0)
            && InTime(s, Gap(es), Count(es), k)
  }

  lemma SingleSer(s: Sys, e: Probe, before: seq<Event>, k: nat)
    requires Single(s, e, before, k) && Gap(before) < k <= 13
    ensures Single(SerStep(s), e, before + [Ser], k)
  {
    var es := before + [Ser];
    assert es[..|es| - 1] == before;
    SerDelivers(s, e, if s.d.state == 0 then 1 else 0, Gap(before));
  }

  lemma SingleMain(s: Sys, e: Probe, before: seq<Event>, k: nat, trig: bool)
    requires Single(s, e, before, k) && Gap(before) <= k <= 13 && (trig ==> s.g.prev)
    ensures Single(MainStep(s, trig, e), e, before + [Main(trig)], k)
  {
    var es := before + [Main(trig)];
    assert es[..|es| - 1] == before;
    var j := MainDelivers(s, trig, e, if s.d.state == 0 then 1 else 0, Gap(before));
    AllowedNext(s.d.state, k);
  }

  /** The trigger's own period. */
  lemma Triggered(s: Sys, e: Probe, k: nat)
    requires Idle(s)
    ensures Single(MainStep(s, true, e), e, [], k) && MainStep(s, true, e).g.prev
  {
    assert Dump(e)[..0] == [];
  }

  /** The last level of the trigger. */
  function Level(es: seq<Event>): bool {
    if es == [] then true
    else match es[|es| - 1]
         case Main(trig) => trig
         case Ser => Level(es[..|es| - 1])
  }

  lemma {:induction false} LevelIsPrev(s: Sys, e: Probe, es: seq<Event>)
    requires s.g.prev
    ensures Run(s, es, e).g.prev == Level(es)
  {
    if es != [] { LevelIsPrev(s, e, es[..|es| - 1]); }
  }

  lemma NoNewTrigger(es: seq<Event>, j: nat)
    requires Released(es) && j < |es| && es[j] == Main(true)
    ensures Level(es[..j])
  {
    LevelFrom(es[..j]);
  }

  lemma {:induction false} LevelFrom(es: seq<Event>)
    requires forall i :: 0 <= i < |es| ==> es[i] != Main(false)
    ensures Level(es)
  {
    if es != [] { LevelFrom(es[..|es| - 1]); }
  }

  lemma {:induction false} SingleRun(s: Sys, e: Probe, es: seq<Event>, k: nat)
    requires s.g.prev && Single(s, e, [], k) && Spaced(es, k) && k <= 13 && Released(es)
    ensures Single(Run(s, es, e), e, es, k)
  {
    if es != [] {
      var n := |es| - 1;
      var before := es[..n];
      SingleRun(s, e, before, k);
      assert es == before + [es[n]];
      var t := Run(s, before, e);
      match es[n]
      case Ser =>
        SingleSer(t, e, before, k);
      case Main(trig) =>
        if trig { NoNewTrigger(es, n); }
        LevelIsPrev(s, e, before);
        SpacedGap(before, k);
        SingleMain(t, e, before, k, trig);
    }
  }

  lemma SpacedGap(es: seq<Event>, k: nat)
    requires Spaced(es, k)
    ensures Gap(es) <= k
  {
  }

  /** The edges of the bit clock after which a dump is over, at most k of them in a row. */
  function Enough(k: nat): nat {
    (13 + k) * LAST_STATE + k + 1
  }

  lemma DumpIsOver(s: Sys, e: Probe, es: seq<Event>, k: nat)
    requires Single(s, e, es, k) && Gap(es) <= k && Count(es) >= Enough(k)
    ensures s.d.state == 0 && !s.u.bsy && !s.g.pulse && s.sent == Dump(e)
  {
    assert Dumps(e, 1) == Dumps(e, 0) + Dump(e) == Dump(e);
    if s.d.state > 0 {
      AllowedAtMost(s.d.state, k);
      assert Enough(k) == Allowed(LAST_STATE + 1, k) + 14 + k;
      OnlyOneGap(s, Gap(es), Count(es), k);
    }
  }

  lemma OnlyOneGap(s: Sys, gap: nat, count: nat, k: nat)
    requires 0 < s.d.state && Sound(s.u) && gap <= k && InTime(s, gap, count, k)
    requires Allowed(s.d.state, k) <= Allowed(LAST_STATE + 1, k)
    ensures count <= Allowed(LAST_STATE + 1, k) + 13 + k
  {
    if s.d.state == 1 { AllowedAtMost(2, k); }
  }

  /** One press from idle, and then any interleaving with at most k edges of the bit clock in a row, for
      any k up to 13, and enough of them in all: exactly one dump is latched, and the debug unit and its
      trigger are idle again. */
  lemma OneTriggerOneDump(s: Sys, e: Probe, es: seq<Event>, k: nat)
    requires Idle(s) && Spaced(es, k) && k <= 13 && Released(es) && Count(es) >= Enough(k)
    ensures var t := Run(MainStep(s, true, e), es, e);
            t.sent == Dump(e) && t.d.state == 0 && !t.u.bsy && !t.g.pulse
  {
    Triggered(s, e, k);
    var s1 := MainStep(s, true, e);
    SingleRun(s1, e, es, k);
    SpacedGap(es, k);
    DumpIsOver(Run(s1, es, e), e, es, k);
  }

  lemma SinglePrefix(t: Sys, e: Probe, es: seq<Event>, k: nat)
    requires Single(t, e, es, k)
    ensures t.sent <= Dump(e)
  {
    if t.d.state == 0 {
      assert Dumps(e, 1) == Dumps(e, 0) + Dump(e) == Dump(e);
    } else {
      assert Dumps(e, 0) + Dump(e)[..Taken(t)] == Dump(e)[..Taken(t)];
    }
  }

  /** At every earlier moment the bytes latched are the beginning of that dump. */
  lemma PrefixOfDump(s: Sys, e: Probe, es: seq<Event>, k: nat)
    requires Idle(s) && Spaced(es, k) && k <= 13 && Released(es)
    ensures Run(MainStep(s, true, e), es, e).sent <= Dump(e)
  {
    Triggered(s, e, k);
    SingleRun(MainStep(s, true, e), e, es, k);
    SinglePrefix(Run(MainStep(s, true, e), es, e), e, es, k);
  }

  /** In every run the debug unit is busy exactly during a dump, and its outputs are at rest otherwise. */
  lemma {:induction false} AlwaysHonest(s: Sys, es: seq<Event>, e: Probe)
    requires Honest(s.d)
    ensures Honest(Run(s, es, e).d)
  {
    if es != [] {
      AlwaysHonest(s, es[..|es| - 1], e);
      var t := Run(s, es[..|es| - 1], e);
      match es[|es| - 1]
      case Main(trig) => EdgeIsHonest(t.d, t.u.bsy, PulseEdge(t.g, trig).pulse, e, e.mem[t.d.memA]);
      case Ser =>
    }
  }

  // ---------------------------------------------------------------- what arrives

  lemma {:induction false} Logged(s: Sys, e: Probe, es: seq<Event>)
    requires s.u == Final(IDLE, s.ins) && s.sent == Latched(IDLE, s.ins)
    ensures var t := Run(s, es, e); t.u == Final(IDLE, t.ins) && t.sent == Latched(IDLE, t.ins)
  {
    if es != [] {
      var t := Run(s, es[..|es| - 1], e);
      Logged(s, e, es[..|es| - 1]);
      if es[|es| - 1].Ser? {
        Snoc(IDLE, t.ins, Sample(t.d.start, t.d.pOut));
      }
    }
  }

  /** A receiver on the serial line reads exactly the text of the dump. */
  lemma DumpIsReceived(s: Sys, e: Probe, es: seq<Event>, k: nat)
    requires Idle(s) && Spaced(es, k) && k <= 13 && Released(es) && Count(es) >= Enough(k)
    ensures Receive(Lines(IDLE, Run(MainStep(s, true, e), es, e).ins)) == Dump(e)
    ensures Shows(Receive(Lines(IDLE, Run(MainStep(s, true, e), es, e).ins)), e)
  {
    DumpShows(e);
    OneTriggerOneDump(s, e, es, k);
    var s1 := MainStep(s, true, e);
    Logged(s1, e, es);
    var t := Run(s1, es, e);
    AlwaysSound(IDLE, t.ins);
    RoundTrip(IDLE, t.ins);
  }
}

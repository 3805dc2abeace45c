/** The burst clock `clocknx`, which answers one press of a button with N clock pulses, and the
    processor it drives. */
module ClockNx {
  import opened Runs
  import opened Words
  import opened Cpu

  /** What can reach the generator: the button going down or up, and the slow clock's rising edge. */
  datatype Input = Press | Release | Tick

  /** `down` is the level of the button; `pulses` is an 8-bit register. */
  datatype Gen = Gen(down: bool, pulses: Byte, out: bool)

  function Reload(n: nat): Byte {
    (2 * n) % 256
  }

  function GenStep(g: Gen, i: Input, n: nat): Gen {
    match i
    case Release => g.(down := false)
    case Press => Gen(true, Reload(n), false)
    case Tick =>
      if g.down then g.(pulses := Reload(n), out := false)
      else if g.pulses != 0 then g.(pulses := g.pulses - 1, out := !g.out)
      else g.(out := false)
  }

  /** The generator, the processor board it clocks, and how often its output rose and fell. */
  datatype System = System(gen: Gen, board: Board, rises: nat, falls: nat)

  function SystemStep(s: System, i: Input, n: nat, mode: WriteMode): System {
    var g := GenStep(s.gen, i, n);
    if !s.gen.out && g.out then
      System(g, s.board.(core := PosEdge(s.board.core, s.board.dout)), s.rises + 1, s.falls)
    else if s.gen.out && !g.out then
      System(g, NegEdge(s.board, mode), s.rises, s.falls + 1)
    else s.(gen := g)
  }

  function SlowClock(n: nat, mode: WriteMode): System -> System {
    (s: System) => SystemStep(s, Tick, n, mode)
  }

  function Ticks(s: System, k: nat, n: nat, mode: WriteMode): System {
    Iterate(SlowClock(n, mode), s, k)
  }

  /** One undisturbed press: down, `held` slow ticks, up, and `after` slow ticks. */
  function Pressed(s: System, held: nat, after: nat, n: nat, mode: WriteMode): System {
    Ticks(SystemStep(Ticks(SystemStep(s, Press, n, mode), held, n, mode), Release, n, mode), after, n, mode)
  }

  /** The generator as it updates its registers. */
  class Generator {
    var down: bool
    var pulses: Byte
    var out: bool
    const n: nat

    function View(): Gen
      reads this
    {
      Gen(down, pulses, out)
    }

    constructor (n: nat)
      ensures View() == Gen(false, 0, false) && this.n == n
    {
      down, pulses, out := false, 0, false;
      this.n := n;
    }

    method Next(i: Input)
      modifies this
      ensures View() == GenStep(old(View()), i, n)
    {
      if i == Press { down := true; }
      if i == Release {
        down := false;
      } else if down {
        pulses, out := (2 * n) % 256, false;
      } else if pulses != 0 {
        pulses, out := pulses - 1, !out;
      } else {
        out := false;
      }
    }
  }

  /** The output is the lowest bit of the counter. */
  predicate InStep(g: Gen) {
    g.pulses % 2 == if g.out then 1 else 0
  }

  function Answers(n: nat): (Gen, Input) -> Gen {
    (g: Gen, i: Input) => GenStep(g, i, n)
  }

  function After(g: Gen, inputs: seq<Input>, n: nat): Gen {
    Fold(Answers(n), g, inputs)
  }

  lemma StepInStep(g: Gen, i: Input, n: nat)
    requires InStep(g)
    ensures InStep(GenStep(g, i, n))
  {
    ReloadIs(n);
  }

  /** Whatever happens to the button, the output follows the counter. */
  lemma {:induction false} OutputFollowsCounter(g: Gen, inputs: seq<Input>, n: nat)
    requires InStep(g)
    ensures InStep(After(g, inputs, n))
  {
    if inputs != [] {
      OutputFollowsCounter(g, inputs[..|inputs| - 1], n);
      StepInStep(After(g, inputs[..|inputs| - 1], n), inputs[|inputs| - 1], n);
    }
  }

  /** Holding the button changes nothing more. */
  lemma {:induction false} Held(s: System, k: nat, n: nat, mode: WriteMode)
    requires s.gen == Gen(true, Reload(n), false)
    ensures Ticks(s, k, n, mode) == s
  {
    if k > 0 { Held(s, k - 1, n, mode); }
  }

  /** An idle generator stays idle. */
  lemma {:induction false} Quiet(s: System, k: nat, n: nat, mode: WriteMode)
    requires s.gen == Gen(false, 0, false)
    ensures Ticks(s, k, n, mode) == s
  {
    if k > 0 { Quiet(s, k - 1, n, mode); }
  }

  lemma TwoTicks(s: System, k: nat, n: nat, mode: WriteMode)
    ensures Ticks(s, k + 2, n, mode) == SystemStep(SystemStep(Ticks(s, k, n, mode), Tick, n, mode), Tick, n, mode)
  {
    assert Ticks(s, k + 2, n, mode) == SystemStep(Ticks(s, k + 1, n, mode), Tick, n, mode);
  }

  /** j pulses are j whole microcycles of the board. */
  lemma {:induction false} Pulses(s: System, p: Byte, j: nat, n: nat, mode: WriteMode)
    requires s.gen == Gen(false, p, false) && 2 * j <= p
    ensures Ticks(s, 2 * j, n, mode) ==
            System(Gen(false, p - 2 * j, false), Cycles(s.board, mode, j), s.rises + j, s.falls + j)
  {
    if j > 0 {
      Pulses(s, p, j - 1, n, mode);
      TwoTicks(s, 2 * (j - 1), n, mode);
      OnePulse(Ticks(s, 2 * (j - 1), n, mode), n, mode);
      assert 2 * (j - 1) + 2 == 2 * j;
    }
  }

  lemma OnePulse(t: System, n: nat, mode: WriteMode)
    requires t.gen.pulses >= 2 && !t.gen.down && !t.gen.out
    ensures SystemStep(SystemStep(t, Tick, n, mode), Tick, n, mode) ==
            System(t.gen.(pulses := t.gen.pulses - 2), Clock(mode)(t.board), t.rises + 1, t.falls + 1)
  {
  }

  lemma TicksAdd(s: System, j: nat, k: nat, n: nat, mode: WriteMode)
    ensures Ticks(s, j + k, n, mode) == Ticks(Ticks(s, j, n, mode), k, n, mode)
  {
    IterateAdd(SlowClock(n, mode), s, j, k);
  }

  lemma ReloadIs(n: nat)
    ensures Reload(n) == 2 * (n % 128)
  {
  }

  /** A loaded generator runs out and then stays idle. */
  lemma RunsOut(s: System, m: nat, after: nat, n: nat, mode: WriteMode)
    requires 2 * m < 256 && s.gen == Gen(false, 2 * m, false) && after >= 2 * m
    ensures Ticks(s, after, n, mode) ==
            System(Gen(false, 0, false), Cycles(s.board, mode, m), s.rises + m, s.falls + m)
  {
    Pulses(s, 2 * m, m, n, mode);
    TicksAdd(s, 2 * m, after - 2 * m, n, mode);
    Quiet(Ticks(s, 2 * m, n, mode), after - 2 * m, n, mode);
  }

  /** A press at any moment, in the middle of a burst too: the generator starts over, and only a clock
      that was high still falls. */
  lemma PressRestarts(s: System, held: nat, after: nat, n: nat, mode: WriteMode)
    requires after >= 2 * (n % 128)
    ensures var b := if s.gen.out then NegEdge(s.board, mode) else s.board;
            Pressed(s, held, after, n, mode) ==
            System(Gen(false, 0, false), Cycles(b, mode, n % 128),
                   s.rises + n % 128, s.falls + n % 128 + if s.gen.out then 1 else 0)
  {
    ReloadIs(n);
    var s1 := SystemStep(s, Press, n, mode);
    Held(s1, held, n, mode);
    RunsOut(SystemStep(s1, Release, n, mode), n % 128, after, n, mode);
  }

  /** One press of an idle generator gives exactly as many pulses as its 8-bit register can count:
      N of them when N is less than 128, and N modulo 128 in general. */
  lemma OnePress(s: System, held: nat, after: nat, n: nat, mode: WriteMode)
    requires s.gen == Gen(false, 0, false) && after >= 2 * (n % 128)
    ensures Pressed(s, held, after, n, mode) ==
            System(Gen(false, 0, false), Cycles(s.board, mode, n % 128), s.rises + n % 128, s.falls + n % 128)
  {
    PressRestarts(s, held, after, n, mode);
  }

  lemma FourPulses(s: System, held: nat, after: nat, n: nat, mode: WriteMode)
    requires s.gen == Gen(false, 0, false) && after >= 2 * n && n < 128
    ensures Pressed(s, held, after, n, mode).gen == s.gen
    ensures Pressed(s, held, after, n, mode).board == Cycles(s.board, mode, n)
  {
    assert n % 128 == n;
    OnePress(s, held, after, n, mode);
  }

  /** With N = 4 a press executes exactly one instruction and ends at a boundary again. */
  lemma PressIsOneInstruction(s: System, held: nat, after: nat, mode: WriteMode)
    requires s.gen == Gen(false, 0, false) && s.board.core.state == 0 && after >= 8
    ensures var t := Pressed(s, held, after, 4, mode);
            && t.gen == Gen(false, 0, false) && t.board.core.state == 0
            && Seen(t.board) == Step(Seen(s.board))
  {
    FourPulses(s, held, after, 4, mode);
    OneInstruction(s.board, mode);
  }

  /** Any number of presses execute that number of instructions. */
  function Presses(s: System, held: nat -> nat, after: nat -> nat, k: nat, mode: WriteMode): System {
    if k == 0 then s
    else Pressed(Presses(s, held, after, k - 1, mode), held(k - 1), after(k - 1), 4, mode)
  }

  /** From the reset of both, k presses run the first k instructions of the program in the memory. */
  lemma PressesFromReset(s: System, held: nat -> nat, after: nat -> nat, k: nat, mode: WriteMode)
    requires s.gen == Gen(false, 0, false) && s.board.core == Reset(s.board.core)
    requires forall i: nat :: after(i) >= 8
    ensures Seen(Presses(s, held, after, k, mode).board) == Steps(Arch(0, 0, 0, s.board.mem), k)
  {
    PressesAreInstructions(s, held, after, k, mode);
  }

  lemma {:induction false} PressesAreInstructions(s: System, held: nat -> nat, after: nat -> nat, k: nat,
                                                   mode: WriteMode)
    requires s.gen == Gen(false, 0, false) && s.board.core.state == 0
    requires forall i: nat :: after(i) >= 8
    ensures var t := Presses(s, held, after, k, mode);
            && t.gen == Gen(false, 0, false) && t.board.core.state == 0
            && Seen(t.board) == Steps(Seen(s.board), k)
  {
    if k > 0 {
      PressesAreInstructions(s, held, after, k - 1, mode);
      PressIsOneInstruction(Presses(s, held, after, k - 1, mode), held(k - 1), after(k - 1), mode);
    }
  }
}

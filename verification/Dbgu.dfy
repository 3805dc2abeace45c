/** The debug unit: a press of a button starts a dump of the processor's state, 86 characters handed
    to the serial transmitter across two unrelated clocks. */
module Dbgu {
  import opened Runs
  import opened Words

  // ---------------------------------------------------------------- pulsegen

  /** The stretcher of the trigger: `cntr` counts the clock edges since it fired. */
  datatype Pulse = Pulse(prev: bool, pulse: bool, cntr: nat)

  function PulseEdge(g: Pulse, trig: bool): Pulse {
    if !g.prev && trig then Pulse(trig, true, 0)
    else if g.cntr < 100 then Pulse(trig, g.pulse, g.cntr + 1)
    else Pulse(trig, false, 0)
  }

  function Pulses(g: Pulse, levels: seq<bool>): Pulse {
    Fold((h: Pulse, trig: bool) => PulseEdge(h, trig), g, levels)
  }

  /** The trigger does not rise again. */
  predicate NoRise(prev: bool, levels: seq<bool>) {
    forall i :: 0 <= i < |levels| && levels[i] ==> if i == 0 then prev else levels[i - 1]
  }

  /** Counting from the edge that saw the trigger rise, the pulse is high for a hundred and one edges,
      and then low until the trigger rises again. */
  lemma {:induction false} PulseLasts(g: Pulse, levels: seq<bool>)
    requires !g.prev && NoRise(true, levels)
    ensures var t := Pulses(PulseEdge(g, true), levels);
            && t.prev == (if levels == [] then true else levels[|levels| - 1])
            && (t.pulse <==> |levels| <= 100) && (|levels| <= 100 ==> t.cntr == |levels|) && t.cntr <= 100
  {
    if levels != [] {
      PulseLasts(g, levels[..|levels| - 1]);
    }
  }

  /** The stretcher as it updates its registers. */
  class PulseGenerator {
    var prev: bool
    var pulse: bool
    var cntr: nat

    function View(): Pulse
      reads this
    {
      Pulse(prev, pulse, cntr)
    }

    method Rise(trig: bool)
      modifies this
      ensures View() == PulseEdge(old(View()), trig)
    {
      if !prev && trig {
        pulse, cntr := true, 0;
      } else if cntr < 100 {
        cntr := cntr + 1;
      } else {
        cntr, pulse := 0, false;
      }
      prev := trig;
    }
  }

  // ---------------------------------------------------------------- the text of a dump

  /** What the debug unit looks at; it does not change during a dump. */
  datatype Probe = Probe(istate: Octal, r0: Nibble, r1: Nibble, pc: Nibble, memA: Nibble,
                         memDr: Byte, memDw: Byte, mem: Memory)

  function Hex(n: Nibble): Byte {
    if n < 10 then n + 48 else n - 10 + 65
  }

  function HexByte(b: Byte): seq<Byte> {
    [Hex(b / 16), Hex(b % 16)]
  }

  function Ascii(s: string): (r: seq<Byte>)
    requires forall c :: c in s ==> c < 128 as char
    ensures |r| == |s|
  {
    seq(|s|, i requires 0 <= i < |s| => s[i] as int % 256)
  }

  function Cell(m: Memory, i: nat): (r: seq<Byte>)
    requires i < 16
    ensures |r| == 3
  {
    HexByte(m[i]) + Ascii(" ")
  }

  function Cells(m: Memory, n: nat): (r: seq<Byte>)
    requires n <= 16
    ensures |r| == 3 * n
  {
    if n == 0 then [] else Cells(m, n - 1) + Cell(m, n - 1)
  }

  function Registers(e: Probe): (r: seq<Byte>)
    ensures |r| == 20
  {
    ([13, 10] + Ascii("c=") + [Hex(e.istate)] + Ascii(" r0=") + [Hex(e.r0)])
    + (Ascii(" r1=") + [Hex(e.r1)] + Ascii(" pc=") + [Hex(e.pc)])
  }

  function Port(e: Probe): (r: seq<Byte>)
    ensures |r| == 18
  {
    (Ascii(" A=") + [Hex(e.memA)] + Ascii(" R=") + HexByte(e.memDr))
    + (Ascii(" W=") + HexByte(e.memDw) + Ascii(" M: "))
  }

  function Head(e: Probe): (r: seq<Byte>)
    ensures |r| == 38
  {
    Registers(e) + Port(e)
  }

  /** One line of the log: the registers and all sixteen cells of the memory. */
  function Dump(e: Probe): (r: seq<Byte>)
    ensures |r| == 86
  {
    Head(e) + Cells(e.mem, 16)
  }

  lemma {:induction false} CellsAt(m: Memory, n: nat, k: nat)
    requires n <= 16 && k < 3 * n
    ensures Cells(m, n)[k] == Cell(m, k / 3)[k % 3]
  {
    if k < 3 * (n - 1) {
      CellsAt(m, n - 1, k);
    } else {
      assert k / 3 == n - 1;
    }
  }

  // ---------------------------------------------------------------- reading a dump

  /** The value of a hexadecimal digit in ASCII, or -1. */
  function DigitValue(ch: int): int {
    if '0' as int <= ch <= '9' as int then ch - '0' as int
    else if 'A' as int <= ch <= 'F' as int then 10 + (ch - 'A' as int)
    else -1
  }

  lemma DigitRoundTrip(n: Nibble)
    ensures DigitValue(Hex(n)) == n
  {
  }

  /** The value of two digits from position i on. */
  function ByteAt(text: seq<int>, i: nat): int
    requires i + 1 < |text|
  {
    16 * DigitValue(text[i]) + DigitValue(text[i + 1])
  }

  predicate ShowsRegisters(text: seq<int>, e: Probe)
    requires |text| == 86
  {
    && DigitValue(text[4]) == e.istate && DigitValue(text[9]) == e.r0
    && DigitValue(text[14]) == e.r1 && DigitValue(text[19]) == e.pc
  }

  predicate ShowsPort(text: seq<int>, e: Probe)
    requires |text| == 86
  {
    DigitValue(text[23]) == e.memA && ByteAt(text, 27) == e.memDr && ByteAt(text, 32) == e.memDw
  }

  /** A reader of the line finds every register, the memory port and all sixteen cells in it. */
  predicate Shows(text: seq<int>, e: Probe) {
    && |text| == 86
    && ShowsRegisters(text, e) && ShowsPort(text, e)
    && forall i :: 0 <= i < 16 ==> ByteAt(text, 38 + 3 * i) == e.mem[i]
  }

  lemma CellShows(e: Probe, i: nat)
    requires i < 16
    ensures ByteAt(Dump(e), 38 + 3 * i) == e.mem[i] && Dump(e)[40 + 3 * i] == 32
  {
    CellChar(e, 3 * i);
    CellChar(e, 3 * i + 1);
    CellChar(e, 3 * i + 2);
    DigitRoundTrip(e.mem[i] / 16);
    DigitRoundTrip(e.mem[i] % 16);
  }

  lemma DigitShows(e: Probe, k: nat, held: Byte, n: Nibble)
    requires 1 <= k <= 38 && HeadChar(k, e, held) == Hex(n)
    ensures DigitValue(Dump(e)[k - 1]) == n
  {
    HeadCharIs(k, e, held);
    DigitRoundTrip(n);
  }

  lemma RegistersShow(e: Probe)
    ensures ShowsRegisters(Dump(e), e)
  {
    DigitShows(e, 5, 0, e.istate);
    DigitShows(e, 10, 0, e.r0);
    DigitShows(e, 15, 0, e.r1);
    DigitShows(e, 20, 0, e.pc);
  }

  lemma PortShows(e: Probe)
    ensures ShowsPort(Dump(e), e)
  {
    DigitShows(e, 24, 0, e.memA);
    DigitShows(e, 28, 0, e.memDr / 16);
    DigitShows(e, 29, 0, e.memDr % 16);
    DigitShows(e, 33, 0, e.memDw / 16);
    DigitShows(e, 34, 0, e.memDw % 16);
  }

  /** The dump can be read back: its digits are the state it was made of. */
  lemma DumpShows(e: Probe)
    ensures Shows(Dump(e), e)
  {
    RegistersShow(e);
    PortShows(e);
    forall i | 0 <= i < 16
      ensures ByteAt(Dump(e), 38 + 3 * i) == e.mem[i]
    {
      CellShows(e, i);
    }
  }

  // ---------------------------------------------------------------- the state machine

  const LAST_STATE := 86

  datatype Unit = Unit(state: nat, start: bool, pOut: Byte, memA: Nibble, acntr: nat, bsy: bool)

  /** The character assignments of states 1 to 38. */
  function HeadChar(k: nat, e: Probe, held: Byte): Byte {
    match k
    case 1 => 13
    case 2 => 10
    case 3 => 'c' as int
    case 4 => '=' as int
    case 5 => Hex(e.istate)
    case 6 => ' ' as int
    case 7 => 'r' as int
    case 8 => '0' as int
    case 9 => '=' as int
    case 10 => Hex(e.r0)
    case 11 => ' ' as int
    case 12 => 'r' as int
    case 13 => '1' as int
    case 14 => '=' as int
    case 15 => Hex(e.r1)
    case 16 => ' ' as int
    case 17 => 'p' as int
    case 18 => 'c' as int
    case 19 => '=' as int
    case 20 => Hex(e.pc)
    case 21 => ' ' as int
    case 22 => 'A' as int
    case 23 => '=' as int
    case 24 => Hex(e.memA)
    case 25 => ' ' as int
    case 26 => 'R' as int
    case 27 => '=' as int
    case 28 => Hex(e.memDr / 16)
    case 29 => Hex(e.memDr % 16)
    case 30 => ' ' as int
    case 31 => 'W' as int
    case 32 => '=' as int
    case 33 => Hex(e.memDw / 16)
    case 34 => Hex(e.memDw % 16)
    case 35 => ' ' as int
    case 36 => 'M' as int
    case 37 => ':' as int
    case 38 => ' ' as int
    case _ => held
  }

  /** The case statement: the next character, and the walk over the memory from state 38 on. */
  function Present(d: Unit, e: Probe, memD: Byte): Unit {
    if d.state < 38 then d.(pOut := HeadChar(d.state, e, d.pOut))
    else if d.state == 38 then d.(pOut := 32, memA := 0, acntr := 0)
    else
      var c := match d.acntr
               case 0 => d.(pOut := Hex(memD / 16))
               case 1 => d.(pOut := Hex(memD % 16))
               case 2 => d.(pOut := 32, memA := (d.memA + 1) % 16)
               case _ => d;
      c.(acntr := if d.acntr < 2 then d.acntr + 1 else 0)
  }

  /** One falling edge of the main clock. */
  function UnitEdge(d: Unit, txBsy: bool, startPulse: bool, e: Probe, memD: Byte): Unit {
    if d.state == 0 then
      if startPulse then d.(state := 1, bsy := true) else d
    else if txBsy then d.(start := false)
    else if d.start then d
    else if d.state <= LAST_STATE then Present(d, e, memD).(state := d.state + 1, start := true)
    else Present(d, e, memD).(state := 0, bsy := false, pOut := 0)
  }

  /** The debug unit as it updates its registers. */
  class DebugUnit {
    var state: nat
    var start: bool
    var pOut: Byte
    var memA: Nibble
    var acntr: nat
    var bsy: bool

    function View(): Unit
      reads this
    {
      Unit(state, start, pOut, memA, acntr, bsy)
    }

    constructor ()
      ensures View() == Unit(0, false, 0, 0, 0, false)
    {
      state, start, pOut, memA, acntr, bsy := 0, false, 0, 0, 0, false;
    }

    method Fall(txBsy: bool, startPulse: bool, e: Probe, memD: Byte)
      modifies this
      ensures View() == UnitEdge(old(View()), txBsy, startPulse, e, memD)
    {
      if state != 0 {
        if !txBsy {
          if !start {
            if state < 38 {
              pOut := HeadChar(state, e, pOut);
            } else if state == 38 {
              pOut, memA, acntr := 32, 0, 0;
            } else {
              if acntr == 0 {
                pOut := Hex(memD / 16);
              } else if acntr == 1 {
                pOut := Hex(memD % 16);
              } else if acntr == 2 {
                pOut, memA := 32, (memA + 1) % 16;
              }
              acntr := if acntr < 2 then acntr + 1 else 0;
            }
            if state <= LAST_STATE {
              state, start := state + 1, true;
            } else {
              state, bsy, pOut := 0, false, 0;
            }
          }
        } else {
          start := false;
        }
      } else if startPulse {
        state, bsy := 1, true;
      }
    }
  }

  /** What the outputs say of the state: busy exactly during a dump, and at rest otherwise. */
  predicate Honest(d: Unit) {
    && (d.bsy <==> d.state > 0)
    && (d.state == 0 ==> !d.start && d.pOut == 0)
  }

  /** From reset on, whatever happens, every edge keeps the outputs honest. */
  lemma EdgeIsHonest(d: Unit, txBsy: bool, startPulse: bool, e: Probe, memD: Byte)
    ensures Honest(Unit(0, false, 0, 0, 0, false))
    ensures Honest(d) ==> Honest(UnitEdge(d, txBsy, startPulse, e, memD))
  {
  }

  /** After its last character the walk over the memory is back at its first cell. */
  lemma EndOfDump(d: Unit, startPulse: bool, e: Probe, memD: Byte)
    requires d.state == LAST_STATE + 1 && !d.start && Walking(d)
    ensures UnitEdge(d, false, startPulse, e, memD) == Unit(0, false, 0, 0, 1, false)
  {
  }

  /** In the memory part of a dump the address and the digit follow from the state. */
  predicate Walking(d: Unit) {
    38 < d.state <= LAST_STATE + 1 ==> d.acntr == (d.state - 39) % 3 && d.memA == ((d.state - 39) / 3) % 16
  }

  lemma RegisterChar(k: nat, e: Probe, held: Byte)
    requires 1 <= k <= 20
    ensures HeadChar(k, e, held) == Registers(e)[k - 1]
  {
    if k <= 10 {
      assert Registers(e)[k - 1] == ([13, 10] + Ascii("c=") + [Hex(e.istate)] + Ascii(" r0=") + [Hex(e.r0)])[k - 1];
    } else {
      assert Registers(e)[k - 1] == (Ascii(" r1=") + [Hex(e.r1)] + Ascii(" pc=") + [Hex(e.pc)])[k - 11];
    }
  }

  lemma PortChar(k: nat, e: Probe, held: Byte)
    requires 21 <= k <= 38
    ensures HeadChar(k, e, held) == Port(e)[k - 21]
  {
    if k <= 29 {
      assert Port(e)[k - 21] == (Ascii(" A=") + [Hex(e.memA)] + Ascii(" R=") + HexByte(e.memDr))[k - 21];
    } else {
      assert Port(e)[k - 21] == (Ascii(" W=") + HexByte(e.memDw) + Ascii(" M: "))[k - 30];
    }
  }

  lemma HeadCharIs(k: nat, e: Probe, held: Byte)
    requires 1 <= k <= 38
    ensures HeadChar(k, e, held) == Dump(e)[k - 1]
  {
    if k <= 20 {
      RegisterChar(k, e, held);
    } else {
      PortChar(k, e, held);
    }
  }

  lemma CellChar(e: Probe, k: nat)
    requires k < 48
    ensures Dump(e)[38 + k] == if k % 3 == 0 then Hex(e.mem[k / 3] / 16)
                               else if k % 3 == 1 then Hex(e.mem[k / 3] % 16) else 32
  {
    CellsAt(e.mem, 16, k);
    assert Dump(e)[38 + k] == Cells(e.mem, 16)[k];
  }

  /** The k-th character presented is the k-th character of the dump. */
  lemma PresentsDump(d: Unit, e: Probe, memD: Byte)
    requires 1 <= d.state <= LAST_STATE && Walking(d)
    requires memD == e.mem[d.memA]
    ensures Present(d, e, memD).pOut == Dump(e)[d.state - 1]
    ensures Walking(Present(d, e, memD).(state := d.state + 1))
  {
    if d.state <= 38 {
      HeadCharIs(d.state, e, d.pOut);
    } else {
      var k := d.state - 39;
      CellChar(e, k);
      assert (k / 3) % 16 == k / 3;
    }
  }
}

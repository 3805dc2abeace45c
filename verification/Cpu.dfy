/** The 4-bit processor: its four-phase microarchitecture, with the memory clocked on the opposite
    edge, refines a one-step instruction set. */
module Cpu {
  import opened Runs
  import opened Words

  /** What the memory shows on its output during a write. */
  datatype WriteMode = WriteFirst | ReadFirst | NoChange

  /** The registers of the processor; `state` counts the four phases. */
  datatype Core = Core(state: nat, pc: Nibble, opcode: Byte, r0: Nibble, r1: Nibble,
                       memAddress: Nibble, memDataW: Byte, memWe: bool)

  /** The processor with its memory and the output register of the memory. */
  datatype Board = Board(core: Core, mem: Memory, dout: Byte)

  // ---------------------------------------------------------------- the two clock edges

  function Low(b: Byte): Nibble {
    b % 16
  }

  function Execute2(c: Core): Core {
    var op := c.opcode;
    if op / 128 == 0 then
      match (op / 16) % 8
      case 0 => c.(pc := Low(op))
      case 2 => c.(r0 := (c.r0 + c.r1) % 16)
      case 3 => c.(r1 := (c.r0 + c.r1) % 16)
      case 6 => ProductFits(c.r0, c.r1); c.(r0 := c.r0 * c.r1 / 16, r1 := c.r0 * c.r1 % 16)
      case _ => c
    else if (op / 64) % 2 == 1 then
      var c' := c.(memAddress := Low(op));
      if (op / 32) % 2 == 1 then
        if (op / 16) % 2 == 1 then c'.(memDataW := c.r1) else c'.(memDataW := c.r0)
      else c'
    else
      match (op / 16) % 4
      case 0 => c.(r0 := Low(op))
      case 1 => c.(r1 := Low(op))
      case 2 => c.(r0 := c.r1)
      case _ => c.(r1 := c.r0)
  }

  lemma ProductFits(x: Nibble, y: Nibble)
    ensures 0 <= x * y < 256
  {
    assert x * y <= 15 * y;
  }

  /** The rising edge of the processor's clock. */
  function PosEdge(c: Core, memDataR: Byte): Core {
    match c.state
    case 0 => c.(state := 1, memWe := false, memAddress := c.pc)
    case 1 => c.(state := 2, opcode := memDataR, pc := (c.pc + 1) % 16)
    case 2 => Execute2(c).(state := 3)
    case 3 =>
      var c' := c.(state := 0);
      if c.opcode / 32 == 7 then c'.(memWe := true)
      else if c.opcode / 32 == 6 then
        if (c.opcode / 16) % 2 == 0 then c'.(r0 := Low(memDataR)) else c'.(r1 := Low(memDataR))
      else c'
    case _ => c
  }

  /** The falling edge, on which the memory works. */
  function NegEdge(b: Board, mode: WriteMode): Board {
    var a := b.core.memAddress;
    if b.core.memWe then
      b.(mem := b.mem[a := b.core.memDataW],
         dout := match mode
                 case WriteFirst => b.core.memDataW
                 case ReadFirst => b.mem[a]
                 case NoChange => b.dout)
    else b.(dout := b.mem[a])
  }

  function Cycle(b: Board, mode: WriteMode): Board {
    NegEdge(b.(core := PosEdge(b.core, b.dout)), mode)
  }

  function Clock(mode: WriteMode): Board -> Board {
    (b: Board) => Cycle(b, mode)
  }

  function Cycles(b: Board, mode: WriteMode, n: nat): Board {
    Iterate(Clock(mode), b, n)
  }

  function Reset(c: Core): Core {
    c.(state := 0, pc := 0, r0 := 0, r1 := 0, memWe := false)
  }

  // ---------------------------------------------------------------- the edges in place

  /** The registers as the two clock edges update them. */
  class Machine {
    var state: nat
    var pc: Nibble
    var opcode: Byte
    var r0: Nibble
    var r1: Nibble
    var memAddress: Nibble
    var memDataW: Byte
    var memWe: bool
    var mem: array<Byte>
    var dout: Byte
    const mode: WriteMode

    predicate Valid()
      reads this
    {
      mem.Length == 16
    }

    function View(): Board
      requires Valid()
      reads this, mem
    {
      Board(Core(state, pc, opcode, r0, r1, memAddress, memDataW, memWe), mem[..], dout)
    }

    constructor (image: Memory, m: WriteMode)
      ensures Valid() && fresh(mem) && mode == m
      ensures View().core == Reset(View().core) && View().mem == image
      ensures state == 0 && Seen(View()) == Arch(0, 0, 0, image) && !memWe
    {
      state, pc, opcode, r0, r1, memAddress, memDataW, memWe, dout := 0, 0, 0, 0, 0, 0, 0, false, 0;
      mode := m;
      mem := new Byte[16](i requires 0 <= i < 16 => image[i]);
      new;
      assert mem[..] == image;
    }

    method Rise()
      requires Valid()
      modifies this
      ensures Valid() && mem == old(mem)
      ensures View() == old(View()).(core := PosEdge(old(View()).core, old(dout)))
    {
      if state == 0 {
        state, memWe, memAddress := 1, false, pc;
      } else if state == 1 {
        state, opcode, pc := 2, dout, (pc + 1) % 16;
      } else if state == 2 {
        state := 3;
        if opcode / 128 == 0 {
          var k := (opcode / 16) % 8;
          if k == 0 {
            pc := opcode % 16;
          } else if k == 2 {
            r0 := (r0 + r1) % 16;
          } else if k == 3 {
            r1 := (r0 + r1) % 16;
          } else if k == 6 {
            ProductFits(r0, r1);
            r0, r1 := r0 * r1 / 16, r0 * r1 % 16;
          }
        } else if (opcode / 64) % 2 == 1 {
          memAddress := opcode % 16;
          if (opcode / 32) % 2 == 1 {
            memDataW := if (opcode / 16) % 2 == 1 then r1 else r0;
          }
        } else {
          var k := (opcode / 16) % 4;
          if k == 0 {
            r0 := opcode % 16;
          } else if k == 1 {
            r1 := opcode % 16;
          } else if k == 2 {
            r0 := r1;
          } else {
            r1 := r0;
          }
        }
      } else if state == 3 {
        state := 0;
        if opcode / 32 == 7 { memWe := true; }
        if opcode / 32 == 6 {
          if (opcode / 16) % 2 == 0 { r0 := dout % 16; } else { r1 := dout % 16; }
        }
      }
    }

    method Fall()
      requires Valid()
      modifies this, mem
      ensures Valid() && mem == old(mem)
      ensures View() == NegEdge(old(View()), mode)
    {
      var before := mem[memAddress];
      if memWe {
        mem[memAddress] := memDataW;
        dout := match mode case WriteFirst => memDataW case ReadFirst => before case NoChange => dout;
      } else {
        dout := before;
      }
    }
  }

  // ---------------------------------------------------------------- the instruction set

  datatype Instr =
    | Jmp(a: Nibble) | AddToR0 | AddToR1 | Mul | Nop
    | ImmR0(k: Nibble) | ImmR1(k: Nibble) | MovR0R1 | MovR1R0
    | LoadR0(a: Nibble) | LoadR1(a: Nibble) | StoreR0(a: Nibble) | StoreR1(a: Nibble)

  function Decode(op: Byte): Instr {
    var n := op % 16;
    match op / 16
    case 0 => Jmp(n)
    case 2 => AddToR0
    case 3 => AddToR1
    case 6 => Mul
    case 8 => ImmR0(n)
    case 9 => ImmR1(n)
    case 10 => MovR0R1
    case 11 => MovR1R0
    case 12 => LoadR0(n)
    case 13 => LoadR1(n)
    case 14 => StoreR0(n)
    case 15 => StoreR1(n)
    case _ => Nop
  }

  function Encode(i: Instr): Byte {
    match i
    case Jmp(a) => a
    case AddToR0 => 0x20
    case AddToR1 => 0x30
    case Mul => 0x60
    case Nop => 0x10
    case ImmR0(k) => 0x80 + k
    case ImmR1(k) => 0x90 + k
    case MovR0R1 => 0xA0
    case MovR1R0 => 0xB0
    case LoadR0(a) => 0xC0 + a
    case LoadR1(a) => 0xD0 + a
    case StoreR0(a) => 0xE0 + a
    case StoreR1(a) => 0xF0 + a
  }

  lemma DecodeEncode(i: Instr)
    ensures Decode(Encode(i)) == i
  {
  }

  /** What a programmer sees. */
  datatype Arch = Arch(pc: Nibble, r0: Nibble, r1: Nibble, mem: Memory)

  function Seen(b: Board): Arch {
    Arch(b.core.pc, b.core.r0, b.core.r1, b.mem)
  }

  function Perform(i: Instr, s: Arch): Arch {
    match i
    case Jmp(a) => s.(pc := a)
    case AddToR0 => s.(r0 := (s.r0 + s.r1) % 16)
    case AddToR1 => s.(r1 := (s.r0 + s.r1) % 16)
    case Mul => ProductFits(s.r0, s.r1); s.(r0 := (s.r0 * s.r1) / 16, r1 := (s.r0 * s.r1) % 16)
    case Nop => s
    case ImmR0(k) => s.(r0 := k)
    case ImmR1(k) => s.(r1 := k)
    case MovR0R1 => s.(r0 := s.r1)
    case MovR1R0 => s.(r1 := s.r0)
    case LoadR0(a) => s.(r0 := s.mem[a] % 16)
    case LoadR1(a) => s.(r1 := s.mem[a] % 16)
    case StoreR0(a) => s.(mem := s.mem[a := s.r0])
    case StoreR1(a) => s.(mem := s.mem[a := s.r1])
  }

  /** One instruction, fetched from the memory that the program itself may have changed. */
  function Step(s: Arch): Arch {
    Perform(Decode(s.mem[s.pc]), s.(pc := (s.pc + 1) % 16))
  }

  function Steps(s: Arch, n: nat): Arch {
    Iterate((t: Arch) => Step(t), s, n)
  }

  lemma MulIsProduct(s: Arch)
    ensures var t := Perform(Mul, s); 16 * t.r0 + t.r1 == s.r0 * s.r1
  {
    ProductFits(s.r0, s.r1);
  }

  // ---------------------------------------------------------------- refinement

  /** Fetch: after two cycles the opcode is there and nothing else has changed. */
  lemma Fetch(b: Board, mode: WriteMode)
    requires b.core.state == 0
    ensures var b2 := Cycle(Cycle(b, mode), mode);
            && b2.core.state == 2 && b2.core.opcode == b.mem[b.core.pc] && !b2.core.memWe
            && Seen(b2) == Seen(b).(pc := (b.core.pc + 1) % 16)
  {
  }

  lemma OpcodeBits(op: Byte)
    ensures op / 128 == op / 16 / 8 && op / 64 == op / 16 / 4 && op / 32 == op / 16 / 2
    ensures op / 16 < 16
  {
  }

  /** The third phase of an arithmetic, jump or move instruction is the instruction. */
  lemma ThirdPhase(c: Core, s: Arch)
    requires c.opcode / 16 < 12 && s.pc == c.pc && s.r0 == c.r0 && s.r1 == c.r1
    ensures var d, t := Execute2(c), Perform(Decode(c.opcode), s);
            && t == s.(pc := d.pc, r0 := d.r0, r1 := d.r1)
            && d == c.(pc := d.pc, r0 := d.r0, r1 := d.r1)
  {
    OpcodeBits(c.opcode);
  }

  /** In the third phase of a load or store the address goes out, and the datum of a store. */
  lemma AddressPhase(c: Core)
    requires c.opcode / 16 >= 12
    ensures var k, d := c.opcode / 16, Execute2(c);
            d == c.(memAddress := c.opcode % 16,
                    memDataW := if k == 14 then c.r0 else if k == 15 then c.r1 else c.memDataW)
  {
    OpcodeBits(c.opcode);
  }

  /** Execution takes the other two. */
  lemma Execution(b: Board, mode: WriteMode)
    requires b.core.state == 2 && !b.core.memWe
    ensures var b2 := Cycle(Cycle(b, mode), mode);
            && b2.core.state == 0
            && Seen(b2) == Perform(Decode(b.core.opcode), Seen(b))
  {
    var op := b.core.opcode;
    OpcodeBits(op);
    if op / 16 >= 12 {
      AddressPhase(b.core);
    } else {
      ThirdPhase(b.core, Seen(b));
    }
  }

  /** Four cycles from an instruction boundary are one instruction, whatever the memory shows during
      a write. */
  lemma FourCycles(b: Board, mode: WriteMode)
    requires b.core.state == 0
    ensures var b4 := Cycle(Cycle(Cycle(Cycle(b, mode), mode), mode), mode);
            b4.core.state == 0 && Seen(b4) == Step(Seen(b))
  {
    Fetch(b, mode);
    Execution(Cycle(Cycle(b, mode), mode), mode);
  }

  /** Four steps of f, from a good state, are one step of g on what is seen. */
  ghost predicate FourToOne<T(!new), U>(f: T -> T, good: T -> bool, seen: T -> U, g: U -> U) {
    forall x: T {:trigger good(x)} :: good(x) ==> good(f(f(f(f(x))))) && seen(f(f(f(f(x))))) == g(seen(x))
  }

  lemma {:induction false} Refines<T(!new), U>(f: T -> T, good: T -> bool, seen: T -> U, g: U -> U, x: T, n: nat)
    requires FourToOne(f, good, seen, g) && good(x)
    ensures good(Iterate(f, x, 4 * n)) && seen(Iterate(f, x, 4 * n)) == Iterate(g, seen(x), n)
  {
    if n > 0 {
      Refines(f, good, seen, g, x, n - 1);
      var y := Iterate(f, x, 4 * (n - 1));
      assert 4 * n == 4 * (n - 1) + 4;
      IterateAdd(f, x, 4 * (n - 1), 4);
      IterateFour(f, y);
      assert good(y);
    }
  }

  /** Every number of instructions. */
  lemma Refinement(b: Board, mode: WriteMode, n: nat)
    requires b.core.state == 0
    ensures Cycles(b, mode, 4 * n).core.state == 0
    ensures Seen(Cycles(b, mode, 4 * n)) == Steps(Seen(b), n)
  {
    var good := (c: Board) => c.core.state == 0;
    var seen := (c: Board) => Seen(c);
    var g := (t: Arch) => Step(t);
    forall c: Board | good(c)
      ensures var c4 := Clock(mode)(Clock(mode)(Clock(mode)(Clock(mode)(c)))); good(c4) && seen(c4) == g(seen(c))
    {
      FourCycles(c, mode);
    }
    Refines(Clock(mode), good, seen, g, b, n);
  }

  lemma OneInstruction(b: Board, mode: WriteMode)
    requires b.core.state == 0
    ensures Cycles(b, mode, 4).core.state == 0 && Seen(Cycles(b, mode, 4)) == Step(Seen(b))
  {
    Refinement(b, mode, 1);
    assert Steps(Seen(b), 1) == Step(Steps(Seen(b), 0));
  }

  /** After a reset, at any moment and whatever the other registers hold, a program runs from its first
      cell with both registers zero. */
  lemma RunsFromReset(b: Board, mode: WriteMode, n: nat)
    ensures var b0 := b.(core := Reset(b.core));
            Seen(Cycles(b0, mode, 4 * n)) == Steps(Arch(0, 0, 0, b.mem), n)
  {
    Refinement(b.(core := Reset(b.core)), mode, n);
  }

  /** From a boundary the next three cycles count the phases. */
  lemma {:induction false} FirstPhases(b: Board, mode: WriteMode, k: nat)
    requires b.core.state == 0 && k < 4
    ensures Cycles(b, mode, k).core.state == k
  {
    if k > 0 {
      FirstPhases(b, mode, k - 1);
      NextPhase(Cycles(b, mode, k - 1), mode);
    }
  }

  lemma NextPhase(b: Board, mode: WriteMode)
    requires b.core.state < 3
    ensures Clock(mode)(b).core.state == b.core.state + 1
  {
  }

  /** After m microcycles the phase is known. */
  lemma Phase(b: Board, mode: WriteMode, m: nat)
    requires b.core.state == 0
    ensures Cycles(b, mode, m).core.state == m % 4
  {
    var n, k := m / 4, m % 4;
    Refinement(b, mode, n);
    FirstPhases(Cycles(b, mode, 4 * n), mode, k);
    CyclesAdd(b, mode, 4 * n, k, m);
  }

  lemma CyclesAdd(b: Board, mode: WriteMode, m: nat, left: nat, k: nat)
    requires k == m + left
    ensures Cycles(Cycles(b, mode, m), mode, left) == Cycles(b, mode, k)
  {
    IterateSum(Clock(mode), b, m, left, k);
  }

  /** Every number of microcycles m: completing the instruction under way, the n-th, leads to where
      the instruction set is after n instructions. */
  lemma RefinementAnywhere(b: Board, mode: WriteMode, m: nat, left: nat, n: nat)
    requires b.core.state == 0 && left < 4 && 4 * n == m + left
    ensures Cycles(Cycles(b, mode, m), mode, left).core.state == 0
    ensures Seen(Cycles(Cycles(b, mode, m), mode, left)) == Steps(Seen(b), n)
  {
    CyclesAdd(b, mode, m, left, 4 * n);
    Refinement(b, mode, n);
  }
}

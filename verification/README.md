# Verified models of a coursework repository

Seven programs of the repository are modelled in Dafny and their main properties proved.
Code that updates state is modelled by classes and methods, each proved against a function; the
properties are then proved of the functions, over all inputs, schedules and interleavings.
`dafny verify dfyconfig.toml` checks everything. `Arithmetic`, `Counting`, `Runs` and `Words` are shared.

**Formula calculator** (`Python/lab2/src/zad1.py`; `FormulaSyntax`, `FormulaText`, `FormulaCompile`,
`FormulaGrammar`, `FormulaValue`, `FormulaDecide`, `FormulaLazy`, `FormulaWritten`). A text over letters, `>`, `&`, `|`
and parentheses is recognised, compiled to postfix, run on a stack machine and decided by truth table.
Everything takes a `Version`. `AsMeant` is the evident intention. `AsWritten` keeps two departures of
the code: line 25 adds a string to a list, which raises TypeError whenever it is reached, and lines
66-68 use lazy `and`/`or`, so the left operand is popped only when the right one does not settle the
result. The effect of the first is proved exactly: `onp` and both deciders raise on texts that nest
parentheses twice (`areTheSame` only if the variables agree, because it compares them first). The
second makes `value` right on a syntactic class of formulas, the safe ones; where no variable is
repeated that class is exact. `isTautology` is right on the safe formulas and on all that repeat no
variable, `areTheSame` on two safe ones; beyond that each of them errs in both directions, and inputs
are given. '&' and '|' share one level, '>' binds loosest, all associate to the left.

**Sleeping barber** (`SysOpy/lab7/src/zad1`; `Barber`, `BarberRuns`, `BarberEnds`). One loop body is one atomic step
under the semaphore; a schedule is any infinite sequence of process numbers. Coupling, first-come
first-served, the cycles of the chair and the bound on useful steps hold on every schedule. On a fair
schedule everybody finishes if and only if the chair is never abandoned. It never is when the client who
woke the barber takes no step while the status is WAKES, as when everybody takes turns. The code does
not forbid such a step, and with two clients, a shave and a seat there are fair schedules that take one
and get stuck; with fewer there are none.

**4-bit processor** (`Mikro/lab1/src/cpu_src123123/src`; `Cpu`, `ClockNx`, `UartTx`, `Dbgu`,
`DumpRun`, `Prescaler`). The four-phase processor with its memory on the opposite clock edge refines a
one-step instruction set, for each of the three ways a block memory may drive its output during a
write; the burst clock turns a press into one instruction; the debug unit and the serial transmitter
deliver a dump across two clocks, for every interleaving that the prescaler's constants allow.

**Line buffer** (`SysOpy/lab9/src`; `Counting`, `LineBuffer`, `Monitor`, `Turnstiles`, `TurnstileRuns`). The ring is shared
by both versions; `Monitor` adds the mutex and condition variables of zad1, `Turnstiles`
and `TurnstileRuns` the semaphores of zad2. The file is a sequence of the chunks that `fgets` returns; output is the sequence of printed
lines. Both versions end, with the right output, on every fair schedule.

**Image filter** (`SysOpy/lab8/src/zad1/main.c`; `ImageFilter`, `FilterThreads`). Columns are
divided among threads by integer division; the threads write pixels in any interleaving and the main
thread polls their flags one by one.

**Two loops** (`Python/lab1/src/sump.py`; `DivisorSum`, and `SysOpy/lab2/src/zad1/zad1.c`; `StableSort`,
`RecordFile`). The divisor sum up to the square root against the naive one, and an insertion sort of
records in a flat file through two record buffers. `sump` counts the root of a square twice and its
last branch is never taken, so the two sums differ on squares; for n below 1 they are 1 and 0. The
"lib" and "sys" branches of the sort make the same sequence of seeks, reads and writes, so one method
models both.

## Model

| member | source | states |
|---|---|---|
| FormulaText.CheckLoop | Python/lab2/src/zad1.py:13-27 | the loop of `check` with its two variables computes the scanner that the lemmas about `check` reason about, in both versions |
| FormulaText.ScanText | Python/lab2/src/zad1.py:13-27 | from any depth, a formula is consumed as one operand; as written the scan raises at the first closing parenthesis |
| FormulaText.BalLoop | Python/lab2/src/zad1.py:30-36 | for any text and any set of signs the right-to-left loop returns the rightmost one of them that closes a balanced rest, or -1 |
| FormulaText.Bal | Python/lab2/src/zad1.py:30-36 | the position found is a split and no position further right is one |
| FormulaText.SuffixOfText | Python/lab2/src/zad1.py:30-36 | right of any position of a formula, closing parentheses are never outnumbered, and an operator with a balanced right side is a top operator |
| FormulaText.BalOfBin | Python/lab2/src/zad1.py:42-47 | on every legal binary formula `bal` finds the main operator: first the loose level, else the tight one |
| FormulaText.BalOfAtom | Python/lab2/src/zad1.py:42-48 | a letter or a parenthesised formula has no split on either level |
| FormulaText.StripLoop | Python/lab2/src/zad1.py:40-41 | the loop at the head of `onp`, with the errors of the calls in it |
| FormulaText.OnpLoop | Python/lab2/src/zad1.py:39-48 | the recursive `onp` terminates on every string and returns the specified outcome, empty operands included |
| FormulaCompile.CheckText | Python/lab2/src/zad1.py:13-27 | every lettered formula is accepted as meant; as written it raises exactly when it has a parenthesis |
| FormulaCompile.CheckInsideBin | Python/lab2/src/zad1.py:40 | when the first and the last parenthesis of a binary formula do not match each other, `check` of the inside is False (or raises as written) |
| FormulaCompile.StripText | Python/lab2/src/zad1.py:40-41 | the loop removes exactly the outer parentheses that match each other |
| FormulaCompile.OnpCompiles | Python/lab2/src/zad1.py:39-48 | for every legal text, whatever its redundant parentheses, the result is the postfix form of its tree |
| FormulaCompile.OnpRaises | Python/lab2/src/zad1.py:25-41 | as written, every text that nests parentheses twice ends in TypeError |
| FormulaCompile.OnpAsWritten | Python/lab2/src/zad1.py:25-48 | the compiler as written agrees with the intended one exactly below nesting depth 2 and raises above |
| FormulaCompile.RaisesHere | Python/lab2/src/zad1.py:25-41 | the concrete text ((a)) on which the two versions differ |
| FormulaCompile.UniqueReading | Python/lab2/src/zad1.py:39-48 | a text has at most one legal reading, so the tree compiled is determined by the text |
| FormulaGrammar.CheckIsGrammar | Python/lab2/src/zad1.py:13-27 | for every string: accepted iff its letters, operators and parentheses spell a sentence of E ::= letter &#124; (E) &#124; E op E, and iff they have a legal reading |
| FormulaGrammar.CheckAgrees | Python/lab2/src/zad1.py:13-27 | as written, `check` raises or gives the intended verdict |
| FormulaGrammar.CheckAsWritten | Python/lab2/src/zad1.py:13-27 | for every string, legal or not: as written `check` raises exactly if the scan, behind a complete operand, comes to any sign but an operator or a parenthesis that closes more than was opened; otherwise it gives the intended verdict |
| FormulaGrammar.AtomAccepted | Python/lab2/src/zad1.py:13-27 | an accepted text without a split is one letter or an accepted text in parentheses |
| FormulaGrammar.CutAccepted | Python/lab2/src/zad1.py:13-36 | cutting an accepted text at a balanced operator gives two accepted texts |
| FormulaGrammar.Reading | Python/lab2/src/zad1.py:13-48 | every accepted text has a legal reading, the one `onp` cuts out |
| FormulaValue.Foo | Python/lab2/src/zad1.py:1-6 | the letters of the text, each once, in increasing order |
| FormulaValue.FooDecidesLetters | Python/lab2/src/zad1.py:88-89 | two texts have the same variable list iff they have the same letters |
| FormulaValue.MapujLoop | Python/lab2/src/zad1.py:51-57 | the in-place substitution replaces each variable by its digit and nothing else, with IndexError exactly if a variable that occurs has no digit |
| FormulaValue.ShortRow | Python/lab2/src/zad1.py:60-62 | in `value` that happens exactly when the row is shorter than the list of variables |
| FormulaValue.ValueLoop | Python/lab2/src/zad1.py:60-69 | the stack machine with its stack updated step by step, with IndexError on an empty pop |
| FormulaValue.RunIgnoresOthers | Python/lab2/src/zad1.py:63-68 | in either version, signs that are neither digits 0 and 1 nor operators change nothing |
| FormulaValue.RunPostfix | Python/lab2/src/zad1.py:63-68 | on any stack, the code of a tree pushes what its meaning leaves and touches nothing beneath |
| FormulaValue.LeaveAsMeant | Python/lab2/src/zad1.py:63-69 | with both operands popped the machine leaves exactly the value of the tree |
| FormulaValue.LettersOfPostfix | Python/lab2/src/zad1.py:39-48 | compiling keeps the set of variables |
| FormulaValue.ValueOfPostfix | Python/lab2/src/zad1.py:60-69 | `value` of compiled text reports the meaning of the tree under the assignment of the row |
| FormulaDecide.GenIsExact | Python/lab2/src/zad1.py:72-74 | for n of at least 1 the rows are exactly the n-bit strings, each once |
| FormulaDecide.GenOfNone | Python/lab2/src/zad1.py:72-74 | for n = 0 the table still has one row, of one bit |
| FormulaDecide.IsTautologyLoop | Python/lab2/src/zad1.py:82-85 | the loop with its early return computes the specified verdict or error |
| FormulaDecide.AreTheSameLoop | Python/lab2/src/zad1.py:88-92 | the same for the comparison of two formulas |
| FormulaDecide.TableDecides | Python/lab2/src/zad1.py:82-85 | reading a full table row by row decides whether a question about assignments holds under all of them |
| FormulaDecide.TautologyReported | Python/lab2/src/zad1.py:82-85 | in either version: the answer is True iff the machine reports 1 under every assignment |
| FormulaDecide.TautologyRaises | Python/lab2/src/zad1.py:25-85 | as written, the decider raises exactly on texts that nest parentheses twice |
| FormulaDecide.TautologyDecided | Python/lab2/src/zad1.py:82-85 | as meant, the answer is True iff the tree is 1 under every assignment |
| FormulaDecide.SameReported | Python/lab2/src/zad1.py:88-92 | in either version: True iff the variables agree and the machine reports the same for both |
| FormulaDecide.SameDecided | Python/lab2/src/zad1.py:88-92 | as meant, True iff the variables agree and the formulas are equivalent |
| FormulaLazy.SafeIsRight | Python/lab2/src/zad1.py:66-69 | with lazy pops, a safe formula leaves its value on top, whatever unpopped operands lie beneath |
| FormulaLazy.VariablesOnTheRightAreSafe | Python/lab2/src/zad1.py:66-69 | formulas whose right operands are single variables are safe |
| FormulaLazy.Clean | Python/lab2/src/zad1.py:66-68 | a read-once formula can take either value and leave nothing else on the stack |
| FormulaLazy.Littered | Python/lab2/src/zad1.py:66-68 | each result in the computed litter set does occur above an unpopped operand of either value |
| FormulaLazy.UnsafeIsWrong | Python/lab2/src/zad1.py:66-69 | an unsafe read-once formula has an assignment on which the machine as written is wrong |
| FormulaLazy.MachineAsWritten | Python/lab2/src/zad1.py:60-69 | safe formulas are right on every assignment; for read-once formulas safety is also necessary |
| FormulaLazy.RightByCoincidence | Python/lab2/src/zad1.py:66-69 | with a repeated variable safety is not necessary: c&#124;(c&c) is not safe and always reported right |
| FormulaLazy.LazyIsWrong | Python/lab2/src/zad1.py:66-69 | p&#124;(q&r) at 0, 1, 0 for any three variables: reported 1, value 0 |
| FormulaWritten.ValueIsWrong | Python/lab2/src/zad1.py:39-69 | the same on input of the program: onp of "p&#124;(q&r)" is "pqr&&#124;", and value of that on row "010" is 1 as written and 0 as meant |
| FormulaWritten.ReadOnceIsRefuted | Python/lab2/src/zad1.py:82-85 | a formula without repeated variables is never a tautology, and as written, below nesting depth 2, `isTautology` says so whether or not it is safe |
| FormulaWritten.TautologyAsWritten | Python/lab2/src/zad1.py:60-85 | below nesting depth 2, `isTautology` as written is right on every formula that is safe or repeats no variable |
| FormulaWritten.TautologyMissed | Python/lab2/src/zad1.py:60-85 | as written, "a&b>b&a" is not found to be a tautology, which it is |
| FormulaWritten.TautologyWronglyFound | Python/lab2/src/zad1.py:60-85 | as written, "a>b&b" is found to be a tautology, which it is not |
| FormulaWritten.SameRaises | Python/lab2/src/zad1.py:25-92 | as written, `areTheSame` raises exactly when the variables agree and one of the texts nests parentheses twice |
| FormulaWritten.SameAsWritten | Python/lab2/src/zad1.py:60-92 | below nesting depth 2, `areTheSame` as written is right on every two safe formulas |
| FormulaWritten.UnsafeIsToldApart | Python/lab2/src/zad1.py:60-92 | an unsafe formula without repeated variables is told apart from every equivalent safe formula over its variables, in either order |
| FormulaWritten.SameMissed | Python/lab2/src/zad1.py:60-92 | as written, "p&#124;(q&r)" and "q&r&#124;p" are told apart, although equivalent |
| FormulaWritten.SameWronglyFound | Python/lab2/src/zad1.py:60-92 | as written, "a>b&b" and "b>a&a" are found to be the same, which they are not |
| Barber.SharedMemory.constructor | SysOpy/lab7/src/zad1/barber.c:162-167 | the initial shared memory |
| Barber.SharedMemory.Client | SysOpy/lab7/src/zad1/client.c:70-155 | one turn of a client under the semaphore, all six branches, on the shared fields |
| Barber.SharedMemory.BarberTurn | SysOpy/lab7/src/zad1/barber.c:70-140 | one turn of the barber, with the receive that keeps the old message on an empty queue |
| Barber.InitialCoupled | SysOpy/lab7/src/zad1/barber.c:162-167 | the initial state satisfies the coupling |
| Barber.TurnCoupled | SysOpy/lab7/src/zad1/client.c:74-156 | every turn of every process keeps: 0 <= waiting <= room, queue length = waiting minus the one invited, nobody owns the chair iff SLEEP or INVITES |
| Barber.RunCoupled | SysOpy/lab7/src/zad1/client.c:66-158 | the same along every schedule |
| Barber.ReceiveFindsMessage | SysOpy/lab7/src/zad1/barber.c:109-117 | the non-blocking receive never meets an empty queue and always takes the oldest message |
| BarberRuns.VisitsAreCounted | SysOpy/lab7/src/zad1/client.c:66-158 | on every schedule, the visits a client has ended, by a shave or turned away, and those it still wants add up to the shaves it came for |
| BarberRuns.TurnedAwayWhenFull | SysOpy/lab7/src/zad1/client.c:123-140 | a client is turned away only when the queue and the invited one take every seat, and sits down only when one is free |
| BarberRuns.Arrives | SysOpy/lab7/src/zad1/client.c:74-140 | what a client outside does, by the status alone and the number of free seats: it wakes, waits, sits down or is turned away |
| BarberRuns.FirstComeFirstServed | SysOpy/lab7/src/zad1/barber.c:109-117 | on every schedule, those invited followed by those queued are those who sat down, in the same order |
| BarberRuns.TurnInCycle | SysOpy/lab7/src/zad1/client.c:74-122 | one turn adds nothing about the chair or exactly the next event of the current cycle of its one owner |
| BarberRuns.ChairCycles | SysOpy/lab7/src/zad1/client.c:74-122 | on every schedule the chair events are whole cycles of one fixed client each, and the beginning of one more |
| BarberRuns.TurnWorks | SysOpy/lab7/src/zad1/client.c:66-158 | a turn that does something uses up work; an idle one changes nothing |
| BarberRuns.BusyIsBounded | SysOpy/lab7/src/zad1/client.c:66-158 | on every schedule the number of non-idle turns is bounded by the initial work |
| BarberRuns.BusyInFigures | SysOpy/lab7/src/zad1/client.c:66-158 | in figures: 8 for each shave, one for each client, and 7 |
| BarberRuns.StuckIffChairAbandoned | SysOpy/lab7/src/zad1/client.c:74-156 | with work undone nobody can move iff the client the chair is reserved for has exited and all others wait |
| BarberRuns.TurnOrderly | SysOpy/lab7/src/zad1/client.c:74-156 | if the waker keeps still while WAKES: no client is queued twice or both queued and in the chair |
| BarberRuns.RunOrderly | SysOpy/lab7/src/zad1/client.c:66-158 | the same along every such schedule |
| BarberRuns.SomebodyCanWork | SysOpy/lab7/src/zad1/client.c:66-158 | while a client is unfinished some allowed turn is not idle |
| BarberRuns.FinishesIffNeverAbandoned | SysOpy/lab7/src/zad1/client.c:66-158 | on every fair schedule, whatever the waker does: all clients finish iff the chair is never left reserved for a client that has exited while the unfinished ones all wait |
| BarberRuns.PoliteNeverAbandons | SysOpy/lab7/src/zad1/client.c:74-156 | if the waker keeps still while WAKES, the chair is never abandoned |
| BarberRuns.AllVisited | SysOpy/lab7/src/zad1/client.c:66-158 | a run has finished iff every client has made all its visits |
| BarberRuns.EverybodyFinishes | SysOpy/lab7/src/zad1/client.c:66-158 | so on every fair schedule on which the waker keeps still, every client ends, having made exactly as many visits as it came for |
| BarberRuns.ImpoliteRunGetsStuck | SysOpy/lab7/src/zad1/client.c:74-140 | a concrete beginning of a schedule on which the waker does not keep still: a client waits for ever, however the schedule goes on |
| BarberEnds.InTurnIsPolite | SysOpy/lab7/src/zad1/client.c:66-158 | taking turns, barber first, never lets the waker step while WAKES, for any number of clients, shaves and seats |
| BarberEnds.InTurnFinishes | SysOpy/lab7/src/zad1/client.c:66-158 | so if they take turns every client makes exactly its visits, without further hypotheses |
| BarberEnds.CanBeDoomed | SysOpy/lab7/src/zad1/client.c:74-146 | with two clients, a shave and a seat there are turns after which the chair is reserved for a client that has exited while another waits |
| BarberEnds.DoomedNeverFinishes | SysOpy/lab7/src/zad1/client.c:74-156 | from such a state no schedule finishes |
| BarberEnds.AlwaysFinishesIff | SysOpy/lab7/src/zad1/client.c:66-158 | every fair run finishes, whatever the waker does, iff there is at most one client, or no shave, or no seat |
| Cpu.Machine.constructor | Mikro/lab1/src/cpu_src123123/src/cpu.v:60-67 | after reset phase, pc, r0 and r1 are 0, nothing is being written, and the memory holds the image |
| Cpu.Machine.Rise | Mikro/lab1/src/cpu_src123123/src/cpu.v:69-158 | the rising edge on the registers, phase by phase |
| Cpu.Machine.Fall | Mikro/lab1/src/cpu_src123123/src/toplevel.v:99-104 | the memory port on the inverted clock, for each behaviour of its output during a write |
| Cpu.DecodeEncode | Mikro/lab1/src/cpu_src123123/src/cpu.v:86-138 | every instruction of the instruction set has an opcode that decodes to it |
| Cpu.MulIsProduct | Mikro/lab1/src/cpu_src123123/src/cpu.v:108-111 | 16 r0 + r1 after mul is the full product |
| Cpu.Fetch | Mikro/lab1/src/cpu_src123123/src/cpu.v:71-84 | two cycles fetch the opcode that the memory, as the program has left it, holds at pc; nothing else that a program sees changes but pc |
| Cpu.Execution | Mikro/lab1/src/cpu_src123123/src/cpu.v:86-155 | the other two cycles perform the decoded instruction on registers and memory |
| Cpu.FourCycles | Mikro/lab1/src/cpu_src123123/src/cpu.v:70-157 | four cycles from a boundary are one step of the instruction set |
| Cpu.Refinement | Mikro/lab1/src/cpu_src123123/src/cpu.v:59-158 | 4n cycles are n instructions, for every n, program and memory, self-modifying code included |
| Cpu.RunsFromReset | Mikro/lab1/src/cpu_src123123/src/cpu.v:59-158 | a reset at any moment: 4n cycles later the state is that of n instructions from address 0 with both registers 0 |
| Cpu.Phase | Mikro/lab1/src/cpu_src123123/src/cpu.v:70-157 | after m cycles the phase is m modulo 4 |
| Cpu.RefinementAnywhere | Mikro/lab1/src/cpu_src123123/src/cpu.v:59-158 | from any number of microcycles, completing the instruction under way leads to the state of the instruction set |
| ClockNx.Generator.Next | Mikro/lab1/src/cpu_src123123/src/clocknx.v:46-71 | the burst generator on its registers |
| ClockNx.OutputFollowsCounter | Mikro/lab1/src/cpu_src123123/src/clocknx.v:46-71 | whatever happens to the button, the output is the counter modulo 2 |
| ClockNx.OnePress | Mikro/lab1/src/cpu_src123123/src/clocknx.v:46-71 | one undisturbed press of an idle generator gives exactly N modulo 128 rising and as many falling edges, and drives that many cycles |
| ClockNx.PressRestarts | Mikro/lab1/src/cpu_src123123/src/clocknx.v:46-71 | a press at any moment, in the middle of a burst too: a high clock falls, and then the same burst follows |
| ClockNx.PressIsOneInstruction | Mikro/lab1/src/cpu_src123123/src/clocknx.v:30-71 | with N = 4 a press from a boundary executes exactly one instruction and ends at a boundary |
| ClockNx.PressesAreInstructions | Mikro/lab1/src/cpu_src123123/src/clocknx.v:30-71 | k presses, each held and followed by pauses of any sufficient length, are k instructions |
| ClockNx.PressesFromReset | Mikro/lab1/src/cpu_src123123/src/clocknx.v:30-71 | from reset, k presses are the first k instructions from address 0 with both registers 0 |
| UartTx.Transmitter.Clock | Mikro/lab1/src/cpu_src123123/src/uart_tx.v:42-94 | one edge of the bit clock on the registers, with the later of two assignments winning |
| UartTx.AlwaysSound | Mikro/lab1/src/cpu_src123123/src/uart_tx.v:42-94 | on every run: busy iff the state is positive, and the line is 1 when idle |
| UartTx.SendingLine | Mikro/lab1/src/cpu_src123123/src/uart_tx.v:61-91 | while a frame is out the inputs are ignored and the line carries the bits, then ones |
| UartTx.RestAssembles | Mikro/lab1/src/cpu_src123123/src/uart_tx.v:63-68 | the eight data bits on the line assemble, least significant first, to the byte |
| UartTx.RoundTrip | Mikro/lab1/src/cpu_src123123/src/uart_tx.v:42-94 | for every input sequence a receiver of the line gets exactly the bytes latched, less the one whose data bits are not all out |
| Dbgu.PulseGenerator.Rise | Mikro/lab1/src/cpu_src123123/src/pulsegen.v:35-59 | the pulse stretcher on its registers |
| Dbgu.PulseLasts | Mikro/lab1/src/cpu_src123123/src/pulsegen.v:35-59 | from the edge that sees the trigger rise the pulse is high for exactly 101 edges, and then low until it rises again |
| Dbgu.DebugUnit.Fall | Mikro/lab1/src/cpu_src123123/src/dbgu.v:91-184 | one falling edge of the debug unit on its registers |
| Dbgu.EdgeIsHonest | Mikro/lab1/src/cpu_src123123/src/dbgu.v:80-182 | from reset on, every edge keeps: busy iff a dump is under way, and the outputs at rest otherwise |
| Dbgu.DigitRoundTrip | Mikro/lab1/src/cpu_src123123/src/dbgu.v:104 | the ASCII digit sent for a number has that number as its value |
| Dbgu.DumpShows | Mikro/lab1/src/cpu_src123123/src/dbgu.v:99-155 | a reader of the line gets the state back: its digits are the phase, r0, r1, pc, the memory port and all sixteen cells |
| Dbgu.HeadCharIs | Mikro/lab1/src/cpu_src123123/src/dbgu.v:99-142 | the case statement spells the head of the dump, character by character |
| Dbgu.PresentsDump | Mikro/lab1/src/cpu_src123123/src/dbgu.v:99-155 | in state k the character presented is number k of the dump, and the walk over the memory stays in step |
| Dbgu.EndOfDump | Mikro/lab1/src/cpu_src123123/src/dbgu.v:143-170 | after the last character the unit is idle, with the walk over the memory back at its first cell |
| DumpRun.Delivery | Mikro/lab1/src/cpu_src123123/src/dbgu.v:80-185 | for every interleaving with at most 13 bit-clock edges in a row and any triggers, the bytes latched are whole dumps and the beginning of one |
| DumpRun.AlwaysHonest | Mikro/lab1/src/cpu_src123123/src/dbgu.v:80-185 | in every run the debug unit is busy exactly during a dump |
| DumpRun.FourteenInARow | Mikro/lab1/src/cpu_src123123/src/dbgu.v:93-174 | 13 is the limit: a run from idle with 14 bit-clock edges in a row latches its first byte twice |
| DumpRun.OneTriggerOneDump | Mikro/lab1/src/cpu_src123123/src/pulsegen.v:35-59 | for every interleaving with at most k bit-clock edges in a row, any k up to 13, one trigger from idle delivers the 86 bytes once, and no second dump starts because the dump outlasts the pulse |
| DumpRun.PrefixOfDump | Mikro/lab1/src/cpu_src123123/src/dbgu.v:80-185 | at every moment before that, under the same gaps, the bytes latched are a prefix of the dump |
| DumpRun.DumpIsReceived | Mikro/lab1/src/cpu_src123123/src/uart_tx.v:42-94 | under the same gaps a receiver on the serial line reads exactly the text of the dump, from whose digits the whole state is read back |
| Prescaler.Section.ClockIn | Mikro/lab1/src/cpu_src123123/src/prescaler.v:42-52 | one section of the divider on its registers |
| Prescaler.TickRuns | Mikro/lab1/src/cpu_src123123/src/prescaler.v:42-52 | whatever the registers hold, counter and output fit each other after one tick |
| Prescaler.EdgesAt | Mikro/lab1/src/cpu_src123123/src/prescaler.v:42-66 | where in the count the output rises and falls, from any registers but for their first tick |
| Prescaler.MainClockRate | Mikro/lab1/src/cpu_src123123/src/prescaler.v:31-66 | in 125000000 ticks the main clock falls 992063 or 992064 times, once every 126 ticks, not 125, because the counter counts to the ratio itself |
| Prescaler.BitClockRate | Mikro/lab1/src/cpu_src123123/src/prescaler.v:31-66 | in the same time the bit clock rises 115101 or 115102 times, where 115200 were asked for |
| Prescaler.EightBetween | Mikro/lab1/src/cpu_src123123/src/prescaler.v:31-66 | from any registers: between two rising edges of the bit clock the debug unit gets at least eight edges (four, if the first is the first tick of registers that did not fit) |
| Prescaler.ClocksAreSpaced | Mikro/lab1/src/cpu_src123123/src/prescaler.v:42-66 | from any registers the two dividers never produce two bit-clock edges in a row, and none is lost |
| Prescaler.DumpOnBoard | Mikro/lab1/src/cpu_src123123/src/prescaler.v:31-66 | with the clocks of the board from any registers, one press and 1206 bit periods (one tick more if the registers did not fit): exactly one dump is received, and the state is read back from it |
| LineBuffer.Globals.constructor | SysOpy/lab9/src/zad1/main.c:32-37 | the globals at the start |
| LineBuffer.Globals.AddToBuffer | SysOpy/lab9/src/zad1/main.c:69-119 | the critical section of `addToBuffer` on the ring array and the counters: every branch, what it returns and whom it wakes |
| LineBuffer.Globals.RemoveFromBuffer | SysOpy/lab9/src/zad1/main.c:130-173 | the critical section of `removeFromBuffer`, likewise, with the length filter |
| LineBuffer.SelectedByLength | SysOpy/lab9/src/zad1/main.c:147-154 | EQUAL selects a chunk iff it has stringLength characters besides its line end, LESSER iff it has fewer, GREATER iff more, and no other mode selects any |
| LineBuffer.SelectedOutside | SysOpy/lab9/src/zad1/main.c:147-154 | the same for a negative length, which becomes a huge unsigned one, and for the empty chunk, whose length wraps round |
| LineBuffer.AddWakes | SysOpy/lab9/src/zad1/main.c:73-116 | adding wakes the consumers when the ring stops being empty and at the end of the file; the producer waits exactly at a full ring and stops only at the end of the file |
| LineBuffer.RemoveWakes | SysOpy/lab9/src/zad1/main.c:134-173 | removing wakes the producers exactly when the ring stops being full; the consumer waits exactly at an empty ring before the end of the file |
| LineBuffer.AddAppends | SysOpy/lab9/src/zad1/main.c:89-97 | adding appends the numbered line to the contents of the ring, across the wrap-around |
| LineBuffer.RemoveDrops | SysOpy/lab9/src/zad1/main.c:147-163 | removing takes the oldest line and leaves the others |
| LineBuffer.AddKeepsQueue | SysOpy/lab9/src/zad2/main.c:65-117 | adding keeps the ring a queue over the file: lines taken, then contents, are the prefix read so far, numbered consecutively |
| LineBuffer.RemoveKeepsQueue | SysOpy/lab9/src/zad2/main.c:128-173 | removing keeps it, and the printed lines stay the filtered lines taken, in file order |
| LineBuffer.SelectionPrints | SysOpy/lab9/src/zad1/main.c:147-158 | of every file: a chunk is among the selected lines, with its number, iff its length fits the mode, and they come in file order |
| Monitor.ActGood | SysOpy/lab9/src/zad1/main.c:69-199 | every call and every spurious wake-up keeps: a waiter on empty means no line and no end of file, a waiter on full means a full ring |
| Monitor.RunGood | SysOpy/lab9/src/zad1/main.c:69-199 | the same, and the queue, in every run with any number of threads |
| Monitor.NoDeadlock | SysOpy/lab9/src/zad1/main.c:69-199 | until all threads have returned one of them can make a call that finds room, a line or the end of the file |
| LineBuffer.WholeFilePrinted | SysOpy/lab9/src/zad2/main.c:128-173 | once the ring is empty behind the end of the file, the whole file was read and exactly the chunks whose length fits the mode were printed, with their numbers, in file order |
| Monitor.CallWorks | SysOpy/lab9/src/zad1/main.c:69-199 | with timeout 0 every call uses up work |
| Monitor.CallsAreBounded | SysOpy/lab9/src/zad1/main.c:69-199 | so the number of calls is bounded on every schedule, but for spurious wake-ups |
| Monitor.EveryRunCanFinish | SysOpy/lab9/src/zad1/main.c:69-199 | every run can be completed, and then the output is right |
| Monitor.FairRunsFinish | SysOpy/lab9/src/zad1/main.c:69-199 | on every schedule that gives every thread its call again and again, with any spurious wake-ups, all threads return and exactly the chunks whose length fits are printed |
| Monitor.EndsIffRoom | SysOpy/lab9/src/zad1/main.c:69-199 | with at least one thread of each kind a fair run ends iff the ring has room |
| Monitor.NoRoomNoEnd | SysOpy/lab9/src/zad1/main.c:73-78 | with a ring of length 0 no thread ever returns, on any schedule |
| Turnstiles.ActGood | SysOpy/lab9/src/zad2/main.c:65-173 | every critical section, wait and post keeps the queue and keeps both turnstiles passable |
| Turnstiles.RunGood | SysOpy/lab9/src/zad2/main.c:65-201 | the same in every run: the semaphore version refines the same queue |
| TurnstileRuns.TokensAreKept | SysOpy/lab9/src/zad2/main.c:65-173 | in every run the tokens of a turnstile, held or owed, are those it starts with, one for the producers and none for the consumers, and one for each call that opens it |
| TurnstileRuns.LetCall | SysOpy/lab9/src/zad2/main.c:65-173 | any producer that is not done, with room in the ring, gets to a successful call of its own by the steps of producers alone; with a line or the end of the file likewise any consumer, by those of consumers |
| TurnstileRuns.OwnTurn | SysOpy/lab9/src/zad2/main.c:65-173 | on its turn such a thread calls or comes closer to its call, or another of its side is already through the turnstile |
| TurnstileRuns.EveryRunCanFinish | SysOpy/lab9/src/zad2/main.c:65-201 | no reachable state is a deadlock: every run can be completed, with the right output |
| TurnstileRuns.FairRunsFinish | SysOpy/lab9/src/zad2/main.c:65-201 | on every schedule that runs every thread again and again all threads return and exactly the chunks whose length fits are printed |
| TurnstileRuns.EndsIffRoom | SysOpy/lab9/src/zad2/main.c:65-201 | with at least one thread of each kind a fair run ends iff the ring has room |
| ImageFilter.Round | SysOpy/lab8/src/zad1/main.c:111 | to the nearest integer, halves away from zero |
| ImageFilter.CellMoves | SysOpy/lab8/src/zad1/main.c:96-111 | the filter with a single one in an arbitrary row p and column q takes each pixel from p - c rows below and q - c columns to the right, c = ceil(size / 2); beyond the first edges the image repeats, beyond the last it is 0 |
| ImageFilter.LinearSum | SysOpy/lab8/src/zad1/main.c:103-110 | the sum is linear in the filter, so the single cells fix it for every filter |
| ImageFilter.IdentityKeeps | SysOpy/lab8/src/zad1/main.c:96-111 | so the filter with its one in row and column c gives back every pixel, edges included |
| ImageFilter.Adjacent | SysOpy/lab8/src/zad1/main.c:97-101 | each segment begins where the one before ends, the first at 0, the last ends at the width |
| ImageFilter.Balanced | SysOpy/lab8/src/zad1/main.c:97-101 | each segment begins at its share of the width, rounded down, and no two differ by more than one column |
| ImageFilter.OneOwner | SysOpy/lab8/src/zad1/main.c:97-101 | a thread has a column iff it is the one owner of a column of the image |
| ImageFilter.ConvolveRow | SysOpy/lab8/src/zad1/main.c:106-109 | the innermost loop adds up one row of the clamped convolution, all reads in bounds |
| ImageFilter.Convolve | SysOpy/lab8/src/zad1/main.c:103-110 | the two inner loops compute the clamped convolution, all reads in bounds |
| ImageFilter.Calculate | SysOpy/lab8/src/zad1/main.c:94-118 | one thread: its columns get the filtered pixels, all others keep theirs, only its flag is raised |
| FilterThreads.Step | SysOpy/lab8/src/zad1/main.c:94-152 | every step of every thread and of the polling main thread keeps the loop variables in range, so all writes are in bounds |
| FilterThreads.WorkWrites | SysOpy/lab8/src/zad1/main.c:99-113 | one step of any thread keeps: a pixel its owner has passed has its value and was written once |
| FilterThreads.RunWrites | SysOpy/lab8/src/zad1/main.c:94-152 | the same along every interleaving |
| FilterThreads.OutputIsImage | SysOpy/lab8/src/zad1/main.c:121-152 | when the main thread leaves its polling loop the output is the filtered image and each pixel was written exactly once |
| FilterThreads.TurnsCount | SysOpy/lab8/src/zad1/main.c:99-115 | in every run a thread still needs what it needed less the turns it has had |
| FilterThreads.AlwaysEnds | SysOpy/lab8/src/zad1/main.c:121-152 | once every thread and then the main thread have had their turns, in any order, the work is complete |
| DivisorSum.Sump | Python/lab1/src/sump.py:1-9 | the loop up to the square root adds up the pairs; the branch after the loop is never taken |
| DivisorSum.Sump2 | Python/lab1/src/sump.py:12-19 | the naive loop adds up the proper divisors |
| DivisorSum.NextCodivisor | Python/lab1/src/sump.py:4-6 | between n/(p+1) and n/p there is no divisor but the codivisor of p |
| DivisorSum.PairsAreDivisors | Python/lab1/src/sump.py:4-6 | the pairs below p are the divisors below p and those above n/p |
| DivisorSum.PairedIsProper | Python/lab1/src/sump.py:1-19 | for n of at least 1: the two sums are equal, and on a square the first is larger by the root |
| DivisorSum.SameIffNotSquare | Python/lab1/src/sump.py:1-19 | for every integer: the two functions agree iff n is positive and not a square |
| StableSort.SortedIsStable | SysOpy/lab2/src/zad1/zad1.c:126-208 | the specified result is ordered by first byte, a permutation of whole records, and keeps equal first bytes in their order |
| StableSort.StableSortIsUnique | SysOpy/lab2/src/zad1/zad1.c:126-208 | only one arrangement is ordered and keeps the records of each key in their order |
| RecordFile.PutRecord | SysOpy/lab2/src/zad1/zad1.c:153-163 | writing a record at its offset replaces that record and leaves the others and what follows them |
| RecordFile.PutIs | SysOpy/lab2/src/zad1/zad1.c:153-163 | byte by byte after a write: what was written, what was there, and zeros in a gap behind the end |
| RecordFile.ReadRecord | SysOpy/lab2/src/zad1/zad1.c:143-150 | seek and read of any record: a short read at the end of the file leaves the rest of the buffer; within the file it is the record |
| RecordFile.WriteRecord | SysOpy/lab2/src/zad1/zad1.c:153-163 | seek and write of any record: behind the end the file grows; within it the record is replaced |
| RecordFile.InsertRecord | SysOpy/lab2/src/zad1/zad1.c:143-163 | one round: the do-while loop and the two final positions put record i in its place among those before it; whatever the length of the file, nothing is written behind record i |
| RecordFile.Sort | SysOpy/lab2/src/zad1/zad1.c:126-208 | a file that holds the records ends up as their stable sort, with the bytes behind them unchanged; a shorter one is not cut and grows to at most that many records |
| RecordFile.SortedFile | SysOpy/lab2/src/zad1/zad1.c:126-208 | what that means for a file: ascending in the first byte of each record, a permutation, stable, and unchanged iff it was ordered |

## Left out

- FormulaLazy.MachineAsWritten: the necessity of safety is stated for formulas without repeated variables; with repetition it is not necessary, as FormulaLazy.RightByCoincidence shows.
- FormulaWritten.TautologyAsWritten: one direction; an unsafe formula with repeated variables can still get the right verdict.
- FormulaWritten.SameAsWritten: one direction; two unsafe formulas can still get the right verdict.
- FormulaCompile.OnpCompiles: for sentences of the grammar; on other strings only termination and the outcome that the loop computes are modelled.
- FormulaValue.Foo: letters are ASCII, where `isalpha` has those of all scripts; digits as constants inside a formula are not variables here.
- FormulaText.CheckLoop: the same limit: a letter outside ASCII is passed over like any other sign, where the source takes it for an operand.
- FormulaGrammar.CheckIsGrammar: the same limit, so it speaks of strings without such letters.
- BarberRuns.FinishesIffNeverAbandoned: fairness of the semaphore is a hypothesis; taking the lock and the turn under it are one step.
- DumpRun.OneTriggerOneDump: the processor does not change its state or memory during a dump, and the trigger is not pressed again.
- Prescaler.DumpOnBoard: edges that coincide are taken in either order; metastability is not modelled.
- TurnstileRuns.FairRunsFinish: fairness is that every thread's next step is tried again and again; which waiter a post lets through is left open.
- Monitor.CallsAreBounded: spurious wake-ups are counted and may go on for ever, as they may in the library.
- LineBuffer.Globals.AddToBuffer: a line is what `strcpy` copies, so a chunk with an embedded zero byte is cut there; a negative ring length is not modelled.
- ImageFilter.Convolve: exact real arithmetic in place of double precision; conversion of results outside the range of int is not modelled.
- ImageFilter.Adjacent: products of thread number and width do not overflow 32 bits.
- FilterThreads.OutputIsImage: one pixel write or flag access is one atomic step; at least one thread.
- RecordFile.Sort: of a file shorter than its records only the length is stated, because its last records are then what the buffers held; a file that cannot be opened and overflow of offsets are not modelled.
- The printing of truth tables (`evaluate`), of messages and of times.
- Timeouts other than 0 beyond the safety properties, thread cancellation, and sleeping.
- The parsing of arguments, configurations, images and filters.
- The second barber program (`SysOpy/lab7/src/zad2`): the same protocol with another lock.
- The button debouncers, the slow clock section of the prescaler and the pin assignments of the board.
- The other programs of the repository: process, signal, socket and FIFO exercises, the block library, the Erlang, Scala and Java exercises.

# Amplifier circuit over a resumable Intcode computer

This project models the core of a small puzzle solver that runs one integer
program on a chain of five "amplifiers". It has three parts.

- **The Intcode computer.** It is a resumable interpreter over a private
  memory of integers. `run` decodes instructions until one of three things
  happens: an output instruction runs (it returns the value and leaves the
  pointer just past the output), opcode 99 runs, or the pointer leaves memory.
  The last two return nothing. A later `run` resumes where the previous one
  stopped.
- **`permutations_max`.** It tries every ordering of the phase settings by
  swapping each candidate into place, recursing and swapping it back. It
  returns the largest value of an objective, starting from the smallest 64-bit
  integer.
- **The pipelines.** Part 1 folds a signal through one fresh computer per
  phase, with inputs `[phase, signal]`. Part 2 keeps five computers in a
  feedback loop, visited 0, 1, 2, 3, 4, 0, …. Every visit takes the next phase
  while any is left, followed by the signal. So when there are five phases,
  each computer gets its phase on its first visit only. The loop ends at the first `run` that returns nothing,
  and the result is the signal held then.

Modules, one per file:

- `Outcomes` (outcomes.dfy): the faults that replace the computer's panics,
  plus `Result`, `Option` and the event of one instruction.
- `Semantics` (semantics.dfy): a reference table of the instruction set over
  absolute offsets. Parameter k of the instruction at `pos` is in slot
  `pos + 1 + k`, and its mode is decimal digit `k + 2` of the instruction word.
- `Intcode` (intcode.dfy): the computer helper by helper:
  - a cursor that every read advances;
  - a mode register that every parameter read shifts right by one digit;
  - `Execute` (one instruction);
  - the fuel-bounded `Run`.
- `Agreement` (agreement.dfy): proves that `Execute` and the reference table
  agree. Per-opcode statements follow from that.
- `RunFacts` (run_facts.dfy): facts about whole runs:
  - fuel monotonicity;
  - where a run can stop.
- `ComputerTests` (tests.dfy): the example programs of the computer's own
  tests, proved for every input value where the test fixes only one value.
- `Search` (search.dfy): the swap-based search, and the arrangements it ranges
  over.
- `Amplifiers` (amplifiers.dfy): the two pipelines and the two solvers. Each
  pipeline comes with a declarative description (a chain of signals, a trace
  of visits) and a proof that the two agree. Answers reached within a fuel
  budget are proved unchanged by any larger budget, which ties them to the
  source's unbounded runs.

**A halt does not make the machine idle.** Opcode 99 only leaves the loop
(main.rs line 89). The pointer stays just past the 99, and a later `run`
resumes there. Only a pointer at or past the end of memory makes `run` idle
(lines 78 and 96-98). The model states both:

- `Intcode.Run`'s contract gives idleness for the end-of-memory case only:
  on a finished machine, every run returns nothing and changes nothing.
- `ComputerTests.HaltIsNotSticky` exhibits the difference on `[99, 4, 0]`. The
  first run halts without output. A second run resumes at cell 1 and outputs
  99.

## Model

| member | source | states |
|---|---|---|
| Intcode.New | day07/src/main.rs:68-75 | a new machine holds a copy of the program with the pointer at 0, and is finished exactly when the program is empty |
| Intcode.Load | day07/src/main.rs:127-131 | reading the word under the cursor succeeds exactly when the cursor is inside memory; it yields that word and moves the cursor by one |
| Intcode.DerefLoad | day07/src/main.rs:133-136 | yields the cell addressed by the word under the cursor, the reference table's mode-0 operand; fails exactly when either index is outside memory; the cursor moves by one |
| Intcode.LoadParam | day07/src/main.rs:138-146 | a mode digit above 1 is the unknown-mode fault carrying the whole register; otherwise the result is the reference operand for digit `modes % 10` (indirect for 0, direct for 1); the cursor moves by one and the register is divided by 10 |
| Intcode.LoadInstruction | day07/src/main.rs:148-152 | succeeds exactly on a non-negative word inside memory; then opcode < 100 and modes * 100 + opcode equals the word; memory is unchanged and the pointer moves by one |
| Intcode.Save | day07/src/main.rs:154-157 | stores the value at the address in the slot under the cursor, always positionally; succeeds exactly when that address is inside memory; only that cell changes; the cursor moves by one |
| Intcode.Jump | day07/src/main.rs:100-102 | the pointer becomes the parameter read in its mode; succeeds exactly when the read succeeds and the target is non-negative; memory is unchanged |
| Intcode.JumpIf | day07/src/main.rs:104-109 | when the condition fails on the first parameter, the pointer skips the second parameter (pos + 2 from the first slot); when it holds, the pointer becomes the second parameter, read in the next mode digit; memory never changes |
| Intcode.SetIf | day07/src/main.rs:111-116 | succeeds exactly when both parameters and the destination can be read; stores 1 or 0 (whether the comparison holds of a and b) at the destination; the pointer moves three slots |
| Intcode.OpBinary | day07/src/main.rs:118-121 | succeeds exactly when both parameters and the destination can be read; stores op(a, b) at the destination, and nothing else changes in memory; the pointer moves three slots |
| Intcode.Execute | day07/src/main.rs:79-91 | every completed instruction keeps the memory length and takes at most the first input value; an output leaves the output instruction two cells behind the pointer, and a halt leaves the 99 just behind it; neither changes memory or input |
| Intcode.RunLoop | day07/src/main.rs:77-94 | the run loop over an arbitrary executor returns nothing, and changes nothing, on a finished machine |
| Intcode.Run | day07/src/main.rs:77-94 | run on a finished machine returns no output and leaves machine and input unchanged |
| Semantics.Step | day07/src/main.rs:80-91 | the reference opcode table keeps the memory length and leaves memory unchanged on an output or a halt |
| Semantics.Destination | day07/src/main.rs:154-157 | a successful store address lies inside memory |
| Semantics.Fetch | day07/src/main.rs:128 | indexing succeeds exactly inside memory and yields the cell |
| Agreement.ModeDigits | day07/src/main.rs:139-144 | shifting the register right once per parameter reads the instruction's decimal digits 2 and 3 |
| Agreement.ModeRegister | day07/src/main.rs:148-152 | after decoding, the mode register's low digit and next digit are the modes of parameters 1 and 2 |
| Agreement.AgreeThreeOperand | day07/src/main.rs:111-121 | for opcodes 1, 2, 7 and 8, the interpreter and the reference table fail together, or succeed with the same effect |
| Agreement.AgreeJump | day07/src/main.rs:100-109 | for opcodes 5 and 6, the interpreter and the reference table fail together, or succeed with the same effect |
| Agreement.ExecuteMatchesStep | day07/src/main.rs:79-91 | for every machine and input, Execute succeeds exactly when the reference table does, with the same event, memory, pointer and remaining input |
| Agreement.ThreeOperandInstruction | day07/src/main.rs:81-88 | opcodes 1, 2, 7, 8 read a then b in their own modes and write the combination at the positional address in the third slot; no other cell changes; the pointer ends 4 past the opcode |
| Agreement.CombineValues | day07/src/main.rs:81-88 | opcode 1 adds, 2 multiplies, 7 yields 1 exactly when a < b, 8 yields 1 exactly when a == b, and 7 and 8 only ever yield 0 or 1 |
| Agreement.JumpInstruction | day07/src/main.rs:85-86 | when the condition holds (non-zero for 5, zero for 6), the pointer becomes the second parameter (a negative target is a fault); otherwise it ends 3 past the opcode; memory never changes |
| Agreement.InputInstruction | day07/src/main.rs:83 | opcode 3 with no input left is the input-exhausted fault; otherwise it takes exactly the first value and stores it at the positional address in the next slot; the pointer moves 2 |
| Agreement.OutputInstruction | day07/src/main.rs:84 | opcode 4 emits mem[mem[pos + 1]] whatever its mode digit; memory is unchanged and the pointer ends at pos + 2 |
| Agreement.HaltInstruction | day07/src/main.rs:89 | opcode 99 always succeeds; it halts with the pointer one past it and memory and input unchanged |
| Agreement.UnknownInstruction | day07/src/main.rs:90 | any other opcode is the unknown-opcode fault carrying the opcode, and a negative word is a fault too |
| RunFacts.ExecuteWellBehaved | day07/src/main.rs:79-91 | every completed instruction of the interpreter has the shape of an Intcode instruction |
| RunFacts.RunLoopFuelMonotone | day07/src/main.rs:78-92 | for any executor, an answer the loop reaches within some fuel is unchanged by more fuel |
| RunFacts.RunFuelMonotone | day07/src/main.rs:77-94 | a run that reached an answer within some fuel reaches the same answer with any larger fuel |
| RunFacts.RunLoopStops | day07/src/main.rs:78-93 | for any well-behaved executor, a completed loop keeps the memory length and consumes input only from the front; it stops just after an output instruction or a halt, or at the end of memory |
| RunFacts.RunStopsAtOutputOrHalt | day07/src/main.rs:77-94 | an output comes from the output instruction two cells behind the pointer (so the next run resumes after it); no output means the run halted at a 99 or reached the end of memory; the memory length never changes, and only a prefix of the input is consumed |
| RunFacts.RunContinues | day07/src/main.rs:78-92 | an instruction that neither outputs nor halts hands the rest of the run, with one unit less fuel, to the machine it leaves |
| ComputerTests.HaltStep | day07/src/main.rs:89 | a bare 99 halts with the pointer just past it and memory unchanged |
| ComputerTests.OutputStep | day07/src/main.rs:84 | a bare 4 emits the cell its address slot points at and moves the pointer by 2 |
| ComputerTests.AddInPlaceStep | day07/src/main.rs:174 | the first instruction of [1,0,0,0,99] turns cell 0 into 2 |
| ComputerTests.AddInPlaceProgram | day07/src/main.rs:174 | [1,0,0,0,99] ends as [2,0,0,0,99], halted at cell 4 with no output, for any input |
| ComputerTests.MultiplyStep | day07/src/main.rs:175 | the first instruction of [2,3,0,3,99] writes 6 into cell 3 |
| ComputerTests.MultiplyProgram | day07/src/main.rs:175 | [2,3,0,3,99] ends as [2,3,0,6,99] with no output |
| ComputerTests.StorePastHaltStep | day07/src/main.rs:176 | the first instruction of [2,4,4,5,99,0] writes 9801 into cell 5 |
| ComputerTests.StorePastHaltProgram | day07/src/main.rs:176 | [2,4,4,5,99,0] ends as [2,4,4,5,99,9801], halted before the end of memory, with no output |
| ComputerTests.SelfModifyingFirstStep | day07/src/main.rs:177 | the first instruction of [1,1,1,4,99,5,6,0,99] overwrites the 99 in cell 4 with 2 |
| ComputerTests.SelfModifyingSecondStep | day07/src/main.rs:177 | the rewritten cell 4 multiplies 5 by 6 into cell 0 |
| ComputerTests.SelfModifyingProgram | day07/src/main.rs:177 | [1,1,1,4,99,5,6,0,99] ends as [30,1,1,4,2,5,6,0,99] with no output |
| ComputerTests.EchoStep | day07/src/main.rs:182 | the echo program stores its input in cell 0 |
| ComputerTests.EchoProgram | day07/src/main.rs:181-185 | [3,0,4,0,99] outputs exactly its input value, for every value (the test uses 302 and -1) |
| ComputerTests.PositionalCompareInputStep | day07/src/main.rs:186-192 | the positional comparison programs store their input in cell 9 |
| ComputerTests.PositionalCompareStep | day07/src/main.rs:186-192 | the positional comparison writes the 0/1 comparison of the input with 8 into cell 9 |
| ComputerTests.PositionalCompareProgram | day07/src/main.rs:186-192 | the positional comparison programs output the comparison of the input with the 8 in cell 10 |
| ComputerTests.EqualToEightPositional | day07/src/main.rs:186-188 | [3,9,8,9,10,9,4,9,99,-1,8] outputs 1 exactly when the input is 8, and 0 otherwise |
| ComputerTests.LessThanEightPositional | day07/src/main.rs:190-192 | [3,9,7,9,10,9,4,9,99,-1,8] outputs 1 exactly when the input is below 8, and 0 otherwise |
| ComputerTests.ImmediateCompareInputStep | day07/src/main.rs:194-200 | the immediate comparison programs store their input in cell 3, their own operand slot |
| ComputerTests.ImmediateCompareStep | day07/src/main.rs:194-200 | with mode digits 1 1, the comparison reads the two operand slots themselves and writes the result into cell 3 |
| ComputerTests.ImmediateCompareProgram | day07/src/main.rs:194-200 | the immediate comparison programs output the comparison of the input with the literal 8 |
| ComputerTests.EqualToEightImmediate | day07/src/main.rs:194-196 | [3,3,1108,-1,8,3,4,3,99] outputs 1 exactly when the input is 8, and 0 otherwise |
| ComputerTests.LessThanEightImmediate | day07/src/main.rs:198-200 | [3,3,1107,-1,8,3,4,3,99] outputs 1 exactly when the input is below 8, and 0 otherwise |
| ComputerTests.RerunInputStep | day07/src/main.rs:205-207 | the rerun program stores its input in cell 0 |
| ComputerTests.RerunProgram | day07/src/main.rs:204-216 | on [3,0,4,0,4,0,99] the first run outputs the input; the second run resumes after that output and outputs it again without reading input; the third halts; the fourth finds the machine at the end of memory and changes nothing |
| ComputerTests.HaltIsNotSticky | day07/src/main.rs:89-93 | after a run stops at a 99 in the middle of memory, a further run resumes after it: [99,4,0] first returns nothing, then outputs 99 |
| Search.Swap | day07/src/main.rs:33 | exchanging two positions keeps the length, swaps the two elements and leaves every other position alone |
| Search.ArrangementFromStart | day07/src/main.rs:4 | the arrangements reached from position 0 are exactly the permutations of the phases |
| Search.ArrangementAtEnd | day07/src/main.rs:29-30 | at position == length, the only arrangement is the sequence itself |
| Search.SwapIsArrangement | day07/src/main.rs:33 | swapping a later element into position pos keeps the prefix and rearranges the suffix |
| Search.ArrangementFromSwap | day07/src/main.rs:32-37 | an arrangement, one position further on, of the sequence with candidate i swapped in is an arrangement of the original |
| Search.ArrangementAfterSwap | day07/src/main.rs:32-37 | an arrangement whose head is element i is an arrangement, one position further on, of the sequence with i swapped in |
| Search.ArrangementHead | day07/src/main.rs:32 | the head of every arrangement is one of the candidates the fold tries |
| Search.BoundedOnNext | day07/src/main.rs:32-37 | after candidate i, the running maximum bounds every arrangement whose head is one of the candidates tried so far |
| Search.AttainedFromSwap | day07/src/main.rs:34 | a value found in the recursive search is attained by an arrangement of the caller's suffix |
| Search.BoundedOnAll | day07/src/main.rs:32-38 | once every candidate is tried, the maximum bounds every arrangement |
| Search.TryCandidate | day07/src/main.rs:32-37 | one fold step gives the caller's sequence back; its value is at least the running maximum and bounds every arrangement headed by one of the candidates up to i; it is the running maximum or a value some arrangement attains; a failure is reported with an arrangement that causes it |
| Search.PermutationsMax | day07/src/main.rs:25-39 | the caller's sequence comes back unchanged. At pos == length the result is f(phases); past the end it is the 64-bit minimum. Otherwise it is the maximum of the 64-bit minimum and f over every ordering of phases[pos..] with phases[..pos] fixed: it bounds every such f-value and equals one of them unless it is the minimum. A failing evaluation is returned with an arrangement that caused it |
| Amplifiers.Stage | day07/src/main.rs:6 | an amplifier succeeds exactly when a fresh machine, fed [phase, signal], stops with an output, and then yields that output |
| Amplifiers.ChainGivesAmplify | day07/src/main.rs:5-7 | a chain of signals through fresh amplifiers, one per phase in order, is what the fold computes |
| Amplifiers.AmplifyGivesChain | day07/src/main.rs:5-7 | a successful fold passes the signal along such a chain, from the initial signal to its result |
| Amplifiers.AmplifyFollowsChain | day07/src/main.rs:4-8 | the single-pass pipeline ends with v exactly when a chain of fresh-amplifier signals from the initial signal ends with v |
| Amplifiers.P1Solve | day07/src/main.rs:3-9 | part 1 returns the maximum over every permutation of the phases of the pipeline's final signal. With no phases it is the initial signal. A failing pipeline is reported with a permutation that caused it |
| Amplifiers.StageFuelMonotone | day07/src/main.rs:6 | an amplifier that did not run out of fuel gives the same answer, output or fault, with any larger budget |
| Amplifiers.AmplifyFuelMonotone | day07/src/main.rs:5-7 | a pipeline result reached within a budget per amplifier is the result under every larger budget |
| Amplifiers.P1AnswerFuelMonotone | day07/src/main.rs:3-9 | a part-1 answer (bounding every permutation's pipeline, reached by one of them unless it is the 64-bit minimum) stays the answer, with every pipeline result unchanged, under any larger budget |
| Amplifiers.PermutationsFromStart | day07/src/main.rs:4 | the search's bound and witness from position 0 are statements about permutations |
| Amplifiers.Fresh | day07/src/main.rs:13 | there are five amplifiers, and each starts as a new machine over its own copy of the program |
| Amplifiers.VisitInputs | day07/src/main.rs:16 | a visit's input ends with the current signal; it has the phase in front exactly while the phase list lasts, and that phase is the k-th |
| Amplifiers.PhaseOnFirstVisitOnly | day07/src/main.rs:14-16 | with five phases, visit k (of amplifier k mod 5) gets [phase, signal] on its first visit and [signal] afterwards |
| Amplifiers.ProducesTail | day07/src/main.rs:15-20 | dropping the first visit of a trace leaves a trace from the next visit, stopping where the whole trace stops |
| Amplifiers.ProducesCons | day07/src/main.rs:15-20 | a visit that outputs the first signal of a trace, leaving the amplifiers that trace starts from, extends the trace |
| Amplifiers.TraceGivesFeedback | day07/src/main.rs:15-21 | a trace of visits that ends in a run without output is what the feedback loop computes, given enough visits |
| Amplifiers.FeedbackGivesTrace | day07/src/main.rs:15-21 | a successful feedback loop followed such a trace, within the visits allowed |
| Amplifiers.FeedbackFollowsTrace | day07/src/main.rs:14-21 | the feedback loop ends with v exactly when a trace of visits from the initial signal ends in a run without output while holding v. In that trace each visit runs amplifier k mod 5 on its own machine and changes only that amplifier |
| Amplifiers.FeedbackRoundsMonotone | day07/src/main.rs:15-20 | allowing more visits never changes an answer the loop reached |
| Amplifiers.BudgetExtends | day07/src/main.rs:16 | a run with a larger budget gives the same result wherever the smaller budget did not run out |
| Amplifiers.FeedbackRunnerMonotone | day07/src/main.rs:15-20 | the feedback loop gives the same answer with any runner that agrees with the original wherever the original did not run out of fuel |
| Amplifiers.FeedbackFuelMonotone | day07/src/main.rs:15-21 | a feedback-loop answer reached within a budget per visit is the answer under every larger budget |
| Amplifiers.P2AnswerFuelMonotone | day07/src/main.rs:11-23 | a part-2 answer stays the answer, with every loop result unchanged, under any larger budget per visit and any larger number of visits |
| Amplifiers.P2Solve | day07/src/main.rs:11-23 | part 2 returns the maximum, over every permutation of the phases, of the feedback loop's final signal, with five fresh amplifiers. A failing loop is reported with a permutation that caused it |

`Intcode.Finished` (source lines 96-98), `Intcode.Skip` (123-125),
`Amplifiers.Amplify` (5-7) and `Amplifiers.Feedback` (12-22) model their
source directly. What is proved about them is in the rows above.

## Left out

- `main` (source lines 42-57): reading standard input, splitting on commas,
  parsing, printing, and the asserts on the puzzle answers. These are I/O or
  specific to one puzzle input.
- Arithmetic overflow. Values are unbounded integers, so `i64` overflow on
  opcodes 1 and 2 (a panic in debug builds, wrap-around in release builds) is
  not modelled.
- Intcode.Jump: a negative jump target is the `AddressOutOfRange` fault.
  Rust's `as usize` would turn it into a huge pointer, and the machine would
  then read as finished.
- Intcode.LoadInstruction: a negative instruction word is the
  `NegativeInstruction` fault. Rust's `as usize` would wrap it and decode the
  digits of 2^64 plus the word.
- Negative or out-of-range addresses: reading, dereferencing and storing
  through them is the `AddressOutOfRange` fault. Rust panics on the index.
- Termination. `Run` executes at most `fuel` instructions and part 2 makes at
  most `rounds` visits. Running out is the `OutOfFuel` fault. The source bounds
  neither loop. Any other result is unchanged by more fuel or more visits
  (`RunFacts.RunFuelMonotone`, `Amplifiers.AmplifyFuelMonotone`,
  `Amplifiers.FeedbackFuelMonotone`, `Amplifiers.FeedbackRoundsMonotone`), so it
  is the result of the unbounded loops.
- Rust iterators and closures:
  - the input iterator is a sequence, and `Run` returns what is left unread
    (the source drops it after each call);
  - the arithmetic and comparison closures are the `Arithmetic`,
    `Comparison` and `Condition` enumerations;
  - the search objective is a function value that returns a `Result`.
- Panics (`unreachable!`, `expect`, `unwrap`) are fault values of `Result`.
  The first failing evaluation aborts the search, as the panic aborts the
  program.
- Search.PermutationsMax: after a failing evaluation it still returns the
  restored sequence, while the source's panic leaves the vector half-swapped.
  Nothing can observe that vector after a panic.

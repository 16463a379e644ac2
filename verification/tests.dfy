/** The example programs of the computer's own tests, as lemmas about Run.
    Each run is taken one instruction at a time: a `...Step` lemma states
    what Execute does to the machine at that point, and RunFacts.RunContinues
    hands the rest of the run to the machine it leaves. */
module ComputerTests {
  import opened Outcomes
  import opened Intcode
  import opened RunFacts
  import Semantics

  /** A bare 99 halts with the pointer just past it and the registers
      holding its decoded word. */
  lemma HaltStep(c: Computer, input: seq<int>)
    requires c.pos < |c.program| && c.program[c.pos] == 99
    ensures Execute(c, input) == Ok(Transition(Halted, Computer(c.program, c.pos + 1, 0, 99), input))
  {
  }

  /** A bare 4 emits the cell its address slot points at. */
  lemma OutputStep(c: Computer, input: seq<int>)
    requires c.pos + 1 < |c.program| && c.program[c.pos] == 4
    requires 0 <= c.program[c.pos + 1] < |c.program|
    ensures Execute(c, input) == Ok(Transition(Emitted(c.program[c.program[c.pos + 1]]), Computer(c.program, c.pos + 2, 0, 4), input))
  {
  }

  // Day-2 programs: arithmetic only, no input read, no output.

  lemma AddInPlaceStep(input: seq<int>)
    ensures Execute(New([1, 0, 0, 0, 99]), input) == Ok(Transition(Continued, Computer([2, 0, 0, 0, 99], 4, 0, 1), input))
  {
    assert [1, 0, 0, 0, 99][0 := 2] == [2, 0, 0, 0, 99];
  }

  /** Adding cell 0 to itself doubles it; the halt in the last cell then
      stops the run without output. */
  lemma AddInPlaceProgram(input: seq<int>)
    ensures Run(New([1, 0, 0, 0, 99]), input, 2) == Ok(Stop(None, Computer([2, 0, 0, 0, 99], 5, 0, 99), input))
  {
    AddInPlaceStep(input);
    RunContinues(New([1, 0, 0, 0, 99]), input, 2);
    HaltStep(Computer([2, 0, 0, 0, 99], 4, 0, 1), input);
  }

  lemma MultiplyStep(input: seq<int>)
    ensures Execute(New([2, 3, 0, 3, 99]), input) == Ok(Transition(Continued, Computer([2, 3, 0, 6, 99], 4, 0, 2), input))
  {
    assert [2, 3, 0, 3, 99][3 := 6] == [2, 3, 0, 6, 99];
  }

  /** Multiplication: cell 3 becomes 3 * 2. */
  lemma MultiplyProgram(input: seq<int>)
    ensures Run(New([2, 3, 0, 3, 99]), input, 2) == Ok(Stop(None, Computer([2, 3, 0, 6, 99], 5, 0, 99), input))
  {
    MultiplyStep(input);
    RunContinues(New([2, 3, 0, 3, 99]), input, 2);
    HaltStep(Computer([2, 3, 0, 6, 99], 4, 0, 2), input);
  }

  lemma StorePastHaltStep(input: seq<int>)
    ensures Execute(New([2, 4, 4, 5, 99, 0]), input) == Ok(Transition(Continued, Computer([2, 4, 4, 5, 99, 9801], 4, 0, 2), input))
  {
    assert [2, 4, 4, 5, 99, 0][5 := 9801] == [2, 4, 4, 5, 99, 9801];
  }

  /** A result stored in the cell after the halt instruction, which stops the
      run before the end of memory. */
  lemma StorePastHaltProgram(input: seq<int>)
    ensures Run(New([2, 4, 4, 5, 99, 0]), input, 2) == Ok(Stop(None, Computer([2, 4, 4, 5, 99, 9801], 5, 0, 99), input))
  {
    StorePastHaltStep(input);
    RunContinues(New([2, 4, 4, 5, 99, 0]), input, 2);
    HaltStep(Computer([2, 4, 4, 5, 99, 9801], 4, 0, 2), input);
  }

  lemma SelfModifyingFirstStep(input: seq<int>)
    ensures Execute(New([1, 1, 1, 4, 99, 5, 6, 0, 99]), input) == Ok(Transition(Continued, Computer([1, 1, 1, 4, 2, 5, 6, 0, 99], 4, 0, 1), input))
  {
    assert [1, 1, 1, 4, 99, 5, 6, 0, 99][4 := 2] == [1, 1, 1, 4, 2, 5, 6, 0, 99];
  }

  lemma SelfModifyingSecondStep(input: seq<int>)
    ensures Execute(Computer([1, 1, 1, 4, 2, 5, 6, 0, 99], 4, 0, 1), input) == Ok(Transition(Continued, Computer([30, 1, 1, 4, 2, 5, 6, 0, 99], 8, 0, 2), input))
  {
    var c := Computer([1, 1, 1, 4, 2, 5, 6, 0, 99], 5, 0, 2);
    assert LoadInstruction(Computer([1, 1, 1, 4, 2, 5, 6, 0, 99], 4, 0, 1)) == Ok(c);
    assert LoadParam(c) == Ok(Loaded(c.(pos := 6), 5));
    assert LoadParam(c.(pos := 6)) == Ok(Loaded(c.(pos := 7), 6));
    assert [1, 1, 1, 4, 2, 5, 6, 0, 99][0 := 30] == [30, 1, 1, 4, 2, 5, 6, 0, 99];
  }

  /** The first instruction overwrites the halt in cell 4 with a
      multiplication, which then runs before the final halt. */
  lemma SelfModifyingProgram(input: seq<int>)
    ensures Run(New([1, 1, 1, 4, 99, 5, 6, 0, 99]), input, 3) == Ok(Stop(None, Computer([30, 1, 1, 4, 2, 5, 6, 0, 99], 9, 0, 99), input))
  {
    SelfModifyingFirstStep(input);
    RunContinues(New([1, 1, 1, 4, 99, 5, 6, 0, 99]), input, 3);
    SelfModifyingSecondStep(input);
    RunContinues(Computer([1, 1, 1, 4, 2, 5, 6, 0, 99], 4, 0, 1), input, 2);
    HaltStep(Computer([30, 1, 1, 4, 2, 5, 6, 0, 99], 8, 0, 2), input);
  }

  // Day-5 programs: input, output and comparisons.

  lemma EchoStep(x: int)
    ensures Execute(New([3, 0, 4, 0, 99]), [x]) == Ok(Transition(Continued, Computer([x, 0, 4, 0, 99], 2, 0, 3), []))
  {
    var c := Computer([3, 0, 4, 0, 99], 1, 0, 3);
    assert LoadInstruction(New([3, 0, 4, 0, 99])) == Ok(c);
    assert [3, 0, 4, 0, 99][0 := x] == [x, 0, 4, 0, 99];
    assert Save(c, x) == Ok(Computer([x, 0, 4, 0, 99], 2, 0, 3));
    assert [x][1..] == [];
  }

  /** The echo program outputs exactly the value it reads, for every value,
      and leaves the pointer on its halt instruction. */
  lemma EchoProgram(x: int)
    ensures Run(New([3, 0, 4, 0, 99]), [x], 2) == Ok(Stop(Some(x), Computer([x, 0, 4, 0, 99], 4, 0, 4), []))
  {
    EchoStep(x);
    RunContinues(New([3, 0, 4, 0, 99]), [x], 2);
    OutputStep(Computer([x, 0, 4, 0, 99], 2, 0, 3), []);
  }

  lemma PositionalCompareInputStep(op: int, x: int)
    requires op == 7 || op == 8
    ensures Execute(New([3, 9, op, 9, 10, 9, 4, 9, 99, -1, 8]), [x]) == Ok(Transition(Continued, Computer([3, 9, op, 9, 10, 9, 4, 9, 99, x, 8], 2, 0, 3), []))
  {
    assert [3, 9, op, 9, 10, 9, 4, 9, 99, -1, 8][9 := x] == [3, 9, op, 9, 10, 9, 4, 9, 99, x, 8];
    assert [x][1..] == [];
  }

  lemma PositionalCompareStep(op: int, x: int)
    requires op == 7 || op == 8
    ensures var v := Semantics.Combine(op, x, 8);
            Execute(Computer([3, 9, op, 9, 10, 9, 4, 9, 99, x, 8], 2, 0, 3), []) == Ok(Transition(Continued, Computer([3, 9, op, 9, 10, 9, 4, 9, 99, v, 8], 6, 0, op), []))
  {
    var v := Semantics.Combine(op, x, 8);
    var c := Computer([3, 9, op, 9, 10, 9, 4, 9, 99, x, 8], 3, 0, op);
    assert LoadInstruction(Computer([3, 9, op, 9, 10, 9, 4, 9, 99, x, 8], 2, 0, 3)) == Ok(c);
    assert LoadParam(c) == Ok(Loaded(c.(pos := 4), x));
    assert LoadParam(c.(pos := 4)) == Ok(Loaded(c.(pos := 5), 8));
    assert [3, 9, op, 9, 10, 9, 4, 9, 99, x, 8][9 := v] == [3, 9, op, 9, 10, 9, 4, 9, 99, v, 8];
  }

  /** The comparison programs with positional operands: the input is stored
      in cell 9, compared with cell 10 (which holds 8) by opcode `op`, and the
      1 or 0 written back to cell 9 is output. */
  lemma PositionalCompareProgram(op: int, x: int)
    requires op == 7 || op == 8
    ensures Run(New([3, 9, op, 9, 10, 9, 4, 9, 99, -1, 8]), [x], 3).Ok?
    ensures Run(New([3, 9, op, 9, 10, 9, 4, 9, 99, -1, 8]), [x], 3).value.output == Some(Semantics.Combine(op, x, 8))
  {
    var v := Semantics.Combine(op, x, 8);
    PositionalCompareInputStep(op, x);
    RunContinues(New([3, 9, op, 9, 10, 9, 4, 9, 99, -1, 8]), [x], 3);
    PositionalCompareStep(op, x);
    RunContinues(Computer([3, 9, op, 9, 10, 9, 4, 9, 99, x, 8], 2, 0, 3), [], 2);
    OutputStep(Computer([3, 9, op, 9, 10, 9, 4, 9, 99, v, 8], 6, 0, op), []);
  }

  /** [3,9,8,9,10,9,4,9,99,-1,8] outputs 1 exactly when its input is 8. */
  lemma EqualToEightPositional(x: int)
    ensures var r := Run(New([3, 9, 8, 9, 10, 9, 4, 9, 99, -1, 8]), [x], 3);
            r.Ok? && r.value.output == Some(if x == 8 then 1 else 0)
  {
    PositionalCompareProgram(8, x);
  }

  /** [3,9,7,9,10,9,4,9,99,-1,8] outputs 1 exactly when its input is below 8. */
  lemma LessThanEightPositional(x: int)
    ensures var r := Run(New([3, 9, 7, 9, 10, 9, 4, 9, 99, -1, 8]), [x], 3);
            r.Ok? && r.value.output == Some(if x < 8 then 1 else 0)
  {
    PositionalCompareProgram(7, x);
  }

  lemma ImmediateCompareInputStep(op: int, x: int)
    requires op == 7 || op == 8
    ensures Execute(New([3, 3, 1100 + op, -1, 8, 3, 4, 3, 99]), [x]) == Ok(Transition(Continued, Computer([3, 3, 1100 + op, x, 8, 3, 4, 3, 99], 2, 0, 3), []))
  {
    assert [3, 3, 1100 + op, -1, 8, 3, 4, 3, 99][3 := x] == [3, 3, 1100 + op, x, 8, 3, 4, 3, 99];
    assert [x][1..] == [];
  }

  lemma ImmediateCompareStep(op: int, x: int)
    requires op == 7 || op == 8
    ensures var v := Semantics.Combine(op, x, 8);
            Execute(Computer([3, 3, 1100 + op, x, 8, 3, 4, 3, 99], 2, 0, 3), []) == Ok(Transition(Continued, Computer([3, 3, 1100 + op, v, 8, 3, 4, 3, 99], 6, 0, op), []))
  {
    var v := Semantics.Combine(op, x, 8);
    var c := Computer([3, 3, 1100 + op, x, 8, 3, 4, 3, 99], 3, 11, op);
    assert LoadInstruction(Computer([3, 3, 1100 + op, x, 8, 3, 4, 3, 99], 2, 0, 3)) == Ok(c);
    assert LoadParam(c) == Ok(Loaded(c.(pos := 4, modes := 1), x));
    assert LoadParam(c.(pos := 4, modes := 1)) == Ok(Loaded(c.(pos := 5, modes := 0), 8));
    assert [3, 3, 1100 + op, x, 8, 3, 4, 3, 99][3 := v] == [3, 3, 1100 + op, v, 8, 3, 4, 3, 99];
  }

  /** The comparison programs with immediate operands (instruction word
      1100 + op, mode digits 1 and 1): the input is stored in cell 3, the
      operand slot itself, and compared with the literal 8; the result
      overwrites cell 3 and is output. */
  lemma ImmediateCompareProgram(op: int, x: int)
    requires op == 7 || op == 8
    ensures Run(New([3, 3, 1100 + op, -1, 8, 3, 4, 3, 99]), [x], 3).Ok?
    ensures Run(New([3, 3, 1100 + op, -1, 8, 3, 4, 3, 99]), [x], 3).value.output == Some(Semantics.Combine(op, x, 8))
  {
    var v := Semantics.Combine(op, x, 8);
    ImmediateCompareInputStep(op, x);
    RunContinues(New([3, 3, 1100 + op, -1, 8, 3, 4, 3, 99]), [x], 3);
    ImmediateCompareStep(op, x);
    RunContinues(Computer([3, 3, 1100 + op, x, 8, 3, 4, 3, 99], 2, 0, 3), [], 2);
    OutputStep(Computer([3, 3, 1100 + op, v, 8, 3, 4, 3, 99], 6, 0, op), []);
  }

  /** [3,3,1108,-1,8,3,4,3,99] outputs 1 exactly when its input is 8. */
  lemma EqualToEightImmediate(x: int)
    ensures var r := Run(New([3, 3, 1108, -1, 8, 3, 4, 3, 99]), [x], 3);
            r.Ok? && r.value.output == Some(if x == 8 then 1 else 0)
  {
    ImmediateCompareProgram(8, x);
  }

  /** [3,3,1107,-1,8,3,4,3,99] outputs 1 exactly when its input is below 8. */
  lemma LessThanEightImmediate(x: int)
    ensures var r := Run(New([3, 3, 1107, -1, 8, 3, 4, 3, 99]), [x], 3);
            r.Ok? && r.value.output == Some(if x < 8 then 1 else 0)
  {
    ImmediateCompareProgram(7, x);
  }

  // Resuming after an output.

  lemma RerunInputStep(x: int)
    ensures Execute(New([3, 0, 4, 0, 4, 0, 99]), [x]) == Ok(Transition(Continued, Computer([x, 0, 4, 0, 4, 0, 99], 2, 0, 3), []))
  {
    assert [3, 0, 4, 0, 4, 0, 99][0 := x] == [x, 0, 4, 0, 4, 0, 99];
    assert [x][1..] == [];
  }

  /** The rerun test: the first run reads x and outputs it, the second
      resumes after that output and outputs the stored x again without
      reading its input, the third halts, and the fourth finds the machine
      at the end of memory and changes nothing. */
  lemma RerunProgram(x: int)
    ensures Run(New([3, 0, 4, 0, 4, 0, 99]), [x], 20) == Ok(Stop(Some(x), Computer([x, 0, 4, 0, 4, 0, 99], 4, 0, 4), []))
    ensures Run(Computer([x, 0, 4, 0, 4, 0, 99], 4, 0, 4), [x], 20) == Ok(Stop(Some(x), Computer([x, 0, 4, 0, 4, 0, 99], 6, 0, 4), [x]))
    ensures Run(Computer([x, 0, 4, 0, 4, 0, 99], 6, 0, 4), [x], 20) == Ok(Stop(None, Computer([x, 0, 4, 0, 4, 0, 99], 7, 0, 99), [x]))
    ensures Run(Computer([x, 0, 4, 0, 4, 0, 99], 7, 0, 99), [x], 20) == Ok(Stop(None, Computer([x, 0, 4, 0, 4, 0, 99], 7, 0, 99), [x]))
  {
    RerunInputStep(x);
    RunContinues(New([3, 0, 4, 0, 4, 0, 99]), [x], 20);
    OutputStep(Computer([x, 0, 4, 0, 4, 0, 99], 2, 0, 3), []);
    OutputStep(Computer([x, 0, 4, 0, 4, 0, 99], 4, 0, 4), [x]);
    HaltStep(Computer([x, 0, 4, 0, 4, 0, 99], 6, 0, 4), [x]);
  }

  /** A halt instruction does not make the machine idle: only reaching the
      end of memory does. Here the first run halts at cell 0 and returns no
      output, and a second run resumes at cell 1 and outputs cell 0. */
  lemma HaltIsNotSticky()
    ensures Run(New([99, 4, 0]), [], 1) == Ok(Stop(None, Computer([99, 4, 0], 1, 0, 99), []))
    ensures Run(Computer([99, 4, 0], 1, 0, 99), [], 1) == Ok(Stop(Some(99), Computer([99, 4, 0], 3, 0, 4), []))
  {
    HaltStep(New([99, 4, 0]), []);
    OutputStep(Computer([99, 4, 0], 1, 0, 99), []);
  }
}

/** The resumable Intcode interpreter, helper by helper as the computer does
    it: a cursor `pos` that every read advances, a mode register `modes` that
    every parameter read shifts right by one decimal digit, and a run loop that
    suspends after an output and stops at opcode 99 or at the end of memory. */
module Intcode {
  import opened Outcomes
  import Semantics

  /** One machine: its private memory, the instruction pointer, and the two
      scratch registers filled by LoadInstruction. */
  datatype Computer = Computer(program: seq<int>, pos: nat, modes: nat, opcode: nat)

  /** A word read by a helper, together with the machine after the read. */
  datatype Loaded = Loaded(next: Computer, word: int)

  /** The result of one instruction: the event, the machine after it, and the
      input still unread. */
  datatype Transition = Transition(event: Event, next: Computer, input: seq<int>)

  /** Where a call of Run stopped: the output (None when the machine halted or
      ran off memory), the machine to resume later, and the unread input. */
  datatype Stop = Stop(output: Option<int>, computer: Computer, input: seq<int>)

  /** A machine over its own copy of the template, about to execute cell 0. */
  function New(program: seq<int>): (c: Computer)
    ensures c.program == program && c.pos == 0
    ensures Finished(c) <==> program == []
  {
    Computer(program, 0, 0, 0)
  }

  predicate Finished(c: Computer) {
    c.pos >= |c.program|
  }

  /** The word under the cursor; the cursor moves past it. */
  function Load(c: Computer): (r: Result<Loaded>)
    ensures r.Ok? <==> c.pos < |c.program|
    ensures r.Ok? ==> r.value.word == c.program[c.pos] && r.value.next == c.(pos := c.pos + 1)
  {
    if c.pos < |c.program| then Ok(Loaded(c.(pos := c.pos + 1), c.program[c.pos]))
    else Err(AddressOutOfRange(c.pos))
  }

  /** The cell addressed by the word under the cursor; the cursor moves past
      the address. */
  function DerefLoad(c: Computer): (r: Result<Loaded>)
    ensures r.Ok? <==> Semantics.Operand(c.program, c.pos, 0).Ok?
    ensures r.Ok? ==> r.value.word == Semantics.Operand(c.program, c.pos, 0).value
    ensures r.Ok? ==> r.value.next == c.(pos := c.pos + 1)
  {
    var addr :- Load(c);
    if 0 <= addr.word < |c.program| then Ok(Loaded(addr.next, c.program[addr.word]))
    else Err(AddressOutOfRange(addr.word))
  }

  /** The next parameter, read in the mode of the lowest digit of `modes`;
      that digit is then shifted out. */
  function LoadParam(c: Computer): (r: Result<Loaded>)
    ensures c.modes % 10 > 1 ==> r == Err(UnknownMode(c.modes))
    ensures r.Ok? <==> Semantics.Operand(c.program, c.pos, c.modes % 10).Ok?
    ensures r.Ok? ==> r.value.word == Semantics.Operand(c.program, c.pos, c.modes % 10).value
    ensures r.Ok? ==> r.value.next == c.(pos := c.pos + 1, modes := c.modes / 10)
  {
    var data :-
      if c.modes % 10 == 0 then DerefLoad(c)
      else if c.modes % 10 == 1 then Load(c)
      else Err(UnknownMode(c.modes));
    Ok(Loaded(data.next.(modes := c.modes / 10), data.word))
  }

  /** Reads the instruction word under the cursor and splits it into its two
      low decimal digits (the opcode) and the rest (the mode digits). */
  function LoadInstruction(c: Computer): (r: Result<Computer>)
    ensures r.Ok? <==> c.pos < |c.program| && c.program[c.pos] >= 0
    ensures r.Ok? ==> r.value.opcode < 100
    ensures r.Ok? ==> r.value.modes * 100 + r.value.opcode == c.program[c.pos]
    ensures r.Ok? ==> r.value.program == c.program && r.value.pos == c.pos + 1
  {
    var instruction :- Load(c);
    if instruction.word < 0 then Err(NegativeInstruction(instruction.word))
    else Ok(instruction.next.(modes := instruction.word / 100, opcode := instruction.word % 100))
  }

  /** Stores `value` at the address held by the word under the cursor (always
      positional); the cursor moves past the address. */
  function Save(c: Computer, value: int): (r: Result<Computer>)
    ensures r.Ok? <==> Semantics.Destination(c.program, c.pos).Ok?
    ensures r.Ok? ==> r.value == c.(program := c.program[Semantics.Destination(c.program, c.pos).value := value], pos := c.pos + 1)
  {
    var addr :- Load(c);
    if 0 <= addr.word < |c.program| then Ok(addr.next.(program := c.program[addr.word := value]))
    else Err(AddressOutOfRange(addr.word))
  }

  /** The arithmetic of opcodes 1 and 2. */
  datatype Arithmetic = Add | Multiply {
    function Apply(a: int, b: int): int {
      match this
      case Add => a + b
      case Multiply => a * b
    }
  }

  /** The comparisons of opcodes 7 and 8. */
  datatype Comparison = Less | Equal {
    predicate Holds(a: int, b: int) {
      match this
      case Less => a < b
      case Equal => a == b
    }
  }

  /** The jump conditions of opcodes 5 and 6. */
  datatype Condition = NonZero | Zero {
    predicate Holds(x: int) {
      match this
      case NonZero => x != 0
      case Zero => x == 0
    }
  }

  function Skip(c: Computer, n: nat): Computer {
    c.(pos := c.pos + n)
  }

  /** Sets the pointer to the next parameter. A negative target, which the
      computer would cast to a huge unsigned pointer, is a fault here. */
  function Jump(c: Computer): (r: Result<Computer>)
    ensures r.Ok? ==> r.value.program == c.program && r.value.opcode == c.opcode
    ensures r.Ok? <==> Semantics.Operand(c.program, c.pos, c.modes % 10).Ok? && Semantics.Operand(c.program, c.pos, c.modes % 10).value >= 0
    ensures r.Ok? ==> r.value.pos == Semantics.Operand(c.program, c.pos, c.modes % 10).value
  {
    var target :- LoadParam(c);
    if target.word < 0 then Err(AddressOutOfRange(target.word))
    else Ok(target.next.(pos := target.word))
  }

  /** Reads a condition parameter; jumps to the following parameter when
      `cond` holds of it and otherwise steps over that parameter unread. */
  function JumpIf(c: Computer, cond: Condition): (r: Result<Computer>)
    ensures r.Ok? ==> r.value.program == c.program && r.value.opcode == c.opcode
    ensures Semantics.Operand(c.program, c.pos, c.modes % 10).Err? ==> r.Err?
    ensures Semantics.Operand(c.program, c.pos, c.modes % 10).Ok? && !cond.Holds(Semantics.Operand(c.program, c.pos, c.modes % 10).value)
      ==> r.Ok? && r.value.pos == c.pos + 2
    ensures Semantics.Operand(c.program, c.pos, c.modes % 10).Ok? && cond.Holds(Semantics.Operand(c.program, c.pos, c.modes % 10).value)
      ==> var target := Semantics.Operand(c.program, c.pos + 1, c.modes / 10 % 10);
          && (r.Ok? <==> target.Ok? && target.value >= 0)
          && (r.Ok? ==> r.value.pos == target.value)
  {
    var p :- LoadParam(c);
    if cond.Holds(p.word) then Jump(p.next) else Ok(Skip(p.next, 1))
  }

  /** Reads two parameters and stores 1 or 0, as `cond` holds of them or not. */
  function SetIf(c: Computer, cond: Comparison): (r: Result<Computer>)
    ensures r.Ok? ==> |r.value.program| == |c.program| && r.value.pos == c.pos + 3 && r.value.opcode == c.opcode
    ensures var a := Semantics.Operand(c.program, c.pos, c.modes % 10);
            var b := Semantics.Operand(c.program, c.pos + 1, c.modes / 10 % 10);
            var d := Semantics.Destination(c.program, c.pos + 2);
            && (r.Ok? <==> a.Ok? && b.Ok? && d.Ok?)
            && (r.Ok? ==> r.value.program == c.program[d.value := if cond.Holds(a.value, b.value) then 1 else 0])
  {
    var a :- LoadParam(c);
    var b :- LoadParam(a.next);
    Save(b.next, if cond.Holds(a.word, b.word) then 1 else 0)
  }

  /** Reads two parameters and stores `op` of them. */
  function OpBinary(c: Computer, op: Arithmetic): (r: Result<Computer>)
    ensures r.Ok? ==> |r.value.program| == |c.program| && r.value.pos == c.pos + 3 && r.value.opcode == c.opcode
    ensures var a := Semantics.Operand(c.program, c.pos, c.modes % 10);
            var b := Semantics.Operand(c.program, c.pos + 1, c.modes / 10 % 10);
            var d := Semantics.Destination(c.program, c.pos + 2);
            && (r.Ok? <==> a.Ok? && b.Ok? && d.Ok?)
            && (r.Ok? ==> r.value.program == c.program[d.value := op.Apply(a.value, b.value)])
  {
    var a :- LoadParam(c);
    var b :- LoadParam(a.next);
    Save(b.next, op.Apply(a.word, b.word))
  }

  /** The output instruction sits two cells before the pointer of `c`, and
      `v` is the cell its address slot points at. */
  predicate JustEmitted(c: Computer, v: int) {
    && 2 <= c.pos <= |c.program|
    && c.program[c.pos - 2] >= 0
    && c.program[c.pos - 2] % 100 == 4
    && 0 <= c.program[c.pos - 1] < |c.program|
    && v == c.program[c.program[c.pos - 1]]
  }

  /** The cell just before the pointer of `c` is a halt instruction. */
  predicate JustHalted(c: Computer) {
    && 1 <= c.pos <= |c.program|
    && c.program[c.pos - 1] >= 0
    && c.program[c.pos - 1] % 100 == 99
  }

  /** `rest` is what is left of `input` after some values were taken from
      its front. */
  predicate IsSuffix(rest: seq<int>, input: seq<int>) {
    |rest| <= |input| && rest == input[|input| - |rest|..]
  }

  /** What every completed instruction respects: memory keeps its length, at
      most the first input value is taken, and the machine stops only right
      after an output or a halt instruction. */
  predicate StepShape(c: Computer, input: seq<int>, t: Transition) {
    && |t.next.program| == |c.program|
    && (t.input == input || (|input| > 0 && t.input == input[1..]))
    && (t.event.Emitted? ==> JustEmitted(t.next, t.event.output))
    && (t.event.Halted? ==> JustHalted(t.next))
  }

  /** Decodes and executes the instruction under the pointer, dispatching on
      the opcode as the run loop of the computer does. */
  function Execute(c: Computer, input: seq<int>): (r: Result<Transition>)
    ensures r.Ok? ==> StepShape(c, input, r.value)
    ensures r.Ok? && !r.value.event.Continued? ==> r.value.next.program == c.program && r.value.input == input
  {
    var c1 :- LoadInstruction(c);
    match c1.opcode
    case 1 =>
      var c2 :- OpBinary(c1, Add);
      Ok(Transition(Continued, c2, input))
    case 2 =>
      var c2 :- OpBinary(c1, Multiply);
      Ok(Transition(Continued, c2, input))
    case 3 =>
      if |input| == 0 then Err(InputExhausted)
      else
        var c2 :- Save(c1, input[0]);
        Ok(Transition(Continued, c2, input[1..]))
    case 4 =>
      var out :- DerefLoad(c1);
      Ok(Transition(Emitted(out.word), out.next, input))
    case 5 =>
      var c2 :- JumpIf(c1, NonZero);
      Ok(Transition(Continued, c2, input))
    case 6 =>
      var c2 :- JumpIf(c1, Zero);
      Ok(Transition(Continued, c2, input))
    case 7 =>
      var c2 :- SetIf(c1, Less);
      Ok(Transition(Continued, c2, input))
    case 8 =>
      var c2 :- SetIf(c1, Equal);
      Ok(Transition(Continued, c2, input))
    case 99 =>
      Ok(Transition(Halted, c1, input))
    case _ =>
      Err(UnknownOpcode(c1.opcode))
  }

  /** The loop of the run method over an instruction executor `exec`: while
      the machine is not finished, execute one instruction; return on an
      output or a halt. At most `fuel` instructions are executed. */
  function RunLoop(exec: (Computer, seq<int>) -> Result<Transition>, c: Computer, input: seq<int>, fuel: nat): (r: Result<Stop>)
    decreases fuel
    ensures Finished(c) ==> r == Ok(Stop(None, c, input))
  {
    if Finished(c) then Ok(Stop(None, c, input))
    else if fuel == 0 then Err(OutOfFuel)
    else
      var t :- exec(c, input);
      match t.event
      case Emitted(v) => Ok(Stop(Some(v), t.next, t.input))
      case Halted => Ok(Stop(None, t.next, t.input))
      case Continued => RunLoop(exec, t.next, t.input, fuel - 1)
  }

  /** Runs the machine until an output (returned, with the machine left just
      past the output instruction), the halt opcode, or the end of memory. */
  function Run(c: Computer, input: seq<int>, fuel: nat): (r: Result<Stop>)
    ensures Finished(c) ==> r == Ok(Stop(None, c, input))
  {
    RunLoop(Execute, c, input, fuel)
  }
}

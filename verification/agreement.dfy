/** The interpreter's cursor-and-register decoding agrees with the reference
    table, and the per-opcode behaviour of the interpreter follows from that. */
module Agreement {
  import opened Outcomes
  import opened Intcode
  import Semantics

  /** What a transition shows of the machine once the scratch registers are
      forgotten. */
  function EffectOf(t: Transition): Semantics.Effect {
    Semantics.Effect(t.event, t.next.program, t.next.pos, t.input)
  }

  /** Shifting the mode register right once per parameter reads the
      instruction's decimal digits 2 and 3. */
  lemma ModeDigits(word: nat)
    ensures (word / 100) % 10 == Semantics.ModeOf(word, 0)
    ensures (word / 100 / 10) % 10 == Semantics.ModeOf(word, 1)
  {
    assert Semantics.Pow10(2) == 100 && Semantics.Pow10(3) == 1000;
    assert word / 100 / 10 == word / 1000;
  }

  /** The opcode of the instruction under the pointer, when there is one. */
  predicate OpcodeIs(c: Computer, op: nat) {
    c.pos < |c.program| && c.program[c.pos] >= 0 && c.program[c.pos] % 100 == op
  }

  /** Execute and Step agree on `c`: both fail, or both succeed with the same
      effect. */
  predicate Agree(c: Computer, input: seq<int>) {
    && (Execute(c, input).Ok? <==> Semantics.Step(c.program, c.pos, input).Ok?)
    && (Execute(c, input).Ok? ==> EffectOf(Execute(c, input).value) == Semantics.Step(c.program, c.pos, input).value)
  }

  /** After LoadInstruction, the mode register holds the mode digits of the
      instruction word in the order the parameters are read. */
  lemma ModeRegister(c: Computer)
    requires c.pos < |c.program| && c.program[c.pos] >= 0
    ensures LoadInstruction(c).value.modes % 10 == Semantics.ModeOf(c.program[c.pos], 0)
    ensures (LoadInstruction(c).value.modes / 10) % 10 == Semantics.ModeOf(c.program[c.pos], 1)
  {
    ModeDigits(c.program[c.pos]);
  }

  /** Opcodes 1, 2, 7 and 8 agree: both read two parameters, in the modes
      of digits 2 and 3, and store their combination. */
  lemma AgreeThreeOperand(c: Computer, input: seq<int>, op: nat)
    requires op == 1 || op == 2 || op == 7 || op == 8
    requires OpcodeIs(c, op)
    ensures Agree(c, input)
  {
    ModeRegister(c);
    var c1 := LoadInstruction(c).value;
    assert c1.opcode == op;
    var a := Semantics.Param(c.program, c.pos, c.program[c.pos], 0);
    var b := Semantics.Param(c.program, c.pos, c.program[c.pos], 1);
    var la := LoadParam(c1);
    assert la.Ok? <==> a.Ok?;
    if la.Ok? {
      var lb := LoadParam(la.value.next);
      assert lb.Ok? <==> b.Ok?;
    }
  }

  /** Opcodes 5 and 6 agree: both test the first parameter and read the
      second only when they jump. */
  lemma AgreeJump(c: Computer, input: seq<int>, op: nat)
    requires op == 5 || op == 6
    requires OpcodeIs(c, op)
    ensures Agree(c, input)
  {
    ModeRegister(c);
    var c1 := LoadInstruction(c).value;
    assert c1.opcode == op;
  }

  /** Executing one instruction through the helpers succeeds exactly when the
      reference table gives an effect, and then has that effect. */
  lemma ExecuteMatchesStep(c: Computer, input: seq<int>)
    ensures Execute(c, input).Ok? <==> Semantics.Step(c.program, c.pos, input).Ok?
    ensures Execute(c, input).Ok? ==> EffectOf(Execute(c, input).value) == Semantics.Step(c.program, c.pos, input).value
  {
    if c.pos < |c.program| && c.program[c.pos] >= 0 {
      var op := c.program[c.pos] % 100;
      if op == 1 || op == 2 || op == 7 || op == 8 {
        AgreeThreeOperand(c, input, op);
      } else if op == 5 || op == 6 {
        AgreeJump(c, input, op);
      }
    }
  }

  /** Opcodes 1, 2, 7 and 8: parameters a then b, each in its own mode, and
      the result stored at the address in the third slot; the pointer moves
      four cells and no other cell changes. */
  lemma ThreeOperandInstruction(c: Computer, input: seq<int>, op: nat)
    requires op == 1 || op == 2 || op == 7 || op == 8
    requires OpcodeIs(c, op)
    ensures var a := Semantics.Param(c.program, c.pos, c.program[c.pos], 0);
            var b := Semantics.Param(c.program, c.pos, c.program[c.pos], 1);
            var d := Semantics.Destination(c.program, c.pos + 3);
            && (Execute(c, input).Ok? <==> a.Ok? && b.Ok? && d.Ok?)
            && (Execute(c, input).Ok? ==>
                  var t := Execute(c, input).value;
                  && t.event == Continued
                  && t.next.program == c.program[d.value := Semantics.Combine(op, a.value, b.value)]
                  && t.next.pos == c.pos + 4
                  && t.input == input)
  {
    ExecuteMatchesStep(c, input);
  }

  /** Opcode 1 adds, 2 multiplies, 7 stores whether a < b and 8 whether
      a == b, as 1 or 0. */
  lemma CombineValues(a: int, b: int)
    ensures Semantics.Combine(1, a, b) == a + b
    ensures Semantics.Combine(2, a, b) == a * b
    ensures Semantics.Combine(7, a, b) == 1 <==> a < b
    ensures Semantics.Combine(8, a, b) == 1 <==> a == b
    ensures Semantics.Combine(7, a, b) in {0, 1} && Semantics.Combine(8, a, b) in {0, 1}
  {
  }

  /** Opcodes 5 and 6: when the condition holds of the first parameter
      (non-zero for 5, zero for 6) the pointer becomes the second parameter,
      otherwise it moves three cells; memory never changes. */
  lemma JumpInstruction(c: Computer, input: seq<int>, op: nat)
    requires op == 5 || op == 6
    requires OpcodeIs(c, op)
    ensures var cond := Semantics.Param(c.program, c.pos, c.program[c.pos], 0);
            var target := Semantics.Param(c.program, c.pos, c.program[c.pos], 1);
            && (cond.Err? ==> Execute(c, input).Err?)
            && (cond.Ok? && (cond.value != 0) != (op == 5) ==>
                  Execute(c, input).Ok? && Execute(c, input).value.next.pos == c.pos + 3)
            && (cond.Ok? && (cond.value != 0) == (op == 5) ==>
                  (Execute(c, input).Ok? <==> target.Ok? && target.value >= 0)
                  && (Execute(c, input).Ok? ==> Execute(c, input).value.next.pos == target.value))
            && (Execute(c, input).Ok? ==>
                  var t := Execute(c, input).value;
                  t.event == Continued && t.next.program == c.program && t.input == input)
  {
    ExecuteMatchesStep(c, input);
  }

  /** Opcode 3 takes exactly one input value and stores it at the address in
      the next slot; with no input left it fails with InputExhausted. */
  lemma InputInstruction(c: Computer, input: seq<int>)
    requires OpcodeIs(c, 3)
    ensures input == [] ==> Execute(c, input) == Err(InputExhausted)
    ensures input != [] ==>
      var d := Semantics.Destination(c.program, c.pos + 1);
      && (Execute(c, input).Ok? <==> d.Ok?)
      && (Execute(c, input).Ok? ==>
            var t := Execute(c, input).value;
            && t.event == Continued
            && t.next.program == c.program[d.value := input[0]]
            && t.next.pos == c.pos + 2
            && t.input == input[1..])
  {
    ExecuteMatchesStep(c, input);
  }

  /** Opcode 4 emits the cell addressed by the next slot, whatever its mode
      digit, and leaves the pointer just past itself and memory unchanged. */
  lemma OutputInstruction(c: Computer, input: seq<int>)
    requires OpcodeIs(c, 4)
    ensures Execute(c, input).Ok? <==> c.pos + 1 < |c.program| && 0 <= c.program[c.pos + 1] < |c.program|
    ensures Execute(c, input).Ok? ==>
      var t := Execute(c, input).value;
      && t.event == Emitted(c.program[c.program[c.pos + 1]])
      && t.next.program == c.program
      && t.next.pos == c.pos + 2
      && t.input == input
  {
    ExecuteMatchesStep(c, input);
  }

  /** Opcode 99 stops with the pointer one past it; nothing else changes. */
  lemma HaltInstruction(c: Computer, input: seq<int>)
    requires OpcodeIs(c, 99)
    ensures Execute(c, input).Ok?
    ensures EffectOf(Execute(c, input).value) == Semantics.Effect(Halted, c.program, c.pos + 1, input)
  {
    ExecuteMatchesStep(c, input);
  }

  /** Any other opcode, and any negative instruction word, is a fault. */
  lemma UnknownInstruction(c: Computer, input: seq<int>)
    requires c.pos < |c.program|
    requires c.program[c.pos] < 0 || c.program[c.pos] % 100 !in {1, 2, 3, 4, 5, 6, 7, 8, 99}
    ensures Execute(c, input).Err?
    ensures c.program[c.pos] >= 0 ==> Execute(c, input) == Err(UnknownOpcode(c.program[c.pos] % 100))
  {
    ExecuteMatchesStep(c, input);
  }
}

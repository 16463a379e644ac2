/** Reference semantics of one Intcode instruction, written as a table over
    absolute offsets: parameter k of the instruction at `pos` sits in slot
    pos + 1 + k, and its addressing mode is decimal digit k + 2 of the
    instruction word. The interpreter in module Intcode threads a cursor and a
    shrinking mode register instead; module Agreement proves the two agree. */
module Semantics {
  import opened Outcomes

  function Pow10(k: nat): (p: nat)
    ensures p >= 1
  {
    if k == 0 then 1 else 10 * Pow10(k - 1)
  }

  /** Decimal digit i (0 is the units digit) of n. */
  function Digit(n: nat, i: nat): (d: nat)
    ensures d < 10
  {
    (n / Pow10(i)) % 10
  }

  /** Addressing mode of parameter k of the instruction word `instr`. */
  function ModeOf(instr: nat, k: nat): nat {
    Digit(instr, k + 2)
  }

  /** The cell at `addr`, or the fault of indexing outside memory. */
  function Fetch(mem: seq<int>, addr: int): (r: Result<int>)
    ensures r.Ok? <==> 0 <= addr < |mem|
    ensures r.Ok? ==> r.value == mem[addr]
  {
    if 0 <= addr < |mem| then Ok(mem[addr]) else Err(AddressOutOfRange(addr))
  }

  /** The value of a parameter slot read in `mode`: 0 reads through the
      address stored in the slot, 1 is the slot's own value, anything else
      is an unknown mode. */
  function Operand(mem: seq<int>, slot: int, mode: nat): Result<int> {
    if mode == 0 then
      var addr :- Fetch(mem, slot);
      Fetch(mem, addr)
    else if mode == 1 then
      Fetch(mem, slot)
    else
      Err(UnknownMode(mode))
  }

  /** Parameter k of the instruction `instr` stored at `pos`. */
  function Param(mem: seq<int>, pos: nat, instr: nat, k: nat): Result<int> {
    Operand(mem, pos + 1 + k, ModeOf(instr, k))
  }

  /** A store target: the slot holds an address that must lie in memory. It
      is always positional, whatever its mode digit says. */
  function Destination(mem: seq<int>, slot: int): (r: Result<nat>)
    ensures r.Ok? ==> r.value < |mem|
  {
    var addr :- Fetch(mem, slot);
    if 0 <= addr < |mem| then Ok(addr) else Err(AddressOutOfRange(addr))
  }

  /** The value written by the three-operand opcodes 1, 2, 7 and 8. */
  function Combine(opcode: nat, a: int, b: int): int {
    if opcode == 1 then a + b
    else if opcode == 2 then a * b
    else if opcode == 7 then (if a < b then 1 else 0)
    else (if a == b then 1 else 0)
  }

  /** The machine after one instruction: what happened, the new memory, the
      new pointer, and the input still unread. */
  datatype Effect = Effect(event: Event, program: seq<int>, pos: nat, input: seq<int>)

  /** One instruction at `pos`, by the opcode table. */
  function Step(mem: seq<int>, pos: nat, input: seq<int>): (r: Result<Effect>)
    ensures r.Ok? ==> |r.value.program| == |mem|
    ensures r.Ok? && !r.value.event.Continued? ==> r.value.program == mem
  {
    var word :- Fetch(mem, pos);
    if word < 0 then Err(NegativeInstruction(word))
    else
      var op := word % 100;
      if op == 1 || op == 2 || op == 7 || op == 8 then
        var a :- Param(mem, pos, word, 0);
        var b :- Param(mem, pos, word, 1);
        var d :- Destination(mem, pos + 3);
        Ok(Effect(Continued, mem[d := Combine(op, a, b)], pos + 4, input))
      else if op == 3 then
        if |input| == 0 then Err(InputExhausted)
        else
          var d :- Destination(mem, pos + 1);
          Ok(Effect(Continued, mem[d := input[0]], pos + 2, input[1..]))
      else if op == 4 then
        var v :- Operand(mem, pos + 1, 0);
        Ok(Effect(Emitted(v), mem, pos + 2, input))
      else if op == 5 || op == 6 then
        var cond :- Param(mem, pos, word, 0);
        if (cond != 0) == (op == 5) then
          var target :- Param(mem, pos, word, 1);
          if target < 0 then Err(AddressOutOfRange(target))
          else Ok(Effect(Continued, mem, target, input))
        else
          Ok(Effect(Continued, mem, pos + 3, input))
      else if op == 99 then
        Ok(Effect(Halted, mem, pos + 1, input))
      else
        Err(UnknownOpcode(op))
  }
}

/** Shared vocabulary of the model: the fatal conditions of the interpreter as
    values, a failure-compatible Result, Option, and what one instruction does
    to the run loop. */
module Outcomes {

  /** Every way an evaluation can abort. The first five are the interpreter's
      panics, NoOutput is the single-pass pipeline unwrapping a missing output,
      and OutOfFuel marks a bounded run that did not reach an answer. */
  datatype Fault =
    | UnknownOpcode(opcode: nat)
    | UnknownMode(modes: nat)
    | InputExhausted
    | AddressOutOfRange(address: int)
    | NegativeInstruction(instruction: int)
    | NoOutput
    | OutOfFuel

  /** Success carries a value, failure carries the fault that aborted it. */
  datatype Result<+T> = Ok(value: T) | Err(fault: Fault) {

    predicate IsFailure() {
      Err?
    }

    function PropagateFailure<U>(): Result<U>
      requires Err?
    {
      Err(fault)
    }

    function Extract(): T
      requires Ok?
    {
      value
    }
  }

  datatype Option<+T> = None | Some(value: T)

  /** What executing one instruction means for the run loop: keep going,
      suspend with an output value, or stop at the halt opcode. */
  datatype Event = Continued | Emitted(output: int) | Halted

  /** The seed of the maximum search: the smallest 64-bit signed integer. */
  const I64_MIN: int := -0x8000_0000_0000_0000
}

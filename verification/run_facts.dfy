/** Facts about whole calls of Run: the fuel bound never changes an answer it
    allows, and a run stops only where the computer's run method returns. */
module RunFacts {
  import opened Outcomes
  import opened Intcode

  /** An executor all of whose completed instructions have the shape of an
      Intcode instruction. */
  ghost predicate WellBehaved(exec: (Computer, seq<int>) -> Result<Transition>) {
    forall c, input :: exec(c, input).Ok? ==> StepShape(c, input, exec(c, input).value)
  }

  /** The interpreter's executor is well behaved. */
  lemma ExecuteWellBehaved()
    ensures WellBehaved(Execute)
  {
    forall c, input | Execute(c, input).Ok?
      ensures StepShape(c, input, Execute(c, input).value)
    {
    }
  }

  /** Extra fuel never changes an answer the loop reached. */
  lemma {:induction false} RunLoopFuelMonotone(exec: (Computer, seq<int>) -> Result<Transition>, c: Computer, input: seq<int>, fuel: nat, more: nat)
    requires fuel <= more
    requires RunLoop(exec, c, input, fuel) != Err(OutOfFuel)
    ensures RunLoop(exec, c, input, more) == RunLoop(exec, c, input, fuel)
    decreases fuel
  {
    if !Finished(c) && fuel > 0 {
      var t := exec(c, input);
      if t.Ok? && t.value.event.Continued? {
        RunLoopFuelMonotone(exec, t.value.next, t.value.input, fuel - 1, more - 1);
      }
    }
  }

  /** A run that reached an answer within `fuel` steps reaches the same
      answer with any larger budget. */
  lemma RunFuelMonotone(c: Computer, input: seq<int>, fuel: nat, more: nat)
    requires fuel <= more
    requires Run(c, input, fuel) != Err(OutOfFuel)
    ensures Run(c, input, more) == Run(c, input, fuel)
  {
    RunLoopFuelMonotone(Execute, c, input, fuel, more);
  }

  /** Where the loop over a well-behaved executor stops. */
  lemma {:induction false} RunLoopStops(exec: (Computer, seq<int>) -> Result<Transition>, c: Computer, input: seq<int>, fuel: nat)
    requires WellBehaved(exec)
    requires RunLoop(exec, c, input, fuel).Ok?
    ensures var s := RunLoop(exec, c, input, fuel).value;
            && |s.computer.program| == |c.program|
            && IsSuffix(s.input, input)
            && (s.output.Some? ==> JustEmitted(s.computer, s.output.value))
            && (s.output.None? ==> Finished(s.computer) || JustHalted(s.computer))
    decreases fuel
  {
    if !Finished(c) {
      var t := exec(c, input).value;
      assert StepShape(c, input, t);
      if t.event.Continued? {
        RunLoopStops(exec, t.next, t.input, fuel - 1);
        var rest := RunLoop(exec, c, input, fuel).value.input;
        assert rest == t.input[|t.input| - |rest|..];
        assert rest == input[|input| - |rest|..];
      }
    }
  }

  /** Where a run stops: memory has kept its length and only input from the
      front has been consumed; an output comes from the output instruction
      just before the pointer, so a later run resumes right after it; no
      output means the machine reached the end of memory or has just
      executed a halt instruction. */
  lemma RunStopsAtOutputOrHalt(c: Computer, input: seq<int>, fuel: nat)
    requires Run(c, input, fuel).Ok?
    ensures var s := Run(c, input, fuel).value;
            && |s.computer.program| == |c.program|
            && IsSuffix(s.input, input)
            && (s.output.Some? ==> JustEmitted(s.computer, s.output.value))
            && (s.output.None? ==> Finished(s.computer) || JustHalted(s.computer))
  {
    ExecuteWellBehaved();
    RunLoopStops(Execute, c, input, fuel);
  }

  /** One instruction that neither outputs nor halts hands the rest of the
      run to the machine it leaves. */
  lemma RunContinues(c: Computer, input: seq<int>, fuel: nat)
    requires !Finished(c) && fuel > 0
    requires Execute(c, input).Ok? && Execute(c, input).value.event.Continued?
    ensures Run(c, input, fuel) == Run(Execute(c, input).value.next, Execute(c, input).value.input, fuel - 1)
  {
  }
}

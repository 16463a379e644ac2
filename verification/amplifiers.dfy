/** The two amplifier pipelines and the searches over phase orderings that
    answer the puzzle's two parts. */
module Amplifiers {
  import opened Outcomes
  import opened Intcode
  import opened Search
  import RunFacts

  // Part 1: a single pass through fresh amplifiers.

  /** One amplifier of the single-pass pipeline: a fresh machine over the
      program, fed its phase and then the incoming signal, must output the
      next signal. A run that stops without output is the fault the unwrap
      raises. */
  function Stage(program: seq<int>, phase: int, sig: int, fuel: nat): (r: Result<int>)
    ensures r.Ok? <==> Run(New(program), [phase, sig], fuel).Ok? && Run(New(program), [phase, sig], fuel).value.output.Some?
    ensures r.Ok? ==> r == Ok(Run(New(program), [phase, sig], fuel).value.output.value)
  {
    var s :- Run(New(program), [phase, sig], fuel);
    match s.output
    case None => Err(NoOutput)
    case Some(out) => Ok(out)
  }

  /** Folds the signal through one fresh amplifier per phase, in order. */
  function Amplify(program: seq<int>, phases: seq<int>, sig: int, fuel: nat): (r: Result<int>)
    decreases |phases|
  {
    if phases == [] then Ok(sig)
    else
      var out :- Stage(program, phases[0], sig, fuel);
      Amplify(program, phases[1..], out, fuel)
  }

  /** `sigs` are the signals between the amplifiers: sigs[k] enters
      amplifier k, which outputs sigs[k + 1]. */
  ghost predicate IsChain(program: seq<int>, phases: seq<int>, sigs: seq<int>, fuel: nat) {
    && |sigs| == |phases| + 1
    && forall k :: 0 <= k < |phases| ==> Stage(program, phases[k], sigs[k], fuel) == Ok(sigs[k + 1])
  }

  /** A chain of signals is what the fold computes. */
  lemma {:induction false} ChainGivesAmplify(program: seq<int>, phases: seq<int>, sigs: seq<int>, fuel: nat)
    requires IsChain(program, phases, sigs, fuel)
    ensures Amplify(program, phases, sigs[0], fuel) == Ok(sigs[|phases|])
    decreases |phases|
  {
    if phases != [] {
      assert Stage(program, phases[0], sigs[0], fuel) == Ok(sigs[1]);
      var rest := sigs[1..];
      forall k | 0 <= k < |phases[1..]|
        ensures Stage(program, phases[1..][k], rest[k], fuel) == Ok(rest[k + 1])
      {
        assert Stage(program, phases[k + 1], sigs[k + 1], fuel) == Ok(sigs[k + 2]);
      }
      ChainGivesAmplify(program, phases[1..], rest, fuel);
    }
  }

  /** A successful fold passes its signal along a chain. */
  lemma {:induction false} AmplifyGivesChain(program: seq<int>, phases: seq<int>, sig: int, fuel: nat) returns (sigs: seq<int>)
    requires Amplify(program, phases, sig, fuel).Ok?
    ensures IsChain(program, phases, sigs, fuel)
    ensures sigs[0] == sig && sigs[|phases|] == Amplify(program, phases, sig, fuel).value
    decreases |phases|
  {
    if phases == [] {
      sigs := [sig];
    } else {
      var out := Stage(program, phases[0], sig, fuel).value;
      var rest := AmplifyGivesChain(program, phases[1..], out, fuel);
      sigs := [sig] + rest;
      forall k | 0 <= k < |phases|
        ensures Stage(program, phases[k], sigs[k], fuel) == Ok(sigs[k + 1])
      {
        if k > 0 {
          assert phases[k] == phases[1..][k - 1];
        }
      }
    }
  }

  /** The single-pass pipeline ends with `v` exactly when a chain of
      signals from `sig` through fresh amplifiers ends with `v`. */
  lemma AmplifyFollowsChain(program: seq<int>, phases: seq<int>, sig: int, fuel: nat, v: int)
    ensures Amplify(program, phases, sig, fuel) == Ok(v) <==>
            exists sigs :: IsChain(program, phases, sigs, fuel) && sigs[0] == sig && sigs[|phases|] == v
  {
    if Amplify(program, phases, sig, fuel) == Ok(v) {
      var sigs := AmplifyGivesChain(program, phases, sig, fuel);
    }
    if exists sigs :: IsChain(program, phases, sigs, fuel) && sigs[0] == sig && sigs[|phases|] == v {
      var sigs :| IsChain(program, phases, sigs, fuel) && sigs[0] == sig && sigs[|phases|] == v;
      ChainGivesAmplify(program, phases, sigs, fuel);
    }
  }

  /** Part 1: the largest final signal over every ordering of the phases. */
  method P1Solve(program: seq<int>, phases: seq<int>, init: int, fuel: nat) returns (r: Result<int>)
    ensures phases == [] ==> r == Ok(init)
    ensures r.Ok? ==> forall t :: IsPermutation(t, phases) ==> Amplify(program, t, init, fuel).Ok? && Amplify(program, t, init, fuel).value <= r.value
    ensures r.Ok? && phases != [] ==> I64_MIN <= r.value
    ensures r.Ok? ==> r.value == I64_MIN || exists t :: IsPermutation(t, phases) && Amplify(program, t, init, fuel) == r
    ensures r.Err? ==> exists t :: IsPermutation(t, phases) && Amplify(program, t, init, fuel) == r
  {
    var f := t => Amplify(program, t, init, fuel);
    var restored;
    r, restored := PermutationsMax(phases, 0, f);
    PermutationsFromStart(f, phases, r);
  }

  /** An amplifier that did not run out of fuel gives the same answer with
      any larger budget. */
  lemma StageFuelMonotone(program: seq<int>, phase: int, sig: int, fuel: nat, more: nat)
    requires fuel <= more
    requires Stage(program, phase, sig, fuel) != Err(OutOfFuel)
    ensures Stage(program, phase, sig, more) == Stage(program, phase, sig, fuel)
  {
    RunFacts.RunFuelMonotone(New(program), [phase, sig], fuel, more);
  }

  /** A pipeline answer reached within `fuel` instructions per amplifier is
      the answer for any larger budget, so it is the answer of unbounded
      runs. */
  lemma {:induction false} AmplifyFuelMonotone(program: seq<int>, phases: seq<int>, sig: int, fuel: nat, more: nat)
    requires fuel <= more
    requires Amplify(program, phases, sig, fuel) != Err(OutOfFuel)
    ensures Amplify(program, phases, sig, more) == Amplify(program, phases, sig, fuel)
    decreases |phases|
  {
    if phases != [] {
      StageFuelMonotone(program, phases[0], sig, fuel, more);
      var out := Stage(program, phases[0], sig, fuel);
      if out.Ok? {
        AmplifyFuelMonotone(program, phases[1..], out.value, fuel, more);
      }
    }
  }

  /** A part-1 answer (bounding every permutation's pipeline, and reached by
      one of them unless it is the seed) stays the answer, with the same
      pipeline results, under any larger budget. */
  lemma P1AnswerFuelMonotone(program: seq<int>, phases: seq<int>, init: int, fuel: nat, more: nat, v: int)
    requires fuel <= more
    requires forall t :: IsPermutation(t, phases) ==> Amplify(program, t, init, fuel).Ok? && Amplify(program, t, init, fuel).value <= v
    requires v == I64_MIN || exists t :: IsPermutation(t, phases) && Amplify(program, t, init, fuel) == Ok(v)
    ensures forall t :: IsPermutation(t, phases) ==> Amplify(program, t, init, more) == Amplify(program, t, init, fuel)
    ensures forall t :: IsPermutation(t, phases) ==> Amplify(program, t, init, more).Ok? && Amplify(program, t, init, more).value <= v
    ensures v == I64_MIN || exists t :: IsPermutation(t, phases) && Amplify(program, t, init, more) == Ok(v)
  {
    forall t | IsPermutation(t, phases)
      ensures Amplify(program, t, init, more) == Amplify(program, t, init, fuel)
    {
      AmplifyFuelMonotone(program, t, init, fuel, more);
    }
  }

  /** The search from position 0 ranges over the permutations. */
  lemma PermutationsFromStart(f: seq<int> -> Result<int>, phases: seq<int>, r: Result<int>)
    ensures r.Ok? ==> (Bounded(f, phases, 0, r.value) <==> forall t :: IsPermutation(t, phases) ==> f(t).Ok? && f(t).value <= r.value)
    ensures Attained(f, phases, 0, r) <==> exists t :: IsPermutation(t, phases) && f(t) == r
  {
    forall t
      ensures IsArrangement(t, phases, 0) <==> IsPermutation(t, phases)
    {
      ArrangementFromStart(t, phases);
    }
  }

  // Part 2: a feedback loop over five amplifiers that keep their state.

  /** The number of amplifiers in the feedback loop. */
  const AMPS: nat := 5

  /** Five independent machines, each over its own copy of the program. */
  function Fresh(program: seq<int>): (amps: seq<Computer>)
    ensures |amps| == AMPS
    ensures forall m :: 0 <= m < AMPS ==> amps[m] == New(program)
  {
    seq(AMPS, _ => New(program))
  }

  /** The input of visit k: the next phase while the phase list lasts, then
      the current signal. The phase list is advanced on every visit. */
  function VisitInputs(phases: seq<int>, k: nat, sig: int): (r: seq<int>)
    ensures |r| == 1 || |r| == 2
    ensures r[|r| - 1] == sig
    ensures |r| == 2 <==> k < |phases|
    ensures |r| == 2 ==> r[0] == phases[k]
  {
    if k < |phases| then [phases[k], sig] else [sig]
  }

  /** With one phase per amplifier, each amplifier gets its phase on its
      first visit only, and the visits go round the amplifiers in order. */
  lemma PhaseOnFirstVisitOnly(phases: seq<int>, k: nat, sig: int)
    requires |phases| == AMPS
    ensures k < AMPS ==> VisitInputs(phases, k, sig) == [phases[k % AMPS], sig]
    ensures k >= AMPS ==> VisitInputs(phases, k, sig) == [sig]
  {
  }

  /** How one amplifier runs on its inputs: a call of Run with a fixed
      instruction budget. The loop below is stated over any such runner. */
  type Runner = (Computer, seq<int>) -> Result<Stop>

  /** The runner of the computer: Run with `fuel` instructions per call. */
  function Budget(fuel: nat): Runner {
    (c, input) => Run(c, input, fuel)
  }

  /** Visit k of the feedback loop and every visit after it: amplifier
      k % AMPS runs on its own machine; an output becomes the signal for the
      next visit, a stop without output ends the loop with the signal held.
      At most `rounds` visits are made. */
  function Feedback(run: Runner, amps: seq<Computer>, phases: seq<int>, k: nat, sig: int, rounds: nat): (r: Result<int>)
    requires |amps| == AMPS
    decreases rounds
  {
    if rounds == 0 then Err(OutOfFuel)
    else
      var s :- run(amps[k % AMPS], VisitInputs(phases, k, sig));
      match s.output
      case None => Ok(sig)
      case Some(out) => Feedback(run, amps[k % AMPS := s.computer], phases, k + 1, out, rounds - 1)
  }

  /** The visit made at step j of a trace that starts at visit k0. */
  ghost function VisitRun(run: Runner, phases: seq<int>, k0: nat, states: seq<seq<Computer>>, sigs: seq<int>, j: nat): Result<Stop>
    requires j < |states| && j < |sigs| && |states[j]| == AMPS
  {
    run(states[j][(k0 + j) % AMPS], VisitInputs(phases, k0 + j, sigs[j]))
  }

  /** `states` and `sigs` record the amplifiers and the signal before each
      of a run of visits starting at visit k0: each visit outputs the next
      signal and changes only the amplifier it ran. */
  ghost predicate Produces(run: Runner, phases: seq<int>, k0: nat, states: seq<seq<Computer>>, sigs: seq<int>) {
    && |states| == |sigs| >= 1
    && (forall j :: 0 <= j < |states| ==> |states[j]| == AMPS)
    && forall j :: 0 <= j < |sigs| - 1 ==>
         && VisitRun(run, phases, k0, states, sigs, j).Ok?
         && VisitRun(run, phases, k0, states, sigs, j).value.output == Some(sigs[j + 1])
         && states[j + 1] == states[j][(k0 + j) % AMPS := VisitRun(run, phases, k0, states, sigs, j).value.computer]
  }

  /** The visit after the last recorded one stops without output. */
  ghost predicate StopsAfter(run: Runner, phases: seq<int>, k0: nat, states: seq<seq<Computer>>, sigs: seq<int>)
    requires Produces(run, phases, k0, states, sigs)
  {
    && VisitRun(run, phases, k0, states, sigs, |sigs| - 1).Ok?
    && VisitRun(run, phases, k0, states, sigs, |sigs| - 1).value.output.None?
  }

  /** Dropping the first visit of a trace leaves a trace from the next
      visit, stopping where the whole trace stops. */
  lemma ProducesTail(run: Runner, phases: seq<int>, k0: nat, states: seq<seq<Computer>>, sigs: seq<int>)
    requires Produces(run, phases, k0, states, sigs) && |sigs| >= 2
    ensures Produces(run, phases, k0 + 1, states[1..], sigs[1..])
    ensures StopsAfter(run, phases, k0, states, sigs) ==> StopsAfter(run, phases, k0 + 1, states[1..], sigs[1..])
  {
    var k1, tailStates, tailSigs := k0 + 1, states[1..], sigs[1..];
    forall j | 0 <= j < |tailSigs|
      ensures VisitRun(run, phases, k1, tailStates, tailSigs, j) == VisitRun(run, phases, k0, states, sigs, j + 1)
    {
      assert k1 + j == k0 + (j + 1);
    }
  }

  /** A visit that outputs the first signal of a trace from the next visit,
      leaving the amplifiers that trace starts from, extends it. */
  lemma ProducesCons(run: Runner, phases: seq<int>, k0: nat, amps: seq<Computer>, sig: int, states: seq<seq<Computer>>, sigs: seq<int>)
    requires |amps| == AMPS && Produces(run, phases, k0 + 1, states, sigs)
    requires run(amps[k0 % AMPS], VisitInputs(phases, k0, sig)).Ok?
    requires run(amps[k0 % AMPS], VisitInputs(phases, k0, sig)).value.output == Some(sigs[0])
    requires states[0] == amps[k0 % AMPS := run(amps[k0 % AMPS], VisitInputs(phases, k0, sig)).value.computer]
    ensures Produces(run, phases, k0, [amps] + states, [sig] + sigs)
    ensures StopsAfter(run, phases, k0 + 1, states, sigs) ==> StopsAfter(run, phases, k0, [amps] + states, [sig] + sigs)
  {
    var k1, allStates, allSigs := k0 + 1, [amps] + states, [sig] + sigs;
    forall j | 0 < j < |allSigs|
      ensures VisitRun(run, phases, k0, allStates, allSigs, j) == VisitRun(run, phases, k1, states, sigs, j - 1)
    {
      assert k0 + j == k1 + (j - 1);
    }
  }

  /** A trace that ends in a stop is what the feedback loop computes, given
      enough visits. */
  lemma {:induction false} TraceGivesFeedback(run: Runner, phases: seq<int>, k0: nat, states: seq<seq<Computer>>, sigs: seq<int>, rounds: nat)
    requires Produces(run, phases, k0, states, sigs) && StopsAfter(run, phases, k0, states, sigs)
    requires |sigs| <= rounds
    ensures Feedback(run, states[0], phases, k0, sigs[0], rounds) == Ok(sigs[|sigs| - 1])
    decreases |sigs|
  {
    var s := VisitRun(run, phases, k0, states, sigs, 0);
    if |sigs| > 1 {
      ProducesTail(run, phases, k0, states, sigs);
      TraceGivesFeedback(run, phases, k0 + 1, states[1..], sigs[1..], rounds - 1);
    }
  }

  /** A feedback loop that ends with a signal followed a trace that ends in
      a stop, within the visits allowed. */
  lemma {:induction false} FeedbackGivesTrace(run: Runner, amps: seq<Computer>, phases: seq<int>, k0: nat, sig: int, rounds: nat) returns (states: seq<seq<Computer>>, sigs: seq<int>)
    requires |amps| == AMPS
    requires Feedback(run, amps, phases, k0, sig, rounds).Ok?
    ensures Produces(run, phases, k0, states, sigs) && StopsAfter(run, phases, k0, states, sigs)
    ensures states[0] == amps && sigs[0] == sig && |sigs| <= rounds
    ensures sigs[|sigs| - 1] == Feedback(run, amps, phases, k0, sig, rounds).value
    decreases rounds
  {
    var s := run(amps[k0 % AMPS], VisitInputs(phases, k0, sig)).value;
    if s.output.None? {
      states, sigs := [amps], [sig];
    } else {
      var next := amps[k0 % AMPS := s.computer];
      var restStates, restSigs := FeedbackGivesTrace(run, next, phases, k0 + 1, s.output.value, rounds - 1);
      ProducesCons(run, phases, k0, amps, sig, restStates, restSigs);
      states, sigs := [amps] + restStates, [sig] + restSigs;
    }
  }

  /** The feedback loop ends with `v` exactly when a trace of visits from
      `sig` ends in a stop while holding `v`, within the visits allowed: the
      result is the last signal produced before the first run without
      output. */
  lemma FeedbackFollowsTrace(run: Runner, amps: seq<Computer>, phases: seq<int>, k0: nat, sig: int, rounds: nat, v: int)
    requires |amps| == AMPS
    ensures Feedback(run, amps, phases, k0, sig, rounds) == Ok(v) <==>
            exists states, sigs :: && Produces(run, phases, k0, states, sigs) && StopsAfter(run, phases, k0, states, sigs)
                                   && states[0] == amps && sigs[0] == sig && |sigs| <= rounds && sigs[|sigs| - 1] == v
  {
    if Feedback(run, amps, phases, k0, sig, rounds) == Ok(v) {
      var states, sigs := FeedbackGivesTrace(run, amps, phases, k0, sig, rounds);
    }
    if exists states, sigs :: && Produces(run, phases, k0, states, sigs) && StopsAfter(run, phases, k0, states, sigs)
                              && states[0] == amps && sigs[0] == sig && |sigs| <= rounds && sigs[|sigs| - 1] == v {
      var states, sigs :| && Produces(run, phases, k0, states, sigs) && StopsAfter(run, phases, k0, states, sigs)
                          && states[0] == amps && sigs[0] == sig && |sigs| <= rounds && sigs[|sigs| - 1] == v;
      TraceGivesFeedback(run, phases, k0, states, sigs, rounds);
    }
  }

  /** More visits never change an answer the loop reached. */
  lemma {:induction false} FeedbackRoundsMonotone(run: Runner, amps: seq<Computer>, phases: seq<int>, k: nat, sig: int, rounds: nat, more: nat)
    requires |amps| == AMPS && rounds <= more
    requires Feedback(run, amps, phases, k, sig, rounds) != Err(OutOfFuel)
    ensures Feedback(run, amps, phases, k, sig, more) == Feedback(run, amps, phases, k, sig, rounds)
    decreases rounds
  {
    var s := run(amps[k % AMPS], VisitInputs(phases, k, sig));
    if s.Ok? && s.value.output.Some? {
      FeedbackRoundsMonotone(run, amps[k % AMPS := s.value.computer], phases, k + 1, s.value.output.value, rounds - 1, more - 1);
    }
  }

  /** `longer` gives the answer of `run` on every call where `run` did not
      run out of fuel. */
  ghost predicate Extends(run: Runner, longer: Runner) {
    forall c, input :: run(c, input) != Err(OutOfFuel) ==> longer(c, input) == run(c, input)
  }

  /** More instructions per call extend the runner. */
  lemma BudgetExtends(fuel: nat, more: nat)
    requires fuel <= more
    ensures Extends(Budget(fuel), Budget(more))
  {
    forall c, input | Budget(fuel)(c, input) != Err(OutOfFuel)
      ensures Budget(more)(c, input) == Budget(fuel)(c, input)
    {
      RunFacts.RunFuelMonotone(c, input, fuel, more);
    }
  }

  /** A loop answer reached with one runner is the answer with any runner
      that extends it. */
  lemma {:induction false} FeedbackRunnerMonotone(run: Runner, longer: Runner, amps: seq<Computer>, phases: seq<int>, k: nat, sig: int, rounds: nat)
    requires |amps| == AMPS && Extends(run, longer)
    requires Feedback(run, amps, phases, k, sig, rounds) != Err(OutOfFuel)
    ensures Feedback(longer, amps, phases, k, sig, rounds) == Feedback(run, amps, phases, k, sig, rounds)
    decreases rounds
  {
    var s := run(amps[k % AMPS], VisitInputs(phases, k, sig));
    if s.Ok? && s.value.output.Some? {
      FeedbackRunnerMonotone(run, longer, amps[k % AMPS := s.value.computer], phases, k + 1, s.value.output.value, rounds - 1);
    }
  }

  /** A loop answer reached within `fuel` instructions per visit is the
      answer for any larger budget per visit. */
  lemma FeedbackFuelMonotone(amps: seq<Computer>, phases: seq<int>, k: nat, sig: int, rounds: nat, fuel: nat, more: nat)
    requires |amps| == AMPS && fuel <= more
    requires Feedback(Budget(fuel), amps, phases, k, sig, rounds) != Err(OutOfFuel)
    ensures Feedback(Budget(more), amps, phases, k, sig, rounds) == Feedback(Budget(fuel), amps, phases, k, sig, rounds)
  {
    BudgetExtends(fuel, more);
    FeedbackRunnerMonotone(Budget(fuel), Budget(more), amps, phases, k, sig, rounds);
  }

  /** A part-2 answer stays the answer, with the same loop results, under
      any larger budget per visit and any larger number of visits. */
  lemma P2AnswerFuelMonotone(program: seq<int>, phases: seq<int>, init: int, fuel: nat, more: nat, rounds: nat, moreRounds: nat, v: int)
    requires fuel <= more && rounds <= moreRounds
    requires forall t :: IsPermutation(t, phases) ==>
      Feedback(Budget(fuel), Fresh(program), t, 0, init, rounds).Ok? && Feedback(Budget(fuel), Fresh(program), t, 0, init, rounds).value <= v
    requires v == I64_MIN || exists t :: IsPermutation(t, phases) && Feedback(Budget(fuel), Fresh(program), t, 0, init, rounds) == Ok(v)
    ensures forall t :: IsPermutation(t, phases) ==>
      Feedback(Budget(more), Fresh(program), t, 0, init, moreRounds) == Feedback(Budget(fuel), Fresh(program), t, 0, init, rounds)
    ensures forall t :: IsPermutation(t, phases) ==>
      Feedback(Budget(more), Fresh(program), t, 0, init, moreRounds).Ok? && Feedback(Budget(more), Fresh(program), t, 0, init, moreRounds).value <= v
    ensures v == I64_MIN || exists t :: IsPermutation(t, phases) && Feedback(Budget(more), Fresh(program), t, 0, init, moreRounds) == Ok(v)
  {
    forall t | IsPermutation(t, phases)
      ensures Feedback(Budget(more), Fresh(program), t, 0, init, moreRounds) == Feedback(Budget(fuel), Fresh(program), t, 0, init, rounds)
    {
      FeedbackFuelMonotone(Fresh(program), t, 0, init, rounds, fuel, more);
      FeedbackRoundsMonotone(Budget(more), Fresh(program), t, 0, init, rounds, moreRounds);
    }
  }

  /** Part 2: the largest final signal of the feedback loop over every
      ordering of the phases, every amplifier starting fresh and running
      with `fuel` instructions per visit. */
  method P2Solve(program: seq<int>, phases: seq<int>, init: int, fuel: nat, rounds: nat) returns (r: Result<int>)
    ensures phases == [] ==> r == Feedback(Budget(fuel), Fresh(program), [], 0, init, rounds)
    ensures r.Ok? ==> forall t :: IsPermutation(t, phases) ==>
      Feedback(Budget(fuel), Fresh(program), t, 0, init, rounds).Ok? && Feedback(Budget(fuel), Fresh(program), t, 0, init, rounds).value <= r.value
    ensures r.Ok? && phases != [] ==> I64_MIN <= r.value
    ensures r.Ok? ==> r.value == I64_MIN || exists t :: IsPermutation(t, phases) && Feedback(Budget(fuel), Fresh(program), t, 0, init, rounds) == r
    ensures r.Err? ==> exists t :: IsPermutation(t, phases) && Feedback(Budget(fuel), Fresh(program), t, 0, init, rounds) == r
  {
    var f := t => Feedback(Budget(fuel), Fresh(program), t, 0, init, rounds);
    var restored;
    r, restored := PermutationsMax(phases, 0, f);
    PermutationsFromStart(f, phases, r);
  }
}

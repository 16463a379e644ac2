/** The swap-based permutation search: every ordering of the suffix
    phases[pos..] is produced by swapping each candidate into position pos,
    recursing on pos + 1 and swapping it back; the objective's maximum over
    those orderings is returned, starting from the smallest 64-bit value. */
module Search {
  import opened Outcomes

  /** `s` with the elements at i and j exchanged. */
  function Swap(s: seq<int>, i: nat, j: nat): (r: seq<int>)
    requires i < |s| && j < |s|
    ensures |r| == |s| && r[i] == s[j] && r[j] == s[i]
    ensures forall k :: 0 <= k < |s| && k != i && k != j ==> r[k] == s[k]
  {
    s[i := s[j]][j := s[i]]
  }

  /** `t` keeps the prefix s[..pos] in place and reorders the rest of `s`. */
  predicate IsArrangement(t: seq<int>, s: seq<int>, pos: nat) {
    && pos <= |s|
    && |t| == |s|
    && t[..pos] == s[..pos]
    && multiset(t[pos..]) == multiset(s[pos..])
  }

  /** `t` is an ordering of the elements of `s`. */
  predicate IsPermutation(t: seq<int>, s: seq<int>) {
    multiset(t) == multiset(s)
  }

  /** Arranging from position 0 is permuting. */
  lemma ArrangementFromStart(t: seq<int>, s: seq<int>)
    ensures IsArrangement(t, s, 0) <==> IsPermutation(t, s)
  {
    assert t[0..] == t && s[0..] == s;
    if IsPermutation(t, s) {
      assert |t| == |multiset(t)| == |multiset(s)| == |s|;
    }
  }

  /** With nothing left to reorder, the only arrangement is the sequence
      itself. */
  lemma ArrangementAtEnd(t: seq<int>, s: seq<int>)
    ensures IsArrangement(t, s, |s|) <==> t == s
  {
    if IsArrangement(t, s, |s|) {
      assert t == t[..|s|];
    }
    assert s[|s|..] == [] && s[..|s|] == s;
  }

  /** multiset of a suffix is its head plus the multiset of the rest. */
  lemma SuffixSplit(s: seq<int>, pos: nat)
    requires pos < |s|
    ensures multiset(s[pos..]) == multiset{s[pos]} + multiset(s[pos + 1..])
  {
    assert s[pos..] == [s[pos]] + s[pos + 1..];
  }

  /** Swapping a later element into position pos rearranges the suffix. */
  lemma SwapIsArrangement(s: seq<int>, pos: nat, i: nat)
    requires pos <= i < |s|
    ensures IsArrangement(Swap(s, pos, i), s, pos)
  {
    var w := Swap(s, pos, i);
    var u := s[pos..];
    assert w[..pos] == s[..pos];
    assert w[pos..] == u[0 := u[i - pos]][i - pos := u[0]];
  }

  /** An arrangement of the swapped sequence one position further on is an
      arrangement of the original. */
  lemma ArrangementFromSwap(t: seq<int>, s: seq<int>, pos: nat, i: nat)
    requires pos <= i < |s|
    requires IsArrangement(t, Swap(s, pos, i), pos + 1)
    ensures IsArrangement(t, s, pos)
  {
    var w := Swap(s, pos, i);
    SwapIsArrangement(s, pos, i);
    assert t[..pos] == t[..pos + 1][..pos] == w[..pos + 1][..pos] == s[..pos];
    assert t[pos] == t[..pos + 1][pos] == w[..pos + 1][pos] == w[pos];
    SuffixSplit(t, pos);
    SuffixSplit(w, pos);
  }

  /** An arrangement whose head is s[i] is an arrangement of the swapped
      sequence one position further on. */
  lemma ArrangementAfterSwap(t: seq<int>, s: seq<int>, pos: nat, i: nat)
    requires pos <= i < |s|
    requires IsArrangement(t, s, pos) && t[pos] == s[i]
    ensures IsArrangement(t, Swap(s, pos, i), pos + 1)
  {
    var w := Swap(s, pos, i);
    SwapIsArrangement(s, pos, i);
    assert t[..pos + 1] == t[..pos] + [t[pos]];
    assert w[..pos + 1] == w[..pos] + [w[pos]];
    SuffixSplit(t, pos);
    SuffixSplit(w, pos);
    assert multiset(t[pos..]) == multiset(w[pos..]);
    assert t[pos] == w[pos];
    var rest := multiset(t[pos..]) - multiset{t[pos]};
    assert multiset(t[pos + 1..]) == rest == multiset(w[pos + 1..]);
  }

  /** The head of an arrangement comes from the rearranged suffix. */
  lemma ArrangementHead(t: seq<int>, s: seq<int>, pos: nat)
    requires pos < |s| && IsArrangement(t, s, pos)
    ensures t[pos] in s[pos..]
  {
    SuffixSplit(t, pos);
    assert t[pos] in multiset(s[pos..]);
  }

  /** Every arrangement of s[pos..] evaluates successfully to at most `v`. */
  ghost predicate Bounded(f: seq<int> -> Result<int>, s: seq<int>, pos: nat, v: int) {
    forall t {:trigger IsArrangement(t, s, pos)} :: IsArrangement(t, s, pos) ==> f(t).Ok? && f(t).value <= v
  }

  /** Some arrangement of s[pos..] evaluates to `r`. */
  ghost predicate Attained(f: seq<int> -> Result<int>, s: seq<int>, pos: nat, r: Result<int>) {
    exists t {:trigger IsArrangement(t, s, pos)} :: IsArrangement(t, s, pos) && f(t) == r
  }

  /** Every arrangement whose head is one of phases[pos..i] evaluates
      successfully to at most `acc`. */
  ghost predicate BoundedOn(f: seq<int> -> Result<int>, phases: seq<int>, pos: nat, i: nat, acc: int)
    requires pos < |phases| && pos <= i <= |phases|
  {
    forall t {:trigger IsArrangement(t, phases, pos)} :: IsArrangement(t, phases, pos) && t[pos] in phases[pos..i] ==> f(t).Ok? && f(t).value <= acc
  }

  /** Before any candidate is tried the bound holds vacuously. */
  lemma BoundedOnStart(f: seq<int> -> Result<int>, phases: seq<int>, pos: nat, acc: int)
    requires pos < |phases|
    ensures BoundedOn(f, phases, pos, pos, acc)
  {
    assert phases[pos..pos] == [];
  }

  /** The bound extends to the candidate at i once the search below the swap
      of that candidate into pos is bounded too. */
  lemma BoundedOnNext(f: seq<int> -> Result<int>, phases: seq<int>, pos: nat, i: nat, acc: int, next: int)
    requires pos <= i < |phases| && acc <= next
    requires BoundedOn(f, phases, pos, i, acc)
    requires Bounded(f, Swap(phases, pos, i), pos + 1, next)
    ensures BoundedOn(f, phases, pos, i + 1, next)
  {
    forall t | IsArrangement(t, phases, pos) && t[pos] in phases[pos..i + 1]
      ensures f(t).Ok? && f(t).value <= next
    {
      if t[pos] !in phases[pos..i] {
        assert phases[pos..i + 1] == phases[pos..i] + [phases[i]];
        ArrangementAfterSwap(t, phases, pos, i);
      }
    }
  }

  /** A value found below the swap of candidate i into pos is found among
      the arrangements of phases[pos..]. */
  lemma AttainedFromSwap(f: seq<int> -> Result<int>, phases: seq<int>, pos: nat, i: nat, r: Result<int>)
    requires pos <= i < |phases|
    requires Attained(f, Swap(phases, pos, i), pos + 1, r)
    ensures Attained(f, phases, pos, r)
  {
    var w :| IsArrangement(w, Swap(phases, pos, i), pos + 1) && f(w) == r;
    ArrangementFromSwap(w, phases, pos, i);
  }

  /** Once every candidate head has been tried, the bound covers every
      arrangement. */
  lemma BoundedOnAll(f: seq<int> -> Result<int>, phases: seq<int>, pos: nat, acc: int)
    requires pos < |phases|
    requires BoundedOn(f, phases, pos, |phases|, acc)
    ensures Bounded(f, phases, pos, acc)
  {
    forall t | IsArrangement(t, phases, pos)
      ensures f(t).Ok? && f(t).value <= acc
    {
      ArrangementHead(t, phases, pos);
    }
  }

  /** One step of the fold over candidate heads: swaps phases[i] into
      position pos, searches the rest, swaps it back, and takes the larger of
      `acc` and what the search found. */
  method TryCandidate(phases: seq<int>, pos: nat, i: nat, f: seq<int> -> Result<int>, acc: int) returns (r: Result<int>, restored: seq<int>)
    requires pos <= i < |phases| && I64_MIN <= acc
    requires BoundedOn(f, phases, pos, i, acc)
    decreases |phases| - pos, 0
    ensures restored == phases
    ensures r.Ok? ==> acc <= r.value && BoundedOn(f, phases, pos, i + 1, r.value)
    ensures r.Ok? ==> r.value == acc || Attained(f, phases, pos, r)
    ensures r.Err? ==> Attained(f, phases, pos, r)
  {
    var swapped := Swap(phases, pos, i);
    var sig, back := PermutationsMax(swapped, pos + 1, f);
    restored := Swap(back, pos, i);
    assert restored == phases;
    if sig.Err? {
      AttainedFromSwap(f, phases, pos, i, sig);
      return sig, restored;
    }
    if sig.value > acc {
      AttainedFromSwap(f, phases, pos, i, sig);
      r := sig;
    } else {
      r := Ok(acc);
    }
    BoundedOnNext(f, phases, pos, i, acc, r.value);
  }

  /** Folds the maximum of `f` over every arrangement of phases[pos..],
      starting from the smallest 64-bit value; at pos == |phases| it is `f`
      of the sequence itself. The first failing evaluation aborts the search
      with its fault. `restored` is the caller's sequence after the search
      has swapped every candidate out and back. */
  method PermutationsMax(phases: seq<int>, pos: nat, f: seq<int> -> Result<int>) returns (r: Result<int>, restored: seq<int>)
    decreases |phases| - pos, 1
    ensures restored == phases
    ensures pos == |phases| ==> r == f(phases)
    ensures pos > |phases| ==> r == Ok(I64_MIN)
    ensures r.Ok? ==> Bounded(f, phases, pos, r.value)
    ensures r.Ok? && pos < |phases| ==> I64_MIN <= r.value
    ensures r.Ok? && pos <= |phases| ==> r.value == I64_MIN || Attained(f, phases, pos, r)
    ensures r.Err? ==> Attained(f, phases, pos, r)
  {
    if pos == |phases| {
      forall t | IsArrangement(t, phases, pos)
        ensures t == phases
      {
        ArrangementAtEnd(t, phases);
      }
      ArrangementAtEnd(phases, phases);
      return f(phases), phases;
    }
    if pos > |phases| {
      return Ok(I64_MIN), phases;
    }
    var acc := I64_MIN;
    var cur := phases;
    var i := pos;
    BoundedOnStart(f, phases, pos, acc);
    while i < |phases|
      invariant pos <= i <= |phases|
      invariant cur == phases
      invariant I64_MIN <= acc
      invariant BoundedOn(f, phases, pos, i, acc)
      invariant acc == I64_MIN || Attained(f, phases, pos, Ok(acc))
    {
      var step;
      step, cur := TryCandidate(cur, pos, i, f, acc);
      if step.Err? {
        return step, cur;
      }
      acc := step.value;
      i := i + 1;
    }
    BoundedOnAll(f, phases, pos, acc);
    return Ok(acc), cur;
  }
}

/** The commitment to a growth calculation's inputs, built by the proof workflow and recomputed
    independently by the release gate. */
module GrowthCommitment {
  import opened Wrappers
  import opened MinorUnits
  import opened ProofDomain

  /** The digests and the 28-digit quotient, as functions that both sides share. */
  datatype Primitives = Primitives(
    inputDigest: (string, string, string, seq<string>, Canonical, string) -> string,
    outputDigest: Growth -> string,
    quotient: Growth -> real)

  /** The proof input's own validation: nothing empty, two distinct evidence references. */
  function BuildProofInput(p: Primitives, runId: string, calculationId: string, hash: string,
                           refs: seq<string>, canonical: Canonical): Option<ProofInput>
    requires canonical.prior > 0
  {
    if runId == "" || calculationId == "" || hash == "" || |refs| != 2 || refs[0] == "" || refs[1] == ""
       || refs[0] == refs[1]
    then None
    else
      var output := "sha256:" + p.outputDigest(GrowthOf(canonical));
      Some(ProofInput(runId, calculationId, hash, refs, canonical,
                      "sha256:" + p.inputDigest(runId, calculationId, hash, refs, canonical, output), output))
  }

  predicate Denotes(output: Option<Dec>, number: real) {
    output.Some? && output.value.Finite? && Value(output.value) == number
  }

  /** The hash that the workflow binds: the implementation hash, or else the deprecated code hash. */
  function BoundHash(c: Calculation): string {
    if Given(c.implementationHash) then c.implementationHash.value
    else if Given(c.codeHash) then c.codeHash.value
    else ""
  }

  /** The workflow's proof input; `None` is an error. */
  function BuildInput(p: Primitives, c: Calculation): Option<ProofInput> {
    var s := c.snapshot;
    if c.capabilityId != CAPABILITY_ID || c.formulaId != FORMULA_ID then None
    else if |c.evidenceIds| != 2 then None
    else if BoundHash(c) == "" then None
    else if s.prior.None? || s.current.None? || s.currency.None? then None
    else if !s.prior.value.Finite? || !s.current.value.Finite? then None
    else if Value(s.prior.value) <= 0.0 then None
    else
      var canonical := ToMinorUnits(s.prior.value, s.current.value, s.currency.value);
      if canonical.None? then None
      else if !Denotes(c.output, p.quotient(GrowthOf(canonical.value))) then None
      else BuildProofInput(p, c.runId, c.id, BoundHash(c), c.evidenceIds, canonical.value)
  }

  datatype Expectation = Raises | NoExpectation | Expect(input: ProofInput)

  /** The gate's recomputation. Only the last step is not guarded against errors. */
  function Expected(p: Primitives, c: Calculation): Expectation {
    var s := c.snapshot;
    if c.formulaId != FORMULA_ID || !Given(c.implementationHash) then NoExpectation
    else if s.prior.None? || s.current.None? || s.currency.None? then NoExpectation
    else if |c.evidenceIds| != 2 || !s.prior.value.Finite? || !s.current.value.Finite? then NoExpectation
    else
      var canonical := ToMinorUnits(s.prior.value, s.current.value, s.currency.value);
      if canonical.None? then NoExpectation
      else if !Denotes(c.output, p.quotient(GrowthOf(canonical.value))) then NoExpectation
      else
        var input := BuildProofInput(p, c.runId, c.id, c.implementationHash.value, c.evidenceIds, canonical.value);
        if input.None? then Raises else Expect(input.value)
  }

  /** The two sides agree: for a calculation of the growth capability, the gate expects exactly what the
      workflow built, provided that the calculation carries an implementation hash of its own. */
  lemma GateExpectsWhatWasBuilt(p: Primitives, c: Calculation, input: ProofInput)
    requires c.capabilityId == CAPABILITY_ID
    ensures Expected(p, c) == Expect(input) <==> Given(c.implementationHash) && BuildInput(p, c) == Some(input)
  {
    hide ToMinorUnits, Value, Denotes, BuildProofInput, GrowthOf;
    var s := c.snapshot;
    if s.prior.Some? && s.prior.value.Finite? && s.current.Some? && s.current.value.Finite? && s.currency.Some?
       && ToMinorUnits(s.prior.value, s.current.value, s.currency.value).Some? {
      GrowthIsExact(s.prior.value, s.current.value, s.currency.value);
    }
  }

  /** What a built input stands for: the exact amounts in minor units, their growth ratio in lowest terms,
      and an output that is the quotient of that ratio. */
  lemma BuiltInputIsExact(p: Primitives, c: Calculation, input: ProofInput)
    requires BuildInput(p, c) == Some(input)
    ensures var prior, current := c.snapshot.prior.value, c.snapshot.current.value;
            && prior.Finite? && current.Finite? && input.canonical.scale >= 0
            && ScaledExactly(input.canonical, prior, current)
            && GrowthMatches(input.canonical, prior, current)
            && c.output.Some? && c.output.value.Finite?
            && Value(c.output.value) == p.quotient(GrowthOf(input.canonical))
  {
    hide BuildInput, ToMinorUnits, GrowthOf, GrowthMatches, ScaledExactly, Value;
    BuiltFromCanonical(p, c, input);
    var s := c.snapshot;
    MinorUnitsAreExact(s.prior.value, s.current.value, s.currency.value);
    GrowthIsExact(s.prior.value, s.current.value, s.currency.value);
  }

  lemma BuiltFromCanonical(p: Primitives, c: Calculation, input: ProofInput)
    requires BuildInput(p, c) == Some(input)
    ensures var s := c.snapshot;
            && s.prior.Some? && s.prior.value.Finite? && s.current.Some? && s.current.value.Finite? && s.currency.Some?
            && ToMinorUnits(s.prior.value, s.current.value, s.currency.value) == Some(input.canonical)
    ensures input.canonical.prior > 0 && Denotes(c.output, p.quotient(GrowthOf(input.canonical)))
    ensures input.runId == c.runId && input.calculationId == c.id && input.implementationHash == BoundHash(c) != ""
    ensures input.evidenceRefs == c.evidenceIds
    ensures input.inputCommitment != "" && input.expectedOutputCommitment != ""
    ensures c.capabilityId == CAPABILITY_ID && c.formulaId == FORMULA_ID
  {
    hide ToMinorUnits, Value, Denotes, GrowthOf;
    PositivePrior(c.snapshot.prior.value, c.snapshot.current.value, c.snapshot.currency.value);
  }

  /** A built input binds exactly the run, the calculation, the hash, the evidence, the amounts and the
      output, each in its place. */
  lemma InputBinds(p: Primitives, c: Calculation, input: ProofInput)
    requires BuildInput(p, c) == Some(input)
    ensures input.runId == c.runId && input.calculationId == c.id && input.implementationHash == BoundHash(c)
    ensures input.evidenceRefs == c.evidenceIds && input.canonical.prior > 0
    ensures input.expectedOutputCommitment == "sha256:" + p.outputDigest(GrowthOf(input.canonical))
    ensures input.inputCommitment ==
            "sha256:" + p.inputDigest(c.runId, c.id, BoundHash(c), c.evidenceIds, input.canonical,
                                      input.expectedOutputCommitment)
  {
    hide ToMinorUnits, Value, Denotes, GrowthOf;
    PositivePrior(c.snapshot.prior.value, c.snapshot.current.value, c.snapshot.currency.value);
  }

  /** The gate's recomputation fails unguarded exactly for a calculation whose amounts and output are in
      order and whose own id, run or evidence references a proof input does not take. */
  lemma RaisesExactlyWhen(p: Primitives, c: Calculation)
    ensures Expected(p, c).Raises? <==>
            && c.formulaId == FORMULA_ID && Given(c.implementationHash) && |c.evidenceIds| == 2
            && c.snapshot.prior.Some? && c.snapshot.current.Some? && c.snapshot.currency.Some?
            && c.snapshot.prior.value.Finite? && c.snapshot.current.value.Finite?
            && (exists canonical ::
                  && ToMinorUnits(c.snapshot.prior.value, c.snapshot.current.value, c.snapshot.currency.value)
                     == Some(canonical)
                  && canonical.prior > 0 && c.output.Some? && c.output.value.Finite?
                  && Value(c.output.value) == p.quotient(GrowthOf(canonical)))
            && (c.runId == "" || c.id == "" || c.evidenceIds[0] == "" || c.evidenceIds[1] == ""
                || c.evidenceIds[0] == c.evidenceIds[1])
  {
    hide ToMinorUnits, Value, GrowthOf;
    var s := c.snapshot;
    if s.prior.Some? && s.current.Some? && s.currency.Some? && s.prior.value.Finite? && s.current.value.Finite?
       && ToMinorUnits(s.prior.value, s.current.value, s.currency.value).Some? {
      PositivePrior(s.prior.value, s.current.value, s.currency.value);
    }
  }

  predicate FitsExactScale(prior: Dec, current: Dec, currency: string)
    requires prior.Finite? && current.Finite?
  {
    var scale := ScaleOf(prior, current);
    && scale <= MAX_SCALE && Value(prior) > 0.0
    && 1 <= |currency| <= 16 && (forall c :: c in currency ==> 'A' <= c <= 'Z')
    && Value(prior) * Pow10(scale) as real <= INT64_MAX as real
    && INT64_MIN as real <= Value(current) * Pow10(scale) as real <= INT64_MAX as real
  }

  /** Exactly which calculations can be proved: of the growth capability and formula, with two different
      evidence references and a hash to bind, whose amounts fit their exact scaling, the earlier one
      positive, and whose output is the quotient. */
  lemma BuiltExactlyWhen(p: Primitives, c: Calculation)
    ensures BuildInput(p, c).Some? <==>
            && c.capabilityId == CAPABILITY_ID && c.formulaId == FORMULA_ID && c.runId != "" && c.id != ""
            && |c.evidenceIds| == 2 && c.evidenceIds[0] != c.evidenceIds[1]
            && c.evidenceIds[0] != "" && c.evidenceIds[1] != ""
            && (Given(c.implementationHash) || Given(c.codeHash))
            && c.snapshot.prior.Some? && c.snapshot.current.Some? && c.snapshot.currency.Some?
            && c.snapshot.prior.value.Finite? && c.snapshot.current.value.Finite?
            && var (prior, current, currency) := (c.snapshot.prior.value, c.snapshot.current.value,
                                                  c.snapshot.currency.value);
               && FitsExactScale(prior, current, currency)
               && exists canonical :: && ToMinorUnits(prior, current, currency) == Some(canonical)
                                      && canonical.prior > 0 && c.output.Some? && c.output.value.Finite?
                                      && Value(c.output.value) == p.quotient(GrowthOf(canonical))
  {
    hide ToMinorUnits, Value, GrowthOf, Pow10;
    var s := c.snapshot;
    if s.prior.Some? && s.current.Some? && s.currency.Some? && s.prior.value.Finite? && s.current.value.Finite? {
      AcceptedExactlyWhenItFits(s.prior.value, s.current.value, s.currency.value);
      if ToMinorUnits(s.prior.value, s.current.value, s.currency.value).Some? {
        PositivePrior(s.prior.value, s.current.value, s.currency.value);
      }
    }
  }
}

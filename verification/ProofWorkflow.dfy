/** The revenue-growth proof workflow: it requires, proves, verifies and saves one calculation's lineage,
    and its outcome is what the release gate judges. */
module ProofWorkflow {
  import opened Wrappers
  import opened MinorUnits
  import opened ProofDomain
  import opened GrowthCommitment
  import opened ReleaseGate

  datatype Entity =
    | PolicyDecision(calculationId: string, requirement: Requirement)
    | SavedCommitment(commitment: Commitment)
    | SavedProof(proof: ProofRecord)
    | SavedVerification(verification: Verification)
    | SavedArtifact(artifact: Artifact)

  datatype WorkflowEvent =
    | ProofRequired(proofId: string, calculationId: string)
    | ProofStarted(proofId: string, inputCommitment: string)
    | ProofGenerated(proofId: string)
    | ProofVerified(proofId: string, imageId: string, receiptHash: string, journalHash: string)
    | ProofFailed(proofId: string)

  /** What the verifier reports about a receipt. */
  datatype Attestation = Attestation(
    imageId: Option<string>,
    receiptHash: Option<string>,
    journalHash: Option<string>,
    formalMode: bool,
    verified: bool)

  /** What the adapter's proving run comes back with. */
  datatype ProofResult = ProofResult(status: ProofStatus, receiptRef: Option<string>, attested: Attestation)

  /** Everything outside the workflow: whether the n-th save succeeds and whether several records are
      saved at once, whether the proof input can be written, the prover and the independent verifier
      (`None` and `false` are their errors), the files, and which of them lie under the artifact root. */
  datatype World = World(
    saves: nat -> bool,
    batches: bool,
    writesInput: bool,
    prove: ProofInput -> Option<ProofResult>,
    verify: ProofResult -> bool,
    files: map<string, Content>,
    inRoot: string -> bool)

  datatype Lineage = Lineage(commitment: Commitment, proof: ProofRecord, verification: Verification, artifact: Artifact)

  datatype Outcome = Outcome(
    requirements: Dict<Requirement>,
    proofs: Dict<ProofEntry>,
    commitments: Dict<Commitment>,
    verifications: Dict<Verification>,
    artifacts: Dict<Artifact>)

  // ---- Requirements ---------------------------------------------------------------------

  function RequirementFor(c: Calculation): Requirement {
    if c.formulaId == FORMULA_ID then MustProve else NotRequired
  }

  function RequirementsOf(cs: seq<Calculation>): (d: Dict<Requirement>)
    ensures |d| == |cs| && forall i :: 0 <= i < |cs| ==> d[i] == (cs[i].id, RequirementFor(cs[i]))
  {
    seq(|cs|, i requires 0 <= i < |cs| => (cs[i].id, RequirementFor(cs[i])))
  }

  /** The growth calculations of a list. */
  function GrowthsOf(cs: seq<Calculation>): (gs: seq<Calculation>)
    ensures forall c :: c in gs <==> c in cs && c.formulaId == FORMULA_ID
  {
    if cs == [] then []
    else
      assert cs == cs[..|cs| - 1] + [cs[|cs| - 1]];
      GrowthsOf(cs[..|cs| - 1]) + if cs[|cs| - 1].formulaId == FORMULA_ID then [cs[|cs| - 1]] else []
  }

  /** The workflow's precondition on its calculations, with the one growth calculation among them. */
  ghost predicate Eligible(runId: string, cs: seq<Calculation>) {
    && cs != [] && (forall c :: c in cs ==> c.runId == runId)
    && (forall i, j :: 0 <= i < j < |cs| ==> cs[i].id != cs[j].id)
    && |GrowthsOf(cs)| == 1
  }

  method ValidateCalculationSet(runId: string, cs: seq<Calculation>) returns (growth: Option<Calculation>)
    ensures growth.Some? <==> Eligible(runId, cs)
    ensures growth.Some? ==> GrowthsOf(cs) == [growth.value]
  {
    if cs == [] || exists c :: c in cs && c.runId != runId {
      return None;
    }
    var ids := set i | 0 <= i < |cs| :: cs[i].id;
    if exists i, j :: 0 <= i < j < |cs| && cs[i].id == cs[j].id {
      return None;
    }
    var growths := GrowthsOf(cs);
    if |growths| != 1 {
      return None;
    }
    return Some(growths[0]);
  }

  /** Under the service's own policy a second formula has to be proved too. The two policies give the
      same requirements exactly when no calculation has that formula. */
  function PolicyRequirementFor(c: Calculation): Requirement {
    if c.formulaId in {FORMULA_ID, "numeric_consistency_v1"} then MustProve else NotRequired
  }

  function PolicyRequirementsOf(cs: seq<Calculation>): (d: Dict<Requirement>)
    ensures |d| == |cs| && forall i :: 0 <= i < |cs| ==> d[i] == (cs[i].id, PolicyRequirementFor(cs[i]))
  {
    seq(|cs|, i requires 0 <= i < |cs| => (cs[i].id, PolicyRequirementFor(cs[i])))
  }

  predicate HasNumericConsistency(cs: seq<Calculation>) {
    exists c :: c in cs && c.formulaId == "numeric_consistency_v1"
  }

  lemma PoliciesAgreeExactlyWithoutNumericConsistency(cs: seq<Calculation>)
    ensures RequirementsOf(cs) == PolicyRequirementsOf(cs) <==> !HasNumericConsistency(cs)
  {
    if c :| c in cs && c.formulaId == "numeric_consistency_v1" {
      var i :| 0 <= i < |cs| && cs[i] == c;
      assert RequirementsOf(cs)[i].1 != PolicyRequirementsOf(cs)[i].1;
    }
  }

  // ---- The lineage of a proof -----------------------------------------------------------

  function ProofIdOf(runId: string): string {
    "PROOF-" + runId + "-REVENUE-GROWTH"
  }

  function CommitmentOf(runId: string, growth: Calculation, input: ProofInput): Commitment {
    Commitment("PIC-" + growth.id, runId, growth.id, growth.formulaId, growth.capabilityId, input.implementationHash,
               input.evidenceRefs, input.canonical, input.inputCommitment, input.expectedOutputCommitment)
  }

  /** The verified records, unless the receipt escaped the artifact root, changed after its verification,
      or is not attested in formal mode. */
  function MapVerifiedRecords(world: World, runId: string, growth: Calculation, input: ProofInput, result: ProofResult)
    : (l: Option<Lineage>)
  {
    var v := result.attested;
    if result.receiptRef.None? || result.receiptRef.value !in world.files
       || !world.inRoot(result.receiptRef.value) then None
    else if !Given(v.imageId) || !Given(v.receiptHash) || !Given(v.journalHash) then None
    else if v.receiptHash.value != world.files[result.receiptRef.value].hash then None
    else if !v.formalMode || !v.verified then None
    else
      var ref, proofId := result.receiptRef.value, ProofIdOf(runId);
      Some(Lineage(
        CommitmentOf(runId, growth, input),
        ProofRecord(proofId, runId, growth.id, BACKEND, FORMULA_ID, v.imageId.value, BoundHash(growth),
                    input.inputCommitment,
                    Some(ref), v.receiptHash, v.journalHash, VerifiedStatus),
        Verification("PV-" + proofId, proofId, HOST_VERIFIER, v.imageId.value, v.receiptHash.value, v.journalHash.value,
                     VerifiedStatus, true),
        Artifact("PA-" + proofId, proofId, RECEIPT_TYPE, ref, v.receiptHash.value, world.files[ref].size)))
  }

  /** A proving result that the workflow goes on with. */
  predicate Generated(result: Option<ProofResult>) {
    result.Some? && result.value.status == ValidStatus && result.value.receiptRef.Some?
  }

  /** The lineage that the world lets the workflow establish, saving aside. */
  function Establish(prims: Primitives, world: World, runId: string, growth: Calculation): Option<Lineage> {
    var input := BuildInput(prims, growth);
    if input.None? || !world.writesInput then None
    else
      var result := world.prove(input.value);
      if !Generated(result) || !world.verify(result.value) then None
      else MapVerifiedRecords(world, runId, growth, input.value, result.value)
  }

  function FailedOutcome(requirements: Dict<Requirement>): Outcome {
    Outcome(requirements, [], [], [], [])
  }

  function VerifiedOutcome(requirements: Dict<Requirement>, id: string, l: Lineage): Outcome {
    Outcome(requirements, [(id, Full(l.proof))], [(id, l.commitment)], [(id, l.verification)], [(id, l.artifact)])
  }

  /** The lineage records what the verifier attested: image, receipt and journal digests are its own, the
      artifact is the receipt's file, and the commitment is the proof input's. */
  ghost predicate Attests(world: World, runId: string, growth: Calculation, input: ProofInput, r: ProofResult,
                          l: Lineage)
    requires r.receiptRef.Some? && r.receiptRef.value in world.files
  {
    var (p, v, a, m, told) := (l.proof, l.verification, l.artifact, l.commitment, r.attested);
    && p.id == "PROOF-" + runId + "-REVENUE-GROWTH" && v.id == "PV-" + p.id && a.id == "PA-" + p.id
    && m.id == "PIC-" + growth.id
    && p.runId == runId && m.runId == runId && p.calculationId == growth.id && m.calculationId == growth.id
    && v.proofId == p.id && a.proofId == p.id
    && p.backend == "risc0" && p.programId == "revenue_growth_v1"
    && v.verifier == "risc0-independent-host-verifier" && a.artifactType == "application/vnd.risc0.receipt"
    && p.status == VerifiedStatus && v.status == VerifiedStatus && v.verified
    && Some(p.imageId) == told.imageId && v.imageId == p.imageId
    && p.receiptHash == told.receiptHash && Some(v.receiptHash) == told.receiptHash
    && Some(a.contentHash) == told.receiptHash
    && p.journalHash == told.journalHash && Some(v.journalHash) == told.journalHash
    && p.receiptRef == r.receiptRef && Some(a.ref) == r.receiptRef
    && a.size == world.files[a.ref].size && a.contentHash == world.files[a.ref].hash
    && p.implementationHash == input.implementationHash && m.implementationHash == input.implementationHash
    && p.inputCommitment == input.inputCommitment && m.inputCommitment == input.inputCommitment
    && m.formulaId == growth.formulaId && m.capabilityId == growth.capabilityId
    && m.evidenceRefs == input.evidenceRefs && m.canonical == input.canonical
    && m.expectedOutputCommitment == input.expectedOutputCommitment
  }

  /** The prover's result was verified independently, in formal mode, and its receipt is still the file
      that was verified. */
  ghost predicate Verified(world: World, r: ProofResult) {
    && r.status == ValidStatus && world.verify(r) && r.attested.formalMode && r.attested.verified
    && r.receiptRef.Some? && world.inRoot(r.receiptRef.value) && r.receiptRef.value in world.files
    && r.attested.imageId.Some? && r.attested.imageId.value != ""
    && r.attested.journalHash.Some? && r.attested.journalHash.value != ""
    && r.attested.receiptHash == Some(world.files[r.receiptRef.value].hash) && r.attested.receiptHash.value != ""
  }

  lemma MappedMeans(world: World, runId: string, growth: Calculation, input: ProofInput, r: ProofResult, l: Lineage)
    requires input.implementationHash == BoundHash(growth) && growth.formulaId == FORMULA_ID
    requires r.status == ValidStatus && r.receiptRef.Some? && world.verify(r)
    ensures MapVerifiedRecords(world, runId, growth, input, r) == Some(l) <==>
            Verified(world, r) && Attests(world, runId, growth, input, r, l)
  {
    if Verified(world, r) {
      var made := MapVerifiedRecords(world, runId, growth, input, r).value;
      assert Attests(world, runId, growth, input, r, made);
      if Attests(world, runId, growth, input, r, l) {
        assert l.commitment == made.commitment && l.proof == made.proof;
        assert l.verification == made.verification && l.artifact == made.artifact;
      }
    }
  }

  /** A lineage is established exactly when the input can be built and written, the prover answers, and its
      answer is verified; it then records exactly what was attested. */
  lemma EstablishMeans(prims: Primitives, world: World, runId: string, growth: Calculation, l: Lineage)
    ensures Establish(prims, world, runId, growth) == Some(l) <==>
            && world.writesInput
            && exists input, r ::
                && BuildInput(prims, growth) == Some(input) && world.prove(input) == Some(r) && Verified(world, r)
                && Attests(world, runId, growth, input, r, l)
  {
    hide BuildInput, MapVerifiedRecords, Attests;
    var input := BuildInput(prims, growth);
    if input.Some? && world.prove(input.value).Some? {
      var r := world.prove(input.value).value;
      InputBindsHash(prims, growth, input.value);
      if r.status == ValidStatus && r.receiptRef.Some? && world.verify(r) {
        MappedMeans(world, runId, growth, input.value, r, l);
      }
    }
  }

  lemma InputBindsHash(prims: Primitives, growth: Calculation, input: ProofInput)
    requires BuildInput(prims, growth) == Some(input)
    ensures input.implementationHash == BoundHash(growth) && growth.formulaId == FORMULA_ID
  {
    hide ToMinorUnits, Value, Denotes, GrowthOf;
  }

  // ---- The workflow ---------------------------------------------------------------------

  class Workflow {
    const prims: Primitives
    const world: World
    var saved: seq<Entity>
    var attempts: nat
    var events: seq<WorkflowEvent>

    constructor (prims: Primitives, world: World)
      ensures this.prims == prims && this.world == world && saved == [] && events == [] && attempts == 0
    {
      this.prims, this.world := prims, world;
      saved, events, attempts := [], [], 0;
    }

    method Save(e: Entity) returns (ok: bool)
      modifies this`saved, this`attempts
      ensures ok == world.saves(old(attempts)) && attempts == old(attempts) + 1
      ensures saved == old(saved) + if ok then [e] else []
    {
      ok := world.saves(attempts);
      attempts := attempts + 1;
      if ok {
        saved := saved + [e];
      }
    }

    method Emit(e: WorkflowEvent)
      modifies this`events
      ensures events == old(events) + [e]
    {
      events := events + [e];
    }

    /** Saves the requirement of every calculation, in order; a save that fails ends the workflow. */
    method Require(cs: seq<Calculation>) returns (requirements: Option<Dict<Requirement>>)
      modifies this`saved, this`attempts
      ensures requirements.Some? <==> forall n :: old(attempts) <= n < old(attempts) + |cs| ==> world.saves(n)
      ensures requirements.Some? ==> && requirements.value == RequirementsOf(cs)
                                     && attempts == old(attempts) + |cs|
                                     && saved == old(saved) + Decisions(cs)
    {
      var acc: Dict<Requirement> := [];
      for i := 0 to |cs|
        invariant acc == RequirementsOf(cs)[..i]
        invariant attempts == old(attempts) + i && forall n :: old(attempts) <= n < attempts ==> world.saves(n)
        invariant saved == old(saved) + Decisions(cs)[..i]
      {
        var requirement := if cs[i].formulaId == FORMULA_ID then MustProve else NotRequired;
        acc := acc + [(cs[i].id, requirement)];
        var ok := Save(PolicyDecision(cs[i].id, requirement));
        if !ok {
          return None;
        }
      }
      requirements := Some(acc);
    }

    /** Saves the three verified records, at once or one by one. */
    method SaveVerified(l: Lineage) returns (ok: bool)
      modifies this`saved, this`attempts
      ensures ok ==>
                saved == old(saved)
                         + [SavedProof(l.proof), SavedVerification(l.verification), SavedArtifact(l.artifact)]
      ensures !ok ==> |saved| < |old(saved)| + 3
      ensures !ok ==> exists n :: old(attempts) <= n < attempts && !world.saves(n)
      ensures ok <==> if world.batches then world.saves(old(attempts))
                      else world.saves(old(attempts)) && world.saves(old(attempts) + 1)
                           && world.saves(old(attempts) + 2)
    {
      if world.batches {
        ok := world.saves(attempts);
        attempts := attempts + 1;
        if ok {
          saved := saved + [SavedProof(l.proof), SavedVerification(l.verification), SavedArtifact(l.artifact)];
        }
        return;
      }
      ok := Save(SavedProof(l.proof));
      if ok {
        ok := Save(SavedVerification(l.verification));
        if ok {
          ok := Save(SavedArtifact(l.artifact));
        }
      }
    }

    /** Proves, verifies and saves; every failure on the way ends here, with the events so far. */
    method Prove(runId: string, growth: Calculation) returns (lineage: Option<Lineage>)
      modifies this
      ensures lineage.Some? ==> lineage == Establish(prims, world, runId, growth)
      ensures lineage.Some? ==> saved == old(saved) + SavedLineage(lineage.value)
      ensures lineage.Some? ==> events == old(events) + ProvedEvents(ProofIdOf(runId), lineage.value)
      ensures lineage.None? && Establish(prims, world, runId, growth).Some? ==>
                exists n :: old(attempts) <= n < attempts && !world.saves(n)
      ensures lineage.None? ==> old(events) <= events && BrokenOff(ProofIdOf(runId), events[|old(events)|..])
    {
      hide BuildInput;
      var proofId := ProofIdOf(runId);
      var input := BuildInput(prims, growth);
      if input.None? || !world.writesInput {
        return None;
      }
      var commitment := CommitmentOf(runId, growth, input.value);
      var ok := Save(SavedCommitment(commitment));
      if !ok {
        return None;
      }
      Emit(ProofStarted(proofId, input.value.inputCommitment));
      var result := world.prove(input.value);
      if !Generated(result) {
        return None;
      }
      Emit(ProofGenerated(proofId));
      if !world.verify(result.value) {
        return None;
      }
      var mapped := MapVerifiedRecords(world, runId, growth, input.value, result.value);
      if mapped.None? {
        return None;
      }
      ok := SaveVerified(mapped.value);
      if !ok {
        return None;
      }
      Emit(ProofVerified(proofId, mapped.value.proof.imageId, mapped.value.verification.receiptHash,
                         mapped.value.verification.journalHash));
      lineage := mapped;
    }

    /** One execution. A failure after the requirements are saved gives an outcome without proofs, and a
        success the whole lineage; the last event tells which. */
    method Execute(runId: string, cs: seq<Calculation>) returns (outcome: Option<Outcome>)
      modifies this
      ensures outcome.Some? ==> Eligible(runId, cs) && outcome.value.requirements == RequirementsOf(cs)
      ensures !Eligible(runId, cs) ==> outcome.None? && unchanged(this)
      ensures Eligible(runId, cs) ==>
                (outcome.None? <==> exists n :: old(attempts) <= n < old(attempts) + |cs| && !world.saves(n))
      ensures outcome.Some? ==>
                var growth := GrowthsOf(cs)[0];
                var l := Establish(prims, world, runId, growth);
                && events != []
                && (if events[|events| - 1].ProofFailed? then outcome.value == FailedOutcome(RequirementsOf(cs))
                    else && l.Some? && outcome.value == VerifiedOutcome(RequirementsOf(cs), growth.id, l.value)
                         && events == old(events) + [ProofRequired(ProofIdOf(runId), growth.id)]
                            + ProvedEvents(ProofIdOf(runId), l.value)
                         && saved == old(saved) + Decisions(cs) + SavedLineage(l.value))
                && (events[|events| - 1].ProofFailed? ==>
                      && |old(events)| < |events|
                      && old(events) + [ProofRequired(ProofIdOf(runId), growth.id)] <= events
                      && BrokenOff(ProofIdOf(runId), events[|old(events)| + 1..|events| - 1]))
                && (events[|events| - 1].ProofFailed? && l.Some? ==>
                      exists n :: old(attempts) <= n < attempts && !world.saves(n))
    {
      hide Eligible, GrowthsOf, Establish;
      var growth := ValidateCalculationSet(runId, cs);
      if growth.None? {
        return None;
      }
      var requirements := Require(cs);
      if requirements.None? {
        return None;
      }
      var proofId := ProofIdOf(runId);
      Emit(ProofRequired(proofId, growth.value.id));
      var lineage := Prove(runId, growth.value);
      if lineage.None? {
        Emit(ProofFailed(proofId));
        return Some(FailedOutcome(requirements.value));
      }
      return Some(VerifiedOutcome(requirements.value, growth.value.id, lineage.value));
    }
  }

  function Decisions(cs: seq<Calculation>): (es: seq<Entity>)
    ensures |es| == |cs| && forall i :: 0 <= i < |cs| ==> es[i] == PolicyDecision(cs[i].id, RequirementFor(cs[i]))
  {
    seq(|cs|, i requires 0 <= i < |cs| => PolicyDecision(cs[i].id, RequirementFor(cs[i])))
  }

  function SavedLineage(l: Lineage): seq<Entity> {
    [SavedCommitment(l.commitment), SavedProof(l.proof), SavedVerification(l.verification), SavedArtifact(l.artifact)]
  }

  /** The events of a proof that broke off. */
  predicate BrokenOff(proofId: string, events: seq<WorkflowEvent>) {
    && |events| <= 2
    && (|events| >= 1 ==> events[0].ProofStarted? && events[0].proofId == proofId)
    && (|events| == 2 ==> events[1] == ProofGenerated(proofId))
  }

  function ProvedEvents(proofId: string, l: Lineage): seq<WorkflowEvent> {
    [ProofStarted(proofId, l.commitment.inputCommitment), ProofGenerated(proofId),
     ProofVerified(proofId, l.proof.imageId, l.verification.receiptHash, l.verification.journalHash)]
  }

  // ---- The service around the workflow --------------------------------------------------

  datatype ServiceError = WorkflowRaised | ProofPolicyChangedAfterReview

  ghost predicate SavesRequirements(w: Workflow, start: nat, cs: seq<Calculation>)
    reads w
  {
    forall n :: start <= n < start + |cs| ==> w.world.saves(n)
  }

  /** Obtains the proof outcome of a reviewed run, unless one is retained, and goes on with it only under
      the service's own requirements. A run with a calculation of the second formula never gets further:
      its proof is made and saved, and then refused. */
  method ProveForRelease(workflow: Workflow, runId: string, cs: seq<Calculation>, retained: Option<Outcome>)
    returns (r: Result<Outcome, ServiceError>)
    modifies workflow
    ensures retained.None? ==>
              && (r == Err(ProofPolicyChangedAfterReview) <==>
                    && Eligible(runId, cs) && SavesRequirements(workflow, old(workflow.attempts), cs)
                    && HasNumericConsistency(cs))
              && (r.Ok? <==>
                    && Eligible(runId, cs) && SavesRequirements(workflow, old(workflow.attempts), cs)
                    && !HasNumericConsistency(cs))
    ensures retained.None? && Eligible(runId, cs) && (forall n :: workflow.world.saves(n)) ==>
              var l := Establish(workflow.prims, workflow.world, runId, GrowthsOf(cs)[0]);
              l.Some? ==> workflow.saved == old(workflow.saved) + Decisions(cs) + SavedLineage(l.value)
    ensures retained.Some? ==>
              && unchanged(workflow)
              && r == if retained.value.requirements == PolicyRequirementsOf(cs) then Ok(retained.value)
                      else Err(ProofPolicyChangedAfterReview)
    ensures r.Ok? ==> r.value.requirements == PolicyRequirementsOf(cs)
  {
    hide Eligible, GrowthsOf, Establish, HasNumericConsistency;
    var required := PolicyRequirementsOf(cs);
    var outcome := retained;
    if outcome.None? {
      outcome := workflow.Execute(runId, cs);
      PoliciesAgreeExactlyWithoutNumericConsistency(cs);
    }
    if outcome.None? {
      return Err(WorkflowRaised);
    }
    if outcome.value.requirements != required {
      return Err(ProofPolicyChangedAfterReview);
    }
    return Ok(outcome.value);
  }

  // ---- Workflow and gate compose --------------------------------------------------------

  /** The submission carries this outcome and the run's calculations. */
  ghost predicate Submits(s: Submission, outcome: Outcome, runId: string, cs: seq<Calculation>) {
    && s.review.runId == runId && s.requirements == outcome.requirements && s.proofs == outcome.proofs
    && s.calculations == Some(Keyed(cs))
    && s.commitments == Some(outcome.commitments) && s.verifications == Some(outcome.verifications)
    && s.artifacts == Some(outcome.artifacts)
  }

  function Keyed(cs: seq<Calculation>): (d: Dict<Calculation>)
    ensures |d| == |cs| && forall i :: 0 <= i < |cs| ==> d[i] == (cs[i].id, cs[i])
  {
    seq(|cs|, i requires 0 <= i < |cs| => (cs[i].id, cs[i]))
  }

  lemma {:induction false} OneGrowth(cs: seq<Calculation>, g: Calculation) returns (k: nat)
    requires GrowthsOf(cs) == [g]
    ensures k < |cs| && cs[k] == g && forall i :: 0 <= i < |cs| && i != k ==> cs[i].formulaId != FORMULA_ID
  {
    var last := |cs| - 1;
    var init := cs[..last];
    assert cs == init + [cs[last]];
    if cs[last].formulaId == FORMULA_ID {
      assert GrowthsOf(init) == [];
      k := last;
      forall i | 0 <= i < last ensures cs[i].formulaId != FORMULA_ID {
        assert init[i] in init && init[i] !in GrowthsOf(init);
      }
    } else {
      k := OneGrowth(init, g);
      assert forall i :: 0 <= i < last ==> init[i] == cs[i];
    }
  }

  /** In the run's dictionary the growth calculation is found under its id, and only it must be proved. */
  lemma GrowthIsRequired(s: Submission, outcome: Outcome, runId: string, cs: seq<Calculation>, growth: Calculation)
    requires Eligible(runId, cs) && GrowthsOf(cs) == [growth]
    requires Submits(s, outcome, runId, cs) && outcome.requirements == RequirementsOf(cs)
    ensures LookupIn(s.calculations, growth.id) == Some(growth)
    ensures RequiredIds(s) == {growth.id}
    ensures growth.runId == runId && growth.formulaId == FORMULA_ID
  {
    hide GrowthsOf;
    var k := OneGrowth(cs, growth);
    LookupAt(Keyed(cs), k);
    assert s.requirements[k] == (growth.id, MustProve);
    assert growth in GrowthsOf(cs);
  }

  /** A failed outcome never passes the gate. */
  lemma FailedOutcomeIsNeverReleased(prims: Primitives, s: Submission, runId: string, cs: seq<Calculation>,
                                     growth: Calculation)
    requires Eligible(runId, cs) && GrowthsOf(cs) == [growth]
    requires Submits(s, FailedOutcome(RequirementsOf(cs)), runId, cs)
    ensures Objections(prims, s) != []
  {
    hide Objections, Eligible, GrowthsOf, Strict, Submits;
    GrowthIsRequired(s, FailedOutcome(RequirementsOf(cs)), runId, cs, growth);
    AllowedExactlyWhenReleasable(prims, s);
    assert s.proofs == [] by { NoProofs(s, runId, cs); }
    assert !Proved(prims, s, growth.id);
  }

  lemma NoProofs(s: Submission, runId: string, cs: seq<Calculation>)
    requires Submits(s, FailedOutcome(RequirementsOf(cs)), runId, cs)
    ensures s.proofs == []
  {
  }

  /** The established lineage, seen by the gate: for the pinned image and an unchanged receipt that is not
      empty, the proof stands, under strict lineage exactly when the calculation has an implementation
      hash of its own rather than only the deprecated code hash. */
  lemma EstablishedProofStands(prims: Primitives, world: World, s: Submission, runId: string, growth: Calculation,
                               l: Lineage)
    requires Establish(prims, world, runId, growth) == Some(l)
    requires s.review.runId == runId && LookupIn(s.calculations, growth.id) == Some(growth) && growth.runId == runId
    requires LookupIn(s.commitments, growth.id) == Some(l.commitment)
    requires LookupIn(s.verifications, growth.id) == Some(l.verification)
    requires LookupIn(s.artifacts, growth.id) == Some(l.artifact)
    requires l.proof.imageId == EXPECTED_IMAGE_ID
    requires l.artifact.ref in s.files && s.files[l.artifact.ref] == Content(l.artifact.size, l.artifact.contentHash)
    requires l.artifact.size > 0 && l.artifact.ref != ""
    ensures Strict(s) ==> (Stands(prims, s, growth.id, l.proof) <==> Given(growth.implementationHash))
    ensures !Strict(s) ==> Stands(prims, s, growth.id, l.proof)
  {
    hide Strict, Establish, RecordComplete, CalculationBinds, CommitmentBinds, VerificationBinds, ArtifactBinds;
    var input := EstablishedLineage(prims, world, runId, growth, l);
    EstablishedRecord(s, growth, l, input);
    EstablishedCommitment(prims, s, growth, l, input);
  }

  /** What an established lineage looks like. */
  lemma EstablishedLineage(prims: Primitives, world: World, runId: string, growth: Calculation, l: Lineage)
    returns (input: ProofInput)
    requires Establish(prims, world, runId, growth) == Some(l)
    ensures l.commitment == CommitmentOf(runId, growth, input)
    ensures IsLineage(runId, growth, input, l)
    ensures input.runId == growth.runId && input.calculationId == growth.id
            && input.implementationHash == BoundHash(growth) != ""
    ensures input.evidenceRefs == growth.evidenceIds && input.inputCommitment != ""
            && input.expectedOutputCommitment != ""
    ensures growth.formulaId == FORMULA_ID
    ensures Expected(prims, growth) == Expect(input) <==> Given(growth.implementationHash)
  {
    hide BuildInput, Expected;
    input := BuildInput(prims, growth).value;
    BuiltFromCanonical(prims, growth, input);
    GateExpectsWhatWasBuilt(prims, growth, input);
  }

  /** Proof, verification and artifact share every identity. */
  predicate IsLineage(runId: string, growth: Calculation, input: ProofInput, l: Lineage) {
    var p, v, a := l.proof, l.verification, l.artifact;
    && p.runId == runId && p.calculationId == growth.id && p.backend == BACKEND && p.programId == FORMULA_ID
    && p.status == VerifiedStatus && p.implementationHash == BoundHash(growth)
    && p.inputCommitment == input.inputCommitment
    && p.imageId != "" && Given(p.receiptHash) && Given(p.journalHash) && p.receiptRef == Some(a.ref)
    && v.proofId == p.id && v.verifier == HOST_VERIFIER && v.status == VerifiedStatus && v.verified
    && v.imageId == p.imageId && Some(v.receiptHash) == p.receiptHash && Some(v.journalHash) == p.journalHash
    && a.proofId == p.id && a.artifactType == RECEIPT_TYPE && Some(a.contentHash) == p.receiptHash
  }

  lemma EstablishedRecord(s: Submission, growth: Calculation, l: Lineage, input: ProofInput)
    requires IsLineage(s.review.runId, growth, input, l) && BoundHash(growth) != "" && input.inputCommitment != ""
    requires LookupIn(s.calculations, growth.id) == Some(growth) && growth.runId == s.review.runId
             && growth.formulaId == FORMULA_ID
    requires LookupIn(s.verifications, growth.id) == Some(l.verification)
    requires LookupIn(s.artifacts, growth.id) == Some(l.artifact)
    requires l.proof.imageId == EXPECTED_IMAGE_ID && l.artifact.size > 0 && l.artifact.ref != ""
    requires l.artifact.ref in s.files && s.files[l.artifact.ref] == Content(l.artifact.size, l.artifact.contentHash)
    ensures RecordComplete(s, growth.id, l.proof) && VerificationBinds(s, growth.id, l.proof)
            && ArtifactBinds(s, growth.id, l.proof)
    ensures Given(growth.implementationHash) ==> CalculationBinds(s, growth.id, l.proof)
    ensures !Strict(s) ==> CalculationBinds(s, growth.id, l.proof)
  {
    hide Strict;
  }

  lemma EstablishedCommitment(prims: Primitives, s: Submission, growth: Calculation, l: Lineage, input: ProofInput)
    requires IsLineage(s.review.runId, growth, input, l) && l.commitment == CommitmentOf(s.review.runId, growth, input)
    requires input.implementationHash == BoundHash(growth) && input.evidenceRefs == growth.evidenceIds
    requires input.expectedOutputCommitment != ""
    requires LookupIn(s.calculations, growth.id) == Some(growth)
    requires LookupIn(s.commitments, growth.id) == Some(l.commitment)
    requires Expected(prims, growth) == Expect(input) <==> Given(growth.implementationHash)
    ensures Strict(s) ==> (CommitmentBinds(prims, s, growth.id, l.proof) <==> Given(growth.implementationHash))
    ensures !Strict(s) ==> CommitmentBinds(prims, s, growth.id, l.proof)
  {
    hide Strict, Expected;
    if !Given(growth.implementationHash) {
      NothingExpected(prims, growth);
    }
  }

  /** A verified outcome that is submitted unchanged draws no objection from the loop over the proofs and
      none from the key sets, under strict lineage exactly when the calculation has an implementation
      hash of its own. */
  lemma VerifiedOutcomeAddsNoObjection(prims: Primitives, world: World, s: Submission, runId: string,
                                       cs: seq<Calculation>, growth: Calculation, l: Lineage)
    requires Eligible(runId, cs) && GrowthsOf(cs) == [growth] && Establish(prims, world, runId, growth) == Some(l)
    requires Submits(s, VerifiedOutcome(RequirementsOf(cs), growth.id, l), runId, cs)
    requires l.proof.imageId == EXPECTED_IMAGE_ID
    requires l.artifact.ref in s.files && s.files[l.artifact.ref] == Content(l.artifact.size, l.artifact.contentHash)
    requires l.artifact.size > 0 && l.artifact.ref != ""
    ensures SetObjections(s) == []
    ensures ProofObjections(prims, s, |s.requirements|) == [] <==> (Strict(s) ==> Given(growth.implementationHash))
    ensures !Bursts(prims, s, growth.id)
  {
    hide Strict, Eligible, GrowthsOf, Establish, Stands, ProofObjections, Expected, SetObjections, RequirementsOf;
    GrowthIsRequired(s, VerifiedOutcome(RequirementsOf(cs), growth.id, l), runId, cs, growth);
    SingleEntry(growth.id, Full(l.proof));
    SingleEntry(growth.id, l.commitment);
    SingleEntry(growth.id, l.verification);
    SingleEntry(growth.id, l.artifact);
    EstablishedProofStands(prims, world, s, runId, growth, l);
    NoSetObjection(s);
    NoProofObjection(prims, s, |s.requirements|);
    OnlyGrowthIsRequired(prims, s, growth.id);
    EstablishedDoesNotBurst(prims, world, runId, growth);
  }

  lemma OnlyGrowthIsRequired(prims: Primitives, s: Submission, id: string)
    requires RequiredIds(s) == {id}
    ensures (forall i :: 0 <= i < |s.requirements| && s.requirements[i].1 == MustProve ==>
               Proved(prims, s, s.requirements[i].0))
            <==> Proved(prims, s, id)
  {
    hide Proved;
    assert id in RequiredIds(s);
    assert forall i :: 0 <= i < |s.requirements| && s.requirements[i].1 == MustProve ==>
             s.requirements[i].0 in RequiredIds(s);
  }

  lemma EstablishedDoesNotBurst(prims: Primitives, world: World, runId: string, growth: Calculation)
    requires Establish(prims, world, runId, growth).Some?
    ensures !Expected(prims, growth).Raises?
  {
    hide BuildInput, Expected;
    var input := BuildInput(prims, growth).value;
    BuiltFromCanonical(prims, growth, input);
    GateExpectsWhatWasBuilt(prims, growth, input);
    if !Given(growth.implementationHash) {
      NothingExpected(prims, growth);
    }
  }

  lemma NothingExpected(prims: Primitives, growth: Calculation)
    requires !Given(growth.implementationHash)
    ensures Expected(prims, growth) == NoExpectation
  {
  }

  lemma EstablishedPriorIsPositive(prims: Primitives, world: World, runId: string, cs: seq<Calculation>,
                                   growth: Calculation)
    requires GrowthsOf(cs) == [growth] && Establish(prims, world, runId, growth).Some?
    ensures forall e :: e in Keyed(cs) ==> GrowthHasPositivePrior(e)
  {
    hide Value, ToMinorUnits, GrowthOf, Denotes, BuildProofInput;
    forall e | e in Keyed(cs) ensures GrowthHasPositivePrior(e) {
      var i :| 0 <= i < |cs| && Keyed(cs)[i] == e;
      assert e.1.formulaId == FORMULA_ID ==> e.1 in GrowthsOf(cs);
    }
  }

  /** The whole gate on a verified outcome that is submitted unchanged: under a clean review it is allowed,
      except that under strict lineage a calculation with only the deprecated code hash is not. */
  lemma VerifiedOutcomeIsAllowedExactly(prims: Primitives, world: World, s: Submission, runId: string,
                                        cs: seq<Calculation>, growth: Calculation, l: Lineage)
    requires Eligible(runId, cs) && GrowthsOf(cs) == [growth] && Establish(prims, world, runId, growth) == Some(l)
    requires Submits(s, VerifiedOutcome(RequirementsOf(cs), growth.id, l), runId, cs)
    requires l.proof.imageId == EXPECTED_IMAGE_ID
    requires l.artifact.ref in s.files && s.files[l.artifact.ref] == Content(l.artifact.size, l.artifact.contentHash)
    requires l.artifact.size > 0 && l.artifact.ref != ""
    ensures Objections(prims, s) == [] <==> ReviewClean(s) && (Strict(s) ==> Given(growth.implementationHash))
  {
    hide Strict, Eligible, GrowthsOf, Establish, ProofObjections, SetObjections, ReviewObjections, PriorObjections,
         RequirementsOf, GrowthHasPositivePrior, ReviewClean;
    VerifiedOutcomeAddsNoObjection(prims, world, s, runId, cs, growth, l);
    EstablishedPriorIsPositive(prims, world, runId, cs, growth);
    NoReviewObjection(s);
    NoPriorObjection(OrEmpty(s.calculations));
  }

  // ---- A calculation that has only the deprecated code hash ------------------------------

  const SamplePrims := Primitives((_, _, _, _, _, _) => "in", _ => "out", _ => 0.1)

  const SampleWorld := World(_ => true, true, true, SampleProver, _ => true, map["/r" := Content(1, "h")], _ => true)

  function SampleProver(input: ProofInput): Option<ProofResult> {
    Some(ProofResult(ValidStatus, Some("/r"), Attestation(Some(EXPECTED_IMAGE_ID), Some("h"), Some("j"), true, true)))
  }

  function SampleGrowth(hash: Option<string>): Calculation {
    Calculation("CALC", "RUN", FORMULA_ID, CAPABILITY_ID, hash, Some("code"), ["E1", "E2"],
                Snapshot(Some(Finite(false, 100, 0)), Some(Finite(false, 110, 0)), Some("USD")),
                Some(Finite(false, 1, -1)))
  }

  const SampleReview :=
    ReviewRecord("RUN", Pass, REVIEWER, [], ["E1", "E2"], ["CALC"], [], [], [], ["CALC"], Some("d"), None)

  /** A strict submission of the run with one growth calculation, clean but for what its proof says. */
  function SampleSubmission(growth: Calculation, l: Lineage): Submission {
    var o := VerifiedOutcome(RequirementsOf([growth]), growth.id, l);
    Submission(SampleReview, None, o.requirements, o.proofs, Some(Keyed([growth])), Some(["E1", "E2"]),
               Some([]), Some([]),
               Some([]), Some(0), Some(o.commitments), Some(o.verifications), Some(o.artifacts), Some("d"), false,
               SampleWorld.files)
  }

  lemma SampleValues()
    ensures Value(Finite(false, 100, 0)) == 100.0 && Value(Finite(false, 110, 0)) == 110.0
    ensures Denotes(Some(Finite(false, 1, -1)), 0.1)
  {
    assert Pow10(0) == 1 && Pow10(1) == 10;
  }

  lemma SampleHasMinorUnits()
    ensures ToMinorUnits(Finite(false, 100, 0), Finite(false, 110, 0), "USD").Some?
  {
    hide ToMinorUnits, Value;
    var scale := ScaleOf(Finite(false, 100, 0), Finite(false, 110, 0));
    assert scale == 0 && Pow10(scale) == 1;
    SampleValues();
    AcceptedExactlyWhenItFits(Finite(false, 100, 0), Finite(false, 110, 0), "USD");
  }

  lemma SampleIsBuilt(hash: Option<string>)
    ensures BuildInput(SamplePrims, SampleGrowth(hash)).Some?
  {
    hide ToMinorUnits, GrowthOf, Value, Denotes;
    SampleValues();
    SampleHasMinorUnits();
    assert "E1"[1] != "E2"[1];
  }

  lemma SampleIsEstablished(hash: Option<string>)
    ensures var l := Establish(SamplePrims, SampleWorld, "RUN", SampleGrowth(hash));
            && l.Some? && l.value.proof.imageId == EXPECTED_IMAGE_ID
            && l.value.artifact.ref == "/r" && l.value.artifact.size == 1 && l.value.artifact.contentHash == "h"
  {
    hide BuildInput;
    SampleIsBuilt(hash);
  }

  lemma SampleIsClean(growth: Calculation, l: Lineage)
    requires growth.id == "CALC" && growth.formulaId == FORMULA_ID
    ensures Strict(SampleSubmission(growth, l)) && ReviewClean(SampleSubmission(growth, l))
  {
    var s := SampleSubmission(growth, l);
    assert RequiredIds(s) == {"CALC"} && KeySet(s.calculations.value) == {"CALC"} by {
      assert s.requirements[0] == ("CALC", MustProve) && s.calculations.value[0].0 == "CALC";
    }
    assert SetOf(["CALC"]) == {"CALC"};
  }

  /** The workflow proves a calculation that has a code hash, with or without an implementation hash; the
      gate, with all else in order, releases it only with one. */
  lemma CodeHashAloneIsProvedAndNotReleased(hash: Option<string>)
    ensures var (runId, growth) := ("RUN", SampleGrowth(hash));
            var l := Establish(SamplePrims, SampleWorld, runId, growth);
            && growth.codeHash == Some("code") && Eligible(runId, [growth]) && GrowthsOf([growth]) == [growth]
            && l.Some?
            && var s := SampleSubmission(growth, l.value);
               && Submits(s, VerifiedOutcome(RequirementsOf([growth]), growth.id, l.value), runId, [growth])
               && Strict(s) && ReviewClean(s)
               && (Objections(SamplePrims, s) == [] <==> Given(hash))
  {
    hide Establish, Strict, ReviewClean, Objections;
    var growth := SampleGrowth(hash);
    SampleIsEstablished(hash);
    var l := Establish(SamplePrims, SampleWorld, "RUN", growth).value;
    SampleIsClean(growth, l);
    assert GrowthsOf([growth]) == [growth];
    VerifiedOutcomeIsAllowedExactly(SamplePrims, SampleWorld, SampleSubmission(growth, l), "RUN", [growth], growth, l);
  }
}

/** The release gate: fail-closed checks of the review, its inputs, and the proof lineage of every
    calculation that must be proved. */
module ReleaseGate {
  import opened Wrappers
  import opened MinorUnits
  import opened ProofDomain
  import opened GrowthCommitment

  const REVIEWER := "independent-financial-review-v2"

  const STRICT_FORMULAS: set<string> := {
    "operating_cash_flow_plus_signed_capex_divided_by_revenue_v1",
    "sma_close_50_v1",
    "sma_close_200_v1",
    "rsi_close_14_simple_average_v1",
    "macd_line_close_12_26_adjust_false_v1",
    "macd_signal_close_12_26_9_adjust_false_v1",
    "macd_histogram_close_12_26_9_adjust_false_v1",
    "latest_volume_to_average_volume_20_v1"}

  datatype ReviewStatus = Pass | Review | Block

  /** JSON contexts are compared only for equality. */
  datatype ReviewRecord = ReviewRecord(
    runId: string,
    status: ReviewStatus,
    reviewer: string,
    checkCodes: seq<string>,
    evidenceRefs: seq<string>,
    calculationRefs: seq<string>,
    metricRefs: seq<string>,
    claimRefs: seq<string>,
    judgmentRefs: seq<string>,
    requiredProofRefs: seq<string>,
    snapshotHash: Option<string>,
    context: Option<string>)

  /** A proof entry is a full record or only a result. */
  datatype ProofEntry = Full(record: ProofRecord) | ResultOnly(status: ProofStatus)

  /** `recomputedHash` is the digest of the review inputs, `None` when they cannot be digested;
      `files` is what is readable under each path. */
  datatype Submission = Submission(
    review: ReviewRecord,
    context: Option<string>,
    requirements: Dict<Requirement>,
    proofs: Dict<ProofEntry>,
    calculations: Option<Dict<Calculation>>,
    evidence: Option<seq<string>>,
    metrics: Option<seq<string>>,
    claims: Option<seq<string>>,
    judgments: Option<seq<Option<string>>>,
    runAsOf: Option<nat>,
    commitments: Option<Dict<Commitment>>,
    verifications: Option<Dict<Verification>>,
    artifacts: Option<Dict<Artifact>>,
    recomputedHash: Option<string>,
    devMode: bool,
    files: map<string, Content>)

  datatype Label = ProofLabel | CommitmentLabel | VerificationLabel | ArtifactLabel

  datatype Reason =
    | RequirementContextMismatch
    | ReviewNotPassed(status: ReviewStatus)
    | StrictReviewIdentityInvalid
    | InputSnapshotMissing
    | InputSnapshotMismatch
    | DevModeForbidden
    | ProofRequirementMismatch
    | PriorRevenueNotPositive
    | SetMismatch(kind: Label)
    | ProofMissing(id: string)
    | ProofUnproved(reached: ProofStatus, id: string)
    | ProofInvalid(id: string)

  datatype ReleaseDecision = ReleaseDecision(allowed: bool, reasons: seq<Reason>)

  // ---- The conditions -------------------------------------------------------------------

  function SetOf<T(==)>(s: seq<T>): set<T> {
    set x | x in s
  }

  function RequiredIds(s: Submission): set<string> {
    set i | 0 <= i < |s.requirements| && s.requirements[i].1 == MustProve :: s.requirements[i].0
  }

  /** Extended financial calculations or any trace of the independent review make the lineage strict. */
  predicate Strict(s: Submission) {
    || s.review.reviewer == REVIEWER
    || (exists c :: c in s.review.checkCodes && "FIN_" <= c)
    || s.review.metricRefs != [] || s.review.claimRefs != [] || s.review.requiredProofRefs != []
    || (s.calculations.Some? && exists e :: e in s.calculations.value && e.1.formulaId in STRICT_FORMULAS)
  }

  predicate InputsComplete(s: Submission) {
    s.calculations.Some? && s.evidence.Some? && s.metrics.Some? && s.claims.Some? && s.judgments.Some?
    && s.runAsOf.Some?
  }

  function JudgmentIds(js: seq<Option<string>>): set<string> {
    set j | j in js && j.Some? :: j.value
  }

  predicate SnapshotMatches(s: Submission)
    requires InputsComplete(s)
  {
    && s.recomputedHash.Some? && s.recomputedHash == s.review.snapshotHash
    && KeySet(s.calculations.value) == SetOf(s.review.calculationRefs)
    && SetOf(s.evidence.value) == SetOf(s.review.evidenceRefs)
    && SetOf(s.metrics.value) == SetOf(s.review.metricRefs)
    && SetOf(s.claims.value) == SetOf(s.review.claimRefs)
    && JudgmentIds(s.judgments.value) == SetOf(s.review.judgmentRefs)
  }

  predicate PriorIsPositive(c: Calculation) {
    c.snapshot.prior.Some? && c.snapshot.prior.value.Finite? && Value(c.snapshot.prior.value) > 0.0
  }

  predicate GrowthHasPositivePrior(e: (string, Calculation)) {
    e.1.formulaId == FORMULA_ID ==> PriorIsPositive(e.1)
  }

  function OrEmpty<T>(d: Option<Dict<T>>): Dict<T> {
    if d.Some? then d.value else []
  }

  function LookupIn<T>(d: Option<Dict<T>>, id: string): Option<T> {
    if d.Some? then Lookup(d.value, id) else None
  }

  predicate RecordComplete(s: Submission, id: string, p: ProofRecord) {
    && p.status == VerifiedStatus && p.runId == s.review.runId && p.calculationId == id
    && p.imageId != "" && p.implementationHash != "" && p.inputCommitment != ""
    && Given(p.receiptRef) && Given(p.receiptHash) && Given(p.journalHash)
    && (Strict(s) ==> p.backend == BACKEND && p.imageId == EXPECTED_IMAGE_ID)
  }

  predicate CalculationBinds(s: Submission, id: string, p: ProofRecord) {
    var c := LookupIn(s.calculations, id);
    s.calculations.Some? && Strict(s) ==>
      && c.Some? && c.value.runId == s.review.runId
      && c.value.implementationHash == Some(p.implementationHash)
      && p.programId == c.value.formulaId
  }

  /** The gate's own recomputation of the commitment, when it can be made. */
  predicate Recomputed(prims: Primitives, c: Calculation, m: Commitment) {
    match Expected(prims, c)
    case Expect(input) =>
      && m.canonical == input.canonical && m.inputCommitment == input.inputCommitment
      && m.expectedOutputCommitment == input.expectedOutputCommitment
    case _ => false
  }

  predicate CommitmentBinds(prims: Primitives, s: Submission, id: string, p: ProofRecord) {
    var c, m := LookupIn(s.calculations, id), LookupIn(s.commitments, id);
    if s.commitments.None? then !Strict(s)
    else
      && m.Some? && m.value.runId == s.review.runId && m.value.calculationId == id
      && m.value.implementationHash == p.implementationHash && m.value.inputCommitment == p.inputCommitment
      && (Strict(s) ==>
            && c.Some? && m.value.formulaId == c.value.formulaId && m.value.capabilityId == c.value.capabilityId
            && m.value.evidenceRefs == c.value.evidenceIds && m.value.expectedOutputCommitment != ""
            && Recomputed(prims, c.value, m.value))
  }

  predicate VerificationBinds(s: Submission, id: string, p: ProofRecord) {
    var v := LookupIn(s.verifications, id);
    if s.verifications.None? then !Strict(s)
    else
      && v.Some? && v.value.proofId == p.id && v.value.status == VerifiedStatus && v.value.verified
      && v.value.imageId == p.imageId && Some(v.value.receiptHash) == p.receiptHash
      && Some(v.value.journalHash) == p.journalHash
      && (Strict(s) ==> v.value.verifier == HOST_VERIFIER)
  }

  predicate ArtifactBinds(s: Submission, id: string, p: ProofRecord) {
    var a := LookupIn(s.artifacts, id);
    if s.artifacts.None? then !Strict(s)
    else
      && a.Some? && a.value.proofId == p.id && Some(a.value.ref) == p.receiptRef
      && Some(a.value.contentHash) == p.receiptHash
      && a.value.size > 0
      && (Strict(s) ==>
            && a.value.artifactType == RECEIPT_TYPE
            && a.value.ref in s.files && s.files[a.value.ref] == Content(a.value.size, a.value.contentHash))
  }

  /** The proof of one calculation stands: all identities agree. */
  predicate Stands(prims: Primitives, s: Submission, id: string, p: ProofRecord) {
    && RecordComplete(s, id, p) && CalculationBinds(s, id, p) && CommitmentBinds(prims, s, id, p)
    && VerificationBinds(s, id, p) && ArtifactBinds(s, id, p)
  }

  /** The recomputation for this id ends in an unguarded error. */
  predicate Bursts(prims: Primitives, s: Submission, id: string) {
    && Lookup(s.proofs, id).Some? && Lookup(s.proofs, id).value.Full?
    && s.commitments.Some? && LookupIn(s.calculations, id).Some?
    && Expected(prims, LookupIn(s.calculations, id).value).Raises?
  }

  // ---- Objections -----------------------------------------------------------------------

  function If(b: bool, r: Reason): seq<Reason> {
    if b then [r] else []
  }

  function ReviewObjections(s: Submission): seq<Reason> {
    If(s.review.context != s.context, RequirementContextMismatch)
    + If(s.review.status != Pass, ReviewNotPassed(s.review.status))
    + If(Strict(s) && s.review.reviewer != REVIEWER, StrictReviewIdentityInvalid)
    + If(Strict(s) && !InputsComplete(s), InputSnapshotMissing)
    + If(Strict(s) && InputsComplete(s) && !SnapshotMatches(s), InputSnapshotMismatch)
    + If(Strict(s) && s.devMode, DevModeForbidden)
    + If(Strict(s) && SetOf(s.review.requiredProofRefs) != RequiredIds(s), ProofRequirementMismatch)
  }

  function PriorObjections(cs: Dict<Calculation>): seq<Reason> {
    if cs == [] then []
    else PriorObjections(cs[..|cs| - 1]) + If(!GrowthHasPositivePrior(cs[|cs| - 1]), PriorRevenueNotPositive)
  }

  function SetObjections(s: Submission): seq<Reason> {
    If(Strict(s) && KeySet(s.proofs) != RequiredIds(s), SetMismatch(ProofLabel))
    + If(Strict(s) && KeySet(OrEmpty(s.commitments)) != RequiredIds(s), SetMismatch(CommitmentLabel))
    + If(Strict(s) && KeySet(OrEmpty(s.verifications)) != RequiredIds(s), SetMismatch(VerificationLabel))
    + If(Strict(s) && KeySet(OrEmpty(s.artifacts)) != RequiredIds(s), SetMismatch(ArtifactLabel))
  }

  function Objection(prims: Primitives, s: Submission, id: string): seq<Reason> {
    var entry: Option<ProofEntry> := Lookup(s.proofs, id);
    match entry
    case None => [ProofMissing(id)]
    case Some(ResultOnly(status)) => [ProofUnproved(status, id)]
    case Some(Full(p)) => If(!Stands(prims, s, id, p), ProofInvalid(id))
  }

  /** What the loop over the first `n` requirements objects to. */
  function ProofObjections(prims: Primitives, s: Submission, n: nat): seq<Reason>
    requires n <= |s.requirements|
  {
    if n == 0 then []
    else ProofObjections(prims, s, n - 1)
         + if s.requirements[n - 1].1 == MustProve then Objection(prims, s, s.requirements[n - 1].0) else []
  }

  function Objections(prims: Primitives, s: Submission): seq<Reason> {
    ReviewObjections(s) + PriorObjections(OrEmpty(s.calculations)) + SetObjections(s)
    + ProofObjections(prims, s, |s.requirements|)
  }

  // ---- The gate -------------------------------------------------------------------------

  method ReviewReasons(s: Submission) returns (reasons: seq<Reason>)
    ensures reasons == ReviewObjections(s)
  {
    hide Strict, SnapshotMatches, InputsComplete, RequiredIds, If, SetOf;
    var strict := Strict(s);
    reasons := If(s.review.context != s.context, RequirementContextMismatch);
    reasons := reasons + If(s.review.status != Pass, ReviewNotPassed(s.review.status));
    reasons := reasons + If(strict && s.review.reviewer != REVIEWER, StrictReviewIdentityInvalid);
    reasons := reasons + If(strict && !InputsComplete(s), InputSnapshotMissing);
    reasons := reasons + If(strict && InputsComplete(s) && !SnapshotMatches(s), InputSnapshotMismatch);
    reasons := reasons + If(strict && s.devMode, DevModeForbidden);
    reasons := reasons + If(strict && SetOf(s.review.requiredProofRefs) != RequiredIds(s), ProofRequirementMismatch);
  }

  method PriorReasons(cs: Dict<Calculation>) returns (reasons: seq<Reason>)
    ensures reasons == PriorObjections(cs)
  {
    hide Value;
    reasons := [];
    for i := 0 to |cs|
      invariant reasons == PriorObjections(cs[..i])
    {
      assert cs[..i + 1][..i] == cs[..i];
      var c := cs[i].1;
      if c.formulaId != FORMULA_ID {
        continue;
      }
      if !PriorIsPositive(c) {
        reasons := reasons + [PriorRevenueNotPositive];
      }
    }
    assert cs[..|cs|] == cs;
  }

  method SetReasons(s: Submission) returns (reasons: seq<Reason>)
    ensures reasons == SetObjections(s)
  {
    hide Strict, RequiredIds;
    reasons := [];
    if Strict(s) {
      var labelled := [(ProofLabel, KeySet(s.proofs)), (CommitmentLabel, KeySet(OrEmpty(s.commitments))),
                       (VerificationLabel, KeySet(OrEmpty(s.verifications))),
                       (ArtifactLabel, KeySet(OrEmpty(s.artifacts)))];
      var required := RequiredIds(s);
      ghost var mismatch := (i: int) requires 0 <= i < 4 => If(labelled[i].1 != required, SetMismatch(labelled[i].0));
      for i := 0 to 4
        invariant reasons == (if i > 0 then mismatch(0) else []) + (if i > 1 then mismatch(1) else [])
                             + (if i > 2 then mismatch(2) else []) + (if i > 3 then mismatch(3) else [])
      {
        if labelled[i].1 != required {
          reasons := reasons + [SetMismatch(labelled[i].0)];
        }
      }
    }
  }

  /** The checks of one proof, folded into one flag; `None` when the recomputation fails unguarded. */
  method CheckProof(prims: Primitives, s: Submission, id: string, p: ProofRecord) returns (invalid: Option<bool>)
    requires Lookup(s.proofs, id) == Some(Full(p))
    ensures invalid.None? <==> Bursts(prims, s, id)
    ensures invalid.Some? ==> invalid.value == !Stands(prims, s, id, p)
  {
    hide Strict, Expected, RecordComplete;
    var bad := !RecordComplete(s, id, p);
    var calculation := LookupIn(s.calculations, id);
    if s.calculations.Some? && Strict(s) {
      bad := bad || calculation.None? || calculation.value.runId != s.review.runId
             || calculation.value.implementationHash != Some(p.implementationHash)
             || p.programId != calculation.value.formulaId;
    }
    assert bad == !(RecordComplete(s, id, p) && CalculationBinds(s, id, p));
    if s.commitments.Some? {
      if calculation.Some? && Expected(prims, calculation.value).Raises? {
        return None;
      }
      var binds := CommitmentHolds(prims, s, id, p);
      bad := bad || !binds;
    } else if Strict(s) {
      bad := true;
    }
    assert bad == !(RecordComplete(s, id, p) && CalculationBinds(s, id, p) && CommitmentBinds(prims, s, id, p));
    var verified := VerificationHolds(s, id, p);
    var retained := ArtifactHolds(s, id, p);
    return Some(bad || !verified || !retained);
  }

  method CommitmentHolds(prims: Primitives, s: Submission, id: string, p: ProofRecord) returns (binds: bool)
    requires s.commitments.Some?
    ensures binds == CommitmentBinds(prims, s, id, p)
  {
    hide Strict, Expected;
    var calculation, commitment := LookupIn(s.calculations, id), LookupIn(s.commitments, id);
    var expected := if calculation.Some? then Expected(prims, calculation.value) else NoExpectation;
    var invalid := commitment.None? || commitment.value.runId != s.review.runId || commitment.value.calculationId != id
                   || commitment.value.implementationHash != p.implementationHash
                   || commitment.value.inputCommitment != p.inputCommitment;
    if !invalid && Strict(s) {
      var m := commitment.value;
      invalid := calculation.None? || m.formulaId != calculation.value.formulaId
                 || m.capabilityId != calculation.value.capabilityId || m.evidenceRefs != calculation.value.evidenceIds
                 || m.expectedOutputCommitment == "" || !expected.Expect?
                 || m.canonical != expected.input.canonical || m.inputCommitment != expected.input.inputCommitment
                 || m.expectedOutputCommitment != expected.input.expectedOutputCommitment;
    }
    binds := !invalid;
  }

  method VerificationHolds(s: Submission, id: string, p: ProofRecord) returns (binds: bool)
    ensures binds == VerificationBinds(s, id, p)
  {
    hide Strict;
    if s.verifications.None? {
      return !Strict(s);
    }
    var v := Lookup(s.verifications.value, id);
    binds := !(v.None? || v.value.proofId != p.id || v.value.status != VerifiedStatus || !v.value.verified
               || v.value.imageId != p.imageId || Some(v.value.receiptHash) != p.receiptHash
               || Some(v.value.journalHash) != p.journalHash
               || (Strict(s) && v.value.verifier != HOST_VERIFIER));
  }

  method ArtifactHolds(s: Submission, id: string, p: ProofRecord) returns (binds: bool)
    ensures binds == ArtifactBinds(s, id, p)
  {
    hide Strict;
    if s.artifacts.None? {
      return !Strict(s);
    }
    var a := Lookup(s.artifacts.value, id);
    var invalid := a.None? || a.value.proofId != p.id || Some(a.value.ref) != p.receiptRef
                   || Some(a.value.contentHash) != p.receiptHash || a.value.size <= 0
                   || (Strict(s) && a.value.artifactType != RECEIPT_TYPE);
    if a.Some? && Strict(s) {
      invalid := invalid || a.value.ref !in s.files;
      if a.value.ref in s.files {
        var content := s.files[a.value.ref];
        invalid := invalid || a.value.size != content.size || a.value.contentHash != content.hash;
      }
    }
    binds := !invalid;
  }

  /** Collects every objection in order, and allows exactly when there is none; `None` when the
      recomputation of a commitment fails unguarded. */
  method Evaluate(prims: Primitives, s: Submission) returns (decision: Option<ReleaseDecision>)
    ensures decision.None? <==> exists i :: 0 <= i < |s.requirements| && s.requirements[i].1 == MustProve
                                            && Bursts(prims, s, s.requirements[i].0)
    ensures decision.Some? ==> decision.value == ReleaseDecision(Objections(prims, s) == [], Objections(prims, s))
  {
    hide Stands, Bursts, ReviewObjections, PriorObjections, SetObjections;
    var reasons := ReviewReasons(s);
    if s.calculations.Some? {
      var priors := PriorReasons(s.calculations.value);
      reasons := reasons + priors;
    }
    var sets := SetReasons(s);
    reasons := reasons + sets;
    ghost var header := reasons;
    assert header == ReviewObjections(s) + PriorObjections(OrEmpty(s.calculations)) + SetObjections(s) by {
      NoPriors();
    }
    for i := 0 to |s.requirements|
      invariant reasons == header + ProofObjections(prims, s, i)
      invariant forall j :: 0 <= j < i && s.requirements[j].1 == MustProve ==> !Bursts(prims, s, s.requirements[j].0)
    {
      var (id, requirement) := s.requirements[i];
      if requirement != MustProve {
        continue;
      }
      var entry: Option<ProofEntry> := Lookup(s.proofs, id);
      match entry {
        case None =>
          NoBurst(prims, s, id);
          reasons := reasons + [ProofMissing(id)];
        case Some(ResultOnly(status)) =>
          NoBurst(prims, s, id);
          reasons := reasons + [ProofUnproved(status, id)];
        case Some(Full(p)) =>
          var invalid := CheckProof(prims, s, id, p);
          if invalid.None? {
            return None;
          }
          if invalid.value {
            reasons := reasons + [ProofInvalid(id)];
          }
      }
    }
    return Some(ReleaseDecision(reasons == [], reasons));
  }

  lemma NoPriors()
    ensures PriorObjections([]) == []
  {
  }

  lemma NoBurst(prims: Primitives, s: Submission, id: string)
    requires Lookup(s.proofs, id).None? || Lookup(s.proofs, id).value.ResultOnly?
    ensures !Bursts(prims, s, id)
  {
  }

  // ---- What an allowed release means ----------------------------------------------------

  /** Every condition of a release, stated over the whole submission. */
  ghost predicate Releasable(prims: Primitives, s: Submission) {
    && ReviewClean(s)
    && (forall e :: e in OrEmpty(s.calculations) ==> GrowthHasPositivePrior(e))
    && (Strict(s) ==> LineageComplete(s))
    && (forall id :: id in RequiredIds(s) ==> Proved(prims, s, id))
  }

  predicate ReviewClean(s: Submission) {
    && s.review.context == s.context && s.review.status == Pass
    && (Strict(s) ==>
          && s.review.reviewer == REVIEWER
          && InputsComplete(s) && SnapshotMatches(s)
          && !s.devMode
          && SetOf(s.review.requiredProofRefs) == RequiredIds(s))
  }

  /** The four key sets are exactly the calculations that must be proved. */
  predicate LineageComplete(s: Submission) {
    && KeySet(s.proofs) == RequiredIds(s) && KeySet(OrEmpty(s.commitments)) == RequiredIds(s)
    && KeySet(OrEmpty(s.verifications)) == RequiredIds(s) && KeySet(OrEmpty(s.artifacts)) == RequiredIds(s)
  }

  predicate Proved(prims: Primitives, s: Submission, id: string) {
    Lookup(s.proofs, id).Some? && Lookup(s.proofs, id).value.Full?
    && Stands(prims, s, id, Lookup(s.proofs, id).value.record)
  }

  lemma {:induction false} NoPriorObjection(cs: Dict<Calculation>)
    ensures PriorObjections(cs) == [] <==> forall e :: e in cs ==> GrowthHasPositivePrior(e)
  {
    if cs != [] {
      NoPriorObjection(cs[..|cs| - 1]);
      assert cs == cs[..|cs| - 1] + [cs[|cs| - 1]];
    }
  }

  lemma {:induction false} NoProofObjection(prims: Primitives, s: Submission, n: nat)
    requires n <= |s.requirements|
    ensures ProofObjections(prims, s, n) == [] <==>
            forall i :: 0 <= i < n && s.requirements[i].1 == MustProve ==> Proved(prims, s, s.requirements[i].0)
  {
    hide Stands;
    if n > 0 {
      NoProofObjection(prims, s, n - 1);
    }
  }

  lemma NoReviewObjection(s: Submission)
    ensures ReviewObjections(s) == [] <==> ReviewClean(s)
  {
    hide Strict, SnapshotMatches, InputsComplete, RequiredIds;
  }

  lemma NoSetObjection(s: Submission)
    ensures SetObjections(s) == [] <==> (Strict(s) ==> LineageComplete(s))
  {
    hide Strict, RequiredIds;
  }

  /** The gate objects to nothing exactly when every condition of a release holds. */
  lemma AllowedExactlyWhenReleasable(prims: Primitives, s: Submission)
    ensures Objections(prims, s) == [] <==> Releasable(prims, s)
  {
    hide Strict, Stands, Proved, ReviewClean, LineageComplete, ReviewObjections, PriorObjections, SetObjections,
         GrowthHasPositivePrior;
    NoReviewObjection(s);
    NoPriorObjection(OrEmpty(s.calculations));
    NoSetObjection(s);
    NoProofObjection(prims, s, |s.requirements|);
    assert forall i :: 0 <= i < |s.requirements| && s.requirements[i].1 == MustProve ==>
             s.requirements[i].0 in RequiredIds(s);
  }

  /** Under strict lineage an allowed release has, for each calculation that must be proved, a record, a
      commitment, a verification, a retained receipt and the calculation itself, and their run,
      calculation, implementation, commitment, image, receipt and journal identities all agree. */
  lemma StrictlyAllowedMeansOneLineage(prims: Primitives, s: Submission, id: string)
    requires Strict(s) && Objections(prims, s) == [] && id in RequiredIds(s)
    ensures LineageComplete(s)
    ensures Lookup(s.proofs, id).Some? && Lookup(s.proofs, id).value.Full? && LookupIn(s.commitments, id).Some?
            && LookupIn(s.verifications, id).Some? && LookupIn(s.artifacts, id).Some?
            && LookupIn(s.calculations, id).Some?
    ensures var p, m := Lookup(s.proofs, id).value.record, LookupIn(s.commitments, id).value;
            var v, a := LookupIn(s.verifications, id).value, LookupIn(s.artifacts, id).value;
            var c := LookupIn(s.calculations, id).value;
            && p.status == VerifiedStatus && p.backend == BACKEND && p.programId == c.formulaId == m.formulaId
            && v.status == VerifiedStatus && v.verified && v.verifier == HOST_VERIFIER && a.artifactType == RECEIPT_TYPE
            && p.runId == m.runId == c.runId == s.review.runId
            && p.calculationId == m.calculationId == id
            && m.capabilityId == c.capabilityId && m.evidenceRefs == c.evidenceIds
            && Some(p.implementationHash) == Some(m.implementationHash) == c.implementationHash
            && p.inputCommitment == m.inputCommitment
            && p.imageId == v.imageId == EXPECTED_IMAGE_ID
            && p.receiptHash == Some(v.receiptHash) == Some(a.contentHash) && p.journalHash == Some(v.journalHash)
            && v.proofId == a.proofId == p.id && p.receiptRef == Some(a.ref)
            && a.ref in s.files && s.files[a.ref] == Content(a.size, a.contentHash) && a.size > 0
            && Recomputed(prims, c, m)
  {
    hide Strict, ReviewClean, LineageComplete, SnapshotMatches, GrowthHasPositivePrior, RequiredIds, Objections,
         Expected;
    AllowedExactlyWhenReleasable(prims, s);
    assert InputsComplete(s) by { StrictInputs(s); }
  }

  lemma StrictInputs(s: Submission)
    requires Strict(s) && ReviewClean(s)
    ensures InputsComplete(s)
  {
    hide Strict;
  }

  /** An allowed commitment is exact: its canonical inputs are the calculation's own amounts in minor
      units, and the calculation's output is the quotient of their growth ratio in lowest terms. */
  lemma StrictlyAllowedMeansExactInputs(prims: Primitives, s: Submission, id: string)
    requires Strict(s) && Objections(prims, s) == [] && id in RequiredIds(s)
    ensures LookupIn(s.calculations, id).Some? && LookupIn(s.commitments, id).Some?
    ensures var c, m := LookupIn(s.calculations, id).value, LookupIn(s.commitments, id).value;
            && c.snapshot.prior.Some? && c.snapshot.prior.value.Finite? && c.snapshot.current.Some?
            && c.snapshot.current.value.Finite?
            && m.canonical.scale >= 0
            && ScaledExactly(m.canonical, c.snapshot.prior.value, c.snapshot.current.value)
            && GrowthMatches(m.canonical, c.snapshot.prior.value, c.snapshot.current.value)
            && Denotes(c.output, prims.quotient(GrowthOf(m.canonical)))
  {
    hide Strict, Objections, LineageComplete, RequiredIds, Expected, GrowthMatches, ScaledExactly, Denotes, GrowthOf;
    StrictlyAllowedMeansOneLineage(prims, s, id);
    ExpectedIsExact(prims, LookupIn(s.calculations, id).value);
  }

  lemma ExpectedIsExact(prims: Primitives, c: Calculation)
    requires Expected(prims, c).Expect?
    ensures var canonical := Expected(prims, c).input.canonical;
            && c.snapshot.prior.Some? && c.snapshot.prior.value.Finite? && c.snapshot.current.Some?
            && c.snapshot.current.value.Finite?
            && canonical.scale >= 0
            && ScaledExactly(canonical, c.snapshot.prior.value, c.snapshot.current.value)
            && GrowthMatches(canonical, c.snapshot.prior.value, c.snapshot.current.value)
            && Denotes(c.output, prims.quotient(GrowthOf(canonical)))
  {
    hide ToMinorUnits, Denotes, GrowthOf, GrowthMatches, ScaledExactly;
    MinorUnitsAreExact(c.snapshot.prior.value, c.snapshot.current.value, c.snapshot.currency.value);
    GrowthIsExact(c.snapshot.prior.value, c.snapshot.current.value, c.snapshot.currency.value);
  }
}

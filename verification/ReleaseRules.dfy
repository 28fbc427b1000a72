/** Each objection of the release gate, exactly when it is raised, in terms of the submission alone. */
module ReleaseRules {
  import opened Wrappers
  import opened MinorUnits
  import opened ProofDomain
  import opened GrowthCommitment
  import opened ReleaseGate

  ghost predicate MustBeProved(s: Submission, id: string) {
    exists i :: 0 <= i < |s.requirements| && s.requirements[i] == (id, MustProve)
  }

  /** No trace of the independent review, and no extended financial calculation. */
  ghost predicate Lenient(s: Submission) {
    && s.review.reviewer != "independent-financial-review-v2"
    && (forall c :: c in s.review.checkCodes ==> |c| < 4 || c[..4] != "FIN_")
    && s.review.metricRefs == [] && s.review.claimRefs == [] && s.review.requiredProofRefs == []
    && (s.calculations.None? || forall i :: 0 <= i < |s.calculations.value| ==>
          s.calculations.value[i].1.formulaId !in STRICT_FORMULAS)
  }

  ghost predicate HasEntry<T>(d: Option<Dict<T>>, id: string) {
    d.Some? && exists i :: 0 <= i < |d.value| && d.value[i].0 == id
  }

  /** What was reviewed is not what is submitted: the digests differ, or in one of the five lists an id is
      on one side only. */
  ghost predicate DiffersFromReviewed(s: Submission)
    requires s.evidence.Some? && s.metrics.Some? && s.claims.Some? && s.judgments.Some?
  {
    || s.recomputedHash.None? || s.review.snapshotHash.None? || s.recomputedHash.value != s.review.snapshotHash.value
    || (exists id :: HasEntry(s.calculations, id) != (id in s.review.calculationRefs))
    || (exists id :: (id in s.evidence.value) != (id in s.review.evidenceRefs))
    || (exists id :: (id in s.metrics.value) != (id in s.review.metricRefs))
    || (exists id :: (id in s.claims.value) != (id in s.review.claimRefs))
    || (exists id :: (Some(id) in s.judgments.value) != (id in s.review.judgmentRefs))
  }

  ghost predicate AnyMissing(s: Submission) {
    s.calculations.None? || s.evidence.None? || s.metrics.None? || s.claims.None? || s.judgments.None?
    || s.runAsOf.None?
  }

  /** A growth calculation without a positive finite prior amount. */
  predicate LacksPrior(c: Calculation) {
    && c.formulaId == "revenue_growth_v1"
    && !(c.snapshot.prior.Some? && c.snapshot.prior.value.Finite? && Value(c.snapshot.prior.value) > 0.0)
  }

  ghost predicate HasBadPrior(s: Submission) {
    s.calculations.Some? && exists i :: 0 <= i < |s.calculations.value| && LacksPrior(s.calculations.value[i].1)
  }

  // ---- The plain terms ------------------------------------------------------------------

  lemma LenientMeans(s: Submission)
    ensures Strict(s) <==> !Lenient(s)
  {
    forall c: string ensures "FIN_" <= c <==> |c| >= 4 && c[..4] == "FIN_" {
    }
    if s.calculations.Some? {
      var cs := s.calculations.value;
      assert forall i :: 0 <= i < |cs| ==> cs[i] in cs;
    }
  }

  lemma RequiredIdsMean(s: Submission)
    ensures forall id :: id in RequiredIds(s) <==> MustBeProved(s, id)
  {
  }

  lemma KeysMean<T>(d: Option<Dict<T>>)
    ensures forall id :: id in KeySet(OrEmpty(d)) <==> HasEntry(d, id)
  {
  }

  lemma SetsDiffer(x: set<string>, y: set<string>)
    ensures x != y <==> exists id :: (id in x) != (id in y)
  {
    if x != y {
      var id :| id in (x - y) + (y - x);
    }
  }

  lemma SetOfMeans(s: seq<string>)
    ensures forall id :: id in SetOf(s) <==> id in s
  {
  }

  lemma SnapshotMeans(s: Submission)
    requires InputsComplete(s)
    ensures !SnapshotMatches(s) <==> DiffersFromReviewed(s)
  {
    hide SetOf, KeySet;
    KeysMean(s.calculations);
    SetOfMeans(s.review.calculationRefs);
    SetsDiffer(KeySet(s.calculations.value), SetOf(s.review.calculationRefs));
    SetOfMeans(s.evidence.value);
    SetOfMeans(s.review.evidenceRefs);
    SetsDiffer(SetOf(s.evidence.value), SetOf(s.review.evidenceRefs));
    SetOfMeans(s.metrics.value);
    SetOfMeans(s.review.metricRefs);
    SetsDiffer(SetOf(s.metrics.value), SetOf(s.review.metricRefs));
    SetOfMeans(s.claims.value);
    SetOfMeans(s.review.claimRefs);
    SetsDiffer(SetOf(s.claims.value), SetOf(s.review.claimRefs));
    JudgmentIdsMean(s.judgments.value);
    SetOfMeans(s.review.judgmentRefs);
    SetsDiffer(JudgmentIds(s.judgments.value), SetOf(s.review.judgmentRefs));
  }

  lemma JudgmentIdsMean(js: seq<Option<string>>)
    ensures forall id :: id in JudgmentIds(js) <==> Some(id) in js
  {
    forall id | Some(id) in js ensures id in JudgmentIds(js) {
      var j: Option<string> := Some(id);
      assert j in js && j.Some? && j.value == id;
    }
  }

  // ---- The review -----------------------------------------------------------------------

  lemma IfMeans(b: bool, r: Reason)
    ensures forall x :: x in If(b, r) <==> b && x == r
  {
  }

  lemma ReviewMembers(s: Submission)
    ensures forall r :: r in ReviewObjections(s) <==>
              || (r == RequirementContextMismatch && s.review.context != s.context)
              || (r == ReviewNotPassed(s.review.status) && s.review.status != Pass)
              || (r == StrictReviewIdentityInvalid && Strict(s) && s.review.reviewer != REVIEWER)
              || (r == InputSnapshotMissing && Strict(s) && !InputsComplete(s))
              || (r == InputSnapshotMismatch && Strict(s) && InputsComplete(s) && !SnapshotMatches(s))
              || (r == DevModeForbidden && Strict(s) && s.devMode)
              || (r == ProofRequirementMismatch && Strict(s) && SetOf(s.review.requiredProofRefs) != RequiredIds(s))
  {
    hide Strict, SnapshotMatches, RequiredIds, SetOf, InputsComplete, If;
    IfMeans(s.review.context != s.context, RequirementContextMismatch);
    IfMeans(s.review.status != Pass, ReviewNotPassed(s.review.status));
    IfMeans(Strict(s) && s.review.reviewer != REVIEWER, StrictReviewIdentityInvalid);
    IfMeans(Strict(s) && !InputsComplete(s), InputSnapshotMissing);
    IfMeans(Strict(s) && InputsComplete(s) && !SnapshotMatches(s), InputSnapshotMismatch);
    IfMeans(Strict(s) && s.devMode, DevModeForbidden);
    IfMeans(Strict(s) && SetOf(s.review.requiredProofRefs) != RequiredIds(s), ProofRequirementMismatch);
  }

  /** What is objected to in the review and its inputs, and when. */
  lemma ReviewReasonsMean(s: Submission)
    ensures var rs := ReviewObjections(s);
            && (RequirementContextMismatch in rs <==> s.review.context != s.context)
            && (forall x :: ReviewNotPassed(x) in rs <==> x == s.review.status && x != Pass)
            && (StrictReviewIdentityInvalid in rs <==>
                  !Lenient(s) && s.review.reviewer != "independent-financial-review-v2")
            && (InputSnapshotMissing in rs <==> !Lenient(s) && AnyMissing(s))
            && (InputSnapshotMismatch in rs <==> !Lenient(s) && !AnyMissing(s) && DiffersFromReviewed(s))
            && (DevModeForbidden in rs <==> !Lenient(s) && s.devMode)
            && (ProofRequirementMismatch in rs <==>
                  !Lenient(s) && exists id :: (id in s.review.requiredProofRefs) != MustBeProved(s, id))
  {
    hide Strict, Lenient, SnapshotMatches, DiffersFromReviewed, RequiredIds, MustBeProved, SetOf, ReviewObjections;
    ReviewMembers(s);
    LenientMeans(s);
    if InputsComplete(s) {
      SnapshotMeans(s);
    }
    RequiredIdsMean(s);
    SetOfMeans(s.review.requiredProofRefs);
    SetsDiffer(SetOf(s.review.requiredProofRefs), RequiredIds(s));
  }

  lemma OnlyReviewReasons(s: Submission)
    ensures forall r :: r in ReviewObjections(s) ==> !r.PriorRevenueNotPositive? && !r.SetMismatch? && !r.ProofMissing?
                                                     && !r.ProofUnproved? && !r.ProofInvalid?
  {
    hide Strict, SnapshotMatches, RequiredIds, SetOf, ReviewObjections;
    ReviewMembers(s);
  }

  // ---- The calculations and the key sets ------------------------------------------------

  lemma {:induction false} PriorReasonsMean(cs: Dict<Calculation>)
    ensures forall r :: r in PriorObjections(cs) <==>
              r == PriorRevenueNotPositive && exists i :: 0 <= i < |cs| && !GrowthHasPositivePrior(cs[i])
  {
    hide GrowthHasPositivePrior;
    if cs != [] {
      var init := cs[..|cs| - 1];
      PriorReasonsMean(init);
      assert forall i :: 0 <= i < |init| ==> init[i] == cs[i];
    }
  }

  lemma BadPriorMeans(s: Submission)
    ensures HasBadPrior(s) <==>
            exists i :: 0 <= i < |OrEmpty(s.calculations)| && !GrowthHasPositivePrior(OrEmpty(s.calculations)[i])
  {
    forall e: (string, Calculation) ensures !GrowthHasPositivePrior(e) <==> LacksPrior(e.1) {
      LacksPriorMeans(e);
    }
    hide GrowthHasPositivePrior, LacksPrior;
    var cs := OrEmpty(s.calculations);
    assert forall i :: 0 <= i < |cs| ==> (!GrowthHasPositivePrior(cs[i]) <==> LacksPrior(cs[i].1));
  }

  lemma LacksPriorMeans(e: (string, Calculation))
    ensures !GrowthHasPositivePrior(e) <==> LacksPrior(e.1)
  {
    hide Value;
  }

  ghost predicate SidesDiffer(s: Submission, kind: Label) {
    exists id :: MustBeProved(s, id) != match kind
                                        case ProofLabel => HasEntry(Some(s.proofs), id)
                                        case CommitmentLabel => HasEntry(s.commitments, id)
                                        case VerificationLabel => HasEntry(s.verifications, id)
                                        case ArtifactLabel => HasEntry(s.artifacts, id)
  }

  lemma SetReasonsMean(s: Submission)
    ensures forall r :: r in SetObjections(s) <==> r.SetMismatch? && !Lenient(s) && SidesDiffer(s, r.kind)
  {
    hide Strict, Lenient, RequiredIds, MustBeProved, KeySet, HasEntry;
    LenientMeans(s);
    RequiredIdsMean(s);
    KeysMean(Some(s.proofs));
    KeysMean(s.commitments);
    KeysMean(s.verifications);
    KeysMean(s.artifacts);
    SetsDiffer(KeySet(s.proofs), RequiredIds(s));
    SetsDiffer(KeySet(OrEmpty(s.commitments)), RequiredIds(s));
    SetsDiffer(KeySet(OrEmpty(s.verifications)), RequiredIds(s));
    SetsDiffer(KeySet(OrEmpty(s.artifacts)), RequiredIds(s));
  }

  // ---- The proofs -----------------------------------------------------------------------

  /** What is objected to about a calculation that must be proved. */
  ghost predicate ObjectedAbout(prims: Primitives, s: Submission, r: Reason) {
    match r
    case ProofMissing(id) => MustBeProved(s, id) && !HasEntry(Some(s.proofs), id)
    case ProofUnproved(status, id) => MustBeProved(s, id) && Lookup(s.proofs, id) == Some(ResultOnly(status))
    case ProofInvalid(id) =>
      && MustBeProved(s, id) && Lookup(s.proofs, id).Some? && Lookup(s.proofs, id).value.Full?
      && !Stands(prims, s, id, Lookup(s.proofs, id).value.record)
    case _ => false
  }

  lemma {:induction false} ProofReasonsUpTo(prims: Primitives, s: Submission, n: nat)
    requires n <= |s.requirements|
    ensures forall r :: r in ProofObjections(prims, s, n) <==>
              exists i ::
                0 <= i < n && s.requirements[i].1 == MustProve && r in Objection(prims, s, s.requirements[i].0)
  {
    hide Objection;
    if n > 0 {
      ProofReasonsUpTo(prims, s, n - 1);
    }
  }

  lemma ProofReasonsMean(prims: Primitives, s: Submission)
    ensures forall r :: r in ProofObjections(prims, s, |s.requirements|) <==> ObjectedAbout(prims, s, r)
  {
    hide Stands, ProofObjections, Lookup;
    ProofReasonsUpTo(prims, s, |s.requirements|);
    forall id ensures Lookup(s.proofs, id).None? <==> !HasEntry(Some(s.proofs), id) {
      LookupMeans(s.proofs, id);
    }
  }

  lemma LookupMeans<T>(d: Dict<T>, id: string)
    ensures Lookup(d, id).None? <==> !HasEntry(Some(d), id)
  {
    hide Lookup;
    KeysMean(Some(d));
  }

  /** One lineage: five records that name each other, the run and the calculation. */
  ghost predicate OneLineage(prims: Primitives, s: Submission, id: string, p: ProofRecord, c: Calculation,
                             m: Commitment,
                             v: Verification, a: Artifact) {
    && p.status == VerifiedStatus && p.backend == "risc0" && p.programId == c.formulaId && p.calculationId == id
    && p.runId == s.review.runId && c.runId == s.review.runId && m.runId == s.review.runId
    && p.implementationHash != "" && c.implementationHash == Some(p.implementationHash)
    && m.implementationHash == p.implementationHash
    && p.inputCommitment != "" && m.inputCommitment == p.inputCommitment && m.calculationId == id
    && m.formulaId == c.formulaId && m.capabilityId == c.capabilityId && m.evidenceRefs == c.evidenceIds
    && m.expectedOutputCommitment != "" && Recomputed(prims, c, m)
    && p.imageId == EXPECTED_IMAGE_ID && v.imageId == p.imageId
    && v.proofId == p.id && v.status == VerifiedStatus && v.verified && v.verifier == HOST_VERIFIER
    && p.receiptHash == Some(v.receiptHash) && v.receiptHash != ""
    && p.journalHash == Some(v.journalHash) && v.journalHash != ""
    && a.proofId == p.id && a.artifactType == RECEIPT_TYPE && p.receiptRef == Some(a.ref) && a.ref != ""
    && a.contentHash == v.receiptHash && a.size > 0
    && a.ref in s.files && s.files[a.ref] == Content(a.size, a.contentHash)
  }

  /** Under strict lineage a proof stands exactly as part of one such lineage. */
  lemma StrictStandsMeans(prims: Primitives, s: Submission, id: string, p: ProofRecord)
    requires !Lenient(s) && s.calculations.Some?
    ensures Stands(prims, s, id, p) <==>
            && LookupIn(s.calculations, id).Some? && LookupIn(s.commitments, id).Some?
            && LookupIn(s.verifications, id).Some? && LookupIn(s.artifacts, id).Some?
            && OneLineage(prims, s, id, p, LookupIn(s.calculations, id).value, LookupIn(s.commitments, id).value,
                          LookupIn(s.verifications, id).value, LookupIn(s.artifacts, id).value)
  {
    hide Strict, Lenient, Recomputed, Lookup;
    LenientMeans(s);
  }

  /** Otherwise it stands when its own record is complete and agrees with each part that is submitted. */
  lemma LenientStandsMeans(prims: Primitives, s: Submission, id: string, p: ProofRecord)
    requires Lenient(s)
    ensures Stands(prims, s, id, p) <==>
            && p.status == VerifiedStatus && p.runId == s.review.runId && p.calculationId == id
            && p.imageId != "" && p.implementationHash != "" && p.inputCommitment != ""
            && p.receiptRef.Some? && p.receiptRef.value != "" && p.receiptHash.Some? && p.receiptHash.value != ""
            && p.journalHash.Some? && p.journalHash.value != ""
            && (s.commitments.Some? ==>
                  && LookupIn(s.commitments, id).Some?
                  && var m := LookupIn(s.commitments, id).value;
                     && m.runId == s.review.runId && m.calculationId == id
                     && m.implementationHash == p.implementationHash && m.inputCommitment == p.inputCommitment)
            && (s.verifications.Some? ==>
                  && LookupIn(s.verifications, id).Some?
                  && var v := LookupIn(s.verifications, id).value;
                     && v.proofId == p.id && v.status == VerifiedStatus && v.verified && v.imageId == p.imageId
                     && v.receiptHash == p.receiptHash.value && v.journalHash == p.journalHash.value)
            && (s.artifacts.Some? ==>
                  && LookupIn(s.artifacts, id).Some?
                  && var a := LookupIn(s.artifacts, id).value;
                     && a.proofId == p.id && a.ref == p.receiptRef.value && a.contentHash == p.receiptHash.value
                     && a.size > 0)
  {
    hide Strict, Lenient, Recomputed, Lookup;
    LenientMeans(s);
  }

  // ---- The gate -------------------------------------------------------------------------

  /** Each objection of the gate, exactly when it is raised. */
  lemma ReasonsMean(prims: Primitives, s: Submission)
    ensures var rs := Objections(prims, s);
            && (RequirementContextMismatch in rs <==> s.review.context != s.context)
            && (forall x :: ReviewNotPassed(x) in rs <==> x == s.review.status && x != Pass)
            && (StrictReviewIdentityInvalid in rs <==>
                  !Lenient(s) && s.review.reviewer != "independent-financial-review-v2")
            && (InputSnapshotMissing in rs <==> !Lenient(s) && AnyMissing(s))
            && (InputSnapshotMismatch in rs <==> !Lenient(s) && !AnyMissing(s) && DiffersFromReviewed(s))
            && (DevModeForbidden in rs <==> !Lenient(s) && s.devMode)
            && (ProofRequirementMismatch in rs <==>
                  !Lenient(s) && exists id :: (id in s.review.requiredProofRefs) != MustBeProved(s, id))
            && (PriorRevenueNotPositive in rs <==> HasBadPrior(s))
            && (forall kind :: SetMismatch(kind) in rs <==> !Lenient(s) && SidesDiffer(s, kind))
            && (forall r: Reason :: r.ProofMissing? || r.ProofUnproved? || r.ProofInvalid? ==>
                  (r in rs <==> ObjectedAbout(prims, s, r)))
  {
    hide Lenient, DiffersFromReviewed, MustBeProved, ReviewObjections, PriorObjections, SetObjections, ProofObjections,
         HasBadPrior, SidesDiffer, ObjectedAbout, GrowthHasPositivePrior, AnyMissing;
    ReviewReasonsMean(s);
    OnlyReviewReasons(s);
    PriorReasonsMean(OrEmpty(s.calculations));
    BadPriorMeans(s);
    SetReasonsMean(s);
    ProofReasonsMean(prims, s);
    OnlyProofReasons(prims, s);
  }

  lemma OnlyProofReasons(prims: Primitives, s: Submission)
    ensures forall r :: ObjectedAbout(prims, s, r) ==> r.ProofMissing? || r.ProofUnproved? || r.ProofInvalid?
  {
  }

  // ---- The order of the objections ------------------------------------------------------

  function Rank(r: Reason): nat {
    match r
    case RequirementContextMismatch => 0
    case ReviewNotPassed(_) => 1
    case StrictReviewIdentityInvalid => 2
    case InputSnapshotMissing => 3
    case InputSnapshotMismatch => 3
    case DevModeForbidden => 4
    case ProofRequirementMismatch => 5
    case PriorRevenueNotPositive => 6
    case SetMismatch(kind) =>
      (match kind case ProofLabel => 7 case CommitmentLabel => 8 case VerificationLabel => 9 case ArtifactLabel => 10)
    case _ => 11
  }

  ghost predicate Ordered(rs: seq<Reason>) {
    forall i, j :: 0 <= i < j < |rs| ==> Rank(rs[i]) <= Rank(rs[j])
  }

  ghost predicate Between(rs: seq<Reason>, low: nat, high: nat) {
    Ordered(rs) && forall r :: r in rs ==> low <= Rank(r) <= high
  }

  lemma Joined(x: seq<Reason>, y: seq<Reason>, low: nat, middle: nat, high: nat)
    requires Between(x, low, middle) && Between(y, middle, high) && low <= middle <= high
    ensures Between(x + y, low, high)
  {
    hide Rank;
    forall i, j | 0 <= i < j < |x + y| ensures Rank((x + y)[i]) <= Rank((x + y)[j]) {
      if i < |x| <= j {
        assert x[i] in x && y[j - |x|] in y;
      }
    }
  }

  lemma AtMostOne(b: bool, r: Reason)
    ensures Between(If(b, r), Rank(r), Rank(r))
  {
  }

  lemma ReviewIsOrdered(s: Submission)
    ensures Between(ReviewObjections(s), 0, 5)
  {
    hide Strict, SnapshotMatches, RequiredIds, SetOf, InputsComplete, If, Between;
    var a := If(s.review.context != s.context, RequirementContextMismatch);
    var b := If(s.review.status != Pass, ReviewNotPassed(s.review.status));
    var c := If(Strict(s) && s.review.reviewer != REVIEWER, StrictReviewIdentityInvalid);
    var d := If(Strict(s) && !InputsComplete(s), InputSnapshotMissing);
    var e := If(Strict(s) && InputsComplete(s) && !SnapshotMatches(s), InputSnapshotMismatch);
    var f := If(Strict(s) && s.devMode, DevModeForbidden);
    var g := If(Strict(s) && SetOf(s.review.requiredProofRefs) != RequiredIds(s), ProofRequirementMismatch);
    AtMostOne(s.review.context != s.context, RequirementContextMismatch);
    AtMostOne(s.review.status != Pass, ReviewNotPassed(s.review.status));
    AtMostOne(Strict(s) && s.review.reviewer != REVIEWER, StrictReviewIdentityInvalid);
    AtMostOne(Strict(s) && !InputsComplete(s), InputSnapshotMissing);
    AtMostOne(Strict(s) && InputsComplete(s) && !SnapshotMatches(s), InputSnapshotMismatch);
    AtMostOne(Strict(s) && s.devMode, DevModeForbidden);
    AtMostOne(Strict(s) && SetOf(s.review.requiredProofRefs) != RequiredIds(s), ProofRequirementMismatch);
    Lower(b, 1, 0, 1);
    Joined(a, b, 0, 0, 1);
    Lower(c, 2, 1, 2);
    Joined(a + b, c, 0, 1, 2);
    Lower(d, 3, 2, 3);
    Joined(a + b + c, d, 0, 2, 3);
    Joined(a + b + c + d, e, 0, 3, 3);
    Lower(f, 4, 3, 4);
    Joined(a + b + c + d + e, f, 0, 3, 4);
    Lower(g, 5, 4, 5);
    Joined(a + b + c + d + e + f, g, 0, 4, 5);
  }

  lemma SetsAreOrdered(s: Submission)
    ensures Between(SetObjections(s), 7, 10)
  {
    hide Strict, RequiredIds, KeySet, If, Between;
    var bad := (keys: set<string>) => Strict(s) && keys != RequiredIds(s);
    var (a, b) := (bad(KeySet(s.proofs)), bad(KeySet(OrEmpty(s.commitments))));
    var (c, d) := (bad(KeySet(OrEmpty(s.verifications))), bad(KeySet(OrEmpty(s.artifacts))));
    AtMostOne(a, SetMismatch(ProofLabel));
    AtMostOne(b, SetMismatch(CommitmentLabel));
    AtMostOne(c, SetMismatch(VerificationLabel));
    AtMostOne(d, SetMismatch(ArtifactLabel));
    var (x, y) := (If(a, SetMismatch(ProofLabel)), If(b, SetMismatch(CommitmentLabel)));
    var (z, w) := (If(c, SetMismatch(VerificationLabel)), If(d, SetMismatch(ArtifactLabel)));
    Lower(y, 8, 7, 8);
    Joined(x, y, 7, 7, 8);
    Lower(z, 9, 8, 9);
    Joined(x + y, z, 7, 8, 9);
    Lower(w, 10, 9, 10);
    Joined(x + y + z, w, 7, 9, 10);
  }

  lemma AllOfOneRank(rs: seq<Reason>, rank: nat)
    requires forall r :: r in rs ==> Rank(r) == rank
    ensures Between(rs, rank, rank)
  {
    hide Rank;
    assert forall i :: 0 <= i < |rs| ==> rs[i] in rs;
  }

  /** The objections come in the order of the checks: the review, its inputs, the calculations, the key sets
      from proofs to artifacts, then the proofs. */
  lemma ReasonsAreOrdered(prims: Primitives, s: Submission)
    ensures Ordered(Objections(prims, s))
  {
    hide ReviewObjections, PriorObjections, SetObjections, ProofObjections, ObjectedAbout, Ordered;
    var (a, b) := (ReviewObjections(s), PriorObjections(OrEmpty(s.calculations)));
    var (c, d) := (SetObjections(s), ProofObjections(prims, s, |s.requirements|));
    ReviewIsOrdered(s);
    PriorReasonsMean(OrEmpty(s.calculations));
    AllOfOneRank(b, 6);
    SetsAreOrdered(s);
    ProofReasonsMean(prims, s);
    OnlyProofReasons(prims, s);
    AllOfOneRank(d, 11);
    hide Rank;
    Lower(b, 6, 5, 6);
    Joined(a, b, 0, 5, 6);
    Lower(c, 7, 6, 10);
    Joined(a + b, c, 0, 6, 10);
    Lower(d, 11, 10, 11);
    Joined(a + b + c, d, 0, 10, 11);
  }

  lemma Lower(rs: seq<Reason>, low: nat, lower: nat, high: nat)
    requires Between(rs, low, high) && lower <= low
    ensures Between(rs, lower, high)
  {
  }
}

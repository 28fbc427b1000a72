/** Records that the proof workflow, the release gate and closure recovery exchange. */
module ProofDomain {
  import opened Wrappers
  import opened MinorUnits

  const FORMULA_ID := "revenue_growth_v1"
  const CAPABILITY_ID := "revenue_growth"
  const EXPECTED_IMAGE_ID := "491e8fb2335a465b112dda11b16b6dcec703e11b1bfa3d21ebaec177c3847e36"
  const RECEIPT_TYPE := "application/vnd.risc0.receipt"
  const HOST_VERIFIER := "risc0-independent-host-verifier"
  const BACKEND := "risc0"

  datatype Requirement = MustProve | NotRequired

  datatype ProofStatus = VerifiedStatus | ValidStatus | ErrorStatus | OtherStatus(name: string)

  /** The values a growth calculation was made from; `None` is a value that is absent or no number. */
  datatype Snapshot = Snapshot(prior: Option<Dec>, current: Option<Dec>, currency: Option<string>)

  datatype Calculation = Calculation(
    id: string,
    runId: string,
    formulaId: string,
    capabilityId: string,
    implementationHash: Option<string>,
    codeHash: Option<string>,
    evidenceIds: seq<string>,
    snapshot: Snapshot,
    output: Option<Dec>)

  datatype ProofInput = ProofInput(
    runId: string,
    calculationId: string,
    implementationHash: string,
    evidenceRefs: seq<string>,
    canonical: Canonical,
    inputCommitment: string,
    expectedOutputCommitment: string)

  datatype Commitment = Commitment(
    id: string,
    runId: string,
    calculationId: string,
    formulaId: string,
    capabilityId: string,
    implementationHash: string,
    evidenceRefs: seq<string>,
    canonical: Canonical,
    inputCommitment: string,
    expectedOutputCommitment: string)

  datatype ProofRecord = ProofRecord(
    id: string,
    runId: string,
    calculationId: string,
    backend: string,
    programId: string,
    imageId: string,
    implementationHash: string,
    inputCommitment: string,
    receiptRef: Option<string>,
    receiptHash: Option<string>,
    journalHash: Option<string>,
    status: ProofStatus)

  datatype Verification = Verification(
    id: string,
    proofId: string,
    verifier: string,
    imageId: string,
    receiptHash: string,
    journalHash: string,
    status: ProofStatus,
    verified: bool)

  datatype Artifact = Artifact(id: string, proofId: string, artifactType: string, ref: string, contentHash: string,
                               size: nat)

  /** A file's size and digest. */
  datatype Content = Content(size: nat, hash: string)

  /** Present and not empty. */
  predicate Given(s: Option<string>) {
    s.Some? && s.value != ""
  }

  // ---- Insertion-ordered dictionaries ---------------------------------------------------

  type Dict<T> = seq<(string, T)>

  function Lookup<T>(d: Dict<T>, key: string): (v: Option<T>)
    ensures v.Some? ==> (key, v.value) in d
    ensures v.None? <==> key !in KeySet(d)
  {
    if d == [] then None
    else if d[0].0 == key then Some(d[0].1)
    else Lookup(d[1..], key)
  }

  function KeySet<T>(d: Dict<T>): set<string> {
    set i | 0 <= i < |d| :: d[i].0
  }

  /** No key twice, as in every dictionary. */
  ghost predicate IsDict<T(!new)>(d: Dict<T>) {
    forall i, j :: 0 <= i < j < |d| ==> d[i].0 != d[j].0
  }

  lemma LookupAt<T(!new)>(d: Dict<T>, i: nat)
    requires IsDict(d) && i < |d|
    ensures Lookup(d, d[i].0) == Some(d[i].1)
  {
    if i > 0 {
      assert IsDict(d[1..]) by {
        forall j, k | 0 <= j < k < |d[1..]| ensures d[1..][j].0 != d[1..][k].0 {
          assert d[j + 1].0 != d[k + 1].0;
        }
      }
      LookupAt(d[1..], i - 1);
      assert d[0].0 != d[i].0;
    }
  }

  lemma SingleEntry<T>(key: string, v: T)
    ensures var d := [(key, v)];
            Lookup(d, key) == Some(v) && KeySet(d) == {key}
  {
    var d := [(key, v)];
    assert d[0].0 == key;
  }
}

/** Reuse of retained proofs: only verified proofs whose commitment, verification and artifact can be told
    without ambiguity. */
module RetainedProofs {
  import opened Wrappers
  import opened MinorUnits
  import opened ProofDomain

  /** The four proof tables of a run, in row order. */
  datatype Manifest = Manifest(
    proofs: seq<ProofRecord>,
    commitments: seq<Commitment>,
    verifications: seq<Verification>,
    artifacts: seq<Artifact>)

  datatype Retained = Retained(proof: ProofRecord, commitment: Commitment, verification: Verification,
                               artifact: Artifact)

  /** The fingerprint sorts each table by its key: row order does not matter. */
  ghost predicate SameManifest(x: Manifest, y: Manifest) {
    && multiset(x.proofs) == multiset(y.proofs)
    && multiset(x.commitments) == multiset(y.commitments)
    && multiset(x.verifications) == multiset(y.verifications)
    && multiset(x.artifacts) == multiset(y.artifacts)
  }

  function Matches<T(!new)>(items: seq<T>, test: T -> bool): (ms: seq<T>)
    ensures forall x :: x in ms <==> x in items && test(x)
    ensures |ms| <= |items|
  {
    if items == [] then []
    else
      assert items == [items[0]] + items[1..];
      (if test(items[0]) then [items[0]] else []) + Matches(items[1..], test)
  }

  /** The only item that passes the test, at a single position. */
  function Exact<T(!new)>(items: seq<T>, test: T -> bool): (m: Option<T>)
    ensures m.Some? ==> m.value in items && test(m.value) && forall x :: x in items && test(x) ==> x == m.value
  {
    var ms := Matches(items, test);
    if |ms| == 1 then
      assert ms[0] in ms;
      assert forall x :: x in ms ==> x == ms[0];
      Some(ms[0])
    else None
  }

  function RetainedFor(m: Manifest, p: ProofRecord): Option<Retained> {
    var c := Exact(m.commitments, (x: Commitment) => x.calculationId == p.calculationId);
    var v := Exact(m.verifications, (x: Verification) => x.proofId == p.id);
    var a := Exact(m.artifacts, (x: Artifact) => x.proofId == p.id);
    if c.Some? && v.Some? && a.Some? then Some(Retained(p, c.value, v.value, a.value)) else None
  }

  /** The lineage of each calculation; a later proof of the same calculation takes the place. */
  function CollectLineages(m: Manifest, ps: seq<ProofRecord>): (ls: Option<map<string, Retained>>)
    ensures ls.Some? <==> forall p :: p in ps ==> RetainedFor(m, p).Some?
    ensures ls.Some? ==> ls.value.Keys == (set p | p in ps :: p.calculationId)
    ensures ls.Some? ==> forall id :: id in ls.value ==>
              exists p :: p in ps && p.calculationId == id && RetainedFor(m, p) == Some(ls.value[id])
  {
    if ps == [] then Some(map[])
    else
      assert ps == ps[..|ps| - 1] + [ps[|ps| - 1]];
      var rest, last := CollectLineages(m, ps[..|ps| - 1]), ps[|ps| - 1];
      var one := RetainedFor(m, last);
      if rest.Some? && one.Some? then Some(rest.value[last.calculationId := one.value]) else None
  }

  /** The lineages that closure recovery reuses; `None` is a refusal. */
  function RetainedLineages(m: Manifest): (o: Option<map<string, Retained>>)
    ensures o.Some? <==> && m.proofs != []
                         && (forall p :: p in m.proofs ==> p.status == VerifiedStatus && RetainedFor(m, p).Some?)
  {
    if m.proofs == [] || exists p :: p in m.proofs && p.status != VerifiedStatus then None
    else CollectLineages(m, m.proofs)
  }

  /** What closure recovery reuses: the lineages, and the runtime state, which names the first row's proof. */
  datatype Reused = Reused(lineages: map<string, Retained>, proofId: string, imageId: string)

  function RetainedOutcome(m: Manifest): (o: Option<Reused>)
    ensures o.Some? <==> && m.proofs != []
                         && (forall p :: p in m.proofs ==> p.status == VerifiedStatus && RetainedFor(m, p).Some?)
    ensures o.Some? <==> RetainedLineages(m).Some?
  {
    var lineages := RetainedLineages(m);
    if lineages.None? then None else Some(Reused(lineages.value, m.proofs[0].id, m.proofs[0].imageId))
  }

  /** No calculation has two different proofs. */
  predicate OneProofEach(m: Manifest) {
    forall p, q :: p in m.proofs && q in m.proofs && p.calculationId == q.calculationId ==> p == q
  }

  /** Whatever is reused is one verified lineage: its parts name each other, and no other commitment,
      verification or artifact matches. No other proof competes for the calculation either, if none has
      two different proofs. */
  lemma ReuseIsUnambiguous(m: Manifest, id: string)
    requires RetainedLineages(m).Some? && id in RetainedLineages(m).value
    ensures var l := RetainedLineages(m).value[id];
            && l.proof in m.proofs && l.proof.status == VerifiedStatus && l.proof.calculationId == id
            && l.commitment in m.commitments && l.commitment.calculationId == id
            && l.verification in m.verifications && l.verification.proofId == l.proof.id
            && l.artifact in m.artifacts && l.artifact.proofId == l.proof.id
            && (forall c :: c in m.commitments && c.calculationId == id ==> c == l.commitment)
            && (forall v :: v in m.verifications && v.proofId == l.proof.id ==> v == l.verification)
            && (forall a :: a in m.artifacts && a.proofId == l.proof.id ==> a == l.artifact)
            && (OneProofEach(m) ==> forall p :: p in m.proofs && p.calculationId == id ==> p == l.proof)
  {
    hide CollectLineages, Matches, Exact, RetainedFor;
    var l := RetainedLineages(m).value[id];
    var p :| p in m.proofs && p.calculationId == id && RetainedFor(m, p) == Some(l);
    LineageOfOneProof(m, p);
  }

  lemma LineageOfOneProof(m: Manifest, p: ProofRecord)
    requires RetainedFor(m, p).Some?
    ensures var l := RetainedFor(m, p).value;
            && l.proof == p
            && l.commitment in m.commitments && l.commitment.calculationId == p.calculationId
            && l.verification in m.verifications && l.verification.proofId == p.id
            && l.artifact in m.artifacts && l.artifact.proofId == p.id
            && (forall c :: c in m.commitments && c.calculationId == p.calculationId ==> c == l.commitment)
            && (forall v :: v in m.verifications && v.proofId == p.id ==> v == l.verification)
            && (forall a :: a in m.artifacts && a.proofId == p.id ==> a == l.artifact)
  {
    hide Matches, Exact;
  }

  lemma {:induction false} MatchesAreCounted<T(!new)>(xs: seq<T>, test: T -> bool)
    ensures forall x :: multiset(Matches(xs, test))[x] == if test(x) then multiset(xs)[x] else 0
  {
    if xs != [] {
      MatchesAreCounted(xs[1..], test);
      assert xs == [xs[0]] + xs[1..];
    }
  }

  lemma SameBagSameSingle<T(!new)>(x: seq<T>, y: seq<T>)
    requires multiset(x) == multiset(y)
    ensures |x| == |y| && (|x| == 1 ==> x == y)
  {
    assert |x| == |multiset(x)| && |y| == |multiset(y)|;
    if |x| == 1 {
      assert x[0] in multiset(y);
      assert x == [x[0]] && y == [y[0]];
    }
  }

  lemma SameRowsSameMatch<T(!new)>(xs: seq<T>, ys: seq<T>, test: T -> bool)
    requires multiset(xs) == multiset(ys)
    ensures Exact(xs, test) == Exact(ys, test)
  {
    hide Matches;
    MatchesAreCounted(xs, test);
    MatchesAreCounted(ys, test);
    assert multiset(Matches(xs, test)) == multiset(Matches(ys, test));
    SameBagSameSingle(Matches(xs, test), Matches(ys, test));
  }

  /** With equal fingerprints the same manifests are accepted, and each single proof has the same
      lineage, whatever order the rows come in. */
  lemma FingerprintDeterminesLineages(x: Manifest, y: Manifest)
    requires SameManifest(x, y)
    ensures RetainedLineages(x).Some? <==> RetainedLineages(y).Some?
    ensures forall p :: RetainedFor(x, p) == RetainedFor(y, p)
    ensures forall p :: p in x.proofs <==> p in y.proofs
  {
    forall p ensures RetainedFor(x, p) == RetainedFor(y, p) {
      SameRowsSameMatch(x.commitments, y.commitments, (c: Commitment) => c.calculationId == p.calculationId);
      SameRowsSameMatch(x.verifications, y.verifications, (v: Verification) => v.proofId == p.id);
      SameRowsSameMatch(x.artifacts, y.artifacts, (a: Artifact) => a.proofId == p.id);
    }
    assert forall p :: p in x.proofs <==> p in multiset(x.proofs);
    assert forall p :: p in y.proofs <==> p in multiset(y.proofs);
    assert x.proofs == [] <==> multiset(x.proofs) == multiset{};
    assert y.proofs == [] <==> multiset(y.proofs) == multiset{};
  }

  // ---- When the row order decides -------------------------------------------------------

  lemma LineageNamesItsProof(m: Manifest, p: ProofRecord)
    ensures RetainedFor(m, p).Some? ==> RetainedFor(m, p).value.proof == p
  {
    hide Exact;
  }

  /** The proof that comes last is the one that is reused for its calculation. */
  lemma LastProofWins(m: Manifest)
    requires RetainedLineages(m).Some?
    ensures var last := m.proofs[|m.proofs| - 1];
            && last.calculationId in RetainedLineages(m).value
            && RetainedLineages(m).value[last.calculationId].proof == last
  {
    hide RetainedFor;
    LineageNamesItsProof(m, m.proofs[|m.proofs| - 1]);
  }

  lemma ReusedProofIsRetained(m: Manifest, id: string)
    requires RetainedLineages(m).Some? && id in RetainedLineages(m).value
    ensures var p := RetainedLineages(m).value[id].proof;
            p in m.proofs && p.calculationId == id && RetainedFor(m, p) == Some(RetainedLineages(m).value[id])
  {
    hide CollectLineages, RetainedFor;
    var p :| p in m.proofs && p.calculationId == id && RetainedFor(m, p) == Some(RetainedLineages(m).value[id]);
    LineageNamesItsProof(m, p);
  }

  /** The calculations that have an entry are those of the proofs. */
  lemma ReusedCalculations(m: Manifest)
    requires RetainedLineages(m).Some?
    ensures RetainedLineages(m).value.Keys == set p | p in m.proofs :: p.calculationId
  {
    hide CollectLineages;
  }

  lemma OneProofEachIsEnough(x: Manifest, y: Manifest)
    requires RetainedLineages(x).Some? && OneProofEach(x) && SameManifest(x, y)
    ensures RetainedLineages(y) == RetainedLineages(x)
  {
    hide RetainedLineages, RetainedFor, SameManifest;
    FingerprintDeterminesLineages(x, y);
    ReusedCalculations(x);
    ReusedCalculations(y);
    var a, b := RetainedLineages(x).value, RetainedLineages(y).value;
    assert a.Keys == b.Keys;
    forall id | id in a ensures a[id] == b[id] {
      ReusedProofIsRetained(x, id);
      ReusedProofIsRetained(y, id);
    }
    assert a == b;
  }

  /** The same rows with the proof at a position moved to the end. */
  function WithLast(m: Manifest, k: nat): (y: Manifest)
    requires k < |m.proofs|
    ensures y.proofs != [] && y.proofs[|y.proofs| - 1] == m.proofs[k]
  {
    m.(proofs := m.proofs[..k] + m.proofs[k + 1..] + [m.proofs[k]])
  }

  lemma MovingKeepsRows(m: Manifest, k: nat)
    requires k < |m.proofs|
    ensures SameManifest(m, WithLast(m, k))
  {
    assert m.proofs == m.proofs[..k] + [m.proofs[k]] + m.proofs[k + 1..];
  }

  /** Two different proofs of one calculation: some order of the same rows reuses another one. */
  lemma TwoProofsCompete(x: Manifest, p: ProofRecord, q: ProofRecord) returns (y: Manifest)
    requires RetainedLineages(x).Some?
    requires p in x.proofs && q in x.proofs && p != q && p.calculationId == q.calculationId
    ensures SameManifest(x, y) && RetainedLineages(y) != RetainedLineages(x)
  {
    hide RetainedLineages, RetainedFor, SameManifest, WithLast;
    ReusedCalculations(x);
    var id := p.calculationId;
    var other := if RetainedLineages(x).value[id].proof == p then q else p;
    var k :| 0 <= k < |x.proofs| && x.proofs[k] == other;
    y := WithLast(x, k);
    MovingKeepsRows(x, k);
    FingerprintDeterminesLineages(x, y);
    LastProofWins(y);
  }

  /** For an accepted manifest: every order of the same rows gives the same lineages exactly when no
      calculation has two different proofs. */
  lemma LineagesAreDeterminedExactlyWithOneProofEach(x: Manifest)
    requires RetainedLineages(x).Some?
    ensures (forall y :: SameManifest(x, y) ==> RetainedLineages(y) == RetainedLineages(x)) <==> OneProofEach(x)
  {
    hide RetainedLineages, SameManifest;
    if OneProofEach(x) {
      forall y | SameManifest(x, y) ensures RetainedLineages(y) == RetainedLineages(x) {
        OneProofEachIsEnough(x, y);
      }
    } else {
      var p, q :| p in x.proofs && q in x.proofs && p.calculationId == q.calculationId && p != q;
      var y := TwoProofsCompete(x, p, q);
    }
  }

  /** All proofs have one id and one image. */
  predicate OneIdentity(m: Manifest) {
    forall p, q :: p in m.proofs && q in m.proofs ==> p.id == q.id && p.imageId == q.imageId
  }

  /** The same rows with the proof at a position moved to the front. */
  function WithFirst(m: Manifest, k: nat): (y: Manifest)
    requires k < |m.proofs|
    ensures y.proofs != [] && y.proofs[0] == m.proofs[k]
  {
    m.(proofs := [m.proofs[k]] + m.proofs[..k] + m.proofs[k + 1..])
  }

  lemma MovingToFrontKeepsRows(m: Manifest, k: nat)
    requires k < |m.proofs|
    ensures SameManifest(m, WithFirst(m, k))
  {
    assert m.proofs == m.proofs[..k] + [m.proofs[k]] + m.proofs[k + 1..];
  }

  /** Two proofs of different identity: some order of the same rows names another one. */
  lemma FirstRowDecides(x: Manifest, p: ProofRecord, q: ProofRecord) returns (y: Manifest)
    requires RetainedOutcome(x).Some? && p in x.proofs && q in x.proofs && (p.id != q.id || p.imageId != q.imageId)
    ensures SameManifest(x, y) && RetainedOutcome(y) != RetainedOutcome(x)
  {
    hide RetainedLineages, RetainedFor, SameManifest, WithFirst;
    var first := x.proofs[0];
    var other := if p.id == first.id && p.imageId == first.imageId then q else p;
    var k :| 0 <= k < |x.proofs| && x.proofs[k] == other;
    y := WithFirst(x, k);
    MovingToFrontKeepsRows(x, k);
    FingerprintDeterminesLineages(x, y);
  }

  /** For an accepted manifest: every order of the same rows gives the same outcome exactly when no
      calculation has two different proofs and all proofs have one id and one image. */
  lemma FingerprintDeterminesReuseExactly(x: Manifest)
    requires RetainedOutcome(x).Some?
    ensures (forall y :: SameManifest(x, y) ==> RetainedOutcome(y) == RetainedOutcome(x))
            <==> OneProofEach(x) && OneIdentity(x)
  {
    hide RetainedOutcome, SameManifest;
    if !OneProofEach(x) {
      var p, q :| p in x.proofs && q in x.proofs && p.calculationId == q.calculationId && p != q;
      var y := TwoProofsCompete(x, p, q);
      LineagesOfOutcome(x);
      LineagesOfOutcome(y);
    } else if !OneIdentity(x) {
      var p, q :| p in x.proofs && q in x.proofs && (p.id != q.id || p.imageId != q.imageId);
      var y := FirstRowDecides(x, p, q);
    } else {
      forall y | SameManifest(x, y) ensures RetainedOutcome(y) == RetainedOutcome(x) {
        OneIdentityIsEnough(x, y);
      }
    }
  }

  lemma LineagesOfOutcome(m: Manifest)
    ensures RetainedLineages(m) == if RetainedOutcome(m).Some? then Some(RetainedOutcome(m).value.lineages) else None
  {
    hide RetainedLineages;
  }

  lemma OneIdentityIsEnough(x: Manifest, y: Manifest)
    requires RetainedOutcome(x).Some? && OneProofEach(x) && OneIdentity(x) && SameManifest(x, y)
    ensures RetainedOutcome(y) == RetainedOutcome(x)
  {
    hide RetainedLineages, RetainedFor, SameManifest;
    FingerprintDeterminesLineages(x, y);
    OneProofEachIsEnough(x, y);
    assert y.proofs[0] in x.proofs;
  }

  /** A proof's id is the primary key of its row. */
  predicate Keyed(m: Manifest) {
    forall i, j :: 0 <= i < j < |m.proofs| ==> m.proofs[i].id != m.proofs[j].id
  }

  lemma OneRowMeans(m: Manifest)
    requires Keyed(m) && m.proofs != []
    ensures OneProofEach(m) && OneIdentity(m) <==> |m.proofs| == 1
  {
    if |m.proofs| > 1 {
      assert m.proofs[0] in m.proofs && m.proofs[1] in m.proofs;
    }
  }

  /** In the table, where no two rows share an id: exactly when there is a single proof row. */
  lemma FingerprintDeterminesReuseExactlyWithOneRow(x: Manifest)
    requires RetainedOutcome(x).Some? && Keyed(x)
    ensures (forall y :: SameManifest(x, y) ==> RetainedOutcome(y) == RetainedOutcome(x)) <==> |x.proofs| == 1
  {
    hide SameManifest, OneProofEach, OneIdentity, Keyed, RetainedFor, RetainedLineages;
    FingerprintDeterminesReuseExactly(x);
    OneRowMeans(x);
  }

  // ---- Accepted manifests that the row order decides ------------------------------------

  function SampleProof(id: string, calculationId: string): ProofRecord {
    ProofRecord(id, "RUN", calculationId, BACKEND, FORMULA_ID, EXPECTED_IMAGE_ID, "impl", "sha256:in", Some("/r/" + id),
                Some("sha256:r"), Some("sha256:j"), VerifiedStatus)
  }

  function SampleCommitment(id: string, calculationId: string): Commitment {
    Commitment(id, "RUN", calculationId, FORMULA_ID, CAPABILITY_ID, "impl", ["E1", "E2"],
               Canonical(100, 110, "USD", 0), "sha256:in", "sha256:out")
  }

  function SampleVerification(id: string, proofId: string): Verification {
    Verification(id, proofId, HOST_VERIFIER, EXPECTED_IMAGE_ID, "sha256:r", "sha256:j", VerifiedStatus, true)
  }

  function SampleManifest(proofs: seq<ProofRecord>): Manifest {
    Manifest(proofs,
             [SampleCommitment("PIC1", "C1"), SampleCommitment("PIC2", "C2")],
             [SampleVerification("V1", "P1"), SampleVerification("V2", "P2")],
             [Artifact("A1", "P1", RECEIPT_TYPE, "/r/P1", "sha256:r", 1),
              Artifact("A2", "P2", RECEIPT_TYPE, "/r/P2", "sha256:r", 1)])
  }

  lemma {:induction false} OnlyMatch<T(!new)>(items: seq<T>, test: T -> bool, k: nat)
    requires k < |items| && test(items[k]) && forall i :: 0 <= i < |items| && i != k ==> !test(items[i])
    ensures Exact(items, test) == Some(items[k])
  {
    OneMatches(items, test, k);
  }

  lemma {:induction false} NoneMatches<T(!new)>(items: seq<T>, test: T -> bool)
    requires forall i :: 0 <= i < |items| ==> !test(items[i])
    ensures Matches(items, test) == []
  {
    if items != [] {
      NoneMatches(items[1..], test);
    }
  }

  lemma {:induction false} OneMatches<T(!new)>(items: seq<T>, test: T -> bool, k: nat)
    requires k < |items| && test(items[k]) && forall i :: 0 <= i < |items| && i != k ==> !test(items[i])
    ensures Matches(items, test) == [items[k]]
  {
    if k == 0 {
      NoneMatches(items[1..], test);
    } else {
      OneMatches(items[1..], test, k - 1);
    }
  }

  /** Each sample proof has its own verification and artifact, and its calculation one commitment. */
  lemma SampleIsRetained(proofs: seq<ProofRecord>, i: nat, k: nat)
    requires i < 2 && k < 2
    ensures RetainedFor(SampleManifest(proofs), SampleProof(["P1", "P2"][i], ["C1", "C2"][k])).Some?
  {
    hide Exact;
    var m, p := SampleManifest(proofs), SampleProof(["P1", "P2"][i], ["C1", "C2"][k]);
    assert "P1"[1] != "P2"[1] && "C1"[1] != "C2"[1];
    OnlyMatch(m.commitments, (x: Commitment) => x.calculationId == p.calculationId, k);
    OnlyMatch(m.verifications, (x: Verification) => x.proofId == p.id, i);
    OnlyMatch(m.artifacts, (x: Artifact) => x.proofId == p.id, i);
  }

  lemma SampleIsAccepted(first: ProofRecord, second: ProofRecord, i: nat, k: nat, j: nat, l: nat)
    requires i < 2 && k < 2 && j < 2 && l < 2
    requires first == SampleProof(["P1", "P2"][i], ["C1", "C2"][k])
    requires second == SampleProof(["P1", "P2"][j], ["C1", "C2"][l])
    ensures RetainedOutcome(SampleManifest([first, second])).Some?
    ensures RetainedOutcome(SampleManifest([first, second])).value.proofId == first.id
    ensures second.calculationId in RetainedOutcome(SampleManifest([first, second])).value.lineages
    ensures RetainedOutcome(SampleManifest([first, second])).value.lineages[second.calculationId].proof == second
  {
    hide RetainedFor, CollectLineages;
    var m := SampleManifest([first, second]);
    SampleIsRetained(m.proofs, i, k);
    SampleIsRetained(m.proofs, j, l);
    assert forall p :: p in m.proofs ==> p == first || p == second;
    assert RetainedLineages(m).Some?;
    hide RetainedLineages;
    LastProofWins(m);
  }

  lemma ReorderingKeepsRows(m: Manifest, ps: seq<ProofRecord>, qs: seq<ProofRecord>)
    requires multiset(ps) == multiset(qs)
    ensures SameManifest(m.(proofs := ps), m.(proofs := qs))
  {
  }

  lemma SamplesShareRows(first: ProofRecord, second: ProofRecord)
    ensures SameManifest(SampleManifest([first, second]), SampleManifest([second, first]))
  {
    hide SameManifest;
    ReorderingKeepsRows(SampleManifest([]), [first, second], [second, first]);
  }

  lemma TwoCalculations(p: ProofRecord, q: ProofRecord)
    requires p.calculationId != q.calculationId
    ensures OneProofEach(SampleManifest([p, q]))
  {
  }

  /** Two proofs of one calculation: the same rows in two orders are both accepted, have the same
      fingerprint, and reuse different proofs for it. */
  lemma RowOrderDecidesTheProof()
    ensures var p, q := SampleProof("P1", "C1"), SampleProof("P2", "C1");
            var x, y := SampleManifest([p, q]), SampleManifest([q, p]);
            && SameManifest(x, y) && RetainedOutcome(x).Some? && RetainedOutcome(y).Some?
            && RetainedLineages(x) != RetainedLineages(y)
  {
    hide RetainedOutcome, RetainedLineages, SampleManifest, SameManifest;
    var p, q := SampleProof("P1", "C1"), SampleProof("P2", "C1");
    SampleIsAccepted(p, q, 0, 0, 1, 0);
    SampleIsAccepted(q, p, 1, 0, 0, 0);
    SamplesShareRows(p, q);
    LineagesOfOutcome(SampleManifest([p, q]));
    LineagesOfOutcome(SampleManifest([q, p]));
    assert "P1"[1] != "P2"[1];
  }

  /** One proof for each of two calculations: no calculation has two proofs, and still the two orders give
      different outcomes. */
  lemma RowOrderDecidesTheRuntimeState()
    ensures var p, q := SampleProof("P1", "C1"), SampleProof("P2", "C2");
            var x, y := SampleManifest([p, q]), SampleManifest([q, p]);
            && OneProofEach(x) && SameManifest(x, y) && RetainedOutcome(x).Some? && RetainedOutcome(y).Some?
            && RetainedLineages(x) == RetainedLineages(y) && RetainedOutcome(x) != RetainedOutcome(y)
  {
    hide RetainedOutcome, RetainedLineages, SameManifest, SampleManifest, OneProofEach;
    var p, q := SampleProof("P1", "C1"), SampleProof("P2", "C2");
    var x, y := SampleManifest([p, q]), SampleManifest([q, p]);
    SampleIsAccepted(p, q, 0, 0, 1, 1);
    SampleIsAccepted(q, p, 1, 1, 0, 0);
    SamplesShareRows(p, q);
    assert "P1"[1] != "P2"[1] && "C1"[1] != "C2"[1];
    TwoCalculations(p, q);
    LineagesOfOutcome(x);
    OneProofEachIsEnough(x, y);
  }
}

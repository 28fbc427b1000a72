/** Closure recovery under crashes, concurrent callers and an environment that may rewrite the runs: the
    same transactions, interleaved in any order. */
module ClosureProtocol {
  import opened Wrappers
  import opened EventLog
  import opened RetainedProofs
  import opened ClosureRecovery

  /** Where a caller stands. `Failing` is inside the error handler, `Gone` has returned, raised or crashed. */
  datatype Phase =
    | Begun(captured: Captured)
    | Ready(captured: Captured, staged: Staged)
    | Released
    | Remembered
    | Failing
    | Gone

  datatype Caller = Caller(runId: RunId, phase: Phase)

  datatype State = State(store: Store, callers: map<AttemptId, Caller>)

  /** A transaction that commits is acknowledged, or its caller sees an error although it committed.
      `Raise` is any other exception of a caller that has begun, its transaction rolled back. */
  datatype Action =
    | Begin(a: AttemptId, runId: RunId, expected: Aggregate, acknowledged: bool)
    | Stage(a: AttemptId, recoveryId: string, service: Service)
    | Release(a: AttemptId, acknowledged: bool)
    | Remember(a: AttemptId)
    | Complete(a: AttemptId, acknowledged: bool)
    | NoteFailure(a: AttemptId)
    | Raise(a: AttemptId)
    | Crash(a: AttemptId)
    | Rewrite(runId: RunId, run: Option<Run>)

  function Move(s: State, a: AttemptId, phase: Phase): State
    requires a in s.callers
  {
    s.(callers := s.callers[a := s.callers[a].(phase := phase)])
  }

  /** Inserts the caller's record and moves on, or fails when the constraint refuses it. */
  function Recorded(s: State, a: AttemptId, kind: RecordKind, after: Phase, refused: Phase): State
    requires a in s.callers
  {
    var inserted := Insert(s.store, Record(s.callers[a].runId, kind, a, None));
    if inserted.Some? then Move(s.(store := inserted.value), a, after) else Move(s, a, refused)
  }

  ghost function Staging(s: State, a: AttemptId, recoveryId: string, service: Service): Phase
    requires a in s.callers && s.callers[a].phase.Begun?
  {
    var c := s.callers[a].phase.captured;
    if c.events == [] then Failing
    else
      var staged := Stages(s.callers[a].runId, c, recoveryId, service);
      if staged.Some? then Ready(c, staged.value) else Failing
  }

  ghost function Releasing(s: State, a: AttemptId, acknowledged: bool): State
    requires a in s.callers && s.callers[a].phase.Ready?
  {
    var (runId, c, staged) := (s.callers[a].runId, s.callers[a].phase.captured, s.callers[a].phase.staged);
    if |c.events| >= |staged.events| then Move(s, a, Failing)
    else
      var released := ReleaseTx(s.store, runId, a, c, staged);
      if released.Some? then Move(s.(store := released.value), a, if acknowledged then Released else Failing)
      else Move(s, a, Failing)
  }

  predicate InHandler(phase: Phase) {
    phase.Begun? || phase.Ready? || phase.Released? || phase.Remembered?
  }

  /** One atomic step; a step that is not the caller's next one does nothing. */
  ghost function Step(s: State, action: Action): State {
    match action
    case Begin(a, runId, expected, acknowledged) =>
      if a in s.callers then s
      else if Eligible(s.store, runId, expected) then
        var c := Capture(s.store.runs[runId]);
        // The first transaction is outside the error handler: an error there leaves the caller gone.
        State(s.store.(records := s.store.records + [StartedRecord(runId, a, c)]),
              s.callers[a := Caller(runId, if acknowledged then Begun(c) else Gone)])
      else s.(callers := s.callers[a := Caller(runId, Gone)])
    case Stage(a, recoveryId, service) =>
      if a in s.callers && s.callers[a].phase.Begun? then Move(s, a, Staging(s, a, recoveryId, service)) else s
    case Release(a, acknowledged) =>
      if a in s.callers && s.callers[a].phase.Ready? then Releasing(s, a, acknowledged) else s
    case Remember(a) =>
      if a in s.callers && s.callers[a].phase.Released? then Move(s, a, Remembered) else s
    case Complete(a, acknowledged) =>
      if a in s.callers && s.callers[a].phase.Remembered?
      then Recorded(s, a, CompletedKind, if acknowledged then Gone else Failing, Failing) else s
    case NoteFailure(a) =>
      if a in s.callers && s.callers[a].phase.Failing? then Recorded(s, a, FailedKind, Gone, Gone) else s
    case Raise(a) =>
      if a in s.callers && InHandler(s.callers[a].phase) then Move(s, a, Failing) else s
    case Crash(a) =>
      if a in s.callers then Move(s, a, Gone) else s
    case Rewrite(runId, run) =>
      s.(store := s.store.(runs := if run.Some? then s.store.runs[runId := run.value] else s.store.runs - {runId}))
  }

  /** From any runs, with nothing recorded and nobody calling. */
  ghost function Execution(runs: map<RunId, Run>, actions: seq<Action>): State {
    if actions == [] then State(Store(runs, []), map[])
    else Step(Execution(runs, actions[..|actions| - 1]), actions[|actions| - 1])
  }

  lemma OneMore(runs: map<RunId, Run>, actions: seq<Action>, action: Action)
    ensures Execution(runs, actions + [action]) == Step(Execution(runs, actions), action)
  {
    hide Step;
    assert (actions + [action])[..|actions|] == actions;
  }

  // ---- The history of one run -----------------------------------------------------------

  function OfRun(records: seq<Record>, runId: RunId): (h: seq<Record>)
    ensures forall r :: r in h <==> r in records && r.runId == runId
  {
    if records == [] then []
    else
      assert records == records[..|records| - 1] + [records[|records| - 1]];
      OfRun(records[..|records| - 1], runId)
      + if records[|records| - 1].runId == runId then [records[|records| - 1]] else []
  }

  lemma OfRunAppend(records: seq<Record>, r: Record, runId: RunId)
    ensures r.runId == runId ==> OfRun(records + [r], runId) == OfRun(records, runId) + [r]
    ensures r.runId != runId ==> OfRun(records + [r], runId) == OfRun(records, runId)
  {
    assert (records + [r])[..|records|] == records;
  }

  lemma {:induction false} NothingRecorded(records: seq<Record>, runId: RunId)
    requires !HasAnyRecord(records, runId)
    ensures OfRun(records, runId) == []
  {
    if records != [] {
      assert records[|records| - 1] in records;
      assert forall r :: r in records[..|records| - 1] ==> r in records;
      NothingRecorded(records[..|records| - 1], runId);
    }
  }

  function Kinds(h: seq<Record>): seq<RecordKind> {
    seq(|h|, i requires 0 <= i < |h| => h[i].kind)
  }

  /** The only histories that closure records can form. */
  predicate LegalKinds(ks: seq<RecordKind>) {
    || ks == [] || ks == [StartedKind] || ks == [StartedKind, FailedKind] || ks == [StartedKind, ReleasedKind]
    || ks == [StartedKind, ReleasedKind, FailedKind] || ks == [StartedKind, ReleasedKind, CompletedKind]
    || ks == [StartedKind, ReleasedKind, CompletedKind, FailedKind]
  }

  ghost predicate LegalHistory(h: seq<Record>) {
    && LegalKinds(Kinds(h))
    && (forall r :: r in h ==> r.attempt == h[0].attempt)
    && (h != [] ==> h[0].captured.Some?)
  }

  /** What a caller in a phase knows about its run's history. */
  ghost predicate PhaseHolds(a: AttemptId, caller: Caller, h: seq<Record>) {
    match caller.phase
    case Begun(c) => h == [StartedRecord(caller.runId, a, c)] && CapturedSound(caller.runId, c)
    case Ready(c, staged) =>
      && h == [StartedRecord(caller.runId, a, c)] && CapturedSound(caller.runId, c)
      && StagedSound(caller.runId, c, staged)
    case Released => Owns(a, h) && Kinds(h) == [StartedKind, ReleasedKind]
    case Remembered => Owns(a, h) && Kinds(h) == [StartedKind, ReleasedKind]
    case Failing =>
      && Owns(a, h)
      && (|| Kinds(h) == [StartedKind] || Kinds(h) == [StartedKind, ReleasedKind]
          || Kinds(h) == [StartedKind, ReleasedKind, CompletedKind])
    case Gone => true
  }

  predicate Owns(a: AttemptId, h: seq<Record>) {
    h != [] && h[0].attempt == a
  }

  ghost predicate CapturedSound(runId: RunId, c: Captured) {
    ValidLog(runId, c.events) && FailedHistory(c.events)
  }

  ghost predicate StagedSound(runId: RunId, c: Captured, staged: Staged) {
    && c.events != [] && |c.events| < |staged.events| && c.events <= staged.events && ValidLog(runId, staged.events)
    && staged.events[|c.events|].kind == ClosureRecoveryStarted
    && staged.events[|c.events|].failedEventId == Some(LastEvent(c.events).id)
  }

  ghost predicate Inv(s: State) {
    && (forall runId :: LegalHistory(OfRun(s.store.records, runId)))
    && (forall r :: r in s.store.records ==> r.attempt in s.callers)
    && (forall a :: a in s.callers ==> PhaseHolds(a, s.callers[a], OfRun(s.store.records, s.callers[a].runId)))
  }

  /** The record that a step appends to the table. */
  predicate Appends(s: State, t: State, r: Record) {
    t.store.records == s.store.records + [r]
  }

  // ---- Each step keeps it ---------------------------------------------------------------

  /** A step that records nothing and moves one caller. */
  lemma MoveKeepsInv(s: State, t: State, a: AttemptId)
    requires Inv(s) && a in t.callers && t.callers == s.callers[a := t.callers[a]] && t.store.records == s.store.records
    requires PhaseHolds(a, t.callers[a], OfRun(s.store.records, t.callers[a].runId))
    ensures Inv(t)
  {
    hide PhaseHolds, LegalHistory;
  }

  /** The insert is not refused when the history has no such record. */
  lemma InsertSucceeds(s: Store, r: Record)
    ensures Insert(s, r).Some? <==> forall x :: x in OfRun(s.records, r.runId) ==> x.kind != r.kind
  {
  }

  /** A live caller is the only one on its run: everybody else there is gone. */
  lemma OthersAreGone(s: State, a: AttemptId, b: AttemptId, runId: RunId)
    requires Inv(s) && b in s.callers && s.callers[b].runId == runId && b != a
    requires Owns(a, OfRun(s.store.records, runId)) || OfRun(s.store.records, runId) == []
    ensures s.callers[b].phase.Gone?
  {
    hide LegalHistory;
    assert PhaseHolds(b, s.callers[b], OfRun(s.store.records, runId));
  }

  /** A caller appends its next record: its own history grows legally, every other history is untouched. */
  lemma RecordKeepsInv(s: State, t: State, a: AttemptId, r: Record)
    requires Inv(s) && r.attempt == a && a in t.callers && t.callers == s.callers[a := t.callers[a]]
    requires t.store.records == s.store.records + [r] && t.callers[a].runId == r.runId
    requires Owns(a, OfRun(s.store.records, r.runId)) || OfRun(s.store.records, r.runId) == []
    requires LegalHistory(OfRun(s.store.records, r.runId) + [r])
    requires PhaseHolds(a, t.callers[a], OfRun(s.store.records, r.runId) + [r])
    ensures Inv(t)
  {
    hide PhaseHolds, LegalHistory, OfRun, Owns;
    forall runId ensures LegalHistory(OfRun(t.store.records, runId)) {
      OfRunAppend(s.store.records, r, runId);
      assert LegalHistory(OfRun(s.store.records, runId));
    }
    forall b | b in t.callers ensures PhaseHolds(b, t.callers[b], OfRun(t.store.records, t.callers[b].runId)) {
      OfRunAppend(s.store.records, r, t.callers[b].runId);
      if b != a {
        assert PhaseHolds(b, s.callers[b], OfRun(s.store.records, s.callers[b].runId));
        if s.callers[b].runId == r.runId {
          OthersAreGone(s, a, b, r.runId);
          GoneHolds(b, t.callers[b], OfRun(t.store.records, r.runId));
        }
      }
    }
  }

  lemma GoneHolds(a: AttemptId, caller: Caller, h: seq<Record>)
    requires caller.phase.Gone?
    ensures PhaseHolds(a, caller, h)
  {
  }

  lemma KindsAppend(h: seq<Record>, r: Record)
    ensures Kinds(h + [r]) == Kinds(h) + [r.kind]
  {
  }

  lemma BeginKeepsInv(s: State, a: AttemptId, runId: RunId, expected: Aggregate, acknowledged: bool)
    requires Inv(s)
    ensures Inv(Step(s, Begin(a, runId, expected, acknowledged)))
  {
    hide PhaseHolds, LegalHistory, ValidLog, RetainedOutcome, OfRun, FailedHistory;
    var t := Step(s, Begin(a, runId, expected, acknowledged));
    if a !in s.callers {
      var h := OfRun(s.store.records, runId);
      if Eligible(s.store, runId, expected) {
        var c := Capture(s.store.runs[runId]);
        var r := StartedRecord(runId, a, c);
        NothingRecorded(s.store.records, runId);
        assert h + [r] == [r];
        FirstRecord(a, runId, c);
        if !acknowledged {
          GoneHolds(a, t.callers[a], [r]);
        }
        RecordKeepsInv(s, t, a, r);
      } else {
        GoneHolds(a, t.callers[a], h);
        MoveKeepsInv(s, t, a);
      }
    }
  }

  lemma FirstRecord(a: AttemptId, runId: RunId, c: Captured)
    requires CapturedSound(runId, c)
    ensures LegalHistory([StartedRecord(runId, a, c)])
    ensures PhaseHolds(a, Caller(runId, Begun(c)), [StartedRecord(runId, a, c)])
  {
    assert Kinds([StartedRecord(runId, a, c)]) == [StartedKind];
  }

  /** A closing record, or the release, extends a history of the caller's own legally. */
  lemma NextRecord(a: AttemptId, h: seq<Record>, r: Record)
    requires LegalHistory(h) && Owns(a, h) && r.attempt == a
    requires (Kinds(h) == [StartedKind] && r.kind in {ReleasedKind, FailedKind})
             || (Kinds(h) == [StartedKind, ReleasedKind] && r.kind in {CompletedKind, FailedKind})
             || (Kinds(h) == [StartedKind, ReleasedKind, CompletedKind] && r.kind == FailedKind)
    ensures LegalHistory(h + [r]) && Owns(a, h + [r]) && Kinds(h + [r]) == Kinds(h) + [r.kind]
    ensures forall x :: x in h ==> x.kind != r.kind
  {
    KindsAppend(h, r);
    forall x | x in h ensures x.kind != r.kind {
      var i :| 0 <= i < |h| && h[i] == x;
      assert Kinds(h)[i] == x.kind;
    }
  }

  lemma StageKeepsInv(s: State, a: AttemptId, recoveryId: string, service: Service)
    requires Inv(s)
    ensures Inv(Step(s, Stage(a, recoveryId, service)))
  {
    hide LegalHistory, ValidLog, OfRun, FailedHistory, Stages;
    if a in s.callers && s.callers[a].phase.Begun? {
      var t := Step(s, Stage(a, recoveryId, service));
      var (runId, c) := (s.callers[a].runId, s.callers[a].phase.captured);
      assert PhaseHolds(a, s.callers[a], OfRun(s.store.records, runId));
      if c.events != [] && Stages(runId, c, recoveryId, service).Some? {
        StagingKeepsHistory(runId, c, recoveryId, service);
      } else {
        assert Kinds([StartedRecord(runId, a, c)]) == [StartedKind];
      }
      MoveKeepsInv(s, t, a);
    }
  }

  lemma ReleaseKeepsInv(s: State, a: AttemptId, acknowledged: bool)
    requires Inv(s)
    ensures Inv(Step(s, Release(a, acknowledged)))
  {
    hide LegalHistory, OfRun, Unchanged, Insert, ReleasedRun, CapturedSound, StagedSound;
    if a in s.callers && s.callers[a].phase.Ready? {
      var t := Step(s, Release(a, acknowledged));
      var (runId, c, staged) := (s.callers[a].runId, s.callers[a].phase.captured, s.callers[a].phase.staged);
      var h := OfRun(s.store.records, runId);
      assert PhaseHolds(a, s.callers[a], h);
      assert LegalHistory(h);
      assert Kinds(h) == [StartedKind];
      var r := Record(runId, ReleasedKind, a, None);
      NextRecord(a, h, r);
      if |c.events| < |staged.events| && ReleaseTx(s.store, runId, a, c, staged).Some? {
        assert t.store.records == s.store.records + [r] by { ReleaseTxRecords(s.store, runId, a, c, staged); }
        RecordKeepsInv(s, t, a, r);
      } else {
        MoveKeepsInv(s, t, a);
      }
    }
  }

  lemma ReleaseTxRecords(s: Store, runId: RunId, a: AttemptId, c: Captured, staged: Staged)
    requires |c.events| < |staged.events| && ReleaseTx(s, runId, a, c, staged).Some?
    ensures ReleaseTx(s, runId, a, c, staged).value.records == s.records + [Record(runId, ReleasedKind, a, None)]
  {
  }

  lemma RecordedKeepsInv(s: State, a: AttemptId, kind: RecordKind, after: Phase, refused: Phase)
    requires Inv(s) && a in s.callers && refused in {Failing, Gone}
    requires || (s.callers[a].phase == Remembered && kind == CompletedKind && after in {Failing, Gone})
             || (s.callers[a].phase == Failing && kind == FailedKind && after == Gone)
    ensures Inv(Recorded(s, a, kind, after, refused))
    ensures Appends(s, Recorded(s, a, kind, after, refused), Record(s.callers[a].runId, kind, a, None))
  {
    hide LegalHistory, OfRun;
    var t := Recorded(s, a, kind, after, refused);
    var runId := s.callers[a].runId;
    var h := OfRun(s.store.records, runId);
    assert PhaseHolds(a, s.callers[a], h);
    assert LegalHistory(h);
    var r := Record(runId, kind, a, None);
    NextRecord(a, h, r);
    InsertSucceeds(s.store, r);
    RecordKeepsInv(s, t, a, r);
  }

  lemma RaiseKeepsInv(s: State, a: AttemptId)
    requires Inv(s)
    ensures Inv(Step(s, Raise(a)))
  {
    hide LegalHistory, OfRun, CapturedSound, StagedSound;
    if a in s.callers && InHandler(s.callers[a].phase) {
      var h := OfRun(s.store.records, s.callers[a].runId);
      assert PhaseHolds(a, s.callers[a], h);
      assert h != [] && |h| == 1 ==> Kinds(h) == [h[0].kind];
      MoveKeepsInv(s, Step(s, Raise(a)), a);
    }
  }

  lemma StepKeepsInv(s: State, action: Action)
    requires Inv(s)
    ensures Inv(Step(s, action))
  {
    hide LegalHistory, OfRun, Eligible, Staging, Releasing, Recorded, CapturedSound, StagedSound;
    match action
    case Begin(a, runId, expected, acknowledged) => BeginKeepsInv(s, a, runId, expected, acknowledged);
    case Stage(a, recoveryId, service) => StageKeepsInv(s, a, recoveryId, service);
    case Release(a, acknowledged) => ReleaseKeepsInv(s, a, acknowledged);
    case Remember(a) =>
      if a in s.callers && s.callers[a].phase.Released? {
        assert PhaseHolds(a, s.callers[a], OfRun(s.store.records, s.callers[a].runId));
        MoveKeepsInv(s, Step(s, action), a);
      }
    case Complete(a, acknowledged) =>
      if a in s.callers && s.callers[a].phase.Remembered? {
        RecordedKeepsInv(s, a, CompletedKind, if acknowledged then Gone else Failing, Failing);
      }
    case NoteFailure(a) =>
      if a in s.callers && s.callers[a].phase.Failing? {
        RecordedKeepsInv(s, a, FailedKind, Gone, Gone);
      }
    case Raise(a) =>
      RaiseKeepsInv(s, a);
    case Crash(a) =>
      if a in s.callers {
        MoveKeepsInv(s, Step(s, action), a);
      }
    case Rewrite(_, _) =>
  }

  lemma {:induction false} ExecutionsKeepInv(runs: map<RunId, Run>, actions: seq<Action>)
    ensures Inv(Execution(runs, actions))
  {
    hide Step;
    if actions == [] {
      assert forall runId :: OfRun([], runId) == [];
    } else {
      ExecutionsKeepInv(runs, actions[..|actions| - 1]);
      StepKeepsInv(Execution(runs, actions[..|actions| - 1]), actions[|actions| - 1]);
    }
  }

  // ---- Theorems -------------------------------------------------------------------------

  /** In every execution, whatever interleaves, is not acknowledged, raises or crashes, each run's closure
      records are one of seven histories, all of one attempt. */
  lemma EveryRunHasOneLegalHistory(runs: map<RunId, Run>, actions: seq<Action>, runId: RunId)
    ensures LegalHistory(OfRun(Execution(runs, actions).store.records, runId))
  {
    ExecutionsKeepInv(runs, actions);
  }

  function Index(h: seq<Record>, kind: RecordKind): (i: nat)
    ensures i <= |h|
    ensures i < |h| ==> h[i].kind == kind
    ensures forall j :: 0 <= j < i ==> h[j].kind != kind
  {
    if h == [] || h[0].kind == kind then 0
    else
      assert forall j :: 0 < j < |h| ==> h[j] == h[1..][j - 1];
      1 + Index(h[1..], kind)
  }

  predicate Has(h: seq<Record>, kind: RecordKind) {
    Index(h, kind) < |h|
  }

  /** The position of a kind in the list of kinds. */
  lemma IndexInKinds(h: seq<Record>, kind: RecordKind)
    ensures Index(h, kind) < |h| ==> Kinds(h)[Index(h, kind)] == kind
    ensures forall j :: 0 <= j < Index(h, kind) ==> Kinds(h)[j] != kind
  {
    assert forall j :: 0 <= j < |h| ==> Kinds(h)[j] == h[j].kind;
  }

  lemma LegalKindsMean(ks: seq<RecordKind>)
    requires LegalKinds(ks)
    ensures forall i, j :: 0 <= i < j < |ks| ==> ks[i] != ks[j]
    ensures ks != [] ==> ks[0] == StartedKind
    ensures forall i :: 0 <= i < |ks| && ks[i] == ReleasedKind ==> i == 1
    ensures forall i :: 0 <= i < |ks| && ks[i] == CompletedKind ==> i == 2 && ks[1] == ReleasedKind
    ensures forall i :: 0 <= i < |ks| && ks[i] == FailedKind ==> i == |ks| - 1 > 0
  {
  }

  /** What a legal history means record by record. */
  lemma LegalHistoryMeans(h: seq<Record>)
    requires LegalHistory(h)
    ensures forall i, j :: 0 <= i < j < |h| ==> h[i].kind != h[j].kind
    ensures h != [] ==> h[0].kind == StartedKind
    ensures Has(h, CompletedKind) ==> Has(h, ReleasedKind) && Index(h, ReleasedKind) < Index(h, CompletedKind)
    ensures Has(h, ReleasedKind) ==> 0 < Index(h, ReleasedKind)
    ensures Has(h, FailedKind) ==> Index(h, FailedKind) == |h| - 1 > 0
    ensures forall r :: r in h ==> r.attempt == h[0].attempt
  {
    hide Index, LegalKinds;
    LegalKindsMean(Kinds(h));
    IndexInKinds(h, ReleasedKind);
    IndexInKinds(h, CompletedKind);
    IndexInKinds(h, FailedKind);
    assert forall i :: 0 <= i < |h| ==> Kinds(h)[i] == h[i].kind;
  }

  /** The authorization is spent for ever: once anything is recorded for a run, no later call starts. */
  lemma {:induction false} AuthorizationIsSpent(runs: map<RunId, Run>, actions: seq<Action>, i: nat, a: AttemptId,
                                                runId: RunId, expected: Aggregate)
    requires i <= |actions| && HasAnyRecord(Execution(runs, actions[..i]).store.records, runId)
    ensures HasAnyRecord(Execution(runs, actions).store.records, runId)
    ensures forall ack ::
              Step(Execution(runs, actions), Begin(a, runId, expected, ack)).store == Execution(runs, actions).store
    decreases |actions| - i
  {
    hide Step;
    if i == |actions| {
      assert actions[..i] == actions;
      BeginIsRefused(Execution(runs, actions), a, runId, expected);
    } else {
      assert actions[..i + 1][..i] == actions[..i];
      RecordsStay(Execution(runs, actions[..i]), actions[i]);
      AuthorizationIsSpent(runs, actions, i + 1, a, runId, expected);
    }
  }

  lemma BeginIsRefused(s: State, a: AttemptId, runId: RunId, expected: Aggregate)
    requires HasAnyRecord(s.store.records, runId)
    ensures forall ack :: Step(s, Begin(a, runId, expected, ack)).store == s.store
  {
  }

  lemma RecordsStay(s: State, action: Action)
    ensures s.store.records <= Step(s, action).store.records
  {
    hide Eligible, Staging, Unchanged, ReleasedRun;
  }

  /** The caller's release commits on exactly what its own STARTED record captured: aggregate, events and
      proofs are as they were; the released log is the failed log, reopened and continued; no other run
      is touched. */
  ghost predicate ReleasesTheCaptured(s: State, t: State, a: AttemptId) {
    && a in s.callers && s.callers[a].phase.Ready?
    && var (runId, c, staged) := (s.callers[a].runId, s.callers[a].phase.captured, s.callers[a].phase.staged);
       && Appends(s, t, Record(runId, ReleasedKind, a, None))
       && OfRun(s.store.records, runId) == [StartedRecord(runId, a, c)]
       && CapturedSound(runId, c) && StagedSound(runId, c, staged)
       && runId in s.store.runs && runId in t.store.runs
       && ReleasedAs(s.store.runs[runId], t.store.runs[runId], c, staged)
       && t.store.runs == s.store.runs[runId := t.store.runs[runId]]
  }

  ghost predicate ReleasedAs(before: Run, after: Run, c: Captured, staged: Staged) {
    && before.aggregate == c.snapshot && before.events == c.events && SameManifest(before.proofs, c.proofs)
    && after.events == staged.events && after.aggregate == staged.aggregate && after.proofs == before.proofs
    && after.status == "RELEASED" && after.revision == before.revision + 1 && after.projection == |staged.events|
  }

  /** A release commits only on exactly what was captured, whatever happened to the run in between. */
  lemma ReleaseCommitsOnlyTheCaptured(runs: map<RunId, Run>, actions: seq<Action>, a: AttemptId, acknowledged: bool)
    requires var s := Execution(runs, actions); Step(s, Release(a, acknowledged)).store != s.store
    ensures ReleasesTheCaptured(Execution(runs, actions), Step(Execution(runs, actions), Release(a, acknowledged)), a)
  {
    hide LegalHistory, OfRun, CapturedSound, StagedSound, SameManifest, Insert, ReleaseTx, ReleasedAs;
    var s := Execution(runs, actions);
    ExecutionsKeepInv(runs, actions);
    SameRecords(s, a, acknowledged);
    var (runId, c, staged) := (s.callers[a].runId, s.callers[a].phase.captured, s.callers[a].phase.staged);
    assert PhaseHolds(a, s.callers[a], OfRun(s.store.records, runId));
    StagedShape(runId, c, staged);
    ReleaseTxMeans(s.store, runId, a, c, staged);
  }

  lemma SameRecords(s: State, a: AttemptId, acknowledged: bool)
    ensures !(a in s.callers && s.callers[a].phase.Ready?) ==> Step(s, Release(a, acknowledged)) == s
  {
  }

  lemma StagedShape(runId: RunId, c: Captured, staged: Staged)
    requires StagedSound(runId, c, staged)
    ensures |c.events| < |staged.events| && c.events + staged.events[|c.events|..] == staged.events
    ensures LastEvent(staged.events).sequence == |staged.events|
  {
    hide ValidLog;
    FollowedAt(runId, staged.events, |staged.events| - 1);
  }

  lemma ReleaseTxMeans(s: Store, runId: RunId, a: AttemptId, c: Captured, staged: Staged)
    requires |c.events| < |staged.events| && ReleaseTx(s, runId, a, c, staged).Some?
    requires c.events + staged.events[|c.events|..] == staged.events
             && LastEvent(staged.events).sequence == |staged.events|
    ensures var t := ReleaseTx(s, runId, a, c, staged).value;
            && runId in s.runs && runId in t.runs && t.runs == s.runs[runId := t.runs[runId]]
            && ReleasedAs(s.runs[runId], t.runs[runId], c, staged)
            && t.records == s.records + [Record(runId, ReleasedKind, a, None)]
  {
    hide SameManifest, RetainedOutcome;
  }

  /** Nothing else that callers do touches a run: not staging, not failing, not crashing, not a release
      that does not commit. */
  lemma OnlyReleasesWriteRuns(s: State, action: Action)
    requires !action.Rewrite?
    ensures Step(s, action).store.runs == s.store.runs
            || (action.Release? && Step(s, action).store.records != s.store.records)
  {
    hide Eligible, Staging, Unchanged, ReleasedRun;
  }

  /** No insert that a caller makes after its STARTED record is ever refused: a failure is always noted. */
  lemma LaterInsertsNeverCollide(runs: map<RunId, Run>, actions: seq<Action>, a: AttemptId, acknowledged: bool)
    requires a in Execution(runs, actions).callers
    ensures var s := Execution(runs, actions);
            var runId := s.callers[a].runId;
            && (s.callers[a].phase.Failing? ==> Appends(s, Step(s, NoteFailure(a)), Record(runId, FailedKind, a, None)))
            && (s.callers[a].phase.Remembered? ==>
                  Appends(s, Step(s, Complete(a, acknowledged)), Record(runId, CompletedKind, a, None)))
            && (s.callers[a].phase.Ready? && |s.callers[a].phase.captured.events| < |s.callers[a].phase.staged.events|
                && Unchanged(s.store, runId, s.callers[a].phase.captured) ==>
                  Appends(s, Step(s, Release(a, acknowledged)), Record(runId, ReleasedKind, a, None)))
  {
    hide LegalHistory, OfRun, CapturedSound, StagedSound, Unchanged, ReleasedRun;
    var s := Execution(runs, actions);
    ExecutionsKeepInv(runs, actions);
    var h := OfRun(s.store.records, s.callers[a].runId);
    assert PhaseHolds(a, s.callers[a], h) && LegalHistory(h);
    var kind := if s.callers[a].phase.Remembered? then CompletedKind
                else if s.callers[a].phase.Ready? then ReleasedKind else FailedKind;
    if s.callers[a].phase in {Failing, Remembered} || s.callers[a].phase.Ready? {
      assert s.callers[a].phase.Ready? ==> Kinds(h) == [StartedKind];
      NextRecord(a, h, Record(s.callers[a].runId, kind, a, None));
      InsertSucceeds(s.store, Record(s.callers[a].runId, kind, a, None));
    }
  }

  /** A staged caller's release commits exactly when aggregate, events and proofs are the captured ones;
      the status of the row has no part in it. */
  lemma ReleaseCommitsExactlyWhenUnchanged(runs: map<RunId, Run>, actions: seq<Action>, a: AttemptId,
                                           acknowledged: bool)
    requires a in Execution(runs, actions).callers && Execution(runs, actions).callers[a].phase.Ready?
    ensures var s := Execution(runs, actions);
            var runId := s.callers[a].runId;
            Appends(s, Step(s, Release(a, acknowledged)), Record(runId, ReleasedKind, a, None))
            <==> Unchanged(s.store, runId, s.callers[a].phase.captured)
  {
    hide LegalHistory, OfRun, CapturedSound, Unchanged, ReleasedRun;
    var s := Execution(runs, actions);
    ExecutionsKeepInv(runs, actions);
    assert PhaseHolds(a, s.callers[a], OfRun(s.store.records, s.callers[a].runId));
    LaterInsertsNeverCollide(runs, actions, a, acknowledged);
  }

  /** A caller that has released, and whose memory step raises, leaves STARTED, RELEASED, FAILED: the run
      stays released although its recovery is recorded as failed. */
  lemma ReleasedMayStillFail(runs: map<RunId, Run>, actions: seq<Action>, a: AttemptId)
    requires a in Execution(runs, actions).callers && Execution(runs, actions).callers[a].phase.Released?
    ensures var s := Execution(runs, actions);
            var t := Execution(runs, actions + [Raise(a)] + [NoteFailure(a)]);
            && Kinds(OfRun(t.store.records, s.callers[a].runId)) == [StartedKind, ReleasedKind, FailedKind]
            && t.store.runs == s.store.runs
  {
    hide LegalHistory, OfRun, Execution, Step, Kinds, CapturedSound, StagedSound;
    var s := Execution(runs, actions);
    var raised := actions + [Raise(a)];
    var h := OfRun(s.store.records, s.callers[a].runId);
    ExecutionsKeepInv(runs, actions);
    assert PhaseHolds(a, s.callers[a], h);
    OneMore(runs, actions, Raise(a));
    RaiseFromReleased(s, a);
    OneMore(runs, raised, NoteFailure(a));
    LaterInsertsNeverCollide(runs, raised, a, true);
    OnlyReleasesWriteRuns(Execution(runs, raised), NoteFailure(a));
    var r := Record(s.callers[a].runId, FailedKind, a, None);
    OfRunAppend(s.store.records, r, s.callers[a].runId);
    KindsAppend(h, r);
  }

  lemma RaiseFromReleased(s: State, a: AttemptId)
    requires a in s.callers && s.callers[a].phase.Released?
    ensures Step(s, Raise(a)) == Move(s, a, Failing)
  {
  }

  // ---- Where a caller goes --------------------------------------------------------------

  /** A staged caller is released when its commit is acknowledged, and otherwise in its error handler,
      whether the transaction committed unseen or was refused. */
  lemma ReleaseMovesOn(runs: map<RunId, Run>, actions: seq<Action>, a: AttemptId, acknowledged: bool)
    requires a in Execution(runs, actions).callers && Execution(runs, actions).callers[a].phase.Ready?
    ensures var s := Execution(runs, actions);
            var t := Step(s, Release(a, acknowledged));
            && a in t.callers
            && t.callers[a].phase == if acknowledged
            && Unchanged(s.store, s.callers[a].runId, s.callers[a].phase.captured)
                                     then Released else Failing
  {
    hide LegalHistory, OfRun, CapturedSound, Unchanged, ReleasedRun, HasRecord;
    ReleaseCommitsExactlyWhenUnchanged(runs, actions, a, acknowledged);
  }

  /** A caller that crashed, or was never let in, takes no further step. */
  lemma GoneForGood(s: State, action: Action, a: AttemptId)
    requires a in s.callers
    ensures action == Crash(a) ==> a in Step(s, action).callers && Step(s, action).callers[a].phase.Gone?
    ensures s.callers[a].phase.Gone? ==> a in Step(s, action).callers && Step(s, action).callers[a].phase.Gone?
    ensures s.callers[a].phase.Gone? && !action.Rewrite? && action.a == a ==> Step(s, action).store == s.store
  {
    hide Eligible, Unchanged, ReleasedRun, Stages;
  }

  // ---- When COMPLETED and FAILED stand together -----------------------------------------

  /** The step at this position appended the record. */
  ghost predicate Commits(runs: map<RunId, Run>, actions: seq<Action>, i: nat, r: Record)
    requires i < |actions|
  {
    Appends(Execution(runs, actions[..i]), Execution(runs, actions[..i + 1]), r)
  }

  /** At the first position a COMPLETED of the run committed without its caller learning it, at the second
      that caller's failure was noted. */
  ghost predicate Misread(runs: map<RunId, Run>, actions: seq<Action>, runId: RunId, i: nat, j: nat, a: AttemptId) {
    && i < j < |actions|
    && actions[i] == Complete(a, false) && Commits(runs, actions, i, Record(runId, CompletedKind, a, None))
    && actions[j] == NoteFailure(a) && Commits(runs, actions, j, Record(runId, FailedKind, a, None))
  }

  /** The run has a record of the kind. */
  predicate Holds(s: State, runId: RunId, kind: RecordKind) {
    exists r :: r in s.store.records && r.runId == runId && r.kind == kind
  }

  lemma HoldsInHistory(s: State, runId: RunId, kind: RecordKind)
    ensures Holds(s, runId, kind) <==> Has(OfRun(s.store.records, runId), kind)
  {
    var h := OfRun(s.store.records, runId);
    if Has(h, kind) {
      assert h[Index(h, kind)] in h;
    } else {
      assert forall r :: r in h ==> r.kind != kind;
    }
  }

  lemma KindsOfHistory(h: seq<Record>, kind: RecordKind)
    ensures kind in Kinds(h) <==> exists r :: r in h && r.kind == kind
  {
    assert forall i :: 0 <= i < |h| ==> Kinds(h)[i] == h[i].kind && h[i] in h;
  }

  /** Only a COMPLETED transaction inserts COMPLETED, and only the error handler inserts FAILED. */
  lemma InsertedBy(s: State, action: Action, r: Record)
    requires r in Step(s, action).store.records && r !in s.store.records
    requires r.kind in {CompletedKind, FailedKind}
    ensures Appends(s, Step(s, action), r) && r.captured == None && r.attempt in s.callers
    ensures s.callers[r.attempt].runId == r.runId
    ensures r.kind == CompletedKind ==>
              action.Complete? && action.a == r.attempt && s.callers[r.attempt].phase.Remembered?
    ensures r.kind == FailedKind ==> action == NoteFailure(r.attempt) && s.callers[r.attempt].phase.Failing?
  {
    hide Eligible, Staging, Unchanged, ReleasedRun;
  }

  /** This caller is about to note the failure of a run that is already recorded as completed. */
  ghost predicate Misled(s: State, runId: RunId, a: AttemptId) {
    a in s.callers && s.callers[a] == Caller(runId, Failing) && Holds(s, runId, CompletedKind)
  }

  /** A live caller whose work is not done has no COMPLETED on its run. */
  lemma NotCompletedYet(s: State, runId: RunId, a: AttemptId)
    requires Inv(s) && a in s.callers && s.callers[a].runId == runId && InHandler(s.callers[a].phase)
    ensures !Holds(s, runId, CompletedKind) && !Holds(s, runId, FailedKind)
    ensures Owns(a, OfRun(s.store.records, runId))
  {
    hide OfRun, CapturedSound, StagedSound, LegalHistory;
    var h := OfRun(s.store.records, runId);
    assert PhaseHolds(a, s.callers[a], h);
    assert |h| == 1 ==> Kinds(h) == [h[0].kind];
    KindsOfHistory(h, CompletedKind);
    KindsOfHistory(h, FailedKind);
    assert forall r :: r in s.store.records && r.runId == runId ==> r in h;
  }

  /** Callers keep their run, and only a step of their own moves them; into the handler only from within it. */
  lemma OwnSteps(s: State, action: Action, a: AttemptId)
    requires a in Step(s, action).callers && Step(s, action).callers[a].phase.Failing?
    ensures a in s.callers && s.callers[a].runId == Step(s, action).callers[a].runId
    ensures s.callers[a].phase.Failing? || InHandler(s.callers[a].phase)
    ensures action.Complete? && action.a == a && action.acknowledged ==>
              s.callers[a].phase.Failing? || Step(s, action).store == s.store
    ensures action.Complete? && action.a != a ==> s.callers[a] == Step(s, action).callers[a]
  {
    hide Eligible, Unchanged, ReleasedRun, Stages;
  }

  /** The one step that misleads a caller: its own COMPLETED, committed and not acknowledged. */
  lemma MisledBy(s: State, action: Action, runId: RunId, a: AttemptId)
    requires Inv(s) && Misled(Step(s, action), runId, a)
    ensures || Misled(s, runId, a)
            || (action == Complete(a, false) && Appends(s, Step(s, action), Record(runId, CompletedKind, a, None)))
  {
    hide Step, Inv, OfRun, PhaseHolds;
    var t := Step(s, action);
    OwnSteps(s, action, a);
    if Holds(s, runId, CompletedKind) {
      if !s.callers[a].phase.Failing? {
        NotCompletedYet(s, runId, a);
      }
    } else {
      var r :| r in t.store.records && r.runId == runId && r.kind == CompletedKind;
      InsertedBy(s, action, r);
      if r.attempt != a {
        NotCompletedYet(s, runId, r.attempt);
        OthersAreGone(s, r.attempt, a, runId);
      }
    }
  }

  lemma {:induction false} MisledSince(runs: map<RunId, Run>, actions: seq<Action>, n: nat, runId: RunId, a: AttemptId)
    returns (i: nat)
    requires n <= |actions| && Misled(Execution(runs, actions[..n]), runId, a)
    ensures i < n && actions[i] == Complete(a, false)
    ensures Commits(runs, actions, i, Record(runId, CompletedKind, a, None))
  {
    hide Step, Misled;
    if n == 0 {
      NobodyAtFirst(runs, runId, a);
    } else {
      LastStep(runs, actions, n);
      ExecutionsKeepInv(runs, actions[..n - 1]);
      MisledBy(Execution(runs, actions[..n - 1]), actions[n - 1], runId, a);
      if Misled(Execution(runs, actions[..n - 1]), runId, a) {
        i := MisledSince(runs, actions, n - 1, runId, a);
      } else {
        i := n - 1;
      }
    }
  }

  lemma NobodyAtFirst(runs: map<RunId, Run>, runId: RunId, a: AttemptId)
    ensures !Misled(Execution(runs, []), runId, a) && Execution(runs, []).store.records == []
  {
  }

  lemma LastStep(runs: map<RunId, Run>, actions: seq<Action>, n: nat)
    requires 0 < n <= |actions|
    ensures Execution(runs, actions[..n]) == Step(Execution(runs, actions[..n - 1]), actions[n - 1])
  {
    assert actions[..n][..n - 1] == actions[..n - 1];
  }

  ghost predicate Contradicted(s: State, runId: RunId) {
    Holds(s, runId, CompletedKind) && Holds(s, runId, FailedKind)
  }

  /** A run's records contradict each other from the step on in which a misled caller notes its failure. */
  lemma ContradictedBy(s: State, action: Action, runId: RunId) returns (a: AttemptId)
    requires Inv(s) && Contradicted(Step(s, action), runId) && !Contradicted(s, runId)
    ensures Misled(s, runId, a) && action == NoteFailure(a)
    ensures Appends(s, Step(s, action), Record(runId, FailedKind, a, None))
  {
    hide Step, Inv;
    var t := Step(s, action);
    var failed :| failed in t.store.records && failed.runId == runId && failed.kind == FailedKind;
    if !Holds(s, runId, CompletedKind) {
      var r :| r in t.store.records && r.runId == runId && r.kind == CompletedKind;
      InsertedBy(s, action, r);
      NotCompletedYet(s, runId, r.attempt);
    } else {
      InsertedBy(s, action, failed);
      a := failed.attempt;
    }
  }

  lemma {:induction false} ContradictedSince(runs: map<RunId, Run>, actions: seq<Action>, n: nat, runId: RunId)
    returns (i: nat, j: nat, a: AttemptId)
    requires n <= |actions| && Contradicted(Execution(runs, actions[..n]), runId)
    ensures Misread(runs, actions, runId, i, j, a)
  {
    hide Step, Misled;
    if n == 0 {
      NobodyAtFirst(runs, runId, "");
    } else {
      LastStep(runs, actions, n);
      if Contradicted(Execution(runs, actions[..n - 1]), runId) {
        i, j, a := ContradictedSince(runs, actions, n - 1, runId);
      } else {
        ExecutionsKeepInv(runs, actions[..n - 1]);
        a := ContradictedBy(Execution(runs, actions[..n - 1]), actions[n - 1], runId);
        i := MisledSince(runs, actions, n - 1, runId, a);
        j := n - 1;
      }
    }
  }

  /** What a step committed is there for good. */
  lemma {:induction false} CommittedStays(runs: map<RunId, Run>, actions: seq<Action>, i: nat, n: nat, r: Record)
    requires i < n <= |actions| && Commits(runs, actions, i, r)
    ensures r in Execution(runs, actions[..n]).store.records
    decreases n
  {
    hide Step, Execution;
    if n > i + 1 {
      CommittedStays(runs, actions, i, n - 1, r);
      LastStep(runs, actions, n);
      RecordsStay(Execution(runs, actions[..n - 1]), actions[n - 1]);
    }
  }

  /** COMPLETED and FAILED stand together for a run exactly when one of its callers committed COMPLETED
      without learning it and its failure was then noted. */
  lemma CompletedAndFailedExactlyWhenMisread(runs: map<RunId, Run>, actions: seq<Action>, runId: RunId)
    ensures var h := OfRun(Execution(runs, actions).store.records, runId);
            Has(h, CompletedKind) && Has(h, FailedKind)
            <==> exists i: nat, j: nat, a: AttemptId :: Misread(runs, actions, runId, i, j, a)
  {
    hide Step, Execution, OfRun, Has;
    var s := Execution(runs, actions);
    assert actions[..|actions|] == actions;
    HoldsInHistory(s, runId, CompletedKind);
    HoldsInHistory(s, runId, FailedKind);
    if Contradicted(s, runId) {
      var i, j, a := ContradictedSince(runs, actions, |actions|, runId);
    }
    if i: nat, j: nat, a: AttemptId :| Misread(runs, actions, runId, i, j, a) {
      CommittedStays(runs, actions, i, |actions|, Record(runId, CompletedKind, a, None));
      CommittedStays(runs, actions, j, |actions|, Record(runId, FailedKind, a, None));
    }
  }

  // ---- A release from another status, and both closing records --------------------------

  /** A caller begins and stages, and the row's status alone is rewritten. */
  function Restatused(run: Run, a: AttemptId, runId: RunId, recoveryId: string, service: Service,
                      status: string): seq<Action> {
    [Begin(a, runId, run.aggregate, true), Stage(a, recoveryId, service), Rewrite(runId, Some(run.(status := status)))]
  }

  lemma AfterRestatus(runs: map<RunId, Run>, runId: RunId, a: AttemptId, recoveryId: string, service: Service,
                      status: string)
    requires runId in runs && runs[runId].events != []
    requires Eligible(Store(runs, []), runId, runs[runId].aggregate)
    requires Stages(runId, Capture(runs[runId]), recoveryId, service).Some?
    ensures var (run, c) := (runs[runId], Capture(runs[runId]));
            var staged := Stages(runId, c, recoveryId, service).value;
            Execution(runs, Restatused(run, a, runId, recoveryId, service, status))
            == State(Store(runs[runId := run.(status := status)], [StartedRecord(runId, a, c)]),
                     map[a := Caller(runId, Ready(c, staged))])
  {
    hide Eligible, Stages;
    var run := runs[runId];
    var begin := Begin(a, runId, run.aggregate, true);
    var rewrite := Rewrite(runId, Some(run.(status := status)));
    OneMore(runs, [], begin);
    OneMore(runs, [begin], Stage(a, recoveryId, service));
    OneMore(runs, [begin, Stage(a, recoveryId, service)], rewrite);
    assert [] + [begin] == [begin];
    assert [begin] + [Stage(a, recoveryId, service)] == [begin, Stage(a, recoveryId, service)];
    assert [begin, Stage(a, recoveryId, service)] + [rewrite] == Restatused(run, a, runId, recoveryId, service, status);
  }

  /** Eligibility demands the status FAILED, the release does not: from any status that the row has got
      since, an eligible run whose staging succeeds is released. */
  lemma ReleasedFromAnyStatus(runs: map<RunId, Run>, runId: RunId, a: AttemptId, recoveryId: string, service: Service,
                              status: string)
    requires runId in runs && runs[runId].events != []
    requires Eligible(Store(runs, []), runId, runs[runId].aggregate)
    requires Stages(runId, Capture(runs[runId]), recoveryId, service).Some?
    ensures var s := Execution(runs, Restatused(runs[runId], a, runId, recoveryId, service, status));
            && runId in s.store.runs && s.store.runs[runId].status == status
            && ReleasesTheCaptured(s, Step(s, Release(a, true)), a)
  {
    hide Step, Execution, Stages, ReleasesTheCaptured;
    var actions := Restatused(runs[runId], a, runId, recoveryId, service, status);
    AfterRestatus(runs, runId, a, recoveryId, service, status);
    SameAsItself(runs[runId].proofs);
    ReleaseCommitsExactlyWhenUnchanged(runs, actions, a, true);
    ReleaseCommitsOnlyTheCaptured(runs, actions, a, true);
  }

  const SampleProofs := SampleManifest([SampleProof("P1", "C1")])

  const SampleEvents := [Event("E1", "RUN", RunFailed, 1, Some("FAILED"), None, "")]

  const SampleRun := Run(Aggregate("", false, true, Some("RELEASE_GATE_BLOCKED")), "FAILED", 0, 1, SampleEvents,
                         SampleProofs)

  const SampleService := Service([], Some(Aggregate("", true, true, None)))

  lemma SampleProofsAreRetained()
    ensures RetainedOutcome(SampleProofs).Some?
  {
    hide RetainedFor, RetainedLineages;
    SampleIsRetained([SampleProof("P1", "C1")], 0, 0);
    assert forall p :: p in SampleProofs.proofs ==> p == SampleProof("P1", "C1");
  }

  lemma SampleLogIsValid()
    ensures ValidLog("RUN", SampleEvents) && FailedHistory(SampleEvents)
  {
    assert SampleEvents[..0] == [];
  }

  lemma SampleStages()
    ensures Stages("RUN", Capture(SampleRun), "R1", SampleService).Some?
  {
    assert "E1"[0] != "R1"[0];
  }

  lemma SampleIsEligible()
    ensures Eligible(Store(map["RUN" := SampleRun], []), "RUN", SampleRun.aggregate)
    ensures Stages("RUN", Capture(SampleRun), "R1", SampleService).Some?
  {
    hide RetainedOutcome, ValidLog, FailedHistory, Stages;
    SampleProofsAreRetained();
    SampleLogIsValid();
    SampleStages();
  }

  /** Once released, a caller whose COMPLETED commits without an answer has its failure noted behind it. */
  lemma FailureFollowsCompletion(runs: map<RunId, Run>, actions: seq<Action>, a: AttemptId)
    requires a in Execution(runs, actions).callers && Execution(runs, actions).callers[a].phase.Released?
    ensures var runId := Execution(runs, actions).callers[a].runId;
            var t := Execution(runs, actions + [Remember(a)] + [Complete(a, false)] + [NoteFailure(a)]);
            var h := OfRun(t.store.records, runId);
            Has(h, CompletedKind) && Has(h, FailedKind)
  {
    hide Execution, OfRun, Has, HasRecord;
    var remembered := actions + [Remember(a)];
    var completed := remembered + [Complete(a, false)];
    var runId := Execution(runs, actions).callers[a].runId;
    OneMore(runs, actions, Remember(a));
    OneMore(runs, remembered, Complete(a, false));
    LaterInsertsNeverCollide(runs, remembered, a, false);
    OneMore(runs, completed, NoteFailure(a));
    LaterInsertsNeverCollide(runs, completed, a, false);
    var t := Execution(runs, completed + [NoteFailure(a)]);
    assert Record(runId, CompletedKind, a, None) in t.store.records;
    assert Record(runId, FailedKind, a, None) in t.store.records;
    HoldsInHistory(t, runId, CompletedKind);
    HoldsInHistory(t, runId, FailedKind);
  }

  /** A run whose row says CANCELLED by then is released; if its COMPLETED commits without an answer, FAILED
      is recorded behind it. */
  lemma CancelledRunIsReleasedAndBothRecorded()
    ensures var before := Restatused(SampleRun, "A1", "RUN", "R1", SampleService, "CANCELLED");
            var released := before + [Release("A1", true)];
            var noted := released + [Remember("A1")] + [Complete("A1", false)] + [NoteFailure("A1")];
            var runs := map["RUN" := SampleRun];
            var h := OfRun(Execution(runs, noted).store.records, "RUN");
            && "RUN" in Execution(runs, before).store.runs && "RUN" in Execution(runs, released).store.runs
            && Execution(runs, before).store.runs["RUN"].status == "CANCELLED"
            && Execution(runs, released).store.runs["RUN"].status == "RELEASED"
            && Has(h, CompletedKind) && Has(h, FailedKind)
  {
    hide Execution, OfRun, Has, Eligible, Stages, Unchanged, HasRecord;
    var runs := map["RUN" := SampleRun];
    var before := Restatused(SampleRun, "A1", "RUN", "R1", SampleService, "CANCELLED");
    SampleIsEligible();
    AfterRestatus(runs, "RUN", "A1", "R1", SampleService, "CANCELLED");
    ReleasedFromAnyStatus(runs, "RUN", "A1", "R1", SampleService, "CANCELLED");
    OneMore(runs, before, Release("A1", true));
    FailureFollowsCompletion(runs, before + [Release("A1", true)], "A1");
  }
}

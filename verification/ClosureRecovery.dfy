/** One-shot closure recovery: transactions over the run rows and the closure records, with crashes,
    concurrent callers, and an environment that may rewrite any run between them. */
module ClosureRecovery {
  import opened Wrappers
  import opened EventLog
  import opened RetainedProofs

  type RunId = string
  type AttemptId = string

  /** A run's retained aggregate; `content` stands for everything that only its digest depends on. */
  datatype Aggregate = Aggregate(content: string, released: bool, reviewed: bool, diagnostic: Option<string>)

  datatype Run = Run(
    aggregate: Aggregate,
    status: string,
    revision: nat,
    projection: int,
    events: seq<Event>,
    proofs: Manifest)

  datatype RecordKind = StartedKind | ReleasedKind | CompletedKind | FailedKind

  /** What the STARTED record retains. */
  datatype Captured = Captured(snapshot: Aggregate, events: seq<Event>, proofs: Manifest)

  datatype Record = Record(runId: RunId, kind: RecordKind, attempt: AttemptId, captured: Option<Captured>)

  datatype Store = Store(runs: map<RunId, Run>, records: seq<Record>)

  // ---- The four transactions ------------------------------------------------------------

  predicate HasRecord(records: seq<Record>, runId: RunId, kind: RecordKind) {
    exists r :: r in records && r.runId == runId && r.kind == kind
  }

  predicate HasAnyRecord(records: seq<Record>, runId: RunId) {
    exists r :: r in records && r.runId == runId
  }

  /** The insert under the unique constraint on run and kind. */
  function Insert(s: Store, r: Record): Option<Store> {
    if HasRecord(s.records, r.runId, r.kind) then None else Some(s.(records := s.records + [r]))
  }

  /** A failed, reviewed, unreleased run, blocked by the release gate, with an intact failed history and
      retained proofs, for which nothing was ever recorded. */
  ghost predicate Eligible(s: Store, runId: RunId, expected: Aggregate) {
    && runId in s.runs && s.runs[runId].status == "FAILED" && s.runs[runId].aggregate == expected
    && !HasAnyRecord(s.records, runId)
    && !expected.released && expected.reviewed && expected.diagnostic == Some("RELEASE_GATE_BLOCKED")
    && ValidLog(runId, s.runs[runId].events) && FailedHistory(s.runs[runId].events)
    && RetainedOutcome(s.runs[runId].proofs).Some?
  }

  predicate FailedHistory(events: seq<Event>) {
    match Conclusion(events)
    case Some(e) => e.kind == RunFailed && e.status == Some("FAILED")
    case None => false
  }

  function Capture(run: Run): Captured {
    Captured(run.aggregate, run.events, run.proofs)
  }

  function StartedRecord(runId: RunId, attempt: AttemptId, c: Captured): Record {
    Record(runId, StartedKind, attempt, Some(c))
  }

  /** What an in-memory staging produces. */
  datatype Staged = Staged(aggregate: Aggregate, events: seq<Event>)

  /** Nothing that was captured has changed; the row's status is not looked at again. */
  ghost predicate Unchanged(s: Store, runId: RunId, c: Captured) {
    && runId in s.runs && s.runs[runId].aggregate == c.snapshot && s.runs[runId].events == c.events
    && RetainedOutcome(s.runs[runId].proofs).Some? && SameManifest(s.runs[runId].proofs, c.proofs)
  }

  /** The run after its release: the staged events beyond the captured ones are appended to its log. */
  function ReleasedRun(run: Run, c: Captured, staged: Staged): Run
    requires |c.events| < |staged.events|
  {
    Run(staged.aggregate, "RELEASED", run.revision + 1, LastEvent(staged.events).sequence,
        run.events + staged.events[|c.events|..], run.proofs)
  }

  ghost function ReleaseTx(s: Store, runId: RunId, attempt: AttemptId, c: Captured, staged: Staged): Option<Store>
    requires |c.events| < |staged.events|
  {
    if Unchanged(s, runId, c) then
      Insert(s.(runs := s.runs[runId := ReleasedRun(s.runs[runId], c, staged)]),
             Record(runId, ReleasedKind, attempt, None))
    else None
  }

  // ---- Staging --------------------------------------------------------------------------

  /** An event that the release service emits. */
  datatype Emission = Emission(id: string, kind: Kind, status: Option<string>, body: string)

  /** What the release service does with the staged run: what it emits, and whether it releases. */
  datatype Service = Service(emissions: seq<Emission>, released: Option<Aggregate>)

  function EventOf(runId: RunId, log: seq<Event>, e: Emission): Event {
    Event(e.id, runId, e.kind, |log| + 1, e.status, None, e.body)
  }

  function RecoveryEvent(runId: RunId, log: seq<Event>, id: string): Event
    requires log != []
  {
    Event(id, runId, ClosureRecoveryStarted, |log| + 1, Some("REVIEW"), Some(LastEvent(log).id), "")
  }

  /** The captured events, the recovery event, and whatever the service emits, as long as each may follow. */
  function StagedLog(runId: RunId, log: seq<Event>, emissions: seq<Emission>): (staged: Option<seq<Event>>)
    ensures staged.Some? ==> log <= staged.value && |staged.value| == |log| + |emissions|
    decreases |emissions|
  {
    if emissions == [] then Some(log)
    else
      var e := EventOf(runId, log, emissions[0]);
      if MayFollow(runId, log, e) then StagedLog(runId, log + [e], emissions[1..]) else None
  }

  function Stages(runId: RunId, c: Captured, recoveryId: string, service: Service): Option<Staged>
    requires c.events != []
  {
    var first := RecoveryEvent(runId, c.events, recoveryId);
    if !MayFollow(runId, c.events, first) then None
    else
      var staged := StagedLog(runId, c.events + [first], service.emissions);
      if staged.Some? && service.released.Some? then Some(Staged(service.released.value, staged.value)) else None
  }

  lemma {:induction false} StagedLogIsValid(runId: RunId, log: seq<Event>, emissions: seq<Emission>)
    requires ValidLog(runId, log) && StagedLog(runId, log, emissions).Some?
    ensures ValidLog(runId, StagedLog(runId, log, emissions).value)
    decreases |emissions|
  {
    hide ValidLog, MayFollow;
    if emissions != [] {
      var e := EventOf(runId, log, emissions[0]);
      ValidAppend(runId, log, e);
      StagedLogIsValid(runId, log + [e], emissions[1..]);
    }
  }

  /** A staged log is valid and keeps the failed history in front, reopened by the recovery event. */
  lemma StagingKeepsHistory(runId: RunId, c: Captured, recoveryId: string, service: Service)
    requires c.events != [] && ValidLog(runId, c.events) && Stages(runId, c, recoveryId, service).Some?
    ensures var staged := Stages(runId, c, recoveryId, service).value.events;
            && ValidLog(runId, staged) && |staged| > |c.events| && c.events <= staged
            && staged[|c.events|].kind == ClosureRecoveryStarted
            && staged[|c.events|].failedEventId == Some(LastEvent(c.events).id)
  {
    hide ValidLog, MayFollow;
    var first := RecoveryEvent(runId, c.events, recoveryId);
    ValidAppend(runId, c.events, first);
    StagedLogIsValid(runId, c.events + [first], service.emissions);
    assert (c.events + [first])[|c.events|] == first;
  }

  /** Ids are fresh: neither an event of the log nor another emission has them. */
  ghost predicate FreshIds(log: seq<Event>, recoveryId: string, emissions: seq<Emission>) {
    && recoveryId != "" && (forall x :: x in log ==> x.id != recoveryId)
    && (forall e :: e in emissions ==> e.id != "" && e.id != recoveryId && forall x :: x in log ==> x.id != e.id)
    && (forall i, j :: 0 <= i < j < |emissions| ==> emissions[i].id != emissions[j].id)
  }

  // ---- The operation as the source runs it ----------------------------------------------

  datatype Result = Refused | Completed(aggregate: Aggregate) | Failed

  class Database {
    var store: Store

    constructor (store: Store)
      ensures this.store == store
    {
      this.store := store;
    }

    /** First transaction: captures an eligible run and consumes its authorization. */
    method Begin(runId: RunId, expected: Aggregate, attempt: AttemptId) returns (captured: Option<Captured>)
      modifies this
      ensures captured.Some? <==> Eligible(old(store), runId, expected)
      ensures captured.Some? ==> captured.value == Capture(old(store).runs[runId])
      ensures store == if captured.Some?
                       then old(store).(records := old(store).records + [StartedRecord(runId, attempt, captured.value)])
                       else old(store)
    {
      hide ValidLog, RetainedOutcome;
      captured := None;
      if runId !in store.runs || store.runs[runId].status != "FAILED" || store.runs[runId].aggregate != expected {
        return;
      }
      if HasAnyRecord(store.records, runId) {
        return;
      }
      var run := store.runs[runId];
      if run.aggregate.released || !run.aggregate.reviewed || run.aggregate.diagnostic != Some("RELEASE_GATE_BLOCKED") {
        return;
      }
      var terminal := ValidateEventLog(runId, run.events);
      if terminal.Err? || terminal.value.None? || terminal.value.value.kind != RunFailed
         || terminal.value.value.status != Some("FAILED") {
        return;
      }
      if RetainedOutcome(run.proofs).None? {
        return;
      }
      captured := Some(Capture(run));
      store := store.(records := store.records + [StartedRecord(runId, attempt, captured.value)]);
    }

    /** Staging touches nothing but an in-memory stream. */
    method Stage(runId: RunId, c: Captured, recoveryId: string, service: Service) returns (staged: Option<Staged>)
      requires ValidLog(runId, c.events) && c.events != [] && FreshIds(c.events, recoveryId, service.emissions)
      ensures staged == Stages(runId, c, recoveryId, service)
    {
      hide ValidLog, MayFollow;
      var stream := new EventStream(runId);
      EmptyIsValid(runId);
      for i := 0 to |c.events|
        invariant fresh(stream) && stream.runId == runId && stream.events == c.events[..i]
                  && ValidLog(runId, stream.events)
      {
        FollowedAt(runId, c.events, i);
        assert c.events[i].runId == runId by { EventsAreOfTheRun(runId, c.events, i); }
        var ok := stream.Append(c.events[i]);
        assert c.events[..i + 1] == c.events[..i] + [c.events[i]];
      }
      assert c.events[..|c.events|] == c.events;
      var reopened := stream.Emit(recoveryId, ClosureRecoveryStarted, Some("REVIEW"), Some(LastEvent(c.events).id), "");
      if !reopened {
        return None;
      }
      var emitted := EmitAll(stream, c, recoveryId, service.emissions);
      if !emitted || service.released.None? {
        return None;
      }
      var checked := ValidateEventLog(runId, stream.events);
      if checked.Err? {
        return None;
      }
      return Some(Staged(service.released.value, stream.events));
    }

    method EmitAll(stream: EventStream, ghost c: Captured, ghost recoveryId: string, emissions: seq<Emission>)
      returns (ok: bool)
      requires ValidLog(stream.runId, stream.events) && c.events != [] && FreshIds(c.events, recoveryId, emissions)
      requires stream.events == c.events + [RecoveryEvent(stream.runId, c.events, recoveryId)]
      modifies stream
      ensures ValidLog(stream.runId, stream.events)
      ensures ok <==> StagedLog(stream.runId, old(stream.events), emissions).Some?
      ensures ok ==> Some(stream.events) == StagedLog(stream.runId, old(stream.events), emissions)
    {
      hide ValidLog, MayFollow;
      ghost var start := stream.events;
      for i := 0 to |emissions|
        invariant ValidLog(stream.runId, stream.events)
        invariant StagedLog(stream.runId, start, emissions) == StagedLog(stream.runId, stream.events, emissions[i..])
        invariant forall x :: x in stream.events ==> x in start || exists j :: 0 <= j < i && emissions[j].id == x.id
      {
        var e := emissions[i];
        assert emissions[i..][0] == e && emissions[i..][1..] == emissions[i + 1..];
        assert forall x :: x in stream.events ==> x.id != e.id by {
          Untaken(stream.runId, c, recoveryId, emissions, i, stream.events);
        }
        assert e in emissions;
        ghost var before := stream.events;
        ok := stream.Emit(e.id, e.kind, e.status, None, e.body);
        if !ok {
          return false;
        }
        assert stream.events == before + [EventOf(stream.runId, before, e)];
      }
      ok := true;
    }

    /** Second transaction: releases exactly what was captured, or nothing. */
    method Release(runId: RunId, attempt: AttemptId, c: Captured, staged: Staged) returns (ok: bool)
      requires |c.events| < |staged.events|
      modifies this
      ensures ok <==> ReleaseTx(old(store), runId, attempt, c, staged).Some?
      ensures store == if ok then ReleaseTx(old(store), runId, attempt, c, staged).value else old(store)
    {
      ok := false;
      if runId !in store.runs {
        return;
      }
      var run := store.runs[runId];
      if run.aggregate != c.snapshot || run.events != c.events {
        return;
      }
      if RetainedOutcome(run.proofs).None? {
        return;
      }
      var same := multiset(run.proofs.proofs) == multiset(c.proofs.proofs)
                  && multiset(run.proofs.commitments) == multiset(c.proofs.commitments)
                  && multiset(run.proofs.verifications) == multiset(c.proofs.verifications)
                  && multiset(run.proofs.artifacts) == multiset(c.proofs.artifacts);
      if !same || HasRecord(store.records, runId, ReleasedKind) {
        return;
      }
      store := Store(store.runs[runId := ReleasedRun(run, c, staged)],
                     store.records + [Record(runId, ReleasedKind, attempt, None)]);
      ok := true;
    }

    /** Appends a closure record in a transaction of its own. */
    method Note(runId: RunId, attempt: AttemptId, kind: RecordKind) returns (ok: bool)
      modifies this
      ensures ok <==> !HasRecord(old(store).records, runId, kind)
      ensures store == if ok then old(store).(records := old(store).records + [Record(runId, kind, attempt, None)])
                       else old(store)
    {
      ok := !HasRecord(store.records, runId, kind);
      if ok {
        store := store.(records := store.records + [Record(runId, kind, attempt, None)]);
      }
    }

    /** The whole operation when nothing interferes: a refusal leaves no trace; an attempt that was begun
        leaves its records, and releases the run exactly when the staging succeeds. */
    method RecoverClosure(runId: RunId, expected: Aggregate, attempt: AttemptId, recoveryId: string, service: Service,
                          remembers: bool)
      returns (result: Result)
      requires Eligible(store, runId, expected) ==> FreshIds(store.runs[runId].events, recoveryId, service.emissions)
      modifies this
      ensures result.Refused? <==> !Eligible(old(store), runId, expected)
      ensures result.Refused? ==> store == old(store)
      ensures !result.Refused? ==> Recorded(old(store), store, runId, attempt, recoveryId, service, remembers)
      ensures result.Completed? <==> Eligible(old(store), runId, expected) && remembers
                                     && old(store).runs[runId].events != []
                                     && Stages(runId, Capture(old(store).runs[runId]), recoveryId, service).Some?
    {
      hide ValidLog, RetainedOutcome, MayFollow, HasRecord, ReleasedRun, Stages, FreshIds;
      ghost var before := store;
      var captured := Begin(runId, expected, attempt);
      if captured.None? {
        return Refused;
      }
      var c := captured.value;
      NothingElseRecorded(before.records, StartedRecord(runId, attempt, c));
      var staged := Stage(runId, c, recoveryId, service);
      if staged.None? {
        var ok := Note(runId, attempt, FailedKind);
        return Failed;
      }
      StagingKeepsHistory(runId, c, recoveryId, service);
      var released := Release(runId, attempt, c, staged.value);
      assert released by { SameAsItself(c.proofs); }
      NothingElseRecorded(before.records + [StartedRecord(runId, attempt, c)],
                          Record(runId, ReleasedKind, attempt, None));
      if !remembers {
        var ok := Note(runId, attempt, FailedKind);
        return Failed;
      }
      var ok := Note(runId, attempt, CompletedKind);
      return Completed(staged.value.aggregate);
    }
  }

  /** The records and the run row that an undisturbed attempt leaves. */
  ghost predicate Recorded(s: Store, t: Store, runId: RunId, attempt: AttemptId, recoveryId: string, service: Service,
                           remembers: bool) {
    && runId in s.runs && s.runs[runId].events != []
    && var c := Capture(s.runs[runId]);
       var staged := Stages(runId, c, recoveryId, service);
       if staged.None? then
         t == Store(s.runs, s.records + [StartedRecord(runId, attempt, c)] + [Record(runId, FailedKind, attempt, None)])
       else
         && |c.events| < |staged.value.events|
         && t == Store(s.runs[runId := ReleasedRun(s.runs[runId], c, staged.value)],
                    s.records + [StartedRecord(runId, attempt, c)] + [Record(runId, ReleasedKind, attempt, None)]
                    + [Record(runId, if remembers then CompletedKind else FailedKind, attempt, None)])
  }

  lemma EventsAreOfTheRun(runId: RunId, log: seq<Event>, i: nat)
    requires ValidLog(runId, log) && i < |log|
    ensures log[i].runId == runId
  {
    hide ValidLog;
    FollowedAt(runId, log, i);
  }

  lemma Untaken(runId: RunId, c: Captured, recoveryId: string, emissions: seq<Emission>, i: nat, log: seq<Event>)
    requires c.events != [] && FreshIds(c.events, recoveryId, emissions) && i < |emissions|
    requires var start := c.events + [RecoveryEvent(runId, c.events, recoveryId)];
             forall x :: x in log ==> x in start || exists j :: 0 <= j < i && emissions[j].id == x.id
    ensures forall x :: x in log ==> x.id != emissions[i].id
  {
    assert emissions[i] in emissions;
  }

  lemma SameAsItself(m: Manifest)
    ensures SameManifest(m, m)
  {
  }

  lemma NothingElseRecorded(records: seq<Record>, r: Record)
    ensures forall kind ::
              HasRecord(records + [r], r.runId, kind) <==> HasRecord(records, r.runId, kind) || kind == r.kind
    ensures !HasAnyRecord(records, r.runId) ==> forall kind :: !HasRecord(records, r.runId, kind)
  {
    assert r in records + [r];
    assert forall x :: x in records + [r] <==> x in records || x == r;
  }
}

/** The event log of a run: which logs are valid, and the cursor that decides it one event at a time. */
module EventLog {
  import opened Wrappers

  /** The event types that the log rules tell apart. */
  datatype Kind = RunCompleted | RunFailed | ClosureRecoveryStarted | OtherKind(name: string)

  /** `status` and `failedEventId` are the two payload fields that the rules read, `body` the rest. */
  datatype Event = Event(
    id: string,
    runId: string,
    kind: Kind,
    sequence: int,
    status: Option<string>,
    failedEventId: Option<string>,
    body: string)

  datatype Reason =
    | WrongRun
    | MalformedEvent
    | ConflictingDuplicate
    | DuplicateEventId
    | PostTerminalEvent
    | StaleEvent
    | SequenceGap
    | DuplicateSequence

  datatype Disposition = Applied | DuplicateIgnored

  predicate IsTerminal(e: Event) {
    e.kind in {RunCompleted, RunFailed}
  }

  function LastEvent(log: seq<Event>): (e: Event)
    requires log != []
    ensures e in log
  {
    log[|log| - 1]
  }

  predicate Ended(log: seq<Event>) {
    log != [] && IsTerminal(LastEvent(log))
  }

  predicate Recovered(log: seq<Event>) {
    exists e :: e in log && e.kind == ClosureRecoveryStarted
  }

  /** Only a failed run is reopened, once, by an event that names the failure. */
  predicate Reopens(log: seq<Event>, e: Event)
    requires Ended(log)
  {
    var failed := LastEvent(log);
    && e.kind == ClosureRecoveryStarted
    && e.failedEventId == Some(failed.id)
    && failed.kind == RunFailed
    && failed.status == Some("FAILED")
    && !Recovered(log)
  }

  /** The rules for one more event, as a relation to the whole log before it. */
  predicate MayFollow(runId: string, log: seq<Event>, e: Event) {
    && e.runId == runId
    && e.id != ""
    && e.sequence == |log| + 1
    && (forall x :: x in log ==> x.id != e.id)
    && (if Ended(log) then Reopens(log, e) else e.kind != ClosureRecoveryStarted)
  }

  ghost predicate ValidLog(runId: string, log: seq<Event>) {
    forall i :: 0 <= i < |log| ==> MayFollow(runId, log[..i], log[i])
  }

  /** The terminal event of a log that has ended. */
  function Conclusion(log: seq<Event>): Option<Event> {
    if Ended(log) then Some(LastEvent(log)) else None
  }

  // ---- Valid logs -----------------------------------------------------------------------

  lemma ValidAppend(runId: string, log: seq<Event>, e: Event)
    ensures ValidLog(runId, log + [e]) <==> ValidLog(runId, log) && MayFollow(runId, log, e)
  {
    var next := log + [e];
    assert next[..|log|] == log;
    assert forall i :: 0 <= i < |log| ==> next[..i] == log[..i] && next[i] == log[i];
    if ValidLog(runId, next) {
      assert MayFollow(runId, next[..|log|], next[|log|]);
      forall i | 0 <= i < |log| ensures MayFollow(runId, log[..i], log[i]) {
        assert MayFollow(runId, next[..i], next[i]);
      }
    }
  }

  lemma EmptyIsValid(runId: string)
    ensures ValidLog(runId, [])
  {
  }

  lemma FollowedAt(runId: string, log: seq<Event>, i: nat)
    requires ValidLog(runId, log) && i < |log|
    ensures MayFollow(runId, log[..i], log[i])
  {
    hide MayFollow;
  }

  lemma PairInValidLog(runId: string, log: seq<Event>, i: nat, j: nat)
    requires ValidLog(runId, log) && i < j < |log|
    ensures log[i].id != log[j].id
    ensures log[i].kind == ClosureRecoveryStarted ==> log[j].kind != ClosureRecoveryStarted
  {
    hide ValidLog, Ended;
    FollowedAt(runId, log, j);
    assert log[..j][i] == log[i] && log[..j][i] in log[..j];
  }

  /** A terminal event that is not the last one is the failure that the next event reopens. */
  predicate ReopenedAt(log: seq<Event>, i: nat)
    requires i + 1 < |log|
  {
    && log[i].kind == RunFailed && log[i].status == Some("FAILED")
    && log[i + 1].kind == ClosureRecoveryStarted && log[i + 1].failedEventId == Some(log[i].id)
  }

  lemma TerminalInValidLog(runId: string, log: seq<Event>, i: nat)
    requires ValidLog(runId, log) && i + 1 < |log| && IsTerminal(log[i])
    ensures ReopenedAt(log, i) && log[i].kind == RunFailed
  {
    hide ValidLog, Recovered;
    FollowedAt(runId, log, i + 1);
    assert LastEvent(log[..i + 1]) == log[i];
  }

  /** What validity means position by position: sequences 1, 2, 3, ..., no id twice, at most one recovery,
      and a terminal event only at the very end or directly before the recovery that names it. */
  lemma ValidLogShape(runId: string, log: seq<Event>)
    requires ValidLog(runId, log)
    ensures forall i :: 0 <= i < |log| ==> log[i].runId == runId && log[i].id != "" && log[i].sequence == i + 1
    ensures forall i, j :: 0 <= i < j < |log| ==> log[i].id != log[j].id
    ensures forall i :: 0 <= i < |log| - 1 ==>
              && log[i].kind != RunCompleted
              && (log[i].kind == RunFailed ==> ReopenedAt(log, i))
    ensures forall i, j :: 0 <= i < j < |log| && log[i].kind == ClosureRecoveryStarted ==>
              log[j].kind != ClosureRecoveryStarted
  {
    hide ReopenedAt, Reopens, Recovered;
    forall i, j | 0 <= i < j < |log|
      ensures log[i].id != log[j].id
      ensures log[i].kind == ClosureRecoveryStarted ==> log[j].kind != ClosureRecoveryStarted
    {
      hide ValidLog;
      PairInValidLog(runId, log, i, j);
    }
    forall i | 0 <= i < |log| - 1
      ensures log[i].kind != RunCompleted && (log[i].kind == RunFailed ==> ReopenedAt(log, i))
    {
      hide ValidLog;
      if IsTerminal(log[i]) {
        TerminalInValidLog(runId, log, i);
      }
    }
  }

  /** Which event may come next, in plain terms: the next sequence under a new id; nothing follows a
      completion; only the first recovery, and only one that names it, follows a failure marked FAILED; and
      no recovery comes otherwise. */
  lemma NextEventMeans(runId: string, log: seq<Event>, e: Event)
    ensures MayFollow(runId, log, e) <==>
            && e.runId == runId && e.id != "" && e.sequence == |log| + 1
            && (forall i :: 0 <= i < |log| ==> log[i].id != e.id)
            && (log != [] ==> log[|log| - 1].kind != RunCompleted)
            && (if log != [] && log[|log| - 1].kind == RunFailed then
                  && e.kind == ClosureRecoveryStarted && e.failedEventId == Some(log[|log| - 1].id)
                  && log[|log| - 1].status == Some("FAILED")
                  && forall i :: 0 <= i < |log| ==> log[i].kind != ClosureRecoveryStarted
                else e.kind != ClosureRecoveryStarted)
  {
    assert forall x :: x in log <==> exists i :: 0 <= i < |log| && log[i] == x;
  }

  // ---- The cursor -----------------------------------------------------------------------

  /** What becomes of one more event, from the log before it. The order of the checks decides which reason
      is given when several apply. */
  function Verdict(runId: string, log: seq<Event>, e: Event): Result<Disposition, Reason> {
    if e.runId != runId then Err(WrongRun)
    else if e.id == "" then Err(MalformedEvent)
    else if 1 <= e.sequence <= |log| then
      if log[e.sequence - 1] == e then Ok(DuplicateIgnored) else Err(ConflictingDuplicate)
    else if exists x :: x in log && x.id == e.id then Err(DuplicateEventId)
    else if (if Ended(log) then !Reopens(log, e) else e.kind == ClosureRecoveryStarted) then Err(PostTerminalEvent)
    else if e.sequence < |log| + 1 then Err(StaleEvent)
    else if e.sequence > |log| + 1 then Err(SequenceGap)
    else Ok(Applied)
  }

  /** An event is applied exactly when it may follow, and ignored exactly when a valid log already has it. */
  lemma VerdictMeans(runId: string, log: seq<Event>, e: Event)
    requires ValidLog(runId, log)
    ensures Verdict(runId, log, e) == Ok(Applied) <==> MayFollow(runId, log, e)
    ensures Verdict(runId, log, e) == Ok(DuplicateIgnored) <==> e in log
  {
    hide ValidLog, Recovered;
    if e in log {
      var i :| 0 <= i < |log| && log[i] == e;
      FollowedAt(runId, log, i);
    }
  }

  /** The incremental validator. Its maps and counters stand for the log accepted so far. */
  class Cursor {
    const runId: string
    var committedSequence: nat
    var terminalSequence: Option<nat>
    var bySequence: map<int, Event>
    var sequenceById: map<string, int>
    var terminalKind: Option<Kind>
    var terminalStatus: Option<string>
    var recovered: bool
    ghost var accepted: seq<Event>

    constructor (runId: string)
      ensures this.runId == runId && accepted == [] && Valid()
    {
      this.runId := runId;
      committedSequence, terminalSequence, bySequence, sequenceById := 0, None, map[], map[];
      terminalKind, terminalStatus, recovered := None, None, false;
      accepted := [];
    }

    /** The maps and the counter hold exactly the given events. */
    ghost predicate Indexed(log: seq<Event>)
      reads `committedSequence, `bySequence, `sequenceById
    {
      && committedSequence == |log|
      && (forall s :: s in bySequence <==> 1 <= s <= |log|)
      && (forall i :: 0 <= i < |log| ==> bySequence[i + 1] == log[i])
      && (forall id :: id in sequenceById <==> exists e :: e in log && e.id == id)
    }

    /** The terminal fields describe the end of the given events. */
    ghost predicate Tracked(log: seq<Event>)
      reads `terminalSequence, `terminalKind, `terminalStatus, `recovered
    {
      && terminalSequence == (if Ended(log) then Some(|log|) else None)
      && (Ended(log) ==> terminalKind == Some(LastEvent(log).kind) && terminalStatus == LastEvent(log).status)
      && recovered == Recovered(log)
    }

    ghost predicate Valid()
      reads this
    {
      ValidLog(runId, accepted) && Indexed(accepted) && Tracked(accepted)
    }

    /** What the cursor checks, in its order, on its own fields. */
    method Refusal(event: Event) returns (refusal: Option<Reason>)
      requires Valid() && event.runId == runId && event.id != "" && event.sequence !in bySequence
      ensures Verdict(runId, accepted, event) == if refusal.Some? then Err(refusal.value) else Ok(Applied)
    {
      hide ValidLog, Recovered;
      if event.id in sequenceById {
        return Some(DuplicateEventId);
      }
      if terminalSequence.Some? {
        var prior := bySequence[terminalSequence.value];
        assert prior == LastEvent(accepted) by { assert bySequence[|accepted| - 1 + 1] == accepted[|accepted| - 1]; }
        if !(&& event.kind == ClosureRecoveryStarted
             && event.failedEventId == Some(prior.id)
             && terminalKind == Some(RunFailed)
             && terminalStatus == Some("FAILED")
             && !recovered)
        {
          return Some(PostTerminalEvent);
        }
      } else if event.kind == ClosureRecoveryStarted {
        return Some(PostTerminalEvent);
      }
      if event.sequence < committedSequence + 1 {
        return Some(StaleEvent);
      }
      if event.sequence > committedSequence + 1 {
        return Some(SequenceGap);
      }
      return None;
    }

    method Index(event: Event, ghost log: seq<Event>)
      requires Indexed(log) && event.sequence == |log| + 1
      modifies this`bySequence, this`sequenceById, this`committedSequence
      ensures Indexed(log + [event])
    {
      bySequence := bySequence[event.sequence := event];
      sequenceById := sequenceById[event.id := event.sequence];
      committedSequence := event.sequence;
      assert forall e :: e in log + [event] <==> e in log || e == event;
    }

    method Track(event: Event, ghost log: seq<Event>)
      requires Tracked(log) && MayFollow(runId, log, event)
      modifies this`terminalSequence, this`terminalKind, this`terminalStatus, this`recovered
      ensures Tracked(log + [event])
    {
      hide Recovered;
      FollowMeans(runId, log, event);
      EndedStep(log, event);
      RecoveredStep(log, event);
      hide MayFollow, Ended;
      if event.kind == ClosureRecoveryStarted {
        terminalSequence, recovered := None, true;
      }
      if IsTerminal(event) {
        terminalSequence, terminalKind, terminalStatus := Some(event.sequence), Some(event.kind), event.status;
      }
    }

    /** Takes one more event into the maps and counters. */
    method Take(event: Event)
      requires Valid() && MayFollow(runId, accepted, event)
      modifies this
      ensures Valid() && accepted == old(accepted) + [event]
    {
      hide ValidLog, Indexed, Tracked;
      ValidAppend(runId, accepted, event);
      FollowMeans(runId, accepted, event);
      Index(event, accepted);
      Track(event, accepted);
      accepted := accepted + [event];
    }

    /** Accepts exactly the events that may follow, ignores exactly those that were already accepted, and
        refuses every other one for the first reason that applies, with the cursor unchanged. */
    method Accept(event: Event) returns (r: Result<Disposition, Reason>)
      requires Valid()
      modifies this
      ensures Valid() && ValidLog(runId, accepted)
      ensures r == Verdict(runId, old(accepted), event)
      ensures r == Ok(Applied) <==> MayFollow(runId, old(accepted), event)
      ensures r == Ok(DuplicateIgnored) <==> event in old(accepted)
      ensures r == Ok(Applied) ==> accepted == old(accepted) + [event]
      ensures r != Ok(Applied) ==> unchanged(this)
    {
      hide ValidLog, Recovered, Ended;
      VerdictMeans(runId, accepted, event);
      if event.runId != runId {
        return Err(WrongRun);
      }
      if event.id == "" {
        return Err(MalformedEvent);
      }
      if event.sequence in bySequence {
        assert bySequence[event.sequence - 1 + 1] == accepted[event.sequence - 1];
        if bySequence[event.sequence] == event {
          return Ok(DuplicateIgnored);
        }
        return Err(ConflictingDuplicate);
      }
      var refusal := Refusal(event);
      if refusal.Some? {
        return Err(refusal.value);
      }
      Take(event);
      r := Ok(Applied);
    }
  }

  lemma FollowMeans(runId: string, log: seq<Event>, e: Event)
    requires MayFollow(runId, log, e)
    ensures e.sequence == |log| + 1
    ensures Ended(log) ==> e.kind == ClosureRecoveryStarted
  {
  }

  lemma EndedStep(log: seq<Event>, e: Event)
    ensures LastEvent(log + [e]) == e && (Ended(log + [e]) <==> IsTerminal(e))
  {
  }

  lemma RecoveredStep(log: seq<Event>, e: Event)
    ensures Recovered(log + [e]) <==> Recovered(log) || e.kind == ClosureRecoveryStarted
  {
    assert e in log + [e];
    assert forall x :: x in log + [e] <==> x in log || x == e;
  }

  lemma NothingConcluded()
    ensures Conclusion([]) == None
  {
  }

  lemma ConclusionStep(runId: string, log: seq<Event>, e: Event)
    requires MayFollow(runId, log, e)
    ensures Conclusion(log + [e]) == if IsTerminal(e) then Some(e)
                                     else if e.kind == ClosureRecoveryStarted then None else Conclusion(log)
  {
    FollowMeans(runId, log, e);
    EndedStep(log, e);
  }

  lemma RefusedIsInvalid(runId: string, log: seq<Event>, i: nat)
    requires i < |log| && !MayFollow(runId, log[..i], log[i])
    ensures !ValidLog(runId, log)
  {
    hide MayFollow;
  }

  /** The events before are valid, and this one is refused for the reason; one that is already there is a
      repeated sequence. */
  ghost predicate FirstRefusal(runId: string, events: seq<Event>, i: nat, reason: Reason)
    requires i < |events|
  {
    && ValidLog(runId, events[..i])
    && match Verdict(runId, events[..i], events[i])
       case Ok(DuplicateIgnored) => reason == DuplicateSequence
       case Ok(Applied) => false
       case Err(e) => reason == e
  }

  /** Accepts exactly the valid logs, and returns the event that ended the run, if it has ended; otherwise
      it says why the first event that does not fit is refused. */
  method ValidateEventLog(runId: string, events: seq<Event>) returns (r: Result<Option<Event>, Reason>)
    ensures r.Ok? <==> ValidLog(runId, events)
    ensures r.Ok? ==> r.value == Conclusion(events)
    ensures r.Err? ==> exists i :: 0 <= i < |events| && FirstRefusal(runId, events, i, r.error)
  {
    hide MayFollow, ValidLog, Cursor.Valid, Conclusion, Verdict;
    EmptyIsValid(runId);
    var cursor := new Cursor(runId);
    var terminal: Option<Event> := None;
    assert Conclusion(events[..0]) == None by { NothingConcluded(); assert events[..0] == []; }
    for i := 0 to |events|
      invariant fresh(cursor) && cursor.Valid() && cursor.runId == runId && cursor.accepted == events[..i]
      invariant ValidLog(runId, events[..i])
      invariant terminal == Conclusion(events[..i])
    {
      var disposition := cursor.Accept(events[i]);
      assert events[..i + 1] == events[..i] + [events[i]];
      if disposition != Ok(Applied) {
        RefusedIsInvalid(runId, events, i);
        assert disposition == Verdict(runId, events[..i], events[i]);
        assert FirstRefusal(runId, events, i, if disposition.Ok? then DuplicateSequence else disposition.error);
        return if disposition.Ok? then Err(DuplicateSequence) else Err(disposition.error);
      }
      ConclusionStep(runId, events[..i], events[i]);
      if IsTerminal(events[i]) {
        terminal := Some(events[i]);
      } else if events[i].kind == ClosureRecoveryStarted {
        terminal := None;
      }
    }
    assert events[..|events|] == events;
    return Ok(terminal);
  }

  // ---- The in-memory stream -------------------------------------------------------------

  /** One run's in-memory event list. */
  class EventStream {
    const runId: string
    var events: seq<Event>

    constructor (runId: string)
      ensures this.runId == runId && events == []
    {
      this.runId, events := runId, [];
    }

    /** Appends a copy of an existing event when it may follow. */
    method Append(event: Event) returns (ok: bool)
      requires ValidLog(runId, events) && event.runId == runId
      modifies this
      ensures ValidLog(runId, events)
      ensures ok <==> MayFollow(runId, old(events), event)
      ensures events == if ok then old(events) + [event] else old(events)
    {
      hide ValidLog;
      ValidAppend(runId, events, event);
      if Ended(events) && event.kind != ClosureRecoveryStarted {
        return false;
      }
      if event.sequence != |events| + 1 {
        return false;
      }
      if exists e :: e in events && e.id == event.id {
        return false;
      }
      var checked := ValidateEventLog(runId, events + [event]);
      ok := checked.Ok?;
      if ok {
        events := events + [event];
      }
    }

    /** Emits a new event with the next sequence and a fresh id. */
    method Emit(id: string, kind: Kind, status: Option<string>, failedEventId: Option<string>, body: string)
      returns (ok: bool)
      requires ValidLog(runId, events) && id != "" && forall e :: e in events ==> e.id != id
      modifies this
      ensures ValidLog(runId, events)
      ensures var e := Event(id, runId, kind, |old(events)| + 1, status, failedEventId, body);
              && (ok <==> MayFollow(runId, old(events), e))
              && events == if ok then old(events) + [e] else old(events)
    {
      hide ValidLog;
      var e := Event(id, runId, kind, |events| + 1, status, failedEventId, body);
      ValidAppend(runId, events, e);
      if Ended(events) && kind != ClosureRecoveryStarted {
        return false;
      }
      if kind == ClosureRecoveryStarted {
        var checked := ValidateEventLog(runId, events + [e]);
        if checked.Err? {
          return false;
        }
      }
      events := events + [e];
      ok := true;
    }
  }
}

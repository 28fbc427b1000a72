/** Workers racing to deliver the same task against the append-only evidence table.

    Any number of workers, each following the records that recovery may append, interleave with
    re-deliveries and crashes at any point. The partial unique index admits one first attempt for each
    (run, task, operation). */
module DeliveryRace {
  import opened Wrappers
  import opened RecoveryDomain
  import opened RecoveryLog
  import opened RecoveryTheorems

  type WorkerId = nat

  datatype Key = Key(runId: string, taskId: string, operationId: string)

  function KeyOf(s: Scope): Key {
    Key(s.runId, s.taskId, s.operationId)
  }

  datatype Row = Row(worker: WorkerId, key: Key, record: Evidence)

  /** Delivered, found earlier records for its key, is running, or is gone. */
  datatype Phase = Delivered | Redelivered | Running | Gone

  datatype Worker = Worker(cfg: Config, phase: Phase, log: Log, calls: nat, called: bool)

  datatype State = State(table: seq<Row>, workers: map<WorkerId, Worker>)

  datatype Action =
    | Deliver(w: WorkerId, cfg: Config)
    | Peek(w: WorkerId)
    | Append(w: WorkerId, record: Evidence)
    | Call(w: WorkerId)
    | Crash(w: WorkerId)

  predicate InIndex(row: Row, key: Key) {
    row.key == key && IsEntry(row.record)
  }

  predicate Collides(table: seq<Row>, key: Key, e: Evidence) {
    IsEntry(e) && exists row :: row in table && InIndex(row, key)
  }

  predicate Knows(table: seq<Row>, key: Key) {
    exists row :: row in table && row.key == key
  }

  ghost predicate Enabled(s: State, a: Action) {
    match a
    case Deliver(w, cfg) => w !in s.workers && cfg.Valid()
    case Peek(w) => w in s.workers && s.workers[w].phase == Delivered
    case Append(w, e) =>
      && w in s.workers && s.workers[w].cfg.Valid()
      && (match s.workers[w].phase
          case Redelivered => e == Terminal(InterruptedExecution, s.workers[w].cfg.initial, None)
          case Running => Justified(s.workers[w].cfg, s.workers[w].log, e)
          case _ => false)
    case Call(w) =>
      && w in s.workers && s.workers[w].phase == Running && !s.workers[w].called
      && s.workers[w].log != [] && Last(s.workers[w].log).Started?
    case Crash(w) => w in s.workers
  }

  /** One atomic step; a step that is not enabled does nothing. */
  ghost function Step(s: State, a: Action): State {
    if !Enabled(s, a) then s
    else
      match a
      case Deliver(w, cfg) => s.(workers := s.workers[w := Worker(cfg, Delivered, [], 0, false)])
      case Peek(w) =>
        var worker := s.workers[w];
        var phase := if Knows(s.table, KeyOf(worker.cfg.scope)) then Redelivered else Running;
        s.(workers := s.workers[w := worker.(phase := phase)])
      case Append(w, e) =>
        var worker := s.workers[w];
        var key := KeyOf(worker.cfg.scope);
        if Collides(s.table, key, e) then
          // The insert fails and the exception ends the worker.
          s.(workers := s.workers[w := worker.(phase := Gone)])
        else
          State(s.table + [Row(w, key, e)],
                s.workers[w := worker.(log := worker.log + [e], called := false,
                                       phase := if worker.phase == Redelivered then Gone else worker.phase)])
      case Call(w) =>
        var worker := s.workers[w];
        s.(workers := s.workers[w := worker.(calls := worker.calls + 1, called := true)])
      case Crash(w) => s.(workers := s.workers[w := s.workers[w].(phase := Gone)])
  }

  ghost function Run(actions: seq<Action>): State {
    if actions == [] then State([], map[]) else Step(Run(actions[..|actions| - 1]), Last(actions))
  }

  lemma OneMore(actions: seq<Action>, a: Action)
    ensures Run([]) == State([], map[]) && Run(actions + [a]) == Step(Run(actions), a)
  {
    hide Step;
    assert (actions + [a])[..|actions|] == actions;
  }

  /** Two executions have one key exactly when they are of one run, task and operation. */
  lemma KeyMeans(x: Scope, y: Scope)
    ensures KeyOf(x) == KeyOf(y) <==> x.runId == y.runId && x.taskId == y.taskId && x.operationId == y.operationId
  {
  }

  /** A delivered worker counts as redelivered exactly when its key has a record already. */
  lemma PeekMeans(s: State, w: WorkerId)
    requires w in s.workers && s.workers[w].phase == Delivered
    ensures var t := Step(s, Peek(w));
            && t.table == s.table && w in t.workers
            && t.workers[w].phase == if exists row :: row in s.table && row.key == KeyOf(s.workers[w].cfg.scope)
                                     then Redelivered else Running
  {
  }

  // ---- Invariant ------------------------------------------------------------------------

  ghost predicate WorkerInv(s: State, w: WorkerId)
    requires w in s.workers
  {
    var worker := s.workers[w];
    && worker.cfg.Valid() && Lawful(worker.cfg, worker.log)
    && worker.calls + (if worker.log != [] && Last(worker.log).Started? && !worker.called then 1 else 0)
         <= |Invocations(worker.log)|
    && (worker.log != [] && worker.log[0].Started? ==> Row(w, KeyOf(worker.cfg.scope), worker.log[0]) in s.table)
    && (worker.phase in {Delivered, Redelivered} ==> worker.log == [])
  }

  ghost predicate Inv(s: State) {
    && (forall w :: w in s.workers ==> WorkerInv(s, w))
    && UniqueEntries(s.table)
  }

  ghost predicate UniqueEntries(table: seq<Row>) {
    forall i, j, key :: 0 <= i < j < |table| && InIndex(table[i], key) ==> !InIndex(table[j], key)
  }

  lemma InsertKeepsUnique(table: seq<Row>, row: Row)
    requires UniqueEntries(table) && !Collides(table, row.key, row.record)
    ensures UniqueEntries(table + [row])
  {
    var t := table + [row];
    forall i, j, key | 0 <= i < j < |t| && InIndex(t[i], key) ensures !InIndex(t[j], key) {
      if j == |table| {
        assert t[i] == table[i] && table[i] in table;
      }
    }
  }

  /** The step changes one worker and at most extends the table: every other worker stays as it was. */
  lemma OthersKeepInv(s: State, t: State, w: WorkerId, v: WorkerId)
    requires v in s.workers && v in t.workers && v != w && WorkerInv(s, v)
    requires w in t.workers && t.workers == s.workers[w := t.workers[w]]
    requires s.table <= t.table
    ensures WorkerInv(t, v)
  {
    hide Lawful, Invocations;
    assert t.workers[v] == s.workers[v];
    assert forall row :: row in s.table ==> row in t.table;
  }

  lemma ReplacedWorkerKeepsInv(s: State, t: State, w: WorkerId)
    requires Inv(s) && w in t.workers && t.workers == s.workers[w := t.workers[w]] && s.table <= t.table
    requires WorkerInv(t, w) && UniqueEntries(t.table)
    ensures Inv(t)
  {
    hide WorkerInv, UniqueEntries;
    forall v | v in t.workers ensures WorkerInv(t, v) {
      if v != w {
        OthersKeepInv(s, t, w, v);
      }
    }
  }

  lemma AppendKeepsInv(s: State, w: WorkerId, e: Evidence)
    requires Inv(s) && Enabled(s, Append(w, e))
    ensures Inv(Step(s, Append(w, e)))
  {
    hide Justified, Lawful, Invocations, InIndex, UniqueEntries, MayStop, Blame, WorkerInv, Collides;
    var worker, t := s.workers[w], Step(s, Append(w, e));
    var key := KeyOf(worker.cfg.scope);
    if Collides(s.table, key, e) {
      CollidedWorker(s, t, w);
    } else {
      InsertKeepsUnique(s.table, Row(w, key, e));
      InsertedWorker(s, t, w, e);
    }
    ReplacedWorkerKeepsInv(s, t, w);
  }

  lemma CollidedWorker(s: State, t: State, w: WorkerId)
    requires w in s.workers && WorkerInv(s, w)
    requires t == s.(workers := s.workers[w := s.workers[w].(phase := Gone)])
    ensures WorkerInv(t, w)
  {
    hide Lawful, Invocations;
  }

  lemma InsertedWorker(s: State, t: State, w: WorkerId, e: Evidence)
    requires Enabled(s, Append(w, e)) && WorkerInv(s, w)
    requires t.table == s.table + [Row(w, KeyOf(s.workers[w].cfg.scope), e)]
    requires w in t.workers
    requires t.workers[w] == s.workers[w].(log := s.workers[w].log + [e], called := false, phase := t.workers[w].phase)
    requires t.workers[w].phase in {Gone, Running}
    ensures WorkerInv(t, w)
  {
    hide Justified, Lawful, Invocations;
    var worker := s.workers[w];
    AppendKeepsWorker(worker, e);
    assert Last(t.table) in t.table;
    assert forall row :: row in s.table ==> row in t.table;
  }

  lemma AppendKeepsWorker(worker: Worker, e: Evidence)
    requires worker.cfg.Valid() && Lawful(worker.cfg, worker.log)
    requires worker.calls <= |Invocations(worker.log)|
    requires (worker.log == [] && e == Terminal(InterruptedExecution, worker.cfg.initial, None))
             || Justified(worker.cfg, worker.log, e)
    ensures Lawful(worker.cfg, worker.log + [e])
    ensures worker.calls + (if e.Started? then 1 else 0) <= |Invocations(worker.log + [e])|
  {
    RecoveryLog.Append(worker.cfg, worker.log, e);
  }

  lemma StepKeepsInv(s: State, a: Action)
    requires Inv(s)
    ensures Inv(Step(s, a))
  {
    hide Justified;
    if Enabled(s, a) {
      if a.Append? {
        AppendKeepsInv(s, a.w, a.record);
      } else {
        var t := Step(s, a);
        forall v | v in t.workers ensures WorkerInv(t, v) {
          if v in s.workers {
            assert WorkerInv(s, v);
          }
        }
      }
    }
  }

  lemma {:induction false} RunsKeepInv(actions: seq<Action>)
    ensures Inv(Run(actions))
  {
    if actions != [] {
      RunsKeepInv(actions[..|actions| - 1]);
      StepKeepsInv(Run(actions[..|actions| - 1]), Last(actions));
    }
  }

  // ---- Single delivery ------------------------------------------------------------------

  lemma SingleRecord(log: Log)
    requires |log| == 1
    ensures Invocations(log) == if log[0].Started? then [log[0].route] else []
  {
    assert log[..0] == [];
  }

  /** A worker that has called a provider owns the index entry of its key. */
  lemma CallerOwnsEntry(s: State, w: WorkerId)
    requires Inv(s) && w in s.workers && s.workers[w].calls > 0
    ensures var worker := s.workers[w];
            && worker.log != [] && IsEntry(worker.log[0])
            && Row(w, KeyOf(worker.cfg.scope), worker.log[0]) in s.table
  {
    hide Justified;
    var worker := s.workers[w];
    assert WorkerInv(s, w);
    StartsWithExecution(worker.cfg, worker.log);
    OnlyTheFirstRecordIsEntry(worker.cfg, worker.log, 0);
    if |worker.log| == 1 {
      SingleRecord(worker.log);
    }
  }

  /** Under any interleaving, with crashes and re-deliveries, at most one worker ever makes provider
      calls for a (run, task, operation). */
  lemma AtMostOneCaller(actions: seq<Action>, w1: WorkerId, w2: WorkerId)
    requires var s := Run(actions);
             && w1 in s.workers && w2 in s.workers
             && KeyOf(s.workers[w1].cfg.scope) == KeyOf(s.workers[w2].cfg.scope)
             && s.workers[w1].calls > 0 && s.workers[w2].calls > 0
    ensures w1 == w2
  {
    var s := Run(actions);
    RunsKeepInv(actions);
    CallerOwnsEntry(s, w1);
    CallerOwnsEntry(s, w2);
    var key := KeyOf(s.workers[w1].cfg.scope);
    var r1, r2 := Row(w1, key, s.workers[w1].log[0]), Row(w2, key, s.workers[w2].log[0]);
    var i :| 0 <= i < |s.table| && s.table[i] == r1;
    var j :| 0 <= j < |s.table| && s.table[j] == r2;
    assert InIndex(s.table[i], key) && InIndex(s.table[j], key);
  }

  /** The calls that one worker makes stay within its decision budget. */
  lemma CallsOfAWorkerAreBounded(actions: seq<Action>, w: WorkerId)
    requires w in Run(actions).workers
    ensures var worker := Run(actions).workers[w];
            worker.calls <= |Invocations(worker.log)| <= 1 + worker.cfg.budget.maxDecisions
  {
    var s := Run(actions);
    RunsKeepInv(actions);
    assert WorkerInv(s, w);
    CallsAreBounded(s.workers[w].cfg, s.workers[w].log);
  }

  /** The calls made for a key by the workers below `n`. */
  ghost function CallsFor(s: State, key: Key, n: nat): nat {
    if n == 0 then 0
    else CallsFor(s, key, n - 1) + CallsOf(s, key, n - 1)
  }

  ghost function CallsOf(s: State, key: Key, w: WorkerId): nat {
    if w in s.workers && KeyOf(s.workers[w].cfg.scope) == key then s.workers[w].calls else 0
  }

  /** The sum counts every worker of the key. */
  lemma {:induction false} CallsAreCounted(s: State, n: nat, w: WorkerId)
    requires w < n && w in s.workers
    ensures s.workers[w].calls <= CallsFor(s, KeyOf(s.workers[w].cfg.scope), n)
  {
    if w < n - 1 {
      CallsAreCounted(s, n - 1, w);
    }
  }

  lemma {:induction false} OnlyCaller(s: State, key: Key, n: nat, w: WorkerId)
    requires forall v :: 0 <= v < n && v != w ==> CallsOf(s, key, v) == 0
    ensures CallsFor(s, key, n) == if w < n then CallsOf(s, key, w) else 0
  {
    if n > 0 {
      OnlyCaller(s, key, n - 1, w);
    }
  }

  lemma {:induction false} SomeCaller(s: State, key: Key, n: nat) returns (w: WorkerId)
    requires CallsFor(s, key, n) > 0
    ensures w < n && CallsOf(s, key, w) > 0
  {
    if CallsOf(s, key, n - 1) > 0 {
      w := n - 1;
    } else {
      w := SomeCaller(s, key, n - 1);
    }
  }

  /** All calls that are ever made for a (run, task, operation), by however many workers, are the calls of
      one of them: together they are at most one more than that worker's decision limit. */
  lemma CallsForAKeyAreBounded(actions: seq<Action>, key: Key, n: nat) returns (w: WorkerId)
    requires CallsFor(Run(actions), key, n) > 0
    ensures var s := Run(actions);
            && w < n && w in s.workers && KeyOf(s.workers[w].cfg.scope) == key
            && CallsFor(s, key, n) == s.workers[w].calls <= 1 + s.workers[w].cfg.budget.maxDecisions
  {
    hide Run;
    var s := Run(actions);
    w := SomeCaller(s, key, n);
    forall v | 0 <= v < n && v != w ensures CallsOf(s, key, v) == 0 {
      if CallsOf(s, key, v) > 0 {
        AtMostOneCaller(actions, v, w);
      }
    }
    OnlyCaller(s, key, n, w);
    CallsOfAWorkerAreBounded(actions, w);
  }

  /** An insert is refused exactly when it is an entry and its own key has one: other keys do not matter. */
  lemma RefusedExactlyForItsKey(s: State, w: WorkerId, e: Evidence)
    requires Enabled(s, Append(w, e))
    ensures var key := KeyOf(s.workers[w].cfg.scope);
            var t := Step(s, Append(w, e));
            if IsEntry(e) && exists row :: row in s.table && row.key == key && IsEntry(row.record)
            then t.table == s.table && t.workers[w].phase == Gone
            else t.table == s.table + [Row(w, key, e)] && t.workers[w].log == s.workers[w].log + [e]
  {
    hide Justified, IsEntry;
    assert forall row, key :: InIndex(row, key) <==> row.key == key && IsEntry(row.record);
  }

  /** Only a worker's first record can collide with the index: once it has inserted a record, none of
      its later inserts is refused. */
  lemma LaterRecordsNeverCollide(actions: seq<Action>, w: WorkerId, e: Evidence)
    requires Enabled(Run(actions), Append(w, e)) && Run(actions).workers[w].log != []
    ensures var s := Run(actions);
            && !Collides(s.table, KeyOf(s.workers[w].cfg.scope), e)
            && Step(s, Append(w, e)).table == s.table + [Row(w, KeyOf(s.workers[w].cfg.scope), e)]
  {
    hide Justified;
    var s := Run(actions);
    RunsKeepInv(actions);
    assert WorkerInv(s, w);
    var worker := s.workers[w];
    RecoveryLog.Append(worker.cfg, worker.log, e);
    OnlyTheFirstRecordIsEntry(worker.cfg, worker.log + [e], |worker.log|);
  }

  // ---- Redelivery -----------------------------------------------------------------------

  /** The worker has found earlier records of its key: it has called nothing, and never will. */
  ghost predicate Spared(s: State, w: WorkerId) {
    && w in s.workers && s.workers[w].calls == 0
    && (s.workers[w].phase == Redelivered || s.workers[w].phase == Gone)
  }

  lemma StaysSpared(s: State, a: Action, w: WorkerId)
    requires Spared(s, w)
    ensures Spared(Step(s, a), w)
  {
    hide Justified;
  }

  lemma {:induction false} SparedForGood(before: seq<Action>, after: seq<Action>, w: WorkerId)
    requires Spared(Run(before), w)
    ensures Spared(Run(before + after), w)
    decreases |after|
  {
    hide Step, Spared;
    if after == [] {
      assert before + after == before;
    } else {
      var init := after[..|after| - 1];
      SparedForGood(before, init, w);
      assert (before + after)[..|before + after| - 1] == before + init;
      StaysSpared(Run(before + init), Last(after), w);
    }
  }

  /** A worker that is delivered a task whose key has a record already never calls a provider. */
  lemma RedeliveryNeverCalls(actions: seq<Action>, later: seq<Action>, w: WorkerId)
    requires var s := Run(actions);
             && w in s.workers && s.workers[w].phase == Delivered
             && exists row :: row in s.table && row.key == KeyOf(s.workers[w].cfg.scope)
    ensures var t := Run(actions + [Peek(w)] + later);
            w in t.workers && t.workers[w].calls == 0
  {
    hide Justified, Lawful, Invocations;
    var s := Run(actions);
    RunsKeepInv(actions);
    assert WorkerInv(s, w);
    NoLogNoCalls(s.workers[w]);
    OneMore(actions, Peek(w));
    assert Spared(Run(actions + [Peek(w)]), w);
    SparedForGood(actions + [Peek(w)], later, w);
  }

  lemma NoLogNoCalls(worker: Worker)
    requires worker.log == [] && worker.calls <= |Invocations(worker.log)|
    ensures worker.calls == 0
  {
  }
}

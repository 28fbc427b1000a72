/** The log as an exact account of what the providers, the clock and the supervisor answered.

    `Lawful` says which logs recovery may write; `Faithful` says which one of them it does write when
    it is told these answers. */
module RecoveryAnswers {
  import opened Wrappers
  import opened RecoveryDomain
  import opened RecoveryPolicy
  import opened RecoveryLog

  /** What a provider call comes back with. */
  datatype Reply = Answered(substituted: bool) | Faulted(fault: Fault) | TimedOut | Unauthorized | Interrupted

  /** What consulting the supervisor comes back with. */
  datatype Proposal = Proposed(decision: Decision) | SupervisorTimeout | SupervisorError | SupervisorUnauthorized

  /** Everything the loop does not control, as functions of how often it has asked: whether earlier
      records of the operation exist, the providers, the clock, the supervisor, and whether the frozen
      inputs are still intact. */
  datatype Environment = Environment(
    redelivered: bool,
    reply: nat -> Reply,
    elapsed: nat -> Seconds,
    propose: (nat, Context) -> Proposal,
    intact: nat -> bool)

  datatype Ending =
    | Succeeded(route: Route, substituted: bool)
    | Stopped(reason: StopReason)
    | Rejected                       // refused before any record
    | Escaped                        // an exception left the loop without a terminal record

  /** What closes an attempt for each reply. */
  function ClosingOf(reply: Reply, generated: bool): Closing {
    match reply
    case Answered(substituted) => Pass(substituted)
    case Faulted(fault) => Fail(Assess(fault, generated).failureClass)
    case TimedOut => Fail(TaskDeadlineExceeded)
    case Unauthorized => Refused
    case Interrupted => Cancelled
  }

  /** Readings of the clock so far: one before each call, two for each decision. */
  function ClockReads(log: Log): nat {
    if log == [] then 0
    else ClockReads(log[..|log| - 1]) + if Last(log).Started? then 1 else if Last(log).Decided? then 2 else 0
  }

  /** What is left of the budget's time at a reading of the clock. */
  function TimeLeft(cfg: Config, env: Environment, reading: nat): (left: Seconds)
    ensures left <= cfg.budget.maxTime && (left > 0.0 <==> env.elapsed(reading) < cfg.budget.maxTime)
  {
    if env.elapsed(reading) < cfg.budget.maxTime then cfg.budget.maxTime - env.elapsed(reading) else 0.0
  }

  // ---- Why a run stops ------------------------------------------------------------------

  /** Nothing is called when the inputs changed or the time is up. */
  function BeforeCall(cfg: Config, env: Environment, log: Log): Option<StopReason> {
    if !env.intact(|Invocations(log)|) then Some(NonRecoverableStop)
    else if TimeLeft(cfg, env, ClockReads(log)) == 0.0 then Some(RecoveryBudgetExhausted)
    else None
  }

  /** The context that the loop builds on a log that continues. */
  function HeadContext(cfg: Config, env: Environment, log: Log): Context
    requires cfg.Valid() && LedgerOf(cfg, log).current in cfg.routes
  {
    ContextOf(cfg, LedgerOf(cfg, log), TimeLeft(cfg, env, ClockReads(log) + 1), Refs(log))
  }

  /** The ordered walk has nothing left to try. */
  predicate NothingUsable(cfg: Config, ctx: Context) {
    cfg.ordered && forall c :: c in ctx.candidates ==> !Usable(c)
  }

  datatype Verdict = Stop(reason: StopReason) | Surrender | Abandon | Gate(decision: Decision)

  /** What a recoverable failure leads to when there is time: surrender, an exhausted budget, or the
      supervisor's answer. */
  function Consulted(cfg: Config, env: Environment, ctx: Context, asked: nat): Verdict {
    if NothingUsable(cfg, ctx) then Surrender
    else if ctx.remainingDecisions <= 0 || ctx.remainingAttempts <= 0 then Stop(RecoveryBudgetExhausted)
    else
      match env.propose(asked, ctx)
      case SupervisorTimeout => Stop(RecoveryBudgetExhausted)
      case SupervisorError => Stop(PolicyDenied)
      case SupervisorUnauthorized => Abandon
      case Proposed(d) => Gate(d)
  }

  /** The failure just closed is one that recovery does not answer. */
  predicate Hopeless(cfg: Config, last: Evidence) {
    last.Completed? && last.closing.Fail? && !Reassess(last.closing.failureClass, cfg.generated).recoverable
  }

  /** The verdict on a closed attempt after which the loop has to go round. A hopeless check stops the
      run at once, a hopeless execution only when there is time. */
  function AtLoopHead(cfg: Config, env: Environment, log: Log): Verdict
    requires cfg.Valid() && LedgerOf(cfg, log).current in cfg.routes
    requires Continues(cfg, log) || (log != [] && Hopeless(cfg, Last(log)))
  {
    if Hopeless(cfg, Last(log)) && Last(log).check then Stop(NonRecoverableStop)
    else if TimeLeft(cfg, env, ClockReads(log)) == 0.0 then Stop(RecoveryBudgetExhausted)
    else if Hopeless(cfg, Last(log)) then Stop(NonRecoverableStop)
    else Consulted(cfg, env, HeadContext(cfg, env, log), DecisionCount(log))
  }

  predicate StopsAtHead(cfg: Config, env: Environment, log: Log, reason: StopReason)
    requires cfg.Valid()
  {
    && LedgerOf(cfg, log).current in cfg.routes
    && (Continues(cfg, log) || (log != [] && Hopeless(cfg, Last(log))))
    && AtLoopHead(cfg, env, log) == Stop(reason)
  }

  /** The cause of a terminal record. */
  predicate Cause(cfg: Config, env: Environment, log: Log, reason: StopReason)
    requires cfg.Valid()
  {
    if log == [] then
      if env.redelivered then reason == InterruptedExecution
      else if !Opens(cfg) then reason == PolicyDenied
      else BeforeCall(cfg, env, log) == Some(reason)
    else
      match Last(log)
      case Completed(_, _, _, closing) =>
        if closing.Refused? then reason == NonRecoverableStop
        else if closing == Fail(TaskDeadlineExceeded) then reason == RecoveryBudgetExhausted
        else StopsAtHead(cfg, env, log, reason)
      case Decided(d, _, allowed) =>
        if !allowed then reason == PolicyDenied
        else if Fails(d) then reason == if d.reason == BudgetExhausted then RecoveryBudgetExhausted else PolicyDenied
        else BeforeCall(cfg, env, log) == Some(reason)
      case _ => false
  }

  // ---- Which record comes next ----------------------------------------------------------

  predicate DecisionAnswers(cfg: Config, env: Environment, log: Log, d: Decision, ctx: Context)
    requires cfg.Valid() && LedgerOf(cfg, log).current in cfg.routes
  {
    && TimeLeft(cfg, env, ClockReads(log)) > 0.0
    && ctx == HeadContext(cfg, env, log)
    && (match Consulted(cfg, env, ctx, DecisionCount(log))
        case Surrender => d == SurrenderDecision(ctx)
        case Gate(proposed) => d == proposed
        case _ => false)
  }

  predicate Answers(cfg: Config, env: Environment, log: Log, next: Evidence)
    requires cfg.Valid()
  {
    match next
    case Started(_, _, _) => (log == [] ==> !env.redelivered) && BeforeCall(cfg, env, log) == None
    case Completed(_, _, _, closing) =>
      && |Invocations(log)| > 0
      && closing == ClosingOf(env.reply(|Invocations(log)| - 1), cfg.generated)
    case Decided(d, ctx, _) =>
      LedgerOf(cfg, log).current in cfg.routes && DecisionAnswers(cfg, env, log, d, ctx)
    case Terminal(reason, _, _) => Cause(cfg, env, log, reason)
  }

  predicate Faithful(cfg: Config, env: Environment, log: Log)
    requires cfg.Valid()
  {
    log != [] ==> Faithful(cfg, env, log[..|log| - 1]) && Answers(cfg, env, log[..|log| - 1], Last(log))
  }

  /** A log that recovery may write and that says what the environment answered. */
  ghost predicate Genuine(cfg: Config, env: Environment, log: Log) {
    cfg.Valid() && Lawful(cfg, log) && Faithful(cfg, env, log)
  }

  /** How the way a run ended shows in its log. */
  predicate Concluded(cfg: Config, env: Environment, log: Log, ending: Ending)
    requires cfg.Valid()
  {
    match ending
    case Succeeded(route, substituted) =>
      && log != [] && Last(log).Completed? && Last(log).route == route && Last(log).closing == Pass(substituted)
      && (Last(log).check ==> cfg.ordered || substituted)
    case Stopped(reason) => log != [] && Last(log).Terminal? && Last(log).reason == reason
    case Rejected => log == []
    case Escaped => Abandoned(cfg, env, log)
  }

  /** The run was cancelled, the supervisor was refused authorization, or the next attempt's number does
      not fit its evidence row. */
  predicate Abandoned(cfg: Config, env: Environment, log: Log)
    requires cfg.Valid()
  {
    && log != []
    && (match Last(log)
        case Completed(_, _, _, closing) =>
          || closing.Cancelled?
          || (&& Continues(cfg, log) && LedgerOf(cfg, log).current in cfg.routes
              && AtLoopHead(cfg, env, log) == Abandon)
        case Decided(d, _, allowed) =>
          && allowed && Invokes(d.action) && BeforeCall(cfg, env, log) == None
          && NextNumber(cfg, log, d.action == CapabilityCheck) > MAX_ATTEMPT_NUMBER
        case _ => false)
  }

  // ---- Appending one genuine record -----------------------------------------------------

  lemma AppendGenuine(cfg: Config, env: Environment, log: Log, e: Evidence)
    requires Genuine(cfg, env, log) && Justified(cfg, log, e) && Answers(cfg, env, log, e)
    ensures Genuine(cfg, env, log + [e])
    ensures ClockReads(log + [e]) == ClockReads(log) + if e.Started? then 1 else if e.Decided? then 2 else 0
  {
    hide Justified, Answers;
    assert (log + [e])[..|log|] == log;
  }

  lemma DecisionIsGenuine(cfg: Config, env: Environment, log: Log, led: Ledger, e: Evidence)
    requires Genuine(cfg, env, log) && led == LedgerOf(cfg, log)
    requires Continues(cfg, log) && led.failure.recoverable && led.current in cfg.routes
    requires e.Decided? && DecisionAnswers(cfg, env, log, e.decision, e.context)
    requires DecisionHolds(cfg, led, e.decision, e.context, e.allowed)
    ensures Genuine(cfg, env, log + [e]) && Blame(cfg, log + [e]) == Blame(cfg, log)
    ensures Invocations(log + [e]) == Invocations(log) && ClockReads(log + [e]) == ClockReads(log) + 2
    ensures LedgerOf(cfg, log + [e]) == led.(decisions := led.decisions + 1)
  {
    hide Justified, DecisionHolds, LedgerCandidates, LedgerOf, Consulted, ClockReads, Blame, Invocations, Continues;
    assert Genuine(cfg, env, log + [e]) && ClockReads(log + [e]) == ClockReads(log) + 2 by {
      DecisionIsJustified(cfg, log, led, e);
      AppendGenuine(cfg, env, log, e);
    }
    DecisionKeepsReadings(cfg, log, led, e);
  }

  lemma StartIsGenuine(cfg: Config, env: Environment, log: Log, started: Evidence)
    requires Genuine(cfg, env, log)
    requires started.Started? && MayStart(cfg, log, started.route, started.check)
    requires started.number == NextNumber(cfg, log, started.check) <= MAX_ATTEMPT_NUMBER
    requires log == [] ==> !env.redelivered
    requires BeforeCall(cfg, env, log) == None
    ensures Genuine(cfg, env, log + [started]) && Blame(cfg, log + [started]) == Blame(cfg, log)
    ensures Invocations(log + [started]) == Invocations(log) + [started.route]
    ensures ClockReads(log + [started]) == ClockReads(log) + 1
  {
    hide Lawful, Faithful, BeforeCall, Blame, NextNumber, Invocations, ClockReads, LedgerOf, Orders;
    assert Justified(cfg, log, started);
    assert Answers(cfg, env, log, started);
    AppendGenuine(cfg, env, log, started);
    Append(cfg, log, started);
  }

  lemma ClosingIsGenuine(cfg: Config, env: Environment, log: Log, completed: Evidence)
    requires Genuine(cfg, env, log) && log != [] && Invocations(log) != []
    requires completed.Completed? && Last(log) == Started(completed.number, completed.route, completed.check)
    requires completed.closing == ClosingOf(env.reply(|Invocations(log)| - 1), cfg.generated)
    ensures Genuine(cfg, env, log + [completed])
    ensures Blame(cfg, log + [completed]) == if completed.closing.Fail?
              then (completed.route, Some(completed.closing.failureClass)) else Blame(cfg, log)
    ensures Invocations(log + [completed]) == Invocations(log)
    ensures ClockReads(log + [completed]) == ClockReads(log)
  {
    hide Faithful, ClosingOf, Invocations, ClockReads, LedgerOf;
    assert Justified(cfg, log, completed);
    assert Answers(cfg, env, log, completed);
    AppendGenuine(cfg, env, log, completed);
    Append(cfg, log, completed);
  }

  lemma CauseMayStop(cfg: Config, env: Environment, log: Log, reason: StopReason)
    requires cfg.Valid() && Cause(cfg, env, log, reason)
    ensures MayStop(cfg, log, reason)
  {
    hide LedgerOf, HeadContext, Opens;
  }

  lemma StopIsGenuine(cfg: Config, env: Environment, log: Log, terminal: Evidence)
    requires Genuine(cfg, env, log) && terminal.Terminal? && Cause(cfg, env, log, terminal.reason)
    requires if log != [] && Last(log).Completed? && Last(log).closing.Refused?
             then terminal.blamed == Last(log).route && terminal.failure == None
             else (terminal.blamed, terminal.failure) == Blame(cfg, log)
    ensures Genuine(cfg, env, log + [terminal])
  {
    hide Lawful, Faithful, Cause, Blame, MayStop, LedgerOf;
    CauseMayStop(cfg, env, log, terminal.reason);
    assert Justified(cfg, log, terminal);
    assert Answers(cfg, env, log, terminal);
    AppendGenuine(cfg, env, log, terminal);
  }

  // ---- The answers determine the run ----------------------------------------------------

  /** A log has at most one next record. */
  lemma NextIsDetermined(cfg: Config, env: Environment, log: Log, x: Evidence, y: Evidence)
    requires cfg.Valid()
    requires Justified(cfg, log, x) && Answers(cfg, env, log, x)
    requires Justified(cfg, log, y) && Answers(cfg, env, log, y)
    ensures x == y
  {
    hide LedgerOf, LedgerCandidates, PolicyAllows, Blame, NextNumber, Opens, HeadContext, Usable;
  }

  lemma {:induction false} LogIsDetermined(cfg: Config, env: Environment, x: Log, y: Log)
    requires Genuine(cfg, env, x) && Genuine(cfg, env, y) && |x| <= |y|
    ensures x == y[..|x|]
  {
    hide Justified, Answers;
    if |y| > |x| {
      LogIsDetermined(cfg, env, x, y[..|y| - 1]);
      assert y[..|y| - 1][..|x|] == y[..|x|];
    } else if x != [] {
      var a, b := x[..|x| - 1], y[..|y| - 1];
      LogIsDetermined(cfg, env, a, b);
      assert a == b;
      NextIsDetermined(cfg, env, a, Last(x), Last(y));
      assert x == a + [Last(x)] && y == b + [Last(y)];
    }
  }

  /** Nothing follows the end of a run. */
  lemma ConcludedIsFinal(cfg: Config, env: Environment, log: Log, ending: Ending, e: Evidence)
    requires cfg.Valid() && Concluded(cfg, env, log, ending) && !ending.Rejected?
    ensures !(Justified(cfg, log, e) && Answers(cfg, env, log, e))
  {
    hide LedgerOf, LedgerCandidates, PolicyAllows, Blame, NextNumber, Opens, HeadContext, Usable;
  }

  lemma {:induction false} GenuinePrefix(cfg: Config, env: Environment, log: Log, i: nat)
    requires Genuine(cfg, env, log) && i <= |log|
    ensures Genuine(cfg, env, log[..i])
    ensures i < |log| ==> Justified(cfg, log[..i], log[i]) && Answers(cfg, env, log[..i], log[i])
  {
    hide Justified, Answers;
    if i < |log| - 1 {
      GenuinePrefix(cfg, env, log[..|log| - 1], i);
      assert log[..|log| - 1][..i] == log[..i];
    } else if i == |log| {
      assert log[..i] == log;
    }
  }

  /** What the environment answers determines the whole log and the way the run ends: neither stopping
      early, nor skipping a record, nor asking anything else is left open. */
  lemma AnswersDetermineTheRun(cfg: Config, env: Environment, x: Log, xEnd: Ending, y: Log, yEnd: Ending)
    requires Genuine(cfg, env, x) && Concluded(cfg, env, x, xEnd) && !xEnd.Rejected?
    requires Genuine(cfg, env, y) && Concluded(cfg, env, y, yEnd) && !yEnd.Rejected?
    ensures x == y && xEnd == yEnd
  {
    hide Justified, Answers, Genuine, AtLoopHead, LedgerOf, NextNumber, BeforeCall;
    if |x| <= |y| {
      OneRun(cfg, env, x, xEnd, y);
    } else {
      OneRun(cfg, env, y, yEnd, x);
    }
    assert Continues(cfg, x) && Last(x).closing.Pass? ==> Last(x).check && !cfg.ordered && !Last(x).closing.substituted;
  }

  lemma OneRun(cfg: Config, env: Environment, x: Log, xEnd: Ending, y: Log)
    requires Genuine(cfg, env, x) && Concluded(cfg, env, x, xEnd) && !xEnd.Rejected?
    requires Genuine(cfg, env, y) && |x| <= |y|
    ensures x == y
  {
    hide Justified, Answers, Concluded;
    LogIsDetermined(cfg, env, x, y);
    if |x| < |y| {
      GenuinePrefix(cfg, env, y, |x|);
      ConcludedIsFinal(cfg, env, x, xEnd, y[|x|]);
    } else {
      assert y[..|x|] == y;
    }
  }
}

/** One governed execution of a task: the recovery loop with its in-memory counters, histories and
    maps, and the evidence it appends. Every method is specified against the readings of the log. */
module RecoverySession {
  import opened Wrappers
  import opened RecoveryDomain
  import opened RecoveryPolicy
  import opened RecoveryLog
  import opened RecoveryAnswers
  import opened RecoveryTheorems

  datatype Outcome = Answer(substituted: bool) | Failure(assessment: Assessment) | Raised(ending: Ending)

  class Session {
    const cfg: Config
    const env: Environment

    var log: seq<Evidence>
    var history: seq<Route>
    var checkedRoutes: seq<Route>
    var health: map<Route, Health>
    var capabilities: map<Route, Capability>
    var checks: nat
    var decisions: nat
    var modelSwitches: nat
    var providerSwitches: nat
    var providerCalls: nat
    var current: Route
    var lastFailure: Option<FailureClass>
    var lastFailureRoute: Route
    var clockReads: nat

    constructor (cfg: Config, env: Environment)
      requires cfg.Valid()
      ensures this.cfg == cfg && this.env == env && log == [] && Fresh()
    {
      this.cfg, this.env := cfg, env;
      log, history, checkedRoutes, health, capabilities := [], [], [], cfg.health, cfg.capabilities;
      checks, decisions, modelSwitches, providerSwitches, providerCalls := 0, 0, 0, 0, 0;
      current, lastFailure, lastFailureRoute, clockReads := cfg.initial, None, cfg.initial, 0;
    }

    ghost predicate Fresh()
      reads this
    {
      && cfg.Valid() && log == [] && history == [] && checkedRoutes == [] && health == cfg.health
      && capabilities == cfg.capabilities
      && checks == decisions == modelSwitches == providerSwitches == providerCalls == 0
      && current == lastFailureRoute == cfg.initial && lastFailure == None && clockReads == 0
    }

    ghost function Memory(failure: Assessment): Ledger
      reads this
    {
      Ledger(history, checkedRoutes, checks, decisions, modelSwitches, providerSwitches, current,
             capabilities, health[current := Degraded], failure)
    }

    /** Memory is exactly what the log says, and the terminal record would name the right failure. */
    ghost predicate InStep(failure: Assessment)
      reads this
    {
      && Genuine(cfg, env, log)
      && Memory(failure) == LedgerOf(cfg, log)
      && providerCalls == |Invocations(log)|
      && (lastFailureRoute, lastFailure) == Blame(cfg, log)
      && current in cfg.routes
    }

    /** The clock has been read exactly as often as the log tells. */
    ghost predicate OnTime()
      reads this
    {
      clockReads == ClockReads(log)
    }

    method Remaining() returns (seconds: Seconds)
      modifies this`clockReads
      ensures seconds == TimeLeft(cfg, env, old(clockReads)) && clockReads == old(clockReads) + 1
    {
      var elapsed := env.elapsed(clockReads);
      seconds := if elapsed < cfg.budget.maxTime then cfg.budget.maxTime - elapsed else 0.0;
      clockReads := clockReads + 1;
    }

    method Record(e: Evidence)
      modifies this`log
      ensures log == old(log) + [e]
    {
      log := log + [e];
    }

    /** Appends the terminal record. */
    method Stop(reason: StopReason) returns (ending: Ending)
      requires Genuine(cfg, env, log) && Cause(cfg, env, log, reason)
      requires log != [] && Last(log).Completed? ==> !Last(log).closing.Refused?
      requires (lastFailureRoute, lastFailure) == Blame(cfg, log)
      modifies this`log
      ensures log == old(log) + [Terminal(reason, lastFailureRoute, lastFailure)] && Genuine(cfg, env, log)
      ensures ending == Stopped(reason)
    {
      hide Genuine, Cause;
      StopIsGenuine(cfg, env, log, Terminal(reason, lastFailureRoute, lastFailure));
      Record(Terminal(reason, lastFailureRoute, lastFailure));
      ending := Stopped(reason);
    }

    /** A call of `route` is due, and memory agrees with the log on everything the call depends on. */
    ghost predicate Poised(route: Route, check: bool)
      reads this
    {
      && Genuine(cfg, env, log) && MayStart(cfg, log, route, check) && (log == [] ==> !env.redelivered)
      && (lastFailureRoute, lastFailure) == Blame(cfg, log)
      && providerCalls == |Invocations(log)|
      && OnTime()
    }

    /** Stops before the call when the inputs changed or the time is up. */
    method Guard(route: Route, check: bool) returns (refusal: Option<Ending>)
      requires Poised(route, check)
      modifies this`log, this`clockReads
      ensures Genuine(cfg, env, log)
      ensures refusal.None? ==>
                log == old(log) && BeforeCall(cfg, env, log) == None && clockReads == ClockReads(log) + 1
      ensures refusal.Some? ==> Concluded(cfg, env, log, refusal.value) && refusal.value.Stopped?
    {
      hide Genuine, Blame, ClockReads, Invocations, LedgerOf, Opens, NextNumber;
      refusal := None;
      if !env.intact(providerCalls) {
        var ending := Stop(NonRecoverableStop);
        return Some(ending);
      }
      var seconds := Remaining();
      if seconds <= 0.0 {
        var ending := Stop(RecoveryBudgetExhausted);
        return Some(ending);
      }
    }

    /** The number of the attempt, and whether its evidence row takes it. */
    lemma Numbered(route: Route, check: bool, calls: nat, number: nat)
      requires MayStart(cfg, log, route, check) && cfg.Valid() && BeforeCall(cfg, env, log) == None
      requires calls == |Invocations(log)| + 1
      requires |history| == |Executions(log)| + (if check then 0 else 1)
      requires checks == |CheckRoutes(log)| + (if check then 1 else 0)
      requires number == if cfg.ordered then calls else if check then checks else |history|
      ensures number == NextNumber(cfg, log, check)
      ensures number > MAX_ATTEMPT_NUMBER ==> Concluded(cfg, env, log, Escaped)
    {
      hide LedgerOf, BeforeCall, Invocations;
      if log == [] {
        assert Executions(log) == [] && |Invocations(log)| == 0 by { EmptyLog(cfg, env); }
      }
    }

    /** One provider call: nothing is called when the inputs changed or the time is up; otherwise the
        attempt is started, called and closed, in that order. */
    method Invoke(route: Route, check: bool) returns (outcome: Outcome)
      requires Poised(route, check)
      requires route in cfg.routes && route in capabilities && cfg.registry[route].authority
      requires |history| == |Executions(log)| + (if check then 0 else 1)
      requires checks == |CheckRoutes(log)| + (if check then 1 else 0)
      modifies this`log, this`providerCalls, this`capabilities, this`lastFailure, this`lastFailureRoute, this`clockReads
      ensures Genuine(cfg, env, log)
      ensures !outcome.Raised? ==> Called(old(log), old(providerCalls), old(capabilities), route, check, outcome)
      ensures outcome.Raised? ==>
                Concluded(cfg, env, log, outcome.ending) && !outcome.ending.Succeeded? && !outcome.ending.Rejected?
    {
      hide Justified, MayStop, MayStart, Blame, CapabilitiesAfter, Lawful, Faithful, LedgerOf, Concluded, ClockReads,
           BeforeCall, NextNumber, Executions, CheckRoutes, Reassess, Invocations;
      var refusal := Guard(route, check);
      if refusal.Some? {
        return Raised(refusal.value);
      }
      providerCalls := providerCalls + 1;
      var number := if cfg.ordered then providerCalls else if check then checks else |history|;
      Numbered(route, check, providerCalls, number);
      if number > MAX_ATTEMPT_NUMBER {
        // The evidence row refuses the number; the exception leaves the loop.
        return Raised(Escaped);
      }
      StartIsGenuine(cfg, env, log, Started(number, route, check));
      Record(Started(number, route, check));
      outcome := Await(number, route, check);
    }

    /** The reply closes the attempt, and memory holds what it teaches at once. */
    ghost predicate Replied(before: seq<Evidence>, calls: nat, caps: map<Route, Capability>,
                            number: nat, route: Route, check: bool, outcome: Outcome)
      reads this
    {
      var reply := env.reply(calls);
      var closing := ClosingOf(reply, cfg.generated);
      && (reply.Answered? || reply.Faulted?)
      && log == before + [Completed(number, route, check, closing)]
      && outcome == (if reply.Answered? then Answer(reply.substituted)
                     else Failure(Reassess(closing.failureClass, cfg.generated)))
      && (closing.Fail? ==> closing.failureClass != TaskDeadlineExceeded)
      && (lastFailureRoute, lastFailure) == Blame(cfg, log)
      && OnTime()
      && capabilities == if cfg.generated && closing == Fail(ModelIdentityMismatch) then caps[route := Quarantined]
                         else caps
    }

    ghost predicate Called(before: seq<Evidence>, calls: nat, caps: map<Route, Capability>,
                           route: Route, check: bool, outcome: Outcome)
      reads this
    {
      var number := NextNumber(cfg, before, check);
      && number <= MAX_ATTEMPT_NUMBER
      && providerCalls == calls + 1
      && Replied(before + [Started(number, route, check)], calls, caps, number, route, check, outcome)
    }

    /** Waits for the provider and closes the attempt. */
    method Await(number: nat, route: Route, check: bool) returns (outcome: Outcome)
      requires Genuine(cfg, env, log) && log != [] && Last(log) == Started(number, route, check)
      requires (lastFailureRoute, lastFailure) == Blame(cfg, log)
      requires providerCalls == |Invocations(log)| > 0
      requires OnTime()
      modifies this`log, this`capabilities, this`lastFailure, this`lastFailureRoute
      ensures Genuine(cfg, env, log)
      ensures !outcome.Raised? ==>
                Replied(old(log), providerCalls - 1, old(capabilities), number, route, check, outcome)
      ensures outcome.Raised? ==>
                Concluded(cfg, env, log, outcome.ending) && !outcome.ending.Succeeded? && !outcome.ending.Rejected?
    {
      hide Genuine, Invocations, ClockReads, Blame, LedgerOf, Classify, Reassess, AtLoopHead;
      var reply := env.reply(providerCalls - 1);
      var completed := Completed(number, route, check, ClosingOf(reply, cfg.generated));
      ClosingIsGenuine(cfg, env, log, completed);
      match reply {
        case Answered(substituted) =>
          Record(completed);
          outcome := Answer(substituted);
        case Faulted(fault) =>
          var assessment := Assess(fault, cfg.generated);
          RecordedClassDeterminesAssessment(fault, cfg.generated);
          if cfg.generated && assessment.failureClass == ModelIdentityMismatch {
            capabilities := capabilities[route := Quarantined];
          }
          Record(completed);
          lastFailure, lastFailureRoute := Some(assessment.failureClass), route;
          outcome := Failure(assessment);
        case TimedOut =>
          lastFailure, lastFailureRoute := Some(TaskDeadlineExceeded), route;
          Record(completed);
          var ending := Stop(RecoveryBudgetExhausted);
          outcome := Raised(ending);
        case Unauthorized =>
          Record(completed);
          StopIsGenuine(cfg, env, log, Terminal(NonRecoverableStop, route, None));
          Record(Terminal(NonRecoverableStop, route, None));
          outcome := Raised(Stopped(NonRecoverableStop));
        case Interrupted =>
          Record(completed);
          outcome := Raised(Escaped);
      }
    }

    // ---- One turn of the loop -----------------------------------------------------------

    /** The last attempt failed, or a check passed without answering: the loop goes round again. A
        failure that cannot be recovered is only ever that of an execution. */
    ghost predicate AtHead(failure: Assessment)
      reads this
    {
      && InStep(failure) && log != [] && Last(log).Completed?
      && (failure.recoverable ==> Continues(cfg, log))
      && (!failure.recoverable ==> Hopeless(cfg, Last(log)) && !Last(log).check
                                   && Last(log).closing.failureClass != TaskDeadlineExceeded)
      && Opens(cfg)
    }

    /** The context was built at this head, with time left. */
    ghost predicate Polled(ctx: Context, failure: Assessment)
      reads this
    {
      && AtHead(failure) && failure.recoverable
      && TimeLeft(cfg, env, ClockReads(log)) > 0.0
      && clockReads == ClockReads(log) + 2
      && ctx == HeadContext(cfg, env, log)
      && health == Memory(failure).health
    }

    /** Looks at the state of the run, consults the supervisor, and has its proposal gated. */
    method Consult(failure: Assessment) returns (ending: Option<Ending>, decision: Decision)
      requires AtHead(failure) && OnTime()
      modifies this`log, this`clockReads, this`health, this`decisions
      ensures Genuine(cfg, env, log)
      ensures ending.Some? ==>
                Concluded(cfg, env, log, ending.value) && !ending.value.Succeeded? && !ending.value.Rejected?
      ensures ending.None? ==>
                && InStep(failure) && OnTime() && Ordered(old(log), old(Memory(failure)), decision)
                && decisions == old(decisions) + 1 <= cfg.budget.maxDecisions
                && health == old(health)[current := Degraded]
    {
      hide Genuine, LedgerOf, Blame, Concluded, ClockReads, Continues, Hopeless, Opens, Invocations, BuiltFrom,
           PolicyAllows, Invokes;
      decision := SurrenderDecision(Context(cfg.scope, failure, current, [], [], 0, 0, 0, 0.0, []));
      var refusal := Check(failure);
      if refusal.Some? {
        return refusal, decision;
      }
      var ctx := Poll(failure);
      ending, decision := Deliberate(failure, ctx, Memory(failure));
    }

    /** Marks the current route and builds the context of the decision. */
    method Poll(failure: Assessment) returns (ctx: Context)
      requires AtHead(failure) && failure.recoverable
      requires clockReads == ClockReads(log) + 1 && TimeLeft(cfg, env, ClockReads(log)) > 0.0
      modifies this`clockReads, this`health
      ensures Polled(ctx, failure)
      ensures Memory(failure) == old(Memory(failure)) && health == old(health)[current := Degraded]
    {
      hide Genuine, LedgerOf, LedgerCandidates, Blame, ClockReads, Continues, Hopeless, Opens, Invocations, Refs;
      health := health[current := Degraded];
      ghost var led := Memory(failure);
      assert led == old(Memory(failure)) == LedgerOf(cfg, log);
      assert cfg.Valid() by { assert InStep(failure); ValidConfig(); }
      ctx := Assemble(failure);
    }

    lemma ValidConfig()
      requires Genuine(cfg, env, log)
      ensures cfg.Valid()
    {
    }

    /** The ordered walk gives up by itself when nothing is left; otherwise the supervisor proposes
        within the decision budget and the gate answers. */
    method Deliberate(failure: Assessment, ctx: Context, ghost led: Ledger)
      returns (ending: Option<Ending>, decision: Decision)
      requires Polled(ctx, failure) && led == Memory(failure)
      modifies this`log, this`decisions
      ensures Genuine(cfg, env, log)
      ensures ending.Some? ==>
                Concluded(cfg, env, log, ending.value) && !ending.value.Succeeded? && !ending.value.Rejected?
      ensures ending.None? ==>
                && InStep(failure) && OnTime() && Ordered(old(log), led, decision)
                && decisions == old(decisions) + 1 <= cfg.budget.maxDecisions
    {
      hide Justified, MayStop, LedgerOf, LedgerCandidates, PolicyAllows, Blame, CapabilitiesAfter, Reassess, Lawful,
           Faithful, ClockReads, Cause, HeadContext, Continues, Hopeless, DecisionHolds, Usable, SurrenderDecision;
      assert decisions == DecisionCount(log) by { LedgerReads(cfg, log); }
      AskedHere(failure, ctx);
      if cfg.ordered && (forall c :: c in ctx.candidates ==> !Usable(c)) {
        decision := SurrenderDecision(ctx);
        var stop := GiveUp(failure, ctx, led);
        return Some(stop), decision;
      }
      decision := SurrenderDecision(ctx);
      if ctx.remainingDecisions <= 0 || ctx.remainingAttempts <= 0 {
        var stop := StopAtHead(RecoveryBudgetExhausted);
        return Some(stop), decision;
      }
      match env.propose(decisions, ctx) {
        case SupervisorTimeout =>
          var stop := StopAtHead(RecoveryBudgetExhausted);
          ending := Some(stop);
        case SupervisorUnauthorized =>
          ending := Some(Escaped);
        case SupervisorError =>
          var stop := StopAtHead(PolicyDenied);
          ending := Some(stop);
        case Proposed(proposed) =>
          decision := proposed;
          ending := Submit(failure, ctx, led, proposed);
      }
    }

    /** With time left and a recoverable failure, the verdict at the head is that of the consultation. */
    lemma AskedHere(failure: Assessment, ctx: Context)
      requires Polled(ctx, failure)
      ensures AtLoopHead(cfg, env, log) == Consulted(cfg, env, ctx, DecisionCount(log))
      ensures Last(log).closing != Fail(TaskDeadlineExceeded) && !Last(log).closing.Refused?
      ensures Consulted(cfg, env, ctx, DecisionCount(log)).Abandon? ==> Abandoned(cfg, env, log)
    {
      hide Lawful, Faithful, LedgerOf, LedgerCandidates, ClockReads, Blame, HeadContext, Usable;
    }

    /** Records the ordered walk's own surrender. */
    method GiveUp(failure: Assessment, ctx: Context, ghost led: Ledger) returns (ending: Ending)
      requires Polled(ctx, failure) && led == Memory(failure) && NothingUsable(cfg, ctx)
      modifies this`log
      ensures Genuine(cfg, env, log) && Concluded(cfg, env, log, ending) && ending.Stopped?
    {
      hide Justified, MayStop, LedgerOf, LedgerCandidates, PolicyAllows, Blame, CapabilitiesAfter, Reassess, Lawful,
           Faithful, ClockReads, Cause, Continues, Hopeless, Usable, Concluded;
      var decision := SurrenderDecision(ctx);
      DecisionIsGenuine(cfg, env, log, led, Decided(decision, ctx, true));
      Record(Decided(decision, ctx, true));
      ending := Finish(decision, true);
    }

    /** Gates and records one proposal. */
    method Submit(failure: Assessment, ctx: Context, ghost led: Ledger, decision: Decision)
      returns (ending: Option<Ending>)
      requires Polled(ctx, failure) && led == Memory(failure)
      requires Consulted(cfg, env, ctx, DecisionCount(log)) == Gate(decision)
      modifies this`log, this`decisions
      ensures Genuine(cfg, env, log)
      ensures ending.Some? ==> Concluded(cfg, env, log, ending.value) && ending.value.Stopped?
      ensures ending.None? ==>
                && InStep(failure) && OnTime() && Ordered(old(log), led, decision)
                && decisions == old(decisions) + 1 <= cfg.budget.maxDecisions
    {
      hide Genuine, LedgerOf, LedgerCandidates, PolicyAllows, Blame, Continues, ClockReads, Cause, Hopeless, Concluded,
           Opens, Consulted, Invocations, Refs;
      var allowed := PolicyAllows(decision, ctx, cfg.budget, modelSwitches, providerSwitches, None);
      GatedIsGenuine(failure, ctx, led, decision, allowed);
      decisions := decisions + 1;
      Record(Decided(decision, ctx, allowed));
      if !allowed || Fails(decision) {
        var stop := Finish(decision, allowed);
        ending := Some(stop);
      } else {
        ending := None;
        assert Memory(failure) == led.(decisions := decisions);
      }
    }

    /** Recording the gated proposal keeps the log genuine. */
    lemma GatedIsGenuine(failure: Assessment, ctx: Context, led: Ledger, decision: Decision, allowed: bool)
      requires Polled(ctx, failure) && led == Memory(failure)
      requires Consulted(cfg, env, ctx, DecisionCount(log)) == Gate(decision)
      requires allowed == PolicyAllows(decision, ctx, cfg.budget, modelSwitches, providerSwitches, None)
      ensures var l := log + [Decided(decision, ctx, allowed)];
              && Genuine(cfg, env, l) && Blame(cfg, l) == Blame(cfg, log) && Invocations(l) == Invocations(log)
              && ClockReads(l) == clockReads && LedgerOf(cfg, l) == led.(decisions := led.decisions + 1)
      ensures cfg.Valid() && led.current in cfg.routes && BuiltFrom(cfg, led, ctx)
              && decisions < cfg.budget.maxDecisions
    {
      hide Lawful, Faithful, LedgerOf, LedgerCandidates, PolicyAllows, Blame, ClockReads, Hopeless, Invocations, Usable,
           Opens;
      DecisionIsGenuine(cfg, env, log, led, Decided(decision, ctx, allowed));
    }

    /** The last record is an allowed decision for an invocation, gated in the state `led`. */
    ghost predicate Ordered(before: seq<Evidence>, led: Ledger, decision: Decision)
      reads this
    {
      && cfg.Valid() && led.current in cfg.routes
      && |log| == |before| + 1 && log[..|before|] == before
      && Last(log).Decided? && Last(log).allowed && Last(log).decision == decision
      && BuiltFrom(cfg, led, Last(log).context)
      && PolicyAllows(decision, Last(log).context, cfg.budget, led.modelSwitches, led.providerSwitches, None)
      && !Fails(decision)
    }

    /** Out of time, or a failure that recovery does not answer. */
    method Check(failure: Assessment) returns (refusal: Option<Ending>)
      requires AtHead(failure) && OnTime()
      modifies this`log, this`clockReads
      ensures Genuine(cfg, env, log)
      ensures refusal.None? ==> && log == old(log) && failure.recoverable && clockReads == ClockReads(log) + 1
                                && TimeLeft(cfg, env, ClockReads(log)) > 0.0
      ensures refusal.Some? ==> Concluded(cfg, env, log, refusal.value) && refusal.value.Stopped?
    {
      hide Lawful, Faithful, LedgerOf, Blame, ClockReads, Consulted, HeadContext;
      refusal := None;
      var seconds := Remaining();
      if seconds <= 0.0 {
        var stop := StopAtHead(RecoveryBudgetExhausted);
        return Some(stop);
      }
      if !failure.recoverable {
        var stop := StopAtHead(NonRecoverableStop);
        return Some(stop);
      }
    }

    method StopAtHead(reason: StopReason) returns (ending: Ending)
      requires Genuine(cfg, env, log) && log != [] && Last(log).Completed?
      requires StopsAtHead(cfg, env, log, reason)
      requires !Last(log).closing.Refused? && Last(log).closing != Fail(TaskDeadlineExceeded)
      requires (lastFailureRoute, lastFailure) == Blame(cfg, log)
      modifies this`log
      ensures Genuine(cfg, env, log) && Concluded(cfg, env, log, ending) && ending == Stopped(reason)
    {
      hide Genuine, Blame, StopsAtHead;
      ending := Stop(reason);
    }

    /** The context of the decision, with the candidates that the detector finds. */
    method Assemble(failure: Assessment) returns (ctx: Context)
      requires cfg.Valid() && current in cfg.routes
      modifies this`clockReads
      ensures clockReads == old(clockReads) + 1
      ensures var led := Ledger(history, checkedRoutes, checks, decisions, modelSwitches, providerSwitches, current,
                                capabilities, health, failure);
              ctx == ContextOf(cfg, led, TimeLeft(cfg, env, old(clockReads)), Refs(log))
    {
      var used := if cfg.ordered then history + checkedRoutes else history;
      var candidates := DetectCandidates(cfg.routes, cfg.registry, capabilities, used, health, cfg.budget);
      candidates := Withdraw(candidates, current, cfg.registry[current].provider, modelSwitches, providerSwitches,
                             cfg.budget);
      var seconds := Remaining();
      ctx := Context(cfg.scope, failure, current, candidates, history,
                     cfg.budget.maxAttempts - |history|, cfg.budget.maxChecks - checks,
                     cfg.budget.maxDecisions - decisions, seconds, Refs(log));
    }

    /** Stops on a refused decision or on one that gives up. */
    method Finish(decision: Decision, allowed: bool) returns (ending: Ending)
      requires Genuine(cfg, env, log) && log != []
      requires Last(log).Decided? && Last(log).decision == decision && Last(log).allowed == allowed
      requires !allowed || Fails(decision)
      requires (lastFailureRoute, lastFailure) == Blame(cfg, log)
      modifies this`log
      ensures Genuine(cfg, env, log) && Concluded(cfg, env, log, ending) && ending.Stopped?
    {
      hide Genuine, Blame, LedgerOf;
      if !allowed {
        ending := Stop(PolicyDenied);
      } else {
        ending := Stop(if decision.reason == BudgetExhausted then RecoveryBudgetExhausted else PolicyDenied);
      }
    }

    // ---- Carrying out an allowed decision -----------------------------------------------

    /** What the gate guarantees about the decision that is being carried out. */
    lemma GateHolds(before: seq<Evidence>, led: Ledger, decision: Decision)
      requires Ordered(before, led, decision)
      requires forall r :: r in cfg.routes ==> r in led.capabilities
      ensures Invokes(decision.action) && decision.target.Some?
      ensures var target, check := decision.target.value, decision.action == CapabilityCheck;
              var same := Provider(cfg, target) == Provider(cfg, led.current);
              && MayStart(cfg, log, target, check)
              && Affordable(cfg, led, target, check)
              && led.failure.recoverable
              && (decision.action == RetrySameRoute ==> target == led.current)
              && (decision.action == SwitchModel ==> target != led.current && same)
              && (decision.action == SwitchProvider ==> !same)
    {
      hide PolicyAllows, LedgerCandidates;
      var ctx := Last(log).context;
      AllowedIsUsable(cfg, led, ctx, decision);
      ActionMatchesChange(cfg, led, ctx, decision);
      GateMeansAffordable(cfg, led, ctx, decision);
    }

    /** Two more records than `before`: one closed attempt. */
    ghost predicate Attempted(before: seq<Evidence>, route: Route, check: bool, closing: Closing)
      reads this
    {
      && |log| == |before| + 2
      && log == before + [log[|before|]] + [Last(log)]
      && log[|before|].Started? && log[|before|].route == route && log[|before|].check == check
      && Last(log).Completed? && Last(log).route == route && Last(log).check == check && Last(log).closing == closing
    }

    /** A failed attempt whose effects are in memory brings the loop back to its head. */
    lemma BackAtHead(before: seq<Evidence>, route: Route, check: bool, closing: Closing, next: Assessment)
      requires Genuine(cfg, env, log) && Opens(cfg) && current in cfg.routes
      requires Attempted(before, route, check, closing)
      requires Path(cfg, before) == [] ==> route == cfg.initial && OnPath(cfg, check)
      requires closing == Pass(false) ==> check && !cfg.ordered && next.recoverable
      requires closing.Pass? || (closing.Fail? && closing.failureClass != TaskDeadlineExceeded)
      requires closing.Fail? ==> next.recoverable == Reassess(closing.failureClass, cfg.generated).recoverable
      requires closing.Pass? ==> !closing.substituted
      requires !next.recoverable ==> !check
      requires Memory(next) == Advance(cfg, LedgerOf(cfg, before), route, check, closing)
      requires providerCalls == |Invocations(before)| + 1
      requires (lastFailureRoute, lastFailure) == Blame(cfg, log)
      ensures AtHead(next)
    {
      hide Lawful, Faithful, Advance, Blame, Reassess, LedgerOf;
      AttemptAdvancesLedger(cfg, before, log[|before|], Last(log));
      CountCalls(before, log[|before|], Last(log));
    }

    /** Memory has entered the attempt that the decision ordered. */
    ghost predicate Embarked(failure: Assessment, route: Route, check: bool)
      reads this
    {
      && Poised(route, check) && Opens(cfg)
      && (Path(cfg, log) == [] ==> route == cfg.initial && OnPath(cfg, check))
      && route in cfg.routes && route in capabilities && cfg.registry[route].authority && current in cfg.routes
      && Memory(failure) == Embark(cfg, LedgerOf(cfg, log), route, check)
    }

    /** Everything the gate established about a decision, with memory still at the decision. */
    ghost predicate Admitted(failure: Assessment, action: Action, target: Route)
      reads this
    {
      var same := Provider(cfg, target) == Provider(cfg, current);
      && InStep(failure) && OnTime() && Opens(cfg) && log != [] && Path(cfg, log) != [] && Invokes(action)
      && target in cfg.routes && target in capabilities && cfg.registry[target].authority
      && MayStart(cfg, log, target, action == CapabilityCheck)
      && (action == CapabilityCheck ==> capabilities[target] in {Unknown, Candidacy} && failure.recoverable)
      && (action == RetrySameRoute ==> target == current)
      && (action == SwitchModel ==> target != current && same)
      && (action == SwitchProvider ==> !same)
    }

    /** Enters a retry or a switch in the counters and the history. */
    method EnterExecution(failure: Assessment, action: Action, target: Route)
      requires Admitted(failure, action, target) && action != CapabilityCheck && health == health[current := Degraded]
      modifies this`modelSwitches, this`providerSwitches, this`current, this`history
      ensures Embarked(failure, current, false) && current == target
    {
      hide LedgerOf, Blame, CapabilitiesAfter, Lawful, Faithful, MayStart, Opens, ClockReads, Path, Invocations;
      if action == SwitchModel {
        modelSwitches := modelSwitches + 1;
      }
      if action == SwitchProvider {
        providerSwitches := providerSwitches + 1;
      }
      current := target;
      history := history + [current];
    }

    /** Enters a capability check. In an ordered walk the check is a real request on the walk: it moves
        the current route and spends the switch budget. */
    method EnterCheck(failure: Assessment, target: Route)
      requires Admitted(failure, CapabilityCheck, target) && health == health[current := Degraded]
      modifies this`checks, this`modelSwitches, this`providerSwitches, this`current, this`checkedRoutes
      ensures Embarked(failure, target, true)
    {
      hide LedgerOf, Blame, CapabilitiesAfter, Lawful, Faithful, MayStart, Opens, ClockReads, Path, Invocations;
      checks := checks + 1;
      if cfg.ordered {
        if cfg.registry[target].provider == cfg.registry[current].provider {
          modelSwitches := modelSwitches + if target != current then 1 else 0;
        } else {
          providerSwitches := providerSwitches + 1;
        }
        current := target;
        checkedRoutes := checkedRoutes + [target];
      }
    }

    /** Calls the current route. */
    method Run(failure: Assessment) returns (ending: Option<Ending>, next: Assessment)
      requires Embarked(failure, current, false)
      modifies this`log, this`providerCalls, this`capabilities, this`lastFailure, this`lastFailureRoute, this`clockReads
      ensures Genuine(cfg, env, log)
      ensures ending.Some? ==>
                Concluded(cfg, env, log, ending.value) && !ending.value.Rejected? && HistoryTells(ending.value)
      ensures ending.None? ==> AtHead(next) && OnTime()
    {
      hide LedgerOf, Blame, CapabilitiesAfter, Reassess, NextNumber, Genuine, MayStart, ClockReads, Continues, Hopeless,
           Invocations, Opens, Executions, CheckRoutes;
      LedgerReads(cfg, log);
      ghost var before := log;
      next := failure;
      var outcome := Invoke(current, false);
      match outcome {
        case Raised(end) => ending := Some(end);
        case Answer(substituted) =>
          ending := Some(Succeeded(current, substituted));
          CountExecutions(before, log[|before|], Last(log));
        case Failure(assessment) =>
          ending, next := None, assessment;
          ghost var closing := Last(log).closing;
          assert Memory(next) == Advance(cfg, LedgerOf(cfg, before), current, false, closing);
          BackAtHead(before, current, false, closing, next);
      }
    }

    /** Checks a route. A passed check that already did the task's work is consumed as the answer;
        otherwise the result is remembered as knowledge about the route. */
    method RunCheck(failure: Assessment, target: Route) returns (ending: Option<Ending>, next: Assessment)
      requires Embarked(failure, target, true) && capabilities[target] in {Unknown, Candidacy} && failure.recoverable
      modifies this`log, this`providerCalls, this`capabilities, this`lastFailure, this`lastFailureRoute,
               this`clockReads, this`history
      ensures Genuine(cfg, env, log)
      ensures ending.Some? ==>
                Concluded(cfg, env, log, ending.value) && !ending.value.Rejected? && HistoryTells(ending.value)
      ensures ending.None? ==> AtHead(next) && OnTime()
    {
      hide LedgerOf, Blame, CapabilitiesAfter, NextNumber, Genuine, MayStart, ClockReads, Continues, Hopeless,
           Invocations, Opens, Executions, CheckRoutes, Path, Reassess, Classify;
      LedgerReads(cfg, log);
      ghost var before := log;
      next := failure;
      var outcome := Invoke(target, true);
      match outcome {
        case Raised(end) => ending := Some(end);
        case Answer(substituted) =>
          ending := UsePassedCheck(next, target, substituted, before);
        case Failure(assessment) =>
          ending, next := LearnFromFailedCheck(failure, assessment, target, before);
      }
    }

    /** Consumes a passed check as the answer, or remembers its route as verified. */
    method UsePassedCheck(failure: Assessment, target: Route, substituted: bool, ghost before: seq<Evidence>)
      returns (ending: Option<Ending>)
      requires Genuine(cfg, env, log) && Opens(cfg) && current in cfg.routes && target in capabilities
      requires Path(cfg, before) == [] ==> target == cfg.initial && OnPath(cfg, true)
      requires Attempted(before, target, true, Pass(substituted))
      requires Memory(failure) == Embark(cfg, LedgerOf(cfg, before), target, true) && failure.recoverable
      requires history == Executions(before) && providerCalls == |Invocations(before)| + 1
      requires (lastFailureRoute, lastFailure) == Blame(cfg, log)
      requires OnTime()
      modifies this`history, this`capabilities
      ensures ending.Some? ==>
                Concluded(cfg, env, log, ending.value) && !ending.value.Rejected? && HistoryTells(ending.value)
      ensures ending.None? ==> AtHead(failure) && OnTime()
    {
      hide LedgerOf, Blame, Lawful, Faithful, Path, ClockReads, Executions, Invocations;
      if cfg.ordered || substituted {
        CountExecutions(before, log[|before|], Last(log));
        if !cfg.ordered {
          history := history + [target];
        }
        return Some(Succeeded(target, substituted));
      }
      ending := None;
      capabilities := capabilities[target := Verified];
      assert Memory(failure) == Advance(cfg, LedgerOf(cfg, before), target, true, Last(log).closing);
      BackAtHead(before, target, true, Last(log).closing, failure);
    }

    /** A transport failure leaves the route as unknown as it was; any other failure quarantines it. */
    method LearnFromFailedCheck(failure: Assessment, assessment: Assessment, target: Route, ghost before: seq<Evidence>)
      returns (ending: Option<Ending>, next: Assessment)
      requires Genuine(cfg, env, log) && Opens(cfg) && current in cfg.routes && target in capabilities
      requires Path(cfg, before) == [] ==> target == cfg.initial && OnPath(cfg, true)
      requires |log| == |before| + 2 && Last(log).Completed? && Last(log).closing.Fail?
      requires Attempted(before, target, true, Last(log).closing)
               && Last(log).closing.failureClass != TaskDeadlineExceeded
      requires assessment == Reassess(Last(log).closing.failureClass, cfg.generated)
      requires target in LedgerOf(cfg, before).capabilities
      requires Memory(failure).(capabilities := map[])
               == Embark(cfg, LedgerOf(cfg, before), target, true).(capabilities := map[])
      requires capabilities[target := Unknown] == LedgerOf(cfg, before).capabilities[target := Unknown]
      requires failure.recoverable
      requires providerCalls == |Invocations(before)| + 1
      requires (lastFailureRoute, lastFailure) == Blame(cfg, log)
      requires OnTime()
      modifies this`log, this`capabilities
      ensures Genuine(cfg, env, log)
      ensures ending.Some? ==> Concluded(cfg, env, log, ending.value) && ending.value.Stopped?
      ensures ending.None? ==> AtHead(next) && OnTime()
    {
      hide LedgerOf, Blame, CapabilitiesAfter, Lawful, Faithful, Path, ClockReads;
      next := failure;
      var learned := if assessment.stage == ProviderStage then Unknown else Quarantined;
      assert capabilities[target := learned] == capabilities[target := Unknown][target := learned];
      capabilities := capabilities[target := learned];
      if !assessment.recoverable {
        HopelessCheckStops(before, target, Last(log).closing, failure);
        var stop := StopAtHead(NonRecoverableStop);
        return Some(stop), next;
      }
      if cfg.ordered {
        next := assessment;
      }
      ending := None;
      assert Memory(next) == Advance(cfg, LedgerOf(cfg, before), target, true, Last(log).closing);
      BackAtHead(before, target, true, Last(log).closing, next);
    }

    lemma HopelessCheckStops(before: seq<Evidence>, route: Route, closing: Closing, failure: Assessment)
      requires Genuine(cfg, env, log) && Attempted(before, route, true, closing) && Hopeless(cfg, Last(log))
      requires Path(cfg, before) == [] ==> route == cfg.initial && OnPath(cfg, true)
      requires current == Embark(cfg, LedgerOf(cfg, before), route, true).current && current in cfg.routes
      ensures StopsAtHead(cfg, env, log, NonRecoverableStop)
    {
      hide Lawful, Faithful, LedgerOf, Consulted, HeadContext, ClockReads, Reassess;
      AttemptAdvancesLedger(cfg, before, log[|before|], Last(log));
    }

    /** A successful run's history: the executions of the log, and a consumed check of the normal mode. */
    ghost predicate HistoryTells(ending: Ending)
      reads this
    {
      ending.Succeeded? ==>
        && log != [] && Last(log).Completed?
        && history == Executions(log) + if Last(log).check && !cfg.ordered then [ending.route] else []
    }

    static lemma CountExecutions(before: seq<Evidence>, started: Evidence, completed: Evidence)
      requires started.Started? && completed.Completed?
      ensures Executions(before + [started] + [completed])
              == Executions(before) + if started.check then [] else [started.route]
    {
      assert (before + [started])[..|before|] == before;
      assert (before + [started] + [completed])[..|before| + 1] == before + [started];
    }

    static lemma CountCalls(before: seq<Evidence>, started: Evidence, completed: Evidence)
      requires started.Started? && completed.Completed?
      ensures Invocations(before + [started] + [completed]) == Invocations(before) + [started.route]
    {
      assert (before + [started])[..|before|] == before;
      assert (before + [started] + [completed])[..|before| + 1] == before + [started];
    }

    // ---- The run ------------------------------------------------------------------------

    /** One turn: consult, gate, carry out. */
    method Recover(failure: Assessment) returns (ending: Option<Ending>, next: Assessment)
      requires AtHead(failure) && OnTime()
      modifies this
      ensures Genuine(cfg, env, log)
      ensures ending.Some? ==>
                Concluded(cfg, env, log, ending.value) && !ending.value.Rejected? && HistoryTells(ending.value)
      ensures ending.None? ==> AtHead(next) && OnTime() && decisions == old(decisions) + 1 <= cfg.budget.maxDecisions
    {
      hide LedgerOf, LedgerCandidates, PolicyAllows, Blame, BuiltFrom, Continues, Lawful, Faithful, MayStart, Concluded,
           ClockReads, Hopeless;
      next := failure;
      ghost var before, led := log, Memory(failure);
      var decision;
      ending, decision := Consult(failure);
      if ending.Some? {
        return;
      }
      Admits(failure, before, led, decision);
      var target := decision.target.value;
      if decision.action == CapabilityCheck {
        EnterCheck(failure, target);
        ending, next := RunCheck(failure, target);
      } else {
        EnterExecution(failure, decision.action, target);
        ending, next := Run(failure);
      }
    }

    lemma Admits(failure: Assessment, before: seq<Evidence>, led: Ledger, decision: Decision)
      requires InStep(failure) && OnTime() && Opens(cfg) && Ordered(before, led, decision)
      requires led.(decisions := decisions) == Memory(failure)
      ensures decision.target.Some? && Admitted(failure, decision.action, decision.target.value)
    {
      hide Lawful, Faithful, LedgerOf, PolicyAllows, BuiltFrom, Blame, ClockReads, Opens;
      KnowsEveryRoute(cfg, log);
      LedgerReads(cfg, log);
      GateHolds(before, led, decision);
      OrderedRouteIsAffordable(cfg, log, decision.target.value, decision.action == CapabilityCheck);
    }

    /** The first attempt and the recovery loop after it. */
    method Execute() returns (ending: Ending)
      requires Fresh()
      modifies this
      ensures Genuine(cfg, env, log) && Concluded(cfg, env, log, ending) && !ending.Rejected? && HistoryTells(ending)
      ensures env.redelivered ==> log == [Terminal(InterruptedExecution, cfg.initial, None)]
      ensures !env.redelivered && !Opens(cfg) ==> log == [Terminal(PolicyDenied, cfg.initial, None)]
    {
      hide Lawful, Faithful, LedgerOf, PolicyAllows, BuiltFrom, Blame, ClockReads, Consulted;
      EmptyLog(cfg, env);
      if env.redelivered {
        ending := Stop(InterruptedExecution);
        return;
      }
      if !cfg.registry[current].authority {
        ending := Stop(PolicyDenied);
        return;
      }
      if cfg.budget.maxCost.Some? {
        ending := Stop(PolicyDenied);
        return;
      }
      if capabilities[current] in {Quarantined, Unsupported} {
        ending := Stop(PolicyDenied);
        return;
      }
      ending := Loop();
    }

    method Loop() returns (ending: Ending)
      requires Fresh() && Opens(cfg) && !env.redelivered
      modifies this
      ensures Genuine(cfg, env, log) && Concluded(cfg, env, log, ending) && !ending.Rejected? && HistoryTells(ending)
    {
      hide Lawful, Faithful, LedgerOf, PolicyAllows, BuiltFrom, Blame, Concluded, Continues, ClockReads, Hopeless;
      EmptyLog(cfg, env);
      history := history + [current];
      var end, failure := Run(Assessment(UnknownFailure, RuntimeStage, false));
      while end.None?
        invariant Genuine(cfg, env, log)
        invariant end.Some? ==> Concluded(cfg, env, log, end.value) && !end.value.Rejected? && HistoryTells(end.value)
        invariant end.None? ==> AtHead(failure) && OnTime() && decisions <= cfg.budget.maxDecisions
        decreases if end.None? then cfg.budget.maxDecisions - decisions + 1 else 0
      {
        end, failure := Recover(failure);
      }
      ending := end.value;
    }

    /** Before the first record memory and log agree. */
    static lemma EmptyLog(cfg: Config, env: Environment)
      requires cfg.Valid()
      ensures Genuine(cfg, env, []) && ClockReads([]) == 0 && Executions([]) == []
              && Blame(cfg, []) == (cfg.initial, None) && Invocations([]) == [] && Path(cfg, []) == []
      ensures LedgerOf(cfg, []) == Ledger([], [], 0, 0, 0, 0, cfg.initial, cfg.capabilities, cfg.health,
                                          Assessment(UnknownFailure, RuntimeStage, false))
    {
    }
  }
}

/** Entry to recovery: what a delivery is resolved to, and what every delivered run guarantees. */
module RecoveryEntry {
  import opened Wrappers
  import opened RecoveryDomain
  import opened RecoveryPolicy
  import opened RecoveryAnswers
  import opened RecoveryLimits
  import opened RecoveryLog
  import opened RecoveryTheorems
  import opened RecoverySession

  /** One call of the governed execution. `known` and `health` are what earlier evidence says. */
  datatype Delivery = Delivery(
    scope: Scope,
    contextIntact: bool,
    allowed: seq<Route>,
    registry: map<Route, RouteInfo>,
    provider: string,
    model: string,
    budget: Option<Budget>,
    known: map<Route, Capability>,
    health: map<Route, Health>)

  const DEFAULT_BUDGET := Budget(3, 1, 1, 1, 1, 5, 300.0, None)
  const ORDERED_WALK_BUDGET := Budget(4, 1, 2, 1, 3, 5, 300.0, None)

  predicate IsOrderedWalk(profile: string) {
    profile in {"risk_follow_up", "report_synthesis"}
  }

  predicate IsGenerated(operationId: string) {
    "generated-capability:" <= operationId
  }

  function EffectiveBudget(d: Delivery): Budget {
    if d.budget.Some? then d.budget.value
    else if IsOrderedWalk(d.scope.taskProfile) then ORDERED_WALK_BUDGET
    else DEFAULT_BUDGET
  }

  /** Where an item stands first. */
  function Position(xs: seq<Route>, r: Route): (p: nat)
    requires r in xs
    ensures p < |xs| && xs[p] == r && forall j :: 0 <= j < p ==> xs[j] != r
  {
    assert xs == xs[..|xs| - 1] + [Last(xs)];
    if r in xs[..|xs| - 1] then Position(xs[..|xs| - 1], r) else |xs| - 1
  }

  /** The profile's routes that are registered, in the profile's order. */
  function Governed(allowed: seq<Route>, registry: map<Route, RouteInfo>): (rs: seq<Route>)
    ensures forall r :: r in rs <==> r in allowed && r in registry
    ensures forall i, j :: 0 <= i < j < |rs| ==> Position(allowed, rs[i]) < Position(allowed, rs[j])
    ensures |rs| <= |allowed|
  {
    if allowed == [] then []
    else
      var rest, r := Governed(allowed[..|allowed| - 1], registry), Last(allowed);
      assert allowed == allowed[..|allowed| - 1] + [r];
      if r in registry && r !in rest then rest + [r] else rest
  }

  predicate Serves(d: Delivery, r: Route) {
    r in d.allowed && r in d.registry && d.registry[r].provider == d.provider && d.registry[r].model == d.model
  }

  /** The first of the profile's routes that the initial provider and model serve. */
  ghost predicate ServesFirst(d: Delivery, r: Route) {
    Serves(d, r) && forall k :: Serves(d, k) ==> Position(d.allowed, r) <= Position(d.allowed, k)
  }

  function Serving(d: Delivery, rs: seq<Route>): (r: Option<Route>)
    requires forall r :: r in rs ==> r in d.registry && r in d.allowed
    requires forall i, j :: 0 <= i < j < |rs| ==> Position(d.allowed, rs[i]) < Position(d.allowed, rs[j])
    ensures r.Some? ==> r.value in rs && Serves(d, r.value)
    ensures forall k :: k in rs && Serves(d, k) ==> r.Some? && Position(d.allowed, r.value) <= Position(d.allowed, k)
  {
    if rs == [] then None
    else if Serves(d, rs[0]) then Some(rs[0])
    else Serving(d, rs[1..])
  }

  lemma PositionsDiffer(xs: seq<Route>, r: Route, k: Route)
    requires r in xs && k in xs && Position(xs, r) == Position(xs, k)
    ensures r == k
  {
  }

  /** The initial route: the only one that serves first. */
  function Initial(d: Delivery): (r: Option<Route>)
    ensures r.Some? ==> ServesFirst(d, r.value)
    ensures r.None? <==> forall k :: !Serves(d, k)
    ensures forall k :: ServesFirst(d, k) ==> r == Some(k)
  {
    var r := Serving(d, Governed(d.allowed, d.registry));
    assert forall k :: ServesFirst(d, k) ==> r == Some(k) by {
      forall k | ServesFirst(d, k) ensures r == Some(k) {
        PositionsDiffer(d.allowed, r.value, k);
      }
    }
    r
  }

  ghost predicate InProfileOrder(d: Delivery, rs: seq<Route>) {
    && (forall r :: r in rs <==> r in d.allowed && r in d.registry)
    && (forall i, j :: 0 <= i < j < |rs| ==> Position(d.allowed, rs[i]) < Position(d.allowed, rs[j]))
  }

  /** What is known of exactly these routes, unknown where nothing is. */
  ghost predicate KnowsOf(d: Delivery, rs: seq<Route>, capabilities: map<Route, Capability>) {
    && (forall r :: r in capabilities <==> r in rs)
    && (forall r :: r in rs ==> capabilities[r] == if r in d.known then d.known[r] else Unknown)
  }

  /** Refused before any record: the context was altered, no route is served, or the route that is served
      has no authority. */
  ghost predicate RefusedAtEntry(d: Delivery) {
    || !d.contextIntact
    || (forall r :: !Serves(d, r))
    || (!IsGenerated(d.scope.operationId) && exists r :: ServesFirst(d, r) && !d.registry[r].authority)
  }

  /** The initial route of a delivery that is not refused. */
  function Admitted(d: Delivery): (r: Option<Route>)
    ensures r.None? <==> RefusedAtEntry(d)
    ensures r.Some? ==> ServesFirst(d, r.value) && (IsGenerated(d.scope.operationId) || d.registry[r.value].authority)
  {
    var initial := Initial(d);
    if !d.contextIntact || initial.None? then None
    else if !IsGenerated(d.scope.operationId) && !d.registry[initial.value].authority then None
    else initial
  }

  /** The configuration a delivery runs under: the profile's registered routes in the profile's order, the
      first of them that the initial provider serves, and for every route what is known of it. */
  function Prepare(d: Delivery): (c: Option<Config>)
    ensures c.Some? ==> c.value.Valid() && InProfileOrder(d, c.value.routes) && ServesFirst(d, c.value.initial)
    ensures c.Some? ==> IsGenerated(d.scope.operationId) || d.registry[c.value.initial].authority
    ensures c.Some? ==> KnowsOf(d, c.value.routes, c.value.capabilities)
    ensures c.Some? ==> && c.value.scope == d.scope && c.value.budget == EffectiveBudget(d)
                        && c.value.registry == d.registry && c.value.health == d.health
                        && c.value.generated == IsGenerated(d.scope.operationId)
                        && c.value.ordered == IsOrderedWalk(d.scope.taskProfile)
    ensures c.None? <==> RefusedAtEntry(d)
  {
    var routes := Governed(d.allowed, d.registry);
    var initial := Admitted(d);
    if initial.None? then None
    else
      Some(Config(d.scope, IsGenerated(d.scope.operationId), IsOrderedWalk(d.scope.taskProfile), EffectiveBudget(d),
                  routes, d.registry, initial.value,
                  map r | r in routes :: if r in d.known then d.known[r] else Unknown, d.health))
  }

  /** The initial route in plain terms: it is registered with the initial provider and model, and no route
      of the profile that is stands before it. */
  lemma InitialRouteServes(d: Delivery)
    requires Prepare(d).Some?
    ensures var initial := Prepare(d).value.initial;
            && initial in d.allowed && initial in d.registry
            && d.registry[initial].provider == d.provider && d.registry[initial].model == d.model
            && forall r ::
                 (r in d.allowed && r in d.registry && d.registry[r].provider == d.provider
                  && d.registry[r].model == d.model)
                 ==> Position(d.allowed, initial) <= Position(d.allowed, r)
  {
  }

  lemma GeneratedMeans(operationId: string)
    ensures IsGenerated(operationId) <==> exists name :: operationId == "generated-capability:" + name
  {
    if IsGenerated(operationId) {
      assert operationId == "generated-capability:" + operationId[|"generated-capability:"|..];
    }
  }

  /** The budget in use: an explicit one; otherwise three attempts, or for the two profiles that walk their
      routes in order four, with two model fallbacks and three checks. */
  lemma BudgetInUse(d: Delivery)
    ensures var b := EffectiveBudget(d);
            if d.budget.Some? then b == d.budget.value
            else
              && b.maxSameRoute == 1 && b.maxProviderSwitches == 1 && b.maxDecisions == 5
              && b.maxTime == 300.0 && b.maxCost == None && WithinFieldBounds(b)
              && (b.maxAttempts, b.maxModelFallbacks, b.maxChecks) ==
                 if d.scope.taskProfile == "risk_follow_up" || d.scope.taskProfile == "report_synthesis"
                 then (4, 2, 3) else (3, 1, 1)
  {
  }

  /** The governed execution. For whatever the providers, the clock and the supervisor answer, its log
      is the genuine account of those answers, carried through to the end of the run. */
  method ExecuteScope(d: Delivery, env: Environment) returns (ending: Ending, log: seq<Evidence>)
    ensures Prepare(d).None? ==> ending == Rejected && log == []
    ensures Prepare(d).Some? ==> !ending.Rejected? && Genuine(Prepare(d).value, env, log)
                                 && Concluded(Prepare(d).value, env, log, ending)
    ensures Prepare(d).Some? && env.redelivered ==>
              ending == Stopped(InterruptedExecution) && Invocations(log) == []
  {
    hide Lawful, Faithful, Concluded;
    var prepared := Prepare(d);
    if prepared.None? {
      return Rejected, [];
    }
    var session := new Session(prepared.value, env);
    ending := session.Execute();
    log := session.log;
    if env.redelivered {
      InterruptedMeansRedelivered(prepared.value, env, log, ending);
    }
  }

  lemma InterruptedMeansRedelivered(cfg: Config, env: Environment, log: seq<Evidence>, ending: Ending)
    requires cfg.Valid() && |log| == 1 && log[0].Terminal? && log[0].reason == InterruptedExecution
    requires Concluded(cfg, env, log, ending) && !ending.Rejected?
    ensures ending == Stopped(InterruptedExecution) && Invocations(log) == []
  {
  }

  /** A terminal record is present exactly when the run stopped; a run that escaped was cancelled,
      was refused authorization while the supervisor was asked, or numbered an attempt too high. */
  lemma TerminalExactlyWhenStopped(cfg: Config, env: Environment, log: seq<Evidence>, ending: Ending)
    requires Genuine(cfg, env, log) && Concluded(cfg, env, log, ending) && !ending.Rejected?
    ensures log != [] && (Last(log).Terminal? <==> ending.Stopped?)
    ensures ending.Escaped? ==>
              Last(log).Decided? || (Last(log).Completed? && (Last(log).closing.Cancelled? || Continues(cfg, log)))
  {
    hide Lawful, Faithful, LedgerOf, AtLoopHead;
  }

  /** On every context that a run can build, the default supervisor's proposal passes the gate, and it
      gives up exactly when the gate would let no invocation through. */
  lemma DefaultAgreesOnEveryReachableContext(cfg: Config, log: seq<Evidence>, ctx: Context)
    requires cfg.Valid() && Lawful(cfg, log) && Continues(cfg, log)
    requires BuiltFrom(cfg, LedgerOf(cfg, log), ctx)
    ensures var led := LedgerOf(cfg, log);
            && Find(ctx.candidates, Some(ctx.current)).Some?
            && PolicyAllows(Decide(ctx, cfg.ordered), ctx, cfg.budget, led.modelSwitches, led.providerSwitches, None)
            && (Fails(Decide(ctx, cfg.ordered)) <==>
                forall d: Decision ::
                  PolicyAllows(d, ctx, cfg.budget, led.modelSwitches, led.providerSwitches, None) ==> Fails(d))
  {
    hide Justified, PolicyAllows, BuiltFrom, LedgerOf;
    var led := LedgerOf(cfg, log);
    StartsWithExecution(cfg, log);
    DefaultProposalIsAllowed(cfg, led, ctx);
    DefaultGivesUpExactlyWhenGateIsClosed(cfg, led, ctx);
  }

  /** A run that continues always has a context to decide on, and at every reading of the clock it fits
      the field bounds of the context record. */
  lemma ContextFitsItsRecord(cfg: Config, env: Environment, log: seq<Evidence>, reading: nat)
    requires cfg.Valid() && Lawful(cfg, log) && Continues(cfg, log)
    requires WithinFieldBounds(cfg.budget) && |cfg.routes| <= 4
    ensures LedgerOf(cfg, log).current in cfg.routes
    ensures var ctx := ContextOf(cfg, LedgerOf(cfg, log), TimeLeft(cfg, env, reading), Refs(log));
            && |ctx.candidates| <= 4 && 1 <= |ctx.history| <= 4
            && 0 <= ctx.remainingAttempts <= 4 && 0 <= ctx.remainingChecks <= 3 && 0 <= ctx.remainingDecisions <= 5
            && 0.0 <= ctx.remainingSeconds <= 300.0
            && |ctx.refs| <= 12 && forall r :: r in ctx.refs ==> r < |log|
  {
    hide Justified, LedgerCandidates;
    BudgetsHold(cfg, log);
    StartsWithExecution(cfg, log);
    LedgerReads(cfg, log);
    ContinuingDecisions(cfg, log);
    InvokedRoutesAreGoverned(cfg, log);
  }

  /** While the loop runs, no decision was the ordered walk's own surrender. */
  lemma {:induction false} ContinuingDecisions(cfg: Config, log: seq<Evidence>)
    requires cfg.Valid() && Lawful(cfg, log)
    ensures DecisionCount(log) <= cfg.budget.maxDecisions
                                  + if log != [] && Last(log).Decided? && Fails(Last(log).decision) then 1
                                    else if log != [] && Last(log).Terminal? then 1 else 0
  {
    hide Justified;
    if log != [] {
      var prefix, e := Unappend(cfg, log);
      ContinuingDecisions(cfg, prefix);
    }
  }

  // ---- The default supervisor's runs ----------------------------------------------------

  /** Nothing outside interferes: the first delivery, inputs and time left intact, the default
      supervisor. The providers may still answer anything. */
  ghost predicate Undisturbed(cfg: Config, env: Environment) {
    && !env.redelivered
    && (forall n: nat :: env.intact(n))
    && (forall n: nat :: env.elapsed(n) < cfg.budget.maxTime)
    && (forall n: nat, ctx: Context :: Find(ctx.candidates, Some(ctx.current)).Some? ==>
          env.propose(n, ctx) == Proposed(Decide(ctx, cfg.ordered)))
  }

  /** The log up to the attempt after which the run stopped. */
  function LastHead(log: Log): Log
    requires log != []
  {
    if |log| >= 2 && log[|log| - 2].Decided? then log[..|log| - 2] else log[..|log| - 1]
  }

  /** No proposal of any supervisor would have led to another invocation. */
  ghost predicate OutOfOptions(cfg: Config, env: Environment, head: Log)
    requires cfg.Valid()
  {
    && LedgerOf(cfg, head).current in cfg.routes
    && forall route: Route, check: bool ::
         !CanBeOrdered(cfg, LedgerOf(cfg, head), HeadContext(cfg, env, head), route, check)
  }

  lemma ClosedGateMeansOutOfOptions(cfg: Config, env: Environment, head: Log)
    requires cfg.Valid() && LedgerOf(cfg, head).current in cfg.routes && cfg.budget.maxCost.None?
    requires var led, ctx := LedgerOf(cfg, head), HeadContext(cfg, env, head);
             Spent(ctx) || NothingUsable(cfg, ctx)
             || (Find(ctx.candidates, Some(ctx.current)).Some? && Fails(Decide(ctx, cfg.ordered)))
    ensures OutOfOptions(cfg, env, head)
  {
    hide LedgerOf, LedgerCandidates, PolicyAllows, Decide;
    var led, ctx := LedgerOf(cfg, head), HeadContext(cfg, env, head);
    forall route: Route, check: bool ensures !CanBeOrdered(cfg, led, ctx, route, check) {
      if CanBeOrdered(cfg, led, ctx, route, check) {
        var d: Decision :|
          && PolicyAllows(d, ctx, cfg.budget, led.modelSwitches, led.providerSwitches, None)
          && !Fails(d) && d.target == Some(route) && check == (d.action == CapabilityCheck);
        AllowedIsUsable(cfg, led, ctx, d);
        DefaultGivesUpExactlyWhenGateIsClosed(cfg, led, ctx);
      }
    }
  }

  /** At a head with nothing disturbing, the default supervisor is heard. */
  lemma DefaultIsHeard(cfg: Config, env: Environment, head: Log)
    requires cfg.Valid() && LedgerOf(cfg, head).current in cfg.routes && Undisturbed(cfg, env)
    ensures var ctx := HeadContext(cfg, env, head);
            && Find(ctx.candidates, Some(ctx.current)).Some?
            && match Consulted(cfg, env, ctx, DecisionCount(head))
               case Surrender => NothingUsable(cfg, ctx)
               case Stop(reason) => Spent(ctx)
               case Gate(d) => d == Decide(ctx, cfg.ordered)
               case Abandon => false
  {
    hide LedgerOf, LedgerCandidates, Decide;
    FoundIsAt(cfg, LedgerOf(cfg, head), LedgerOf(cfg, head).current);
  }

  /** The stop of an undisturbed run, seen from the decision that it follows. */
  lemma StopAfterDecision(cfg: Config, env: Environment, head: Log, e: Evidence, reason: StopReason)
    requires Genuine(cfg, env, head) && Opens(cfg) && Undisturbed(cfg, env) && e.Decided?
    requires Justified(cfg, head, e) && Answers(cfg, env, head, e)
    requires Cause(cfg, env, head + [e], reason)
    ensures Continues(cfg, head) && OutOfOptions(cfg, env, head)
  {
    hide Lawful, Faithful, LedgerOf, LedgerCandidates, PolicyAllows, Decide, Opens, Usable, ClockReads, OutOfOptions;
    assert cfg.budget.maxCost.None? by { assert Opens(cfg); CostIsOpen(cfg); }
    DefaultIsHeard(cfg, env, head);
    var led, ctx := LedgerOf(cfg, head), HeadContext(cfg, env, head);
    DefaultProposalIsAllowed(cfg, led, ctx);
    assert Last(head + [e]) == e;
    ClosedGateMeansOutOfOptions(cfg, env, head);
  }

  lemma CostIsOpen(cfg: Config)
    requires Opens(cfg)
    ensures cfg.budget.maxCost.None?
  {
  }

  /** A governed run under the default supervisor that nothing disturbs stops without an answer only
      when its last failure is one that recovery does not answer, or when the gate would have let no
      supervisor invoke anything again. */
  lemma DefaultRunExhaustsItsOptions(cfg: Config, env: Environment, log: Log, reason: StopReason)
    requires Genuine(cfg, env, log) && Concluded(cfg, env, log, Stopped(reason))
    requires Opens(cfg) && Undisturbed(cfg, env)
    ensures var head := LastHead(log);
            && head != [] && Last(head).Completed?
            && (Hopeless(cfg, Last(head)) || Last(head).closing.Refused? || OutOfOptions(cfg, env, head))
  {
    hide Lawful, Faithful, LedgerOf, LedgerCandidates, Opens, OutOfOptions, Consulted, HeadContext, ClockReads,
         Justified, Answers;
    var n := |log| - 1;
    GenuinePrefix(cfg, env, log, n);
    var p := log[..n];
    assert Cause(cfg, env, p, reason) by { AnswersTerminal(cfg, env, p, log[n]); }
    assert p != [];
    if Last(p).Decided? {
      GenuinePrefix(cfg, env, log, n - 1);
      assert p == log[..n - 1] + [log[n - 1]];
      StopAfterDecision(cfg, env, log[..n - 1], log[n - 1], reason);
    } else if !Hopeless(cfg, Last(p)) && !Last(p).closing.Refused? {
      DefaultIsHeard(cfg, env, p);
      CostIsOpen(cfg);
      ClosedGateMeansOutOfOptions(cfg, env, p);
    }
  }

  lemma AnswersTerminal(cfg: Config, env: Environment, log: Log, e: Evidence)
    requires cfg.Valid() && e.Terminal? && Answers(cfg, env, log, e)
    ensures Cause(cfg, env, log, e.reason)
  {
  }
}

/** Classification, finite detection, the default Lead proposal and the independent gate. */
module RecoveryPolicy {
  import opened Wrappers
  import opened RecoveryDomain

  // ---- Classification -------------------------------------------------------------------

  predicate IsTransport(c: FailureClass) {
    c in {ReadTimeout, ProviderDeadlineExceeded, ProviderUnavailable, RemoteProtocolError, RateLimit}
  }

  function ClassifyCode(code: Code): Assessment {
    match code
    case IdentityMismatchCode => Assessment(ModelIdentityMismatch, IdentityStage, false)
    case ReadTimeoutCode => Assessment(ReadTimeout, ProviderStage, true)
    case OverallDeadlineExceededCode => Assessment(ProviderDeadlineExceeded, ProviderStage, true)
    case ConnectTimeoutCode => Assessment(ProviderUnavailable, ProviderStage, true)
    case ProviderUnavailableCode => Assessment(ProviderUnavailable, ProviderStage, true)
    case RemoteProtocolErrorCode => Assessment(RemoteProtocolError, ProviderStage, true)
    case QuotaOrRateLimitCode => Assessment(RateLimit, ProviderStage, true)
    case RetryableHttpFailureCode => Assessment(ProviderUnavailable, ProviderStage, true)
    case InvalidProviderResponseCode => Assessment(OutputContractFailure, OutputStage, false)
    case SemanticSchemaFailureCode => Assessment(OutputContractFailure, OutputStage, false)
    case _ => Assessment(NonRecoverableRuntimeFailure, RuntimeStage, false)
  }

  /** The stage argument, when given, wins over the exception. */
  function Classify(fault: Fault, stage: Option<Stage>): Assessment {
    if stage == Some(ResearchStage) then Assessment(ResearchSemanticFailure, ResearchStage, false)
    else if stage == Some(IdentityStage) || stage == Some(RuntimeStage) then
      Assessment(NonRecoverableRuntimeFailure, stage.value, false)
    else
      match fault
      case ProviderFault(code) => ClassifyCode(code)
      case _ => Assessment(UnknownFailure, RuntimeStage, false)
  }

  /** The assessment an invocation acts on: a schema violation is an output failure whatever the
      classifier said, and generated operations may recover from identity and output failures. */
  function Assess(fault: Fault, generated: bool): Assessment {
    var first := Classify(fault, None);
    var second := if fault.ValidationFault?
                  then first.(failureClass := OutputContractFailure, stage := OutputStage) else first;
    if generated && second.failureClass in {ModelIdentityMismatch, OutputContractFailure}
    then second.(recoverable := true) else second
  }

  /** The assessment read back from the failure class that the evidence row retains. */
  function Reassess(c: FailureClass, generated: bool): Assessment {
    if IsTransport(c) then Assessment(c, ProviderStage, true)
    else if c == ModelIdentityMismatch then Assessment(c, IdentityStage, generated)
    else if c == OutputContractFailure then Assessment(c, OutputStage, generated)
    else Assessment(c, RuntimeStage, false)
  }

  /** Nothing the loop decides on is lost in the evidence: the recorded class determines the stage
      and the recoverability that the in-memory assessment had. */
  lemma RecordedClassDeterminesAssessment(fault: Fault, generated: bool)
    ensures Reassess(Assess(fault, generated).failureClass, generated) == Assess(fault, generated)
    ensures Assess(fault, generated).failureClass != TaskDeadlineExceeded
  {
    match fault
    case ProviderFault(code) =>
      match code {
        case IdentityMismatchCode =>
        case _ =>
      }
    case ValidationFault =>
    case OtherFault =>
  }

  /** A stage that is given outweighs whatever the error was, and is never recoverable. */
  lemma GivenStageWins(fault: Fault, stage: Stage)
    ensures var a := Classify(fault, Some(stage));
            && (stage in {ResearchStage, IdentityStage, RuntimeStage} ==> a.stage == stage && !a.recoverable)
            && (stage == ResearchStage ==> a.failureClass == ResearchSemanticFailure)
            && (stage in {IdentityStage, RuntimeStage} ==> a.failureClass == NonRecoverableRuntimeFailure)
            && (stage in {ProviderStage, OutputStage} ==> a == Classify(fault, None))
  {
  }

  // ---- Detection ------------------------------------------------------------------------

  function Count(r: Route, rs: seq<Route>): nat {
    multiset(rs)[r]
  }

  function HealthOf(health: map<Route, Health>, r: Route): Health {
    if r in health then health[r] else HealthUnknown
  }

  function CandidateFor(r: Route, info: RouteInfo, capability: Capability, used: nat, health: Health,
                        budget: Budget): Candidate {
    var exhausted := used >= budget.maxSameRoute;
    var available := info.authority && !exhausted && health != Unavailable;
    var eligible := available && capability == Verified;
    Candidate(r, info.provider, info.authority, health, capability, exhausted, eligible,
              if eligible then SwitchProvider
              else if available && capability in {Unknown, Candidacy} then CapabilityCheck
              else FailTask)
  }

  /** Candidates in registry order, one for each route. */
  function Candidates(
    routes: seq<Route>,
    registry: map<Route, RouteInfo>,
    capabilities: map<Route, Capability>,
    used: seq<Route>,
    health: map<Route, Health>,
    budget: Budget): (cs: seq<Candidate>)
    requires forall r :: r in routes ==> r in registry
    ensures |cs| == |routes|
    ensures forall i :: 0 <= i < |cs| ==> cs[i].route == routes[i]
  {
    seq(|routes|, i requires 0 <= i < |routes| =>
      CandidateFor(routes[i], registry[routes[i]],
                   if routes[i] in capabilities then capabilities[routes[i]] else Unknown,
                   Count(routes[i], used), HealthOf(health, routes[i]), budget))
  }

  /** The detector's loop over the registry. */
  method DetectCandidates(
    routes: seq<Route>,
    registry: map<Route, RouteInfo>,
    capabilities: map<Route, Capability>,
    used: seq<Route>,
    health: map<Route, Health>,
    budget: Budget)
    returns (result: seq<Candidate>)
    requires forall r :: r in routes ==> r in registry
    ensures result == Candidates(routes, registry, capabilities, used, health, budget)
  {
    result := [];
    for i := 0 to |routes|
      invariant result == Candidates(routes, registry, capabilities, used, health, budget)[..i]
    {
      var r := routes[i];
      var capability := if r in capabilities then capabilities[r] else Unknown;
      result := result + [CandidateFor(r, registry[r], capability, Count(r, used), HealthOf(health, r), budget)];
    }
  }

  /** A switch to `r` would overdraw the switch budget. */
  predicate SwitchSpent(r: Route, provider: string, current: Route, currentProvider: string,
                        modelSwitches: nat, providerSwitches: nat, budget: Budget) {
    && r != current
    && (if provider == currentProvider then modelSwitches >= budget.maxModelFallbacks
        else providerSwitches >= budget.maxProviderSwitches)
  }

  /** Takes the routes out of play whose switch budget is spent. */
  function Withdraw(cs: seq<Candidate>, current: Route, currentProvider: string,
                    modelSwitches: nat, providerSwitches: nat, budget: Budget): (ws: seq<Candidate>)
    ensures |ws| == |cs|
    ensures forall i :: 0 <= i < |ws| ==> ws[i].route == cs[i].route
  {
    seq(|cs|, i requires 0 <= i < |cs| =>
      if SwitchSpent(cs[i].route, cs[i].provider, current, currentProvider, modelSwitches, providerSwitches, budget)
      then cs[i].(eligible := false, next := FailTask) else cs[i])
  }

  predicate Usable(c: Candidate) {
    c.eligible || c.next == CapabilityCheck
  }

  // ---- The loop's state as one value ----------------------------------------------------

  /** What the recovery loop knows when it has to decide. */
  datatype Ledger = Ledger(
    history: seq<Route>,
    checked: seq<Route>,
    checks: nat,
    decisions: nat,
    modelSwitches: nat,
    providerSwitches: nat,
    current: Route,
    capabilities: map<Route, Capability>,
    health: map<Route, Health>,
    failure: Assessment)

  /** The uses of a route that the same-route budget counts: the ordered walk also counts checks. */
  function UsesOf(cfg: Config, led: Ledger): seq<Route> {
    if cfg.ordered then led.history + led.checked else led.history
  }

  function LedgerCandidates(cfg: Config, led: Ledger): (cs: seq<Candidate>)
    requires cfg.Valid() && led.current in cfg.routes
    ensures |cs| == |cfg.routes|
    ensures forall i :: 0 <= i < |cs| ==> cs[i].route == cfg.routes[i]
  {
    Withdraw(Candidates(cfg.routes, cfg.registry, led.capabilities, UsesOf(cfg, led), led.health, cfg.budget),
             led.current, cfg.registry[led.current].provider,
             led.modelSwitches, led.providerSwitches, cfg.budget)
  }

  function ContextOf(cfg: Config, led: Ledger, seconds: Seconds, refs: seq<nat>): Context
    requires cfg.Valid() && led.current in cfg.routes
  {
    Context(cfg.scope, led.failure, led.current, LedgerCandidates(cfg, led), led.history,
            cfg.budget.maxAttempts - |led.history|, cfg.budget.maxChecks - led.checks,
            cfg.budget.maxDecisions - led.decisions, seconds, refs)
  }

  // ---- The default supervisor -----------------------------------------------------------

  /** First index whose candidate satisfies the test, or the length. */
  function FirstIndex(cs: seq<Candidate>, test: Candidate -> bool): (i: nat)
    ensures i <= |cs|
    ensures forall j :: 0 <= j < i ==> !test(cs[j])
    ensures i < |cs| ==> test(cs[i])
  {
    if cs == [] then 0
    else if test(cs[0]) then 0
    else
      assert forall j :: 0 < j < |cs| ==> cs[j] == cs[1..][j - 1];
      1 + FirstIndex(cs[1..], test)
  }

  function Find(cs: seq<Candidate>, r: Option<Route>): (c: Option<Candidate>)
    ensures c.Some? ==> c.value in cs && r == Some(c.value.route)
    ensures c.None? ==> forall k :: k in cs ==> r != Some(k.route)
  {
    var i := FirstIndex(cs, (k: Candidate) => r == Some(k.route));
    if i < |cs| then Some(cs[i]) else None
  }

  /** The walk over the candidates: in an ordered walk a check that the budget allows is taken as
      soon as it is met, otherwise the first eligible route. */
  predicate Takes(c: Candidate, ordered: bool, remainingChecks: int) {
    c.eligible || (ordered && remainingChecks > 0 && c.next == CapabilityCheck)
  }

  function Propose(ctx: Context, action: Action, reason: Reason, target: Option<Route>): Decision {
    Decision(ctx.scope, action, target, reason, ctx.refs)
  }

  predicate Spent(ctx: Context) {
    ctx.remainingAttempts <= 0 || ctx.remainingDecisions <= 0 || ctx.remainingSeconds <= 0.0
  }

  /** Index of the first candidate that the walk takes, or the number of candidates. */
  function FirstTaken(ctx: Context, ordered: bool): (i: nat)
    ensures i <= |ctx.candidates|
    ensures forall j :: 0 <= j < i ==> !Takes(ctx.candidates[j], ordered, ctx.remainingChecks)
    ensures i < |ctx.candidates| ==> Takes(ctx.candidates[i], ordered, ctx.remainingChecks)
  {
    FirstIndex(ctx.candidates, (c: Candidate) => Takes(c, ordered, ctx.remainingChecks))
  }

  function FirstCheckable(ctx: Context): (i: nat)
    ensures i <= |ctx.candidates|
    ensures forall j :: 0 <= j < i ==> ctx.candidates[j].next != CapabilityCheck
    ensures i < |ctx.candidates| ==> ctx.candidates[i].next == CapabilityCheck
  {
    FirstIndex(ctx.candidates, (c: Candidate) => c.next == CapabilityCheck)
  }

  function Decide(ctx: Context, ordered: bool): Decision
    requires exists c :: c in ctx.candidates && c.route == ctx.current
  {
    if !ctx.failure.recoverable then Propose(ctx, FailTask, NonRecoverable, None)
    else if Spent(ctx) then Propose(ctx, FailTask, BudgetExhausted, None)
    else
      var current := Find(ctx.candidates, Some(ctx.current)).value;
      var i := FirstTaken(ctx, ordered);
      if i < |ctx.candidates| then
        var c := ctx.candidates[i];
        if ordered && ctx.remainingChecks > 0 && c.next == CapabilityCheck then
          Propose(ctx, CapabilityCheck, CapabilityRequired, Some(c.route))
        else
          Propose(ctx, if c.route == current.route then RetrySameRoute
                       else if c.provider == current.provider then SwitchModel
                       else SwitchProvider, NextGovernedRoute, Some(c.route))
      else
        var j := FirstCheckable(ctx);
        if ctx.remainingChecks > 0 && j < |ctx.candidates| then
          Propose(ctx, CapabilityCheck, CapabilityRequired, Some(ctx.candidates[j].route))
        else Propose(ctx, FailTask, NoAllowedRoute, None)
  }

  // ---- The independent gate -------------------------------------------------------------

  predicate PolicyAllows(d: Decision, ctx: Context, budget: Budget,
                         modelSwitches: nat, providerSwitches: nat, cost: Option<nat>) {
    if d.scope != ctx.scope || exists r :: r in d.refs && r !in ctx.refs then false
    else if d.action in {FailTask, FailRun} then true
    else if !ctx.failure.recoverable || ctx.remainingAttempts <= 0
            || ctx.remainingDecisions <= 0 || ctx.remainingSeconds <= 0.0 then false
    else if budget.maxCost.Some? && (cost.None? || cost.value >= budget.maxCost.value) then false
    else
      match (Find(ctx.candidates, d.target), Find(ctx.candidates, Some(ctx.current)))
      case (Some(candidate), Some(current)) =>
        if !candidate.authority || candidate.exhausted || candidate.health == Unavailable then false
        else if d.action == CapabilityCheck then
          && ctx.remainingChecks > 0
          && candidate.capability in {Unknown, Candidacy}
          && (candidate.route == current.route
              || (if candidate.provider == current.provider then modelSwitches < budget.maxModelFallbacks
                  else providerSwitches < budget.maxProviderSwitches))
        else if !candidate.eligible || candidate.capability != Verified then false
        else
          (match d.action
           case RetrySameRoute => candidate.route == current.route
           case SwitchModel =>
             candidate.route != current.route && candidate.provider == current.provider
             && modelSwitches < budget.maxModelFallbacks
           case SwitchProvider =>
             candidate.provider != current.provider && providerSwitches < budget.maxProviderSwitches
           case _ => false)
      case _ => false
  }

  // ---- Supervisor and gate agree --------------------------------------------------------

  predicate Fails(d: Decision) {
    d.action in {FailTask, FailRun}
  }

  lemma CandidateAt(cfg: Config, led: Ledger, c: Candidate)
    requires cfg.Valid() && led.current in cfg.routes
    requires c in LedgerCandidates(cfg, led)
    ensures c.route in cfg.routes && c.provider == cfg.registry[c.route].provider
    ensures c.capability == if c.route in led.capabilities then led.capabilities[c.route] else Unknown
    ensures c.exhausted == (Count(c.route, UsesOf(cfg, led)) >= cfg.budget.maxSameRoute)
    ensures c.authority == cfg.registry[c.route].authority
    ensures c.health == HealthOf(led.health, c.route)
                     == if c.route in led.health then led.health[c.route] else HealthUnknown
    ensures var spent := SwitchSpent(c.route, c.provider, led.current, cfg.registry[led.current].provider,
                                     led.modelSwitches, led.providerSwitches, cfg.budget);
            var available := c.authority && !c.exhausted && c.health != Unavailable;
            && c.eligible == (!spent && available && c.capability == Verified)
            && c.next == if c.eligible then SwitchProvider
                         else if !spent && available && c.capability in {Unknown, Candidacy} then CapabilityCheck
                         else FailTask
  {
    var i :| 0 <= i < |cfg.routes| && LedgerCandidates(cfg, led)[i] == c;
  }

  /** With distinct routes, a search by route finds the candidate of that route. */
  lemma FindAt(cs: seq<Candidate>, i: nat)
    requires i < |cs| && forall j, k :: 0 <= j < k < |cs| ==> cs[j].route != cs[k].route
    ensures Find(cs, Some(cs[i].route)) == Some(cs[i])
    ensures forall c :: c in cs && c.route == cs[i].route ==> c == cs[i]
  {
    hide FirstIndex;
    assert cs[i] in cs;
    forall c | c in cs && c.route == cs[i].route ensures c == cs[i] {
      var j :| 0 <= j < |cs| && cs[j] == c;
    }
  }

  lemma FoundIsAt(cfg: Config, led: Ledger, r: Route)
    requires cfg.Valid() && led.current in cfg.routes && r in cfg.routes
    ensures Find(LedgerCandidates(cfg, led), Some(r)).Some?
    ensures Find(LedgerCandidates(cfg, led), Some(r)).value.route == r
    ensures forall c :: c in LedgerCandidates(cfg, led) && c.route == r ==>
              Find(LedgerCandidates(cfg, led), Some(r)) == Some(c)
  {
    hide Find, LedgerCandidates;
    var i :| 0 <= i < |cfg.routes| && cfg.routes[i] == r;
    var cs := LedgerCandidates(cfg, led);
    assert forall j :: 0 <= j < |cs| ==> cs[j].route == cfg.routes[j];
    FindAt(cs, i);
  }

  /** The action that reaches a candidate from the current one. */
  predicate Fits(action: Action, c: Candidate, current: Candidate, remainingChecks: int) {
    if action == CapabilityCheck then c.next == CapabilityCheck && remainingChecks > 0
    else c.eligible && action == if c.route == current.route then RetrySameRoute
                                 else if c.provider == current.provider then SwitchModel
                                 else SwitchProvider
  }

  predicate Exhausts(ctx: Context) {
    forall c :: c in ctx.candidates ==> !c.eligible && (c.next == CapabilityCheck ==> ctx.remainingChecks <= 0)
  }

  lemma WalkTakesSomething(ctx: Context, ordered: bool)
    ensures Exhausts(ctx) <==>
            FirstTaken(ctx, ordered) == |ctx.candidates|
            && (ctx.remainingChecks <= 0 || FirstCheckable(ctx) == |ctx.candidates|)
  {
  }

  /** When the default supervisor gives up, and what it otherwise proposes. */
  lemma DecideMeans(ctx: Context, ordered: bool, current: Candidate)
    requires Find(ctx.candidates, Some(ctx.current)) == Some(current)
    ensures Fails(Decide(ctx, ordered)) <==> !ctx.failure.recoverable || Spent(ctx) || Exhausts(ctx)
    ensures !Fails(Decide(ctx, ordered)) ==>
            exists c :: c in ctx.candidates && Decide(ctx, ordered).target == Some(c.route)
                        && Fits(Decide(ctx, ordered).action, c, current, ctx.remainingChecks)
    ensures Decide(ctx, ordered).scope == ctx.scope && Decide(ctx, ordered).refs == ctx.refs
    ensures var d := Decide(ctx, ordered);
            if Fails(d) then
              && d.action == FailTask && d.target == None
              && d.reason == if !ctx.failure.recoverable then NonRecoverable
                             else if Spent(ctx) then BudgetExhausted else NoAllowedRoute
            else d.reason == if d.action == CapabilityCheck then CapabilityRequired else NextGovernedRoute
  {
    WalkTakesSomething(ctx, ordered);
    if ctx.failure.recoverable && !Spent(ctx) {
      var i, j := FirstTaken(ctx, ordered), FirstCheckable(ctx);
      if i < |ctx.candidates| {
        assert ctx.candidates[i] in ctx.candidates;
        assert Fits(Decide(ctx, ordered).action, ctx.candidates[i], current, ctx.remainingChecks);
      } else if j < |ctx.candidates| && ctx.remainingChecks > 0 {
        assert ctx.candidates[j] in ctx.candidates;
        assert Fits(Decide(ctx, ordered).action, ctx.candidates[j], current, ctx.remainingChecks);
      }
    }
  }

  ghost predicate BuiltFrom(cfg: Config, led: Ledger, ctx: Context) {
    cfg.Valid() && led.current in cfg.routes && ctx == ContextOf(cfg, led, ctx.remainingSeconds, ctx.refs)
  }

  /** Any invocation that fits a candidate passes the gate. */
  lemma UsableIsAllowed(cfg: Config, led: Ledger, ctx: Context, d: Decision, c: Candidate, current: Candidate)
    requires BuiltFrom(cfg, led, ctx) && cfg.budget.maxCost.None?
    requires ctx.failure.recoverable && !Spent(ctx)
    requires Find(ctx.candidates, Some(ctx.current)) == Some(current)
    requires c in ctx.candidates && d.target == Some(c.route)
    requires d.scope == ctx.scope && d.refs == ctx.refs
    requires Fits(d.action, c, current, ctx.remainingChecks)
    ensures PolicyAllows(d, ctx, cfg.budget, led.modelSwitches, led.providerSwitches, None)
  {
    CandidateAt(cfg, led, c);
    FoundIsAt(cfg, led, c.route);
    CandidateAt(cfg, led, current);
  }

  /** Whatever invocation the gate lets through is on a usable candidate. */
  lemma AllowedIsUsable(cfg: Config, led: Ledger, ctx: Context, d: Decision)
    requires BuiltFrom(cfg, led, ctx)
    requires PolicyAllows(d, ctx, cfg.budget, led.modelSwitches, led.providerSwitches, None) && !Fails(d)
    ensures ctx.failure.recoverable && !Spent(ctx)
    ensures d.target.Some? && d.target.value in cfg.routes
    ensures Find(ctx.candidates, d.target).Some?
    ensures var c := Find(ctx.candidates, d.target).value;
            && c in ctx.candidates
            && c.route == d.target.value
            && (if d.action == CapabilityCheck then c.next == CapabilityCheck && ctx.remainingChecks > 0
                else c.eligible)
  {
    var c := Find(ctx.candidates, d.target).value;
    CandidateAt(cfg, led, c);
    FoundIsAt(cfg, led, led.current);
    CandidateAt(cfg, led, Find(ctx.candidates, Some(led.current)).value);
  }

  /** What a call of a route needs: authority, a use that is left, a health that is not unavailable, the
      capability that goes with the action, and a switch that the budget can pay for. */
  predicate CanCall(cfg: Config, led: Ledger, ctx: Context, action: Action, route: Route)
    requires cfg.Valid() && route in cfg.routes && led.current in cfg.routes
  {
    var (info, current) := (cfg.registry[route], cfg.registry[led.current]);
    var capability := if route in led.capabilities then led.capabilities[route] else Unknown;
    var same := info.provider == current.provider;
    && info.authority && Count(route, UsesOf(cfg, led)) < cfg.budget.maxSameRoute
    && !(route in led.health && led.health[route] == Unavailable)
    && (route == led.current || (if same then led.modelSwitches < cfg.budget.maxModelFallbacks
                                 else led.providerSwitches < cfg.budget.maxProviderSwitches))
    && (match action
        case CapabilityCheck => capability in {Unknown, Candidacy} && ctx.remainingChecks > 0
        case RetrySameRoute => capability == Verified && route == led.current
        case SwitchModel => capability == Verified && route != led.current && same
        case SwitchProvider => capability == Verified && !same
        case _ => false)
  }

  /** The gate, in terms of what the loop knows: a decision of the same scope that refers to nothing else
      than the context does is let through exactly when it gives up, or when there is a recoverable failure,
      nothing is spent, the cost is covered, and the route can be called in that way. */
  lemma GateMeans(cfg: Config, led: Ledger, ctx: Context, d: Decision, cost: Option<nat>)
    requires BuiltFrom(cfg, led, ctx)
    ensures PolicyAllows(d, ctx, cfg.budget, led.modelSwitches, led.providerSwitches, cost) <==>
            && d.scope == cfg.scope && (forall r :: r in d.refs ==> r in ctx.refs)
            && (|| d.action == FailTask || d.action == FailRun
                || (&& ctx.failure.recoverable && ctx.remainingAttempts > 0 && ctx.remainingDecisions > 0
                    && ctx.remainingSeconds > 0.0
                    && (cfg.budget.maxCost.None? || (cost.Some? && cost.value < cfg.budget.maxCost.value))
                    && d.target.Some? && d.target.value in cfg.routes
                    && CanCall(cfg, led, ctx, d.action, d.target.value)))
  {
    hide Count, LedgerCandidates, Find;
    FoundIsAt(cfg, led, led.current);
    CandidateAt(cfg, led, Find(ctx.candidates, Some(ctx.current)).value);
    var found := Find(ctx.candidates, d.target);
    if found.Some? {
      CandidateAt(cfg, led, found.value);
    }
    if d.target.Some? && d.target.value in cfg.routes {
      FoundIsAt(cfg, led, d.target.value);
    }
  }

  /** The gate never refuses the default supervisor. */
  lemma DefaultProposalIsAllowed(cfg: Config, led: Ledger, ctx: Context)
    requires BuiltFrom(cfg, led, ctx) && cfg.budget.maxCost.None?
    ensures Find(ctx.candidates, Some(ctx.current)).Some?
    ensures PolicyAllows(Decide(ctx, cfg.ordered), ctx, cfg.budget, led.modelSwitches, led.providerSwitches, None)
  {
    FoundIsAt(cfg, led, led.current);
    var current := Find(ctx.candidates, Some(ctx.current)).value;
    DecideMeans(ctx, cfg.ordered, current);
    var d := Decide(ctx, cfg.ordered);
    if !Fails(d) {
      var c :| c in ctx.candidates && d.target == Some(c.route) && Fits(d.action, c, current, ctx.remainingChecks);
      UsableIsAllowed(cfg, led, ctx, d, c, current);
    }
  }

  /** The default supervisor gives up exactly when the gate would let no invocation through. */
  lemma DefaultGivesUpExactlyWhenGateIsClosed(cfg: Config, led: Ledger, ctx: Context)
    requires BuiltFrom(cfg, led, ctx) && cfg.budget.maxCost.None?
    ensures Find(ctx.candidates, Some(ctx.current)).Some?
    ensures Fails(Decide(ctx, cfg.ordered)) <==>
            forall d: Decision :: PolicyAllows(d, ctx, cfg.budget, led.modelSwitches, led.providerSwitches, None) ==>
              Fails(d)
  {
    DefaultProposalIsAllowed(cfg, led, ctx);
    DecideMeans(ctx, cfg.ordered, Find(ctx.candidates, Some(ctx.current)).value);
    forall d: Decision | Fails(Decide(ctx, cfg.ordered)) && !Fails(d)
                         && PolicyAllows(d, ctx, cfg.budget, led.modelSwitches, led.providerSwitches, None)
      ensures false
    {
      AllowedIsUsable(cfg, led, ctx, d);
    }
  }

  // ---- Which candidate the default supervisor chooses -----------------------------------

  /** The gate lets a call of the candidate through: as a check, or as a retry or a switch. */
  ghost predicate LetsThrough(cfg: Config, led: Ledger, ctx: Context, c: Candidate, check: bool) {
    exists d: Decision ::
      && PolicyAllows(d, ctx, cfg.budget, led.modelSwitches, led.providerSwitches, None) && !Fails(d)
      && d.target == Some(c.route) && check == (d.action == CapabilityCheck)
  }

  /** The gate lets nothing through for the earlier candidates. */
  ghost predicate FirstLet(cfg: Config, led: Ledger, ctx: Context, i: nat, check: bool)
    requires i < |ctx.candidates|
  {
    && LetsThrough(cfg, led, ctx, ctx.candidates[i], check)
    && forall j :: 0 <= j < i ==> !LetsThrough(cfg, led, ctx, ctx.candidates[j], check)
  }

  lemma LetsThroughMeans(cfg: Config, led: Ledger, ctx: Context, c: Candidate)
    requires BuiltFrom(cfg, led, ctx) && cfg.budget.maxCost.None?
    requires ctx.failure.recoverable && !Spent(ctx) && c in ctx.candidates
    ensures LetsThrough(cfg, led, ctx, c, true) <==> c.next == CapabilityCheck && ctx.remainingChecks > 0
    ensures LetsThrough(cfg, led, ctx, c, false) <==> c.eligible
  {
    hide PolicyAllows, LedgerCandidates;
    FoundIsAt(cfg, led, led.current);
    CandidateRoutes(cfg, led, c);
    FoundIsAt(cfg, led, c.route);
    var current := Find(ctx.candidates, Some(ctx.current)).value;
    forall d: Decision | PolicyAllows(d, ctx, cfg.budget, led.modelSwitches, led.providerSwitches, None) && !Fails(d)
                         && d.target == Some(c.route)
      ensures if d.action == CapabilityCheck then c.next == CapabilityCheck && ctx.remainingChecks > 0 else c.eligible
    {
      AllowedIsUsable(cfg, led, ctx, d);
    }
    var check := Propose(ctx, CapabilityCheck, CapabilityRequired, Some(c.route));
    if c.next == CapabilityCheck && ctx.remainingChecks > 0 {
      UsableIsAllowed(cfg, led, ctx, check, c, current);
    }
    var call := Propose(ctx, if c.route == current.route then RetrySameRoute
                             else if c.provider == current.provider then SwitchModel
                             else SwitchProvider, NextGovernedRoute, Some(c.route));
    if c.eligible {
      UsableIsAllowed(cfg, led, ctx, call, c, current);
    }
  }

  lemma CandidateRoutes(cfg: Config, led: Ledger, c: Candidate)
    requires cfg.Valid() && led.current in cfg.routes && c in LedgerCandidates(cfg, led)
    ensures c.route in cfg.routes
  {
    CandidateAt(cfg, led, c);
  }

  /** In an ordered walk the default chooses the first candidate of which the gate lets any call through,
      as a check when only a check is let through. */
  lemma OrderedWalkTakesTheFirst(cfg: Config, led: Ledger, ctx: Context) returns (i: nat)
    requires BuiltFrom(cfg, led, ctx) && cfg.budget.maxCost.None? && cfg.ordered
    requires ctx.failure.recoverable && !Spent(ctx) && Find(ctx.candidates, Some(ctx.current)).Some?
    requires !Fails(Decide(ctx, true))
    ensures var d := Decide(ctx, true);
            && i < |ctx.candidates| && d.target == Some(ctx.candidates[i].route)
            && LetsThrough(cfg, led, ctx, ctx.candidates[i], d.action == CapabilityCheck)
            && (d.action == CapabilityCheck ==> !LetsThrough(cfg, led, ctx, ctx.candidates[i], false))
            && forall j, check :: 0 <= j < i ==> !LetsThrough(cfg, led, ctx, ctx.candidates[j], check)
  {
    hide LedgerCandidates, LetsThrough;
    i := FirstTaken(ctx, true);
    forall j | 0 <= j < |ctx.candidates|
      ensures var c := ctx.candidates[j];
              && (LetsThrough(cfg, led, ctx, c, true) <==> c.next == CapabilityCheck && ctx.remainingChecks > 0)
              && (LetsThrough(cfg, led, ctx, c, false) <==> c.eligible)
              && (c.eligible ==> c.next != CapabilityCheck)
    {
      var c := ctx.candidates[j];
      LetsThroughMeans(cfg, led, ctx, c);
      CandidateAt(cfg, led, c);
    }
  }

  /** Otherwise it chooses the first candidate of which the gate lets an execution through; only when there
      is none does it check, the first candidate of which the gate lets a check through. */
  lemma ExecutionsComeBeforeChecks(cfg: Config, led: Ledger, ctx: Context) returns (i: nat)
    requires BuiltFrom(cfg, led, ctx) && cfg.budget.maxCost.None? && !cfg.ordered
    requires ctx.failure.recoverable && !Spent(ctx) && Find(ctx.candidates, Some(ctx.current)).Some?
    requires !Fails(Decide(ctx, false))
    ensures var d := Decide(ctx, false);
            && i < |ctx.candidates| && d.target == Some(ctx.candidates[i].route)
            && FirstLet(cfg, led, ctx, i, d.action == CapabilityCheck)
            && (d.action == CapabilityCheck ==>
                  forall j :: 0 <= j < |ctx.candidates| ==> !LetsThrough(cfg, led, ctx, ctx.candidates[j], false))
  {
    hide LedgerCandidates, LetsThrough;
    i := FirstTaken(ctx, false);
    if i == |ctx.candidates| {
      i := FirstCheckable(ctx);
    }
    forall j | 0 <= j < |ctx.candidates|
      ensures var c := ctx.candidates[j];
              && (LetsThrough(cfg, led, ctx, c, true) <==> c.next == CapabilityCheck && ctx.remainingChecks > 0)
              && (LetsThrough(cfg, led, ctx, c, false) <==> c.eligible)
    {
      LetsThroughMeans(cfg, led, ctx, ctx.candidates[j]);
    }
  }
}

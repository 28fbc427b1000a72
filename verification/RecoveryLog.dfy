/** What one governed execution may append to the evidence table, read from the evidence alone.

    Every counter, history and map that the recovery loop keeps in memory is defined here as a
    function of the log; `Justified` says which record may come next, and `Lawful` logs are the
    ones built from justified records. */
module RecoveryLog {
  import opened Wrappers
  import opened RecoveryDomain
  import opened RecoveryPolicy

  type Log = seq<Evidence>

  // ---- Readings of the log --------------------------------------------------------------

  /** Routes of the attempts that were not capability checks, in order. */
  function Executions(log: Log): seq<Route> {
    if log == [] then []
    else Executions(log[..|log| - 1])
         + if Last(log).Started? && !Last(log).check then [Last(log).route] else []
  }

  function CheckRoutes(log: Log): seq<Route> {
    if log == [] then []
    else CheckRoutes(log[..|log| - 1])
         + if Last(log).Started? && Last(log).check then [Last(log).route] else []
  }

  /** Every provider call, checks included. */
  function Invocations(log: Log): seq<Route> {
    if log == [] then []
    else Invocations(log[..|log| - 1]) + if Last(log).Started? then [Last(log).route] else []
  }

  function DecisionCount(log: Log): nat {
    if log == [] then 0
    else DecisionCount(log[..|log| - 1]) + if Last(log).Decided? then 1 else 0
  }

  /** The route sequence whose changes spend the switch budgets. */
  function Path(cfg: Config, log: Log): seq<Route> {
    if cfg.ordered then Invocations(log) else Executions(log)
  }

  function Provider(cfg: Config, r: Route): string {
    if r in cfg.registry then cfg.registry[r].provider else ""
  }

  function SameProviderChanges(cfg: Config, rs: seq<Route>): nat {
    if |rs| < 2 then 0
    else SameProviderChanges(cfg, rs[..|rs| - 1])
         + if rs[|rs| - 2] != Last(rs) && Provider(cfg, rs[|rs| - 2]) == Provider(cfg, Last(rs)) then 1 else 0
  }

  function CrossProviderChanges(cfg: Config, rs: seq<Route>): nat {
    if |rs| < 2 then 0
    else CrossProviderChanges(cfg, rs[..|rs| - 1])
         + if Provider(cfg, rs[|rs| - 2]) != Provider(cfg, Last(rs)) then 1 else 0
  }

  /** What a closed attempt teaches about its route. */
  function Learned(cfg: Config, before: Capability, check: bool, closing: Closing): Capability {
    match closing
    case Pass(substituted) => if check && !cfg.ordered && !substituted then Verified else before
    case Fail(c) =>
      if c == TaskDeadlineExceeded then before
      else if check then (if IsTransport(c) then Unknown else Quarantined)
      else if cfg.generated && c == ModelIdentityMismatch then Quarantined
      else before
    case _ => before
  }

  function CapabilitiesAfter(cfg: Config, log: Log): (caps: map<Route, Capability>)
    ensures forall r :: r in cfg.capabilities ==> r in caps
  {
    if log == [] then cfg.capabilities
    else
      var caps := CapabilitiesAfter(cfg, log[..|log| - 1]);
      match Last(log)
      case Completed(_, r, check, closing) =>
        if r in caps then caps[r := Learned(cfg, caps[r], check, closing)] else caps
      case _ => caps
  }

  /** Every route on which a failure was handled counts as degraded. */
  function DegradedOn(health: map<Route, Health>, rs: seq<Route>): map<Route, Health> {
    if rs == [] then health else DegradedOn(health, rs[..|rs| - 1])[Last(rs) := Degraded]
  }

  /** The failure that the next decision answers: in the ordered walk the latest one, otherwise the
      latest one that was not a check. */
  function FailureAfter(cfg: Config, log: Log): Assessment {
    if log == [] then Assessment(UnknownFailure, RuntimeStage, false)
    else
      match Last(log)
      case Completed(_, _, check, Fail(c)) =>
        if cfg.ordered || !check then Reassess(c, cfg.generated) else FailureAfter(cfg, log[..|log| - 1])
      case _ => FailureAfter(cfg, log[..|log| - 1])
  }

  /** Route and class of the latest failed attempt, for the terminal record. */
  function Blame(cfg: Config, log: Log): (Route, Option<FailureClass>) {
    if log == [] then (cfg.initial, None)
    else
      match Last(log)
      case Completed(_, r, _, Fail(c)) => (r, Some(c))
      case _ => Blame(cfg, log[..|log| - 1])
  }

  function LedgerOf(cfg: Config, log: Log): Ledger {
    var path := Path(cfg, log);
    Ledger(Executions(log), if cfg.ordered then CheckRoutes(log) else [], |CheckRoutes(log)|, DecisionCount(log),
           SameProviderChanges(cfg, path), CrossProviderChanges(cfg, path),
           if path == [] then cfg.initial else Last(path),
           CapabilitiesAfter(cfg, log), DegradedOn(cfg.health, path), FailureAfter(cfg, log))
  }

  function Upto(n: nat): (s: seq<nat>)
    ensures |s| == n && forall i :: 0 <= i < n ==> s[i] == i
  {
    seq(n, i => i)
  }

  /** The latest records, at most twelve. */
  function Refs(log: Log): seq<nat> {
    var n := |log|;
    Upto(n)[if n > MAX_REFS then n - MAX_REFS else 0..]
  }

  // ---- Which record may come next -------------------------------------------------------

  predicate Opens(cfg: Config) {
    && cfg.initial in cfg.registry && cfg.registry[cfg.initial].authority
    && cfg.budget.maxCost.None?
    && cfg.initial in cfg.capabilities
    && cfg.capabilities[cfg.initial] !in {Quarantined, Unsupported}
  }

  predicate Invokes(a: Action) {
    a in {RetrySameRoute, SwitchModel, SwitchProvider, CapabilityCheck}
  }

  predicate Orders(e: Evidence, route: Route, check: bool) {
    && e.Decided? && e.allowed && Invokes(e.decision.action)
    && e.decision.target == Some(route)
    && check == (e.decision.action == CapabilityCheck)
  }

  function NextNumber(cfg: Config, log: Log, check: bool): nat {
    1 + if cfg.ordered then |Invocations(log)|
        else if check then |CheckRoutes(log)|
        else |Executions(log)|
  }

  /** The attempt just closed leaves the loop running. */
  predicate Continues(cfg: Config, log: Log) {
    && log != [] && Last(log).Completed?
    && (match Last(log).closing
        case Fail(c) => Reassess(c, cfg.generated).recoverable
        case Pass(substituted) => Last(log).check && !cfg.ordered && !substituted
        case _ => false)
  }

  /** The ordered walk gives up by itself when no candidate is left. */
  function SurrenderDecision(ctx: Context): Decision {
    Decision(ctx.scope, FailTask, None, NoAllowedRoute, ctx.refs)
  }

  /** Giving up by itself, the ordered walk decides what the default supervisor would. */
  lemma SurrenderIsTheDefault(ctx: Context)
    requires ctx.failure.recoverable && !Spent(ctx) && Find(ctx.candidates, Some(ctx.current)).Some?
    requires forall c :: c in ctx.candidates ==> !Usable(c)
    ensures SurrenderDecision(ctx) == Decide(ctx, true)
  {
    hide Decide, Find;
    DecideMeans(ctx, true, Find(ctx.candidates, Some(ctx.current)).value);
  }

  predicate Surrenders(cfg: Config, d: Decision, ctx: Context, allowed: bool) {
    && cfg.ordered && allowed
    && (forall c :: c in ctx.candidates ==> !Usable(c))
    && d == SurrenderDecision(ctx)
  }

  predicate DecisionHolds(cfg: Config, led: Ledger, d: Decision, ctx: Context, allowed: bool) {
    || Surrenders(cfg, d, ctx, allowed)
    || (&& ctx.remainingAttempts > 0 && ctx.remainingDecisions > 0
        && !(cfg.ordered && forall c :: c in ctx.candidates ==> !Usable(c))
        && allowed == PolicyAllows(d, ctx, cfg.budget, led.modelSwitches, led.providerSwitches, None))
  }

  predicate MayStop(cfg: Config, log: Log, reason: StopReason) {
    if log == [] then true
    else
      match Last(log)
      case Started(_, _, _) => false
      case Terminal(_, _, _) => false
      case Completed(_, _, check, closing) =>
        && reason != InterruptedExecution
        && (match closing
            case Pass(substituted) => check && !cfg.ordered && !substituted && reason != NonRecoverableStop
            case Fail(TaskDeadlineExceeded) => reason == RecoveryBudgetExhausted
            case Fail(c) => if Reassess(c, cfg.generated).recoverable then reason != NonRecoverableStop
                            else reason != PolicyDenied
            case Refused => reason == NonRecoverableStop
            case Cancelled => false)
      case Decided(d, _, allowed) =>
        if !allowed then reason == PolicyDenied
        else if Fails(d) then reason == if d.reason == BudgetExhausted then RecoveryBudgetExhausted else PolicyDenied
        else reason in {NonRecoverableStop, RecoveryBudgetExhausted}
  }

  predicate Justified(cfg: Config, log: Log, next: Evidence)
    requires cfg.Valid()
  {
    match next
    case Started(number, route, check) =>
      && number == NextNumber(cfg, log, check) <= MAX_ATTEMPT_NUMBER
      && (if log == [] then Opens(cfg) && route == cfg.initial && !check
          else Orders(Last(log), route, check))
    case Completed(number, route, check, _) =>
      log != [] && Last(log) == Started(number, route, check)
    case Decided(d, ctx, allowed) =>
      var led := LedgerOf(cfg, log);
      && Continues(cfg, log) && led.failure.recoverable
      && led.current in cfg.routes
      && ctx == ContextOf(cfg, led, ctx.remainingSeconds, Refs(log))
      && DecisionHolds(cfg, led, d, ctx, allowed)
    case Terminal(reason, blamed, failure) =>
      && MayStop(cfg, log, reason)
      && (if log != [] && Last(log).Completed? && Last(log).closing.Refused?
          then blamed == Last(log).route && failure == None
          else (blamed, failure) == Blame(cfg, log))
  }

  predicate Lawful(cfg: Config, log: Log)
    requires cfg.Valid()
  {
    log != [] ==> Lawful(cfg, log[..|log| - 1]) && Justified(cfg, log[..|log| - 1], Last(log))
  }

  // ---- Appending one record -------------------------------------------------------------

  lemma Append(cfg: Config, log: Log, e: Evidence)
    requires cfg.Valid()
    ensures var l := log + [e];
            && Executions(l) == Executions(log) + (if e.Started? && !e.check then [e.route] else [])
            && CheckRoutes(l) == CheckRoutes(log) + (if e.Started? && e.check then [e.route] else [])
            && Invocations(l) == Invocations(log) + (if e.Started? then [e.route] else [])
            && DecisionCount(l) == DecisionCount(log) + (if e.Decided? then 1 else 0)
            && (!e.Completed? ==> CapabilitiesAfter(cfg, l) == CapabilitiesAfter(cfg, log)
                                  && FailureAfter(cfg, l) == FailureAfter(cfg, log)
                                  && Blame(cfg, l) == Blame(cfg, log))
            && (Lawful(cfg, l) <==> Lawful(cfg, log) && Justified(cfg, log, e))
  {
    assert (log + [e])[..|log|] == log;
  }

  /** A record that starts nothing leaves the attempt sequences alone. */
  lemma OtherKeepsPath(cfg: Config, log: Log, e: Evidence)
    requires !e.Started?
    ensures Executions(log + [e]) == Executions(log)
    ensures CheckRoutes(log + [e]) == CheckRoutes(log)
    ensures Invocations(log + [e]) == Invocations(log)
    ensures Path(cfg, log + [e]) == Path(cfg, log)
  {
    assert (log + [e])[..|log|] == log;
  }

  /** A decision changes nothing but the number of decisions. */
  lemma DecisionKeepsLedger(cfg: Config, log: Log, e: Evidence)
    requires e.Decided?
    ensures LedgerOf(cfg, log + [e]) == LedgerOf(cfg, log).(decisions := DecisionCount(log) + 1)
  {
    hide SameProviderChanges, CrossProviderChanges, DegradedOn, Learned, Reassess;
    assert (log + [e])[..|log|] == log;
    OtherKeepsPath(cfg, log, e);
  }

  lemma PathStep(cfg: Config, rs: seq<Route>, r: Route)
    ensures SameProviderChanges(cfg, rs + [r]) == SameProviderChanges(cfg, rs)
              + (if rs != [] && Last(rs) != r && Provider(cfg, Last(rs)) == Provider(cfg, r) then 1 else 0)
    ensures CrossProviderChanges(cfg, rs + [r]) == CrossProviderChanges(cfg, rs)
              + (if rs != [] && Provider(cfg, Last(rs)) != Provider(cfg, r) then 1 else 0)
  {
    assert (rs + [r])[..|rs|] == rs;
  }

  lemma DegradedStep(health: map<Route, Health>, rs: seq<Route>, r: Route)
    ensures DegradedOn(health, rs + [r]) == DegradedOn(health, rs)[r := Degraded]
  {
    assert (rs + [r])[..|rs|] == rs;
  }

  lemma LedgerReads(cfg: Config, log: Log)
    ensures var led := LedgerOf(cfg, log);
            && led.history == Executions(log) && led.checks == |CheckRoutes(log)| && led.decisions == DecisionCount(log)
            && led.capabilities == CapabilitiesAfter(cfg, log)
            && (Path(cfg, log) == [] ==> led.current == cfg.initial)
  {
  }

  /** What a decision that holds at the head of the loop leaves in the log. */
  lemma DecisionIsJustified(cfg: Config, log: Log, led: Ledger, e: Evidence)
    requires cfg.Valid() && led == LedgerOf(cfg, log)
    requires Continues(cfg, log) && led.failure.recoverable && led.current in cfg.routes
    requires e.Decided? && e.context == ContextOf(cfg, led, e.context.remainingSeconds, Refs(log))
    requires DecisionHolds(cfg, led, e.decision, e.context, e.allowed)
    ensures Justified(cfg, log, e)
  {
    hide DecisionHolds, LedgerCandidates, LedgerOf, Continues;
  }

  lemma DecisionKeepsReadings(cfg: Config, log: Log, led: Ledger, e: Evidence)
    requires cfg.Valid() && led == LedgerOf(cfg, log) && e.Decided?
    ensures Blame(cfg, log + [e]) == Blame(cfg, log)
    ensures Invocations(log + [e]) == Invocations(log)
    ensures LedgerOf(cfg, log + [e]) == led.(decisions := led.decisions + 1)
  {
    hide Justified, LedgerOf;
    Append(cfg, log, e);
    DecisionKeepsLedger(cfg, log, e);
    LedgerReads(cfg, log);
  }

  lemma DecisionIsLawful(cfg: Config, log: Log, led: Ledger, e: Evidence)
    requires cfg.Valid() && Lawful(cfg, log) && led == LedgerOf(cfg, log)
    requires Continues(cfg, log) && led.failure.recoverable && led.current in cfg.routes
    requires e.Decided? && e.context == ContextOf(cfg, led, e.context.remainingSeconds, Refs(log))
    requires DecisionHolds(cfg, led, e.decision, e.context, e.allowed)
    ensures Lawful(cfg, log + [e])
    ensures Invocations(log + [e]) == Invocations(log)
    ensures LedgerOf(cfg, log + [e]) == led.(decisions := led.decisions + 1)
  {
    hide Justified, DecisionHolds, LedgerCandidates, LedgerOf, Continues, Blame;
    DecisionIsJustified(cfg, log, led, e);
    Append(cfg, log, e);
    DecisionKeepsReadings(cfg, log, led, e);
  }

  // ---- One attempt ----------------------------------------------------------------------

  /** The attempt is on the path whose changes spend the switch budgets. */
  predicate OnPath(cfg: Config, check: bool) {
    cfg.ordered || !check
  }

  /** The ledger at the moment of a call: the attempt is entered, nothing is learned yet. */
  function Embark(cfg: Config, led: Ledger, route: Route, check: bool): Ledger {
    var switched := OnPath(cfg, check) && led.current != route;
    var same := Provider(cfg, led.current) == Provider(cfg, route);
    led.(history := led.history + if check then [] else [route],
         checked := led.checked + if cfg.ordered && check then [route] else [],
         checks := led.checks + if check then 1 else 0,
         modelSwitches := led.modelSwitches + if switched && same then 1 else 0,
         providerSwitches := led.providerSwitches + if switched && !same then 1 else 0,
         current := if OnPath(cfg, check) then route else led.current,
         health := if OnPath(cfg, check) then led.health[route := Degraded] else led.health)
  }

  /** The ledger after one attempt, computed incrementally. */
  function Advance(cfg: Config, led: Ledger, route: Route, check: bool, closing: Closing): Ledger {
    Embark(cfg, led, route, check).(
         capabilities := if route in led.capabilities
                         then led.capabilities[route := Learned(cfg, led.capabilities[route], check, closing)]
                         else led.capabilities,
         failure := if closing.Fail? && OnPath(cfg, check) then Reassess(closing.failureClass, cfg.generated)
                    else led.failure)
  }

  /** What one attempt adds to the readings of the log. */
  lemma AttemptReadings(cfg: Config, log: Log, started: Evidence, completed: Evidence)
    requires started.Started? && completed.Completed?
    ensures var after := log + [started] + [completed];
            && Executions(after) == Executions(log) + (if started.check then [] else [started.route])
            && CheckRoutes(after) == CheckRoutes(log) + (if started.check then [started.route] else [])
            && DecisionCount(after) == DecisionCount(log)
            && Path(cfg, after)
               == (if OnPath(cfg, started.check) then Path(cfg, log) + [started.route] else Path(cfg, log))
  {
    var mid := log + [started];
    assert mid[..|log|] == log;
    assert (mid + [completed])[..|mid|] == mid;
    OtherKeepsPath(cfg, mid, completed);
    assert Executions(log) + [] == Executions(log) && CheckRoutes(log) + [] == CheckRoutes(log);
  }

  /** What one attempt teaches. */
  lemma AttemptTeaches(cfg: Config, log: Log, started: Evidence, completed: Evidence)
    requires started.Started? && completed.Completed?
    requires completed.route == started.route && completed.check == started.check
    ensures var (after, caps, route) := (log + [started] + [completed], CapabilitiesAfter(cfg, log), started.route);
            && CapabilitiesAfter(cfg, after) ==
                 (if route in caps then caps[route := Learned(cfg, caps[route], started.check, completed.closing)]
                  else caps)
            && FailureAfter(cfg, after) ==
                 (if completed.closing.Fail? && OnPath(cfg, started.check)
                  then Reassess(completed.closing.failureClass, cfg.generated) else FailureAfter(cfg, log))
  {
    hide Learned, Reassess;
    var mid := log + [started];
    assert mid[..|log|] == log;
    assert (mid + [completed])[..|mid|] == mid;
  }

  /** What one more route on the path does to the counters that are read from the path. */
  lemma PathAdvances(cfg: Config, path: seq<Route>, route: Route)
    requires path == [] ==> route == cfg.initial
    ensures var current := if path == [] then cfg.initial else Last(path);
            var same := Provider(cfg, current) == Provider(cfg, route);
            && SameProviderChanges(cfg, path + [route]) == SameProviderChanges(cfg, path)
               + (if current != route && same then 1 else 0)
            && CrossProviderChanges(cfg, path + [route]) == CrossProviderChanges(cfg, path)
               + (if current != route && !same then 1 else 0)
            && DegradedOn(cfg.health, path + [route]) == DegradedOn(cfg.health, path)[route := Degraded]
  {
    hide DegradedOn;
    PathStep(cfg, path, route);
    DegradedStep(cfg.health, path, route);
    ShortPath(cfg, path);
    ShortPath(cfg, path + [route]);
  }

  /** Updating the ledger attempt by attempt and reading it off the whole log come to the same. */
  lemma AttemptAdvancesLedger(cfg: Config, log: Log, started: Evidence, completed: Evidence)
    requires started.Started?
    requires completed.Completed? && completed.route == started.route && completed.check == started.check
    requires Path(cfg, log) == [] ==> started.route == cfg.initial && OnPath(cfg, started.check)
    ensures LedgerOf(cfg, log + [started] + [completed]) ==
            Advance(cfg, LedgerOf(cfg, log), started.route, started.check, completed.closing)
  {
    hide SameProviderChanges, CrossProviderChanges, DegradedOn, Learned, Reassess, Path, Executions, CheckRoutes,
         DecisionCount, CapabilitiesAfter, FailureAfter, Provider;
    AttemptReadings(cfg, log, started, completed);
    AttemptTeaches(cfg, log, started, completed);
    if OnPath(cfg, started.check) {
      PathAdvances(cfg, Path(cfg, log), started.route);
    }
  }

  lemma ShortPath(cfg: Config, rs: seq<Route>)
    ensures |rs| < 2 ==> SameProviderChanges(cfg, rs) == CrossProviderChanges(cfg, rs) == 0
  {
  }

  predicate MayStart(cfg: Config, log: Log, route: Route, check: bool) {
    if log == [] then Opens(cfg) && route == cfg.initial && !check else Orders(Last(log), route, check)
  }

  lemma StartIsLawful(cfg: Config, log: Log, started: Evidence)
    requires cfg.Valid() && Lawful(cfg, log)
    requires started.Started? && MayStart(cfg, log, started.route, started.check)
    requires started.number == NextNumber(cfg, log, started.check) <= MAX_ATTEMPT_NUMBER
    ensures Lawful(cfg, log + [started]) && Blame(cfg, log + [started]) == Blame(cfg, log)
    ensures Invocations(log + [started]) == Invocations(log) + [started.route]
  {
    assert Justified(cfg, log, started);
    Append(cfg, log, started);
  }

  lemma ClosingIsLawful(cfg: Config, log: Log, completed: Evidence)
    requires cfg.Valid() && Lawful(cfg, log) && log != []
    requires completed.Completed? && Last(log) == Started(completed.number, completed.route, completed.check)
    ensures Lawful(cfg, log + [completed])
    ensures Blame(cfg, log + [completed]) == if completed.closing.Fail?
              then (completed.route, Some(completed.closing.failureClass)) else Blame(cfg, log)
    ensures Invocations(log + [completed]) == Invocations(log)
  {
    assert Justified(cfg, log, completed);
    Append(cfg, log, completed);
  }

  /** A prefix of a lawful log is lawful, and each of its records was justified when it was appended. */
  lemma LawfulPrefix(cfg: Config, log: Log, i: nat)
    requires cfg.Valid() && Lawful(cfg, log) && i <= |log|
    ensures Lawful(cfg, log[..i])
    ensures i < |log| ==> Justified(cfg, log[..i], log[i])
  {
    hide Justified;
    if i < |log| - 1 {
      LawfulPrefix(cfg, log[..|log| - 1], i);
      assert log[..|log| - 1][..i] == log[..i];
    } else if i == |log| {
      assert log[..i] == log;
    }
  }
}

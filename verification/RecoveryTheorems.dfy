/** Safety of every lawful recovery log, for any supervisor, any provider outcomes and any clock. */
module RecoveryTheorems {
  import opened Wrappers
  import opened RecoveryDomain
  import opened RecoveryPolicy
  import opened RecoveryLog

  // ---- One record at a time -------------------------------------------------------------

  /** The part of `Justified` that does not look into contexts. */
  predicate Follows(cfg: Config, prefix: Log, e: Evidence) {
    match e
    case Started(number, route, check) =>
      && number == NextNumber(cfg, prefix, check) <= MAX_ATTEMPT_NUMBER
      && (if prefix == [] then Opens(cfg) && route == cfg.initial && !check else Orders(Last(prefix), route, check))
    case Completed(number, route, check, _) => prefix != [] && Last(prefix) == Started(number, route, check)
    case Decided(d, _, _) =>
      && prefix != [] && Last(prefix).Completed?
      && (DecisionCount(prefix) < cfg.budget.maxDecisions || Fails(d))
    case Terminal(_, _, _) => prefix == [] || Last(prefix).Completed? || Last(prefix).Decided?
  }

  lemma JustifiedFollows(cfg: Config, prefix: Log, e: Evidence)
    requires cfg.Valid() && Justified(cfg, prefix, e)
    ensures Follows(cfg, prefix, e)
  {
    hide LedgerCandidates, PolicyAllows;
  }

  lemma Unappend(cfg: Config, log: Log) returns (prefix: Log, e: Evidence)
    requires cfg.Valid() && Lawful(cfg, log) && log != []
    ensures prefix == log[..|log| - 1] && e == Last(log) && log == prefix + [e]
    ensures Lawful(cfg, prefix) && Follows(cfg, prefix, e)
    ensures Executions(log) == Executions(prefix) + (if e.Started? && !e.check then [e.route] else [])
    ensures CheckRoutes(log) == CheckRoutes(prefix) + (if e.Started? && e.check then [e.route] else [])
    ensures Invocations(log) == Invocations(prefix) + (if e.Started? then [e.route] else [])
    ensures DecisionCount(log) == DecisionCount(prefix) + (if e.Decided? then 1 else 0)
  {
    hide Justified;
    prefix, e := log[..|log| - 1], Last(log);
    JustifiedFollows(cfg, prefix, e);
  }

  // ---- What an allowed decision guarantees about the invocation it orders ---------------

  /** What the gate guarantees about the invocation of `route`, in terms of the ledger. */
  predicate Affordable(cfg: Config, led: Ledger, route: Route, check: bool) {
    && route in cfg.routes && route in cfg.registry && cfg.registry[route].authority
    && route in led.capabilities
    && (if check then led.capabilities[route] in {Unknown, Candidacy} else led.capabilities[route] == Verified)
    && |led.history| < cfg.budget.maxAttempts
    && (check ==> led.checks < cfg.budget.maxChecks)
    && Count(route, UsesOf(cfg, led)) < cfg.budget.maxSameRoute
    && !SwitchSpent(route, Provider(cfg, route), led.current, Provider(cfg, led.current),
                    led.modelSwitches, led.providerSwitches, cfg.budget)
  }

  /** Every lawful log that is not just a terminal record began with one execution. */
  lemma StartsWithExecution(cfg: Config, log: Log)
    requires cfg.Valid() && Lawful(cfg, log) && log != []
    ensures log[0].Started? || (|log| == 1 && log[0].Terminal?)
    ensures log[0].Started? ==> Executions(log) != [] && Invocations(log) != []
                                && Executions(log)[0] == cfg.initial && Invocations(log)[0] == cfg.initial
                                && Opens(cfg)
    ensures log[0].Started? && |log| > 1 ==> Lawful(cfg, log[..|log| - 1]) && log[..|log| - 1] != []
  {
    var prefix := log[..|log| - 1];
    if prefix == [] {
    } else {
      StartsWithExecution(cfg, prefix);
    }
  }

  lemma AllowedDecisionPassedTheGate(cfg: Config, prefix: Log, e: Evidence)
    requires cfg.Valid() && Justified(cfg, prefix, e)
    requires e.Decided? && e.allowed && Invokes(e.decision.action)
    ensures var led := LedgerOf(cfg, prefix);
            && BuiltFrom(cfg, led, e.context)
            && PolicyAllows(e.decision, e.context, cfg.budget, led.modelSwitches, led.providerSwitches, None)
  {
    hide LedgerCandidates, PolicyAllows;
  }

  lemma GateMeansAffordable(cfg: Config, led: Ledger, ctx: Context, d: Decision)
    requires BuiltFrom(cfg, led, ctx) && Invokes(d.action)
    requires PolicyAllows(d, ctx, cfg.budget, led.modelSwitches, led.providerSwitches, None)
    requires forall r :: r in cfg.routes ==> r in led.capabilities
    ensures d.target.Some? && Affordable(cfg, led, d.target.value, d.action == CapabilityCheck)
  {
    hide LedgerCandidates;
    AllowedIsUsable(cfg, led, ctx, d);
    CandidateAt(cfg, led, Find(ctx.candidates, d.target).value);
  }

  /** The action names the kind of change between the current route and the target. */
  lemma ActionMatchesChange(cfg: Config, led: Ledger, ctx: Context, d: Decision)
    requires BuiltFrom(cfg, led, ctx) && !Fails(d)
    requires PolicyAllows(d, ctx, cfg.budget, led.modelSwitches, led.providerSwitches, None)
    ensures Invokes(d.action) && d.target.Some? && d.target.value in cfg.routes
    ensures var same := Provider(cfg, d.target.value) == Provider(cfg, led.current);
            && (d.action == RetrySameRoute ==> d.target.value == led.current)
            && (d.action == SwitchModel ==> d.target.value != led.current && same)
            && (d.action == SwitchProvider ==> !same)
  {
    hide LedgerCandidates;
    AllowedIsUsable(cfg, led, ctx, d);
    FoundIsAt(cfg, led, led.current);
    CandidateAt(cfg, led, Find(ctx.candidates, d.target).value);
    CandidateAt(cfg, led, Find(ctx.candidates, Some(led.current)).value);
  }

  lemma KnowsEveryRoute(cfg: Config, log: Log)
    requires cfg.Valid()
    ensures forall r :: r in cfg.routes ==> r in LedgerOf(cfg, log).capabilities
  {
  }

  lemma OrderedRouteIsAffordable(cfg: Config, log: Log, route: Route, check: bool)
    requires cfg.Valid() && Lawful(cfg, log) && log != [] && Orders(Last(log), route, check)
    ensures Affordable(cfg, LedgerOf(cfg, log), route, check)
    ensures Path(cfg, log) != []
  {
    hide Justified, PolicyAllows, BuiltFrom, LedgerOf;
    var prefix, e := Unappend(cfg, log);
    AllowedDecisionPassedTheGate(cfg, prefix, e);
    StartsWithExecution(cfg, log);
    var led := LedgerOf(cfg, prefix);
    KnowsEveryRoute(cfg, prefix);
    GateMeansAffordable(cfg, led, e.context, e.decision);
    DecisionKeepsLedger(cfg, prefix, e);
  }

  // ---- Budgets --------------------------------------------------------------------------

  ghost predicate WithinBudget(cfg: Config, led: Ledger) {
    && |led.history| <= cfg.budget.maxAttempts
    && led.checks <= cfg.budget.maxChecks
    && led.modelSwitches <= cfg.budget.maxModelFallbacks
    && led.providerSwitches <= cfg.budget.maxProviderSwitches
    && forall r :: Count(r, UsesOf(cfg, led)) <= cfg.budget.maxSameRoute
  }

  /** What one more start adds to the readings of the log. */
  lemma StartReadings(cfg: Config, log: Log, e: Evidence)
    requires e.Started?
    ensures Executions(log + [e]) == Executions(log) + (if e.check then [] else [e.route])
    ensures CheckRoutes(log + [e]) == CheckRoutes(log) + (if e.check then [e.route] else [])
    ensures Path(cfg, log + [e]) == if OnPath(cfg, e.check) then Path(cfg, log) + [e.route] else Path(cfg, log)
  {
    assert (log + [e])[..|log|] == log;
    assert Executions(log) + [] == Executions(log) && CheckRoutes(log) + [] == CheckRoutes(log);
  }

  lemma StartUses(cfg: Config, log: Log, e: Evidence)
    requires e.Started?
    ensures forall r :: Count(r, UsesOf(cfg, LedgerOf(cfg, log + [e]))) ==
                        Count(r, UsesOf(cfg, LedgerOf(cfg, log)))
                        + if r == e.route && OnPath(cfg, e.check) then 1 else 0
  {
    hide Executions, CheckRoutes, Path, SameProviderChanges, CrossProviderChanges, CapabilitiesAfter, FailureAfter,
         DegradedOn, Count;
    StartReadings(cfg, log, e);
    UsesStep(cfg, Executions(log), CheckRoutes(log), e.route);
    assert Executions(log) + [] == Executions(log) && CheckRoutes(log) + [] == CheckRoutes(log);
  }

  /** The ledger after one more start. */
  lemma StartStep(cfg: Config, log: Log, e: Evidence)
    requires e.Started?
    ensures var led, next := LedgerOf(cfg, log), LedgerOf(cfg, log + [e]);
            && |next.history| == |led.history| + (if e.check then 0 else 1)
            && next.checks == led.checks + (if e.check then 1 else 0)
            && (forall r :: Count(r, UsesOf(cfg, next)) ==
                            Count(r, UsesOf(cfg, led)) + if r == e.route && (cfg.ordered || !e.check) then 1 else 0)
            && (Path(cfg, log) == [] ==> next.modelSwitches == next.providerSwitches == 0)
            && (Path(cfg, log) != [] ==>
                  var switched := (cfg.ordered || !e.check) && led.current != e.route;
                  var same := Provider(cfg, led.current) == Provider(cfg, e.route);
                  && next.modelSwitches == led.modelSwitches + (if switched && same then 1 else 0)
                  && next.providerSwitches == led.providerSwitches + (if switched && !same then 1 else 0))
  {
    hide SameProviderChanges, CrossProviderChanges, CapabilitiesAfter, FailureAfter, DegradedOn, Executions,
         CheckRoutes, Path, Count, UsesOf, Provider;
    StartReadings(cfg, log, e);
    StartUses(cfg, log, e);
    if Path(cfg, log) == [] {
      ShortPath(cfg, Path(cfg, log + [e]));
    } else if OnPath(cfg, e.check) {
      PathAdvances(cfg, Path(cfg, log), e.route);
    }
  }

  lemma UsesStep(cfg: Config, x: seq<Route>, c: seq<Route>, route: Route)
    ensures forall r :: Count(r, x + [route]) == Count(r, x) + if r == route then 1 else 0
    ensures forall r :: Count(r, (x + [route]) + c) == Count(r, x + c) + if r == route then 1 else 0
    ensures forall r :: Count(r, x + (c + [route])) == Count(r, x + c) + if r == route then 1 else 0
  {
  }

  /** An affordable start leaves every budget in balance. */
  lemma StartKeepsBudget(cfg: Config, log: Log, e: Evidence)
    requires e.Started? && cfg.budget.maxAttempts >= 1 && cfg.budget.maxSameRoute >= 1
    requires WithinBudget(cfg, LedgerOf(cfg, log))
    requires if log == [] then !e.check
             else Path(cfg, log) != [] && Affordable(cfg, LedgerOf(cfg, log), e.route, e.check)
    ensures WithinBudget(cfg, LedgerOf(cfg, log + [e]))
  {
    hide LedgerOf, UsesOf, Count, Path;
    StartStep(cfg, log, e);
    if log == [] {
      NothingSpent(cfg);
    }
  }

  /** For any supervisor, no budget is ever overdrawn. */
  lemma {:induction false} BudgetsHold(cfg: Config, log: Log)
    requires cfg.Valid() && Lawful(cfg, log)
    requires cfg.budget.maxAttempts >= 1 && cfg.budget.maxSameRoute >= 1
    ensures WithinBudget(cfg, LedgerOf(cfg, log))
  {
    hide Justified, LedgerOf, Lawful, Affordable, UsesOf, Count;
    if log == [] {
      NothingSpent(cfg);
    } else {
      var prefix, e := Unappend(cfg, log);
      BudgetsHold(cfg, prefix);
      if e.Started? {
        if prefix != [] {
          OrderedRouteIsAffordable(cfg, prefix, e.route, e.check);
        }
        StartKeepsBudget(cfg, prefix, e);
      } else {
        OtherStep(cfg, prefix, e);
      }
    }
  }

  lemma NothingSpent(cfg: Config)
    ensures var led := LedgerOf(cfg, []);
            && led.history == led.checked == [] && led.checks == led.modelSwitches == led.providerSwitches == 0
            && Path(cfg, []) == []
            && forall r :: Count(r, UsesOf(cfg, led)) == 0
  {
  }

  lemma OtherStep(cfg: Config, log: Log, e: Evidence)
    requires !e.Started?
    ensures var led, next := LedgerOf(cfg, log), LedgerOf(cfg, log + [e]);
            && next.history == led.history && next.checked == led.checked && next.checks == led.checks
            && next.modelSwitches == led.modelSwitches && next.providerSwitches == led.providerSwitches
            && next.current == led.current && next.health == led.health
            && UsesOf(cfg, next) == UsesOf(cfg, led)
  {
    hide SameProviderChanges, CrossProviderChanges, CapabilitiesAfter, FailureAfter, DegradedOn;
    OtherKeepsPath(cfg, log, e);
  }

  /** In normal mode a substituted check is consumed as the answer and joins the history without a
      switch being counted; the history still stays within every budget. */
  lemma ConsumedCheckStaysWithinBudget(cfg: Config, log: Log, route: Route)
    requires cfg.Valid() && Lawful(cfg, log) && !cfg.ordered
    requires log != [] && Orders(Last(log), route, true)
    requires cfg.budget.maxAttempts >= 1 && cfg.budget.maxSameRoute >= 1
    ensures var history := Executions(log) + [route];
            && |history| <= cfg.budget.maxAttempts
            && SameProviderChanges(cfg, history) <= cfg.budget.maxModelFallbacks
            && CrossProviderChanges(cfg, history) <= cfg.budget.maxProviderSwitches
            && forall r :: Count(r, history) <= cfg.budget.maxSameRoute
  {
    hide Justified;
    BudgetsHold(cfg, log);
    OrderedRouteIsAffordable(cfg, log, route, true);
    PathStep(cfg, Executions(log), route);
    UsesStep(cfg, Executions(log), [], route);
  }

  // ---- Calls and decisions --------------------------------------------------------------

  /** Provider calls are exactly the executions and the checks. */
  lemma {:induction false} CallsAreExecutionsAndChecks(log: Log)
    ensures |Invocations(log)| == |Executions(log)| + |CheckRoutes(log)|
    ensures multiset(Invocations(log)) == multiset(Executions(log)) + multiset(CheckRoutes(log))
  {
    if log != [] {
      CallsAreExecutionsAndChecks(log[..|log| - 1]);
    }
  }

  /** Each call after the first was paid for by its own decision, and decisions are bounded: a run
      makes at most one call more than it may decide. */
  lemma {:induction false} CallsAreBounded(cfg: Config, log: Log)
    requires cfg.Valid() && Lawful(cfg, log)
    ensures |Invocations(log)| <= 1 + DecisionCount(log)
    ensures |Invocations(log)| <= 1 + cfg.budget.maxDecisions
    ensures log != [] && Last(log).Decided? ==> |Invocations(log)| <= DecisionCount(log)
    ensures log != [] && Last(log).Decided? && !Fails(Last(log).decision) ==>
              DecisionCount(log) <= cfg.budget.maxDecisions
  {
    hide Justified;
    if log != [] {
      var prefix, e := Unappend(cfg, log);
      CallsAreBounded(cfg, prefix);
    }
  }

  // ---- Capability safety ----------------------------------------------------------------

  /** Who may be invoked: a governed route with authority; first the initial route, which is neither
      quarantined nor unsupported, later only routes verified at that moment, and checks only on
      routes about which nothing is known yet. */
  lemma EveryInvocationIsGoverned(cfg: Config, log: Log, i: nat)
    requires cfg.Valid() && Lawful(cfg, log) && i < |log| && log[i].Started?
    ensures var route, caps := log[i].route, CapabilitiesAfter(cfg, log[..i]);
            && route in cfg.routes && cfg.registry[route].authority
            && route in caps && caps[route] !in {Quarantined, Unsupported}
            && (i > 0 && !log[i].check ==> caps[route] == Verified)
            && (log[i].check ==> i > 0 && caps[route] in {Unknown, Candidacy})
  {
    hide Justified, Lawful, LedgerOf;
    LawfulPrefix(cfg, log, i);
    JustifiedFollows(cfg, log[..i], log[i]);
    if i > 0 {
      OrderedRouteIsAffordable(cfg, log[..i], log[i].route, log[i].check);
      LedgerReads(cfg, log[..i]);
    } else {
      assert log[..0] == [];
    }
  }

  /** Whatever the supervisor, a decision that is allowed is about this execution and refers to records that
      its context named, all of them earlier ones of this log. */
  lemma AllowedDecisionsStayInScope(cfg: Config, log: Log, i: nat)
    requires cfg.Valid() && Lawful(cfg, log) && i < |log| && log[i].Decided? && log[i].allowed
    ensures log[i].decision.scope == cfg.scope && forall r :: r in log[i].decision.refs ==> r < i
  {
    hide Justified, Lawful, LedgerOf;
    LawfulPrefix(cfg, log, i);
    JustifiedFollows(cfg, log[..i], log[i]);
    DecisionStaysInScope(cfg, log[..i], log[i]);
  }

  lemma DecisionStaysInScope(cfg: Config, log: Log, e: Evidence)
    requires cfg.Valid() && Justified(cfg, log, e) && e.Decided? && e.allowed
    ensures e.decision.scope == cfg.scope && forall r :: r in e.decision.refs ==> r < |log|
  {
    hide LedgerOf, LedgerCandidates;
    assert forall r :: r in Refs(log) ==> r < |log|;
    assert forall r :: r in e.decision.refs ==> r in e.context.refs;
  }

  /** One record changes the knowledge about its own route only, and a route becomes verified only by
      a check of that same route that passed without substitution. */
  lemma VerifiedIsEarned(cfg: Config, log: Log, i: nat, r: Route)
    requires cfg.Valid() && Lawful(cfg, log) && i < |log| && r in cfg.capabilities
    requires CapabilitiesAfter(cfg, log[..i])[r] != CapabilitiesAfter(cfg, log[..i + 1])[r]
    ensures log[i].Completed? && log[i].route == r
    ensures CapabilitiesAfter(cfg, log[..i + 1])[r] == Verified ==> log[i].check && log[i].closing == Pass(false)
  {
    assert log[..i + 1][..i] == log[..i];
  }

  /** Closing an attempt never lifts a quarantine, because a quarantined route is not attempted. */
  lemma {:induction false} QuarantineIsFinal(cfg: Config, log: Log, i: nat, r: Route)
    requires cfg.Valid() && Lawful(cfg, log) && i <= |log| && r in cfg.capabilities
    requires CapabilitiesAfter(cfg, log[..i])[r] == Quarantined
    ensures CapabilitiesAfter(cfg, log)[r] == Quarantined
    ensures forall j :: i <= j < |log| && log[j].Started? ==> log[j].route != r
    decreases |log| - i
  {
    hide Justified;
    if i == |log| {
      assert log[..i] == log;
    } else {
      LawfulPrefix(cfg, log, i);
      assert log[..i + 1][..i] == log[..i];
      if log[i].Started? {
        EveryInvocationIsGoverned(cfg, log, i);
      }
      if log[i].Completed? && log[i].route == r {
        // The attempt was started one record earlier, on a route that was not quarantined.
        JustifiedFollows(cfg, log[..i], log[i]);
        assert log[..i][i - 1] == log[i - 1] == Started(log[i].number, r, log[i].check);
        assert log[..i][..i - 1] == log[..i - 1];
        EveryInvocationIsGoverned(cfg, log, i - 1);
      }
      QuarantineIsFinal(cfg, log, i + 1, r);
    }
  }

  // ---- Shape of the log -----------------------------------------------------------------

  function Body(log: Log): Log {
    if log != [] && Last(log).Terminal? then log[..|log| - 1] else log
  }

  /** Records come in turn: a start, its completion, the decision on it; every start after the first
      is on the route that an allowed decision named. */
  ghost predicate InTurn(body: Log) {
    forall i :: 0 <= i < |body| ==> TurnAt(body, i)
  }

  ghost predicate TurnAt(body: Log, i: nat)
    requires i < |body|
  {
    if i % 3 == 0 then body[i].Started? && (i > 0 ==> Orders(body[i - 1], body[i].route, body[i].check))
    else if i % 3 == 1 then body[i].Completed? && body[i - 1] == Started(body[i].number, body[i].route, body[i].check)
    else body[i].Decided?
  }

  lemma TurnStep(cfg: Config, prefix: Log, e: Evidence)
    requires InTurn(prefix) && Follows(cfg, prefix, e)
    ensures !e.Terminal? ==> InTurn(prefix + [e])
    ensures e.Terminal? ==> |prefix| % 3 != 1
  {
    var n, body := |prefix|, prefix + [e];
    if n > 0 {
      assert TurnAt(prefix, n - 1);
      assert prefix[n - 1] == Last(prefix);
      assert n % 3 == if (n - 1) % 3 == 2 then 0 else (n - 1) % 3 + 1;
    }
    if !e.Terminal? {
      assert TurnAt(body, n);
      forall i | 0 <= i < n ensures TurnAt(body, i) {
        assert TurnAt(prefix, i);
      }
    }
  }

  lemma {:induction false} LogShape(cfg: Config, log: Log)
    requires cfg.Valid() && Lawful(cfg, log)
    ensures InTurn(Body(log))
    ensures log != [] && Last(log).Terminal? ==> |Body(log)| % 3 != 1
  {
    hide Justified;
    if log != [] {
      var prefix, e := Unappend(cfg, log);
      LogShape(cfg, prefix);
      assert Body(prefix) == prefix;
      TurnStep(cfg, prefix, e);
    }
  }

  // ---- Attempt numbers ------------------------------------------------------------------

  /** The row that the single-entry index guards is the first record of a run and no other. */
  predicate IsEntry(e: Evidence) {
    e.Started? && e.number == 1 && !e.check
  }

  lemma LaterNumbers(cfg: Config, log: Log, e: Evidence)
    requires cfg.Valid() && Lawful(cfg, log) && log != [] && Follows(cfg, log, e)
    ensures !IsEntry(e)
  {
    hide Justified, Lawful, LedgerOf;
    StartsWithExecution(cfg, log);
  }

  lemma OnlyTheFirstRecordIsEntry(cfg: Config, log: Log, i: nat)
    requires cfg.Valid() && Lawful(cfg, log) && i < |log|
    ensures IsEntry(log[i]) <==> i == 0 && log[i].Started?
  {
    hide Justified, Lawful;
    LawfulPrefix(cfg, log, i);
    JustifiedFollows(cfg, log[..i], log[i]);
    if i == 0 {
      assert log[..0] == [];
    } else {
      LaterNumbers(cfg, log[..i], log[i]);
    }
  }

  /** With the record's own field bounds, the normal mode never numbers an attempt beyond what an
      evidence row takes, and neither does an ordered walk that uses each of at most four routes once. */
  lemma NumberFitsTheRow(cfg: Config, log: Log, route: Route, check: bool)
    requires cfg.Valid() && Lawful(cfg, log) && log != [] && Orders(Last(log), route, check)
    requires WithinFieldBounds(cfg.budget) && |cfg.routes| <= 4
    requires cfg.ordered ==> cfg.budget.maxSameRoute == 1
    ensures NextNumber(cfg, log, check) <= MAX_ATTEMPT_NUMBER
  {
    hide Justified;
    OrderedRouteIsAffordable(cfg, log, route, check);
    if cfg.ordered {
      BudgetsHold(cfg, log);
      CallsAreUses(cfg, log);
      InvokedRoutesAreGoverned(cfg, log);
      UsesStep(cfg, Invocations(log), [], route);
      DistinctFit(Invocations(log) + [route], cfg.routes);
    }
  }

  lemma CallsAreUses(cfg: Config, log: Log)
    requires cfg.ordered
    ensures forall r :: Count(r, Invocations(log)) == Count(r, UsesOf(cfg, LedgerOf(cfg, log)))
  {
    CallsAreExecutionsAndChecks(log);
    assert multiset(Executions(log) + CheckRoutes(log)) == multiset(Executions(log)) + multiset(CheckRoutes(log));
  }

  lemma InvokedRoutesAreGoverned(cfg: Config, log: Log)
    requires cfg.Valid() && Lawful(cfg, log)
    ensures forall r :: r in Invocations(log) ==> r in cfg.routes
    ensures forall r :: r in Executions(log) ==> r in cfg.routes
  {
    if log != [] {
      InvokedRoutesAreGoverned(cfg, log[..|log| - 1]);
      if Last(log).Started? {
        EveryInvocationIsGoverned(cfg, log, |log| - 1);
      }
    }
  }

  /** A sequence without repetition over the elements of another is no longer than it. */
  lemma DistinctFit(xs: seq<Route>, ys: seq<Route>)
    requires forall r :: r in xs ==> r in ys
    requires forall r :: Count(r, xs) <= 1
    ensures |xs| <= |ys|
  {
    if xs != [] {
      var x := xs[0];
      assert xs == [x] + xs[1..];
      assert x in ys;
      var k :| 0 <= k < |ys| && ys[k] == x;
      var rest := ys[..k] + ys[k + 1..];
      assert multiset(xs) == multiset{x} + multiset(xs[1..]);
      forall r | r in xs[1..] ensures r in rest && Count(r, xs[1..]) <= 1 {
        assert r in multiset(xs[1..]);
        assert Count(r, xs) <= 1;
        assert r != x;
        assert r in xs && r in ys;
        var j :| 0 <= j < |ys| && ys[j] == r;
        assert r == if j < k then rest[j] else rest[j - 1];
      }
      assert forall r :: Count(r, xs[1..]) <= 1;
      DistinctFit(xs[1..], rest);
    }
  }
}

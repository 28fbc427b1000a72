/** How much room the gate leaves, exactly, and a run that the evidence rows cannot hold. */
module RecoveryLimits {
  import opened Wrappers
  import opened RecoveryDomain
  import opened RecoveryPolicy
  import opened RecoveryLog
  import opened RecoveryTheorems

  /** Some proposal for this invocation passes the gate. */
  ghost predicate CanBeOrdered(cfg: Config, led: Ledger, ctx: Context, route: Route, check: bool) {
    exists d: Decision ::
      && PolicyAllows(d, ctx, cfg.budget, led.modelSwitches, led.providerSwitches, None)
      && !Fails(d) && d.target == Some(route) && check == (d.action == CapabilityCheck)
  }

  function OrderFor(cfg: Config, led: Ledger, ctx: Context, route: Route, check: bool): Decision {
    Decision(ctx.scope,
             if check then CapabilityCheck
             else if route == led.current then RetrySameRoute
             else if Provider(cfg, route) == Provider(cfg, led.current) then SwitchModel
             else SwitchProvider,
             Some(route), NextGovernedRoute, ctx.refs)
  }

  lemma AffordableIsAllowed(cfg: Config, led: Ledger, ctx: Context, route: Route, check: bool)
    requires BuiltFrom(cfg, led, ctx) && cfg.budget.maxCost.None?
    requires ctx.failure.recoverable && !Spent(ctx)
    requires Affordable(cfg, led, route, check) && HealthOf(led.health, route) != Unavailable
    ensures PolicyAllows(OrderFor(cfg, led, ctx, route, check), ctx, cfg.budget, led.modelSwitches,
                         led.providerSwitches, None)
  {
    hide LedgerCandidates, PolicyAllows;
    FoundIsAt(cfg, led, route);
    FoundIsAt(cfg, led, led.current);
    var c, current := Find(ctx.candidates, Some(route)).value, Find(ctx.candidates, Some(led.current)).value;
    CandidateAt(cfg, led, c);
    CandidateAt(cfg, led, current);
    UsableIsAllowed(cfg, led, ctx, OrderFor(cfg, led, ctx, route, check), c, current);
  }

  /** The gate opens for an invocation exactly when the failure is recoverable, attempts, decisions and
      time are left, the route is governed, has authority, has the required capability and is not
      unavailable, and the check, same-route and switch budgets can pay for it. */
  lemma GateOpensExactlyForAffordable(cfg: Config, led: Ledger, ctx: Context, route: Route, check: bool)
    requires BuiltFrom(cfg, led, ctx) && cfg.budget.maxCost.None?
    requires forall r :: r in cfg.routes ==> r in led.capabilities
    ensures CanBeOrdered(cfg, led, ctx, route, check) <==>
            && ctx.failure.recoverable && !Spent(ctx)
            && Affordable(cfg, led, route, check) && HealthOf(led.health, route) != Unavailable
  {
    hide LedgerCandidates, PolicyAllows;
    if CanBeOrdered(cfg, led, ctx, route, check) {
      var d: Decision :|
        && PolicyAllows(d, ctx, cfg.budget, led.modelSwitches, led.providerSwitches, None)
        && !Fails(d) && d.target == Some(route) && check == (d.action == CapabilityCheck);
      ActionMatchesChange(cfg, led, ctx, d);
      GateMeansAffordable(cfg, led, ctx, d);
      AllowedIsUsable(cfg, led, ctx, d);
      CandidateAt(cfg, led, Find(ctx.candidates, d.target).value);
    }
    if ctx.failure.recoverable && !Spent(ctx) && Affordable(cfg, led, route, check)
       && HealthOf(led.health, route) != Unavailable {
      AffordableIsAllowed(cfg, led, ctx, route, check);
      var d := OrderFor(cfg, led, ctx, route, check);
      assert !Fails(d) && d.target == Some(route) && check == (d.action == CapabilityCheck);
    }
  }

  // ---- A run that outgrows its rows -----------------------------------------------------

  const TIMEOUT := Fail(ReadTimeout)

  /** A log can be continued by ordering any affordable invocation. */
  lemma OrderNext(cfg: Config, log: Log, route: Route, check: bool) returns (ordered: Log)
    requires cfg.Valid() && Lawful(cfg, log) && Continues(cfg, log) && cfg.budget.maxCost.None?
    requires var led := LedgerOf(cfg, log);
             && led.failure.recoverable && led.current in cfg.routes
             && |led.history| < cfg.budget.maxAttempts && led.decisions < cfg.budget.maxDecisions
             && Affordable(cfg, led, route, check) && HealthOf(led.health, route) != Unavailable
    ensures Lawful(cfg, ordered) && ordered != [] && Orders(Last(ordered), route, check)
    ensures LedgerOf(cfg, ordered) == LedgerOf(cfg, log).(decisions := LedgerOf(cfg, log).decisions + 1)
    ensures Invocations(ordered) == Invocations(log)
  {
    hide LedgerCandidates, PolicyAllows, Lawful, Continues, LedgerOf, Affordable, Blame;
    var led := LedgerOf(cfg, log);
    var ctx := ContextOf(cfg, led, 1.0, Refs(log));
    AffordableIsAllowed(cfg, led, ctx, route, check);
    var d := OrderFor(cfg, led, ctx, route, check);
    AllowedIsUsable(cfg, led, ctx, d);
    assert Usable(Find(ctx.candidates, d.target).value);
    DecisionIsLawful(cfg, log, led, Decided(d, ctx, true));
    ordered := log + [Decided(d, ctx, true)];
  }

  /** An ordered attempt may time out at the provider, which leaves the run going. */
  lemma AttemptNext(cfg: Config, log: Log, route: Route, check: bool) returns (after: Log)
    requires cfg.Valid() && Lawful(cfg, log) && MayStart(cfg, log, route, check)
    requires NextNumber(cfg, log, check) <= MAX_ATTEMPT_NUMBER
    requires Path(cfg, log) == [] ==> route == cfg.initial && OnPath(cfg, check)
    ensures Lawful(cfg, after) && Continues(cfg, after)
    ensures LedgerOf(cfg, after) == Advance(cfg, LedgerOf(cfg, log), route, check, TIMEOUT)
    ensures Invocations(after) == Invocations(log) + [route]
  {
    hide Justified, LedgerOf, Advance;
    var started := Started(NextNumber(cfg, log, check), route, check);
    var completed := Completed(started.number, route, check, TIMEOUT);
    StartIsLawful(cfg, log, started);
    ClosingIsLawful(cfg, log + [started], completed);
    AttemptAdvancesLedger(cfg, log, started, completed);
    after := log + [started] + [completed];
    assert Continues(cfg, after) by { hide *; assert Last(after) == completed; }
  }

  /** An allowed decision orders an attempt whose number no evidence row takes. */
  ghost predicate Outgrows(cfg: Config, log: Log, route: Route, check: bool) {
    && cfg.Valid() && |cfg.routes| <= 4
    && Lawful(cfg, log) && log != [] && Orders(Last(log), route, check)
    && NextNumber(cfg, log, check) > MAX_ATTEMPT_NUMBER
  }

  /** Room for five invocations in an ordered walk. */
  predicate RoomForFive(b: Budget) {
    && b.maxCost.None? && b.maxSameRoute == 2 && b.maxDecisions >= 4
    && b.maxAttempts + b.maxChecks >= 5
    && b.maxModelFallbacks + b.maxProviderSwitches >= 2
  }

  // A run that outgrows its rows needs the room.

  lemma {:induction false} ChangesReachRoutes(cfg: Config, rs: seq<Route>)
    requires rs != []
    ensures |set r | r in rs| <= 1 + SameProviderChanges(cfg, rs) + CrossProviderChanges(cfg, rs)
  {
    var init := rs[..|rs| - 1];
    if init == [] {
      assert (set r | r in rs) == {rs[0]};
    } else {
      ChangesReachRoutes(cfg, init);
      assert rs == init + [Last(rs)];
      assert (set r | r in rs) == (set r | r in init) + {Last(rs)};
      if Last(init) == Last(rs) {
        assert (set r | r in rs) == (set r | r in init);
      }
    }
  }

  /** With at most two uses of each route, there are at least half as many routes as uses. */
  lemma {:induction false} UsesPerRoute(rs: seq<Route>, routes: set<Route>)
    requires forall r :: r in rs ==> r in routes
    requires forall r :: Count(r, rs) <= 2
    ensures |rs| <= 2 * |routes|
    decreases |routes|
  {
    if rs != [] {
      var x, m := rs[0], multiset(rs);
      assert x in rs;
      var rest := Without(rs, x);
      UsesPerRoute(rest, routes - {x});
      assert Count(x, rs) <= 2;
    }
  }

  lemma {:induction false} Without(rs: seq<Route>, x: Route) returns (rest: seq<Route>)
    ensures |rest| + Count(x, rs) == |rs|
    ensures forall r :: r in rest ==> r in rs && r != x
    ensures forall r :: r != x ==> Count(r, rest) == Count(r, rs)
  {
    if rs == [] {
      rest := [];
    } else {
      var tail := Without(rs[1..], x);
      rest := if rs[0] == x then tail else [rs[0]] + tail;
      assert rs == [rs[0]] + rs[1..];
      forall r | r in rest ensures r in rs && r != x {
        assert r == rs[0] || r in tail;
      }
    }
  }

  lemma OutgrowingNeedsRoom(cfg: Config, log: Log, route: Route, check: bool)
    requires Outgrows(cfg, log, route, check) && WithinFieldBounds(cfg.budget)
    ensures cfg.ordered && RoomForFive(cfg.budget)
  {
    hide Justified, Lawful, LedgerOf;
    if !cfg.ordered || cfg.budget.maxSameRoute == 1 {
      NumberFitsTheRow(cfg, log, route, check);
    }
    OrderedRouteIsAffordable(cfg, log, route, check);
    LedgerReads(cfg, log);
    BudgetsHold(cfg, log);
    CallsAreExecutionsAndChecks(log);
    CallsAreBounded(cfg, log);
    StartsWithExecution(cfg, log);
    var five := Invocations(log) + [route];
    FivePathIsPaid(cfg, log, route, check);
    ChangesReachRoutes(cfg, five);
    UsesPerRoute(five, set r | r in five);
  }

  lemma FivePathIsPaid(cfg: Config, log: Log, route: Route, check: bool)
    requires cfg.Valid() && Lawful(cfg, log) && log != [] && Orders(Last(log), route, check) && cfg.ordered
    requires cfg.budget.maxAttempts >= 1 && cfg.budget.maxSameRoute >= 1
    ensures var five := Invocations(log) + [route];
            && SameProviderChanges(cfg, five) <= cfg.budget.maxModelFallbacks
            && CrossProviderChanges(cfg, five) <= cfg.budget.maxProviderSwitches
            && forall r :: Count(r, five) <= cfg.budget.maxSameRoute
  {
    hide Justified, Lawful;
    OrderedRouteIsAffordable(cfg, log, route, check);
    BudgetsHold(cfg, log);
    CallsAreUses(cfg, log);
    UsesStep(cfg, Invocations(log), [], route);
    PathStep(cfg, Invocations(log), route);
  }

  // With the room, some run outgrows its rows.

  /** Three routes; every provider call times out. */
  function Walk(b: Budget): Config {
    Config(
      Scope("RUN", "RUN:task", "report_synthesis", "specialist"), false, true, b,
      ["sol", "luna", "other"],
      map["sol" := RouteInfo("teamorouter", "gpt-5.6-sol", true),
          "luna" := RouteInfo("teamorouter", "gpt-5.6-luna", true),
          "other" := if b.maxModelFallbacks == 2 then RouteInfo("teamorouter", "gpt-5.6-terra", true)
                     else RouteInfo("mimo", "mimo-v2.5", true)],
      "sol",
      map["sol" := if b.maxAttempts >= 3 then Verified else Unknown, "luna" := Unknown, "other" := Verified],
      map[])
  }

  /** The walk's ledger after the given attempts. */
  function After(b: Budget, history: seq<Route>, checked: seq<Route>, decisions: nat,
                 modelSwitches: nat, providerSwitches: nat, current: Route): Ledger {
    Ledger(history, checked, |checked|, decisions, modelSwitches, providerSwitches, current, Walk(b).capabilities,
           map r | r in history + checked :: Degraded, Reassess(ReadTimeout, false))
  }

  /** The ledger `led` is reached by a lawful log that goes on. */
  ghost predicate Reaches(b: Budget, log: Log, led: Ledger, calls: nat) {
    && Walk(b).Valid() && Lawful(Walk(b), log) && Continues(Walk(b), log)
    && LedgerOf(Walk(b), log) == led && |Invocations(log)| == calls
  }

  lemma WalkBegins(b: Budget) returns (log: Log)
    requires b.maxCost.None?
    ensures Reaches(b, log, After(b, ["sol"], [], 0, 0, 0, "sol"), 1)
  {
    hide Lawful, Continues, LedgerOf, Invocations, CheckRoutes, Executions, Advance, Path, NextNumber;
    var cfg := Walk(b);
    WalkAtRest(b);
    log := AttemptNext(cfg, [], "sol", false);
    FirstLedger(b);
  }

  lemma WalkAtRest(b: Budget)
    requires b.maxCost.None?
    ensures var cfg := Walk(b);
            && cfg.Valid() && Lawful(cfg, []) && MayStart(cfg, [], "sol", false) && Path(cfg, []) == []
            && Invocations([]) == []
            && NextNumber(cfg, [], false) == 1
            && LedgerOf(cfg, [])
               == Ledger([], [], 0, 0, 0, 0, "sol", cfg.capabilities, map[],
                         Assessment(UnknownFailure, RuntimeStage, false))
  {
  }

  lemma FirstLedger(b: Budget)
    ensures var cfg := Walk(b);
            var rest := Ledger([], [], 0, 0, 0, 0, "sol", cfg.capabilities, map[],
                               Assessment(UnknownFailure, RuntimeStage, false));
            Advance(cfg, rest, "sol", false, TIMEOUT) == After(b, ["sol"], [], 0, 0, 0, "sol")
  {
    var cfg := Walk(b);
    assert cfg.capabilities["sol" := cfg.capabilities["sol"]] == cfg.capabilities;
    assert After(b, ["sol"], [], 0, 0, 0, "sol").health == map["sol" := Degraded];
  }

  /** One more attempt that times out, described by its ledgers alone. */
  lemma WalkOn(b: Budget, before: Log, calls: nat, led: Ledger, route: Route, check: bool, next: Ledger)
    returns (log: Log)
    requires b.maxCost.None? && Reaches(b, before, led, calls) && 0 < calls < MAX_ATTEMPT_NUMBER
    requires led.failure.recoverable && led.current in Walk(b).routes
    requires |led.history| < b.maxAttempts && led.decisions < b.maxDecisions
    requires Affordable(Walk(b), led, route, check) && HealthOf(led.health, route) != Unavailable
    requires next == Advance(Walk(b), led.(decisions := led.decisions + 1), route, check, TIMEOUT)
    ensures Reaches(b, log, next, calls + 1)
  {
    hide Justified, Continues, LedgerOf, Lawful, Affordable, Advance, Orders, HealthOf;
    var cfg := Walk(b);
    var ordered := OrderNext(cfg, before, route, check);
    assert Path(cfg, ordered) == Invocations(ordered) != [];
    assert MayStart(cfg, ordered, route, check);
    log := AttemptNext(cfg, ordered, route, check);
  }

  lemma Timeout(b: Budget, led: Ledger, route: Route, check: bool)
    requires led.capabilities == Walk(b).capabilities && route in Walk(b).routes
    requires check ==> led.capabilities[route] == Unknown
    ensures var next := Advance(Walk(b), led, route, check, TIMEOUT);
            next == Embark(Walk(b), led, route, check).(failure := Reassess(ReadTimeout, false))
  {
    assert led.capabilities[route := led.capabilities[route]] == led.capabilities;
  }

  /** The health entries of the walk. */
  lemma Degrades(b: Budget, xs: seq<Route>, ys: seq<Route>, route: Route)
    ensures (map r | r in xs + ys :: Degraded)[route := Degraded] == map r | r in xs + [route] + ys :: Degraded
    ensures (map r | r in xs + ys :: Degraded)[route := Degraded] == map r | r in xs + (ys + [route]) :: Degraded
  {
  }

  lemma SecondAttempt(b: Budget, before: Log) returns (log: Log, led: Ledger)
    requires WithinFieldBounds(b) && RoomForFive(b)
    requires Reaches(b, before, After(b, ["sol"], [], 0, 0, 0, "sol"), 1)
    ensures led == if b.maxAttempts >= 3 then After(b, ["sol", "sol"], [], 1, 0, 0, "sol")
                   else After(b, ["sol"], ["sol"], 1, 0, 0, "sol")
    ensures Reaches(b, log, led, 2)
  {
    hide Reaches, Affordable, Advance, HealthOf;
    var from, check := After(b, ["sol"], [], 0, 0, 0, "sol"), b.maxAttempts < 3;
    led := if check then After(b, ["sol"], ["sol"], 1, 0, 0, "sol") else After(b, ["sol", "sol"], [], 1, 0, 0, "sol");
    SolIsUsableAgain(b, check);
    SecondLedger(b, check);
    log := WalkOn(b, before, 1, from, "sol", check, led);
  }

  lemma SolIsUsableAgain(b: Budget, check: bool)
    requires WithinFieldBounds(b) && RoomForFive(b) && check == (b.maxAttempts < 3)
    ensures var from := After(b, ["sol"], [], 0, 0, 0, "sol");
            Affordable(Walk(b), from, "sol", check) && HealthOf(from.health, "sol") != Unavailable
  {
    hide Embark, Advance;
  }

  lemma SecondLedger(b: Budget, check: bool)
    requires check == (b.maxAttempts < 3)
    ensures Advance(Walk(b), After(b, ["sol"], [], 0, 0, 0, "sol").(decisions := 1), "sol", check, TIMEOUT) ==
            if check then After(b, ["sol"], ["sol"], 1, 0, 0, "sol") else After(b, ["sol", "sol"], [], 1, 0, 0, "sol")
  {
    var from := After(b, ["sol"], [], 0, 0, 0, "sol");
    Timeout(b, from.(decisions := 1), "sol", check);
    Degrades(b, ["sol"], [], "sol");
  }

  lemma ThirdAttempt(b: Budget, before: Log, from: Ledger) returns (log: Log, led: Ledger)
    requires WithinFieldBounds(b) && RoomForFive(b)
    requires from == if b.maxAttempts >= 3 then After(b, ["sol", "sol"], [], 1, 0, 0, "sol")
                     else After(b, ["sol"], ["sol"], 1, 0, 0, "sol")
    requires Reaches(b, before, from, 2)
    ensures led == After(b, from.history, from.checked + ["luna"], 2, 1, 0, "luna")
    ensures Reaches(b, log, led, 3)
  {
    hide Reaches, Affordable, Advance, HealthOf;
    led := After(b, from.history, from.checked + ["luna"], 2, 1, 0, "luna");
    LunaIsCheckable(b, from);
    ThirdLedger(b, from);
    log := WalkOn(b, before, 2, from, "luna", true, led);
  }

  lemma LunaIsCheckable(b: Budget, from: Ledger)
    requires WithinFieldBounds(b) && RoomForFive(b)
    requires from == if b.maxAttempts >= 3 then After(b, ["sol", "sol"], [], 1, 0, 0, "sol")
                     else After(b, ["sol"], ["sol"], 1, 0, 0, "sol")
    ensures Affordable(Walk(b), from, "luna", true) && HealthOf(from.health, "luna") != Unavailable
  {
    hide Embark, Advance;
    assert "luna" !in from.history + from.checked;
  }

  lemma ThirdLedger(b: Budget, from: Ledger)
    requires from == After(b, from.history, from.checked, 1, 0, 0, "sol")
    ensures After(b, from.history, from.checked + ["luna"], 2, 1, 0, "luna") ==
            Advance(Walk(b), from.(decisions := 2), "luna", true, TIMEOUT)
  {
    Timeout(b, from.(decisions := 2), "luna", true);
    Degrades(b, from.history, from.checked, "luna");
  }

  lemma FourthExecution(b: Budget, before: Log, from: Ledger) returns (log: Log, led: Ledger)
    requires WithinFieldBounds(b) && RoomForFive(b) && b.maxAttempts == 4
    requires from == After(b, ["sol", "sol"], ["luna"], 2, 1, 0, "luna") && Reaches(b, before, from, 3)
    ensures led.history == from.history + ["other"] && led.checked == from.checked && led.checks == 1
    ensures led.decisions == 3 && led.failure.recoverable && led.current == "other"
    ensures led.capabilities == from.capabilities && led.health == from.health["other" := Degraded]
    ensures Reaches(b, log, led, 4)
  {
    hide Reaches, Affordable, Advance, HealthOf;
    led := Advance(Walk(b), from.(decisions := 3), "other", false, TIMEOUT);
    OtherIsAffordable(b, from);
    FourthLedger(b, from);
    assert HealthOf(from.health, "other") != Unavailable by { NeverUnavailable(["sol", "sol"] + ["luna"], "other"); }
    log := WalkOn(b, before, 3, from, "other", false, led);
  }

  lemma NeverUnavailable(rs: seq<Route>, r: Route)
    ensures HealthOf((map x | x in rs :: Degraded), r) != Unavailable
  {
  }

  lemma FourthLedger(b: Budget, from: Ledger)
    requires from == After(b, ["sol", "sol"], ["luna"], 2, 1, 0, "luna")
    ensures var led := Advance(Walk(b), from.(decisions := 3), "other", false, TIMEOUT);
            && led.history == from.history + ["other"] && led.checked == from.checked && led.checks == 1
            && led.decisions == 3 && led.failure.recoverable && led.current == "other"
            && led.capabilities == from.capabilities && led.health == from.health["other" := Degraded]
  {
    Timeout(b, from.(decisions := 3), "other", false);
  }

  lemma FourthCheck(b: Budget, before: Log, from: Ledger) returns (log: Log, led: Ledger)
    requires WithinFieldBounds(b) && RoomForFive(b) && b.maxAttempts < 4
    requires from == if b.maxAttempts >= 3 then After(b, ["sol", "sol"], ["luna"], 2, 1, 0, "luna")
                     else After(b, ["sol"], ["sol", "luna"], 2, 1, 0, "luna")
    requires Reaches(b, before, from, 3)
    ensures led == Advance(Walk(b), from.(decisions := 3), "luna", true, TIMEOUT)
    ensures led == Embark(Walk(b), from.(decisions := 3), "luna", true).(failure := Reassess(ReadTimeout, false))
    ensures Reaches(b, log, led, 4)
  {
    hide Reaches, Affordable, Advance, Embark, HealthOf;
    Timeout(b, from.(decisions := 3), "luna", true);
    led := Advance(Walk(b), from.(decisions := 3), "luna", true, TIMEOUT);
    LunaIsCheckableAgain(b, from);
    log := WalkOn(b, before, 3, from, "luna", true, led);
  }

  lemma LunaIsCheckableAgain(b: Budget, from: Ledger)
    requires WithinFieldBounds(b) && RoomForFive(b) && b.maxAttempts < 4
    requires from == if b.maxAttempts >= 3 then After(b, ["sol", "sol"], ["luna"], 2, 1, 0, "luna")
                     else After(b, ["sol"], ["sol", "luna"], 2, 1, 0, "luna")
    ensures Affordable(Walk(b), from, "luna", true) && HealthOf(from.health, "luna") != Unavailable
  {
    hide Embark, Advance;
  }

  lemma OtherIsAffordable(b: Budget, led: Ledger)
    requires WithinFieldBounds(b) && RoomForFive(b)
    requires led.capabilities == Walk(b).capabilities && |led.history| < b.maxAttempts
    requires Count("other", led.history + led.checked) < 2
    requires led.current == "other" || (led.current == "luna" && led.modelSwitches == 1 && led.providerSwitches == 0)
    ensures Affordable(Walk(b), led, "other", false)
  {
  }

  lemma FourthAttempt(b: Budget, before: Log, from: Ledger) returns (log: Log, led: Ledger)
    requires WithinFieldBounds(b) && RoomForFive(b)
    requires from == if b.maxAttempts >= 3 then After(b, ["sol", "sol"], ["luna"], 2, 1, 0, "luna")
                     else After(b, ["sol"], ["sol", "luna"], 2, 1, 0, "luna")
    requires Reaches(b, before, from, 3)
    ensures Reaches(b, log, led, 4) && led.decisions == 3 && led.failure.recoverable && led.current in Walk(b).routes
    ensures |led.history| < b.maxAttempts
    ensures Affordable(Walk(b), led, "other", false) && HealthOf(led.health, "other") != Unavailable
  {
    hide Reaches, Advance, Affordable;
    if b.maxAttempts == 4 {
      log, led := FourthExecution(b, before, from);
      assert led.history + led.checked == ["sol", "sol", "other", "luna"];
    } else {
      log, led := FourthCheck(b, before, from);
      assert "other" !in led.history + led.checked;
    }
    OtherIsAffordable(b, led);
  }

  lemma OutgrowingWalk(b: Budget) returns (log: Log)
    requires WithinFieldBounds(b) && RoomForFive(b)
    ensures Outgrows(Walk(b), log, "other", false)
  {
    hide Justified, Continues, LedgerOf, Lawful, Orders, Affordable, HealthOf;
    var led;
    log := WalkBegins(b);
    log, led := SecondAttempt(b, log);
    assert ["luna"] == [] + ["luna"] && ["sol", "luna"] == ["sol"] + ["luna"];
    log, led := ThirdAttempt(b, log, led);
    log, led := FourthAttempt(b, log, led);
    log := OrderNext(Walk(b), log, "other", false);
  }

  /** Within the field bounds of the budget record, the evidence rows of an ordered walk hold every run
      exactly when the budget has no room for a fifth invocation. */
  lemma RowsHoldEveryRunExactlyWithoutRoomForFive(b: Budget)
    requires WithinFieldBounds(b)
    ensures (exists cfg: Config, log: Log, route: Route, check: bool ::
               cfg.budget == b && Outgrows(cfg, log, route, check))
            <==> RoomForFive(b)
  {
    forall cfg: Config, log: Log, route: Route, check: bool | cfg.budget == b && Outgrows(cfg, log, route, check)
      ensures RoomForFive(b)
    {
      OutgrowingNeedsRoom(cfg, log, route, check);
    }
    if RoomForFive(b) {
      var log := OutgrowingWalk(b);
      assert Walk(b).budget == b;
    }
  }

  /** Which budgets the record takes. */
  lemma FieldBoundsMean(b: Budget)
    ensures WithinFieldBounds(b) <==>
            && b.maxAttempts in {1, 2, 3, 4} && b.maxSameRoute in {1, 2} && b.maxModelFallbacks in {0, 1, 2}
            && b.maxProviderSwitches in {0, 1} && b.maxChecks in {0, 1, 2, 3} && b.maxDecisions in {0, 1, 2, 3, 4, 5}
            && b.maxTime != 0.0 && b.maxTime <= 300.0
  {
  }

  // ---- Health ---------------------------------------------------------------------------

  lemma OrderedRouteIsHealthy(cfg: Config, log: Log, route: Route, check: bool)
    requires cfg.Valid() && Lawful(cfg, log) && log != [] && Orders(Last(log), route, check)
    ensures HealthOf(LedgerOf(cfg, log).health, route) != Unavailable
  {
    hide Justified, PolicyAllows, BuiltFrom, LedgerOf;
    var prefix, e := Unappend(cfg, log);
    AllowedDecisionPassedTheGate(cfg, prefix, e);
    var led := LedgerOf(cfg, prefix);
    GateMeansHealthy(cfg, led, e.context, e.decision);
    DecisionKeepsLedger(cfg, prefix, e);
  }

  lemma GateMeansHealthy(cfg: Config, led: Ledger, ctx: Context, d: Decision)
    requires BuiltFrom(cfg, led, ctx) && Invokes(d.action)
    requires PolicyAllows(d, ctx, cfg.budget, led.modelSwitches, led.providerSwitches, None)
    ensures d.target.Some? && HealthOf(led.health, d.target.value) != Unavailable
  {
    hide LedgerCandidates;
    CandidateAt(cfg, led, Find(ctx.candidates, d.target).value);
  }

  lemma {:induction false} UntouchedHealth(health: map<Route, Health>, rs: seq<Route>, r: Route)
    requires r !in rs
    ensures r in DegradedOn(health, rs) <==> r in health
    ensures r in health ==> DegradedOn(health, rs)[r] == health[r]
  {
    if rs != [] {
      UntouchedHealth(health, rs[..|rs| - 1], r);
    }
  }

  lemma {:induction false} PathIsCalled(cfg: Config, log: Log)
    ensures forall r :: r in Path(cfg, log) ==> r in Invocations(log)
  {
    if log != [] {
      PathIsCalled(cfg, log[..|log| - 1]);
    }
  }

  /** A route that is unavailable when a run starts is never called in it, unless it is the initial one. */
  lemma {:induction false} UnavailableIsNeverCalled(cfg: Config, log: Log, r: Route)
    requires cfg.Valid() && Lawful(cfg, log)
    requires r in cfg.health && cfg.health[r] == Unavailable && r != cfg.initial
    ensures r !in Invocations(log)
  {
    hide Justified;
    if log != [] {
      var prefix, e := Unappend(cfg, log);
      UnavailableIsNeverCalled(cfg, prefix, r);
      if e.Started? && prefix != [] {
        StartIsOrdered(cfg, prefix, e);
        OrderedRouteIsHealthy(cfg, prefix, e.route, e.check);
        PathIsCalled(cfg, prefix);
        UntouchedHealth(cfg.health, Path(cfg, prefix), r);
      } else if e.Started? {
        StartIsOrdered(cfg, prefix, e);
      }
    }
  }

  lemma StartIsOrdered(cfg: Config, log: Log, e: Evidence)
    requires cfg.Valid() && Justified(cfg, log, e) && e.Started?
    ensures if log == [] then e.route == cfg.initial else Orders(Last(log), e.route, e.check)
  {
  }
}

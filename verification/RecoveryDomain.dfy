/** The closed vocabulary of same-task recovery: routes, capabilities, budgets, failures
    and the evidence rows that one governed execution appends.

    Route ids, providers and models are strings; digests and record ids are idealised
    (a record id is the position of the record in its execution's own log). */
module RecoveryDomain {
  import opened Wrappers

  type Route = string

  datatype Capability = Verified | Candidacy | Unknown | Unsupported | Quarantined

  datatype Health = Healthy | Degraded | Unavailable | HealthUnknown

  datatype Action =
    | RetrySameRoute
    | SwitchModel
    | SwitchProvider
    | CapabilityCheck
    | WaitAndRetry
    | ReplanTask
    | CorrectResearchPath
    | FailTask
    | FailRun

  datatype Reason = NextGovernedRoute | CapabilityRequired | NoAllowedRoute | BudgetExhausted | NonRecoverable

  datatype StopReason = PolicyDenied | RecoveryBudgetExhausted | InterruptedExecution | NonRecoverableStop

  datatype FailureClass =
    | ModelIdentityMismatch
    | ReadTimeout
    | ProviderDeadlineExceeded
    | TaskDeadlineExceeded
    | ProviderUnavailable
    | RemoteProtocolError
    | RateLimit
    | OutputContractFailure
    | NonRecoverableRuntimeFailure
    | ResearchSemanticFailure
    | UnknownFailure

  datatype Stage = ProviderStage | OutputStage | IdentityStage | ResearchStage | RuntimeStage

  datatype Assessment = Assessment(failureClass: FailureClass, stage: Stage, recoverable: bool)

  /** What the adapter attaches to a provider error; `Unclassified` is an error without a code. */
  datatype Code =
    | IdentityMismatchCode
    | PreflightFailureCode
    | AuthenticationFailureCode
    | QuotaOrRateLimitCode
    | RetryableHttpFailureCode
    | ProviderUnavailableCode
    | ConnectTimeoutCode
    | ReadTimeoutCode
    | OverallDeadlineExceededCode
    | RemoteProtocolErrorCode
    | InvalidProviderResponseCode
    | SemanticSchemaFailureCode
    | RequestRejectedCode
    | Unclassified

  /** The exceptions the invocation's `except` clause tells apart. */
  datatype Fault = ProviderFault(code: Code) | ValidationFault | OtherFault

  datatype RouteInfo = RouteInfo(provider: string, model: string, authority: bool)

  datatype Scope = Scope(runId: string, taskId: string, taskProfile: string, operationId: string)

  type Seconds = s: real | 0.0 <= s

  datatype Budget = Budget(
    maxAttempts: nat,
    maxSameRoute: nat,
    maxModelFallbacks: nat,
    maxProviderSwitches: nat,
    maxChecks: nat,
    maxDecisions: nat,
    maxTime: Seconds,
    maxCost: Option<nat>)

  /** The field bounds that the budget record itself enforces. */
  ghost predicate WithinFieldBounds(b: Budget) {
    && 1 <= b.maxAttempts <= 4
    && 1 <= b.maxSameRoute <= 2
    && b.maxModelFallbacks <= 2
    && b.maxProviderSwitches <= 1
    && b.maxChecks <= 3
    && b.maxDecisions <= 5
    && 0.0 < b.maxTime <= 300.0
  }

  datatype Candidate = Candidate(
    route: Route,
    provider: string,
    authority: bool,
    health: Health,
    capability: Capability,
    exhausted: bool,
    eligible: bool,
    next: Action)

  datatype Decision = Decision(
    scope: Scope,
    action: Action,
    target: Option<Route>,
    reason: Reason,
    refs: seq<nat>)

  datatype Context = Context(
    scope: Scope,
    failure: Assessment,
    current: Route,
    candidates: seq<Candidate>,
    history: seq<Route>,
    remainingAttempts: int,
    remainingChecks: int,
    remainingDecisions: int,
    remainingSeconds: Seconds,
    refs: seq<nat>)

  /** How a started attempt is closed. `Refused` is the authorization error, which the source
      records as a failed attempt and follows with a terminal record at once. */
  datatype Closing = Pass(substituted: bool) | Fail(failureClass: FailureClass) | Refused | Cancelled

  datatype Evidence =
    | Started(number: nat, route: Route, check: bool)
    | Completed(number: nat, route: Route, check: bool, closing: Closing)
    | Decided(decision: Decision, context: Context, allowed: bool)
    | Terminal(reason: StopReason, blamed: Route, failure: Option<FailureClass>)

  /** Evidence rows refuse a larger attempt number. */
  const MAX_ATTEMPT_NUMBER: nat := 4

  /** Number of evidence references a context carries. */
  const MAX_REFS: nat := 12

  /** Everything fixed before the first attempt. `routes` are the profile's governed routes in the
      profile's order, `capabilities` and `health` what is known about them from earlier evidence. */
  datatype Config = Config(
    scope: Scope,
    generated: bool,
    ordered: bool,
    budget: Budget,
    routes: seq<Route>,
    registry: map<Route, RouteInfo>,
    initial: Route,
    capabilities: map<Route, Capability>,
    health: map<Route, Health>)
  {
    ghost predicate Valid() {
      && (forall r :: r in routes ==> r in registry && r in capabilities)
      && (forall i, j :: 0 <= i < j < |routes| ==> routes[i] != routes[j])
      && initial in routes
    }
  }

  function Last<T>(s: seq<T>): T
    requires s != []
  {
    s[|s| - 1]
  }
}

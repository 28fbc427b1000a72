# Verified model of the financial research runtime

This project models, in Dafny, the parts of the runtime that carry state and protocol: bounded recovery of
a provider call, validation and traversal of task graphs, the one-shot closure of a failed run together
with the release gate and the proof workflow it relies on, and four stateful loops with an exact simple
meaning. `dafny verify dfyconfig.toml` checks everything.

## How the model is laid out

**Recovery.** `RecoveryDomain` holds the vocabulary, `RecoveryPolicy` classification, detection, the default
supervisor and the independent gate. `RecoveryLog` reads every counter, history and map of the loop from
the evidence alone and says which record may come next; a log built that way is *lawful*.
`RecoveryAnswers` adds what the providers, the clock and the supervisor answered; a lawful log that agrees
with the answers is *genuine*. `RecoverySession` is the loop itself, a class with the source's own
variables, specified against these readings; `RecoveryEntry` is the call around it. `RecoveryFaults` says
what each provider error leads to; `RecoveryTheorems`, `RecoveryLimits` and `DeliveryRace` hold the theorems
over all runs, over budgets, and over racing workers.
The supervisor is any function. Route ids, providers and models are strings, elapsed time is a reading of a
clock that may expire at any moment, a provider call comes back with a success, a substituted success, a
classified error, a time-out, a refused authorization or a cancellation.

**Task graphs.** `TaskGraph` has the worklists and the two layer-by-layer acyclicity checks against
reachability, `Planning` the planner's builder, `PlanRules` its rules in plain terms, `ModelPlan` plans it
accepts, `Admission` the runtime's validator and how the two compose, `RoutedPlans` what the router acquires
for a built plan (`AcquisitionScopes` is what planner and router read from a task's text), `ClosurePolicy`
the classification of what a run left done and undone, and `ClosureOutputs` what it lists where.

**Assurance and closure.** `EventLog` is the event log's validator, `RetainedProofs` and `ClosureRecovery` the
closure transactions, `ClosureProtocol` their interleavings with exceptions, crashes, rewrites and
commits that are not acknowledged. `MinorUnits` is the decimal scaling inside a 28-digit context,
`GrowthCommitment` the proof input built twice, `ReleaseGate` and `ReleaseRules` the gate and each of its
objections, `ProofWorkflow` the workflow and how the two compose. Digests and canonical JSON are compared
for equality only; the 28-digit quotient and the digests are functions both sides share.

**Loops.** `CredentialScan`, `EvidenceRouting`, `EventSequence` and `PriceHistory`.

## Findings

* An evidence row refuses an attempt number above 4 (`src/domain/recovery.py:169`), and the ordered walk
  numbers its attempts by provider calls. A budget within its own field bounds that allows two uses of a
  route, four decisions, five attempts and checks together and two switches lets a fifth call be ordered,
  which then fails outside the error handling and leaves no terminal record.
  `RowsHoldEveryRunExactlyWithoutRoomForFive` says exactly which budgets have that room; the shipped
  defaults do not.
* The workflow binds the implementation hash or else the deprecated code hash, the gate recomputes only
  from the implementation hash. A verified outcome under a clean, strict review is therefore allowed
  exactly when the calculation has an implementation hash (`VerifiedOutcomeIsAllowedExactly`).
  `CodeHashAloneIsProvedAndNotReleased` builds the strict submission that is proved from a code hash and
  refused for want of the other, and released with it.
* The workflow's own policy requires a proof of one formula, the service's of two. The two policies agree
  exactly when no calculation has the second formula, `numeric_consistency_v1`
  (`PoliciesAgreeExactlyWithoutNumericConsistency`). A run with such a calculation always ends as
  PROOF_POLICY_CHANGED_AFTER_REVIEW once its workflow returns, with the proof made and saved
  (`ProveForRelease`). Nothing else under `src/` names that formula, so no shipped calculation has it.
* Scaling to minor units needs no assumption about the number of digits: whenever the result is accepted it
  is exact, because an amount that the 28-digit context could round is outside the 64-bit range anyway
  (`AcceptedExactlyWhenItFits`).
* Two refused calls of the evidence store leave part of their work behind
  (`src/application/evidence_routing.py:115-116`, `:161-165`): exactly the records before the first one
  that does not fit stay registered, exactly the inputs before the first unknown one stay linked. A refused
  link changes nothing if and only if the task is foreign or has an input list that holds every id before
  the unknown one; a refused acquisition leaves the records as they were if and only if it is refused
  before them or the earlier ones were registered already (`LinkInputs`, `RegisterAcquisition`).
  `HalfLinked` and `HalfRegistered` are calls that leave something behind.
* The order in which the proof rows are read decides what is reused (`src/application/closure_recovery.py:94-112`;
  the query has no order), and the fingerprint sorts the rows, so it does not tell the orders apart. Two
  verified proofs of one calculation, each with a verification and an artifact of its own, are accepted and
  the last row wins (`RowOrderDecidesTheProof`); and the runtime state that the released run keeps names
  the first row's proof and image, also when every calculation has one proof
  (`RowOrderDecidesTheRuntimeState`). Every order gives the same lineages if and only if no calculation has
  two different proofs (`LineagesAreDeterminedExactlyWithOneProofEach`), and the same outcome if and only if
  all proofs have one id and one image besides (`FingerprintDeterminesReuseExactly`); in a table keyed by
  the proof id, if and only if there is a single proof row (`FingerprintDeterminesReuseExactlyWithOneRow`).
* The planner reads the scope of a collection task from its key and goal, the router from its task id,
  which begins with the run id, and its goal (`src/agentic/llm_integration.py:721-731`,
  `src/application/evidence_routing.py:327-337`). The two agree on all tasks, and an accepted plan has each
  scope acquired once, if and only if the run id hints at no scope
  (`ScopesAgreeExactlyForNeutralRuns`, `AcceptedPlanIsAcquiredExactlyForNeutralRuns`). In a run called
  `Peer_1` every collection task is acquired for peers (`PeerRunCollectsForPeersOnly`); generated run ids
  hint at nothing (`GeneratedIdsAreNeutral`).
* A release commits without looking at the row's status again: it commits if and only if payload, events
  and proofs are the captured ones (`ReleaseCommitsExactlyWhenUnchanged`), from any status that the row has
  got since it was begun (`ReleasedFromAnyStatus`).
* A run can be recorded both as COMPLETED and as FAILED: if and only if a COMPLETED of the run was
  committed, its caller saw an error all the same, and noted it
  (`CompletedAndFailedExactlyWhenMisread`). `CancelledRunIsReleasedAndBothRecorded` is one execution that
  shows this and the finding before.

## Model

| member | source | states |
|---|---|---|
| RecoveryPolicy.RecordedClassDeterminesAssessment | src/agentic/recovery_policy.py:21-69 | the failure class kept in the evidence row determines the stage and recoverability the loop acted on |
| RecoveryPolicy.GivenStageWins | src/agentic/recovery_policy.py:21-33 | a given stage outweighs the error and is never recoverable |
| RecoveryFaults.RecordedClassOfEachFault | src/agentic/recovery_policy.py:34-69 | the failure class that the evidence row keeps for each code of a provider error, a schema violation and any other error |
| RecoveryFaults.ContinuesExactlyAfterRecoverableFaults | src/agentic/recovery.py:345-384 | a run goes on after a failed attempt if and only if its error was one of the seven of transport, or in a generated operation one of identity, response or schema |
| RecoveryFaults.RouteAfterFault | src/agentic/recovery.py:505-512 | a failed check leaves its route unknown after a transport error and quarantines it otherwise; an execution only quarantines a generated operation's wrong model |
| RecoveryFaults.NonRecoverableOnlyForItsCauses | src/agentic/recovery.py:226-384 | a run ends as non-recoverable only for changed inputs, a refused authorization, or an error that does not let it go on |
| RecoveryPolicy.DetectCandidates | src/agentic/recovery_policy.py:80-116 | the appending loop yields one candidate for each route, in registry order |
| RecoveryPolicy.DefaultProposalIsAllowed | src/agentic/recovery_policy.py:126-229 | on every context built by the loop the default supervisor's proposal passes the gate |
| RecoveryPolicy.DefaultGivesUpExactlyWhenGateIsClosed | src/agentic/recovery_policy.py:126-229 | it gives up if and only if the gate would let no other action through on any route |
| RecoveryPolicy.DecideMeans | src/agentic/recovery_policy.py:126-169 | when the default supervisor gives up and for which reason, and that it otherwise acts on a usable candidate |
| RecoveryPolicy.OrderedWalkTakesTheFirst | src/agentic/recovery_policy.py:141-165 | in an ordered walk it targets the first candidate for which the gate lets any call through, as a check only when no execution is |
| RecoveryPolicy.ExecutionsComeBeforeChecks | src/agentic/recovery_policy.py:152-169 | otherwise it targets the first candidate for which the gate lets an execution through, and checks only when there is none, the first one that can be checked |
| RecoveryPolicy.GateMeans | src/agentic/recovery_policy.py:172-229 | on every context built by the loop, exactly which decisions the gate lets through, with which route, capability, health, use, switch and cost |
| RecoveryPolicy.UsableIsAllowed | src/agentic/recovery_policy.py:172-229 | any action that fits an eligible or checkable candidate passes the gate |
| RecoveryPolicy.AllowedIsUsable | src/agentic/recovery_policy.py:172-229 | whatever invocation passes the gate is on a governed, usable candidate with budget left |
| RecoveryLog.AttemptAdvancesLedger | src/agentic/recovery.py:377-526 | updating counters, maps and history attempt by attempt equals reading them off the whole evidence log |
| RecoveryTheorems.BudgetsHold | src/agentic/recovery.py:377-526 | for any supervisor: attempts, checks, both switch counters and the use of each route stay within the budget |
| RecoveryTheorems.ConsumedCheckStaysWithinBudget | src/agentic/recovery.py:500-510 | a substituted check that joins the history leaves the whole history within every budget |
| RecoveryTheorems.CallsAreExecutionsAndChecks | src/agentic/recovery.py:237-237 | provider calls are exactly the executions and the checks |
| RecoveryTheorems.CallsAreBounded | src/agentic/recovery.py:380-526 | each call after the first is paid for by its own decision: at most one call more than decisions |
| RecoveryTheorems.EveryInvocationIsGoverned | src/agentic/recovery.py:217-222 | every call is on a governed route with authority; later executions only on verified routes, checks only on unknown or candidate ones |
| RecoveryTheorems.AllowedDecisionsStayInScope | src/agentic/recovery_policy.py:173-176 | whatever the supervisor, an allowed decision is of this execution and refers only to earlier records of its log |
| RecoveryTheorems.VerifiedIsEarned | src/agentic/recovery.py:494-517 | a route becomes verified only by its own check passing without substitution |
| RecoveryTheorems.QuarantineIsFinal | src/agentic/recovery.py:359-360 | a quarantined route stays quarantined and is never called again |
| RecoveryTheorems.LogShape | src/agentic/recovery.py:173-209 | records come in turn: start, its completion, decision; each later attempt is the one its decision ordered; a terminal record only at the end |
| RecoveryTheorems.OnlyTheFirstRecordIsEntry | src/agentic/recovery.py:247-266 | the row that the single-entry index guards is the first record of a run and no other |
| RecoveryTheorems.NumberFitsTheRow | src/domain/recovery.py:169-169 | in normal mode, and in an ordered walk with one use of each route, every attempt number fits its row |
| RecoveryLog.SurrenderIsTheDefault | src/agentic/recovery.py:387-412 | the ordered walk's own surrender is the decision that the default supervisor would make |
| RecoveryAnswers.AnswersDetermineTheRun | src/agentic/recovery.py:173-526 | the answers of providers, clock and supervisor determine the whole log and the ending: stopping early, skipping a record or asking otherwise is excluded |
| RecoveryAnswers.NextIsDetermined | src/agentic/recovery.py:380-526 | after any log at most one record can come next |
| RecoveryAnswers.ConcludedIsFinal | src/agentic/recovery.py:186-209 | no record follows the end of a run |
| RecoverySession.Session.Invoke | src/agentic/recovery.py:226-375 | one call: refused for changed inputs or no time, otherwise started, called and closed in that order, with exact effects on memory |
| RecoverySession.Session.Await | src/agentic/recovery.py:268-375 | every reply closes the attempt with its own outcome; time-outs, refusals and cancellations end the run |
| RecoverySession.Session.Consult | src/agentic/recovery.py:381-485 | stops, surrenders, or returns a decision that passed the gate in the state of that moment |
| RecoverySession.Session.Submit | src/agentic/recovery.py:458-485 | the proposal is gated, counted and recorded before anything else happens |
| RecoverySession.Session.RunCheck | src/agentic/recovery.py:487-518 | a check that did the work is consumed as the answer, any other result becomes knowledge about its route |
| RecoverySession.Session.Recover | src/agentic/recovery.py:380-526 | one turn of the loop keeps memory equal to the readings of the log and spends one decision |
| RecoverySession.Session.Execute | src/agentic/recovery.py:211-526 | a run from its pre-checks to its end is genuine and concluded |
| RecoveryEntry.Prepare | src/agentic/recovery.py:91-132 | the configuration a call runs under: exactly the registered routes in profile order, the first one that is served as the initial route, what is known of each route, the effective budget; and exactly when the call is refused instead |
| RecoveryEntry.InitialRouteServes | src/agentic/recovery.py:109-118 | the initial route is registered with the initial provider and model, and is the profile's first that is |
| RecoveryEntry.BudgetInUse | src/agentic/recovery.py:96-105 | an explicit budget, or the record's defaults, or the larger ones of the two profiles that walk in order |
| RecoveryEntry.GeneratedMeans | src/agentic/recovery.py:95-95 | generated operations are those whose id begins so |
| RecoveryEntry.ExecuteScope | src/agentic/recovery.py:91-532 | whatever the environment answers, the log is the genuine account of it, carried to the end; a redelivery makes no call |
| RecoveryEntry.TerminalExactlyWhenStopped | src/agentic/recovery.py:186-209 | a terminal record is present exactly when the run stopped |
| RecoveryEntry.DefaultAgreesOnEveryReachableContext | src/agentic/recovery.py:387-421 | supervisor and gate agree on every context a lawful run reaches |
| RecoveryEntry.ContextFitsItsRecord | src/domain/recovery.py:148-162 | the context of every decision fits the bounds of its record, at every reading of the clock |
| RecoveryEntry.DefaultRunExhaustsItsOptions | src/agentic/recovery.py:380-526 | an undisturbed run under the default supervisor stops only on a failure that recovery does not answer or when no supervisor could have ordered another call |
| RecoveryLimits.GateOpensExactlyForAffordable | src/agentic/recovery_policy.py:172-229 | the gate opens for an invocation if and only if capability, authority, health and every budget allow it |
| RecoveryLimits.RowsHoldEveryRunExactlyWithoutRoomForFive | src/domain/recovery.py:95-104 | some run outgrows the attempt number of its rows if and only if the budget has room for a fifth call |
| RecoveryLimits.FieldBoundsMean | src/domain/recovery.py:95-104 | which budgets the record takes, field by field |
| RecoveryLimits.UnavailableIsNeverCalled | src/agentic/recovery_policy.py:85-89 | a route that is unavailable when a run starts is never called in it, the initial one apart |
| DeliveryRace.AtMostOneCaller | alembic/versions/20260908_0013_recovery_operation_scope.py:12-16 | under any interleaving, crash and redelivery, at most one worker calls a provider for a run, task and operation |
| DeliveryRace.LaterRecordsNeverCollide | alembic/versions/20260908_0013_recovery_operation_scope.py:12-16 | only a worker's first record can be refused by the index |
| DeliveryRace.RefusedExactlyForItsKey | alembic/versions/20260908_0013_recovery_operation_scope.py:12-16 | an insert is refused if and only if it is a first attempt and its own key has one already |
| DeliveryRace.PeekMeans | src/agentic/recovery.py:211-216 | a delivery counts as repeated if and only if its run, task and operation have a record |
| DeliveryRace.RedeliveryNeverCalls | src/agentic/recovery.py:211-216 | a worker that finds a record of its key never calls a provider, whatever follows |
| DeliveryRace.CallsOfAWorkerAreBounded | src/agentic/recovery.py:211-222 | a worker's calls stay within one more than its decision limit |
| DeliveryRace.CallsForAKeyAreBounded | src/agentic/recovery.py:211-222 | the calls of all workers together for a run, task and operation are those of one worker, at most one more than its decision limit |
| TaskGraph.MarkOnPop | src/agentic/llm_integration.py:737-746 | the planner's worklist computes exactly the tasks reachable by one or more edges, on cyclic graphs too, and the upstream lookup is the same loop |
| TaskGraph.AncestorsOf | src/application/closure_policy.py:31-39 | the closure policy's worklist, marked on push, computes the same set |
| TaskGraph.AvailabilityScope | src/application/research_outputs.py:58-67 | the availability map's scope is the task and the same set |
| TaskGraph.EnsureAcyclic | src/agentic/llm_integration.py:786-793 | the planner's peeling loop accepts exactly the graphs without a cycle |
| TaskGraph.ResolveAll | src/agentic/runtime_bindings.py:44-52 | the validator's growing loop accepts exactly the same graphs |
| TaskGraph.AcyclicExactlyWhenOrdered | src/agentic/runtime_bindings.py:44-52 | a graph passes if and only if its tasks have an order after all dependencies |
| TaskGraph.AncestorsComeFirst | src/agentic/llm_integration.py:735-746 | in every such order ancestors come first |
| Planning.BuildValidatedGraph | src/agentic/llm_integration.py:649-691 | builds exactly the admissible plans, and reports the first rule that a plan breaks |
| Planning.ValidateSemantics | src/agentic/llm_integration.py:694-783 | objects exactly when a semantic rule is broken, with the first such rule |
| Planning.CollectScopes | src/agentic/llm_integration.py:721-731 | detects exactly the repeated acquisition scopes |
| Planning.CheckUpstream | src/agentic/llm_integration.py:749-779 | finds exactly the missing upstream dependencies |
| PlanRules.AdmissibleMeans | src/agentic/llm_integration.py:649-783 | the planner accepts exactly the plans that follow the rules in plain terms: keys, dependencies, cycles, skills, one task of each kind, one collection for each scope, and every path from a task to what it needs |
| PlanRules.MissingUpstreamMeans | src/agentic/llm_integration.py:749-779 | a plan that meets the rules before is refused for missing upstream dependencies if and only if some analysis has no path to something it needs |
| ModelPlan.ModelPlansAreAdmissible | src/agentic/llm_integration.py:694-783 | every plan of three scoped acquisitions, five analyses and a synthesis with all required dependencies direct is accepted |
| ModelPlan.SomePlanIsAdmissible | src/agentic/llm_integration.py:604-614 | the planner's rules can all be met at once, with all seven skills that a scheme has to require |
| RoutedPlans.RoutedScopeReads | src/application/evidence_routing.py:327-337 | the scope that the router reads is the planner's, changed by what the run id mentions |
| RoutedPlans.ScopesAgreeExactlyForNeutralRuns | src/application/evidence_routing.py:327-337 | planner and router agree on the scope of every collection task if and only if the run id mentions no scope's word |
| RoutedPlans.AcceptedPlanIsAcquiredExactlyForNeutralRuns | src/agentic/llm_integration.py:719-733 | an accepted plan has each scope acquired by exactly one collection task if and only if the run id mentions none |
| RoutedPlans.PeerRunCollectsForPeersOnly | src/application/evidence_routing.py:332-337 | a run id under which every collection task is acquired for peers, and one under which each is acquired as planned |
| RoutedPlans.AnalysesAcquire | src/application/evidence_routing.py:226-230 | peer and news analysis acquire for their own scopes, the other analyses for none |
| AcquisitionScopes.GeneratedIdsAreNeutral | src/application/service.py:129-129 | generated run ids mention no scope's word |
| AcquisitionScopes.CaseIsIgnored | src/application/evidence_routing.py:332-332 | letters are read in either case, underscores as hyphens |
| AcquisitionScopes.MentionsJoined | src/application/evidence_routing.py:332-336 | a word without the separator is mentioned in joined texts exactly when one of them mentions it |
| Admission.ValidateBindings | src/agentic/runtime_bindings.py:24-54 | accepts exactly the well-bound graphs whose agents are registered and support their tasks |
| Admission.FittingMeans | src/agentic/runtime_bindings.py:31-43 | a task fits if and only if its agent is registered for its type or it collects evidence, its type goes with its skill, and its run, id and dependencies are the graph's |
| Admission.SchemeMeans | src/agentic/runtime_bindings.py:53-54 | every skill of a scheme is some task's |
| Admission.PlannedGraphsAreWellBound | src/agentic/llm_integration.py:649-691 | every graph the planner returns passes admission except for agent lookup and support, with ids unique after prefixing and all skills covered |
| Admission.PrefixingKeepsAcyclic | src/agentic/llm_integration.py:672-686 | prefixing ids with the run id neither adds nor removes cycles |
| Admission.AcceptedPlansRunInOrder | src/agentic/llm_integration.py:735-783 | in every execution order of an accepted plan acquisitions precede their analyses, those precede valuation and risk, everything precedes synthesis, and reviews follow it |
| Admission.EverythingReachesSynthesis | src/agentic/llm_integration.py:749-772 | all acquisitions and analyses are upstream of synthesis |
| Admission.NamesAreUnique | src/agentic/llm_integration.py:707-733 | each scope has one acquisition task and each analysis one task |
| ClosurePolicy.Classify | src/application/closure_policy.py:42-138 | the loops collect exactly the notes of every capability, branch and task, and report the first gap in order of name |
| ClosureOutputs.ClassificationLists | src/application/closure_policy.py:42-138 | each of the seven lists holds exactly the capabilities, branches, inputs and tasks that belong there, under their own names |
| ClosureOutputs.ListsGrowInOrder | src/application/closure_policy.py:72-135 | what a later task adds is listed later |
| ClosureOutputs.OptionalProfiles | src/application/closure_policy.py:73-79 | the five profiles with an optional narrative, each with its own analyst |
| ClosurePolicy.ReviewableExactlyWhenDischarged | src/application/closure_policy.py:42-138 | a run is reviewable if and only if every required calculation is there, every contract is met, and each task is completed or can be done without |
| ClosurePolicy.IsExplicitSupporting | src/application/closure_policy.py:102-117 | a task can be done without exactly when each of its outputs is spared by some downstream contract and insisted on by none |
| ClosurePolicy.IsLegacySupporting | src/application/closure_policy.py:88-98 | an optional profile is supporting exactly when a downstream contract lists its narrative |
| EventLog.Cursor.Accept | src/runtime/events.py:129-177 | applies exactly the events that may follow, ignores exactly the known ones, refuses every other one unchanged with the first reason that applies |
| EventLog.NextEventMeans | src/runtime/events.py:129-177 | which event may come next, in plain terms |
| EventLog.VerdictMeans | src/runtime/events.py:129-167 | against a valid log the order of the checks applies exactly what may follow and ignores exactly what is known |
| EventLog.ValidateEventLog | src/runtime/events.py:232-250 | accepts exactly the valid logs and returns the event that ended the run, or says why the first event that does not fit is refused |
| EventLog.ValidLogShape | src/runtime/events.py:111-177 | a valid log has sequences 1 to n, no id twice, at most one recovery, and a terminal event only last or before the recovery that names it |
| EventLog.EventStream.Append | src/runtime/events.py:326-344 | appends exactly an event that may follow |
| EventLog.EventStream.Emit | src/runtime/events.py:346-378 | emits the next sequence unless the log forbids the event |
| RetainedProofs.RetainedOutcome | src/application/closure_recovery.py:63-118 | reuse is granted exactly for verified proofs whose commitment, verification and artifact are each matched once |
| RetainedProofs.ReuseIsUnambiguous | src/application/closure_recovery.py:88-106 | the parts of a reused lineage name each other, no other commitment, verification or artifact matches, and no other proof of the calculation exists if none has two |
| RetainedProofs.FingerprintDeterminesLineages | src/application/closure_recovery.py:81-106 | with equal fingerprints the same manifests are accepted and each single proof has the same lineage |
| RetainedProofs.LineagesAreDeterminedExactlyWithOneProofEach | src/application/closure_recovery.py:94-106 | every order of the rows of an accepted manifest gives the same lineages if and only if no calculation has two different proofs |
| RetainedProofs.FingerprintDeterminesReuseExactly | src/application/closure_recovery.py:94-118 | every order gives the same outcome, runtime state included, if and only if besides all proofs have one id and one image |
| RetainedProofs.FingerprintDeterminesReuseExactlyWithOneRow | src/infrastructure/database/models.py:196-201 | where the proof id is the key of the table, if and only if there is a single proof row |
| RetainedProofs.RowOrderDecidesTheProof | src/application/closure_recovery.py:94-106 | two orders of the same accepted rows reuse different proofs of one calculation |
| RetainedProofs.RowOrderDecidesTheRuntimeState | src/application/closure_recovery.py:107-112 | with one proof for each of two calculations two orders still give different outcomes |
| ClosureRecovery.Database.Begin | src/application/closure_recovery.py:136-192 | captures and records exactly an eligible run, otherwise changes nothing |
| ClosureRecovery.Database.Stage | src/application/closure_recovery.py:194-214 | staging touches only an in-memory stream and succeeds exactly when each event may follow and the service releases |
| ClosureRecovery.Database.Release | src/application/closure_recovery.py:215-265 | releases exactly the captured run or changes nothing |
| ClosureRecovery.Database.RecoverClosure | src/application/closure_recovery.py:121-295 | undisturbed, an attempt leaves exactly its own records and releases exactly when its staging succeeds |
| ClosureRecovery.StagingKeepsHistory | src/application/closure_recovery.py:195-214 | a staged log is valid and is the failed log, reopened and continued |
| ClosureProtocol.EveryRunHasOneLegalHistory | src/application/closure_recovery.py:40-46 | under any interleaving, exception, crash and rewrite a run's closure records form one of seven histories of one attempt, also when commits are not acknowledged to their callers |
| ClosureProtocol.LegalHistoryMeans | src/application/closure_recovery.py:136-295 | no kind twice, STARTED first, COMPLETED after RELEASED after STARTED, FAILED only last |
| ClosureProtocol.CompletedAndFailedExactlyWhenMisread | src/application/closure_recovery.py:267-295 | COMPLETED and FAILED stand together if and only if a caller's COMPLETED committed without its learning it and its failure was then noted |
| ClosureProtocol.AuthorizationIsSpent | src/application/closure_recovery.py:148-151 | once anything is recorded for a run no later call starts |
| ClosureProtocol.ReleaseCommitsOnlyTheCaptured | src/application/closure_recovery.py:215-265 | a release commits only if payload, events and proofs equal those captured at STARTED, and the released log continues the failed one |
| ClosureProtocol.ReleaseCommitsExactlyWhenUnchanged | src/application/closure_recovery.py:216-236 | a staged caller's release commits if and only if payload, events and proofs are the captured ones, whatever the status |
| ClosureProtocol.ReleasedFromAnyStatus | src/application/closure_recovery.py:216-236 | an eligible run whose staging succeeds is released from any status that was written in between |
| ClosureProtocol.CancelledRunIsReleasedAndBothRecorded | src/application/closure_recovery.py:215-295 | one execution releases a run whose row says CANCELLED and records both COMPLETED and FAILED |
| ClosureProtocol.ReleaseMovesOn | src/application/closure_recovery.py:215-283 | a staged caller ends its release released or in its error handler, exactly by the data and the answer |
| ClosureProtocol.OnlyReleasesWriteRuns | src/application/closure_recovery.py:193-295 | no other step of a caller writes a run |
| ClosureProtocol.LaterInsertsNeverCollide | src/application/closure_recovery.py:251-294 | after STARTED none of an attempt's inserts is refused, so failures are always noted |
| ClosureProtocol.ReleasedMayStillFail | src/application/closure_recovery.py:266-295 | a caller that fails after its release leaves RELEASED and FAILED together, and the run released |
| MinorUnits.AcceptedExactlyWhenItFits | src/application/phase3_proof.py:296-305 | two amounts have a canonical form if and only if their exact scaled values are integers of 64 bits, the first positive, with scale at most 18 |
| MinorUnits.MinorUnitsAreExact | src/application/phase3_proof.py:296-305 | accepted scaling is exact and keeps the growth ratio |
| MinorUnits.GcdIsGreatest | src/adapters/risc0/models.py:112-117 | the remainder loop's result is the greatest common divisor |
| MinorUnits.GreatestCommonDivisor | src/adapters/risc0/models.py:112-117 | the loop computes that divisor |
| MinorUnits.GrowthIsExact | src/adapters/risc0/models.py:97-109 | the reduced ratio equals the ratio of the amounts and is in lowest terms |
| GrowthCommitment.GateExpectsWhatWasBuilt | src/assurance/release_gate.py:285-321 | the gate expects exactly the input that the workflow built, if and only if the calculation has an implementation hash |
| MinorUnits.HalfEvenIsNearest | src/application/phase3_proof.py:296-305 | rounding inside the context takes the nearest value, the even one of two |
| GrowthCommitment.BuiltExactlyWhen | src/application/phase3_proof.py:277-318 | exactly which calculations can be proved |
| GrowthCommitment.InputBinds | src/application/phase3_proof.py:303-318 | a built input's commitments bind run, calculation, hash, evidence, amounts and output, each in its place |
| GrowthCommitment.RaisesExactlyWhen | src/assurance/release_gate.py:285-321 | exactly when the gate's recomputation fails unguarded |
| GrowthCommitment.BuiltInputIsExact | src/application/phase3_proof.py:277-318 | a built input is the exact amounts, their exact ratio, and an output that is its quotient |
| ReleaseGate.Evaluate | src/assurance/release_gate.py:54-282 | collects every objection in order and allows exactly when there is none |
| ReleaseGate.CheckProof | src/assurance/release_gate.py:175-280 | the folded flag is set exactly when some identity of the lineage disagrees |
| ReleaseRules.ReasonsMean | src/assurance/release_gate.py:71-282 | each objection is raised if and only if its own condition holds, told id by id in terms of the submission |
| ReleaseRules.ReasonsAreOrdered | src/assurance/release_gate.py:71-282 | objections come in the order of the checks |
| ReleaseRules.StrictStandsMeans | src/assurance/release_gate.py:175-280 | under strict lineage a proof stands if and only if record, calculation, commitment, verification, artifact and file agree field by field |
| ReleaseRules.LenientStandsMeans | src/assurance/release_gate.py:175-280 | otherwise if and only if its record is complete and agrees with each part that is submitted |
| ReleaseGate.AllowedExactlyWhenReleasable | src/assurance/release_gate.py:71-282 | nothing is objected to if and only if review, inputs, key sets and every required lineage hold |
| ReleaseGate.StrictlyAllowedMeansOneLineage | src/assurance/release_gate.py:158-282 | a strictly allowed release has equal key sets, and for each required calculation verified records whose identities agree |
| ReleaseGate.StrictlyAllowedMeansExactInputs | src/assurance/release_gate.py:207-235 | its canonical inputs are the calculation's own amounts, exactly |
| ProofWorkflow.ValidateCalculationSet | src/application/phase3_proof.py:388-401 | passes exactly the eligible calculation sets and finds the growth calculation |
| ProofWorkflow.PoliciesAgreeExactlyWithoutNumericConsistency | src/assurance/proof_policy.py:9-15 | workflow and service require the same proofs if and only if one formula is absent |
| ProofWorkflow.ProveForRelease | src/application/service.py:557-565 | a run goes on exactly without the second formula; with it, its proof is saved and the run refused; a retained outcome needs the service's own requirements |
| ProofWorkflow.Workflow.Execute | src/application/phase3_proof.py:69-225 | saves the requirements, then ends in the whole saved lineage or in an outcome without proofs, as the last event tells |
| ProofWorkflow.Workflow.Prove | src/application/phase3_proof.py:112-186 | the events of a broken-off proof are a proper beginning; a completed one saves and announces the whole lineage |
| ProofWorkflow.EstablishMeans | src/application/phase3_proof.py:112-377 | a lineage is established if and only if input, prover, independent verifier, formal mode and the receipt's file all agree, and it records exactly what was attested |
| ProofWorkflow.FailedOutcomeIsNeverReleased | src/application/phase3_proof.py:205-225 | the gate always refuses a failed outcome |
| ProofWorkflow.VerifiedOutcomeAddsNoObjection | src/application/phase3_proof.py:187-204 | a verified outcome with pinned image and unchanged, non-empty receipt draws no objection, under strict lineage if and only if there is an implementation hash |
| ProofWorkflow.VerifiedOutcomeIsAllowedExactly | src/assurance/release_gate.py:54-282 | the whole gate allows it if and only if the review is clean and, under strict lineage, there is an implementation hash |
| ProofWorkflow.CodeHashAloneIsProvedAndNotReleased | src/application/phase3_proof.py:282-285 | a calculation with a code hash is proved either way, and its clean strict submission released if and only if it has an implementation hash too |
| CredentialScan.ContainsCredential | scripts/run_phase3_acceptance.py:798-809 | for every cut into chunks, true if and only if a needle occurs in the whole file |
| CredentialScan.NewOccurrenceIsInWindow | scripts/run_phase3_acceptance.py:801-808 | an occurrence that a chunk completes lies within the overlap and the chunk |
| EvidenceRouting.RunEvidenceStore.RegisterAcquisition | src/application/evidence_routing.py:105-155 | keeps first records, lists known ids without repetition, announces an id at most once ever; refused, it leaves exactly the records before the first that does not fit |
| EvidenceRouting.RunEvidenceStore.RegisterRecords | src/application/evidence_routing.py:210-216 | registers exactly the records before the first one of another run or with another content under a known id |
| EvidenceRouting.NotRefusedMeans | src/application/evidence_routing.py:105-116 | an acquisition is accepted if and only if it is the run's own, its new records name it, and its records contradict nothing |
| EvidenceRouting.BelongsMeans | src/application/evidence_routing.py:218-220 | the tasks of a run are its id with some key |
| EvidenceRouting.RefusedRegistration | src/application/evidence_routing.py:115-116 | registering changes nothing if and only if every id was known already |
| EvidenceRouting.HalfRegistered | src/application/evidence_routing.py:115-116 | a refused acquisition that leaves a record registered |
| EvidenceRouting.RunEvidenceStore.LinkInputs | src/application/evidence_routing.py:157-166 | adds exactly the references before the first unknown one; refused, it changes nothing if and only if the task is foreign or lists those already |
| EvidenceRouting.LinkChangesNothing | src/application/evidence_routing.py:161-166 | linking changes nothing if and only if the task has a list that holds every id |
| EvidenceRouting.HalfLinked | src/application/evidence_routing.py:161-165 | a refused link that leaves a reference behind |
| EvidenceRouting.RunEvidenceStore.SelectIds | src/application/evidence_routing.py:168-180 | exactly the accepted records of the given categories and purposes, in the order of their registration |
| EvidenceRouting.RunEvidenceStore.Lineage | src/application/evidence_routing.py:182-198 | exactly the tasks that have the record among their inputs |
| EvidenceRouting.EvidenceTaskRouter.Route | src/application/evidence_routing.py:272-325 | an acquiring route registers what is collected for the scope read from the task, and returns disjoint inputs and outputs; every refusal has its exact cause |
| EvidenceRouting.ReadersOfEachCategory | src/application/evidence_routing.py:231-262 | for each category, exactly which task types read it |
| EvidenceRouting.OrphanRefersToNothing | src/application/evidence_routing.py:298-304 | a follow-up without a parent refers to nothing |
| EvidenceRouting.InputsAndOutputsAreDisjoint | src/application/evidence_routing.py:119-126 | a registered record has one producer, so no id is both input and output |
| EventSequence.InsertIsExact | alembic/versions/20260905_0007_phase4_runtime_bigint.py:38-69 | the trigger accepts exactly inserts without a sequence or with the next one, and refused ones change nothing |
| EventSequence.EachInsertIsPlayed | alembic/versions/20260905_0007_phase4_runtime_bigint.py:38-69 | from empty tables each granted insert adds exactly its row |
| EventSequence.EveryRunIsGapless | alembic/versions/20260905_0007_phase4_runtime_bigint.py:38-69 | for every interleaving each run's sequences are 1 to n and its counter n, or absent |
| EventSequence.OtherRunsAreUntouched | alembic/versions/20260905_0007_phase4_runtime_bigint.py:38-69 | an insert for one run is invisible to the others |
| EventSequence.Database.Add | alembic/versions/20260905_0007_phase4_runtime_bigint.py:38-69 | one insert returns the next sequence exactly when granted |
| PriceHistory.OrderedHistoricalEvidence | src/application/phase3_financial.py:592-632 | returns the one history of the candidates, or the number of paired days when too few |
| PriceHistory.HistoryIsUnique | src/application/phase3_financial.py:592-627 | ascending days, at most one price then one volume a day, by largest or smallest id, leave one history |
| PriceHistory.OtherEvidenceDoesNotMatter | src/application/phase3_financial.py:599-607 | evidence outside the historical market context or of another field does not matter |
| PriceHistory.OrderDoesNotMatter | src/application/phase3_financial.py:599-627 | the order of the evidence does not matter |
| PriceHistory.FoldCountsPairs | src/application/phase3_financial.py:629-629 | the fold counts exactly the days with a price and a volume in the history |
| PriceHistory.AvailableDays | src/application/phase3_financial.py:178-184 | the caller's separate count equals the fold's |

## Left out

- Provider clients, prompts, output validation and the resolution of a model execution: one call is one reply.
- The message digests of a run are read as a yes or no per call; a change of the inputs while a call is open is a classified error.
- Certifications, provenance and health of routes from earlier evidence are given when a run starts.
- Cost budgets: the source refuses every run that has one, and so does the model.
- Failures of the evidence store, other than the single-entry index and the attempt number's bound.
- The names, usage numbers and latencies in evidence rows, and the list of attempted models in the answer.
- AcquisitionScopes.Lower: case folding is ASCII only.
- Planning.Build: origins and statuses of tasks are not carried over, because no rule reads them.
- The resolution of a task's contracted inputs is given; the output contracts that are assigned and the outputs that are published are not modelled.
- The release service inside a closure is a list of emitted events and a result; child rows are not modelled.
- RetainedProofs.RetainedOutcome: rows are taken to agree with their payloads' keys, which the source checks first; the requirements of the outcome depend on the run and not on the rows, and its fixed texts are dropped.
- ClosureRecovery.Database.Release: comparing and writing are one atomic step; the source locks the aggregate row only and reads events and proofs without a lock, so a writer that ignores that row could come between.
- The review input digest and the review record's own validation: the digest is given, or absent when it cannot be made.
- The prover, the verifier and the receipt format: a result, a yes or no, and a size and digest for each file.
- ProofWorkflow.Workflow.Execute: emitting an event always succeeds.
- EvidenceRouting.EvidenceTaskRouter.Route: the collector answers for the task it was asked about, with accepted records among the ingested ones.
- PriceHistory.Sort: a record listed twice is kept once, which the fold cannot tell; ids stand for their ranks.
- Events, requests and rows that exist before the first insert of the sequence trigger.
- The installer, the web server, the evaluator console, streaming, tracing and the acceptance matrices.

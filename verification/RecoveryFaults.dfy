/** What each error of a provider means for the run, told by the log and by how it ends. */
module RecoveryFaults {
  import opened Wrappers
  import opened RecoveryDomain
  import opened RecoveryPolicy
  import opened RecoveryLog
  import opened RecoveryAnswers

  /** The provider could not be reached, was too slow, or turned the request away for now. */
  const TRANSPORT_CODES: set<Code> :=
    {ReadTimeoutCode, OverallDeadlineExceededCode, ConnectTimeoutCode, ProviderUnavailableCode,
     RemoteProtocolErrorCode, QuotaOrRateLimitCode, RetryableHttpFailureCode}

  /** The provider answered, and with the wrong identity or the wrong shape. */
  const ANSWER_CODES: set<Code> := {IdentityMismatchCode, InvalidProviderResponseCode, SemanticSchemaFailureCode}

  predicate IsTransportFault(fault: Fault) {
    fault.ProviderFault? && fault.code in TRANSPORT_CODES
  }

  predicate IsAnswerFault(fault: Fault) {
    fault.ValidationFault? || (fault.ProviderFault? && fault.code in ANSWER_CODES)
  }

  /** The failure class that the evidence row keeps for each error. */
  lemma RecordedClassOfEachFault(fault: Fault, generated: bool)
    ensures ClosingOf(Faulted(fault), generated).Fail?
    ensures var c := ClosingOf(Faulted(fault), generated).failureClass;
            && (fault == ProviderFault(ReadTimeoutCode) ==> c == ReadTimeout)
            && (fault == ProviderFault(OverallDeadlineExceededCode) ==> c == ProviderDeadlineExceeded)
            && (fault == ProviderFault(RemoteProtocolErrorCode) ==> c == RemoteProtocolError)
            && (fault == ProviderFault(QuotaOrRateLimitCode) ==> c == RateLimit)
            && (fault == ProviderFault(ConnectTimeoutCode) ==> c == ProviderUnavailable)
            && (fault == ProviderFault(ProviderUnavailableCode) ==> c == ProviderUnavailable)
            && (fault == ProviderFault(RetryableHttpFailureCode) ==> c == ProviderUnavailable)
            && (fault == ProviderFault(IdentityMismatchCode) ==> c == ModelIdentityMismatch)
            && (fault == ProviderFault(InvalidProviderResponseCode) ==> c == OutputContractFailure)
            && (fault == ProviderFault(SemanticSchemaFailureCode) ==> c == OutputContractFailure)
            && (fault == ValidationFault ==> c == OutputContractFailure)
            && (fault == OtherFault ==> c == UnknownFailure)
            && (fault.ProviderFault? && fault.code !in TRANSPORT_CODES + ANSWER_CODES ==>
                  c == NonRecoverableRuntimeFailure)
  {
  }

  /** The run goes on after an attempt exactly when its error is one of transport, or, in a generated
      operation, one of the answer. */
  lemma ContinuesExactlyAfterRecoverableFaults(cfg: Config, log: Log, number: nat, r: Route, check: bool, fault: Fault)
    ensures Continues(cfg, log + [Completed(number, r, check, ClosingOf(Faulted(fault), cfg.generated))])
            <==> IsTransportFault(fault) || (cfg.generated && IsAnswerFault(fault))
  {
    RecordedClassOfEachFault(fault, cfg.generated);
  }

  /** What a failed attempt teaches about its route: a check leaves it unknown after a transport error and
      quarantines it after any other; an execution only ever quarantines it, in a generated operation whose
      provider was the wrong one. */
  lemma RouteAfterFault(cfg: Config, log: Log, number: nat, r: Route, check: bool, fault: Fault)
    requires r in CapabilitiesAfter(cfg, log)
    ensures var caps := CapabilitiesAfter(cfg, log);
            CapabilitiesAfter(cfg, log + [Completed(number, r, check, ClosingOf(Faulted(fault), cfg.generated))])
            == caps[r := if check then (if IsTransportFault(fault) then Unknown else Quarantined)
                         else if cfg.generated && fault == ProviderFault(IdentityMismatchCode) then Quarantined
                         else caps[r]]
  {
    var e := Completed(number, r, check, ClosingOf(Faulted(fault), cfg.generated));
    RecordedClassOfEachFault(fault, cfg.generated);
    hide ClosingOf;
    assert (log + [e])[..|log|] == log;
  }

  /** Why a run ends as non-recoverable: its inputs had changed before a call, its last
      call was refused authorization, or its last call failed with an error that does not let it go on. */
  ghost predicate CannotGoOn(cfg: Config, env: Environment, head: Log) {
    || ((head == [] || Last(head).Decided?) && !env.intact(|Invocations(head)|))
    || (head != [] && Last(head).Completed? && |Invocations(head)| > 0
        && var reply := env.reply(|Invocations(head)| - 1);
           || reply == Unauthorized
           || (reply.Faulted? && !IsTransportFault(reply.fault) && !(cfg.generated && IsAnswerFault(reply.fault))))
  }

  lemma NonRecoverableOnlyForItsCauses(cfg: Config, env: Environment, log: Log)
    requires Genuine(cfg, env, log) && Concluded(cfg, env, log, Stopped(NonRecoverableStop))
    ensures CannotGoOn(cfg, env, log[..|log| - 1])
  {
    hide Justified, LedgerOf, HeadContext, ClosingOf, NothingUsable, TimeLeft, ClockReads, Invocations;
    var head := log[..|log| - 1];
    assert Faithful(cfg, env, head) && Cause(cfg, env, head, NonRecoverableStop);
    if head != [] && Last(head).Completed? {
      assert Answers(cfg, env, head[..|head| - 1], Last(head));
      SameCalls(head);
      ClosingTells(env.reply(|Invocations(head)| - 1), cfg.generated);
    }
  }

  lemma SameCalls(log: Log)
    requires log != [] && Last(log).Completed?
    ensures Invocations(log) == Invocations(log[..|log| - 1])
  {
  }

  /** What the closing of a call tells about its reply. */
  lemma ClosingTells(reply: Reply, generated: bool)
    ensures var closing := ClosingOf(reply, generated);
            && (closing.Refused? <==> reply == Unauthorized)
            && (closing.Pass? <==> reply.Answered?) && (closing.Cancelled? <==> reply.Interrupted?)
            && (closing == Fail(TaskDeadlineExceeded) <==> reply == TimedOut)
            && (closing.Fail? && !Reassess(closing.failureClass, generated).recoverable && reply != TimedOut <==>
                  reply.Faulted? && !IsTransportFault(reply.fault) && !(generated && IsAnswerFault(reply.fault)))
  {
    if reply.Faulted? {
      RecordedClassOfEachFault(reply.fault, generated);
    }
  }
}

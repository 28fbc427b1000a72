/** What the closure classification lists where: each list's content and order, told by the run alone. */
module ClosureOutputs {
  import opened Wrappers
  import opened TaskGraph
  import opened ClosurePolicy

  /** The lists of a classification. */
  datatype Part =
    | RequiredSatisfied
    | RequiredMissing
    | RequiredFailed
    | SupportingSatisfied
    | SupportingMissing
    | SupportingFailed
    | Limitations

  function Pick(n: Notes, part: Part): seq<string> {
    match part
    case RequiredSatisfied => n.required.satisfied
    case RequiredMissing => n.required.missing
    case RequiredFailed => n.required.failed
    case SupportingSatisfied => n.supporting.satisfied
    case SupportingMissing => n.supporting.missing
    case SupportingFailed => n.supporting.failed
    case Limitations => n.limitations
  }

  // ---- What belongs where ---------------------------------------------------------------

  /** A capability of the scheme is satisfied when a calculation passed, and missing otherwise. */
  predicate OfCapability(a: Aggregate, part: Part, x: string) {
    && x in a.required
    && ((part == RequiredSatisfied && x in a.passed) || (part == RequiredMissing && x !in a.passed))
  }

  /** A branch is listed under its own requirement; an optional one that is not completed is a limitation. */
  predicate OfBranch(b: Branch, part: Part, x: string) {
    || (x == b.id && b.status.CompletedBranch?
        && part == if b.required then RequiredSatisfied else SupportingSatisfied)
    || (x == b.id && !b.status.CompletedBranch? && part == if b.required then RequiredMissing else SupportingMissing)
    || (x == b.id && b.status.FailedBranch? && part == if b.required then RequiredFailed else SupportingFailed)
    || (!b.required && part == Limitations
        && ((b.status.FailedBranch? && x == b.id + ":" + "FAILED")
            || (b.status.OtherBranch? && x == b.id + ":" + b.status.name)))
  }

  /** Inputs that a contract needs and that are not ready are missing. */
  predicate OfContract(a: Aggregate, t: Task, part: Part, x: string) {
    t.contract.Some? && !a.resolve(t.id).ready && part == RequiredMissing && x in a.resolve(t.id).missing
  }

  /** A task is listed by whether it can be done without; a failed build counts as failed only for one that
      cannot. */
  ghost predicate OfTask(a: Aggregate, t: Task, part: Part, x: string) {
    var spare := Supporting(a, t);
    || (x == t.id && t.status.CompletedTask? && part == if spare then SupportingSatisfied else RequiredSatisfied)
    || (x == t.id && !t.status.CompletedTask? && part == if spare then SupportingMissing else RequiredMissing)
    || (x == t.id && t.status.FailedTask? && part == if spare then SupportingFailed else RequiredFailed)
    || (x == t.id && t.status.CapabilityBuildFailed? && !spare && part == RequiredFailed)
    || (spare && part == Limitations
        && ((t.status.FailedTask? && x == t.id + ":" + "FAILED")
            || (t.status.CapabilityBuildFailed? && x == t.id + ":" + "CAPABILITY_BUILD_FAILED")
            || (t.status.OtherStatus? && x == t.id + ":" + t.status.name)))
  }

  // ---- Item by item ---------------------------------------------------------------------

  lemma PickJoin(x: Notes, y: Notes, part: Part)
    ensures Pick(Join(x, y), part) == Pick(x, part) + Pick(y, part)
  {
  }

  lemma CapabilityListed(a: Aggregate, c: string, part: Part, x: string)
    requires c in a.required
    ensures x in Pick(CapabilityNote(a, c), part) <==> x == c && OfCapability(a, part, x)
  {
  }

  lemma BranchListed(b: Branch, part: Part, x: string)
    ensures x in Pick(BranchNote(b), part) <==> OfBranch(b, part, x)
  {
  }

  lemma ContractListed(a: Aggregate, t: Task, part: Part, x: string)
    ensures x in Pick(ContractNote(a, t), part) <==> OfContract(a, t, part, x)
  {
  }

  lemma TaskListed(a: Aggregate, t: Task, part: Part, x: string)
    ensures x in Pick(TaskNote(t, Supporting(a, t)), part) <==> OfTask(a, t, part, x)
  {
    hide Supporting;
  }

  // ---- The whole classification ---------------------------------------------------------

  lemma {:induction false} CapabilitiesListed(a: Aggregate, n: nat, part: Part, x: string)
    requires n <= |a.required|
    ensures x in Pick(CapabilityNotes(a, n), part) <==> x in a.required[..n] && OfCapability(a, part, x)
  {
    hide CapabilityNote, Join, Pick;
    if n == 0 {
      BlankIsEmpty(part);
    } else {
      CapabilitiesListed(a, n - 1, part, x);
      PickJoin(CapabilityNotes(a, n - 1), CapabilityNote(a, a.required[n - 1]), part);
      CapabilityListed(a, a.required[n - 1], part, x);
      assert a.required[..n] == a.required[..n - 1] + [a.required[n - 1]];
    }
  }

  lemma BlankIsEmpty(part: Part)
    ensures Pick(BLANK, part) == []
  {
  }

  lemma {:induction false} BranchesListed(a: Aggregate, n: nat, part: Part, x: string)
    requires n <= |a.branches|
    ensures x in Pick(BranchNotes(a, n), part) <==>
            OfCapability(a, part, x) || exists i :: 0 <= i < n && OfBranch(a.branches[i], part, x)
  {
    hide BranchNote, Join, Pick, OfBranch, OfCapability;
    if n == 0 {
      CapabilitiesListed(a, |a.required|, part, x);
      CapabilitiesOnly(a, part, x);
    } else {
      BranchesListed(a, n - 1, part, x);
      PickJoin(BranchNotes(a, n - 1), BranchNote(a.branches[n - 1]), part);
      BranchListed(a.branches[n - 1], part, x);
    }
  }

  lemma CapabilitiesOnly(a: Aggregate, part: Part, x: string)
    ensures x in a.required[..|a.required|] && OfCapability(a, part, x) <==> OfCapability(a, part, x)
  {
    assert a.required[..|a.required|] == a.required;
  }

  lemma {:induction false} TasksListed(a: Aggregate, n: nat, part: Part, x: string)
    requires n <= |a.tasks|
    ensures x in Pick(TaskNotes(a, n), part) <==>
            || OfCapability(a, part, x)
            || (exists i :: 0 <= i < |a.branches| && OfBranch(a.branches[i], part, x))
            || (exists i :: 0 <= i < n && (OfContract(a, a.tasks[i], part, x) || OfTask(a, a.tasks[i], part, x)))
  {
    hide ContractNote, TaskNote, Join, Pick, OfBranch, OfCapability, OfContract, OfTask, Supporting;
    if n == 0 {
      BranchesListed(a, |a.branches|, part, x);
    } else {
      var t := a.tasks[n - 1];
      var before, contract := TaskNotes(a, n - 1), ContractNote(a, t);
      TasksListed(a, n - 1, part, x);
      PickJoin(before, contract, part);
      PickJoin(Join(before, contract), TaskNote(t, Supporting(a, t)), part);
      ContractListed(a, t, part, x);
      TaskListed(a, t, part, x);
    }
  }

  /** Every list of the classification holds exactly what belongs there. */
  lemma ClassificationLists(a: Aggregate, part: Part, x: string)
    ensures x in Pick(TaskNotes(a, |a.tasks|), part) <==>
            || OfCapability(a, part, x)
            || (exists b :: b in a.branches && OfBranch(b, part, x))
            || (exists t :: t in a.tasks && (OfContract(a, t, part, x) || OfTask(a, t, part, x)))
  {
    hide TaskNotes, Pick, OfBranch, OfCapability, OfContract, OfTask;
    TasksListed(a, |a.tasks|, part, x);
    if b :| b in a.branches && OfBranch(b, part, x) {
      var i :| 0 <= i < |a.branches| && a.branches[i] == b;
    }
    if t :| t in a.tasks && (OfContract(a, t, part, x) || OfTask(a, t, part, x)) {
      var i :| 0 <= i < |a.tasks| && a.tasks[i] == t;
    }
  }

  /** The lists only grow, from capabilities over branches to tasks: what comes later is listed later. */
  lemma ListsGrowInOrder(a: Aggregate, n: nat, part: Part)
    requires n < |a.tasks|
    ensures Pick(TaskNotes(a, n), part) <= Pick(TaskNotes(a, n + 1), part)
  {
    hide ContractNote, TaskNote, Join, Pick, Supporting;
    var t := a.tasks[n];
    var before, contract := TaskNotes(a, n), ContractNote(a, t);
    PickJoin(before, contract, part);
    PickJoin(Join(before, contract), TaskNote(t, Supporting(a, t)), part);
  }

  lemma BranchListsGrowInOrder(a: Aggregate, n: nat, part: Part)
    requires n < |a.branches|
    ensures Pick(BranchNotes(a, n), part) <= Pick(BranchNotes(a, n + 1), part)
    ensures TaskNotes(a, 0) == BranchNotes(a, |a.branches|) && BranchNotes(a, 0) == CapabilityNotes(a, |a.required|)
  {
    hide BranchNote, Join, Pick;
    PickJoin(BranchNotes(a, n), BranchNote(a.branches[n]), part);
  }

  /** The profiles whose narrative is optional, and the analyst that goes with each. */
  lemma OptionalProfiles(taskType: string)
    ensures OptionalAgent(taskType).Some? <==>
            taskType in ["fundamental_analysis", "valuation_analysis", "risk_analysis", "peer_analysis",
                         "research_news_analysis"]
    ensures OptionalAgent(taskType).Some? ==>
              |taskType| >= 8 && OptionalAgent(taskType).value == taskType[..|taskType| - 8] + "analyst"
  {
    assert "fundamental_analysis"[..12] == "fundamental_" && "valuation_analysis"[..10] == "valuation_";
    assert "risk_analysis"[..5] == "risk_" && "peer_analysis"[..5] == "peer_";
    assert "research_news_analysis"[..14] == "research_news_";
  }
}

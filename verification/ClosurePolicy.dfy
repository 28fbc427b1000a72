/** Requirement-aware closure: what a run's execution left satisfied, missing and failed, and whether it
    may go to review. */
module ClosurePolicy {
  import opened Wrappers
  import opened TaskGraph

  datatype Contract = Contract(hard: seq<string>, anyOf: seq<seq<string>>, supporting: seq<string>,
                               enrichment: seq<string>)

  datatype TaskStatus = CompletedTask | FailedTask | CapabilityBuildFailed | OtherStatus(name: string)

  datatype Task = Task(
    id: Id,
    taskType: string,
    agent: string,
    skill: string,
    dependencies: seq<Id>,
    status: TaskStatus,
    contract: Option<Contract>,
    outcomes: seq<string>,
    missingInputs: bool)

  datatype BranchStatus = CompletedBranch | FailedBranch | OtherBranch(name: string)

  datatype Branch = Branch(id: string, required: bool, status: BranchStatus)

  /** Whether a task's contracted inputs are ready, and which are not. */
  datatype Resolution = Resolution(ready: bool, missing: seq<string>)

  /** `required` are the scheme's capabilities, `passed` those of the passing calculations, `resolve` the
      given resolution of each task's inputs. */
  datatype Aggregate = Aggregate(
    required: seq<string>,
    passed: set<string>,
    branches: seq<Branch>,
    tasks: seq<Task>,
    resolve: Id -> Resolution)

  datatype Gap = CalculationUnavailable | ResearchOutputMissing

  datatype Outputs = Outputs(satisfied: seq<string>, missing: seq<string>, failed: seq<string>)

  datatype Notes = Notes(required: Outputs, supporting: Outputs, limitations: seq<string>, gaps: seq<Gap>)

  const NOTHING := Outputs([], [], [])
  const BLANK := Notes(NOTHING, NOTHING, [], [])

  function JoinOutputs(a: Outputs, b: Outputs): Outputs {
    Outputs(a.satisfied + b.satisfied, a.missing + b.missing, a.failed + b.failed)
  }

  function Join(a: Notes, b: Notes): Notes {
    Notes(JoinOutputs(a.required, b.required), JoinOutputs(a.supporting, b.supporting),
          a.limitations + b.limitations, a.gaps + b.gaps)
  }

  // ---- Graph of the run -----------------------------------------------------------------

  function NodesOf(tasks: seq<Task>): (ns: seq<Node>)
    ensures |ns| == |tasks| && forall i :: 0 <= i < |tasks| ==> ns[i] == Node(tasks[i].id, tasks[i].dependencies)
  {
    seq(|tasks|, i requires 0 <= i < |tasks| => Node(tasks[i].id, tasks[i].dependencies))
  }

  function GraphOf(a: Aggregate): Graph {
    FromNodes(NodesOf(a.tasks))
  }

  /** The run's graph as admission leaves it: ids once, dependencies known. */
  ghost predicate Admitted(a: Aggregate) {
    Distinct(Ids(NodesOf(a.tasks))) && Closed(GraphOf(a))
  }

  lemma TaskIsInGraph(a: Aggregate, t: Task)
    requires t in a.tasks
    ensures t.id in GraphOf(a)
  {
    var i :| 0 <= i < |a.tasks| && a.tasks[i] == t;
    assert Ids(NodesOf(a.tasks))[i] == t.id;
  }

  // ---- Supporting tasks -----------------------------------------------------------------

  function OptionalAgent(taskType: string): Option<string> {
    if taskType == "fundamental_analysis" then Some("fundamental_analyst")
    else if taskType == "valuation_analysis" then Some("valuation_analyst")
    else if taskType == "risk_analysis" then Some("risk_analyst")
    else if taskType == "peer_analysis" then Some("peer_analyst")
    else if taskType == "research_news_analysis" then Some("research_news_analyst")
    else None
  }

  ghost predicate IsAncestor(a: Aggregate, t: Task, consumer: Task) {
    t.id in Ancestors(GraphOf(a), consumer.id)
  }

  /** A downstream contract lists the task's narrative as supporting. */
  ghost predicate ListedBy(a: Aggregate, t: Task, consumer: Task) {
    consumer.contract.Some? && IsAncestor(a, t, consumer)
    && t.id + "/agent_output" in consumer.contract.value.supporting
  }

  /** A qualitative profile whose narrative a downstream contract lists as supporting. */
  ghost predicate LegacySupporting(a: Aggregate, t: Task) {
    && OptionalAgent(t.taskType) == Some(t.agent) && t.skill == t.taskType + "_v1" && !t.missingInputs
    && exists consumer :: consumer in a.tasks && ListedBy(a, t, consumer)
  }

  function Refs(t: Task): set<string> {
    set o | o in t.outcomes :: t.id + "/" + o
  }

  /** The consumer insists on the reference: by contract, or without one by depending on the task directly. */
  ghost predicate Insists(a: Aggregate, t: Task, consumer: Task, ref: string) {
    && IsAncestor(a, t, consumer)
    && match consumer.contract
       case None => t.id in consumer.dependencies && ref in Refs(t)
       case Some(c) => ref in c.hard
  }

  /** The consumer declares the reference as one it can do without; an alternative counts once its inputs
      are ready. */
  ghost predicate Spares(a: Aggregate, t: Task, consumer: Task, ref: string) {
    && IsAncestor(a, t, consumer) && consumer.contract.Some?
    && var c := consumer.contract.value;
       || ref in c.supporting || ref in c.enrichment
       || (a.resolve(consumer.id).ready && exists group :: group in c.anyOf && ref in group)
  }

  /** Every output of the task is declared dispensable by some consumer and insisted on by none. */
  ghost predicate ExplicitSupporting(a: Aggregate, t: Task) {
    && Refs(t) != {}
    && (forall ref :: ref in Refs(t) ==> exists consumer :: consumer in a.tasks && Spares(a, t, consumer, ref))
    && (forall ref, consumer :: ref in Refs(t) && consumer in a.tasks ==> !Insists(a, t, consumer, ref))
  }

  ghost predicate Supporting(a: Aggregate, t: Task) {
    LegacySupporting(a, t) || ExplicitSupporting(a, t)
  }

  // ---- What each item contributes -------------------------------------------------------

  function CapabilityNote(a: Aggregate, capability: string): Notes {
    if capability in a.passed then BLANK.(required := NOTHING.(satisfied := [capability]))
    else BLANK.(required := NOTHING.(missing := [capability]), gaps := [CalculationUnavailable])
  }

  function BranchName(s: BranchStatus): string {
    match s
    case CompletedBranch => "COMPLETED"
    case FailedBranch => "FAILED"
    case OtherBranch(name) => name
  }

  function StatusName(s: TaskStatus): string {
    match s
    case CompletedTask => "COMPLETED"
    case FailedTask => "FAILED"
    case CapabilityBuildFailed => "CAPABILITY_BUILD_FAILED"
    case OtherStatus(name) => name
  }

  function BranchNote(b: Branch): Notes {
    var outputs := if b.status == CompletedBranch then Outputs([b.id], [], [])
                   else Outputs([], [b.id], if b.status == FailedBranch then [b.id] else []);
    if b.required then Notes(outputs, NOTHING, [], if b.status == CompletedBranch then [] else [CalculationUnavailable])
    else Notes(NOTHING, outputs, if b.status == CompletedBranch then [] else [b.id + ":" + BranchName(b.status)], [])
  }

  /** Inputs that a contract needs and that are not ready. */
  function ContractNote(a: Aggregate, t: Task): Notes {
    if t.contract.Some? && !a.resolve(t.id).ready
    then BLANK.(required := NOTHING.(missing := a.resolve(t.id).missing), gaps := [ResearchOutputMissing])
    else BLANK
  }

  function TaskNote(t: Task, supporting: bool): Notes {
    if t.status == CompletedTask then
      if supporting then BLANK.(supporting := Outputs([t.id], [], [])) else BLANK.(required := Outputs([t.id], [], []))
    else if supporting then
      Notes(NOTHING, Outputs([], [t.id], if t.status == FailedTask then [t.id] else []),
            [t.id + ":" + StatusName(t.status)], [])
    else
      Notes(Outputs([], [t.id], if t.status in {FailedTask, CapabilityBuildFailed} then [t.id] else []), NOTHING, [],
            [ResearchOutputMissing])
  }

  ghost function CapabilityNotes(a: Aggregate, n: nat): Notes
    requires n <= |a.required|
  {
    if n == 0 then BLANK else Join(CapabilityNotes(a, n - 1), CapabilityNote(a, a.required[n - 1]))
  }

  ghost function BranchNotes(a: Aggregate, n: nat): Notes
    requires n <= |a.branches|
  {
    if n == 0 then CapabilityNotes(a, |a.required|) else Join(BranchNotes(a, n - 1), BranchNote(a.branches[n - 1]))
  }

  ghost function TaskNotes(a: Aggregate, n: nat): Notes
    requires n <= |a.tasks|
  {
    if n == 0 then BranchNotes(a, |a.branches|)
    else Join(Join(TaskNotes(a, n - 1), ContractNote(a, a.tasks[n - 1])),
              TaskNote(a.tasks[n - 1], Supporting(a, a.tasks[n - 1])))
  }

  // ---- The classification ---------------------------------------------------------------

  method IsLegacySupporting(a: Aggregate, t: Task) returns (b: bool)
    requires Admitted(a)
    ensures b == LegacySupporting(a, t)
  {
    hide Admitted, ListedBy, GraphOf;
    if OptionalAgent(t.taskType) != Some(t.agent) || t.skill != t.taskType + "_v1" || t.missingInputs {
      return false;
    }
    for i := 0 to |a.tasks|
      invariant forall j :: 0 <= j < i ==> !ListedBy(a, t, a.tasks[j])
    {
      var listed := Lists(a, t, a.tasks[i]);
      if listed {
        assert a.tasks[i] in a.tasks;
        return true;
      }
    }
    return false;
  }

  method Lists(a: Aggregate, t: Task, consumer: Task) returns (b: bool)
    requires Admitted(a) && consumer in a.tasks
    ensures b == ListedBy(a, t, consumer)
  {
    hide Ancestors;
    b := false;
    if consumer.contract.Some? {
      TaskIsInGraph(a, consumer);
      var ancestors := AncestorsOf(GraphOf(a), consumer.id);
      b := t.id in ancestors && t.id + "/agent_output" in consumer.contract.value.supporting;
    }
  }

  method IsExplicitSupporting(a: Aggregate, t: Task) returns (b: bool)
    requires Admitted(a)
    ensures b == ExplicitSupporting(a, t)
  {
    hide Admitted, Insists, Spares, GraphOf;
    var refs := Refs(t);
    var spared, insisted: set<string> := {}, {};
    for i := 0 to |a.tasks|
      invariant forall ref :: ref in refs ==>
                  (ref in spared <==> exists j :: 0 <= j < i && Spares(a, t, a.tasks[j], ref))
      invariant forall ref :: ref in refs ==>
                  (ref in insisted <==> exists j :: 0 <= j < i && Insists(a, t, a.tasks[j], ref))
    {
      var s, d := Declared(a, t, a.tasks[i]);
      spared, insisted := spared + s, insisted + d;
    }
    CollectedRefs(a, t, refs, spared, insisted);
    b := refs != {} && refs <= spared && refs * insisted == {};
  }

  lemma CollectedRefs(a: Aggregate, t: Task, refs: set<string>, spared: set<string>, insisted: set<string>)
    requires refs == Refs(t)
    requires forall ref :: ref in refs ==>
               (ref in spared <==> exists j :: 0 <= j < |a.tasks| && Spares(a, t, a.tasks[j], ref))
    requires forall ref :: ref in refs ==>
               (ref in insisted <==> exists j :: 0 <= j < |a.tasks| && Insists(a, t, a.tasks[j], ref))
    ensures ExplicitSupporting(a, t) <==> refs != {} && refs <= spared && refs * insisted == {}
  {
    hide Spares, Insists;
    forall ref | ref in refs
      ensures ref in spared <==> exists consumer :: consumer in a.tasks && Spares(a, t, consumer, ref)
      ensures ref in insisted <==> exists consumer :: consumer in a.tasks && Insists(a, t, consumer, ref)
    {
      if consumer :| consumer in a.tasks && Spares(a, t, consumer, ref) {
        var j :| 0 <= j < |a.tasks| && a.tasks[j] == consumer;
      }
      if consumer :| consumer in a.tasks && Insists(a, t, consumer, ref) {
        var j :| 0 <= j < |a.tasks| && a.tasks[j] == consumer;
      }
    }
    DisjointMeans(refs, insisted);
  }

  lemma DisjointMeans(x: set<string>, y: set<string>)
    ensures x * y == {} <==> forall r :: r in x ==> r !in y
  {
    assert forall r :: r in x * y <==> r in x && r in y;
  }

  /** One consumer's dispensable and insisted references. */
  method Declared(a: Aggregate, t: Task, consumer: Task) returns (spared: set<string>, insisted: set<string>)
    requires Admitted(a) && consumer in a.tasks
    ensures forall ref :: ref in Refs(t) ==> (ref in spared <==> Spares(a, t, consumer, ref))
    ensures forall ref :: ref in Refs(t) ==> (ref in insisted <==> Insists(a, t, consumer, ref))
  {
    hide Ancestors, Refs, GraphOf;
    spared, insisted := {}, {};
    TaskIsInGraph(a, consumer);
    var ancestors := AncestorsOf(GraphOf(a), consumer.id);
    if t.id !in ancestors {
      return;
    }
    if consumer.contract.None? {
      if t.id in consumer.dependencies {
        insisted := Refs(t);
      }
      return;
    }
    var c := consumer.contract.value;
    insisted := set ref | ref in c.hard;
    spared := set ref | ref in c.supporting + c.enrichment;
    if a.resolve(consumer.id).ready {
      spared := spared + set group, ref | group in c.anyOf && ref in group :: ref;
    }
  }

  /** Classifies a run's outputs, item by item; the fatal reason is the first of the gaps in order of name. */
  method Classify(a: Aggregate) returns (notes: Notes, fatal: Option<Gap>)
    requires Admitted(a)
    ensures notes == TaskNotes(a, |a.tasks|)
    ensures fatal == if CalculationUnavailable in notes.gaps then Some(CalculationUnavailable)
                     else if ResearchOutputMissing in notes.gaps then Some(ResearchOutputMissing) else None
  {
    hide Admitted, LegacySupporting, ExplicitSupporting, Join, CapabilityNote, BranchNote, ContractNote, TaskNote;
    notes := BLANK;
    for i := 0 to |a.required|
      invariant notes == CapabilityNotes(a, i)
    {
      notes := Join(notes, CapabilityNote(a, a.required[i]));
    }
    for i := 0 to |a.branches|
      invariant notes == BranchNotes(a, i)
    {
      notes := Join(notes, BranchNote(a.branches[i]));
    }
    for i := 0 to |a.tasks|
      invariant notes == TaskNotes(a, i)
    {
      notes := Join(notes, ContractNote(a, a.tasks[i]));
      var legacy := IsLegacySupporting(a, a.tasks[i]);
      var explicitly := IsExplicitSupporting(a, a.tasks[i]);
      notes := Join(notes, TaskNote(a.tasks[i], legacy || explicitly));
    }
    fatal := if CalculationUnavailable in notes.gaps then Some(CalculationUnavailable)
             else if ResearchOutputMissing in notes.gaps then Some(ResearchOutputMissing) else None;
  }

  // ---- When a run is reviewable ---------------------------------------------------------

  predicate CalculationsComplete(a: Aggregate) {
    && (forall c :: c in a.required ==> c in a.passed)
    && (forall b :: b in a.branches && b.required ==> b.status == CompletedBranch)
  }

  /** The task's contract is met, and the task is done or can be done without. */
  ghost predicate Discharged(a: Aggregate, t: Task) {
    && (t.contract.Some? ==> a.resolve(t.id).ready)
    && (t.status == CompletedTask || Supporting(a, t))
  }

  lemma {:induction false} CapabilityGaps(a: Aggregate, n: nat)
    requires n <= |a.required|
    ensures ResearchOutputMissing !in CapabilityNotes(a, n).gaps
    ensures CalculationUnavailable in CapabilityNotes(a, n).gaps
            <==> exists i :: 0 <= i < n && a.required[i] !in a.passed
  {
    if n > 0 {
      CapabilityGaps(a, n - 1);
    }
  }

  lemma {:induction false} BranchGaps(a: Aggregate, n: nat)
    requires n <= |a.branches|
    ensures ResearchOutputMissing !in BranchNotes(a, n).gaps
    ensures CalculationUnavailable in BranchNotes(a, n).gaps <==>
            || CalculationUnavailable in CapabilityNotes(a, |a.required|).gaps
            || exists i :: 0 <= i < n && a.branches[i].required && a.branches[i].status != CompletedBranch
  {
    if n > 0 {
      BranchGaps(a, n - 1);
    } else {
      CapabilityGaps(a, |a.required|);
    }
  }

  lemma JoinGaps(x: Notes, y: Notes, g: Gap)
    ensures g in Join(x, y).gaps <==> g in x.gaps || g in y.gaps
  {
  }

  lemma GapsOfTask(a: Aggregate, t: Task)
    ensures var gaps := ContractNote(a, t).gaps + TaskNote(t, Supporting(a, t)).gaps;
            CalculationUnavailable !in gaps && (ResearchOutputMissing in gaps <==> !Discharged(a, t))
  {
    hide Supporting;
  }

  lemma {:induction false} TaskGaps(a: Aggregate, n: nat)
    requires n <= |a.tasks|
    ensures CalculationUnavailable in TaskNotes(a, n).gaps
            <==> CalculationUnavailable in BranchNotes(a, |a.branches|).gaps
    ensures ResearchOutputMissing in TaskNotes(a, n).gaps <==> exists i :: 0 <= i < n && !Discharged(a, a.tasks[i])
  {
    hide Supporting, Join, ContractNote, TaskNote, Discharged;
    if n > 0 {
      TaskGaps(a, n - 1);
      var t := a.tasks[n - 1];
      var before, contract, own := TaskNotes(a, n - 1), ContractNote(a, t), TaskNote(t, Supporting(a, t));
      GapsOfTask(a, t);
      JoinGaps(before, contract, CalculationUnavailable);
      JoinGaps(before, contract, ResearchOutputMissing);
      JoinGaps(Join(before, contract), own, CalculationUnavailable);
      JoinGaps(Join(before, contract), own, ResearchOutputMissing);
    } else {
      BranchGaps(a, |a.branches|);
    }
  }

  /** A run may go to review exactly when every required calculation is there and every task is discharged:
      its contract is met, and it is completed or nobody insists on it. A calculation gap is reported first. */
  lemma ReviewableExactlyWhenDischarged(a: Aggregate)
    ensures var gaps := TaskNotes(a, |a.tasks|).gaps;
            && (CalculationUnavailable !in gaps <==> CalculationsComplete(a))
            && (ResearchOutputMissing !in gaps <==> forall t :: t in a.tasks ==> Discharged(a, t))
  {
    hide Discharged, TaskNotes, BranchNotes, CapabilityNotes;
    TaskGaps(a, |a.tasks|);
    BranchGaps(a, |a.branches|);
    CapabilityGaps(a, |a.required|);
    assert forall i :: 0 <= i < |a.required| ==> a.required[i] in a.required;
    assert forall i :: 0 <= i < |a.branches| ==> a.branches[i] in a.branches;
    assert forall i :: 0 <= i < |a.tasks| ==> a.tasks[i] in a.tasks;
  }
}

/** The planner's graph builder and the runtime's admission validator. */
module Planning {
  import opened Wrappers
  import opened TaskGraph
  import opened AcquisitionScopes

  datatype TaskType =
    | EvidenceCollection
    | FundamentalAnalysis
    | PeerAnalysis
    | ResearchNewsAnalysis
    | ValuationAnalysis
    | RiskAnalysis
    | ReportSynthesis
    | QualityReview
    | OtherType(name: string)

  datatype Skill =
    | EvidenceCollectionV1
    | FundamentalAnalysisV1
    | PeerAnalysisV1
    | ResearchNewsAnalysisV1
    | ValuationAnalysisV1
    | RiskAnalysisV1
    | ReportSynthesisV1
    | OtherSkill(id: string)

  datatype Proposal = Proposal(key: Id, taskType: TaskType, goal: string, agent: string, skill: Skill,
                               dependencies: seq<Id>)

  datatype Task = Task(taskId: Id, runId: string, taskType: TaskType, goal: string, agent: string, skill: Skill,
                       dependencies: seq<Id>)

  datatype RuntimeGraph = RuntimeGraph(runId: string, tasks: seq<Task>)

  datatype PlanError =
    | DuplicateKey
    | UnknownDependency
    | CyclicPlan
    | MissingSkill
    | SkillMismatch
    | WrongMultiplicity
    | CollectionNotRoot
    | DuplicateScope
    | MissingScope
    | MissingUpstream
    | ReviewWithoutSynthesis

  /** The skill table shared by planning and admission. */
  function SkillTaskTypes(skill: Skill): set<TaskType> {
    match skill
    case EvidenceCollectionV1 => {EvidenceCollection}
    case FundamentalAnalysisV1 => {FundamentalAnalysis}
    case PeerAnalysisV1 => {PeerAnalysis}
    case ResearchNewsAnalysisV1 => {ResearchNewsAnalysis}
    case ValuationAnalysisV1 => {ValuationAnalysis}
    case RiskAnalysisV1 => {RiskAnalysis}
    case ReportSynthesisV1 => {ReportSynthesis, QualityReview}
    case OtherSkill(_) => {}
  }

  const NATIVE_TASK_TYPES := SkillTaskTypes(EvidenceCollectionV1)

  /** The task types a plan holds exactly once. */
  const SINGLE_TASK_TYPES: set<TaskType> :=
    {FundamentalAnalysis, PeerAnalysis, ResearchNewsAnalysis, ValuationAnalysis, RiskAnalysis, ReportSynthesis}

  function ScopeOf(p: Proposal): AcquisitionScope {
    HintedScope(p.key + " " + p.goal)
  }

  // ---- What an admissible plan is -------------------------------------------------------

  function NodesOf(plan: seq<Proposal>): (ns: seq<Node>)
    ensures |ns| == |plan| && forall i :: 0 <= i < |plan| ==> ns[i] == Node(plan[i].key, plan[i].dependencies)
  {
    seq(|plan|, i requires 0 <= i < |plan| => Node(plan[i].key, plan[i].dependencies))
  }

  function Keys(plan: seq<Proposal>): (ks: seq<Id>)
    ensures |ks| == |plan| && forall i :: 0 <= i < |plan| ==> ks[i] == plan[i].key
  {
    Ids(NodesOf(plan))
  }

  ghost predicate KnownDependencies(plan: seq<Proposal>) {
    forall p, d :: p in plan && d in p.dependencies ==> d in Keys(plan)
  }

  function GraphOf(plan: seq<Proposal>): (g: Graph)
    ensures forall k :: k in g <==> k in Keys(plan)
    ensures Distinct(Keys(plan)) ==> forall i :: 0 <= i < |plan| ==> g[plan[i].key] == plan[i].dependencies
  {
    var g := FromNodes(NodesOf(plan));
    assert forall i :: 0 <= i < |plan| ==> NodesOf(plan)[i] == Node(plan[i].key, plan[i].dependencies);
    g
  }

  function OfType(plan: seq<Proposal>, t: TaskType): (ps: seq<Proposal>)
    ensures forall p :: p in ps <==> p in plan && p.taskType == t
    ensures |ps| <= |plan|
  {
    if plan == [] then []
    else
      var init, p := plan[..|plan| - 1], plan[|plan| - 1];
      assert plan == init + [p];
      OfType(init, t) + if p.taskType == t then [p] else []
  }

  ghost predicate Upstream(plan: seq<Proposal>, t: TaskType, required: set<Id>) {
    |OfType(plan, t)| == 1 && required <= Ancestors(GraphOf(plan), OfType(plan, t)[0].key)
  }

  function TheKey(plan: seq<Proposal>, t: TaskType): Id {
    if |OfType(plan, t)| == 1 then OfType(plan, t)[0].key else ""
  }

  /** The acquisition task of a scope, among the collections. */
  function ScopeKey(collections: seq<Proposal>, s: AcquisitionScope): Option<Id> {
    if collections == [] then None
    else if ScopeOf(collections[0]) == s then Some(collections[0].key)
    else ScopeKey(collections[1..], s)
  }

  function ScopeKeyOr(collections: seq<Proposal>, s: AcquisitionScope): Id {
    var k := ScopeKey(collections, s);
    if k.Some? then k.value else ""
  }

  ghost predicate DistinctScopes(collections: seq<Proposal>) {
    forall i, j :: 0 <= i < j < |collections| ==> ScopeOf(collections[i]) != ScopeOf(collections[j])
  }

  predicate AllScopes(collections: seq<Proposal>) {
    ScopeKey(collections, Company).Some? && ScopeKey(collections, Peer).Some?
    && ScopeKey(collections, ResearchNews).Some?
  }

  /** What each analysis needs upstream. */
  function Required(plan: seq<Proposal>, t: TaskType): set<Id> {
    var collections := OfType(plan, EvidenceCollection);
    match t
    case FundamentalAnalysis => {ScopeKeyOr(collections, Company)}
    case PeerAnalysis => {ScopeKeyOr(collections, Company), ScopeKeyOr(collections, Peer)}
    case ResearchNewsAnalysis => {ScopeKeyOr(collections, ResearchNews)}
    case ValuationAnalysis => {TheKey(plan, FundamentalAnalysis), TheKey(plan, PeerAnalysis)}
    case RiskAnalysis => {TheKey(plan, FundamentalAnalysis), TheKey(plan, PeerAnalysis),
                          TheKey(plan, ResearchNewsAnalysis)}
    case ReportSynthesis =>
      {TheKey(plan, FundamentalAnalysis), TheKey(plan, PeerAnalysis), TheKey(plan, ResearchNewsAnalysis),
       TheKey(plan, ValuationAnalysis), TheKey(plan, RiskAnalysis)}
    case _ => {}
  }

  ghost predicate ReviewsFollowSynthesis(plan: seq<Proposal>) {
    forall r :: r in OfType(plan, QualityReview) ==> TheKey(plan, ReportSynthesis) in Ancestors(GraphOf(plan), r.key)
  }

  function SkillsOf(plan: seq<Proposal>): set<Skill> {
    set p | p in plan :: p.skill
  }

  ghost predicate SkillsFitTypes(plan: seq<Proposal>) {
    forall p :: p in plan ==> p.taskType in SkillTaskTypes(p.skill)
  }

  ghost predicate SinglesOnce(plan: seq<Proposal>) {
    forall t :: t in SINGLE_TASK_TYPES ==> |OfType(plan, t)| == 1
  }

  ghost predicate CollectionsAreRoots(plan: seq<Proposal>) {
    forall c :: c in OfType(plan, EvidenceCollection) ==> c.dependencies == []
  }

  ghost predicate ScopesCovered(plan: seq<Proposal>) {
    DistinctScopes(OfType(plan, EvidenceCollection)) && AllScopes(OfType(plan, EvidenceCollection))
  }

  ghost predicate UpstreamComplete(plan: seq<Proposal>) {
    forall t :: t in SINGLE_TASK_TYPES ==> Upstream(plan, t, Required(plan, t))
  }

  ghost predicate SkillsCovered(plan: seq<Proposal>, skills: seq<Skill>) {
    forall s :: s in skills ==> s in SkillsOf(plan)
  }

  ghost predicate SemanticRules(plan: seq<Proposal>) {
    && SkillsFitTypes(plan) && SinglesOnce(plan) && CollectionsAreRoots(plan)
    && ScopesCovered(plan) && UpstreamComplete(plan) && ReviewsFollowSynthesis(plan)
  }

  /** Every rule a plan has to meet, stated over the whole plan. */
  ghost predicate Admissible(plan: seq<Proposal>, skills: seq<Skill>) {
    && Distinct(Keys(plan)) && KnownDependencies(plan) && Acyclic(GraphOf(plan))
    && SkillsCovered(plan, skills) && SemanticRules(plan)
  }

  function IdOf(runId: string, key: Id): Id {
    runId + ":" + key
  }

  function Prefixed(runId: string, keys: seq<Id>): (ids: seq<Id>)
    ensures |ids| == |keys| && forall i :: 0 <= i < |keys| ==> ids[i] == IdOf(runId, keys[i])
  {
    seq(|keys|, i requires 0 <= i < |keys| => IdOf(runId, keys[i]))
  }

  function TaskOf(runId: string, p: Proposal): Task {
    Task(IdOf(runId, p.key), runId, p.taskType, p.goal, p.agent, p.skill, Prefixed(runId, p.dependencies))
  }

  function Build(runId: string, plan: seq<Proposal>): (g: RuntimeGraph)
    ensures |g.tasks| == |plan| && g.runId == runId
    ensures forall i :: 0 <= i < |plan| ==> g.tasks[i] == TaskOf(runId, plan[i])
  {
    RuntimeGraph(runId, seq(|plan|, i requires 0 <= i < |plan| => TaskOf(runId, plan[i])))
  }

  // ---- The builder ----------------------------------------------------------------------

  method HasDuplicates(keys: seq<Id>) returns (dup: bool)
    ensures dup <==> !Distinct(keys)
  {
    var seen: set<Id> := {};
    for i := 0 to |keys|
      invariant forall k :: k in seen <==> k in keys[..i]
      invariant Distinct(keys[..i])
    {
      if keys[i] in seen {
        var j :| 0 <= j < i && keys[..i][j] == keys[i];
        assert keys[j] == keys[i];
        return true;
      }
      seen := seen + {keys[i]};
      assert keys[..i + 1] == keys[..i] + [keys[i]];
    }
    assert keys[..|keys|] == keys;
    return false;
  }

  lemma KnownMeansClosed(plan: seq<Proposal>)
    requires Distinct(Keys(plan)) && KnownDependencies(plan)
    ensures Closed(GraphOf(plan))
  {
    forall k, d | k in GraphOf(plan) && d in GraphOf(plan)[k] ensures d in GraphOf(plan) {
      var i :| 0 <= i < |plan| && Keys(plan)[i] == k;
      assert plan[i] in plan;
    }
  }

  /** The first semantic rule that a plan breaks. */
  ghost function SemanticObjection(plan: seq<Proposal>): Option<PlanError> {
    if !SkillsFitTypes(plan) then Some(SkillMismatch)
    else if !SinglesOnce(plan) then Some(WrongMultiplicity)
    else if !CollectionsAreRoots(plan) then Some(CollectionNotRoot)
    else if !DistinctScopes(OfType(plan, EvidenceCollection)) then Some(DuplicateScope)
    else if !AllScopes(OfType(plan, EvidenceCollection)) then Some(MissingScope)
    else if !UpstreamComplete(plan) then Some(MissingUpstream)
    else if !ReviewsFollowSynthesis(plan) then Some(ReviewWithoutSynthesis)
    else None
  }

  /** Checks the plan in the order of the rules and builds the graph. */
  method BuildValidatedGraph(runId: string, skills: seq<Skill>, plan: seq<Proposal>)
    returns (r: Result<RuntimeGraph, PlanError>)
    ensures r.Ok? <==> Admissible(plan, skills)
    ensures r.Ok? ==> r.value == Build(runId, plan)
    ensures r == Err(DuplicateKey) <==> !Distinct(Keys(plan))
    ensures r == Err(UnknownDependency) <==> Distinct(Keys(plan)) && !KnownDependencies(plan)
    ensures r == Err(CyclicPlan) <==> Distinct(Keys(plan)) && KnownDependencies(plan) && !Acyclic(GraphOf(plan))
    ensures r.Err? && r.error !in {DuplicateKey, UnknownDependency, CyclicPlan} ==>
              if SkillsCovered(plan, skills) then SemanticObjection(plan) == Some(r.error) else r.error == MissingSkill
  {
    hide SemanticObjection, Acyclic, GraphOf, Keys, SemanticRules, SkillsOf;
    var dup := HasDuplicates(Keys(plan));
    if dup {
      return Err(DuplicateKey);
    }
    if exists p, d :: p in plan && d in p.dependencies && d !in Keys(plan) {
      return Err(UnknownDependency);
    }
    KnownMeansClosed(plan);
    var ok := EnsureAcyclic(GraphOf(plan));
    if !ok {
      return Err(CyclicPlan);
    }
    if exists s :: s in skills && s !in SkillsOf(plan) {
      return Err(MissingSkill);
    }
    var objection := ValidateSemantics(plan);
    r := if objection.Some? then Err(objection.value) else Ok(Build(runId, plan));
  }

  predicate IsSemantic(e: PlanError) {
    e !in {DuplicateKey, UnknownDependency, CyclicPlan, MissingSkill}
  }

  method ValidateSemantics(plan: seq<Proposal>) returns (objection: Option<PlanError>)
    requires Distinct(Keys(plan)) && KnownDependencies(plan)
    ensures objection.None? <==> SemanticRules(plan)
    ensures objection.Some? ==> IsSemantic(objection.value)
    ensures objection == SemanticObjection(plan)
  {
    hide OfType, ScopeOf, SkillTaskTypes, DistinctScopes, AllScopes, UpstreamComplete, ReviewsFollowSynthesis;
    if exists p :: p in plan && p.taskType !in SkillTaskTypes(p.skill) {
      return Some(SkillMismatch);
    }
    if exists t :: t in SINGLE_TASK_TYPES && |OfType(plan, t)| != 1 {
      return Some(WrongMultiplicity);
    }
    var collections := OfType(plan, EvidenceCollection);
    if exists c :: c in collections && c.dependencies != [] {
      return Some(CollectionNotRoot);
    }
    var distinct := CollectScopes(collections);
    if !distinct {
      return Some(DuplicateScope);
    }
    if !AllScopes(collections) {
      return Some(MissingScope);
    }
    objection := CheckUpstream(plan);
    if objection.None? {
      objection := CheckReviews(plan);
    }
  }

  method CollectScopes(collections: seq<Proposal>) returns (distinct: bool)
    ensures distinct <==> DistinctScopes(collections)
  {
    hide ScopeOf;
    var seen: set<AcquisitionScope> := {};
    for i := 0 to |collections|
      invariant forall s :: s in seen <==> exists j :: 0 <= j < i && ScopeOf(collections[j]) == s
      invariant forall j, k :: 0 <= j < k < i ==> ScopeOf(collections[j]) != ScopeOf(collections[k])
    {
      if ScopeOf(collections[i]) in seen {
        return false;
      }
      seen := seen + {ScopeOf(collections[i])};
    }
    return true;
  }

  method CheckUpstream(plan: seq<Proposal>) returns (objection: Option<PlanError>)
    requires Distinct(Keys(plan)) && KnownDependencies(plan)
    requires SinglesOnce(plan)
    ensures objection.None? <==> UpstreamComplete(plan)
    ensures objection.Some? ==> objection.value == MissingUpstream
  {
    hide Ancestors, Required, GraphOf, OfType;
    var types := [FundamentalAnalysis, PeerAnalysis, ResearchNewsAnalysis, ValuationAnalysis, RiskAnalysis,
                  ReportSynthesis];
    for i := 0 to |types|
      invariant forall j :: 0 <= j < i ==> Upstream(plan, types[j], Required(plan, types[j]))
    {
      assert types[i] in SINGLE_TASK_TYPES;
      var found := MarkOnPop(GraphOf(plan), OfType(plan, types[i])[0].key);
      if !(Required(plan, types[i]) <= found) {
        return Some(MissingUpstream);
      }
    }
    forall t | t in SINGLE_TASK_TYPES ensures Upstream(plan, t, Required(plan, t)) {
      assert t in types;
    }
    return None;
  }

  method CheckReviews(plan: seq<Proposal>) returns (objection: Option<PlanError>)
    ensures objection.None? <==> ReviewsFollowSynthesis(plan)
    ensures objection.Some? ==> objection.value == ReviewWithoutSynthesis
  {
    hide Ancestors, OfType, GraphOf, TheKey;
    var reviews := OfType(plan, QualityReview);
    for i := 0 to |reviews|
      invariant forall j :: 0 <= j < i ==> TheKey(plan, ReportSynthesis) in Ancestors(GraphOf(plan), reviews[j].key)
    {
      var found := MarkOnPop(GraphOf(plan), reviews[i].key);
      if TheKey(plan, ReportSynthesis) !in found {
        assert reviews[i] in reviews;
        return Some(ReviewWithoutSynthesis);
      }
    }
    return None;
  }
}

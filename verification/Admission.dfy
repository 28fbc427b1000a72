/** Runtime admission of task graphs, and how it composes with the planner's builder. */
module Admission {
  import opened Wrappers
  import opened TaskGraph
  import opened AcquisitionScopes
  import opened Planning

  type Registry = map<string, set<TaskType>>

  function TaskNodes(g: RuntimeGraph): (ns: seq<Node>)
    ensures |ns| == |g.tasks| && forall i :: 0 <= i < |g.tasks| ==>
              ns[i] == Node(g.tasks[i].taskId, g.tasks[i].dependencies)
  {
    seq(|g.tasks|, i requires 0 <= i < |g.tasks| => Node(g.tasks[i].taskId, g.tasks[i].dependencies))
  }

  function TaskIds(g: RuntimeGraph): seq<Id> {
    Ids(TaskNodes(g))
  }

  function DependencyGraph(g: RuntimeGraph): Graph {
    FromNodes(TaskNodes(g))
  }

  /** Agent lookup and agent support, the part of admission that the planner does not decide. */
  predicate AgentFits(t: Task, registry: Registry) {
    t.agent in registry && t.taskType in registry[t.agent] + NATIVE_TASK_TYPES
  }

  predicate TaskFits(g: RuntimeGraph, t: Task) {
    && t.taskType in SkillTaskTypes(t.skill)
    && t.runId == g.runId
    && g.runId + ":" <= t.taskId
    && forall d :: d in t.dependencies ==> d in TaskIds(g)
  }

  /** A task fits in plain terms: its agent is registered for its type or it only collects evidence, it is
      of the graph's run, by field and by id, and it depends on tasks of the graph. */
  lemma FittingMeans(g: RuntimeGraph, t: Task, registry: Registry)
    ensures AgentFits(t, registry) <==>
            t.agent in registry && (t.taskType in registry[t.agent] || t.taskType == EvidenceCollection)
    ensures TaskFits(g, t) <==>
            && t.taskType in SkillTaskTypes(t.skill) && t.runId == g.runId
            && (exists key :: t.taskId == g.runId + ":" + key)
            && (forall d :: d in t.dependencies ==> exists i :: 0 <= i < |g.tasks| && g.tasks[i].taskId == d)
  {
    assert NATIVE_TASK_TYPES == {EvidenceCollection};
    hide SkillTaskTypes;
    if g.runId + ":" <= t.taskId {
      assert t.taskId == g.runId + ":" + t.taskId[|g.runId| + 1..];
    }
    forall d ensures d in TaskIds(g) <==> exists i :: 0 <= i < |g.tasks| && g.tasks[i].taskId == d {
      if i :| 0 <= i < |g.tasks| && g.tasks[i].taskId == d {
        assert TaskIds(g)[i] == d;
      }
    }
  }

  predicate SchemeCovered(g: RuntimeGraph, scheme: Option<seq<Skill>>) {
    scheme.Some? ==> forall s :: s in scheme.value ==> exists t :: t in g.tasks && t.skill == s
  }

  /** Every skill of a scheme is some task's; without a scheme nothing is asked. */
  lemma SchemeMeans(g: RuntimeGraph, scheme: Option<seq<Skill>>)
    ensures SchemeCovered(g, scheme) <==>
            forall s :: scheme.Some? && s in scheme.value ==> exists i :: 0 <= i < |g.tasks| && g.tasks[i].skill == s
  {
    if scheme.Some? {
      forall s | s in scheme.value ensures (exists t :: t in g.tasks && t.skill == s) <==>
                       exists i :: 0 <= i < |g.tasks| && g.tasks[i].skill == s
      {
        if t :| t in g.tasks && t.skill == s {
          var i :| 0 <= i < |g.tasks| && g.tasks[i] == t;
        }
      }
    }
  }

  /** Everything admission asks of the graph itself. */
  ghost predicate WellBound(g: RuntimeGraph, scheme: Option<seq<Skill>>) {
    && g.tasks != [] && Distinct(TaskIds(g))
    && (forall t :: t in g.tasks ==> TaskFits(g, t))
    && Acyclic(DependencyGraph(g))
    && SchemeCovered(g, scheme)
  }

  /** The validator's two loops. */
  method ValidateBindings(g: RuntimeGraph, registry: Registry, scheme: Option<seq<Skill>>) returns (ok: bool)
    ensures ok <==> WellBound(g, scheme) && forall t :: t in g.tasks ==> AgentFits(t, registry)
  {
    hide Acyclic;
    var dup := HasDuplicates(TaskIds(g));
    if g.tasks == [] || dup {
      return false;
    }
    for i := 0 to |g.tasks|
      invariant forall j :: 0 <= j < i ==> AgentFits(g.tasks[j], registry) && TaskFits(g, g.tasks[j])
    {
      if !AgentFits(g.tasks[i], registry) || !TaskFits(g, g.tasks[i]) {
        assert g.tasks[i] in g.tasks;
        return false;
      }
    }
    FittingTasksAreClosed(g);
    var resolved := ResolveAll(DependencyGraph(g));
    return resolved && SchemeCovered(g, scheme);
  }

  lemma FittingTasksAreClosed(g: RuntimeGraph)
    requires Distinct(TaskIds(g))
    requires forall i :: 0 <= i < |g.tasks| ==> TaskFits(g, g.tasks[i])
    ensures Closed(DependencyGraph(g))
  {
    var h := DependencyGraph(g);
    forall k, d | k in h && d in h[k] ensures d in h {
      var i :| 0 <= i < |g.tasks| && TaskIds(g)[i] == k;
      assert h[TaskNodes(g)[i].id] == TaskNodes(g)[i].deps;
      assert TaskFits(g, g.tasks[i]);
    }
  }

  // ---- Prefixing ids --------------------------------------------------------------------

  lemma PrefixIsInjective(runId: string, a: Id, b: Id)
    ensures IdOf(runId, a) == IdOf(runId, b) <==> a == b
    ensures IdOf(runId, a)[|runId| + 1..] == a
  {
    assert IdOf(runId, a)[|runId| + 1..] == a;
    assert IdOf(runId, b)[|runId| + 1..] == b;
  }

  /** `h` is `g` with every id prefixed. */
  ghost predicate IsPrefixed(runId: string, g: Graph, h: Graph) {
    && (forall k :: k in g ==> IdOf(runId, k) in h && h[IdOf(runId, k)] == Prefixed(runId, g[k]))
    && (forall x :: x in h ==> exists k :: k in g && x == IdOf(runId, k))
  }

  lemma PrefixedDeps(runId: string, g: Graph, h: Graph, k: Id)
    requires IsPrefixed(runId, g, h)
    ensures Deps(h, IdOf(runId, k)) == Prefixed(runId, Deps(g, k))
  {
    if IdOf(runId, k) in h {
      var j :| j in g && IdOf(runId, k) == IdOf(runId, j);
      PrefixIsInjective(runId, k, j);
    } else {
      assert k !in g;
    }
  }

  lemma ReachesPrefixed(runId: string, g: Graph, h: Graph, a: Id, b: Id)
    requires IsPrefixed(runId, g, h) && Reaches(g, a, b)
    ensures Reaches(h, IdOf(runId, a), IdOf(runId, b))
  {
    var p :| IsWalk(g, p) && p[0] == a && p[|p| - 1] == b;
    var q := Prefixed(runId, p);
    forall i | 0 <= i < |q| - 1 ensures q[i + 1] in Deps(h, q[i]) {
      PrefixedDeps(runId, g, h, p[i]);
      assert p[i + 1] in Deps(g, p[i]);
      var j :| 0 <= j < |Deps(g, p[i])| && Deps(g, p[i])[j] == p[i + 1];
      assert Prefixed(runId, Deps(g, p[i]))[j] == q[i + 1];
    }
    assert IsWalk(h, q) && q[0] == IdOf(runId, a) && q[|q| - 1] == IdOf(runId, b);
  }

  /** Conversely, a walk among prefixed ids is the image of a walk among keys. */
  lemma {:induction false} WalkUnprefixed(runId: string, g: Graph, h: Graph, q: seq<Id>, a: Id) returns (p: seq<Id>)
    requires IsPrefixed(runId, g, h) && IsWalk(h, q) && q[0] == IdOf(runId, a)
    ensures IsWalk(g, p) && p[0] == a && Prefixed(runId, p) == q
  {
    PrefixedDeps(runId, g, h, a);
    assert q[0 + 1] in Deps(h, q[0]);
    var j :| 0 <= j < |Deps(h, q[0])| && Deps(h, q[0])[j] == q[1];
    var b := Deps(g, a)[j];
    if |q| == 2 {
      p := [a, b];
      assert Prefixed(runId, p) == q;
    } else {
      forall i | 0 <= i < |q[1..]| - 1 ensures q[1..][i + 1] in Deps(h, q[1..][i]) {
        assert q[i + 1 + 1] in Deps(h, q[i + 1]);
      }
      var rest := WalkUnprefixed(runId, g, h, q[1..], b);
      p := [a] + rest;
      forall i | 0 <= i < |p| - 1 ensures p[i + 1] in Deps(g, p[i]) {
        if i > 0 {
          assert rest[i - 1 + 1] in Deps(g, rest[i - 1]);
        }
      }
      assert Prefixed(runId, p) == [q[0]] + Prefixed(runId, rest) == q;
    }
  }

  lemma ReachesUnprefixed(runId: string, g: Graph, h: Graph, a: Id, b: Id)
    requires IsPrefixed(runId, g, h) && Reaches(h, IdOf(runId, a), IdOf(runId, b))
    ensures Reaches(g, a, b)
  {
    var q :| IsWalk(h, q) && q[0] == IdOf(runId, a) && q[|q| - 1] == IdOf(runId, b);
    var p := WalkUnprefixed(runId, g, h, q, a);
    assert Prefixed(runId, p)[|p| - 1] == IdOf(runId, p[|p| - 1]);
    PrefixIsInjective(runId, p[|p| - 1], b);
  }

  /** Prefixing neither adds nor removes a cycle. */
  lemma PrefixingKeepsAcyclic(runId: string, g: Graph, h: Graph)
    requires IsPrefixed(runId, g, h)
    ensures Acyclic(g) <==> Acyclic(h)
  {
    hide Reaches;
    if Acyclic(g) {
      forall x | x in h ensures !Reaches(h, x, x) {
        var k :| k in g && x == IdOf(runId, k);
        if Reaches(h, x, x) {
          ReachesUnprefixed(runId, g, h, k, k);
        }
      }
    }
    if Acyclic(h) {
      forall k | k in g ensures !Reaches(g, k, k) {
        if Reaches(g, k, k) {
          ReachesPrefixed(runId, g, h, k, k);
        }
      }
    }
  }

  // ---- Planner and runtime compose ------------------------------------------------------

  lemma BuiltIds(runId: string, plan: seq<Proposal>)
    requires Distinct(Keys(plan))
    ensures var ids := TaskIds(Build(runId, plan));
            ids == Prefixed(runId, Keys(plan)) && Distinct(ids)
  {
    var ids := TaskIds(Build(runId, plan));
    assert ids == Prefixed(runId, Keys(plan));
    forall i, j | 0 <= i < j < |plan| ensures ids[i] != ids[j] {
      PrefixIsInjective(runId, Keys(plan)[i], Keys(plan)[j]);
    }
  }

  lemma BuiltNode(runId: string, plan: seq<Proposal>, i: nat)
    requires Distinct(Keys(plan)) && i < |plan|
    ensures var h := DependencyGraph(Build(runId, plan));
            IdOf(runId, plan[i].key) in h && h[IdOf(runId, plan[i].key)] == Prefixed(runId, plan[i].dependencies)
  {
    hide FromNodes;
    var g := Build(runId, plan);
    BuiltIds(runId, plan);
    assert TaskNodes(g)[i] == Node(IdOf(runId, plan[i].key), Prefixed(runId, plan[i].dependencies));
    assert TaskIds(g)[i] in TaskIds(g);
  }

  lemma BuildIsPrefixed(runId: string, plan: seq<Proposal>)
    requires Distinct(Keys(plan))
    ensures var g := Build(runId, plan);
            && Distinct(TaskIds(g))
            && TaskIds(g) == Prefixed(runId, Keys(plan))
            && IsPrefixed(runId, GraphOf(plan), DependencyGraph(g))
  {
    hide FromNodes;
    var g := Build(runId, plan);
    BuiltIds(runId, plan);
    var h := DependencyGraph(g);
    forall k | k in GraphOf(plan)
      ensures IdOf(runId, k) in h && h[IdOf(runId, k)] == Prefixed(runId, GraphOf(plan)[k])
    {
      var i :| 0 <= i < |plan| && Keys(plan)[i] == k;
      BuiltNode(runId, plan, i);
    }
    forall x | x in h ensures exists k :: k in GraphOf(plan) && x == IdOf(runId, k) {
      var i :| 0 <= i < |plan| && TaskIds(g)[i] == x;
      assert Keys(plan)[i] in Keys(plan);
    }
  }

  /** Whatever graph the planner returns, admission accepts it for its scheme unless an agent is not
      registered or does not support its task. */
  lemma PlannedGraphsAreWellBound(runId: string, skills: seq<Skill>, plan: seq<Proposal>)
    requires Admissible(plan, skills)
    ensures WellBound(Build(runId, plan), Some(skills))
  {
    hide Acyclic, SemanticRules, TaskFits, DependencyGraph, GraphOf, TaskIds, Keys, IsPrefixed;
    var g := Build(runId, plan);
    BuildIsPrefixed(runId, plan);
    PrefixingKeepsAcyclic(runId, GraphOf(plan), DependencyGraph(g));
    PlanIsNotEmpty(plan, skills);
    forall t | t in g.tasks ensures TaskFits(g, t) {
      var i :| 0 <= i < |plan| && g.tasks[i] == t;
      BuiltTaskFits(runId, skills, plan, i);
    }
    SchemeIsCovered(runId, skills, plan);
  }

  lemma SchemeIsCovered(runId: string, skills: seq<Skill>, plan: seq<Proposal>)
    requires SkillsCovered(plan, skills)
    ensures SchemeCovered(Build(runId, plan), Some(skills))
  {
    var g := Build(runId, plan);
    forall s | s in skills ensures exists t :: t in g.tasks && t.skill == s {
      assert s in SkillsOf(plan);
      var p :| p in plan && p.skill == s;
      var i :| 0 <= i < |plan| && plan[i] == p;
      assert g.tasks[i] in g.tasks;
    }
  }

  lemma PlanIsNotEmpty(plan: seq<Proposal>, skills: seq<Skill>)
    requires Admissible(plan, skills)
    ensures plan != []
  {
    assert ReportSynthesis in SINGLE_TASK_TYPES;
    assert |OfType(plan, ReportSynthesis)| == 1;
  }

  lemma BuiltTaskFits(runId: string, skills: seq<Skill>, plan: seq<Proposal>, i: nat)
    requires Admissible(plan, skills) && i < |plan|
    ensures TaskFits(Build(runId, plan), Build(runId, plan).tasks[i])
  {
    hide FromNodes, DependencyGraph, GraphOf, SkillTaskTypes, TaskIds, Keys, Acyclic, SinglesOnce, UpstreamComplete,
         ReviewsFollowSynthesis, ScopesCovered, CollectionsAreRoots, SkillsCovered, OfType;
    var g := Build(runId, plan);
    var t := g.tasks[i];
    BuiltIds(runId, plan);
    assert plan[i] in plan;
    assert t.taskId[..|runId| + 1] == runId + ":";
    forall d | d in t.dependencies ensures d in TaskIds(g) {
      var j :| 0 <= j < |t.dependencies| && t.dependencies[j] == d;
      KeyIsListed(runId, plan, plan[i].dependencies[j]);
    }
  }

  lemma KeyIsListed(runId: string, plan: seq<Proposal>, k: Id)
    requires k in Keys(plan)
    ensures IdOf(runId, k) in Prefixed(runId, Keys(plan))
  {
    var m :| 0 <= m < |plan| && Keys(plan)[m] == k;
    assert Prefixed(runId, Keys(plan))[m] == IdOf(runId, k);
  }

  /** The names used for the order of execution are unambiguous: each scope is acquired by exactly one
      collection task, and each analysis is done by exactly one task. */
  lemma NamesAreUnique(plan: seq<Proposal>, skills: seq<Skill>, p: Proposal)
    requires Admissible(plan, skills) && p in plan
    ensures p.taskType == EvidenceCollection ==> ScopeKey(OfType(plan, EvidenceCollection), ScopeOf(p)) == Some(p.key)
    ensures p.taskType in SINGLE_TASK_TYPES ==> TheKey(plan, p.taskType) == p.key
  {
    hide ScopeOf, Acyclic, GraphOf, Keys, KnownDependencies, OfType, SkillsFitTypes, UpstreamComplete,
         ReviewsFollowSynthesis, ScopesCovered, SinglesOnce, TheKey, ScopeKey, SkillsOf;
    if p.taskType == EvidenceCollection {
      CollectionIsNamed(plan, p);
    } else if p.taskType in SINGLE_TASK_TYPES {
      SingleIsNamed(plan, p);
    }
  }

  lemma CollectionIsNamed(plan: seq<Proposal>, p: Proposal)
    requires ScopesCovered(plan) && p in plan && p.taskType == EvidenceCollection
    ensures ScopeKey(OfType(plan, EvidenceCollection), ScopeOf(p)) == Some(p.key)
  {
    hide ScopeOf, AllScopes;
    FindsItsScope(OfType(plan, EvidenceCollection), p);
  }

  lemma SingleIsNamed(plan: seq<Proposal>, p: Proposal)
    requires SinglesOnce(plan) && p in plan && p.taskType in SINGLE_TASK_TYPES
    ensures TheKey(plan, p.taskType) == p.key
  {
    assert p in OfType(plan, p.taskType);
  }

  lemma {:induction false} FindsItsScope(collections: seq<Proposal>, p: Proposal)
    requires DistinctScopes(collections) && p in collections
    ensures ScopeKey(collections, ScopeOf(p)) == Some(p.key)
  {
    hide ScopeOf;
    var i :| 0 <= i < |collections| && collections[i] == p;
    if i > 0 {
      assert collections[1..][i - 1] == p;
      FindsItsScope(collections[1..], p);
    }
  }

  // ---- Execution orders of accepted plans -----------------------------------------------

  /** `a` runs before `b` in every execution order that respects the dependencies. */
  ghost predicate AlwaysBefore(g: RuntimeGraph, a: Id, b: Id) {
    forall order, i, j ::
      (Respects(DependencyGraph(g), order) && 0 <= i < |order| && 0 <= j < |order| && order[i] == a && order[j] == b)
      ==> i < j
  }

  lemma UpstreamRunsBefore(runId: string, plan: seq<Proposal>, a: Id, b: Id)
    requires Distinct(Keys(plan)) && Reaches(GraphOf(plan), b, a)
    ensures AlwaysBefore(Build(runId, plan), IdOf(runId, a), IdOf(runId, b))
  {
    var g := Build(runId, plan);
    BuildIsPrefixed(runId, plan);
    ReachesPrefixed(runId, GraphOf(plan), DependencyGraph(g), b, a);
    forall order, i, j | Respects(DependencyGraph(g), order) && 0 <= i < |order| && 0 <= j < |order|
                         && order[i] == IdOf(runId, a) && order[j] == IdOf(runId, b) ensures i < j {
      AncestorsComeFirst(DependencyGraph(g), order, j, i);
    }
  }

  /** The acquisition tasks by scope and the analyses by type, as task ids of the built graph. */
  function Acquisition(runId: string, plan: seq<Proposal>, s: AcquisitionScope): Id {
    IdOf(runId, ScopeKeyOr(OfType(plan, EvidenceCollection), s))
  }

  function Analysis(runId: string, plan: seq<Proposal>, t: TaskType): Id {
    IdOf(runId, TheKey(plan, t))
  }

  lemma RequiredIsReached(plan: seq<Proposal>, skills: seq<Skill>, t: TaskType, k: Id)
    requires Admissible(plan, skills) && t in SINGLE_TASK_TYPES && k in Required(plan, t)
    ensures Reaches(GraphOf(plan), TheKey(plan, t), k)
  {
    assert Upstream(plan, t, Required(plan, t));
  }

  /** All three acquisitions and all five analyses are upstream of synthesis. */
  lemma EverythingReachesSynthesis(plan: seq<Proposal>, skills: seq<Skill>)
    requires Admissible(plan, skills)
    ensures var g, top := GraphOf(plan), TheKey(plan, ReportSynthesis);
            && (forall s: AcquisitionScope :: Reaches(g, top, ScopeKeyOr(OfType(plan, EvidenceCollection), s)))
            && (forall t :: t in SINGLE_TASK_TYPES && t != ReportSynthesis ==> Reaches(g, top, TheKey(plan, t)))
  {
    hide Reaches, Admissible, OfType, TheKey, ScopeKeyOr;
    var g, top := GraphOf(plan), TheKey(plan, ReportSynthesis);
    var collections := OfType(plan, EvidenceCollection);
    forall t | t in SINGLE_TASK_TYPES && t != ReportSynthesis ensures Reaches(g, top, TheKey(plan, t)) {
      RequiredIsReached(plan, skills, ReportSynthesis, TheKey(plan, t));
    }
    var fundamental, peer := TheKey(plan, FundamentalAnalysis), TheKey(plan, PeerAnalysis);
    var news := TheKey(plan, ResearchNewsAnalysis);
    RequiredIsReached(plan, skills, FundamentalAnalysis, ScopeKeyOr(collections, Company));
    ReachesCompose(g, top, fundamental, ScopeKeyOr(collections, Company));
    RequiredIsReached(plan, skills, PeerAnalysis, ScopeKeyOr(collections, Peer));
    ReachesCompose(g, top, peer, ScopeKeyOr(collections, Peer));
    RequiredIsReached(plan, skills, ResearchNewsAnalysis, ScopeKeyOr(collections, ResearchNews));
    ReachesCompose(g, top, news, ScopeKeyOr(collections, ResearchNews));
    forall s: AcquisitionScope ensures Reaches(g, top, ScopeKeyOr(collections, s)) {
      match s case Company => case Peer => case ResearchNews =>
    }
  }

  lemma AnalysesRunInOrder(runId: string, plan: seq<Proposal>, skills: seq<Skill>)
    requires Admissible(plan, skills)
    ensures var g := Build(runId, plan);
            && (forall t :: t in {FundamentalAnalysis, PeerAnalysis} ==>
                  AlwaysBefore(g, Analysis(runId, plan, t), Analysis(runId, plan, ValuationAnalysis)))
            && (forall t :: t in {FundamentalAnalysis, PeerAnalysis, ResearchNewsAnalysis} ==>
                  AlwaysBefore(g, Analysis(runId, plan, t), Analysis(runId, plan, RiskAnalysis)))
  {
    hide Reaches, AlwaysBefore, OfType, TheKey, ScopeKeyOr;
    forall t | t in {FundamentalAnalysis, PeerAnalysis}
      ensures AlwaysBefore(Build(runId, plan), Analysis(runId, plan, t), Analysis(runId, plan, ValuationAnalysis))
    {
      RequiredIsReached(plan, skills, ValuationAnalysis, TheKey(plan, t));
      UpstreamRunsBefore(runId, plan, TheKey(plan, t), TheKey(plan, ValuationAnalysis));
    }
    forall t | t in {FundamentalAnalysis, PeerAnalysis, ResearchNewsAnalysis}
      ensures AlwaysBefore(Build(runId, plan), Analysis(runId, plan, t), Analysis(runId, plan, RiskAnalysis))
    {
      RequiredIsReached(plan, skills, RiskAnalysis, TheKey(plan, t));
      UpstreamRunsBefore(runId, plan, TheKey(plan, t), TheKey(plan, RiskAnalysis));
    }
  }

  /** In every execution of an accepted plan, acquisition precedes the analyses that use it, those
      precede valuation and risk, everything precedes synthesis, and every quality review follows synthesis. */
  lemma AcceptedPlansRunInOrder(runId: string, plan: seq<Proposal>, skills: seq<Skill>)
    requires Admissible(plan, skills)
    ensures var g := Build(runId, plan);
            var synthesis := Analysis(runId, plan, ReportSynthesis);
            && AlwaysBefore(g, Acquisition(runId, plan, Company), Analysis(runId, plan, FundamentalAnalysis))
            && AlwaysBefore(g, Acquisition(runId, plan, Company), Analysis(runId, plan, PeerAnalysis))
            && AlwaysBefore(g, Acquisition(runId, plan, Peer), Analysis(runId, plan, PeerAnalysis))
            && AlwaysBefore(g, Acquisition(runId, plan, ResearchNews), Analysis(runId, plan, ResearchNewsAnalysis))
            && (forall t :: t in {FundamentalAnalysis, PeerAnalysis} ==>
                  AlwaysBefore(g, Analysis(runId, plan, t), Analysis(runId, plan, ValuationAnalysis)))
            && (forall t :: t in {FundamentalAnalysis, PeerAnalysis, ResearchNewsAnalysis} ==>
                  AlwaysBefore(g, Analysis(runId, plan, t), Analysis(runId, plan, RiskAnalysis)))
            && (forall s: AcquisitionScope :: AlwaysBefore(g, Acquisition(runId, plan, s), synthesis))
            && (forall t :: t in SINGLE_TASK_TYPES && t != ReportSynthesis ==>
                  AlwaysBefore(g, Analysis(runId, plan, t), synthesis))
            && (forall r :: r in OfType(plan, QualityReview) ==> AlwaysBefore(g, synthesis, IdOf(runId, r.key)))
  {
    hide Reaches, AlwaysBefore, OfType, TheKey, ScopeKeyOr;
    var g, top := GraphOf(plan), TheKey(plan, ReportSynthesis);
    var collections := OfType(plan, EvidenceCollection);
    RequiredIsReached(plan, skills, FundamentalAnalysis, ScopeKeyOr(collections, Company));
    UpstreamRunsBefore(runId, plan, ScopeKeyOr(collections, Company), TheKey(plan, FundamentalAnalysis));
    RequiredIsReached(plan, skills, PeerAnalysis, ScopeKeyOr(collections, Company));
    UpstreamRunsBefore(runId, plan, ScopeKeyOr(collections, Company), TheKey(plan, PeerAnalysis));
    RequiredIsReached(plan, skills, PeerAnalysis, ScopeKeyOr(collections, Peer));
    UpstreamRunsBefore(runId, plan, ScopeKeyOr(collections, Peer), TheKey(plan, PeerAnalysis));
    RequiredIsReached(plan, skills, ResearchNewsAnalysis, ScopeKeyOr(collections, ResearchNews));
    UpstreamRunsBefore(runId, plan, ScopeKeyOr(collections, ResearchNews), TheKey(plan, ResearchNewsAnalysis));
    AnalysesRunInOrder(runId, plan, skills);
    EverythingReachesSynthesis(plan, skills);
    forall s: AcquisitionScope
      ensures AlwaysBefore(Build(runId, plan), Acquisition(runId, plan, s), Analysis(runId, plan, ReportSynthesis))
    {
      UpstreamRunsBefore(runId, plan, ScopeKeyOr(collections, s), top);
    }
    forall t | t in SINGLE_TASK_TYPES && t != ReportSynthesis
      ensures AlwaysBefore(Build(runId, plan), Analysis(runId, plan, t), Analysis(runId, plan, ReportSynthesis))
    {
      UpstreamRunsBefore(runId, plan, TheKey(plan, t), top);
    }
    forall r | r in OfType(plan, QualityReview)
      ensures AlwaysBefore(Build(runId, plan), Analysis(runId, plan, ReportSynthesis), IdOf(runId, r.key))
    {
      UpstreamRunsBefore(runId, plan, top, r.key);
    }
  }
}

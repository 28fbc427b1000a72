/** The planner's rules in plain terms: which proposals a plan holds, and which of them reach which. */
module PlanRules {
  import opened Wrappers
  import opened TaskGraph
  import opened AcquisitionScopes
  import opened Planning

  predicate Collects(p: Proposal, s: AcquisitionScope) {
    p.taskType == EvidenceCollection && ScopeOf(p) == s
  }

  /** What has to be done before what. */
  predicate Needs(p: Proposal, q: Proposal) {
    || (p.taskType == FundamentalAnalysis && Collects(q, Company))
    || (p.taskType == PeerAnalysis && (Collects(q, Company) || Collects(q, Peer)))
    || (p.taskType == ResearchNewsAnalysis && Collects(q, ResearchNews))
    || (p.taskType == ValuationAnalysis && q.taskType in {FundamentalAnalysis, PeerAnalysis})
    || (p.taskType == RiskAnalysis && q.taskType in {FundamentalAnalysis, PeerAnalysis, ResearchNewsAnalysis})
    || (p.taskType == ReportSynthesis && q.taskType in {FundamentalAnalysis, PeerAnalysis, ResearchNewsAnalysis,
                                                        ValuationAnalysis, RiskAnalysis})
    || (p.taskType == QualityReview && q.taskType == ReportSynthesis)
  }

  /** The type that goes with each skill; synthesis also covers reviews. */
  predicate SkillFits(p: Proposal) {
    || (p.skill == EvidenceCollectionV1 && p.taskType == EvidenceCollection)
    || (p.skill == FundamentalAnalysisV1 && p.taskType == FundamentalAnalysis)
    || (p.skill == PeerAnalysisV1 && p.taskType == PeerAnalysis)
    || (p.skill == ResearchNewsAnalysisV1 && p.taskType == ResearchNewsAnalysis)
    || (p.skill == ValuationAnalysisV1 && p.taskType == ValuationAnalysis)
    || (p.skill == RiskAnalysisV1 && p.taskType == RiskAnalysis)
    || (p.skill == ReportSynthesisV1 && p.taskType in {ReportSynthesis, QualityReview})
  }

  ghost predicate ExactlyOne(plan: seq<Proposal>, t: TaskType) {
    && (exists p :: p in plan && p.taskType == t)
    && (forall p, q :: p in plan && q in plan && p.taskType == q.taskType == t ==> p == q)
  }

  ghost predicate CollectedOnce(plan: seq<Proposal>, s: AcquisitionScope) {
    && (exists p :: p in plan && Collects(p, s))
    && (forall p, q :: p in plan && q in plan && Collects(p, s) && Collects(q, s) ==> p == q)
  }

  /** The tasks that a plan has to hold. */
  ghost predicate HoldsItsTasks(plan: seq<Proposal>) {
    && ExactlyOne(plan, FundamentalAnalysis) && ExactlyOne(plan, PeerAnalysis) && ExactlyOne(plan, ResearchNewsAnalysis)
    && ExactlyOne(plan, ValuationAnalysis) && ExactlyOne(plan, RiskAnalysis) && ExactlyOne(plan, ReportSynthesis)
    && CollectedOnce(plan, Company) && CollectedOnce(plan, Peer) && CollectedOnce(plan, ResearchNews)
  }

  // ---- Lists of one type ----------------------------------------------------------------

  lemma LastOfType(plan: seq<Proposal>, t: TaskType)
    requires plan != []
    ensures OfType(plan, t) == OfType(plan[..|plan| - 1], t)
                               + if plan[|plan| - 1].taskType == t then [plan[|plan| - 1]] else []
  {
  }

  lemma {:induction false} NothingTwice(plan: seq<Proposal>, t: TaskType)
    requires Distinct(Keys(plan))
    ensures forall i, j :: 0 <= i < j < |OfType(plan, t)| ==> OfType(plan, t)[i] != OfType(plan, t)[j]
  {
    if plan != [] {
      var init, last := plan[..|plan| - 1], plan[|plan| - 1];
      DistinctInit(plan);
      NothingTwice(init, t);
      LastOfType(plan, t);
      hide OfType, Keys, Distinct;
      assert last !in init;
      forall i, j | 0 <= i < j < |OfType(plan, t)| ensures OfType(plan, t)[i] != OfType(plan, t)[j] {
        assert OfType(init, t)[i] in OfType(init, t);
      }
    }
  }

  lemma DistinctInit(plan: seq<Proposal>)
    requires Distinct(Keys(plan)) && plan != []
    ensures Distinct(Keys(plan[..|plan| - 1])) && plan[|plan| - 1] !in plan[..|plan| - 1]
  {
    var init, last := plan[..|plan| - 1], plan[|plan| - 1];
    assert forall i :: 0 <= i < |init| ==> Keys(init)[i] == Keys(plan)[i];
    forall i | 0 <= i < |init| ensures init[i] != last {
      assert Keys(plan)[i] != Keys(plan)[|plan| - 1];
    }
  }

  lemma OneMeans(plan: seq<Proposal>, t: TaskType)
    requires Distinct(Keys(plan))
    ensures |OfType(plan, t)| == 1 <==> ExactlyOne(plan, t)
  {
    hide OfType, Keys, Distinct;
    NothingTwice(plan, t);
    var ps := OfType(plan, t);
    if |ps| == 1 {
      assert ps[0] in ps;
    }
    if ExactlyOne(plan, t) {
      var p :| p in plan && p.taskType == t;
      assert p in ps;
      assert ps[0] in ps && ps[|ps| - 1] in ps;
    }
  }

  lemma TheKeyIs(plan: seq<Proposal>, t: TaskType, p: Proposal)
    requires ExactlyOne(plan, t) && |OfType(plan, t)| == 1 && p in plan && p.taskType == t
    ensures TheKey(plan, t) == p.key && OfType(plan, t)[0] == p
  {
    hide OfType;
    assert OfType(plan, t)[0] in OfType(plan, t);
  }

  lemma {:induction false} ScopeKeyIs(collections: seq<Proposal>, s: AcquisitionScope)
    ensures ScopeKey(collections, s).Some? <==> exists p :: p in collections && ScopeOf(p) == s
    ensures ScopeKey(collections, s).Some? ==>
              exists p :: p in collections && ScopeOf(p) == s && ScopeKey(collections, s) == Some(p.key)
  {
    hide ScopeOf;
    if collections != [] {
      ScopeKeyIs(collections[1..], s);
      assert forall p :: p in collections <==> p == collections[0] || p in collections[1..];
    }
  }

  lemma ScopesMean(plan: seq<Proposal>)
    requires Distinct(Keys(plan))
    ensures ScopesCovered(plan) <==> forall s :: CollectedOnce(plan, s)
  {
    hide OfType, Keys, Distinct, ScopeOf, ScopeKey, CollectedOnce, DistinctScopes;
    ScopeIsCollected(plan, Company);
    ScopeIsCollected(plan, Peer);
    ScopeIsCollected(plan, ResearchNews);
    var cs := OfType(plan, EvidenceCollection);
    if DistinctScopes(cs) && AllScopes(cs) {
      forall s ensures CollectedOnce(plan, s) {
        match s case Company => case Peer => case ResearchNews =>
      }
    }
    if forall s :: CollectedOnce(plan, s) {
      assert CollectedOnce(plan, Company) && CollectedOnce(plan, Peer) && CollectedOnce(plan, ResearchNews);
      CollectedOnceIsDistinct(plan);
    }
  }

  lemma ScopeIsCollected(plan: seq<Proposal>, s: AcquisitionScope)
    requires Distinct(Keys(plan))
    ensures CollectedOnce(plan, s) ==> ScopeKey(OfType(plan, EvidenceCollection), s).Some?
    ensures DistinctScopes(OfType(plan, EvidenceCollection)) && ScopeKey(OfType(plan, EvidenceCollection), s).Some? ==>
              CollectedOnce(plan, s)
  {
    hide OfType, Keys, Distinct, ScopeOf, ScopeKey;
    var cs := OfType(plan, EvidenceCollection);
    ScopeKeyIs(cs, s);
    if DistinctScopes(cs) {
      forall p, q | p in plan && q in plan && Collects(p, s) && Collects(q, s) ensures p == q {
        var i :| 0 <= i < |cs| && cs[i] == p;
        var j :| 0 <= j < |cs| && cs[j] == q;
      }
    }
  }

  lemma CollectedOnceIsDistinct(plan: seq<Proposal>)
    requires Distinct(Keys(plan)) && forall s :: CollectedOnce(plan, s)
    ensures DistinctScopes(OfType(plan, EvidenceCollection))
  {
    hide OfType, Keys, Distinct, ScopeOf;
    NothingTwice(plan, EvidenceCollection);
    var cs := OfType(plan, EvidenceCollection);
    forall i, j | 0 <= i < j < |cs| ensures ScopeOf(cs[i]) != ScopeOf(cs[j]) {
      assert cs[i] in cs && cs[j] in cs && CollectedOnce(plan, ScopeOf(cs[i]));
      assert Collects(cs[i], ScopeOf(cs[i]));
    }
  }

  // ---- The rules ------------------------------------------------------------------------

  lemma AncestorsMean(g: Graph, k: Id)
    ensures forall a :: a in Ancestors(g, k) <==> Reaches(g, k, a)
  {
    hide Reaches, AllDeps;
    forall a | Reaches(g, k, a) ensures a in Ancestors(g, k) {
      EndsInDependency(g, k, a);
    }
  }

  lemma TasksMean(plan: seq<Proposal>)
    requires Distinct(Keys(plan))
    ensures SinglesOnce(plan) && ScopesCovered(plan) <==> HoldsItsTasks(plan)
  {
    hide OfType, Keys, Distinct, ExactlyOne, CollectedOnce, ScopesCovered;
    OneMeans(plan, FundamentalAnalysis);
    OneMeans(plan, PeerAnalysis);
    OneMeans(plan, ResearchNewsAnalysis);
    OneMeans(plan, ValuationAnalysis);
    OneMeans(plan, RiskAnalysis);
    OneMeans(plan, ReportSynthesis);
    ScopesMean(plan);
    if HoldsItsTasks(plan) {
      forall s ensures CollectedOnce(plan, s) {
        match s case Company => case Peer => case ResearchNews =>
      }
    }
  }

  /** The key under which a scope's collection is required. */
  lemma CollectionKey(plan: seq<Proposal>, s: AcquisitionScope) returns (p: Proposal)
    requires Distinct(Keys(plan)) && CollectedOnce(plan, s)
    ensures p in plan && Collects(p, s) && p.key == ScopeKeyOr(OfType(plan, EvidenceCollection), s)
    ensures forall q :: q in plan && Collects(q, s) ==> q == p
  {
    hide OfType, Keys, Distinct, ScopeOf, ScopeKey;
    var cs := OfType(plan, EvidenceCollection);
    ScopeKeyIs(cs, s);
    var q :| q in plan && Collects(q, s);
    assert q in cs;
    p :| p in cs && ScopeOf(p) == s && ScopeKey(cs, s) == Some(p.key);
  }

  lemma AnalysisKey(plan: seq<Proposal>, t: TaskType) returns (p: Proposal)
    requires Distinct(Keys(plan)) && ExactlyOne(plan, t)
    ensures p in plan && p.taskType == t && p.key == TheKey(plan, t)
    ensures forall q :: q in plan && q.taskType == t ==> q == p
  {
    hide OfType, Keys, Distinct;
    OneMeans(plan, t);
    p := OfType(plan, t)[0];
    assert p in OfType(plan, t);
  }

  ghost predicate NeededUnder(plan: seq<Proposal>, p: Proposal, k: Id) {
    exists q :: q in plan && Needs(p, q) && q.key == k
  }

  /** What a task requires are the keys of what it needs. */
  lemma RequiredMeans(plan: seq<Proposal>, p: Proposal)
    requires Distinct(Keys(plan)) && HoldsItsTasks(plan) && p in plan && p.taskType in SINGLE_TASK_TYPES
    ensures forall k :: k in Required(plan, p.taskType) <==> NeededUnder(plan, p, k)
  {
    hide Keys, Distinct, HoldsItsTasks, NeededUnder, Required;
    if p.taskType in {FundamentalAnalysis, PeerAnalysis, ResearchNewsAnalysis} {
      CollectionsRequired(plan, p);
    } else {
      AnalysesRequired(plan, p);
    }
  }

  lemma CollectionsRequired(plan: seq<Proposal>, p: Proposal)
    requires Distinct(Keys(plan)) && HoldsItsTasks(plan) && p in plan
    requires p.taskType in {FundamentalAnalysis, PeerAnalysis, ResearchNewsAnalysis}
    ensures forall k :: k in Required(plan, p.taskType) <==> NeededUnder(plan, p, k)
  {
    hide OfType, Keys, Distinct, TheKey, ScopeKeyOr, CollectedOnce, ExactlyOne, Collects;
    var company := CollectionKey(plan, Company);
    var peer := CollectionKey(plan, Peer);
    var news := CollectionKey(plan, ResearchNews);
    var needed := if p.taskType == FundamentalAnalysis then {company}
                  else if p.taskType == PeerAnalysis then {company, peer} else {news};
    hide HoldsItsTasks;
    assert forall q :: q in plan && Needs(p, q) <==> q in needed;
    assert forall k :: k in Required(plan, p.taskType) <==> exists q :: q in needed && q.key == k;
  }

  lemma AnalysesRequired(plan: seq<Proposal>, p: Proposal)
    requires Distinct(Keys(plan)) && HoldsItsTasks(plan) && p in plan
    requires p.taskType in {ValuationAnalysis, RiskAnalysis, ReportSynthesis}
    ensures forall k :: k in Required(plan, p.taskType) <==> NeededUnder(plan, p, k)
  {
    hide OfType, Keys, Distinct, TheKey, ScopeKeyOr, CollectedOnce, ExactlyOne, Collects;
    var fundamental := AnalysisKey(plan, FundamentalAnalysis);
    var peer := AnalysisKey(plan, PeerAnalysis);
    var news := AnalysisKey(plan, ResearchNewsAnalysis);
    var valuation := AnalysisKey(plan, ValuationAnalysis);
    var risk := AnalysisKey(plan, RiskAnalysis);
    var needed := if p.taskType == ValuationAnalysis then {fundamental, peer}
                  else if p.taskType == RiskAnalysis then {fundamental, peer, news}
                  else {fundamental, peer, news, valuation, risk};
    hide HoldsItsTasks;
    assert forall q :: q in plan && Needs(p, q) <==> q in needed;
    assert forall k :: k in Required(plan, p.taskType) <==> exists q :: q in needed && q.key == k;
  }

  ghost predicate IsFed(plan: seq<Proposal>, p: Proposal) {
    forall q :: q in plan && Needs(p, q) ==> Reaches(GraphOf(plan), p.key, q.key)
  }

  lemma UpstreamOf(plan: seq<Proposal>, p: Proposal)
    requires Distinct(Keys(plan)) && HoldsItsTasks(plan) && p in plan && p.taskType in SINGLE_TASK_TYPES
    ensures Upstream(plan, p.taskType, Required(plan, p.taskType)) <==> IsFed(plan, p)
  {
    hide OfType, Keys, Distinct, Needs, TheKey, Reaches, GraphOf, HoldsItsTasks, Required;
    assert ExactlyOne(plan, p.taskType) by { EachIsHeldOnce(plan, p.taskType); }
    OneMeans(plan, p.taskType);
    TheKeyIs(plan, p.taskType, p);
    RequiredMeans(plan, p);
    AncestorsMean(GraphOf(plan), p.key);
    if Upstream(plan, p.taskType, Required(plan, p.taskType)) {
      forall q | q in plan && Needs(p, q) ensures Reaches(GraphOf(plan), p.key, q.key) {
        assert NeededUnder(plan, p, q.key);
      }
    }
  }

  lemma EachIsHeldOnce(plan: seq<Proposal>, t: TaskType)
    requires HoldsItsTasks(plan) && t in SINGLE_TASK_TYPES
    ensures ExactlyOne(plan, t)
  {
    hide ExactlyOne, CollectedOnce;
  }

  /** The upstream rule: every analysis reaches what it needs, by any path. */
  lemma UpstreamMeans(plan: seq<Proposal>)
    requires Distinct(Keys(plan)) && HoldsItsTasks(plan)
    ensures UpstreamComplete(plan) <==> forall p :: p in plan && p.taskType in SINGLE_TASK_TYPES ==> IsFed(plan, p)
  {
    hide OfType, Keys, Distinct, IsFed, Upstream, Required, HoldsItsTasks;
    forall p | p in plan && p.taskType in SINGLE_TASK_TYPES
      ensures Upstream(plan, p.taskType, Required(plan, p.taskType)) <==> IsFed(plan, p)
    {
      UpstreamOf(plan, p);
    }
    forall t | t in SINGLE_TASK_TYPES ensures exists p :: p in plan && p.taskType == t {
      EachIsHeldOnce(plan, t);
    }
  }

  /** The review rule: every review reaches the synthesis. */
  lemma ReviewsMean(plan: seq<Proposal>)
    requires Distinct(Keys(plan)) && HoldsItsTasks(plan)
    ensures ReviewsFollowSynthesis(plan) <==> forall p :: p in plan && p.taskType == QualityReview ==> IsFed(plan, p)
  {
    hide OfType, Keys, Distinct, Reaches, GraphOf, TheKey, Collects, ExactlyOne, CollectedOnce;
    var synthesis := AnalysisKey(plan, ReportSynthesis);
    hide HoldsItsTasks;
    forall p | p in plan && p.taskType == QualityReview
      ensures TheKey(plan, ReportSynthesis) in Ancestors(GraphOf(plan), p.key) <==> IsFed(plan, p)
    {
      AncestorsMean(GraphOf(plan), p.key);
    }
  }

  ghost predicate HasKey(plan: seq<Proposal>, k: Id) {
    exists q :: q in plan && q.key == k
  }

  /** Every rule of the planner, in plain terms. */
  ghost predicate FollowsTheRules(plan: seq<Proposal>, skills: seq<Skill>) {
    && (forall i, j :: 0 <= i < j < |plan| ==> plan[i].key != plan[j].key)
    && (forall p, d :: p in plan && d in p.dependencies ==> HasKey(plan, d))
    && (forall p :: p in plan ==> !Reaches(GraphOf(plan), p.key, p.key))
    && (forall s :: s in skills ==> exists p :: p in plan && p.skill == s)
    && (forall p :: p in plan ==> SkillFits(p))
    && HoldsItsTasks(plan)
    && (forall p :: p in plan && p.taskType == EvidenceCollection ==> p.dependencies == [])
    && (forall p, q :: p in plan && q in plan && Needs(p, q) ==> Reaches(GraphOf(plan), p.key, q.key))
  }

  lemma KeysMean(plan: seq<Proposal>)
    ensures Distinct(Keys(plan)) <==> forall i, j :: 0 <= i < j < |plan| ==> plan[i].key != plan[j].key
    ensures forall k :: k in Keys(plan) <==> HasKey(plan, k)
  {
    forall k ensures k in Keys(plan) <==> HasKey(plan, k) {
      if k in Keys(plan) {
        var i :| 0 <= i < |plan| && Keys(plan)[i] == k;
        assert plan[i] in plan;
      }
      if p :| p in plan && p.key == k {
        var i :| 0 <= i < |plan| && plan[i] == p;
        assert Keys(plan)[i] == k;
      }
    }
    if Distinct(Keys(plan)) {
      forall i, j | 0 <= i < j < |plan| ensures plan[i].key != plan[j].key {
        assert Keys(plan)[i] != Keys(plan)[j];
      }
    }
  }

  lemma GraphRulesMean(plan: seq<Proposal>)
    ensures KnownDependencies(plan) <==>
            forall p, d :: p in plan && d in p.dependencies ==> HasKey(plan, d)
    ensures Acyclic(GraphOf(plan)) <==> forall p :: p in plan ==> !Reaches(GraphOf(plan), p.key, p.key)
  {
    hide Keys, Reaches, HasKey, Distinct;
    KeysMean(plan);
    CyclesMean(plan);
  }

  lemma CyclesMean(plan: seq<Proposal>)
    ensures Acyclic(GraphOf(plan)) <==> forall p :: p in plan ==> !Reaches(GraphOf(plan), p.key, p.key)
  {
    hide Keys, Reaches, Distinct;
    KeysMean(plan);
    var g := GraphOf(plan);
    forall p | p in plan ensures p.key in g {
      assert HasKey(plan, p.key);
    }
  }

  lemma SkillRulesMean(plan: seq<Proposal>, skills: seq<Skill>)
    ensures SkillsCovered(plan, skills) <==> forall s :: s in skills ==> exists p :: p in plan && p.skill == s
    ensures SkillsFitTypes(plan) <==> forall p :: p in plan ==> SkillFits(p)
  {
    forall p: Proposal ensures p.taskType in SkillTaskTypes(p.skill) <==> SkillFits(p) {
      SkillFitMeans(p);
    }
    hide SkillFits, SkillTaskTypes;
  }

  lemma SkillFitMeans(p: Proposal)
    ensures p.taskType in SkillTaskTypes(p.skill) <==> SkillFits(p)
  {
  }

  lemma NeedsMean(plan: seq<Proposal>)
    requires Distinct(Keys(plan)) && HoldsItsTasks(plan)
    ensures UpstreamComplete(plan) && ReviewsFollowSynthesis(plan) <==> forall p :: p in plan ==> IsFed(plan, p)
  {
    hide Keys, Distinct, HoldsItsTasks, UpstreamComplete, ReviewsFollowSynthesis, IsFed;
    UpstreamMeans(plan);
    ReviewsMean(plan);
    forall p | p in plan && p.taskType !in SINGLE_TASK_TYPES && p.taskType != QualityReview ensures IsFed(plan, p) {
      NeedsNothing(plan, p);
    }
  }

  lemma NeedsNothing(plan: seq<Proposal>, p: Proposal)
    requires p.taskType !in SINGLE_TASK_TYPES && p.taskType != QualityReview
    ensures IsFed(plan, p)
  {
  }

  /** The planner accepts exactly the plans that follow the rules. */
  lemma AdmissibleMeans(plan: seq<Proposal>, skills: seq<Skill>)
    ensures Admissible(plan, skills) <==> FollowsTheRules(plan, skills)
  {
    hide Keys, Distinct, KnownDependencies, Acyclic, SkillsCovered, SkillsFitTypes, SkillFits, HoldsItsTasks,
         SinglesOnce,
         ScopesCovered, UpstreamComplete, ReviewsFollowSynthesis, Needs, Reaches, GraphOf, OfType;
    KeysMean(plan);
    GraphRulesMean(plan);
    SkillRulesMean(plan, skills);
    if Distinct(Keys(plan)) {
      TasksMean(plan);
      if HoldsItsTasks(plan) {
        NeedsMean(plan);
      }
    }
  }

  /** A plan that meets the rules before it is refused for missing upstream dependencies exactly when some
      analysis does not reach something it needs. */
  lemma MissingUpstreamMeans(plan: seq<Proposal>)
    requires Distinct(Keys(plan)) && HoldsItsTasks(plan) && SkillsFitTypes(plan) && CollectionsAreRoots(plan)
    ensures SemanticObjection(plan) == Some(MissingUpstream)
            <==> exists p, q :: p in plan && q in plan && p.taskType != QualityReview && Needs(p, q)
                                && !Reaches(GraphOf(plan), p.key, q.key)
  {
    hide Keys, Distinct, SkillsFitTypes, CollectionsAreRoots, HoldsItsTasks, SinglesOnce, ScopesCovered,
         UpstreamComplete,
         ReviewsFollowSynthesis, Needs, Reaches, GraphOf, OfType, DistinctScopes, AllScopes;
    TasksMean(plan);
    assert SinglesOnce(plan) && ScopesCovered(plan);
    CoveredMeans(plan);
    UpstreamMeans(plan);
    forall p | p in plan && p.taskType !in SINGLE_TASK_TYPES && p.taskType != QualityReview ensures IsFed(plan, p) {
      NeedsNothing(plan, p);
    }
  }

  lemma CoveredMeans(plan: seq<Proposal>)
    ensures ScopesCovered(plan) <==> DistinctScopes(OfType(plan, EvidenceCollection))
                                     && AllScopes(OfType(plan, EvidenceCollection))
  {
  }
}

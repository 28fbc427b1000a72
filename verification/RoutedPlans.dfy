/** Planner and router compose: which scope the router acquires for a task that the planner built. */
module RoutedPlans {
  import opened Wrappers
  import opened TaskGraph
  import opened AcquisitionScopes
  import opened Planning
  import Routing = EvidenceRouting

  function TypeName(t: TaskType): string {
    match t
    case EvidenceCollection => "evidence_collection"
    case FundamentalAnalysis => "fundamental_analysis"
    case PeerAnalysis => "peer_analysis"
    case ResearchNewsAnalysis => "research_news_analysis"
    case ValuationAnalysis => "valuation_analysis"
    case RiskAnalysis => "risk_analysis"
    case ReportSynthesis => "report_synthesis"
    case QualityReview => "quality_review"
    case OtherType(name) => name
  }

  /** A planned task as the router sees it. */
  function Routed(t: Task): Routing.Task {
    Routing.Task(t.taskId, t.runId, TypeName(t.taskType), t.goal, None)
  }

  /** What the router acquires for a proposal once it is built for a run. */
  function RoutedScope(runId: string, p: Proposal): Option<AcquisitionScope> {
    Routing.ScopeOf(Routed(TaskOf(runId, p)))
  }

  /** The router's reading differs from the planner's by what the run id says. */
  lemma RoutedScopeReads(runId: string, p: Proposal)
    requires p.taskType == EvidenceCollection
    ensures RoutedScope(runId, p) ==
            Some(if MentionsPeer(Normalise(runId)) then Peer
                 else if ScopeOf(p) == Peer then Peer
                 else if MentionsNews(Normalise(runId)) then ResearchNews
                 else ScopeOf(p))
  {
    hide MentionsPeer, MentionsNews, Normalise;
    assert IdOf(runId, p.key) + " " + p.goal == runId + ":" + (p.key + " " + p.goal);
    HintsJoined(runId, p.key + " " + p.goal);
  }

  /** Planner and router read the same scope of every proposal exactly when the run id hints at none. */
  lemma ScopesAgreeExactlyForNeutralRuns(runId: string)
    ensures (forall p: Proposal :: p.taskType == EvidenceCollection ==> RoutedScope(runId, p) == Some(ScopeOf(p)))
            <==> Neutral(runId)
  {
    hide RoutedScope, ScopeOf, Neutral;
    var silent := Proposal("", EvidenceCollection, "", "", EvidenceCollectionV1, []);
    SilentMeansCompany(silent);
    forall p: Proposal | p.taskType == EvidenceCollection
      ensures Neutral(runId) ==> RoutedScope(runId, p) == Some(ScopeOf(p))
    {
      RoutedScopeReads(runId, p);
      NeutralMeans(runId);
    }
    CompanyIsMissed(runId, silent);
  }

  lemma NeutralMeans(text: string)
    ensures Neutral(text) <==> !MentionsPeer(Normalise(text)) && !MentionsNews(Normalise(text))
  {
  }

  lemma SilentMeansCompany(p: Proposal)
    requires p.key == "" && p.goal == ""
    ensures ScopeOf(p) == Company
  {
    hide Mentions;
    assert Normalise("" + " " + "") == " ";
    TooShort(" ", "peer");
    TooShort(" ", "comparable");
    TooShort(" ", "news");
    TooShort(" ", "transcript");
  }

  /** A run id that hints at a scope leaves the company without acquisition. */
  lemma CompanyIsMissed(runId: string, p: Proposal)
    requires p.taskType == EvidenceCollection && ScopeOf(p) == Company
    ensures RoutedScope(runId, p) == Some(Company) <==> Neutral(runId)
  {
    hide RoutedScope, ScopeOf, MentionsPeer, MentionsNews, Normalise;
    RoutedScopeReads(runId, p);
  }

  /** The one collection task of the plan that the scope is acquired for. */
  ghost predicate AcquiredBy(runId: string, plan: seq<Proposal>, scope: AcquisitionScope, p: Proposal) {
    && p in plan && p.taskType == EvidenceCollection && RoutedScope(runId, p) == Some(scope)
    && forall q :: q in plan && q.taskType == EvidenceCollection && RoutedScope(runId, q) == Some(scope) ==> q == p
  }

  ghost predicate AcquiredOnce(runId: string, plan: seq<Proposal>, scope: AcquisitionScope) {
    exists p :: AcquiredBy(runId, plan, scope, p)
  }

  lemma {:induction false} FoundInScope(collections: seq<Proposal>, s: AcquisitionScope) returns (p: Proposal)
    requires ScopeKey(collections, s).Some?
    ensures p in collections && ScopeOf(p) == s && ScopeKey(collections, s) == Some(p.key)
  {
    hide ScopeOf;
    if ScopeOf(collections[0]) == s {
      p := collections[0];
    } else {
      p := FoundInScope(collections[1..], s);
    }
  }

  /** The collection task of a scope, in a plan that covers all of them once. */
  lemma ScopeIsPlannedOnce(plan: seq<Proposal>, s: AcquisitionScope) returns (p: Proposal)
    requires ScopesCovered(plan)
    ensures p in plan && p.taskType == EvidenceCollection && ScopeOf(p) == s
    ensures forall q :: q in plan && q.taskType == EvidenceCollection && ScopeOf(q) == s ==> q == p
  {
    hide ScopeOf, OfType;
    var collections := OfType(plan, EvidenceCollection);
    assert ScopeKey(collections, s).Some?;
    p := FoundInScope(collections, s);
    var i :| 0 <= i < |collections| && collections[i] == p;
    forall q | q in plan && q.taskType == EvidenceCollection && ScopeOf(q) == s ensures q == p {
      var j :| 0 <= j < |collections| && collections[j] == q;
    }
  }

  /** For an accepted plan: each scope is acquired, by exactly one collection task, exactly when the run id
      hints at no scope. */
  lemma AcceptedPlanIsAcquiredExactlyForNeutralRuns(runId: string, plan: seq<Proposal>, skills: seq<Skill>)
    requires Admissible(plan, skills)
    ensures (forall scope :: AcquiredOnce(runId, plan, scope)) <==> Neutral(runId)
  {
    hide RoutedScope, ScopeOf, Neutral, DistinctScopes, AllScopes, OfType, Acyclic, Ancestors;
    if Neutral(runId) {
      ScopesAgreeExactlyForNeutralRuns(runId);
      forall scope ensures AcquiredOnce(runId, plan, scope) {
        var p := ScopeIsPlannedOnce(plan, scope);
        assert AcquiredBy(runId, plan, scope, p);
      }
    } else {
      forall p ensures !AcquiredBy(runId, plan, Company, p) {
        NobodyAcquiresCompany(runId, p);
      }
      assert !AcquiredOnce(runId, plan, Company);
    }
  }

  /** Besides the collections, peer and news analysis acquire for their own scopes, and nothing else does. */
  lemma AnalysesAcquire(runId: string, p: Proposal)
    ensures p.taskType == PeerAnalysis ==> RoutedScope(runId, p) == Some(Peer)
    ensures p.taskType == ResearchNewsAnalysis ==> RoutedScope(runId, p) == Some(ResearchNews)
    ensures p.taskType in {FundamentalAnalysis, ValuationAnalysis, RiskAnalysis, ReportSynthesis, QualityReview} ==>
              RoutedScope(runId, p) == None
  {
    hide HintedScope;
  }

  lemma NobodyAcquiresCompany(runId: string, p: Proposal)
    requires !Neutral(runId)
    ensures p.taskType == EvidenceCollection ==> RoutedScope(runId, p) != Some(Company)
  {
    hide RoutedScope, ScopeOf, MentionsPeer, MentionsNews, Normalise;
    if p.taskType == EvidenceCollection {
      RoutedScopeReads(runId, p);
    }
  }

  /** A run id that reads as one of the scopes, and one of the generated form. */
  lemma PeerRunCollectsForPeersOnly(p: Proposal)
    requires p.taskType == EvidenceCollection
    ensures RoutedScope("Peer_1", p) == Some(Peer)
    ensures RoutedScope("RUN-0a1b", p) == Some(ScopeOf(p))
  {
    hide ScopeOf, HintedScope, Mentions;
    assert Normalise("Peer_1") == "peer-1";
    MentionedFirst("peer-1", "peer");
    RoutedScopeReads("Peer_1", p);
    GeneratedIdsAreNeutral("0a1b");
    assert "RUN-" + "0a1b" == "RUN-0a1b";
    RoutedScopeReads("RUN-0a1b", p);
  }
}

/** Plans that meet every rule of the planner: accepted plans exist. */
module ModelPlan {
  import opened Wrappers
  import opened TaskGraph
  import opened AcquisitionScopes
  import opened Planning

  function TypeAt(i: nat): TaskType {
    if i < 3 then EvidenceCollection
    else if i == 3 then FundamentalAnalysis
    else if i == 4 then PeerAnalysis
    else if i == 5 then ResearchNewsAnalysis
    else if i == 6 then ValuationAnalysis
    else if i == 7 then RiskAnalysis
    else ReportSynthesis
  }

  /** Positions of the dependencies: every required task directly, and nothing else. */
  function DependsOn(i: nat): seq<nat> {
    if i < 3 then []
    else if i == 3 then [0]
    else if i == 4 then [0, 1]
    else if i == 5 then [2]
    else if i == 6 then [3, 4]
    else if i == 7 then [3, 4, 5]
    else [3, 4, 5, 6, 7]
  }

  /** Three acquisitions, one for each scope, then the analyses, then synthesis. */
  ghost predicate IsModel(plan: seq<Proposal>) {
    && |plan| == 9 && Distinct(Keys(plan))
    && ScopeOf(plan[0]) == Company && ScopeOf(plan[1]) == Peer && ScopeOf(plan[2]) == ResearchNews
    && forall i :: 0 <= i < 9 ==> ModelAt(plan, i)
  }

  ghost predicate ModelAt(plan: seq<Proposal>, i: nat)
    requires |plan| == 9 && i < 9
  {
    && plan[i].taskType == TypeAt(i) && plan[i].taskType in SkillTaskTypes(plan[i].skill)
    && |plan[i].dependencies| == |DependsOn(i)|
    && forall j :: 0 <= j < |DependsOn(i)| ==>
         DependsOn(i)[j] < 9 && plan[i].dependencies[j] == plan[DependsOn(i)[j]].key
  }

  lemma LastOne(plan: seq<Proposal>, t: TaskType)
    requires plan != []
    ensures OfType(plan, t) == OfType(plan[..|plan| - 1], t)
                               + if plan[|plan| - 1].taskType == t then [plan[|plan| - 1]] else []
  {
  }

  lemma {:induction false} OnlyOne(plan: seq<Proposal>, t: TaskType, k: nat)
    requires k < |plan| && plan[k].taskType == t && forall i :: 0 <= i < |plan| && i != k ==> plan[i].taskType != t
    ensures OfType(plan, t) == [plan[k]]
  {
    hide OfType;
    var init := plan[..|plan| - 1];
    LastOne(plan, t);
    if k < |init| {
      OnlyOne(init, t, k);
    } else {
      NoneOf(init, t);
    }
  }

  lemma {:induction false} NoneOf(plan: seq<Proposal>, t: TaskType)
    requires forall i :: 0 <= i < |plan| ==> plan[i].taskType != t
    ensures OfType(plan, t) == []
  {
    if plan != [] {
      LastOne(plan, t);
      NoneOf(plan[..|plan| - 1], t);
    }
  }

  lemma {:induction false} RestIsOther(plan: seq<Proposal>, t: TaskType, k: nat)
    requires k <= |plan| && forall i :: k <= i < |plan| ==> plan[i].taskType != t
    ensures OfType(plan, t) == OfType(plan[..k], t)
  {
    hide OfType;
    if k == |plan| {
      assert plan[..k] == plan;
    } else {
      var init := plan[..|plan| - 1];
      LastOne(plan, t);
      RestIsOther(init, t, k);
      assert init[..k] == plan[..k];
    }
  }

  lemma ThreeOf(a: Proposal, b: Proposal, c: Proposal, t: TaskType)
    requires a.taskType == b.taskType == c.taskType == t
    ensures OfType([a, b, c], t) == [a, b, c]
  {
    NoneOf([], t);
    LastOne([a], t);
    LastOne([a, b], t);
    LastOne([a, b, c], t);
    hide OfType;
    assert [a][..0] == [] && [a, b][..1] == [a] && [a, b, c][..2] == [a, b];
  }

  /** The one position of a single task type. */
  lemma SingleAt(plan: seq<Proposal>, k: nat)
    requires IsModel(plan) && 3 <= k < 9
    ensures OfType(plan, TypeAt(k)) == [plan[k]]
    ensures TheKey(plan, TypeAt(k)) == plan[k].key
  {
    hide OfType, Distinct, Keys, ScopeOf;
    assert ModelAt(plan, k);
    forall i | 0 <= i < 9 && i != k ensures plan[i].taskType != TypeAt(k) {
      assert ModelAt(plan, i);
    }
    OnlyOne(plan, TypeAt(k), k);
  }

  lemma Collections(plan: seq<Proposal>)
    requires IsModel(plan)
    ensures OfType(plan, EvidenceCollection) == plan[..3] && OfType(plan, QualityReview) == []
    ensures ScopeKey(plan[..3], Company) == Some(plan[0].key) && ScopeKey(plan[..3], Peer) == Some(plan[1].key)
    ensures ScopeKey(plan[..3], ResearchNews) == Some(plan[2].key) && DistinctScopes(plan[..3])
  {
    hide OfType, Distinct, Keys, ScopeOf;
    forall i | 0 <= i < 9 ensures plan[i].taskType == TypeAt(i) {
      assert ModelAt(plan, i);
    }
    RestIsOther(plan, EvidenceCollection, 3);
    ThreeOf(plan[0], plan[1], plan[2], EvidenceCollection);
    assert plan[..3] == [plan[0], plan[1], plan[2]];
    NoneOf(plan, QualityReview);
    var cs := plan[..3];
    assert cs[1..][0] == plan[1] && cs[1..][1..][0] == plan[2];
    assert ScopeKey(cs[1..][1..], ResearchNews) == Some(plan[2].key);
    assert ScopeKey(cs[1..], ResearchNews) == Some(plan[2].key);
    forall i, j | 0 <= i < j < 3 ensures ScopeOf(cs[i]) != ScopeOf(cs[j]) {
      assert (i == 0 && j == 1) || (i == 0 && j == 2) || (i == 1 && j == 2);
    }
  }

  lemma ModelIsClosedAndAcyclic(plan: seq<Proposal>)
    requires IsModel(plan)
    ensures KnownDependencies(plan) && Acyclic(GraphOf(plan))
  {
    hide Acyclic, GraphOf, ScopeOf, ModelAt, Keys;
    var g, order := GraphOf(plan), Keys(plan);
    forall i, d | 0 <= i < 9 && d in plan[i].dependencies ensures d in order[..i] && d in order {
      DependencyIsEarlier(plan, i, d);
    }
    forall p, d | p in plan && d in p.dependencies ensures d in order {
      var i :| 0 <= i < 9 && plan[i] == p;
    }
    KnownMeansClosed(plan);
    forall i, d | 0 <= i < |order| && d in Deps(g, order[i]) ensures d in order[..i] {
      assert order[i] == plan[i].key && order[i] in order;
      assert g[plan[i].key] == plan[i].dependencies;
      DependencyIsEarlier(plan, i, d);
    }
    assert Respects(g, order);
    AcyclicExactlyWhenOrdered(g);
  }

  lemma PositionsAreEarlier(i: nat)
    requires i < 9
    ensures forall j :: 0 <= j < |DependsOn(i)| ==> DependsOn(i)[j] < i
  {
  }

  lemma DependencyIsEarlier(plan: seq<Proposal>, i: nat, d: Id)
    requires IsModel(plan) && i < 9 && d in plan[i].dependencies
    ensures d in Keys(plan)[..i] && d in Keys(plan)
  {
    hide Distinct, ScopeOf, Keys, DependsOn, TypeAt, SkillTaskTypes;
    assert ModelAt(plan, i);
    var j :| 0 <= j < |plan[i].dependencies| && plan[i].dependencies[j] == d;
    PositionsAreEarlier(i);
    assert Keys(plan)[..i][DependsOn(i)[j]] == d;
    assert Keys(plan)[DependsOn(i)[j]] == d;
  }

  /** What each single task requires is found at the positions that it depends on. */
  lemma RequiredPositions(plan: seq<Proposal>, k: nat)
    requires IsModel(plan) && 3 <= k < 9
    ensures forall d :: d in Required(plan, TypeAt(k)) ==>
              exists j :: 0 <= j < |DependsOn(k)| && DependsOn(k)[j] < 9 && plan[DependsOn(k)[j]].key == d
  {
    hide OfType, Distinct, Keys, ScopeOf, TheKey, ScopeKey, ModelAt;
    var ds := DependsOn(k);
    if k <= 5 {
      Collections(plan);
      assert ds[0] == if k == 5 then 2 else 0;
      assert k == 4 ==> ds[1] == 1;
    } else {
      SingleAt(plan, 3);
      SingleAt(plan, 4);
      SingleAt(plan, 5);
      SingleAt(plan, 6);
      SingleAt(plan, 7);
      assert ds[0] == 3 && ds[1] == 4 && (k >= 7 ==> ds[2] == 5) && (k == 8 ==> ds[3] == 6 && ds[4] == 7);
    }
  }

  /** What each single task requires is what it depends on. */
  lemma RequiredIsDirect(plan: seq<Proposal>, k: nat)
    requires IsModel(plan) && 3 <= k < 9
    ensures forall d :: d in Required(plan, TypeAt(k)) ==> d in plan[k].dependencies
  {
    hide Distinct, Keys, ScopeOf, Required, TypeAt, DependsOn;
    assert ModelAt(plan, k);
    RequiredPositions(plan, k);
    forall d | d in Required(plan, TypeAt(k)) ensures d in plan[k].dependencies {
      var j :| 0 <= j < |DependsOn(k)| && DependsOn(k)[j] < 9 && plan[DependsOn(k)[j]].key == d;
      assert plan[k].dependencies[j] == d;
    }
  }

  lemma ModelUpstream(plan: seq<Proposal>, k: nat)
    requires IsModel(plan) && 3 <= k < 9
    ensures Upstream(plan, TypeAt(k), Required(plan, TypeAt(k)))
  {
    hide GraphOf, Ancestors, OfType, ScopeOf, Required, ModelAt, Keys;
    SingleAt(plan, k);
    RequiredIsDirect(plan, k);
    var g := GraphOf(plan);
    assert g[plan[k].key] == plan[k].dependencies && plan[k].key == Keys(plan)[k];
    forall d | d in Required(plan, TypeAt(k)) ensures d in Ancestors(g, plan[k].key) {
      EdgeReaches(g, plan[k].key, d);
    }
  }

  lemma SinglesAreListed(t: TaskType)
    requires t in SINGLE_TASK_TYPES
    ensures exists k :: 3 <= k < 9 && TypeAt(k) == t
  {
    var types := [TypeAt(3), TypeAt(4), TypeAt(5), TypeAt(6), TypeAt(7), TypeAt(8)];
    assert t in types;
    var j :| 0 <= j < 6 && types[j] == t;
    assert TypeAt(j + 3) == t;
  }

  /** Every plan of this form is accepted, for any skills that it supplies. */
  lemma ModelPlansAreAdmissible(plan: seq<Proposal>, skills: seq<Skill>)
    requires IsModel(plan) && SkillsCovered(plan, skills)
    ensures Admissible(plan, skills)
  {
    hide GraphOf, Ancestors, OfType, ScopeOf, Acyclic, Keys, Upstream, Required, TypeAt, DependsOn, ScopeKey,
         SkillsCovered, SkillTaskTypes;
    ModelIsClosedAndAcyclic(plan);
    Collections(plan);
    forall t | t in SINGLE_TASK_TYPES ensures Upstream(plan, t, Required(plan, t)) && |OfType(plan, t)| == 1 {
      SinglesAreListed(t);
      var k :| 3 <= k < 9 && TypeAt(k) == t;
      SingleAt(plan, k);
      ModelUpstream(plan, k);
    }
    forall p | p in plan ensures p.taskType in SkillTaskTypes(p.skill) {
      var i :| 0 <= i < 9 && plan[i] == p;
      assert ModelAt(plan, i);
    }
    forall c | c in OfType(plan, EvidenceCollection) ensures c.dependencies == [] {
      var i :| 0 <= i < 3 && plan[..3][i] == c;
      assert ModelAt(plan, i);
      RootsAreFree(i);
    }
  }

  lemma RootsAreFree(i: nat)
    requires i < 3
    ensures DependsOn(i) == []
  {
  }

  // ---- One such plan --------------------------------------------------------------------

  const KEYS: seq<Id> := ["co", "peer", "news", "fa", "pa", "na", "va", "ra", "syn"]

  function SkillAt(i: nat): Skill {
    if i < 3 then EvidenceCollectionV1
    else if i == 3 then FundamentalAnalysisV1
    else if i == 4 then PeerAnalysisV1
    else if i == 5 then ResearchNewsAnalysisV1
    else if i == 6 then ValuationAnalysisV1
    else if i == 7 then RiskAnalysisV1
    else ReportSynthesisV1
  }

  function KeysOf(positions: seq<nat>): seq<Id> {
    seq(|positions|, j requires 0 <= j < |positions| => if positions[j] < 9 then KEYS[positions[j]] else "")
  }

  function Example(): (plan: seq<Proposal>)
    ensures |plan| == 9
    ensures forall i :: 0 <= i < 9 ==> plan[i].key == KEYS[i] && plan[i].goal == "" && plan[i].taskType == TypeAt(i)
                                       && plan[i].skill == SkillAt(i)
    ensures forall i :: 0 <= i < 9 ==> plan[i].dependencies == KeysOf(DependsOn(i))
  {
    seq(9, i requires 0 <= i < 9 =>
      Proposal(KEYS[i], TypeAt(i), "", "agent", SkillAt(i),
               KeysOf(DependsOn(i))))
  }

  lemma ScopesOfTheExample(c: Proposal, p: Proposal, n: Proposal)
    requires c.key == "co" && p.key == "peer" && n.key == "news" && c.goal == p.goal == n.goal == ""
    ensures ScopeOf(c) == Company && ScopeOf(p) == Peer && ScopeOf(n) == ResearchNews
  {
    hide Mentions;
    assert Normalise("co" + " " + "") == "co " && Normalise("peer" + " " + "") == "peer "
           && Normalise("news" + " " + "") == "news ";
    TooShort("co ", "peer");
    TooShort("co ", "comparable");
    TooShort("co ", "news");
    TooShort("co ", "transcript");
    TooShort("news ", "comparable");
    MissingLetter("news ", "peer", 0);
    MentionedFirst("peer ", "peer");
    MentionedFirst("news ", "news");
  }

  lemma KeysAreDistinct()
    ensures Distinct(KEYS)
  {
    assert |"co"| == |"fa"| == |"pa"| == |"na"| == |"va"| == |"ra"| == 2 && |"peer"| == |"news"| == 4 && |"syn"| == 3;
    assert "co"[0] == 'c' && "fa"[0] == 'f' && "pa"[0] == 'p' && "na"[0] == 'n' && "va"[0] == 'v' && "ra"[0] == 'r';
    assert "peer"[0] == 'p' && "news"[0] == 'n';
  }

  lemma SkillsFit(i: nat)
    requires i < 9
    ensures TypeAt(i) in SkillTaskTypes(SkillAt(i))
  {
  }

  lemma DependenciesAreKnown(i: nat)
    requires i < 9
    ensures forall j :: 0 <= j < |DependsOn(i)| ==> DependsOn(i)[j] < 9
  {
  }

  /** The skills that a confirmed scheme requires. */
  const REQUIRED_SKILLS := [EvidenceCollectionV1, FundamentalAnalysisV1, PeerAnalysisV1, ResearchNewsAnalysisV1,
                            ValuationAnalysisV1, RiskAnalysisV1, ReportSynthesisV1]

  const SKILL_POSITIONS := [0, 3, 4, 5, 6, 7, 8]

  lemma RequiredSkillsAreUsed(plan: seq<Proposal>)
    requires |plan| == 9 && forall i :: 0 <= i < 9 ==> plan[i].skill == SkillAt(i)
    ensures SkillsCovered(plan, REQUIRED_SKILLS)
  {
    forall s | s in REQUIRED_SKILLS ensures s in SkillsOf(plan) {
      var k :| 0 <= k < 7 && REQUIRED_SKILLS[k] == s;
      assert plan[SKILL_POSITIONS[k]].skill == s;
      assert plan[SKILL_POSITIONS[k]] in plan;
    }
  }

  /** So the planner accepts some plan under all the skills that a scheme requires. */
  lemma SomePlanIsAdmissible()
    ensures Admissible(Example(), REQUIRED_SKILLS)
  {
    hide TypeAt, DependsOn, SkillAt, ScopeOf, Admissible, SkillsCovered;
    var plan := Example();
    assert KEYS[0] == "co" && KEYS[1] == "peer" && KEYS[2] == "news";
    ScopesOfTheExample(plan[0], plan[1], plan[2]);
    KeysAreDistinct();
    assert Keys(plan) == KEYS;
    forall i | 0 <= i < 9 ensures ModelAt(plan, i) {
      SkillsFit(i);
      DependenciesAreKnown(i);
    }
    RequiredSkillsAreUsed(plan);
    ModelPlansAreAdmissible(plan, REQUIRED_SKILLS);
  }
}

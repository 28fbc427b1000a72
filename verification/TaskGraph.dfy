/** Dependency graphs: reachability, the worklists that compute it, and the two layer-by-layer
    acyclicity checks. */
module TaskGraph {

  type Id = string

  /** Each task with its dependency list. */
  type Graph = map<Id, seq<Id>>

  function Deps(g: Graph, k: Id): seq<Id> {
    if k in g then g[k] else []
  }

  /** Every dependency is itself a task. */
  ghost predicate Closed(g: Graph) {
    forall k, d :: k in g && d in g[k] ==> d in g
  }

  datatype Node = Node(id: Id, deps: seq<Id>)

  ghost predicate Distinct<T(!new)>(s: seq<T>) {
    forall i, j :: 0 <= i < j < |s| ==> s[i] != s[j]
  }

  function Ids(nodes: seq<Node>): (ks: seq<Id>)
    ensures |ks| == |nodes| && forall i :: 0 <= i < |nodes| ==> ks[i] == nodes[i].id
  {
    seq(|nodes|, i requires 0 <= i < |nodes| => nodes[i].id)
  }

  /** Listed tasks as a graph; a repeated id keeps its last dependency list. */
  function FromNodes(nodes: seq<Node>): (g: Graph)
    ensures forall k :: k in g <==> k in Ids(nodes)
    ensures Distinct(Ids(nodes)) ==> forall i :: 0 <= i < |nodes| ==> g[nodes[i].id] == nodes[i].deps
  {
    if nodes == [] then map[]
    else
      var init, n := nodes[..|nodes| - 1], nodes[|nodes| - 1];
      assert Ids(nodes) == Ids(init) + [n.id];
      var g := FromNodes(init)[n.id := n.deps];
      assert Distinct(Ids(nodes)) ==> forall i :: 0 <= i < |nodes| ==> g[nodes[i].id] == nodes[i].deps by {
        if Distinct(Ids(nodes)) {
          assert Distinct(Ids(init));
          forall i | 0 <= i < |nodes| ensures g[nodes[i].id] == nodes[i].deps {
            if i < |init| {
              assert Ids(nodes)[i] != Ids(nodes)[|init|];
              assert init[i] == nodes[i];
            }
          }
        }
      }
      g
  }

  // ---- Reachability ---------------------------------------------------------------------

  /** A walk along at least one dependency edge. */
  ghost predicate IsWalk(g: Graph, p: seq<Id>) {
    && |p| >= 2
    && forall i :: 0 <= i < |p| - 1 ==> p[i + 1] in Deps(g, p[i])
  }

  ghost predicate Reaches(g: Graph, from: Id, to: Id) {
    exists p :: IsWalk(g, p) && p[0] == from && p[|p| - 1] == to
  }

  function AllDeps(g: Graph): set<Id> {
    set k, d | k in g && d in g[k] :: d
  }

  /** The tasks reachable by one or more dependency edges. */
  ghost function Ancestors(g: Graph, k: Id): set<Id> {
    set a | a in AllDeps(g) && Reaches(g, k, a)
  }

  ghost predicate Acyclic(g: Graph) {
    forall k :: k in g ==> !Reaches(g, k, k)
  }

  lemma EdgeReaches(g: Graph, k: Id, d: Id)
    requires d in Deps(g, k)
    ensures Reaches(g, k, d) && d in Ancestors(g, k)
  {
    var p := [k, d];
    assert IsWalk(g, p) && p[0] == k && p[|p| - 1] == d;
  }

  lemma StepReaches(g: Graph, k: Id, d: Id, e: Id)
    requires Reaches(g, k, d) && e in Deps(g, d)
    ensures Reaches(g, k, e) && e in Ancestors(g, k)
  {
    var p :| IsWalk(g, p) && p[0] == k && p[|p| - 1] == d;
    var q := p + [e];
    assert IsWalk(g, q) && q[0] == k && q[|q| - 1] == e;
  }

  lemma ReachesCompose(g: Graph, a: Id, b: Id, c: Id)
    requires Reaches(g, a, b) && Reaches(g, b, c)
    ensures Reaches(g, a, c) && c in Ancestors(g, a)
  {
    var p :| IsWalk(g, p) && p[0] == a && p[|p| - 1] == b;
    var q :| IsWalk(g, q) && q[0] == b && q[|q| - 1] == c;
    var r := p + q[1..];
    forall i | 0 <= i < |r| - 1 ensures r[i + 1] in Deps(g, r[i]) {
      if i >= |p| - 1 {
        assert r[i] == q[i - |p| + 1] && r[i + 1] == q[i - |p| + 2];
      }
    }
    assert IsWalk(g, r) && r[0] == a && r[|r| - 1] == c;
    EndsInDependency(g, a, c);
  }

  lemma EndsInDependency(g: Graph, k: Id, a: Id)
    requires Reaches(g, k, a)
    ensures a in Ancestors(g, k) && k in g
  {
    var p :| IsWalk(g, p) && p[0] == k && p[|p| - 1] == a;
    assert p[|p| - 2 + 1] in Deps(g, p[|p| - 2]);
    assert p[0 + 1] in Deps(g, p[0]);
  }

  /** A set that holds the direct dependencies and is closed under dependencies holds every ancestor. */
  lemma ClosedSetHoldsAncestors(g: Graph, k: Id, s: set<Id>)
    requires forall d :: d in Deps(g, k) ==> d in s
    requires forall f, d :: f in s && d in Deps(g, f) ==> d in s
    ensures Ancestors(g, k) <= s
  {
    forall a | a in Ancestors(g, k) ensures a in s {
      var p :| IsWalk(g, p) && p[0] == k && p[|p| - 1] == a;
      WalkStaysIn(g, p, s, |p| - 1);
    }
  }

  lemma {:induction false} WalkStaysIn(g: Graph, p: seq<Id>, s: set<Id>, i: nat)
    requires IsWalk(g, p) && 1 <= i < |p|
    requires forall d :: d in Deps(g, p[0]) ==> d in s
    requires forall f, d :: f in s && d in Deps(g, f) ==> d in s
    ensures p[i] in s
  {
    assert p[i - 1 + 1] in Deps(g, p[i - 1]);
    if i > 1 {
      WalkStaysIn(g, p, s, i - 1);
    }
  }

  lemma AncestorsAreDependencies(g: Graph, k: Id)
    ensures Ancestors(g, k) <= AllDeps(g)
  {
  }

  // ---- Worklists ------------------------------------------------------------------------

  /** Marks on pop: the planner's `ancestors`, and the upstream lookup, which tolerates ids that are
      not in the graph. */
  method MarkOnPop(g: Graph, k: Id) returns (found: set<Id>)
    ensures found == Ancestors(g, k)
  {
    hide Reaches, Ancestors, IsWalk;
    found := {};
    var pending := Deps(g, k);
    forall d | d in pending ensures d in Ancestors(g, k) { EdgeReaches(g, k, d); }
    while pending != []
      invariant found <= Ancestors(g, k)
      invariant forall d :: d in pending ==> d in Ancestors(g, k)
      invariant forall d :: d in Deps(g, k) ==> d in found || d in pending
      invariant forall f, d :: f in found && d in Deps(g, f) ==> d in found || d in pending
      decreases AllDeps(g) - found, |pending|
    {
      var dependency := pending[|pending| - 1];
      ghost var before := pending;
      pending := pending[..|pending| - 1];
      assert before == pending + [dependency];
      if dependency in found {
        continue;
      }
      AncestorsAreDependencies(g, k);
      found := found + {dependency};
      forall e | e in Deps(g, dependency) ensures e in Ancestors(g, k) { PushStaysWithin(g, k, false, dependency, e); }
      pending := pending + Deps(g, dependency);
    }
    ClosedSetHoldsAncestors(g, k, found);
  }

  /** Some listing of a set without repetition. */
  method Listed(s: set<Id>) returns (l: seq<Id>)
    ensures forall x :: x in s <==> x in l
    ensures |l| == |s|
  {
    l := [];
    var rest := s;
    while rest != {}
      invariant rest <= s && |l| + |rest| == |s|
      invariant forall x :: x in s <==> x in rest || x in l
      decreases rest
    {
      var x :| x in rest;
      l := l + [x];
      rest := rest - {x};
    }
  }

  /** Where a worklist may arrive: the start itself, if it was marked to begin with, and its ancestors. */
  ghost predicate Within(g: Graph, k: Id, reflexive: bool, s: set<Id>) {
    forall d :: d in s ==> (reflexive && d == k) || d in Ancestors(g, k)
  }

  lemma PushStaysWithin(g: Graph, k: Id, reflexive: bool, popped: Id, key: Id)
    requires (reflexive && popped == k) || popped in Ancestors(g, k)
    requires key in Deps(g, popped)
    ensures key in Ancestors(g, k)
  {
    if popped in Ancestors(g, k) { StepReaches(g, k, popped, key); } else { EdgeReaches(g, k, key); }
  }

  /** Every marked task that is not waiting has its dependencies marked. */
  ghost predicate Handled(g: Graph, found: set<Id>, pending: seq<Id>) {
    forall f, d :: f in found && f !in pending && d in Deps(g, f) ==> d in found
  }

  /** Marks on push, from a set that is already marked: the closure policy and the output contracts
      start from a task's dependencies, the availability map from the task itself. */
  method MarkOnPush(g: Graph, start: set<Id>, ghost k: Id, ghost reflexive: bool) returns (found: set<Id>)
    requires Closed(g) && k in g
    requires start == if reflexive then {k} else set d | d in g[k]
    ensures found == if reflexive then {k} + Ancestors(g, k) else Ancestors(g, k)
  {
    hide Reaches, Ancestors, IsWalk;
    forall d | d in g[k] ensures d in Ancestors(g, k) { EdgeReaches(g, k, d); }
    found := start;
    var pending := Listed(found);
    while pending != []
      invariant start <= found <= g.Keys && Within(g, k, reflexive, found)
      invariant forall d :: d in pending ==> d in found
      invariant Handled(g, found, pending)
      decreases g.Keys - found, |pending|
    {
      found, pending := PushDependencies(g, found, pending, k, reflexive);
    }
    ClosedSetHoldsAncestors(g, k, found);
  }

  /** One turn of the worklist: pops a task and pushes its unmarked dependencies. */
  method PushDependencies(g: Graph, found: set<Id>, pending: seq<Id>, ghost k: Id, ghost reflexive: bool)
    returns (marked: set<Id>, waiting: seq<Id>)
    requires Closed(g) && pending != [] && found <= g.Keys && Within(g, k, reflexive, found)
             && Handled(g, found, pending)
    requires forall d :: d in pending ==> d in found
    ensures found <= marked <= g.Keys && Within(g, k, reflexive, marked) && Handled(g, marked, waiting)
    ensures forall d :: d in waiting ==> d in marked
    ensures marked == found ==> |waiting| < |pending|
  {
    hide Reaches, Ancestors, IsWalk;
    var popped := pending[|pending| - 1];
    marked, waiting := found, pending[..|pending| - 1];
    assert pending == waiting + [popped];
    var deps := g[popped];
    for i := 0 to |deps|
      invariant found <= marked <= g.Keys && Within(g, k, reflexive, marked)
      invariant forall d :: d in waiting ==> d in marked
      invariant forall f, d :: f in marked && f !in waiting && f != popped && d in Deps(g, f) ==> d in marked
      invariant forall j :: 0 <= j < i ==> deps[j] in marked
      invariant marked == found ==> |waiting| < |pending|
    {
      var key := deps[i];
      if key !in marked {
        PushStaysWithin(g, k, reflexive, popped, key);
        marked := marked + {key};
        waiting := waiting + [key];
      }
    }
  }

  /** Ancestors of a task for the closure policy and the output contracts. */
  method AncestorsOf(g: Graph, k: Id) returns (found: set<Id>)
    requires Closed(g) && k in g
    ensures found == Ancestors(g, k)
  {
    found := MarkOnPush(g, (set d | d in g[k]), k, false);
  }

  /** The scope of the availability map: the task and everything it depends on. */
  method AvailabilityScope(g: Graph, k: Id) returns (scope: set<Id>)
    requires Closed(g) && k in g
    ensures scope == {k} + Ancestors(g, k)
  {
    scope := MarkOnPush(g, {k}, k, true);
  }

  // ---- Acyclicity -----------------------------------------------------------------------

  predicate Waits(g: Graph, s: set<Id>, k: Id) {
    exists d :: d in Deps(g, k) && d in s
  }

  /** Every member of the set waits for another one. */
  ghost predicate Stuck(g: Graph, s: set<Id>) {
    forall k :: k in s ==> Waits(g, s, k)
  }

  lemma StuckIsCyclic(g: Graph, s: set<Id>)
    requires s != {} && s <= g.Keys && Stuck(g, s)
    ensures !Acyclic(g)
  {
    var x :| x in s;
    var c := StuckMeansCycle(g, s, x);
  }

  /** If every member of a non-empty set has a dependency in the set, some member lies on a cycle:
      otherwise ancestors would shrink forever. */
  lemma {:induction false} StuckMeansCycle(g: Graph, s: set<Id>, x: Id) returns (c: Id)
    requires x in s && Stuck(g, s)
    ensures c in s && Reaches(g, c, c)
    decreases Ancestors(g, x)
  {
    if Reaches(g, x, x) {
      c := x;
    } else {
      assert Waits(g, s, x);
      var y :| y in Deps(g, x) && y in s;
      EdgeReaches(g, x, y);
      if Reaches(g, y, y) {
        c := y;
      } else {
        forall a | a in Ancestors(g, y) ensures a in Ancestors(g, x) { ReachesCompose(g, x, y, a); }
        c := StuckMeansCycle(g, s, y);
      }
    }
  }

  /** Nothing in a finished layer lies on a cycle or depends on an unfinished task. */
  ghost predicate Settled(g: Graph, done: set<Id>) {
    forall k :: k in done ==> k in g && !Reaches(g, k, k) && forall d :: d in g[k] ==> d in done
  }

  lemma LayerSettles(g: Graph, done: set<Id>, ready: set<Id>)
    requires Settled(g, done) && ready <= g.Keys - done
    requires forall k, d :: k in ready && d in g[k] ==> d in done
    ensures Settled(g, done + ready)
  {
    forall k | k in ready ensures !Reaches(g, k, k) {
      ClosedSetHoldsAncestors(g, k, done);
      if Reaches(g, k, k) {
        EndsInDependency(g, k, k);
      }
    }
  }

  /** The planner's check: peel off the tasks that no longer wait for anything that remains. */
  method EnsureAcyclic(g: Graph) returns (ok: bool)
    requires Closed(g)
    ensures ok <==> Acyclic(g)
  {
    hide Reaches, Ancestors, IsWalk;
    var remaining := g.Keys;
    assert g.Keys - remaining == {};
    while remaining != {}
      invariant remaining <= g.Keys && Settled(g, g.Keys - remaining)
      decreases remaining
    {
      var ready := set k | k in remaining && !Waits(g, remaining, k);
      if ready == {} {
        forall k | k in remaining ensures Waits(g, remaining, k) {
          assert k !in ready;
        }
        StuckIsCyclic(g, remaining);
        return false;
      }
      forall k, d | k in ready && d in g[k] ensures d in g.Keys - remaining {
        assert !Waits(g, remaining, k);
      }
      LayerSettles(g, g.Keys - remaining, ready);
      assert g.Keys - remaining + ready == g.Keys - (remaining - ready);
      remaining := remaining - ready;
    }
    assert g.Keys - remaining == g.Keys;
    return true;
  }

  /** The runtime validator's check: grow the set of tasks whose dependencies are all resolved. */
  method ResolveAll(g: Graph) returns (ok: bool)
    requires Closed(g)
    ensures ok <==> Acyclic(g)
  {
    hide Reaches, Ancestors, IsWalk;
    var resolved: set<Id> := {};
    while |resolved| < |g|
      invariant resolved <= g.Keys && Settled(g, resolved)
      decreases g.Keys - resolved
    {
      var ready := set k | k in g && k !in resolved && forall d :: d in g[k] ==> d in resolved;
      if ready == {} {
        forall k | k in g.Keys - resolved ensures Waits(g, g.Keys - resolved, k) {
          assert k !in ready;
        }
        assert resolved != g.Keys;
        StuckIsCyclic(g, g.Keys - resolved);
        return false;
      }
      LayerSettles(g, resolved, ready);
      resolved := resolved + ready;
    }
    AllResolved(g.Keys, resolved);
    return true;
  }

  lemma AllResolved(all: set<Id>, some: set<Id>)
    requires some <= all && |some| >= |all|
    ensures some == all
  {
    assert |all - some| == |all| - |some|;
  }

  // ---- Execution orders -----------------------------------------------------------------

  /** A listing of all tasks, each once and after all its dependencies. */
  ghost predicate Respects(g: Graph, order: seq<Id>) {
    && (forall k :: k in order <==> k in g)
    && (forall i, j :: 0 <= i < j < |order| ==> order[i] != order[j])
    && (forall i, d :: 0 <= i < |order| && d in Deps(g, order[i]) ==> d in order[..i])
  }

  /** In every execution order that respects the dependencies, ancestors come first. */
  lemma AncestorsComeFirst(g: Graph, order: seq<Id>, i: nat, j: nat)
    requires Respects(g, order) && i < |order| && j < |order|
    requires Reaches(g, order[i], order[j])
    ensures j < i
  {
    var before := set x | x in order[..i];
    forall d | d in Deps(g, order[i]) ensures d in before {
    }
    forall f, d | f in before && d in Deps(g, f) ensures d in before {
      var k :| 0 <= k < i && order[..i][k] == f;
      assert order[k] == f && d in order[..k];
      assert order[..k] <= order[..i];
      var m :| 0 <= m < k && order[..k][m] == d;
      assert order[..i][m] == d;
    }
    ClosedSetHoldsAncestors(g, order[i], before);
    EndsInDependency(g, order[i], order[j]);
    var m :| 0 <= m < i && order[..i][m] == order[j];
    assert order[m] == order[j];
  }

  /** A closed graph is acyclic exactly when such an order exists. */
  lemma AcyclicExactlyWhenOrdered(g: Graph)
    requires Closed(g)
    ensures Acyclic(g) <==> exists order :: Respects(g, order)
  {
    if Acyclic(g) {
      var order := Order(g, []);
      assert Respects(g, order);
    }
    if order :| Respects(g, order) {
      forall k | k in g ensures !Reaches(g, k, k) {
        if Reaches(g, k, k) {
          var i :| 0 <= i < |order| && order[i] == k;
          AncestorsComeFirst(g, order, i, i);
        }
      }
    }
  }

  /** A listing of some tasks, each once and after all its dependencies. */
  ghost predicate Partial(g: Graph, part: seq<Id>) {
    && (forall k :: k in part ==> k in g)
    && (forall i, j :: 0 <= i < j < |part| ==> part[i] != part[j])
    && (forall i, d :: 0 <= i < |part| && d in Deps(g, part[i]) ==> d in part[..i])
  }

  lemma ExtendPartial(g: Graph, part: seq<Id>, k: Id)
    requires Partial(g, part) && k in g && k !in part && forall d :: d in g[k] ==> d in part
    ensures Partial(g, part + [k])
    ensures forall x :: x in part + [k] <==> x in part || x == k
  {
    var next := part + [k];
    forall i, d | 0 <= i < |next| && d in Deps(g, next[i]) ensures d in next[..i] {
      assert i < |part| ==> next[..i] == part[..i];
      assert next[..|part|] == part;
    }
  }

  lemma {:induction false} Order(g: Graph, part: seq<Id>) returns (order: seq<Id>)
    requires Closed(g) && Acyclic(g) && Partial(g, part)
    ensures Respects(g, order)
    decreases g.Keys - set k | k in part
  {
    hide Reaches, Ancestors, IsWalk, Partial;
    var rest := set k | k in g && k !in part;
    if rest == {} {
      order := part;
      assert Respects(g, order) by { AllListed(g, part, rest); }
    } else {
      var k := NextInOrder(g, part, rest);
      ExtendPartial(g, part, k);
      assert k in g.Keys - (set x | x in part);
      order := Order(g, part + [k]);
    }
  }

  lemma AllListed(g: Graph, part: seq<Id>, rest: set<Id>)
    requires Partial(g, part) && rest == {} && rest == set k | k in g && k !in part
    ensures Respects(g, part)
  {
    forall k | k in g ensures k in part {
      assert k !in rest;
    }
  }

  lemma NextInOrder(g: Graph, part: seq<Id>, rest: set<Id>) returns (k: Id)
    requires Closed(g) && Acyclic(g) && rest != {} && rest == set k | k in g && k !in part
    ensures k in rest && forall d :: d in g[k] ==> d in part
  {
    hide Reaches, Ancestors, IsWalk;
    if Stuck(g, rest) {
      StuckIsCyclic(g, rest);
    }
    k :| k in rest && !Waits(g, rest, k);
    forall d | d in g[k] ensures d in part {
      assert d in Deps(g, k);
    }
  }
}

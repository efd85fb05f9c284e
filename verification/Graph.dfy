/** The derivation graph of a plan, walks in it, and the dependency search of worker/scheduler.go. */
module Graph {
  import opened Names

  /** The parts of a derivation the pool looks at, with `env` and `__json` already decoded (`attrsValid` is false when
      decoding fails). */
  datatype Derivation = Derivation(
    inputs: set<string>, dynamic: bool, system: string, preferLocal: bool,
    required: set<string>, attrsValid: bool, outputs: set<string>)

  type Plan = map<string, Derivation>

  /** A Go map yields the zero value for a missing key, which has no inputs. */
  function Inputs(g: Plan, d: string): set<string> {
    if d in g then g[d].inputs else {}
  }

  function InputMap(g: Plan): map<string, set<string>> { map d | d in g :: g[d].inputs }

  /** Adjacency with the same convention, for any relation from a node to the nodes it needs. */
  function Needs(deps: map<string, set<string>>, d: string): set<string> {
    if d in deps then deps[d] else {}
  }

  // ---- walks: each node needs the next one

  ghost predicate Walk(deps: map<string, set<string>>, p: seq<string>) {
    |p| >= 1 && forall i :: 0 <= i < |p| - 1 ==> p[i + 1] in Needs(deps, p[i])
  }

  ghost predicate WalkFromTo(deps: map<string, set<string>>, p: seq<string>, a: string, b: string) {
    Walk(deps, p) && |p| >= 2 && p[0] == a && p[|p| - 1] == b
  }

  /** `b` is a direct or indirect need of `a`. */
  ghost predicate Reaches(deps: map<string, set<string>>, a: string, b: string) {
    exists p :: WalkFromTo(deps, p, a, b)
  }

  ghost predicate Cyclic(deps: map<string, set<string>>) { exists a :: Reaches(deps, a, a) }

  lemma ReachStep(deps: map<string, set<string>>, a: string, b: string)
    requires b in Needs(deps, a)
    ensures Reaches(deps, a, b)
  {
    assert WalkFromTo(deps, [a, b], a, b);
  }

  lemma ReachJoin(deps: map<string, set<string>>, a: string, b: string, c: string)
    requires Reaches(deps, a, b) && Reaches(deps, b, c)
    ensures Reaches(deps, a, c)
  {
    var p :| WalkFromTo(deps, p, a, b);
    var q :| WalkFromTo(deps, q, b, c);
    assert WalkFromTo(deps, p + q[1..], a, c);
  }

  lemma ReachFirst(deps: map<string, set<string>>, a: string, c: string) returns (b: string)
    requires Reaches(deps, a, c)
    ensures b in Needs(deps, a) && (b == c || Reaches(deps, b, c))
  {
    var p :| WalkFromTo(deps, p, a, c);
    b := p[1];
    if |p| > 2 { assert WalkFromTo(deps, p[1..], b, c); }
  }

  /** A ranking that decreases along every need; its existence rules out cycles. */
  ghost predicate Ranked(deps: map<string, set<string>>, rank: map<string, nat>) {
    forall a, b {:trigger b in Needs(deps, a)} :: b in Needs(deps, a) ==> a in rank && b in rank && rank[b] < rank[a]
  }

  lemma {:induction false} WalkDescends(deps: map<string, set<string>>, rank: map<string, nat>, p: seq<string>)
    requires Ranked(deps, rank) && Walk(deps, p) && |p| >= 2
    ensures p[0] in rank && p[|p| - 1] in rank && rank[p[|p| - 1]] < rank[p[0]]
  {
    assert p[1] in Needs(deps, p[0]);
    if |p| > 2 {
      assert Walk(deps, p[1..]);
      WalkDescends(deps, rank, p[1..]);
    }
  }

  lemma RankedAcyclic(deps: map<string, set<string>>, rank: map<string, nat>)
    requires Ranked(deps, rank)
    ensures !Cyclic(deps)
  {
    if a :| Reaches(deps, a, a) {
      var p :| WalkFromTo(deps, p, a, a);
      WalkDescends(deps, rank, p);
    }
  }

  // ---- dependencies seen through unscheduled nodes

  /** A walk whose inner nodes are all unscheduled. */
  ghost predicate Direct(g: Plan, pending: set<string>, p: seq<string>) {
    Walk(InputMap(g), p) && forall i :: 0 < i < |p| - 1 ==> p[i] !in pending
  }

  /** What `poolDependencies` promises: the scheduled nodes `d` reaches with nothing scheduled in between. */
  ghost predicate Dependency(g: Plan, pending: set<string>, d: string, e: string) {
    e in pending && exists p :: Direct(g, pending, p) && |p| >= 2 && p[0] == d && p[|p| - 1] == e
  }

  ghost predicate Touches(g: Plan, pending: set<string>, d: string, n: string) {
    exists p :: Direct(g, pending, p) && |p| >= 2 && p[0] == d && p[|p| - 1] == n
  }

  ghost function Universe(g: Plan): set<string> { g.Keys + set d, n | d in g && n in g[d].inputs :: n }

  /** `visit` of worker/scheduler.go:21-34, with its captured variables as fields. */
  class DependencySearch {
    const graph: Plan
    const pending: set<string>
    var seen: set<string>
    var result: seq<string>

    constructor (graph: Plan, pending: set<string>)
      ensures this.graph == graph && this.pending == pending && seen == {} && result == []
    {
      this.graph, this.pending, seen, result := graph, pending, {}, [];
    }

    /** Everything seen below an unscheduled seen node has been seen, except below the nodes still on the call stack. */
    ghost predicate Closed(open: set<string>)
      reads this
    {
      forall n, m :: n in seen && n !in pending && n !in open && m in Inputs(graph, n) ==> m in seen
    }

    ghost predicate Valid()
      reads this
    {
      && seen <= Universe(graph)
      && Elements(result) == seen * pending
      && Distinct(result)
    }

    method Visit(current: string, ghost root: string, ghost open: set<string>)
      requires Valid() && Closed(open + {current})
      requires current == root || (current !in pending && Touches(graph, pending, root, current))
      requires forall n :: n in seen ==> Touches(graph, pending, root, n)
      modifies this
      ensures Valid() && Closed(open - {current}) && old(seen) <= seen
      ensures forall n :: n in seen ==> Touches(graph, pending, root, n)
      ensures Inputs(graph, current) <= seen
      decreases Universe(graph) - seen
    {
      var todo := Inputs(graph, current);
      while todo != {}
        invariant todo <= Inputs(graph, current)
        invariant Valid() && Closed(open + {current}) && old(seen) <= seen
        invariant forall n :: n in seen ==> Touches(graph, pending, root, n)
        invariant Inputs(graph, current) - todo <= seen
        decreases todo
      {
        var dep :| dep in todo;
        todo := todo - {dep};
        if dep !in seen {
          TouchNext(graph, pending, root, current, dep);
          seen := seen + {dep};
          if dep in pending {
            AppendElement(result, dep);
            result := result + [dep];
          } else {
            Visit(dep, root, open + {current});
          }
        }
      }
    }
  }

  lemma TouchNext(g: Plan, pending: set<string>, root: string, current: string, dep: string)
    requires current == root || (current !in pending && Touches(g, pending, root, current))
    requires dep in Inputs(g, current)
    ensures Touches(g, pending, root, dep)
  {
    if current == root {
      var p := [root, dep];
      assert Direct(g, pending, p) && p[0] == root && p[|p| - 1] == dep;
    } else {
      var p :| Direct(g, pending, p) && |p| >= 2 && p[0] == root && p[|p| - 1] == current;
      var q := p + [dep];
      assert Direct(g, pending, q) && q[0] == root && q[|q| - 1] == dep;
    }
  }

  lemma {:induction false} TouchedIsSeen(g: Plan, pending: set<string>, seen: set<string>, p: seq<string>)
    requires Direct(g, pending, p) && |p| >= 2 && Inputs(g, p[0]) <= seen
    requires forall n, m :: n in seen && n !in pending && m in Inputs(g, n) ==> m in seen
    ensures p[|p| - 1] in seen
  {
    assert p[1] in Needs(InputMap(g), p[0]);
    if |p| > 2 {
      assert Direct(g, pending, p[1..]);
      TouchedIsSeen(g, pending, seen, p[1..]);
    }
  }

  /** `poolDependencies` returns each scheduled node met through unscheduled ones, once. */
  method PoolDependencies(graph: Plan, drv: string, pending: set<string>) returns (result: seq<string>)
    ensures Distinct(result)
    ensures forall e :: e in result <==> Dependency(graph, pending, drv, e)
  {
    var search := new DependencySearch(graph, pending);
    search.Visit(drv, drv, {});
    result := search.result;
    forall e
      ensures e in result <==> Dependency(graph, pending, drv, e)
    {
      assert e in result <==> e in Elements(result);
      if Dependency(graph, pending, drv, e) {
        var p :| Direct(graph, pending, p) && |p| >= 2 && p[0] == drv && p[|p| - 1] == e;
        TouchedIsSeen(graph, pending, search.seen, p);
      }
    }
  }

  /** `deps` as the scheduler builds it (worker/scheduler.go:89-92). */
  ghost predicate IsDependencyMap(g: Plan, specs: set<string>, deps: map<string, set<string>>) {
    && deps.Keys == specs
    && forall d, e :: d in specs ==> (e in deps[d] <==> Dependency(g, specs, d, e))
  }

  lemma {:induction false} WalkReachesDeps(g: Plan, specs: set<string>, deps: map<string, set<string>>, p: seq<string>)
    requires IsDependencyMap(g, specs, deps)
    requires Walk(InputMap(g), p) && |p| >= 2 && p[0] in specs && p[|p| - 1] in specs
    ensures Reaches(deps, p[0], p[|p| - 1])
    decreases |p|
  {
    var i := 1;
    while p[i] !in specs
      invariant 1 <= i < |p|
      invariant forall k :: 1 <= k < i ==> p[k] !in specs
      decreases |p| - i
    {
      i := i + 1;
    }
    var head := p[..i + 1];
    assert Direct(g, specs, head) && head[0] == p[0] && head[|head| - 1] == p[i];
    ReachStep(deps, p[0], p[i]);
    if i < |p| - 1 {
      var tail := p[i..];
      assert Walk(InputMap(g), tail);
      WalkReachesDeps(g, specs, deps, tail);
      ReachJoin(deps, p[0], p[i], p[|p| - 1]);
    }
  }

  lemma {:induction false} DepsWalkReaches(g: Plan, specs: set<string>, deps: map<string, set<string>>, p: seq<string>)
    requires IsDependencyMap(g, specs, deps) && Walk(deps, p) && |p| >= 2
    ensures Reaches(InputMap(g), p[0], p[|p| - 1])
  {
    assert p[1] in Needs(deps, p[0]);
    assert Dependency(g, specs, p[0], p[1]);
    var q :| Direct(g, specs, q) && |q| >= 2 && q[0] == p[0] && q[|q| - 1] == p[1];
    assert WalkFromTo(InputMap(g), q, p[0], p[1]);
    if |p| > 2 {
      assert Walk(deps, p[1..]);
      DepsWalkReaches(g, specs, deps, p[1..]);
      ReachJoin(InputMap(g), p[0], p[1], p[|p| - 1]);
    }
  }

  /** Between scheduled derivations, the reduced dependencies reach exactly what the whole graph reaches. */
  lemma DependenciesPreserveReach(g: Plan, specs: set<string>, deps: map<string, set<string>>, d: string, e: string)
    requires IsDependencyMap(g, specs, deps) && d in specs && e in specs
    ensures Reaches(deps, d, e) <==> Reaches(InputMap(g), d, e)
  {
    if Reaches(deps, d, e) {
      var p :| WalkFromTo(deps, p, d, e);
      DepsWalkReaches(g, specs, deps, p);
    }
    if Reaches(InputMap(g), d, e) {
      var p :| WalkFromTo(InputMap(g), p, d, e);
      WalkReachesDeps(g, specs, deps, p);
    }
  }

  /** A ranking of the whole graph ranks the reduced dependencies, once missing nodes are placed at the bottom. */
  lemma DependenciesRanked(g: Plan, specs: set<string>, deps: map<string, set<string>>, rank: map<string, nat>)
    requires IsDependencyMap(g, specs, deps) && Ranked(InputMap(g), rank)
    ensures Ranked(deps, rank)
  {
    forall a, b {:trigger b in Needs(deps, a)} | b in Needs(deps, a)
      ensures a in rank && b in rank && rank[b] < rank[a]
    {
      assert Dependency(g, specs, a, b);
      var q :| Direct(g, specs, q) && |q| >= 2 && q[0] == a && q[|q| - 1] == b;
      WalkDescends(InputMap(g), rank, q);
    }
  }
}

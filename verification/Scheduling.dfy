/** Priorities and assignment order of the build pool (worker/scheduling.go). */
module Scheduling {
  import opened Names
  import opened Graph

  /** Each element is needed by the next one: `p[1]` consumes `p[0]`, and so on. */
  ghost predicate Chain(deps: map<string, set<string>>, p: seq<string>) {
    |p| >= 1 && forall i :: 0 <= i < |p| - 1 ==> p[i] in Needs(deps, p[i + 1])
  }

  ghost predicate ChainFrom(deps: map<string, set<string>>, p: seq<string>, d: string) { Chain(deps, p) && p[0] == d }

  /** `n` is the length of the longest consumer chain starting at `d`. */
  ghost predicate Longest(deps: map<string, set<string>>, d: string, n: nat) {
    && (exists p :: ChainFrom(deps, p, d) && |p| == n)
    && forall p :: ChainFrom(deps, p, d) ==> |p| <= n
  }

  lemma LongestGrows(deps: map<string, set<string>>, d: string, e: string, m: nat, n: nat)
    requires e in Needs(deps, d) && Longest(deps, d, m) && Longest(deps, e, n)
    ensures m < n
  {
    var p :| ChainFrom(deps, p, d) && |p| == m;
    assert ChainFrom(deps, [e] + p, e);
  }

  function ConsumersIn(deps: map<string, set<string>>, d: string): set<string> { set c | c in deps && d in deps[c] }

  /** The chains already accounted for: those that stop at once or go on through a consumer in `part`. */
  ghost predicate LongestThrough(deps: map<string, set<string>>, d: string, part: set<string>, n: nat) {
    && (exists p :: ChainFrom(deps, p, d) && |p| == n)
    && forall p :: ChainFrom(deps, p, d) && (|p| == 1 || p[1] in part) ==> |p| <= n
  }

  lemma LongestAlone(deps: map<string, set<string>>, d: string)
    ensures LongestThrough(deps, d, {}, 1)
  {
    assert ChainFrom(deps, [d], d);
  }

  lemma LongestExtends(deps: map<string, set<string>>, d: string, part: set<string>, n: nat, c: string, m: nat)
    requires LongestThrough(deps, d, part, n) && c in ConsumersIn(deps, d) && Longest(deps, c, m)
    ensures LongestThrough(deps, d, part + {c}, if n < m + 1 then m + 1 else n)
  {
    var q :| ChainFrom(deps, q, c) && |q| == m;
    assert ChainFrom(deps, [d] + q, d) && |[d] + q| == m + 1;
    forall p | ChainFrom(deps, p, d) && |p| > 1 && p[1] == c
      ensures |p| <= m + 1
    {
      assert ChainFrom(deps, p[1..], c);
    }
  }

  lemma LongestWhole(deps: map<string, set<string>>, d: string, n: nat)
    requires LongestThrough(deps, d, ConsumersIn(deps, d), n)
    ensures Longest(deps, d, n)
  {
    forall p | ChainFrom(deps, p, d)
      ensures |p| == 1 || p[1] in ConsumersIn(deps, d)
    {
      if |p| > 1 { assert p[0] in Needs(deps, p[1]); }
    }
  }

  function Rank(rank: map<string, nat>, d: string): nat { if d in rank then rank[d] else 0 }

  /** `visit` of worker/scheduling.go:16-24 with its memo table; a missing entry stands for Go's zero. */
  class Prioritizer {
    const deps: map<string, set<string>>
    var priority: map<string, nat>

    constructor (deps: map<string, set<string>>)
      ensures this.deps == deps && priority == map[]
    {
      this.deps, priority := deps, map[];
    }

    method Visit(drv: string, ghost rank: map<string, nat>, ghost top: nat) returns (n: nat)
      requires Ranked(deps, rank) && (forall d :: d in rank ==> rank[d] <= top)
      requires FinalAbove(deps, priority, rank, Rank(rank, drv))
      modifies this
      ensures Longest(deps, drv, n) && drv in priority && priority[drv] == n
      ensures Grown(deps, old(priority), priority, {})
      decreases top - Rank(rank, drv)
    {
      hide Longest, LongestThrough;
      if drv !in priority {
        priority := priority[drv := 1];
        LongestAlone(deps, drv);
        GrownStart(deps, old(priority), drv);
        var todo := ConsumersIn(deps, drv);
        assert ConsumersIn(deps, drv) - todo == {};
        while todo != {}
          invariant todo <= ConsumersIn(deps, drv) && Grown(deps, old(priority), priority, {drv})
          invariant drv in priority && LongestThrough(deps, drv, ConsumersIn(deps, drv) - todo, priority[drv])
          decreases todo
        {
          hide Longest, LongestThrough, Grown, FinalAbove;
          var consumer :| consumer in todo;
          ghost var before := priority;
          ConsumerAbove(deps, old(priority), priority, drv, rank, consumer);
          var m := Visit(consumer, rank, top);
          GrownMore(deps, old(priority), before, priority, drv);
          LongestExtends(deps, drv, ConsumersIn(deps, drv) - todo, priority[drv], consumer, m);
          assert ConsumersIn(deps, drv) - todo + {consumer} == ConsumersIn(deps, drv) - (todo - {consumer});
          GrownOpen(deps, old(priority), priority, drv, 1 + m);
          if priority[drv] < 1 + m { priority := priority[drv := 1 + m]; }
          todo := todo - {consumer};
        }
        assert ConsumersIn(deps, drv) - todo == ConsumersIn(deps, drv);
        LongestWhole(deps, drv, priority[drv]);
      }
      n := priority[drv];
      FinalHere(deps, old(priority), priority, rank, drv);
    }
  }

  /** Entries whose rank is at least `floor` are final; lower ones may still be on the call stack. */
  ghost predicate FinalAbove(deps: map<string, set<string>>, priority: map<string, nat>, rank: map<string, nat>,
                             floor: nat) {
    forall d :: d in priority && Rank(rank, d) >= floor ==> Longest(deps, d, priority[d])
  }

  /** Entries stay, and new ones that are not still being computed are final. */
  ghost predicate Grown(deps: map<string, set<string>>, before: map<string, nat>, after: map<string, nat>,
                        open: set<string>) {
    && (forall d :: d in before ==> d in after && after[d] == before[d])
    && (forall d :: d in after && d !in before && d !in open ==> Longest(deps, d, after[d]))
  }

  lemma GrownStart(deps: map<string, set<string>>, before: map<string, nat>, drv: string)
    requires drv !in before
    ensures Grown(deps, before, before[drv := 1], {drv})
  {
    hide Longest;
  }

  /** While `drv` is computed, everything from a consumer upwards is final. */
  lemma ConsumerAbove(deps: map<string, set<string>>, before: map<string, nat>, priority: map<string, nat>, drv: string,
                      rank: map<string, nat>, consumer: string)
    requires Ranked(deps, rank) && FinalAbove(deps, before, rank, Rank(rank, drv))
             && Grown(deps, before, priority, {drv})
    requires consumer in ConsumersIn(deps, drv)
    ensures Rank(rank, drv) < Rank(rank, consumer) && consumer in rank && drv in rank
    ensures FinalAbove(deps, priority, rank, Rank(rank, consumer))
  {
    hide Longest;
    assert drv in Needs(deps, consumer);
    assert rank[drv] < rank[consumer];
  }

  lemma GrownMore(deps: map<string, set<string>>, first: map<string, nat>, before: map<string, nat>,
                  after: map<string, nat>, drv: string)
    requires Grown(deps, first, before, {drv}) && Grown(deps, before, after, {}) && drv in before
    ensures Grown(deps, first, after, {drv}) && drv in after && after[drv] == before[drv]
  {
    hide Longest;
  }

  lemma GrownOpen(deps: map<string, set<string>>, first: map<string, nat>, priority: map<string, nat>, drv: string,
                  n: nat)
    requires Grown(deps, first, priority, {drv}) && drv !in first
    ensures Grown(deps, first, priority[drv := n], {drv})
  {
    hide Longest;
  }

  lemma FinalHere(deps: map<string, set<string>>, before: map<string, nat>, priority: map<string, nat>,
                  rank: map<string, nat>, drv: string)
    requires drv in priority
             && if drv in before then priority == before && FinalAbove(deps, before, rank, Rank(rank, drv))
                                else Grown(deps, before, priority, {drv}) && Longest(deps, drv, priority[drv])
    ensures Longest(deps, drv, priority[drv]) && Grown(deps, before, priority, {})
  {
    hide Longest;
  }

  ghost predicate ArePriorities(deps: map<string, set<string>>, priority: map<string, nat>) {
    deps.Keys <= priority.Keys && forall d :: d in priority ==> Longest(deps, d, priority[d])
  }

  /** `poolPriorities`: on acyclic dependencies the memo table ends as the longest consumer chains. */
  method PoolPriorities(deps: map<string, set<string>>, ghost rank: map<string, nat>)
    returns (priority: map<string, nat>)
    requires Ranked(deps, rank)
    ensures ArePriorities(deps, priority)
  {
    var p := new Prioritizer(deps);
    ghost var top := MaxRank(rank);
    var todo := deps.Keys;
    while todo != {}
      invariant todo <= deps.Keys && p.deps == deps
      invariant forall d :: d in p.priority ==> Longest(deps, d, p.priority[d])
      invariant deps.Keys - todo <= p.priority.Keys
      decreases todo
    {
      var drv :| drv in todo;
      var _ := p.Visit(drv, rank, top);
      todo := todo - {drv};
    }
    priority := p.priority;
  }

  lemma MaxRank(rank: map<string, nat>) returns (top: nat)
    ensures forall d :: d in rank ==> rank[d] <= top
  {
    top := 0;
    var todo := rank.Keys;
    while todo != {}
      invariant forall d :: d in rank && d !in todo ==> rank[d] <= top
    {
      var d :| d in todo;
      if rank[d] > top { top := rank[d]; }
      todo := todo - {d};
    }
  }

  // ---- poolOrder

  function PriorityOf(priority: map<string, nat>, d: string): nat { if d in priority then priority[d] else 0 }

  /** Strictly before in the assignment order: higher priority first, then the smaller name. */
  predicate Sooner(priority: map<string, nat>, a: string, b: string) {
    PriorityOf(priority, a) > PriorityOf(priority, b)
    || (PriorityOf(priority, a) == PriorityOf(priority, b) && Less(a, b))
  }

  ghost predicate Ordered(priority: map<string, nat>, s: seq<string>) {
    forall i, j :: 0 <= i < j < |s| ==> Sooner(priority, s[i], s[j])
  }

  /** `slices.SortStableFunc` by falling priority: an element goes before the first one that is not more urgent. */
  function StableInsert(priority: map<string, nat>, x: string, s: seq<string>): seq<string> {
    if s == [] || PriorityOf(priority, s[0]) <= PriorityOf(priority, x) then [x] + s
    else [s[0]] + StableInsert(priority, x, s[1..])
  }

  function StableSort(priority: map<string, nat>, s: seq<string>): seq<string> {
    if s == [] then [] else StableInsert(priority, s[0], StableSort(priority, s[1..]))
  }

  lemma {:induction false} StableInsertOrdered(priority: map<string, nat>, x: string, s: seq<string>)
    requires Ordered(priority, s) && forall y :: y in s ==> Less(x, y)
    ensures Ordered(priority, StableInsert(priority, x, s))
    ensures Elements(StableInsert(priority, x, s)) == Elements(s) + {x}
  {
    var r := StableInsert(priority, x, s);
    if s == [] {
    } else if PriorityOf(priority, s[0]) <= PriorityOf(priority, x) {
      forall j | 1 <= j < |r|
        ensures Sooner(priority, x, r[j])
      {
        assert r[j] == s[j - 1];
        if j > 1 { assert Sooner(priority, s[0], s[j - 1]); }
      }
    } else {
      assert s == [s[0]] + s[1..];
      StableInsertOrdered(priority, x, s[1..]);
      var t := StableInsert(priority, x, s[1..]);
      forall j | 0 <= j < |t|
        ensures Sooner(priority, s[0], t[j])
      {
        assert t[j] in Elements(t);
      }
      assert Elements(r) == {s[0]} + Elements(t);
      assert Elements(s) == {s[0]} + Elements(s[1..]);
    }
  }

  lemma {:induction false} StableSortOrdered(priority: map<string, nat>, s: seq<string>)
    requires Ascending(s) && Distinct(s)
    ensures Ordered(priority, StableSort(priority, s)) && Elements(StableSort(priority, s)) == Elements(s)
  {
    if s != [] {
      StableSortOrdered(priority, s[1..]);
      forall y | y in StableSort(priority, s[1..])
        ensures Less(s[0], y)
      {
        assert y in Elements(StableSort(priority, s[1..]));
        var i :| 0 <= i < |s[1..]| && s[1..][i] == y;
        assert AtMost(s[0], s[i + 1]) && s[0] != s[i + 1];
      }
      StableInsertOrdered(priority, s[0], StableSort(priority, s[1..]));
      assert s == [s[0]] + s[1..];
    }
  }

  /** `poolOrder`: every scheduled derivation once, most urgent first. */
  method PoolOrder(specs: set<string>, priority: map<string, nat>) returns (order: seq<string>)
    ensures Elements(order) == specs && Ordered(priority, order)
  {
    var keys := Enumerate(specs);
    SortKeeps(keys);
    StableSortOrdered(priority, Sort(keys));
    order := StableSort(priority, Sort(keys));
  }

  /** With the priorities of `PoolPriorities`, the order lists every dependency before whatever needs it. */
  lemma DependenciesFirst(deps: map<string, set<string>>, priority: map<string, nat>, order: seq<string>, i: nat,
                          j: nat)
    requires ArePriorities(deps, priority) && Ordered(priority, order)
    requires i < |order| && j < |order| && order[i] in deps && order[j] in deps && order[j] in Needs(deps, order[i])
    ensures j < i
  {
    LongestGrows(deps, order[i], order[j], priority[order[i]], priority[order[j]]);
  }
}

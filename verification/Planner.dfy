/** Cutting a plan into batches of derivations in build order (worker/planner.go:204-263). */
module Planner {
  import opened Names
  import opened Graph

  datatype Error = InvalidBatchSize | MissingDependency | CyclicGraph
  datatype Result<+T> = Ok(value: T) | Err(error: Error)

  /** `strings.SplitN(s, "^", 2)[0]`. */
  function DrvOf(spec: string): string {
    if spec == "" || spec[0] == '^' then "" else [spec[0]] + DrvOf(spec[1..])
  }

  /** The last spec given for a derivation wins. */
  function Selected(missing: seq<string>): map<string, string> {
    if missing == [] then map[]
    else Selected(missing[..|missing| - 1])[DrvOf(missing[|missing| - 1]) := missing[|missing| - 1]]
  }

  function Pick(order: seq<string>, selected: map<string, string>): seq<string> {
    if order == [] then []
    else
      var rest := Pick(order[..|order| - 1], selected);
      var last := order[|order| - 1];
      if last in selected then rest + [selected[last]] else rest
  }

  ghost predicate Present(g: Plan) { forall d :: d in g ==> g[d].inputs <= g.Keys }

  ghost predicate Available(g: Plan, done: set<string>, d: string) {
    d in g && d !in done && g[d].inputs <= done
  }

  ghost predicate Topological(g: Plan, t: seq<string>) {
    && Distinct(t)
    && Elements(t) == g.Keys
    && forall i :: 0 <= i < |t| ==> Available(g, Elements(t[..i]), t[i])
  }

  /** Each node is the least name among those whose inputs all come earlier. */
  ghost predicate LeastFirst(g: Plan, t: seq<string>) {
    forall i :: 0 <= i < |t| ==>
      && Available(g, Elements(t[..i]), t[i])
      && forall d :: Available(g, Elements(t[..i]), d) ==> AtMost(t[i], d)
  }

  // ---- what the order means

  ghost predicate Precedes(a: seq<string>, b: seq<string>) {
    a == b || exists i :: 0 <= i < |a| && i < |b| && a[..i] == b[..i] && Less(a[i], b[i])
  }

  lemma {:induction false} FirstDifference(a: seq<string>, b: seq<string>, k: nat) returns (i: nat)
    requires |a| == |b| && k <= |a| && a[..k] == b[..k]
    ensures a == b || (i < |a| && a[..i] == b[..i] && a[i] != b[i])
    decreases |a| - k
  {
    if k == |a| {
      assert a == a[..k] && b == b[..k];
      i := k;
    } else if a[k] == b[k] {
      assert a[..k + 1] == a[..k] + [a[k]] && b[..k + 1] == b[..k] + [b[k]];
      i := FirstDifference(a, b, k + 1);
    } else {
      i := k;
    }
  }

  /** The least-first order comes before every other topological order, so it is the only such order. */
  lemma LeastFirstIsLeast(g: Plan, order: seq<string>, t: seq<string>)
    requires Topological(g, order) && LeastFirst(g, order) && Topological(g, t)
    ensures Precedes(order, t)
  {
    DistinctSize(order);
    DistinctSize(t);
    var i := FirstDifference(order, t, 0);
    if order != t {
      assert Available(g, Elements(order[..i]), t[i]);
    }
  }

  lemma LeastFirstUnique(g: Plan, a: seq<string>, b: seq<string>)
    requires Topological(g, a) && LeastFirst(g, a) && Topological(g, b) && LeastFirst(g, b)
    ensures a == b
  {
    LeastFirstIsLeast(g, a, b);
    if a != b {
      var i :| 0 <= i < |a| && i < |b| && a[..i] == b[..i] && Less(a[i], b[i]);
      assert Available(g, Elements(b[..i]), a[i]);
      LessTotal(a[i], b[i]);
      assert false;
    }
  }

  ghost function Position(t: seq<string>): map<string, nat>
    requires Distinct(t)
  {
    map d | d in t :: IndexOf(t, d)
  }

  function IndexOf(t: seq<string>, d: string): (i: nat)
    requires d in t
    ensures i < |t| && t[i] == d
  {
    if t[0] == d then 0 else 1 + IndexOf(t[1..], d)
  }

  /** A topological order ranks the graph, so the graph has no cycle. */
  lemma TopologicalRanks(g: Plan, t: seq<string>)
    requires Topological(g, t)
    ensures Ranked(InputMap(g), Position(t)) && !Cyclic(InputMap(g))
  {
    forall a, b {:trigger b in Needs(InputMap(g), a)} | b in Needs(InputMap(g), a)
      ensures a in Position(t) && b in Position(t) && Position(t)[b] < Position(t)[a]
    {
      assert a in Elements(t);
      var i := IndexOf(t, a);
      assert Available(g, Elements(t[..i]), t[i]);
      assert b in Elements(t[..i]);
      var j :| 0 <= j < i && t[..i][j] == b;
      assert t[IndexOf(t, b)] == t[j];
    }
    RankedAcyclic(InputMap(g), Position(t));
  }

  // ---- a stuck graph has a cycle

  lemma Pigeonhole(p: seq<string>, s: set<string>) returns (i: nat, j: nat)
    requires |p| > |s| && forall k :: 0 <= k < |p| ==> p[k] in s
    ensures i < j < |p| && p[i] == p[j]
  {
    if Distinct(p) {
      DistinctSize(p);
      SubsetSize(Elements(p), s);
      assert false;
    }
    i, j :| 0 <= i < j < |p| && p[i] == p[j];
  }

  lemma StuckCyclic(g: Plan, done: set<string>)
    requires Present(g) && done < g.Keys
    requires forall d :: !Available(g, done, d)
    ensures Cyclic(InputMap(g))
  {
    var rest := g.Keys - done;
    assert g.Keys == done + rest;
    var start :| start in rest;
    var p := [start];
    while |p| <= |rest|
      invariant Walk(InputMap(g), p) && forall k :: 0 <= k < |p| ==> p[k] in rest
      decreases |rest| - |p|
    {
      var last := p[|p| - 1];
      assert !Available(g, done, last);
      var next :| next in g[last].inputs && next !in done;
      assert next in rest;
      p := p + [next];
    }
    var i, j := Pigeonhole(p, rest);
    assert WalkFromTo(InputMap(g), p[i..j + 1], p[i], p[i]);
    assert Reaches(InputMap(g), p[i], p[i]);
  }

  // ---- the method

  ghost predicate Consumes(g: Plan, d: string, n: string) { d in g && n in g[d].inputs }

  ghost predicate AreConsumers(g: Plan, from: set<string>, c: seq<string>, n: string) {
    Distinct(c) && forall d :: d in c <==> d in from && Consumes(g, d, n)
  }

  /** `consumers` inverts the inputs of the derivations in `from`. */
  ghost predicate Inverts(g: Plan, from: set<string>, consumers: map<string, seq<string>>) {
    forall n :: AreConsumers(g, from, ConsumersOf(consumers, n), n)
  }

  ghost predicate InputClosed(g: Plan, done: set<string>) { forall n :: n in done ==> n in g && g[n].inputs <= done }

  function Waiting(g: Plan, done: set<string>, d: string): set<string> { Inputs(g, d) - done }

  /** Half way through the consumers: those in `rest` still count the derivation just visited and are not yet ready. */
  ghost predicate CountsRest(g: Plan, done: set<string>, rest: seq<string>, counts: map<string, int>) {
    counts.Keys == g.Keys && forall d :: d in g ==> counts[d] == |Waiting(g, done, d)| + if d in rest then 1 else 0
  }

  ghost predicate ReadyRest(g: Plan, done: set<string>, rest: seq<string>, ready: seq<string>) {
    Distinct(ready) && forall d :: d in ready <==> Available(g, done, d) && d !in rest
  }

  ghost predicate ArePartly(g: Plan, from: set<string>, drv: string, part: set<string>, c: seq<string>, n: string) {
    Distinct(c) && forall d :: d in c <==> (d in from && Consumes(g, d, n)) || (d == drv && n in part)
  }

  /** The inversion while the inputs `part` of `drv` have been entered. */
  ghost predicate InvertsPartly(g: Plan, from: set<string>, drv: string, part: set<string>,
                                consumers: map<string, seq<string>>) {
    forall n :: ArePartly(g, from, drv, part, ConsumersOf(consumers, n), n)
  }

  lemma EnterConsumer(g: Plan, from: set<string>, drv: string, part: set<string>, consumers: map<string, seq<string>>,
                      dep: string)
    requires InvertsPartly(g, from, drv, part, consumers) && drv !in from && dep !in part
    ensures InvertsPartly(g, from, drv, part + {dep}, consumers[dep := ConsumersOf(consumers, dep) + [drv]])
  {
    var c := ConsumersOf(consumers, dep);
    assert ArePartly(g, from, drv, part, c, dep);
    var r := consumers[dep := c + [drv]];
    forall n
      ensures ArePartly(g, from, drv, part + {dep}, ConsumersOf(r, n), n)
    {
      assert ArePartly(g, from, drv, part, ConsumersOf(consumers, n), n);
      if n != dep { assert ConsumersOf(r, n) == ConsumersOf(consumers, n); }
    }
  }

  lemma PartlyIsWhole(g: Plan, from: set<string>, drv: string, consumers: map<string, seq<string>>)
    requires drv in g && drv !in from
    ensures InvertsPartly(g, from, drv, {}, consumers) <==> Inverts(g, from, consumers)
    ensures InvertsPartly(g, from, drv, g[drv].inputs, consumers) <==> Inverts(g, from + {drv}, consumers)
  {
    forall n
      ensures ArePartly(g, from, drv, {}, ConsumersOf(consumers, n), n)
              <==> AreConsumers(g, from, ConsumersOf(consumers, n), n)
      ensures ArePartly(g, from, drv, g[drv].inputs, ConsumersOf(consumers, n), n) <==>
              AreConsumers(g, from + {drv}, ConsumersOf(consumers, n), n)
    {
    }
  }

  /** The inner loop over one derivation's inputs. */
  method AddConsumer(g: Plan, drv: string, ghost from: set<string>, consumers: map<string, seq<string>>)
    returns (present: bool, r: map<string, seq<string>>)
    requires drv in g && drv !in from && Inverts(g, from, consumers)
    ensures present <==> g[drv].inputs <= g.Keys
    ensures present ==> Inverts(g, from + {drv}, r)
  {
    r := consumers;
    PartlyIsWhole(g, from, drv, r);
    var todo := g[drv].inputs;
    assert g[drv].inputs - todo == {};
    while todo != {}
      invariant todo <= g[drv].inputs && g[drv].inputs - todo <= g.Keys
      invariant InvertsPartly(g, from, drv, g[drv].inputs - todo, r)
    {
      var dep :| dep in todo;
      if dep !in g { return false, r; }
      EnterConsumer(g, from, drv, g[drv].inputs - todo, r, dep);
      assert g[drv].inputs - (todo - {dep}) == g[drv].inputs - todo + {dep};
      r := r[dep := ConsumersOf(r, dep) + [drv]];
      todo := todo - {dep};
    }
    present := true;
    assert g[drv].inputs - todo == g[drv].inputs;
    PartlyIsWhole(g, from, drv, r);
  }

  ghost predicate Counted(g: Plan, seen: set<string>, counts: map<string, int>, ready: seq<string>) {
    && counts.Keys == seen && (forall d :: d in seen ==> d in g && counts[d] == |g[d].inputs|)
    && Distinct(ready) && forall d :: d in ready <==> d in seen && d in g && g[d].inputs == {}
  }

  lemma CountNext(g: Plan, seen: set<string>, counts: map<string, int>, ready: seq<string>, drv: string)
    requires Counted(g, seen, counts, ready) && drv in g && drv !in seen
    ensures var r := if |g[drv].inputs| == 0 then ready + [drv] else ready;
      Counted(g, seen + {drv}, counts[drv := |g[drv].inputs|], r)
  {
    assert drv !in ready;
  }

  lemma AllCounted(g: Plan, counts: map<string, int>, ready: seq<string>)
    requires Counted(g, g.Keys, counts, ready)
    ensures CountsRest(g, {}, [], counts) && ReadyRest(g, {}, [], ready)
  {
    forall d | d in g
      ensures counts[d] == |Waiting(g, {}, d)|
    {
      assert Waiting(g, {}, d) == g[d].inputs;
    }
    forall d
      ensures d in ready <==> Available(g, {}, d)
    {
      if d in g && g[d].inputs <= {} { assert g[d].inputs == {}; }
    }
  }

  /** The first loop: count inputs, invert them, and collect the derivations without any. */
  method CountInputs(g: Plan)
    returns (present: bool, counts: map<string, int>, consumers: map<string, seq<string>>, ready: seq<string>)
    ensures present <==> Present(g)
    ensures present ==> CountsRest(g, {}, [], counts) && ReadyRest(g, {}, [], ready) && Inverts(g, g.Keys, consumers)
  {
    counts, consumers, ready := map[], map[], [];
    var todo := g.Keys;
    ghost var seen: set<string> := {};
    while todo != {}
      invariant todo !! seen && todo + seen == g.Keys
      invariant Counted(g, seen, counts, ready)
      invariant Inverts(g, seen, consumers)
      invariant forall d :: d in seen ==> g[d].inputs <= g.Keys
      decreases todo
    {
      var drv :| drv in todo;
      CountNext(g, seen, counts, ready, drv);
      counts := counts[drv := |g[drv].inputs|];
      if |g[drv].inputs| == 0 {
        ready := ready + [drv];
      }
      var ok;
      ok, consumers := AddConsumer(g, drv, seen, consumers);
      if !ok { return false, counts, consumers, ready; }
      todo, seen := todo - {drv}, seen + {drv};
    }
    assert seen == g.Keys;
    AllCounted(g, counts, ready);
    present := true;
  }

  lemma HeadApart(x: string, s: seq<string>)
    requires Distinct([x] + s)
    ensures Distinct(s) && x !in s
  {
    assert forall i :: 0 <= i < |s| ==> ([x] + s)[i + 1] == s[i];
    assert ([x] + s)[0] == x;
  }

  lemma NoneLeft(a: set<string>, b: set<string>)
    ensures |a - b| == 0 <==> a <= b
  {
    if |a - b| == 0 {
      forall x | x in a
        ensures x in b
      {
        assert x !in a - b;
      }
    } else {
      assert a - b != {};
    }
  }

  ghost predicate Unvisited(g: Plan, done: set<string>, rest: seq<string>) {
    Distinct(rest) && forall c :: c in rest ==> c in g && c !in done
  }

  lemma HeadFirst(rest: seq<string>)
    requires rest != [] && Distinct(rest)
    ensures forall d :: d in rest <==> d == rest[0] || d in rest[1..]
    ensures Distinct(rest[1..]) && rest[0] !in rest[1..]
  {
    assert rest == [rest[0]] + rest[1..];
    HeadApart(rest[0], rest[1..]);
  }

  lemma ReleaseCount(g: Plan, done: set<string>, rest: seq<string>, counts: map<string, int>)
    requires CountsRest(g, done, rest, counts) && rest != [] && Unvisited(g, done, rest)
    ensures rest[0] in counts && counts[rest[0]] == |Waiting(g, done, rest[0])| + 1
    ensures CountsRest(g, done, rest[1..], counts[rest[0] := counts[rest[0]] - 1])
  {
    HeadFirst(rest);
    hide Distinct, Inputs;
    assert rest[0] in rest;
  }

  lemma ReleaseReady(g: Plan, done: set<string>, rest: seq<string>, ready: seq<string>)
    requires ReadyRest(g, done, rest, ready) && rest != [] && Unvisited(g, done, rest)
    ensures ReadyRest(g, done, rest[1..], if Available(g, done, rest[0]) then ready + [rest[0]] else ready)
  {
    HeadFirst(rest);
    AppendElement(ready, rest[0]);
    hide Distinct, Available;
    assert rest[0] in rest;
    assert forall d :: d in ready + [rest[0]] <==> d in ready || d == rest[0];
  }

  lemma ReleaseOne(g: Plan, done: set<string>, rest: seq<string>, counts: map<string, int>, ready: seq<string>)
    requires CountsRest(g, done, rest, counts) && ReadyRest(g, done, rest, ready) && rest != []
    requires Unvisited(g, done, rest)
    ensures Unvisited(g, done, rest[1..]) && rest[0] in counts
    ensures CountsRest(g, done, rest[1..], counts[rest[0] := counts[rest[0]] - 1])
    ensures ReadyRest(g, done, rest[1..], if counts[rest[0]] == 1 then ready + [rest[0]] else ready)
  {
    ReleaseCount(g, done, rest, counts);
    ReleaseReady(g, done, rest, ready);
    HeadFirst(rest);
    hide CountsRest, ReadyRest, Distinct;
    assert rest[0] in rest;
    NoneLeft(g[rest[0]].inputs, done);
  }

  lemma ConsumersWait(g: Plan, done: set<string>, drv: string, consumers: seq<string>)
    requires InputClosed(g, done) && Available(g, done, drv) && AreConsumers(g, g.Keys, consumers, drv)
    ensures Unvisited(g, done + {drv}, consumers)
  {
  }

  lemma CountsSplit(g: Plan, done: set<string>, drv: string, consumers: seq<string>, counts: map<string, int>)
    requires CountsRest(g, done, [], counts) && drv !in done && AreConsumers(g, g.Keys, consumers, drv)
    ensures CountsRest(g, done + {drv}, consumers, counts)
  {
    forall d | d in g
      ensures counts[d] == |Waiting(g, done + {drv}, d)| + if d in consumers then 1 else 0
    {
      WaitingLess(g, done, drv, d);
      hide Waiting, Consumes, Distinct;
    }
  }

  lemma WaitingLess(g: Plan, done: set<string>, drv: string, d: string)
    requires drv !in done && d in g
    ensures |Waiting(g, done, d)| == |Waiting(g, done + {drv}, d)| + if Consumes(g, d, drv) then 1 else 0
  {
    if Consumes(g, d, drv) {
      assert Waiting(g, done, d) == Waiting(g, done + {drv}, d) + {drv};
    } else {
      assert Waiting(g, done, d) == Waiting(g, done + {drv}, d);
    }
  }

  lemma ReadySplit(g: Plan, done: set<string>, drv: string, consumers: seq<string>, ready: seq<string>)
    requires ReadyRest(g, done, [], [drv] + ready) && AreConsumers(g, g.Keys, consumers, drv)
    ensures ReadyRest(g, done + {drv}, consumers, ready)
  {
    HeadApart(drv, ready);
    var all := [drv] + ready;
    assert drv in all;
    forall d
      ensures d in ready <==> Available(g, done + {drv}, d) && d !in consumers
    {
      assert d in all <==> d == drv || d in ready;
      if d in ready {
        assert Available(g, done, d) && Available(g, done, drv);
        assert !Consumes(g, d, drv);
      }
      if Available(g, done + {drv}, d) && d !in consumers {
        assert !Consumes(g, d, drv);
        assert Available(g, done, d);
      }
    }
  }

  lemma StartRelease(g: Plan, done: set<string>, drv: string, consumers: seq<string>, counts: map<string, int>,
                     ready: seq<string>)
    requires InputClosed(g, done) && CountsRest(g, done, [], counts) && ReadyRest(g, done, [], [drv] + ready)
    requires Available(g, done, drv) && AreConsumers(g, g.Keys, consumers, drv)
    ensures Unvisited(g, done + {drv}, consumers)
    ensures CountsRest(g, done + {drv}, consumers, counts)
    ensures ReadyRest(g, done + {drv}, consumers, ready)
  {
    ConsumersWait(g, done, drv, consumers);
    CountsSplit(g, done, drv, consumers, counts);
    ReadySplit(g, done, drv, consumers, ready);
  }

  /** After a visit, its consumers wait for one input less, and those that wait for none become ready. */
  method Release(g: Plan, ghost done: set<string>, consumers: seq<string>, counts: map<string, int>, ready: seq<string>)
    returns (counts': map<string, int>, ready': seq<string>)
    requires Unvisited(g, done, consumers) && CountsRest(g, done, consumers, counts)
             && ReadyRest(g, done, consumers, ready)
    ensures CountsRest(g, done, [], counts') && ReadyRest(g, done, [], ready')
  {
    hide Unvisited, CountsRest, ReadyRest;
    counts', ready' := counts, ready;
    var rest := consumers;
    while rest != []
      invariant Unvisited(g, done, rest)
      invariant CountsRest(g, done, rest, counts')
      invariant ReadyRest(g, done, rest, ready')
      decreases |rest|
    {
      hide Unvisited, CountsRest, ReadyRest;
      var c := rest[0];
      ReleaseOne(g, done, rest, counts', ready');
      counts' := counts'[c := counts'[c] - 1];
      if counts'[c] == 0 {
        ready' := ready' + [c];
      }
      rest := rest[1..];
    }
  }

  lemma LeastReady(g: Plan, order: seq<string>, ready: seq<string>)
    requires LeastFirst(g, order) && ReadyRest(g, Elements(order), [], ready) && ready != [] && Ascending(ready)
    ensures Available(g, Elements(order), ready[0]) && LeastFirst(g, order + [ready[0]])
  {
    var t := order + [ready[0]];
    assert ready[0] in ready;
    assert t[..|order|] == order;
    forall d | Available(g, Elements(order), d)
      ensures AtMost(ready[0], d)
    {
      assert d in ready;
      var i :| 0 <= i < |ready| && ready[i] == d;
    }
    forall i | 0 <= i < |order|
      ensures t[..i] == order[..i]
    {
    }
  }

  lemma SortedReady(g: Plan, done: set<string>, ready: seq<string>)
    requires ReadyRest(g, done, [], ready)
    ensures ReadyRest(g, done, [], Sort(ready)) && Ascending(Sort(ready)) && |Sort(ready)| == |ready|
  {
    SortKeeps(ready);
    forall d
      ensures d in ready <==> d in Sort(ready)
    {
      assert d in ready <==> d in Elements(ready);
      assert d in Sort(ready) <==> d in Elements(Sort(ready));
    }
  }

  lemma VisitKeeps(g: Plan, order: seq<string>, drv: string)
    requires InputClosed(g, Elements(order)) && Distinct(order) && Available(g, Elements(order), drv)
    ensures Elements(order + [drv]) == Elements(order) + {drv}
    ensures InputClosed(g, Elements(order) + {drv}) && Distinct(order + [drv])
  {
    AppendElement(order, drv);
  }

  lemma NoneAvailable(g: Plan, done: set<string>)
    requires ReadyRest(g, done, [], [])
    ensures forall d :: !Available(g, done, d)
  {
    forall d
      ensures !Available(g, done, d)
    {
      assert d !in [];
    }
  }

  /** What the second loop keeps, once `order` has been visited. */
  ghost predicate Kahn(g: Plan, order: seq<string>, counts: map<string, int>, ready: seq<string>) {
    && Distinct(order) && InputClosed(g, Elements(order)) && LeastFirst(g, order)
    && CountsRest(g, Elements(order), [], counts) && ReadyRest(g, Elements(order), [], ready)
  }

  /** The body of the second loop. */
  method VisitNext(g: Plan, ghost order: seq<string>, counts: map<string, int>, consumers: map<string, seq<string>>,
                   ready: seq<string>)
    returns (drv: string, counts': map<string, int>, ready': seq<string>)
    requires Kahn(g, order, counts, ready) && ready != [] && Inverts(g, g.Keys, consumers)
    ensures Kahn(g, order + [drv], counts', ready')
    ensures drv in g && drv !in Elements(order) && Elements(order + [drv]) == Elements(order) + {drv}
  {
    SortedReady(g, Elements(order), ready);
    var sorted := Sort(ready);
    drv := sorted[0];
    LeastReady(g, order, sorted);
    VisitKeeps(g, order, drv);
    assert sorted == [drv] + sorted[1..];
    assert AreConsumers(g, g.Keys, ConsumersOf(consumers, drv), drv);
    StartRelease(g, Elements(order), drv, ConsumersOf(consumers, drv), counts, sorted[1..]);
    counts', ready' := Release(g, Elements(order) + {drv}, ConsumersOf(consumers, drv), counts, sorted[1..]);
  }

  lemma KahnStart(g: Plan, counts: map<string, int>, ready: seq<string>)
    requires CountsRest(g, {}, [], counts) && ReadyRest(g, {}, [], ready)
    ensures Kahn(g, [], counts, ready)
  {
    assert Elements<string>([]) == {};
  }

  lemma KahnStuck(g: Plan, order: seq<string>, counts: map<string, int>)
    requires Kahn(g, order, counts, [])
    ensures forall d :: !Available(g, Elements(order), d)
    ensures Elements(order) <= g.Keys && LeastFirst(g, order) && Distinct(order)
  {
    NoneAvailable(g, Elements(order));
  }

  /** Derivations visited once each, the least available one each time, until none is available. */
  ghost predicate VisitOrder(g: Plan, order: seq<string>) {
    LeastFirst(g, order) && Distinct(order) && Elements(order) <= g.Keys
    && forall d :: !Available(g, Elements(order), d)
  }

  /** The second loop: repeatedly visit the least ready derivation. */
  method VisitAll(g: Plan, selected: map<string, string>, counts0: map<string, int>,
                  consumers: map<string, seq<string>>, ready0: seq<string>)
    returns (ordered: seq<string>, visited: nat)
    requires CountsRest(g, {}, [], counts0) && ReadyRest(g, {}, [], ready0) && Inverts(g, g.Keys, consumers)
    ensures exists order, at ::
              VisitOrder(g, order) && visited == |order| && ordered == Pick(order, selected)
              && Picks(order, selected, at, ordered)
  {
    ghost var order;
    hide Kahn, LeastFirst, Inverts, CountsRest, ReadyRest;
    var counts, ready := counts0, ready0;
    ordered, visited, order := [], 0, [];
    KahnStart(g, counts, ready);
    while ready != []
      invariant Kahn(g, order, counts, ready)
      invariant visited == |order| && ordered == Pick(order, selected)
      decreases g.Keys - Elements(order)
    {
      var drv;
      drv, counts, ready := VisitNext(g, order, counts, consumers, ready);
      visited := visited + 1;
      if drv in selected { ordered := ordered + [selected[drv]]; }
      assert (order + [drv])[..|order|] == order;
      order := order + [drv];
    }
    KahnStuck(g, order, counts);
    assert VisitOrder(g, order);
    ghost var at := PickedAt(order, selected);
    assert Picks(order, selected, at, ordered);
  }

  // ---- the batches by positions

  ghost predicate Increasing(at: seq<nat>) { forall k, l :: 0 <= k < l < |at| ==> at[k] < at[l] }

  /** `ordered` has what is selected for the places `at` of the order, and these are all that have anything. */
  ghost predicate Picks(order: seq<string>, selected: map<string, string>, at: seq<nat>, ordered: seq<string>) {
    && |at| == |ordered| && Increasing(at)
    && (forall k :: 0 <= k < |at| ==>
          at[k] < |order| && order[at[k]] in selected && ordered[k] == selected[order[at[k]]])
    && (forall i :: 0 <= i < |order| && order[i] in selected ==> i in at)
  }

  lemma {:induction false} PickedAt(order: seq<string>, selected: map<string, string>) returns (at: seq<nat>)
    ensures Picks(order, selected, at, Pick(order, selected))
  {
    at := [];
    if order != [] {
      var n := |order| - 1;
      var before := PickedAt(order[..n], selected);
      at := if order[n] in selected then before + [n] else before;
      PicksMore(order, selected, before, Pick(order[..n], selected));
    }
  }

  lemma PicksMore(order: seq<string>, selected: map<string, string>, at: seq<nat>, ordered: seq<string>)
    requires order != [] && Picks(order[..|order| - 1], selected, at, ordered)
    ensures
      var n := |order| - 1;
      if order[n] in selected then Picks(order, selected, at + [n], ordered + [selected[order[n]]])
      else Picks(order, selected, at, ordered)
  {
    var n := |order| - 1;
    forall i | 0 <= i < |order| && order[i] in selected
      ensures i in at || i == n
    {
      if i < n { assert order[..n][i] in selected; }
    }
  }

  /** The part of the spec before its first `^` is the derivation. */
  ghost predicate Denotes(spec: string, drv: string) {
    |drv| <= |spec| && spec[..|drv|] == drv && '^' !in drv && (|drv| < |spec| ==> spec[|drv|] == '^')
  }

  lemma {:induction false} DenotesDrvOf(spec: string, drv: string)
    ensures Denotes(spec, drv) <==> drv == DrvOf(spec)
  {
    if spec != "" && spec[0] != '^' {
      if drv != "" {
        DenotesDrvOf(spec[1..], drv[1..]);
        assert drv == [drv[0]] + drv[1..];
        DenotesNext(spec, drv);
      }
    }
  }

  lemma DenotesNext(spec: string, drv: string)
    requires spec != "" && spec[0] != '^' && drv != ""
    ensures Denotes(spec, drv) <==> spec[0] == drv[0] && Denotes(spec[1..], drv[1..])
  {
    assert drv == [drv[0]] + drv[1..] && spec == [spec[0]] + spec[1..];
    if spec[0] == drv[0] && Denotes(spec[1..], drv[1..]) {
      assert spec[..|drv|] == [spec[0]] + spec[1..][..|drv| - 1];
    }
    if Denotes(spec, drv) {
      assert spec[0] == spec[..|drv|][0];
      assert spec[1..][..|drv| - 1] == spec[..|drv|][1..];
    }
  }

  ghost predicate Asked(missing: seq<string>, drv: string) {
    exists i :: 0 <= i < |missing| && Denotes(missing[i], drv)
  }

  /** The last spec that names the derivation. */
  ghost predicate LastSpec(missing: seq<string>, drv: string, spec: string) {
    exists i ::
      0 <= i < |missing| && missing[i] == spec && Denotes(spec, drv)
      && forall j :: i < j < |missing| ==> !Denotes(missing[j], drv)
  }

  lemma {:induction false} SelectedLast(missing: seq<string>, drv: string)
    ensures drv in Selected(missing) <==> Asked(missing, drv)
    ensures drv in Selected(missing) ==> LastSpec(missing, drv, Selected(missing)[drv])
  {
    if missing != [] {
      var n := |missing| - 1;
      var prior := missing[..n];
      SelectedLast(prior, drv);
      DenotesDrvOf(missing[n], drv);
      hide Denotes;
      if drv == DrvOf(missing[n]) {
        assert Denotes(missing[n], drv) && Selected(missing)[drv] == missing[n];
      } else {
        if Asked(prior, drv) {
          var i :| 0 <= i < n && prior[i] == Selected(prior)[drv] && Denotes(prior[i], drv)
                   && forall j :: i < j < n ==> !Denotes(prior[j], drv);
          assert missing[i] == prior[i] && forall j :: i < j < n ==> missing[j] == prior[j];
        }
        if Asked(missing, drv) {
          var i :| 0 <= i < |missing| && Denotes(missing[i], drv);
          assert prior[i] == missing[i];
        }
      }
    }
  }

  /** The batches hold, one after the other and `limit` to a batch, the last spec given for each asked derivation of the
      order, at the places `at`. */
  ghost predicate Lists(order: seq<string>, missing: seq<string>, at: seq<nat>, limit: nat, batches: seq<seq<string>>) {
    && Increasing(at) && (forall k :: 0 <= k < |at| ==> at[k] < |order|)
    && (forall i :: 0 <= i < |order| ==> (i in at <==> Asked(missing, order[i])))
    && |at| == (if batches == [] then 0 else limit * (|batches| - 1) + |batches[|batches| - 1]|)
    && (forall b, j :: 0 <= b < |batches| && 0 <= j < |batches[b]| ==>
          PlaceOf(limit, b, j) < |at| && LastSpec(missing, order[at[PlaceOf(limit, b, j)]], batches[b][j]))
  }

  lemma PicksLists(order: seq<string>, missing: seq<string>, at: seq<nat>, ordered: seq<string>, limit: nat,
                   batches: seq<seq<string>>)
    requires Picks(order, Selected(missing), at, ordered) && InPlace(batches, limit, ordered)
    ensures Lists(order, missing, at, limit, batches)
  {
    hide Selected, Asked, LastSpec;
    forall i | 0 <= i < |order|
      ensures i in at <==> Asked(missing, order[i])
    {
      SelectedLast(missing, order[i]);
    }
    forall b, j | 0 <= b < |batches| && 0 <= j < |batches[b]|
      ensures PlaceOf(limit, b, j) < |at| && LastSpec(missing, order[at[PlaceOf(limit, b, j)]], batches[b][j])
    {
      assert batches[b][j] == ordered[PlaceOf(limit, b, j)];
      SelectedLast(missing, order[at[PlaceOf(limit, b, j)]]);
    }
  }

  /** What a derivation needs, directly or not, is never listed after it. */
  lemma NeedsListedFirst(g: Plan, order: seq<string>, at: seq<nat>, k: nat, l: nat)
    requires Topological(g, order) && Increasing(at) && forall k :: 0 <= k < |at| ==> at[k] < |order|
    requires k < |at| && l < |at| && Reaches(InputMap(g), order[at[k]], order[at[l]])
    ensures l < k
  {
    TopologicalRanks(g, order);
    var rank := Position(order);
    var p :| WalkFromTo(InputMap(g), p, order[at[k]], order[at[l]]);
    WalkDescends(InputMap(g), rank, p);
    assert order[IndexOf(order, order[at[k]])] == order[at[k]] && order[IndexOf(order, order[at[l]])] == order[at[l]];
    assert IndexOf(order, order[at[k]]) == at[k] && IndexOf(order, order[at[l]]) == at[l];
  }

  function Flatten(batches: seq<seq<string>>): seq<string> {
    if batches == [] then [] else Flatten(batches[..|batches| - 1]) + batches[|batches| - 1]
  }

  ghost predicate Full(batches: seq<seq<string>>, limit: nat) {
    && (forall i :: 0 <= i < |batches| - 1 ==> |batches[i]| == limit)
    && (batches != [] ==> 1 <= |batches[|batches| - 1]| <= limit)
  }

  /** The place of element `j` of batch `b`. */
  function PlaceOf(limit: nat, b: nat, j: nat): nat { limit * b + j }

  /** Every batch but the last has `limit` elements, so each element of a batch has its place in the whole. */
  ghost predicate InPlace(batches: seq<seq<string>>, limit: nat, ordered: seq<string>) {
    && |ordered| == (if batches == [] then 0 else limit * (|batches| - 1) + |batches[|batches| - 1]|)
    && (forall b, j :: 0 <= b < |batches| && 0 <= j < |batches[b]| ==>
          PlaceOf(limit, b, j) < |ordered| && batches[b][j] == ordered[PlaceOf(limit, b, j)])
  }

  lemma {:induction false} FlattenInPlace(batches: seq<seq<string>>, limit: nat)
    requires Full(batches, limit)
    ensures InPlace(batches, limit, Flatten(batches))
  {
    if |batches| > 0 {
      var n := |batches| - 1;
      var prior := batches[..n];
      assert n > 0 ==> prior[n - 1] == batches[n - 1];
      FlattenInPlace(prior, limit);
      assert batches == prior + [batches[n]];
      hide Flatten, InPlace;
      OneMoreInPlace(prior, limit, Flatten(prior), batches[n]);
    }
  }

  lemma OneMoreInPlace(prior: seq<seq<string>>, limit: nat, whole: seq<string>, last: seq<string>)
    requires InPlace(prior, limit, whole) && forall b :: 0 <= b < |prior| ==> |prior[b]| == limit
    ensures InPlace(prior + [last], limit, whole + last)
  {
    WholeSize(prior, limit, whole);
    MoreInPlace(prior, limit, whole, last, limit * |prior|);
  }

  lemma WholeSize(prior: seq<seq<string>>, limit: nat, whole: seq<string>)
    requires InPlace(prior, limit, whole) && forall b :: 0 <= b < |prior| ==> |prior[b]| == limit
    ensures |whole| == limit * |prior|
  {
    var n := |prior|;
    var size := |whole|;
    assert n > 0 ==> size == limit * (n - 1) + |prior[n - 1]| && |prior[n - 1]| == limit;
    hide InPlace;
    if n > 0 { Product(limit, n - 1, n); }
  }

  lemma MoreInPlace(prior: seq<seq<string>>, limit: nat, whole: seq<string>, last: seq<string>, size: nat)
    requires InPlace(prior, limit, whole) && size == limit * |prior| && |whole| == size
    ensures InPlace(prior + [last], limit, whole + last)
  {
    var batches := prior + [last];
    forall b, j | 0 <= b < |batches| && 0 <= j < |batches[b]|
      ensures PlaceOf(limit, b, j) < |whole + last| && batches[b][j] == (whole + last)[PlaceOf(limit, b, j)]
    {
      if b < |prior| {
        assert prior[b][j] == whole[PlaceOf(limit, b, j)];
      } else {
        assert PlaceOf(limit, b, j) == size + j;
      }
    }
  }

  lemma Product(limit: nat, a: nat, b: nat)
    requires b == a + 1
    ensures limit * a + limit == limit * b
  {
  }

  lemma MoreBatches(batches: seq<seq<string>>, rest: seq<string>, n: nat)
    requires n <= |rest|
    ensures Flatten(batches + [rest[..n]]) + rest[n..] == Flatten(batches) + rest
  {
    assert (batches + [rest[..n]])[..|batches|] == batches;
    assert rest == rest[..n] + rest[n..];
  }

  method Cut(ordered: seq<string>, limit: nat) returns (batches: seq<seq<string>>)
    requires limit >= 1
    ensures Flatten(batches) == ordered && Full(batches, limit) && InPlace(batches, limit, ordered)
  {
    var rest := ordered;
    batches := [];
    while rest != []
      invariant Flatten(batches) + rest == ordered && Full(batches, limit)
      invariant batches != [] && rest != [] ==> |batches[|batches| - 1]| == limit
    {
      hide Flatten;
      var n := if limit < |rest| then limit else |rest|;
      MoreBatches(batches, rest, n);
      batches := batches + [rest[..n]];
      rest := rest[n..];
    }
    FlattenInPlace(batches, limit);
  }

  /** Counting the visited derivations decides whether the graph has a cycle. */
  lemma VisitsDecide(g: Plan, order: seq<string>)
    requires VisitOrder(g, order) && Present(g)
    ensures |order| != |g| ==> Cyclic(InputMap(g))
    ensures |order| == |g| ==> !Cyclic(InputMap(g)) && Topological(g, order) && LeastFirst(g, order)
  {
    DistinctSize(order);
    if |order| != |g| {
      assert Elements(order) != g.Keys;
      StuckCyclic(g, Elements(order));
    } else {
      SubsetSize(Elements(order), g.Keys);
      assert Topological(g, order);
      TopologicalRanks(g, order);
    }
  }

  /** `Batches`: a cycle is reported exactly when there is one, and otherwise the batches cut the least build order. */
  method Batches(g: Plan, missing: seq<string>, limit: int) returns (r: Result<seq<seq<string>>>)
    ensures limit < 1 <==> r == Err(InvalidBatchSize)
    ensures limit >= 1 ==> (!Present(g) <==> r == Err(MissingDependency))
    ensures limit >= 1 && Present(g) ==> (Cyclic(InputMap(g)) <==> r == Err(CyclicGraph))
    ensures r.Ok? ==> limit >= 1 && Full(r.value, limit) && exists order, at ::
      Topological(g, order) && LeastFirst(g, order) && Flatten(r.value) == Pick(order, Selected(missing))
      && Lists(order, missing, at, limit, r.value)
  {
    if limit < 1 { return Err(InvalidBatchSize); }
    var selected := Selected(missing);
    var present, counts, consumers, ready := CountInputs(g);
    if !present { return Err(MissingDependency); }
    var ordered, visited := VisitAll(g, selected, counts, consumers, ready);
    ghost var order, at :| VisitOrder(g, order) && visited == |order| && ordered == Pick(order, selected)
                           && Picks(order, selected, at, ordered);
    VisitsDecide(g, order);
    hide VisitOrder, LeastFirst, Topological, Cyclic, Full, Flatten, Pick, Present, CountsRest, ReadyRest, Inverts,
      Picks, Lists, InPlace;
    if visited != |g| { return Err(CyclicGraph); }
    var batches := Cut(ordered, limit);
    PicksLists(order, missing, at, ordered, limit, batches);
    r := Ok(batches);
  }
}

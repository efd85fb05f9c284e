/** `BuildPool.schedule` as it is written: mutable tables, loops and an event at a time (worker/scheduler.go:81-295).
    Every method is proved to make one labelled step of module Schedule. */
module Scheduler {
  import opened Names
  import opened Graph
  import opened Scheduling
  import opened Messages
  import opened Schedule
  import opened ScheduleSafety
  import opened ScheduleRuns
  import Planner

  // ---- propagation

  ghost predicate Partly(deps: map<string, set<string>>, s: map<string, Status>, t: map<string, Status>) {
    t.Keys == s.Keys
    && forall d :: d in s ==> t[d] == s[d] || (s[d] == Unassigned && t[d] == Failed && Doomed(deps, s, d))
  }

  lemma DoomSpreads(deps: map<string, set<string>>, s: map<string, Status>, t: map<string, Status>, d: string,
                    e: string)
    requires Partly(deps, s, t) && d in t && t[d] == Unassigned && e in Needs(deps, d) && e in t && t[e] == Failed
    ensures Partly(deps, s, t[d := Failed])
  {
    assert s[d] == Unassigned;
    if s[e] == Failed {
      assert DoomedBy(deps, s, [d, e], d);
    } else {
      var p :| DoomedBy(deps, s, p, e);
      assert DoomedBy(deps, s, [d] + p, d);
    }
    assert Doomed(deps, s, d);
  }

  lemma {:induction false} DoomReached(deps: map<string, set<string>>, s: map<string, Status>, t: map<string, Status>,
                                       p: seq<string>, d: string)
    requires Partly(deps, s, t) && Spread(deps, t) && DoomedBy(deps, s, p, d)
    ensures t[d] == Failed
    decreases |p|
  {
    var e := p[1];
    assert p[1] in Needs(deps, p[0]);
    if |p| > 2 {
      assert Walk(deps, p[1..]);
      assert DoomedBy(deps, s, p[1..], e);
      DoomReached(deps, s, t, p[1..], e);
    }
    assert e in t && t[e] == Failed;
  }

  lemma PartlyDone(deps: map<string, set<string>>, s: map<string, Status>, t: map<string, Status>)
    requires Partly(deps, s, t) && Spread(deps, t)
    ensures Propagated(deps, s, t)
  {
    forall d | d in s
      ensures t[d] == if s[d] == Unassigned && Doomed(deps, s, d) then Failed else s[d]
    {
      if Doomed(deps, s, d) {
        var p :| DoomedBy(deps, s, p, d);
        DoomReached(deps, s, t, p, d);
      }
    }
  }

  function WaitingIn(s: map<string, Status>): set<string> { set d | d in s && s[d] == Unassigned }

  /** Lines 119-134. */
  method PropagateFailures(deps: map<string, set<string>>, s: map<string, Status>) returns (t: map<string, Status>)
    ensures Propagated(deps, s, t)
  {
    t := s;
    var changed := true;
    while changed
      invariant Partly(deps, s, t)
      invariant !changed ==> Spread(deps, t)
      decreases WaitingIn(t), changed
    {
      ghost var before := t;
      changed := false;
      var todo := t.Keys;
      while todo != {}
        invariant todo <= t.Keys && Partly(deps, s, t)
        invariant !changed ==>
                    t == before
                    && forall d, e ::
                         d in t && d !in todo && t[d] == Unassigned && e in Needs(deps, d) && e in t ==> t[e] != Failed
        invariant changed ==> WaitingIn(t) < WaitingIn(before)
        decreases todo
      {
        var drv :| drv in todo;
        todo := todo - {drv};
        if t[drv] == Unassigned {
          var hit := AnyFailed(Needs(deps, drv), t);
          if hit.Some? {
            DoomSpreads(deps, s, t, drv, hit.value);
            assert drv in WaitingIn(t);
            ghost var prior := WaitingIn(t);
            t := t[drv := Failed];
            assert WaitingIn(t) == prior - {drv};
            changed := true;
          }
        }
      }
    }
    PartlyDone(deps, s, t);
  }

  method AnyFailed(needs: set<string>, t: map<string, Status>) returns (hit: Option<string>)
    ensures hit.Some? ==> hit.value in needs && hit.value in t && t[hit.value] == Failed
    ensures hit.None? ==> forall e :: e in needs && e in t ==> t[e] != Failed
  {
    var todo := needs;
    while todo != {}
      invariant todo <= needs && forall e :: e in needs && e !in todo && e in t ==> t[e] != Failed
    {
      var dep :| dep in todo;
      if dep in t && t[dep] == Failed { return Some(dep); }
      todo := todo - {dep};
    }
    hit := None;
  }

  // ---- selection

  /** The candidate kept so far is the choice among the first `n`, as far as lines 199-220 remember it. */
  ghost predicate Leading(job: Job, w: World, r: nat, features: seq<string>, looks: seq<Look>, n: nat, selected: string,
                          warmest: int, local: bool)
    requires Shape(w) && ValidLooks(looks, |job.order|) && r < RUNNERS && n <= |job.order|
  {
    if selected == "" then
      forall i :: 0 <= i < n ==> !Eligible(job, w, r, features, job.order[i])
    else
      exists k :: 0 <= k < n && ChosenAt(job, w, r, features, looks, job.order[..n], k) && job.order[k] == selected
        && warmest == Warmth(job, w, r, selected) && local == LocalOnly(job, w, r, looks[k], selected)
  }

  lemma LeadingSkips(job: Job, w: World, r: nat, features: seq<string>, looks: seq<Look>, n: nat, selected: string,
                     warmest: int, local: bool)
    requires Shape(w) && ValidLooks(looks, |job.order|) && r < RUNNERS && n < |job.order| && "" !in job.order
    requires Leading(job, w, r, features, looks, n, selected, warmest, local)
    requires !Eligible(job, w, r, features, job.order[n])
    ensures Leading(job, w, r, features, looks, n + 1, selected, warmest, local)
  {
    if selected != "" {
      var k :| 0 <= k < n && ChosenAt(job, w, r, features, looks, job.order[..n], k) && job.order[k] == selected;
      assert ChosenAt(job, w, r, features, looks, job.order[..n + 1], k);
    }
  }

  predicate Replaces(job: Job, w: World, r: nat, look: Look, drv: string, selected: string, warmest: int, local: bool)
    requires Shape(w) && |look| == RUNNERS && r < RUNNERS
  {
    var l := LocalOnly(job, w, r, look, drv);
    selected == "" || (l && !local)
    || (l == local && PriorityOf(job.priority, drv) == PriorityOf(job.priority, selected)
        && Warmth(job, w, r, drv) > warmest)
  }

  lemma LeadingMeets(job: Job, w: World, r: nat, features: seq<string>, looks: seq<Look>, n: nat, selected: string,
                     warmest: int, local: bool)
    requires Shape(w) && ValidLooks(looks, |job.order|) && r < RUNNERS && n < |job.order| && "" !in job.order
             && Ordered(job.priority, job.order)
    requires Leading(job, w, r, features, looks, n, selected, warmest, local)
    requires Eligible(job, w, r, features, job.order[n])
    ensures
      var drv := job.order[n];
      if Replaces(job, w, r, looks[n], drv, selected, warmest, local)
      then Leading(job, w, r, features, looks, n + 1, drv, Warmth(job, w, r, drv), LocalOnly(job, w, r, looks[n], drv))
      else Leading(job, w, r, features, looks, n + 1, selected, warmest, local)
  {
    var drv := job.order[n];
    if selected == "" {
      assert ChosenAt(job, w, r, features, looks, job.order[..n + 1], n);
    } else {
      var k :| 0 <= k < n && ChosenAt(job, w, r, features, looks, job.order[..n], k) && job.order[k] == selected;
      assert Sooner(job.priority, job.order[k], job.order[n]);
      var (s, d) := (AppealOf(job, w, r, looks[k], selected), AppealOf(job, w, r, looks[n], drv));
      assert Replaces(job, w, r, looks[n], drv, selected, warmest, local) <==> Beats(d, s);
      hide Eligible, AppealOf, Sooner, Ordered, Replaces;
      if Beats(d, s) {
        ChallengerLeads(job, w, r, features, looks, n, k);
        assert job.order[n] == drv;
      } else {
        LeaderStays(job, w, r, features, looks, n, k);
      }
    }
  }

  lemma BeatsOrder(a: Appeal, s: Appeal, d: Appeal)
    requires !Beats(a, s) && Beats(d, s)
    ensures !Beats(a, d) && a != d
  {
  }

  lemma ChallengerLeads(job: Job, w: World, r: nat, features: seq<string>, looks: seq<Look>, n: nat, k: nat)
    requires Shape(w) && ValidLooks(looks, |job.order|) && r < RUNNERS && k < n < |job.order|
             && Eligible(job, w, r, features, job.order[n])
    requires ChosenAt(job, w, r, features, looks, job.order[..n], k)
    requires Beats(AppealOf(job, w, r, looks[n], job.order[n]), AppealOf(job, w, r, looks[k], job.order[k]))
    ensures ChosenAt(job, w, r, features, looks, job.order[..n + 1], n)
  {
    hide Eligible, AppealOf;
    var (o, m) := (job.order[..n + 1], job.order[..n]);
    var (s, d) := (AppealOf(job, w, r, looks[k], m[k]), AppealOf(job, w, r, looks[n], o[n]));
    forall i | 0 <= i < |o| && Eligible(job, w, r, features, o[i])
      ensures !Beats(AppealOf(job, w, r, looks[i], o[i]), d) && (i < n ==> AppealOf(job, w, r, looks[i], o[i]) != d)
    {
      if i < n {
        assert o[i] == m[i];
        BeatsOrder(AppealOf(job, w, r, looks[i], m[i]), s, d);
      }
    }
  }

  lemma LeaderStays(job: Job, w: World, r: nat, features: seq<string>, looks: seq<Look>, n: nat, k: nat)
    requires Shape(w) && ValidLooks(looks, |job.order|) && r < RUNNERS && k < n < |job.order|
    requires ChosenAt(job, w, r, features, looks, job.order[..n], k)
    requires !Beats(AppealOf(job, w, r, looks[n], job.order[n]), AppealOf(job, w, r, looks[k], job.order[k]))
    ensures ChosenAt(job, w, r, features, looks, job.order[..n + 1], k)
  {
    hide Eligible, AppealOf;
    var (o, m) := (job.order[..n + 1], job.order[..n]);
    forall i | 0 <= i < |o| && Eligible(job, w, r, features, o[i])
      ensures !Beats(AppealOf(job, w, r, looks[i], o[i]), AppealOf(job, w, r, looks[k], o[k]))
      ensures i < k ==> AppealOf(job, w, r, looks[i], o[i]) != AppealOf(job, w, r, looks[k], o[k])
    {
      assert o[k] == m[k];
      if i < n { assert o[i] == m[i]; }
    }
  }

  lemma LeadingWhole(job: Job, w: World, r: nat, features: seq<string>, looks: seq<Look>, selected: string,
                     warmest: int, local: bool)
    requires Shape(w) && ValidLooks(looks, |job.order|) && r < RUNNERS
    requires Leading(job, w, r, features, looks, |job.order|, selected, warmest, local)
    ensures Chosen(job, w, r, features, looks, if selected == "" then None else Some(selected))
  {
    assert job.order[..|job.order|] == job.order;
  }

  /** Lines 197-220: one pass over the assignment order that remembers a single candidate. */
  method Select(job: Job, w: World, r: nat, features: seq<string>, looks: seq<Look>) returns (selected: string)
    requires Shape(w) && ValidLooks(looks, |job.order|) && r < RUNNERS && "" !in job.order
             && Ordered(job.priority, job.order)
    ensures Chosen(job, w, r, features, looks, if selected == "" then None else Some(selected))
  {
    selected := "";
    var warmest: int := -1;
    var selectedLocal := false;
    for n := 0 to |job.order|
      invariant Leading(job, w, r, features, looks, n, selected, warmest, selectedLocal)
    {
      var drv := job.order[n];
      if !Ready(job, w.status, drv) {
        LeadingSkips(job, w, r, features, looks, n, selected, warmest, selectedLocal);
        continue;
      }
      if r > 0 && (drv in w.retryLocal || !Compatible(job.graph, drv, job.system, features)) {
        LeadingSkips(job, w, r, features, looks, n, selected, warmest, selectedLocal);
        continue;
      }
      LeadingMeets(job, w, r, features, looks, n, selected, warmest, selectedLocal);
      var warm := Warmth(job, w, r, drv);
      var local := LocalOnly(job, w, r, looks[n], drv);
      if selected == "" || (local && !selectedLocal)
         || (local == selectedLocal && PriorityOf(job.priority, drv) == PriorityOf(job.priority, selected)
             && warm > warmest) {
        selected, warmest, selectedLocal := drv, warm, local;
      }
    }
    LeadingWhole(job, w, r, features, looks, selected, warmest, selectedLocal);
  }

  // ---- setting up (lines 82-94)

  datatype Prepared = Planned(job: Job) | Rejected(error: Planner.Error)

  function Specs(missing: seq<string>): set<string> { set s | s in missing :: Planner.DrvOf(s) }

  /** The plan is checked by `Batches` with limit one; then dependencies, priorities and the order are derived from
      it. */
  method Prepare(graph: Plan, missing: seq<string>, system: string, cpus: int, lease: int, deadline: int)
    returns (r: Prepared)
    ensures r.Rejected? <==> !Planner.Present(graph) || Cyclic(InputMap(graph))
    ensures r.Planned? ==>
              r.job == Job(graph, Specs(missing), r.job.deps, r.job.priority, r.job.order, system, cpus, lease,
                           deadline)
    ensures r.Planned? ==> forall d :: d in r.job.specs <==> Planner.Asked(missing, d)
    ensures r.Planned? ==> (ValidJob(r.job) <==> forall s :: s in missing ==> Planner.DrvOf(s) != "")
  {
    var batches := Planner.Batches(graph, missing, 1);
    if batches.Err? {
      match batches.error {
        case InvalidBatchSize =>
        case MissingDependency =>
        case CyclicGraph =>
      }
      return Rejected(batches.error);
    }
    hide Cyclic, Planner.Present, Planner.LeastFirst, Planner.Flatten, Planner.Full, Ranked, IsDependencyMap,
      ArePriorities, Ordered, Elements, Planner.Pick, Planner.Selected;
    ghost var t :| Planner.Topological(graph, t);
    Planner.TopologicalRanks(graph, t);
    var specs := Specs(missing);
    var deps := Dependencies(graph, specs);
    DependenciesRanked(graph, specs, deps, Planner.Position(t));
    var priority := PoolPriorities(deps, Planner.Position(t));
    var order := PoolOrder(specs, priority);
    hide Planner.Topological, Planner.Position;
    NamedSpecs(missing);
    AskedSpecs(missing);
    r := Planned(Job(graph, specs, deps, priority, order, system, cpus, lease, deadline));
  }

  lemma AskedSpecs(missing: seq<string>)
    ensures forall d :: d in Specs(missing) <==> Planner.Asked(missing, d)
  {
    forall d
      ensures d in Specs(missing) <==> Planner.Asked(missing, d)
    {
      forall s | s in missing
        ensures Planner.Denotes(s, d) <==> d == Planner.DrvOf(s)
      {
        Planner.DenotesDrvOf(s, d);
      }
    }
  }

  lemma NamedSpecs(missing: seq<string>)
    ensures "" !in Specs(missing) <==> forall s :: s in missing ==> Planner.DrvOf(s) != ""
  {
  }

  /** Lines 89-92. */
  method Dependencies(graph: Plan, specs: set<string>) returns (deps: map<string, set<string>>)
    ensures IsDependencyMap(graph, specs, deps)
  {
    deps := map[];
    var todo := specs;
    while todo != {}
      invariant todo <= specs && deps.Keys == specs - todo
      invariant forall d, e :: d in deps ==> (e in deps[d] <==> Dependency(graph, specs, d, e))
      decreases todo
    {
      var drv :| drv in todo;
      var found := PoolDependencies(graph, drv, specs);
      deps := deps[drv := Elements(found)];
      todo := todo - {drv};
    }
  }

  // ---- the loop's variables

  /** What the source does not store: where the loop stands, what is in flight, and the attempts made so far. */
  datatype Environment = Environment(
    pc: Pc, live: set<Exec>, helperTried: set<string>, localTried: set<string>, started: nat, strikes: seq<nat>,
    localFailed: set<string>)

  class Loop {
    const job: Job
    var status: map<string, Status>
    var retryLocal: set<string>
    var occupied: seq<bool>
    var pending: seq<int>
    var retired: seq<bool>
    var sequences: seq<nat>
    var instances: seq<string>
    var locality: seq<set<string>>
    var failure: bool
    var finish: Option<seq<nat>>
    ghost var env: Environment

    ghost function View(): World
      reads this
    {
      World(status, retryLocal, occupied, pending, retired, sequences, instances, locality, failure, finish, env.pc,
        env.live, env.helperTried, env.localTried, env.started, env.strikes, env.localFailed)
    }

    constructor (job: Job)
      ensures this.job == job && View() == Init(job)
    {
      this.job := job;
      status := map d | d in job.specs :: Unassigned;
      retryLocal := {};
      occupied, pending, retired := [false, false, false, false], [0, 0, 0, 0], [false, false, false, false];
      sequences, instances, locality := [0, 0, 0, 0], ["", "", "", ""], [{}, {}, {}, {}];
      failure, finish := false, None;
      env := Environment(Propagating, {}, {}, {}, 0, [0, 0, 0, 0], {});
    }

    method Propagate()
      requires Shape(View()) && env.pc == Propagating
      modifies this
      ensures Next(job, old(View()), Schedule.Propagate, View())
    {
      status := PropagateFailures(job.deps, status);
      env := env.(pc := Assigning(0));
    }

    /** Lines 166-196: whether the runner may take work now, and with which features. */
    method Admission(runner: nat, message: Option<Message>, now: int) returns (admitted: bool, features: seq<string>)
      requires Shape(View()) && runner < RUNNERS
      modifies this`retired, this`instances
      ensures
        match AdmissionOf(job, old(View()), runner, message, now)
        case Skip => !admitted && View() == old(View())
        case Retire => !admitted && View() == old(View()).(retired := old(retired)[runner := true])
        case Admit(_, f, instance) =>
          admitted && features == f && View() == old(View()).(instances := old(instances)[runner := instance])
    {
      admitted, features := false, [];
      if occupied[runner] || pending[runner] >= 2 || retired[runner] { return; }
      if runner == 0 { return true, []; }
      if finish.Some? { return; }
      if !Usable(job, message, now) {
        if now > job.deadline { retired := retired[runner := true]; }
        return;
      }
      if instances[runner] != "" && message.value.instance != instances[runner] {
        retired := retired[runner := true];
        return;
      }
      if message.value.state != "ready" && message.value.state != "done" && message.value.state != "failed" { return; }
      instances := instances[runner := message.value.instance];
      return true, message.value.features;
    }

    /** One turn of the loop at line 163; the derivation taken is the best one by the loads made for each. */
    method AssignRunner(runner: nat, message: Option<Message>, now: int, looks: seq<Look>)
      returns (ghost choice: Option<string>)
      requires ValidJob(job) && Inv(job, View()) && runner < RUNNERS && env.pc == Assigning(runner)
      requires ValidLooks(looks, |job.order|)
      modifies this
      ensures Next(job, old(View()), Assign(message, now, choice), View())
      ensures Shape(old(View())) && match AdmissionOf(job, old(View()), runner, message, now)
              case Admit(_, features, _) => Chosen(job, old(View()), runner, features, looks, choice)
              case _ => choice == None
    {
      hide AdmissionOf, Start, AfterClose, AfterRelease, AfterComplete, Propagated, ValidJob, Chosen, Taken;
      ghost var before := View();
      choice := None;
      var admitted, features := Admission(runner, message, now);
      if !admitted {
        env := env.(pc := Assigning(runner + 1));
        return;
      }
      var selected := SelectHere(runner, features, looks);
      ghost var wanted := if selected == "" then None else Some(selected);
      ChosenFrame(job, View(), before, runner, features, looks, wanted);
      ChosenTaken(job, before, runner, features, looks, wanted);
      hide Inv;
      if selected == "" {
        env := env.(pc := Assigning(runner + 1));
        return;
      }
      choice := Some(selected);
      Begin(runner, selected);
    }

    /** Recording an instance does not change what is eligible or how appealing it is to the same runner. */
    method SelectHere(runner: nat, features: seq<string>, looks: seq<Look>) returns (selected: string)
      requires ValidJob(job) && Shape(View()) && ValidLooks(looks, |job.order|) && runner < RUNNERS
      ensures Chosen(job, View(), runner, features, looks, if selected == "" then None else Some(selected))
    {
      var w := World(status, retryLocal, occupied, pending, retired, sequences, instances, locality, failure, finish,
                     Propagating, {}, {}, {}, 0, [0, 0, 0, 0], {});
      assert "" !in job.order by { assert "" !in Elements(job.order); }
      selected := Select(job, w, runner, features, looks);
      ChosenFrame(job, w, View(), runner, features, looks, if selected == "" then None else Some(selected));
    }

    /** Lines 224-228. */
    method Begin(runner: nat, selected: string)
      requires Shape(View()) && runner < RUNNERS
      modifies this
      ensures View() == Advance(Start(old(View()), runner, selected), runner)
    {
      env := env.(
        live := env.live + {Exec(runner, sequences[runner] + 1, selected, false)},
        started := env.started + 1,
        helperTried := if runner > 0 then env.helperTried + {selected} else env.helperTried,
        localTried := if runner == 0 then env.localTried + {selected} else env.localTried,
        pc := Assigning(runner + 1));
      occupied := occupied[runner := true];
      pending := pending[runner := pending[runner] + 1];
      status := status[selected := Running];
      sequences := sequences[runner := sequences[runner] + 1];
    }

    /** Lines 245-258; `Some(failed)` is a return. */
    method CloseRound() returns (returned: Option<bool>)
      requires Shape(View()) && env.pc == Assigning(RUNNERS)
      modifies this
      ensures Next(job, old(View()), Close, View())
      ensures returned == (if env.pc.Returned? then Some(failure) else None)
    {
      var unassigned, active := false, false;
      var todo := status.Keys;
      while todo != {}
        invariant todo <= status.Keys && View() == old(View())
        invariant unassigned <==> exists d :: d in status && d !in todo && status[d] == Unassigned
        invariant active <==> exists d :: d in status && d !in todo && status[d] == Running
      {
        var drv :| drv in todo;
        unassigned := unassigned || status[drv] == Unassigned;
        active := active || status[drv] == Running;
        todo := todo - {drv};
      }
      if !unassigned && finish.None? { finish := Some(sequences); }
      if !active && !unassigned {
        env := env.(pc := Returned(Finished(failure)));
        return Some(failure);
      }
      env := env.(pc := Waiting);
      returned := None;
    }

    /** Lines 118-258: from the top of the loop to the select, or to the return. */
    method Pass(own: Look, looks: seq<seq<Look>>) returns (returned: Option<bool>)
      requires ValidJob(job) && Inv(job, View()) && env.pc == Propagating
      requires |own| == |looks| == RUNNERS && forall i :: 0 <= i < RUNNERS ==> ValidLooks(looks[i], |job.order|)
      modifies this
      ensures Inv(job, View())
      ensures returned.None? ==> env.pc == Waiting && env.live != {}
      ensures returned.Some? ==>
                env.pc == Returned(Finished(returned.value))
                && forall d :: d in status ==> status[d] == Done || status[d] == Failed
    {
      hide Next, ValidJob, Numbered, Marked, CountedExecs, Matched, Founded, Blamed, Attempts, Frozen, Spread;
      ghost var before := View();
      Propagate();
      InvNext(job, before, Schedule.Propagate, View());
      PropagateMoves(job, before, View());
      for runner := 0 to RUNNERS
        invariant Inv(job, View()) && env.pc == Assigning(runner)
      {
        before := View();
        ghost var choice := AssignRunner(runner, own[runner].message, own[runner].now, looks[runner]);
        InvNext(job, before, Assign(own[runner].message, own[runner].now, choice), View());
        AssignMoves(job, before, View(), own[runner].message, own[runner].now, choice);
      }
      before := View();
      returned := CloseRound();
      InvNext(job, before, Close, View());
      CloseMoves(job, before, View());
    }

    /** Line 263-268 for a release event. */
    method OnRelease(e: Exec)
      requires Shape(View()) && env.pc == Waiting && e in env.live && !e.released && e.runner < RUNNERS
      modifies this
      ensures Next(job, old(View()), Release(e), View())
    {
      if e.sequence == sequences[e.runner] { occupied := occupied[e.runner := false]; }
      env := env.(live := env.live - {e} + {e.(released := true)}, pc := Propagating);
    }

    /** Lines 264-278: a helper that failed is retired and its derivation goes back to be built here. */
    method Strike(e: Exec)
      requires Shape(View()) && e in env.live && 1 <= e.runner < RUNNERS
      modifies this
      ensures View() == AfterComplete(job, old(View()), e, Bad)
    {
      if e.sequence == sequences[e.runner] { occupied := occupied[e.runner := false]; }
      pending := pending[e.runner := pending[e.runner] - 1];
      retired, retryLocal, status := retired[e.runner := true], retryLocal + {e.drv}, status[e.drv := Unassigned];
      env := env.(live := env.live - {e}, pc := Propagating,
                  strikes := env.strikes[e.runner := env.strikes[e.runner] + 1]);
    }

    /** Lines 264-270 and 279-291: the derivation is done, or failed for good. */
    method Settle(e: Exec, result: Built)
      requires Shape(View()) && e in env.live && e.runner < RUNNERS
               && (result == Good || (result == Bad && e.runner == 0))
      modifies this
      ensures View() == AfterComplete(job, old(View()), e, result)
    {
      if e.sequence == sequences[e.runner] { occupied := occupied[e.runner := false]; }
      pending := pending[e.runner := pending[e.runner] - 1];
      if result == Good {
        status := status[e.drv := Done];
        locality := locality[e.runner := locality[e.runner] + {e.drv} + Inputs(job.graph, e.drv)];
        env := env.(live := env.live - {e}, pc := Propagating);
      } else {
        status, failure := status[e.drv := Failed], true;
        env := env.(live := env.live - {e}, pc := Propagating, localFailed := env.localFailed + {e.drv});
      }
    }

    /** Lines 263-292 for a completion; true means the publication error is returned. */
    method OnComplete(e: Exec, result: Built) returns (lost: bool)
      requires Shape(View()) && env.pc == Waiting && e in env.live && e.runner < RUNNERS
      modifies this
      ensures Next(job, old(View()), Complete(e, result), View())
      ensures lost <==> result == Unpublished
    {
      hide AssignStep, AfterClose, AfterRelease, Propagated;
      lost := result == Unpublished;
      if lost {
        env := env.(pc := Returned(PublicationFailed));
      } else {
        hide AfterComplete;
        if result == Bad && e.runner > 0 { Strike(e); } else { Settle(e, result); }
      }
    }
  }

  lemma PropagateMoves(job: Job, w: World, w': World)
    requires Next(job, w, Schedule.Propagate, w')
    ensures w'.pc == Assigning(0)
  {
  }

  lemma AssignMoves(job: Job, w: World, w': World, status: Option<Message>, now: int, choice: Option<string>)
    requires Next(job, w, Assign(status, now, choice), w')
    ensures w.pc.Assigning? && w'.pc == Assigning(w.pc.runner + 1)
  {
    AssignFrame(job, w, w', status, now, choice);
    hide AssignStep;
  }

  lemma CloseMoves(job: Job, w: World, w': World)
    requires Next(job, w, Close, w') && Inv(job, w')
    ensures w'.pc == Waiting || w'.pc == Returned(Finished(w'.failure))
    ensures w'.pc == Waiting ==> w'.live != {}
    ensures w'.pc.Returned? ==> forall d :: d in w'.status ==> w'.status[d] == Done || w'.status[d] == Failed
  {
    if w'.pc == Waiting {
      assert HasStatus(w'.status, Running);
      var d :| d in w'.status && w'.status[d] == Running;
      var e :| e in w'.live && e.drv == d;
    } else {
      forall d | d in w'.status
        ensures w'.status[d] == Done || w'.status[d] == Failed
      {
        assert w'.status[d] != Unassigned && w'.status[d] != Running;
      }
    }
  }

  lemma ChosenTaken(job: Job, w: World, r: nat, features: seq<string>, looks: seq<Look>, choice: Option<string>)
    requires Shape(w) && ValidLooks(looks, |job.order|) && r < RUNNERS && Chosen(job, w, r, features, looks, choice)
    ensures Taken(job, w, r, features, choice)
  {
  }

  lemma ChosenFrame(job: Job, v: World, w: World, r: nat, features: seq<string>, looks: seq<Look>,
                    choice: Option<string>)
    requires Shape(v) && Shape(w) && ValidLooks(looks, |job.order|) && r < RUNNERS
    requires v.status == w.status && v.retryLocal == w.retryLocal && v.locality == w.locality && v.retired == w.retired
    requires forall q :: 1 <= q < RUNNERS && (r == 0 || q != r) ==> v.instances[q] == w.instances[q]
    requires Chosen(job, v, r, features, looks, choice)
    ensures Chosen(job, w, r, features, looks, choice)
  {
    forall d
      ensures Eligible(job, w, r, features, d) == Eligible(job, v, r, features, d)
    {
    }
    forall d, i | 0 <= i < |looks|
      ensures AppealOf(job, w, r, looks[i], d) == AppealOf(job, v, r, looks[i], d)
    {
      if r == 0 {
        forall q | 1 <= q < RUNNERS
          ensures Takes(job, w, looks[i], d, q) == Takes(job, v, looks[i], d, q)
        {
        }
      }
    }
    hide Eligible, AppealOf;
    if choice.Some? {
      var k :| 0 <= k < |job.order| && ChosenAt(job, v, r, features, looks, job.order, k)
               && job.order[k] == choice.value;
      assert ChosenAt(job, w, r, features, looks, job.order, k);
    }
  }
}

/** What one turn of the assignment loop decides, and what the tables of the scheduler say about the past
    (worker/scheduler.go:163-292), without the functions that the loop's methods are proved against. */
module ScheduleTurns {
  import opened Names
  import opened Graph
  import opened Messages
  import opened Scheduling
  import opened Schedule
  import opened ScheduleRuns
  import opened ScheduleSafety
  import opened ScheduleTheorems

  // ---- one turn of the loop at line 163

  /** A status tells of a live helper. */
  lemma UsableExactly(job: Job, status: Option<Message>, now: int)
    ensures Usable(job, status, now)
            <==> status.Some? && now - status.value.sent < job.lease && status.value.sent - now < 60_000_000_000
                 && status.value.instance != "" && 1 <= status.value.cores <= 256
                 && forall f :: f in status.value.features ==> f != "" && forall c :: c in f ==> NameChar(c)
  {
  }

  /** The runner has room for another execution and was not given up. */
  predicate Free(w: World, r: nat)
    requires Shape(w) && r < RUNNERS
  {
    !w.occupied[r] && w.pending[r] < 2 && !w.retired[r]
  }

  /** A helper that has registered, or does so now, and has no task of its own. */
  predicate Attends(job: Job, w: World, r: nat, status: Option<Message>, now: int)
    requires Shape(w) && r < RUNNERS
  {
    && w.finish.None? && Usable(job, status, now)
    && (w.instances[r] == "" || status.value.instance == w.instances[r])
    && status.value.state in {"ready", "done", "failed"}
  }

  /** A derivation can start exactly when it waits and every scheduled derivation that it reaches in the whole graph is
      done. */
  lemma ReadyExactly(job: Job, w: World, d: string)
    requires ValidJob(job) && Inv(job, w) && d in job.specs
    ensures w.status.Keys == job.specs
    ensures Ready(job, w.status, d)
            <==> w.status[d] == Unassigned
                 && forall e :: e in job.specs && Reaches(InputMap(job.graph), d, e) ==> w.status[e] == Done
  {
    Scheduled(job, w);
    Foundations(job, w);
    hide ValidJob, Inv, Reaches, InputMap, IsDependencyMap, Founded;
    if Ready(job, w.status, d) {
      forall e | e in job.specs && Reaches(InputMap(job.graph), d, e)
        ensures w.status[e] == Done
      {
        ReachedDone(job, w, d, e);
      }
    }
    forall e | e in Needs(job.deps, d)
      ensures e in job.specs && Reaches(InputMap(job.graph), d, e)
    {
      NeedReached(job, d, e);
    }
  }

  lemma Scheduled(job: Job, w: World)
    requires Inv(job, w)
    ensures w.status.Keys == job.specs
  {
  }

  lemma Foundations(job: Job, w: World)
    requires ValidJob(job) && Inv(job, w)
    ensures IsDependencyMap(job.graph, job.specs, job.deps) && Founded(job.deps, w.status)
  {
  }

  lemma ReachedDone(job: Job, w: World, d: string, e: string)
    requires IsDependencyMap(job.graph, job.specs, job.deps) && Founded(job.deps, w.status)
    requires d in job.specs && e in job.specs && Reaches(InputMap(job.graph), d, e) && Ready(job, w.status, d)
    ensures e in w.status && w.status[e] == Done
  {
    DependenciesPreserveReach(job.graph, job.specs, job.deps, d, e);
    hide IsDependencyMap, Founded, InputMap;
    var p :| WalkFromTo(job.deps, p, d, e);
    assert p[1] in Needs(job.deps, p[0]);
    if |p| > 2 { FoundedReaches(job.deps, w.status, p[1..]); }
  }

  lemma NeedReached(job: Job, d: string, e: string)
    requires ValidJob(job) && d in job.specs && e in Needs(job.deps, d)
    ensures e in job.specs && Reaches(InputMap(job.graph), d, e)
  {
    ReachStep(job.deps, d, e);
    NeedsScheduled(job, d);
    DependenciesPreserveReach(job.graph, job.specs, job.deps, d, e);
  }

  lemma CompatibleExactly(g: Plan, d: string, system: string, features: seq<string>)
    requires d in g
    ensures Compatible(g, d, system, features)
            <==> !g[d].dynamic && !g[d].preferLocal && g[d].attrsValid && g[d].system in {"", system}
                 && "" !in g[d].outputs && g[d].required <= Elements(features)
  {
  }

  /** A helper is retired in its turn exactly when it is free, may still be given work, and has either stayed away
      beyond the deadline or come back as another instance. */
  lemma TurnRetires(job: Job, w: World, w': World, status: Option<Message>, now: int, choice: Option<string>)
    requires Next(job, w, Assign(status, now, choice), w')
    ensures w.pc.Assigning? && w.pc.runner < RUNNERS
    ensures
      var r := w.pc.runner;
      w'.retired == if r > 0 && Free(w, r) && w.finish.None?
                       && (if Usable(job, status, now)
                           then w.instances[r] != "" && status.value.instance != w.instances[r]
                           else now > job.deadline)
                    then w.retired[r := true] else w.retired
    ensures
      var r := w.pc.runner;
      w'.instances == if r > 0 && Free(w, r) && Attends(job, w, r, status, now)
                      then w.instances[r := status.value.instance] else w.instances
  {
    hide Usable, Taken;
    assert w.instances[0 := w.instances[0]] == w.instances;
  }

  /** What a start changes, and that nothing else does. */
  lemma TurnStarts(job: Job, w: World, w': World, status: Option<Message>, now: int, choice: Option<string>)
    requires Next(job, w, Assign(status, now, choice), w')
    ensures Shape(w') && w.pc.Assigning? && w.pc.runner < RUNNERS && w'.pc == Assigning(w.pc.runner + 1)
    ensures w' == w.(retired := w'.retired, instances := w'.instances, pc := w'.pc, status := w'.status,
                     sequences := w'.sequences, occupied := w'.occupied, pending := w'.pending, live := w'.live,
                     started := w'.started, helperTried := w'.helperTried, localTried := w'.localTried)
    ensures choice.None? ==>
              && w'.status == w.status && w'.sequences == w.sequences && w'.occupied == w.occupied
              && w'.pending == w.pending && w'.live == w.live
    ensures choice.Some? ==>
              var (r, n) := (w.pc.runner, w.sequences[w.pc.runner] + 1);
              && w'.status == w.status[choice.value := Running] && w'.sequences == w.sequences[r := n]
              && w'.occupied == w.occupied[r := true] && w'.pending == w.pending[r := w.pending[r] + 1]
              && w'.live == w.live + {Exec(r, n, choice.value, false)}
  {
    assert AssignStep(job, w, w', status, now, choice);
    hide AssignStep, Next;
    AssignFrame(job, w, w', status, now, choice);
  }

  /** A free coordinator starts a derivation exactly when one can start. */
  lemma CoordinatorStarts(job: Job, w: World, w': World, status: Option<Message>, now: int, choice: Option<string>)
    requires ValidJob(job) && Inv(job, w) && Next(job, w, Assign(status, now, choice), w') && w.pc == Assigning(0)
    ensures choice.Some? <==> Free(w, 0) && exists d :: Ready(job, w.status, d)
    ensures choice.Some? ==> Ready(job, w.status, choice.value)
  {
    InOrder(job, w);
    AdmittedHere(job, w, status, now);
    hide Usable, ValidJob, Inv, Ready, Compatible, AdmissionOf, AfterAssign, Free, Taken;
    if AdmissionOf(job, w, 0, status, now).Admit? {
      TakenExactly(job, w, 0, AdmissionOf(job, w, 0, status, now).features, choice);
    }
  }

  lemma AdmittedHere(job: Job, w: World, status: Option<Message>, now: int)
    requires Shape(w)
    ensures AdmissionOf(job, w, 0, status, now).Admit? <==> Free(w, 0)
  {
  }

  /** A free helper that attends starts a derivation exactly when there is one that can start, was not taken back from a
      helper and suits it. */
  lemma HelperStarts(job: Job, w: World, w': World, status: Option<Message>, now: int, choice: Option<string>)
    requires ValidJob(job) && Inv(job, w) && Next(job, w, Assign(status, now, choice), w')
    requires w.pc.Assigning? && w.pc.runner > 0
    ensures
      var r := w.pc.runner;
      r < RUNNERS
      && (choice.Some?
          <==> Free(w, r) && Attends(job, w, r, status, now)
               && exists d :: Ready(job, w.status, d) && d !in w.retryLocal
                              && Compatible(job.graph, d, job.system, status.value.features))
    ensures choice.Some? ==>
              Ready(job, w.status, choice.value) && choice.value !in w.retryLocal
              && Compatible(job.graph, choice.value, job.system, status.value.features)
  {
    InOrder(job, w);
    var r := w.pc.runner;
    Admitted(job, w, r, status, now);
    hide Usable, ValidJob, Inv, Ready, Compatible, AdmissionOf, AfterAssign, Attends, Free;
    if AdmissionOf(job, w, r, status, now).Admit? {
      TakenExactly(job, w, r, status.value.features, choice);
    }
  }

  lemma Admitted(job: Job, w: World, r: nat, status: Option<Message>, now: int)
    requires Shape(w) && 1 <= r < RUNNERS
    ensures AdmissionOf(job, w, r, status, now).Admit? <==> Free(w, r) && Attends(job, w, r, status, now)
    ensures AdmissionOf(job, w, r, status, now).Admit? ==>
              AdmissionOf(job, w, r, status, now).features == status.value.features
  {
    hide Usable;
  }

  lemma TakenExactly(job: Job, w: World, r: nat, features: seq<string>, choice: Option<string>)
    requires Taken(job, w, r, features, choice)
    requires forall d :: Ready(job, w.status, d) ==> exists i :: 0 <= i < |job.order| && job.order[i] == d
    ensures choice.Some?
            <==> exists d :: Ready(job, w.status, d)
                             && (r > 0 ==> d !in w.retryLocal && Compatible(job.graph, d, job.system, features))
    ensures choice.Some? ==> Ready(job, w.status, choice.value)
    ensures choice.Some? && r > 0 ==>
              choice.value !in w.retryLocal && Compatible(job.graph, choice.value, job.system, features)
  {
    hide Ready, Compatible;
  }

  lemma InOrder(job: Job, w: World)
    requires ValidJob(job) && Inv(job, w)
    ensures forall d :: Ready(job, w.status, d) ==> exists i :: 0 <= i < |job.order| && job.order[i] == d
  {
    forall d | Ready(job, w.status, d)
      ensures exists i :: 0 <= i < |job.order| && job.order[i] == d
    {
      assert d in Elements(job.order);
    }
  }

  // ---- which derivation is taken

  /** Whether some helper could take the derivation, by the statuses loaded while it was considered. */
  predicate Delegates(job: Job, w: World, look: Look, d: string)
    requires Shape(w) && |look| == RUNNERS
  {
    d !in w.retryLocal && exists q :: 1 <= q < RUNNERS && !w.retired[q] && Hosts(job, w, look, d, q)
  }

  /** The helper shows a usable status of its recorded instance, if any, and suits the derivation. */
  predicate Hosts(job: Job, w: World, look: Look, d: string, q: nat)
    requires Shape(w) && |look| == RUNNERS && q < RUNNERS
  {
    && Usable(job, look[q].message, look[q].now) && w.instances[q] in {"", look[q].message.value.instance}
    && Compatible(job.graph, d, job.system, look[q].message.value.features)
  }

  lemma DelegatesExactly(job: Job, w: World, look: Look, d: string)
    requires Shape(w) && |look| == RUNNERS
    ensures Delegatable(job, w, look, d) <==> Delegates(job, w, look, d)
  {
    hide Usable, Compatible;
    if Delegatable(job, w, look, d) {
      var q :| 1 <= q < RUNNERS && Takes(job, w, look, d, q);
      assert Hosts(job, w, look, d, q);
    }
    if Delegates(job, w, look, d) {
      var q :| 1 <= q < RUNNERS && !w.retired[q] && Hosts(job, w, look, d, q);
      assert Takes(job, w, look, d, q);
    }
  }

  /** Inputs of the derivation that the runner has in its store. */
  function Warm(job: Job, w: World, r: nat, d: string): nat
    requires Shape(w) && r < RUNNERS
  {
    |Inputs(job.graph, d) * w.locality[r]|
  }

  /** `d` comes before `e`: a longer chain of consumers, or else a warmer store, or else the smaller name. */
  predicate Preferred(job: Job, w: World, r: nat, d: string, e: string)
    requires Shape(w) && r < RUNNERS && d in job.priority && e in job.priority
  {
    if job.priority[d] != job.priority[e] then job.priority[d] > job.priority[e]
    else if Warm(job, w, r, d) != Warm(job, w, r, e) then Warm(job, w, r, d) > Warm(job, w, r, e)
    else Less(d, e)
  }

  lemma InPriorities(job: Job, d: string)
    requires ValidJob(job) && d in job.order
    ensures d in job.priority && PriorityOf(job.priority, d) == job.priority[d]
  {
    assert d in Elements(job.order);
  }

  lemma ChosenOver(job: Job, w: World, r: nat, features: seq<string>, looks: seq<Look>, d: string, i: nat)
    returns (k: nat)
    requires ValidJob(job) && r < RUNNERS && ValidLooks(looks, |job.order|)
    requires Shape(w) && Chosen(job, w, r, features, looks, Some(d))
    requires i < |job.order| && job.order[i] != d && Eligible(job, w, r, features, job.order[i])
    ensures k < |job.order| && job.order[k] == d && d in job.priority && job.order[i] in job.priority
    ensures r == 0 && Delegatable(job, w, looks[k], d) ==> Delegatable(job, w, looks[i], job.order[i])
    ensures r > 0 || Delegatable(job, w, looks[k], d) == Delegatable(job, w, looks[i], job.order[i]) ==>
              Preferred(job, w, r, d, job.order[i])
  {
    k := ChosenAgainst(job, w, r, features, looks, d, i);
    InPriorities(job, d);
    InPriorities(job, job.order[i]);
    hide ValidJob, Chosen, Less, Eligible, Delegatable, ValidLooks;
  }

  lemma ChosenAgainst(job: Job, w: World, r: nat, features: seq<string>, looks: seq<Look>, d: string, i: nat)
    returns (k: nat)
    requires ValidJob(job) && r < RUNNERS && ValidLooks(looks, |job.order|)
    requires Shape(w) && Chosen(job, w, r, features, looks, Some(d))
    requires i < |job.order| && job.order[i] != d && Eligible(job, w, r, features, job.order[i])
    ensures k < |job.order| && job.order[k] == d
    ensures if i < k then Sooner(job.priority, job.order[i], d) else Sooner(job.priority, d, job.order[i])
    ensures !Beats(AppealOf(job, w, r, looks[i], job.order[i]), AppealOf(job, w, r, looks[k], d))
    ensures i < k ==> AppealOf(job, w, r, looks[i], job.order[i]) != AppealOf(job, w, r, looks[k], d)
  {
    hide Eligible, AppealOf, Beats, Sooner;
    k :| 0 <= k < |job.order| && ChosenAt(job, w, r, features, looks, job.order, k) && job.order[k] == d;
  }

  /** A helper takes the preferred one of the derivations that it could take. */
  lemma HelperTakesPreferred(job: Job, w: World, r: nat, features: seq<string>, looks: seq<Look>, d: string, e: string)
    requires ValidJob(job) && Inv(job, w) && 1 <= r < RUNNERS && ValidLooks(looks, |job.order|)
    requires Shape(w) && Chosen(job, w, r, features, looks, Some(d))
    requires e != d && Ready(job, w.status, e) && e !in w.retryLocal && Compatible(job.graph, e, job.system, features)
    ensures d in job.priority && e in job.priority && Preferred(job, w, r, d, e)
  {
    InOrder(job, w);
    var i :| 0 <= i < |job.order| && job.order[i] == e;
    var k := ChosenOver(job, w, r, features, looks, d, i);
  }

  /** The coordinator takes what no helper could take, if there is any, and among these or else among all the preferred
      one. */
  lemma CoordinatorTakesPreferred(job: Job, w: World, features: seq<string>, looks: seq<Look>, d: string, i: nat)
    returns (k: nat)
    requires ValidJob(job) && Inv(job, w) && ValidLooks(looks, |job.order|)
    requires Shape(w) && Chosen(job, w, 0, features, looks, Some(d))
    requires i < |job.order| && job.order[i] != d && Ready(job, w.status, job.order[i])
    ensures k < |job.order| && job.order[k] == d
    ensures Delegates(job, w, looks[k], d) ==> Delegates(job, w, looks[i], job.order[i])
    ensures Delegates(job, w, looks[k], d) == Delegates(job, w, looks[i], job.order[i]) ==>
              d in job.priority && job.order[i] in job.priority && Preferred(job, w, 0, d, job.order[i])
  {
    k := ChosenOver(job, w, 0, features, looks, d, i);
    DelegatesExactly(job, w, looks[k], d);
    DelegatesExactly(job, w, looks[i], job.order[i]);
  }
}

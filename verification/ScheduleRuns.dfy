/** The scheduler's guarantees over whole runs. */
module ScheduleRuns {
  import opened Names
  import opened Graph
  import opened Messages
  import opened Schedule
  import opened ScheduleSafety

  /** A stored finish vector keeps describing every helper's last sequence. */
  ghost predicate Frozen(w: World)
    requires Shape(w)
  {
    w.finish.Some? ==>
      |w.finish.value| == RUNNERS && forall r :: 1 <= r < RUNNERS ==> w.finish.value[r] == w.sequences[r]
  }

  predicate AfterPropagation(pc: Pc) { pc.Assigning? || pc == Waiting || (pc.Returned? && pc.outcome.Finished?) }

  predicate AfterCoordinator(pc: Pc) { (pc.Assigning? && pc.runner >= 1) || pc == Waiting }

  ghost predicate Phase(job: Job, w: World) {
    && (AfterPropagation(w.pc) ==> Spread(job.deps, w.status))
    && (AfterCoordinator(w.pc) && HasStatus(w.status, Unassigned) ==> HasStatus(w.status, Running))
    && (w.pc == Waiting ==> HasStatus(w.status, Unassigned) || HasStatus(w.status, Running))
    && (w.pc.Returned? && w.pc.outcome.Finished? ==>
          w.pc.outcome.failed == w.failure && !HasStatus(w.status, Unassigned) && !HasStatus(w.status, Running))
  }

  ghost predicate Inv(job: Job, w: World) {
    && Shape(w) && w.status.Keys == job.specs
    && Numbered(w.live, w.sequences) && Marked(w.live, w.sequences, w.occupied) && CountedExecs(w.live, w.pending)
    && Matched(w.live, w.status) && Founded(job.deps, w.status)
    && Blamed(job.deps, w.status, w.localFailed, w.failure)
    && Attempts(w) && Frozen(w) && Phase(job, w)
  }

  lemma NeedsScheduled(job: Job, d: string)
    requires ValidJob(job)
    ensures Needs(job.deps, d) <= job.specs
  {
    forall e | e in Needs(job.deps, d)
      ensures e in job.specs
    {
      assert Dependency(job.graph, job.specs, d, e);
    }
  }

  lemma InvInit(job: Job)
    requires ValidJob(job)
    ensures Inv(job, Init(job))
  {
    var w := Init(job);
    forall r | 0 <= r < RUNNERS
      ensures LiveOf(w.live, r) == {}
    {
    }
  }

  lemma InvPropagate(job: Job, w: World, w': World)
    requires ValidJob(job) && Inv(job, w) && Next(job, w, Propagate, w')
    ensures Inv(job, w')
  {
    hide Numbered, Marked, CountedExecs, Matched, Founded, Blamed, Tried, Placed, Struck, ValidJob, Spread, HasStatus,
      Propagated;
    PropagatedKeeps(job.deps, w.status, w'.status, w.live, w.retryLocal, w.helperTried, w.localTried);
    PropagatedSpread(job.deps, w.status, w'.status);
    PropagatedBlamed(job.deps, w.status, w'.status, w.localFailed, w.failure);
  }

  // ---- the assignment step

  lemma {:induction false} ReadyExists(job: Job, w: World, rank: map<string, nat>, d: string) returns (e: string)
    requires ValidJob(job) && Ranked(job.deps, rank) && w.status.Keys == job.specs && Spread(job.deps, w.status)
    requires !HasStatus(w.status, Running) && d in w.status && w.status[d] == Unassigned
    ensures Ready(job, w.status, e)
    decreases if d in rank then rank[d] else 0
  {
    e := d;
    if !Ready(job, w.status, d) {
      NeedsScheduled(job, d);
      var n :| n in Needs(job.deps, d) && !(n in w.status && w.status[n] == Done);
      assert w.status[n] == Unassigned;
      e := ReadyExists(job, w, rank, n);
    }
  }

  lemma LiveRunning(w: World)
    requires Matched(w.live, w.status)
    ensures w.live != {} ==> HasStatus(w.status, Running)
  {
    if w.live != {} {
      var e :| e in w.live;
      assert w.status[e.drv] == Running;
    }
  }

  /** After the coordinator's turn, waiting work means something is running. */
  lemma CoordinatorTakesWork(job: Job, w: World, w': World, status: Option<Message>, now: int, choice: Option<string>)
    requires ValidJob(job) && Inv(job, w) && w.pc == Assigning(0) && AssignStep(job, w, w', status, now, choice)
    ensures HasStatus(w'.status, Unassigned) ==> HasStatus(w'.status, Running)
  {
    if choice.Some? {
      assert w'.status[choice.value] == Running;
    } else if HasStatus(w.status, Unassigned) && !HasStatus(w.status, Running) {
      LiveRunning(w);
      assert LiveOf(w.live, 0) == {};
      var e := SomeEligible(job, w);
      var i :| 0 <= i < |job.order| && job.order[i] == e;
      assert false;
    }
  }

  lemma SomeEligible(job: Job, w: World) returns (e: string)
    requires ValidJob(job) && w.status.Keys == job.specs && Spread(job.deps, w.status)
    requires !HasStatus(w.status, Running) && HasStatus(w.status, Unassigned)
    ensures e in job.order && Eligible(job, w, 0, [], e)
  {
    var d :| d in w.status && w.status[d] == Unassigned;
    var rank :| Ranked(job.deps, rank);
    e := ReadyExists(job, w, rank, d);
    assert e in Elements(job.order);
  }

  lemma ChosenReady(job: Job, w: World, w': World, status: Option<Message>, now: int, d: string)
    requires ValidJob(job) && Inv(job, w) && AssignStep(job, w, w', status, now, Some(d))
    ensures
      var r := w.pc.runner;
      && AdmissionOf(job, w, r, status, now).Admit?
      && Eligible(job, w, r, AdmissionOf(job, w, r, status, now).features, d)
  {
  }

  lemma FoundedStart(job: Job, s: map<string, Status>, d: string)
    requires Founded(job.deps, s) && Ready(job, s, d)
    ensures Founded(job.deps, s[d := Running])
  {
  }

  lemma InvStart(job: Job, w: World, r: nat, d: string)
    requires Shape(w) && r < RUNNERS && !w.occupied[r] && w.pending[r] < 2 && !w.retired[r]
    requires Numbered(w.live, w.sequences) && Marked(w.live, w.sequences, w.occupied) && CountedExecs(w.live, w.pending)
    requires Matched(w.live, w.status) && Attempts(w)
    requires d in w.status && w.status[d] == Unassigned && (r > 0 ==> d !in w.retryLocal)
    ensures
      var v := Start(w, r, d);
      && Numbered(v.live, v.sequences) && Marked(v.live, v.sequences, v.occupied) && CountedExecs(v.live, v.pending)
      && Matched(v.live, v.status) && Attempts(v)
  {
    hide Numbered, Marked, CountedExecs, Matched, Attempts;
    StartNumbered(w.live, w.sequences, w.occupied, r, d);
    StartMarked(w.live, w.sequences, w.occupied, r, d);
    StartCounted(w.live, w.pending, Exec(r, w.sequences[r] + 1, d, false));
    StartMatched(w.live, w.status, Exec(r, w.sequences[r] + 1, d, false));
    StartAttempts(w, r, d);
  }

  /** What one turn of the runner loop can change. */
  lemma AssignFrame(job: Job, w: World, w': World, status: Option<Message>, now: int, choice: Option<string>)
    requires AssignStep(job, w, w', status, now, choice)
    ensures |w'.instances| == |w'.retired| == RUNNERS && w.pc.Assigning? && w.pc.runner < RUNNERS
    ensures choice.None? ==>
      var r := w.pc.runner;
      && w' == w.(retired := w'.retired, instances := w'.instances, pc := Assigning(r + 1))
      && (w'.retired == w.retired || (r > 0 && w'.retired == w.retired[r := true]))
    ensures choice.Some? ==>
      var r := w.pc.runner;
      && w' == Start(w, r, choice.value).(instances := w'.instances, pc := Assigning(r + 1))
      && !w.occupied[r] && w.pending[r] < 2 && !w.retired[r] && (r > 0 ==> w.finish.None?)
    ensures forall q :: 0 <= q < RUNNERS && q != w.pc.runner ==> w'.instances[q] == w.instances[q]
    ensures var r := w.pc.runner; w.instances[r] != "" ==> w'.instances[r] == w.instances[r]
  {
  }

  lemma PhaseAssign(job: Job, w: World, w': World, status: Option<Message>, now: int, choice: Option<string>)
    requires ValidJob(job) && Inv(job, w) && AssignStep(job, w, w', status, now, choice)
    ensures Phase(job, w')
  {
    AssignFrame(job, w, w', status, now, choice);
    if w.pc.runner == 0 { CoordinatorTakesWork(job, w, w', status, now, choice); }
    if choice.Some? {
      SpreadStart(job.deps, w.status, choice.value);
      StartRuns(w.status, choice.value);
      hide ValidJob, AssignStep, Numbered, Marked, CountedExecs, Matched, Founded, Blamed, Attempts, Spread, HasStatus;
    } else {
      hide ValidJob, AssignStep, Numbered, Marked, CountedExecs, Matched, Founded, Blamed, Attempts, Spread, HasStatus;
    }
  }

  lemma SpreadStart(deps: map<string, set<string>>, s: map<string, Status>, d: string)
    requires Spread(deps, s)
    ensures Spread(deps, s[d := Running])
  {
  }

  lemma StartRuns(s: map<string, Status>, d: string)
    ensures HasStatus(s[d := Running], Running)
  {
    assert s[d := Running][d] == Running;
  }

  /** A turn that starts nothing. */
  lemma InvIdle(job: Job, w: World, w': World)
    requires Inv(job, w) && w.pc.Assigning? && w.pc.runner < RUNNERS && Phase(job, w')
    requires w' == w.(retired := w'.retired, instances := w'.instances, pc := w'.pc)
             && |w'.retired| == |w'.instances| == RUNNERS
    requires w'.retired == w.retired
             || (w.pc.runner > 0 && w'.retired == w.retired[w.pc.runner := true] && w.pending[w.pc.runner] < 2)
    ensures Inv(job, w')
  {
    hide Numbered, Marked, CountedExecs, Matched, Founded, Blamed, Tried, Placed, Phase;
  }

  lemma IdleFrame(job: Job, w: World, w': World, status: Option<Message>, now: int)
    requires AssignStep(job, w, w', status, now, None)
    ensures w.pc.Assigning? && w.pc.runner < RUNNERS && |w'.retired| == |w'.instances| == RUNNERS
    ensures w' == w.(retired := w'.retired, instances := w'.instances, pc := w'.pc)
    ensures w'.retired == w.retired
            || (w.pc.runner > 0 && w'.retired == w.retired[w.pc.runner := true] && w.pending[w.pc.runner] < 2)
  {
  }

  lemma InvAssign(job: Job, w: World, w': World, status: Option<Message>, now: int, choice: Option<string>)
    requires ValidJob(job) && Inv(job, w) && AssignStep(job, w, w', status, now, choice)
    ensures Inv(job, w')
  {
    PhaseAssign(job, w, w', status, now, choice);
    if choice.Some? {
      AssignFrame(job, w, w', status, now, choice);
      ChosenReady(job, w, w', status, now, choice.value);
      hide Inv, AssignStep, ValidJob, Phase;
      InvStarted(job, w, w', choice.value);
    } else {
      hide Inv, AssignStep, ValidJob, Phase;
      IdleFrame(job, w, w', status, now);
      InvIdle(job, w, w');
    }
  }

  lemma InvStarted(job: Job, w: World, w': World, d: string)
    requires Inv(job, w) && w.pc.Assigning? && w.pc.runner < RUNNERS
    requires w' == Start(w, w.pc.runner, d).(instances := w'.instances, pc := Assigning(w.pc.runner + 1))
             && |w'.instances| == RUNNERS
    requires var r := w.pc.runner;
      !w.occupied[r] && w.pending[r] < 2 && !w.retired[r] && (r > 0 ==> w.finish.None? && d !in w.retryLocal)
    requires Phase(job, w') && Ready(job, w.status, d)
    ensures Inv(job, w')
  {
    hide Numbered, Marked, CountedExecs, Matched, Founded, Phase, Tried, Placed, Struck, Blamed;
    BlamedStart(job.deps, w.status, d, w.localFailed, w.failure);
    FoundedStart(job, w.status, d);
    InvStart(job, w, w.pc.runner, d);
  }

  lemma BlamedStart(deps: map<string, set<string>>, s: map<string, Status>, d: string, localFailed: set<string>,
                    failure: bool)
    requires Blamed(deps, s, localFailed, failure) && d in s && s[d] == Unassigned
    ensures Blamed(deps, s[d := Running], localFailed, failure)
  {
    var u := s[d := Running];
    forall x {:trigger FailedNeed(deps, u, x)} | x in u && u[x] == Failed && x !in localFailed
      ensures FailedNeed(deps, u, x)
    {
      assert FailedNeed(deps, s, x);
      var e :| e in Needs(deps, x) && e in s && s[e] == Failed;
      assert u[e] == Failed;
    }
  }

  lemma InvClose(job: Job, w: World, w': World)
    requires ValidJob(job) && Inv(job, w) && Next(job, w, Close, w')
    ensures Inv(job, w')
  {
    hide Numbered, Marked, CountedExecs, Matched, Founded, Blamed, ValidJob, Spread, Tried, Placed, Struck, HasStatus;
  }

  lemma InvRelease(job: Job, w: World, w': World, e: Exec)
    requires ValidJob(job) && Inv(job, w) && Next(job, w, Release(e), w')
    ensures Inv(job, w')
  {
    hide Marked, CountedExecs, Matched, Founded, Blamed, ValidJob, Spread, Tried, Struck, HasStatus;
    ReleaseNumbered(w.live, w.sequences, e);
    LeaveMarked(w.live, w.sequences, w.occupied, e, w'.live);
    ReleaseCounted(w.live, w.pending, e);
    ReleaseMatched(w.live, w.status, e);
  }

  lemma FoundedComplete(deps: map<string, set<string>>, s: map<string, Status>, d: string, t: Status)
    requires Founded(deps, s) && d in s && s[d] == Running && t != Running
    ensures Founded(deps, s[d := t])
  {
  }

  lemma BlamedComplete(deps: map<string, set<string>>, s: map<string, Status>, d: string, t: Status,
                       localFailed: set<string>, failure: bool)
    requires Blamed(deps, s, localFailed, failure) && d in s && s[d] == Running && t != Running
    ensures t != Failed ==> Blamed(deps, s[d := t], localFailed, failure)
    ensures t == Failed ==> Blamed(deps, s[d := t], localFailed + {d}, true)
  {
    var u := s[d := t];
    assert d !in localFailed;
    forall x {:trigger FailedNeed(deps, u, x)} | x in u && u[x] == Failed && x != d
      ensures x in localFailed || FailedNeed(deps, u, x)
    {
      if x !in localFailed {
        assert FailedNeed(deps, s, x);
        var e :| e in Needs(deps, x) && e in s && s[e] == Failed;
        assert u[e] == Failed;
      }
    }
  }

  /** The parts of the invariant that only speak of executions. */
  lemma CompleteExecs(job: Job, w: World, e: Exec, t: Status)
    requires Inv(job, w) && e in w.live && e.runner < RUNNERS && t != Running
    ensures Numbered(w.live - {e}, w.sequences) && Marked(w.live - {e}, w.sequences, Freed(w, e))
    ensures CountedExecs(w.live - {e}, w.pending[e.runner := w.pending[e.runner] - 1])
            && Matched(w.live - {e}, w.status[e.drv := t])
    ensures e.drv in w.status && w.status[e.drv] == Running
  {
    hide Marked, CountedExecs, Founded, Blamed, Spread, Tried, Placed, Struck, HasStatus, Phase, Frozen;
    LeaveMarked(w.live, w.sequences, w.occupied, e, w.live - {e});
    CompleteCounted(w.live, w.pending, e);
    CompleteMatched(w.live, w.status, e, t);
  }

  lemma CompleteBlame(job: Job, w: World, e: Exec, t: Status)
    requires Inv(job, w) && e.drv in w.status && w.status[e.drv] == Running && t != Running
    ensures Founded(job.deps, w.status[e.drv := t])
    ensures t != Failed ==> Blamed(job.deps, w.status[e.drv := t], w.localFailed, w.failure)
    ensures t == Failed ==> Blamed(job.deps, w.status[e.drv := t], w.localFailed + {e.drv}, true)
  {
    hide Numbered, Marked, CountedExecs, Matched, Attempts, Frozen, Phase, Founded, Blamed;
    FoundedComplete(job.deps, w.status, e.drv, t);
    BlamedComplete(job.deps, w.status, e.drv, t, w.localFailed, w.failure);
  }

  lemma CompleteParts(job: Job, w: World, e: Exec)
    requires Inv(job, w) && e in w.live && e.runner < RUNNERS
    ensures Shape(w) && Attempts(w) && Matched(w.live, w.status) && CountedExecs(w.live, w.pending)
    ensures w.status.Keys == job.specs && Frozen(w)
  {
  }

  function ResultOf(e: Exec, result: Built): Status
    requires result != Unpublished
  {
    if result == Bad && e.runner > 0 then Unassigned else if result == Good then Done else Failed
  }

  lemma ResultFields(job: Job, w: World, e: Exec, result: Built)
    requires Shape(w) && e.runner < RUNNERS && result != Unpublished
    ensures
      var (v, t) := (AfterComplete(job, w, e, result), ResultOf(e, result));
      && v.pc == Propagating && v.occupied == Freed(w, e) && v.live == w.live - {e} && v.status == w.status[e.drv := t]
      && v.pending == w.pending[e.runner := w.pending[e.runner] - 1] && v.sequences == w.sequences
      && v.finish == w.finish
      && v.localFailed == (if t == Failed then w.localFailed + {e.drv} else w.localFailed)
      && v.failure == (t == Failed || w.failure)
  {
    hide Freed;
  }

  lemma SpreadOnly(job: Job, v: World)
    requires v.pc == Propagating
    ensures Phase(job, v)
  {
  }

  lemma InvAssembled(job: Job, v: World)
    requires Shape(v) && v.status.Keys == job.specs
    requires Numbered(v.live, v.sequences) && Marked(v.live, v.sequences, v.occupied) && CountedExecs(v.live, v.pending)
    requires Matched(v.live, v.status) && Founded(job.deps, v.status)
    requires Blamed(job.deps, v.status, v.localFailed, v.failure) && Attempts(v) && Frozen(v) && Phase(job, v)
    ensures Inv(job, v)
  {
  }

  lemma FrozenSame(w: World, v: World)
    requires Shape(w) && Shape(v) && Frozen(w) && v.finish == w.finish && v.sequences == w.sequences
    ensures Frozen(v)
  {
  }

  lemma InvResult(job: Job, w: World, e: Exec, result: Built)
    requires Inv(job, w) && w.pc == Waiting && e in w.live && e.runner < RUNNERS && result != Unpublished
    ensures Inv(job, AfterComplete(job, w, e, result))
  {
    CompleteParts(job, w, e);
    var t := ResultOf(e, result);
    assert t != Running;
    var v := AfterComplete(job, w, e, result);
    ResultFields(job, w, e, result);
    hide *;
    CompleteExecs(job, w, e, t);
    CompleteBlame(job, w, e, t);
    CompleteAttempts(job, w, e, result);
    SpreadOnly(job, v);
    FrozenSame(w, v);
    InvAssembled(job, v);
  }

  lemma InvLost(job: Job, w: World, e: Exec)
    requires Inv(job, w) && w.pc == Waiting && e in w.live && e.runner < RUNNERS
    ensures Inv(job, AfterComplete(job, w, e, Unpublished))
  {
    hide Numbered, Marked, CountedExecs, Matched, Founded, Blamed, Tried, Placed, Struck, Spread, HasStatus;
  }

  lemma InvComplete(job: Job, w: World, w': World, e: Exec, result: Built)
    requires Inv(job, w) && Next(job, w, Complete(e, result), w')
    ensures Inv(job, w')
  {
    if result == Unpublished { InvLost(job, w, e); } else { InvResult(job, w, e, result); }
    hide Inv, AfterComplete;
  }

  lemma InvTick(job: Job, w: World, w': World, step: Step)
    requires Inv(job, w) && Next(job, w, step, w') && (step.Tick? || step.Cancel?)
    ensures Inv(job, w')
  {
    hide Numbered, Marked, CountedExecs, Matched, Founded, Blamed, Tried, Placed, Struck, Spread, HasStatus;
  }

  lemma InvNext(job: Job, w: World, step: Step, w': World)
    requires ValidJob(job) && Inv(job, w) && Next(job, w, step, w')
    ensures Inv(job, w')
  {
    match step {
      case Propagate => InvPropagate(job, w, w');
      case Assign(status, now, choice) => InvAssign(job, w, w', status, now, choice);
      case Close => InvClose(job, w, w');
      case Release(e) => InvRelease(job, w, w', e);
      case Complete(e, result) => InvComplete(job, w, w', e, result);
      case _ => InvTick(job, w, w', step);
    }
    hide *;
  }

  /** Every state of every run satisfies the invariant. */
  lemma {:induction false} InvRun(job: Job, ws: seq<World>, steps: seq<Step>, i: nat)
    requires ValidJob(job) && Run(job, ws, steps) && i < |ws|
    ensures Inv(job, ws[i])
  {
    if i == 0 {
      InvInit(job);
    } else {
      InvRun(job, ws, steps, i - 1);
      InvNext(job, ws[i - 1], steps[i - 1], ws[i]);
    }
  }
}

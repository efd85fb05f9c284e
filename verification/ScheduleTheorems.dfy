/** The scheduler's promises, for every job and every run. */
module ScheduleTheorems {
  import opened Names
  import opened Graph
  import opened Messages
  import opened Schedule
  import opened ScheduleSafety
  import opened ScheduleRuns

  // ---- order and permanence

  lemma {:induction false} FoundedReaches(deps: map<string, set<string>>, status: map<string, Status>, p: seq<string>)
    requires Founded(deps, status) && Walk(deps, p) && |p| >= 2
    requires p[0] in status && (status[p[0]] == Running || status[p[0]] == Done)
    ensures p[|p| - 1] in status && status[p[|p| - 1]] == Done
    decreases |p|
  {
    assert p[1] in Needs(deps, p[0]);
    if |p| > 2 { FoundedReaches(deps, status, p[1..]); }
  }

  /** A derivation that has started has every scheduled derivation reachable from it in the whole graph done,
      however many cached derivations lie in between. */
  lemma StartedAfterInputs(job: Job, ws: seq<World>, steps: seq<Step>, i: nat, d: string, e: string)
    requires ValidJob(job) && Run(job, ws, steps) && i < |ws|
    requires d in ws[i].status && (ws[i].status[d] == Running || ws[i].status[d] == Done)
    requires e in job.specs && Reaches(InputMap(job.graph), d, e)
    ensures e in ws[i].status && ws[i].status[e] == Done
  {
    InvRun(job, ws, steps, i);
    DependenciesPreserveReach(job.graph, job.specs, job.deps, d, e);
    var p :| WalkFromTo(job.deps, p, d, e);
    FoundedReaches(job.deps, ws[i].status, p);
  }

  ghost predicate Settled(status: map<string, Status>, d: string) {
    d in status && (status[d] == Done || status[d] == Failed)
  }

  lemma SettledPropagate(job: Job, w: World, w': World, d: string)
    requires Next(job, w, Propagate, w') && Settled(w.status, d)
    ensures d in w'.status && w'.status[d] == w.status[d]
  {
    hide Doomed;
  }

  lemma SettledAssign(job: Job, w: World, w': World, status: Option<Message>, now: int, choice: Option<string>,
                      d: string)
    requires ValidJob(job) && Inv(job, w) && AssignStep(job, w, w', status, now, choice) && Settled(w.status, d)
    ensures d in w'.status && w'.status[d] == w.status[d]
  {
    hide AssignStep, Inv, ValidJob, Taken;
    AssignFrame(job, w, w', status, now, choice);
    if choice.Some? { ChosenReady(job, w, w', status, now, choice.value); }
  }

  lemma LiveIsRunning(job: Job, w: World, e: Exec)
    requires Inv(job, w) && e in w.live
    ensures Shape(w) && e.drv in w.status && w.status[e.drv] == Running
  {
  }

  lemma SettledComplete(job: Job, w: World, e: Exec, result: Built, d: string)
    requires Inv(job, w) && e in w.live && e.runner < RUNNERS && Settled(w.status, d)
    ensures Shape(w) && d in AfterComplete(job, w, e, result).status
            && AfterComplete(job, w, e, result).status[d] == w.status[d]
  {
    LiveIsRunning(job, w, e);
    if result != Unpublished { ResultFields(job, w, e, result); }
    hide Inv;
  }

  lemma PlainStatus(job: Job, w: World, step: Step, w': World)
    requires Next(job, w, step, w') && (step.Release? || step.Close? || step.Tick? || step.Cancel?)
    ensures w'.status == w.status
  {
    hide HasStatus;
  }

  lemma SettledStays(job: Job, w: World, step: Step, w': World, d: string)
    requires ValidJob(job) && Inv(job, w) && Next(job, w, step, w') && Settled(w.status, d)
    ensures d in w'.status && w'.status[d] == w.status[d]
  {
    hide Inv, ValidJob, Settled, AssignStep, AfterClose, AfterRelease, AfterComplete, Propagated;
    match step {
      case Propagate => SettledPropagate(job, w, w', d);
      case Assign(status, now, choice) => SettledAssign(job, w, w', status, now, choice, d);
      case Complete(e, result) => SettledComplete(job, w, e, result, d);
      case _ =>
        PlainStatus(job, w, step, w');
        SettledKnown(w.status, d);
    }
  }

  lemma SettledKnown(status: map<string, Status>, d: string)
    requires Settled(status, d)
    ensures d in status
  {
  }

  /** Done and failed are final. */
  lemma {:induction false} SettledForever(job: Job, ws: seq<World>, steps: seq<Step>, i: nat, j: nat, d: string)
    requires ValidJob(job) && Run(job, ws, steps) && i <= j < |ws|
    requires d in ws[i].status && (ws[i].status[d] == Done || ws[i].status[d] == Failed)
    ensures d in ws[j].status && ws[j].status[d] == ws[i].status[d]
  {
    hide Inv, Next, ValidJob;
    if i < j {
      SettledForever(job, ws, steps, i, j - 1, d);
      InvRun(job, ws, steps, j - 1);
      SettledStays(job, ws[j - 1], steps[j - 1], ws[j], d);
    }
  }

  // ---- one attempt per place, two executions per runner

  predicate Starts(w: World, step: Step, d: string, helper: bool) {
    step.Assign? && step.choice == Some(d) && w.pc.Assigning? && (helper <==> w.pc.runner > 0)
  }

  lemma TriedGrows(job: Job, w: World, step: Step, w': World)
    requires Next(job, w, step, w')
    ensures w.helperTried <= w'.helperTried && w.localTried <= w'.localTried
  {
    match step
    case Assign(status, now, choice) => AssignFrame(job, w, w', status, now, choice);
    case _ =>
  }

  lemma {:induction false} TriedForever(job: Job, ws: seq<World>, steps: seq<Step>, i: nat, j: nat)
    requires Run(job, ws, steps) && i <= j < |ws|
    ensures ws[i].helperTried <= ws[j].helperTried && ws[i].localTried <= ws[j].localTried
  {
    if i < j {
      TriedForever(job, ws, steps, i, j - 1);
      TriedGrows(job, ws[j - 1], steps[j - 1], ws[j]);
    }
  }

  lemma StartedIsTried(job: Job, w: World, step: Step, w': World, d: string, helper: bool)
    requires Next(job, w, step, w') && Starts(w, step, d, helper)
    ensures if helper then d in w'.helperTried else d in w'.localTried
  {
    AssignFrame(job, w, w', step.status, step.now, step.choice);
    hide AssignStep;
  }

  lemma TriedNotStarted(job: Job, w: World, step: Step, w': World, d: string, helper: bool)
    requires ValidJob(job) && Inv(job, w) && Next(job, w, step, w') && Starts(w, step, d, helper)
    ensures if helper then d !in w.helperTried else d !in w.localTried
  {
    ChosenReady(job, w, w', step.status, step.now, d);
    hide Numbered, Marked, CountedExecs, Founded, Blamed, Frozen, Phase, ValidJob, Taken, Struck, Placed, AssignStep;
  }

  lemma NotAgain(job: Job, ws: seq<World>, steps: seq<Step>, i: nat, j: nat, d: string, helper: bool)
    requires ValidJob(job) && Run(job, ws, steps) && i < j < |steps|
    requires Starts(ws[i], steps[i], d, helper)
    ensures !Starts(ws[j], steps[j], d, helper)
  {
    hide Inv, Next, ValidJob;
    InvRun(job, ws, steps, j);
    StartedIsTried(job, ws[i], steps[i], ws[i + 1], d, helper);
    TriedForever(job, ws, steps, i + 1, j);
    if Starts(ws[j], steps[j], d, helper) {
      TriedNotStarted(job, ws[j], steps[j], ws[j + 1], d, helper);
    }
  }

  /** In one run a derivation starts at most once on a helper and at most once on the coordinator. */
  lemma OneAttemptEach(job: Job, ws: seq<World>, steps: seq<Step>, i: nat, j: nat, d: string, helper: bool)
    requires ValidJob(job) && Run(job, ws, steps) && i < |steps| && j < |steps|
    requires Starts(ws[i], steps[i], d, helper) && Starts(ws[j], steps[j], d, helper)
    ensures i == j
  {
    if i < j { NotAgain(job, ws, steps, i, j, d, helper); }
    if j < i { NotAgain(job, ws, steps, j, i, d, helper); }
  }

  /** Each runner has at most two executions in flight, `pending` counts them, and at most one of them is unreleased. */
  lemma TwoInFlight(job: Job, ws: seq<World>, steps: seq<Step>, i: nat, r: nat, e: Exec, f: Exec)
    requires ValidJob(job) && Run(job, ws, steps) && i < |ws| && r < RUNNERS
    ensures Shape(ws[i]) && ws[i].pending[r] == |LiveOf(ws[i].live, r)| <= 2
    ensures e in ws[i].live && f in ws[i].live && e.runner == f.runner == r && !e.released && !f.released ==> e == f
    ensures e in ws[i].live && e.runner == r && !e.released ==> ws[i].occupied[r] && e.sequence == ws[i].sequences[r]
  {
    InvRun(job, ws, steps, i);
    var w := ws[i];
    if e in w.live && e.runner == r && !e.released {
      assert e.sequence == w.sequences[r];
      assert Holds(w.live, w.sequences, e, r);
    }
  }

  /** An event of an older execution never frees the current build's runner. */
  lemma OlderEventKeepsRunner(job: Job, ws: seq<World>, steps: seq<Step>, i: nat, e: Exec, current: Exec)
    requires ValidJob(job) && Run(job, ws, steps) && i < |steps|
    requires steps[i] == Release(e) || (steps[i].Complete? && steps[i].exec == e)
    requires current in ws[i].live && current.runner == e.runner < RUNNERS && !current.released && current != e
    ensures Shape(ws[i + 1]) && ws[i + 1].occupied[e.runner] && current in ws[i + 1].live
  {
    InvRun(job, ws, steps, i);
    hide Inv, ValidJob, Init;
    OlderEventStep(job, ws[i], steps[i], ws[i + 1], e, current);
  }

  lemma OlderEventStep(job: Job, w: World, step: Step, w': World, e: Exec, current: Exec)
    requires Inv(job, w) && Next(job, w, step, w') && (step == Release(e) || (step.Complete? && step.exec == e))
    requires current in w.live && current.runner == e.runner < RUNNERS && !current.released && current != e
    ensures Shape(w') && w'.occupied[e.runner] && current in w'.live
  {
    hide Numbered, Marked, CountedExecs, Founded, Blamed, Attempts, Frozen, Phase, Matched;
    NewestHolds(w, e, current);
    hide Inv, AssignStep, Propagated, AfterClose;
  }

  lemma NewestHolds(w: World, e: Exec, current: Exec)
    requires Shape(w) && Numbered(w.live, w.sequences) && Marked(w.live, w.sequences, w.occupied)
    requires e in w.live && current in w.live && current.runner == e.runner < RUNNERS && !current.released
             && current != e
    ensures w.occupied[e.runner] && e.sequence != w.sequences[e.runner]
  {
    assert Holds(w.live, w.sequences, current, e.runner);
  }

  lemma StartsBounded(job: Job, ws: seq<World>, steps: seq<Step>, i: nat)
    requires ValidJob(job) && Run(job, ws, steps) && i < |ws|
    ensures ws[i].started <= |job.specs| + 2 * (RUNNERS - 1)
  {
    InvRun(job, ws, steps, i);
    AttemptsBounded(ws[i]);
    assert |ws[i].status| == |ws[i].status.Keys|;
  }

  // ---- progress and termination

  /** Whenever the loop waits, some execution is in flight whose completion it can consume. */
  lemma NeverStuck(job: Job, ws: seq<World>, steps: seq<Step>, i: nat) returns (e: Exec)
    requires ValidJob(job) && Run(job, ws, steps) && i < |ws| && ws[i].pc == Waiting
    ensures e in ws[i].live && Shape(ws[i]) && e.runner < RUNNERS
    ensures Next(job, ws[i], Complete(e, Good), AfterComplete(job, ws[i], e, Good))
  {
    InvRun(job, ws, steps, i);
    var w := ws[i];
    assert HasStatus(w.status, Running);
    var d :| d in w.status && w.status[d] == Running;
    e :| e in w.live && e.drv == d;
  }

  function Unreleased(live: set<Exec>): set<Exec> { set e | e in live && !e.released }

  /** Bounds the assignments and events still to come. */
  function Budget(job: Job, w: World): int {
    3 * (|job.specs| + 2 * (RUNNERS - 1) - w.started) + |w.live| + |Unreleased(w.live)|
  }

  predicate Works(step: Step) { (step.Assign? && step.choice.Some?) || step.Release? || step.Complete? }

  lemma StartBudget(live: set<Exec>, e: Exec)
    requires e !in live
    ensures |live + {e}| == |live| + 1
    ensures |Unreleased(live + {e})| == |Unreleased(live)| + if e.released then 0 else 1
  {
    assert Unreleased(live + {e}) == Unreleased(live) + if e.released then {} else {e};
  }

  lemma DropBudget(live: set<Exec>, e: Exec)
    requires e in live
    ensures |live - {e}| == |live| - 1
    ensures |Unreleased(live - {e})| == |Unreleased(live)| - if e.released then 0 else 1
  {
    StartBudget(live - {e}, e);
    assert live - {e} + {e} == live;
  }

  lemma BudgetAssign(job: Job, w: World, w': World, status: Option<Message>, now: int, choice: Option<string>)
    requires Inv(job, w) && AssignStep(job, w, w', status, now, choice)
    ensures if choice.Some? then Budget(job, w') == Budget(job, w) - 1 else Budget(job, w') == Budget(job, w)
  {
    AssignFrame(job, w, w', status, now, choice);
    hide CountedExecs, Founded, Blamed, Attempts, Frozen, Phase, Matched, AssignStep;
    if choice.Some? {
      StartNumbered(w.live, w.sequences, w.occupied, w.pc.runner, choice.value);
      StartBudget(w.live, Exec(w.pc.runner, w.sequences[w.pc.runner] + 1, choice.value, false));
    }
    hide Numbered, Marked, Unreleased;
  }

  lemma BudgetRelease(job: Job, w: World, e: Exec)
    requires Inv(job, w) && e in w.live && e.runner < RUNNERS && !e.released
    ensures Budget(job, AfterRelease(w, e)) == Budget(job, w) - 1
  {
    hide CountedExecs, Founded, Blamed, Attempts, Frozen, Phase, Matched;
    ReleaseNumbered(w.live, w.sequences, e);
    DropBudget(w.live, e);
    StartBudget(w.live - {e}, e.(released := true));
  }

  lemma BudgetFalls(job: Job, w: World, step: Step, w': World)
    requires Inv(job, w) && Next(job, w, step, w') && !w'.pc.Returned?
    ensures if Works(step) then Budget(job, w') < Budget(job, w) else Budget(job, w') == Budget(job, w)
  {
    hide Numbered, CountedExecs, Marked, Founded, Blamed, Attempts, Frozen, Phase, Matched;
    match step {
      case Assign(status, now, choice) => BudgetAssign(job, w, w', status, now, choice);
      case Release(e) => BudgetRelease(job, w, e);
      case Complete(e, result) => DropBudget(w.live, e);
      case _ =>
    }
    hide Inv, AssignStep, Unreleased, AfterRelease, Propagated;
  }

  function Count(steps: seq<Step>): nat {
    if steps == [] then 0 else Count(steps[..|steps| - 1]) + if Works(steps[|steps| - 1]) then 1 else 0
  }

  lemma NotReturned(job: Job, w: World, step: Step, w': World)
    requires Next(job, w, step, w')
    ensures !w.pc.Returned?
  {
  }

  lemma RunPrefix(job: Job, ws: seq<World>, steps: seq<Step>)
    requires Run(job, ws, steps) && steps != []
    ensures Run(job, ws[..|steps|], steps[..|steps| - 1])
  {
    hide Next, Init;
    var (us, ts) := (ws[..|steps|], steps[..|steps| - 1]);
    forall i | 0 <= i < |ts|
      ensures Next(job, us[i], ts[i], us[i + 1])
    {
      assert ts[i] == steps[i] && us[i] == ws[i] && us[i + 1] == ws[i + 1];
    }
  }

  /** What a run has spent and what it still has. */
  lemma {:induction false} WorkSpent(job: Job, ws: seq<World>, steps: seq<Step>)
    requires ValidJob(job) && Run(job, ws, steps) && !ws[|ws| - 1].pc.Returned?
    ensures Count(steps) + Budget(job, ws[|ws| - 1]) <= Budget(job, Init(job))
    decreases |steps|
  {
    if steps != [] {
      var k := |steps| - 1;
      LastStep(job, ws, steps);
      hide *;
      WorkSpent(job, ws[..k + 1], steps[..k]);
      InvRun(job, ws, steps, k);
      BudgetFalls(job, ws[k], steps[k], ws[k + 1]);
      CountLast(steps);
    }
  }

  /** A run without its last step is a run that has not returned. */
  lemma LastStep(job: Job, ws: seq<World>, steps: seq<Step>)
    requires Run(job, ws, steps) && steps != []
    ensures Run(job, ws[..|steps|], steps[..|steps| - 1]) && !ws[|steps| - 1].pc.Returned?
    ensures |ws| == |steps| + 1 && Next(job, ws[|steps| - 1], steps[|steps| - 1], ws[|steps|])
  {
    RunPrefix(job, ws, steps);
    NotReturned(job, ws[|steps| - 1], steps[|steps| - 1], ws[|steps|]);
  }

  lemma CountLast(steps: seq<Step>)
    requires steps != []
    ensures Count(steps) == Count(steps[..|steps| - 1]) + if Works(steps[|steps| - 1]) then 1 else 0
  {
  }

  lemma BudgetLeft(job: Job, ws: seq<World>, steps: seq<Step>, i: nat)
    requires ValidJob(job) && Run(job, ws, steps) && i < |ws|
    ensures Budget(job, ws[i]) >= |ws[i].live|
    ensures Budget(job, Init(job)) == 3 * (|job.specs| + 2 * (RUNNERS - 1))
  {
    StartsBounded(job, ws, steps, i);
    hide Run, ValidJob;
    assert Unreleased({}) == {};
  }

  /** A step that works needs an execution: one that is started or one whose event is taken. */
  lemma WorkNeedsBudget(job: Job, w: World, step: Step, w': World)
    requires Inv(job, w) && Next(job, w, step, w') && Works(step) && w'.pc.Returned?
    ensures w.live != {}
  {
    hide Inv, AssignStep;
    if step.Assign? { AssignReturns(job, w, step, w'); }
  }

  lemma AssignReturns(job: Job, w: World, step: Step, w': World)
    requires Next(job, w, step, w') && step.Assign?
    ensures !w'.pc.Returned?
  {
    AssignFrame(job, w, w', step.status, step.now, step.choice);
    hide AssignStep;
  }

  lemma WorkBoundedLast(job: Job, ws: seq<World>, steps: seq<Step>)
    requires ValidJob(job) && Run(job, ws, steps) && steps != [] && |ws| == |steps| + 1 && ws[|steps|].pc.Returned?
    ensures Count(steps) <= 3 * (|job.specs| + 2 * (RUNNERS - 1))
  {
    hide *;
    var k := |steps| - 1;
    LastStep(job, ws, steps);
    WorkSpent(job, ws[..k + 1], steps[..k]);
    BudgetLeft(job, ws, steps, k);
    InvRun(job, ws, steps, k);
    CountLast(steps);
    if Works(steps[k]) {
      WorkNeedsBudget(job, ws[k], steps[k], ws[k + 1]);
      LiveCount(ws[k].live);
    }
  }

  lemma LiveCount(live: set<Exec>)
    ensures live != {} ==> |live| > 0
  {
  }

  /** No run makes more assignments and consumes more events than this, returned or not. */
  lemma WorkBounded(job: Job, ws: seq<World>, steps: seq<Step>)
    requires ValidJob(job) && Run(job, ws, steps)
    ensures Count(steps) <= 3 * (|job.specs| + 2 * (RUNNERS - 1))
  {
    if steps == [] { return; }
    hide *;
    RunLength(job, ws, steps);
    if ws[|steps|].pc.Returned? {
      WorkBoundedLast(job, ws, steps);
    } else {
      WorkSpent(job, ws, steps);
      BudgetLeft(job, ws, steps, |steps|);
    }
  }

  // ---- the final answer

  lemma RankOf(job: Job) returns (rank: map<string, nat>)
    requires ValidJob(job)
    ensures Ranked(job.deps, rank)
  {
    rank :| Ranked(job.deps, rank);
  }

  /** On normal return everything is done or failed, a derivation failed exactly if it or something it needs failed on
      the coordinator, and the call succeeds exactly if everything is done. */
  lemma FinalAnswer(job: Job, ws: seq<World>, steps: seq<Step>, i: nat)
    requires ValidJob(job) && Run(job, ws, steps) && i < |ws|
    requires ws[i].pc.Returned? && ws[i].pc.outcome.Finished?
    ensures ws[i].status.Keys == job.specs && ws[i].localFailed <= job.specs
    ensures forall d :: d in job.specs ==> ws[i].status[d] == Done || ws[i].status[d] == Failed
    ensures forall d :: d in job.specs ==>
      (ws[i].status[d] == Failed
       <==> exists f :: f in ws[i].localFailed && (f == d || Reaches(InputMap(job.graph), d, f)))
    ensures !ws[i].pc.outcome.failed <==> forall d :: d in job.specs ==> ws[i].status[d] == Done
  {
    hide *;
    InvRun(job, ws, steps, i);
    var rank := RankOf(job);
    AllSettled(job, ws[i]);
    Verdict(job, ws[i], rank);
    forall d | d in job.specs
      ensures ws[i].status[d] == Failed
              <==> exists f :: f in ws[i].localFailed && (f == d || Reaches(InputMap(job.graph), d, f))
    {
      FailureCause(job, ws[i], rank, d);
    }
  }

  lemma AllSettled(job: Job, w: World)
    requires Inv(job, w) && w.pc.Returned? && w.pc.outcome.Finished?
    ensures w.status.Keys == job.specs && w.localFailed <= job.specs
    ensures forall d :: d in job.specs ==> w.status[d] == Done || w.status[d] == Failed
  {
    hide Numbered, Marked, CountedExecs, Matched, Founded, Attempts, Frozen, Spread;
    forall d | d in job.specs
      ensures w.status[d] == Done || w.status[d] == Failed
    {
      assert w.status[d] != Unassigned && w.status[d] != Running;
    }
  }

  lemma Verdict(job: Job, w: World, rank: map<string, nat>)
    requires Inv(job, w) && Ranked(job.deps, rank) && w.pc.Returned? && w.pc.outcome.Finished?
    requires forall d :: d in job.specs ==> w.status[d] == Done || w.status[d] == Failed
    ensures !w.pc.outcome.failed <==> forall d :: d in job.specs ==> w.status[d] == Done
  {
    hide Numbered, Marked, CountedExecs, Matched, Founded, Attempts, Frozen, Spread, HasStatus;
    if w.pc.outcome.failed {
      var f :| f in w.localFailed;
      assert w.status[f] == Failed;
    } else {
      forall d | d in job.specs
        ensures w.status[d] == Done
      {
        if w.status[d] == Failed { FailureHasCause(job.deps, rank, w.status, w.localFailed, w.failure, d); }
      }
    }
  }

  lemma FailureCause(job: Job, w: World, rank: map<string, nat>, d: string)
    requires ValidJob(job) && Inv(job, w) && Ranked(job.deps, rank) && w.pc.Returned? && w.pc.outcome.Finished?
             && d in job.specs
    ensures w.status[d] == Failed <==> exists f :: f in w.localFailed && (f == d || Reaches(InputMap(job.graph), d, f))
  {
    hide Numbered, Marked, CountedExecs, Attempts, Matched, Frozen;
    if w.status[d] == Failed {
      FailureHasCause(job.deps, rank, w.status, w.localFailed, w.failure, d);
      var f :| f in w.localFailed && (f == d || Reaches(job.deps, d, f));
      if f != d { DependenciesPreserveReach(job.graph, job.specs, job.deps, d, f); }
    }
    if f :| f in w.localFailed && (f == d || Reaches(InputMap(job.graph), d, f)) {
      if f != d {
        DependenciesPreserveReach(job.graph, job.specs, job.deps, d, f);
        hide IsDependencyMap;
        FailureSpreads(job, w, d, f);
      }
    }
  }

  lemma FailureSpreads(job: Job, w: World, d: string, f: string)
    requires ValidJob(job) && Inv(job, w) && w.pc.Returned? && w.pc.outcome.Finished?
    requires d in job.specs && f in w.localFailed && Reaches(job.deps, d, f)
    ensures w.status[d] == Failed
  {
    hide Numbered, Marked, CountedExecs, Attempts, Matched, Frozen, ValidJob;
    var p :| WalkFromTo(job.deps, p, d, f);
    forall x | x in w.status
      ensures Needs(job.deps, x) <= w.status.Keys && (w.status[x] == Done || w.status[x] == Failed)
    {
      NeedsScheduled(job, x);
      assert w.status[x] != Unassigned && w.status[x] != Running;
    }
    CauseReachesAll(job.deps, w.status, p);
  }

  // ---- the finish vector

  lemma FinishStays(job: Job, w: World, step: Step, w': World)
    requires ValidJob(job) && Inv(job, w) && Next(job, w, step, w') && w.finish.Some?
    ensures w'.finish == w.finish
  {
    hide Inv, ValidJob, Taken, Propagated;
    match step {
      case Assign(status, now, choice) =>
        AssignFrame(job, w, w', status, now, choice);
        hide AssignStep;
      case _ =>
    }
  }

  lemma FrozenEntry(job: Job, w: World, r: nat)
    requires Inv(job, w) && w.finish.Some? && 1 <= r < RUNNERS
    ensures Shape(w) && |w.finish.value| == RUNNERS && w.sequences[r] == w.finish.value[r]
  {
  }

  lemma {:induction false} FinishKept(job: Job, ws: seq<World>, steps: seq<Step>, i: nat, j: nat)
    requires ValidJob(job) && Run(job, ws, steps) && i <= j < |ws| && ws[i].finish.Some?
    ensures ws[j].finish == ws[i].finish
    decreases j
  {
    hide *;
    RunLength(job, ws, steps);
    if i < j {
      FinishKept(job, ws, steps, i, j - 1);
      InvRun(job, ws, steps, j - 1);
      StepTaken(job, ws, steps, j - 1);
      FinishStays(job, ws[j - 1], steps[j - 1], ws[j]);
    }
  }

  lemma RunLength(job: Job, ws: seq<World>, steps: seq<Step>)
    requires Run(job, ws, steps)
    ensures |ws| == |steps| + 1
  {
  }

  lemma StepTaken(job: Job, ws: seq<World>, steps: seq<Step>, k: nat)
    requires Run(job, ws, steps) && k < |steps|
    ensures |ws| == |steps| + 1 && Next(job, ws[k], steps[k], ws[k + 1])
  {
    hide Next, Init;
  }

  /** After the finish vector is stored no helper gets another sequence number, even if a failure restores unassigned
      work. */
  lemma FinishFreezesHelpers(job: Job, ws: seq<World>, steps: seq<Step>, i: nat, j: nat, r: nat)
    requires ValidJob(job) && Run(job, ws, steps) && i <= j < |ws| && ws[i].finish.Some? && 1 <= r < RUNNERS
    ensures Shape(ws[i]) && Shape(ws[j]) && ws[j].finish == ws[i].finish && |ws[i].finish.value| == RUNNERS
    ensures ws[j].sequences[r] == ws[i].sequences[r] == ws[i].finish.value[r]
  {
    InvRun(job, ws, steps, i);
    InvRun(job, ws, steps, j);
    FinishKept(job, ws, steps, i, j);
    hide *;
    FrozenEntry(job, ws[i], r);
    FrozenEntry(job, ws[j], r);
  }
}

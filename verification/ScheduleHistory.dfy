/** The scheduler's tables as summaries of the past: what each of them holds is exactly what the steps so far put there
    (worker/scheduler.go:175-192, 245-292). */
module ScheduleHistory {
  import opened Names
  import opened Graph
  import opened Messages
  import opened Schedule
  import opened ScheduleRuns
  import opened ScheduleTheorems
  import opened ScheduleTurns

  // ---- steps that leave a trace

  /** An execution of a helper ends in failure. */
  predicate Fails(step: Step, r: nat) {
    step.Complete? && step.result == Bad && step.exec.runner == r
  }

  /** In the turn of a free helper that may still be given work, it has stayed away beyond the deadline. */
  predicate StaysAway(job: Job, w: World, step: Step, r: nat) {
    && step.Assign? && w.pc == Assigning(r) && Shape(w) && 1 <= r < RUNNERS && Free(w, r) && w.finish.None?
    && !Usable(job, step.status, step.now) && step.now > job.deadline
  }

  /** In its turn it shows another instance than the one that was recorded. */
  predicate ComesBack(job: Job, w: World, step: Step, r: nat) {
    && step.Assign? && w.pc == Assigning(r) && Shape(w) && 1 <= r < RUNNERS && Free(w, r) && w.finish.None?
    && Usable(job, step.status, step.now) && w.instances[r] != "" && step.status.value.instance != w.instances[r]
  }

  predicate Registers(job: Job, w: World, step: Step, r: nat) {
    && step.Assign? && w.pc == Assigning(r) && Shape(w) && 1 <= r < RUNNERS && Free(w, r)
    && Attends(job, w, r, step.status, step.now)
  }

  /** A result was accepted and published. */
  predicate Succeeds(step: Step, d: string) { step.Complete? && step.result == Good && step.exec.drv == d }

  /** After a success the runner has the derivation and its inputs in its store. */
  predicate Warms(job: Job, step: Step, r: nat, d: string) {
    && step.Complete? && step.result == Good && step.exec.runner == r
    && (d == step.exec.drv || d in Inputs(job.graph, step.exec.drv))
  }

  predicate TakenBack(step: Step, d: string) {
    step.Complete? && step.result == Bad && step.exec.runner > 0 && step.exec.drv == d
  }

  predicate FailsHere(step: Step, d: string) {
    step.Complete? && step.result == Bad && step.exec.runner == 0 && step.exec.drv == d
  }

  // ---- one step

  lemma RetiredStep(job: Job, w: World, step: Step, w': World, r: nat)
    requires Next(job, w, step, w') && 1 <= r < RUNNERS
    ensures Shape(w')
    ensures w'.retired[r]
            <==> w.retired[r] || Fails(step, r) || StaysAway(job, w, step, r) || ComesBack(job, w, step, r)
    ensures w'.instances[r] == if Registers(job, w, step, r) then step.status.value.instance else w.instances[r]
  {
    hide Usable, Taken, HasStatus, AssignStep, Attends, AfterComplete;
    match step {
      case Assign(status, now, choice) =>
        TurnRetires(job, w, w', status, now, choice);
        TurnStarts(job, w, w', status, now, choice);
      case Complete(e, result) => CompleteTables(job, w, e, result);
      case _ =>
    }
  }

  lemma CompleteTables(job: Job, w: World, e: Exec, result: Built)
    requires Shape(w) && e.runner < RUNNERS
    ensures
      var (v, r) := (AfterComplete(job, w, e, result), e.runner);
      && v.retired == (if result == Bad && r > 0 then w.retired[r := true] else w.retired)
      && v.instances == w.instances
      && v.retryLocal == w.retryLocal + (if result == Bad && r > 0 then {e.drv} else {})
      && v.localFailed == w.localFailed + (if result == Bad && r == 0 then {e.drv} else {})
      && v.locality == (if result == Good then w.locality[r := w.locality[r] + {e.drv} + Inputs(job.graph, e.drv)]
                        else w.locality)
  {
  }

  lemma TablesStep(job: Job, w: World, step: Step, w': World)
    requires Next(job, w, step, w')
    ensures Shape(w')
    ensures forall d :: d in w'.retryLocal <==> d in w.retryLocal || TakenBack(step, d)
    ensures forall d :: d in w'.localFailed <==> d in w.localFailed || FailsHere(step, d)
    ensures forall r, d :: 0 <= r < RUNNERS ==>
              (d in w'.locality[r] <==> d in w.locality[r] || Warms(job, step, r, d))
  {
    hide Usable, Taken, HasStatus, AssignStep, AfterComplete;
    match step {
      case Assign(status, now, choice) => TurnStarts(job, w, w', status, now, choice);
      case Complete(e, result) => CompleteTables(job, w, e, result);
      case _ =>
    }
  }

  lemma DoneStep(job: Job, w: World, step: Step, w': World, d: string)
    requires ValidJob(job) && Inv(job, w) && Next(job, w, step, w') && d in job.specs
    ensures d in w.status && d in w'.status
    ensures w'.status[d] == Done <==> w.status[d] == Done || Succeeds(step, d)
  {
    hide Next, ValidJob, Inv, Succeeds;
    InvNext(job, w, step, w');
    StatusKnown(job, w, d);
    StatusKnown(job, w', d);
    if w.status[d] == Done { SettledStays(job, w, step, w', d); } else { NewlyDone(job, w, step, w', d); }
  }

  lemma StatusKnown(job: Job, w: World, d: string)
    requires Inv(job, w) && d in job.specs
    ensures d in w.status
  {
  }

  lemma NewlyDone(job: Job, w: World, step: Step, w': World, d: string)
    requires Next(job, w, step, w') && d in w.status && d in w'.status && w.status[d] != Done
    ensures w'.status[d] == Done <==> Succeeds(step, d)
  {
    hide Usable, Taken, HasStatus, AssignStep, Doomed, AfterComplete;
    match step {
      case Assign(status, now, choice) => TurnStarts(job, w, w', status, now, choice);
      case Complete(e, result) => CompleteStatus(job, w, e, result);
      case _ =>
    }
  }

  lemma CompleteStatus(job: Job, w: World, e: Exec, result: Built)
    requires Shape(w) && e.runner < RUNNERS
    ensures AfterComplete(job, w, e, result).status
            == match result
               case Unpublished => w.status
               case Good => w.status[e.drv := Done]
               case Bad => w.status[e.drv := if e.runner > 0 then Unassigned else Failed]
  {
  }

  // ---- whole runs

  lemma AtStart(job: Job, ws: seq<World>, steps: seq<Step>)
    requires Run(job, ws, steps)
    ensures |ws| == |steps| + 1 && Shape(ws[0])
    ensures forall r :: 0 <= r < RUNNERS ==> !ws[0].retired[r] && ws[0].instances[r] == "" && ws[0].locality[r] == {}
    ensures ws[0].retryLocal == {} && ws[0].localFailed == {} && ws[0].finish.None?
    ensures forall d :: d in job.specs ==> d in ws[0].status && ws[0].status[d] == Unassigned
  {
  }

  /** A helper was given up exactly if an execution of it failed, it stayed away beyond the deadline, or it came back as
      another instance. */
  lemma {:induction false} RetiredExactly(job: Job, ws: seq<World>, steps: seq<Step>, i: nat, r: nat)
    requires ValidJob(job) && Run(job, ws, steps) && i < |ws| && 1 <= r < RUNNERS
    ensures Shape(ws[i])
    ensures ws[i].retired[r]
            <==> exists k ::
                   0 <= k < i
                   && (Fails(steps[k], r) || StaysAway(job, ws[k], steps[k], r) || ComesBack(job, ws[k], steps[k], r))
  {
    hide *;
    AtStart(job, ws, steps);
    if i > 0 {
      RetiredExactly(job, ws, steps, i - 1, r);
      StepTaken(job, ws, steps, i - 1);
      RetiredStep(job, ws[i - 1], steps[i - 1], ws[i], r);
    }
  }

  /** Up to the deadline only a failed task or another instance makes the scheduler give up a helper. */
  lemma PatientToDeadline(job: Job, ws: seq<World>, steps: seq<Step>, i: nat, r: nat)
    requires ValidJob(job) && Run(job, ws, steps) && i < |ws| && 1 <= r < RUNNERS
    requires forall k :: 0 <= k < i && steps[k].Assign? ==> steps[k].now <= job.deadline
    ensures Shape(ws[i])
    ensures ws[i].retired[r] <==> exists k :: 0 <= k < i && (Fails(steps[k], r) || ComesBack(job, ws[k], steps[k], r))
  {
    RetiredExactly(job, ws, steps, i, r);
    hide ValidJob, Run, Usable, ComesBack, Fails;
  }

  lemma RegistersSame(job: Job, w: World, step: Step, r: nat)
    requires Registers(job, w, step, r)
    ensures step.Assign? && Shape(w) && r < RUNNERS && step.status.Some? && step.status.value.instance != ""
    ensures w.instances[r] == "" || w.instances[r] == step.status.value.instance
  {
  }

  /** The recorded instance of a helper is the one it registered with, and there is none before it registered. */
  lemma {:induction false} InstanceExactly(job: Job, ws: seq<World>, steps: seq<Step>, i: nat, k: nat, r: nat)
    requires ValidJob(job) && Run(job, ws, steps) && k < i < |ws| && 1 <= r < RUNNERS
    requires Registers(job, ws[k], steps[k], r)
    ensures Shape(ws[i]) && ws[i].instances[r] == steps[k].status.value.instance
    decreases i
  {
    hide *;
    AtStart(job, ws, steps);
    RegistersSame(job, ws[k], steps[k], r);
    if k < i - 1 {
      InstanceExactly(job, ws, steps, i - 1, k, r);
      if Registers(job, ws[i - 1], steps[i - 1], r) { RegistersSame(job, ws[i - 1], steps[i - 1], r); }
    }
    StepTaken(job, ws, steps, i - 1);
    RetiredStep(job, ws[i - 1], steps[i - 1], ws[i], r);
  }

  lemma {:induction false} NoneRecorded(job: Job, ws: seq<World>, steps: seq<Step>, i: nat, r: nat)
    requires ValidJob(job) && Run(job, ws, steps) && i < |ws| && 1 <= r < RUNNERS
    requires forall k :: 0 <= k < i ==> !Registers(job, ws[k], steps[k], r)
    ensures Shape(ws[i]) && ws[i].instances[r] == ""
  {
    hide *;
    AtStart(job, ws, steps);
    if i > 0 {
      NoneRecorded(job, ws, steps, i - 1, r);
      StepTaken(job, ws, steps, i - 1);
      RetiredStep(job, ws[i - 1], steps[i - 1], ws[i], r);
    }
  }

  /** What was taken back from helpers, what failed on the coordinator, and what each runner has in its store. */
  lemma {:induction false} TablesExactly(job: Job, ws: seq<World>, steps: seq<Step>, i: nat)
    requires ValidJob(job) && Run(job, ws, steps) && i < |ws|
    ensures Shape(ws[i])
    ensures forall d :: d in ws[i].retryLocal <==> exists k :: 0 <= k < i && TakenBack(steps[k], d)
    ensures forall d :: d in ws[i].localFailed <==> exists k :: 0 <= k < i && FailsHere(steps[k], d)
    ensures forall r, d :: 0 <= r < RUNNERS ==>
              (d in ws[i].locality[r] <==> exists k :: 0 <= k < i && Warms(job, steps[k], r, d))
  {
    hide *;
    AtStart(job, ws, steps);
    if i > 0 {
      TablesExactly(job, ws, steps, i - 1);
      StepTaken(job, ws, steps, i - 1);
      TablesStep(job, ws[i - 1], steps[i - 1], ws[i]);
    }
  }

  /** Done means that an execution succeeded. */
  lemma {:induction false} DoneExactly(job: Job, ws: seq<World>, steps: seq<Step>, i: nat, d: string)
    requires ValidJob(job) && Run(job, ws, steps) && i < |ws| && d in job.specs
    ensures d in ws[i].status
    ensures ws[i].status[d] == Done <==> exists k :: 0 <= k < i && Succeeds(steps[k], d)
  {
    hide *;
    AtStart(job, ws, steps);
    if i > 0 {
      DoneExactly(job, ws, steps, i - 1, d);
      InvRun(job, ws, steps, i - 1);
      StepTaken(job, ws, steps, i - 1);
      DoneStep(job, ws[i - 1], steps[i - 1], ws[i], d);
    }
  }

  // ---- the end of a round

  /** The finish vector is stored, with the numbers of that moment, when nothing waits to be assigned any more; the loop
      returns when nothing is running either. */
  lemma CloseExactly(job: Job, w: World, w': World)
    requires Next(job, w, Close, w')
    ensures w'.finish == if w.finish.None? && forall d :: d in w.status ==> w.status[d] != Unassigned
                         then Some(w.sequences) else w.finish
    ensures w'.pc == if forall d :: d in w.status ==> w.status[d] == Done || w.status[d] == Failed
                     then Returned(Finished(w.failure)) else Waiting
    ensures w' == w.(finish := w'.finish, pc := w'.pc)
  {
    assert forall d :: d in w.status ==> w.status[d] in {Unassigned, Running, Done, Failed};
  }

  lemma OnlyCloseFinishes(job: Job, w: World, step: Step, w': World)
    requires Next(job, w, step, w') && !step.Close?
    ensures w'.finish == w.finish
  {
    hide Usable, Taken, HasStatus, AssignStep, Doomed;
    if step.Assign? { TurnStarts(job, w, w', step.status, step.now, step.choice); }
  }

  ghost predicate Finishes(w: World, step: Step) {
    step.Close? && w.finish.None? && forall d :: d in w.status ==> w.status[d] != Unassigned
  }

  /** Helpers are dismissed exactly after a round that left nothing to assign, by the numbers of that round. */
  lemma {:induction false} FinishExactly(job: Job, ws: seq<World>, steps: seq<Step>, i: nat)
    requires ValidJob(job) && Run(job, ws, steps) && i < |ws|
    ensures ws[i].finish.Some? <==> exists k :: 0 <= k < i && Finishes(ws[k], steps[k])
    ensures forall k :: 0 <= k < i && Finishes(ws[k], steps[k]) ==> ws[i].finish == Some(ws[k].sequences)
  {
    hide *;
    AtStart(job, ws, steps);
    if i > 0 {
      FinishExactly(job, ws, steps, i - 1);
      StepTaken(job, ws, steps, i - 1);
      FinishStep(job, ws[i - 1], steps[i - 1], ws[i]);
    }
  }

  lemma FinishStep(job: Job, w: World, step: Step, w': World)
    requires Next(job, w, step, w')
    ensures w'.finish == if Finishes(w, step) then Some(w.sequences) else w.finish
    ensures Finishes(w, step) ==> w.finish.None?
  {
    if step.Close? { CloseExactly(job, w, w'); } else { OnlyCloseFinishes(job, w, step, w'); }
    hide Next;
  }
}

/** The scheduler and its three helper slots together: an assignment to a helper is issued on its link, and the
    scheduler hears "built" for a helper only after the link has accepted that number (worker/scheduler.go:410-483). */
module Pool {
  import opened Names
  import opened Graph
  import opened Messages
  import opened Schedule
  import opened ScheduleSafety
  import opened ScheduleRuns
  import Planner
  import P = Protocol
  import PS = ProtocolSafety
  import B = Builder
  import ST = ScheduleTheorems
  import PT = ProtocolTheorems

  datatype Pool = Pool(world: World, links: seq<P.Link>)

  datatype Step =
    | Scheduling(event: Schedule.Step, task: Task)
    | Slot(runner: nat, action: P.Step)

  function Init(job: Job, session: string): Pool {
    Pool(Schedule.Init(job),
      [P.Init(0, session, job.lease), P.Init(1, session, job.lease), P.Init(2, session, job.lease),
       P.Init(3, session, job.lease)])
  }

  function DrvOfTask(t: Task): string { Planner.DrvOf(t.installable) }

  /** The scheduler's turn for a helper starts from the latest verified status of that helper. */
  predicate Sees(p: Pool, status: Option<Message>)
    requires |p.links| == RUNNERS
  {
    p.world.pc.Assigning? && 1 <= p.world.pc.runner < RUNNERS ==> status == p.links[p.world.pc.runner].latest
  }

  /** `release` is called, and success reported, only after `remoteTask` returned a result; any return ends the wait. */
  predicate Reportable(p: Pool, e: Exec, good: bool)
    requires |p.links| == RUNNERS
  {
    1 <= e.runner < RUNNERS ==>
      && (good ==> e.sequence in p.links[e.runner].accepted)
      && (p.links[e.runner].wait.Some? ==> p.links[e.runner].wait.value.sequence != e.sequence)
  }

  predicate StartsHelper(p: Pool, s: Schedule.Step) {
    s.Assign? && s.choice.Some? && p.world.pc.Assigning? && 1 <= p.world.pc.runner < RUNNERS
  }

  ghost predicate SchedulerStep(job: Job, p: Pool, s: Schedule.Step, task: Task, p': Pool) {
    && |p.links| == |p'.links| == RUNNERS
    && Next(job, p.world, s, p'.world)
    && match s
       case Assign(status, _, choice) =>
         && Sees(p, status)
         && (if StartsHelper(p, s) then
               var r := p.world.pc.runner;
               && DrvOfTask(task) == choice.value
               && P.Enabled(p.links[r], P.Issue(p'.world.instances[r], task))
               && p'.links == p.links[r := P.After(p.links[r], P.Issue(p'.world.instances[r], task))]
             else p'.links == p.links)
       case Close =>
         if p.world.finish.None? && p'.world.finish.Some? then
           forall r :: 0 <= r < RUNNERS ==>
             if r == 0 then p'.links[r] == p.links[r]
             else P.Next(p.links[r], P.Finish(p'.world.finish.value), p'.links[r])
         else p'.links == p.links
       case Release(e) => Reportable(p, e, true) && p'.links == p.links
       case Complete(e, result) => Reportable(p, e, result == Good) && p'.links == p.links
       case _ => p'.links == p.links
  }

  /** Mailbox traffic and helpers move on their own; the stop signal follows the scheduler's return. */
  ghost predicate SlotStep(p: Pool, r: nat, s: P.Step, p': Pool) {
    && |p.links| == RUNNERS && 1 <= r < RUNNERS
    && !s.Issue? && !s.Finish? && (s.Stop? ==> p.world.pc.Returned?)
    && P.Enabled(p.links[r], s)
    && p' == p.(links := p.links[r := P.After(p.links[r], s)])
  }

  ghost predicate PoolNext(job: Job, p: Pool, step: Step, p': Pool) {
    match step
    case Scheduling(s, task) => SchedulerStep(job, p, s, task, p')
    case Slot(r, s) => SlotStep(p, r, s, p')
  }

  ghost predicate PoolRun(job: Job, session: string, ps: seq<Pool>, steps: seq<Step>) {
    && |ps| == |steps| + 1 && ps[0] == Init(job, session)
    && forall i :: 0 <= i < |steps| ==> PoolNext(job, ps[i], steps[i], ps[i + 1])
  }

  // ---- coupling

  /** One slot agrees with the scheduler's tables. */
  ghost predicate Coupled(w: World, l: P.Link, r: nat)
    requires Shape(w) && r < RUNNERS
  {
    && l.runner == r && l.sequence == w.sequences[r] && l.finish == w.finish
    && (l.instance != "" ==> l.instance == w.instances[r])
    && (l.sequence > 0 && l.sequence !in l.accepted ==> w.occupied[r] || w.retired[r])
    && (l.stopped ==> w.pc.Returned?)
  }

  /** Every issued task is a derivation tried on a helper whose scheduled inputs are all done. */
  ghost predicate IssuedFor(deps: map<string, set<string>>, status: map<string, Status>, helperTried: set<string>,
                            issued: map<nat, Task>) {
    forall n :: n in issued ==>
      && DrvOfTask(issued[n]) in helperTried
      && forall e :: e in Needs(deps, DrvOfTask(issued[n])) ==> e in status && status[e] == Done
  }

  /** The task issued under an execution's number is the derivation the scheduler believes it is running. */
  ghost predicate Carries(live: set<Exec>, issued: map<nat, Task>, r: nat) {
    forall e :: e in live && e.runner == r ==> e.sequence in issued && DrvOfTask(issued[e.sequence]) == e.drv
  }

  ghost predicate BuiltBy(links: seq<P.Link>, d: string) {
    exists r, n ::
      1 <= r < |links| && n in links[r].accepted && n in links[r].issued && DrvOfTask(links[r].issued[n]) == d
  }

  /** Done means built by the coordinator, or by a helper whose result for exactly this derivation was accepted. */
  ghost predicate DoneOk(w: World, links: seq<P.Link>) {
    forall d :: d in w.status && w.status[d] == Done ==> d in w.localTried || BuiltBy(links, d)
  }

  ghost predicate SlotOk(job: Job, w: World, l: P.Link, r: nat)
    requires Shape(w) && r < RUNNERS
  {
    P.Inv(l) && Coupled(w, l, r) && IssuedFor(job.deps, w.status, w.helperTried, l.issued)
    && Carries(w.live, l.issued, r)
  }

  ghost predicate PoolInv(job: Job, p: Pool) {
    && Inv(job, p.world) && |p.links| == RUNNERS
    && (forall r :: 1 <= r < RUNNERS ==> SlotOk(job, p.world, p.links[r], r))
    && DoneOk(p.world, p.links)
  }

  // ---- slot steps

  /** Steps of a slot other than issue and finish leave what the scheduler decides alone, and only add accepted
      results. */
  lemma SlotFrame(l: P.Link, s: P.Step)
    requires P.Inv(l) && P.Enabled(l, s) && !s.Issue? && !s.Finish?
    ensures
      var k := P.After(l, s);
      && k.runner == l.runner && k.sequence == l.sequence && k.finish == l.finish && k.instance == l.instance
      && k.issued == l.issued
      && (forall n :: n in l.accepted ==> n in k.accepted)
      && (k.stopped ==> l.stopped || s.Stop?)
  {
    hide P.Inv, B.LeasePass, B.PublishPass, B.TakePass, B.FinishTask, B.Boot;
    match s {
      case Poll(now, verified) =>
        PS.PollOutcome(l, P.After(l, s), now, verified);
        hide P.After;
      case _ =>
    }
  }

  lemma BuiltGrows(links: seq<P.Link>, r: nat, l: P.Link)
    requires r < |links| && l.issued == links[r].issued && forall n :: n in links[r].accepted ==> n in l.accepted
    ensures forall d :: BuiltBy(links, d) ==> BuiltBy(links[r := l], d)
  {
    forall d | BuiltBy(links, d)
      ensures BuiltBy(links[r := l], d)
    {
      var q, n :| 1 <= q < |links| && n in links[q].accepted && n in links[q].issued
                  && DrvOfTask(links[q].issued[n]) == d;
      assert n in links[r := l][q].accepted;
    }
  }

  lemma SlotKeeps(job: Job, p: Pool, r: nat, s: P.Step, p': Pool)
    requires PoolInv(job, p) && SlotStep(p, r, s, p')
    ensures PoolInv(job, p')
  {
    var (l, k) := (p.links[r], P.After(p.links[r], s));
    SlotKnown(job, p, r);
    assert P.Inv(l) && P.Enabled(l, s);
    hide Inv, DoneOk, IssuedFor, Carries, P.Enabled, P.After, P.Inv;
    PS.InvNext(l, s, k);
    SlotFrame(l, s);
    BuiltGrows(p.links, r, k);
    DoneKept(p.world, p.links, p'.links);
    forall q | 1 <= q < RUNNERS
      ensures SlotOk(job, p'.world, p'.links[q], q)
    {
      SlotKnown(job, p, q);
      hide SlotStep, PoolInv;
    }
  }

  lemma DoneKept(w: World, links: seq<P.Link>, links': seq<P.Link>)
    requires DoneOk(w, links) && forall d :: BuiltBy(links, d) ==> BuiltBy(links', d)
    ensures DoneOk(w, links')
  {
    hide BuiltBy;
  }

  lemma InvPoolInit(job: Job, session: string)
    requires ValidJob(job)
    ensures PoolInv(job, Init(job, session))
  {
    InvInit(job);
    hide Inv, SlotOk, Schedule.Init;
    forall r | 1 <= r < RUNNERS
      ensures SlotOk(job, Init(job, session).world, Init(job, session).links[r], r)
    {
      SlotInit(job, session, r);
    }
  }

  lemma SlotInit(job: Job, session: string, r: nat)
    requires 1 <= r < RUNNERS && Shape(Init(job, session).world)
    ensures SlotOk(job, Init(job, session).world, Init(job, session).links[r], r)
  {
    hide P.Inv;
    assert Init(job, session).links[r] == P.Init(r, session, job.lease);
    PS.InvInit(r, session, job.lease);
  }

  // ---- scheduler steps

  lemma IssuedKept(job: Job, w: World, s: Schedule.Step, w': World, issued: map<nat, Task>)
    requires ValidJob(job) && Inv(job, w) && Next(job, w, s, w') && IssuedFor(job.deps, w.status, w.helperTried, issued)
    ensures IssuedFor(job.deps, w'.status, w'.helperTried, issued)
  {
    hide Inv, Next, ValidJob;
    ST.TriedGrows(job, w, s, w');
    forall n, e | n in issued && e in Needs(job.deps, DrvOfTask(issued[n]))
      ensures e in w'.status && w'.status[e] == Done
    {
      ST.SettledStays(job, w, s, w', e);
    }
  }

  /** What a scheduler step other than a helper start or the storing of the finish vector does to one slot's
      bookkeeping. */
  ghost predicate Quiet(w: World, w': World, r: nat)
    requires Shape(w) && Shape(w') && r < RUNNERS
  {
    && w'.sequences[r] == w.sequences[r] && w'.finish == w.finish
    && (w.instances[r] != "" ==> w'.instances[r] == w.instances[r])
    && !w.pc.Returned?
    && (w.retired[r] ==> w'.retired[r])
    && forall e :: e in w'.live && e.runner == r ==> exists b :: e.(released := b) in w.live
  }

  lemma QuietSlot(job: Job, w: World, s: Schedule.Step, w': World, l: P.Link, r: nat)
    requires ValidJob(job) && Inv(job, w) && Next(job, w, s, w') && r < RUNNERS
    requires Shape(w) && Shape(w') && Quiet(w, w', r) && SlotOk(job, w, l, r)
    requires w.occupied[r] && !w'.occupied[r] ==> w'.retired[r] || l.sequence in l.accepted
    ensures SlotOk(job, w', l, r)
  {
    hide Inv, Next, ValidJob, IssuedFor, P.Inv;
    IssuedKept(job, w, s, w', l.issued);
    forall e | e in w'.live && e.runner == r
      ensures e.sequence in l.issued && DrvOfTask(l.issued[e.sequence]) == e.drv
    {
      var b :| e.(released := b) in w.live;
    }
  }

  lemma AssignQuiet(job: Job, w: World, w': World, status: Option<Message>, now: int, choice: Option<string>, r: nat)
    requires Shape(w) && AssignStep(job, w, w', status, now, choice) && r < RUNNERS
    requires choice.None? || w.pc.runner != r
    ensures Shape(w') && Quiet(w, w', r) && (w.occupied[r] ==> w'.occupied[r])
  {
    AssignFrame(job, w, w', status, now, choice);
    hide AssignStep;
    forall e | e in w'.live && e.runner == r
      ensures exists b :: e.(released := b) in w.live
    {
      assert e in w.live;
      assert e.(released := e.released) == e;
    }
  }

  /** The slot a helper start is issued on is always free to take it. */
  lemma IssueEnabled(job: Job, p: Pool, w': World, status: Option<Message>, now: int, d: string, task: Task)
    requires PoolInv(job, p) && AssignStep(job, p.world, w', status, now, Some(d)) && 1 <= p.world.pc.runner < RUNNERS
    ensures Shape(w') && P.Enabled(p.links[p.world.pc.runner], P.Issue(w'.instances[p.world.pc.runner], task))
  {
    hide Numbered, Marked, CountedExecs, Matched, Founded, Blamed, Attempts, Frozen, Phase, IssuedFor, Carries, DoneOk;
    var r := p.world.pc.runner;
    var l := p.links[r];
    assert SlotOk(job, p.world, l, r);
    AssignFrame(job, p.world, w', status, now, Some(d));
    NamedInstance(job, p.world, w', status, now, d);
    hide AssignStep, Inv;
    LinkFree(l);
  }

  lemma NamedInstance(job: Job, w: World, w': World, status: Option<Message>, now: int, d: string)
    requires AssignStep(job, w, w', status, now, Some(d)) && 1 <= w.pc.runner < RUNNERS
    ensures Shape(w') && w'.instances[w.pc.runner] != ""
  {
    hide Taken;
  }

  lemma LinkFree(l: P.Link)
    requires P.Inv(l) && (l.sequence > 0 ==> l.sequence in l.accepted)
    ensures l.wait.None?
  {
    hide P.LeasesOk, P.HelpersOk, P.ReportsOk, P.FinishOk, P.AcceptedOk;
  }

  lemma StartSlot(job: Job, p: Pool, w': World, status: Option<Message>, now: int, d: string, task: Task)
    requires ValidJob(job) && PoolInv(job, p) && AssignStep(job, p.world, w', status, now, Some(d))
             && 1 <= p.world.pc.runner < RUNNERS
    requires DrvOfTask(task) == d && Shape(w') && p.world.pc.Assigning?
    requires P.Enabled(p.links[p.world.pc.runner], P.Issue(w'.instances[p.world.pc.runner], task))
    ensures
      var r := p.world.pc.runner;
      SlotOk(job, w', P.After(p.links[r], P.Issue(w'.instances[r], task)), r)
  {
    hide AssignStep, P.Inv, ValidJob, IssuedFor, Carries, DoneOk, Ready, Marked, CountedExecs, Matched, Founded, Blamed,
      Attempts, Phase;
    var (w, r) := (p.world, p.world.pc.runner);
    var l := p.links[r];
    assert SlotOk(job, w, l, r);
    assert Numbered(w.live, w.sequences);
    hide Inv, Numbered;
    AssignFrame(job, w, w', status, now, Some(d));
    ChosenReady(job, w, w', status, now, d);
    IssuedKept(job, w, Assign(status, now, Some(d)), w', l.issued);
    PS.InvNext(l, P.Issue(w'.instances[r], task), P.After(l, P.Issue(w'.instances[r], task)));
    StartIssued(job, w, w', l.issued, l.sequence + 1, d, task);
    StartCarries(w, w', l.issued, r, d, task);
  }

  lemma StartIssued(job: Job, w: World, w': World, issued: map<nat, Task>, n: nat, d: string, task: Task)
    requires IssuedFor(job.deps, w'.status, w'.helperTried, issued) && DrvOfTask(task) == d && d in w'.helperTried
    requires Ready(job, w.status, d) && w'.status == w.status[d := Running]
    ensures IssuedFor(job.deps, w'.status, w'.helperTried, issued[n := task])
  {
  }

  lemma StartCarries(w: World, w': World, issued: map<nat, Task>, r: nat, d: string, task: Task)
    requires Shape(w) && r < RUNNERS && Numbered(w.live, w.sequences) && Carries(w.live, issued, r)
             && DrvOfTask(task) == d
    requires w'.live == w.live + {Exec(r, w.sequences[r] + 1, d, false)}
    ensures Carries(w'.live, issued[w.sequences[r] + 1 := task], r)
  {
  }

  lemma DoneSame(w: World, w': World, links: seq<P.Link>, links': seq<P.Link>)
    requires DoneOk(w, links) && forall d :: BuiltBy(links, d) ==> BuiltBy(links', d)
    requires forall d :: d in w'.status && w'.status[d] == Done ==> d in w.status && w.status[d] == Done
    requires w.localTried <= w'.localTried
    ensures DoneOk(w', links')
  {
    hide BuiltBy;
  }

  lemma IssueBuilt(links: seq<P.Link>, r: nat, instance: string, task: Task)
    requires r < |links| && P.Inv(links[r]) && P.Enabled(links[r], P.Issue(instance, task))
    ensures forall d :: BuiltBy(links, d) ==> BuiltBy(links[r := P.After(links[r], P.Issue(instance, task))], d)
  {
    var links' := links[r := P.After(links[r], P.Issue(instance, task))];
    forall d | BuiltBy(links, d)
      ensures BuiltBy(links', d)
    {
      var q, n :| 1 <= q < |links| && n in links[q].accepted && n in links[q].issued
                  && DrvOfTask(links[q].issued[n]) == d;
      if q == r { assert n <= links[r].sequence; }
      assert n in links'[q].accepted && n in links'[q].issued && DrvOfTask(links'[q].issued[n]) == d;
    }
  }

  /** What an assignment does to the pool, with the scheduler's own step apart. */
  lemma AssignParts(job: Job, p: Pool, status: Option<Message>, now: int, choice: Option<string>, task: Task, p': Pool)
    requires PoolInv(job, p) && SchedulerStep(job, p, Assign(status, now, choice), task, p')
    ensures Shape(p.world) && AssignStep(job, p.world, p'.world, status, now, choice) && p.world.pc.Assigning?
            && p.world.pc.runner < RUNNERS
    ensures |p.links| == |p'.links| == RUNNERS && Inv(job, p.world)
            && Next(job, p.world, Assign(status, now, choice), p'.world)
    ensures Shape(p'.world)
    ensures if choice.Some? && 1 <= p.world.pc.runner then
              var r := p.world.pc.runner;
              && DrvOfTask(task) == choice.value
              && P.Enabled(p.links[r], P.Issue(p'.world.instances[r], task))
              && p'.links == p.links[r := P.After(p.links[r], P.Issue(p'.world.instances[r], task))]
            else p'.links == p.links
  {
    hide Inv, DoneOk, ValidJob, P.Inv, P.After, P.Enabled, SlotOk, Sees, AdmissionOf, Taken;
    AssignFrame(job, p.world, p'.world, status, now, choice);
  }

  lemma SlotKnown(job: Job, p: Pool, q: nat)
    requires PoolInv(job, p) && 1 <= q < RUNNERS
    ensures |p.links| == RUNNERS && Shape(p.world) && SlotOk(job, p.world, p.links[q], q)
  {
    hide DoneOk, SlotOk;
  }

  lemma AssignSlot(job: Job, p: Pool, status: Option<Message>, now: int, choice: Option<string>, task: Task, p': Pool,
                   q: nat)
    requires ValidJob(job) && PoolInv(job, p) && SchedulerStep(job, p, Assign(status, now, choice), task, p')
             && 1 <= q < RUNNERS
    ensures Shape(p'.world) && SlotOk(job, p'.world, p'.links[q], q)
  {
    hide *;
    var (w, w') := (p.world, p'.world);
    SlotKnown(job, p, q);
    AssignParts(job, p, status, now, choice, task, p');
    if choice.Some? && w.pc.runner == q {
      StartSlot(job, p, w', status, now, choice.value, task);
    } else {
      AssignQuiet(job, w, w', status, now, choice, q);
      QuietSlot(job, w, Assign(status, now, choice), w', p.links[q], q);
    }
  }

  lemma AssignDone(job: Job, p: Pool, status: Option<Message>, now: int, choice: Option<string>, task: Task, p': Pool)
    requires PoolInv(job, p) && SchedulerStep(job, p, Assign(status, now, choice), task, p')
    ensures DoneOk(p'.world, p'.links)
  {
    var (w, w', r) := (p.world, p'.world, p.world.pc.runner);
    hide Inv, AssignStep, DoneOk, P.Enabled, P.After, P.Inv, Coupled, IssuedFor, Carries;
    AssignStatus(job, w, w', status, now, choice);
    if StartsHelper(p, Assign(status, now, choice)) {
      assert SlotOk(job, w, p.links[r], r);
      IssueBuilt(p.links, r, w'.instances[r], task);
    }
    DoneSame(w, w', p.links, p'.links);
  }

  lemma AssignStatus(job: Job, w: World, w': World, status: Option<Message>, now: int, choice: Option<string>)
    requires AssignStep(job, w, w', status, now, choice)
    ensures w'.localTried >= w.localTried
    ensures forall d :: d in w'.status && w'.status[d] == Done ==> d in w.status && w.status[d] == Done
  {
    AssignFrame(job, w, w', status, now, choice);
    hide AssignStep;
  }

  lemma AssignKeeps(job: Job, p: Pool, status: Option<Message>, now: int, choice: Option<string>, task: Task, p': Pool)
    requires ValidJob(job) && PoolInv(job, p) && SchedulerStep(job, p, Assign(status, now, choice), task, p')
    ensures PoolInv(job, p')
  {
    hide AssignStep, DoneOk, P.Enabled, P.After, ValidJob, SlotOk, Inv;
    InvNext(job, p.world, Assign(status, now, choice), p'.world);
    AssignDone(job, p, status, now, choice, task, p');
    forall q | 1 <= q < RUNNERS
      ensures Shape(p'.world) && SlotOk(job, p'.world, p'.links[q], q)
    {
      AssignSlot(job, p, status, now, choice, task, p', q);
    }
  }

  lemma ReleaseQuiet(w: World, e: Exec, r: nat)
    requires Shape(w) && e in w.live && e.runner < RUNNERS && r < RUNNERS && w.pc == Waiting
    ensures Quiet(w, AfterRelease(w, e), r)
  {
    var w' := AfterRelease(w, e);
    forall x | x in w'.live && x.runner == r
      ensures exists b :: x.(released := b) in w.live
    {
      if x in w.live { assert x.(released := x.released) == x; }
      else { assert x.(released := e.released) == e; }
    }
  }

  lemma CompleteQuiet(job: Job, w: World, e: Exec, result: Built, r: nat)
    requires Shape(w) && e in w.live && e.runner < RUNNERS && r < RUNNERS && w.pc == Waiting
    ensures Quiet(w, AfterComplete(job, w, e, result), r)
  {
    var w' := AfterComplete(job, w, e, result);
    forall x | x in w'.live && x.runner == r
      ensures exists b :: x.(released := b) in w.live
    {
      assert x.(released := x.released) == x;
    }
  }

  lemma EventSlot(job: Job, p: Pool, s: Schedule.Step, task: Task, p': Pool, r: nat)
    requires ValidJob(job) && PoolInv(job, p) && SchedulerStep(job, p, s, task, p') && (s.Release? || s.Complete?)
             && 1 <= r < RUNNERS
    ensures Shape(p'.world) && SlotOk(job, p'.world, p'.links[r], r)
  {
    hide AssignStep, Propagated, AfterClose, DoneOk, ValidJob, P.Inv, IssuedFor, Carries;
    hide Numbered, Marked, CountedExecs, Matched, Founded, Blamed, Attempts, Frozen, Phase;
    var (w, w') := (p.world, p'.world);
    assert SlotOk(job, w, p.links[r], r);
    var e := s.exec;
    if s.Release? { ReleaseQuiet(w, e, r); } else { CompleteQuiet(job, w, e, s.result, r); }
    EventFrees(job, p, s, task, p', r);
    hide Inv, Next, Quiet, SlotOk, SchedulerStep, AfterRelease, AfterComplete;
    QuietSlot(job, w, s, w', p.links[r], r);
  }

  /** A helper's runner is freed only by the newest execution's accepted result or by its failure. */
  lemma EventFrees(job: Job, p: Pool, s: Schedule.Step, task: Task, p': Pool, r: nat)
    requires Shape(p.world) && SchedulerStep(job, p, s, task, p') && (s.Release? || s.Complete?) && 1 <= r < RUNNERS
             && Shape(p'.world)
    requires p.links[r].sequence == p.world.sequences[r]
    ensures p.world.occupied[r] && !p'.world.occupied[r] ==>
              p'.world.retired[r] || p.links[r].sequence in p.links[r].accepted
  {
    hide AssignStep, Propagated, AfterClose;
  }

  /** Only an accepted result, or the coordinator's own build, makes a derivation done. */
  lemma EventDone(job: Job, p: Pool, s: Schedule.Step, task: Task, p': Pool)
    requires PoolInv(job, p) && SchedulerStep(job, p, s, task, p') && (s.Release? || s.Complete?)
    ensures DoneOk(p'.world, p'.links)
  {
    hide AssignStep, Propagated, AfterClose, BuiltBy, P.Inv, IssuedFor, Coupled;
    hide Numbered, Marked, CountedExecs, Matched, Founded, Blamed, Tried, Struck, Frozen, Phase;
    var (w, e) := (p.world, s.exec);
    if s.Complete? && s.result == Good {
      if e.runner > 0 {
        assert SlotOk(job, w, p.links[e.runner], e.runner);
        AcceptedIsBuilt(p.links, e);
      } else {
        assert e.drv in w.localTried;
      }
    }
    hide SlotOk, Placed, Carries;
  }

  lemma AcceptedIsBuilt(links: seq<P.Link>, e: Exec)
    requires 1 <= e.runner < |links| && e.sequence in links[e.runner].accepted && e.sequence in links[e.runner].issued
    requires DrvOfTask(links[e.runner].issued[e.sequence]) == e.drv
    ensures BuiltBy(links, e.drv)
  {
  }

  lemma EventKeeps(job: Job, p: Pool, s: Schedule.Step, task: Task, p': Pool)
    requires ValidJob(job) && PoolInv(job, p) && SchedulerStep(job, p, s, task, p') && (s.Release? || s.Complete?)
    ensures PoolInv(job, p')
  {
    hide Inv, Next, DoneOk, SlotOk, ValidJob;
    InvNext(job, p.world, s, p'.world);
    EventDone(job, p, s, task, p');
    forall r | 1 <= r < RUNNERS
      ensures Shape(p'.world) && SlotOk(job, p'.world, p'.links[r], r)
    {
      EventSlot(job, p, s, task, p', r);
    }
  }

  // ---- the finish vector and the plain steps

  lemma PlainSlot(job: Job, w: World, s: Schedule.Step, w': World, l: P.Link, r: nat)
    requires ValidJob(job) && Inv(job, w) && Next(job, w, s, w') && Shape(w) && Shape(w') && 1 <= r < RUNNERS
             && SlotOk(job, w, l, r)
    requires s.Propagate? || s.Tick? || s.Cancel? || (s.Close? && w'.finish == w.finish)
    ensures SlotOk(job, w', l, r)
  {
    PlainQuiet(job, w, s, w', r);
    hide Inv, Next, Quiet, SlotOk, ValidJob;
    QuietSlot(job, w, s, w', l, r);
  }

  lemma PlainQuiet(job: Job, w: World, s: Schedule.Step, w': World, r: nat)
    requires Next(job, w, s, w') && Shape(w) && Shape(w') && r < RUNNERS
    requires s.Propagate? || s.Tick? || s.Cancel? || (s.Close? && w'.finish == w.finish)
    ensures Quiet(w, w', r) && w'.occupied == w.occupied
  {
    hide AssignStep, Propagated, HasStatus;
    assert w'.live == w.live;
    forall e | e in w'.live && e.runner == r
      ensures exists b :: e.(released := b) in w.live
    {
      assert e.(released := e.released) == e;
    }
  }

  lemma FinishSlot(job: Job, w: World, w': World, l: P.Link, l': P.Link, r: nat)
    requires ValidJob(job) && Inv(job, w) && Next(job, w, Close, w') && Shape(w) && Shape(w') && 1 <= r < RUNNERS
             && SlotOk(job, w, l, r)
    requires w.finish.None? && w'.finish.Some? && P.Next(l, P.Finish(w'.finish.value), l')
    ensures SlotOk(job, w', l', r)
  {
    hide Inv, P.Inv, IssuedFor, Carries, ValidJob, AssignStep, HasStatus, Propagated;
    IssuedKept(job, w, Close, w', l.issued);
    PS.InvNext(l, P.Finish(w'.finish.value), l');
    FinishLink(l, w'.finish.value, l');
    assert w'.live == w.live;
  }

  lemma FinishLink(l: P.Link, v: seq<nat>, l': P.Link)
    requires P.Next(l, P.Finish(v), l')
    ensures l' == l.(finish := Some(v))
  {
  }

  /** Storing the finish vector is possible on every slot at once. */
  lemma FinishEnabled(job: Job, p: Pool, w': World, r: nat)
    requires PoolInv(job, p) && Next(job, p.world, Close, w') && p.world.finish.None? && w'.finish.Some?
             && 1 <= r < RUNNERS
    ensures P.Enabled(p.links[r], P.Finish(w'.finish.value))
  {
    hide Inv, DoneOk, IssuedFor, Carries, P.Inv;
    InvShape(job, p.world);
    assert SlotOk(job, p.world, p.links[r], r);
    CloseVector(job, p.world, w');
    hide Next;
  }

  lemma CloseVector(job: Job, w: World, w': World)
    requires Next(job, w, Close, w') && w.finish.None? && w'.finish.Some?
    ensures w'.finish.value == w.sequences
  {
    hide HasStatus;
  }

  lemma CloseDone(job: Job, p: Pool, task: Task, p': Pool)
    requires PoolInv(job, p) && SchedulerStep(job, p, Close, task, p')
    ensures DoneOk(p'.world, p'.links)
  {
    hide P.Inv, SlotOk, Inv, AssignStep, HasStatus, Propagated;
    assert p'.world.status == p.world.status && p'.world.localTried == p.world.localTried;
    forall d | BuiltBy(p.links, d)
      ensures BuiltBy(p'.links, d)
    {
      var q, n :| 1 <= q < |p.links| && n in p.links[q].accepted && n in p.links[q].issued
                  && DrvOfTask(p.links[q].issued[n]) == d;
      if p'.links != p.links { FinishLink(p.links[q], p'.world.finish.value, p'.links[q]); }
      assert n in p'.links[q].accepted && n in p'.links[q].issued && DrvOfTask(p'.links[q].issued[n]) == d;
    }
    hide BuiltBy;
  }

  lemma CloseKeeps(job: Job, p: Pool, task: Task, p': Pool)
    requires ValidJob(job) && PoolInv(job, p) && SchedulerStep(job, p, Close, task, p')
    ensures PoolInv(job, p')
  {
    CloseDone(job, p, task, p');
    hide DoneOk, Inv, Next, ValidJob, SlotOk;
    InvNext(job, p.world, Close, p'.world);
    CloseShape(job, p.world, p'.world);
    forall r | 1 <= r < RUNNERS
      ensures Shape(p'.world) && SlotOk(job, p'.world, p'.links[r], r)
    {
      if p.world.finish.None? && p'.world.finish.Some? {
        FinishSlot(job, p.world, p'.world, p.links[r], p'.links[r], r);
      } else {
        PlainSlot(job, p.world, Close, p'.world, p.links[r], r);
      }
    }
  }

  lemma CloseShape(job: Job, w: World, w': World)
    requires Next(job, w, Close, w')
    ensures Shape(w') && (w.finish.Some? || w'.finish.None? ==> w'.finish == w.finish)
  {
    hide HasStatus;
  }

  lemma PlainKeeps(job: Job, p: Pool, s: Schedule.Step, task: Task, p': Pool)
    requires ValidJob(job) && PoolInv(job, p) && SchedulerStep(job, p, s, task, p')
             && (s.Propagate? || s.Tick? || s.Cancel?)
    ensures PoolInv(job, p')
  {
    PlainDone(job, p.world, s, p'.world, p.links);
    hide DoneOk, Inv, Next, ValidJob, SlotOk;
    InvNext(job, p.world, s, p'.world);
    InvShape(job, p'.world);
    forall r | 1 <= r < RUNNERS
      ensures Shape(p'.world) && SlotOk(job, p'.world, p'.links[r], r)
    {
      PlainSlot(job, p.world, s, p'.world, p.links[r], r);
    }
  }

  lemma InvShape(job: Job, w: World)
    requires Inv(job, w)
    ensures Shape(w)
  {
  }

  lemma PlainDone(job: Job, w: World, s: Schedule.Step, w': World, links: seq<P.Link>)
    requires DoneOk(w, links) && Next(job, w, s, w') && (s.Propagate? || s.Tick? || s.Cancel?)
    ensures DoneOk(w', links)
  {
    hide AssignStep, BuiltBy, Doomed;
    assert forall d :: d in w'.status && w'.status[d] == Done ==> d in w.status && w.status[d] == Done;
  }

  lemma PoolInvNext(job: Job, p: Pool, step: Step, p': Pool)
    requires ValidJob(job) && PoolInv(job, p) && PoolNext(job, p, step, p')
    ensures PoolInv(job, p')
  {
    hide PoolInv, SchedulerStep, SlotStep, ValidJob;
    match step {
      case Slot(r, s) => SlotKeeps(job, p, r, s, p');
      case Scheduling(s, task) =>
        match s {
          case Assign(status, now, choice) => AssignKeeps(job, p, status, now, choice, task, p');
          case Close => CloseKeeps(job, p, task, p');
          case Release(e) => EventKeeps(job, p, s, task, p');
          case Complete(e, result) => EventKeeps(job, p, s, task, p');
          case _ => PlainKeeps(job, p, s, task, p');
        }
    }
  }

  /** Scheduler, links, helpers and mailboxes agree in every reachable state of the whole pool. */
  lemma {:induction false} PoolInvRun(job: Job, session: string, ps: seq<Pool>, steps: seq<Step>, i: nat)
    requires ValidJob(job) && PoolRun(job, session, ps, steps) && i < |ps|
    ensures PoolInv(job, ps[i])
  {
    hide PoolInv, PoolNext, ValidJob, Init;
    if i == 0 {
      InvPoolInit(job, session);
    } else {
      PoolInvRun(job, session, ps, steps, i - 1);
      PoolInvNext(job, ps[i - 1], steps[i - 1], ps[i]);
    }
  }

  // ---- end-to-end guarantees

  /** Whatever any helper ever executes, every scheduled derivation its task depends on in the whole graph is done. */
  lemma HelpersRunAfterInputs(job: Job, session: string, ps: seq<Pool>, steps: seq<Step>, i: nat, r: nat, who: string,
                              x: B.Execution, e: string)
    requires ValidJob(job) && PoolRun(job, session, ps, steps) && i < |ps| && 1 <= r < RUNNERS
             && |ps[i].links| == RUNNERS
    requires who in ps[i].links[r].helpers && x in ps[i].links[r].helpers[who].log
    requires e in job.specs && Reaches(InputMap(job.graph), DrvOfTask(x.task), e)
    ensures e in ps[i].world.status && ps[i].world.status[e] == Done
  {
    PoolInvRun(job, session, ps, steps, i);
    var p := ps[i];
    assert SlotOk(job, p.world, p.links[r], r);
    LogIssued(p.links[r], who, x);
    var d := DrvOfTask(x.task);
    IssuedScheduled(job, p.world, p.links[r].issued, x.sequence);
    hide PoolInv, PoolRun, SlotOk, P.Inv;
    DependenciesPreserveReach(job.graph, job.specs, job.deps, d, e);
    var n := ReachFirst(job.deps, d, e);
    if n != e {
      var walk :| WalkFromTo(job.deps, walk, n, e);
      InvFounded(job, p.world);
      ST.FoundedReaches(job.deps, p.world.status, walk);
    }
  }

  lemma InvFounded(job: Job, w: World)
    requires Inv(job, w)
    ensures Founded(job.deps, w.status)
  {
  }

  lemma LogIssued(l: P.Link, who: string, x: B.Execution)
    requires P.Inv(l) && who in l.helpers && x in l.helpers[who].log
    ensures x.sequence in l.issued && x.task == l.issued[x.sequence]
  {
    assert P.HelperOk(l, who, l.helpers[who]);
    hide P.AssignmentsOk, P.FinishOk, P.LeasesOk, P.HelpersOk, P.ReportsOk, P.AcceptedOk, P.StateOk;
  }

  lemma IssuedScheduled(job: Job, w: World, issued: map<nat, Task>, n: nat)
    requires Inv(job, w) && IssuedFor(job.deps, w.status, w.helperTried, issued) && n in issued
    ensures DrvOfTask(issued[n]) in job.specs
    ensures forall e :: e in Needs(job.deps, DrvOfTask(issued[n])) ==> e in w.status && w.status[e] == Done
  {
    hide Numbered, Marked, CountedExecs, Matched, Founded, Blamed, Placed, Struck, Frozen, Phase;
    assert DrvOfTask(issued[n]) in w.helperTried + w.localTried;
  }

  lemma AcceptedRan(l: P.Link, n: nat)
    requires P.Inv(l) && n in l.accepted
    ensures n in l.issued && l.instance in l.helpers
            && P.Ran(l.helpers[l.instance].log, n, l.issued[n], B.Built(l.accepted[n]))
  {
  }

  /** A derivation the coordinator never built itself is done only because some helper executed a task for it and the
      coordinator accepted that very result. */
  lemma DoneWasBuilt(job: Job, session: string, ps: seq<Pool>, steps: seq<Step>, i: nat, d: string)
    returns (r: nat, n: nat, result: B.BuildResult)
    requires ValidJob(job) && PoolRun(job, session, ps, steps) && i < |ps|
    requires d in ps[i].world.status && ps[i].world.status[d] == Done && d !in ps[i].world.localTried
    ensures 1 <= r < |ps[i].links| && ps[i].links[r].instance in ps[i].links[r].helpers && n in ps[i].links[r].issued
    ensures DrvOfTask(ps[i].links[r].issued[n]) == d && result.Built?
    ensures P.Ran(ps[i].links[r].helpers[ps[i].links[r].instance].log, n, ps[i].links[r].issued[n], result)
  {
    hide PoolInv, PoolRun, ValidJob, P.Inv, P.Ran;
    PoolInvRun(job, session, ps, steps, i);
    r, n := Builder(job, ps[i], d);
    AcceptedRan(ps[i].links[r], n);
    result := B.Built(ps[i].links[r].accepted[n]);
  }

  lemma Builder(job: Job, p: Pool, d: string) returns (r: nat, n: nat)
    requires PoolInv(job, p) && d in p.world.status && p.world.status[d] == Done && d !in p.world.localTried
    ensures 1 <= r < |p.links| && P.Inv(p.links[r])
    ensures n in p.links[r].accepted && n in p.links[r].issued && DrvOfTask(p.links[r].issued[n]) == d
  {
    hide Inv, P.Inv, IssuedFor, Carries, Coupled;
    InvShape(job, p.world);
    assert BuiltBy(p.links, d);
    r, n :| 1 <= r < |p.links| && n in p.links[r].accepted && n in p.links[r].issued
            && DrvOfTask(p.links[r].issued[n]) == d;
    assert SlotOk(job, p.world, p.links[r], r);
  }

  /** Until the scheduler returns, a helper that has left in good order was dismissed by the finish vector, and has
      executed every assignment written to it. */
  lemma DismissedHelpersAreDone(job: Job, session: string, ps: seq<Pool>, steps: seq<Step>, i: nat, r: nat, who: string,
                                m: Message)
    requires ValidJob(job) && PoolRun(job, session, ps, steps) && i < |ps| && 1 <= r < RUNNERS
             && |ps[i].links| == RUNNERS
    requires !ps[i].world.pc.Returned? && P.At(ps[i].links[r], who, B.Left(true))
    requires m in ps[i].links[r].assignments && m.instance == who
    ensures ps[i].world.finish.Some? && PT.Executed(ps[i].links[r].helpers[who].log, m.sequence)
  {
    PoolInvRun(job, session, ps, steps, i);
    assert SlotOk(job, ps[i].world, ps[i].links[r], r);
    hide PoolInv, PoolRun, P.Inv, IssuedFor, Carries, ValidJob;
    PT.LeavingFacts(ps[i].links[r], who);
    PT.CaughtUp(ps[i].links[r], who, m);
  }

  // ---- progress of the whole pool

  /** A wait ends by itself: once its record is written or given up, the passing of time is enough. */
  lemma WaitEnds(l: P.Link) returns (ls: seq<P.Link>, actions: seq<P.Step>)
    requires l.wait.Some?
    ensures |ls| == |actions| + 1 && 1 <= |actions| <= 2 && ls[0] == l && ls[|actions|].wait.None?
    ensures forall k ::
              0 <= k < |actions| ==> P.Next(ls[k], actions[k], ls[k + 1]) && (actions[k].Write? || actions[k].Poll?)
  {
    var write := P.Write(true, true, 0);
    var m := if l.wait.value.since.None? then P.After(l, write) else l;
    var late := if m.latest.Some? then m.latest.value.sent + m.lease else 0;
    var poll := P.Poll(late, false);
    var n := P.After(m, poll);
    if l.wait.value.since.None? {
      ls, actions := [l, m, n], [write, poll];
    } else {
      ls, actions := [l, n], [poll];
    }
  }

  lemma SlotPath(p: Pool, r: nat, ls: seq<P.Link>, actions: seq<P.Step>, k: nat)
    requires |p.links| == RUNNERS && 1 <= r < RUNNERS && |ls| == |actions| + 1 && k < |actions|
    requires P.Next(ls[k], actions[k], ls[k + 1]) && (actions[k].Write? || actions[k].Poll?)
    ensures SlotStep(p.(links := p.links[r := ls[k]]), r, actions[k], p.(links := p.links[r := ls[k + 1]]))
  {
    hide P.Enabled, P.After;
    assert p.links[r := ls[k]][r := ls[k + 1]] == p.links[r := ls[k + 1]];
  }

  lemma FreePath(p: Pool, r: nat) returns (qs: seq<Pool>, actions: seq<P.Step>)
    requires |p.links| == RUNNERS && 1 <= r < RUNNERS && p.links[r].wait.Some?
    ensures |qs| == |actions| + 1 && |actions| <= 2 && qs[0] == p
    ensures forall k :: 0 <= k < |actions| ==> SlotStep(qs[k], r, actions[k], qs[k + 1])
    ensures qs[|actions|].world == p.world && |qs[|actions|].links| == RUNNERS && qs[|actions|].links[r].wait.None?
  {
    hide P.Next, SlotStep;
    var ls;
    ls, actions := WaitEnds(p.links[r]);
    assert p.links[r := ls[0]] == p.links;
    qs := seq(|ls|, k requires 0 <= k < |ls| => p.(links := p.links[r := ls[k]]));
    forall k | 0 <= k < |actions|
      ensures SlotStep(qs[k], r, actions[k], qs[k + 1])
    {
      SlotPath(p, r, ls, actions, k);
    }
  }

  lemma ReportEnabled(job: Job, q: Pool, e: Exec, result: Built, task: Task)
    requires q.world.pc == Waiting && e in q.world.live && Shape(q.world) && e.runner < RUNNERS && |q.links| == RUNNERS
    requires e.runner > 0 ==> q.links[e.runner].wait.None?
    ensures PoolNext(job, q, Scheduling(Complete(e, result), task), q.(world := AfterComplete(job, q.world, e, result)))
            <==> (result == Good && e.runner > 0 ==> e.sequence in q.links[e.runner].accepted)
  {
    hide AfterComplete;
  }

  /** Whenever the scheduler waits, some execution in flight can be reported after at most two steps of its slot, none
      of which needs the helper or the mailboxes to do anything: as failed always, and as built on a helper exactly when
      its result was accepted. */
  lemma PoolNeverStuck(job: Job, session: string, ps: seq<Pool>, steps: seq<Step>, i: nat, task: Task)
    returns (e: Exec, qs: seq<Pool>, actions: seq<P.Step>)
    requires ValidJob(job) && PoolRun(job, session, ps, steps) && i < |ps| && ps[i].world.pc == Waiting
    ensures e in ps[i].world.live && |qs| == |actions| + 1 && |actions| <= 2 && qs[0] == ps[i]
    ensures forall k :: 0 <= k < |actions| ==> SlotStep(qs[k], e.runner, actions[k], qs[k + 1])
    ensures Shape(ps[i].world) && e.runner < RUNNERS
    ensures qs[|actions|].world == ps[i].world && |qs[|actions|].links| == RUNNERS
    ensures forall result: Built ::
              PoolNext(job, qs[|actions|], Scheduling(Complete(e, result), task),
                qs[|actions|].(world := AfterComplete(job, ps[i].world, e, result)))
              <==> (result == Good && e.runner > 0 ==> e.sequence in qs[|actions|].links[e.runner].accepted)
  {
    PoolInvRun(job, session, ps, steps, i);
    var p := ps[i];
    assert |p.links| == RUNNERS && Inv(job, p.world);
    hide PoolRun, ValidJob, AfterComplete, Inv, PoolInv, SlotStep, PoolNext;
    e := SomeLive(job, p.world);
    if e.runner == 0 || p.links[e.runner].wait.None? {
      qs, actions := [p], [];
    } else {
      qs, actions := FreePath(p, e.runner);
    }
    forall result: Built {
      ReportEnabled(job, qs[|actions|], e, result, task);
    }
  }

  lemma SomeLive(job: Job, w: World) returns (e: Exec)
    requires Inv(job, w) && w.pc == Waiting
    ensures e in w.live && Shape(w) && e.runner < RUNNERS
  {
    assert HasStatus(w.status, Running);
    var d :| d in w.status && w.status[d] == Running;
    e :| e in w.live && e.drv == d;
  }
}

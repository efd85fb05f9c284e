/** What the protocol can do: with the newest records read in time, a task comes back as an accepted result, and a
    helper that has caught up leaves in good order (worker/scheduler.go:297-360, worker/builder.go:43-116). */
module ProtocolProgress {
  import opened Names
  import opened Messages
  import opened Mailbox
  import opened Builder
  import opened BuilderRuns
  import opened Remote
  import P = Protocol

  /** The record is newer than all in the mailbox and than what its reader has kept. */
  ghost predicate Newest(box: seq<Message>, seen: Option<Entry>, sent: int) {
    && (forall m :: m in box ==> m.sent < sent)
    && (seen.Some? ==> seen.value.key < |box| && seen.value.message.sent < sent)
  }

  lemma ReadsNewest(box: seq<Message>, seen: Option<Entry>, m: Message)
    requires Newest(box, seen, m.sent)
    ensures
      var got := Some(Entry(|box|, m));
      Offered(box + [m], got) && Keep(seen, got) == got && Answer(seen, got) == Some(m)
  {
  }

  /** The times at which the assignment is sent, the lease is checked again, the report is sent and it is looked at. */
  datatype Times = Times(sent: int, checked: int, reported: int, polled: int)

  /** The slot waits for a task that is not written yet, and its helper is idle, in the pool's session and about to look
      for a task. Its lease lasts until it reports, and records are looked at while they are fresh. */
  ghost predicate Attentive(l: P.Link, timing: Timing, t: Times) {
    && l.wait.Some? && l.wait.value.since.None? && l.wait.value.sequence == l.sequence
    && l.wait.value.instance == l.instance && l.instance in l.helpers
    && Idle(l, l.helpers[l.instance], timing, t)
    && Newest(l.assignments, l.helpers[l.instance].taskSeen, t.sent) && Newest(l.statuses, l.statusSeen, t.reported)
    && (l.latest.Some? ==> l.latest.value.sent < t.reported)
    && t.polled - t.reported < l.lease && t.reported - t.polled < MINUTE
  }

  ghost predicate Idle(l: P.Link, h: Helper, timing: Timing, t: Times) {
    && h.phase == Taking && !h.running && !h.stopping && h.status.session == l.session && l.session != ""
    && h.status.instance == l.instance && h.status.sequence < l.sequence
    && Fresh(h.coordinator, t.checked, timing.lease) && h.coordinator.value.session == l.session
  }

  // ---- the helper's part

  /** The helper starts the task, finishes it, checks its lease and reports. */
  lemma HelperWorks(l: P.Link, h: Helper, timing: Timing, t: Times, got: Option<Entry>, task: Task, snapshot: string)
    returns (a: Helper, b: Helper, c: Helper, d: Helper)
    requires Idle(l, h, timing, t)
    requires got.Some? && Answer(h.taskSeen, got) == Some(got.value.message)
    requires var m := got.value.message;
             m.session == l.session && m.instance == l.instance && m.sequence == l.sequence && m.state == "build"
             && m.task == Some(task)
    ensures a == TakePass(h, got) && a.phase == Selecting && a.running && a.log != []
    ensures b == FinishTask(a, Built(snapshot)) && b.phase == Leasing
    ensures c == LeasePass(b, timing, t.checked, None) && c.phase == Publishing && Publishes(c, timing, t.reported)
    ensures d == PublishPass(c, timing, t.reported, true)
    ensures d.log == h.log + [Execution(l.sequence, task, Some(Built(snapshot)))]
    ensures c.status.instance == l.instance && c.status.session == l.session && c.status.sequence == l.sequence
            && c.status.state == "done" && c.status.snapshot == snapshot
  {
    a := TakePass(h, got);
    TakesExactly(h, got);
    hide TakePass;
    b := FinishTask(a, Built(snapshot));
    ReportsExactly(a, Built(snapshot));
    hide FinishTask;
    c := LeasePass(b, timing, t.checked, None);
    LeaseRead(b, timing, t.checked, None);
    LeavesExactly(b, timing, t.checked, None);
    hide LeasePass;
    d := PublishPass(c, timing, t.reported, true);
    PublishesExactly(c, timing, t.reported, true);
    hide PublishPass;
    assert b.log == h.log + [Execution(l.sequence, task, Some(Built(snapshot)))];
  }

  // ---- the steps

  lemma WriteStep(l: P.Link, now: int)
    requires l.wait.Some? && l.wait.value.since.None?
    ensures P.Next(l, P.Write(true, true, now),
                   l.(assignments := l.assignments + [P.Assignment(l, l.wait.value, now)],
                      wait := Some(l.wait.value.(since := Some(now)))))
  {
  }

  lemma TakeStep(l: P.Link, who: string, got: Option<Entry>)
    requires who in l.helpers && l.helpers[who].phase == Taking && Offered(l.assignments, got)
    ensures P.Next(l, P.HelperTake(who, got), P.With(l, who, TakePass(l.helpers[who], got)))
  {
    hide TakePass;
  }

  lemma FinishStep(l: P.Link, who: string, result: BuildResult)
    requires who in l.helpers && l.helpers[who].phase == Selecting && l.helpers[who].running && l.helpers[who].log != []
    ensures P.Next(l, P.HelperFinish(who, result), P.With(l, who, FinishTask(l.helpers[who], result)))
  {
    hide FinishTask;
  }

  lemma LeaseStep(l: P.Link, who: string, timing: Timing, now: int, got: Option<Entry>)
    requires who in l.helpers && l.helpers[who].phase == Leasing && Offered(l.leases, got)
    ensures P.Next(l, P.HelperLease(who, timing, now, got),
                   P.With(l, who, LeasePass(l.helpers[who], timing, now, got)))
  {
    hide LeasePass;
  }

  lemma PublishStep(l: P.Link, who: string, timing: Timing, now: int)
    requires who in l.helpers && l.helpers[who].phase == Publishing && Publishes(l.helpers[who], timing, now)
    ensures P.Next(l, P.HelperPublish(who, timing, now, true, true),
                   P.With(l.(statuses := l.statuses + [l.helpers[who].status.(sent := now)]), who,
                          PublishPass(l.helpers[who], timing, now, true)))
  {
    hide PublishPass, Publishes;
  }

  /** The newest status of the pool is stored. */
  lemma ReadStep(l: P.Link, e: Entry)
    requires Offered(l.statuses, Some(e)) && Keep(l.statusSeen, Some(e)) == Some(e)
             && Answer(l.statusSeen, Some(e)) == Some(e.message)
    requires e.message.session == l.session && (l.latest.Some? ==> l.latest.value.sent < e.message.sent)
    ensures P.Next(l, P.ReadStatus(Some(e)), l.(statusSeen := Some(e), latest := Some(e.message)))
  {
    hide Keep, Answer, Offered;
  }

  /** A fresh and acceptable report of the task ends the wait. */
  lemma PollStep(l: P.Link, now: int)
    requires l.wait.Some? && l.wait.value.since.Some? && Fresh(l.latest, now, l.lease)
    requires var m := l.latest.value;
             m.instance == l.wait.value.instance && m.sequence == l.wait.value.sequence && m.state == "done"
    ensures P.Next(l, P.Poll(now, true),
                   l.(wait := None, accepted := l.accepted[l.wait.value.sequence := l.latest.value.snapshot]))
  {
    VerdictExactly(l.wait.value, l.latest, now, l.lease, true);
    hide Judge;
  }

  /** The four states of the helper, one after the other. */
  lemma HelperPath(l: P.Link, who: string, timing: Timing, t: Times, got: Option<Entry>, result: BuildResult, a: Helper,
                   b: Helper, c: Helper, d: Helper)
    requires who in l.helpers && l.helpers[who].phase == Taking && Offered(l.assignments, got)
    requires a == TakePass(l.helpers[who], got) && a.phase == Selecting && a.running && a.log != []
    requires b == FinishTask(a, result) && b.phase == Leasing
    requires c == LeasePass(b, timing, t.checked, None) && c.phase == Publishing && Publishes(c, timing, t.reported)
    requires d == PublishPass(c, timing, t.reported, true)
    ensures P.Next(l, P.HelperTake(who, got), P.With(l, who, a))
    ensures P.Next(P.With(l, who, a), P.HelperFinish(who, result), P.With(l, who, b))
    ensures P.Next(P.With(l, who, b), P.HelperLease(who, timing, t.checked, None), P.With(l, who, c))
    ensures P.Next(P.With(l, who, c), P.HelperPublish(who, timing, t.reported, true, true),
                   P.With(l.(statuses := l.statuses + [c.status.(sent := t.reported)]), who, d))
  {
    hide TakePass, FinishTask, LeasePass, PublishPass, Publishes, P.Enabled, P.After, P.Next;
    var (u, v, w) := (P.With(l, who, a), P.With(l, who, b), P.With(l, who, c));
    assert P.With(u, who, b) == v && P.With(v, who, c) == w;
    TakeStep(l, who, got);
    FinishStep(u, who, result);
    LeaseStep(v, who, timing, t.checked, None);
    PublishStep(w, who, timing, t.reported);
    var told := l.statuses + [c.status.(sent := t.reported)];
    assert P.With(w.(statuses := told), who, d) == P.With(l.(statuses := told), who, d);
  }

  // ---- the whole way

  ghost predicate Steps(ls: seq<P.Link>, steps: seq<P.Step>) {
    |ls| == |steps| + 1 && forall i :: 0 <= i < |steps| ==> P.Next(ls[i], steps[i], ls[i + 1])
  }

  lemma SevenSteps(ls: seq<P.Link>, steps: seq<P.Step>)
    requires |ls| == 8 && |steps| == 7
    requires P.Next(ls[0], steps[0], ls[1]) && P.Next(ls[1], steps[1], ls[2]) && P.Next(ls[2], steps[2], ls[3])
    requires P.Next(ls[3], steps[3], ls[4]) && P.Next(ls[4], steps[4], ls[5]) && P.Next(ls[5], steps[5], ls[6])
    requires P.Next(ls[6], steps[6], ls[7])
    ensures Steps(ls, steps)
  {
    hide P.Next;
  }

  lemma Slot(l: P.Link, timing: Timing, t: Times)
    requires Attentive(l, timing, t)
    ensures l.instance in l.helpers && Idle(l, l.helpers[l.instance], timing, t) && l.wait.Some?
            && l.wait.value.since.None? && l.wait.value.sequence == l.sequence && l.wait.value.instance == l.instance
            && l.helpers[l.instance].phase == Taking
    ensures Newest(l.assignments, l.helpers[l.instance].taskSeen, t.sent)
    ensures Newest(l.statuses, l.statusSeen, t.reported) && (l.latest.Some? ==> l.latest.value.sent < t.reported)
    ensures forall m: Message :: m.sent == t.reported ==> Fresh(Some(m), t.polled, l.lease)
    ensures P.Assignment(l, l.wait.value, t.sent)
            == EMPTY.(session := l.session, instance := l.instance, sequence := l.sequence, state := "build",
                      task := Some(l.wait.value.task), sent := t.sent)
  {
  }

  /** A task that is handed to an attentive helper is accepted with its result after seven steps. */
  lemma TaskCompletes(l: P.Link, timing: Timing, t: Times, snapshot: string)
    returns (ls: seq<P.Link>, steps: seq<P.Step>)
    requires Attentive(l, timing, t)
    ensures Steps(ls, steps) && |steps| == 7 && ls[0] == l
    ensures ls[7].wait.None? && ls[7].accepted == l.accepted[l.sequence := snapshot]
    ensures l.instance in l.helpers && l.wait.Some? && l.instance in ls[7].helpers
    ensures ls[7].helpers[l.instance].log
            == l.helpers[l.instance].log + [Execution(l.sequence, l.wait.value.task, Some(Built(snapshot)))]
  {
    hide *;
    Slot(l, timing, t);
    var (who, w) := (l.instance, l.wait.value);
    var m := P.Assignment(l, w, t.sent);
    ReadsNewest(l.assignments, l.helpers[who].taskSeen, m);
    var task := Entry(|l.assignments|, m);
    var a, b, c, d := HelperWorks(l, l.helpers[who], timing, t, Some(task), w.task, snapshot);
    var r := c.status.(sent := t.reported);
    ReadsNewest(l.statuses, l.statusSeen, r);
    var report := Entry(|l.statuses|, r);
    WriteStep(l, t.sent);
    var l1 := l.(assignments := l.assignments + [m], wait := Some(w.(since := Some(t.sent))));
    HelperPath(l1, who, timing, t, Some(task), Built(snapshot), a, b, c, d);
    var l5 := P.With(l1.(statuses := l1.statuses + [r]), who, d);
    LastSteps(l, l5, l1, who, d, report, t.polled);
    var l6 := l5.(statusSeen := Some(report), latest := Some(r));
    var l7 := l6.(wait := None, accepted := l6.accepted[l.sequence := snapshot]);
    ls := [l, l1, P.With(l1, who, a), P.With(l1, who, b), P.With(l1, who, c), l5, l6, l7];
    steps := [P.Write(true, true, t.sent), P.HelperTake(who, Some(task)), P.HelperFinish(who, Built(snapshot)),
      P.HelperLease(who, timing, t.checked, None), P.HelperPublish(who, timing, t.reported, true, true),
      P.ReadStatus(Some(report)), P.Poll(t.polled, true)];
    SevenSteps(ls, steps);
  }

  /** The report is read, looked at and accepted. */
  lemma LastSteps(l: P.Link, l5: P.Link, l1: P.Link, who: string, d: Helper, report: Entry, now: int)
    requires l.wait.Some? && l1 == l.(assignments := l1.assignments, wait := l1.wait) && l1.wait.Some?
             && l1.wait.value.since.Some? && l1.wait.value == l.wait.value.(since := l1.wait.value.since)
    requires l5 == P.With(l1.(statuses := l1.statuses + [report.message]), who, d)
    requires Offered(l.statuses + [report.message], Some(report)) && Keep(l.statusSeen, Some(report)) == Some(report)
             && Answer(l.statusSeen, Some(report)) == Some(report.message)
    requires var m := report.message;
             m.session == l.session && (l.latest.Some? ==> l.latest.value.sent < m.sent)
             && m.instance == l.wait.value.instance && m.sequence == l.wait.value.sequence && m.state == "done"
             && Fresh(Some(m), now, l.lease)
    ensures
      var l6 := l5.(statusSeen := Some(report), latest := Some(report.message));
      && P.Next(l5, P.ReadStatus(Some(report)), l6)
      && P.Next(l6, P.Poll(now, true),
                l6.(wait := None, accepted := l.accepted[l.wait.value.sequence := report.message.snapshot]))
      && l6.accepted == l.accepted
      && who in l6.helpers && l6.helpers[who] == d
  {
    hide Keep, Answer, Offered, P.Next, P.Enabled, P.After, Fresh;
    ReadStep(l5, report);
    PollStep(l5.(statusSeen := Some(report), latest := Some(report.message)), now);
  }

  // ---- leaving

  lemma HeartbeatStep(l: P.Link, now: int)
    ensures P.Next(l, P.Heartbeat(true, now), l.(leases := l.leases + [P.HeartbeatMessage(l, now)]))
  {
  }

  lemma ReportStep(l: P.Link, who: string, timing: Timing, now: int) returns (statuses: seq<Message>)
    requires who in l.helpers && l.helpers[who].phase == Publishing
    ensures P.Next(l, P.HelperPublish(who, timing, now, true, true),
                   P.With(l.(statuses := statuses), who, PublishPass(l.helpers[who], timing, now, true)))
  {
    hide PublishPass, Publishes;
    statuses := l.statuses;
    if Publishes(l.helpers[who], timing, now) { statuses := l.statuses + [l.helpers[who].status.(sent := now)]; }
  }

  /** An idle helper in the pool's session, at the top of its loop, that the coordinator has no more work for. */
  ghost predicate Finished(l: P.Link, who: string) {
    && who in l.helpers && l.session != ""
    && (var h := l.helpers[who];
        && h.phase == Leasing && !h.running && h.status.session == l.session && h.runner == l.runner
        && (l.stopped
            || (l.finish.Some? && |l.finish.value| == RUNNERS && l.runner < RUNNERS
                && l.finish.value[l.runner] <= h.status.sequence)))
  }

  /** A helper that has nothing left to do leaves in good order with the next heartbeat that it reads. */
  lemma DismissalArrives(l: P.Link, who: string, timing: Timing, sent: int, now: int)
    returns (ls: seq<P.Link>, steps: seq<P.Step>)
    requires Finished(l, who) && Newest(l.leases, l.helpers[who].leaseSeen, sent)
             && now - sent < timing.lease && sent - now < MINUTE
    ensures Steps(ls, steps) && |steps| == 3 && ls[0] == l && P.At(ls[3], who, Left(true))
  {
    var m := P.HeartbeatMessage(l, sent);
    ReadsNewest(l.leases, l.helpers[who].leaseSeen, m);
    var e := Entry(|l.leases|, m);
    var a := Dismissed(l, who, timing, now, e);
    var b := PublishPass(a, timing, now, true);
    PublishesExactly(a, timing, now, true);
    var l1 := l.(leases := l.leases + [m]);
    var l2 := P.With(l1, who, a);
    hide LeasePass, PublishPass, Publishes, Newest, Keep, Answer, Finished, P.Enabled, P.After, P.Next,
      P.HeartbeatMessage;
    HeartbeatStep(l, sent);
    LeaseStep(l1, who, timing, now, Some(e));
    var statuses := ReportStep(l2, who, timing, now);
    var l3 := P.With(l2.(statuses := statuses), who, b);
    ls, steps := [l, l1, l2, l3],
    [P.Heartbeat(true, sent), P.HelperLease(who, timing, now, Some(e)), P.HelperPublish(who, timing, now, true, true)];
  }

  lemma Dismissed(l: P.Link, who: string, timing: Timing, now: int, e: Entry) returns (a: Helper)
    requires Finished(l, who) && e.message == P.HeartbeatMessage(l, e.message.sent)
    requires Answer(l.helpers[who].leaseSeen, Some(e)) == Some(e.message)
    requires Fresh(Some(e.message), now, timing.lease)
    ensures a == LeasePass(l.helpers[who], timing, now, Some(e))
    ensures a.phase == Publishing && a.stopping && !a.running && a.status.session != ""
  {
    var h := l.helpers[who];
    a := LeasePass(h, timing, now, Some(e));
    LeaseRead(h, timing, now, Some(e));
    LeavesExactly(h, timing, now, Some(e));
    StopsExactly(h, timing, now, Some(e));
    hide LeasePass, Answer;
  }
}

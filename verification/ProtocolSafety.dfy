/** Every step of a link keeps its invariant. */
module ProtocolSafety {
  import opened Names
  import opened Messages
  import opened Mailbox
  import opened Builder
  import opened Remote
  import opened Protocol

  ghost predicate HelperGrows(h: Helper, h': Helper) {
    h.status.sequence <= h'.status.sequence && forall e :: e in h.log && e.result.Some? ==> e in h'.log
  }

  /** Nothing that has been recorded is lost or changed. */
  ghost predicate Grows(l: Link, l': Link) {
    && l'.runner == l.runner && l'.session == l.session
    && (l.instance != "" ==> l'.instance == l.instance)
    && (forall n :: n in l.issued ==> n in l'.issued && l'.issued[n] == l.issued[n])
    && (forall m :: m in l.assignments ==> m in l'.assignments)
    && (forall m :: m in l.statuses ==> m in l'.statuses)
    && (l.stopped ==> l'.stopped) && (l.finish.Some? ==> l'.finish == l.finish)
    && (forall who :: who in l.helpers ==> who in l'.helpers && HelperGrows(l.helpers[who], l'.helpers[who]))
  }

  lemma GrowsLease(l: Link, l': Link, m: Message)
    requires Grows(l, l') && LeaseOk(l.session, l.stopped, l.finish, m)
    ensures LeaseOk(l'.session, l'.stopped, l'.finish, m)
  {
  }

  lemma InstanceNamed(l: Link, who: string, h: Helper)
    requires AssignmentsOk(l) && LogOk(l.issued, l.instance, who, h.log, h.status.sequence, h.running) && h.log != []
    ensures l.instance == who != ""
  {
    assert h.log[0].sequence in l.issued;
  }

  lemma GrowsLog(l: Link, l': Link, who: string, h: Helper)
    requires Grows(l, l') && AssignmentsOk(l) && LogOk(l.issued, l.instance, who, h.log, h.status.sequence, h.running)
    ensures LogOk(l'.issued, l'.instance, who, h.log, h.status.sequence, h.running)
  {
    if h.log != [] { InstanceNamed(l, who, h); }
  }

  lemma GrowsReported(s: seq<Message>, t: seq<Message>, status: Message)
    requires Reported(s, status) && forall m :: m in s ==> m in t
    ensures Reported(t, status)
  {
  }

  lemma GrowsHelper(l: Link, l': Link, who: string, h: Helper)
    requires Grows(l, l') && AssignmentsOk(l) && HelperOk(l, who, h)
    ensures HelperOk(l', who, h)
  {
    GrowsLog(l, l', who, h);
    if h.leaseSeen.Some? { GrowsLease(l, l', h.leaseSeen.value.message); }
    if h.coordinator.Some? { GrowsLease(l, l', h.coordinator.value); }
    hide LogOk, StateOk, LeaseOk, AssignmentsOk, HelperGrows, Reported;
    if h.lastPublished.Some? { GrowsReported(l.statuses, l'.statuses, h.status); }
  }

  lemma GrowsReport(l: Link, l': Link, m: Message)
    requires Grows(l, l') && ReportOk(l, m)
    ensures ReportOk(l', m)
  {
  }

  lemma GrowsReports(l: Link, l': Link)
    requires Grows(l, l') && ReportsOk(l)
    requires forall m :: m in l'.statuses && m !in l.statuses ==> ReportOk(l', m)
    requires l'.statusSeen == l.statusSeen && l'.latest == l.latest
    ensures ReportsOk(l')
  {
    forall m | m in l.statuses
      ensures ReportOk(l', m)
    {
      GrowsReport(l, l', m);
    }
    if l.statusSeen.Some? { GrowsReport(l, l', l.statusSeen.value.message); }
    if l.latest.Some? { GrowsReport(l, l', l.latest.value); }
    hide Grows, ReportOk;
  }

  /** The helpers other than `who` stay as they were; `who` may be new or changed. */
  lemma GrowsHelpers(l: Link, l': Link, who: string)
    requires Grows(l, l') && AssignmentsOk(l) && HelpersOk(l)
    requires forall x :: x in l'.helpers && x != who ==> x in l.helpers && l'.helpers[x] == l.helpers[x]
    requires who in l'.helpers ==> HelperOk(l', who, l'.helpers[who])
    ensures HelpersOk(l')
  {
    forall x | x in l'.helpers
      ensures HelperOk(l', x, l'.helpers[x])
    {
      if x != who { GrowsHelper(l, l', x, l.helpers[x]); }
    }
  }

  lemma GrowsAccepted(l: Link, l': Link)
    requires Grows(l, l') && AssignmentsOk(l) && AcceptedOk(l)
    requires l'.accepted == l.accepted && l'.sequence == l.sequence
    ensures AcceptedOk(l')
  {
    forall n | n in l'.accepted
      ensures n in l'.issued && l'.instance in l'.helpers
              && Ran(l'.helpers[l'.instance].log, n, l'.issued[n], Built(l'.accepted[n]))
    {
      assert n in l.issued;
    }
  }

  lemma GrowsLeases(l: Link, l': Link)
    requires Grows(l, l') && LeasesOk(l) && l'.leases == l.leases
    ensures LeasesOk(l')
  {
    forall m | m in l'.leases
      ensures LeaseOk(l'.session, l'.stopped, l'.finish, m)
    {
      GrowsLease(l, l', m);
    }
  }

  /** All parts of the invariant that only mention what has been recorded survive any growth that leaves helpers,
      statuses, lease records and accepted results alone. */
  lemma GrowsRest(l: Link, l': Link)
    requires Grows(l, l') && AssignmentsOk(l) && HelpersOk(l) && ReportsOk(l) && LeasesOk(l)
    requires l'.helpers == l.helpers && l'.statuses == l.statuses && l'.leases == l.leases
    requires l'.statusSeen == l.statusSeen && l'.latest == l.latest
    ensures HelpersOk(l') && ReportsOk(l') && LeasesOk(l')
  {
    GrowsReports(l, l');
    GrowsLeases(l, l');
    forall x | x in l'.helpers
      ensures HelperOk(l', x, l'.helpers[x])
    {
      GrowsHelper(l, l', x, l.helpers[x]);
    }
  }

  // ---- coordinator steps

  lemma IssueParts(l: Link, l': Link, instance: string, task: Task)
    requires AssignmentsOk(l) && AcceptedOk(l) && FinishOk(l) && Next(l, Issue(instance, task), l')
    ensures Grows(l, l') && AssignmentsOk(l') && FinishOk(l')
  {
  }

  lemma IssueAccepted(l: Link, l': Link, instance: string, task: Task)
    requires AssignmentsOk(l) && AcceptedOk(l) && Next(l, Issue(instance, task), l')
    ensures AcceptedOk(l')
  {
    forall n | n in l'.accepted
      ensures n in l'.issued && l'.instance in l'.helpers
              && Ran(l'.helpers[l'.instance].log, n, l'.issued[n], Built(l'.accepted[n]))
    {
      assert n in l.issued;
    }
  }

  lemma IssueKeeps(l: Link, l': Link, instance: string, task: Task)
    requires Inv(l) && Next(l, Issue(instance, task), l')
    ensures Inv(l')
  {
    hide AssignmentsOk, FinishOk, LeasesOk, HelpersOk, ReportsOk, AcceptedOk, Grows;
    IssueParts(l, l', instance, task);
    IssueAccepted(l, l', instance, task);
    GrowsRest(l, l');
  }

  lemma WriteParts(l: Link, l': Link, step: Step)
    requires step.Write? && AssignmentsOk(l) && FinishOk(l) && Next(l, step, l')
    ensures Grows(l, l') && AssignmentsOk(l') && FinishOk(l')
  {
  }

  /** Writing, judging, and giving up change neither helpers nor reports. */
  lemma WriteKeeps(l: Link, l': Link, step: Step)
    requires Inv(l) && step.Write? && Next(l, step, l')
    ensures Inv(l')
  {
    hide AssignmentsOk, FinishOk, LeasesOk, HelpersOk, ReportsOk, AcceptedOk, Grows;
    WriteParts(l, l', step);
    GrowsRest(l, l');
    GrowsAccepted(l, l');
  }

  /** A poll only ends or acknowledges the wait, and records a result for its number. */
  ghost predicate Polled(l: Link, l': Link) {
    && l.wait.Some? && l' == l.(wait := l'.wait, accepted := l'.accepted)
    && (l'.wait.Some? ==>
          l'.accepted == l.accepted && l'.wait.value == l.wait.value.(acknowledged := l'.wait.value.acknowledged))
    && (l'.accepted == l.accepted
        || (l.latest.Some? && l'.wait.None?
            && l'.accepted == l.accepted[l.wait.value.sequence := l.latest.value.snapshot]
            && l.latest.value.instance == l.wait.value.instance && l.latest.value.sequence == l.wait.value.sequence
            && l.latest.value.state == "done"))
  }

  lemma PollOutcome(l: Link, l': Link, now: int, verified: bool)
    requires Next(l, Poll(now, verified), l')
    ensures Polled(l, l')
  {
  }

  lemma PolledParts(l: Link, l': Link)
    requires AssignmentsOk(l) && FinishOk(l) && Polled(l, l')
    ensures Grows(l, l') && AssignmentsOk(l') && FinishOk(l')
  {
  }

  /** A result is accepted only from a report of the helper the task was written for, about that very number. */
  lemma PolledAccepted(l: Link, l': Link)
    requires AssignmentsOk(l) && ReportsOk(l) && AcceptedOk(l) && Polled(l, l')
    ensures AcceptedOk(l')
  {
    if l'.accepted != l.accepted {
      var m := l.latest.value;
      assert ReportOk(l, m) && m.instance == l.instance && m.sequence == l.sequence;
    }
    hide ReportsOk, AssignmentsOk;
  }

  lemma PollKeeps(l: Link, l': Link, now: int, verified: bool)
    requires Inv(l) && Next(l, Poll(now, verified), l')
    ensures Inv(l')
  {
    PollOutcome(l, l', now, verified);
    hide AssignmentsOk, FinishOk, LeasesOk, HelpersOk, ReportsOk, AcceptedOk, Grows, Next;
    PolledParts(l, l');
    PolledAccepted(l, l');
    GrowsRest(l, l');
  }

  lemma PlainParts(l: Link, l': Link, step: Step)
    requires AssignmentsOk(l) && FinishOk(l) && Next(l, step, l')
    requires step.Abandon? || step.Finish? || step.Stop? || step.Heartbeat? || step.ReadStatus?
    ensures Grows(l, l') && AssignmentsOk(l') && FinishOk(l')
  {
    hide LeasePass, PublishPass, TakePass, FinishTask, Judge, Observe, HeartbeatMessage, AssignmentsOk;
    match step {
      case Abandon => PlainGrows(l, l');
      case Finish(_) => PlainGrows(l, l');
      case Stop => PlainGrows(l, l');
      case Heartbeat(_, _) => PlainGrows(l, l');
      case ReadStatus(_) => PlainGrows(l, l');
    }
  }

  lemma PlainGrows(l: Link, l': Link)
    requires AssignmentsOk(l)
    requires l' == l.(wait := l'.wait, finish := l'.finish, stopped := l'.stopped, leases := l'.leases,
                      statusSeen := l'.statusSeen, latest := l'.latest)
    requires (l.stopped ==> l'.stopped) && (l.finish.Some? ==> l'.finish == l.finish)
             && (l'.wait == l.wait || l'.wait.None?)
    ensures Grows(l, l') && AssignmentsOk(l')
  {
  }

  lemma PlainKeeps(l: Link, l': Link, step: Step)
    requires Inv(l) && Next(l, step, l') && (step.Abandon? || step.Finish? || step.Stop?)
    ensures Inv(l')
  {
    hide AssignmentsOk, FinishOk, LeasesOk, HelpersOk, ReportsOk, AcceptedOk, Grows;
    PlainParts(l, l', step);
    GrowsRest(l, l');
    GrowsAccepted(l, l');
  }

  lemma HeartbeatLeases(l: Link, l': Link, stored: bool, now: int)
    requires FinishOk(l) && LeasesOk(l) && Next(l, Heartbeat(stored, now), l')
    ensures LeasesOk(l')
  {
    assert LeaseOk(l.session, l.stopped, l.finish, HeartbeatMessage(l, now));
  }

  lemma HeartbeatKeeps(l: Link, l': Link, stored: bool, now: int)
    requires Inv(l) && Next(l, Heartbeat(stored, now), l')
    ensures Inv(l')
  {
    hide AssignmentsOk, FinishOk, LeasesOk, HelpersOk, ReportsOk, AcceptedOk, Grows;
    PlainParts(l, l', Heartbeat(stored, now));
    HeartbeatLeases(l, l', stored, now);
    StepGrows(l, l'.(leases := l.leases), l');
    GrowsRest(l, l'.(leases := l.leases));
    ReadersFrame(l'.(leases := l.leases), l');
    ReportsFrame(l'.(leases := l.leases), l');
    GrowsAccepted(l, l');
  }

  /** Lease records only matter to helpers once read, and what the coordinator has read does not matter to them. */
  lemma ReadersFrame(l: Link, l': Link)
    requires HelpersOk(l) && l' == l.(leases := l'.leases, statusSeen := l'.statusSeen, latest := l'.latest)
    ensures HelpersOk(l')
    ensures LeasesOk(l) && l'.leases == l.leases ==> LeasesOk(l')
  {
    forall x | x in l'.helpers
      ensures HelperOk(l', x, l'.helpers[x])
    {
      assert HelperOk(l, x, l.helpers[x]);
    }
  }

  lemma StepGrows(l: Link, k: Link, l': Link)
    requires Grows(l, l') && k == l'.(leases := k.leases, statusSeen := k.statusSeen, latest := k.latest)
    ensures Grows(l, k)
  {
  }

  lemma ReportsFrame(l: Link, l': Link)
    requires ReportsOk(l) && l' == l.(leases := l'.leases)
    ensures ReportsOk(l')
  {
  }

  lemma StatusReports(l: Link, l': Link, got: Option<Entry>)
    requires ReportsOk(l) && Next(l, ReadStatus(got), l')
    ensures ReportsOk(l')
  {
    if got.Some? { assert ReportOk(l, got.value.message); }
  }

  lemma StatusKeeps(l: Link, l': Link, got: Option<Entry>)
    requires Inv(l) && Next(l, ReadStatus(got), l')
    ensures Inv(l')
  {
    hide AssignmentsOk, FinishOk, LeasesOk, HelpersOk, ReportsOk, AcceptedOk, Grows;
    PlainParts(l, l', ReadStatus(got));
    StatusReports(l, l', got);
    StepGrows(l, l'.(statusSeen := l.statusSeen, latest := l.latest), l');
    GrowsRest(l, l'.(statusSeen := l.statusSeen, latest := l.latest));
    ReadersFrame(l'.(statusSeen := l.statusSeen, latest := l.latest), l');
    GrowsAccepted(l, l');
  }

  // ---- helper steps

  lemma JoinKeeps(l: Link, l': Link, instance: string, cores: int, features: seq<string>, now: int)
    requires Inv(l) && Next(l, Join(instance, cores, features, now), l')
    ensures Inv(l')
  {
    JoinParts(l, l', instance, cores, features, now);
    hide AssignmentsOk, FinishOk, LeasesOk, HelpersOk, ReportsOk, AcceptedOk, Grows, Boot;
    GrowsHelpers(l, l', instance);
    GrowsReports(l, l');
    GrowsLeases(l, l');
    GrowsAccepted(l, l');
  }

  lemma JoinParts(l: Link, l': Link, instance: string, cores: int, features: seq<string>, now: int)
    requires AssignmentsOk(l) && FinishOk(l) && Next(l, Join(instance, cores, features, now), l')
    ensures Grows(l, l') && AssignmentsOk(l') && FinishOk(l') && HelperOk(l', instance, l'.helpers[instance])
  {
  }

  /** What a helper step must show: the rest of the link only gains statuses, all of them this helper's own reports. */
  lemma HelperStepKeeps(l: Link, l': Link, who: string)
    requires Inv(l) && who in l.helpers && who in l'.helpers && HelperGrows(l.helpers[who], l'.helpers[who])
    requires l' == l.(helpers := l.helpers[who := l'.helpers[who]], statuses := l'.statuses)
    requires forall m :: m in l.statuses ==> m in l'.statuses
    requires forall m :: m in l'.statuses && m !in l.statuses ==> ReportOk(l', m)
    requires HelperOk(l', who, l'.helpers[who])
    ensures Inv(l')
  {
    StepParts(l, l', who);
    hide AssignmentsOk, FinishOk, LeasesOk, HelpersOk, ReportsOk, AcceptedOk, Grows, HelperOk, ReportOk;
    GrowsHelpers(l, l', who);
    GrowsReports(l, l');
    GrowsLeases(l, l');
    GrowsAccepted(l, l');
  }

  lemma StepParts(l: Link, l': Link, who: string)
    requires AssignmentsOk(l) && FinishOk(l) && who in l.helpers && who in l'.helpers
             && HelperGrows(l.helpers[who], l'.helpers[who])
    requires l' == l.(helpers := l.helpers[who := l'.helpers[who]], statuses := l'.statuses)
    requires forall m :: m in l.statuses ==> m in l'.statuses
    ensures Grows(l, l') && AssignmentsOk(l') && FinishOk(l')
  {
    hide Ran;
  }

  lemma LeaseHelper(l: Link, who: string, h: Helper, timing: Timing, now: int, got: Option<Entry>)
    requires FinishOk(l) && LeasesOk(l) && HelperOk(l, who, h) && h.phase == Leasing && Offered(l.leases, got)
    ensures HelperOk(l, who, LeasePass(h, timing, now, got)) && HelperGrows(h, LeasePass(h, timing, now, got))
  {
    if got.Some? { assert LeaseOk(l.session, l.stopped, l.finish, got.value.message); }
    var k := ReadLease(h, timing, now, got);
    assert k.coordinator.Some? ==> LeaseOk(l.session, l.stopped, l.finish, k.coordinator.value);
    hide LeasesOk, ReadLease, Offered;
    LeaseChecked(l, who, h, k, timing, now);
  }

  lemma LeaseChecked(l: Link, who: string, h: Helper, k: Helper, timing: Timing, now: int)
    requires FinishOk(l) && HelperOk(l, who, h) && h.phase == Leasing
    requires k == h.(coordinator := k.coordinator, nextLeaseRead := k.nextLeaseRead, leaseSeen := k.leaseSeen)
    requires k.coordinator.Some? ==> LeaseOk(l.session, l.stopped, l.finish, k.coordinator.value)
    requires k.leaseSeen.Some? ==> LeaseOk(l.session, l.stopped, l.finish, k.leaseSeen.value.message)
    ensures HelperOk(l, who, CheckLease(k, timing, now)) && HelperGrows(h, CheckLease(k, timing, now))
  {
    hide LogOk, StateOk, Reported, CheckLease;
    var v := CheckLease(k, timing, now);
    CheckEffect(k, timing, now);
    if v.lastPublished.Some? {
      assert v.status == h.status;
    }
  }

  lemma CheckEffect(k: Helper, timing: Timing, now: int)
    ensures
      var v := CheckLease(k, timing, now);
      && v == k.(status := k.status.(session := v.status.session), stopping := v.stopping, started := v.started,
                 phase := v.phase)
      && (v.status.session == k.status.session
          || (k.status.session == "" && k.coordinator.Some? && v.status.session == k.coordinator.value.session))
      && (v.stopping ==>
            k.stopping || (k.coordinator.Some? && Dismissed(k.coordinator.value, k.runner, k.status.sequence)))
      && v.phase != Left(true)
  {
  }

  lemma LeaseKeeps(l: Link, l': Link, who: string, timing: Timing, now: int, got: Option<Entry>)
    requires Inv(l) && Next(l, HelperLease(who, timing, now, got), l')
    ensures Inv(l')
  {
    var h := l.helpers[who];
    assert HelperOk(l, who, h);
    LeaseHelper(l, who, h, timing, now, got);
    HelperSame(l, l', who, l'.helpers[who]);
    hide HelperOk, LeasePass, AssignmentsOk, FinishOk, LeasesOk, HelpersOk, ReportsOk, AcceptedOk, HelperGrows;
    HelperStepKeeps(l, l', who);
  }

  /** Whether a helper is in order does not depend on the table it is stored in. */
  lemma HelperSame(l: Link, l': Link, who: string, h: Helper)
    requires HelperOk(l, who, h) && l' == l.(helpers := l'.helpers)
    ensures HelperOk(l', who, h)
  {
    hide StateOk, LogOk, LeaseOk, Reported;
  }

  lemma PublishHelper(l: Link, who: string, h: Helper, timing: Timing, now: int, stored: bool, ok: bool)
    requires HelperOk(l, who, h) && h.phase == Publishing && (ok ==> stored)
    ensures
      var due := stored && Publishes(h, timing, now);
      var k := l.(statuses := if due then l.statuses + [h.status.(sent := now)] else l.statuses);
      HelperOk(k, who, PublishPass(h, timing, now, ok))
    ensures HelperGrows(h, PublishPass(h, timing, now, ok))
  {
    var due := stored && Publishes(h, timing, now);
    var k := l.(statuses := if due then l.statuses + [h.status.(sent := now)] else l.statuses);
    var v := PublishPass(h, timing, now, ok);
    if v.lastPublished.Some? {
      if Publishes(h, timing, now) && ok {
        assert k.statuses[|l.statuses|] == h.status.(sent := now);
        assert SameReport(h.status.(sent := now), v.status);
      } else {
        GrowsReported(l.statuses, k.statuses, h.status);
      }
    }
    hide StateOk, LogOk, LeaseOk, SameReport;
  }

  /** A published status is the truth about its helper. */
  lemma PublishReport(l: Link, l': Link, who: string, h: Helper, now: int)
    requires HelperOk(l, who, h) && who in l'.helpers && l'.issued == l.issued
    requires l'.helpers[who].log == h.log && l'.helpers[who].status == h.status
    ensures ReportOk(l', h.status.(sent := now))
  {
    var m := h.status.(sent := now);
    if m.state == "done" {
      var last := h.log[|h.log| - 1];
      assert last == Execution(m.sequence, l.issued[m.sequence], Some(Built(m.snapshot)));
      assert last in h.log;
    }
  }

  lemma PublishKeeps(l: Link, l': Link, who: string, timing: Timing, now: int, stored: bool, ok: bool)
    requires Inv(l) && Next(l, HelperPublish(who, timing, now, stored, ok), l')
    ensures Inv(l')
  {
    hide PublishPass, AssignmentsOk, FinishOk, LeasesOk, ReportsOk, AcceptedOk, ReportOk;
    var h := l.helpers[who];
    assert HelperOk(l, who, h);
    hide HelperOk, HelpersOk, HelperGrows;
    PublishHelper(l, who, h, timing, now, stored, ok);
    PublishSame(h, timing, now, ok);
    PublishReport(l, l', who, h, now);
    HelperSame(l.(statuses := l'.statuses), l', who, l'.helpers[who]);
    HelperStepKeeps(l, l', who);
  }

  lemma PublishSame(h: Helper, timing: Timing, now: int, ok: bool)
    ensures PublishPass(h, timing, now, ok).log == h.log && PublishPass(h, timing, now, ok).status == h.status
  {
  }

  lemma TakeHelper(l: Link, who: string, h: Helper, got: Option<Entry>)
    requires AssignmentsOk(l) && HelperOk(l, who, h) && h.phase == Taking && Offered(l.assignments, got)
    ensures HelperOk(l, who, TakePass(h, got)) && HelperGrows(h, TakePass(h, got))
  {
    if TakePass(h, got).log != h.log {
      TakeBuilds(l, who, h, got);
    } else {
      TakeWaits(l, who, h, got);
    }
  }

  lemma TakeWaits(l: Link, who: string, h: Helper, got: Option<Entry>)
    requires HelperOk(l, who, h) && h.phase == Taking && Offered(l.assignments, got) && TakePass(h, got).log == h.log
    ensures HelperOk(l, who, TakePass(h, got)) && HelperGrows(h, TakePass(h, got))
  {
    hide LogOk, StateOk, LeaseOk, Reported, Accepts;
    assert TakePass(h, got) == h.(taskSeen := TakePass(h, got).taskSeen, phase := TakePass(h, got).phase);
  }

  lemma TakeBuilds(l: Link, who: string, h: Helper, got: Option<Entry>)
    requires AssignmentsOk(l) && HelperOk(l, who, h) && h.phase == Taking && Offered(l.assignments, got)
    requires TakePass(h, got).log != h.log
    ensures HelperOk(l, who, TakePass(h, got)) && HelperGrows(h, TakePass(h, got))
  {
    var v := TakePass(h, got);
    var m := v.taskSeen.value.message;
    TakeLog(l, who, h, m);
    assert v.log == h.log + [Execution(m.sequence, m.task.value, None)];
    hide AssignmentsOk, LogOk, LeaseOk, Reported, Offered;
  }

  /** Only a later number issued to this very instance is executed, so no number is executed twice. */
  lemma TakeLog(l: Link, who: string, h: Helper, m: Message)
    requires AssignmentsOk(l) && LogOk(l.issued, l.instance, who, h.log, h.status.sequence, h.running)
             && m in l.assignments && m.instance == who && m.sequence > h.status.sequence && !h.running
    ensures m.task.Some?
    ensures LogOk(l.issued, l.instance, who, h.log + [Execution(m.sequence, m.task.value, None)], m.sequence, true)
  {
    if h.log != [] {
      forall i | 0 <= i < |h.log|
        ensures h.log[i].sequence < m.sequence && h.log[i].result.Some?
      {
        if i < |h.log| - 1 { assert h.log[i].sequence < h.log[|h.log| - 1].sequence; }
      }
    }
  }

  lemma TakeKeeps(l: Link, l': Link, who: string, got: Option<Entry>)
    requires Inv(l) && Next(l, HelperTake(who, got), l')
    ensures Inv(l')
  {
    var h := l.helpers[who];
    assert HelperOk(l, who, h);
    TakeHelper(l, who, h, got);
    HelperSame(l, l', who, l'.helpers[who]);
    hide HelperOk, TakePass, AssignmentsOk, FinishOk, LeasesOk, HelpersOk, ReportsOk, AcceptedOk, HelperGrows;
    HelperStepKeeps(l, l', who);
  }

  lemma FinishHelper(l: Link, who: string, h: Helper, result: BuildResult)
    requires HelperOk(l, who, h) && h.phase == Selecting && h.running && h.log != []
    ensures HelperOk(l, who, FinishTask(h, result)) && HelperGrows(h, FinishTask(h, result))
  {
    var v := FinishTask(h, result);
    var last := |h.log| - 1;
    assert forall i :: 0 <= i < last ==> v.log[i] == h.log[i];
    assert v.log[last] == h.log[last].(result := Some(result));
    assert LogOk(l.issued, l.instance, who, v.log, v.status.sequence, v.running);
    forall e | e in h.log && e.result.Some?
      ensures e in v.log
    {
      var i :| 0 <= i < |h.log| && h.log[i] == e;
      assert v.log[i] == e;
    }
    hide LogOk;
  }

  lemma FinishKeeps(l: Link, l': Link, who: string, result: BuildResult)
    requires Inv(l) && Next(l, HelperFinish(who, result), l')
    ensures Inv(l')
  {
    var h := l.helpers[who];
    assert HelperOk(l, who, h);
    FinishHelper(l, who, h, result);
    HelperSame(l, l', who, l'.helpers[who]);
    hide HelperOk, FinishTask, AssignmentsOk, FinishOk, LeasesOk, HelpersOk, ReportsOk, AcceptedOk, HelperGrows;
    HelperStepKeeps(l, l', who);
  }

  lemma PhaseStep(l: Link, l': Link, who: string, step: Step)
    requires (step == HelperTick(who) || step == HelperCancel(who)) && Next(l, step, l')
    ensures who in l.helpers && who in l'.helpers && l' == With(l, who, l'.helpers[who])
    ensures l'.helpers[who] == l.helpers[who].(phase := l'.helpers[who].phase) && l'.helpers[who].phase != Left(true)
  {
  }

  lemma PhaseKeeps(l: Link, l': Link, who: string, step: Step)
    requires Inv(l) && (step == HelperTick(who) || step == HelperCancel(who)) && Next(l, step, l')
    ensures Inv(l')
  {
    PhaseStep(l, l', who, step);
    hide Next;
    var h := l.helpers[who];
    assert HelperOk(l, who, h);
    PhaseHelper(l, l', who, h);
    hide HelperOk, AssignmentsOk, FinishOk, LeasesOk, HelpersOk, ReportsOk, AcceptedOk, HelperGrows;
    HelperStepKeeps(l, l', who);
  }

  lemma PhaseHelper(l: Link, l': Link, who: string, h: Helper)
    requires HelperOk(l, who, h) && who in l'.helpers && l' == l.(helpers := l'.helpers)
    requires l'.helpers[who] == h.(phase := l'.helpers[who].phase) && l'.helpers[who].phase != Left(true)
    ensures HelperOk(l', who, l'.helpers[who]) && HelperGrows(h, l'.helpers[who])
  {
    hide StateOk, LogOk, LeaseOk, Reported;
  }

  lemma InvInit(runner: nat, session: string, lease: int)
    ensures Inv(Protocol.Init(runner, session, lease))
  {
  }

  lemma InvNext(l: Link, step: Step, l': Link)
    requires Inv(l) && Next(l, step, l')
    ensures Inv(l')
  {
    hide Inv, Next;
    match step
    case Issue(instance, task) => IssueKeeps(l, l', instance, task);
    case Write(_, _, _) => WriteKeeps(l, l', step);
    case Poll(now, verified) => PollKeeps(l, l', now, verified);
    case Abandon => PlainKeeps(l, l', step);
    case Finish(_) => PlainKeeps(l, l', step);
    case Stop => PlainKeeps(l, l', step);
    case Heartbeat(stored, now) => HeartbeatKeeps(l, l', stored, now);
    case ReadStatus(got) => StatusKeeps(l, l', got);
    case Join(instance, cores, features, now) => JoinKeeps(l, l', instance, cores, features, now);
    case HelperLease(who, timing, now, got) => LeaseKeeps(l, l', who, timing, now, got);
    case HelperPublish(who, timing, now, stored, ok) => PublishKeeps(l, l', who, timing, now, stored, ok);
    case HelperTake(who, got) => TakeKeeps(l, l', who, got);
    case HelperFinish(who, result) => FinishKeeps(l, l', who, result);
    case HelperTick(who) => PhaseKeeps(l, l', who, step);
    case HelperCancel(who) => PhaseKeeps(l, l', who, step);
  }
}

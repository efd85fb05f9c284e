/** What a helper slot guarantees in every run, whatever its mailboxes lose or replay. */
module ProtocolTheorems {
  import opened Names
  import opened Messages
  import opened Mailbox
  import opened Builder
  import opened Remote
  import opened Protocol
  import opened ProtocolSafety

  ghost predicate Run(runner: nat, session: string, lease: int, ls: seq<Link>, steps: seq<Step>) {
    && |ls| == |steps| + 1 && ls[0] == Protocol.Init(runner, session, lease)
    && forall i :: 0 <= i < |steps| ==> Next(ls[i], steps[i], ls[i + 1])
  }

  lemma {:induction false} InvRun(runner: nat, session: string, lease: int, ls: seq<Link>, steps: seq<Step>, i: nat)
    requires Run(runner, session, lease, ls, steps) && i < |ls|
    ensures Inv(ls[i])
  {
    hide Next, Inv;
    if i == 0 {
      InvInit(runner, session, lease);
    } else {
      InvRun(runner, session, lease, ls, steps, i - 1);
      InvNext(ls[i - 1], steps[i - 1], ls[i]);
    }
  }

  /** An incarnation executes each number at most once, one at a time, in order, and only numbers already handed out. */
  lemma ExecutesOnce(runner: nat, session: string, lease: int, ls: seq<Link>, steps: seq<Step>, i: nat, who: string)
    requires Run(runner, session, lease, ls, steps) && i < |ls| && who in ls[i].helpers
    ensures
      var (l, log) := (ls[i], ls[i].helpers[who].log);
      && (forall a, b :: 0 <= a < b < |log| ==> log[a].sequence < log[b].sequence && log[a].result.Some?)
      && (forall a ::
            0 <= a < |log| ==>
              log[a].sequence in l.issued && 1 <= log[a].sequence <= l.sequence
              && log[a].task == l.issued[log[a].sequence])
      && l.helpers[who].status.sequence <= l.sequence
  {
    InvRun(runner, session, lease, ls, steps, i);
    assert HelperOk(ls[i], who, ls[i].helpers[who]);
    hide LeasesOk, ReportsOk, AcceptedOk, FinishOk, HelpersOk, StateOk;
  }

  /** Any result the coordinator accepts for a number was produced by executing exactly the task it wrote under it. */
  lemma AcceptedWasBuilt(runner: nat, session: string, lease: int, ls: seq<Link>, steps: seq<Step>, i: nat, n: nat)
    requires Run(runner, session, lease, ls, steps) && i < |ls| && n in ls[i].accepted
    ensures n in ls[i].issued && ls[i].instance in ls[i].helpers
    ensures Ran(ls[i].helpers[ls[i].instance].log, n, ls[i].issued[n], Built(ls[i].accepted[n]))
  {
    InvRun(runner, session, lease, ls, steps, i);
  }

  // ---- leaving

  ghost predicate Executed(log: seq<Execution>, n: nat) { exists e :: e in log && e.sequence == n && e.result.Some? }

  /** A helper as far along as the coordinator has executed every assignment written to it. */
  lemma CaughtUp(l: Link, who: string, m: Message)
    requires Inv(l) && who in l.helpers && !l.helpers[who].running && l.helpers[who].status.sequence >= l.sequence
    requires m in l.assignments && m.instance == who
    ensures Executed(l.helpers[who].log, m.sequence)
  {
    var h := l.helpers[who];
    assert HelperOk(l, who, h);
    assert m.sequence in l.issued && who == l.instance;
    if m.sequence < l.sequence {
      assert m.sequence in l.accepted;
      var e := Execution(m.sequence, l.issued[m.sequence], Some(Built(l.accepted[m.sequence])));
      assert e in h.log;
    } else {
      var e := h.log[|h.log| - 1];
      assert e in h.log && e.sequence == m.sequence;
    }
  }

  lemma FinishStays(l: Link, step: Step, l': Link)
    requires Inv(l) && Next(l, step, l') && l.finish.Some?
    ensures l'.finish == l.finish && l'.sequence == l.sequence && l'.runner == l.runner
  {
    hide Inv, LeasePass, PublishPass, TakePass, FinishTask, Judge, Observe, Boot, HeartbeatMessage, Assignment, Offered;
    match step {
      case Poll(now, verified) =>
        PollOutcome(l, l', now, verified);
        hide Next;
      case _ =>
    }
  }

  lemma LeftStays(l: Link, step: Step, l': Link, who: string)
    requires Next(l, step, l') && At(l, who, Left(true))
    ensures who in l'.helpers && l'.helpers[who] == l.helpers[who]
  {
    hide LeasePass, PublishPass, TakePass, FinishTask, Judge, Observe, Boot, HeartbeatMessage, Assignment, Offered;
  }

  lemma {:induction false} LeftForever(runner: nat, session: string, lease: int, ls: seq<Link>, steps: seq<Step>,
                                       i: nat, j: nat, who: string)
    requires Run(runner, session, lease, ls, steps) && i <= j < |ls| && At(ls[i], who, Left(true)) && ls[i].finish.Some?
    ensures who in ls[j].helpers && ls[j].helpers[who] == ls[i].helpers[who]
    ensures ls[j].sequence == ls[i].sequence && ls[j].finish == ls[i].finish
    decreases j
  {
    hide Next, Inv;
    if i < j {
      LeftForever(runner, session, lease, ls, steps, i, j - 1, who);
      InvRun(runner, session, lease, ls, steps, j - 1);
      LeftStays(ls[j - 1], steps[j - 1], ls[j], who);
      FinishStays(ls[j - 1], steps[j - 1], ls[j]);
    }
  }

  lemma LeavingFacts(l: Link, who: string)
    requires Inv(l) && At(l, who, Left(true)) && !l.stopped
    ensures l.finish.Some? && !l.helpers[who].running && l.helpers[who].status.sequence >= l.sequence
    ensures Reported(l.statuses, l.helpers[who].status)
  {
    assert HelperOk(l, who, l.helpers[who]);
    hide LogOk, StateOk, Reported, AssignmentsOk, LeasesOk, ReportsOk, AcceptedOk;
  }

  lemma {:induction false} StatusesKept(runner: nat, session: string, lease: int, ls: seq<Link>, steps: seq<Step>,
                                        i: nat, j: nat, status: Message)
    requires Run(runner, session, lease, ls, steps) && i <= j < |ls| && Reported(ls[i].statuses, status)
    ensures Reported(ls[j].statuses, status)
    decreases j
  {
    hide Next;
    if i < j {
      StatusesKept(runner, session, lease, ls, steps, i, j - 1, status);
      StatusesGrow(ls[j - 1], steps[j - 1], ls[j]);
      GrowsReported(ls[j - 1].statuses, ls[j].statuses, status);
    }
  }

  lemma StatusesGrow(l: Link, step: Step, l': Link)
    requires Next(l, step, l')
    ensures forall m :: m in l.statuses ==> m in l'.statuses
  {
    hide LeasePass, PublishPass, TakePass, FinishTask, Judge, Observe, Boot, HeartbeatMessage, Assignment, Offered;
  }

  /** A helper that leaves because of the finish vector, not of a stop signal, has executed every assignment that is or
      ever will be written to it, and its last status is in the mailbox. */
  lemma LeavingIsComplete(runner: nat, session: string, lease: int, ls: seq<Link>, steps: seq<Step>, i: nat, j: nat,
                          who: string, m: Message)
    requires Run(runner, session, lease, ls, steps) && i <= j < |ls|
    requires At(ls[i], who, Left(true)) && !ls[i].stopped
    ensures Reported(ls[j].statuses, ls[i].helpers[who].status)
    ensures m in ls[j].assignments && m.instance == who ==> Executed(ls[i].helpers[who].log, m.sequence)
  {
    InvRun(runner, session, lease, ls, steps, i);
    InvRun(runner, session, lease, ls, steps, j);
    hide Inv, Next, Reported;
    LeavingFacts(ls[i], who);
    LeftForever(runner, session, lease, ls, steps, i, j, who);
    StatusesKept(runner, session, lease, ls, steps, i, j, ls[i].helpers[who].status);
    if m in ls[j].assignments && m.instance == who { CaughtUp(ls[j], who, m); }
  }
}

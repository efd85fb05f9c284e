/** One helper slot of the pool: coordinator and helpers exchanging records through lossy, replaying mailboxes. */
module Protocol {
  import opened Names
  import opened Messages
  import opened Mailbox
  import opened Builder
  import opened Remote

  /** Everything one slot shares.  `issued`, `accepted` and the helpers' logs record what has happened;
      `helpers` holds every incarnation that ever served the slot, by its nonce. */
  datatype Link = Link(
    runner: nat, session: string, lease: int,
    sequence: nat, instance: string, issued: map<nat, Task>, wait: Option<Wait>, accepted: map<nat, string>,
    finish: Option<seq<nat>>, stopped: bool,
    statusSeen: Option<Entry>, latest: Option<Message>,
    leases: seq<Message>, assignments: seq<Message>, statuses: seq<Message>,
    helpers: map<string, Helper>)

  function Init(runner: nat, session: string, lease: int): Link {
    Link(runner, session, lease, 0, "", map[], None, map[], None, false, None, None, [], [], [], map[])
  }

  /** Labels resolve what the environment decides: which record a read returns, whether a write is stored and whether
      its caller learns of it, clocks, and results. */
  datatype Step =
    | Issue(instance: string, task: Task)
    | Write(stored: bool, ok: bool, now: int)
    | Poll(now: int, verified: bool)
    | Abandon
    | Finish(vector: seq<nat>)
    | Stop
    | Heartbeat(stored: bool, now: int)
    | ReadStatus(got: Option<Entry>)
    | Join(instance: string, cores: int, features: seq<string>, now: int)
    | HelperLease(who: string, timing: Timing, now: int, got: Option<Entry>)
    | HelperPublish(who: string, timing: Timing, now: int, stored: bool, ok: bool)
    | HelperTake(who: string, got: Option<Entry>)
    | HelperFinish(who: string, result: BuildResult)
    | HelperTick(who: string)
    | HelperCancel(who: string)

  predicate At(l: Link, who: string, phase: Phase) { who in l.helpers && l.helpers[who].phase == phase }

  function Assignment(l: Link, w: Wait, now: int): Message {
    EMPTY.(session := l.session, instance := w.instance, sequence := w.sequence, state := "build", task := Some(w.task),
           sent := now)
  }

  function HeartbeatMessage(l: Link, now: int): Message {
    EMPTY.(session := l.session, state := if l.stopped then "stop" else "running",
           finish := if l.finish.Some? then l.finish.value else [], sent := now)
  }

  predicate Enabled(l: Link, step: Step) {
    match step
    case Issue(instance, _) =>
      && l.finish.None? && l.wait.None? && instance != "" && (l.instance == "" || l.instance == instance)
      && (l.sequence > 0 ==> l.sequence in l.accepted)
    case Write(stored, ok, _) => l.wait.Some? && l.wait.value.since.None? && (ok ==> stored)
    case Poll(_, _) => l.wait.Some? && l.wait.value.since.Some?
    case Abandon => l.wait.Some?
    case Finish(vector) => l.finish.None? && |vector| == RUNNERS && l.runner < RUNNERS && vector[l.runner] == l.sequence
    case Stop => true
    case Heartbeat(_, _) => true
    case ReadStatus(got) => Offered(l.statuses, got)
    case Join(instance, _, _, _) => instance != "" && instance !in l.helpers
    case HelperLease(who, _, _, got) => At(l, who, Leasing) && Offered(l.leases, got)
    case HelperPublish(who, _, _, stored, ok) => At(l, who, Publishing) && (ok ==> stored)
    case HelperTake(who, got) => At(l, who, Taking) && Offered(l.assignments, got)
    case HelperFinish(who, _) => At(l, who, Selecting) && l.helpers[who].running && l.helpers[who].log != []
    case HelperTick(who) => At(l, who, Selecting)
    case HelperCancel(who) => At(l, who, Selecting)
  }

  function With(l: Link, who: string, h: Helper): Link { l.(helpers := l.helpers[who := h]) }

  function After(l: Link, step: Step): Link
    requires Enabled(l, step)
  {
    match step
    case Issue(instance, task) =>
      var n := l.sequence + 1;
      l.(sequence := n, instance := instance, issued := l.issued[n := task],
         wait := Some(Wait(n, instance, task, None, false)))
    case Write(stored, ok, now) =>
      l.(assignments := if stored then l.assignments + [Assignment(l, l.wait.value, now)] else l.assignments,
         wait := if ok then Some(l.wait.value.(since := Some(now))) else None)
    case Poll(now, verified) =>
      var verdict := Judge(l.wait.value, l.latest, now, l.lease, verified);
      (match verdict
       case Pending(acknowledged) => l.(wait := Some(l.wait.value.(acknowledged := acknowledged)))
       case Failure => l.(wait := None)
       case Result(snapshot) => l.(wait := None, accepted := l.accepted[l.wait.value.sequence := snapshot]))
    case Abandon => l.(wait := None)
    case Finish(vector) => l.(finish := Some(vector))
    case Stop => l.(stopped := true)
    case Heartbeat(stored, now) => if stored then l.(leases := l.leases + [HeartbeatMessage(l, now)]) else l
    case ReadStatus(got) =>
      l.(statusSeen := Keep(l.statusSeen, got), latest := Observe(l.session, l.latest, Answer(l.statusSeen, got)))
    case Join(instance, cores, features, now) => With(l, instance, Boot(l.runner, instance, cores, features, now))
    case HelperLease(who, timing, now, got) => With(l, who, LeasePass(l.helpers[who], timing, now, got))
    case HelperPublish(who, timing, now, stored, ok) =>
      var h := l.helpers[who];
      With(l.(statuses := if stored && Publishes(h, timing, now) then l.statuses + [h.status.(sent := now)]
                          else l.statuses),
           who, PublishPass(h, timing, now, ok))
    case HelperTake(who, got) => With(l, who, TakePass(l.helpers[who], got))
    case HelperFinish(who, result) => With(l, who, FinishTask(l.helpers[who], result))
    case HelperTick(who) => With(l, who, l.helpers[who].(phase := Leasing))
    case HelperCancel(who) => With(l, who, l.helpers[who].(phase := Left(false)))
  }

  predicate Next(l: Link, step: Step, l': Link) { Enabled(l, step) && l' == After(l, step) }

  // ---- what every reachable link satisfies

  ghost predicate Ran(log: seq<Execution>, n: nat, task: Task, result: BuildResult) {
    Execution(n, task, Some(result)) in log
  }

  /** Every record the coordinator wrote carries the task it issued under that number, for the one instance it ever
      uses. */
  ghost predicate AssignmentsOk(l: Link) {
    && (forall n :: n in l.issued <==> 1 <= n <= l.sequence)
    && (l.sequence > 0 ==> l.instance != "")
    && (forall m :: m in l.assignments ==>
          m.session == l.session && m.instance == l.instance && m.state == "build" && m.sequence in l.issued
          && m.task == Some(l.issued[m.sequence]))
    && (l.wait.Some? ==> WaitOk(l, l.wait.value))
  }

  ghost predicate WaitOk(l: Link, w: Wait) {
    && w.sequence == l.sequence && w.instance == l.instance
    && l.sequence in l.issued && w.task == l.issued[l.sequence] && l.sequence !in l.accepted
  }

  ghost predicate FinishOk(l: Link) {
    l.finish.Some? ==> |l.finish.value| == RUNNERS && l.runner < RUNNERS && l.finish.value[l.runner] == l.sequence
  }

  ghost predicate LeaseOk(session: string, stopped: bool, finish: Option<seq<nat>>, m: Message) {
    && m.session == session && (m.state == "stop" ==> stopped)
    && (m.finish == [] || (finish.Some? && m.finish == finish.value))
  }

  ghost predicate LeasesOk(l: Link) { forall m :: m in l.leases ==> LeaseOk(l.session, l.stopped, l.finish, m) }

  /** The log of one incarnation: issued tasks, each number once and in order, everything but the last entry
      finished. */
  ghost predicate LogOk(issued: map<nat, Task>, instance: string, who: string, log: seq<Execution>, sequence: nat,
                        running: bool) {
    && (log != [] ==> who == instance)
    && (forall i :: 0 <= i < |log| ==> log[i].sequence in issued && log[i].task == issued[log[i].sequence])
    && (forall i, j :: 0 <= i < j < |log| ==> log[i].sequence < log[j].sequence)
    && (forall i :: 0 <= i < |log| - 1 ==> log[i].result.Some?)
    && sequence == (if log == [] then 0 else log[|log| - 1].sequence)
    && (running <==> log != [] && log[|log| - 1].result.None?)
  }

  /** The state a helper reports is the state of its last execution. */
  ghost predicate StateOk(log: seq<Execution>, state: string, snapshot: string) {
    if log == [] then state == "ready"
    else
      match log[|log| - 1].result
      case None => state == "busy"
      case Some(Built(s)) => state == "done" && snapshot == s
      case Some(Broken) => state == "failed"
  }

  ghost predicate SameReport(a: Message, b: Message) {
    a.session == b.session && a.instance == b.instance && a.sequence == b.sequence && a.state == b.state
    && a.snapshot == b.snapshot
  }

  /** The helper's current status is among the records of its mailbox. */
  ghost predicate Reported(statuses: seq<Message>, status: Message) {
    exists m :: m in statuses && SameReport(m, status)
  }

  ghost predicate HelperOk(l: Link, who: string, h: Helper) {
    && h.runner == l.runner && h.status.instance == who && (h.status.session == "" || h.status.session == l.session)
    && LogOk(l.issued, l.instance, who, h.log, h.status.sequence, h.running)
    && StateOk(h.log, h.status.state, h.status.snapshot)
    && (h.taskSeen.Some? ==> h.taskSeen.value.message in l.assignments)
    && (h.leaseSeen.Some? ==> LeaseOk(l.session, l.stopped, l.finish, h.leaseSeen.value.message))
    && (h.coordinator.Some? ==> LeaseOk(l.session, l.stopped, l.finish, h.coordinator.value))
    && (h.stopping ==>
          l.stopped
          || (l.finish.Some? && l.runner < RUNNERS && |l.finish.value| == RUNNERS
              && h.status.sequence >= l.finish.value[l.runner]))
    && (h.lastPublished.Some? ==> h.status.session != "" && Reported(l.statuses, h.status))
    && (h.phase == Left(true) ==> h.stopping && !h.running && h.lastPublished.Some?)
  }

  ghost predicate HelpersOk(l: Link) { forall who :: who in l.helpers ==> HelperOk(l, who, l.helpers[who]) }

  /** A report never runs ahead of its helper, and "done" reports an execution that produced that snapshot. */
  ghost predicate ReportOk(l: Link, m: Message) {
    && m.instance in l.helpers
    && m.sequence <= l.helpers[m.instance].status.sequence
    && (m.state == "done" ==>
          m.sequence in l.issued && Ran(l.helpers[m.instance].log, m.sequence, l.issued[m.sequence], Built(m.snapshot)))
  }

  ghost predicate ReportsOk(l: Link) {
    && (forall m :: m in l.statuses ==> ReportOk(l, m))
    && (l.statusSeen.Some? ==> ReportOk(l, l.statusSeen.value.message))
    && (l.latest.Some? ==> ReportOk(l, l.latest.value))
  }

  ghost predicate AcceptedOk(l: Link) {
    && (forall n ::
          n in l.accepted ==>
            n in l.issued && l.instance in l.helpers
            && Ran(l.helpers[l.instance].log, n, l.issued[n], Built(l.accepted[n])))
    && (forall n :: 1 <= n < l.sequence ==> n in l.accepted)
  }

  ghost predicate Inv(l: Link) {
    AssignmentsOk(l) && FinishOk(l) && LeasesOk(l) && HelpersOk(l) && ReportsOk(l) && AcceptedOk(l)
  }
}

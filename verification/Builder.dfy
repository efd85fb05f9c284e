/** The helper loop `servePoolBuilder` (worker/builder.go:27-118), one mailbox access or event at a time. */
module Builder {
  import opened Names
  import opened Messages
  import opened Mailbox

  datatype Timing = Timing(poll: int, heartbeat: int, lease: int, startup: int)

  datatype BuildResult = Built(snapshot: string) | Broken

  /** One call of `execute`; `result` is absent while it runs. */
  datatype Execution = Execution(sequence: nat, task: Task, result: Option<BuildResult>)

  datatype Phase = Leasing | Publishing | Taking | Selecting | Left(orderly: bool)

  /** The loop's variables, its two mailbox records, and the log of its executions.  The last log entry is running
      while it has no result; `lastPublished` is absent for Go's zero time. */
  datatype Helper = Helper(
    runner: nat, status: Message, running: bool, stopping: bool, coordinator: Option<Message>,
    started: int, lastPublished: Option<int>, nextLeaseRead: int,
    leaseSeen: Option<Entry>, taskSeen: Option<Entry>, phase: Phase, log: seq<Execution>)

  function Boot(runner: nat, instance: string, cores: int, features: seq<string>, now: int): Helper {
    Helper(runner, EMPTY.(cores := cores, instance := instance, state := "ready", features := features),
      false, false, None, now, None, now, None, None, Leasing, [])
  }

  function Max(a: int, b: int): int { if a < b then b else a }

  /** Lines 48-54. */
  function ReadLease(h: Helper, timing: Timing, now: int, got: Option<Entry>): Helper {
    if !h.running || now >= h.nextLeaseRead || !Fresh(h.coordinator, now, timing.lease) then
      var m := Answer(h.leaseSeen, got);
      h.(leaseSeen := Keep(h.leaseSeen, got), coordinator := if m.Some? then m else h.coordinator,
         nextLeaseRead := now + Max(timing.poll, timing.heartbeat / 2))
    else h
  }

  /** The stop signal, or a finish vector this helper has caught up with (line 62). */
  predicate Dismissed(m: Message, runner: nat, sequence: nat) {
    m.state == "stop" || (|m.finish| == RUNNERS && runner < RUNNERS && sequence >= m.finish[runner])
  }

  /** Lines 55-65, then 67-78. */
  function CheckLease(h: Helper, timing: Timing, now: int): Helper {
    if Fresh(h.coordinator, now, timing.lease) then
      var c := h.coordinator.value;
      var session := if h.status.session == "" then c.session else h.status.session;
      var k := h.(status := h.status.(session := session));
      if session != c.session then k.(phase := Left(false))
      else
        var l := k.(stopping := k.stopping || Dismissed(c, k.runner, k.status.sequence));
        if session == "" then
          if now - l.started >= timing.startup then l.(phase := Left(false)) else l.(phase := Publishing)
        else l.(started := c.sent, phase := Publishing)
    else if h.status.session == "" then
      if now - h.started >= timing.startup then h.(phase := Left(false)) else h.(phase := Publishing)
    else
      if now - h.started >= timing.lease then h.(phase := Left(false)) else h.(phase := Publishing)
  }

  function LeasePass(h: Helper, timing: Timing, now: int, got: Option<Entry>): Helper {
    CheckLease(ReadLease(h, timing, now, got), timing, now)
  }

  predicate Publishes(h: Helper, timing: Timing, now: int) {
    h.status.session != "" && (h.lastPublished.None? || now - h.lastPublished.value >= timing.heartbeat)
  }

  /** Lines 80-88; `ok` is the outcome of the write, if one is made. */
  function PublishPass(h: Helper, timing: Timing, now: int, ok: bool): Helper {
    var k := if Publishes(h, timing, now) && ok then h.(lastPublished := Some(now)) else h;
    if k.stopping && !k.running && k.lastPublished.Some? then k.(phase := Left(true)) else k.(phase := Taking)
  }

  predicate Accepts(h: Helper, m: Message) {
    m.session == h.status.session && m.instance == h.status.instance && m.sequence > h.status.sequence
  }

  /** Lines 89-104. */
  function TakePass(h: Helper, got: Option<Entry>): Helper {
    if h.status.session == "" || h.stopping || h.running then h.(phase := Selecting)
    else
      var m := Answer(h.taskSeen, got);
      var k := h.(taskSeen := Keep(h.taskSeen, got));
      if m.None? || !Accepts(h, m.value) then k.(phase := Selecting)
      else if m.value.state != "build" || m.value.task.None? then k.(phase := Left(false))
      else
        k.(status := k.status.(sequence := m.value.sequence, state := "busy", snapshot := ""),
           lastPublished := None, running := true,
           log := k.log + [Execution(m.value.sequence, m.value.task.value, None)], phase := Selecting)
  }

  /** Lines 109-115. */
  function FinishTask(h: Helper, result: BuildResult): Helper
    requires h.log != []
  {
    var last := |h.log| - 1;
    h.(running := false, lastPublished := None, phase := Leasing,
       log := h.log[last := h.log[last].(result := Some(result))],
       status := match result
                 case Built(snapshot) => h.status.(state := "done", snapshot := snapshot)
                 case Broken => h.status.(state := "failed", snapshot := ""))
  }

  /** The same loop with its variables updated in place. */
  class Server {
    const runner: nat
    const timing: Timing
    const leases: Record
    const tasks: Record
    var status: Message
    var running: bool
    var stopping: bool
    var coordinator: Option<Message>
    var started: int
    var lastPublished: Option<int>
    var nextLeaseRead: int
    ghost var phase: Phase
    ghost var log: seq<Execution>

    ghost function View(): Helper
      reads this, leases, tasks
    {
      Helper(runner, status, running, stopping, coordinator, started, lastPublished, nextLeaseRead, leases.seen,
             tasks.seen, phase, log)
    }

    constructor (runner: nat, timing: Timing, instance: string, cores: int, features: seq<string>, now: int)
      ensures View() == Boot(runner, instance, cores, features, now)
      ensures this.timing == timing && leases != tasks && fresh(leases) && fresh(tasks)
    {
      var l := new Record();
      var t := new Record();
      this.runner, this.timing, leases, tasks := runner, timing, l, t;
      status := EMPTY.(cores := cores, instance := instance, state := "ready", features := features);
      running, stopping, coordinator := false, false, None;
      started, lastPublished, nextLeaseRead := now, None, now;
      phase, log := Leasing, [];
    }

    /** Lines 48-54. */
    method Poll(now: int, got: Option<Entry>)
      requires leases != tasks
      modifies this`coordinator, this`nextLeaseRead, leases
      ensures View() == ReadLease(old(View()), timing, now, got)
    {
      if !running || now >= nextLeaseRead || !Fresh(coordinator, now, timing.lease) {
        var message := leases.Read(got);
        if message.Some? { coordinator := message; }
        nextLeaseRead := now + Max(timing.poll, timing.heartbeat / 2);
      }
    }

    /** Lines 55-78; false means an error return. */
    method Check(now: int) returns (ok: bool)
      modifies this
      ensures View() == CheckLease(old(View()), timing, now)
      ensures ok <==> phase != Left(false)
    {
      ok := true;
      if Fresh(coordinator, now, timing.lease) {
        if status.session == "" { status := status.(session := coordinator.value.session); }
        if status.session != coordinator.value.session {
          phase := Left(false);
          return false;
        }
        if Dismissed(coordinator.value, runner, status.sequence) { stopping := true; }
      }
      if status.session == "" {
        ok := now - started < timing.startup;
      } else if !Fresh(coordinator, now, timing.lease) {
        ok := now - started < timing.lease;
      } else {
        started := coordinator.value.sent;
      }
      phase := if ok then Publishing else Left(false);
    }

    /** Lines 46-78. */
    method Lease(now: int, got: Option<Entry>) returns (ok: bool)
      requires leases != tasks
      modifies this, leases
      ensures View() == LeasePass(old(View()), timing, now, got)
      ensures ok <==> phase != Left(false)
    {
      hide ReadLease, CheckLease;
      Poll(now, got);
      ok := Check(now);
    }

    /** Lines 80-88: the record written, if any, before the outcome of the write is known. */
    method Publish(now: int, ok: bool) returns (written: Option<Message>, left: bool)
      modifies this
      ensures View() == PublishPass(old(View()), timing, now, ok)
      ensures written == if Publishes(old(View()), timing, now) then Some(status.(sent := now)) else None
      ensures left <==> phase == Left(true)
    {
      written := None;
      if status.session != "" && (lastPublished.None? || now - lastPublished.value >= timing.heartbeat) {
        written := Some(status.(sent := now));
        if ok { lastPublished := Some(now); }
      }
      left := stopping && !running && lastPublished.Some?;
      phase := if left then Left(true) else Taking;
    }

    /** Lines 89-104; false means an error return. */
    method Take(got: Option<Entry>) returns (ok: bool, task: Option<Task>)
      requires leases != tasks
      modifies this, tasks
      ensures View() == TakePass(old(View()), got)
      ensures ok <==> phase != Left(false)
      ensures task.Some? ==> running && log == old(log) + [Execution(status.sequence, task.value, None)]
      ensures task.None? ==> log == old(log)
    {
      ok, task := true, None;
      phase := Selecting;
      if status.session == "" || stopping || running { return; }
      var assignment := tasks.Read(got);
      if assignment.None? { return; }
      var m := assignment.value;
      if m.session != status.session || m.instance != status.instance || m.sequence <= status.sequence { return; }
      if m.state != "build" || m.task.None? {
        phase := Left(false);
        return false, None;
      }
      status := status.(sequence := m.sequence, state := "busy", snapshot := "");
      lastPublished, running, task := None, true, m.task;
      log := log + [Execution(m.sequence, m.task.value, None)];
    }

    /** Lines 109-115. */
    method Finished(result: BuildResult)
      requires log != []
      modifies this
      ensures View() == FinishTask(old(View()), result)
    {
      running := false;
      match result {
        case Built(snapshot) => status := status.(state := "done", snapshot := snapshot);
        case Broken => status := status.(state := "failed", snapshot := "");
      }
      lastPublished, phase := None, Leasing;
      log := log[|log| - 1 := log[|log| - 1].(result := Some(result))];
    }
  }
}

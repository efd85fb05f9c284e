/** When a helper leaves and what it does until then, over whole runs of `servePoolBuilder`
    (worker/builder.go:27-118). */
module BuilderRuns {
  import opened Names
  import opened Messages
  import opened Mailbox
  import opened Builder

  /** One part of a pass, with what the environment decides in it. */
  datatype Turn =
    | Leases(now: int, got: Option<Entry>)
    | Writes(now: int, ok: bool)
    | Takes(got: Option<Entry>)
    | Waits
    | Ends(result: BuildResult)

  predicate Step(h: Helper, timing: Timing, turn: Turn, k: Helper) {
    match turn
    case Leases(now, got) => h.phase == Leasing && k == LeasePass(h, timing, now, got)
    case Writes(now, ok) => h.phase == Publishing && k == PublishPass(h, timing, now, ok)
    case Takes(got) => h.phase == Taking && k == TakePass(h, got)
    case Waits => h.phase == Selecting && k == h.(phase := Leasing)
    case Ends(result) => h.phase == Selecting && h.running && h.log != [] && k == FinishTask(h, result)
  }

  /** A run of a helper that booted at `boot`. */
  ghost predicate Serves(hs: seq<Helper>, timing: Timing, turns: seq<Turn>, boot: int) {
    && |hs| == |turns| + 1 && hs[0].phase == Leasing && hs[0].started == boot && hs[0].status.session == ""
    && hs[0].coordinator.None? && hs[0].leaseSeen.None? && !hs[0].stopping && !hs[0].running
    && forall i :: 0 <= i < |turns| ==> Step(hs[i], timing, turns[i], hs[i + 1])
  }

  // ---- one pass

  /** The lease that a pass goes by is the one just read, if one was due and the read did not fail. */
  lemma LeaseRead(h: Helper, timing: Timing, now: int, got: Option<Entry>)
    ensures
      var due := !h.running || now >= h.nextLeaseRead || !Fresh(h.coordinator, now, timing.lease);
      var k := LeasePass(h, timing, now, got);
      && k.coordinator == (if due && got.Some? then Answer(h.leaseSeen, got) else h.coordinator)
      && k.leaseSeen == (if due then Keep(h.leaseSeen, got) else h.leaseSeen)
      && k.nextLeaseRead == (if !due then h.nextLeaseRead
                             else if timing.poll >= timing.heartbeat / 2 then now + timing.poll
                             else now + timing.heartbeat / 2)
  {
    ReadExactly(h, timing, now, got);
    var l := ReadLease(h, timing, now, got);
    hide ReadLease;
    CheckExactly(l, timing, now);
    hide CheckLease;
  }

  lemma ReadExactly(h: Helper, timing: Timing, now: int, got: Option<Entry>)
    ensures
      var due := !h.running || now >= h.nextLeaseRead || !Fresh(h.coordinator, now, timing.lease);
      ReadLease(h, timing, now, got)
      == if !due then h
         else h.(coordinator := if got.Some? then Answer(h.leaseSeen, got) else h.coordinator,
                 leaseSeen := Keep(h.leaseSeen, got),
                 nextLeaseRead := now + if timing.poll >= timing.heartbeat / 2 then timing.poll
                                        else timing.heartbeat / 2)
  {
  }

  /** The session that a helper is in after the pass: its own, or the one it now learns of. */
  function SessionOf(h: Helper, c: Option<Message>, current: bool): string {
    if h.status.session == "" && current && c.Some? then c.value.session else h.status.session
  }

  /** A pass ends in an error exactly if a fresh lease is of another session, or there is no session though the startup
      time is over, or there is one without a fresh lease and the last fresh lease was sent a lease time ago. */
  lemma LeavesExactly(h: Helper, timing: Timing, now: int, got: Option<Entry>)
    requires h.phase == Leasing
    ensures
      var k := LeasePass(h, timing, now, got);
      var current := Fresh(k.coordinator, now, timing.lease);
      && k.phase == (if (current && h.status.session != "" && k.coordinator.value.session != h.status.session)
                        || (k.status.session == "" && now - h.started >= timing.startup)
                        || (k.status.session != "" && !current && now - h.started >= timing.lease)
                     then Left(false) else Publishing)
      && k.status == h.status.(session := SessionOf(h, k.coordinator, current))
      && k.started == (if k.phase == Publishing && k.status.session != "" && current then k.coordinator.value.sent
                       else h.started)
      && k == h.(status := k.status, stopping := k.stopping, coordinator := k.coordinator, leaseSeen := k.leaseSeen,
                 started := k.started, nextLeaseRead := k.nextLeaseRead, phase := k.phase)
  {
    ReadFrame(h, timing, now, got);
    var l := ReadLease(h, timing, now, got);
    hide ReadLease;
    CheckExactly(l, timing, now);
    hide CheckLease;
  }

  lemma ReadFrame(h: Helper, timing: Timing, now: int, got: Option<Entry>)
    ensures
      var k := ReadLease(h, timing, now, got);
      k == h.(leaseSeen := k.leaseSeen, coordinator := k.coordinator, nextLeaseRead := k.nextLeaseRead)
  {
  }

  lemma CheckExactly(h: Helper, timing: Timing, now: int)
    ensures
      var k := CheckLease(h, timing, now);
      var current := Fresh(h.coordinator, now, timing.lease);
      && k == h.(status := k.status, stopping := k.stopping, started := k.started, phase := k.phase)
      && k.status == h.status.(session := SessionOf(h, h.coordinator, current))
      && k.phase == (if (current && h.status.session != "" && h.coordinator.value.session != h.status.session)
                        || (k.status.session == "" && now - h.started >= timing.startup)
                        || (k.status.session != "" && !current && now - h.started >= timing.lease)
                     then Left(false) else Publishing)
      && k.started == (if k.phase == Publishing && k.status.session != "" && current then h.coordinator.value.sent
                       else h.started)
  {
  }

  /** A helper stops on the stop signal, or on a finish vector that it has caught up with, of its own session. */
  lemma StopsExactly(h: Helper, timing: Timing, now: int, got: Option<Entry>)
    ensures
      var k := LeasePass(h, timing, now, got);
      k.stopping
      <==> h.stopping
           || (Fresh(k.coordinator, now, timing.lease) && k.coordinator.value.session == k.status.session
               && (k.coordinator.value.state == "stop"
                   || (|k.coordinator.value.finish| == 4 && k.runner < 4
                       && k.coordinator.value.finish[k.runner] <= k.status.sequence)))
  {
    ReadFrame(h, timing, now, got);
    var l := ReadLease(h, timing, now, got);
    hide ReadLease;
    CheckStops(l, timing, now);
    hide CheckLease;
  }

  lemma CheckStops(h: Helper, timing: Timing, now: int)
    ensures
      var k := CheckLease(h, timing, now);
      && k.coordinator == h.coordinator && k.runner == h.runner && k.status.sequence == h.status.sequence
      && (k.stopping
          <==> h.stopping
               || (Fresh(k.coordinator, now, timing.lease) && k.coordinator.value.session == k.status.session
                   && (k.coordinator.value.state == "stop"
                       || (|k.coordinator.value.finish| == 4 && k.runner < 4
                           && k.coordinator.value.finish[k.runner] <= k.status.sequence))))
  {
  }

  /** Once stopping, idle and published it leaves in good order; otherwise it goes on. A due status is written at the
      latest a heartbeat after the last one. */
  lemma PublishesExactly(h: Helper, timing: Timing, now: int, ok: bool)
    ensures
      var k := PublishPass(h, timing, now, ok);
      var due := h.status.session != "" && (h.lastPublished.None? || now >= h.lastPublished.value + timing.heartbeat);
      && (Publishes(h, timing, now) <==> due)
      && k.lastPublished == (if due && ok then Some(now) else h.lastPublished)
      && k.phase == (if h.stopping && !h.running && (h.lastPublished.Some? || (due && ok)) then Left(true) else Taking)
      && k == h.(lastPublished := k.lastPublished, phase := k.phase)
  {
  }

  /** An idle helper that is not stopping starts the task that it reads, if it is a later one of its own; a record of
      that kind without a task is an error. A new task is announced at once. */
  lemma TakesExactly(h: Helper, got: Option<Entry>)
    ensures
      var polls := h.status.session != "" && !h.stopping && !h.running;
      var m := if polls then Answer(h.taskSeen, got) else None;
      var later := m.Some? && m.value.session == h.status.session && m.value.instance == h.status.instance
                   && m.value.sequence > h.status.sequence;
      var k := TakePass(h, got);
      && k.taskSeen == (if polls then Keep(h.taskSeen, got) else h.taskSeen)
      && k.phase == (if later && (m.value.state != "build" || m.value.task.None?) then Left(false) else Selecting)
      && (if later && m.value.state == "build" && m.value.task.Some? then
            k == h.(taskSeen := k.taskSeen, phase := k.phase, running := true, lastPublished := None,
                    status := h.status.(sequence := m.value.sequence, state := "busy", snapshot := ""),
                    log := h.log + [Execution(m.value.sequence, m.value.task.value, None)])
          else k == h.(taskSeen := k.taskSeen, phase := k.phase))
  {
  }

  // ---- the last fresh lease

  /** The pass checked a fresh lease in the session of the helper. */
  predicate Checks(timing: Timing, turn: Turn, k: Helper) {
    turn.Leases? && k.phase == Publishing && k.status.session != "" && Fresh(k.coordinator, turn.now, timing.lease)
  }

  /** Turn `c` was the last one to check a fresh lease. */
  ghost predicate LastCheck(hs: seq<Helper>, timing: Timing, turns: seq<Turn>, i: int, c: int)
    requires |hs| == |turns| + 1 && 0 <= i <= |turns|
  {
    0 <= c < i && Checks(timing, turns[c], hs[c + 1]) && forall j :: c < j < i ==> !Checks(timing, turns[j], hs[j + 1])
  }

  lemma OtherTurn(h: Helper, timing: Timing, turn: Turn, k: Helper)
    requires Step(h, timing, turn, k) && !turn.Leases?
    ensures k.started == h.started && k.coordinator == h.coordinator && k.leaseSeen == h.leaseSeen
    ensures k.status.session == h.status.session && k.stopping == h.stopping
  {
  }

  lemma LeaseTurn(h: Helper, timing: Timing, turn: Turn, k: Helper)
    requires Step(h, timing, turn, k) && turn.Leases?
    ensures k.started == if Checks(timing, turn, k) then k.coordinator.value.sent else h.started
    ensures k.status.session == "" ==> h.status.session == "" && k.started == h.started
    ensures h.status.session == "" && k.status.session != "" && k.phase != Left(false) ==> Checks(timing, turn, k)
  {
    LeavesExactly(h, timing, turn.now, turn.got);
    hide LeasePass;
  }

  /** The time that a helper measures from: its boot while it has no session, and otherwise when the last fresh lease
      was sent. */
  lemma {:induction false} MeasuresFrom(hs: seq<Helper>, timing: Timing, turns: seq<Turn>, boot: int, i: nat)
    returns (c: nat)
    requires Serves(hs, timing, turns, boot) && i < |hs| && hs[i].phase != Left(false)
    ensures if hs[i].status.session == "" then hs[i].started == boot
            else LastCheck(hs, timing, turns, i, c) && hs[c + 1].coordinator.Some?
                 && hs[i].started == hs[c + 1].coordinator.value.sent
  {
    hide *;
    AtBoot(hs, timing, turns, boot);
    c := 0;
    if i > 0 {
      StepAt(hs, timing, turns, boot, i - 1);
      c := MeasuresFrom(hs, timing, turns, boot, i - 1);
      LastCheckMore(hs, timing, turns, i - 1, c);
      if turns[i - 1].Leases? {
        LeaseTurn(hs[i - 1], timing, turns[i - 1], hs[i]);
        if Checks(timing, turns[i - 1], hs[i]) { c := i - 1; }
      } else {
        OtherTurn(hs[i - 1], timing, turns[i - 1], hs[i]);
      }
    }
  }

  lemma AtBoot(hs: seq<Helper>, timing: Timing, turns: seq<Turn>, boot: int)
    requires Serves(hs, timing, turns, boot)
    ensures |hs| == |turns| + 1 && hs[0].started == boot && hs[0].status.session == "" && hs[0].coordinator.None?
    ensures !hs[0].stopping
  {
    hide Step;
  }

  lemma LastCheckMore(hs: seq<Helper>, timing: Timing, turns: seq<Turn>, i: nat, c: nat)
    requires |hs| == |turns| + 1 && i < |turns|
    ensures if Checks(timing, turns[i], hs[i + 1]) then
              turns[i].Leases? && hs[i + 1].coordinator.Some? && LastCheck(hs, timing, turns, i + 1, i)
            else LastCheck(hs, timing, turns, i, c) ==> LastCheck(hs, timing, turns, i + 1, c)
  {
  }

  lemma StepAt(hs: seq<Helper>, timing: Timing, turns: seq<Turn>, boot: int, i: nat)
    requires Serves(hs, timing, turns, boot) && i < |turns|
    ensures |hs| == |turns| + 1 && Step(hs[i], timing, turns[i], hs[i + 1]) && hs[i].phase != Left(false)
  {
    hide LeasePass, PublishPass, TakePass, FinishTask;
  }

  /** When a pass ends in an error, in terms of what was read and when: a fresh lease of another session, no session at
      the end of the startup time, or no fresh lease for a lease time since the last one was sent. */
  lemma LeavesInTime(hs: seq<Helper>, timing: Timing, turns: seq<Turn>, boot: int, i: nat) returns (c: nat)
    requires Serves(hs, timing, turns, boot) && i < |turns| && turns[i].Leases?
    ensures hs[i].status.session != "" ==> LastCheck(hs, timing, turns, i, c) && hs[c + 1].coordinator.Some?
    ensures
      var (h, k, now) := (hs[i], hs[i + 1], turns[i].now);
      var current := Fresh(k.coordinator, now, timing.lease);
      k.phase == Left(false)
      <==> if h.status.session == "" then
             now - boot >= timing.startup && !(current && k.coordinator.value.session != "")
           else if current then k.coordinator.value.session != h.status.session
           else now >= hs[c + 1].coordinator.value.sent + timing.lease
  {
    StepAt(hs, timing, turns, boot, i);
    c := MeasuresFrom(hs, timing, turns, boot, i);
    LeavesExactly(hs[i], timing, turns[i].now, turns[i].got);
    hide LeasePass, Serves, LastCheck;
  }

  // ---- leases only move forward

  lemma LeaseGrows(h: Helper, timing: Timing, turn: Turn, k: Helper)
    requires Step(h, timing, turn, k) && (h.coordinator.Some? ==> LeaseKept(h))
    ensures k.coordinator.Some? ==> LeaseKept(k)
    ensures h.coordinator.Some? ==> k.coordinator.Some? && k.coordinator.value.sent >= h.coordinator.value.sent
  {
    if turn.Leases? {
      LeaseRead(h, timing, turn.now, turn.got);
      hide LeasePass;
    } else {
      OtherTurn(h, timing, turn, k);
      hide Step;
    }
  }

  predicate LeaseKept(h: Helper) {
    h.coordinator.Some? && h.leaseSeen.Some? && h.coordinator.value == h.leaseSeen.value.message
  }

  lemma {:induction false} LeasesGrow(hs: seq<Helper>, timing: Timing, turns: seq<Turn>, boot: int, i: nat, j: nat)
    requires Serves(hs, timing, turns, boot) && i <= j < |hs|
    ensures hs[j].coordinator.Some? ==> LeaseKept(hs[j])
    ensures hs[i].coordinator.Some? ==>
              hs[j].coordinator.Some? && hs[j].coordinator.value.sent >= hs[i].coordinator.value.sent
    decreases j
  {
    hide *;
    AtBoot(hs, timing, turns, boot);
    if j > 0 {
      StepAt(hs, timing, turns, boot, j - 1);
      LeasesGrow(hs, timing, turns, boot, if i < j then i else j - 1, j - 1);
      LeaseGrows(hs[j - 1], timing, turns[j - 1], hs[j]);
    }
  }

  /** A helper that checked a fresh lease sent at some time, and reads no lease of another session, does not leave in
      error before the lease time is over: no replay of an older record shortens it. */
  lemma HoldsItsLease(hs: seq<Helper>, timing: Timing, turns: seq<Turn>, boot: int, c: nat, i: nat)
    requires Serves(hs, timing, turns, boot) && c < i < |turns| && Checks(timing, turns[c], hs[c + 1])
    requires turns[i].Leases? && turns[i].now < hs[c + 1].coordinator.value.sent + timing.lease
    requires Fresh(hs[i + 1].coordinator, turns[i].now, timing.lease) ==>
               hs[i + 1].coordinator.value.session == hs[i].status.session
    ensures hs[i + 1].phase != Left(false)
  {
    var last := LeavesInTime(hs, timing, turns, boot, i);
    SessionStays(hs, timing, turns, boot, c + 1, i);
    if last < c {
      assert false;
    } else {
      LeasesGrow(hs, timing, turns, boot, c + 1, last + 1);
    }
  }

  lemma {:induction false} SessionStays(hs: seq<Helper>, timing: Timing, turns: seq<Turn>, boot: int, i: nat, j: nat)
    requires Serves(hs, timing, turns, boot) && i <= j < |hs| && hs[i].status.session != ""
    ensures hs[j].status.session != ""
    decreases j
  {
    if i < j {
      hide *;
      SessionStays(hs, timing, turns, boot, i, j - 1);
      StepAt(hs, timing, turns, boot, j - 1);
      if turns[j - 1].Leases? {
        LeaseTurn(hs[j - 1], timing, turns[j - 1], hs[j]);
      } else {
        OtherTurn(hs[j - 1], timing, turns[j - 1], hs[j]);
      }
    }
  }

  // ---- stopping and starting

  /** A fresh lease of the helper's session tells it to stop, or it has caught up with the finish vector. */
  predicate Dismisses(timing: Timing, turn: Turn, k: Helper) {
    && turn.Leases? && Fresh(k.coordinator, turn.now, timing.lease) && k.coordinator.value.session == k.status.session
    && (k.coordinator.value.state == "stop"
        || (|k.coordinator.value.finish| == 4 && k.runner < 4
            && k.coordinator.value.finish[k.runner] <= k.status.sequence))
  }

  lemma {:induction false} StoppingExactly(hs: seq<Helper>, timing: Timing, turns: seq<Turn>, boot: int, i: nat)
    requires Serves(hs, timing, turns, boot) && i < |hs|
    ensures |hs| == |turns| + 1
    ensures hs[i].stopping <==> exists k :: 0 <= k < i && Dismisses(timing, turns[k], hs[k + 1])
  {
    hide *;
    AtBoot(hs, timing, turns, boot);
    if i > 0 {
      StoppingExactly(hs, timing, turns, boot, i - 1);
      StepAt(hs, timing, turns, boot, i - 1);
      StoppingStep(hs[i - 1], timing, turns[i - 1], hs[i]);
    }
  }

  lemma StoppingStep(h: Helper, timing: Timing, turn: Turn, k: Helper)
    requires Step(h, timing, turn, k)
    ensures k.stopping <==> h.stopping || Dismisses(timing, turn, k)
  {
    if turn.Leases? { StopsExactly(h, timing, turn.now, turn.got); } else { OtherTurn(h, timing, turn, k); }
    hide LeasePass, PublishPass, TakePass, FinishTask;
  }

  /** However stale its earlier reads were, an idle helper that reads the newest assignment starts it, if it is a later
      one of its own. */
  lemma StartsNewest(h: Helper, box: seq<Message>)
    requires SentInOrder(box) && box != [] && Offered(box, h.taskSeen)
    requires h.status.session != "" && !h.stopping && !h.running
    requires var m := box[|box| - 1];
             m.session == h.status.session && m.instance == h.status.instance && m.sequence > h.status.sequence
             && m.state == "build" && m.task.Some?
    ensures
      var (m, k) := (box[|box| - 1], TakePass(h, Some(Entry(|box| - 1, box[|box| - 1]))));
      k.running && k.status.sequence == m.sequence && k.log == h.log + [Execution(m.sequence, m.task.value, None)]
  {
    TakesExactly(h, Some(Entry(|box| - 1, box[|box| - 1])));
    hide TakePass;
  }

  /** A finished task is reported with its result at the next chance. */
  lemma ReportsExactly(h: Helper, result: BuildResult)
    requires h.log != []
    ensures
      var k := FinishTask(h, result);
      && !k.running && k.lastPublished.None? && k.phase == Leasing
      && k.status.sequence == h.status.sequence && k.status.state == (if result.Built? then "done" else "failed")
      && k.status.snapshot == (if result.Built? then result.snapshot else "")
      && k == h.(running := false, lastPublished := None, phase := Leasing, status := k.status, log := k.log)
      && k.status.session == h.status.session && k.status.instance == h.status.instance
      && |k.log| == |h.log| && k.log[..|k.log| - 1] == h.log[..|k.log| - 1]
      && k.log[|k.log| - 1] == h.log[|k.log| - 1].(result := Some(result))
  {
  }
}

/** The scheduler of worker/scheduler.go:81-295 as a labelled transition system, with its step-by-step invariants. */
module Schedule {
  import opened Names
  import opened Graph
  import opened Scheduling
  import opened Messages

  datatype Status = Unassigned | Running | Done | Failed

  /** A started execution whose completion event has not been consumed; `released` once its release event has. */
  datatype Exec = Exec(runner: nat, sequence: nat, drv: string, released: bool)

  datatype Outcome = Cancelled | PublicationFailed | Finished(failed: bool)

  /** Where the scheduling loop stands: line 120, the runner loop (4 = past its end), the select, or returned. */
  datatype Pc = Propagating | Assigning(runner: nat) | Waiting | Returned(outcome: Outcome)

  datatype Job = Job(
    graph: Plan, specs: set<string>, deps: map<string, set<string>>, priority: map<string, nat>, order: seq<string>,
    system: string, cpus: int, lease: int, deadline: int)

  /** The variables of `schedule`; the fields from `live` on record what the environment is doing and what has
      happened. */
  datatype World = World(
    status: map<string, Status>, retryLocal: set<string>,
    occupied: seq<bool>, pending: seq<int>, retired: seq<bool>, sequences: seq<nat>, instances: seq<string>,
    locality: seq<set<string>>, failure: bool, finish: Option<seq<nat>>, pc: Pc,
    live: set<Exec>, helperTried: set<string>, localTried: set<string>, started: nat, strikes: seq<nat>,
    localFailed: set<string>)

  ghost predicate ValidJob(job: Job) {
    && "" !in job.specs
    && IsDependencyMap(job.graph, job.specs, job.deps)
    && (exists rank :: Ranked(job.deps, rank))
    && ArePriorities(job.deps, job.priority)
    && Elements(job.order) == job.specs && Ordered(job.priority, job.order)
  }

  function Init(job: Job): World {
    World(map d | d in job.specs :: Unassigned, {},
      [false, false, false, false], [0, 0, 0, 0], [false, false, false, false], [0, 0, 0, 0], ["", "", "", ""],
      [{}, {}, {}, {}], false, None, Propagating,
      {}, {}, {}, 0, [0, 0, 0, 0], {})
  }

  // ---- failure propagation (lines 118-134)

  /** `d` waits, through waiting derivations only, for one that failed. */
  ghost predicate DoomedBy(deps: map<string, set<string>>, s: map<string, Status>, p: seq<string>, d: string) {
    && Walk(deps, p) && |p| >= 2 && p[0] == d
    && p[|p| - 1] in s && s[p[|p| - 1]] == Failed
    && forall i :: 0 <= i < |p| - 1 ==> p[i] in s && s[p[i]] == Unassigned
  }

  ghost predicate Doomed(deps: map<string, set<string>>, s: map<string, Status>, d: string) {
    exists p :: DoomedBy(deps, s, p, d)
  }

  ghost predicate Propagated(deps: map<string, set<string>>, s: map<string, Status>, s': map<string, Status>) {
    && s'.Keys == s.Keys
    && forall d :: d in s ==> s'[d] == if s[d] == Unassigned && Doomed(deps, s, d) then Failed else s[d]
  }

  // ---- who may take what (lines 135-220)

  predicate Ready(job: Job, s: map<string, Status>, d: string) {
    && d in s && s[d] == Unassigned
    && forall e :: e in Needs(job.deps, d) ==> e in s && s[e] == Done
  }

  /** `poolCompatible` (worker/scheduler.go:39-67). */
  predicate Compatible(g: Plan, d: string, system: string, features: seq<string>) {
    d !in g ||
    var v := g[d];
    && v.attrsValid && !v.dynamic && (v.system == "" || v.system == system) && !v.preferLocal
    && "" !in v.outputs
    && forall f :: f in v.required ==> f in features
  }

  predicate Usable(job: Job, message: Option<Message>, now: int) {
    Fresh(message, now, job.lease) && message.value.instance != "" && ValidFeatures(message.value.features)
    && 1 <= message.value.cores <= 256
  }

  predicate Shape(w: World) {
    |w.occupied| == |w.pending| == |w.retired| == |w.sequences| == |w.instances| == |w.locality| == |w.strikes|
      == RUNNERS
  }

  /** One load of a helper's status and the clock at that moment. */
  datatype Glance = Glance(message: Option<Message>, now: int)

  /** The loads made while one derivation is considered, by runner; every derivation has its own. */
  type Look = seq<Glance>

  predicate ValidLooks(looks: seq<Look>, n: nat) { |looks| == n && forall i :: 0 <= i < n ==> |looks[i]| == RUNNERS }

  predicate Delegatable(job: Job, w: World, look: Look, d: string)
    requires Shape(w) && |look| == RUNNERS
  {
    d !in w.retryLocal && exists r :: 1 <= r < RUNNERS && Takes(job, w, look, d, r)
  }

  predicate Takes(job: Job, w: World, look: Look, d: string, r: nat)
    requires Shape(w) && |look| == RUNNERS && r < RUNNERS
  {
    && !w.retired[r] && Usable(job, look[r].message, look[r].now)
    && (w.instances[r] == "" || look[r].message.value.instance == w.instances[r])
    && Compatible(job.graph, d, job.system, look[r].message.value.features)
  }

  /** What lines 164-196 decide for one runner before a derivation is looked for. */
  datatype Admission = Skip | Retire | Admit(cores: int, features: seq<string>, instance: string)

  function AdmissionOf(job: Job, w: World, r: nat, status: Option<Message>, now: int): Admission
    requires Shape(w) && r < RUNNERS
  {
    if w.occupied[r] || w.pending[r] >= 2 || w.retired[r] then Skip
    else if r == 0 then Admit(job.cpus, [], w.instances[0])
    else if w.finish.Some? then Skip
    else if !Usable(job, status, now) then if now > job.deadline then Retire else Skip
    else
      var m := status.value;
      if w.instances[r] != "" && m.instance != w.instances[r] then Retire
      else if m.state != "ready" && m.state != "done" && m.state != "failed" then Skip
      else Admit(m.cores, m.features, m.instance)
  }

  predicate Eligible(job: Job, w: World, r: nat, features: seq<string>, d: string) {
    Ready(job, w.status, d) && (r > 0 ==> d !in w.retryLocal && Compatible(job.graph, d, job.system, features))
  }

  predicate LocalOnly(job: Job, w: World, r: nat, look: Look, d: string)
    requires Shape(w) && |look| == RUNNERS
  {
    r == 0 && !Delegatable(job, w, look, d)
  }

  function Warmth(job: Job, w: World, r: nat, d: string): nat
    requires Shape(w) && r < RUNNERS
  {
    |Inputs(job.graph, d) * w.locality[r]|
  }

  datatype Appeal = Appeal(local: bool, priority: nat, warm: nat)

  function AppealOf(job: Job, w: World, r: nat, look: Look, d: string): Appeal
    requires Shape(w) && |look| == RUNNERS && r < RUNNERS
  {
    Appeal(LocalOnly(job, w, r, look, d), PriorityOf(job.priority, d), Warmth(job, w, r, d))
  }

  /** Lexicographic: local-only work first, then the longer chain, then the warmer store. */
  predicate Beats(a: Appeal, b: Appeal) {
    (a.local && !b.local)
    || (a.local == b.local && (a.priority > b.priority || (a.priority == b.priority && a.warm > b.warm)))
  }

  /** Some eligible derivation is taken, and none is only if there is none. */
  ghost predicate Taken(job: Job, w: World, r: nat, features: seq<string>, choice: Option<string>) {
    match choice
    case None => forall i :: 0 <= i < |job.order| ==> !Eligible(job, w, r, features, job.order[i])
    case Some(d) => d in job.order && Eligible(job, w, r, features, d)
  }

  /** The earliest of the most appealing eligible derivations in assignment order, each judged by the loads made for
      it. */
  ghost predicate Chosen(job: Job, w: World, r: nat, features: seq<string>, looks: seq<Look>, choice: Option<string>)
    requires Shape(w) && ValidLooks(looks, |job.order|) && r < RUNNERS
  {
    match choice
    case None => forall i :: 0 <= i < |job.order| ==> !Eligible(job, w, r, features, job.order[i])
    case Some(d) =>
      exists k :: 0 <= k < |job.order| && ChosenAt(job, w, r, features, looks, job.order, k) && job.order[k] == d
  }

  ghost predicate ChosenAt(job: Job, w: World, r: nat, features: seq<string>, looks: seq<Look>, order: seq<string>,
                           k: nat)
    requires Shape(w) && ValidLooks(looks, |looks|) && r < RUNNERS && k < |order| <= |looks|
  {
    && Eligible(job, w, r, features, order[k])
    && forall i :: 0 <= i < |order| && Eligible(job, w, r, features, order[i]) ==>
      var (a, b) := (AppealOf(job, w, r, looks[i], order[i]), AppealOf(job, w, r, looks[k], order[k]));
      !Beats(a, b) && (i < k ==> a != b)
  }

  // ---- steps

  datatype Step =
    | Propagate
    | Assign(status: Option<Message>, now: int, choice: Option<string>)
    | Close
    | Tick
    | Release(exec: Exec)
    | Complete(exec: Exec, result: Built)
    | Cancel

  datatype Built = Good | Bad | Unpublished

  function Advance(w: World, r: nat): World { w.(pc := Assigning(r + 1)) }

  function Start(w: World, r: nat, d: string): (v: World)
    requires Shape(w) && r < RUNNERS
    ensures Shape(v)
  {
    w.(occupied := w.occupied[r := true],
       pending := w.pending[r := w.pending[r] + 1],
       status := w.status[d := Running],
       sequences := w.sequences[r := w.sequences[r] + 1],
       live := w.live + {Exec(r, w.sequences[r] + 1, d, false)},
       started := w.started + 1,
       helperTried := if r > 0 then w.helperTried + {d} else w.helperTried,
       localTried := if r == 0 then w.localTried + {d} else w.localTried)
  }

  /** Lines 164-244 for one runner. */
  function AfterAssign(job: Job, w: World, r: nat, status: Option<Message>, now: int, choice: Option<string>): World
    requires Shape(w) && r < RUNNERS
  {
    match AdmissionOf(job, w, r, status, now)
    case Skip => Advance(w, r)
    case Retire => Advance(w.(retired := w.retired[r := true]), r)
    case Admit(_, _, instance) =>
      var v := w.(instances := w.instances[r := instance]);
      if choice.None? then Advance(v, r) else Advance(Start(v, r, choice.value), r)
  }

  /** `status` is the runner's own status as loaded at line 176. Which eligible derivation is taken is left open
      here. */
  ghost predicate AssignStep(job: Job, w: World, w': World, status: Option<Message>, now: int, choice: Option<string>) {
    && Shape(w) && w.pc.Assigning? && w.pc.runner < RUNNERS
    && var r := w.pc.runner;
    && (match AdmissionOf(job, w, r, status, now)
        case Admit(_, features, _) => Taken(job, w, r, features, choice)
        case _ => choice == None)
    && w' == AfterAssign(job, w, r, status, now, choice)
  }

  predicate HasStatus(status: map<string, Status>, s: Status) { exists d :: d in status && status[d] == s }

  /** Lines 245-258: publish the finish vector once nothing is unassigned, and return once nothing is left. */
  function AfterClose(w: World): World {
    var v := if !HasStatus(w.status, Unassigned) && w.finish.None? then w.(finish := Some(w.sequences)) else w;
    if !HasStatus(w.status, Running)
       && !HasStatus(w.status, Unassigned) then v.(pc := Returned(Finished(w.failure))) else v.(pc := Waiting)
  }

  /** Line 264: only the newest execution's event frees its runner. */
  function Freed(w: World, e: Exec): seq<bool>
    requires Shape(w) && e.runner < RUNNERS
  {
    if e.sequence == w.sequences[e.runner] then w.occupied[e.runner := false] else w.occupied
  }

  function AfterRelease(w: World, e: Exec): (v: World)
    requires Shape(w) && e.runner < RUNNERS
    ensures Shape(v)
  {
    w.(occupied := Freed(w, e), live := w.live - {e} + {e.(released := true)}, pc := Propagating)
  }

  /** Lines 264-292 for a completion. */
  function AfterComplete(job: Job, w: World, e: Exec, result: Built): (v: World)
    requires Shape(w) && e.runner < RUNNERS
    ensures Shape(v)
  {
    var r := e.runner;
    var v := w.(occupied := Freed(w, e), pending := w.pending[r := w.pending[r] - 1], live := w.live - {e},
                pc := Propagating);
    if result == Unpublished then w.(pc := Returned(PublicationFailed))
    else if result == Bad && r > 0 then
      v.(retired := w.retired[r := true], retryLocal := w.retryLocal + {e.drv}, status := w.status[e.drv := Unassigned],
         strikes := w.strikes[r := w.strikes[r] + 1])
    else if result == Good then
      v.(status := w.status[e.drv := Done],
         locality := w.locality[r := w.locality[r] + {e.drv} + Inputs(job.graph, e.drv)])
    else
      v.(status := w.status[e.drv := Failed], failure := true, localFailed := w.localFailed + {e.drv})
  }

  ghost predicate Next(job: Job, w: World, step: Step, w': World) {
    Shape(w) &&
    match step
    case Propagate => w.pc == Propagating && Propagated(job.deps, w.status, w'.status)
    && w' == w.(status := w'.status, pc := Assigning(0))
    case Assign(status, now, choice) => AssignStep(job, w, w', status, now, choice)
    case Close => w.pc == Assigning(RUNNERS) && w' == AfterClose(w)
    case Tick => w.pc == Waiting && w' == w.(pc := Propagating)
    case Release(e) => w.pc == Waiting && e in w.live && e.runner < RUNNERS && !e.released && w' == AfterRelease(w, e)
    case Complete(e, result) => w.pc == Waiting && e in w.live && e.runner < RUNNERS
    && w' == AfterComplete(job, w, e, result)
    case Cancel => (w.pc == Waiting || w.pc == Propagating) && w' == w.(pc := Returned(Cancelled))
  }

  ghost predicate Run(job: Job, ws: seq<World>, steps: seq<Step>) {
    && |ws| == |steps| + 1 && ws[0] == Init(job)
    && forall i :: 0 <= i < |steps| ==> Next(job, ws[i], steps[i], ws[i + 1])
  }
}

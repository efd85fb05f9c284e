/** What every reachable state of the scheduler satisfies. */
module ScheduleSafety {
  import opened Names
  import opened Graph
  import opened Messages
  import opened Schedule

  // ---- executions in flight

  /** Sequence numbers are those handed out, and only the newest execution of a runner can be unreleased. */
  ghost predicate Numbered(live: set<Exec>, sequences: seq<nat>)
    requires |sequences| == RUNNERS
  {
    && (forall e :: e in live ==> e.runner < RUNNERS)
    && (forall e :: e in live ==> 1 <= e.sequence <= sequences[e.runner])
    && (forall e :: e in live && e.sequence < sequences[e.runner] ==> e.released)
    && (forall e, f :: e in live && f in live && e.runner == f.runner && e.sequence == f.sequence ==> e == f)
  }

  ghost predicate Holds(live: set<Exec>, sequences: seq<nat>, e: Exec, r: nat)
    requires |sequences| == RUNNERS && r < RUNNERS
  {
    e in live && e.runner == r && e.sequence == sequences[r] && !e.released
  }

  /** `allocated` marks exactly the runners with an unreleased execution. */
  ghost predicate Marked(live: set<Exec>, sequences: seq<nat>, occupied: seq<bool>)
    requires |sequences| == |occupied| == RUNNERS
  {
    forall r :: 0 <= r < RUNNERS ==> (occupied[r] <==> exists e :: Holds(live, sequences, e, r))
  }

  function LiveOf(live: set<Exec>, r: nat): set<Exec> { set e | e in live && e.runner == r }

  /** `pending` counts the executions of a runner, at most two. */
  ghost predicate CountedExecs(live: set<Exec>, pending: seq<int>)
    requires |pending| == RUNNERS
  {
    forall r :: 0 <= r < RUNNERS ==> pending[r] == |LiveOf(live, r)| <= 2
  }

  /** Running derivations and executions in flight match one to one. */
  ghost predicate Matched(live: set<Exec>, status: map<string, Status>) {
    && (forall e :: e in live ==> e.drv in status && status[e.drv] == Running)
    && (forall e, f :: e in live && f in live && e.drv == f.drv ==> e == f)
    && (forall d :: d in status && status[d] == Running ==> exists e :: e in live && e.drv == d)
  }

  lemma LiveAdd(live: set<Exec>, e: Exec, r: nat)
    requires e !in live
    ensures |LiveOf(live + {e}, r)| == |LiveOf(live, r)| + if e.runner == r then 1 else 0
  {
    assert LiveOf(live + {e}, r) == LiveOf(live, r) + if e.runner == r then {e} else {};
  }

  lemma LiveRemove(live: set<Exec>, e: Exec, r: nat)
    requires e in live
    ensures |LiveOf(live - {e}, r)| == |LiveOf(live, r)| - if e.runner == r then 1 else 0
  {
    LiveAdd(live - {e}, e, r);
    assert live - {e} + {e} == live;
  }

  lemma StartNumbered(live: set<Exec>, sequences: seq<nat>, occupied: seq<bool>, r: nat, d: string)
    requires |sequences| == |occupied| == RUNNERS && r < RUNNERS
    requires Numbered(live, sequences) && Marked(live, sequences, occupied) && !occupied[r]
    ensures var n := Exec(r, sequences[r] + 1, d, false);
      n !in live && Numbered(live + {n}, sequences[r := sequences[r] + 1])
  {
    forall e | e in live && e.runner == r
      ensures e.released
    {
      assert !Holds(live, sequences, e, r);
    }
  }

  lemma StartMarked(live: set<Exec>, sequences: seq<nat>, occupied: seq<bool>, r: nat, d: string)
    requires |sequences| == |occupied| == RUNNERS && r < RUNNERS && Marked(live, sequences, occupied)
    ensures Marked(live + {Exec(r, sequences[r] + 1, d, false)}, sequences[r := sequences[r] + 1], occupied[r := true])
  {
    var n := Exec(r, sequences[r] + 1, d, false);
    var (l, s, o) := (live + {n}, sequences[r := sequences[r] + 1], occupied[r := true]);
    assert Holds(l, s, n, r);
    forall q | 0 <= q < RUNNERS && q != r
      ensures o[q] <==> exists e :: Holds(l, s, e, q)
    {
      if e :| Holds(live, sequences, e, q) { assert Holds(l, s, e, q); }
      if e :| Holds(l, s, e, q) { assert Holds(live, sequences, e, q); }
    }
  }

  lemma StartCounted(live: set<Exec>, pending: seq<int>, e: Exec)
    requires |pending| == RUNNERS && CountedExecs(live, pending) && e.runner < RUNNERS && e !in live
             && pending[e.runner] < 2
    ensures CountedExecs(live + {e}, pending[e.runner := pending[e.runner] + 1])
  {
    forall r | 0 <= r < RUNNERS { LiveAdd(live, e, r); }
  }

  lemma StartMatched(live: set<Exec>, status: map<string, Status>, e: Exec)
    requires Matched(live, status) && e.drv in status && status[e.drv] == Unassigned
    ensures Matched(live + {e}, status[e.drv := Running])
  {
    var (l, s) := (live + {e}, status[e.drv := Running]);
    forall d | d in s && s[d] == Running
      ensures exists f :: f in l && f.drv == d
    {
      if d == e.drv { assert e in l; } else {
        var f :| f in live && f.drv == d;
        assert f in l;
      }
    }
  }

  function Unmark(sequences: seq<nat>, occupied: seq<bool>, e: Exec): seq<bool>
    requires |sequences| == |occupied| == RUNNERS && e.runner < RUNNERS
  {
    if e.sequence == sequences[e.runner] then occupied[e.runner := false] else occupied
  }

  /** Removing an execution, or replacing it by a released copy, frees its runner exactly when it was the newest. */
  lemma LeaveMarked(live: set<Exec>, sequences: seq<nat>, occupied: seq<bool>, e: Exec, rest: set<Exec>)
    requires |sequences| == |occupied| == RUNNERS && Numbered(live, sequences) && Marked(live, sequences, occupied)
             && e in live
    requires rest == live - {e} || rest == live - {e} + {e.(released := true)}
    ensures Marked(rest, sequences, Unmark(sequences, occupied, e))
  {
    forall q | 0 <= q < RUNNERS
      ensures Unmark(sequences, occupied, e)[q] <==> exists f :: Holds(rest, sequences, f, q)
    {
      if f :| Holds(rest, sequences, f, q) {
        assert f in live && f != e;
        assert Holds(live, sequences, f, q);
      }
      if f :| Holds(live, sequences, f, q) {
        if f != e { assert Holds(rest, sequences, f, q); }
      }
    }
  }

  lemma ReleaseNumbered(live: set<Exec>, sequences: seq<nat>, e: Exec)
    requires |sequences| == RUNNERS && Numbered(live, sequences) && e in live && !e.released
    ensures e.(released := true) !in live
    ensures Numbered(live - {e} + {e.(released := true)}, sequences)
  {
  }

  lemma ReleaseCounted(live: set<Exec>, pending: seq<int>, e: Exec)
    requires |pending| == RUNNERS && CountedExecs(live, pending) && e in live && e.(released := true) !in live
    ensures CountedExecs(live - {e} + {e.(released := true)}, pending)
  {
    forall r | 0 <= r < RUNNERS
      ensures |LiveOf(live - {e} + {e.(released := true)}, r)| == |LiveOf(live, r)|
    {
      LiveRemove(live, e, r);
      LiveAdd(live - {e}, e.(released := true), r);
    }
  }

  lemma ReleaseMatched(live: set<Exec>, status: map<string, Status>, e: Exec)
    requires Matched(live, status) && e in live
    ensures Matched(live - {e} + {e.(released := true)}, status)
  {
    var n := e.(released := true);
    var l := live - {e} + {n};
    forall d | d in status && status[d] == Running
      ensures exists f :: f in l && f.drv == d
    {
      var f :| f in live && f.drv == d;
      assert (if f == e then n else f) in l;
    }
  }

  lemma CompleteCounted(live: set<Exec>, pending: seq<int>, e: Exec)
    requires |pending| == RUNNERS && CountedExecs(live, pending) && e in live && e.runner < RUNNERS
    ensures CountedExecs(live - {e}, pending[e.runner := pending[e.runner] - 1])
  {
    forall r | 0 <= r < RUNNERS { LiveRemove(live, e, r); }
  }

  lemma CompleteMatched(live: set<Exec>, status: map<string, Status>, e: Exec, s: Status)
    requires Matched(live, status) && e in live && s != Running
    ensures Matched(live - {e}, status[e.drv := s])
  {
    var (l, t) := (live - {e}, status[e.drv := s]);
    forall d | d in t && t[d] == Running
      ensures exists f :: f in l && f.drv == d
    {
      var f :| f in live && f.drv == d;
      assert f in l;
    }
  }

  // ---- dependencies and failures

  /** Whatever has started has all its dependencies done. */
  ghost predicate Founded(deps: map<string, set<string>>, status: map<string, Status>) {
    forall d, e ::
      d in status && (status[d] == Running || status[d] == Done) && e in Needs(deps, d) ==>
        e in status && status[e] == Done
  }

  ghost predicate FailedNeed(deps: map<string, set<string>>, status: map<string, Status>, d: string) {
    exists e :: e in Needs(deps, d) && e in status && status[e] == Failed
  }

  /** A derivation is failed only by its own coordinator attempt or by a failed dependency, and the return value reports
      the former. */
  ghost predicate Blamed(deps: map<string, set<string>>, status: map<string, Status>, localFailed: set<string>,
                         failure: bool) {
    && (forall d :: d in localFailed ==> d in status && status[d] == Failed)
    && (forall d {:trigger FailedNeed(deps, status, d)} ::
          d in status && status[d] == Failed ==> d in localFailed || FailedNeed(deps, status, d))
    && (failure <==> localFailed != {})
  }

  /** Line 119-134 has run to its end: nothing waits for a failed derivation any more. */
  ghost predicate Spread(deps: map<string, set<string>>, status: map<string, Status>) {
    forall d, e :: d in status && status[d] == Unassigned && e in Needs(deps, d) && e in status ==> status[e] != Failed
  }

  lemma PropagatedSpread(deps: map<string, set<string>>, s: map<string, Status>, t: map<string, Status>)
    requires Propagated(deps, s, t)
    ensures Spread(deps, t)
  {
    forall d, e | d in t && t[d] == Unassigned && e in Needs(deps, d) && e in t
      ensures t[e] != Failed
    {
      if t[e] == Failed {
        if s[e] == Failed {
          assert DoomedBy(deps, s, [d, e], d);
        } else {
          var p :| DoomedBy(deps, s, p, e);
          assert DoomedBy(deps, s, [d] + p, d);
        }
        assert Doomed(deps, s, d);
        assert false;
      }
    }
  }

  lemma DoomedNeeds(deps: map<string, set<string>>, s: map<string, Status>, d: string) returns (e: string)
    requires Doomed(deps, s, d)
    ensures e in Needs(deps, d) && e in s && (s[e] == Failed || (s[e] == Unassigned && Doomed(deps, s, e)))
  {
    var p :| DoomedBy(deps, s, p, d);
    e := p[1];
    assert p[1] in Needs(deps, p[0]);
    if |p| > 2 {
      assert Walk(deps, p[1..]);
      assert DoomedBy(deps, s, p[1..], e);
    }
  }

  lemma PropagatedBlamed(deps: map<string, set<string>>, s: map<string, Status>, t: map<string, Status>,
                         localFailed: set<string>, failure: bool)
    requires Propagated(deps, s, t) && Blamed(deps, s, localFailed, failure)
    ensures Blamed(deps, t, localFailed, failure)
  {
    forall d {:trigger FailedNeed(deps, t, d)} | d in t && t[d] == Failed && d !in localFailed
      ensures FailedNeed(deps, t, d)
    {
      if s[d] == Failed {
        assert FailedNeed(deps, s, d);
        var e :| e in Needs(deps, d) && e in s && s[e] == Failed;
        assert t[e] == Failed;
      } else {
        var e := DoomedNeeds(deps, s, d);
        assert t[e] == Failed;
      }
    }
  }

  lemma PropagatedKeeps(deps: map<string, set<string>>, s: map<string, Status>, t: map<string, Status>, live: set<Exec>,
                        retryLocal: set<string>, helperTried: set<string>, localTried: set<string>)
    requires Propagated(deps, s, t)
    ensures t.Keys == s.Keys
    ensures Matched(live, s) ==> Matched(live, t)
    ensures Founded(deps, s) ==> Founded(deps, t)
    ensures Tried(s, retryLocal, helperTried, localTried) ==> Tried(t, retryLocal, helperTried, localTried)
  {
    assert t.Keys == s.Keys;
    forall d | d in s
      ensures t[d] == s[d] || (s[d] == Unassigned && t[d] == Failed)
    {
    }
    hide Propagated, Doomed;
  }

  /** A failed derivation lies on a chain of needs that ends at a failed coordinator attempt. */
  lemma {:induction false} FailureHasCause(deps: map<string, set<string>>, rank: map<string, nat>,
                                           status: map<string, Status>, localFailed: set<string>, failure: bool,
                                           d: string)
    requires Ranked(deps, rank) && Blamed(deps, status, localFailed, failure) && d in status && status[d] == Failed
    ensures exists f :: f in localFailed && (f == d || Reaches(deps, d, f))
    decreases if d in rank then rank[d] else 0
  {
    if d !in localFailed {
      assert FailedNeed(deps, status, d);
      var e :| e in Needs(deps, d) && e in status && status[e] == Failed;
      FailureHasCause(deps, rank, status, localFailed, failure, e);
      var f :| f in localFailed && (f == e || Reaches(deps, e, f));
      ReachStep(deps, d, e);
      if f != e { ReachJoin(deps, d, e, f); }
    }
  }

  /** Once nothing is left to do, everything that needs a failed derivation has failed. */
  lemma {:induction false} CauseReachesAll(deps: map<string, set<string>>, status: map<string, Status>, p: seq<string>)
    requires Founded(deps, status) && Spread(deps, status) && Walk(deps, p)
    requires forall d :: d in status ==> Needs(deps, d) <= status.Keys
    requires forall d :: d in status ==> status[d] == Done || status[d] == Failed
    requires p[0] in status && p[|p| - 1] in status && status[p[|p| - 1]] == Failed
    ensures status[p[0]] == Failed
    decreases |p|
  {
    if |p| > 1 {
      assert p[1] in Needs(deps, p[0]);
      CauseReachesAll(deps, status, p[1..]);
    }
  }

  // ---- attempts

  /** No derivation is tried twice in the same place. */
  ghost predicate Tried(status: map<string, Status>, retryLocal: set<string>, helperTried: set<string>,
                        localTried: set<string>) {
    && helperTried + localTried <= status.Keys
    && retryLocal <= helperTried
    && (forall d :: d in helperTried && status[d] == Unassigned ==> d in retryLocal)
    && (forall d :: d in localTried ==> status[d] != Unassigned)
    && helperTried * localTried <= retryLocal
  }

  ghost predicate Placed(live: set<Exec>, retryLocal: set<string>, helperTried: set<string>, localTried: set<string>) {
    forall e :: e in live ==> if e.runner > 0 then e.drv in helperTried && e.drv !in retryLocal else e.drv in localTried
  }

  /** Each helper is struck out by its failures, of which it can have two: the current build and the one being
      published. */
  ghost predicate Struck(retryLocal: set<string>, strikes: seq<nat>, retired: seq<bool>, pending: seq<int>)
    requires |strikes| == |retired| == |pending| == RUNNERS
  {
    && |retryLocal| == strikes[1] + strikes[2] + strikes[3]
    && !retired[0] && strikes[0] == 0
    && (forall r :: 0 <= r < RUNNERS ==> if retired[r] then strikes[r] + pending[r] <= 2 else strikes[r] == 0)
  }

  /** What ties the attempts of a world together. */
  ghost predicate Attempts(w: World)
    requires Shape(w)
  {
    && Tried(w.status, w.retryLocal, w.helperTried, w.localTried)
    && Placed(w.live, w.retryLocal, w.helperTried, w.localTried)
    && w.started == |w.helperTried| + |w.localTried|
    && Struck(w.retryLocal, w.strikes, w.retired, w.pending)
  }

  lemma StartTried(status: map<string, Status>, retryLocal: set<string>, helperTried: set<string>,
                   localTried: set<string>, d: string)
    requires Tried(status, retryLocal, helperTried, localTried) && d in status && status[d] == Unassigned
    ensures Tried(status[d := Running], retryLocal, helperTried, localTried + {d}) && d !in localTried
    ensures d !in retryLocal ==>
              Tried(status[d := Running], retryLocal, helperTried + {d}, localTried) && d !in helperTried
  {
    assert d !in localTried;
  }

  lemma StartPlaced(live: set<Exec>, retryLocal: set<string>, helperTried: set<string>, localTried: set<string>,
                    e: Exec)
    requires Placed(live, retryLocal, helperTried, localTried)
    ensures e.runner == 0 ==> Placed(live + {e}, retryLocal, helperTried, localTried + {e.drv})
    ensures e.runner > 0 && e.drv !in retryLocal ==> Placed(live + {e}, retryLocal, helperTried + {e.drv}, localTried)
  {
  }

  lemma StartStruck(retryLocal: set<string>, strikes: seq<nat>, retired: seq<bool>, pending: seq<int>, r: nat)
    requires |strikes| == |retired| == |pending| == RUNNERS && r < RUNNERS
             && Struck(retryLocal, strikes, retired, pending)
    requires !retired[r]
    ensures Struck(retryLocal, strikes, retired, pending[r := pending[r] + 1])
  {
  }

  lemma StartAttempts(w: World, r: nat, d: string)
    requires Shape(w) && r < RUNNERS && Attempts(w) && d in w.status && w.status[d] == Unassigned
    requires !w.retired[r] && (r > 0 ==> d !in w.retryLocal)
    ensures Attempts(Start(w, r, d))
  {
    hide Tried, Placed, Struck;
    StartTried(w.status, w.retryLocal, w.helperTried, w.localTried, d);
    StartPlaced(w.live, w.retryLocal, w.helperTried, w.localTried, Exec(r, w.sequences[r] + 1, d, false));
    StartStruck(w.retryLocal, w.strikes, w.retired, w.pending, r);
  }

  lemma StrikeTried(status: map<string, Status>, retryLocal: set<string>, helperTried: set<string>,
                    localTried: set<string>, d: string)
    requires Tried(status, retryLocal, helperTried, localTried) && d in status && status[d] == Running
             && d in helperTried && d !in retryLocal
    ensures Tried(status[d := Unassigned], retryLocal + {d}, helperTried, localTried)
  {
    assert d !in helperTried * localTried;
  }

  lemma SettleTried(status: map<string, Status>, retryLocal: set<string>, helperTried: set<string>,
                    localTried: set<string>, d: string, s: Status)
    requires Tried(status, retryLocal, helperTried, localTried) && d in status && s != Unassigned
    ensures Tried(status[d := s], retryLocal, helperTried, localTried)
  {
  }

  lemma CompletePlaced(w: World, e: Exec)
    requires e in w.live && Placed(w.live, w.retryLocal, w.helperTried, w.localTried) && Matched(w.live, w.status)
    ensures Placed(w.live - {e}, w.retryLocal, w.helperTried, w.localTried)
    ensures Placed(w.live - {e}, w.retryLocal + {e.drv}, w.helperTried, w.localTried)
  {
  }

  lemma StrikeStruck(retryLocal: set<string>, strikes: seq<nat>, retired: seq<bool>, pending: seq<int>, r: nat,
                     d: string)
    requires |strikes| == |retired| == |pending| == RUNNERS && 1 <= r < RUNNERS
    requires Struck(retryLocal, strikes, retired, pending) && d !in retryLocal && pending[r] <= 2
    ensures Struck(retryLocal + {d}, strikes[r := strikes[r] + 1], retired[r := true], pending[r := pending[r] - 1])
  {
    assert |retryLocal + {d}| == |retryLocal| + 1;
  }

  lemma CompleteAttempts(job: Job, w: World, e: Exec, result: Built)
    requires Shape(w) && e in w.live && e.runner < RUNNERS && Attempts(w)
    requires Matched(w.live, w.status) && CountedExecs(w.live, w.pending)
    ensures Attempts(AfterComplete(job, w, e, result))
  {
    hide Attempts, AfterComplete, Matched, CountedExecs;
    if result == Bad && e.runner > 0 {
      CompleteStrike(job, w, e);
    } else {
      CompleteSettle(job, w, e, result);
    }
  }

  lemma CompleteSettle(job: Job, w: World, e: Exec, result: Built)
    requires Shape(w) && e in w.live && e.runner < RUNNERS && Attempts(w) && Matched(w.live, w.status)
    requires result == Bad ==> e.runner == 0
    ensures Attempts(AfterComplete(job, w, e, result))
  {
    hide Tried, Placed, Struck, CountedExecs;
    assert e.drv in w.status;
    CompletePlaced(w, e);
    hide Matched;
    SettleTried(w.status, w.retryLocal, w.helperTried, w.localTried, e.drv, if result == Good then Done else Failed);
    CompleteStruck(w.retryLocal, w.strikes, w.retired, w.pending, e.runner);
  }

  lemma CompleteStruck(retryLocal: set<string>, strikes: seq<nat>, retired: seq<bool>, pending: seq<int>, r: nat)
    requires |strikes| == |retired| == |pending| == RUNNERS && r < RUNNERS
             && Struck(retryLocal, strikes, retired, pending)
    ensures Struck(retryLocal, strikes, retired, pending[r := pending[r] - 1])
  {
  }

  lemma StrikeFacts(w: World, e: Exec)
    requires Shape(w) && e in w.live && 1 <= e.runner < RUNNERS && Matched(w.live, w.status)
             && CountedExecs(w.live, w.pending)
    requires Placed(w.live, w.retryLocal, w.helperTried, w.localTried)
    ensures w.pending[e.runner] <= 2 && e.drv in w.helperTried && e.drv !in w.retryLocal
    ensures e.drv in w.status && w.status[e.drv] == Running
  {
  }

  lemma CompleteStrike(job: Job, w: World, e: Exec)
    requires Shape(w) && e in w.live && 1 <= e.runner < RUNNERS && Attempts(w) && Matched(w.live, w.status)
             && CountedExecs(w.live, w.pending)
    ensures Attempts(AfterComplete(job, w, e, Bad))
  {
    hide Placed, Struck, Matched, CountedExecs, Tried;
    StrikeFacts(w, e);
    CompletePlaced(w, e);
    StrikeTried(w.status, w.retryLocal, w.helperTried, w.localTried, e.drv);
    StrikeStruck(w.retryLocal, w.strikes, w.retired, w.pending, e.runner, e.drv);
  }

  /** At most one helper and one coordinator attempt each, and a second attempt only after a strike. */
  lemma AttemptsBounded(w: World)
    requires Shape(w) && Attempts(w) && CountedExecs(w.live, w.pending)
    ensures w.started <= |w.status| + 2 * (RUNNERS - 1)
  {
    var both := w.helperTried * w.localTried;
    assert |w.helperTried + w.localTried| + |both| == w.started;
    SubsetSize(w.helperTried + w.localTried, w.status.Keys);
    SubsetSize(both, w.retryLocal);
    assert forall r :: 0 <= r < RUNNERS ==> w.pending[r] >= 0;
    assert w.strikes[1] <= 2 && w.strikes[2] <= 2 && w.strikes[3] <= 2;
    assert |w.status| == |w.status.Keys|;
  }
}

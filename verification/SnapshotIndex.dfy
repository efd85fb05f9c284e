/** `snapshotIndex`: extending the view and selecting a closure from it (worker/snapshot_index.go:18-142). */
module SnapshotIndex {
  import opened Names
  import opened Graph
  import opened Snapshots
  import opened IndexLoops
  import opened IndexSafety

  // ---- selectPaths

  function RefMap(paths: map<string, Indexed>): map<string, set<string>> {
    map p | p in paths :: Elements(paths[p].refs)
  }

  /** Reachable through the records of the table from one of the roots. */
  ghost predicate Needed(paths: map<string, Indexed>, roots: set<string>, p: string) {
    p in roots || exists r :: r in roots && Reaches(RefMap(paths), r, p)
  }

  ghost predicate SelectedNarinfos(narinfos: map<string, Narinfo>, reach: set<string>, t: map<string, Narinfo>) {
    forall name ::
      (name in t <==> name in narinfos && narinfos[name].storePath in reach)
      && (name in t ==> t[name] == narinfos[name])
  }

  ghost predicate Mentions(narinfos: map<string, Narinfo>, f: string) {
    exists name :: name in narinfos && Archive(narinfos[name]) == f
  }

  ghost predicate SelectedFiles(files: map<string, File>, narinfos: map<string, Narinfo>, t: map<string, File>) {
    forall f :: (f in t <==> Mentions(narinfos, f)) && (f in t ==> f in files && t[f] == files[f])
  }

  /** The records of exactly the paths in `reach`, with the archives they name. */
  ghost predicate Selected(s: Snapshot, reach: set<string>, t: Snapshot) {
    && t.upstream == Restrict(s.upstream, reach)
    && SelectedNarinfos(s.narinfos, reach, t.narinfos)
    && SelectedFiles(s.files, t.narinfos, t.files)
  }

  lemma NeededStep(paths: map<string, Indexed>, roots: set<string>, p: string, q: string)
    requires Needed(paths, roots, p) && p in paths && q in paths[p].refs
    ensures Needed(paths, roots, q)
  {
    ReachStep(RefMap(paths), p, q);
    if p !in roots {
      var r :| r in roots && Reaches(RefMap(paths), r, p);
      ReachJoin(RefMap(paths), r, p, q);
    }
  }

  lemma {:induction false} ClosedHoldsWalk(paths: map<string, Indexed>, seen: set<string>, w: seq<string>)
    requires Walk(RefMap(paths), w) && w[0] in seen
    requires forall p, q :: p in seen && p in paths && q in paths[p].refs ==> q in seen
    ensures w[|w| - 1] in seen
    decreases |w|
  {
    if |w| > 1 {
      assert w[1] in Needs(RefMap(paths), w[0]);
      ClosedHoldsWalk(paths, seen, w[1..]);
    }
  }

  lemma SeenIsNeeded(paths: map<string, Indexed>, roots: set<string>, seen: set<string>)
    requires roots <= seen && forall p :: p in seen ==> Needed(paths, roots, p)
    requires forall p, q :: p in seen && p in paths && q in paths[p].refs ==> q in seen
    ensures forall p :: p in seen <==> Needed(paths, roots, p)
  {
    forall p | Needed(paths, roots, p)
      ensures p in seen
    {
      if p !in roots {
        var r :| r in roots && Reaches(RefMap(paths), r, p);
        var w :| WalkFromTo(RefMap(paths), w, r, p);
        ClosedHoldsWalk(paths, seen, w);
      }
    }
  }

  /** The snapshot `t` with the records of one more path. */
  ghost function Collect(s: Snapshot, paths: map<string, Indexed>, t: Snapshot, p: string): Snapshot
    requires p in paths && (paths[p].text.Some? ==> paths[p].archive in s.files)
  {
    var u := if p in s.upstream then t.(upstream := t.upstream[p := s.upstream[p]]) else t;
    if paths[p].text.Some? then
      u.(narinfos := u.narinfos[NarinfoKey(p) := paths[p].text.value],
         files := u.files[paths[p].archive := s.files[paths[p].archive]])
    else u
  }

  lemma EntryFile(s: Snapshot, paths: map<string, Indexed>, p: string)
    requires IndexOk(s, paths) && p in paths && paths[p].text.Some?
    ensures paths[p].archive in s.files && paths[p].archive == Archive(paths[p].text.value)
    ensures NarinfoKey(p) in s.narinfos && s.narinfos[NarinfoKey(p)] == paths[p].text.value
            && paths[p].text.value.storePath == p
  {
    hide NarinfoKey, Archive, Agree, RefsCovered;
    assert EntryOk(s, p, paths[p]);
    assert NarinfoOk(s.files, NarinfoKey(p), s.narinfos[NarinfoKey(p)]);
  }

  lemma PathNarinfo(s: Snapshot, paths: map<string, Indexed>, name: string)
    requires IndexOk(s, paths) && name in s.narinfos
    ensures name == NarinfoKey(s.narinfos[name].storePath)
    ensures s.narinfos[name].storePath in paths && paths[s.narinfos[name].storePath].text.Some?
  {
    hide NarinfoKey, Archive, Agree, RefsCovered, EntryOk;
    assert NarinfoOk(s.files, name, s.narinfos[name]);
  }

  lemma UpstreamMore(m: map<string, References>, seen: set<string>, p: string)
    ensures p in m ==> Restrict(m, seen)[p := m[p]] == Restrict(m, seen + {p})
    ensures p !in m ==> Restrict(m, seen) == Restrict(m, seen + {p})
  {
  }

  lemma NarinfosMore(s: Snapshot, paths: map<string, Indexed>, seen: set<string>, t: map<string, Narinfo>, p: string)
    requires IndexOk(s, paths) && SelectedNarinfos(s.narinfos, seen, t)
    ensures if p in paths && paths[p].text.Some? then SelectedNarinfos(s.narinfos, seen + {p},
                                                                       t[NarinfoKey(p) := paths[p].text.value])
            else SelectedNarinfos(s.narinfos, seen + {p}, t)
  {
    hide IndexOk, NarinfoKey;
    if p in paths && paths[p].text.Some? { EntryFile(s, paths, p); }
    forall name | name in s.narinfos && s.narinfos[name].storePath == p
      ensures name == NarinfoKey(p) && p in paths && paths[p].text.Some?
    {
      PathNarinfo(s, paths, name);
    }
  }

  /** Collecting the next path keeps the collection exact. */
  lemma SelectMore(s: Snapshot, paths: map<string, Indexed>, seen: set<string>, t: Snapshot, p: string)
    requires IndexOk(s, paths) && Selected(s, seen, t)
    requires p in paths ==> paths[p].text.Some? ==> paths[p].archive in s.files
    ensures Selected(s, seen + {p}, if p in paths then Collect(s, paths, t, p) else t)
  {
    assert p in s.upstream ==> p in paths;
    hide IndexOk, NarinfoKey, Archive, SelectedFiles, SelectedNarinfos, Restrict;
    UpstreamMore(s.upstream, seen, p);
    NarinfosMore(s, paths, seen, t.narinfos, p);
    if p in paths && paths[p].text.Some? {
      EntryFile(s, paths, p);
      SelectedKnown(s, seen, t, NarinfoKey(p));
      SelectFile(s, t, NarinfoKey(p));
    }
  }

  lemma SelectedKnown(s: Snapshot, seen: set<string>, t: Snapshot, name: string)
    requires Selected(s, seen, t)
    ensures name in t.narinfos ==> name in s.narinfos && t.narinfos[name] == s.narinfos[name]
  {
  }

  lemma SelectFile(s: Snapshot, t: Snapshot, name: string)
    requires SelectedFiles(s.files, t.narinfos, t.files) && name in s.narinfos && Archive(s.narinfos[name]) in s.files
    requires name in t.narinfos ==> t.narinfos[name] == s.narinfos[name]
    ensures
      var n := s.narinfos[name];
      SelectedFiles(s.files, t.narinfos[name := n], t.files[Archive(n) := s.files[Archive(n)]])
  {
    var n := s.narinfos[name];
    var more := t.narinfos[name := n];
    hide Archive;
    forall f
      ensures Mentions(more, f) <==> f == Archive(n) || Mentions(t.narinfos, f)
    {
      if f == Archive(n) { assert name in more && Archive(more[name]) == f; }
      if x :| x in t.narinfos && Archive(t.narinfos[x]) == f { assert x in more && Archive(more[x]) == f; }
    }
    hide Mentions;
  }

  // ---- the worklist

  /** Everything met is needed, and everything needed is met or pending. */
  ghost predicate Exploring(paths: map<string, Indexed>, roots: set<string>, seen: set<string>, pending: seq<string>) {
    && (forall p :: p in seen || p in pending ==> Needed(paths, roots, p))
    && (forall p :: p in roots ==> p in seen || p in pending)
    && (forall p, q :: p in seen && p in paths && q in paths[p].refs ==> q in seen || q in pending)
  }

  lemma Explore(paths: map<string, Indexed>, roots: set<string>, seen: set<string>, pending: seq<string>)
    requires Exploring(paths, roots, seen, pending) && pending != []
    ensures
      var (p, rest) := (pending[|pending| - 1], pending[..|pending| - 1]);
      && (p in seen ==> Exploring(paths, roots, seen, rest))
      && Exploring(paths, roots, seen + {p}, if p in paths then rest + paths[p].refs else rest)
  {
    var (p, rest) := (pending[|pending| - 1], pending[..|pending| - 1]);
    assert pending == rest + [p];
    assert forall x :: x in pending <==> x in rest || x == p;
    if p in paths {
      forall q | q in paths[p].refs
        ensures Needed(paths, roots, q)
      {
        NeededStep(paths, roots, p, q);
      }
    }
    hide Needed;
  }

  ghost function Known(paths: map<string, Indexed>, roots: set<string>): set<string> {
    roots + paths.Keys + set p, q | p in paths && q in paths[p].refs :: q
  }

  /** What is reachable from the roots, missing paths included. */
  ghost function Reach(paths: map<string, Indexed>, roots: set<string>): set<string> {
    set p | p in Known(paths, roots) && Needed(paths, roots, p)
  }

  lemma ReachIsNeeded(paths: map<string, Indexed>, roots: set<string>)
    ensures forall p :: p in Reach(paths, roots) <==> Needed(paths, roots, p)
  {
    forall p | Needed(paths, roots, p) && p !in roots
      ensures p in Known(paths, roots)
    {
      var r :| r in roots && Reaches(RefMap(paths), r, p);
      var w :| WalkFromTo(RefMap(paths), w, r, p);
      ClosedHoldsWalk(paths, Known(paths, roots), w);
    }
  }

  lemma SeenIsReach(paths: map<string, Indexed>, roots: set<string>, seen: set<string>)
    requires Exploring(paths, roots, seen, []) && Bounded(paths, roots, seen, [])
    ensures seen == Reach(paths, roots)
  {
    SeenIsNeeded(paths, roots, seen);
  }

  /** What is pending is known, so that the search ends. */
  ghost predicate Bounded(paths: map<string, Indexed>, roots: set<string>, seen: set<string>, pending: seq<string>) {
    seen <= Known(paths, roots) && forall p :: p in pending ==> p in Known(paths, roots)
  }

  lemma BoundedStep(paths: map<string, Indexed>, roots: set<string>, seen: set<string>, pending: seq<string>)
    requires Bounded(paths, roots, seen, pending) && pending != []
    ensures
      var (p, rest) := (pending[|pending| - 1], pending[..|pending| - 1]);
      && p in Known(paths, roots) && Bounded(paths, roots, seen, rest)
      && Bounded(paths, roots, seen + {p}, if p in paths then rest + paths[p].refs else rest)
  {
    hide Reach;
  }

  class Index {
    var snapshot: Snapshot
    var paths: map<string, Indexed>

    ghost predicate Valid()
      reads this
    {
      IndexOk(snapshot, paths)
    }

    constructor Empty()
      ensures Valid() && snapshot == EMPTY && paths == map[]
    {
      snapshot, paths := EMPTY, map[];
    }

    /** `extend`: the view grows only by records it has checked, and nothing changes on error. */
    method Extend(delta: Snapshot) returns (r: Option<Snapshot>)
      requires Valid()
      modifies this
      ensures Valid()
      ensures r.Some? <==> Extendable(old(snapshot), delta)
      ensures r.None? ==> snapshot == old(snapshot) && paths == old(paths)
      ensures r.Some? ==> r.value == snapshot && Closed(snapshot)
      ensures r.Some? ==> snapshot.files == delta.files + old(snapshot).files
      ensures r.Some? ==>
                snapshot.narinfos == Union(old(snapshot), delta).narinfos
                && snapshot.upstream == Union(old(snapshot), delta).upstream
    {
      r := None;
      hide IndexOk, Extendable, UpstreamTaken, NarinfosTaken, UpstreamTakes, NarinfoTakes, Union, Closed;
      var files1, files := TakeFiles(snapshot.files, delta.files);
      if !files1 { NotExtendable(snapshot, paths, delta); return; }
      var upstream1, upstream, mid, cu := TakeUpstream(snapshot.upstream, delta.upstream, paths);
      if !upstream1 { NotExtendable(snapshot, paths, delta); return; }
      UpstreamJoined(snapshot, paths, delta, upstream, mid, cu);
      var narinfos1, narinfos, table, cn := TakeNarinfos(files, upstream, snapshot.narinfos, delta.narinfos, mid);
      if !narinfos1 { NotExtendable(snapshot, paths, delta); return; }
      var view := Snapshot(files, narinfos, upstream);
      assert Stepped(snapshot, paths, delta, view, mid, table, cu, cn);
      hide Stepped;
      ChangedIsEnough(snapshot, paths, delta, view, mid, table, cu, cn);
      var closed := ChangedClosed(table, cu + cn);
      Outcome(snapshot, paths, delta, view, mid, table, cu, cn);
      if !closed { return; }
      snapshot, paths := view, table;
      r := Some(view);
    }

    /** `selectPaths`: missing roots are skipped, everything reachable from the others is taken. */
    method SelectPaths(roots: set<string>) returns (t: Snapshot)
      requires Valid()
      ensures Selected(snapshot, Reach(paths, roots), t)
    {
      hide Exploring, Selected, IndexOk, Bounded, Known, Reach, Needed;
      t := EMPTY;
      var seen: set<string> := {};
      var pending := Enumerate(roots);
      StartExploring(paths, roots, pending);
      SelectNothing(snapshot);
      while pending != []
        invariant Exploring(paths, roots, seen, pending) && Selected(snapshot, seen, t)
        invariant Bounded(paths, roots, seen, pending)
        decreases Known(paths, roots) - seen, |pending|
      {
        hide Exploring, Selected, IndexOk, Bounded, Known, Reach, Needed;
        Explore(paths, roots, seen, pending);
        BoundedStep(paths, roots, seen, pending);
        var path := pending[|pending| - 1];
        pending := pending[..|pending| - 1];
        if path in seen { continue; }
        if path in paths && paths[path].text.Some? { EntryFile(snapshot, paths, path); }
        SelectMore(snapshot, paths, seen, t, path);
        seen := seen + {path};
        if path !in paths { continue; }
        var record := paths[path];
        pending := pending + record.refs;
        if path in snapshot.upstream { t := t.(upstream := t.upstream[path := snapshot.upstream[path]]); }
        if record.text.Some? {
          t := t.(narinfos := t.narinfos[NarinfoKey(path) := record.text.value],
                  files := t.files[record.archive := snapshot.files[record.archive]]);
        }
      }
      SeenIsReach(paths, roots, seen);
    }
  }

  lemma StartExploring(paths: map<string, Indexed>, roots: set<string>, pending: seq<string>)
    requires Elements(pending) == roots
    ensures Exploring(paths, roots, {}, pending) && Bounded(paths, roots, {}, pending)
  {
    assert forall p :: p in pending <==> p in Elements(pending);
  }

  lemma SelectNothing(s: Snapshot)
    ensures Selected(s, {}, EMPTY)
  {
  }

  lemma NotExtendable(s: Snapshot, paths: map<string, Indexed>, delta: Snapshot)
    requires IndexOk(s, paths) && !Takes(s, paths, delta)
    ensures !Extendable(s, delta)
  {
    if Extendable(s, delta) { ExtendableTakes(s, paths, delta); }
  }

  lemma UpstreamJoined(s: Snapshot, paths: map<string, Indexed>, delta: Snapshot, upstream: map<string, References>,
                       mid: map<string, Indexed>, cu: set<string>)
    requires UpstreamTaken(s.upstream, delta.upstream, paths, delta.upstream.Keys, upstream, mid, cu)
    ensures upstream == delta.upstream + s.upstream
  {
    hide UpstreamTakes;
    JoinedMaps(s.upstream, delta.upstream, upstream);
  }

  /** After the taking loops, the closing check decides both whether the new table is in order and whether the full
      check passes. */
  lemma Outcome(s: Snapshot, paths: map<string, Indexed>, delta: Snapshot, view: Snapshot,
                mid: map<string, Indexed>, table: map<string, Indexed>, cu: set<string>, cn: set<string>)
    requires IndexOk(s, paths) && Stepped(s, paths, delta, view, mid, table, cu, cn)
    ensures TableClosed(table) <==> Extendable(s, delta)
    ensures TableClosed(table) ==> IndexOk(view, table) && Closed(view)
    ensures view.narinfos == Union(s, delta).narinfos && view.upstream == Union(s, delta).upstream
  {
    SteppedRecords(s, paths, delta, view, mid, table, cu, cn);
    SteppedAgree(s, paths, delta, view, mid, table, cu, cn);
    SteppedTabled(s, paths, delta, view, mid, table, cu, cn);
    SteppedIsUnion(s, paths, delta, view, mid, table, cu, cn);
    TableClosedIsClosed(view, table);
    UnionFrom(s, delta);
    assert view.files == delta.files + s.files && NewFilesValid(s.files, delta.files);
    hide Stepped, Tabled, Agree, Closed, TableClosed, RecordsOk, NewFilesValid, Union, Mergeable;
    SameRecords(view, s, delta);
  }
}

/** What selecting and repeated extending promise. */
module IndexTheorems {
  import opened Graph
  import opened Names
  import opened Snapshots
  import opened IndexLoops
  import opened IndexSafety
  import opened SnapshotIndex

  // ---- the selected snapshot

  ghost predicate IsReach(paths: map<string, Indexed>, roots: set<string>, reach: set<string>) {
    forall p :: p in reach <==> Needed(paths, roots, p)
  }

  lemma ReachIsReach(paths: map<string, Indexed>, roots: set<string>)
    ensures IsReach(paths, roots, Reach(paths, roots))
  {
    ReachIsNeeded(paths, roots);
  }

  lemma SelectedCovers(s: Snapshot, paths: map<string, Indexed>, reach: set<string>, t: Snapshot, p: string)
    requires IndexOk(s, paths) && Selected(s, reach, t)
    ensures Covers(t, p) <==> p in reach && p in paths
  {
    TabledCovers(s, paths, p);
    hide IndexOk, SelectedFiles;
    if p in reach && Covers(s, p) && p !in s.upstream {
      var name :| name in s.narinfos && s.narinfos[name].storePath == p;
      assert name in t.narinfos && t.narinfos[name].storePath == p;
    }
  }

  lemma SelectedRecords(s: Snapshot, paths: map<string, Indexed>, reach: set<string>, t: Snapshot)
    requires IndexOk(s, paths) && Selected(s, reach, t)
    ensures RecordsOk(t)
  {
    hide Agree, Tabled, RefsCovered, NarinfoKey, Archive, ValidStorePath;
    forall p | p in t.upstream
      ensures UpstreamOk(p, t.upstream[p])
    {
      assert UpstreamOk(p, s.upstream[p]);
    }
    forall name | name in t.narinfos
      ensures NarinfoOk(t.files, name, t.narinfos[name])
    {
      assert NarinfoOk(s.files, name, s.narinfos[name]);
      assert Mentions(t.narinfos, Archive(t.narinfos[name]));
    }
  }

  lemma SelectedRefs(s: Snapshot, paths: map<string, Indexed>, roots: set<string>, reach: set<string>, t: Snapshot,
                     p: string)
    requires IndexOk(s, paths) && IsReach(paths, roots, reach) && Selected(s, reach, t) && p in reach && p in paths
    ensures RefsCovered(t, paths[p].refs)
  {
    TableClosedIsClosed(s, paths);
    assert TableClosed(paths);
    hide IndexOk, Selected;
    forall r | r in paths[p].refs
      ensures Covers(t, r)
    {
      NeededStep(paths, roots, p, r);
      SelectedCovers(s, paths, reach, t, r);
    }
  }

  /** A selected snapshot stands alone. */
  lemma SelectedClosed(s: Snapshot, paths: map<string, Indexed>, roots: set<string>, t: Snapshot)
    requires IndexOk(s, paths) && Selected(s, Reach(paths, roots), t)
    ensures Closed(t)
  {
    var reach := Reach(paths, roots);
    ReachIsReach(paths, roots);
    SelectedRecords(s, paths, reach, t);
    forall p | p in reach && p in paths
      ensures RefsCovered(t, paths[p].refs)
    {
      SelectedRefs(s, paths, roots, reach, t, p);
    }
    hide Closed, Agree, IsReach, RecordsOk, RefsCovered, EntryOk;
    forall p | p in t.upstream
      ensures RefsCovered(t, Listed(t.upstream[p]))
    {
      assert p in s.upstream && t.upstream[p] == s.upstream[p];
    }
    ClosedFrom(t);
  }

  lemma ClosedFrom(t: Snapshot)
    requires RecordsOk(t) && forall p :: p in t.upstream ==> RefsCovered(t, Listed(t.upstream[p]))
    requires forall name :: name in t.narinfos ==> RefsCovered(t, t.narinfos[name].refs)
    ensures Closed(t)
  {
  }

  ghost predicate SubSnapshot(t: Snapshot, s: Snapshot) {
    && (forall p :: p in t.upstream ==> p in s.upstream && t.upstream[p] == s.upstream[p])
    && (forall n :: n in t.narinfos ==> n in s.narinfos && t.narinfos[n] == s.narinfos[n])
  }

  lemma SubCoversRefs(s: Snapshot, paths: map<string, Indexed>, u: Snapshot, p: string, q: string)
    requires IndexOk(s, paths) && SubSnapshot(u, s) && Closed(u) && Covers(u, p) && p in paths && q in paths[p].refs
    ensures Covers(u, q)
  {
    hide Agree, RecordsOk, EntryOk;
    if p in u.upstream {
      assert RefsCovered(u, Listed(u.upstream[p]));
    } else {
      var name :| name in u.narinfos && u.narinfos[name].storePath == p;
      assert paths[p] == FromNarinfo(s.narinfos[name]);
      assert RefsCovered(u, u.narinfos[name].refs);
    }
  }

  lemma {:induction false} SubCoversWalk(s: Snapshot, paths: map<string, Indexed>, u: Snapshot, w: seq<string>)
    requires IndexOk(s, paths) && SubSnapshot(u, s) && Closed(u) && Walk(RefMap(paths), w) && Covers(u, w[0])
    ensures Covers(u, w[|w| - 1])
    decreases |w|
  {
    hide IndexOk, SubSnapshot, Closed, Covers;
    if |w| > 1 {
      assert w[1] in Needs(RefMap(paths), w[0]);
      SubCoversRefs(s, paths, u, w[0], w[1]);
      SubCoversWalk(s, paths, u, w[1..]);
    }
  }

  /** Every closed part of the view that covers the available roots covers every path that was selected. */
  lemma SelectedLeast(s: Snapshot, paths: map<string, Indexed>, roots: set<string>, t: Snapshot, u: Snapshot, p: string)
    requires IndexOk(s, paths) && Selected(s, Reach(paths, roots), t)
    requires SubSnapshot(u, s) && Closed(u) && forall r :: r in roots && r in paths ==> Covers(u, r)
    ensures Covers(t, p) ==> Covers(u, p)
  {
    var reach := Reach(paths, roots);
    ReachIsReach(paths, roots);
    SelectedCovers(s, paths, reach, t, p);
    hide IndexOk, Selected, SubSnapshot, Closed, Covers;
    if p in reach && p in paths && p !in roots {
      var r :| r in roots && Reaches(RefMap(paths), r, p);
      var w :| WalkFromTo(RefMap(paths), w, r, p);
      assert w[1] in Needs(RefMap(paths), w[0]);
      SubCoversWalk(s, paths, u, w);
    }
  }

  /** Closed by itself, with every root that the table has. */
  ghost predicate Serves(u: Snapshot, paths: map<string, Indexed>, roots: set<string>) {
    Closed(u) && forall r :: r in roots && r in paths ==> Covers(u, r)
  }

  /** Every such part of `s` has every record of `t`. */
  ghost predicate Smallest(s: Snapshot, paths: map<string, Indexed>, roots: set<string>, t: Snapshot) {
    forall u :: SubSnapshot(u, s) && Serves(u, paths, roots) ==> SubSnapshot(t, u) && t.files.Keys <= u.files.Keys
  }

  /** No path has both kinds of record. */
  ghost predicate RecordedOnce(t: Snapshot) {
    forall name :: name in t.narinfos ==> t.narinfos[name].storePath !in t.upstream
  }

  /** The selection is the least closed part of the view with the available roots exactly when none of its paths has
      both an upstream record and a narinfo. */
  lemma SelectedSmallest(s: Snapshot, paths: map<string, Indexed>, roots: set<string>, t: Snapshot)
    requires IndexOk(s, paths) && Selected(s, Reach(paths, roots), t)
    ensures SubSnapshot(t, s) && Serves(t, paths, roots)
    ensures Smallest(s, paths, roots, t) <==> RecordedOnce(t)
  {
    SelectedServes(s, paths, roots, t);
    forall u | SubSnapshot(u, s) && Serves(u, paths, roots) && RecordedOnce(t)
      ensures SubSnapshot(t, u) && t.files.Keys <= u.files.Keys
    {
      SelectedWithin(s, paths, roots, t, u);
    }
    if !RecordedOnce(t) {
      var name :| name in t.narinfos && t.narinfos[name].storePath in t.upstream;
      WithoutUpstream(s, paths, roots, t, name);
      assert !Smallest(s, paths, roots, t);
    }
  }

  lemma SelectedServes(s: Snapshot, paths: map<string, Indexed>, roots: set<string>, t: Snapshot)
    requires IndexOk(s, paths) && Selected(s, Reach(paths, roots), t)
    ensures SubSnapshot(t, s) && Serves(t, paths, roots)
  {
    SelectedClosed(s, paths, roots, t);
    ReachIsReach(paths, roots);
    SelectedSub(s, Reach(paths, roots), t);
    hide IndexOk, Closed, Covers, Reach, Selected, SubSnapshot;
    forall r | r in roots && r in paths
      ensures Covers(t, r)
    {
      assert Needed(paths, roots, r);
      SelectedCovers(s, paths, Reach(paths, roots), t, r);
    }
  }

  lemma SelectedSub(s: Snapshot, reach: set<string>, t: Snapshot)
    requires Selected(s, reach, t)
    ensures SubSnapshot(t, s)
  {
  }

  lemma SelectedWithin(s: Snapshot, paths: map<string, Indexed>, roots: set<string>, t: Snapshot, u: Snapshot)
    requires IndexOk(s, paths) && Selected(s, Reach(paths, roots), t) && RecordedOnce(t)
    requires SubSnapshot(u, s) && Serves(u, paths, roots)
    ensures SubSnapshot(t, u) && t.files.Keys <= u.files.Keys
  {
    hide IndexOk, Archive, Closed, Reach;
    forall p | p in t.upstream
      ensures p in u.upstream
    {
      SelectedLeast(s, paths, roots, t, u, p);
    }
    forall name | name in t.narinfos
      ensures name in u.narinfos && u.narinfos[name] == t.narinfos[name] && Archive(t.narinfos[name]) in u.files
    {
      var p := t.narinfos[name].storePath;
      SelectedLeast(s, paths, roots, t, u, p);
      assert p !in t.upstream;
      var other :| other in u.narinfos && u.narinfos[other].storePath == p;
      SameKey(s, paths, name, other);
      ArchiveThere(u, name);
    }
  }

  /** Where a selected path has both records, the selection without the upstream one would do. */
  lemma WithoutUpstream(s: Snapshot, paths: map<string, Indexed>, roots: set<string>, t: Snapshot, name: string)
    requires SubSnapshot(t, s) && Serves(t, paths, roots) && name in t.narinfos
             && t.narinfos[name].storePath in t.upstream
    ensures var u := t.(upstream := t.upstream - {t.narinfos[name].storePath});
            SubSnapshot(u, s) && Serves(u, paths, roots) && !SubSnapshot(t, u)
  {
    var p := t.narinfos[name].storePath;
    var u := t.(upstream := t.upstream - {p});
    assert forall q :: Covers(u, q) <==> Covers(t, q);
    hide Covers, UpstreamOk, NarinfoOk;
    assert RecordsOk(u) by {
      assert forall q :: q in u.upstream ==> UpstreamOk(q, t.upstream[q]);
      assert forall n :: n in u.narinfos ==> NarinfoOk(t.files, n, t.narinfos[n]);
    }
    ClosedFrom(u);
  }

  /** A new index takes one delta and selects from it. */
  method SelectFrom(delta: Snapshot, roots: set<string>)
    returns (r: Option<Snapshot>, t: Snapshot, ghost paths: map<string, Indexed>)
    ensures r.Some? <==> Extendable(EMPTY, delta)
    ensures r.Some? ==> r.value.narinfos == delta.narinfos && r.value.upstream == delta.upstream
    ensures r.Some? ==> IndexOk(r.value, paths) && Selected(r.value, Reach(paths, roots), t)
  {
    hide IndexOk, Selected, Extendable, Mergeable, Reach, Closed;
    var index := new Index.Empty();
    r := index.Extend(delta);
    UnionFrom(EMPTY, delta);
    t := index.SelectPaths(roots);
    paths := index.paths;
  }

  /** `extend` accepts such a path: its narinfo and its upstream record come in one delta with the same references, and
      what is then selected for it is not the least. */
  method SelectsTwice(path: string, file: File, url: string)
    returns (r: Option<Snapshot>, t: Snapshot, u: Snapshot)
    requires ValidStorePath(path) && ValidFile(file)
    ensures r.Some? && SubSnapshot(t, r.value) && SubSnapshot(u, r.value) && Closed(t) && Closed(u)
    ensures Covers(t, path) && Covers(u, path) && SubSnapshot(u, t) && !SubSnapshot(t, u)
  {
    var n := Narinfo(true, path, url, "", "", "", "");
    var delta := Snapshot(map[Archive(n) := file], map[NarinfoKey(path) := n], map[path := Some([])]);
    TwiceExtends(delta, path);
    hide *;
    ghost var paths;
    r, t, paths := SelectFrom(delta, {path});
    u := t.(upstream := t.upstream - {path});
    TwiceSelected(r.value, paths, path, t, u);
  }

  lemma TwiceSelected(s: Snapshot, paths: map<string, Indexed>, path: string, t: Snapshot, u: Snapshot)
    requires IndexOk(s, paths) && Selected(s, Reach(paths, {path}), t) && path in s.upstream
    requires NarinfoKey(path) in s.narinfos && s.narinfos[NarinfoKey(path)].storePath == path
    requires u == t.(upstream := t.upstream - {path})
    ensures SubSnapshot(t, s) && SubSnapshot(u, s) && Closed(t) && Closed(u)
    ensures Covers(t, path) && Covers(u, path) && SubSnapshot(u, t) && !SubSnapshot(t, u)
  {
    SelectedServes(s, paths, {path}, t);
    SelectedBoth(s, paths, path, t);
    WithoutUpstream(s, paths, {path}, t, NarinfoKey(path));
    RootServed(s, paths, path, t, u);
    hide *;
    assert SubSnapshot(u, t) by { Removed(t, path); }
  }

  lemma Removed(t: Snapshot, path: string)
    ensures SubSnapshot(t.(upstream := t.upstream - {path}), t)
  {
  }

  lemma TwiceExtends(delta: Snapshot, path: string)
    requires ValidStorePath(path) && delta.upstream == map[path := Some([])]
    requires delta.narinfos.Keys == {NarinfoKey(path)}
    requires var n := delta.narinfos[NarinfoKey(path)];
             && n.valid && n.storePath == path && n.references == ""
             && delta.files.Keys == {Archive(n)} && ValidFile(delta.files[Archive(n)])
    ensures Extendable(EMPTY, delta)
  {
    hide ValidStorePath, NarinfoKey, ValidFile;
    UnionFrom(EMPTY, delta);
    var n := delta.narinfos[NarinfoKey(path)];
    assert StartsWith(Archive(n), "cache/");
    assert Archive(n) in Union(EMPTY, delta).files;
    assert n.refs == [];
    ClosedFrom(Union(EMPTY, delta));
  }

  lemma SelectedBoth(s: Snapshot, paths: map<string, Indexed>, path: string, t: Snapshot)
    requires Selected(s, Reach(paths, {path}), t) && path in s.upstream
    requires NarinfoKey(path) in s.narinfos && s.narinfos[NarinfoKey(path)].storePath == path
    ensures path in t.upstream && NarinfoKey(path) in t.narinfos && t.narinfos[NarinfoKey(path)].storePath == path
  {
    hide NarinfoKey;
    ReachIsReach(paths, {path});
    assert Needed(paths, {path}, path);
  }

  lemma RootServed(s: Snapshot, paths: map<string, Indexed>, path: string, t: Snapshot, u: Snapshot)
    requires IndexOk(s, paths) && path in s.upstream && Serves(t, paths, {path}) && Serves(u, paths, {path})
    ensures Closed(t) && Closed(u) && Covers(t, path) && Covers(u, path)
  {
    hide Closed, Covers;
  }

  lemma SameKey(s: Snapshot, paths: map<string, Indexed>, a: string, b: string)
    requires IndexOk(s, paths) && a in s.narinfos && b in s.narinfos
             && s.narinfos[a].storePath == s.narinfos[b].storePath
    ensures a == b
  {
    assert NarinfoOk(s.files, a, s.narinfos[a]) && NarinfoOk(s.files, b, s.narinfos[b]);
  }

  lemma ArchiveThere(u: Snapshot, name: string)
    requires Closed(u) && name in u.narinfos
    ensures Archive(u.narinfos[name]) in u.files
  {
    assert NarinfoOk(u.files, name, u.narinfos[name]);
  }

  // ---- repeated extending

  function Extended(s: Snapshot, delta: Snapshot): Snapshot {
    Snapshot(delta.files + s.files, delta.narinfos + s.narinfos, delta.upstream + s.upstream)
  }

  ghost function ExtendedAll(s: Snapshot, deltas: seq<Snapshot>): Snapshot {
    if deltas == [] then s else Extended(ExtendedAll(s, deltas[..|deltas| - 1]), deltas[|deltas| - 1])
  }

  /** Each call of `Extend` in turn succeeds. */
  ghost predicate AllExtend(s: Snapshot, deltas: seq<Snapshot>) {
    forall i :: 0 <= i < |deltas| ==> Extendable(ExtendedAll(s, deltas[..i]), deltas[i])
  }

  ghost predicate SubMap<T>(a: map<string, T>, b: map<string, T>) { forall k :: k in a ==> k in b && b[k] == a[k] }

  ghost predicate Below(a: Snapshot, b: Snapshot) {
    SubMap(a.files, b.files) && SubMap(a.narinfos, b.narinfos) && SubMap(a.upstream, b.upstream)
  }

  ghost predicate Growing(deltas: seq<Snapshot>) {
    forall i :: 0 <= i < |deltas| - 1 ==> Below(deltas[i], deltas[i + 1])
  }

  lemma AbsorbMap<T>(s: map<string, T>, a: map<string, T>, b: map<string, T>)
    requires SubMap(a, b)
    ensures b + (a + s) == b + s
  {
  }

  /** For growing deltas, extending step by step comes to the same as extending once by the last. */
  lemma {:induction false} GrowingIsLast(s: Snapshot, deltas: seq<Snapshot>)
    requires Growing(deltas) && deltas != []
    ensures ExtendedAll(s, deltas) == Extended(s, deltas[|deltas| - 1])
    decreases |deltas|
  {
    var k := |deltas| - 1;
    if k == 0 {
      assert deltas[..0] == [];
    } else {
      var prior := deltas[..k];
      assert prior[|prior| - 1] == deltas[k - 1];
      assert Below(deltas[k - 1], deltas[k]);
      GrowingIsLast(s, prior);
      AbsorbMap(s.files, deltas[k - 1].files, deltas[k].files);
      AbsorbMap(s.narinfos, deltas[k - 1].narinfos, deltas[k].narinfos);
      AbsorbMap(s.upstream, deltas[k - 1].upstream, deltas[k].upstream);
    }
  }

  lemma ExtendedIsUnion(s: Snapshot, delta: Snapshot)
    requires Extendable(s, delta) && Closed(s)
    ensures Extended(s, delta).narinfos == Union(s, delta).narinfos
    ensures Extended(s, delta).upstream == Union(s, delta).upstream
  {
    UnionFrom(s, delta);
    hide Closed, Extendable, Union, Mergeable;
    forall p | p in s.upstream && p in delta.upstream
      ensures s.upstream[p] == delta.upstream[p]
    {
      SameUpstream(s, delta, p);
    }
  }

  lemma SameUpstream(s: Snapshot, delta: Snapshot, p: string)
    requires Extendable(s, delta) && Closed(s) && p in s.upstream && p in delta.upstream
    ensures s.upstream[p] == delta.upstream[p]
  {
    UnionFrom(s, delta);
    assert UpstreamOk(p, s.upstream[p]) && UpstreamOk(p, Union(s, delta).upstream[p]);
    assert Listed(s.upstream[p]) == Listed(delta.upstream[p]);
  }

  lemma ExtendedClosed(s: Snapshot, delta: Snapshot)
    requires Extendable(s, delta) && Closed(s)
    ensures Closed(Extended(s, delta))
  {
    ExtendedIsUnion(s, delta);
    assert Closed(Union(s, delta));
    hide Closed, Union, Extendable;
    SameRecords(Extended(s, delta), s, delta);
  }

  /** Incremental validation implies full validation after every successful call. */
  lemma {:induction false} AllExtendClosed(s: Snapshot, deltas: seq<Snapshot>)
    requires Closed(s) && AllExtend(s, deltas)
    ensures Closed(ExtendedAll(s, deltas))
    decreases |deltas|
  {
    if deltas != [] {
      PrefixExtends(s, deltas);
      var k := |deltas| - 1;
      assert Extendable(ExtendedAll(s, deltas[..k]), deltas[k]);
      hide Closed, Extendable, AllExtend;
      AllExtendClosed(s, deltas[..k]);
      ExtendedClosed(ExtendedAll(s, deltas[..k]), deltas[k]);
    }
  }

  lemma PrefixExtends(s: Snapshot, deltas: seq<Snapshot>)
    requires AllExtend(s, deltas) && deltas != []
    ensures AllExtend(s, deltas[..|deltas| - 1])
  {
    hide Extendable;
    var prior := deltas[..|deltas| - 1];
    forall i | 0 <= i < |prior|
      ensures Extendable(ExtendedAll(s, prior[..i]), prior[i])
    {
      assert prior[..i] == deltas[..i] && prior[i] == deltas[i];
    }
  }

  /** After any successful run of growing extensions, a union built from scratch out of the first snapshot and the last
      delta passes the full check, and contains exactly the same paths as the incremental view. */
  lemma GrowingAgreesWithUnion(s: Snapshot, deltas: seq<Snapshot>, p: string)
    requires Closed(s) && Growing(deltas) && deltas != [] && AllExtend(s, deltas)
    ensures UnionOk(s, deltas[|deltas| - 1])
    ensures Contains(ExtendedAll(s, deltas), p) <==> Contains(Union(s, deltas[|deltas| - 1]), p)
  {
    var k := |deltas| - 1;
    var (v, d) := (ExtendedAll(s, deltas[..k]), deltas[k]);
    assert Extendable(v, d);
    PrefixExtends(s, deltas);
    hide AllExtend, Closed, Extendable, UnionOk, Below, Union;
    AllExtendClosed(s, deltas[..k]);
    GrowingIsLast(s, deltas);
    BelowView(s, deltas[..k]);
    hide Growing, Contains;
    RebaseUnion(s, v, d);
    SameContains(ExtendedAll(s, deltas), Union(s, d), p);
  }

  lemma BelowView(s: Snapshot, deltas: seq<Snapshot>)
    requires Growing(deltas)
    ensures Below(s, ExtendedAll(s, deltas))
  {
    if deltas != [] { GrowingIsLast(s, deltas); }
  }

  lemma SameContains(a: Snapshot, b: Snapshot, p: string)
    requires a.narinfos == b.narinfos && a.upstream == b.upstream
    ensures Contains(a, p) <==> Contains(b, p)
  {
  }

  lemma RebaseMerge(s: Snapshot, v: Snapshot, d: Snapshot)
    requires Extendable(v, d) && Closed(s) && Closed(v) && Below(s, v)
    ensures Mergeable(s, d) && forall p :: p in s.upstream && p in d.upstream ==> s.upstream[p] == d.upstream[p]
  {
    UnionFrom(v, d);
    assert Mergeable(v, d);
    forall p | p in s.upstream && p in d.upstream
      ensures s.upstream[p] == d.upstream[p]
    {
      SameUpstream(v, d, p);
    }
    hide Closed, Extendable, Union, RefsCovered;
  }

  /** The last delta merges with the first snapshot as it did with the view in between. */
  lemma RebaseUnion(s: Snapshot, v: Snapshot, d: Snapshot)
    requires Extendable(v, d) && Closed(s) && Closed(v) && Below(s, v) && Extended(v, d) == Extended(s, d)
    ensures UnionOk(s, d)
    ensures Union(s, d).narinfos == Extended(s, d).narinfos && Union(s, d).upstream == Extended(s, d).upstream
  {
    hide Extendable, Closed, Below, Mergeable, Union, Merged;
    RebaseMerge(s, v, d);
    UnionFrom(s, d);
    ExtendedIsUnion(v, d);
    ExtendedClosed(v, d);
    assert s.upstream + d.upstream == d.upstream + s.upstream;
    SameRecords(Extended(s, d), s, d);
    UnionSplit(s, d);
  }

  lemma UnionSplit(s: Snapshot, d: Snapshot)
    ensures UnionOk(s, d) <==> Mergeable(Merged(EMPTY, s), d) && Closed(Union(s, d))
  {
  }
}

/** Why checking only what changed is enough, and how it compares with checking the whole union. */
module IndexSafety {
  import opened Snapshots
  import opened IndexLoops

  /** The three taking loops have succeeded: `mid` is the table after upstream, `table` after narinfos. */
  ghost predicate Stepped(s: Snapshot, paths: map<string, Indexed>, delta: Snapshot, view: Snapshot,
                          mid: map<string, Indexed>, table: map<string, Indexed>, cu: set<string>, cn: set<string>) {
    && NewFilesValid(s.files, delta.files) && view.files == delta.files + s.files
    && UpstreamTaken(s.upstream, delta.upstream, paths, delta.upstream.Keys, view.upstream, mid, cu)
    && NarinfosTaken(view.files, view.upstream, s.narinfos, delta.narinfos, mid, delta.narinfos.Keys, view.narinfos,
                     table, cn)
  }

  ghost predicate TableClosed(table: map<string, Indexed>) {
    forall p, r :: p in table && r in table[p].refs ==> r in table
  }

  lemma SteppedRecords(s: Snapshot, paths: map<string, Indexed>, delta: Snapshot, view: Snapshot,
                       mid: map<string, Indexed>, table: map<string, Indexed>, cu: set<string>, cn: set<string>)
    requires IndexOk(s, paths) && Stepped(s, paths, delta, view, mid, table, cu, cn)
    ensures RecordsOk(view)
  {
    hide Tabled, Agree, NarinfoKey, Archive, ValidStorePath, ValidFile;
    forall p | p in view.upstream
      ensures UpstreamOk(p, view.upstream[p])
    {
      if p !in s.upstream { assert UpstreamTakes(s.upstream, paths, p, delta.upstream[p]); }
    }
    forall name | name in view.narinfos
      ensures NarinfoOk(view.files, name, view.narinfos[name])
    {
      if name in s.narinfos {
        assert NarinfoOk(s.files, name, s.narinfos[name]);
      } else {
        assert NarinfoTakes(view.files, view.upstream, s.narinfos, name, delta.narinfos[name]);
      }
    }
  }

  lemma SteppedAgree(s: Snapshot, paths: map<string, Indexed>, delta: Snapshot, view: Snapshot,
                     mid: map<string, Indexed>, table: map<string, Indexed>, cu: set<string>, cn: set<string>)
    requires IndexOk(s, paths) && Stepped(s, paths, delta, view, mid, table, cu, cn)
    ensures Agree(view)
  {
    hide NarinfoKey, Archive, ValidStorePath, ValidFile, Closed;
    forall name | name in view.narinfos && view.narinfos[name].storePath in view.upstream
      ensures Listed(view.upstream[view.narinfos[name].storePath]) == view.narinfos[name].refs
    {
      var p := view.narinfos[name].storePath;
      if name !in s.narinfos {
        assert NarinfoTakes(view.files, view.upstream, s.narinfos, name, delta.narinfos[name]);
      } else if p !in s.upstream {
        assert UpstreamTakes(s.upstream, paths, p, delta.upstream[p]);
        assert paths[p] == FromNarinfo(s.narinfos[name]);
      }
    }
  }

  lemma SteppedEntries(s: Snapshot, paths: map<string, Indexed>, delta: Snapshot, view: Snapshot,
                       mid: map<string, Indexed>, table: map<string, Indexed>, cu: set<string>, cn: set<string>)
    requires IndexOk(s, paths) && Stepped(s, paths, delta, view, mid, table, cu, cn)
    ensures forall p :: p in table ==> EntryOk(view, p, table[p])
  {
    hide NarinfoKey, Archive, ValidStorePath, ValidFile, Closed, Agree, UpstreamTakes, NarinfoTakes;
    forall p | p in table
      ensures EntryOk(view, p, table[p])
    {
      if p in cn {
        assert NewPath(s.narinfos, delta.narinfos, delta.narinfos.Keys, p);
      } else if p in paths {
        assert EntryOk(s, p, paths[p]);
      } else {
        assert p in cu;
      }
    }
  }

  lemma SteppedNarinfos(s: Snapshot, paths: map<string, Indexed>, delta: Snapshot, view: Snapshot,
                        mid: map<string, Indexed>, table: map<string, Indexed>, cu: set<string>, cn: set<string>)
    requires IndexOk(s, paths) && Stepped(s, paths, delta, view, mid, table, cu, cn)
    ensures forall name :: name in view.narinfos ==>
      view.narinfos[name].storePath in table && table[view.narinfos[name].storePath] == FromNarinfo(view.narinfos[name])
  {
    hide Archive, ValidStorePath, ValidFile, Agree, UpstreamTakes, NarinfoKey;
    forall name | name in view.narinfos
      ensures view.narinfos[name].storePath in table
              && table[view.narinfos[name].storePath] == FromNarinfo(view.narinfos[name])
    {
      var p := view.narinfos[name].storePath;
      if name in s.narinfos {
        assert NarinfoOk(s.files, name, s.narinfos[name]);
        assert !NewPath(s.narinfos, delta.narinfos, delta.narinfos.Keys, p);
      } else {
        assert NarinfoTakes(view.files, view.upstream, s.narinfos, name, delta.narinfos[name]);
        assert NewPath(s.narinfos, delta.narinfos, delta.narinfos.Keys, p);
      }
    }
  }

  lemma SteppedUpstream(s: Snapshot, paths: map<string, Indexed>, delta: Snapshot, view: Snapshot,
                        mid: map<string, Indexed>, table: map<string, Indexed>, cu: set<string>, cn: set<string>)
    requires IndexOk(s, paths) && Stepped(s, paths, delta, view, mid, table, cu, cn)
    ensures forall p :: p in view.upstream ==> p in table && table[p].refs == Listed(view.upstream[p])
  {
    SteppedAgree(s, paths, delta, view, mid, table, cu, cn);
    forall p | p in view.upstream
      ensures p in table && table[p].refs == Listed(view.upstream[p])
    {
      if p in cn {
        SteppedBoth(s, paths, delta, view, mid, table, cu, cn, p);
      } else {
        SteppedOne(s, paths, delta, view, mid, table, cu, cn, p);
      }
    }
  }

  lemma SteppedBoth(s: Snapshot, paths: map<string, Indexed>, delta: Snapshot, view: Snapshot,
                    mid: map<string, Indexed>, table: map<string, Indexed>, cu: set<string>, cn: set<string>, p: string)
    requires Agree(view) && Stepped(s, paths, delta, view, mid, table, cu, cn) && p in view.upstream && p in cn
    ensures p in table && table[p].refs == Listed(view.upstream[p])
  {
    hide Archive, ValidStorePath, ValidFile, NarinfoKey, NarinfoTakes, UpstreamTaken, NewFilesValid;
    assert NewPath(s.narinfos, delta.narinfos, delta.narinfos.Keys, p);
    var name := NarinfoKey(p);
    assert name in view.narinfos && view.narinfos[name].storePath == p;
  }

  lemma SteppedOne(s: Snapshot, paths: map<string, Indexed>, delta: Snapshot, view: Snapshot,
                   mid: map<string, Indexed>, table: map<string, Indexed>, cu: set<string>, cn: set<string>, p: string)
    requires IndexOk(s, paths) && Stepped(s, paths, delta, view, mid, table, cu, cn) && p in view.upstream && p !in cn
    ensures p in table && table[p].refs == Listed(view.upstream[p])
  {
    hide Archive, ValidStorePath, ValidFile, NarinfoKey, NarinfoTakes, Closed, NewFilesValid, Agree;
    assert p in s.upstream || p in cu;
    if p in paths && p !in s.upstream { assert UpstreamTakes(s.upstream, paths, p, delta.upstream[p]); }
  }

  lemma SteppedTabled(s: Snapshot, paths: map<string, Indexed>, delta: Snapshot, view: Snapshot,
                      mid: map<string, Indexed>, table: map<string, Indexed>, cu: set<string>, cn: set<string>)
    requires IndexOk(s, paths) && Stepped(s, paths, delta, view, mid, table, cu, cn)
    ensures Tabled(view, table)
  {
    hide IndexOk, Stepped, EntryOk, FromNarinfo;
    SteppedEntries(s, paths, delta, view, mid, table, cu, cn);
    SteppedNarinfos(s, paths, delta, view, mid, table, cu, cn);
    SteppedUpstream(s, paths, delta, view, mid, table, cu, cn);
  }

  /** A table is closed exactly when the snapshot it lists is. */
  lemma TableClosedIsClosed(s: Snapshot, table: map<string, Indexed>)
    requires RecordsOk(s) && Tabled(s, table)
    ensures TableClosed(table) <==> Closed(s)
  {
    forall p { TabledCovers(s, table, p); }
    hide RecordsOk, Covers, NarinfoKey;
    if Closed(s) {
      forall p, r | p in table && r in table[p].refs
        ensures r in table
      {
        assert EntryOk(s, p, table[p]);
        assert Covers(s, r);
      }
    }
  }

  /** What was closed before stays closed, so only the changed paths need looking at. */
  lemma ChangedIsEnough(s: Snapshot, paths: map<string, Indexed>, delta: Snapshot, view: Snapshot,
                        mid: map<string, Indexed>, table: map<string, Indexed>, cu: set<string>, cn: set<string>)
    requires IndexOk(s, paths) && Stepped(s, paths, delta, view, mid, table, cu, cn)
    ensures cu + cn <= table.Keys
    ensures TableClosed(table) <==> forall p :: p in cu + cn ==> forall r :: r in table[p].refs ==> r in table
  {
    TableClosedIsClosed(s, paths);
    hide IndexOk, EntryOk, NewPath, UpstreamTakes, NarinfoTakes, NewFilesValid;
    forall p, r | p in table && p !in cu + cn && r in table[p].refs
      ensures r in table
    {
      assert table[p] == paths[p];
    }
  }

  // ---- against the union built from scratch

  ghost function Union(s: Snapshot, delta: Snapshot): Snapshot { Merged(Merged(EMPTY, s), delta) }

  /** When extending succeeds, said in terms of the full check only. */
  ghost predicate Extendable(s: Snapshot, delta: Snapshot) {
    NewFilesValid(s.files, delta.files) && UnionOk(s, delta) && Agree(Union(s, delta))
  }

  /** The conditions of the three taking loops. */
  ghost predicate Takes(s: Snapshot, paths: map<string, Indexed>, delta: Snapshot) {
    && NewFilesValid(s.files, delta.files)
    && (forall p :: p in delta.upstream ==> UpstreamTakes(s.upstream, paths, p, delta.upstream[p]))
    && (forall n :: n in delta.narinfos ==>
          NarinfoTakes(delta.files + s.files, delta.upstream + s.upstream, s.narinfos, n, delta.narinfos[n]))
  }

  lemma CacheFilesKept(s: Snapshot, delta: Snapshot, name: string)
    requires StartsWith(name, "cache/")
    ensures name in Union(s, delta).files <==> name in s.files || name in delta.files
  {
  }

  lemma ArchivePrefix(n: Narinfo)
    ensures StartsWith(Archive(n), "cache/")
  {
    assert Archive(n)[..6] == "cache/";
  }

  lemma UnionFrom(s: Snapshot, delta: Snapshot)
    ensures Union(s, delta).upstream == s.upstream + delta.upstream
    ensures Union(s, delta).narinfos == delta.narinfos + s.narinfos
    ensures Mergeable(Merged(EMPTY, s), delta) <==> Mergeable(s, delta)
  {
    assert Merged(EMPTY, s).upstream == s.upstream;
    assert Merged(EMPTY, s).narinfos == s.narinfos;
  }

  lemma SteppedMergeable(s: Snapshot, paths: map<string, Indexed>, delta: Snapshot, view: Snapshot,
                         mid: map<string, Indexed>, table: map<string, Indexed>, cu: set<string>, cn: set<string>)
    requires IndexOk(s, paths) && Stepped(s, paths, delta, view, mid, table, cu, cn)
    ensures forall p :: p in s.upstream && p in delta.upstream ==> s.upstream[p] == delta.upstream[p]
    ensures Mergeable(s, delta)
  {
    hide NarinfoKey, Archive, ValidStorePath, ValidFile, Agree, NewPath, EntryOk;
    forall p | p in s.upstream && p in delta.upstream
      ensures s.upstream[p] == delta.upstream[p]
    {
      assert UpstreamTakes(s.upstream, paths, p, delta.upstream[p]);
      assert UpstreamOk(p, s.upstream[p]);
    }
    forall n | n in s.narinfos && n in delta.narinfos
      ensures Matching(s.narinfos[n], delta.narinfos[n])
    {
      assert NarinfoTakes(view.files, view.upstream, s.narinfos, n, delta.narinfos[n]);
    }
  }

  /** Both ways of building the view have the same records. */
  lemma SteppedIsUnion(s: Snapshot, paths: map<string, Indexed>, delta: Snapshot, view: Snapshot,
                       mid: map<string, Indexed>, table: map<string, Indexed>, cu: set<string>, cn: set<string>)
    requires IndexOk(s, paths) && Stepped(s, paths, delta, view, mid, table, cu, cn)
    ensures Mergeable(s, delta)
    ensures view.upstream == Union(s, delta).upstream && view.narinfos == Union(s, delta).narinfos
  {
    hide IndexOk, UpstreamTakes, NarinfoTakes, NewFilesValid, NewPath, Union, Mergeable, FromNarinfo, FromUpstream;
    UnionFrom(s, delta);
    SteppedMergeable(s, paths, delta, view, mid, table, cu, cn);
    JoinedMaps(s.upstream, delta.upstream, view.upstream);
    JoinedMaps(s.narinfos, delta.narinfos, view.narinfos);
  }

  lemma JoinedMaps<T>(mine: map<string, T>, theirs: map<string, T>, r: map<string, T>)
    requires r.Keys == mine.Keys + theirs.Keys
             && forall p :: p in r ==> r[p] == if p in mine then mine[p] else theirs[p]
    ensures r == theirs + mine
    ensures (forall p :: p in mine && p in theirs ==> mine[p] == theirs[p]) ==> r == mine + theirs
  {
  }

  /** Two snapshots with the same upstream coverage and narinfos, whose files agree on archives, pass the same
      checks. */
  lemma SameChecks(a: Snapshot, b: Snapshot)
    requires a.upstream == b.upstream && a.narinfos == b.narinfos
    requires forall name ::
               name in a.narinfos ==> (Archive(a.narinfos[name]) in a.files <==> Archive(a.narinfos[name]) in b.files)
    ensures Closed(a) <==> Closed(b)
    ensures Agree(a) <==> Agree(b)
  {
    hide NarinfoKey, Archive, ValidStorePath;
    assert RecordsOk(a) <==> RecordsOk(b) by {
      forall name | name in a.narinfos
        ensures NarinfoOk(a.files, name, a.narinfos[name]) <==> NarinfoOk(b.files, name, b.narinfos[name])
      {
      }
      hide NarinfoOk, UpstreamOk;
    }
    forall refs
      ensures RefsCovered(a, refs) <==> RefsCovered(b, refs)
    {
      forall p
        ensures Covers(a, p) <==> Covers(b, p)
      {
      }
      hide Covers;
    }
    hide RecordsOk, RefsCovered;
  }

  lemma SameRecords(view: Snapshot, s: Snapshot, delta: Snapshot)
    requires view.files == delta.files + s.files
    requires view.upstream == Union(s, delta).upstream && view.narinfos == Union(s, delta).narinfos
    ensures Closed(view) <==> Closed(Union(s, delta))
    ensures Agree(view) <==> Agree(Union(s, delta))
  {
    var u := Union(s, delta);
    hide Union, Archive, Closed, Agree;
    forall name | name in view.narinfos
      ensures Archive(view.narinfos[name]) in view.files <==> Archive(view.narinfos[name]) in u.files
    {
      ArchivePrefix(view.narinfos[name]);
      CacheFilesKept(s, delta, Archive(view.narinfos[name]));
    }
    SameChecks(view, u);
  }

  lemma ExtendableTakes(s: Snapshot, paths: map<string, Indexed>, delta: Snapshot)
    requires IndexOk(s, paths) && Extendable(s, delta)
    ensures Takes(s, paths, delta)
  {
    UnionFrom(s, delta);
    forall p | p in delta.upstream
      ensures UpstreamTakes(s.upstream, paths, p, delta.upstream[p])
    {
      ExtendableUpstream(s, paths, delta, p);
    }
    forall n | n in delta.narinfos
      ensures NarinfoTakes(delta.files + s.files, delta.upstream + s.upstream, s.narinfos, n, delta.narinfos[n])
    {
      ExtendableNarinfo(s, paths, delta, n);
    }
    hide IndexOk, Union, UnionOk, Agree, UpstreamTakes, NarinfoTakes;
  }

  lemma ExtendableUpstream(s: Snapshot, paths: map<string, Indexed>, delta: Snapshot, p: string)
    requires IndexOk(s, paths) && Extendable(s, delta) && p in delta.upstream
    ensures UpstreamTakes(s.upstream, paths, p, delta.upstream[p])
  {
    UnionFrom(s, delta);
    var u := Union(s, delta);
    hide NarinfoKey, Archive, ValidStorePath, ValidFile, Union, NewFilesValid;
    assert UpstreamOk(p, u.upstream[p]);
    if p in paths && p !in s.upstream {
      assert EntryOk(s, p, paths[p]);
      var name := NarinfoKey(p);
      assert name in u.narinfos && u.narinfos[name].storePath == p;
    }
  }

  lemma ExtendableNarinfo(s: Snapshot, paths: map<string, Indexed>, delta: Snapshot, n: string)
    requires IndexOk(s, paths) && Extendable(s, delta) && n in delta.narinfos
    ensures NarinfoTakes(delta.files + s.files, delta.upstream + s.upstream, s.narinfos, n, delta.narinfos[n])
  {
    hide IndexOk, Extendable;
    if n in s.narinfos { KnownNarinfo(s, paths, delta, n); } else { FreshNarinfo(s, paths, delta, n); }
  }

  lemma KnownNarinfo(s: Snapshot, paths: map<string, Indexed>, delta: Snapshot, n: string)
    requires IndexOk(s, paths) && Extendable(s, delta) && n in delta.narinfos && n in s.narinfos
    ensures NarinfoTakes(delta.files + s.files, delta.upstream + s.upstream, s.narinfos, n, delta.narinfos[n])
  {
    hide NarinfoKey, Archive, ValidStorePath, ValidFile, Union, NewFilesValid, Tabled, RefsCovered, Agree, UpstreamOk;
    UnionFrom(s, delta);
    assert NarinfoOk(s.files, n, s.narinfos[n]);
    assert Matching(s.narinfos[n], delta.narinfos[n]);
    hide Closed, UnionOk, Mergeable, Merged;
    SameArchive(s.narinfos[n], delta.narinfos[n]);
  }

  lemma FreshNarinfo(s: Snapshot, paths: map<string, Indexed>, delta: Snapshot, n: string)
    requires IndexOk(s, paths) && Extendable(s, delta) && n in delta.narinfos && n !in s.narinfos
    ensures NarinfoTakes(delta.files + s.files, delta.upstream + s.upstream, s.narinfos, n, delta.narinfos[n])
  {
    hide NarinfoKey, Archive, ValidStorePath, ValidFile, NewFilesValid, IndexOk, RefsCovered, UpstreamOk;
    var (u, x) := (Union(s, delta), delta.narinfos[n]);
    UnionFrom(s, delta);
    assert u.narinfos[n] == x;
    assert Closed(u) && Agree(u) && Mergeable(s, delta);
    hide Union, UnionOk, Merged;
    assert NarinfoOk(u.files, n, u.narinfos[n]);
    hide Closed;
    ArchivePrefix(x);
    CacheFilesKept(s, delta, Archive(x));
    if x.storePath in delta.upstream + s.upstream {
      assert Listed(u.upstream[x.storePath]) == x.refs;
    }
  }

  lemma SameArchive(a: Narinfo, b: Narinfo)
    requires Matching(a, b)
    ensures Archive(a) == Archive(b) && a.storePath == b.storePath
  {
  }
}

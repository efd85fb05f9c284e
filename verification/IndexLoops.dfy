/** The table of the incremental index and the loops that extend it (worker/snapshot_index.go). */
module IndexLoops {
  import opened Names
  import opened Snapshots

  /** `text` is absent for a path known only from upstream. */
  datatype Indexed = Indexed(text: Option<Narinfo>, archive: string, refs: seq<string>)

  function FromNarinfo(n: Narinfo): Indexed { Indexed(Some(n), Archive(n), n.refs) }

  function FromUpstream(refs: References): Indexed { Indexed(None, "", Listed(refs)) }

  /** A path known both from a narinfo and from upstream has the same references in both. */
  ghost predicate Agree(s: Snapshot) {
    forall name :: name in s.narinfos && s.narinfos[name].storePath in s.upstream ==>
      Listed(s.upstream[s.narinfos[name].storePath]) == s.narinfos[name].refs
  }

  ghost predicate EntryOk(s: Snapshot, p: string, x: Indexed) {
    match x.text
    case None => p in s.upstream && x == FromUpstream(s.upstream[p])
    case Some(n) =>
      NarinfoKey(p) in s.narinfos && s.narinfos[NarinfoKey(p)] == n && n.storePath == p && x == FromNarinfo(n)
  }

  /** The table lists exactly the covered paths, each with its record. */
  ghost predicate Tabled(s: Snapshot, paths: map<string, Indexed>) {
    && (forall p :: p in paths ==> EntryOk(s, p, paths[p]))
    && (forall p :: p in s.upstream ==> p in paths && paths[p].refs == Listed(s.upstream[p]))
    && (forall name ::
          name in s.narinfos ==>
            s.narinfos[name].storePath in paths && paths[s.narinfos[name].storePath] == FromNarinfo(s.narinfos[name]))
  }

  ghost predicate IndexOk(s: Snapshot, paths: map<string, Indexed>) { Closed(s) && Agree(s) && Tabled(s, paths) }

  lemma TabledCovers(s: Snapshot, paths: map<string, Indexed>, p: string)
    requires Tabled(s, paths)
    ensures p in paths <==> Covers(s, p)
  {
    if p in paths { assert EntryOk(s, p, paths[p]); }
  }

  // ---- the four loops of extend

  ghost predicate NewFilesValid(mine: map<string, File>, theirs: map<string, File>) {
    forall n :: n in theirs && n !in mine ==> ValidFile(theirs[n])
  }

  method TakeFiles(mine: map<string, File>, theirs: map<string, File>) returns (ok: bool, r: map<string, File>)
    ensures ok <==> NewFilesValid(mine, theirs)
    ensures ok ==> r == theirs + mine
  {
    ok, r := true, mine;
    var names := theirs.Keys;
    while names != {}
      invariant names <= theirs.Keys && r == Restrict(theirs, theirs.Keys - names) + mine
      invariant forall n :: n in theirs && n !in mine && n !in names ==> ValidFile(theirs[n])
      decreases names
    {
      var name :| name in names;
      if name !in r {
        if !ValidFile(theirs[name]) { return false, r; }
        r := r[name := theirs[name]];
      }
      names := names - {name};
    }
  }

  ghost predicate UpstreamTakes(mine: map<string, References>, paths: map<string, Indexed>, p: string,
                                refs: References) {
    && ValidStorePath(p) && refs.Some?
    && (p in paths ==> paths[p].refs == refs.value)
    && (p !in mine ==> AllStorePaths(refs.value))
  }

  /** The loop over upstream records once those in `done` have been taken. */
  ghost predicate UpstreamTaken(mine: map<string, References>, theirs: map<string, References>,
                                paths: map<string, Indexed>, done: set<string>, r: map<string, References>,
                                table: map<string, Indexed>, changed: set<string>) {
    && (forall p :: p in done ==> p in theirs && UpstreamTakes(mine, paths, p, theirs[p])) && r.Keys == mine.Keys + done
    && (forall p :: p in r ==> r[p] == if p in mine then mine[p] else theirs[p]) && changed == done - mine.Keys
    && table.Keys == paths.Keys + changed
    && forall p :: p in table ==> table[p] == if p in paths then paths[p] else FromUpstream(theirs[p])
  }

  lemma KnownUpstream(mine: map<string, References>, theirs: map<string, References>, paths: map<string, Indexed>,
                      done: set<string>, r: map<string, References>, table: map<string, Indexed>, changed: set<string>,
                      p: string)
    requires UpstreamTaken(mine, theirs, paths, done, r, table, changed) && p in theirs && p in mine
             && UpstreamTakes(mine, paths, p, theirs[p])
    ensures UpstreamTaken(mine, theirs, paths, done + {p}, r, table, changed)
  {
    hide UpstreamTakes;
    assert r.Keys == mine.Keys + (done + {p});
    assert changed == done + {p} - mine.Keys;
  }

  lemma NewUpstream(mine: map<string, References>, theirs: map<string, References>, paths: map<string, Indexed>,
                    done: set<string>, r: map<string, References>, table: map<string, Indexed>, changed: set<string>,
                    p: string)
    requires UpstreamTaken(mine, theirs, paths, done, r, table, changed) && p in theirs && p !in done && p !in mine
             && UpstreamTakes(mine, paths, p, theirs[p])
    ensures UpstreamTaken(mine, theirs, paths, done + {p}, r[p := theirs[p]],
                          if p in table then table else table[p := FromUpstream(theirs[p])], changed + {p})
  {
    hide UpstreamTakes;
  }

  method TakeUpstream(mine: map<string, References>, theirs: map<string, References>, paths: map<string, Indexed>)
    returns (ok: bool, r: map<string, References>, table: map<string, Indexed>, changed: set<string>)
    ensures ok <==> forall p :: p in theirs ==> UpstreamTakes(mine, paths, p, theirs[p])
    ensures ok ==> UpstreamTaken(mine, theirs, paths, theirs.Keys, r, table, changed)
  {
    ok, r, table, changed := true, mine, paths, {};
    var todo := theirs.Keys;
    ghost var done: set<string> := {};
    while todo != {}
      invariant todo + done == theirs.Keys && todo !! done
      invariant UpstreamTaken(mine, theirs, paths, done, r, table, changed)
      decreases todo
    {
      var path :| path in todo;
      var refs := theirs[path];
      if !ValidStorePath(path) || refs.None? {
        assert !UpstreamTakes(mine, paths, path, theirs[path]);
        return false, r, table, changed;
      }
      if path in table && table[path].refs != refs.value {
        assert path !in changed;
        assert !UpstreamTakes(mine, paths, path, theirs[path]);
        return false, r, table, changed;
      }
      if path !in r && !AllStorePaths(refs.value) {
        assert !UpstreamTakes(mine, paths, path, theirs[path]);
        return false, r, table, changed;
      }
      assert UpstreamTakes(mine, paths, path, theirs[path]);
      if path in mine {
        KnownUpstream(mine, theirs, paths, done, r, table, changed, path);
      } else {
        NewUpstream(mine, theirs, paths, done, r, table, changed, path);
      }
      if path !in r {
        r := r[path := refs];
        if path !in table { table := table[path := FromUpstream(refs)]; }
        changed := changed + {path};
      }
      todo, done := todo - {path}, done + {path};
    }
    assert done == theirs.Keys;
  }

  ghost predicate NarinfoTakes(files: map<string, File>, upstream: map<string, References>, mine: map<string, Narinfo>,
                               name: string, n: Narinfo) {
    if name in mine && mine[name] == n then true
    else
      && n.valid && Archive(n) in files && name == NarinfoKey(n.storePath)
      && (if name in mine then mine[name].valid && SameFields(mine[name], n)
          else n.storePath in upstream ==> Listed(upstream[n.storePath]) == n.refs)
  }

  /** The loop over narinfos once those in `done` have been taken. */
  ghost predicate NarinfosTaken(files: map<string, File>, upstream: map<string, References>, mine: map<string, Narinfo>,
                                theirs: map<string, Narinfo>, paths: map<string, Indexed>, done: set<string>,
                                r: map<string, Narinfo>, table: map<string, Indexed>, changed: set<string>) {
    && (forall n :: n in done ==> n in theirs && NarinfoTakes(files, upstream, mine, n, theirs[n]))
    && r.Keys == mine.Keys + done && (forall n :: n in r ==> r[n] == if n in mine then mine[n] else theirs[n])
    && (forall p :: p in changed <==> NewPath(mine, theirs, done, p)) && table.Keys == paths.Keys + changed
    && forall p ::
         p in table ==>
           if p in changed then NarinfoKey(p) in theirs && table[p] == FromNarinfo(theirs[NarinfoKey(p)])
           else table[p] == paths[p]
  }

  /** `p` is the path of a narinfo that was not there before. */
  ghost predicate NewPath(mine: map<string, Narinfo>, theirs: map<string, Narinfo>, done: set<string>, p: string) {
    NarinfoKey(p) in done && NarinfoKey(p) !in mine && NarinfoKey(p) in theirs && theirs[NarinfoKey(p)].storePath == p
  }

  lemma KeepNarinfo(files: map<string, File>, upstream: map<string, References>, mine: map<string, Narinfo>,
                    theirs: map<string, Narinfo>, paths: map<string, Indexed>, done: set<string>,
                    r: map<string, Narinfo>, table: map<string, Indexed>, changed: set<string>, n: string)
    requires NarinfosTaken(files, upstream, mine, theirs, paths, done, r, table, changed)
    requires n in theirs && n !in done && NarinfoTakes(files, upstream, mine, n, theirs[n]) && n in mine
    ensures NarinfosTaken(files, upstream, mine, theirs, paths, done + {n}, r, table, changed)
  {
    hide NarinfoTakes;
    assert r.Keys == mine.Keys + (done + {n});
  }

  lemma NewPathStep(mine: map<string, Narinfo>, theirs: map<string, Narinfo>, done: set<string>, changed: set<string>,
                    n: string)
    requires n in theirs && n !in done && n !in mine && n == NarinfoKey(theirs[n].storePath)
    requires forall p :: p in changed <==> NewPath(mine, theirs, done, p)
    ensures forall p :: p in changed + {theirs[n].storePath} <==> NewPath(mine, theirs, done + {n}, p)
    ensures theirs[n].storePath !in changed
  {
  }

  lemma AddNarinfo(files: map<string, File>, upstream: map<string, References>, mine: map<string, Narinfo>,
                   theirs: map<string, Narinfo>, paths: map<string, Indexed>, done: set<string>,
                   r: map<string, Narinfo>, table: map<string, Indexed>, changed: set<string>, n: string)
    requires NarinfosTaken(files, upstream, mine, theirs, paths, done, r, table, changed)
    requires n in theirs && n !in done && NarinfoTakes(files, upstream, mine, n, theirs[n]) && n !in mine
    ensures NarinfosTaken(files, upstream, mine, theirs, paths, done + {n}, r[n := theirs[n]],
      table[theirs[n].storePath := FromNarinfo(theirs[n])], changed + {theirs[n].storePath})
  {
    assert n == NarinfoKey(theirs[n].storePath);
    NewPathStep(mine, theirs, done, changed, n);
    AddNarinfoRecord(files, upstream, mine, theirs, paths, done, r, table, changed, n);
    AddNarinfoEntry(theirs, paths, table, changed, n);
  }

  lemma AddNarinfoRecord(files: map<string, File>, upstream: map<string, References>, mine: map<string, Narinfo>,
                         theirs: map<string, Narinfo>, paths: map<string, Indexed>, done: set<string>,
                         r: map<string, Narinfo>, table: map<string, Indexed>, changed: set<string>, n: string)
    requires NarinfosTaken(files, upstream, mine, theirs, paths, done, r, table, changed)
    requires n in theirs && n !in done && NarinfoTakes(files, upstream, mine, n, theirs[n]) && n !in mine
    ensures forall m :: m in done + {n} ==> m in theirs && NarinfoTakes(files, upstream, mine, m, theirs[m])
    ensures r[n := theirs[n]].Keys == mine.Keys + (done + {n})
    ensures forall m :: m in r[n := theirs[n]] ==> r[n := theirs[n]][m] == if m in mine then mine[m] else theirs[m]
  {
    hide NarinfoTakes, NewPath, NarinfoKey, FromNarinfo;
  }

  lemma AddNarinfoEntry(theirs: map<string, Narinfo>, paths: map<string, Indexed>, table: map<string, Indexed>,
                        changed: set<string>, n: string)
    requires n in theirs && n == NarinfoKey(theirs[n].storePath) && table.Keys == paths.Keys + changed
    requires forall p :: p in table ==>
               if p in changed then NarinfoKey(p) in theirs && table[p] == FromNarinfo(theirs[NarinfoKey(p)])
               else table[p] == paths[p]
    ensures var path := theirs[n].storePath;
            var (table', changed') := (table[path := FromNarinfo(theirs[n])], changed + {path});
            && table'.Keys == paths.Keys + changed'
            && forall p :: p in table' ==>
                 if p in changed' then NarinfoKey(p) in theirs && table'[p] == FromNarinfo(theirs[NarinfoKey(p)])
                 else table'[p] == paths[p]
  {
    hide NarinfoKey, FromNarinfo;
  }

  method TakeNarinfos(files: map<string, File>, upstream: map<string, References>, mine: map<string, Narinfo>,
                      theirs: map<string, Narinfo>, paths: map<string, Indexed>)
    returns (ok: bool, r: map<string, Narinfo>, table: map<string, Indexed>, changed: set<string>)
    ensures ok <==> forall n :: n in theirs ==> NarinfoTakes(files, upstream, mine, n, theirs[n])
    ensures ok ==> NarinfosTaken(files, upstream, mine, theirs, paths, theirs.Keys, r, table, changed)
  {
    ok, r, table, changed := true, mine, paths, {};
    var todo := theirs.Keys;
    ghost var done: set<string> := {};
    while todo != {}
      invariant todo + done == theirs.Keys && todo !! done
      invariant NarinfosTaken(files, upstream, mine, theirs, paths, done, r, table, changed)
      decreases todo
    {
      var name :| name in todo;
      var text := theirs[name];
      var takes := true;
      if !(name in r && r[name] == text) {
        takes := text.valid && Archive(text) in files && name == NarinfoKey(text.storePath);
        if takes {
          if name in r {
            takes := r[name].valid && SameFields(r[name], text);
          } else {
            takes := text.storePath !in upstream || Listed(upstream[text.storePath]) == text.refs;
          }
        }
      }
      assert takes <==> NarinfoTakes(files, upstream, mine, name, theirs[name]);
      if !takes { return false, r, table, changed; }
      if name in r {
        KeepNarinfo(files, upstream, mine, theirs, paths, done, r, table, changed, name);
      } else {
        AddNarinfo(files, upstream, mine, theirs, paths, done, r, table, changed, name);
        r := r[name := text];
        table := table[text.storePath := FromNarinfo(text)];
        changed := changed + {text.storePath};
      }
      todo, done := todo - {name}, done + {name};
    }
    assert done == theirs.Keys;
  }

  method ChangedClosed(table: map<string, Indexed>, changed: set<string>) returns (ok: bool)
    requires changed <= table.Keys
    ensures ok <==> forall p :: p in changed ==> forall r :: r in table[p].refs ==> r in table
  {
    var todo := changed;
    while todo != {}
      invariant todo <= changed
                && forall p :: p in changed && p !in todo ==> forall r :: r in table[p].refs ==> r in table
    {
      var path :| path in todo;
      var found := AllIn(table[path].refs, table.Keys);
      if !found { return false; }
      todo := todo - {path};
    }
    ok := true;
  }
}

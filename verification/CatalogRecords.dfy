/** `addCatalogRecords`: what a node's records add to a snapshot (worker/catalog.go:463-489). */
module CatalogRecords {
  import opened Catalog
  import opened Names
  import opened Snapshots

  /** The record `r` stored under `key` places the file `f` under `name`, as its own file or as the archive of its
      narinfo. */
  ghost predicate Offers(key: string, r: Record, name: string, f: File) {
    || (key == name && r.file == Some(f))
    || (r.narinfo.Some? && Archive(r.narinfo.value) == name && r.archive == Some(f))
  }

  ghost predicate Offered(records: map<string, Record>, keys: set<string>, name: string, f: File) {
    exists key :: key in keys && key in records && Offers(key, records[key], name, f)
  }

  /** The files after adding the records under `keys`: nothing moves, everything offered is there, and nothing else is
      new. */
  ghost predicate Joined(before: map<string, File>, records: map<string, Record>, keys: set<string>,
                         after: map<string, File>) {
    && (forall n :: n in before ==> n in after && after[n] == before[n])
    && (forall key, n, f ::
          key in keys && key in records && Offers(key, records[key], n, f) ==> n in after && after[n] == f)
    && (forall n :: n in after ==> n in before || Offered(records, keys, n, after[n]))
  }

  /** No two of the present and offered files differ. */
  ghost predicate Agree(before: map<string, File>, records: map<string, Record>) {
    && (forall key, n, f :: key in records && Offers(key, records[key], n, f) && n in before ==> before[n] == f)
    && (forall j, k, n, f, g ::
          j in records && k in records && Offers(j, records[j], n, f) && Offers(k, records[k], n, g) ==> f == g)
  }

  ghost predicate FilesOk(reachable: map<string, Descriptor>, files: map<string, File>) {
    forall n :: n in files ==> FileOk(reachable, files[n])
  }

  ghost predicate RecordsFilesOk(reachable: map<string, Descriptor>, records: map<string, Record>) {
    forall k :: k in records ==>
      && (records[k].file.Some? ==> FileOk(reachable, records[k].file.value))
      && (records[k].narinfo.Some? ==> records[k].archive.Some?)
      && (records[k].archive.Some? ==> FileOk(reachable, records[k].archive.value))
  }

  /** The conflict check leaves out size and media type of the blob, which the manifest fixes. */
  predicate SameLocation(a: File, b: File) {
    a.blob.digest == b.blob.digest && a.offset == b.offset && a.size == b.size && a.digest == b.digest
  }

  lemma SameLocationIsEqual(reachable: map<string, Descriptor>, a: File, b: File)
    requires FileOk(reachable, a) && FileOk(reachable, b)
    ensures SameLocation(a, b) <==> a == b
  {
  }

  ghost function NarinfosOf(records: map<string, Record>): map<string, Narinfo> {
    map k | k in records && records[k].narinfo.Some? :: records[k].narinfo.value
  }

  ghost function UpstreamOf(records: map<string, Record>): map<string, References> {
    map k | k in records && records[k].references.Some? :: records[k].references
  }

  /** The files of one record; `fresh` is false when one of them conflicts. */
  method AddFiles(files: map<string, File>, key: string, r: Record) returns (ok: bool, files': map<string, File>)
    requires r.narinfo.Some? ==> r.archive.Some?
    ensures ok ==> files' == AfterArchive(AfterFile(files, key, r), r)
    ensures ok <==> FileFits(files, key, r) && ArchiveFits(AfterFile(files, key, r), r)
  {
    files' := files;
    if r.file.Some? {
      if key in files' && !SameLocation(files'[key], r.file.value) { return false, files; }
      files' := files'[key := r.file.value];
    }
    if r.narinfo.Some? {
      var name := Archive(r.narinfo.value);
      if name in files' && !SameLocation(files'[name], r.archive.value) { return false, files; }
      files' := files'[name := r.archive.value];
    }
    ok := true;
  }

  function AfterFile(files: map<string, File>, key: string, r: Record): map<string, File> {
    if r.file.Some? then files[key := r.file.value] else files
  }

  function AfterArchive(files: map<string, File>, r: Record): map<string, File> {
    if r.narinfo.Some? && r.archive.Some? then files[Archive(r.narinfo.value) := r.archive.value] else files
  }

  predicate FileFits(files: map<string, File>, key: string, r: Record) {
    r.file.Some? && key in files ==> SameLocation(files[key], r.file.value)
  }

  predicate ArchiveFits(files: map<string, File>, r: Record) {
    r.narinfo.Some? && r.archive.Some? && Archive(r.narinfo.value) in files ==>
      SameLocation(files[Archive(r.narinfo.value)], r.archive.value)
  }

  lemma AddedOne(reachable: map<string, Descriptor>, before: map<string, File>, records: map<string, Record>,
                 keys: set<string>, files: map<string, File>, key: string)
    requires RecordsFilesOk(reachable, records) && FilesOk(reachable, files) && Joined(before, records, keys, files)
             && key in records
    requires FileFits(files, key, records[key]) && ArchiveFits(AfterFile(files, key, records[key]), records[key])
    ensures FilesOk(reachable, AfterArchive(AfterFile(files, key, records[key]), records[key]))
    ensures Joined(before, records, keys + {key}, AfterArchive(AfterFile(files, key, records[key]), records[key]))
  {
    var r := records[key];
    var mid := AfterFile(files, key, r);
    var after := AfterArchive(mid, r);
    OneFits(reachable, files, key, r);
    forall n | n in after
      ensures n in before || Offered(records, keys + {key}, n, after[n])
    {
      if n in files {
        assert after[n] == files[n];
        if n !in before {
          var k :| k in keys && k in records && Offers(k, records[k], n, files[n]);
          assert k in keys + {key};
        }
      } else {
        assert Offers(key, r, n, after[n]);
      }
    }
  }

  /** Files that fit do not move what is there, and all offers of the record are met. */
  lemma OneFits(reachable: map<string, Descriptor>, files: map<string, File>, key: string, r: Record)
    requires FilesOk(reachable, files) && (r.file.Some? ==> FileOk(reachable, r.file.value))
             && (r.archive.Some? ==> FileOk(reachable, r.archive.value))
    requires (r.narinfo.Some? ==> r.archive.Some?) && FileFits(files, key, r)
             && ArchiveFits(AfterFile(files, key, r), r)
    ensures forall n ::
              n in files ==>
                n in AfterArchive(AfterFile(files, key, r), r)
                && AfterArchive(AfterFile(files, key, r), r)[n] == files[n]
    ensures forall n, f ::
              Offers(key, r, n, f) ==>
                n in AfterArchive(AfterFile(files, key, r), r) && AfterArchive(AfterFile(files, key, r), r)[n] == f
    ensures forall n ::
              n in AfterArchive(AfterFile(files, key, r), r) && n !in files ==>
                Offers(key, r, n, AfterArchive(AfterFile(files, key, r), r)[n])
    ensures FilesOk(reachable, AfterArchive(AfterFile(files, key, r), r))
  {
    var mid := AfterFile(files, key, r);
    if r.file.Some? && key in files { SameLocationIsEqual(reachable, files[key], r.file.value); }
    assert FilesOk(reachable, mid);
    if r.narinfo.Some? && Archive(r.narinfo.value) in mid {
      SameLocationIsEqual(reachable, mid[Archive(r.narinfo.value)], r.archive.value);
    }
    hide SameLocation, FileOk, Archive;
  }

  /** A file that does not fit differs from one that is present or offered. */
  lemma Misfit(reachable: map<string, Descriptor>, before: map<string, File>, records: map<string, Record>,
               keys: set<string>, files: map<string, File>, key: string)
    requires RecordsFilesOk(reachable, records) && FilesOk(reachable, files) && Joined(before, records, keys, files)
             && key in records
    requires Agree(before, records)
    ensures FileFits(files, key, records[key]) && ArchiveFits(AfterFile(files, key, records[key]), records[key])
  {
    var r := records[key];
    if r.file.Some? && key in files {
      assert Offers(key, r, key, r.file.value);
      AgreeOne(before, records, keys, files, key, key, r.file.value);
    }
    if r.narinfo.Some? && Archive(r.narinfo.value) in AfterFile(files, key, r) {
      var name := Archive(r.narinfo.value);
      assert Offers(key, r, name, r.archive.value);
      if name in files { AgreeOne(before, records, keys, files, key, name, r.archive.value); }
      if r.file.Some? && name == key { assert Offers(key, r, key, r.file.value); }
    }
  }

  lemma AgreeOne(before: map<string, File>, records: map<string, Record>, keys: set<string>, files: map<string, File>,
                 key: string, n: string, f: File)
    requires Agree(before, records) && Joined(before, records, keys, files) && key in records
             && Offers(key, records[key], n, f) && n in files
    ensures files[n] == f
  {
    if n !in before {
      var k :| k in keys && k in records && Offers(k, records[k], n, files[n]);
    }
  }

  lemma JoinedAgrees(before: map<string, File>, records: map<string, Record>, after: map<string, File>)
    requires Joined(before, records, records.Keys, after)
    ensures Agree(before, records)
  {
    forall j, k, n, f, g | j in records && k in records && Offers(j, records[j], n, f) && Offers(k, records[k], n, g)
      ensures f == g
    {
      assert after[n] == f && after[n] == g;
    }
  }

  lemma RestrictStep(base: Snapshot, records: map<string, Record>, done: set<string>, key: string)
    requires key in records && key !in done
    ensures base.narinfos + NarinfosOf(Restrict(records, done + {key}))
              == var before := base.narinfos + NarinfosOf(Restrict(records, done));
                 if records[key].narinfo.Some? then before[key := records[key].narinfo.value] else before
    ensures base.upstream + UpstreamOf(Restrict(records, done + {key}))
              == var before := base.upstream + UpstreamOf(Restrict(records, done));
                 if records[key].references.Some? then before[key := records[key].references] else before
  {
  }

  lemma RestrictAll(records: map<string, Record>)
    ensures Restrict(records, records.Keys) == records
  {
  }

  lemma ArchiveGiven(reachable: map<string, Descriptor>, records: map<string, Record>, key: string)
    requires RecordsFilesOk(reachable, records) && key in records
    ensures records[key].narinfo.Some? ==> records[key].archive.Some?
  {
  }

  lemma AddStart(base: Snapshot, reachable: map<string, Descriptor>, records: map<string, Record>, none: set<string>)
    requires none == {}
    ensures Joined(base.files, records, none, base.files)
    ensures base.narinfos + NarinfosOf(Restrict(records, none)) == base.narinfos
            && base.upstream + UpstreamOf(Restrict(records, none)) == base.upstream
  {
  }

  /** Succeeds exactly when no two files under one name differ. */
  method AddRecords(ghost reachable: map<string, Descriptor>, s: Snapshot, records: map<string, Record>)
    returns (r: Option<Snapshot>)
    requires RecordsFilesOk(reachable, records) && FilesOk(reachable, s.files)
    ensures r.Some? <==> Agree(s.files, records)
    ensures r.Some? ==> Joined(s.files, records, records.Keys, r.value.files) && FilesOk(reachable, r.value.files)
    ensures r.Some? ==>
              r.value.narinfos == s.narinfos + NarinfosOf(records)
              && r.value.upstream == s.upstream + UpstreamOf(records)
  {
    var files, narinfos, upstream := s.files, s.narinfos, s.upstream;
    var keys := records.Keys;
    hide Joined, FilesOk, Agree, FileFits, ArchiveFits, AfterFile, AfterArchive, FileOk, NarinfosOf, UpstreamOf,
      Restrict, RecordsFilesOk;
    AddStart(s, reachable, records, records.Keys - keys);
    while keys != {}
      invariant keys <= records.Keys && FilesOk(reachable, files)
                && Joined(s.files, records, records.Keys - keys, files)
      invariant narinfos == s.narinfos + NarinfosOf(Restrict(records, records.Keys - keys))
      invariant upstream == s.upstream + UpstreamOf(Restrict(records, records.Keys - keys))
      decreases keys
    {
      hide Joined, FilesOk, Agree, FileFits, ArchiveFits, AfterFile, AfterArchive, FileOk, NarinfosOf, UpstreamOf,
        Restrict, RecordsFilesOk;
      var key :| key in keys;
      var record := records[key];
      if Agree(s.files, records) { Misfit(reachable, s.files, records, records.Keys - keys, files, key); }
      ArchiveGiven(reachable, records, key);
      var ok, files' := AddFiles(files, key, record);
      if !ok { return None; }
      AddedOne(reachable, s.files, records, records.Keys - keys, files, key);
      files := files';
      if record.narinfo.Some? { narinfos := narinfos[key := record.narinfo.value]; }
      if record.references.Some? { upstream := upstream[key := record.references]; }
      RestrictStep(s, records, records.Keys - keys, key);
      assert records.Keys - keys + {key} == records.Keys - (keys - {key});
      keys := keys - {key};
    }
    assert records.Keys - keys == records.Keys;
    RestrictAll(records);
    JoinedAgrees(s.files, records, files);
    r := Some(Snapshot(files, narinfos, upstream));
  }
}

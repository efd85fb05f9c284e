/** From `narPacker` to `packDownloads`: a record that was packed is served as it was added
    (worker/publication.go:127-212, worker/download.go:44-148). */
module PackRoundTrip {
  import opened Blobs
  import opened Downloads
  import opened DownloadState
  import opened Names
  import opened Packer
  import opened Snapshots

  /** An advertised record is a valid file, and any settled pack of its blob answers with the record's own bytes. */
  lemma AdvertisedServed(digest: Digest, blobs: set<Bytes>, files: map<string, File>, r: Entry, p: Pack)
    requires DigestText(digest) && ShownAs(digest, blobs, files, r) && r.text != []
    requires forall data :: data in blobs ==> |data| < BLOB_LIMIT
    ensures ValidFile(files[r.name])
    ensures PackOk(digest, p) && p.status.Ready? && p.descriptor == files[r.name].blob
            && Apart(digest, blobs + {p.status.data}) ==>
              Answer(digest, p.status, files[r.name]) == Content(r.text)
  {
    var file := files[r.name];
    var data :| data in blobs && RangeOf(digest, data, file, r.text);
    RangeValid(digest, data, file, r.text);
    if PackOk(digest, p) && p.status.Ready? && p.descriptor == file.blob && Apart(digest, blobs + {p.status.data}) {
      assert data in blobs + {p.status.data} && p.status.data in blobs + {p.status.data};
      assert Apart(digest, {data, p.status.data});
      hide RangeOf, ValidFile, PackOk, Answer;
      ServedExactly(digest, p, file, data, r.text);
    }
  }

  /** The bodies that can be read. */
  ghost function Bodies(arena: seq<Pack>): set<Bytes> { set p | p in arena && p.status.Ready? :: p.status.data }

  ghost function Texts(arena: seq<Pack>, fetched: Fetched): set<Bytes> {
    Bodies(arena) + if fetched.Body? then {fetched.data} else {}
  }

  /** A read is not answered by the cache when it is refused or bypasses it, or else finds its pack still being
      downloaded, is the first for its pack, or has no room beside the packs with readers. */
  ghost predicate Unanswered(limit: int, packs: map<string, nat>, arena: seq<Pack>, recent: map<string, nat>,
                             key: string, file: File)
    requires MapOk(packs, arena)
  {
    || Conflicts(packs, arena, key, file.blob) || Bypass(limit, file)
    || if key in packs then arena[packs[key]].status.Loading?
       else key !in recent || Total(packs, arena, true) + file.blob.size > limit
  }

  /** What the pack of a read comes to: what is there already, or else what the read downloads. */
  ghost function Arrives(digest: Digest, packs: map<string, nat>, arena: seq<Pack>, key: string, blob: Descriptor,
                         fetched: Fetched): Status
    requires MapOk(packs, arena)
  {
    if key in packs then arena[packs[key]].status
    else if Intact(digest, fetched, blob) then Ready(fetched.data)
    else Status.Failed
  }

  lemma BegunPinned(limit: int, packs: map<string, nat>, arena: seq<Pack>, recent: map<string, nat>,
                    handles: seq<Handle>, key: string, file: File, clock: nat, packs': map<string, nat>,
                    arena': seq<Pack>, handles': seq<Handle>, r: Begun)
    requires MapOk(packs, arena) && r.Pinned?
             && Begins(limit, packs, arena, recent, handles, key, file, clock, packs', arena', handles', r)
    ensures !Bypass(limit, file) && r.handle < |handles'|
    ensures handles'[r.handle].file == file && handles'[r.handle].pack < |arena'|
    ensures key !in packs ==> key in recent && Total(packs, arena, true) + file.blob.size <= limit
    ensures handles'[r.handle].phase == if key in packs then Waiting else Fetching
    ensures arena'[handles'[r.handle].pack].status == if key in packs then arena[packs[key]].status else Loading
  {
    hide Evicted, Total, Bypass;
  }

  lemma BegunDirect(limit: int, packs: map<string, nat>, arena: seq<Pack>, recent: map<string, nat>,
                    handles: seq<Handle>, key: string, file: File, clock: nat, packs': map<string, nat>,
                    arena': seq<Pack>, handles': seq<Handle>, r: Begun)
    requires MapOk(packs, arena) && r.Direct?
             && Begins(limit, packs, arena, recent, handles, key, file, clock, packs', arena', handles', r)
    ensures Unanswered(limit, packs, arena, recent, key, file)
  {
    hide Evicted, Total, Bypass;
  }

  /** A read through the cache: `served` is none exactly when the cache does not answer, and otherwise it is the answer
      of the pack that was there or of the one that this read downloads. */
  method ReadThrough(downloads: PackDownloads, repository: string, file: File, fetched: Fetched)
    returns (served: Option<Served>, ghost p: Pack)
    requires downloads.Valid() && ValidFile(file)
    modifies downloads
    ensures downloads.Valid() && MapOk(old(downloads.packs), old(downloads.arena))
    ensures served.None?
            <==> Unanswered(downloads.limit, old(downloads.packs), old(downloads.arena), old(downloads.recent),
                            Key(repository, file.blob.digest), file)
    ensures served.Some? ==> PackOk(downloads.digest, p) && !p.status.Loading? && p.descriptor == file.blob
    ensures served.Some? ==>
              p.status == Arrives(downloads.digest, old(downloads.packs), old(downloads.arena),
                                  Key(repository, file.blob.digest), file.blob, fetched)
    ensures served.Some? ==> served.value == Answer(downloads.digest, p.status, file)
  {
    hide ValidFile, Answer, Intact, PackOk, PacksOk, MapOk, LoadingHeld, UsedOk, BytesOk, RecentOk, HandlesOk, HandleOk,
      OneDownload, ReadersOk, Conflicts, Bypass, Begins, Noting, Evicted, Checked, Total;
    served := None;
    p := Pack("", file.blob, Loading, 0, 0);
    ghost var packs, arena, recent, handles := downloads.packs, downloads.arena, downloads.recent, downloads.handles;
    ghost var key := Key(repository, file.blob.digest);
    var begun := downloads.BeginRead(repository, file);
    if begun.Direct? {
      BegunDirect(downloads.limit, packs, arena, recent, handles, key, file, downloads.clock, downloads.packs,
                  downloads.arena, downloads.handles, begun);
    }
    if !begun.Pinned? { return; }
    BegunPinned(downloads.limit, packs, arena, recent, handles, key, file, downloads.clock, downloads.packs,
                downloads.arena, downloads.handles, begun);
    var h := begun.handle;
    if downloads.handles[h].phase.Fetching? {
      var ok := downloads.Finish(h, fetched);
    } else if downloads.arena[downloads.handles[h].pack].status.Loading? {
      return;
    }
    p := downloads.arena[downloads.handles[h].pack];
    if key in packs { NotFailed(packs, arena, key); }
    var s := downloads.Serve(h);
    served := Some(s);
  }

  lemma NotFailed(packs: map<string, nat>, arena: seq<Pack>, key: string)
    requires MapOk(packs, arena) && key in packs
    ensures packs[key] < |arena| && !arena[packs[key]].status.Failed?
  {
  }

  /** What arrives is one of the texts that were there or fetched, unless the read's own download fails. */
  lemma ArrivesFrom(digest: Digest, packs: map<string, nat>, arena: seq<Pack>, key: string, blob: Descriptor,
                    fetched: Fetched)
    requires MapOk(packs, arena) && !Arrives(digest, packs, arena, key, blob, fetched).Loading?
    ensures var status := Arrives(digest, packs, arena, key, blob, fetched);
            if key in packs || Intact(digest, fetched, blob)
            then status.Ready? && status.data in Texts(arena, fetched)
            else status.Failed?
  {
    if key in packs { assert arena[packs[key]] in arena; }
  }

  /** `finish` ends and one of its records is read through the cache: it is served as it was added whenever the cache
      answers, unless the read's own download fails. */
  method FinishThenServe(packer: NarPacker, downloads: PackDownloads, r: Entry, repository: string, fetched: Fetched)
    returns (e: Outcome, served: Option<Served>)
    requires packer.Valid() && packer.Landed() && packer.finishing && downloads.Valid()
             && downloads.digest == packer.digest
    requires r in packer.accepted && r.text != [] && OneTextEach(packer.accepted)
    requires DigestText(packer.digest) && forall data :: data in packer.blobs ==> |data| < BLOB_LIMIT
    requires Apart(packer.digest, packer.blobs + Texts(downloads.arena, fetched))
    modifies packer, downloads
    ensures packer.Valid() && downloads.Valid() && MapOk(old(downloads.packs), old(downloads.arena))
    ensures e == Result(old(packer.flights), old(packer.upload), old(packer.err))
    ensures packer.snapshot == old(packer.snapshot)
    ensures e.Failed? ==> served.None?
    ensures e.Fine? ==> r.name in packer.snapshot && ValidFile(packer.snapshot[r.name])
    ensures e.Fine? ==>
              var file := packer.snapshot[r.name];
              var key := Key(repository, file.blob.digest);
              && (served.None?
                  <==> Unanswered(downloads.limit, old(downloads.packs), old(downloads.arena), old(downloads.recent),
                                  key, file))
              && (served.Some? ==>
                    served.value ==
                    if key in old(downloads.packs) || Intact(packer.digest, fetched, file.blob) then Content(r.text)
                    else Rejected)
  {
    assert MapOk(downloads.packs, downloads.arena);
    hide *;
    served := None;
    ghost var (packs, arena) := (downloads.packs, downloads.arena);
    e := packer.EndFinish();
    if e.Failed? { return; }
    RecordServed(packer.digest, packer.blobs, packer.snapshot, r);
    ghost var p;
    ghost var file := packer.snapshot[r.name];
    served, p := ReadThrough(downloads, repository, packer.snapshot[r.name], fetched);
    if served.Some? {
      ArrivesFrom(packer.digest, packs, arena, Key(repository, file.blob.digest), file.blob, fetched);
      if p.status.Ready? {
        ApartFrom(packer.digest, packer.blobs, Texts(arena, fetched), p.status.data);
        AdvertisedServed(packer.digest, packer.blobs, packer.snapshot, r, p);
      } else {
        FailedRejects(packer.digest, p.status, file);
      }
    }
  }

  lemma FailedRejects(digest: Digest, status: Status, file: File)
    requires status.Failed? && ValidFile(file)
    ensures Answer(digest, status, file) == Rejected
  {
  }

  lemma RecordServed(digest: Digest, blobs: set<Bytes>, files: map<string, File>, r: Entry)
    requires DigestText(digest) && ShownAs(digest, blobs, files, r) && r.text != []
    requires forall data :: data in blobs ==> |data| < BLOB_LIMIT
    ensures r.name in files && ValidFile(files[r.name])
  {
    var data :| data in blobs && RangeOf(digest, data, files[r.name], r.text);
    RangeValid(digest, data, files[r.name], r.text);
  }

  lemma ApartFrom(digest: Digest, blobs: set<Bytes>, texts: set<Bytes>, text: Bytes)
    requires Apart(digest, blobs + texts) && text in texts
    ensures Apart(digest, blobs + {text})
  {
  }
}

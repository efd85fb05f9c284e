/** `packDownloads`: a pinned, budgeted cache of packs whose downloads are shared (worker/download.go:13-148). Each
    method is what happens while the lock is held; between any two of them other reads may take their steps. */
module Downloads {
  import opened Blobs
  import opened DownloadState
  import opened Names
  import opened Snapshots

  datatype Begun = Invalid | Conflict | Direct | Pinned(handle: nat)

  /** What fetching a whole pack yields: nothing, or a body, read and closed without an error or not. */
  datatype Fetched = Unavailable | Body(data: Bytes, clean: bool)

  datatype Served = Rejected | Content(data: Bytes)

  /** Reads that never use the cache. */
  predicate Bypass(limit: int, file: File) {
    file.size == file.blob.size || file.blob.size > PACK_SIZE || file.blob.size > limit
  }

  predicate Conflicts(packs: map<string, nat>, arena: seq<Pack>, key: string, blob: Descriptor) {
    key in packs && packs[key] < |arena|
    && (arena[packs[key]].descriptor.size != blob.size || arena[packs[key]].descriptor.mediaType != blob.mediaType)
  }

  /** Eviction only takes packs without readers, least recently used first. */
  ghost predicate Evicted(before: map<string, nat>, arena: seq<Pack>, after: map<string, nat>)
    requires forall k :: k in before ==> before[k] < |arena|
  {
    && (forall k :: k in after ==> k in before && after[k] == before[k])
    && (forall k :: k in before && arena[before[k]].readers > 0 ==> k in after)
    && (forall k, l :: k in before && k !in after && l in after && arena[before[l]].readers == 0 ==>
          arena[before[k]].used < arena[before[l]].used)
  }

  /** A matching descriptor under the same key is the same blob. */
  lemma SameKeySameBlob(digest: Digest, p: Pack, repository: string, blob: Descriptor)
    requires PackOk(digest, p) && p.key == Key(repository, blob.digest) && IsDigest(blob.digest)
    requires p.descriptor.size == blob.size && p.descriptor.mediaType == blob.mediaType
    ensures p.descriptor == blob
  {
    assert p.key[|p.key| - 71..] == blob.digest;
  }

  ghost predicate Dated(recent: map<string, nat>, clock: nat) {
    && "" !in recent
    && (forall k :: k in recent ==> recent[k] <= clock)
    && (forall k, l :: k in recent && l in recent && k != l ==> recent[k] != recent[l])
  }

  /** The key gets the current time; with the history full and the key new, the oldest other key is forgotten. */
  ghost predicate Noting(before: map<string, nat>, key: string, clock: nat, after: map<string, nat>) {
    && key in after && after[key] == clock
    && (forall k :: k in after && k != key ==> k in before && after[k] == before[k])
    && (forall k, l :: k in before && k !in after && l in after ==> before[k] < after[l])
    && (|before| < HISTORY || key in before ==> after.Keys == before.Keys + {key})
  }

  lemma Noted(recent: map<string, nat>, key: string, clock: nat)
    requires clock > 0 && RecentOk(recent, clock - 1) && key != ""
    ensures Dated(recent[key := clock], clock) && |recent[key := clock]| <= |recent| + 1
    ensures key in recent ==> |recent[key := clock]| == |recent|
  {
    assert recent[key := clock].Keys == recent.Keys + {key};
    if key in recent { assert recent.Keys + {key} == recent.Keys; }
  }

  lemma OldestGoes(recent: map<string, nat>, key: string, clock: nat, noted: map<string, nat>, oldest: string)
    requires clock > 0 && RecentOk(recent, clock - 1) && key != "" && noted == recent[key := clock]
    requires oldest in noted && oldest != key && |noted| > HISTORY
             && forall k :: k in noted ==> noted[oldest] <= noted[k]
    ensures RecentOk(noted - {oldest}, clock) && Noting(recent, key, clock, noted - {oldest})
  {
    Noted(recent, key, clock);
    var left := noted - {oldest};
    assert left.Keys == noted.Keys - {oldest};
    DatedLess(noted, oldest, clock);
    OldestNoting(recent, key, clock, noted, oldest);
    hide Dated, Noting;
  }

  lemma DatedLess(noted: map<string, nat>, oldest: string, clock: nat)
    requires Dated(noted, clock)
    ensures Dated(noted - {oldest}, clock)
  {
  }

  lemma OldestNoting(recent: map<string, nat>, key: string, clock: nat, noted: map<string, nat>, oldest: string)
    requires noted == recent[key := clock] && Dated(noted, clock) && |noted| <= |recent| + 1
             && (key in recent ==> |noted| == |recent|)
    requires oldest in noted && oldest != key && |recent| <= HISTORY < |noted|
             && forall k :: k in noted ==> noted[oldest] <= noted[k]
    ensures Noting(recent, key, clock, noted - {oldest})
  {
    var left := noted - {oldest};
    forall k, l | k in recent && k !in left && l in left
      ensures recent[k] < left[l]
    {
      assert k == oldest && left[l] == noted[l] && noted[k] == recent[k];
    }
  }

  lemma NoneGoes(recent: map<string, nat>, key: string, clock: nat, noted: map<string, nat>)
    requires clock > 0 && noted == recent[key := clock] && Dated(noted, clock) && |noted| <= HISTORY
    ensures RecentOk(noted, clock) && Noting(recent, key, clock, noted)
  {
    NoneForgotten(recent, key, clock, noted);
    hide Noting;
  }

  lemma NoneForgotten(recent: map<string, nat>, key: string, clock: nat, noted: map<string, nat>)
    requires noted == recent[key := clock]
    ensures Noting(recent, key, clock, noted)
  {
    assert noted.Keys == recent.Keys + {key};
    assert forall k :: k in recent ==> k in noted;
  }

  lemma AnotherKey(recent: map<string, nat>, key: string) returns (other: string)
    requires |recent| > HISTORY && key in recent
    ensures other in recent && other != key
  {
    if recent.Keys <= {key} { SubsetSize(recent.Keys, {key}); }
    other :| other in recent && other != key;
  }

  /** Lines 65-70; another key than the one just noted is always older. */
  method Oldest(recent: map<string, nat>, clock: nat, key: string) returns (oldest: string)
    requires Dated(recent, clock) && key in recent && recent[key] == clock && |recent| > HISTORY
    ensures oldest in recent && oldest != key && forall k :: k in recent ==> recent[oldest] <= recent[k]
  {
    oldest := "";
    var age := clock;
    var names := recent.Keys;
    ghost var other := AnotherKey(recent, key);
    while names != {}
      invariant names <= recent.Keys && age <= clock
      invariant oldest == "" ==> age == clock && other in names
      invariant oldest != "" ==> oldest in recent && recent[oldest] == age && age < clock
      invariant forall k :: k in recent && k !in names ==> age <= recent[k]
      decreases names
    {
      var name :| name in names;
      if recent[name] < age { oldest, age := name, recent[name]; }
      names := names - {name};
    }
  }

  ghost predicate Stale(packs: map<string, nat>, arena: seq<Pack>, clock: nat)
    requires MapOk(packs, arena)
  {
    forall k :: k in packs ==> arena[packs[k]].used < clock
  }

  lemma EvictedStep(before: map<string, nat>, arena: seq<Pack>, after: map<string, nat>, key: string, clock: nat)
    requires MapOk(before, arena) && Evicted(before, arena, after) && UsedOk(before, arena, clock)
    requires key in after && arena[after[key]].readers == 0
    requires forall k :: k in after && arena[after[k]].readers == 0 ==> arena[after[key]].used <= arena[after[k]].used
    ensures Evicted(before, arena, after - {key})
  {
    assert arena[before[key]].used == arena[after[key]].used;
  }

  lemma EvictedStart(packs: map<string, nat>, arena: seq<Pack>)
    requires MapOk(packs, arena)
    ensures Evicted(packs, arena, packs)
  {
  }

  lemma NoRoom(limit: int, bytes: int, packs: map<string, nat>, arena: seq<Pack>)
    requires MapOk(packs, arena) && BytesOk(limit, bytes, packs, arena)
             && forall k :: k in packs ==> arena[packs[k]].readers > 0
    ensures bytes == Total(packs, arena, true)
  {
    OnlyPinned(packs, arena);
  }

  lemma Room(digest: Digest, limit: int, bytes: int, packs: map<string, nat>, arena: seq<Pack>)
    requires PacksOk(digest, arena) && BytesOk(limit, bytes, packs, arena)
    ensures Total(packs, arena, true) <= bytes
  {
    TotalPinnedBelow(packs, arena);
  }

  lemma Ticks(packs: map<string, nat>, arena: seq<Pack>, clock: nat)
    requires MapOk(packs, arena) && UsedOk(packs, arena, clock)
    ensures UsedOk(packs, arena, clock + 1) && Stale(packs, arena, clock + 1)
  {
  }

  lemma RecentTicks(recent: map<string, nat>, clock: nat)
    requires RecentOk(recent, clock)
    ensures RecentOk(recent, clock + 1)
  {
  }

  lemma EvictedAbsent(before: map<string, nat>, arena: seq<Pack>, after: map<string, nat>, key: string, clock: nat)
    requires MapOk(before, arena) && MapOk(after, arena) && Evicted(before, arena, after) && key !in before
             && UsedOk(before, arena, clock)
    ensures key !in after && UsedOk(after, arena, clock)
  {
  }

  lemma JoinFile(digest: Digest, p: Pack, p': Pack, repository: string, file: File)
    requires PackOk(digest, p) && p.key == Key(repository, file.blob.digest) && ValidFile(file)
    requires p.descriptor.size == file.blob.size && p.descriptor.mediaType == file.blob.mediaType
    requires p' == p.(readers := p'.readers, used := p'.used)
    ensures p.descriptor == file.blob && PackOk(digest, p')
  {
    SameKeySameBlob(digest, p, repository, file.blob);
  }

  lemma WaitingOk(arena: seq<Pack>, g: Handle)
    requires g.pack < |arena| && ValidFile(g.file) && g.file.blob == arena[g.pack].descriptor && g.phase.Waiting?
    ensures HandleOk(arena, g)
  {
  }

  lemma NewPackOk(digest: Digest, arena: seq<Pack>, p: Pack, repository: string, file: File)
    requires ValidFile(file) && p.key == Key(repository, file.blob.digest) && p.descriptor == file.blob
             && p.status.Loading?
    ensures PackOk(digest, p) && HandleOk(arena + [p], Handle(|arena|, file, Fetching))
  {
    assert p.key[|p.key| - 71..] == file.blob.digest;
  }

  /** How a read that is neither rejected nor bypassing begins. A resident pack is joined. A key that was not read
      before is fetched on its own. Otherwise the pack is downloaded exactly when the packs with readers leave room for
      it. */
  ghost predicate Begins(limit: int, packs: map<string, nat>, arena: seq<Pack>, recent: map<string, nat>,
                         handles: seq<Handle>, key: string, file: File, clock: nat, packs': map<string, nat>,
                         arena': seq<Pack>, handles': seq<Handle>, r: Begun)
    requires MapOk(packs, arena)
  {
    if Bypass(limit, file) then r.Direct?
    else if key in packs then
      var p := arena[packs[key]];
      && r == Pinned(|handles|) && packs' == packs
      && arena' == arena[packs[key] := p.(readers := p.readers + 1, used := clock)]
      && handles' == handles + [Handle(packs[key], file, Waiting)]
    else if key !in recent then r.Direct? && packs' == packs
    else if Total(packs, arena, true) + file.blob.size <= limit then
      && r == Pinned(|handles|) && key in packs' && packs'[key] == |arena| && Evicted(packs, arena, packs' - {key})
      && arena' == arena + [Pack(key, file.blob, Loading, 1, clock)]
      && handles' == handles + [Handle(|arena|, file, Fetching)]
    else r.Direct? && Evicted(packs, arena, packs')
  }

  /** A read is served from the cache exactly if it is sparse, of a pack within both limits, and the pack is there, or
      was wanted before and has room beside the packs in use. */
  lemma PinnedExactly(limit: int, packs: map<string, nat>, arena: seq<Pack>, recent: map<string, nat>,
                      handles: seq<Handle>, key: string, file: File, clock: nat, packs': map<string, nat>,
                      arena': seq<Pack>, handles': seq<Handle>, r: Begun)
    requires MapOk(packs, arena)
             && Begins(limit, packs, arena, recent, handles, key, file, clock, packs', arena', handles', r)
    ensures r.Pinned?
            <==> file.size != file.blob.size && file.blob.size <= 16_777_216 && file.blob.size <= limit
                 && (key in packs || (key in recent && Total(packs, arena, true) + file.blob.size <= limit))
    ensures !r.Pinned? ==> r.Direct?
    ensures r.Pinned? ==>
              r.handle == |handles| && |handles'| == |handles| + 1 && handles'[..|handles|] == handles
              && handles'[r.handle].file == file && key in packs' && handles'[r.handle].pack == packs'[key]
  {
    hide Evicted, Total;
  }

  /** The download is kept: the body is complete, not longer, closed cleanly and has the named digest. */
  predicate Intact(digest: Digest, fetched: Fetched, blob: Descriptor) {
    fetched.Body? && fetched.clean && |fetched.data| == blob.size && digest(fetched.data) == blob.digest
  }

  /** The slice of a ready pack, checked against the record's own digest. */
  function Answer(digest: Digest, status: Status, file: File): Served
    requires !status.Loading? && ValidFile(file) && (status.Ready? ==> |status.data| == file.blob.size)
  {
    if status.Failed? then Rejected
    else
      var data := status.data[file.offset..file.offset + file.size];
      if digest(data) != file.digest then Rejected else Content(data)
  }

  /** `data` is what the pack has at the named range, and its digest is the named one. */
  ghost predicate Checked(digest: Digest, p: Pack, file: File, data: Bytes) {
    && p.status.Ready? && 0 <= file.offset && 0 <= file.size && file.offset + file.size <= |p.status.data|
    && data == p.status.data[file.offset..file.offset + file.size] && digest(data) == file.digest
  }

  /** Whatever the catalog claimed, only bytes at the named range with the named digest are served. */
  lemma AnswerChecked(digest: Digest, p: Pack, file: File)
    requires !p.status.Loading? && ValidFile(file) && (p.status.Ready? ==> |p.status.data| == file.blob.size)
    ensures Answer(digest, p.status, file).Content? ==> Checked(digest, p, file, Answer(digest, p.status, file).data)
    ensures Answer(digest, p.status, file).Rejected? ==> forall data :: !Checked(digest, p, file, data)
  {
  }

  lemma HandleKnown(arena: seq<Pack>, handles: seq<Handle>, h: nat)
    requires HandlesOk(arena, handles) && h < |handles|
    ensures handles[h].pack < |arena| && HandleOk(arena, handles[h])
            && handles[h].file.blob == arena[handles[h].pack].descriptor
    ensures handles[h].phase.Fetching? ==> arena[handles[h].pack].status.Loading?
  {
  }

  lemma FetchedOk(digest: Digest, arena: seq<Pack>, i: nat, fetched: Fetched)
    requires PacksOk(digest, arena) && i < |arena|
    ensures PackOk(digest, arena[i].(status := Failed))
    ensures Intact(digest, fetched, arena[i].descriptor) ==> PackOk(digest, arena[i].(status := Ready(fetched.data)))
  {
    assert PackOk(digest, arena[i]);
  }

  lemma PackKept(digest: Digest, arena: seq<Pack>, i: nat, p: Pack)
    requires PacksOk(digest, arena) && i < |arena| && p == arena[i].(readers := p.readers, used := p.used)
    ensures PackOk(digest, p)
  {
    assert PackOk(digest, arena[i]);
  }

  lemma UsedKept(packs: map<string, nat>, arena: seq<Pack>, clock: nat, i: nat, p: Pack)
    requires MapOk(packs, arena) && UsedOk(packs, arena, clock) && i < |arena| && MapOk(packs, arena[i := p])
             && p.used == arena[i].used
    ensures UsedOk(packs, arena[i := p], clock)
  {
  }

  function Released(p: Pack): Pack
    requires p.readers > 0
  {
    p.(readers := p.readers - 1)
  }

  lemma ReleaseCounts(digest: Digest, limit: int, bytes: int, clock: nat, packs: map<string, nat>, arena: seq<Pack>,
                      i: nat)
    requires PacksOk(digest, arena) && MapOk(packs, arena) && LoadingHeld(packs, arena)
             && BytesOk(limit, bytes, packs, arena)
    requires UsedOk(packs, arena, clock) && i < |arena| && arena[i].readers > 0
    ensures PacksOk(digest, arena[i := Released(arena[i])]) && MapOk(packs, arena[i := Released(arena[i])])
    ensures LoadingHeld(packs, arena[i := Released(arena[i])])
            && BytesOk(limit, bytes, packs, arena[i := Released(arena[i])])
    ensures UsedOk(packs, arena[i := Released(arena[i])], clock)
  {
    PackKept(digest, arena, i, Released(arena[i]));
    hide PackOk, LoadingHeld, BytesOk, UsedOk, PacksOk, MapOk;
    UpdateKeeps(digest, limit, bytes, packs, arena, i, Released(arena[i]));
    UsedKept(packs, arena, clock, i, Released(arena[i]));
  }

  class PackDownloads {
    const digest: Digest
    const limit: int
    var bytes: int
    var clock: nat
    var packs: map<string, nat>
    var recent: map<string, nat>
    var arena: seq<Pack>
    var handles: seq<Handle>

    ghost predicate Valid()
      reads this
    {
      && PacksOk(digest, arena) && MapOk(packs, arena) && LoadingHeld(packs, arena) && UsedOk(packs, arena, clock)
      && BytesOk(limit, bytes, packs, arena) && RecentOk(recent, clock)
      && HandlesOk(arena, handles) && OneDownload(arena, handles) && ReadersOk(arena, handles)
    }

    constructor (digest: Digest, limit: nat)
      ensures Valid() && this.digest == digest && this.limit == limit && packs == map[] && handles == []
    {
      this.digest, this.limit := digest, limit;
      bytes, clock, packs, recent, arena, handles := 0, 0, map[], map[], [], [];
    }

    /** Lines 62-72: notes the key and forgets the oldest one when the history is full. */
    method Remember(key: string) returns (seen: bool)
      requires clock > 0 && RecentOk(recent, clock - 1) && key != ""
      modifies this`recent
      ensures RecentOk(recent, clock) && seen == (key in old(recent)) && Noting(old(recent), key, clock, recent)
    {
      hide RecentOk, Dated, Noting;
      seen := key in recent;
      Noted(recent, key, clock);
      ghost var before := recent;
      recent := recent[key := clock];
      if |recent| > HISTORY {
        var oldest := Oldest(recent, clock, key);
        OldestGoes(before, key, clock, recent, oldest);
        recent := recent - {oldest};
      } else {
        NoneGoes(before, key, clock, recent);
      }
    }

    /** Lines 80-85: the least recently used pack without readers. */
    method LeastUsed() returns (oldest: Option<string>)
      requires MapOk(packs, arena) && Stale(packs, arena, clock)
      ensures oldest.None? ==> forall k :: k in packs ==> arena[packs[k]].readers > 0
      ensures oldest.Some? ==> oldest.value in packs && arena[packs[oldest.value]].readers == 0
      ensures oldest.Some? ==>
                forall k ::
                  k in packs && arena[packs[k]].readers == 0 ==> arena[packs[oldest.value]].used <= arena[packs[k]].used
    {
      oldest := None;
      var age := clock;
      var names := packs.Keys;
      while names != {}
        invariant names <= packs.Keys
        invariant oldest.None? ==> age == clock && forall k :: k in packs && k !in names ==> arena[packs[k]].readers > 0
        invariant oldest.Some? ==>
                    oldest.value in packs && arena[packs[oldest.value]].readers == 0
                    && arena[packs[oldest.value]].used == age
        invariant oldest.Some? ==>
                    forall k ::
                      k in packs && k !in names && arena[packs[k]].readers == 0 ==> age <= arena[packs[k]].used
        decreases names
      {
        var name :| name in names;
        var candidate := arena[packs[name]];
        if candidate.readers == 0 && candidate.used < age { oldest, age := Some(name), candidate.used; }
        names := names - {name};
      }
    }

    /** Lines 79-92: succeeds exactly when the packs with readers leave room for `size`. */
    method MakeRoom(size: int) returns (ok: bool)
      requires Valid() && Stale(packs, arena, clock)
      modifies this`bytes, this`packs
      ensures Valid() && MapOk(old(packs), arena) && Evicted(old(packs), arena, packs) && UsedOk(packs, arena, clock)
      ensures ok <==> Total(old(packs), arena, true) + size <= limit
      ensures ok ==> bytes + size <= limit
      ensures old(bytes) + size <= limit ==> packs == old(packs)
    {
      hide PackOk, LoadingHeld, BytesOk, RecentOk, HandlesOk, OneDownload, ReadersOk, Total, UsedOk, Evicted, PacksOk;
      EvictedStart(packs, arena);
      while bytes + size > limit
        invariant Valid() && Stale(packs, arena, clock)
        invariant Evicted(old(packs), arena, packs) && Total(packs, arena, true) == Total(old(packs), arena, true)
        invariant old(bytes) + size <= limit ==> packs == old(packs) && bytes == old(bytes)
        decreases packs.Keys
      {
        hide PackOk, LoadingHeld, BytesOk, RecentOk, HandlesOk, OneDownload, ReadersOk, Total, UsedOk, Evicted, PacksOk;
        var oldest := LeastUsed();
        if oldest.None? {
          NoRoom(limit, bytes, packs, arena);
          return false;
        }
        EvictKeeps(digest, limit, bytes, clock, packs, arena, handles, oldest.value);
        EvictedStep(old(packs), arena, packs, oldest.value, clock);
        bytes := bytes - arena[packs[oldest.value]].descriptor.size;
        packs := packs - {oldest.value};
      }
      Room(digest, limit, bytes, packs, arena);
      ok := true;
    }

    /** Lines 98-99 for a resident pack. */
    method Join(key: string, repository: string, file: File) returns (r: Begun)
      requires Valid() && clock > 0 && UsedOk(packs, arena, clock - 1) && ValidFile(file)
      requires key == Key(repository, file.blob.digest) && key in packs && !Conflicts(packs, arena, key, file.blob)
      modifies this`arena, this`handles
      ensures Valid() && r == Pinned(|old(handles)|) && packs[key] < |old(arena)|
      ensures var p := old(arena)[packs[key]];
              arena == old(arena)[packs[key] := p.(readers := p.readers + 1, used := clock)]
      ensures handles == old(handles) + [Handle(packs[key], file, Waiting)]
    {
      hide PackOk, LoadingHeld, BytesOk, RecentOk, HandlesOk, HandleOk, OneDownload, ReadersOk, Total, UsedOk,
        ValidFile, IsDigest;
      var i := packs[key];
      var p := arena[i].(readers := arena[i].readers + 1, used := clock);
      var g := Handle(i, file, Waiting);
      JoinFile(digest, arena[i], p, repository, file);
      UpdateKeeps(digest, limit, bytes, packs, arena, i, p);
      TouchedUsed(packs, arena, clock - 1, i, p);
      HandlesKept(arena, handles, i, p);
      assert forall h, k: nat :: Downloads(handles, h, k) <==> Downloads(handles, h, k);
      DownloadsKept(arena, arena[i := p], handles, handles);
      JoinPins(arena, handles, i, p, g);
      WaitingOk(arena[i := p], g);
      JoinHandles(arena[i := p], handles, g);
      arena := arena[i := p];
      handles := handles + [g];
      r := Pinned(|handles| - 1);
    }

    /** Lines 93-99 for a new pack. */
    method Reserve(key: string, repository: string, file: File) returns (r: Begun)
      requires Valid() && clock > 0 && UsedOk(packs, arena, clock - 1) && ValidFile(file)
      requires key == Key(repository, file.blob.digest) && key !in packs && bytes + file.blob.size <= limit
      modifies this`arena, this`handles, this`packs, this`bytes
      ensures Valid() && r == Pinned(|old(handles)|)
      ensures arena == old(arena) + [Pack(key, file.blob, Loading, 1, clock)]
              && packs == old(packs)[key := |old(arena)|]
      ensures handles == old(handles) + [Handle(|old(arena)|, file, Fetching)] && bytes == old(bytes) + file.blob.size
    {
      hide PackOk, LoadingHeld, BytesOk, RecentOk, HandlesOk, HandleOk, OneDownload, ReadersOk, Total, UsedOk,
        ValidFile, IsDigest;
      var p := Pack(key, file.blob, Loading, 1, clock);
      var g := Handle(|arena|, file, Fetching);
      NewPackOk(digest, arena, p, repository, file);
      ReserveKeeps(digest, limit, bytes, clock - 1, packs, arena, p);
      ReserveHandles(arena, handles, p, g);
      packs := packs[key := |arena|];
      arena := arena + [p];
      bytes := bytes + file.blob.size;
      handles := handles + [g];
      r := Pinned(|handles| - 1);
    }

    /** Lines 61-99, once the descriptor is known to fit the cache. */
    method UseCache(key: string, repository: string, file: File) returns (r: Begun)
      requires Valid() && clock > 0 && UsedOk(packs, arena, clock - 1) && RecentOk(recent, clock - 1) && ValidFile(file)
      requires key == Key(repository, file.blob.digest) && !Conflicts(packs, arena, key, file.blob)
               && !Bypass(limit, file)
      modifies this`bytes, this`packs, this`recent, this`arena, this`handles
      ensures Valid() && MapOk(old(packs), old(arena))
              && (!r.Pinned? ==> r.Direct? && arena == old(arena) && handles == old(handles))
      ensures Begins(limit, old(packs), old(arena), old(recent), old(handles), key, file, clock, packs, arena, handles,
                     r)
      ensures if key in old(packs) then recent == old(recent) else Noting(old(recent), key, clock, recent)
    {
      hide PackOk, LoadingHeld, BytesOk, HandlesOk, HandleOk, OneDownload, ReadersOk, Total, UsedOk, ValidFile,
        IsDigest, PacksOk, RecentOk, Noting, Evicted, Conflicts;
      Ticks(packs, arena, clock - 1);
      if key in packs {
        r := Join(key, repository, file);
      } else {
        var seen := Remember(key);
        if !seen { return Direct; }
        var room := MakeRoom(file.blob.size);
        if !room { return Direct; }
        EvictedAbsent(old(packs), arena, packs, key, clock - 1);
        ghost var left := packs;
        r := Reserve(key, repository, file);
        assert packs - {key} == left;
      }
    }

    /** Lines 44-105: the part of a read before it waits or downloads. */
    method BeginRead(repository: string, file: File) returns (r: Begun)
      requires Valid()
      modifies this
      ensures Valid() && MapOk(old(packs), old(arena))
      ensures r.Invalid? <==> !ValidFile(file)
      ensures clock == if r.Invalid? then old(clock) else old(clock) + 1
      ensures r.Conflict?
              <==> ValidFile(file) && Conflicts(old(packs), old(arena), Key(repository, file.blob.digest), file.blob)
      ensures !r.Pinned? ==> arena == old(arena) && handles == old(handles)
      ensures r.Invalid? || r.Conflict? || Bypass(limit, file) ==>
                !r.Pinned? && packs == old(packs) && bytes == old(bytes) && recent == old(recent)
      ensures r.Pinned? || r.Direct? ==>
                var key := Key(repository, file.blob.digest);
                Begins(limit, old(packs), old(arena), old(recent), old(handles), key, file, clock, packs, arena,
                       handles, r)
      ensures r.Pinned? || (r.Direct? && !Bypass(limit, file)) ==>
                var key := Key(repository, file.blob.digest);
                if key in old(packs) then recent == old(recent) else Noting(old(recent), key, clock, recent)
    {
      hide PackOk, LoadingHeld, BytesOk, HandlesOk, HandleOk, OneDownload, ReadersOk, Total, UsedOk, ValidFile,
        IsDigest, PacksOk, RecentOk, Conflicts, Evicted;
      if !ValidFile(file) { return Invalid; }
      var key := Key(repository, file.blob.digest);
      Ticks(packs, arena, clock);
      RecentTicks(recent, clock);
      clock := clock + 1;
      if Conflicts(packs, arena, key, file.blob) { return Conflict; }
      if Bypass(limit, file) { return Direct; }
      r := UseCache(key, repository, file);
    }

    /** Lines 107-134: the download of a reserved pack ends; a failure gives the reservation back. */
    method Finish(h: nat, fetched: Fetched) returns (ok: bool)
      requires Valid() && h < |handles| && handles[h].phase.Fetching?
      modifies this`bytes, this`packs, this`arena, this`handles
      ensures Valid() && handles == old(handles)[h := old(handles)[h].(phase := Waiting)]
              && handles[h].pack < |old(arena)|
      ensures ok == Intact(digest, fetched, handles[h].file.blob)
      ensures ok <==> var blob := handles[h].file.blob;
                      fetched.Body? && fetched.clean && |fetched.data| == blob.size
                      && digest(fetched.data) == blob.digest
      ensures ok ==> arena == old(arena)[handles[h].pack := old(arena)[handles[h].pack].(status := Ready(fetched.data))]
      ensures ok ==> packs == old(packs) && bytes == old(bytes)
      ensures !ok ==> arena == old(arena)[handles[h].pack := old(arena)[handles[h].pack].(status := Failed)]
      ensures !ok ==>
                packs == old(packs) - {arena[handles[h].pack].key} && bytes == old(bytes) - handles[h].file.blob.size
    {
      hide PackOk, LoadingHeld, BytesOk, HandlesOk, HandleOk, OneDownload, ReadersOk, Total, UsedOk, PacksOk, RecentOk;
      var i := handles[h].pack;
      HandleKnown(arena, handles, h);
      var blob := handles[h].file.blob;
      ok := Intact(digest, fetched, blob);
      var p := arena[i].(status := if ok then Ready(fetched.data) else Failed);
      FetchedOk(digest, arena, i, fetched);
      FinishHandles(arena, handles, h, p);
      if ok {
        UpdateKeeps(digest, limit, bytes, packs, arena, i, p);
        UsedKept(packs, arena, clock, i, p);
      } else {
        FailKeeps(digest, limit, bytes, clock, packs, arena, i, p);
        packs := packs - {p.key};
        bytes := bytes - blob.size;
      }
      arena := arena[i := p];
      handles := handles[h := handles[h].(phase := Waiting)];
    }

    /** Lines 101-105: releasing more than once has no effect. */
    method Close(h: nat)
      requires Valid() && h < |handles|
               && (handles[h].phase.Open? || handles[h].phase.Closed? || handles[h].phase.Waiting?)
      modifies this`arena, this`handles
      ensures Valid() && handles == old(handles)[h := old(handles)[h].(phase := Closed)]
      ensures old(handles)[h].phase.Closed? ==> arena == old(arena)
      ensures !old(handles)[h].phase.Closed? ==>
                handles[h].pack < |old(arena)| && old(arena)[handles[h].pack].readers > 0
      ensures !old(handles)[h].phase.Closed? ==>
                arena == old(arena)[handles[h].pack := Released(old(arena)[handles[h].pack])]
    {
      if handles[h].phase.Closed? { return; }
      hide *;
      HandleKnown(arena, handles, h);
      ReleaseKeeps(arena, handles, h);
      ReleaseCounts(digest, limit, bytes, clock, packs, arena, handles[h].pack);
      arena := arena[handles[h].pack := Released(arena[handles[h].pack])];
      handles := handles[h := handles[h].(phase := Closed)];
    }

    /** Lines 138-147: a waiting read, once its pack has been settled, fails or reads its record. */
    method Serve(h: nat) returns (r: Served)
      requires Valid() && h < |handles| && handles[h].phase.Waiting?
               && (handles[h].pack < |arena| ==> !arena[handles[h].pack].status.Loading?)
      modifies this`arena, this`handles
      ensures Valid() && handles == old(handles)[h := old(handles)[h].(phase := if r.Rejected? then Closed else Open)]
      ensures handles[h].pack < |old(arena)| && PackOk(digest, old(arena)[handles[h].pack])
      ensures ValidFile(handles[h].file) && handles[h].file.blob == old(arena)[handles[h].pack].descriptor
      ensures r == Answer(digest, old(arena)[handles[h].pack].status, handles[h].file)
      ensures r.Content? ==> Checked(digest, old(arena)[handles[h].pack], handles[h].file, r.data)
      ensures r.Rejected? ==> forall data :: !Checked(digest, old(arena)[handles[h].pack], handles[h].file, data)
    {
      HandleKnown(arena, handles, h);
      var p := arena[handles[h].pack];
      var file := handles[h].file;
      r := Answer(digest, p.status, file);
      AnswerChecked(digest, p, file);
      hide Checked, PackOk, LoadingHeld, BytesOk, HandlesOk, HandleOk, OneDownload, ReadersOk, Total, UsedOk, PacksOk,
        RecentOk, ValidFile, Answer;
      if r.Rejected? {
        Close(h);
      } else {
        OpenKeeps(arena, handles, h);
        handles := handles[h := handles[h].(phase := Open)];
      }
    }
  }

  // ---- what holds between any two steps of any number of reads

  /** Two reads that download at the same time download different keys. */
  lemma OneDownloadPerKey(packs: map<string, nat>, arena: seq<Pack>, handles: seq<Handle>, g: nat, h: nat)
    requires LoadingHeld(packs, arena) && HandlesOk(arena, handles) && OneDownload(arena, handles)
    requires g < |handles| && h < |handles| && handles[g].phase.Fetching? && handles[h].phase.Fetching?
    requires handles[g].pack < |arena| && handles[h].pack < |arena|
             && arena[handles[g].pack].key == arena[handles[h].pack].key
    ensures g == h
  {
    assert HandleOk(arena, handles[g]) && HandleOk(arena, handles[h]);
    assert Held(packs, arena[handles[g].pack], handles[g].pack) && Held(packs, arena[handles[h].pack], handles[h].pack);
    assert Downloads(handles, g, handles[g].pack) && Downloads(handles, h, handles[g].pack);
  }

  /** A read that waits for a pack is waiting for a download under way, and neither that pack nor one being read can be
      evicted. */
  lemma WaitsForDownload(packs: map<string, nat>, arena: seq<Pack>, handles: seq<Handle>, packs': map<string, nat>,
                         h: nat)
    requires MapOk(packs, arena) && LoadingHeld(packs, arena) && HandlesOk(arena, handles)
             && OneDownload(arena, handles) && ReadersOk(arena, handles)
    requires h < |handles| && !handles[h].phase.Closed? && Evicted(packs, arena, packs')
    ensures handles[h].pack < |arena| && arena[handles[h].pack].readers > 0
    ensures arena[handles[h].pack].status.Loading? ==> Held(packs', arena[handles[h].pack], handles[h].pack)
    ensures arena[handles[h].pack].status.Loading? ==> exists d :: Downloads(handles, d, handles[h].pack)
    ensures Held(packs, arena[handles[h].pack], handles[h].pack) ==>
              Held(packs', arena[handles[h].pack], handles[h].pack)
  {
    assert HandleOk(arena, handles[h]);
    PinsSet(handles, h, Closed, handles[h].pack);
  }

  /** A record that was published at its place is served as it was published, by whatever pack its blob was kept in. */
  lemma ServedExactly(digest: Digest, p: Pack, file: File, whole: Bytes, record: Bytes)
    requires RangeOf(digest, whole, file, record) && ValidFile(file)
    requires PackOk(digest, p) && p.status.Ready? && p.descriptor == file.blob && Apart(digest, {whole, p.status.data})
    ensures Answer(digest, p.status, file) == Content(record)
  {
    ReadsBack(digest, whole, p.status.data, file, record);
  }
}

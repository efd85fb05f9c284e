/** The state of `packDownloads` and what its steps keep (worker/download.go). */
module DownloadState {
  import opened Blobs
  import opened Snapshots

  datatype Status = Loading | Ready(data: Bytes) | Failed

  /** A pack by its place in the arena, which stands for its address. `key` is the key it was stored under. */
  datatype Pack = Pack(key: string, descriptor: Descriptor, status: Status, readers: nat, used: nat)

  /** A read that pinned a pack: downloading it, waiting for it or about to check its record, open for reading, or
      released. */
  datatype Phase = Fetching | Waiting | Open | Closed

  datatype Handle = Handle(pack: nat, file: File, phase: Phase)

  const HISTORY := 1024

  function Key(repository: string, digest: string): string { repository + "@" + digest }

  /** Reads share a pack exactly when they name the same repository and digest. */
  lemma KeyIdentifies(r: string, s: string, d: string, e: string)
    requires |d| == |e|
    ensures Key(r, d) == Key(s, e) <==> r == s && d == e
  {
    if Key(r, d) == Key(s, e) {
      var (k, n) := (Key(r, d), |r|);
      assert |r| == |s| && k[..n] == r && k[..n] == s && k[n + 1..] == d && k[n + 1..] == e;
    }
  }

  // ---- accounting

  predicate Held(packs: map<string, nat>, p: Pack, i: nat) { p.key in packs && packs[p.key] == i }

  /** The sizes of the resident packs, all or only those with readers. */
  function Total(packs: map<string, nat>, arena: seq<Pack>, pinned: bool): int {
    if arena == [] then 0
    else
      var i := |arena| - 1;
      Total(packs, arena[..i], pinned)
      + if Held(packs, arena[i], i) && (pinned ==> arena[i].readers > 0) then arena[i].descriptor.size else 0
  }

  /** The handles that pin pack `p`. */
  function Pins(handles: seq<Handle>, p: nat): nat {
    if handles == [] then 0
    else
      var h := handles[|handles| - 1];
      Pins(handles[..|handles| - 1], p) + if h.pack == p && !h.phase.Closed? then 1 else 0
  }

  lemma {:induction false} TotalRemove(packs: map<string, nat>, arena: seq<Pack>, key: string, pinned: bool)
    requires key in packs && forall i :: 0 <= i < |arena| && packs[key] == i ==> arena[i].key == key
    ensures Total(packs - {key}, arena, pinned)
              == Total(packs, arena, pinned)
                 - if packs[key] < |arena| && (pinned ==> arena[packs[key]].readers > 0) then
                     arena[packs[key]].descriptor.size
                   else 0
  {
    if arena != [] { TotalRemove(packs, arena[..|arena| - 1], key, pinned); }
  }

  /** Adding a pack at the end. */
  lemma {:induction false} TotalAdd(packs: map<string, nat>, arena: seq<Pack>, key: string, p: nat)
    requires key !in packs && |arena| <= p
    ensures Total(packs[key := p], arena, false) == Total(packs, arena, false)
  {
    if arena != [] { TotalAdd(packs, arena[..|arena| - 1], key, p); }
  }

  lemma {:induction false} TotalSame(packs: map<string, nat>, arena: seq<Pack>, arena': seq<Pack>)
    requires |arena| == |arena'|
             && forall i ::
                  0 <= i < |arena| ==> arena[i].key == arena'[i].key && arena[i].descriptor == arena'[i].descriptor
    ensures Total(packs, arena, false) == Total(packs, arena', false)
  {
    if arena != [] { TotalSame(packs, arena[..|arena| - 1], arena'[..|arena| - 1]); }
  }

  /** When only pinned packs are left, they are all there is. */
  lemma {:induction false} OnlyPinned(packs: map<string, nat>, arena: seq<Pack>)
    requires forall i :: 0 <= i < |arena| && Held(packs, arena[i], i) ==> arena[i].readers > 0
    ensures Total(packs, arena, false) == Total(packs, arena, true)
  {
    if arena != [] { OnlyPinned(packs, arena[..|arena| - 1]); }
  }

  lemma {:induction false} TotalPinnedBelow(packs: map<string, nat>, arena: seq<Pack>)
    requires forall i :: 0 <= i < |arena| ==> arena[i].descriptor.size > 0
    ensures Total(packs, arena, true) <= Total(packs, arena, false)
  {
    if arena != [] { TotalPinnedBelow(packs, arena[..|arena| - 1]); }
  }

  lemma {:induction false} PinsSet(handles: seq<Handle>, h: nat, phase: Phase, p: nat)
    requires h < |handles| && !handles[h].phase.Closed?
    ensures Pins(handles[h := handles[h].(phase := phase)], p)
            == Pins(handles, p) - if phase.Closed? && handles[h].pack == p then 1 else 0
    ensures handles[h].pack == p ==> Pins(handles, p) > 0
  {
    var n := |handles| - 1;
    if h < n {
      PinsSet(handles[..n], h, phase, p);
      assert handles[h := handles[h].(phase := phase)][..n] == handles[..n][h := handles[h].(phase := phase)];
    } else {
      assert handles[h := handles[h].(phase := phase)][..n] == handles[..n];
    }
  }

  lemma PinsAdd(handles: seq<Handle>, g: Handle, p: nat)
    requires !g.phase.Closed?
    ensures Pins(handles + [g], p) == Pins(handles, p) + if g.pack == p then 1 else 0
  {
    assert (handles + [g])[..|handles|] == handles;
  }

  lemma {:induction false} PinsNone(handles: seq<Handle>, p: nat)
    requires forall h :: 0 <= h < |handles| ==> handles[h].pack != p
    ensures Pins(handles, p) == 0
  {
    if handles != [] { PinsNone(handles[..|handles| - 1], p); }
  }

  // ---- the invariant

  ghost predicate PackOk(digest: Digest, p: Pack) {
    && IsDigest(p.descriptor.digest) && p.descriptor.size > 0
    && |p.key| >= 71 && p.key[|p.key| - 71..] == p.descriptor.digest
    && (p.status.Ready? ==> |p.status.data| == p.descriptor.size && digest(p.status.data) == p.descriptor.digest)
  }

  ghost predicate PacksOk(digest: Digest, arena: seq<Pack>) {
    forall i :: 0 <= i < |arena| ==> PackOk(digest, arena[i])
  }

  ghost predicate MapOk(packs: map<string, nat>, arena: seq<Pack>) {
    forall k :: k in packs ==> packs[k] < |arena| && arena[packs[k]].key == k && !arena[packs[k]].status.Failed?
  }

  /** A pack that is being downloaded is resident. */
  ghost predicate LoadingHeld(packs: map<string, nat>, arena: seq<Pack>) {
    forall i :: 0 <= i < |arena| && arena[i].status.Loading? ==> Held(packs, arena[i], i)
  }

  ghost predicate HandleOk(arena: seq<Pack>, g: Handle) {
    && g.pack < |arena| && ValidFile(g.file) && g.file.blob == arena[g.pack].descriptor
    && (g.phase.Fetching? ==> arena[g.pack].status.Loading?)
    && (g.phase.Open? ==> arena[g.pack].status.Ready?)
  }

  ghost predicate HandlesOk(arena: seq<Pack>, handles: seq<Handle>) {
    forall h :: 0 <= h < |handles| ==> HandleOk(arena, handles[h])
  }

  ghost predicate Downloads(handles: seq<Handle>, h: int, i: nat) {
    0 <= h < |handles| && handles[h].phase.Fetching? && handles[h].pack == i
  }

  /** A pack has exactly one downloading read while it loads, so waiting for it is waiting for a download under way. */
  ghost predicate OneDownload(arena: seq<Pack>, handles: seq<Handle>) {
    && (forall i :: 0 <= i < |arena| && arena[i].status.Loading? ==> exists h :: Downloads(handles, h, i))
    && (forall i, g, h :: Downloads(handles, g, i) && Downloads(handles, h, i) ==> g == h)
  }

  ghost predicate ReadersOk(arena: seq<Pack>, handles: seq<Handle>) {
    forall i :: 0 <= i < |arena| ==> arena[i].readers == Pins(handles, i)
  }

  ghost predicate UsedOk(packs: map<string, nat>, arena: seq<Pack>, clock: nat)
    requires MapOk(packs, arena)
  {
    && (forall k :: k in packs ==> arena[packs[k]].used <= clock)
    && (forall k, l :: k in packs && l in packs && k != l ==> arena[packs[k]].used != arena[packs[l]].used)
  }

  ghost predicate RecentOk(recent: map<string, nat>, clock: nat) {
    && |recent| <= HISTORY && "" !in recent
    && (forall k :: k in recent ==> recent[k] <= clock)
    && (forall k, l :: k in recent && l in recent && k != l ==> recent[k] != recent[l])
  }

  ghost predicate BytesOk(limit: int, bytes: int, packs: map<string, nat>, arena: seq<Pack>) {
    bytes == Total(packs, arena, false) && bytes <= limit
  }

  // ---- what the steps keep

  lemma LoadingPinned(arena: seq<Pack>, handles: seq<Handle>, i: nat)
    requires OneDownload(arena, handles) && ReadersOk(arena, handles) && i < |arena| && arena[i].status.Loading?
    ensures arena[i].readers > 0
  {
    var h :| Downloads(handles, h, i);
    PinsSet(handles, h, Closed, i);
  }

  /** A resident pack without readers can go: it is not being downloaded. */
  lemma EvictKeeps(digest: Digest, limit: int, bytes: int, clock: nat, packs: map<string, nat>, arena: seq<Pack>,
                   handles: seq<Handle>, key: string)
    requires PacksOk(digest, arena) && MapOk(packs, arena) && LoadingHeld(packs, arena) && UsedOk(packs, arena, clock)
    requires BytesOk(limit, bytes, packs, arena) && OneDownload(arena, handles) && ReadersOk(arena, handles)
    requires key in packs && arena[packs[key]].readers == 0
    ensures MapOk(packs - {key}, arena) && LoadingHeld(packs - {key}, arena) && UsedOk(packs - {key}, arena, clock)
    ensures BytesOk(limit, bytes - arena[packs[key]].descriptor.size, packs - {key}, arena)
    ensures Total(packs - {key}, arena, true) == Total(packs, arena, true)
  {
    TotalRemove(packs, arena, key, false);
    TotalRemove(packs, arena, key, true);
    assert PackOk(digest, arena[packs[key]]);
    forall i | 0 <= i < |arena| && arena[i].status.Loading?
      ensures Held(packs - {key}, arena[i], i)
    {
      LoadingPinned(arena, handles, i);
    }
  }

  /** Replacing a pack by one with the same key and descriptor. */
  lemma UpdateKeeps(digest: Digest, limit: int, bytes: int, packs: map<string, nat>, arena: seq<Pack>, i: nat, p: Pack)
    requires PacksOk(digest, arena) && MapOk(packs, arena) && LoadingHeld(packs, arena)
             && BytesOk(limit, bytes, packs, arena)
    requires i < |arena| && PackOk(digest, p) && p.key == arena[i].key && p.descriptor == arena[i].descriptor
    requires (p.status.Failed? ==> arena[i].status.Failed?) && (p.status.Loading? ==> arena[i].status.Loading?)
    ensures PacksOk(digest, arena[i := p]) && MapOk(packs, arena[i := p]) && LoadingHeld(packs, arena[i := p])
    ensures BytesOk(limit, bytes, packs, arena[i := p])
  {
    TotalSame(packs, arena, arena[i := p]);
    hide Total, PackOk;
  }

  lemma TouchedUsed(packs: map<string, nat>, arena: seq<Pack>, clock: nat, i: nat, p: Pack)
    requires MapOk(packs, arena) && UsedOk(packs, arena, clock) && i < |arena| && p.key == arena[i].key
             && !p.status.Failed?
    requires p.used == arena[i].used || p.used == clock + 1
    ensures MapOk(packs, arena[i := p]) && UsedOk(packs, arena[i := p], clock + 1)
    ensures p.used == arena[i].used ==> UsedOk(packs, arena[i := p], clock)
  {
  }

  lemma HandlesKept(arena: seq<Pack>, handles: seq<Handle>, i: nat, p: Pack)
    requires HandlesOk(arena, handles) && i < |arena| && p.descriptor == arena[i].descriptor
             && p.status == arena[i].status
    ensures HandlesOk(arena[i := p], handles)
  {
    forall h | 0 <= h < |handles|
      ensures HandleOk(arena[i := p], handles[h])
    {
      assert HandleOk(arena, handles[h]);
    }
  }

  lemma DownloadsKept(arena: seq<Pack>, arena': seq<Pack>, handles: seq<Handle>, handles': seq<Handle>)
    requires OneDownload(arena, handles) && forall h, i: nat :: Downloads(handles', h, i) <==> Downloads(handles, h, i)
    requires |arena'| == |arena|
             && forall i :: 0 <= i < |arena| && arena'[i].status.Loading? ==> arena[i].status.Loading?
    ensures OneDownload(arena', handles')
  {
    forall i | 0 <= i < |arena'| && arena'[i].status.Loading?
      ensures exists h :: Downloads(handles', h, i)
    {
      var h :| Downloads(handles, h, i);
      assert Downloads(handles', h, i);
    }
  }

  /** A read joins a resident pack. */
  lemma JoinPins(arena: seq<Pack>, handles: seq<Handle>, i: nat, p: Pack, g: Handle)
    requires ReadersOk(arena, handles) && i < |arena| && p.readers == arena[i].readers + 1 && g.pack == i
             && !g.phase.Closed?
    ensures ReadersOk(arena[i := p], handles + [g])
  {
    forall k | 0 <= k < |arena|
      ensures arena[i := p][k].readers == Pins(handles + [g], k)
    {
      PinsAdd(handles, g, k);
    }
  }

  lemma JoinHandles(arena: seq<Pack>, handles: seq<Handle>, g: Handle)
    requires HandlesOk(arena, handles) && OneDownload(arena, handles) && HandleOk(arena, g) && g.phase.Waiting?
    ensures HandlesOk(arena, handles + [g]) && OneDownload(arena, handles + [g])
  {
    assert forall h, i: nat :: Downloads(handles + [g], h, i) <==> Downloads(handles, h, i);
    DownloadsKept(arena, arena, handles, handles + [g]);
  }

  /** A read reserves room for a new pack and downloads it. */
  lemma ReserveKeeps(digest: Digest, limit: int, bytes: int, clock: nat, packs: map<string, nat>, arena: seq<Pack>,
                     p: Pack)
    requires PacksOk(digest, arena) && MapOk(packs, arena) && LoadingHeld(packs, arena) && UsedOk(packs, arena, clock)
    requires BytesOk(limit, bytes, packs, arena)
    requires p.key !in packs && PackOk(digest, p) && p.status.Loading? && p.used == clock + 1
             && bytes + p.descriptor.size <= limit
    ensures PacksOk(digest, arena + [p]) && MapOk(packs[p.key := |arena|], arena + [p])
            && LoadingHeld(packs[p.key := |arena|], arena + [p])
    ensures UsedOk(packs[p.key := |arena|], arena + [p], clock + 1)
    ensures BytesOk(limit, bytes + p.descriptor.size, packs[p.key := |arena|], arena + [p])
  {
    ReserveMap(digest, packs, arena, p);
    ReserveUsed(packs, arena, clock, p);
    ReserveBytes(packs, arena, p);
  }

  lemma ReserveMap(digest: Digest, packs: map<string, nat>, arena: seq<Pack>, p: Pack)
    requires PacksOk(digest, arena) && MapOk(packs, arena) && LoadingHeld(packs, arena)
    requires p.key !in packs && PackOk(digest, p) && p.status.Loading?
    ensures PacksOk(digest, arena + [p]) && MapOk(packs[p.key := |arena|], arena + [p])
            && LoadingHeld(packs[p.key := |arena|], arena + [p])
  {
    hide PackOk;
  }

  lemma ReserveUsed(packs: map<string, nat>, arena: seq<Pack>, clock: nat, p: Pack)
    requires MapOk(packs, arena) && UsedOk(packs, arena, clock) && p.key !in packs && p.used == clock + 1
    requires MapOk(packs[p.key := |arena|], arena + [p])
    ensures UsedOk(packs[p.key := |arena|], arena + [p], clock + 1)
  {
    var (packs', arena') := (packs[p.key := |arena|], arena + [p]);
    forall k | k in packs'
      ensures arena'[packs'[k]].used == if k == p.key then clock + 1 else arena[packs[k]].used
    {
    }
    forall k, l | k in packs' && l in packs' && k != l
      ensures arena'[packs'[k]].used != arena'[packs'[l]].used
    {
    }
  }

  lemma ReserveBytes(packs: map<string, nat>, arena: seq<Pack>, p: Pack)
    requires p.key !in packs
    ensures Total(packs[p.key := |arena|], arena + [p], false) == Total(packs, arena, false) + p.descriptor.size
  {
    TotalAdd(packs, arena, p.key, |arena|);
    assert (arena + [p])[..|arena|] == arena;
  }

  lemma ReserveHandles(arena: seq<Pack>, handles: seq<Handle>, p: Pack, g: Handle)
    requires HandlesOk(arena, handles) && OneDownload(arena, handles) && ReadersOk(arena, handles)
    requires p.status.Loading? && p.readers == 1 && g.phase.Fetching? && HandleOk(arena + [p], g) && g.pack == |arena|
    ensures HandlesOk(arena + [p], handles + [g]) && OneDownload(arena + [p], handles + [g])
            && ReadersOk(arena + [p], handles + [g])
  {
    forall h | 0 <= h < |handles|
      ensures HandleOk(arena + [p], handles[h]) && handles[h].pack < |arena|
    {
      assert HandleOk(arena, handles[h]);
    }
    PinsNone(handles, |arena|);
    forall i | 0 <= i < |arena + [p]|
      ensures (arena + [p])[i].readers == Pins(handles + [g], i)
      ensures (arena + [p])[i].status.Loading? ==> exists h :: Downloads(handles + [g], h, i)
    {
      PinsAdd(handles, g, i);
      if i == |arena| {
        assert Downloads(handles + [g], |handles|, i);
      } else if arena[i].status.Loading? {
        var h :| Downloads(handles, h, i);
        assert Downloads(handles + [g], h, i);
      }
    }
    forall i, a, b | Downloads(handles + [g], a, i) && Downloads(handles + [g], b, i)
      ensures a == b
    {
      if a < |handles| { assert Downloads(handles, a, i); }
      if b < |handles| { assert Downloads(handles, b, i); }
    }
  }

  /** The download of pack `i` ends and its reader becomes a waiting one. */
  lemma FinishHandles(arena: seq<Pack>, handles: seq<Handle>, h: nat, p: Pack)
    requires HandlesOk(arena, handles) && OneDownload(arena, handles) && ReadersOk(arena, handles)
    requires h < |handles| && handles[h].phase.Fetching? && handles[h].pack < |arena|
    requires p.descriptor == arena[handles[h].pack].descriptor && p.readers == arena[handles[h].pack].readers
             && !p.status.Loading?
    ensures HandlesOk(arena[handles[h].pack := p], handles[h := handles[h].(phase := Waiting)])
    ensures OneDownload(arena[handles[h].pack := p], handles[h := handles[h].(phase := Waiting)])
    ensures ReadersOk(arena[handles[h].pack := p], handles[h := handles[h].(phase := Waiting)])
  {
    var i := handles[h].pack;
    var handles', arena' := handles[h := handles[h].(phase := Waiting)], arena[i := p];
    assert HandleOk(arena, handles[h]) && Downloads(handles, h, i);
    forall k | 0 <= k < |handles|
      ensures HandleOk(arena', handles'[k])
    {
      assert HandleOk(arena, handles[k]);
      if k != h && handles[k].phase.Fetching? && handles[k].pack == i { assert Downloads(handles, k, i); }
    }
    forall k | 0 <= k < |arena|
      ensures arena'[k].readers == Pins(handles', k)
    {
      PinsSet(handles, h, Waiting, k);
    }
    FinishDownloads(arena, handles, h, p);
  }

  lemma FinishDownloads(arena: seq<Pack>, handles: seq<Handle>, h: nat, p: Pack)
    requires OneDownload(arena, handles) && h < |handles| && handles[h].phase.Fetching? && handles[h].pack < |arena|
             && !p.status.Loading?
    ensures OneDownload(arena[handles[h].pack := p], handles[h := handles[h].(phase := Waiting)])
  {
    var i := handles[h].pack;
    var handles', arena' := handles[h := handles[h].(phase := Waiting)], arena[i := p];
    forall k | 0 <= k < |arena'| && arena'[k].status.Loading?
      ensures exists g :: Downloads(handles', g, k)
    {
      var g :| Downloads(handles, g, k);
      assert Downloads(handles', g, k);
    }
    forall k, a, b | Downloads(handles', a, k) && Downloads(handles', b, k)
      ensures a == b
    {
      assert Downloads(handles, a, k) && Downloads(handles, b, k);
    }
  }

  /** A failed pack leaves the cache and gives its reservation back. */
  lemma FailKeeps(digest: Digest, limit: int, bytes: int, clock: nat, packs: map<string, nat>, arena: seq<Pack>, i: nat,
                  p: Pack)
    requires PacksOk(digest, arena) && MapOk(packs, arena) && LoadingHeld(packs, arena) && UsedOk(packs, arena, clock)
    requires BytesOk(limit, bytes, packs, arena) && i < |arena| && arena[i].status.Loading?
    requires PackOk(digest, p) && p.key == arena[i].key && p.descriptor == arena[i].descriptor && p.status.Failed?
    ensures PacksOk(digest, arena[i := p]) && MapOk(packs - {p.key}, arena[i := p])
            && LoadingHeld(packs - {p.key}, arena[i := p])
    ensures UsedOk(packs - {p.key}, arena[i := p], clock)
            && BytesOk(limit, bytes - p.descriptor.size, packs - {p.key}, arena[i := p])
  {
    assert Held(packs, arena[i], i) && PackOk(digest, arena[i]);
    TotalSame(packs, arena, arena[i := p]);
    TotalRemove(packs, arena[i := p], p.key, false);
    hide Total, PackOk;
  }

  /** A reader releases its pack. */
  lemma ReleaseKeeps(arena: seq<Pack>, handles: seq<Handle>, h: nat)
    requires HandlesOk(arena, handles) && OneDownload(arena, handles) && ReadersOk(arena, handles)
    requires h < |handles| && !handles[h].phase.Closed? && !handles[h].phase.Fetching? && handles[h].pack < |arena|
    ensures arena[handles[h].pack].readers > 0
    ensures var p := arena[handles[h].pack];
            var (arena', handles') := (arena[handles[h].pack := p.(readers := p.readers - 1)],
                                       handles[h := handles[h].(phase := Closed)]);
            HandlesOk(arena', handles') && OneDownload(arena', handles') && ReadersOk(arena', handles')
  {
    var i, handles' := handles[h].pack, handles[h := handles[h].(phase := Closed)];
    PinsSet(handles, h, Closed, i);
    var p := arena[i].(readers := arena[i].readers - 1);
    HandlesKept(arena, handles, i, p);
    forall k | 0 <= k < |arena|
      ensures arena[i := p][k].readers == Pins(handles', k)
    {
      PinsSet(handles, h, Closed, k);
    }
    assert forall g, k: nat :: Downloads(handles', g, k) <==> Downloads(handles, g, k);
    DownloadsKept(arena, arena[i := p], handles, handles');
    forall k | 0 <= k < |handles|
      ensures HandleOk(arena[i := p], handles'[k])
    {
      assert HandleOk(arena[i := p], handles[k]);
    }
  }

  /** A waiting reader starts reading. */
  lemma OpenKeeps(arena: seq<Pack>, handles: seq<Handle>, h: nat)
    requires HandlesOk(arena, handles) && OneDownload(arena, handles) && ReadersOk(arena, handles)
    requires h < |handles| && handles[h].phase.Waiting? && handles[h].pack < |arena|
             && arena[handles[h].pack].status.Ready?
    ensures HandlesOk(arena, handles[h := handles[h].(phase := Open)])
            && OneDownload(arena, handles[h := handles[h].(phase := Open)])
    ensures ReadersOk(arena, handles[h := handles[h].(phase := Open)])
  {
    var handles' := handles[h := handles[h].(phase := Open)];
    forall k | 0 <= k < |arena|
      ensures arena[k].readers == Pins(handles', k)
    {
      PinsSet(handles, h, Open, k);
    }
    assert forall g, k: nat :: Downloads(handles', g, k) <==> Downloads(handles, g, k);
    DownloadsKept(arena, arena, handles, handles');
    assert HandleOk(arena, handles[h]);
  }
}

/** `Snapshot.Publish`, and what opening and loading its manifest gives back (worker/snapshot.go:335-374,
    worker/catalog.go). */
module SnapshotPublish {
  import opened Catalog
  import opened CatalogOpen
  import opened CatalogOrder
  import opened CatalogPublish
  import opened CatalogRoundTrip
  import opened CatalogSchedules
  import opened CatalogViews
  import opened CatalogWalk
  import opened Names
  import opened SnapshotLayers
  import opened Snapshots

  /** Each layer once, with the catalog's entry marked. */
  ghost predicate ManifestOf(manifest: seq<Layer>, layers: map<string, Descriptor>, top: string) {
    && Mapped(manifest, layers)
    && (forall i :: 0 <= i < |manifest| ==> (manifest[i].files <==> manifest[i].descriptor.digest == top))
    && (forall i, j :: 0 <= i < j < |manifest| ==> manifest[i].descriptor.digest != manifest[j].descriptor.digest)
  }

  ghost predicate Keyed(layers: map<string, Descriptor>) { forall d :: d in layers ==> layers[d].digest == d }

  /** Lines 371-374. */
  method ManifestLayers(layers: map<string, Descriptor>, top: string) returns (manifest: seq<Layer>)
    requires Keyed(layers)
    ensures ManifestOf(manifest, layers, top)
  {
    var keys := Enumerate(layers.Keys);
    SortKeeps(keys);
    keys := Sort(keys);
    hide Sort;
    KeysIn(keys, layers);
    manifest := [];
    for i := 0 to |keys|
      invariant |manifest| == i
      invariant forall j :: 0 <= j < i ==> manifest[j] == Layer(layers[keys[j]], keys[j] == top)
    {
      manifest := manifest + [Layer(layers[keys[i]], keys[i] == top)];
    }
    KeysListed(keys, layers, top, manifest);
  }

  lemma KeysListed(keys: seq<string>, layers: map<string, Descriptor>, top: string, manifest: seq<Layer>)
    requires Keyed(layers) && Distinct(keys) && Elements(keys) == layers.Keys && |manifest| == |keys|
    requires forall i :: 0 <= i < |keys| ==> keys[i] in layers && manifest[i] == Layer(layers[keys[i]], keys[i] == top)
    ensures ManifestOf(manifest, layers, top)
  {
    forall d | d in layers
      ensures Lists(manifest, layers[d])
    {
      assert d in Elements(keys);
      var i :| 0 <= i < |keys| && keys[i] == d;
      assert manifest[i].descriptor == layers[d];
    }
  }

  lemma LaidKeyed(s: Snapshot, base: map<string, Descriptor>, layers: map<string, Descriptor>,
                  reused: map<string, Descriptor>, top: Descriptor)
    requires FromFiles(s.files, base) && Laid(base, layers, reused)
    ensures Keyed(FinalLayers(layers, top))
  {
    forall d | d in layers
      ensures layers[d].digest == d
    {
    }
  }

  /** Why nothing is published: missing metadata, records or files that are not valid or disagree, or a catalog that
      cannot be written. */
  ghost predicate Rejects(store: Store, respond: Uploads, hash: Hash, s: Snapshot, metadata: Option<Raw>, w: Work) {
    || metadata.None? || !RecordsOk(s) || !SameBlobs(s.files) || (exists n :: n in s.files && !ValidFile(s.files[n]))
    || Fails(store, respond, hash, s, metadata.value, w.root, w.descriptors, w.reused, w.asked, 0)
  }

  /** Lines 335-374; the metadata is none when it is missing. `w` is what was done, even if nothing was published. */
  method Publish(store: Store, respond: Uploads, offered: map<string, Descriptor>, hash: Hash, s: Snapshot,
                 metadata: Option<Raw>)
    returns (manifest: Option<seq<Layer>>, ghost w: Work)
    requires HashText(hash) && Honest(store, respond) && Reusable(store, Offered(store, offered), offered)
    ensures manifest.None? <==> Rejects(store, respond, hash, s, metadata, w)
    ensures manifest.Some? ==>
              metadata.Some? && Splits(store, hash, s) && RecordsOk(s) && SameBlobs(s.files)
              && forall n :: n in s.files ==> ValidFile(s.files[n])
    ensures manifest.Some? ==>
              Done(store, respond, offered, hash, s, metadata.value, w)
              && ManifestOf(manifest.value, FinalLayers(w.layers, w.top), w.top.digest)
    ensures metadata.Some? ==>
              Tries(store, hash, s, metadata.value, w.root, w.descriptors, w.reused, w.texts, w.asked, 0)
              && Reusable(store, w.texts, w.reused)
  {
    hide HashText, Honest, Reusable, Offered, SameBlobs, RecordsOk, Splits, FromFiles, Laid, Asks, PlaceKept, Published,
      Apart, FinalLayers, ManifestOf, Keyed, FileOk, Tries, Fails, Sourced, TopKept, ValidFile, Done, PlansOf;
    var nothing := Root(NO_BLOB, NO_BLOB, NO_BLOB);
    manifest, w := None, Work(map[], map[], map[], {}, [], nothing, NO_BLOB, map[]);
    if metadata.None? { return; }
    NothingDone(store, hash, s, metadata.value, nothing);
    var valid := ValidateRecords(s);
    if !valid { return; }
    var layers := FileLayers(s.files);
    if layers.None? { return; }
    var p := new Publisher(store, respond, offered, layers.value);
    ghost var root, descriptors;
    var top;
    top, root, descriptors := p.PublishCatalog(hash, s, metadata.value);
    ghost var entry := if top.Some? then top.value else NO_BLOB;
    w := Work(layers.value, p.layers, p.reused, p.texts, p.asked, root, entry, descriptors);
    if top.None? { return; }
    NowDone(store, respond, offered, hash, s, metadata.value, w);
    LaidKeyed(s, layers.value, p.layers, p.reused, top.value);
    var list := ManifestLayers(FinalLayers(p.layers, top.value), top.value.digest);
    manifest := Some(list);
  }

  lemma NothingDone(store: Store, hash: Hash, s: Snapshot, metadata: Raw, root: Root)
    ensures Tries(store, hash, s, metadata, root, map[], map[], {}, [], 0) && Reusable(store, {}, map[])
  {
  }

  lemma NowDone(store: Store, respond: Uploads, offered: map<string, Descriptor>, hash: Hash, s: Snapshot,
                metadata: Raw, w: Work)
    requires FromFiles(s.files, w.base) && Laid(w.base, w.layers, w.reused) && Reusable(store, w.texts, w.reused)
    requires Sourced(store, respond, offered, w.reused, w.asked) && Splits(store, hash, s)
    requires Asks(store, hash, s, metadata, w.root, w.descriptors, Offered(store, offered), w.texts)
    requires forall p :: PlanAt(PlansOf(store, hash, s), p).Some? ==>
               PlaceKept(store, w.reused, w.texts, PlansOf(store, hash, s), w.descriptors, p)
    requires Tries(store, hash, s, metadata, w.root, w.descriptors, w.reused, w.texts, w.asked, 0)
    requires TopKept(store, w.reused, metadata, w.root, w.top) && Rooted(w.root, w.descriptors)
    requires forall h :: h in w.reused ==>
               GivenTo(w.descriptors, w.reused[h]) || w.reused[h] == w.root.metadata || w.reused[h] == w.top
    requires Apart(store.rawHash, w.texts) ==>
               Published(store, hash, s, metadata, w.layers, w.root, w.top, w.descriptors)
    ensures Done(store, respond, offered, hash, s, metadata, w)
  {
    hide FromFiles, Laid, Reusable, Sourced, Splits, Asks, TopKept, Rooted, Published, Apart, PlansOf, TextOf, Writes;
  }

  // ---- the final layers

  lemma FinalValid(store: Store, s: Snapshot, w: Work)
    requires FromFiles(s.files, w.base) && Laid(w.base, w.layers, w.reused) && Reusable(store, w.texts, w.reused)
    requires (forall n :: n in s.files ==> ValidFile(s.files[n])) && Described(store, w.top)
    ensures forall d :: d in FinalLayers(w.layers, w.top) ==> LayerOk(FinalLayers(w.layers, w.top)[d])
  {
    hide IsDigest;
    forall d | d in w.layers
      ensures LayerOk(w.layers[d])
    {
      if d in w.base && w.layers[d] == w.base[d] {
        var n :| n in s.files && s.files[n].blob == w.base[d] && w.base[d].digest == d;
        assert ValidFile(s.files[n]);
      } else {
        var h :| h in w.reused && w.reused[h] == w.layers[d];
        assert Described(store, w.reused[h]);
      }
    }
  }

  lemma MappedUnique(manifest: seq<Layer>, a: map<string, Descriptor>, b: map<string, Descriptor>)
    requires Mapped(manifest, a) && Mapped(manifest, b)
    ensures a == b
  {
    forall d
      ensures d in a <==> d in b
      ensures d in a && d in b ==> a[d] == b[d]
    {
      if d in a { assert Lists(manifest, a[d]); }
      if d in b { assert Lists(manifest, b[d]); }
    }
  }

  /** The published entry is the one that is opened, when it and the metadata can be. */
  lemma EntryOpens(content: Content, size: Size, manifest: seq<Layer>, layers: map<string, Descriptor>, root: Root,
                   top: Descriptor)
    requires ManifestOf(manifest, layers, top.digest) && top.digest in layers && layers[top.digest] == top
             && top.mediaType == ROOT_MEDIA
    requires forall d :: d in layers ==> LayerOk(layers[d])
    requires content(top.digest).Some? && content(top.digest).value.root == Some(root)
             && size(content(top.digest).value) <= ROOT_LIMIT
    requires Reaches(layers, root.index) && Reaches(layers, root.writer)
    ensures forall k: nat :: Opens(content, size, manifest, k) ==> manifest[k].descriptor == top
    ensures (exists k: nat :: Opens(content, size, manifest, k))
            <==> top.size <= ROOT_LIMIT + CIPHER_SLACK && Reaches(layers, root.metadata)
  {
    ListedReached(manifest, layers, root.index);
    ListedReached(manifest, layers, root.writer);
    ListedReached(manifest, layers, root.metadata);
    EntryListed(manifest, layers, top);
    var k :| 0 <= k < |manifest| && manifest[k].descriptor == top;
    hide IsDigest, Lists, Reaches;
    forall i | Opens(content, size, manifest, i)
      ensures i == k
    {
    }
    if top.size <= ROOT_LIMIT + CIPHER_SLACK && Reaches(layers, root.metadata) {
      EntryOpensAt(content, size, manifest, layers, root, top, k);
    }
  }

  lemma EntryListed(manifest: seq<Layer>, layers: map<string, Descriptor>, top: Descriptor)
    requires Mapped(manifest, layers) && top.digest in layers && layers[top.digest] == top
    ensures exists k :: 0 <= k < |manifest| && manifest[k].descriptor == top
  {
    assert Lists(manifest, layers[top.digest]);
  }

  lemma EntryOpensAt(content: Content, size: Size, manifest: seq<Layer>, layers: map<string, Descriptor>, root: Root,
                     top: Descriptor, k: nat)
    requires ManifestOf(manifest, layers, top.digest) && k < |manifest| && manifest[k].descriptor == top
             && top.mediaType == ROOT_MEDIA
    requires forall d :: d in layers ==> LayerOk(layers[d])
    requires content(top.digest).Some? && content(top.digest).value.root == Some(root)
             && size(content(top.digest).value) <= ROOT_LIMIT
    requires Lists(manifest, root.index) && Lists(manifest, root.writer) && Lists(manifest, root.metadata)
    requires top.size <= ROOT_LIMIT + CIPHER_SLACK
    ensures Opens(content, size, manifest, k)
  {
    hide IsDigest, Lists;
    forall i | 0 <= i < |manifest|
      ensures LayerOk(manifest[i].descriptor) && (manifest[i].files <==> i == k)
    {
      assert manifest[i].descriptor.digest in layers;
    }
  }

  // ---- the round trip

  lemma OpenedEntry(store: Store, hash: Hash, s: Snapshot, metadata: Raw, w: Work, manifest: seq<Layer>)
    requires Published(store, hash, s, metadata, w.layers, w.root, w.top, w.descriptors)
    requires FromFiles(s.files, w.base) && Laid(w.base, w.layers, w.reused) && Reusable(store, w.texts, w.reused)
    requires (forall n :: n in s.files ==> ValidFile(s.files[n]))
             && ManifestOf(manifest, FinalLayers(w.layers, w.top), w.top.digest)
    ensures forall k: nat :: Opens(store.content, store.size, manifest, k) ==>
              k < |manifest| && store.content(manifest[k].descriptor.digest) == Some(EncodedRoot(w.root))
    ensures (exists k: nat :: Opens(store.content, store.size, manifest, k))
            <==> w.top.size <= ROOT_LIMIT + CIPHER_SLACK && Reaches(FinalLayers(w.layers, w.top), w.root.metadata)
  {
    hide *;
    FinalPlaces(store, hash, s, metadata, w);
    PublishedParts(store, hash, s, metadata, w);
    FinalRoots(store, hash, s, FinalLayers(w.layers, w.top), w);
    EntryText(store, metadata, w);
    FinalValid(store, s, w);
    FinalTop(w.layers, w.top);
    EntryOpens(store.content, store.size, manifest, FinalLayers(w.layers, w.top), w.root, Titled(w.top));
    OpensListed(store.content, store.size, manifest);
  }

  lemma OpensListed(content: Content, size: Size, manifest: seq<Layer>)
    ensures forall k: nat :: Opens(content, size, manifest, k) ==> k < |manifest|
  {
  }

  lemma FinalRoots(store: Store, hash: Hash, s: Snapshot, layers: map<string, Descriptor>, w: Work)
    requires Splits(store, hash, s)
    requires PlacesStored(store, PlansOf(store, hash, s), layers, Roots(w.root.index, w.root.writer), w.descriptors)
    ensures Reaches(layers, w.root.index) && Reaches(layers, w.root.writer)
  {
    var plans := PlansOf(store, hash, s);
    assert PlanAt(plans, Place(true, "")).Some? && PlanAt(plans, Place(false, "")).Some?;
    hide Splits, PlansOf, Described, NodeOf;
    assert PlaceStored(store, plans, layers, w.descriptors, Place(true, ""))
           && PlaceStored(store, plans, layers, w.descriptors, Place(false, ""));
  }

  /** What `NarinfoFields` has checked of the store paths. */
  ghost predicate NarinfosRead(s: Snapshot) {
    forall n :: n in s.narinfos && s.narinfos[n].valid ==> RecordStorePath(s.narinfos[n].storePath)
  }

  /** What loading a manifest's trees with the layers `reachable` gives. */
  ghost predicate LoadedAs(content: Content, size: Size, hash: Hash, reachable: map<string, Descriptor>, root: Root,
                           visits: seq<Slot>, back: Option<Snapshot>) {
    && (forall b :: b in visits ==> SlotOk(content, Roots(root.index, root.writer), b))
    && (back.Some?
        <==> Fits(content, size, root.metadata, CATALOG_LIMIT) && content(root.metadata.digest).value.metadata
             && AllAnswer(Reader(content, size, reachable, hash), map[], visits)
             && FilesAgree(content, Roots(root.index, root.writer)))
    && (back.Some? ==>
          Schedule(content, Roots(root.index, root.writer), visits) && Gathered(content, visits, back.value))
  }

  /** A manifest is opened and all of its catalog loaded. */
  method OpenThenLoad(content: Content, size: Size, hash: Hash, rawHash: RawHash, manifest: seq<Layer>)
    returns (back: Option<Snapshot>, ghost k: Option<nat>, ghost reachable: map<string, Descriptor>,
             ghost visits: seq<Slot>)
    ensures k.None? ==> back.None? && forall i: nat :: !Opens(content, size, manifest, i)
    ensures k.Some? ==> Opens(content, size, manifest, k.value) && Mapped(manifest, reachable)
    ensures k.Some? ==>
              LoadedAs(content, size, hash, reachable, content(manifest[k.value].descriptor.digest).value.root.value,
                       visits, back)
  {
    hide Opens, Mapped, SlotOk, Fits, AllAnswer, FilesAgree, Schedule, Gathered, LevelByLevel, Distinct, LearnedAll,
      RecordsOk;
    back, k, reachable, visits := None, None, map[], [];
    var view, i := OpenCatalog(content, size, hash, rawHash, manifest);
    if view.None? { return; }
    k, reachable := Some(i), view.value.reachable;
    OpensText(content, size, manifest, i);
    back, visits := view.value.LoadAll();
  }

  lemma OpensText(content: Content, size: Size, manifest: seq<Layer>, k: nat)
    requires Opens(content, size, manifest, k)
    ensures k < |manifest| && content(manifest[k].descriptor.digest).Some?
            && content(manifest[k].descriptor.digest).value.root.Some?
  {
  }

  /** Loading what was published, by the layers it was published with. */
  lemma LoadedBack(store: Store, hash: Hash, s: Snapshot, metadata: Raw, w: Work, visits: seq<Slot>,
                   back: Option<Snapshot>)
    requires HashText(hash) && EmptyFits(store) && Publishable(s) && metadata.metadata
    requires Published(store, hash, s, metadata, w.layers, w.root, w.top, w.descriptors)
    requires LoadedAs(store.content, store.size, hash, FinalLayers(w.layers, w.top), w.root, visits, back)
    ensures back.Some? ==> back == Some(s) && FilesReach(FinalLayers(w.layers, w.top), s)
    ensures WithinSlack(store, hash, s, w) && FilesReach(FinalLayers(w.layers, w.top), s) ==> back.Some?
  {
    var layers, roots := FinalLayers(w.layers, w.top), Roots(w.root.index, w.root.writer);
    var v := Reader(store.content, store.size, layers, hash);
    FinalPlaces(store, hash, s, metadata, w);
    PublishedParts(store, hash, s, metadata, w);
    EntryText(store, metadata, w);
    hide Published, SlotOk, PlacesStored, AllAnswer, FilesAgree, Gathered, HashText, EmptyFits, Publishable, Splits,
      PlansOf, InSlack, FilesReach, Fits, Loadable, Everywhere, LevelByLevel, Distinct, TopPublished, SlotAccepted,
      Reaches;
    if back.Some? {
      LoadedIsPublished(store, hash, layers, s, roots, w.descriptors, visits, back.value);
      ScheduleExact(v, roots, visits);
      LoadedReaches(store, hash, layers, s, roots, w.descriptors);
    }
    if WithinSlack(store, hash, s, w) && FilesReach(layers, s) {
      PublishedLoads(store, hash, layers, s, roots, w.descriptors);
      LoadableAnswers(v, roots, visits);
    }
  }

  lemma LoadedReaches(store: Store, hash: Hash, layers: map<string, Descriptor>, s: Snapshot, roots: Roots,
                      descriptors: map<Place, Descriptor>)
    requires HashText(hash) && EmptyFits(store) && Splits(store, hash, s) && Publishable(s)
    requires PlacesStored(store, PlansOf(store, hash, s), layers, roots, descriptors)
    requires forall b :: SlotOk(store.content, roots, b) ==> SlotAccepted(store.content, layers, hash, b)
    ensures FilesReach(layers, s)
  {
    hide *;
    PlansUploaded(store, hash, layers, s, roots, descriptors);
    SoundReaches(store, hash, layers, PlansOf(store, hash, s), s, roots, descriptors);
  }

  /** Publishing a snapshot, opening the manifest and loading it, on a store where no two of the texts involved collide:
      what comes back is what was published, and it comes back exactly when the final layers still have every file's
      blob and the metadata as they are described, provided that no blob exceeds what its readers allow. When uploads
      get new digests, that is known beforehand: it comes back exactly when no blob that the publication is bound to
      reuse contests a file's. */
  method PublishThenLoad(store: Store, respond: Uploads, offered: map<string, Descriptor>, hash: Hash, s: Snapshot,
                         metadata: Option<Raw>)
    returns (published: bool, back: Option<Snapshot>, ghost w: Work)
    requires HashText(hash) && Honest(store, respond) && Reusable(store, Offered(store, offered), offered)
    requires EmptyFits(store) && NarinfosRead(s) && (metadata.Some? ==> metadata.value.metadata)
    ensures published <==> !Rejects(store, respond, hash, s, metadata, w)
    ensures published ==> Publishable(s) && Done(store, respond, offered, hash, s, metadata.value, w)
    ensures metadata.Some? ==>
              Tries(store, hash, s, metadata.value, w.root, w.descriptors, w.reused, w.texts, w.asked, 0)
              && Reusable(store, w.texts, w.reused)
    ensures back.Some? ==> published
    ensures published && Apart(store.rawHash, w.texts) && back.Some? ==>
              back == Some(s) && Found(s, w) && store.content(w.root.metadata.digest) == metadata
    ensures published && Apart(store.rawHash, w.texts) && WithinSlack(store, hash, s, w) ==>
              (back.Some? <==> Found(s, w))
    ensures published && Apart(store.rawHash, w.texts) && metadata.value.root.None? ==>
              (Found(s, w) <==> FilesReach(FinalLayers(w.layers, w.top), s))
    ensures published && Apart(store.rawHash, w.texts) && back.Some? ==>
              Uncontested(store, offered, hash, s, metadata.value)
    ensures published && Apart(store.rawHash, w.texts) && metadata.value.root.None?
            && Fresh(store, respond, offered, s.files) && AllSnug(store, respond, offered) ==>
              (back.Some? <==> Uncontested(store, offered, hash, s, metadata.value))
  {
    hide *;
    published, back := false, None;
    var manifest;
    manifest, w := Publish(store, respond, offered, hash, s, metadata);
    if manifest.None? { return; }
    published := true;
    PublishChecked(store, respond, hash, s, metadata, w);
    ghost var k, reachable, visits;
    back, k, reachable, visits := OpenThenLoad(store.content, store.size, hash, store.rawHash, manifest.value);
    if Apart(store.rawHash, w.texts) {
      KnownBefore(store, respond, offered, hash, s, metadata.value, w);
      if AllSnug(store, respond, offered) { SnugWithin(store, respond, offered, hash, s, metadata.value, w); }
      RoundTrip(store, respond, offered, hash, s, metadata.value, w, manifest.value, k, reachable, visits, back);
    }
  }

  /** No file's blob is contested by one that the publication is bound to reuse. */
  ghost predicate Uncontested(store: Store, offered: map<string, Descriptor>, hash: Hash, s: Snapshot, metadata: Raw) {
    Splits(store, hash, s)
    && forall n :: n in s.files ==> !Contested(store, offered, PlansOf(store, hash, s), metadata, s.files[n].blob)
  }

  lemma KnownBefore(store: Store, respond: Uploads, offered: map<string, Descriptor>, hash: Hash, s: Snapshot,
                    metadata: Raw, w: Work)
    requires HashText(hash) && Done(store, respond, offered, hash, s, metadata, w) && Apart(store.rawHash, w.texts)
    ensures metadata.root.None? ==> (Found(s, w) <==> FilesReach(FinalLayers(w.layers, w.top), s))
    ensures Found(s, w) ==> Uncontested(store, offered, hash, s, metadata)
    ensures metadata.root.None? && Fresh(store, respond, offered, s.files) ==>
              (Found(s, w) <==> Uncontested(store, offered, hash, s, metadata))
  {
    FilesFound(store, respond, offered, hash, s, metadata, w);
    DoneTrees(store, respond, offered, hash, s, metadata, w);
    assert TopPublished(store, metadata, w.layers, w.root, w.top);
    hide Done, Splits, PlansOf, Contested, Fresh, FilesReach, FinalLayers, TopPublished;
    if metadata.root.None? { MetadataStays(store, s, metadata, w); }
  }

  lemma PublishChecked(store: Store, respond: Uploads, hash: Hash, s: Snapshot, metadata: Option<Raw>, w: Work)
    requires !Rejects(store, respond, hash, s, metadata, w) && NarinfosRead(s)
    ensures metadata.Some? && Publishable(s)
  {
    hide Fails, RecordsOk, ValidFile;
  }

  lemma RoundTrip(store: Store, respond: Uploads, offered: map<string, Descriptor>, hash: Hash, s: Snapshot,
                  metadata: Raw, w: Work,
                  manifest: seq<Layer>, k: Option<nat>, reachable: map<string, Descriptor>, visits: seq<Slot>,
                  back: Option<Snapshot>)
    requires HashText(hash) && EmptyFits(store) && Publishable(s) && metadata.metadata
    requires Done(store, respond, offered, hash, s, metadata, w) && Apart(store.rawHash, w.texts)
    requires ManifestOf(manifest, FinalLayers(w.layers, w.top), w.top.digest)
    requires k.None? ==> back.None? && forall i: nat :: !Opens(store.content, store.size, manifest, i)
    requires k.Some? ==> Opens(store.content, store.size, manifest, k.value) && Mapped(manifest, reachable)
    requires k.Some? ==>
               LoadedAs(store.content, store.size, hash, reachable,
                        store.content(manifest[k.value].descriptor.digest).value.root.value, visits, back)
    ensures back.Some? ==> back == Some(s) && Found(s, w) && store.content(w.root.metadata.digest) == Some(metadata)
    ensures WithinSlack(store, hash, s, w) ==> (back.Some? <==> Found(s, w))
  {
    DoneParts(store, respond, offered, hash, s, metadata, w);
    ManifestMapped(manifest, FinalLayers(w.layers, w.top), w.top.digest);
    hide Done, Published, FromFiles, Laid, Reusable, ManifestOf, Opens, Mapped, LoadedAs, FilesReach, Reaches,
      Publishable, HashText, EmptyFits, FinalLayers, Apart, InSlack, PlansOf, Splits, TopPublished;
    OpenedEntry(store, hash, s, metadata, w, manifest);
    EntryText(store, metadata, w);
    if k.Some? {
      assert store.content(manifest[k.value].descriptor.digest) == Some(EncodedRoot(w.root));
      MappedUnique(manifest, reachable, FinalLayers(w.layers, w.top));
      LoadedBack(store, hash, s, metadata, w, visits, back);
    }
  }

  lemma ManifestMapped(manifest: seq<Layer>, layers: map<string, Descriptor>, top: string)
    requires ManifestOf(manifest, layers, top)
    ensures Mapped(manifest, layers)
  {
  }
}

/** A publication that does not load: a file names the blob that the empty consumer tree is bound to reuse, and
    describes it differently (worker/snapshot.go:345-363, worker/catalog.go:99-130). */
module ReplacedLayers {
  import opened Catalog
  import opened CatalogPublish
  import opened CatalogRoundTrip
  import opened Names
  import opened Partition
  import opened SnapshotLayers
  import opened SnapshotPublish
  import opened Snapshots

  const EMPTY_LEAF := Encoded(Node(Some(map[]), None))

  function LogFile(d: Descriptor): File { File(d.(size := d.size + 1), 0, 1, d.digest) }

  /** A snapshot with one file, which says that it is part of the blob `d` but gives the blob another size. */
  function OverBlob(d: Descriptor): Snapshot { Snapshot(map["build.log" := LogFile(d)], map[], map[]) }

  function LogRecords(d: Descriptor): map<string, Record> {
    map["build.log" := Record(Some(LogFile(d)), None, None, None)]
  }

  /** The only node of its writer tree. */
  function LogLeaf(d: Descriptor): Raw { Encoded(Node(Some(LogRecords(d)), None)) }

  lemma OverBlobAccepted(d: Descriptor)
    requires IsDigest(d.digest) && 0 < d.size && d.size + 1 < BLOB_LIMIT
    ensures RecordsOk(OverBlob(d)) && NarinfosRead(OverBlob(d)) && SameBlobs(OverBlob(d).files)
    ensures forall n :: n in OverBlob(d).files ==> ValidFile(OverBlob(d).files[n])
  {
  }

  lemma OverBlobRecords(d: Descriptor)
    ensures ConsumerRecords(OverBlob(d)) == map[] && WriterRecords(OverBlob(d)) == LogRecords(d)
  {
    FirstChar("build.log", "cache/");
    assert !ConsumerFile("build.log");
  }

  lemma OverBlobPlans(store: Store, hash: Hash, d: Descriptor)
    requires store.size(EMPTY_LEAF) <= NODE_LIMIT && store.size(LogLeaf(d)) <= WRITER_LIMIT
    ensures Splits(store, hash, OverBlob(d))
    ensures PlansOf(store, hash, OverBlob(d)) == LeafPlans(d)
  {
    OverBlobRecords(d);
    hide ConsumerRecords, WriterRecords, OverBlob, LogRecords;
  }

  /** The blob holds a text with the hash of this one. */
  ghost predicate HasText(store: Store, d: Descriptor, raw: Raw) {
    Described(store, d) && store.rawHash(store.content(d.digest).value) == store.rawHash(raw)
  }

  ghost predicate Plausible(store: Store, metadata: Raw, d: Descriptor, root: Root) {
    HasText(store, root.index, EMPTY_LEAF) && HasText(store, root.writer, LogLeaf(d))
    && HasText(store, root.metadata, metadata)
  }

  /** The texts of this publication fit, and their upload is never refused. */
  ghost predicate Willing(store: Store, respond: Uploads, metadata: Raw, d: Descriptor) {
    && store.size(LogLeaf(d)) <= WRITER_LIMIT && store.size(metadata) <= CATALOG_LIMIT
    && (forall k :: respond(EMPTY_LEAF, k).Some?) && (forall k :: respond(LogLeaf(d), k).Some?)
    && (forall k :: respond(metadata, k).Some?)
    && (forall root, k :: Plausible(store, metadata, d, root) ==> respond(EncodedRoot(root), k).Some?)
    && (forall root :: Plausible(store, metadata, d, root) ==> store.size(EncodedRoot(root)) <= ROOT_LIMIT)
  }

  // ---- it is published

  ghost function LeafPlans(d: Descriptor): Plans { Plans(Leaf(map[]), Leaf(LogRecords(d))) }

  lemma LeafTexts(d: Descriptor, descriptors: map<Place, Descriptor>, p: Place)
    requires Writable(LeafPlans(d), descriptors, p)
    ensures TextOf(LeafPlans(d), descriptors, p) == (if p.consumer then EMPTY_LEAF else LogLeaf(d)) && p.path == ""
  {
  }

  lemma KeptText(store: Store, w: Work, d: Descriptor, p: Place)
    requires PlaceKept(store, w.reused, w.texts, LeafPlans(d), w.descriptors, p) && Reusable(store, w.texts, w.reused)
    ensures p in w.descriptors && HasText(store, w.descriptors[p], if p.consumer then EMPTY_LEAF else LogLeaf(d))
  {
    hide TextOf, Writable;
    LeafTexts(d, w.descriptors, p);
  }

  lemma PlausibleRoot(store: Store, w: Work, metadata: Raw, d: Descriptor)
    requires Reusable(store, w.texts, w.reused) && Rooted(w.root, w.descriptors)
             && MetadataKept(store, w.reused, metadata, w.root)
    requires forall p :: p in w.descriptors ==> PlaceKept(store, w.reused, w.texts, LeafPlans(d), w.descriptors, p)
    ensures Plausible(store, metadata, d, w.root)
  {
    hide PlaceKept, HasText;
    KeptText(store, w, d, Place(true, ""));
    KeptText(store, w, d, Place(false, ""));
    MetadataText(store, w, metadata);
  }

  lemma MetadataText(store: Store, w: Work, metadata: Raw)
    requires Reusable(store, w.texts, w.reused) && MetadataKept(store, w.reused, metadata, w.root)
    ensures HasText(store, w.root.metadata, metadata)
  {
  }

  lemma WillingAnswers(store: Store, respond: Uploads, hash: Hash, metadata: Raw, d: Descriptor, w: Work)
    requires Willing(store, respond, metadata, d) && EmptyFits(store) && Reusable(store, w.texts, w.reused)
    requires Tries(store, hash, OverBlob(d), metadata, w.root, w.descriptors, w.reused, w.texts, w.asked, 0)
    ensures !Fails(store, respond, hash, OverBlob(d), metadata, w.root, w.descriptors, w.reused, w.asked, 0)
  {
    OverBlobPlans(store, hash, d);
    hide Splits, PlansOf, Plausible, PlaceKept, Reusable, TooLarge, Refused, Writes, Willing, LeafPlans, OverBlob;
    WillingParts(store, respond, metadata, d);
    if Rooted(w.root, w.descriptors) && MetadataKept(store, w.reused, metadata, w.root) {
      PlausibleRoot(store, w, metadata, d);
    }
    LeavesFit(store, respond, metadata, d, w);
    TextsAnswered(store, respond, metadata, d, w);
  }

  lemma WillingParts(store: Store, respond: Uploads, metadata: Raw, d: Descriptor)
    requires Willing(store, respond, metadata, d)
    ensures store.size(metadata) <= CATALOG_LIMIT
    ensures forall root :: Plausible(store, metadata, d, root) ==> store.size(EncodedRoot(root)) <= ROOT_LIMIT
  {
    hide Plausible, EncodedRoot;
  }

  lemma LeavesFit(store: Store, respond: Uploads, metadata: Raw, d: Descriptor, w: Work)
    requires Willing(store, respond, metadata, d) && EmptyFits(store)
    ensures forall p :: !TooLarge(store, LeafPlans(d), w.descriptors, p)
  {
    hide Plausible, Writable, TextOf, LeafPlans, LogLeaf;
    forall p
      ensures !TooLarge(store, LeafPlans(d), w.descriptors, p)
    {
      if Writable(LeafPlans(d), w.descriptors, p) { LeafTexts(d, w.descriptors, p); }
    }
  }

  lemma TextsAnswered(store: Store, respond: Uploads, metadata: Raw, d: Descriptor, w: Work)
    requires Willing(store, respond, metadata, d)
    requires forall k :: 0 <= k < |w.asked| ==>
               || Writes(LeafPlans(d), w.descriptors, w.asked[k]) || w.asked[k] == metadata
               || (w.asked[k] == EncodedRoot(w.root) && Plausible(store, metadata, d, w.root))
    ensures !Refused(respond, w.asked, 0)
  {
    hide Plausible, Writable, TextOf, LeafPlans, LogLeaf, EncodedRoot;
    forall k | 0 <= k < |w.asked|
      ensures respond(w.asked[k], k).Some?
    {
      if Writes(LeafPlans(d), w.descriptors, w.asked[k]) {
        var p :| Writable(LeafPlans(d), w.descriptors, p) && w.asked[k] == TextOf(LeafPlans(d), w.descriptors, p);
        LeafTexts(d, w.descriptors, p);
      }
    }
  }

  // ---- and it does not load

  lemma LogContested(store: Store, offered: map<string, Descriptor>, hash: Hash, metadata: Raw, d: Descriptor)
    requires offered == map[store.rawHash(EMPTY_LEAF) := d] && Splits(store, hash, OverBlob(d))
    requires PlansOf(store, hash, OverBlob(d)) == LeafPlans(d)
    ensures !Uncontested(store, offered, hash, OverBlob(d), metadata)
  {
    hide Splits, PlansOf, BoundEntry;
    assert BoundAt(store, offered, LeafPlans(d), Place(true, ""), OverBlob(d).files["build.log"].blob);
  }

  lemma OfferFits(store: Store, d: Descriptor, offered: map<string, Descriptor>)
    requires Carries(store, d, EMPTY_LEAF) && offered == map[store.rawHash(EMPTY_LEAF) := d]
    ensures Reusable(store, Offered(store, offered), offered)
  {
    assert store.rawHash(EMPTY_LEAF) in offered && EMPTY_LEAF in Offered(store, offered);
  }

  /** Such a snapshot is published whenever its texts fit and are not refused, and what was published does not load. */
  method PublishOverBlob(store: Store, respond: Uploads, hash: Hash, metadata: Raw, d: Descriptor)
    returns (published: bool, back: Option<Snapshot>, ghost w: Work)
    requires HashText(hash) && Honest(store, respond) && EmptyFits(store) && metadata.metadata
    requires Carries(store, d, EMPTY_LEAF) && d.size + 1 < BLOB_LIMIT
    ensures published
            <==> !Fails(store, respond, hash, OverBlob(d), metadata, w.root, w.descriptors, w.reused, w.asked, 0)
    ensures Willing(store, respond, metadata, d) ==> published
    ensures published ==> Done(store, respond, map[store.rawHash(EMPTY_LEAF) := d], hash, OverBlob(d), metadata, w)
    ensures published && Apart(store.rawHash, w.texts) ==>
              back.None? && !FilesReach(FinalLayers(w.layers, w.top), OverBlob(d))
  {
    hide HashText, Honest, Reusable, Offered, Done, Apart, FilesReach, FinalLayers, OverBlob, Fails, Tries, Willing,
      Publishable, WithinSlack, Fresh, AllSnug, Found, RecordsOk, SameBlobs, ValidFile, NarinfosRead, EmptyFits,
      Uncontested;
    OverBlobAccepted(d);
    var offered := map[store.rawHash(EMPTY_LEAF) := d];
    OfferFits(store, d, offered);
    published, back, w := PublishThenLoad(store, respond, offered, hash, OverBlob(d), Some(metadata));
    if Willing(store, respond, metadata, d) { WillingAnswers(store, respond, hash, metadata, d, w); }
    if published && Apart(store.rawHash, w.texts) { NotFound(store, respond, offered, hash, metadata, d, w); }
  }

  lemma NotFound(store: Store, respond: Uploads, offered: map<string, Descriptor>, hash: Hash, metadata: Raw,
                 d: Descriptor, w: Work)
    requires HashText(hash) && EmptyFits(store) && offered == map[store.rawHash(EMPTY_LEAF) := d]
    requires Done(store, respond, offered, hash, OverBlob(d), metadata, w) && Apart(store.rawHash, w.texts)
    ensures !FilesReach(FinalLayers(w.layers, w.top), OverBlob(d))
    ensures !Uncontested(store, offered, hash, OverBlob(d), metadata)
  {
    SplitsAt(store, hash, d);
    LogContested(store, offered, hash, metadata, d);
    FilesFound(store, respond, offered, hash, OverBlob(d), metadata, w);
    hide FilesReach, FinalLayers, Contested, PlansOf, Splits;
  }

  /** When the records of the snapshot can be placed, there is one leaf in each tree. */
  lemma SplitsAt(store: Store, hash: Hash, d: Descriptor)
    requires EmptyFits(store) && HashText(hash)
    ensures Splits(store, hash, OverBlob(d)) ==> PlansOf(store, hash, OverBlob(d)) == LeafPlans(d)
  {
    OverBlobRecords(d);
    hide ConsumerRecords, WriterRecords, OverBlob, LogRecords;
    assert |LogRecords(d)| == 1 by { OneRecord(d); }
  }

  lemma OneRecord(d: Descriptor)
    ensures |LogRecords(d)| == 1
  {
  }

  // ---- one store where this happens

  function BlobDigest(c: char): string
    requires '0' <= c <= '9'
    ensures IsDigest(BlobDigest(c)) && BlobDigest(c)[70] == c
  {
    "sha256:" + seq(63, _ => '0') + [c]
  }

  function Blob(c: char): Descriptor
    requires '0' <= c <= '9'
  {
    Descriptor(BlobDigest(c), "application/octet-stream", 100)
  }

  const METADATA := Raw(None, None, true, 0)

  function LogRoot(): Root { Root(Blob('1'), Blob('2'), Blob('3')) }

  /** The four texts of the publication, under a letter each. */
  function Letter(raw: Raw): char {
    if raw == EMPTY_LEAF then '1' else if raw == LogLeaf(Blob('1')) then '2' else if raw == METADATA then '3'
    else if raw == EncodedRoot(LogRoot()) then '4' else '5'
  }

  function Text(digest: string): Option<Raw> {
    if digest == BlobDigest('1') then Some(EMPTY_LEAF) else if digest == BlobDigest('2') then Some(LogLeaf(Blob('1')))
    else if digest == BlobDigest('3') then Some(METADATA) else if digest == BlobDigest('4') then
      Some(EncodedRoot(LogRoot()))
    else None
  }

  function LogStore(): Store {
    Store(digest => Text(digest), _ => 100, raw => [Letter(raw)],
          digest => Descriptor(digest, "application/octet-stream", 100))
  }

  function Respond(raw: Raw, k: nat): Option<Descriptor> { if Letter(raw) < '5' then Some(Blob(Letter(raw))) else None }

  lemma LettersText()
    ensures Letter(EMPTY_LEAF) == '1' && Letter(LogLeaf(Blob('1'))) == '2' && Letter(METADATA) == '3'
    ensures Letter(EncodedRoot(LogRoot())) == '4'
    ensures forall digest ::
              Text(digest).Some? ==>
                digest == BlobDigest(Letter(Text(digest).value)) && Letter(Text(digest).value) < '5'
    ensures forall raw :: Letter(raw) < '5' ==> Text(BlobDigest(Letter(raw))) == Some(raw)
  {
    assert BlobDigest('1') != BlobDigest('2') && BlobDigest('1') != BlobDigest('3')
           && BlobDigest('1') != BlobDigest('4');
    assert BlobDigest('2') != BlobDigest('3') && BlobDigest('2') != BlobDigest('4')
           && BlobDigest('3') != BlobDigest('4');
    assert LogLeaf(Blob('1')).node.value.records.value != map[] by { assert "build.log" in LogRecords(Blob('1')); }
  }

  lemma LogStoreFits()
    ensures Honest(LogStore(), Respond) && EmptyFits(LogStore()) && Carries(LogStore(), Blob('1'), EMPTY_LEAF)
    ensures forall d, raw :: HasText(LogStore(), d, raw) && Letter(raw) < '5' ==> d == Blob(Letter(raw))
  {
    LettersText();
    hide Letter, Text, BlobDigest;
  }

  lemma LogPlausible(root: Root)
    requires Plausible(LogStore(), METADATA, Blob('1'), root)
    ensures root == LogRoot()
  {
    LettersText();
    LogStoreFits();
    hide HasText, Letter, Text, LogStore;
  }

  lemma LogWilling()
    ensures Willing(LogStore(), Respond, METADATA, Blob('1'))
  {
    LettersText();
    hide Letter, Plausible, EncodedRoot, LogLeaf;
    forall root | Plausible(LogStore(), METADATA, Blob('1'), root)
      ensures root == LogRoot()
    {
      LogPlausible(root);
    }
  }

  lemma LogRooted(hash: Hash, offered: map<string, Descriptor>, w: Work)
    requires Done(LogStore(), Respond, offered, hash, OverBlob(Blob('1')), METADATA, w)
    requires PlansOf(LogStore(), hash, OverBlob(Blob('1'))) == LeafPlans(Blob('1'))
    ensures w.root == LogRoot()
  {
    hide PlaceKept, Splits, PlansOf, Plausible, FromFiles, Laid, Asks, Published, Sourced;
    PlausibleRoot(LogStore(), w, METADATA, Blob('1'));
    LogPlausible(w.root);
  }

  lemma LettersApart(texts: set<Raw>)
    requires forall raw :: raw in texts ==> Letter(raw) < '5'
    ensures Apart(LogStore().rawHash, texts)
  {
    LettersText();
    hide Letter, Text, BlobDigest;
    forall a, b | a in texts && b in texts && LogStore().rawHash(a) == LogStore().rawHash(b)
      ensures a == b
    {
      assert LogStore().rawHash(a)[0] == Letter(a) && LogStore().rawHash(b)[0] == Letter(b);
    }
  }

  lemma OfferedLeaf(offered: map<string, Descriptor>)
    requires offered == map[LogStore().rawHash(EMPTY_LEAF) := Blob('1')]
    ensures forall raw :: raw in Offered(LogStore(), offered) ==> raw == EMPTY_LEAF
  {
    LogStoreFits();
    hide Letter, Text, BlobDigest;
  }

  lemma LogApart(hash: Hash, offered: map<string, Descriptor>, w: Work)
    requires HashText(hash) && offered == map[LogStore().rawHash(EMPTY_LEAF) := Blob('1')]
    requires Done(LogStore(), Respond, offered, hash, OverBlob(Blob('1')), METADATA, w)
    ensures Apart(LogStore().rawHash, w.texts)
  {
    hide *;
    LogStoreFits();
    LettersText();
    SplitsAt(LogStore(), hash, Blob('1'));
    DoneLayers(LogStore(), Respond, offered, hash, OverBlob(Blob('1')), METADATA, w);
    LogRooted(hash, offered, w);
    LogAsks(hash, offered, w);
    OfferedLeaf(offered);
    LogLetters(offered, w);
    LettersApart(w.texts);
  }

  lemma LogLetters(offered: map<string, Descriptor>, w: Work)
    requires forall raw :: raw in Offered(LogStore(), offered) ==> raw == EMPTY_LEAF
    requires forall raw :: raw in w.texts ==>
               raw in Offered(LogStore(), offered) + {METADATA, EncodedRoot(LogRoot())}
               || exists p ::
                    Given(LeafPlans(Blob('1')), w.descriptors, p)
                    && raw == TextOf(LeafPlans(Blob('1')), w.descriptors, p)
    ensures forall raw :: raw in w.texts ==> Letter(raw) < '5'
  {
    LettersText();
    hide LogStore, Letter, Text, BlobDigest, EncodedRoot, LogLeaf, LeafPlans, TextOf, Writable, Offered;
    forall raw | raw in w.texts
      ensures Letter(raw) < '5'
    {
      if raw !in Offered(LogStore(), offered) + {METADATA, EncodedRoot(LogRoot())} {
        var p :| Given(LeafPlans(Blob('1')), w.descriptors, p) && raw == TextOf(LeafPlans(Blob('1')), w.descriptors, p);
        LeafTexts(Blob('1'), w.descriptors, p);
      }
    }
  }

  lemma LogAsks(hash: Hash, offered: map<string, Descriptor>, w: Work)
    requires Done(LogStore(), Respond, offered, hash, OverBlob(Blob('1')), METADATA, w) && w.root == LogRoot()
    requires PlansOf(LogStore(), hash, OverBlob(Blob('1'))) == LeafPlans(Blob('1'))
    ensures forall raw :: raw in w.texts ==>
              raw in Offered(LogStore(), offered) + {METADATA, EncodedRoot(LogRoot())}
              || exists p ::
                   Given(LeafPlans(Blob('1')), w.descriptors, p)
                   && raw == TextOf(LeafPlans(Blob('1')), w.descriptors, p)
  {
    hide LogStore, OverBlob, Offered, EncodedRoot, Given, TextOf, PlansOf, Splits;
  }

  /** On this store the snapshot is published, and what was published does not load. */
  method PublishedAndLost(hash: Hash) returns (published: bool, back: Option<Snapshot>)
    requires HashText(hash)
    ensures published && back.None?
  {
    LogStoreFits();
    LogWilling();
    hide LogStore, Respond, Apart, Done, FilesReach, FinalLayers, Fails, Willing, Honest, EmptyFits, Carries, OverBlob;
    ghost var w;
    published, back, w := PublishOverBlob(LogStore(), Respond, hash, METADATA, Blob('1'));
    LogApart(hash, map[LogStore().rawHash(EMPTY_LEAF) := Blob('1')], w);
  }
}

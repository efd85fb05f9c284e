/** The layers of a published manifest, and which files still reach their blobs in them: the catalog's layers replace
    those of the files where they have the same digest (worker/snapshot.go:345-363, worker/catalog.go:99-130). */
module SnapshotLayers {
  import opened Catalog
  import opened CatalogOpen
  import opened CatalogPublish
  import opened CatalogRoundTrip
  import opened CatalogWalk
  import opened Names
  import opened Partition
  import opened Snapshots

  /** What a publication did: the layers of the files, the layers after the catalog was uploaded, the blobs that were
      given out, the texts that were offered or given a blob, and those that were sent, in the order of the requests. */
  datatype Work = Work(
    base: map<string, Descriptor>, layers: map<string, Descriptor>, reused: map<string, Descriptor>, texts: set<Raw>,
    asked: seq<Raw>, root: Root, top: Descriptor, descriptors: map<Place, Descriptor>)

  function Titled(top: Descriptor): Descriptor { top.(mediaType := ROOT_MEDIA) }

  /** The manifest's layers: the catalog's entry replaces whatever else has its digest (line 363). */
  function FinalLayers(layers: map<string, Descriptor>, top: Descriptor): map<string, Descriptor> {
    layers[top.digest := Titled(top)]
  }

  /** A publication that succeeded: every place, the metadata and the root have the blob under their text's hash, which
      was on offer or uploaded. */
  ghost predicate Done(store: Store, respond: Uploads, offered: map<string, Descriptor>, hash: Hash, s: Snapshot,
                       metadata: Raw, w: Work) {
    && FromFiles(s.files, w.base) && Laid(w.base, w.layers, w.reused) && Reusable(store, w.texts, w.reused)
    && Sourced(store, respond, offered, w.reused, w.asked) && Splits(store, hash, s)
    && Asks(store, hash, s, metadata, w.root, w.descriptors, Offered(store, offered), w.texts)
    && AllPlaced(store, PlansOf(store, hash, s), w)
    && (forall p :: p in w.descriptors ==> PlanAt(PlansOf(store, hash, s), p).Some?)
    && TopKept(store, w.reused, metadata, w.root, w.top) && Rooted(w.root, w.descriptors)
    && (forall h ::
          h in w.reused ==>
            GivenTo(w.descriptors, w.reused[h]) || w.reused[h] == w.root.metadata || w.reused[h] == w.top)
    && (Apart(store.rawHash, w.texts) ==> Published(store, hash, s, metadata, w.layers, w.root, w.top, w.descriptors))
  }

  ghost predicate AllPlaced(store: Store, plans: Plans, w: Work) {
    forall p :: PlanAt(plans, p).Some? ==> PlaceKept(store, w.reused, w.texts, plans, w.descriptors, p)
  }

  // ---- the final layers

  /** A place of the trees never has the digest of the catalog's entry, so its layer is still there. */
  lemma FinalPlaces(store: Store, hash: Hash, s: Snapshot, metadata: Raw, w: Work)
    requires Published(store, hash, s, metadata, w.layers, w.root, w.top, w.descriptors)
    ensures PlacesStored(store, PlansOf(store, hash, s), FinalLayers(w.layers, w.top),
                         Roots(w.root.index, w.root.writer), w.descriptors)
  {
    var plans := PlansOf(store, hash, s);
    hide Splits, PlansOf, PlanAt;
    forall p | PlanAt(plans, p).Some?
      ensures PlaceStored(store, plans, FinalLayers(w.layers, w.top), w.descriptors, p)
    {
      FinalPlace(store, plans, metadata, w, p);
    }
  }

  lemma FinalPlace(store: Store, plans: Plans, metadata: Raw, w: Work, p: Place)
    requires PlaceStored(store, plans, w.layers, w.descriptors, p)
             && TopPublished(store, metadata, w.layers, w.root, w.top)
    ensures PlaceStored(store, plans, FinalLayers(w.layers, w.top), w.descriptors, p)
  {
    hide PlanAt, NodeOf, Described;
    assert store.content(w.descriptors[p].digest).value.root.None?;
  }

  lemma FinalTop(layers: map<string, Descriptor>, top: Descriptor)
    ensures top.digest in FinalLayers(layers, top) && FinalLayers(layers, top)[top.digest] == Titled(top)
    ensures Titled(top).digest == top.digest && Titled(top).mediaType == ROOT_MEDIA && Titled(top).size == top.size
  {
  }

  lemma PublishedParts(store: Store, hash: Hash, s: Snapshot, metadata: Raw, w: Work)
    requires Published(store, hash, s, metadata, w.layers, w.root, w.top, w.descriptors)
    ensures Splits(store, hash, s) && TopPublished(store, metadata, w.layers, w.root, w.top)
  {
  }

  lemma EntryText(store: Store, metadata: Raw, w: Work)
    requires TopPublished(store, metadata, w.layers, w.root, w.top)
    ensures EncodedRoot(w.root).root == Some(w.root)
    ensures store.content(w.top.digest) == Some(EncodedRoot(w.root)) && store.size(EncodedRoot(w.root)) <= ROOT_LIMIT
            && Described(store, w.top)
    ensures Fits(store.content, store.size, w.root.metadata, CATALOG_LIMIT)
            <==> w.root.metadata.size <= CATALOG_LIMIT + CIPHER_SLACK
    ensures store.content(w.root.metadata.digest) == Some(metadata)
  {
  }

  /** Every file still reaches its blob in the final layers, and so does the metadata. */
  ghost predicate Found(s: Snapshot, w: Work) {
    FilesReach(FinalLayers(w.layers, w.top), s) && Reaches(FinalLayers(w.layers, w.top), w.root.metadata)
  }

  /** No blob of the catalog exceeds what its readers allow. */
  ghost predicate WithinSlack(store: Store, hash: Hash, s: Snapshot, w: Work) {
    && Splits(store, hash, s) && InSlack(PlansOf(store, hash, s), w.descriptors)
    && w.top.size <= ROOT_LIMIT + CIPHER_SLACK && w.root.metadata.size <= CATALOG_LIMIT + CIPHER_SLACK
  }

  /** Metadata that is not itself a root never has the digest of the catalog's entry. */
  lemma MetadataStays(store: Store, s: Snapshot, metadata: Raw, w: Work)
    requires TopPublished(store, metadata, w.layers, w.root, w.top) && metadata.root.None?
    ensures Found(s, w) <==> FilesReach(FinalLayers(w.layers, w.top), s)
  {
    hide FilesReach;
    assert w.root.metadata.digest != w.top.digest;
  }

  lemma DoneParts(store: Store, respond: Uploads, offered: map<string, Descriptor>, hash: Hash, s: Snapshot,
                  metadata: Raw, w: Work)
    requires Done(store, respond, offered, hash, s, metadata, w) && Apart(store.rawHash, w.texts) && Publishable(s)
    ensures FromFiles(s.files, w.base) && Laid(w.base, w.layers, w.reused) && Reusable(store, w.texts, w.reused)
    ensures Published(store, hash, s, metadata, w.layers, w.root, w.top, w.descriptors)
            && TopPublished(store, metadata, w.layers, w.root, w.top)
    ensures forall n :: n in s.files ==> ValidFile(s.files[n])
  {
    PublishedParts(store, hash, s, metadata, w);
  }

  ghost predicate SameDescription(a: Descriptor, b: Descriptor) { a.size == b.size && a.mediaType == b.mediaType }

  /** Every blob of the catalog with this digest has this description. */
  ghost predicate Undisputed(w: Work, blob: Descriptor) {
    if blob.digest == w.top.digest then SameDescription(Titled(w.top), blob)
    else forall h :: h in w.reused && w.reused[h].digest == blob.digest ==> SameDescription(w.reused[h], blob)
  }

  /** A file reaches its blob in the final layers exactly when every blob of the catalog with that digest is described
      as the file describes it. */
  lemma FileStillReached(w: Work, files: map<string, File>, n: string)
    requires FromFiles(files, w.base) && Laid(w.base, w.layers, w.reused) && n in files
    ensures Reaches(FinalLayers(w.layers, w.top), files[n].blob) <==> Undisputed(w, files[n].blob)
  {
    var (d, blob) := (files[n].blob.digest, files[n].blob);
    assert FileOk(w.base, files[n]);
    if d != w.top.digest && Reaches(w.layers, blob) {
      forall h | h in w.reused && w.reused[h].digest == d
        ensures SameDescription(w.reused[h], blob)
      {
        assert w.layers[w.reused[h].digest] == w.reused[h];
      }
    }
    if d != w.top.digest && !(w.layers[d] == w.base[d]) {
      assert GivenOut(w.reused, w.layers[d]);
      var h :| h in w.reused && w.reused[h] == w.layers[d];
    }
  }

  // ---- the blobs that a publication is bound to reuse

  function Lookup(offered: map<string, Descriptor>, h: string): Option<Descriptor> {
    if h in offered then Some(offered[h]) else None
  }

  /** The blob that a subtree is bound to be given: the one on offer for its text, when the blobs of its children, and
      so its text, are certain. */
  ghost function Bound(store: Store, offered: map<string, Descriptor>, plan: Plan): Option<Descriptor> {
    match plan
    case Leaf(records) => Lookup(offered, store.rawHash(Encoded(Node(Some(records), None))))
    case Branch(children) =>
      if forall nibble :: nibble in children ==> Bound(store, offered, children[nibble]).Some? then
        var node := Node(None, Some(map nibble | nibble in children :: Bound(store, offered, children[nibble]).value));
        Lookup(offered, store.rawHash(Encoded(node)))
      else None
  }

  /** The same for the entry, which names the roots of both trees and the metadata. */
  ghost function BoundEntry(store: Store, offered: map<string, Descriptor>, plans: Plans, metadata: Raw)
    : Option<Descriptor>
  {
    var index, writer := Bound(store, offered, plans.index), Bound(store, offered, plans.writer);
    var meta := Lookup(offered, store.rawHash(metadata));
    if index.Some? && writer.Some? && meta.Some? then
      Lookup(offered, store.rawHash(EncodedRoot(Root(index.value, writer.value, meta.value))))
    else None
  }

  ghost predicate Disputes(d: Descriptor, blob: Descriptor) { d.digest == blob.digest && !SameDescription(d, blob) }

  ghost predicate BoundAt(store: Store, offered: map<string, Descriptor>, plans: Plans, p: Place, blob: Descriptor) {
    && PlanAt(plans, p).Some? && Bound(store, offered, PlanAt(plans, p).value).Some?
    && Disputes(Bound(store, offered, PlanAt(plans, p).value).value, blob)
  }

  /** A blob that the publication is bound to reuse has the digest of `blob` with another description. */
  ghost predicate Contested(store: Store, offered: map<string, Descriptor>, plans: Plans, metadata: Raw,
                            blob: Descriptor) {
    || (exists p :: BoundAt(store, offered, plans, p, blob))
    || (metadata.root.None? && Lookup(offered, store.rawHash(metadata)).Some?
        && Disputes(Lookup(offered, store.rawHash(metadata)).value, blob))
    || (BoundEntry(store, offered, plans, metadata).Some?
        && Disputes(Titled(BoundEntry(store, offered, plans, metadata).value), blob))
  }

  /** The text names the digest as a child, a tree or the metadata. */
  ghost predicate Mentions(raw: Raw, digest: string) {
    || (raw.node.Some?
        && exists nibble :: nibble in Children(raw.node.value) && Children(raw.node.value)[nibble].digest == digest)
    || (raw.root.Some?
        && digest in {raw.root.value.index.digest, raw.root.value.writer.digest, raw.root.value.metadata.digest})
  }

  /** An upload never gets the digest of a file's blob, nor one that a blob on offer mentions: encryption is randomised,
      so the digest of a new blob is new. */
  ghost predicate Fresh(store: Store, respond: Uploads, offered: map<string, Descriptor>, files: map<string, File>) {
    forall raw, k :: respond(raw, k).Some? ==> New(store, offered, files, respond(raw, k).value.digest)
  }

  ghost predicate New(store: Store, offered: map<string, Descriptor>, files: map<string, File>, digest: string) {
    && (forall n :: n in files ==> files[n].blob.digest != digest)
    && (forall h :: h in offered && store.content(offered[h].digest).Some? ==>
          !Mentions(store.content(offered[h].digest).value, digest))
  }

  // ---- they are reused

  lemma ChildPlace(plans: Plans, p: Place, nibble: string)
    requires FitsDepth(plans) && PlanAt(plans, p).Some? && PlanAt(plans, p).value.Branch?
    requires nibble in PlanAt(plans, p).value.children
    ensures PlanAt(plans, Child(p, nibble)) == Some(PlanAt(plans, p).value.children[nibble])
  {
    SubAppend(PlanOf(plans, p.consumer), p.path, nibble);
  }

  lemma KeptSource(store: Store, respond: Uploads, offered: map<string, Descriptor>, plans: Plans, w: Work, p: Place)
    requires PlaceKept(store, w.reused, w.texts, plans, w.descriptors, p)
    requires Sourced(store, respond, offered, w.reused, w.asked)
    ensures var h := store.rawHash(TextOf(plans, w.descriptors, p));
            if h in offered then w.descriptors[p] == offered[h]
            else Answered(store, respond, w.asked, h, w.descriptors[p])
  {
    hide TextOf, Answered;
  }

  lemma {:induction false} BoundGiven(store: Store, respond: Uploads, offered: map<string, Descriptor>, plans: Plans,
                                      w: Work, p: Place)
    requires AllPlaced(store, plans, w) && Sourced(store, respond, offered, w.reused, w.asked) && FitsDepth(plans)
    requires PlanAt(plans, p).Some? && Bound(store, offered, PlanAt(plans, p).value).Some?
    ensures p in w.descriptors && Some(w.descriptors[p]) == Bound(store, offered, PlanAt(plans, p).value)
    decreases PlanAt(plans, p).value
  {
    assert PlaceKept(store, w.reused, w.texts, plans, w.descriptors, p);
    KeptSource(store, respond, offered, plans, w, p);
    var plan := PlanAt(plans, p).value;
    if plan.Branch? {
      hide AllPlaced, Sourced, FitsDepth, Answered, PlanAt;
      forall nibble | nibble in plan.children
        ensures Child(p, nibble) in w.descriptors
        ensures Some(w.descriptors[Child(p, nibble)]) == Bound(store, offered, plan.children[nibble])
      {
        ChildPlace(plans, p, nibble);
        BoundGiven(store, respond, offered, plans, w, Child(p, nibble));
      }
      assert NodeOf(plan, p, w.descriptors).children.value
             == map nibble | nibble in plan.children :: Bound(store, offered, plan.children[nibble]).value;
    }
  }

  /** An upload's digest is new. */
  lemma AnsweredNew(store: Store, respond: Uploads, offered: map<string, Descriptor>, files: map<string, File>,
                    asked: seq<Raw>, h: string, d: Descriptor)
    requires Fresh(store, respond, offered, files) && Answered(store, respond, asked, h, d)
    ensures New(store, offered, files, d.digest)
  {
    hide New;
    var k :| 0 <= k < |asked| && store.rawHash(asked[k]) == h && respond(asked[k], k) == Some(d);
  }

  /** What a blob on offer mentions was on offer. */
  lemma MentionedOffered(store: Store, respond: Uploads, offered: map<string, Descriptor>, files: map<string, File>,
                         w: Work, h: string, k: string)
    requires Fresh(store, respond, offered, files) && Sourced(store, respond, offered, w.reused, w.asked)
    requires h in offered && store.content(offered[h].digest).Some? && k in w.reused
    requires Mentions(store.content(offered[h].digest).value, w.reused[k].digest)
    ensures k in offered && w.reused[k] == offered[k]
  {
    hide Mentions, Answered, Fresh;
    if k !in offered {
      AnsweredNew(store, respond, offered, files, w.asked, k, w.reused[k]);
      assert false;
    }
  }

  lemma ChildMentioned(plans: Plans, descriptors: map<Place, Descriptor>, p: Place, nibble: string)
    requires Writable(plans, descriptors, p) && PlanAt(plans, p).value.Branch?
    requires nibble in PlanAt(plans, p).value.children
    ensures Child(p, nibble) in descriptors
    ensures Mentions(TextOf(plans, descriptors, p), descriptors[Child(p, nibble)].digest)
  {
    var children := Children(NodeOf(PlanAt(plans, p).value, p, descriptors));
    assert nibble in children && children[nibble] == descriptors[Child(p, nibble)];
  }

  /** A place whose text's hash is on offer is bound to its blob: its children must have been on offer too. */
  lemma {:induction false} GivenBound(store: Store, respond: Uploads, offered: map<string, Descriptor>,
                                      files: map<string, File>, plans: Plans, w: Work, p: Place)
    requires AllPlaced(store, plans, w) && Sourced(store, respond, offered, w.reused, w.asked) && FitsDepth(plans)
    requires Fresh(store, respond, offered, files) && PlanAt(plans, p).Some? && TreesStored(store, plans, w)
    requires Writable(plans, w.descriptors, p) && store.rawHash(TextOf(plans, w.descriptors, p)) in offered
    ensures p in w.descriptors && Bound(store, offered, PlanAt(plans, p).value) == Some(w.descriptors[p])
    decreases PlanAt(plans, p).value
  {
    assert PlaceKept(store, w.reused, w.texts, plans, w.descriptors, p);
    KeptSource(store, respond, offered, plans, w, p);
    var (plan, h) := (PlanAt(plans, p).value, store.rawHash(TextOf(plans, w.descriptors, p)));
    if plan.Branch? {
      TextThere(store, plans, w, p);
      assert store.content(offered[h].digest) == Some(TextOf(plans, w.descriptors, p));
      hide AllPlaced, TreesStored, Sourced, FitsDepth, Fresh, Answered, PlanAt, Mentions, TextOf;
      forall nibble | nibble in plan.children
        ensures Child(p, nibble) in w.descriptors
        ensures Bound(store, offered, plan.children[nibble]) == Some(w.descriptors[Child(p, nibble)])
      {
        var c := Child(p, nibble);
        ChildPlace(plans, p, nibble);
        ChildMentioned(plans, w.descriptors, p, nibble);
        ChildOffered(store, respond, offered, files, plans, w, h, c);
        GivenBound(store, respond, offered, files, plans, w, c);
      }
      BranchBound(store, offered, plans, w, p);
    }
  }

  lemma BranchBound(store: Store, offered: map<string, Descriptor>, plans: Plans, w: Work, p: Place)
    requires Given(plans, w.descriptors, p) && PlanAt(plans, p).value.Branch?
    requires forall nibble :: nibble in PlanAt(plans, p).value.children ==>
               Bound(store, offered, PlanAt(plans, p).value.children[nibble]) == Some(w.descriptors[Child(p, nibble)])
    ensures Bound(store, offered, PlanAt(plans, p).value)
            == Lookup(offered, store.rawHash(TextOf(plans, w.descriptors, p)))
  {
    hide PlanAt;
    var plan := PlanAt(plans, p).value;
    assert NodeOf(plan, p, w.descriptors).children.value
           == map nibble | nibble in plan.children :: Bound(store, offered, plan.children[nibble]).value;
  }

  ghost predicate TreesStored(store: Store, plans: Plans, w: Work) {
    forall p :: PlanAt(plans, p).Some? ==> PlaceStored(store, plans, w.layers, w.descriptors, p)
  }

  lemma TextThere(store: Store, plans: Plans, w: Work, p: Place)
    requires TreesStored(store, plans, w) && PlanAt(plans, p).Some?
    ensures Given(plans, w.descriptors, p)
    ensures store.content(w.descriptors[p].digest) == Some(TextOf(plans, w.descriptors, p))
  {
    hide PlanAt, TextOf;
    assert PlaceStored(store, plans, w.layers, w.descriptors, p);
  }

  lemma ChildOffered(store: Store, respond: Uploads, offered: map<string, Descriptor>, files: map<string, File>,
                     plans: Plans, w: Work, h: string, c: Place)
    requires Fresh(store, respond, offered, files) && Sourced(store, respond, offered, w.reused, w.asked)
    requires AllPlaced(store, plans, w) && PlanAt(plans, c).Some? && c in w.descriptors
    requires h in offered && store.content(offered[h].digest).Some?
    requires Mentions(store.content(offered[h].digest).value, w.descriptors[c].digest)
    ensures Writable(plans, w.descriptors, c) && store.rawHash(TextOf(plans, w.descriptors, c)) in offered
  {
    hide Mentions, TextOf, Fresh, Sourced, PlanAt;
    assert PlaceKept(store, w.reused, w.texts, plans, w.descriptors, c);
    MentionedOffered(store, respond, offered, files, w, h, store.rawHash(TextOf(plans, w.descriptors, c)));
  }

  // ---- which files reach their blobs

  lemma DoneTrees(store: Store, respond: Uploads, offered: map<string, Descriptor>, hash: Hash, s: Snapshot,
                  metadata: Raw, w: Work)
    requires HashText(hash) && Done(store, respond, offered, hash, s, metadata, w) && Apart(store.rawHash, w.texts)
    ensures AllPlaced(store, PlansOf(store, hash, s), w) && TreesStored(store, PlansOf(store, hash, s), w)
    ensures Sourced(store, respond, offered, w.reused, w.asked) && FitsDepth(PlansOf(store, hash, s))
    ensures TopKept(store, w.reused, metadata, w.root, w.top) && Rooted(w.root, w.descriptors)
    ensures TopPublished(store, metadata, w.layers, w.root, w.top)
  {
    SplitsFit(store, hash, ConsumerRecords(s), WriterRecords(s));
    hide Split, ConsumerRecords, WriterRecords, FitsDepth, PlaceKept, PlaceStored;
  }

  /** Neither a node's blob nor the metadata's has the digest of the entry. */
  lemma EntryApart(store: Store, plans: Plans, metadata: Raw, w: Work)
    requires TreesStored(store, plans, w) && TopPublished(store, metadata, w.layers, w.root, w.top)
    ensures forall p :: PlanAt(plans, p).Some? ==> p in w.descriptors && w.descriptors[p].digest != w.top.digest
    ensures metadata.root.None? ==> w.root.metadata.digest != w.top.digest
  {
    hide PlanAt;
    forall p | PlanAt(plans, p).Some?
      ensures p in w.descriptors && w.descriptors[p].digest != w.top.digest
    {
      TextThere(store, plans, w, p);
      assert TextOf(plans, w.descriptors, p).root.None?;
    }
  }

  lemma RootPlaces(plans: Plans)
    ensures PlanAt(plans, Place(true, "")) == Some(plans.index) && PlanAt(plans, Place(false, "")) == Some(plans.writer)
  {
  }

  /** The bound entry is the published one. */
  lemma EntryGiven(store: Store, respond: Uploads, offered: map<string, Descriptor>, plans: Plans, metadata: Raw,
                   w: Work)
    requires AllPlaced(store, plans, w) && Sourced(store, respond, offered, w.reused, w.asked) && FitsDepth(plans)
    requires TopKept(store, w.reused, metadata, w.root, w.top) && Rooted(w.root, w.descriptors)
    ensures BoundEntry(store, offered, plans, metadata).Some? ==>
              BoundEntry(store, offered, plans, metadata) == Some(w.top)
    ensures Lookup(offered, store.rawHash(metadata)).Some? ==>
              Lookup(offered, store.rawHash(metadata)) == Some(w.root.metadata)
  {
    hide AllPlaced, FitsDepth, PlanAt, Answered;
    RootPlaces(plans);
    if BoundEntry(store, offered, plans, metadata).Some? {
      BoundGiven(store, respond, offered, plans, w, Place(true, ""));
      BoundGiven(store, respond, offered, plans, w, Place(false, ""));
      hide Bound;
    }
  }

  lemma PlaceUsed(store: Store, plans: Plans, w: Work, p: Place)
    requires AllPlaced(store, plans, w) && PlanAt(plans, p).Some?
    ensures p in w.descriptors && exists h :: h in w.reused && w.reused[h] == w.descriptors[p]
  {
    hide TextOf, PlanAt;
    assert PlaceKept(store, w.reused, w.texts, plans, w.descriptors, p);
  }

  /** A contested blob is not reached: its layer is replaced. */
  lemma ContestedLost(store: Store, respond: Uploads, offered: map<string, Descriptor>, plans: Plans, metadata: Raw,
                      w: Work, blob: Descriptor)
    requires AllPlaced(store, plans, w) && Sourced(store, respond, offered, w.reused, w.asked) && FitsDepth(plans)
    requires TopKept(store, w.reused, metadata, w.root, w.top) && Rooted(w.root, w.descriptors)
    requires TreesStored(store, plans, w) && TopPublished(store, metadata, w.layers, w.root, w.top)
    requires Contested(store, offered, plans, metadata, blob)
    ensures !Undisputed(w, blob)
  {
    EntryApart(store, plans, metadata, w);
    EntryGiven(store, respond, offered, plans, metadata, w);
    hide TreesStored, TopPublished, FitsDepth, Sourced, PlanAt, Bound, BoundEntry, SameDescription, AllPlaced, Rooted;
    if p :| BoundAt(store, offered, plans, p, blob) {
      BoundGiven(store, respond, offered, plans, w, p);
      PlaceUsed(store, plans, w, p);
    }
  }

  /** A blob that is not contested is reached, when uploads have new digests. */
  lemma UncontestedFound(store: Store, respond: Uploads, offered: map<string, Descriptor>, files: map<string, File>,
                         plans: Plans, metadata: Raw, w: Work, n: string)
    requires AllPlaced(store, plans, w) && Sourced(store, respond, offered, w.reused, w.asked) && FitsDepth(plans)
    requires TopKept(store, w.reused, metadata, w.root, w.top) && Rooted(w.root, w.descriptors)
    requires TreesStored(store, plans, w) && TopPublished(store, metadata, w.layers, w.root, w.top)
    requires forall h :: h in w.reused ==>
               GivenTo(w.descriptors, w.reused[h]) || w.reused[h] == w.root.metadata || w.reused[h] == w.top
    requires forall p :: p in w.descriptors ==> PlanAt(plans, p).Some?
    requires Fresh(store, respond, offered, files) && n in files
    requires metadata.root.None? && !Contested(store, offered, plans, metadata, files[n].blob)
    ensures Undisputed(w, files[n].blob)
  {
    var blob := files[n].blob;
    if blob.digest == w.top.digest {
      EntryUncontested(store, respond, offered, files, plans, metadata, w, n);
    } else {
      forall h | h in w.reused && w.reused[h].digest == blob.digest
        ensures SameDescription(w.reused[h], blob)
      {
        ReusedUncontested(store, respond, offered, files, plans, metadata, w, n, h);
      }
    }
  }

  /** A blob with the digest of a file's was on offer. */
  lemma FileOffered(store: Store, respond: Uploads, offered: map<string, Descriptor>, files: map<string, File>, w: Work,
                    n: string, h: string)
    requires Sourced(store, respond, offered, w.reused, w.asked) && Fresh(store, respond, offered, files)
    requires n in files && h in w.reused && w.reused[h].digest == files[n].blob.digest
    ensures h in offered && w.reused[h] == offered[h]
  {
    hide Answered, Fresh;
    if h !in offered { AnsweredNew(store, respond, offered, files, w.asked, h, w.reused[h]); }
  }

  lemma ReusedUncontested(store: Store, respond: Uploads, offered: map<string, Descriptor>, files: map<string, File>,
                          plans: Plans, metadata: Raw, w: Work, n: string, h: string)
    requires AllPlaced(store, plans, w) && Sourced(store, respond, offered, w.reused, w.asked) && FitsDepth(plans)
    requires TopKept(store, w.reused, metadata, w.root, w.top) && TreesStored(store, plans, w)
    requires Fresh(store, respond, offered, files) && n in files && h in w.reused
             && w.reused[h].digest == files[n].blob.digest
    requires GivenTo(w.descriptors, w.reused[h]) || w.reused[h] == w.root.metadata
    requires forall p :: p in w.descriptors ==> PlanAt(plans, p).Some?
    requires metadata.root.None? && !Contested(store, offered, plans, metadata, files[n].blob)
    ensures SameDescription(w.reused[h], files[n].blob)
  {
    hide Sourced, FitsDepth, Fresh, PlanAt, Bound, BoundEntry, SameDescription, TextOf;
    if w.reused[h] == w.root.metadata {
      FileOffered(store, respond, offered, files, w, n, store.rawHash(metadata));
    } else {
      var p :| p in w.descriptors && w.descriptors[p] == w.reused[h];
      assert PlaceKept(store, w.reused, w.texts, plans, w.descriptors, p);
      hide PlaceKept, TreesStored, AllPlaced, TopKept;
      FileOffered(store, respond, offered, files, w, n, store.rawHash(TextOf(plans, w.descriptors, p)));
      GivenBound(store, respond, offered, files, plans, w, p);
      assert !BoundAt(store, offered, plans, p, files[n].blob);
    }
  }

  lemma EntryUncontested(store: Store, respond: Uploads, offered: map<string, Descriptor>, files: map<string, File>,
                         plans: Plans, metadata: Raw, w: Work, n: string)
    requires AllPlaced(store, plans, w) && Sourced(store, respond, offered, w.reused, w.asked) && FitsDepth(plans)
    requires TopKept(store, w.reused, metadata, w.root, w.top) && Rooted(w.root, w.descriptors)
    requires TreesStored(store, plans, w) && TopPublished(store, metadata, w.layers, w.root, w.top)
    requires Fresh(store, respond, offered, files) && n in files && files[n].blob.digest == w.top.digest
    requires !Contested(store, offered, plans, metadata, files[n].blob)
    ensures SameDescription(Titled(w.top), files[n].blob)
  {
    var h := store.rawHash(EncodedRoot(w.root));
    FileOffered(store, respond, offered, files, w, n, h);
    EntryMentions(store, metadata, w);
    RootPlaces(plans);
    RootOffered(store, respond, offered, files, plans, w, h, Place(true, ""));
    RootOffered(store, respond, offered, files, plans, w, h, Place(false, ""));
    MentionedOffered(store, respond, offered, files, w, h, store.rawHash(metadata));
    hide *;
    EntryBound(store, offered, plans, metadata, w);
    EntryUndisputed(store, offered, plans, metadata, w, files[n].blob);
  }

  lemma EntryMentions(store: Store, metadata: Raw, w: Work)
    requires TopPublished(store, metadata, w.layers, w.root, w.top)
    ensures store.content(w.top.digest) == Some(EncodedRoot(w.root))
    ensures Mentions(EncodedRoot(w.root), w.root.index.digest) && Mentions(EncodedRoot(w.root), w.root.writer.digest)
    ensures Mentions(EncodedRoot(w.root), w.root.metadata.digest)
  {
  }

  lemma RootOffered(store: Store, respond: Uploads, offered: map<string, Descriptor>, files: map<string, File>,
                    plans: Plans, w: Work, h: string, p: Place)
    requires AllPlaced(store, plans, w) && Sourced(store, respond, offered, w.reused, w.asked) && FitsDepth(plans)
    requires TreesStored(store, plans, w) && Fresh(store, respond, offered, files) && PlanAt(plans, p).Some?
    requires h in offered && store.content(offered[h].digest).Some? && p in w.descriptors
    requires Mentions(store.content(offered[h].digest).value, w.descriptors[p].digest)
    ensures Bound(store, offered, PlanAt(plans, p).value) == Some(w.descriptors[p])
  {
    hide *;
    ChildOffered(store, respond, offered, files, plans, w, h, p);
    GivenBound(store, respond, offered, files, plans, w, p);
  }

  lemma EntryBound(store: Store, offered: map<string, Descriptor>, plans: Plans, metadata: Raw, w: Work)
    requires Rooted(w.root, w.descriptors) && TopKept(store, w.reused, metadata, w.root, w.top)
    requires Bound(store, offered, plans.index) == Some(w.root.index)
             && Bound(store, offered, plans.writer) == Some(w.root.writer)
    requires store.rawHash(metadata) in offered && offered[store.rawHash(metadata)] == w.root.metadata
    requires store.rawHash(EncodedRoot(w.root)) in offered && offered[store.rawHash(EncodedRoot(w.root))] == w.top
    ensures BoundEntry(store, offered, plans, metadata) == Some(w.top)
  {
    hide Bound;
  }

  lemma EntryUndisputed(store: Store, offered: map<string, Descriptor>, plans: Plans, metadata: Raw, w: Work,
                        blob: Descriptor)
    requires BoundEntry(store, offered, plans, metadata) == Some(w.top) && blob.digest == w.top.digest
    requires !Contested(store, offered, plans, metadata, blob)
    ensures SameDescription(Titled(w.top), blob)
  {
    hide BoundEntry, Bound;
  }

  /** Before publishing it is known which files will reach their blobs: those that no blob contests that the publication
      is bound to reuse. */
  lemma FilesFound(store: Store, respond: Uploads, offered: map<string, Descriptor>, hash: Hash, s: Snapshot,
                   metadata: Raw, w: Work)
    requires HashText(hash) && Done(store, respond, offered, hash, s, metadata, w) && Apart(store.rawHash, w.texts)
    ensures Splits(store, hash, s)
    ensures FilesReach(FinalLayers(w.layers, w.top), s) ==>
              forall n ::
                n in s.files ==> !Contested(store, offered, PlansOf(store, hash, s), metadata, s.files[n].blob)
    ensures metadata.root.None? && Fresh(store, respond, offered, s.files) ==>
              (FilesReach(FinalLayers(w.layers, w.top), s)
               <==> forall n :: n in s.files ==>
                      !Contested(store, offered, PlansOf(store, hash, s), metadata, s.files[n].blob))
  {
    hide *;
    DoneLayers(store, respond, offered, hash, s, metadata, w);
    var (plans, layers) := (PlansOf(store, hash, s), FinalLayers(w.layers, w.top));
    FilesReachAll(layers, s);
    forall n | n in s.files
      ensures Reaches(layers, s.files[n].blob) ==> !Contested(store, offered, plans, metadata, s.files[n].blob)
      ensures metadata.root.None? && Fresh(store, respond, offered, s.files)
              && !Contested(store, offered, plans, metadata, s.files[n].blob) ==>
                Reaches(layers, s.files[n].blob)
    {
      FileFound(store, respond, offered, hash, s, metadata, w, n);
    }
  }

  lemma FileFound(store: Store, respond: Uploads, offered: map<string, Descriptor>, hash: Hash, s: Snapshot,
                  metadata: Raw, w: Work, n: string)
    requires HashText(hash) && Done(store, respond, offered, hash, s, metadata, w) && Apart(store.rawHash, w.texts)
    requires n in s.files
    ensures Splits(store, hash, s)
    ensures var (plans, blob) := (PlansOf(store, hash, s), s.files[n].blob);
            && (Reaches(FinalLayers(w.layers, w.top), blob) ==> !Contested(store, offered, plans, metadata, blob))
            && (metadata.root.None? && Fresh(store, respond, offered, s.files)
                && !Contested(store, offered, plans, metadata, blob) ==>
                  Reaches(FinalLayers(w.layers, w.top), blob))
  {
    hide *;
    DoneLayers(store, respond, offered, hash, s, metadata, w);
    DoneTrees(store, respond, offered, hash, s, metadata, w);
    var (plans, blob) := (PlansOf(store, hash, s), s.files[n].blob);
    FileStillReached(w, s.files, n);
    if Contested(store, offered, plans, metadata, blob) {
      ContestedLost(store, respond, offered, plans, metadata, w, blob);
    } else if metadata.root.None? && Fresh(store, respond, offered, s.files) {
      UncontestedFound(store, respond, offered, s.files, plans, metadata, w, n);
    }
  }

  lemma FilesReachAll(layers: map<string, Descriptor>, s: Snapshot)
    ensures FilesReach(layers, s) <==> forall n :: n in s.files ==> Reaches(layers, s.files[n].blob)
  {
  }

  lemma DoneLayers(store: Store, respond: Uploads, offered: map<string, Descriptor>, hash: Hash, s: Snapshot,
                   metadata: Raw, w: Work)
    requires Done(store, respond, offered, hash, s, metadata, w)
    ensures Splits(store, hash, s) && FromFiles(s.files, w.base) && Laid(w.base, w.layers, w.reused)
    ensures forall p :: p in w.descriptors ==> PlanAt(PlansOf(store, hash, s), p).Some?
    ensures forall h :: h in w.reused ==>
              GivenTo(w.descriptors, w.reused[h]) || w.reused[h] == w.root.metadata || w.reused[h] == w.top
  {
  }

  // ---- slack

  /** The blob exceeds its text by no more than readers allow. */
  ghost predicate Snug(store: Store, d: Descriptor) {
    store.content(d.digest).Some? ==> d.size <= store.size(store.content(d.digest).value) + CIPHER_SLACK
  }

  ghost predicate AllSnug(store: Store, respond: Uploads, offered: map<string, Descriptor>) {
    && (forall h :: h in offered ==> Snug(store, offered[h]))
    && (forall raw, k :: respond(raw, k).Some? ==> Snug(store, respond(raw, k).value))
  }

  lemma ReusedSnug(store: Store, respond: Uploads, offered: map<string, Descriptor>, w: Work, h: string)
    requires AllSnug(store, respond, offered) && Sourced(store, respond, offered, w.reused, w.asked) && h in w.reused
    ensures Snug(store, w.reused[h])
  {
    if h !in offered {
      var k :| 0 <= k < |w.asked| && store.rawHash(w.asked[k]) == h && respond(w.asked[k], k) == Some(w.reused[h]);
    }
  }

  lemma SnugWithin(store: Store, respond: Uploads, offered: map<string, Descriptor>, hash: Hash, s: Snapshot,
                   metadata: Raw, w: Work)
    requires HashText(hash) && Done(store, respond, offered, hash, s, metadata, w) && Apart(store.rawHash, w.texts)
    requires AllSnug(store, respond, offered)
    ensures WithinSlack(store, hash, s, w)
  {
    hide *;
    DoneLayers(store, respond, offered, hash, s, metadata, w);
    DoneTrees(store, respond, offered, hash, s, metadata, w);
    var plans := PlansOf(store, hash, s);
    TopSnug(store, respond, offered, metadata, w);
    forall p | PlanAt(plans, p).Some?
      ensures p in w.descriptors && w.descriptors[p].size <= Limit(p.consumer) + CIPHER_SLACK
    {
      PlaceSnug(store, respond, offered, plans, w, p);
    }
    PlacesInSlack(plans, w.descriptors);
    WithinFrom(store, hash, s, w);
  }

  lemma PlacesInSlack(plans: Plans, descriptors: map<Place, Descriptor>)
    requires forall p :: PlanAt(plans, p).Some? ==>
               p in descriptors && descriptors[p].size <= Limit(p.consumer) + CIPHER_SLACK
    ensures InSlack(plans, descriptors)
  {
  }

  lemma WithinFrom(store: Store, hash: Hash, s: Snapshot, w: Work)
    requires Splits(store, hash, s) && InSlack(PlansOf(store, hash, s), w.descriptors)
    requires w.top.size <= ROOT_LIMIT + CIPHER_SLACK && w.root.metadata.size <= CATALOG_LIMIT + CIPHER_SLACK
    ensures WithinSlack(store, hash, s, w)
  {
  }

  lemma TopSnug(store: Store, respond: Uploads, offered: map<string, Descriptor>, metadata: Raw, w: Work)
    requires TopKept(store, w.reused, metadata, w.root, w.top) && TopPublished(store, metadata, w.layers, w.root, w.top)
    requires AllSnug(store, respond, offered) && Sourced(store, respond, offered, w.reused, w.asked)
    ensures w.top.size <= ROOT_LIMIT + CIPHER_SLACK && w.root.metadata.size <= CATALOG_LIMIT + CIPHER_SLACK
  {
    hide AllSnug, Sourced, EncodedRoot;
    ReusedSnug(store, respond, offered, w, store.rawHash(metadata));
    ReusedSnug(store, respond, offered, w, store.rawHash(EncodedRoot(w.root)));
  }

  lemma PlaceSnug(store: Store, respond: Uploads, offered: map<string, Descriptor>, plans: Plans, w: Work, p: Place)
    requires AllPlaced(store, plans, w) && TreesStored(store, plans, w) && PlanAt(plans, p).Some?
    requires AllSnug(store, respond, offered) && Sourced(store, respond, offered, w.reused, w.asked)
    ensures p in w.descriptors && w.descriptors[p].size <= Limit(p.consumer) + CIPHER_SLACK
  {
    hide PlanAt, TextOf, AllSnug, Sourced;
    assert PlaceKept(store, w.reused, w.texts, plans, w.descriptors, p);
    TextThere(store, plans, w, p);
    ReusedSnug(store, respond, offered, w, store.rawHash(TextOf(plans, w.descriptors, p)));
  }
}

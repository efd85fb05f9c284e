/** Publishing a valid snapshot and loading it back gives the same snapshot. */
module CatalogRoundTrip {
  import opened Catalog
  import opened CatalogOrder
  import opened CatalogPublish
  import opened CatalogRecords
  import opened CatalogWalk
  import opened Names
  import opened Partition
  import opened Snapshots

  /** What `Publish` checks of a snapshot, and what `NarinfoFields` has checked of its narinfos. */
  ghost predicate Publishable(s: Snapshot) {
    && RecordsOk(s)
    && (forall n :: n in s.files ==> ValidFile(s.files[n]))
    && (forall n :: n in s.narinfos && s.narinfos[n].valid ==> RecordStorePath(s.narinfos[n].storePath))
  }

  /** Every file's blob is a layer as the file describes it. */
  ghost predicate FilesReach(layers: map<string, Descriptor>, s: Snapshot) {
    forall n :: n in s.files ==> Reaches(layers, s.files[n].blob)
  }

  /** No node's blob is longer than its text may be by more than readers allow. */
  ghost predicate InSlack(plans: Plans, descriptors: map<Place, Descriptor>) {
    forall p :: PlanAt(plans, p).Some? && p in descriptors ==> descriptors[p].size <= Limit(p.consumer) + CIPHER_SLACK
  }

  ghost predicate PlacesStored(store: Store, plans: Plans, layers: map<string, Descriptor>, roots: Roots,
                               descriptors: map<Place, Descriptor>) {
    && (forall p :: PlanAt(plans, p).Some? ==> PlaceStored(store, plans, layers, descriptors, p))
    && Place(true, "") in descriptors && roots.index == descriptors[Place(true, "")]
    && Place(false, "") in descriptors && roots.writer == descriptors[Place(false, "")]
  }

  lemma StoredNode(store: Store, plans: Plans, layers: map<string, Descriptor>, descriptors: map<Place, Descriptor>,
                   p: Place)
    requires PlaceStored(store, plans, layers, descriptors, p)
    ensures PlanAt(plans, p).Some? && p in descriptors
    ensures PlanAt(plans, p).value.Branch? ==>
              forall nibble :: nibble in PlanAt(plans, p).value.children ==> Child(p, nibble) in descriptors
    ensures NodeIn(store.content, descriptors[p].digest) == Some(NodeOf(PlanAt(plans, p).value, p, descriptors))
    ensures Reaches(layers, descriptors[p])
    ensures Readable(store.content, store.size, descriptors[p], p.consumer)
            <==> descriptors[p].size <= Limit(p.consumer) + CIPHER_SLACK
  {
  }

  /** What the stored trees have at a path is the descriptor of that place of the plans. */
  lemma {:induction false} StoredAt(store: Store, plans: Plans, layers: map<string, Descriptor>, roots: Roots,
                                    descriptors: map<Place, Descriptor>, p: Place)
    requires PlacesStored(store, plans, layers, roots, descriptors) && FitsDepth(plans)
    ensures At(store.content, RootOf(roots, p.consumer), p.path).Some? <==> PlanAt(plans, p).Some?
    ensures PlanAt(plans, p).Some? ==>
              p in descriptors && At(store.content, RootOf(roots, p.consumer), p.path) == Some(descriptors[p])
    decreases |p.path|
  {
    if p.path != "" {
      var n := |p.path| - 1;
      var q, nibble := Place(p.consumer, p.path[..n]), p.path[n..];
      assert p.path == q.path + nibble;
      StoredAt(store, plans, layers, roots, descriptors, q);
      if PlanAt(plans, q).Some? {
        StoredNode(store, plans, layers, descriptors, q);
        SubAppend(PlanOf(plans, p.consumer), q.path, nibble);
        assert p == Child(q, nibble);
      } else {
        NoSubBelow(PlanOf(plans, p.consumer), q.path, nibble);
      }
    }
  }

  lemma {:induction false} NoSubBelow(plan: Plan, path: string, nibble: string)
    requires Sub(plan, path).None? && nibble != ""
    ensures Sub(plan, path + nibble).None?
  {
    assert (path + nibble)[..1] == path[..1] && (path + nibble)[1..] == path[1..] + nibble;
    if plan.Branch? && path[..1] in plan.children { NoSubBelow(plan.children[path[..1]], path[1..], nibble); }
  }

  // ---- the records pass the validator

  ghost predicate RecordValid(consumer: bool, name: string, r: Record) {
    && ConsumerFile(name) == consumer
    && !(r.file.None? && r.narinfo.None? && r.references.None?)
    && (consumer ==> r.references.None?)
    && (!consumer ==> r.narinfo.None? && r.archive.None?)
    && (r.references.Some? ==> ValidStorePath(name) && AllStorePaths(r.references.value))
    && (r.narinfo.Some? ==> r.narinfo.value.valid && name == NarinfoKey(r.narinfo.value.storePath) && r.archive.Some?)
    && (r.narinfo.None? ==> r.archive.None?)
  }

  ghost predicate RecordReaches(layers: map<string, Descriptor>, r: Record) {
    (r.file.Some? ==> FileOk(layers, r.file.value)) && (r.archive.Some? ==> FileOk(layers, r.archive.value))
  }

  ghost predicate RecordsReach(layers: map<string, Descriptor>, records: map<string, Record>) {
    forall name :: name in records ==> RecordReaches(layers, records[name])
  }

  lemma ConsumerValid(s: Snapshot, name: string)
    requires Publishable(s) && name in ConsumerRecords(s)
    ensures RecordValid(true, name, ConsumerRecords(s)[name])
  {
    hide ConsumerFile, NarinfoKey, ValidStorePath, RecordStorePath, Archive, ValidFile;
    if name in s.narinfos {
      assert NarinfoOk(s.files, name, s.narinfos[name]);
      NarinfoKeyIsConsumer(s.narinfos[name].storePath);
    }
  }

  lemma WriterValid(s: Snapshot, name: string)
    requires Publishable(s) && name in WriterRecords(s)
    ensures RecordValid(false, name, WriterRecords(s)[name])
  {
    hide ConsumerFile, NarinfoKey, ValidStorePath, RecordStorePath, Archive, ValidFile;
    if name in s.upstream {
      assert UpstreamOk(name, s.upstream[name]);
      StorePathIsNotConsumer(name);
    }
  }

  lemma SnapshotReaches(layers: map<string, Descriptor>, s: Snapshot)
    requires Publishable(s) && FilesReach(layers, s)
    ensures RecordsReach(layers, ConsumerRecords(s)) && RecordsReach(layers, WriterRecords(s))
  {
    hide ConsumerFile, RecordsOk, ValidFile, Archive, RecordStorePath;
  }

  /** One of the two trees: the split of valid records. */
  ghost predicate TreeOf(store: Store, hash: Hash, plans: Plans, consumer: bool, records: map<string, Record>) {
    && Split(Measuring(store), hash, records, 0, Limit(consumer)) == Some(PlanOf(plans, consumer))
    && forall name :: name in records ==> RecordValid(consumer, name, records[name])
  }

  /** An empty node is never too large. */
  ghost predicate EmptyFits(store: Store) { Measuring(store)(map[]) <= NODE_LIMIT }

  /** A node of the plan passes the checks at its path. */
  lemma PlanAccepted(store: Store, hash: Hash, layers: map<string, Descriptor>, plans: Plans,
                     records: map<string, Record>, descriptors: map<Place, Descriptor>, p: Place)
    requires HashText(hash) && EmptyFits(store) && TreeOf(store, hash, plans, p.consumer, records)
             && RecordsReach(layers, records)
    requires PlanAt(plans, p).Some?
             && forall q :: PlanAt(plans, q).Some? ==> PlaceStored(store, plans, layers, descriptors, q)
    ensures PlanAt(plans, p).value.Branch? ==>
              forall nibble :: nibble in PlanAt(plans, p).value.children ==> Child(p, nibble) in descriptors
    ensures Accepts(layers, hash, NodeOf(PlanAt(plans, p).value, p, descriptors), p.path, p.consumer)
  {
    StoredNode(store, plans, layers, descriptors, p);
    var plan := PlanAt(plans, p).value;
    if plan.Leaf? {
      LeafHolds(Measuring(store), hash, records, Limit(p.consumer), p.path);
      LeafAccepted(hash, layers, records, p.consumer, p.path);
    } else {
      BranchHolds(Measuring(store), hash, records, Limit(p.consumer), p.path);
      hide Split, PlaceStored;
      BranchAccepted(store, hash, layers, plans, descriptors, p, plan.children);
    }
  }

  lemma LeafAccepted(hash: Hash, layers: map<string, Descriptor>, records: map<string, Record>, consumer: bool,
                     path: string)
    requires HashText(hash) && |path| <= DEPTH && RecordsReach(layers, records)
    requires forall name :: name in records ==> RecordValid(consumer, name, records[name])
    ensures Accepts(layers, hash, Node(Some(Under(hash, records, 0, path)), None), path, consumer)
  {
    var under := Under(hash, records, 0, path);
    hide FileOk, ConsumerFile, NarinfoKey, ValidStorePath, AllStorePaths;
    forall name | name in under
      ensures RecordOk(layers, hash, path, consumer, name, under[name])
    {
      assert RecordReaches(layers, records[name]) && RecordValid(consumer, name, records[name])
             && StartsAt(hash(name), 0, path);
      assert hash(name)[0..|path|] == hash(name)[..|path|];
    }
  }

  lemma BranchAccepted(store: Store, hash: Hash, layers: map<string, Descriptor>, plans: Plans,
                       descriptors: map<Place, Descriptor>, p: Place, children: map<string, Plan>)
    requires |p.path| < DEPTH && children != map[] && PlanAt(plans, p) == Some(Plan.Branch(children))
    requires forall nibble ::
               nibble in children ==> |nibble| == 1 && Nibble(nibble[0]) && Child(p, nibble) in descriptors
    requires forall q :: PlanAt(plans, q).Some? ==> PlaceStored(store, plans, layers, descriptors, q)
    ensures Accepts(layers, hash, NodeOf(Plan.Branch(children), p, descriptors), p.path, p.consumer)
  {
    var node := NodeOf(Plan.Branch(children), p, descriptors);
    assert node.children.value.Keys == children.Keys;
    forall nibble | nibble in children
      ensures Reaches(layers, descriptors[Child(p, nibble)])
    {
      SubAppend(PlanOf(plans, p.consumer), p.path, nibble);
      StoredNode(store, plans, layers, descriptors, Child(p, nibble));
    }
  }

  // ---- a digest stands at one path

  lemma LeafFacts(store: Store, hash: Hash, plans: Plans, records: map<string, Record>, p: Place)
    requires HashText(hash) && TreeOf(store, hash, plans, p.consumer, records) && PlanAt(plans, p).Some?
             && PlanAt(plans, p).value.Leaf?
    ensures PlanAt(plans, p).value.records == map[] ==> p.path == ""
    ensures forall name ::
              name in PlanAt(plans, p).value.records ==>
                StartsWith(hash(name), p.path) && ConsumerFile(name) == p.consumer
  {
    LeafHolds(Measuring(store), hash, records, Limit(p.consumer), p.path);
    hide Split, ConsumerFile;
    forall name | name in PlanAt(plans, p).value.records
      ensures StartsWith(hash(name), p.path) && ConsumerFile(name) == p.consumer
    {
      assert RecordValid(p.consumer, name, records[name]) && StartsAt(hash(name), 0, p.path);
      assert hash(name)[0..|p.path|] == hash(name)[..|p.path|];
    }
  }

  lemma BothPrefixes(h: string, p: string, q: string)
    requires StartsWith(h, p) && StartsWith(h, q) && |p| <= |q|
    ensures q[..|p|] == p
  {
    assert h[..|q|][..|p|] == h[..|p|];
  }

  /** Two leaves with the same records have the same path. */
  lemma LeavesDiffer(store: Store, hash: Hash, plans: Plans, records: map<string, Record>, writer: map<string, Record>,
                     p: Place, q: Place)
    requires HashText(hash) && TreeOf(store, hash, plans, true, records) && TreeOf(store, hash, plans, false, writer)
    requires PlanAt(plans, p).Some? && PlanAt(plans, q).Some? && PlanAt(plans, p) == PlanAt(plans, q)
             && PlanAt(plans, p).value.Leaf?
    ensures p.path == q.path
  {
    hide TreeOf, StartsWith, ConsumerFile, HashText;
    LeafFacts(store, hash, plans, if p.consumer then records else writer, p);
    LeafFacts(store, hash, plans, if q.consumer then records else writer, q);
    if PlanAt(plans, p).value.records != map[] {
      var name :| name in PlanAt(plans, p).value.records;
      assert p.consumer == q.consumer;
      if |p.path| <= |q.path| {
        BothPrefixes(hash(name), p.path, q.path);
        PlacedOnce(PlanOf(plans, p.consumer), p.path, q.path);
      } else {
        BothPrefixes(hash(name), q.path, p.path);
        PlacedOnce(PlanOf(plans, p.consumer), q.path, p.path);
      }
    }
  }

  lemma SameText(store: Store, plans: Plans, layers: map<string, Descriptor>, descriptors: map<Place, Descriptor>,
                 p: Place, q: Place)
    requires PlaceStored(store, plans, layers, descriptors, p) && PlaceStored(store, plans, layers, descriptors, q)
    requires descriptors[p].digest == descriptors[q].digest
    ensures PlanAt(plans, p).value.Leaf? ==> PlanAt(plans, q) == PlanAt(plans, p)
    ensures PlanAt(plans, p).value.Branch? ==>
              PlanAt(plans, q).value.Branch?
              && PlanAt(plans, q).value.children.Keys == PlanAt(plans, p).value.children.Keys
              && forall nibble ::
                   nibble in PlanAt(plans, p).value.children ==>
                     descriptors[Child(p, nibble)] == descriptors[Child(q, nibble)]
  {
    StoredNode(store, plans, layers, descriptors, p);
    StoredNode(store, plans, layers, descriptors, q);
    var a, b := PlanAt(plans, p).value, PlanAt(plans, q).value;
    var x, y := NodeOf(a, p, descriptors), NodeOf(b, q, descriptors);
    assert x == y;
    hide PlaceStored, PlanAt;
    if a.Branch? && b.Branch? {
      assert x.children.value.Keys == a.children.Keys && y.children.value.Keys == b.children.Keys;
      forall nibble | nibble in a.children
        ensures descriptors[Child(p, nibble)] == descriptors[Child(q, nibble)]
      {
        assert x.children.value[nibble] == y.children.value[nibble];
      }
    }
  }

  /** The same blob is never published for two paths, in either tree. */
  lemma {:induction false} PublishedOnePath(store: Store, hash: Hash, layers: map<string, Descriptor>, plans: Plans,
                                            records: map<string, Record>, writer: map<string, Record>,
                                            descriptors: map<Place, Descriptor>, p: Place, q: Place)
    requires HashText(hash) && EmptyFits(store) && FitsDepth(plans)
    requires TreeOf(store, hash, plans, true, records) && TreeOf(store, hash, plans, false, writer)
    requires forall r :: PlanAt(plans, r).Some? ==> PlaceStored(store, plans, layers, descriptors, r)
    requires PlanAt(plans, p).Some? && PlanAt(plans, q).Some?
    requires p in descriptors && q in descriptors && descriptors[p].digest == descriptors[q].digest
    ensures p.path == q.path
    decreases DEPTH + 1 - |p.path|
  {
    SameText(store, plans, layers, descriptors, p, q);
    if PlanAt(plans, p).value.Leaf? {
      LeavesDiffer(store, hash, plans, records, writer, p, q);
    } else {
      var mine := if p.consumer then records else writer;
      BranchHolds(Measuring(store), hash, mine, Limit(p.consumer), p.path);
      var nibble :| nibble in PlanAt(plans, p).value.children;
      hide Split, PlaceStored, TreeOf, Digital;
      ChildStored(store, plans, layers, descriptors, p, nibble);
      ChildStored(store, plans, layers, descriptors, q, nibble);
      PublishedOnePath(store, hash, layers, plans, records, writer, descriptors, Child(p, nibble), Child(q, nibble));
      assert (p.path + nibble)[..|p.path|] == p.path && (q.path + nibble)[..|q.path|] == q.path;
    }
  }

  lemma ChildStored(store: Store, plans: Plans, layers: map<string, Descriptor>, descriptors: map<Place, Descriptor>,
                    p: Place, nibble: string)
    requires PlanAt(plans, p).Some? && PlanAt(plans, p).value.Branch? && nibble in PlanAt(plans, p).value.children
             && |nibble| == 1
    requires forall r :: PlanAt(plans, r).Some? ==> PlaceStored(store, plans, layers, descriptors, r)
    ensures PlanAt(plans, Child(p, nibble)).Some? && Child(p, nibble) in descriptors
  {
    SubAppend(PlanOf(plans, p.consumer), p.path, nibble);
    StoredNode(store, plans, layers, descriptors, Child(p, nibble));
  }

  // ---- the stored trees load

  lemma SlotPlace(store: Store, plans: Plans, layers: map<string, Descriptor>, roots: Roots,
                  descriptors: map<Place, Descriptor>, b: Slot)
    requires PlacesStored(store, plans, layers, roots, descriptors) && FitsDepth(plans)
    ensures SlotOk(store.content, roots, b) <==>
            var p := Place(b.consumer, b.prefix);
            PlanAt(plans, p).Some? && p in descriptors && b.descriptor == descriptors[p]
  {
    StoredAt(store, plans, layers, roots, descriptors, Place(b.consumer, b.prefix));
  }

  lemma PublishedLoadable(store: Store, hash: Hash, layers: map<string, Descriptor>, plans: Plans,
                          records: map<string, Record>, writer: map<string, Record>, roots: Roots,
                          descriptors: map<Place, Descriptor>)
    requires HashText(hash) && EmptyFits(store) && FitsDepth(plans)
             && PlacesStored(store, plans, layers, roots, descriptors)
    requires TreeOf(store, hash, plans, true, records) && TreeOf(store, hash, plans, false, writer)
    requires RecordsReach(layers, records) && RecordsReach(layers, writer) && InSlack(plans, descriptors)
    ensures Loadable(store.content, store.size, layers, hash, roots)
  {
    hide TreeOf, PlaceStored, FitsDepth, SlotOk, Accepts, PlanAt, NodeOf, HashText, EmptyFits, RecordsReach, Readable;
    forall b | SlotOk(store.content, roots, b)
      ensures SlotAccepted(store.content, layers, hash, b)
              && Readable(store.content, store.size, b.descriptor, b.consumer)
      ensures Reaches(layers, b.descriptor)
    {
      var p := Place(b.consumer, b.prefix);
      SlotPlace(store, plans, layers, roots, descriptors, b);
      StoredNode(store, plans, layers, descriptors, p);
      PlanAccepted(store, hash, layers, plans, if b.consumer then records else writer, descriptors, p);
    }
    hide InSlack;
    PublishedOnePrefix(store, hash, layers, plans, records, writer, roots, descriptors);
  }

  lemma PublishedOnePrefix(store: Store, hash: Hash, layers: map<string, Descriptor>, plans: Plans,
                           records: map<string, Record>, writer: map<string, Record>, roots: Roots,
                           descriptors: map<Place, Descriptor>)
    requires HashText(hash) && EmptyFits(store) && FitsDepth(plans)
             && PlacesStored(store, plans, layers, roots, descriptors)
    requires TreeOf(store, hash, plans, true, records) && TreeOf(store, hash, plans, false, writer)
    ensures OnePrefix(store.content, roots)
  {
    hide TreeOf, PlaceStored, FitsDepth, SlotOk, PlanAt, HashText, EmptyFits;
    forall b, c | SlotOk(store.content, roots, b) && SlotOk(store.content, roots, c)
                  && b.descriptor.digest == c.descriptor.digest
      ensures b.prefix == c.prefix
    {
      SlotPlace(store, plans, layers, roots, descriptors, b);
      SlotPlace(store, plans, layers, roots, descriptors, c);
      PublishedOnePath(store, hash, layers, plans, records, writer, descriptors, Place(b.consumer, b.prefix),
                       Place(c.consumer, c.prefix));
    }
  }

  /** What a place of the trees gives is a record of the snapshot, and every record is given by some place. */
  lemma GivenFromRecords(store: Store, hash: Hash, layers: map<string, Descriptor>, plans: Plans,
                         records: map<string, Record>, roots: Roots, descriptors: map<Place, Descriptor>, b: Slot,
                         key: string, r: Record)
    requires HashText(hash) && FitsDepth(plans) && PlacesStored(store, plans, layers, roots, descriptors)
    requires TreeOf(store, hash, plans, b.consumer, records) && SlotOk(store.content, roots, b)
             && Gives(store.content, b, key, r)
    ensures key in records && records[key] == r
  {
    var p := Place(b.consumer, b.prefix);
    SlotPlace(store, plans, layers, roots, descriptors, b);
    StoredNode(store, plans, layers, descriptors, p);
    hide SlotOk, PlaceStored, Split;
    if PlanAt(plans, p).value.Leaf? { LeafHolds(Measuring(store), hash, records, Limit(b.consumer), b.prefix); }
  }

  lemma RecordIsGiven(store: Store, hash: Hash, layers: map<string, Descriptor>, plans: Plans, consumer: bool,
                      records: map<string, Record>, roots: Roots, descriptors: map<Place, Descriptor>, key: string)
    returns (b: Slot)
    requires HashText(hash) && FitsDepth(plans) && PlacesStored(store, plans, layers, roots, descriptors)
    requires TreeOf(store, hash, plans, consumer, records) && key in records
    ensures SlotOk(store.content, roots, b) && Gives(store.content, b, key, records[key]) && b.consumer == consumer
  {
    hide PlaceStored, Split, FitsDepth;
    var path := RecordPlaced(Measuring(store), hash, records, 0, Limit(consumer), key);
    var p := Place(consumer, path);
    LeafHolds(Measuring(store), hash, records, Limit(consumer), path);
    StoredNode(store, plans, layers, descriptors, p);
    b := Slot(descriptors[p], path, consumer);
    SlotPlace(store, plans, layers, roots, descriptors, b);
  }

  // ---- the round trip

  /** Everything that is known of the layers `layers` after publishing `s`. */
  ghost predicate Uploaded(store: Store, hash: Hash, layers: map<string, Descriptor>, plans: Plans, s: Snapshot,
                           roots: Roots, descriptors: map<Place, Descriptor>) {
    && HashText(hash) && EmptyFits(store) && FitsDepth(plans) && PlacesStored(store, plans, layers, roots, descriptors)
    && TreeOf(store, hash, plans, true, ConsumerRecords(s)) && TreeOf(store, hash, plans, false, WriterRecords(s))
  }

  lemma PlansUploaded(store: Store, hash: Hash, layers: map<string, Descriptor>, s: Snapshot, roots: Roots,
                      descriptors: map<Place, Descriptor>)
    requires HashText(hash) && EmptyFits(store) && Splits(store, hash, s) && Publishable(s)
    requires PlacesStored(store, PlansOf(store, hash, s), layers, roots, descriptors)
    ensures Uploaded(store, hash, layers, PlansOf(store, hash, s), s, roots, descriptors)
  {
    hide ConsumerRecords, WriterRecords, RecordValid, Split, FitsDepth, PlaceStored, EmptyFits;
    SplitsFit(store, hash, ConsumerRecords(s), WriterRecords(s));
    forall name | name in ConsumerRecords(s)
      ensures RecordValid(true, name, ConsumerRecords(s)[name])
    {
      ConsumerValid(s, name);
    }
    forall name | name in WriterRecords(s)
      ensures RecordValid(false, name, WriterRecords(s)[name])
    {
      WriterValid(s, name);
    }
  }

  lemma GivenOfSnapshot(store: Store, hash: Hash, layers: map<string, Descriptor>, plans: Plans, s: Snapshot,
                        roots: Roots, descriptors: map<Place, Descriptor>, b: Slot, key: string, r: Record)
    requires Uploaded(store, hash, layers, plans, s, roots, descriptors) && SlotOk(store.content, roots, b)
             && Gives(store.content, b, key, r)
    ensures r.narinfo.Some? ==> key in s.narinfos && s.narinfos[key] == r.narinfo.value
    ensures r.references.Some? ==> key in s.upstream && s.upstream[key] == r.references
    ensures forall n, f :: Offers(key, r, n, f) ==> n in s.files && s.files[n] == f
  {
    hide HashText, EmptyFits, FitsDepth, PlacesStored, TreeOf, SlotOk, Gives, ConsumerFile, Archive;
    if b.consumer {
      GivenFromRecords(store, hash, layers, plans, ConsumerRecords(s), roots, descriptors, b, key, r);
    } else {
      GivenFromRecords(store, hash, layers, plans, WriterRecords(s), roots, descriptors, b, key, r);
    }
  }

  lemma PlacedOfSnapshot(store: Store, hash: Hash, layers: map<string, Descriptor>, plans: Plans, s: Snapshot,
                         roots: Roots, descriptors: map<Place, Descriptor>, b: Slot, n: string, f: File)
    requires Uploaded(store, hash, layers, plans, s, roots, descriptors) && SlotOk(store.content, roots, b)
             && Places(store.content, b, n, f)
    ensures n in s.files && s.files[n] == f
  {
    hide Uploaded, SlotOk, Gives, Offers;
    var key, r :| Gives(store.content, b, key, r) && Offers(key, r, n, f);
    GivenOfSnapshot(store, hash, layers, plans, s, roots, descriptors, b, key, r);
  }

  /** A valid snapshot whose trees are stored loads in every order exactly when its files reach their blobs in the
      layers and no node's blob exceeds what its readers allow. */
  lemma PublishedLoads(store: Store, hash: Hash, layers: map<string, Descriptor>, s: Snapshot, roots: Roots,
                       descriptors: map<Place, Descriptor>)
    requires HashText(hash) && EmptyFits(store) && Splits(store, hash, s) && Publishable(s)
    requires PlacesStored(store, PlansOf(store, hash, s), layers, roots, descriptors)
    ensures Loadable(store.content, store.size, layers, hash, roots) && FilesAgree(store.content, roots)
            <==> FilesReach(layers, s) && InSlack(PlansOf(store, hash, s), descriptors)
  {
    hide *;
    var plans := PlansOf(store, hash, s);
    PlansUploaded(store, hash, layers, s, roots, descriptors);
    UploadedAgrees(store, hash, layers, plans, s, roots, descriptors);
    if FilesReach(layers, s) && InSlack(plans, descriptors) {
      UploadedLoads(store, hash, layers, plans, s, roots, descriptors);
    }
    if Loadable(store.content, store.size, layers, hash, roots) {
      LoadableReaches(store, hash, layers, plans, s, roots, descriptors);
    }
  }

  lemma LoadableReaches(store: Store, hash: Hash, layers: map<string, Descriptor>, plans: Plans, s: Snapshot,
                        roots: Roots, descriptors: map<Place, Descriptor>)
    requires Uploaded(store, hash, layers, plans, s, roots, descriptors)
             && Loadable(store.content, store.size, layers, hash, roots)
    ensures FilesReach(layers, s) && InSlack(plans, descriptors)
  {
    LoadableSound(store, hash, layers, roots);
    LoadableInSlack(store, hash, layers, plans, s, roots, descriptors);
    hide *;
    SoundReaches(store, hash, layers, plans, s, roots, descriptors);
  }

  lemma LoadableSound(store: Store, hash: Hash, layers: map<string, Descriptor>, roots: Roots)
    requires Loadable(store.content, store.size, layers, hash, roots)
    ensures forall b :: SlotOk(store.content, roots, b) ==> SlotAccepted(store.content, layers, hash, b)
  {
  }

  lemma UploadedAgrees(store: Store, hash: Hash, layers: map<string, Descriptor>, plans: Plans, s: Snapshot,
                       roots: Roots, descriptors: map<Place, Descriptor>)
    requires Uploaded(store, hash, layers, plans, s, roots, descriptors)
    ensures FilesAgree(store.content, roots)
  {
    hide Uploaded, SlotOk, Places;
    forall b, c, n, f, g | SlotOk(store.content, roots, b) && SlotOk(store.content, roots, c)
                           && Places(store.content, b, n, f) && Places(store.content, c, n, g)
      ensures f == g
    {
      PlacedOfSnapshot(store, hash, layers, plans, s, roots, descriptors, b, n, f);
      PlacedOfSnapshot(store, hash, layers, plans, s, roots, descriptors, c, n, g);
    }
  }

  lemma UploadedLoads(store: Store, hash: Hash, layers: map<string, Descriptor>, plans: Plans, s: Snapshot,
                      roots: Roots, descriptors: map<Place, Descriptor>)
    requires Uploaded(store, hash, layers, plans, s, roots, descriptors)
    requires Publishable(s) && FilesReach(layers, s) && InSlack(plans, descriptors)
    ensures Loadable(store.content, store.size, layers, hash, roots)
  {
    hide HashText, EmptyFits, FitsDepth, PlacesStored, TreeOf, Loadable, Publishable, FilesReach, InSlack, RecordsReach,
      ConsumerRecords, WriterRecords;
    SnapshotReaches(layers, s);
    PublishedLoadable(store, hash, layers, plans, ConsumerRecords(s), WriterRecords(s), roots, descriptors);
  }

  /** Accepted nodes only have files that reach their blobs. */
  lemma SoundReaches(store: Store, hash: Hash, layers: map<string, Descriptor>, plans: Plans, s: Snapshot, roots: Roots,
                     descriptors: map<Place, Descriptor>)
    requires Uploaded(store, hash, layers, plans, s, roots, descriptors)
    requires forall b :: SlotOk(store.content, roots, b) ==> SlotAccepted(store.content, layers, hash, b)
    ensures FilesReach(layers, s)
  {
    hide Uploaded, SlotOk, SlotAccepted, Places;
    forall n | n in s.files
      ensures Reaches(layers, s.files[n].blob)
    {
      var b := FileIsPlaced(store, hash, layers, plans, s, roots, descriptors, n);
      PlacedReaches(store.content, layers, hash, b, n, s.files[n]);
    }
  }

  lemma PlacedReaches(content: Content, layers: map<string, Descriptor>, hash: Hash, b: Slot, n: string, f: File)
    requires SlotAccepted(content, layers, hash, b) && Places(content, b, n, f)
    ensures Reaches(layers, f.blob)
  {
    var key, r :| Gives(content, b, key, r) && Offers(key, r, n, f);
    assert RecordOk(layers, hash, b.prefix, b.consumer, key, r);
  }

  lemma LoadableInSlack(store: Store, hash: Hash, layers: map<string, Descriptor>, plans: Plans, s: Snapshot,
                        roots: Roots, descriptors: map<Place, Descriptor>)
    requires Uploaded(store, hash, layers, plans, s, roots, descriptors)
             && Loadable(store.content, store.size, layers, hash, roots)
    ensures InSlack(plans, descriptors)
  {
    hide SlotOk, SlotAccepted, PlaceStored, FitsDepth, PlanAt, Readable, TreeOf, HashText;
    forall p | PlanAt(plans, p).Some? && p in descriptors
      ensures descriptors[p].size <= Limit(p.consumer) + CIPHER_SLACK
    {
      var b := Slot(descriptors[p], p.path, p.consumer);
      SlotPlace(store, plans, layers, roots, descriptors, b);
      assert Place(b.consumer, b.prefix) == p;
      StoredNode(store, plans, layers, descriptors, p);
      assert Readable(store.content, store.size, b.descriptor, b.consumer);
    }
  }

  /** Whatever was loaded is what was published, whether or not its files reach their blobs. */
  lemma LoadedIsPublished(store: Store, hash: Hash, layers: map<string, Descriptor>, s: Snapshot, roots: Roots,
                          descriptors: map<Place, Descriptor>, visits: seq<Slot>, t: Snapshot)
    requires HashText(hash) && EmptyFits(store) && Splits(store, hash, s) && Publishable(s)
    requires PlacesStored(store, PlansOf(store, hash, s), layers, roots, descriptors)
    requires Everywhere(store.content, roots, visits) && Gathered(store.content, visits, t)
    ensures t == s
  {
    hide PlacesStored, Uploaded;
    var plans := PlansOf(store, hash, s);
    PlansUploaded(store, hash, layers, s, roots, descriptors);
    SameNarinfos(store, hash, layers, plans, s, roots, descriptors, visits, t);
    SameUpstream(store, hash, layers, plans, s, roots, descriptors, visits, t);
    SameFiles(store, hash, layers, plans, s, roots, descriptors, visits, t);
  }

  lemma SameNarinfos(store: Store, hash: Hash, layers: map<string, Descriptor>, plans: Plans, s: Snapshot, roots: Roots,
                     descriptors: map<Place, Descriptor>, visits: seq<Slot>, t: Snapshot)
    requires Uploaded(store, hash, layers, plans, s, roots, descriptors)
    requires Everywhere(store.content, roots, visits) && GatheredNarinfos(store.content, visits, t.narinfos)
    ensures t.narinfos == s.narinfos
  {
    hide HashText, EmptyFits, FitsDepth, PlacesStored, TreeOf, SlotOk, Gives, Offers, ConsumerFile, Archive;
    forall name | name in t.narinfos
      ensures name in s.narinfos && s.narinfos[name] == t.narinfos[name]
    {
      var b, r :| b in visits && Gives(store.content, b, name, r) && r.narinfo == Some(t.narinfos[name]);
      GivenOfSnapshot(store, hash, layers, plans, s, roots, descriptors, b, name, r);
    }
    forall name | name in s.narinfos
      ensures name in t.narinfos
    {
      assert name in ConsumerRecords(s);
      var b := RecordIsGiven(store, hash, layers, plans, true, ConsumerRecords(s), roots, descriptors, name);
      assert b in visits;
    }
  }

  lemma SameUpstream(store: Store, hash: Hash, layers: map<string, Descriptor>, plans: Plans, s: Snapshot, roots: Roots,
                     descriptors: map<Place, Descriptor>, visits: seq<Slot>, t: Snapshot)
    requires Uploaded(store, hash, layers, plans, s, roots, descriptors)
             && forall p :: p in s.upstream ==> s.upstream[p].Some?
    requires Everywhere(store.content, roots, visits) && GatheredUpstream(store.content, visits, t.upstream)
    ensures t.upstream == s.upstream
  {
    hide HashText, EmptyFits, FitsDepth, PlacesStored, TreeOf, SlotOk, Gives, Offers, ConsumerFile, Archive;
    forall path | path in t.upstream
      ensures path in s.upstream && s.upstream[path] == t.upstream[path]
    {
      var b, r :| b in visits && Gives(store.content, b, path, r) && r.references.Some?
                  && r.references == t.upstream[path];
      GivenOfSnapshot(store, hash, layers, plans, s, roots, descriptors, b, path, r);
    }
    forall path | path in s.upstream
      ensures path in t.upstream
    {
      assert path in WriterRecords(s);
      var b := RecordIsGiven(store, hash, layers, plans, false, WriterRecords(s), roots, descriptors, path);
      assert b in visits;
    }
  }

  lemma SameFiles(store: Store, hash: Hash, layers: map<string, Descriptor>, plans: Plans, s: Snapshot, roots: Roots,
                  descriptors: map<Place, Descriptor>, visits: seq<Slot>, t: Snapshot)
    requires Uploaded(store, hash, layers, plans, s, roots, descriptors)
    requires Everywhere(store.content, roots, visits) && GatheredFiles(store.content, visits, t.files)
    ensures t.files == s.files
  {
    hide Uploaded, SlotOk, Places;
    forall name | name in t.files
      ensures name in s.files && s.files[name] == t.files[name]
    {
      var b :| b in visits && Places(store.content, b, name, t.files[name]);
      PlacedOfSnapshot(store, hash, layers, plans, s, roots, descriptors, b, name, t.files[name]);
    }
    forall name | name in s.files
      ensures name in t.files
    {
      var b := FileIsPlaced(store, hash, layers, plans, s, roots, descriptors, name);
      assert b in visits;
    }
  }

  lemma FileIsPlaced(store: Store, hash: Hash, layers: map<string, Descriptor>, plans: Plans, s: Snapshot, roots: Roots,
                     descriptors: map<Place, Descriptor>, name: string) returns (b: Slot)
    requires Uploaded(store, hash, layers, plans, s, roots, descriptors) && name in s.files
    ensures SlotOk(store.content, roots, b) && Places(store.content, b, name, s.files[name])
  {
    hide HashText, EmptyFits, FitsDepth, PlacesStored, TreeOf, SlotOk, Gives, ConsumerFile, Archive;
    if ConsumerFile(name) {
      assert name in ConsumerRecords(s);
      b := RecordIsGiven(store, hash, layers, plans, true, ConsumerRecords(s), roots, descriptors, name);
      assert Offers(name, ConsumerRecords(s)[name], name, s.files[name]);
    } else {
      assert name in WriterRecords(s);
      b := RecordIsGiven(store, hash, layers, plans, false, WriterRecords(s), roots, descriptors, name);
      assert Offers(name, WriterRecords(s)[name], name, s.files[name]);
    }
  }
}

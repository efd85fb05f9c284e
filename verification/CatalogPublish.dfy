/** `publishCatalog`: a snapshot's records become two trees that are uploaded from the leaves up
    (worker/catalog.go:78-215). */
module CatalogPublish {
  import opened Catalog
  import opened CatalogViews
  import opened CatalogWalk
  import opened Names
  import opened Partition
  import opened Snapshots

  // ---- records of a snapshot (lines 133-156)

  function FileRecord(files: map<string, File>, name: string): Option<File> {
    if name in files then Some(files[name]) else None
  }

  ghost function ConsumerRecord(s: Snapshot, name: string): Record {
    if name in s.narinfos then
      Record(if ConsumerFile(name) then FileRecord(s.files, name) else None, Some(s.narinfos[name]),
             FileRecord(s.files, Archive(s.narinfos[name])), None)
    else Record(FileRecord(s.files, name), None, None, None)
  }

  ghost function ConsumerRecords(s: Snapshot): map<string, Record> {
    map name | name in s.files.Keys + s.narinfos.Keys
    && (name in s.narinfos || ConsumerFile(name)) :: ConsumerRecord(s, name)
  }

  ghost function WriterRecord(s: Snapshot, name: string): Record {
    Record(if !ConsumerFile(name) then FileRecord(s.files, name) else None, None, None,
           if name in s.upstream then s.upstream[name] else None)
  }

  ghost function WriterRecords(s: Snapshot): map<string, Record> {
    map name | name in s.files.Keys + s.upstream.Keys
    && (name in s.upstream || !ConsumerFile(name)) :: WriterRecord(s, name)
  }

  function RecordAt(records: map<string, Record>, name: string): Record {
    if name in records then records[name] else NO_RECORD
  }

  /** Lines 135-141. */
  method FileRecords(files: map<string, File>) returns (records: map<string, Record>, writer: map<string, Record>)
    ensures records == map n | n in files && ConsumerFile(n) :: Record(Some(files[n]), None, None, None)
    ensures writer == map n | n in files && !ConsumerFile(n) :: Record(Some(files[n]), None, None, None)
  {
    records, writer := map[], map[];
    var names := files.Keys;
    while names != {}
      invariant names <= files.Keys
      invariant records == map n | n in files && n !in names
                && ConsumerFile(n) :: Record(Some(files[n]), None, None, None)
      invariant writer == map n | n in files && n !in names
                && !ConsumerFile(n) :: Record(Some(files[n]), None, None, None)
      decreases names
    {
      hide ConsumerFile;
      var name :| name in names;
      if ConsumerFile(name) {
        records := records[name := Record(Some(files[name]), None, None, None)];
      } else {
        writer := writer[name := Record(Some(files[name]), None, None, None)];
      }
      names := names - {name};
    }
  }

  /** Lines 142-151. */
  method AddNarinfos(s: Snapshot, files: map<string, Record>) returns (records: map<string, Record>)
    ensures records.Keys == files.Keys + s.narinfos.Keys
    ensures forall n :: n in s.narinfos ==>
              records[n] == RecordAt(files, n).(narinfo := Some(s.narinfos[n]),
                                                archive := FileRecord(s.files, Archive(s.narinfos[n])))
    ensures forall n :: n in files && n !in s.narinfos ==> records[n] == files[n]
  {
    records := files;
    var names := s.narinfos.Keys;
    while names != {}
      invariant names <= s.narinfos.Keys && records.Keys == files.Keys + (s.narinfos.Keys - names)
      invariant forall n :: n in s.narinfos && n !in names ==>
                  records[n] == RecordAt(files, n).(narinfo := Some(s.narinfos[n]),
                                                    archive := FileRecord(s.files, Archive(s.narinfos[n])))
      invariant forall n :: n in files && (n !in s.narinfos || n in names) ==> records[n] == files[n]
      decreases names
    {
      var name :| name in names;
      var archive := FileRecord(s.files, Archive(s.narinfos[name]));
      records := records[name := RecordAt(records, name).(narinfo := Some(s.narinfos[name]), archive := archive)];
      names := names - {name};
    }
  }

  /** Lines 152-156. */
  method AddUpstream(upstream: map<string, References>, files: map<string, Record>)
    returns (writer: map<string, Record>)
    ensures writer.Keys == files.Keys + upstream.Keys
    ensures forall n :: n in upstream ==> writer[n] == RecordAt(files, n).(references := upstream[n])
    ensures forall n :: n in files && n !in upstream ==> writer[n] == files[n]
  {
    writer := files;
    var paths := upstream.Keys;
    while paths != {}
      invariant paths <= upstream.Keys && writer.Keys == files.Keys + (upstream.Keys - paths)
      invariant forall n :: n in upstream && n !in paths ==> writer[n] == RecordAt(files, n).(references := upstream[n])
      invariant forall n :: n in files && (n !in upstream || n in paths) ==> writer[n] == files[n]
      decreases paths
    {
      var path :| path in paths;
      writer := writer[path := RecordAt(writer, path).(references := upstream[path])];
      paths := paths - {path};
    }
  }

  method BuildRecords(s: Snapshot) returns (records: map<string, Record>, writer: map<string, Record>)
    ensures records == ConsumerRecords(s) && writer == WriterRecords(s)
  {
    hide ConsumerFile, Archive, ConsumerRecords, WriterRecords, RecordAt, FileRecord;
    var consumerFiles, writerFiles := FileRecords(s.files);
    records := AddNarinfos(s, consumerFiles);
    writer := AddUpstream(s.upstream, writerFiles);
    ConsumersBuilt(s, consumerFiles, records);
    WritersBuilt(s, writerFiles, writer);
  }

  lemma ConsumersBuilt(s: Snapshot, files: map<string, Record>, records: map<string, Record>)
    requires files == map n | n in s.files && ConsumerFile(n) :: Record(Some(s.files[n]), None, None, None)
    requires records.Keys == files.Keys + s.narinfos.Keys
    requires forall n :: n in s.narinfos ==>
               var archive := FileRecord(s.files, Archive(s.narinfos[n]));
               records[n] == RecordAt(files, n).(narinfo := Some(s.narinfos[n]), archive := archive)
    requires forall n :: n in files && n !in s.narinfos ==> records[n] == files[n]
    ensures records == ConsumerRecords(s)
  {
    hide ConsumerFile, Archive;
  }

  lemma WritersBuilt(s: Snapshot, files: map<string, Record>, writer: map<string, Record>)
    requires files == map n | n in s.files && !ConsumerFile(n) :: Record(Some(s.files[n]), None, None, None)
    requires writer.Keys == files.Keys + s.upstream.Keys
    requires forall n :: n in s.upstream ==> writer[n] == RecordAt(files, n).(references := s.upstream[n])
    requires forall n :: n in files && n !in s.upstream ==> writer[n] == files[n]
    ensures writer == WriterRecords(s)
  {
    hide ConsumerFile;
  }

  // ---- uploading

  /** What publication knows about the store: the text behind each digest and the digest's descriptor. */
  datatype Store = Store(content: Content, size: Size, rawHash: RawHash, describe: string -> Descriptor)

  function Encoded(node: Node): Raw { Raw(Some(node), None, false, 0) }

  function EncodedRoot(root: Root): Raw { Raw(Some(Node(None, None)), Some(root), true, 0) }

  /** `d` is the descriptor of a stored blob. */
  ghost predicate Described(store: Store, d: Descriptor) {
    store.content(d.digest).Some? && d == store.describe(d.digest) && IsDigest(d.digest) && 0 < d.size < BLOB_LIMIT
  }

  /** The blob holds the text. */
  ghost predicate Carries(store: Store, d: Descriptor, raw: Raw) {
    Described(store, d) && store.content(d.digest) == Some(raw)
  }

  /** The blob holds one of the texts, which has the hash of `raw`. */
  ghost predicate Matches(store: Store, texts: set<Raw>, d: Descriptor, raw: Raw) {
    && Described(store, d) && raw in texts && store.content(d.digest).value in texts
    && store.rawHash(store.content(d.digest).value) == store.rawHash(raw)
  }

  /** No two of the texts collide. */
  ghost predicate Apart(rawHash: RawHash, texts: set<Raw>) {
    forall a, b :: a in texts && b in texts && rawHash(a) == rawHash(b) ==> a == b
  }

  lemma MatchCarries(store: Store, texts: set<Raw>, d: Descriptor, raw: Raw)
    requires Matches(store, texts, d, raw) && Apart(store.rawHash, texts)
    ensures Carries(store, d, raw)
  {
  }

  lemma MatchDescribed(store: Store, texts: set<Raw>, d: Descriptor, raw: Raw)
    requires Matches(store, texts, d, raw)
    ensures Described(store, d)
  {
  }

  /** Each blob on offer for reuse holds one of the texts, with the hash it is listed under. */
  ghost predicate Reusable(store: Store, texts: set<Raw>, blobs: map<string, Descriptor>) {
    forall h :: h in blobs ==>
      && Described(store, blobs[h]) && store.content(blobs[h].digest).value in texts
      && store.rawHash(store.content(blobs[h].digest).value) == h
  }

  /** The texts of blobs on offer. */
  ghost function Offered(store: Store, blobs: map<string, Descriptor>): set<Raw> {
    set h | h in blobs && store.content(blobs[h].digest).Some? :: store.content(blobs[h].digest).value
  }

  /** The answers of `UploadBlob`, by text and number of the request: an error, or a descriptor of a blob that holds the
      text. */
  type Uploads = (Raw, nat) -> Option<Descriptor>

  /** One of the requests from number `first` on was refused. */
  ghost predicate Refused(respond: Uploads, asked: seq<Raw>, first: nat) {
    exists k :: first <= k < |asked| && respond(asked[k], k).None?
  }

  /** One of the requests was for a text with this hash, and was answered with this descriptor. */
  ghost predicate Answered(store: Store, respond: Uploads, asked: seq<Raw>, h: string, d: Descriptor) {
    exists k :: 0 <= k < |asked| && store.rawHash(asked[k]) == h && respond(asked[k], k) == Some(d)
  }

  /** A blob on offer under its hash is reused; any other was uploaded. */
  ghost predicate Sourced(store: Store, respond: Uploads, offered: map<string, Descriptor>,
                          reused: map<string, Descriptor>, asked: seq<Raw>) {
    forall h ::
      h in reused ==> if h in offered then reused[h] == offered[h] else Answered(store, respond, asked, h, reused[h])
  }

  lemma AnsweredLater(store: Store, respond: Uploads, asked: seq<Raw>, more: seq<Raw>, h: string, d: Descriptor)
    requires Answered(store, respond, asked, h, d) && asked <= more
    ensures Answered(store, respond, more, h, d)
  {
    var k :| 0 <= k < |asked| && store.rawHash(asked[k]) == h && respond(asked[k], k) == Some(d);
    assert asked[k] == more[k];
  }

  lemma SourcedLater(store: Store, respond: Uploads, offered: map<string, Descriptor>, reused: map<string, Descriptor>,
                     asked: seq<Raw>, more: seq<Raw>)
    requires Sourced(store, respond, offered, reused, asked) && asked <= more
    ensures Sourced(store, respond, offered, reused, more)
  {
    hide Answered;
    forall h | h in reused && h !in offered
      ensures Answered(store, respond, more, h, reused[h])
    {
      AnsweredLater(store, respond, asked, more, h, reused[h]);
    }
  }

  lemma SourcedMore(store: Store, respond: Uploads, offered: map<string, Descriptor>, reused: map<string, Descriptor>,
                    asked: seq<Raw>, h: string, d: Descriptor)
    requires Sourced(store, respond, offered, reused, asked)
    requires if h in reused then d == reused[h]
             else if h in offered then d == offered[h] else Answered(store, respond, asked, h, d)
    ensures Sourced(store, respond, offered, reused[h := d], asked)
  {
    hide Answered;
  }

  lemma AnswerSourced(store: Store, respond: Uploads, asked: seq<Raw>, raw: Raw)
    requires respond(raw, |asked|).Some?
    ensures Answered(store, respond, asked + [raw], store.rawHash(raw), respond(raw, |asked|).value)
  {
    assert (asked + [raw])[|asked|] == raw;
  }

  lemma NoneRefused(respond: Uploads, asked: seq<Raw>)
    ensures !Refused(respond, asked, |asked|)
  {
  }

  lemma AskedMore(respond: Uploads, asked: seq<Raw>, more: seq<Raw>, first: nat)
    requires asked <= more && first <= |asked|
    ensures Refused(respond, more, first) <==> Refused(respond, asked, first) || Refused(respond, more, |asked|)
  {
    if k :| first <= k < |asked| && respond(asked[k], k).None? { assert more[k] == asked[k]; }
    if k :| first <= k < |more| && respond(more[k], k).None? {
      if k < |asked| { assert asked[k] == more[k]; }
    }
  }

  lemma AskedOne(respond: Uploads, asked: seq<Raw>, raw: Raw)
    ensures Refused(respond, asked + [raw], |asked|) <==> respond(raw, |asked|).None?
  {
    assert (asked + [raw])[|asked|] == raw;
  }

  ghost predicate Honest(store: Store, uploads: Uploads) {
    forall raw, k :: uploads(raw, k).Some? ==> Carries(store, uploads(raw, k).value, raw)
  }

  lemma HonestAnswer(store: Store, respond: Uploads, texts: set<Raw>, raw: Raw, k: nat)
    requires Honest(store, respond)
    ensures respond(raw, k).Some? ==> Matches(store, texts + {raw}, respond(raw, k).value, raw)
  {
  }

  lemma ReuseMatches(store: Store, texts: set<Raw>, blobs: map<string, Descriptor>, raw: Raw)
    requires Reusable(store, texts, blobs) && store.rawHash(raw) in blobs
    ensures Matches(store, texts + {raw}, blobs[store.rawHash(raw)], raw)
  {
  }

  lemma ReuseMore(store: Store, texts: set<Raw>, more: set<Raw>, blobs: map<string, Descriptor>, raw: Raw,
                  d: Descriptor)
    requires Reusable(store, texts, blobs) && texts <= more && Matches(store, more, d, raw)
    ensures Reusable(store, more, blobs) && Reusable(store, more, blobs[store.rawHash(raw) := d])
  {
    hide Described;
  }

  // ---- the trees

  datatype Plans = Plans(index: Plan, writer: Plan)

  datatype Place = Place(consumer: bool, path: string)

  function PlanOf(plans: Plans, consumer: bool): Plan { if consumer then plans.index else plans.writer }

  function PlanAt(plans: Plans, p: Place): Option<Plan> { Sub(PlanOf(plans, p.consumer), p.path) }

  function Child(p: Place, nibble: string): Place { Place(p.consumer, p.path + nibble) }

  /** The node of a place, once its children have descriptors (lines 191-197). */
  function NodeOf(plan: Plan, p: Place, descriptors: map<Place, Descriptor>): Node
    requires plan.Branch? ==> forall nibble :: nibble in plan.children ==> Child(p, nibble) in descriptors
  {
    match plan
    case Leaf(records) => Node(Some(records), None)
    case Branch(children) => Node(None, Some(map nibble | nibble in children :: descriptors[Child(p, nibble)]))
  }

  /** The children of the place have descriptors. */
  ghost predicate Writable(plans: Plans, descriptors: map<Place, Descriptor>, p: Place) {
    && PlanAt(plans, p).Some?
    && (PlanAt(plans, p).value.Branch? ==>
          forall nibble :: nibble in PlanAt(plans, p).value.children ==> Child(p, nibble) in descriptors)
  }

  /** And so has the place. */
  ghost predicate Given(plans: Plans, descriptors: map<Place, Descriptor>, p: Place) {
    Writable(plans, descriptors, p) && p in descriptors
  }

  /** The text of the place's node. */
  ghost function TextOf(plans: Plans, descriptors: map<Place, Descriptor>, p: Place): Raw
    requires Writable(plans, descriptors, p)
  {
    Encoded(NodeOf(PlanAt(plans, p).value, p, descriptors))
  }

  /** The place's text was asked to be stored, fits its tree's limit, and the place has the descriptor under the text's
      hash. */
  ghost predicate PlaceKept(store: Store, reused: map<string, Descriptor>, texts: set<Raw>, plans: Plans,
                            descriptors: map<Place, Descriptor>, p: Place) {
    && Given(plans, descriptors, p) && TextOf(plans, descriptors, p) in texts
    && store.size(TextOf(plans, descriptors, p)) <= Limit(p.consumer)
    && store.rawHash(TextOf(plans, descriptors, p)) in reused
    && reused[store.rawHash(TextOf(plans, descriptors, p))] == descriptors[p]
  }

  /** The place's node is stored under the descriptor it was given, within its tree's limit, and is a layer of the
      manifest. */
  ghost predicate PlaceStored(store: Store, plans: Plans, layers: map<string, Descriptor>,
                              descriptors: map<Place, Descriptor>, p: Place) {
    && Given(plans, descriptors, p) && Carries(store, descriptors[p], TextOf(plans, descriptors, p))
    && store.size(TextOf(plans, descriptors, p)) <= Limit(p.consumer) && Reaches(layers, descriptors[p])
  }

  /** A place whose children have descriptors and whose node does not fit its tree's limit. */
  ghost predicate TooLarge(store: Store, plans: Plans, descriptors: map<Place, Descriptor>, p: Place) {
    Writable(plans, descriptors, p) && store.size(TextOf(plans, descriptors, p)) > Limit(p.consumer)
  }

  /** The text is that of a place whose children have descriptors. */
  ghost predicate Writes(plans: Plans, descriptors: map<Place, Descriptor>, raw: Raw) {
    exists p :: Writable(plans, descriptors, p) && raw == TextOf(plans, descriptors, p)
  }

  /** From number `first` on, the requests were for nodes of places. */
  ghost predicate Requested(plans: Plans, descriptors: map<Place, Descriptor>, asked: seq<Raw>, first: nat) {
    forall k :: first <= k < |asked| ==> Writes(plans, descriptors, asked[k])
  }

  ghost predicate GivenTo(descriptors: map<Place, Descriptor>, d: Descriptor) {
    exists p :: p in descriptors && descriptors[p] == d
  }

  /** Every descriptor that was given out was given to a place. */
  ghost predicate Used(before: map<string, Descriptor>, after: map<string, Descriptor>,
                       descriptors: map<Place, Descriptor>) {
    forall h :: h in after ==> h in before || GivenTo(descriptors, after[h])
  }

  lemma NothingUsed(reused: map<string, Descriptor>)
    ensures Used(reused, reused, map[])
  {
  }

  lemma UsedBy(before: map<string, Descriptor>, after: map<string, Descriptor>, descriptors: map<Place, Descriptor>)
    requires Used(before, after, descriptors)
    ensures forall h :: h in after ==> h in before || GivenTo(descriptors, after[h])
  {
  }

  lemma UsedMore(before: map<string, Descriptor>, reused: map<string, Descriptor>, placed: map<Place, Descriptor>,
                 h: string, p: Place, d: Descriptor)
    requires Used(before, reused, placed) && p !in placed
    ensures Used(before, reused[h := d], placed[p := d])
  {
    var (after, placed') := (reused[h := d], placed[p := d]);
    assert p in placed' && placed'[p] == d;
    forall k | k in after && k !in before
      ensures GivenTo(placed', after[k])
    {
      if k != h {
        var q :| q in placed && placed[q] == reused[k];
        assert q in placed' && placed'[q] == after[k];
      }
    }
  }

  lemma NothingAsked(respond: Uploads, plans: Plans, asked: seq<Raw>)
    ensures !Refused(respond, asked, |asked|) && Requested(plans, map[], asked, |asked|)
  {
  }

  lemma RequestedMore(plans: Plans, descriptors: map<Place, Descriptor>, asked: seq<Raw>, more: seq<Raw>, first: nat,
                      p: Place)
    requires Requested(plans, descriptors, asked, first) && Writable(plans, descriptors, p)
    requires more == asked || more == asked + [TextOf(plans, descriptors, p)]
    ensures Requested(plans, descriptors, more, first)
  {
    hide Writable, TextOf;
    forall k | first <= k < |more|
      ensures Writes(plans, descriptors, more[k])
    {
      if k < |asked| { assert more[k] == asked[k]; }
    }
  }

  lemma RequestedStays(plans: Plans, descriptors: map<Place, Descriptor>, descriptors': map<Place, Descriptor>,
                       asked: seq<Raw>, first: nat)
    requires Requested(plans, descriptors, asked, first) && Extends(descriptors, descriptors')
    ensures Requested(plans, descriptors', asked, first)
  {
    hide PlanAt, NodeOf;
    forall k | first <= k < |asked|
      ensures Writes(plans, descriptors', asked[k])
    {
      var p :| Writable(plans, descriptors, p) && asked[k] == TextOf(plans, descriptors, p);
      SameNode(PlanAt(plans, p).value, p, descriptors, descriptors');
      assert Writable(plans, descriptors', p) && asked[k] == TextOf(plans, descriptors', p);
    }
  }

  lemma NodeTooLarge(store: Store, plans: Plans, descriptors: map<Place, Descriptor>, p: Place)
    requires Writable(plans, descriptors, p) && store.size(TextOf(plans, descriptors, p)) > Limit(p.consumer)
    ensures exists q :: TooLarge(store, plans, descriptors, q)
  {
    assert TooLarge(store, plans, descriptors, p);
  }

  /** Without collisions the place's blob holds the place's own text. */
  lemma KeptStored(store: Store, base: map<string, Descriptor>, reused: map<string, Descriptor>, texts: set<Raw>,
                   plans: Plans, layers: map<string, Descriptor>, descriptors: map<Place, Descriptor>, p: Place)
    requires PlaceKept(store, reused, texts, plans, descriptors, p) && Reusable(store, texts, reused)
             && Laid(base, layers, reused)
    requires Apart(store.rawHash, texts)
    ensures PlaceStored(store, plans, layers, descriptors, p)
  {
    hide Given, TextOf;
  }

  ghost predicate GivenOut(reused: map<string, Descriptor>, d: Descriptor) { exists h :: h in reused && reused[h] == d }

  /** The layers are those that were there and those that were given out, which replace others of the same digest. */
  ghost predicate Laid(base: map<string, Descriptor>, layers: map<string, Descriptor>,
                       reused: map<string, Descriptor>) {
    && (forall h :: h in reused ==> reused[h].digest in layers && layers[reused[h].digest] == reused[h])
    && (forall d :: d in base ==> d in layers)
    && (forall d ::
          d in layers ==> (d in base && layers[d] == base[d]) || (layers[d].digest == d && GivenOut(reused, layers[d])))
  }

  lemma LaidMore(store: Store, texts: set<Raw>, base: map<string, Descriptor>, layers: map<string, Descriptor>,
                 reused: map<string, Descriptor>, h: string, d: Descriptor)
    requires Laid(base, layers, reused) && Reusable(store, texts, reused) && Described(store, d)
             && (h in reused ==> reused[h] == d)
    ensures Laid(base, layers[d.digest := d], reused[h := d])
  {
    forall k | k in reused && reused[k].digest == d.digest
      ensures reused[k] == d
    {
    }
    hide Reusable, Described;
    var (after, more) := (layers[d.digest := d], reused[h := d]);
    forall k | k in more
      ensures more[k].digest in after && after[more[k].digest] == more[k]
    {
    }
    forall e | e in after && !(e in base && after[e] == base[e])
      ensures after[e].digest == e && GivenOut(more, after[e])
    {
      LaidFrom(base, layers, reused, h, d, e);
    }
  }

  lemma LaidFrom(base: map<string, Descriptor>, layers: map<string, Descriptor>, reused: map<string, Descriptor>,
                 h: string, d: Descriptor, e: string)
    requires Laid(base, layers, reused) && (h in reused ==> reused[h] == d) && e in layers[d.digest := d]
    requires !(e in base && layers[d.digest := d][e] == base[e])
    ensures layers[d.digest := d][e].digest == e && GivenOut(reused[h := d], layers[d.digest := d][e])
  {
    var k := h;
    if e != d.digest { k :| k in reused && reused[k] == layers[e]; }
    assert k in reused[h := d] && reused[h := d][k] == layers[d.digest := d][e];
  }

  ghost predicate Extends<K, V>(before: map<K, V>, after: map<K, V>) {
    forall k :: k in before ==> k in after && after[k] == before[k]
  }

  lemma KeptStays(store: Store, reused: map<string, Descriptor>, reused': map<string, Descriptor>, texts: set<Raw>,
                  texts': set<Raw>, plans: Plans, descriptors: map<Place, Descriptor>,
                  descriptors': map<Place, Descriptor>, p: Place)
    requires PlaceKept(store, reused, texts, plans, descriptors, p)
    requires Extends(descriptors, descriptors') && Extends(reused, reused') && texts <= texts'
    ensures PlaceKept(store, reused', texts', plans, descriptors', p)
  {
    hide NodeOf, PlanAt;
    SameNode(PlanAt(plans, p).value, p, descriptors, descriptors');
  }

  /** All paths of a plan. */
  function Paths(plan: Plan): set<string> {
    match plan
    case Leaf(_) => {""}
    case Branch(children) =>
      {""} + set nibble, path | nibble in children && path in Paths(children[nibble]) :: nibble + path
  }

  lemma {:induction false} PathsComplete(plan: Plan, path: string)
    requires Sub(plan, path).Some?
    ensures path in Paths(plan)
  {
    if path != "" {
      PathsComplete(plan.children[path[..1]], path[1..]);
      assert path == path[..1] + path[1..];
    }
  }

  /** Every edge of the plan is a single digit. */
  ghost predicate Digital(plan: Plan) {
    forall path ::
      Sub(plan, path).Some? && Sub(plan, path).value.Branch? ==>
        forall nibble :: nibble in Sub(plan, path).value.children ==> |nibble| == 1
  }

  /** `s.Storage` and the maps that one publication fills. `texts` are the texts that were offered or given a blob,
      `asked` those that were sent, in the order of the requests. */
  class Publisher {
    const store: Store
    const respond: Uploads
    const catalogBlobs: map<string, Descriptor>
    const base: map<string, Descriptor>
    var sent: nat
    var uploads: map<string, Descriptor>
    var reused: map<string, Descriptor>
    var layers: map<string, Descriptor>
    ghost var texts: set<Raw>
    ghost var asked: seq<Raw>

    ghost predicate Valid()
      reads this
    {
      && Honest(store, respond) && Reusable(store, texts, catalogBlobs) && Reusable(store, texts, reused)
      && uploads == reused && Laid(base, layers, reused)
      && |asked| == sent && Sourced(store, respond, catalogBlobs, reused, asked)
    }

    constructor (store: Store, respond: Uploads, catalogBlobs: map<string, Descriptor>, layers: map<string, Descriptor>)
      requires Honest(store, respond) && Reusable(store, Offered(store, catalogBlobs), catalogBlobs)
      ensures Valid() && this.store == store && this.respond == respond && this.catalogBlobs == catalogBlobs
      ensures this.base == layers == this.layers && uploads == map[] && reused == map[]
              && texts == Offered(store, catalogBlobs) && asked == []
    {
      this.store, this.respond, this.catalogBlobs := store, respond, catalogBlobs;
      this.base, this.layers := layers, layers;
      sent, uploads, reused := 0, map[], map[];
      texts, asked := Offered(store, catalogBlobs), [];
    }

    /** Lines 90-132: a text is sent once, and not at all when a blob is known whose text has its hash. */
    method Upload(raw: Raw, limit: int) returns (d: Option<Descriptor>)
      requires Valid()
      modifies this`sent, this`uploads, this`reused, this`layers, this`texts, this`asked
      ensures Valid() && texts == if d.Some? then old(texts) + {raw} else old(texts)
      ensures d.Some? ==> Matches(store, texts, d.value, raw) && store.size(raw) <= limit
      ensures d.Some? && Apart(store.rawHash, texts) ==> Carries(store, d.value, raw)
      ensures d.Some? ==> layers == old(layers)[d.value.digest := d.value]
      ensures d.Some? ==>
                uploads == old(uploads)[store.rawHash(raw) := d.value]
                && reused == old(reused)[store.rawHash(raw) := d.value]
      ensures d.Some? && store.rawHash(raw) in old(uploads) ==> d.value == old(uploads)[store.rawHash(raw)]
      ensures d.Some? && store.rawHash(raw) !in old(uploads) && store.rawHash(raw) in catalogBlobs ==>
                d.value == catalogBlobs[store.rawHash(raw)]
      ensures d.None? ==> layers == old(layers) && uploads == old(uploads) && reused == old(reused)
      ensures asked
              == if store.size(raw) > limit || store.rawHash(raw) in old(uploads) || store.rawHash(raw) in catalogBlobs
                 then old(asked)
                 else old(asked) + [raw]
      ensures asked != old(asked) ==> d == respond(raw, old(sent))
      ensures d.None? <==> store.size(raw) > limit || Refused(respond, asked, old(sent))
    {
      hide Matches, Carries, Reusable, Honest, Apart, Laid, Sourced, Answered, Refused;
      NoneRefused(respond, asked);
      AskedOne(respond, asked, raw);
      if store.size(raw) > limit { return None; }
      var h := store.rawHash(raw);
      if h in uploads {
        ReuseMatches(store, texts, uploads, raw);
        d := Some(uploads[h]);
      } else if h in catalogBlobs {
        ReuseMatches(store, texts, catalogBlobs, raw);
        d := Some(catalogBlobs[h]);
      } else {
        d := respond(raw, sent);
        HonestAnswer(store, respond, texts, raw, sent);
        SourcedLater(store, respond, catalogBlobs, reused, asked, asked + [raw]);
        if d.Some? { AnswerSourced(store, respond, asked, raw); }
        sent, asked := sent + 1, asked + [raw];
        if d.None? { return; }
      }
      MatchDescribed(store, texts + {raw}, d.value, raw);
      LaidMore(store, texts, base, layers, reused, h, d.value);
      ReuseMore(store, texts, texts + {raw}, reused, raw, d.value);
      ReuseMore(store, texts, texts + {raw}, catalogBlobs, raw, d.value);
      SourcedMore(store, respond, catalogBlobs, reused, asked, h, d.value);
      texts := texts + {raw};
      if Apart(store.rawHash, texts) { MatchCarries(store, texts, d.value, raw); }
      uploads := uploads[h := d.value];
      reused := reused[h := d.value];
      layers := layers[d.value.digest := d.value];
    }

    /** Lines 172-204: level by level from the deepest, so that a node is only written when all its children have
        been. */
    method PublishTrees(plans: Plans) returns (roots: Option<Roots>, ghost descriptors: map<Place, Descriptor>)
      requires Valid() && FitsDepth(plans)
      modifies this`sent, this`uploads, this`reused, this`layers, this`texts, this`asked
      ensures Valid() && Extends(old(reused), reused) && FromPlaces(plans, descriptors, old(texts), texts)
      ensures roots.Some? ==>
                forall p :: PlanAt(plans, p).Some? ==> PlaceKept(store, reused, texts, plans, descriptors, p)
      ensures roots.Some? ==> Place(true, "") in descriptors && roots.value.index == descriptors[Place(true, "")]
      ensures roots.Some? ==> Place(false, "") in descriptors && roots.value.writer == descriptors[Place(false, "")]
      ensures roots.None? <==> Refused(respond, asked, old(sent)) || exists p :: TooLarge(store, plans, descriptors, p)
      ensures old(asked) <= asked && Requested(plans, descriptors, asked, old(sent))
      ensures Used(old(reused), reused, descriptors)
      ensures forall p :: p in descriptors ==> PlaceKept(store, reused, texts, plans, descriptors, p)
    {
      hide Matches, Reusable, Honest, PlanAt, PlaceKept, KeptFrom, KeysFrom, Laid, Digital, PlacesAt, FromPlaces,
        Carries, Apart, Used, Sourced, Answered, Refused, Requested, TooLarge;
      NothingAsked(respond, plans, asked);
      NothingUsed(reused);
      var placed: map<Place, Descriptor> := map[];
      descriptors := placed;
      var depth := DEPTH;
      LevelStarts(store, reused, texts, plans, placed);
      while depth >= 0
        invariant Valid() && -1 <= depth <= DEPTH && Extends(old(reused), reused)
                  && FromPlaces(plans, placed, old(texts), texts)
        invariant !Refused(respond, asked, old(sent)) && old(asked) <= asked
                  && Requested(plans, placed, asked, old(sent))
        invariant Used(old(reused), reused, placed)
        invariant KeptFrom(store, reused, texts, plans, placed, depth, {}, false)
                  && KeysFrom(plans, placed, depth, {}, false)
      {
        hide Matches, Reusable, Honest, PlanAt, PlaceKept, KeptFrom, KeysFrom, Laid, Digital, PlacesAt, FromPlaces,
          Carries, Apart, Used, Sourced, Answered, Refused, Requested, TooLarge;
        var todo := PlacesAt(plans, depth);
        LevelOpens(store, reused, texts, plans, placed, depth);
        while todo != {}
          invariant Valid() && todo <= PlacesAt(plans, depth)
          invariant Extends(old(reused), reused) && FromPlaces(plans, placed, old(texts), texts)
          invariant !Refused(respond, asked, old(sent)) && old(asked) <= asked
                    && Requested(plans, placed, asked, old(sent))
          invariant Used(old(reused), reused, placed)
          invariant KeptFrom(store, reused, texts, plans, placed, depth, todo, true)
                    && KeysFrom(plans, placed, depth, todo, true)
          decreases todo
        {
          hide Matches, Reusable, Honest, PlanAt, PlaceKept, KeptFrom, KeysFrom, Laid, Digital, PlacesAt, FromPlaces,
            Carries, Apart, NodeOf, TooLarge, Used, Sourced, Answered, Refused, Requested;
          var p :| p in todo;
          PlaceReady(store, reused, texts, plans, placed, depth, todo, p);
          var node := NodeOf(PlanAt(plans, p).value, p, placed);
          ghost var before, known, done := reused, texts, asked;
          var d := Upload(Encoded(node), Limit(p.consumer));
          RequestedMore(plans, placed, done, asked, old(sent), p);
          AskedMore(respond, done, asked, old(sent));
          if d.None? {
            if store.size(Encoded(node)) > Limit(p.consumer) { NodeTooLarge(store, plans, placed, p); }
            LevelStops(store, reused, texts, plans, placed, depth, todo, true);
            return None, placed;
          }
          PlaceDone(store, before, reused, known, texts, plans, placed, depth, todo, p, d.value);
          PlaceAdds(plans, old(texts), known, placed, depth, todo, p, d.value);
          UsedMore(old(reused), before, placed, store.rawHash(Encoded(node)), p, d.value);
          RequestedStays(plans, placed, placed[p := d.value], asked, old(sent));
          placed := placed[p := d.value];
          todo := todo - {p};
        }
        LevelCloses(store, reused, texts, plans, placed, depth);
        depth := depth - 1;
      }
      LevelEnds(store, reused, texts, plans, placed, depth);
      LevelStops(store, reused, texts, plans, placed, depth, {}, false);
      NoneTooLarge(store, reused, texts, plans, placed);
      descriptors := placed;
      roots := Some(Roots(placed[Place(true, "")], placed[Place(false, "")]));
    }

    /** Lines 205-209: the metadata and the root that names it and the two trees. */
    method PublishRoot(roots: Roots, metadata: Raw) returns (top: Option<Descriptor>, root: Root)
      requires Valid()
      modifies this`sent, this`uploads, this`reused, this`layers, this`texts, this`asked
      ensures Valid() && Extends(old(reused), reused) && root.index == roots.index && root.writer == roots.writer
      ensures top.Some? ==>
                texts == old(texts) + {metadata, EncodedRoot(root)} && TopKept(store, reused, metadata, root, top.value)
      ensures top.None? <==>
                || store.size(metadata) > CATALOG_LIMIT || Refused(respond, asked, old(sent))
                || (MetadataKept(store, reused, metadata, root) && store.size(EncodedRoot(root)) > ROOT_LIMIT)
      ensures old(asked) <= asked && old(texts) <= texts
      ensures top.Some? ==> forall h :: h in reused ==>
                (h in old(reused) && reused[h] == old(reused)[h]) || reused[h] == root.metadata
                || reused[h] == top.value
      ensures forall k :: old(sent) <= k < |asked| ==>
                asked[k] == metadata || (asked[k] == EncodedRoot(root) && MetadataKept(store, reused, metadata, root))
    {
      hide Reusable, Honest, Laid, Apart, Carries, Matches, Sourced, Answered, Refused;
      root := Root(roots.index, roots.writer, NO_BLOB);
      ghost var first := asked;
      var meta := Upload(metadata, CATALOG_LIMIT);
      ghost var second := asked;
      if meta.None? { return None, root; }
      root := Root(roots.index, roots.writer, meta.value);
      top := Upload(EncodedRoot(root), ROOT_LIMIT);
      AskedMore(respond, second, asked, |first|);
    }

    /** Lines 133-215: the records are split and both trees uploaded, then the metadata and the root. */
    method PublishCatalog(hash: Hash, s: Snapshot, metadata: Raw)
      returns (top: Option<Descriptor>, ghost root: Root, ghost descriptors: map<Place, Descriptor>)
      requires Valid() && HashText(hash)
      modifies this`sent, this`uploads, this`reused, this`layers, this`texts, this`asked
      ensures Valid() && Extends(old(reused), reused)
      ensures top.Some? && Apart(store.rawHash, texts) ==>
                Published(store, hash, s, metadata, layers, root, top.value, descriptors)
      ensures top.Some? ==>
                Splits(store, hash, s) && Asks(store, hash, s, metadata, root, descriptors, old(texts), texts)
      ensures top.Some? ==> forall p :: PlanAt(PlansOf(store, hash, s), p).Some? ==>
                PlaceKept(store, reused, texts, PlansOf(store, hash, s), descriptors, p)
      ensures top.Some? ==> TopKept(store, reused, metadata, root, top.value) && Rooted(root, descriptors)
      ensures top.Some? ==> forall h :: h in reused ==>
                h in old(reused) || GivenTo(descriptors, reused[h]) || reused[h] == root.metadata
                || reused[h] == top.value
      ensures top.None? <==> Fails(store, respond, hash, s, metadata, root, descriptors, reused, asked, old(sent))
      ensures Tries(store, hash, s, metadata, root, descriptors, reused, texts, asked, old(sent))
    {
      hide ConsumerRecords, WriterRecords, Split, Reusable, Honest, FitsDepth, Laid, PlaceKept, PlaceStored, Apart,
        FromPlaces, TopKept, Published, Asks, TooLarge, Used, Sourced, Answered, Refused, Requested, Tries,
        MetadataKept;
      descriptors := map[];
      root := Root(NO_BLOB, NO_BLOB, NO_BLOB);
      var records, writer := BuildRecords(s);
      var index := Split(Measuring(store), hash, records, 0, NODE_LIMIT);
      NoneTried(store, hash, s, metadata, root, reused, texts, asked);
      if index.None? { return None, root, descriptors; }
      var rest := Split(Measuring(store), hash, writer, 0, WRITER_LIMIT);
      if rest.None? || store.size(metadata) > CATALOG_LIMIT { return None, root, descriptors; }
      SplitsFit(store, hash, records, writer);
      var roots;
      var plans := Plans(index.value, rest.value);
      assert plans == PlansOf(store, hash, s);
      roots, descriptors := PublishTrees(plans);
      TreesTried(store, hash, s, metadata, root, descriptors, reused, texts, asked, old(sent));
      if roots.None? { return None, root, descriptors; }
      ghost var trees, known, done := reused, texts, asked;
      var entry;
      top, entry := PublishRoot(roots.value, metadata);
      root := entry;
      AskedMore(respond, done, asked, old(sent));
      RootTried(store, hash, s, metadata, root, descriptors, trees, reused, known, texts, done, asked, old(sent));
      if top.None? { return; }
      UsedBy(old(reused), trees, descriptors);
      AsksFrom(store, hash, s, metadata, root, descriptors, old(texts), known);
      AllKept(store, trees, reused, known, texts, PlansOf(store, hash, s), descriptors);
      if Apart(store.rawHash, texts) {
        AllStored(store, base, reused, texts, PlansOf(store, hash, s), layers, descriptors);
        TopStored(store, base, reused, texts, metadata, layers, root, top.value);
        PublishedNow(store, hash, s, metadata, layers, root, top.value, descriptors);
      }
    }
  }

  /** Every text is one that was there or that of a place. */
  ghost predicate FromPlaces(plans: Plans, descriptors: map<Place, Descriptor>, before: set<Raw>, after: set<Raw>) {
    before <= after
    && forall raw ::
         raw in after ==>
           raw in before || exists p :: Given(plans, descriptors, p) && raw == TextOf(plans, descriptors, p)
  }

  /** The places of a level. */
  function PlacesAt(plans: Plans, depth: int): set<Place> {
    (set path | path in Paths(plans.index) && |path| == depth && Sub(plans.index, path).Some? :: Place(true, path))
    + set path | path in Paths(plans.writer) && |path| == depth && Sub(plans.writer, path).Some? :: Place(false, path)
  }

  lemma PlacesKnown(plans: Plans, depth: int)
    ensures forall p :: p in PlacesAt(plans, depth) <==> PlanAt(plans, p).Some? && |p.path| == depth
  {
    forall p | PlanAt(plans, p).Some? && |p.path| == depth
      ensures p in PlacesAt(plans, depth)
    {
      PathsComplete(PlanOf(plans, p.consumer), p.path);
      if p.consumer { assert p == Place(true, p.path); } else { assert p == Place(false, p.path); }
    }
  }

  /** With `open`, the level `depth` is being written and `todo` is what it lacks; otherwise it has not been begun. */
  ghost predicate Due(p: Place, depth: int, todo: set<Place>, open: bool) {
    |p.path| > depth || (open && |p.path| == depth && p !in todo)
  }

  ghost predicate KeptFrom(store: Store, reused: map<string, Descriptor>, texts: set<Raw>, plans: Plans,
                           placed: map<Place, Descriptor>, depth: int, todo: set<Place>, open: bool) {
    forall p ::
      PlanAt(plans, p).Some? && Due(p, depth, todo, open) ==> PlaceKept(store, reused, texts, plans, placed, p)
  }

  ghost predicate KeysFrom(plans: Plans, placed: map<Place, Descriptor>, depth: int, todo: set<Place>, open: bool) {
    forall p :: p in placed ==> PlanAt(plans, p).Some? && Due(p, depth, todo, open)
  }

  lemma LevelStarts(store: Store, reused: map<string, Descriptor>, texts: set<Raw>, plans: Plans,
                    placed: map<Place, Descriptor>)
    requires FitsDepth(plans) && placed == map[]
    ensures KeptFrom(store, reused, texts, plans, placed, DEPTH, {}, false) && KeysFrom(plans, placed, DEPTH, {}, false)
    ensures FromPlaces(plans, placed, texts, texts)
  {
    hide PlanAt, PlaceKept, Digital;
  }

  lemma LevelOpens(store: Store, reused: map<string, Descriptor>, texts: set<Raw>, plans: Plans,
                   placed: map<Place, Descriptor>, depth: int)
    requires KeptFrom(store, reused, texts, plans, placed, depth, {}, false)
             && KeysFrom(plans, placed, depth, {}, false)
    ensures KeptFrom(store, reused, texts, plans, placed, depth, PlacesAt(plans, depth), true)
    ensures KeysFrom(plans, placed, depth, PlacesAt(plans, depth), true)
  {
    PlacesKnown(plans, depth);
    hide PlanAt, PlaceKept, PlacesAt;
  }

  lemma LevelCloses(store: Store, reused: map<string, Descriptor>, texts: set<Raw>, plans: Plans,
                    placed: map<Place, Descriptor>, depth: int)
    requires KeptFrom(store, reused, texts, plans, placed, depth, {}, true) && KeysFrom(plans, placed, depth, {}, true)
    ensures KeptFrom(store, reused, texts, plans, placed, depth - 1, {}, false)
            && KeysFrom(plans, placed, depth - 1, {}, false)
  {
    hide PlanAt, PlaceKept;
  }

  lemma LevelStops(store: Store, reused: map<string, Descriptor>, texts: set<Raw>, plans: Plans,
                   placed: map<Place, Descriptor>, depth: int, todo: set<Place>, open: bool)
    requires KeptFrom(store, reused, texts, plans, placed, depth, todo, open)
    requires KeysFrom(plans, placed, depth, todo, open)
    ensures forall p :: p in placed ==> PlaceKept(store, reused, texts, plans, placed, p)
  {
    hide PlanAt, PlaceKept, Due;
  }

  lemma NoneTooLarge(store: Store, reused: map<string, Descriptor>, texts: set<Raw>, plans: Plans,
                     placed: map<Place, Descriptor>)
    requires forall p :: PlanAt(plans, p).Some? ==> PlaceKept(store, reused, texts, plans, placed, p)
    ensures forall p :: !TooLarge(store, plans, placed, p)
  {
    hide PlanAt, NodeOf;
    forall p
      ensures !TooLarge(store, plans, placed, p)
    {
      if Writable(plans, placed, p) { assert PlaceKept(store, reused, texts, plans, placed, p); }
    }
  }

  lemma LevelEnds(store: Store, reused: map<string, Descriptor>, texts: set<Raw>, plans: Plans,
                  placed: map<Place, Descriptor>, depth: int)
    requires KeptFrom(store, reused, texts, plans, placed, depth, {}, false) && depth == -1
    ensures forall p :: PlanAt(plans, p).Some? ==> PlaceKept(store, reused, texts, plans, placed, p)
    ensures Place(true, "") in placed && Place(false, "") in placed
  {
    assert PlanAt(plans, Place(true, "")).Some? && PlanAt(plans, Place(false, "")).Some?;
    hide PlanAt, TextOf;
    assert PlaceKept(store, reused, texts, plans, placed, Place(true, ""))
           && PlaceKept(store, reused, texts, plans, placed, Place(false, ""));
  }

  /** When a level is written, the children of its places have been. */
  lemma PlaceReady(store: Store, reused: map<string, Descriptor>, texts: set<Raw>, plans: Plans,
                   placed: map<Place, Descriptor>, depth: int, todo: set<Place>, p: Place)
    requires FitsDepth(plans) && KeptFrom(store, reused, texts, plans, placed, depth, todo, true)
             && todo <= PlacesAt(plans, depth) && p in todo
    ensures PlanAt(plans, p).Some? && |p.path| == depth
    ensures PlanAt(plans, p).value.Branch? ==>
              forall nibble :: nibble in PlanAt(plans, p).value.children ==> Child(p, nibble) in placed
  {
    PlacesKnown(plans, depth);
    var plan := PlanOf(plans, p.consumer);
    assert Digital(plan);
    if PlanAt(plans, p).value.Branch? {
      forall nibble | nibble in PlanAt(plans, p).value.children
        ensures Child(p, nibble) in placed
      {
        SubAppend(plan, p.path, nibble);
        assert PlanAt(plans, Child(p, nibble)).Some?;
        assert Due(Child(p, nibble), depth, todo, true);
        hide TextOf;
        assert PlaceKept(store, reused, texts, plans, placed, Child(p, nibble));
      }
    }
  }

  lemma PlaceDone(store: Store, reused: map<string, Descriptor>, reused': map<string, Descriptor>, texts: set<Raw>,
                  texts': set<Raw>, plans: Plans, placed: map<Place, Descriptor>, depth: int, todo: set<Place>,
                  p: Place, d: Descriptor)
    requires KeptFrom(store, reused, texts, plans, placed, depth, todo, true)
             && KeysFrom(plans, placed, depth, todo, true)
    requires Extends(reused, reused') && texts <= texts' && p in todo && PlanAt(plans, p).Some? && |p.path| == depth
    requires PlanAt(plans, p).value.Branch? ==>
               forall nibble :: nibble in PlanAt(plans, p).value.children ==> Child(p, nibble) in placed
    requires var raw := Encoded(NodeOf(PlanAt(plans, p).value, p, placed));
             raw in texts' && store.size(raw) <= Limit(p.consumer) && store.rawHash(raw) in reused'
             && reused'[store.rawHash(raw)] == d
    ensures KeptFrom(store, reused', texts', plans, placed[p := d], depth, todo - {p}, true)
    ensures KeysFrom(plans, placed[p := d], depth, todo - {p}, true)
  {
    hide PlanAt, NodeOf;
    assert p !in placed;
    assert Extends(placed, placed[p := d]);
    forall q | PlanAt(plans, q).Some? && Due(q, depth, todo - {p}, true)
      ensures PlaceKept(store, reused', texts', plans, placed[p := d], q)
    {
      if q == p {
        SameNode(PlanAt(plans, p).value, p, placed, placed[p := d]);
      } else {
        assert PlaceKept(store, reused, texts, plans, placed, q);
        KeptStays(store, reused, reused', texts, texts', plans, placed, placed[p := d], q);
      }
    }
  }

  lemma PlaceAdds(plans: Plans, before: set<Raw>, texts: set<Raw>, placed: map<Place, Descriptor>, depth: int,
                  todo: set<Place>, p: Place, d: Descriptor)
    requires FromPlaces(plans, placed, before, texts) && KeysFrom(plans, placed, depth, todo, true)
    requires p in todo && PlanAt(plans, p).Some? && |p.path| == depth
    requires PlanAt(plans, p).value.Branch? ==>
               forall nibble :: nibble in PlanAt(plans, p).value.children ==> Child(p, nibble) in placed
    ensures p !in placed
    ensures FromPlaces(plans, placed[p := d], before, texts + {Encoded(NodeOf(PlanAt(plans, p).value, p, placed))})
  {
    hide PlanAt, NodeOf;
    assert p !in placed;
    var placed' := placed[p := d];
    assert Extends(placed, placed');
    forall raw | raw in texts + {Encoded(NodeOf(PlanAt(plans, p).value, p, placed))} && raw !in before
      ensures exists q :: Given(plans, placed', q) && raw == TextOf(plans, placed', q)
    {
      var q := p;
      if raw in texts { q :| Given(plans, placed, q) && raw == TextOf(plans, placed, q); }
      SameNode(PlanAt(plans, q).value, q, placed, placed');
      assert Given(plans, placed', q) && raw == TextOf(plans, placed', q);
    }
  }

  lemma SameNode(plan: Plan, p: Place, descriptors: map<Place, Descriptor>, descriptors': map<Place, Descriptor>)
    requires Extends(descriptors, descriptors')
    requires plan.Branch? ==> forall nibble :: nibble in plan.children ==> Child(p, nibble) in descriptors
    ensures NodeOf(plan, p, descriptors) == NodeOf(plan, p, descriptors')
  {
    if plan.Branch? {
      assert (map nibble | nibble in plan.children :: descriptors[Child(p, nibble)]) == map nibble | nibble
               in plan.children :: descriptors'[Child(p, nibble)];
    }
  }

  function Measuring(store: Store): Measure { records => store.size(Encoded(Node(Some(records), None))) }

  /** Every record can be placed in its tree. */
  ghost predicate Splits(store: Store, hash: Hash, s: Snapshot) {
    && Split(Measuring(store), hash, ConsumerRecords(s), 0, NODE_LIMIT).Some?
    && Split(Measuring(store), hash, WriterRecords(s), 0, WRITER_LIMIT).Some?
  }

  ghost function PlansOf(store: Store, hash: Hash, s: Snapshot): Plans
    requires Splits(store, hash, s)
  {
    Plans(Split(Measuring(store), hash, ConsumerRecords(s), 0, NODE_LIMIT).value,
          Split(Measuring(store), hash, WriterRecords(s), 0, WRITER_LIMIT).value)
  }

  ghost predicate Rooted(root: Root, descriptors: map<Place, Descriptor>) {
    && Place(true, "") in descriptors && root.index == descriptors[Place(true, "")]
    && Place(false, "") in descriptors && root.writer == descriptors[Place(false, "")]
  }

  /** The outcome of a publication: both trees are splits of the snapshot's records, stored from the roots down, and the
      blob `top` names their roots and the metadata. */
  ghost predicate Published(store: Store, hash: Hash, s: Snapshot, metadata: Raw, layers: map<string, Descriptor>,
                            root: Root, top: Descriptor, descriptors: map<Place, Descriptor>) {
    && Splits(store, hash, s) && Rooted(root, descriptors)
    && (forall p ::
          PlanAt(PlansOf(store, hash, s), p).Some? ==>
            PlaceStored(store, PlansOf(store, hash, s), layers, descriptors, p))
    && TopPublished(store, metadata, layers, root, top)
  }

  /** The texts of a publication: those of its nodes, its metadata and its root. */
  ghost predicate Asks(store: Store, hash: Hash, s: Snapshot, metadata: Raw, root: Root,
                       descriptors: map<Place, Descriptor>, before: set<Raw>, after: set<Raw>)
    requires Splits(store, hash, s)
  {
    && before + {metadata, EncodedRoot(root)} <= after
    && forall raw :: raw in after ==>
         raw in before + {metadata, EncodedRoot(root)}
         || exists p ::
              Given(PlansOf(store, hash, s), descriptors, p) && raw == TextOf(PlansOf(store, hash, s), descriptors, p)
  }

  /** Why a publication fails: records that cannot be placed, a text beyond its limit, or a request that was refused. */
  ghost predicate Fails(store: Store, respond: Uploads, hash: Hash, s: Snapshot, metadata: Raw, root: Root,
                        descriptors: map<Place, Descriptor>, reused: map<string, Descriptor>, asked: seq<Raw>,
                        first: nat) {
    || !Splits(store, hash, s) || store.size(metadata) > CATALOG_LIMIT
    || (Rooted(root, descriptors) && MetadataKept(store, reused, metadata, root)
        && store.size(EncodedRoot(root)) > ROOT_LIMIT)
    || Refused(respond, asked, first)
    || exists p :: TooLarge(store, PlansOf(store, hash, s), descriptors, p)
  }

  /** What a publication has done, failed or not: places were given the descriptors of their texts, and the requests
      were for nodes, the metadata and the root over both trees. */
  ghost predicate Tries(store: Store, hash: Hash, s: Snapshot, metadata: Raw, root: Root,
                        descriptors: map<Place, Descriptor>, reused: map<string, Descriptor>, texts: set<Raw>,
                        asked: seq<Raw>, first: nat) {
    if Splits(store, hash, s) then
      && (forall p :: p in descriptors ==> PlaceKept(store, reused, texts, PlansOf(store, hash, s), descriptors, p))
      && (forall k ::
            first <= k < |asked| ==>
              || Writes(PlansOf(store, hash, s), descriptors, asked[k]) || asked[k] == metadata
              || (asked[k] == EncodedRoot(root) && Rooted(root, descriptors)
                  && MetadataKept(store, reused, metadata, root)))
    else |asked| <= first
  }

  lemma NoneTried(store: Store, hash: Hash, s: Snapshot, metadata: Raw, root: Root, reused: map<string, Descriptor>,
                  texts: set<Raw>, asked: seq<Raw>)
    ensures Tries(store, hash, s, metadata, root, map[], reused, texts, asked, |asked|)
  {
  }

  lemma TreesTried(store: Store, hash: Hash, s: Snapshot, metadata: Raw, root: Root,
                   descriptors: map<Place, Descriptor>, reused: map<string, Descriptor>, texts: set<Raw>,
                   asked: seq<Raw>, first: nat)
    requires Splits(store, hash, s) && Requested(PlansOf(store, hash, s), descriptors, asked, first)
    requires forall p :: p in descriptors ==> PlaceKept(store, reused, texts, PlansOf(store, hash, s), descriptors, p)
    ensures Tries(store, hash, s, metadata, root, descriptors, reused, texts, asked, first)
  {
    hide Splits, PlansOf, PlaceKept, Writes;
  }

  lemma RootTried(store: Store, hash: Hash, s: Snapshot, metadata: Raw, root: Root,
                  descriptors: map<Place, Descriptor>, reused: map<string, Descriptor>,
                  reused': map<string, Descriptor>, texts: set<Raw>, texts': set<Raw>, asked: seq<Raw>,
                  asked': seq<Raw>, first: nat)
    requires Splits(store, hash, s) && Rooted(root, descriptors) && Extends(reused, reused') && texts <= texts'
    requires Requested(PlansOf(store, hash, s), descriptors, asked, first) && asked <= asked' && first <= |asked|
    requires forall p :: p in descriptors ==> PlaceKept(store, reused, texts, PlansOf(store, hash, s), descriptors, p)
    requires forall k :: |asked| <= k < |asked'| ==>
               asked'[k] == metadata || (asked'[k] == EncodedRoot(root) && MetadataKept(store, reused', metadata, root))
    ensures Tries(store, hash, s, metadata, root, descriptors, reused', texts', asked', first)
  {
    hide Splits, PlansOf, PlaceKept, Writes, Rooted, MetadataKept, EncodedRoot;
    var plans := PlansOf(store, hash, s);
    forall p | p in descriptors
      ensures PlaceKept(store, reused', texts', plans, descriptors, p)
    {
      KeptStays(store, reused, reused', texts, texts', plans, descriptors, descriptors, p);
    }
    forall k | first <= k < |asked'|
      ensures Writes(plans, descriptors, asked'[k]) || asked'[k] == metadata
              || (asked'[k] == EncodedRoot(root) && MetadataKept(store, reused', metadata, root))
    {
      if k < |asked| { assert asked'[k] == asked[k]; }
    }
  }

  lemma AllKept(store: Store, reused: map<string, Descriptor>, reused': map<string, Descriptor>, texts: set<Raw>,
                texts': set<Raw>, plans: Plans, descriptors: map<Place, Descriptor>)
    requires forall p :: PlanAt(plans, p).Some? ==> PlaceKept(store, reused, texts, plans, descriptors, p)
    requires Extends(reused, reused') && texts <= texts'
    ensures forall p :: PlanAt(plans, p).Some? ==> PlaceKept(store, reused', texts', plans, descriptors, p)
  {
    forall p | PlanAt(plans, p).Some?
      ensures PlaceKept(store, reused', texts', plans, descriptors, p)
    {
      hide PlaceKept;
      KeptStays(store, reused, reused', texts, texts', plans, descriptors, descriptors, p);
    }
  }

  lemma AllStored(store: Store, base: map<string, Descriptor>, reused: map<string, Descriptor>, texts: set<Raw>,
                  plans: Plans, layers: map<string, Descriptor>, descriptors: map<Place, Descriptor>)
    requires forall p :: PlanAt(plans, p).Some? ==> PlaceKept(store, reused, texts, plans, descriptors, p)
    requires Reusable(store, texts, reused) && Laid(base, layers, reused) && Apart(store.rawHash, texts)
    ensures forall p :: PlanAt(plans, p).Some? ==> PlaceStored(store, plans, layers, descriptors, p)
  {
    forall p | PlanAt(plans, p).Some?
      ensures PlaceStored(store, plans, layers, descriptors, p)
    {
      hide PlaceKept, PlaceStored, Reusable, Laid, Apart;
      KeptStored(store, base, reused, texts, plans, layers, descriptors, p);
    }
  }

  /** The root names the metadata by the descriptor under its text's hash. */
  ghost predicate MetadataKept(store: Store, reused: map<string, Descriptor>, metadata: Raw, root: Root) {
    store.rawHash(metadata) in reused && reused[store.rawHash(metadata)] == root.metadata
  }

  /** The metadata and the root have the descriptors under their texts' hashes. */
  ghost predicate TopKept(store: Store, reused: map<string, Descriptor>, metadata: Raw, root: Root, top: Descriptor) {
    && store.rawHash(metadata) in reused && reused[store.rawHash(metadata)] == root.metadata
    && store.size(metadata) <= CATALOG_LIMIT
    && store.rawHash(EncodedRoot(root)) in reused && reused[store.rawHash(EncodedRoot(root))] == top
    && store.size(EncodedRoot(root)) <= ROOT_LIMIT
  }

  ghost predicate TopPublished(store: Store, metadata: Raw, layers: map<string, Descriptor>, root: Root,
                               top: Descriptor) {
    && Carries(store, root.metadata, metadata) && store.size(metadata) <= CATALOG_LIMIT
    && Reaches(layers, root.metadata)
    && Carries(store, top, EncodedRoot(root)) && store.size(EncodedRoot(root)) <= ROOT_LIMIT && Reaches(layers, top)
  }

  lemma TopStored(store: Store, base: map<string, Descriptor>, reused: map<string, Descriptor>, texts: set<Raw>,
                  metadata: Raw, layers: map<string, Descriptor>, root: Root, top: Descriptor)
    requires TopKept(store, reused, metadata, root, top) && metadata in texts && EncodedRoot(root) in texts
    requires Reusable(store, texts, reused) && Laid(base, layers, reused) && Apart(store.rawHash, texts)
    ensures TopPublished(store, metadata, layers, root, top)
  {
    hide EncodedRoot;
  }

  lemma PublishedNow(store: Store, hash: Hash, s: Snapshot, metadata: Raw, layers: map<string, Descriptor>, root: Root,
                     top: Descriptor, descriptors: map<Place, Descriptor>)
    requires Splits(store, hash, s) && Rooted(root, descriptors) && TopPublished(store, metadata, layers, root, top)
    requires forall p ::
               PlanAt(PlansOf(store, hash, s), p).Some? ==>
                 PlaceStored(store, PlansOf(store, hash, s), layers, descriptors, p)
    ensures Published(store, hash, s, metadata, layers, root, top, descriptors)
  {
  }

  lemma AsksFrom(store: Store, hash: Hash, s: Snapshot, metadata: Raw, root: Root, descriptors: map<Place, Descriptor>,
                 before: set<Raw>, known: set<Raw>)
    requires Splits(store, hash, s) && FromPlaces(PlansOf(store, hash, s), descriptors, before, known)
    ensures Asks(store, hash, s, metadata, root, descriptors, before, known + {metadata, EncodedRoot(root)})
  {
    hide Split, ConsumerRecords, WriterRecords, Given, TextOf, EncodedRoot, PlansOf;
  }

  lemma SplitFits(measure: Measure, hash: Hash, records: map<string, Record>, limit: int)
    requires HashText(hash) && Split(measure, hash, records, 0, limit).Some?
    ensures Digital(Split(measure, hash, records, 0, limit).value)
    ensures forall path :: Sub(Split(measure, hash, records, 0, limit).value, path).Some? ==> |path| <= DEPTH
  {
    hide Split, Under;
    var plan := Split(measure, hash, records, 0, limit).value;
    forall path | Sub(plan, path).Some?
      ensures |path| <= DEPTH
      ensures Sub(plan, path).value.Branch? ==>
                forall nibble :: nibble in Sub(plan, path).value.children ==> |nibble| == 1
    {
      SubIsSplit(measure, hash, records, 0, limit, path);
      if Sub(plan, path).value.Branch? {
        forall nibble | nibble in Sub(plan, path).value.children
          ensures |nibble| == 1
        {
          SplitChild(measure, hash, Under(hash, records, 0, path), |path|, limit, nibble);
        }
      }
    }
  }

  lemma SplitsFit(store: Store, hash: Hash, records: map<string, Record>, writer: map<string, Record>)
    requires HashText(hash) && Split(Measuring(store), hash, records, 0, NODE_LIMIT).Some?
    requires Split(Measuring(store), hash, writer, 0, WRITER_LIMIT).Some?
    ensures FitsDepth(Plans(Split(Measuring(store), hash, records, 0, NODE_LIMIT).value,
                            Split(Measuring(store), hash, writer, 0, WRITER_LIMIT).value))
  {
    SplitFits(Measuring(store), hash, records, NODE_LIMIT);
    SplitFits(Measuring(store), hash, writer, WRITER_LIMIT);
    hide Split, Digital;
  }

  ghost predicate SameBlobs(files: map<string, File>) {
    forall a, b :: a in files && b in files && files[a].blob.digest == files[b].blob.digest ==>
      files[a].blob.size == files[b].blob.size && files[a].blob.mediaType == files[b].blob.mediaType
  }

  /** The layers are the blobs of the files. */
  ghost predicate FromFiles(files: map<string, File>, layers: map<string, Descriptor>) {
    && (forall n :: n in files ==> FileOk(layers, files[n]))
    && (forall d :: d in layers ==> exists n :: n in files && files[n].blob == layers[d] && layers[d].digest == d)
  }

  /** The file blobs of a publication's manifest (worker/snapshot.go:345-355). */
  method FileLayers(files: map<string, File>) returns (layers: Option<map<string, Descriptor>>)
    ensures layers.Some? <==> SameBlobs(files) && forall n :: n in files ==> ValidFile(files[n])
    ensures layers.Some? ==> FromFiles(files, layers.value)
  {
    var found: map<string, Descriptor> := map[];
    var names := files.Keys;
    while names != {}
      invariant names <= files.Keys && forall n :: n in files && n !in names ==> FileOk(found, files[n])
      invariant forall d :: d in found ==> exists n :: n in files && files[n].blob == found[d] && found[d].digest == d
      decreases names
    {
      hide ValidFile;
      var name :| name in names;
      if !ValidFile(files[name]) { return None; }
      var d := files[name].blob;
      if d.digest in found && (found[d.digest].size != d.size || found[d.digest].mediaType != d.mediaType) {
        return None;
      }
      found := found[d.digest := d];
      names := names - {name};
    }
    layers := Some(found);
    assert SameBlobs(files) by {
      forall a, b | a in files && b in files && files[a].blob.digest == files[b].blob.digest
        ensures files[a].blob.size == files[b].blob.size && files[a].blob.mediaType == files[b].blob.mediaType
      {
        assert FileOk(found, files[a]) && FileOk(found, files[b]);
      }
    }
  }

  /** Neither tree is deeper than the hash is long. */
  ghost predicate FitsDepth(plans: Plans) {
    Digital(plans.index) && Digital(plans.writer) && forall p :: PlanAt(plans, p).Some? ==> |p.path| <= DEPTH
  }
}

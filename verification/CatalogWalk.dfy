/** Places in the two catalog trees, and what a traversal has gathered from those it visited. */
module CatalogWalk {
  import opened Catalog
  import opened CatalogRecords
  import opened Names
  import opened Snapshots

  datatype Slot = Slot(descriptor: Descriptor, prefix: string, consumer: bool)

  datatype Roots = Roots(index: Descriptor, writer: Descriptor)

  function RootOf(roots: Roots, consumer: bool): Descriptor { if consumer then roots.index else roots.writer }

  /** The slot is a place of one of the trees. */
  ghost predicate SlotOk(content: Content, roots: Roots, b: Slot) {
    At(content, RootOf(roots, b.consumer), b.prefix) == Some(b.descriptor)
  }

  ghost predicate SlotAccepted(content: Content, reachable: map<string, Descriptor>, hash: Hash, b: Slot) {
    NodeIn(content, b.descriptor.digest).Some?
    && Accepts(reachable, hash, NodeIn(content, b.descriptor.digest).value, b.prefix, b.consumer)
  }

  /** A digest stands at one path only. */
  ghost predicate OnePrefix(content: Content, roots: Roots) {
    forall b, c ::
      SlotOk(content, roots, b) && SlotOk(content, roots, c) && b.descriptor.digest == c.descriptor.digest ==>
        b.prefix == c.prefix
  }

  /** `readCatalogBlob` (worker/catalog.go:279-298): neither the blob nor its text is too large. */
  predicate Fits(content: Content, size: Size, d: Descriptor, limit: int) {
    0 < d.size <= limit + CIPHER_SLACK && content(d.digest).Some? && size(content(d.digest).value) <= limit
  }

  /** The blob is not too large for its tree and holds a node. */
  predicate Readable(content: Content, size: Size, d: Descriptor, consumer: bool) {
    Fits(content, size, d, Limit(consumer)) && content(d.digest).value.node.Some?
  }

  ghost predicate Loadable(content: Content, size: Size, reachable: map<string, Descriptor>, hash: Hash, roots: Roots) {
    && (forall b :: SlotOk(content, roots, b) ==>
          SlotAccepted(content, reachable, hash, b) && Readable(content, size, b.descriptor, b.consumer)
          && Reaches(reachable, b.descriptor))
    && OnePrefix(content, roots)
  }

  ghost predicate Gives(content: Content, b: Slot, key: string, r: Record) {
    NodeIn(content, b.descriptor.digest).Some? && key in Records(NodeIn(content, b.descriptor.digest).value)
    && Records(NodeIn(content, b.descriptor.digest).value)[key] == r
  }

  ghost predicate Places(content: Content, b: Slot, name: string, f: File) {
    exists key, r :: Gives(content, b, key, r) && Offers(key, r, name, f)
  }

  /** Files that two places of the trees put under one name are the same. */
  ghost predicate FilesAgree(content: Content, roots: Roots) {
    forall b, c, n, f, g ::
      SlotOk(content, roots, b) && SlotOk(content, roots, c) && Places(content, b, n, f) && Places(content, c, n, g) ==>
        f == g
  }

  // ---- children

  lemma ChildSlot(content: Content, roots: Roots, b: Slot, nibble: string)
    requires SlotOk(content, roots, b) && NodeIn(content, b.descriptor.digest).Some? && |nibble| == 1
    requires nibble in Children(NodeIn(content, b.descriptor.digest).value)
    ensures SlotOk(content, roots,
                   Slot(Children(NodeIn(content, b.descriptor.digest).value)[nibble], b.prefix + nibble, b.consumer))
  {
    var path := b.prefix + nibble;
    assert path[..|path| - 1] == b.prefix && path[|path| - 1..] == nibble;
  }

  lemma ParentSlot(content: Content, roots: Roots, c: Slot) returns (b: Slot, nibble: string)
    requires SlotOk(content, roots, c) && c.prefix != ""
    ensures SlotOk(content, roots, b) && b.consumer == c.consumer && |nibble| == 1 && c.prefix == b.prefix + nibble
    ensures NodeIn(content, b.descriptor.digest).Some? && nibble in Children(NodeIn(content, b.descriptor.digest).value)
    ensures Children(NodeIn(content, b.descriptor.digest).value)[nibble] == c.descriptor
  {
    var n := |c.prefix| - 1;
    b := Slot(At(content, RootOf(roots, c.consumer), c.prefix[..n]).value, c.prefix[..n], c.consumer);
    nibble := c.prefix[n..];
  }

  lemma AcceptedFiles(content: Content, reachable: map<string, Descriptor>, hash: Hash, b: Slot)
    requires SlotAccepted(content, reachable, hash, b)
    ensures RecordsFilesOk(reachable, Records(NodeIn(content, b.descriptor.digest).value))
  {
    var node := NodeIn(content, b.descriptor.digest).value;
    forall k | k in Records(node)
      ensures RecordOk(reachable, hash, b.prefix, b.consumer, k, Records(node)[k])
    {
    }
    hide Accepts, FileOk, ConsumerFile, ValidStorePath, AllStorePaths, NarinfoKey, StartsWith;
  }

  // ---- what was gathered

  ghost predicate GatheredNarinfos(content: Content, visits: seq<Slot>, narinfos: map<string, Narinfo>) {
    && (forall name ::
          name in narinfos ==>
            exists b, r :: b in visits && Gives(content, b, name, r) && r.narinfo == Some(narinfos[name]))
    && (forall b, name, r :: b in visits && Gives(content, b, name, r) && r.narinfo.Some? ==> name in narinfos)
  }

  ghost predicate GatheredUpstream(content: Content, visits: seq<Slot>, upstream: map<string, References>) {
    && (forall name ::
          name in upstream ==>
            exists b, r ::
              b in visits && Gives(content, b, name, r) && r.references.Some? && r.references == upstream[name])
    && (forall b, name, r :: b in visits && Gives(content, b, name, r) && r.references.Some? ==> name in upstream)
  }

  ghost predicate GatheredFiles(content: Content, visits: seq<Slot>, files: map<string, File>) {
    && (forall name :: name in files ==> exists b :: b in visits && Places(content, b, name, files[name]))
    && (forall b, name, f :: b in visits && Places(content, b, name, f) ==> name in files && files[name] == f)
  }

  ghost predicate Gathered(content: Content, visits: seq<Slot>, s: Snapshot) {
    GatheredNarinfos(content, visits, s.narinfos) && GatheredUpstream(content, visits, s.upstream)
    && GatheredFiles(content, visits, s.files)
  }

  lemma InAppended(visits: seq<Slot>, b: Slot)
    ensures forall c :: c in visits + [b] <==> c in visits || c == b
  {
  }

  lemma GatherNarinfos(content: Content, visits: seq<Slot>, b: Slot, narinfos: map<string, Narinfo>)
    requires GatheredNarinfos(content, visits, narinfos) && NodeIn(content, b.descriptor.digest).Some?
    ensures GatheredNarinfos(content, visits + [b],
                             narinfos + NarinfosOf(Records(NodeIn(content, b.descriptor.digest).value)))
  {
    InAppended(visits, b);
    var records := Records(NodeIn(content, b.descriptor.digest).value);
    var all := narinfos + NarinfosOf(records);
    forall name | name in all
      ensures exists c, r :: c in visits + [b] && Gives(content, c, name, r) && r.narinfo == Some(all[name])
    {
      if name in NarinfosOf(records) {
        assert b in visits + [b] && Gives(content, b, name, records[name]) && records[name].narinfo == Some(all[name]);
      } else {
        var c, r :| c in visits && Gives(content, c, name, r) && r.narinfo == Some(narinfos[name]);
        assert c in visits + [b];
      }
    }
  }

  lemma GatherUpstream(content: Content, visits: seq<Slot>, b: Slot, upstream: map<string, References>)
    requires GatheredUpstream(content, visits, upstream) && NodeIn(content, b.descriptor.digest).Some?
    ensures GatheredUpstream(content, visits + [b],
                             upstream + UpstreamOf(Records(NodeIn(content, b.descriptor.digest).value)))
  {
    InAppended(visits, b);
    var records := Records(NodeIn(content, b.descriptor.digest).value);
    var all := upstream + UpstreamOf(records);
    forall name | name in all
      ensures exists c, r ::
                c in visits + [b] && Gives(content, c, name, r) && r.references.Some? && r.references == all[name]
    {
      if name in UpstreamOf(records) {
        assert b in visits + [b] && Gives(content, b, name, records[name]) && records[name].references == all[name];
      } else {
        var c, r :| c in visits && Gives(content, c, name, r) && r.references.Some? && r.references == upstream[name];
        assert c in visits + [b];
      }
    }
  }

  lemma GatherFiles(content: Content, visits: seq<Slot>, b: Slot, before: map<string, File>, after: map<string, File>)
    requires GatheredFiles(content, visits, before) && NodeIn(content, b.descriptor.digest).Some?
    requires var records := Records(NodeIn(content, b.descriptor.digest).value); Joined(before, records, records.Keys,
                 after)
    ensures GatheredFiles(content, visits + [b], after)
  {
    InAppended(visits, b);
    var records := Records(NodeIn(content, b.descriptor.digest).value);
    hide Offers;
    forall name | name in after
      ensures exists c :: c in visits + [b] && Places(content, c, name, after[name])
    {
      if name in before {
        var c :| c in visits && Places(content, c, name, before[name]);
        assert c in visits + [b];
      } else {
        var key :| key in records && Offers(key, records[key], name, after[name]);
        assert Gives(content, b, key, records[key]);
        assert b in visits + [b] && Places(content, b, name, after[name]);
      }
    }
    forall c, name, f | c in visits + [b] && Places(content, c, name, f)
      ensures name in after && after[name] == f
    {
      if c !in visits {
        var key, r :| Gives(content, b, key, r) && Offers(key, r, name, f);
        assert key in records && records[key] == r;
      }
    }
  }

  /** The records of a slot fit what was gathered when all places agree. */
  lemma GatherFits(content: Content, roots: Roots, visits: seq<Slot>, b: Slot, files: map<string, File>)
    requires GatheredFiles(content, visits, files) && FilesAgree(content, roots) && SlotOk(content, roots, b)
    requires NodeIn(content, b.descriptor.digest).Some? && forall c :: c in visits ==> SlotOk(content, roots, c)
    ensures Agree(files, Records(NodeIn(content, b.descriptor.digest).value))
  {
    var records := Records(NodeIn(content, b.descriptor.digest).value);
    hide Offers, SlotOk;
    forall key, n, f | key in records && Offers(key, records[key], n, f)
      ensures Places(content, b, n, f)
    {
      assert Gives(content, b, key, records[key]);
    }
    forall key, n, f | key in records && Offers(key, records[key], n, f) && n in files
      ensures files[n] == f
    {
      assert Places(content, b, n, f);
      var c :| c in visits && Places(content, c, n, files[n]);
      assert SlotOk(content, roots, c);
    }
    forall j, k, n, f, g | j in records && k in records && Offers(j, records[j], n, f) && Offers(k, records[k], n, g)
      ensures f == g
    {
      assert Places(content, b, n, f) && Places(content, b, n, g);
    }
  }

  /** What was gathered from every place shows that the places agree. */
  lemma GatheredAgree(content: Content, roots: Roots, visits: seq<Slot>, files: map<string, File>)
    requires GatheredFiles(content, visits, files) && forall c :: SlotOk(content, roots, c) ==> c in visits
    ensures FilesAgree(content, roots)
  {
    hide Places, SlotOk;
    forall b, c, n, f, g | SlotOk(content, roots, b) && SlotOk(content, roots, c) && Places(content, b, n, f)
                           && Places(content, c, n, g)
      ensures f == g
    {
      assert b in visits && c in visits;
      assert files[n] == f;
      assert files[n] == g;
    }
  }

  /** The records of accepted nodes always pass `ValidateRecords`. */
  lemma GatheredRecordsOk(content: Content, reachable: map<string, Descriptor>, hash: Hash, visits: seq<Slot>,
                          s: Snapshot)
    requires Gathered(content, visits, s) && forall b :: b in visits ==> SlotAccepted(content, reachable, hash, b)
    ensures RecordsOk(s)
  {
    hide Gives, Places, SlotAccepted, NarinfoKey, ValidStorePath, Archive;
    forall p | p in s.upstream
      ensures UpstreamOk(p, s.upstream[p])
    {
      var b, r :| b in visits && Gives(content, b, p, r) && r.references.Some? && r.references == s.upstream[p];
      GivenOk(content, reachable, hash, b, p, r);
    }
    forall name | name in s.narinfos
      ensures NarinfoOk(s.files, name, s.narinfos[name])
    {
      var b, r :| b in visits && Gives(content, b, name, r) && r.narinfo == Some(s.narinfos[name]);
      GivenOk(content, reachable, hash, b, name, r);
      assert Places(content, b, Archive(r.narinfo.value), r.archive.value);
    }
  }

  lemma GivenOk(content: Content, reachable: map<string, Descriptor>, hash: Hash, b: Slot, key: string, r: Record)
    requires SlotAccepted(content, reachable, hash, b) && Gives(content, b, key, r)
    ensures r.references.Some? ==> ValidStorePath(key) && forall x :: x in r.references.value ==> ValidStorePath(x)
    ensures r.narinfo.Some? ==> r.narinfo.value.valid && key == NarinfoKey(r.narinfo.value.storePath) && r.archive.Some?
    ensures r.narinfo.Some? ==> Places(content, b, Archive(r.narinfo.value), r.archive.value)
    ensures ConsumerFile(key) == b.consumer
  {
    assert RecordOk(reachable, hash, b.prefix, b.consumer, key, r);
    if r.narinfo.Some? { assert Offers(key, r, Archive(r.narinfo.value), r.archive.value); }
  }
}

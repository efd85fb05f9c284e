/** What reading a catalog promises, on any store: one leaf per name, and a lookup that agrees with the full load. */
module CatalogTheorems {
  import opened Catalog
  import opened CatalogOrder
  import opened CatalogRecords
  import opened CatalogSchedules
  import opened CatalogViews
  import opened CatalogWalk
  import opened Names
  import opened Snapshots

  /** A traversal that succeeds has checked both trees: every node is valid, a digest stands at one path, and files
      agree. */
  lemma LoadedTree(content: Content, reachable: map<string, Descriptor>, hash: Hash, roots: Roots,
                   prefixes: map<string, string>, visits: seq<Slot>, s: Snapshot)
    requires Everywhere(content, roots, visits) && Gathered(content, visits, s)
    requires forall b :: b in visits ==> Visited(content, reachable, hash, prefixes, b)
    ensures TreeOk(content, reachable, hash, roots.index, true) && TreeOk(content, reachable, hash, roots.writer, false)
    ensures OnePrefix(content, roots) && FilesAgree(content, roots)
  {
    GatheredAgree(content, roots, visits, s.files);
    LoadedTrees(content, reachable, hash, roots, prefixes, visits);
    hide SlotOk, SlotAccepted;
    forall b, c | SlotOk(content, roots, b) && SlotOk(content, roots, c) && b.descriptor.digest == c.descriptor.digest
      ensures b.prefix == c.prefix
    {
      assert b in visits && c in visits;
      assert Visited(content, reachable, hash, prefixes, b) && Visited(content, reachable, hash, prefixes, c);
    }
  }

  lemma LoadedTrees(content: Content, reachable: map<string, Descriptor>, hash: Hash, roots: Roots,
                    prefixes: map<string, string>, visits: seq<Slot>)
    requires Everywhere(content, roots, visits)
    requires forall b :: b in visits ==> Visited(content, reachable, hash, prefixes, b)
    ensures TreeOk(content, reachable, hash, roots.index, true) && TreeOk(content, reachable, hash, roots.writer, false)
  {
    hide Accepts, At;
    forall path | At(content, roots.index, path).Some?
      ensures NodeAt(content, roots.index, path).Some?
              && Accepts(reachable, hash, NodeAt(content, roots.index, path).value, path, true)
    {
      var b := Slot(At(content, roots.index, path).value, path, true);
      assert SlotOk(content, roots, b);
      assert Visited(content, reachable, hash, prefixes, b);
    }
    forall path | At(content, roots.writer, path).Some?
      ensures NodeAt(content, roots.writer, path).Some?
              && Accepts(reachable, hash, NodeAt(content, roots.writer, path).value, path, false)
    {
      var b := Slot(At(content, roots.writer, path).value, path, false);
      assert SlotOk(content, roots, b);
      assert Visited(content, reachable, hash, prefixes, b);
    }
  }

  lemma GivenIsMet(content: Content, roots: Roots, b: Slot, name: string, r: Record)
    requires SlotOk(content, roots, b) && Gives(content, b, name, r)
    ensures Met(content, RootOf(roots, b.consumer), b.prefix, name, r)
  {
  }

  lemma MetIsGiven(content: Content, roots: Roots, path: string, name: string, r: Record) returns (b: Slot)
    requires Met(content, roots.index, path, name, r)
    ensures SlotOk(content, roots, b) && Gives(content, b, name, r) && b.consumer
  {
    b := Slot(At(content, roots.index, path).value, path, true);
  }

  /** The loaded snapshot's narinfos are exactly those of the records met in the consumer tree. */
  lemma LoadedNarinfos(content: Content, reachable: map<string, Descriptor>, hash: Hash, roots: Roots,
                       prefixes: map<string, string>, visits: seq<Slot>, s: Snapshot, name: string, n: Narinfo)
    requires Everywhere(content, roots, visits) && Gathered(content, visits, s)
    requires forall b :: b in visits ==> Visited(content, reachable, hash, prefixes, b)
    ensures (name in s.narinfos && s.narinfos[name] == n)
            <==> exists path, r :: Met(content, roots.index, path, name, r) && r.narinfo == Some(n)
  {
    LoadedTree(content, reachable, hash, roots, prefixes, visits, s);
    hide SlotOk, Gives, TreeOk, Met, SlotAccepted, Accepts, OnePrefix, FilesAgree, GatheredFiles, GatheredUpstream;
    if path, r :| Met(content, roots.index, path, name, r) && r.narinfo == Some(n) {
      MetIsLoaded(content, roots, visits, s, path, name, r);
      var b, q :| b in visits && Gives(content, b, name, q) && q.narinfo == Some(s.narinfos[name]);
      NarinfoFromIndex(content, reachable, hash, roots, prefixes, b, name, q);
      NameOnce(content, reachable, hash, roots.index, true, name, path, b.prefix, r, q);
    }
    if name in s.narinfos && s.narinfos[name] == n {
      var b, q :| b in visits && Gives(content, b, name, q) && q.narinfo == Some(s.narinfos[name]);
      NarinfoFromIndex(content, reachable, hash, roots, prefixes, b, name, q);
    }
  }

  lemma MetIsLoaded(content: Content, roots: Roots, visits: seq<Slot>, s: Snapshot, path: string, name: string,
                    r: Record)
    requires Everywhere(content, roots, visits) && Gathered(content, visits, s)
             && Met(content, roots.index, path, name, r) && r.narinfo.Some?
    ensures name in s.narinfos
  {
    var b := MetIsGiven(content, roots, path, name, r);
    assert b in visits;
  }

  lemma NarinfoFromIndex(content: Content, reachable: map<string, Descriptor>, hash: Hash, roots: Roots,
                         prefixes: map<string, string>, b: Slot, name: string, r: Record)
    requires SlotOk(content, roots, b) && Visited(content, reachable, hash, prefixes, b) && Gives(content, b, name, r)
             && r.narinfo.Some?
    ensures Met(content, roots.index, b.prefix, name, r)
  {
    assert RecordOk(reachable, hash, b.prefix, b.consumer, name, r);
    GivenIsMet(content, roots, b, name, r);
  }

  /** Each record that the hash leads to is met by the traversal. */
  lemma AlongGiven(content: Content, roots: Roots, h: string, key: string) returns (b: Slot)
    requires key in Along(content, roots.index, h, 0)
    ensures SlotOk(content, roots, b) && b.consumer && Gives(content, b, key, Along(content, roots.index, h, 0)[key])
  {
    assert h[..0] == "";
    assert NodeAt(content, roots.index, h[..0]).Some?;
    AlongMeets(content, roots.index, h, 0);
    var j :| 0 <= j <= |h| && NodeAt(content, roots.index, h[..j]).Some?
              && Along(content, roots.index, h, 0) == Records(NodeAt(content, roots.index, h[..j]).value);
    b := MetIsGiven(content, roots, h[..j], key, Along(content, roots.index, h, 0)[key]);
  }

  /** The lookup of a name has the load's narinfo under the name, and nothing that the load does not have. */
  ghost predicate Agrees(name: string, found: Snapshot, all: Snapshot) {
    && (name in found.narinfos <==> name in all.narinfos)
    && (name in all.narinfos ==> found.narinfos[name] == all.narinfos[name])
    && (forall n :: n in found.narinfos ==> n in all.narinfos && all.narinfos[n] == found.narinfos[n])
    && (forall n :: n in found.files ==> n in all.files && all.files[n] == found.files[n])
  }

  /** The lazy lookup of a name agrees with the full load. */
  lemma LookupAgreesWithLoad(content: Content, reachable: map<string, Descriptor>, hash: Hash, roots: Roots,
                             prefixes: map<string, string>, visits: seq<Slot>, all: Snapshot, name: string,
                             found: Snapshot)
    requires Everywhere(content, roots, visits) && Gathered(content, visits, all)
             && Finds(content, roots, hash(name), found)
    requires forall b :: b in visits ==> Visited(content, reachable, hash, prefixes, b)
    ensures Agrees(name, found, all)
  {
    hide Along, SlotOk, Gives, Visited, TreeOk, Met, GatheredUpstream, GatheredFiles, OnePrefix, FilesAgree;
    LoadedTree(content, reachable, hash, roots, prefixes, visits, all);
    var records := Along(content, roots.index, hash(name), 0);
    forall n | n in found.narinfos
      ensures n in all.narinfos && all.narinfos[n] == found.narinfos[n]
    {
      var b := AlongGiven(content, roots, hash(name), n);
      GivenIsMet(content, roots, b, n, records[n]);
      LoadedNarinfos(content, reachable, hash, roots, prefixes, visits, all, n, found.narinfos[n]);
    }
    if name in all.narinfos {
      LoadedNarinfos(content, reachable, hash, roots, prefixes, visits, all, name, all.narinfos[name]);
      var path, r :| Met(content, roots.index, path, name, r) && r.narinfo == Some(all.narinfos[name]);
      LookupAgrees(content, reachable, hash, roots.index, true, name, r);
    }
    LookupFiles(content, roots, visits, all, hash(name), found);
  }

  lemma LookupFiles(content: Content, roots: Roots, visits: seq<Slot>, all: Snapshot, h: string, found: Snapshot)
    requires Everywhere(content, roots, visits) && Gathered(content, visits, all) && Finds(content, roots, h, found)
    ensures forall n :: n in found.files ==> n in all.files && all.files[n] == found.files[n]
  {
    hide Along, SlotOk, Gives, Offers, GatheredUpstream, GatheredNarinfos;
    var records := Along(content, roots.index, h, 0);
    forall n | n in found.files
      ensures n in all.files && all.files[n] == found.files[n]
    {
      var key :| key in records && Offers(key, records[key], n, found.files[n]);
      var b := AlongGiven(content, roots, h, key);
      assert Places(content, b, n, found.files[n]);
    }
  }

  /** After a load, which succeeds exactly when everything it reads answers, the lookup of any name on the same view
      succeeds and agrees with the load. */
  method LoadThenLookup(view: CatalogView, name: string)
    returns (all: Option<Snapshot>, found: Option<Snapshot>, ghost visits: seq<Slot>)
    requires view.Valid() && HashText(view.hash)
    modifies view
    ensures view.Valid() && (all.Some? ==> found.Some? && Agrees(name, found.value, all.value))
    ensures all.Some?
            <==> view.MetadataReads() && AllAnswer(view.Source(), old(view.prefixes), visits)
                 && FilesAgree(view.content, view.roots)
    ensures all.Some? ==>
              Schedule(view.content, view.roots, visits) && Gathered(view.content, visits, all.value)
  {
    ghost var path, before := [], view.prefixes;
    all, visits := view.LoadAll();
    ghost var loaded := view.prefixes;
    found, path := view.Lookup(name);
    if all.Some? {
      LookupAfterLoad(view.Source(), view.roots, before, visits, loaded, name);
      AllVisited(view.Source(), before, visits);
      LookupAgreesWithLoad(view.content, view.reachable, view.hash, view.roots, loaded, visits, all.value, name,
                           found.value);
    }
  }
}

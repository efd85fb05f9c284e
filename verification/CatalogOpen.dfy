/** `openCatalog`: a manifest's layers and its one catalog entry become a view that has read nothing
    (worker/catalog.go:300-344). */
module CatalogOpen {
  import opened Catalog
  import opened CatalogViews
  import opened CatalogWalk
  import opened Names
  import opened Snapshots

  const ROOT_MEDIA := "application/vnd.awked.nix-ci.catalog.v3+age"

  /** A layer of the manifest; `files` is whether its title says that it is the catalog. */
  datatype Layer = Layer(descriptor: Descriptor, files: bool)

  predicate LayerOk(d: Descriptor) { IsDigest(d.digest) && 0 < d.size < BLOB_LIMIT }

  ghost predicate Agreeing(manifest: seq<Layer>) {
    forall i, j :: 0 <= i < j < |manifest| && manifest[i].descriptor.digest == manifest[j].descriptor.digest ==>
      manifest[i].descriptor == manifest[j].descriptor
  }

  ghost predicate Lists(manifest: seq<Layer>, d: Descriptor) {
    exists i :: 0 <= i < |manifest| && manifest[i].descriptor == d
  }

  /** The map has the layers of the manifest by digest. */
  ghost predicate Mapped(manifest: seq<Layer>, reachable: map<string, Descriptor>) {
    && (forall i :: 0 <= i < |manifest| ==>
          manifest[i].descriptor.digest in reachable
          && reachable[manifest[i].descriptor.digest] == manifest[i].descriptor)
    && (forall d :: d in reachable ==> reachable[d].digest == d && Lists(manifest, reachable[d]))
  }

  /** Layer `k` is the catalog of a manifest that can be opened. */
  ghost predicate Opens(content: Content, size: Size, manifest: seq<Layer>, k: nat) {
    && k < |manifest|
    && (forall i :: 0 <= i < |manifest| ==> LayerOk(manifest[i].descriptor) && (manifest[i].files <==> i == k))
    && Agreeing(manifest)
    && manifest[k].descriptor.mediaType == ROOT_MEDIA && Fits(content, size, manifest[k].descriptor, ROOT_LIMIT)
    && content(manifest[k].descriptor.digest).value.root.Some?
    && (var root := content(manifest[k].descriptor.digest).value.root.value;
        Lists(manifest, root.index) && Lists(manifest, root.writer) && Lists(manifest, root.metadata))
  }

  /** A manifest with two layers marked as the catalog, or with none, is not opened. */
  lemma OneEntryOpens(content: Content, size: Size, manifest: seq<Layer>, k: nat)
    requires Opens(content, size, manifest, k)
    ensures k < |manifest| && manifest[k].files && forall i :: 0 <= i < |manifest| && manifest[i].files ==> i == k
    ensures manifest[k].descriptor.mediaType == "application/vnd.awked.nix-ci.catalog.v3+age"
  {
  }

  lemma ListedReached(manifest: seq<Layer>, reachable: map<string, Descriptor>, d: Descriptor)
    requires Mapped(manifest, reachable)
    ensures Reaches(reachable, d) <==> Lists(manifest, d)
  {
  }

  lemma MappedMore(manifest: seq<Layer>, reachable: map<string, Descriptor>, i: nat)
    requires i < |manifest| && Mapped(manifest[..i], reachable) && Agreeing(manifest[..i])
    ensures manifest[i].descriptor.digest in reachable
            && reachable[manifest[i].descriptor.digest] != manifest[i].descriptor ==>
              !Agreeing(manifest)
    ensures var d := manifest[i].descriptor;
            (d.digest in reachable ==> reachable[d.digest] == d) ==>
              Agreeing(manifest[..i + 1]) && Mapped(manifest[..i + 1], reachable[d.digest := d])
  {
    var d := manifest[i].descriptor;
    if d.digest in reachable && reachable[d.digest] != d {
      var j :| 0 <= j < i && manifest[..i][j].descriptor == reachable[d.digest];
      assert manifest[j].descriptor.digest == d.digest;
    } else {
      var after := reachable[d.digest := d];
      forall e | e in after
        ensures after[e].digest == e && Lists(manifest[..i + 1], after[e])
      {
        if e == d.digest {
          assert manifest[..i + 1][i].descriptor == d;
        } else {
          var j :| 0 <= j < i && manifest[..i][j].descriptor == reachable[e];
          assert manifest[..i + 1][j].descriptor == after[e];
        }
      }
      forall j | 0 <= j < i
        ensures manifest[..i + 1][j].descriptor == manifest[..i][j].descriptor
      {
      }
    }
  }

  /** Succeeds exactly when the layers are well described and do not conflict, one of them is the catalog, and it can be
      read and names three layers of the manifest. */
  method OpenCatalog(content: Content, size: Size, hash: Hash, rawHash: RawHash, manifest: seq<Layer>)
    returns (view: Option<CatalogView>, ghost k: nat)
    ensures view.None? ==> forall i :: !Opens(content, size, manifest, i)
    ensures view.Some? ==> Opens(content, size, manifest, k) && fresh(view.value) && view.value.Valid()
    ensures view.Some? ==>
              var (v, root) := (view.value, content(manifest[k].descriptor.digest).value.root.value);
              v.content == content && v.size == size && v.hash == hash && v.rawHash == rawHash
              && Mapped(manifest, v.reachable)
              && v.roots == Roots(root.index, root.writer) && v.metadata == root.metadata && v.prefixes == map[]
  {
    hide Agreeing, Mapped, Fits, LayerOk, Lists;
    var reachable: map<string, Descriptor> := map[];
    var top: Option<Descriptor> := None;
    k := 0;
    MappedNone(manifest);
    for i := 0 to |manifest|
      invariant Agreeing(manifest[..i]) && Mapped(manifest[..i], reachable)
      invariant forall j :: 0 <= j < i ==> LayerOk(manifest[j].descriptor)
      invariant top.None? ==> forall j :: 0 <= j < i ==> !manifest[j].files
      invariant top.Some? ==>
                  k < i && top.value == manifest[k].descriptor
                  && forall j :: 0 <= j < i ==> (manifest[j].files <==> j == k)
    {
      hide Agreeing, Mapped, Fits, LayerOk, Lists;
      var d := manifest[i].descriptor;
      MappedMore(manifest, reachable, i);
      if !LayerOk(d) || (d.digest in reachable && reachable[d.digest] != d) { return None, k; }
      reachable := reachable[d.digest := d];
      if manifest[i].files {
        if top.Some? { return None, k; }
        top, k := Some(d), i;
      }
    }
    assert manifest[..|manifest|] == manifest;
    if top.None? || top.value.mediaType != ROOT_MEDIA || !Fits(content, size, top.value, ROOT_LIMIT) { return None, k; }
    FitsText(content, size, top.value, ROOT_LIMIT);
    if content(top.value.digest).value.root.None? { return None, k; }
    var root := content(top.value.digest).value.root.value;
    ListedReached(manifest, reachable, root.index);
    ListedReached(manifest, reachable, root.writer);
    ListedReached(manifest, reachable, root.metadata);
    if !Reaches(reachable, root.index) || !Reaches(reachable, root.writer) || !Reaches(reachable, root.metadata) {
      return None, k;
    }
    var v := new CatalogView(content, size, hash, rawHash, reachable, root, top.value);
    view := Some(v);
  }

  lemma FitsText(content: Content, size: Size, d: Descriptor, limit: int)
    requires Fits(content, size, d, limit)
    ensures content(d.digest).Some?
  {
  }

  lemma MappedNone(manifest: seq<Layer>)
    ensures manifest[..0] == [] && Agreeing([]) && Mapped([], map[])
  {
  }
}

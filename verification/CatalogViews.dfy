/** `catalogView`: the validator `node`, the lazy `lookup` and the full `loadAll` (worker/catalog.go:361-560). */
module CatalogViews {
  import opened Catalog
  import opened CatalogOrder
  import opened CatalogRecords
  import opened CatalogWalk
  import opened Names
  import opened Snapshots

  /** Stands for `contentDigest` of a node's text. */
  type RawHash = Raw -> string

  // ---- the view's memory

  ghost predicate Cached(content: Content, reachable: map<string, Descriptor>, nodes: map<string, Node>,
                         prefixes: map<string, string>) {
    nodes.Keys == prefixes.Keys && forall d :: d in nodes ==> d in reachable && NodeIn(content, d) == Some(nodes[d])
  }

  /** A remembered digest stands at its remembered path in one of the trees. */
  ghost predicate Bound(content: Content, roots: Roots, prefixes: map<string, string>) {
    forall d ::
      d in prefixes ==> exists b :: SlotOk(content, roots, b) && b.descriptor.digest == d && b.prefix == prefixes[d]
  }

  /** Blobs that a later publication may reuse: each holds the text with the hash it is listed under. */
  ghost predicate BlobsTrue(content: Content, rawHash: RawHash, blobs: map<string, Descriptor>) {
    forall h :: h in blobs ==> content(blobs[h].digest).Some? && rawHash(content(blobs[h].digest).value) == h
  }

  lemma Remembered(content: Content, reachable: map<string, Descriptor>, roots: Roots, nodes: map<string, Node>,
                   prefixes: map<string, string>, b: Slot, node: Node)
    requires Cached(content, reachable, nodes, prefixes) && Bound(content, roots, prefixes) && SlotOk(content, roots, b)
    requires b.descriptor.digest in reachable && NodeIn(content, b.descriptor.digest) == Some(node)
    ensures Cached(content, reachable, nodes[b.descriptor.digest := node], prefixes[b.descriptor.digest := b.prefix])
    ensures Bound(content, roots, prefixes[b.descriptor.digest := b.prefix])
  {
    hide SlotOk;
    var after := prefixes[b.descriptor.digest := b.prefix];
    forall d | d in after
      ensures exists c :: SlotOk(content, roots, c) && c.descriptor.digest == d && c.prefix == after[d]
    {
      if d == b.descriptor.digest {
        assert SlotOk(content, roots, b);
      } else {
        var c :| SlotOk(content, roots, c) && c.descriptor.digest == d && c.prefix == prefixes[d];
      }
    }
  }

  lemma RootSlots(content: Content, roots: Roots)
    ensures SlotOk(content, roots, Slot(roots.index, "", true)) && SlotOk(content, roots, Slot(roots.writer, "", false))
    ensures forall b ::
              SlotOk(content, roots, b) && b.prefix == "" ==>
                b == Slot(roots.index, "", true) || b == Slot(roots.writer, "", false)
  {
  }

  lemma BlobsMore(content: Content, rawHash: RawHash, blobs: map<string, Descriptor>, d: Descriptor)
    requires BlobsTrue(content, rawHash, blobs) && content(d.digest).Some?
    ensures BlobsTrue(content, rawHash, blobs[rawHash(content(d.digest).value) := d])
  {
  }

  /** One turn of the lazy lookup. */
  lemma AlongStep(content: Content, roots: Roots, h: string, k: nat, d: Descriptor, node: Node)
    requires k <= |h| && SlotOk(content, roots, Slot(d, h[..k], true)) && NodeIn(content, d.digest) == Some(node)
    ensures Children(node) == map[] ==> Along(content, roots.index, h, k) == Records(node)
    ensures Children(node) != map[] && k < |h| ==>
              Along(content, roots.index, h, k) == Along(content, roots.index, h, k + 1)
    ensures Children(node) != map[] && k < |h| && h[k..k + 1] !in Children(node) ==>
              Along(content, roots.index, h, k) == map[]
  {
    if k < |h| {
      var path := h[..k + 1];
      assert path[..k] == h[..k] && path[k..] == h[k..k + 1];
    }
  }

  function Upto(n: nat): (s: set<nat>)
    ensures forall i :: i in s <==> 0 <= i < n
  {
    if n == 0 then {} else Upto(n - 1) + {n - 1}
  }

  class CatalogView {
    const content: Content
    const size: Size
    const hash: Hash
    const rawHash: RawHash
    const reachable: map<string, Descriptor>
    const roots: Roots
    const metadata: Descriptor
    var nodes: map<string, Node>
    var prefixes: map<string, string>
    var blobs: map<string, Descriptor>

    ghost function Source(): Reader { Reader(content, size, reachable, hash) }

    ghost predicate Valid()
      reads this
    {
      Cached(content, reachable, nodes, prefixes) && Bound(content, roots, prefixes)
      && BlobsTrue(content, rawHash, blobs)
    }

    /** A view that has read nothing but its root, from the blob `top`. */
    constructor (content: Content, size: Size, hash: Hash, rawHash: RawHash, reachable: map<string, Descriptor>,
                 root: Root, top: Descriptor)
      requires content(top.digest).Some?
      ensures Valid() && this.content == content && this.size == size && this.hash == hash && this.rawHash == rawHash
      ensures this.reachable == reachable && this.roots == Roots(root.index, root.writer)
              && this.metadata == root.metadata
      ensures nodes == map[] && prefixes == map[] && blobs == map[rawHash(content(top.digest).value) := top]
    {
      this.content, this.size, this.hash, this.rawHash, this.reachable := content, size, hash, rawHash, reachable;
      this.roots, this.metadata := Roots(root.index, root.writer), root.metadata;
      nodes, prefixes, blobs := map[], map[], map[rawHash(content(top.digest).value) := top];
    }

    /** The metadata blob can be read and decoded (lines 544-553). */
    predicate MetadataReads() {
      Fits(content, size, metadata, CATALOG_LIMIT) && content(metadata.digest).value.metadata
    }

    /** `node` (lines 361-461), for a place of one of the trees. A node read before is checked again, but not read
        again. */
    method Visit(b: Slot) returns (r: Option<Node>)
      requires Valid() && SlotOk(content, roots, b)
      modifies this`nodes, this`prefixes, this`blobs
      ensures Valid() && prefixes == Learned(Source(), old(prefixes), b)
      ensures r.Some? <==> Answers(Source(), old(prefixes), b)
      ensures r.Some? ==> r == NodeIn(content, b.descriptor.digest)
      ensures r.Some? ==> nodes == old(nodes)[b.descriptor.digest := r.value] && content(b.descriptor.digest).Some?
      ensures r.Some? ==> blobs == if b.descriptor.digest in old(nodes) then old(blobs)
                                   else old(blobs)[rawHash(content(b.descriptor.digest).value) := b.descriptor]
      ensures r.None? ==> nodes == old(nodes) && prefixes == old(prefixes) && blobs == old(blobs)
    {
      hide SlotOk, Accepts, Bound;
      var d := b.descriptor;
      if !Reaches(reachable, d) { return None; }
      if d.digest in prefixes && prefixes[d.digest] != b.prefix { return None; }
      var node := Node(None, None);
      var known := d.digest in nodes;
      if known {
        node := nodes[d.digest];
      } else {
        if !Readable(content, size, d, b.consumer) { return None; }
        node := content(d.digest).value.node.value;
      }
      if !Accepts(reachable, hash, node, b.prefix, b.consumer) { return None; }
      Remembered(content, reachable, roots, nodes, prefixes, b, node);
      nodes := nodes[d.digest := node];
      prefixes := prefixes[d.digest := b.prefix];
      if !known { blobs := blobs[rawHash(content(d.digest).value) := d]; }
      r := Some(node);
    }

    /** `lookup` (lines 491-513): at most 65 nodes, and never past the end of the hash. It succeeds exactly when all
        places on the name's path answer and the files of its leaf agree. */
    method Lookup(name: string) returns (r: Option<Snapshot>, ghost visits: seq<Slot>)
      requires Valid() && HashText(hash)
      modifies this`nodes, this`prefixes, this`blobs
      ensures Valid() && |visits| <= DEPTH + 1 && visits <= PathSlots(content, roots.index, hash(name), 0)
      ensures prefixes == LearnedAll(Source(), old(prefixes), visits)
      ensures r.Some? <==> AllAnswer(Source(), old(prefixes), PathSlots(content, roots.index, hash(name), 0))
                           && Agree(map[], Along(content, roots.index, hash(name), 0))
      ensures r.Some? ==>
                Finds(content, roots, hash(name), r.value) && visits == PathSlots(content, roots.index, hash(name), 0)
    {
      hide SlotOk, Accepts, Bound, Cached, BlobsTrue, Along, Finds, SlotAccepted, RecordsFilesOk, Answers, AllAnswer,
        Learned, LearnedAll, PathSlots, Agree, HashText, Children, Records, Descent;
      var h := hash(name);
      ghost var path := PathSlots(content, roots.index, h, 0);
      var descriptor, prefix := roots.index, "";
      visits := [];
      assert |h| == DEPTH by { HashLength(hash, name); }
      DescentStarts(content, roots, h);
      PathSlotAt(content, roots.index, h, 0);
      NothingRead(Source(), prefixes);
      while true
        invariant Valid() && |prefix| <= DEPTH && prefix == h[..|prefix|]
                  && Descent(content, roots, h, |prefix|, descriptor)
        invariant AllAnswer(Source(), old(prefixes), visits) && prefixes == LearnedAll(Source(), old(prefixes), visits)
        invariant path == visits + PathSlots(content, roots.index, h, |prefix|)
        decreases DEPTH - |prefix|
      {
        hide SlotOk, Accepts, Bound, Cached, BlobsTrue, Along, Finds, SlotAccepted, RecordsFilesOk, Answers, AllAnswer,
          Learned, LearnedAll, PathSlots, Agree, HashText, Children, Records, Descent;
        ghost var k := |prefix|;
        var b := Slot(descriptor, prefix, true);
        DescentSlot(content, roots, h, k, b);
        PathAnswers(Source(), old(prefixes), visits, PathSlots(content, roots.index, h, k), b, path);
        ghost var seen, before := visits, prefixes;
        visits := visits + [b];
        var node := Visit(b);
        if node.None? { return None, visits; }
        AnswersBounds(Source(), before, b, node.value);
        DescentStep(content, roots, h, k, b, node.value);
        PathGoesOn(content, roots, h, k, b, node.value, seen, path);
        if Children(node.value) == map[] {
          r := ReadLeaf(b, node.value, h);
          return r, visits;
        }
        var nibble := h[|prefix|..|prefix| + 1];
        if nibble !in Children(node.value) {
          FindsNothing(content, roots, h);
          return Some(EMPTY), visits;
        }
        descriptor := Children(node.value)[nibble];
        prefix := prefix + nibble;
      }
    }

    /** The records of the leaf where the hash leads. */
    method ReadLeaf(b: Slot, node: Node, ghost h: string) returns (r: Option<Snapshot>)
      requires SlotAccepted(content, reachable, hash, b) && NodeIn(content, b.descriptor.digest) == Some(node)
      requires Along(content, roots.index, h, 0) == Records(node)
      ensures r.Some? <==> Agree(map[], Along(content, roots.index, h, 0))
      ensures r.Some? ==> Finds(content, roots, h, r.value)
    {
      hide SlotAccepted, RecordsFilesOk, Finds, Agree, Along, Joined;
      AcceptedFiles(content, reachable, hash, b);
      r := AddRecords(reachable, EMPTY, Records(node));
      if r.Some? { FindsLeaf(content, roots, h, Records(node), r.value); }
    }

    /** Lines 525-532: the nodes of a level, read in any order. Once one is rejected, workers take no more, but those
        under way finish. */
    method VisitLevel(level: seq<Slot>) returns (found: Option<seq<Node>>, ghost order: seq<Slot>)
      requires Valid() && Distinct(level) && forall b :: b in level ==> SlotOk(content, roots, b)
      modifies this`nodes, this`prefixes, this`blobs
      ensures Valid() && prefixes == LearnedAll(Source(), old(prefixes), order)
      ensures found.Some? <==> AllAnswer(Source(), old(prefixes), order)
      ensures Distinct(order) && (forall b :: b in order ==> b in level)
              && (found.Some? ==> forall b :: b in level ==> b in order)
      ensures found.Some? ==>
                |found.value| == |level|
                && forall i :: 0 <= i < |level| ==> NodeIn(content, level[i].descriptor.digest) == Some(found.value[i])
    {
      hide SlotOk, Accepts, Bound, Cached, BlobsTrue, SlotAccepted, Answers, AllAnswer, Learned, LearnedAll;
      var list := seq(|level|, _ => Node(None, None));
      var rest := Upto(|level|);
      var failed := false;
      order := [];
      NothingRead(Source(), prefixes);
      while rest != {}
        invariant Valid() && |list| == |level| && prefixes == LearnedAll(Source(), old(prefixes), order)
        invariant failed <==> !AllAnswer(Source(), old(prefixes), order)
        invariant forall i :: i in rest ==> 0 <= i < |level|
        invariant Distinct(order) && forall i :: 0 <= i < |level| ==> (i in rest <==> level[i] !in order)
        invariant forall b :: b in order ==> b in level
        invariant !failed ==>
                    forall i ::
                      0 <= i < |level| && i !in rest ==> NodeIn(content, level[i].descriptor.digest) == Some(list[i])
        decreases rest
      {
        hide SlotOk, Accepts, Bound, Cached, BlobsTrue, SlotAccepted, Answers, AllAnswer, Learned, LearnedAll;
        var i :| i in rest;
        AnswerOneMore(Source(), old(prefixes), order, level[i]);
        var node := Visit(level[i]);
        order, rest := order + [level[i]], rest - {i};
        if node.Some? { list := list[i := node.value]; } else { failed := true; }
        if failed {
          if * { return None, order; }
        }
      }
      if failed { return None, order; }
      found := Some(list);
    }

    /** `loadAll` (lines 515-560). It succeeds exactly when every place answers in the order of the visits, all files
        agree and the metadata can be read. */
    method LoadAll() returns (r: Option<Snapshot>, ghost visits: seq<Slot>)
      requires Valid()
      modifies this`nodes, this`prefixes, this`blobs
      ensures Valid() && prefixes == LearnedAll(Source(), old(prefixes), visits)
      ensures Distinct(visits) && LevelByLevel(visits) && forall b :: b in visits ==> SlotOk(content, roots, b)
      ensures r.Some? <==> MetadataReads() && AllAnswer(Source(), old(prefixes), visits) && FilesAgree(content, roots)
      ensures r.Some? ==> Schedule(content, roots, visits) && Gathered(content, visits, r.value) && RecordsOk(r.value)
      ensures r.Some? ==> |visits| <= 2 * |reachable|
      ensures r.Some? ==> var h := rawHash(content(metadata.digest).value); h in blobs && blobs[h] == metadata
    {
      hide SlotOk, Accepts, Bound, Cached, BlobsTrue, SlotAccepted, FilesAgree, Gathered, Everywhere, LevelOk, Visited,
        Distinct, RecordsOk, FilesOk, Answers, AllAnswer, Learned, LearnedAll, LevelByLevel;
      var s := EMPTY;
      visits := [];
      var level := [Slot(roots.index, "", true), Slot(roots.writer, "", false)];
      ghost var depth := 0;
      NothingRead(Source(), prefixes);
      TraversalStarts(content, roots, level);
      GatheringStarts(content, reachable);
      while level != []
        invariant Valid() && Traversal(content, roots, visits, level, depth) && depth <= DEPTH + 1
        invariant AllAnswer(Source(), old(prefixes), visits) && prefixes == LearnedAll(Source(), old(prefixes), visits)
        invariant LevelByLevel(visits) && Gathered(content, visits, s) && FilesOk(reachable, s.files)
        decreases DEPTH + 1 - depth
      {
        hide SlotOk, Accepts, Bound, Cached, BlobsTrue, SlotAccepted, FilesAgree, Gathered, Everywhere, Traversal,
          Visited, Distinct, RecordsOk, FilesOk, Kept, Answers, AllAnswer, Learned, LearnedAll, LevelByLevel;
        LevelSlots(content, roots, visits, level, depth);
        ghost var seen, before := visits, prefixes;
        var found, order := VisitLevel(level);
        AnswerMore(Source(), old(prefixes), seen, order);
        LevelVisited(content, roots, seen, level, order, depth);
        visits := seen + order;
        if found.None? { return None, visits; }
        LevelFits(Source(), before, level, order, depth);
        var expanded := Expand(level, found.value, s, seen);
        if expanded.None? { return None, visits; }
        var next := expanded.value.1;
        NextLevel(content, roots, reachable, hash, seen, level, order, found.value, next, depth);
        GatheredSame(content, seen, level, order, expanded.value.0);
        s, level, depth := expanded.value.0, next, depth + 1;
      }
      TraversalEnds(content, roots, visits, depth);
      if !MetadataReads() { return None, visits; }
      AllVisited(Source(), old(prefixes), visits);
      GatheredRecordsOk(content, reachable, hash, visits, s);
      var valid := ValidateRecords(s);
      VisitsBounded(content, roots, reachable, hash, prefixes, visits);
      GatheredEverywhere(content, roots, visits, s);
      BlobsMore(content, rawHash, blobs, metadata);
      blobs := blobs[rawHash(content(metadata.digest).value) := metadata];
      r := Some(s);
    }

    /** Lines 533-541: the records of a level join the snapshot, and its children are the next level. */
    method Expand(level: seq<Slot>, list: seq<Node>, s: Snapshot, ghost visits: seq<Slot>)
      returns (r: Option<(Snapshot, seq<Slot>)>)
      requires |level| == |list| && Distinct(level) && Gathered(content, visits, s) && FilesOk(reachable, s.files)
      requires forall b :: b in visits || b in level ==> SlotOk(content, roots, b)
      requires forall i :: 0 <= i < |level| ==> NodeIn(content, level[i].descriptor.digest) == Some(list[i])
      requires forall i :: 0 <= i < |level| ==> SlotAccepted(content, reachable, hash, level[i])
      ensures r.Some? ==> Gathered(content, visits + level, r.value.0) && FilesOk(reachable, r.value.0.files)
      ensures r.Some? ==> Expanded(level, list, |level|, r.value.1)
      ensures FilesAgree(content, roots) ==> r.Some?
    {
      hide SlotOk, Accepts, SlotAccepted, FilesAgree, Gathered, FilesOk, RecordsFilesOk, Expanded, Distinct;
      var t, next := s, [];
      ExpandStarts(level, list);
      assert visits + level[..0] == visits;
      for i := 0 to |level|
        invariant Gathered(content, visits + level[..i], t) && FilesOk(reachable, t.files)
                  && Expanded(level, list, i, next)
      {
        hide SlotOk, Accepts, SlotAccepted, FilesAgree, Gathered, FilesOk, RecordsFilesOk, Expanded, Distinct;
        var b := level[i];
        assert b in level;
        AcceptedFiles(content, reachable, hash, b);
        GatherMore(content, roots, visits, level, i, t);
        var added := AddRecords(reachable, t, Records(list[i]));
        if added.None? { return None; }
        GatherJoined(content, visits + level[..i], b, t, added.value);
        assert visits + level[..i + 1] == visits + level[..i] + [b];
        NodeBounds(content, reachable, hash, b, list[i]);
        var children := ChildSlots(b, list[i]);
        ExpandStep(content, roots, reachable, hash, level, list, i, next, children);
        t, next := added.value, next + children;
      }
      assert level[..|level|] == level;
      r := Some((t, next));
    }

    /** Lines 538-540. */
    method ChildSlots(b: Slot, node: Node) returns (children: seq<Slot>)
      requires forall nibble :: nibble in Children(node) ==> |nibble| == 1
      ensures Distinct(children) && forall c :: c in children <==> IsChild(b, node, c)
    {
      hide Distinct, Sort, IsChild, Children, Elements;
      var keys := Enumerate(Children(node).Keys);
      SortKeeps(keys);
      keys := Sort(keys);
      KeysIn(keys, Children(node));
      children := [];
      for i := 0 to |keys|
        invariant |children| == i
        invariant forall k ::
                    0 <= k < i ==> children[k] == Slot(Children(node)[keys[k]], b.prefix + keys[k], b.consumer)
      {
        children := children + [Slot(Children(node)[keys[i]], b.prefix + keys[i], b.consumer)];
      }
      ChildrenListed(b, node, keys, children);
    }
  }

  /** The slots at one depth. */
  ghost predicate LevelOk(content: Content, roots: Roots, level: seq<Slot>, depth: nat) {
    Distinct(level) && forall b :: b in level <==> SlotOk(content, roots, b) && |b.prefix| == depth
  }

  ghost predicate Above(content: Content, roots: Roots, visits: seq<Slot>, depth: nat) {
    Distinct(visits) && forall b :: b in visits <==> SlotOk(content, roots, b) && |b.prefix| < depth
  }

  ghost predicate Traversal(content: Content, roots: Roots, visits: seq<Slot>, level: seq<Slot>, depth: nat) {
    LevelOk(content, roots, level, depth) && Above(content, roots, visits, depth)
  }

  ghost predicate IsChild(b: Slot, node: Node, c: Slot) {
    exists nibble :: nibble in Children(node) && c == Slot(Children(node)[nibble], b.prefix + nibble, b.consumer)
  }

  /** `next` lists the children of the first `n` slots. */
  ghost predicate Expanded(level: seq<Slot>, list: seq<Node>, n: nat, next: seq<Slot>)
    requires n <= |level| == |list|
  {
    Distinct(next) && forall c :: c in next <==> exists i :: 0 <= i < n && IsChild(level[i], list[i], c)
  }

  lemma KeysIn(keys: seq<string>, children: map<string, Descriptor>)
    requires Elements(keys) == children.Keys
    ensures forall k :: 0 <= k < |keys| ==> keys[k] in children
  {
    forall k | 0 <= k < |keys|
      ensures keys[k] in children
    {
      assert keys[k] in Elements(keys);
    }
  }

  lemma ChildrenListed(b: Slot, node: Node, keys: seq<string>, children: seq<Slot>)
    requires Distinct(keys) && Elements(keys) == Children(node).Keys && |children| == |keys|
    requires forall k ::
               0 <= k < |keys| ==>
                 keys[k] in Children(node)
                 && children[k] == Slot(Children(node)[keys[k]], b.prefix + keys[k], b.consumer)
    ensures Distinct(children) && forall c :: c in children <==> IsChild(b, node, c)
  {
    forall i, j | 0 <= i < j < |children|
      ensures children[i] != children[j]
    {
      assert children[i].prefix[|b.prefix|..] == keys[i] && children[j].prefix[|b.prefix|..] == keys[j];
    }
    forall c | IsChild(b, node, c)
      ensures c in children
    {
      var nibble :| nibble in Children(node) && c == Slot(Children(node)[nibble], b.prefix + nibble, b.consumer);
      assert nibble in Elements(keys);
      var k :| 0 <= k < |keys| && keys[k] == nibble;
      assert children[k] == c;
    }
  }

  lemma ExpandStarts(level: seq<Slot>, list: seq<Node>)
    requires |level| == |list|
    ensures Expanded(level, list, 0, [])
  {
  }

  lemma SlotDetermined(content: Content, roots: Roots, b: Slot, c: Slot)
    requires SlotOk(content, roots, b) && SlotOk(content, roots, c) && b.prefix == c.prefix && b.consumer == c.consumer
    ensures b == c
  {
  }

  /** A slot is the child of one slot only. */
  lemma OneParent(content: Content, roots: Roots, a: Slot, node: Node, b: Slot, other: Node, c: Slot)
    requires SlotOk(content, roots, a) && SlotOk(content, roots, b) && IsChild(a, node, c) && IsChild(b, other, c)
    requires (forall nibble :: nibble in Children(node) ==> |nibble| == 1)
             && (forall nibble :: nibble in Children(other) ==> |nibble| == 1)
    ensures a == b
  {
    hide SlotOk;
    var m :| m in Children(node) && c == Slot(Children(node)[m], a.prefix + m, a.consumer);
    var n :| n in Children(other) && c == Slot(Children(other)[n], b.prefix + n, b.consumer);
    var k := |c.prefix| - 1;
    assert a.prefix == c.prefix[..k] && b.prefix == c.prefix[..k];
    SlotDetermined(content, roots, a, b);
  }

  lemma DistinctAppend(s: seq<Slot>, t: seq<Slot>)
    requires Distinct(s) && Distinct(t) && forall x :: x in s ==> x !in t
    ensures Distinct(s + t) && forall x :: x in s + t <==> x in s || x in t
  {
    forall i, j | 0 <= i < j < |s + t|
      ensures (s + t)[i] != (s + t)[j]
    {
      if i < |s| <= j { assert s[i] in s && t[j - |s|] in t; }
    }
  }

  lemma ExpandStep(content: Content, roots: Roots, reachable: map<string, Descriptor>, hash: Hash, level: seq<Slot>,
                   list: seq<Node>, i: nat, next: seq<Slot>, children: seq<Slot>)
    requires i < |level| == |list| && Expanded(level, list, i, next) && Distinct(level) && Distinct(children)
    requires forall c :: c in children <==> IsChild(level[i], list[i], c)
    requires forall b :: b in level ==> SlotOk(content, roots, b)
    requires forall k :: 0 <= k < |level| ==> SlotAccepted(content, reachable, hash, level[k])
    requires forall k :: 0 <= k < |level| ==> NodeIn(content, level[k].descriptor.digest) == Some(list[k])
    ensures Expanded(level, list, i + 1, next + children)
  {
    hide SlotOk, IsChild, SlotAccepted;
    forall c | c in next
      ensures c !in children
    {
      var k :| 0 <= k < i && IsChild(level[k], list[k], c);
      NodeBounds(content, reachable, hash, level[k], list[k]);
      NodeBounds(content, reachable, hash, level[i], list[i]);
      if c in children {
        OneParent(content, roots, level[k], list[k], level[i], list[i], c);
        assert false;
      }
    }
    DistinctAppend(next, children);
    forall c | c in next + children
      ensures exists k :: 0 <= k < i + 1 && IsChild(level[k], list[k], c)
    {
      if c in next {
        var k :| 0 <= k < i && IsChild(level[k], list[k], c);
        assert 0 <= k < i + 1;
      } else {
        assert IsChild(level[i], list[i], c);
      }
    }
  }

  lemma GatherMore(content: Content, roots: Roots, visits: seq<Slot>, level: seq<Slot>, i: nat, s: Snapshot)
    requires i < |level| && Gathered(content, visits + level[..i], s)
             && NodeIn(content, level[i].descriptor.digest).Some?
    requires forall b :: b in visits || b in level ==> SlotOk(content, roots, b)
    ensures FilesAgree(content, roots) ==> Agree(s.files, Records(NodeIn(content, level[i].descriptor.digest).value))
  {
    hide SlotOk, FilesAgree, Agree;
    if FilesAgree(content, roots) {
      assert level[i] in level;
      forall c | c in visits + level[..i]
        ensures SlotOk(content, roots, c)
      {
      }
      GatherFits(content, roots, visits + level[..i], level[i], s.files);
    }
  }

  lemma GatherJoined(content: Content, visits: seq<Slot>, b: Slot, s: Snapshot, t: Snapshot)
    requires Gathered(content, visits, s) && NodeIn(content, b.descriptor.digest).Some?
    requires var records := Records(NodeIn(content, b.descriptor.digest).value);
             Joined(s.files, records, records.Keys, t.files)
             && t.narinfos == s.narinfos + NarinfosOf(records) && t.upstream == s.upstream + UpstreamOf(records)
    ensures Gathered(content, visits + [b], t)
  {
    hide GatheredNarinfos, GatheredUpstream, GatheredFiles, Joined, NarinfosOf, UpstreamOf;
    GatherNarinfos(content, visits, b, s.narinfos);
    GatherUpstream(content, visits, b, s.upstream);
    GatherFiles(content, visits, b, s.files, t.files);
  }

  lemma LevelSlots(content: Content, roots: Roots, visits: seq<Slot>, level: seq<Slot>, depth: nat)
    requires Traversal(content, roots, visits, level, depth)
    ensures Distinct(level) && forall b :: b in visits || b in level ==> SlotOk(content, roots, b)
    ensures forall b :: b in level ==> |b.prefix| == depth
  {
    hide SlotOk;
  }

  /** The visits with those of one more level, which may have been left unfinished. */
  lemma LevelVisited(content: Content, roots: Roots, visits: seq<Slot>, level: seq<Slot>, order: seq<Slot>, depth: nat)
    requires Traversal(content, roots, visits, level, depth) && LevelByLevel(visits)
    requires Distinct(order) && forall b :: b in order ==> b in level
    ensures Distinct(visits + order) && LevelByLevel(visits + order)
            && forall b :: b in visits + order ==> SlotOk(content, roots, b)
    ensures (forall b :: b in level ==> b in order) ==> Above(content, roots, visits + order, depth + 1)
  {
    hide SlotOk;
    DistinctAppend(visits, order);
    var all := visits + order;
    forall i, j | 0 <= i < j < |all|
      ensures |all[i].prefix| <= |all[j].prefix|
    {
      if i < |visits| { assert visits[i] in visits; } else { assert order[i - |visits|] in order; }
      if j >= |visits| { assert order[j - |visits|] in order; }
    }
  }

  lemma LevelFits(v: Reader, before: map<string, string>, level: seq<Slot>, order: seq<Slot>, depth: nat)
    requires AllAnswer(v, before, order) && level != [] && (forall b :: b in level ==> b in order)
    requires forall b :: b in level ==> |b.prefix| == depth
    ensures depth <= DEPTH && forall i :: 0 <= i < |level| ==> SlotAccepted(v.content, v.reachable, v.hash, level[i])
  {
    AnsweredRemembered(v, before, order);
    hide AllAnswer, LearnedAll, Accepts;
    forall i | 0 <= i < |level|
      ensures SlotAccepted(v.content, v.reachable, v.hash, level[i])
    {
      assert level[i] in level;
      var j :| 0 <= j < |order| && order[j] == level[i];
      assert Visited(v.content, v.reachable, v.hash, LearnedAll(v, before, order), order[j]);
    }
    AcceptedDepth(v, level[0]);
  }

  lemma AcceptedDepth(v: Reader, b: Slot)
    requires SlotAccepted(v.content, v.reachable, v.hash, b)
    ensures |b.prefix| <= DEPTH
  {
  }

  /** A slot at the next depth is the child of a slot at this one. */
  lemma NextLevel(content: Content, roots: Roots, reachable: map<string, Descriptor>, hash: Hash, visits: seq<Slot>,
                  level: seq<Slot>, order: seq<Slot>, list: seq<Node>, next: seq<Slot>, depth: nat)
    requires Above(content, roots, visits + order, depth + 1) && LevelOk(content, roots, level, depth)
    requires |level| == |list| && Expanded(level, list, |level|, next)
    requires forall i :: 0 <= i < |level| ==> SlotAccepted(content, reachable, hash, level[i])
    requires forall i :: 0 <= i < |level| ==> NodeIn(content, level[i].descriptor.digest) == Some(list[i])
    ensures Traversal(content, roots, visits + order, next, depth + 1)
  {
    hide SlotOk, SlotAccepted;
    forall c | c in next
      ensures SlotOk(content, roots, c) && |c.prefix| == depth + 1
    {
      var i :| 0 <= i < |level| && IsChild(level[i], list[i], c);
      assert level[i] in level;
      NodeBounds(content, reachable, hash, level[i], list[i]);
      var nibble :| nibble in Children(list[i])
                    && c == Slot(Children(list[i])[nibble], level[i].prefix + nibble, level[i].consumer);
      ChildSlot(content, roots, level[i], nibble);
    }
    forall c | SlotOk(content, roots, c) && |c.prefix| == depth + 1
      ensures c in next
    {
      var b, nibble := ParentSlot(content, roots, c);
      assert b in level;
      var i :| 0 <= i < |level| && level[i] == b;
      assert IsChild(level[i], list[i], c);
    }
  }

  /** What is gathered does not depend on the order of the visits. */
  lemma GatheredSame(content: Content, visits: seq<Slot>, level: seq<Slot>, order: seq<Slot>, s: Snapshot)
    requires Gathered(content, visits + level, s) && forall b :: b in level <==> b in order
    ensures Gathered(content, visits + order, s)
  {
    assert forall b :: b in visits + level <==> b in visits + order;
    GatheredBy(content, visits + level, visits + order, s);
  }

  lemma GatheredBy(content: Content, visits: seq<Slot>, others: seq<Slot>, s: Snapshot)
    requires Gathered(content, visits, s) && forall b :: b in visits <==> b in others
    ensures Gathered(content, others, s)
  {
    hide Gives, Places;
  }

  lemma Ancestor(content: Content, roots: Roots, b: Slot, depth: nat) returns (c: Slot)
    requires SlotOk(content, roots, b) && |b.prefix| >= depth
    ensures SlotOk(content, roots, c) && |c.prefix| == depth
  {
    AtPrefix(content, RootOf(roots, b.consumer), b.prefix, depth);
    c := Slot(At(content, RootOf(roots, b.consumer), b.prefix[..depth]).value, b.prefix[..depth], b.consumer);
  }

  /** Without a next level there is nothing deeper. */
  lemma TraversalEnds(content: Content, roots: Roots, visits: seq<Slot>, depth: nat)
    requires Traversal(content, roots, visits, [], depth) && LevelByLevel(visits)
    ensures Schedule(content, roots, visits)
  {
    hide SlotOk;
    forall b | SlotOk(content, roots, b)
      ensures |b.prefix| < depth
    {
      if |b.prefix| >= depth {
        var c := Ancestor(content, roots, b, depth);
        assert false;
      }
    }
  }

  lemma AllVisited(v: Reader, before: map<string, string>, visits: seq<Slot>)
    requires AllAnswer(v, before, visits)
    ensures forall b :: b in visits ==> Visited(v.content, v.reachable, v.hash, LearnedAll(v, before, visits), b)
    ensures forall b :: b in visits ==> SlotAccepted(v.content, v.reachable, v.hash, b)
  {
    AnsweredRemembered(v, before, visits);
    hide AllAnswer, LearnedAll, SlotAccepted;
    forall b | b in visits
      ensures Visited(v.content, v.reachable, v.hash, LearnedAll(v, before, visits), b)
    {
      var i :| 0 <= i < |visits| && visits[i] == b;
      assert Visited(v.content, v.reachable, v.hash, LearnedAll(v, before, visits), visits[i]);
    }
  }

  lemma NothingRead(v: Reader, memory: map<string, string>)
    ensures AllAnswer(v, memory, []) && LearnedAll(v, memory, []) == memory
  {
  }

  lemma GatheredEverywhere(content: Content, roots: Roots, visits: seq<Slot>, s: Snapshot)
    requires Gathered(content, visits, s) && Schedule(content, roots, visits)
    ensures FilesAgree(content, roots)
  {
    GatheredAgree(content, roots, visits, s.files);
  }

  function Digests(slots: set<Slot>): set<string> { set b | b in slots :: b.descriptor.digest }

  lemma {:induction false} DigestsSize(slots: set<Slot>)
    requires forall b, c :: b in slots && c in slots && b.descriptor.digest == c.descriptor.digest ==> b == c
    ensures |Digests(slots)| == |slots|
  {
    if slots != {} {
      var b :| b in slots;
      DigestsSize(slots - {b});
      assert Digests(slots) == Digests(slots - {b}) + {b.descriptor.digest};
      assert b.descriptor.digest !in Digests(slots - {b});
    }
  }

  /** A digest stands at one path, so at one place of each tree: a traversal is at most twice as long as the
      manifest. */
  lemma VisitsBounded(content: Content, roots: Roots, reachable: map<string, Descriptor>, hash: Hash,
                      prefixes: map<string, string>, visits: seq<Slot>)
    requires Distinct(visits)
             && forall b :: b in visits ==> SlotOk(content, roots, b) && Visited(content, reachable, hash, prefixes, b)
    ensures |visits| <= 2 * |reachable|
  {
    hide SlotOk, Visited, Distinct;
    DistinctSize(visits);
    var all := Elements(visits);
    var consumers, writers := set b | b in all && b.consumer, set b | b in all && !b.consumer;
    assert all == consumers + writers && consumers !! writers;
    HalfBounded(content, roots, reachable, hash, prefixes, consumers, true);
    HalfBounded(content, roots, reachable, hash, prefixes, writers, false);
  }

  lemma HalfBounded(content: Content, roots: Roots, reachable: map<string, Descriptor>, hash: Hash,
                    prefixes: map<string, string>, slots: set<Slot>, consumer: bool)
    requires forall b ::
               b in slots ==>
                 b.consumer == consumer && SlotOk(content, roots, b) && Visited(content, reachable, hash, prefixes, b)
    ensures |slots| <= |reachable|
  {
    hide SlotOk, SlotAccepted;
    forall b, c | b in slots && c in slots && b.descriptor.digest == c.descriptor.digest
      ensures b == c
    {
      SlotDetermined(content, roots, b, c);
    }
    DigestsSize(slots);
    SubsetSize(Digests(slots), reachable.Keys);
  }

  lemma GatheringStarts(content: Content, reachable: map<string, Descriptor>)
    ensures Gathered(content, [], EMPTY) && FilesOk(reachable, EMPTY.files)
  {
  }

  lemma TraversalStarts(content: Content, roots: Roots, level: seq<Slot>)
    requires level == [Slot(roots.index, "", true), Slot(roots.writer, "", false)]
    ensures Traversal(content, roots, [], level, 0) && LevelByLevel([])
  {
    RootSlots(content, roots);
    assert forall b :: b in level <==> b == level[0] || b == level[1];
  }

  /** The snapshot that a lookup answers with: the records that the hash leads to. */
  ghost predicate Finds(content: Content, roots: Roots, h: string, s: Snapshot) {
    var records := Along(content, roots.index, h, 0);
    s.narinfos == NarinfosOf(records) && s.upstream == UpstreamOf(records)
    && Joined(map[], records, records.Keys, s.files)
  }

  lemma FindsLeaf(content: Content, roots: Roots, h: string, records: map<string, Record>, s: Snapshot)
    requires records == Along(content, roots.index, h, 0) && Joined(EMPTY.files, records, records.Keys, s.files)
    requires s.narinfos == EMPTY.narinfos + NarinfosOf(records) && s.upstream == EMPTY.upstream + UpstreamOf(records)
    ensures Finds(content, roots, h, s)
  {
    assert EMPTY.narinfos + NarinfosOf(records) == NarinfosOf(records);
    assert EMPTY.upstream + UpstreamOf(records) == UpstreamOf(records);
  }

  lemma FindsNothing(content: Content, roots: Roots, h: string)
    requires Along(content, roots.index, h, 0) == map[]
    ensures Finds(content, roots, h, EMPTY) && Agree(map[], Along(content, roots.index, h, 0))
  {
  }

  lemma NodeBounds(content: Content, reachable: map<string, Descriptor>, hash: Hash, b: Slot, node: Node)
    requires SlotAccepted(content, reachable, hash, b) && NodeIn(content, b.descriptor.digest) == Some(node)
    ensures |b.prefix| <= DEPTH && (Children(node) != map[] ==> |b.prefix| < DEPTH)
    ensures forall nibble :: nibble in Children(node) ==> |nibble| == 1
    ensures forall nibble :: nibble in Children(node) ==> Reaches(reachable, Children(node)[nibble])
  {
  }

  lemma AnswersBounds(v: Reader, memory: map<string, string>, b: Slot, node: Node)
    requires Answers(v, memory, b) && NodeIn(v.content, b.descriptor.digest) == Some(node)
    ensures |b.prefix| <= DEPTH && (Children(node) != map[] ==> |b.prefix| < DEPTH)
    ensures forall nibble :: nibble in Children(node) ==> |nibble| == 1
    ensures SlotAccepted(v.content, v.reachable, v.hash, b)
  {
    NodeBounds(v.content, v.reachable, v.hash, b, node);
  }

  lemma HashLength(hash: Hash, name: string)
    requires HashText(hash)
    ensures |hash(name)| == DEPTH
  {
  }

  /** Following the hash has led to `d` at depth `k`. */
  ghost predicate Descent(content: Content, roots: Roots, h: string, k: nat, d: Descriptor)
    requires k <= |h|
  {
    SlotOk(content, roots, Slot(d, h[..k], true))
    && Along(content, roots.index, h, 0) == Along(content, roots.index, h, k)
  }

  lemma DescentStarts(content: Content, roots: Roots, h: string)
    ensures Descent(content, roots, h, 0, roots.index)
  {
    assert h[..0] == "";
  }

  lemma DescentSlot(content: Content, roots: Roots, h: string, k: nat, b: Slot)
    requires k <= |h| && Descent(content, roots, h, k, b.descriptor) && b.prefix == h[..k] && b.consumer
    ensures SlotOk(content, roots, b) && PathSlots(content, roots.index, h, k) != []
            && PathSlots(content, roots.index, h, k)[0] == b
  {
    hide Along;
  }

  lemma DescentStep(content: Content, roots: Roots, h: string, k: nat, b: Slot, node: Node)
    requires k <= |h| && Descent(content, roots, h, k, b.descriptor) && b.prefix == h[..k] && b.consumer
    requires NodeIn(content, b.descriptor.digest) == Some(node)
    ensures Children(node) == map[] ==> Along(content, roots.index, h, 0) == Records(node)
    ensures k < |h| && h[k..k + 1] in Children(node) ==>
              h[..k + 1] == h[..k] + h[k..k + 1] && Descent(content, roots, h, k + 1, Children(node)[h[k..k + 1]])
    ensures k < |h| && Children(node) != map[] && h[k..k + 1] !in Children(node) ==>
              Along(content, roots.index, h, 0) == map[]
  {
    AlongStep(content, roots, h, k, b.descriptor, node);
    if k < |h| && h[k..k + 1] in Children(node) {
      assert h[..k + 1] == h[..k] + h[k..k + 1];
      ChildSlot(content, roots, b, h[k..k + 1]);
    }
  }

  /** One more place of the path. */
  lemma PathAnswers(v: Reader, before: map<string, string>, visits: seq<Slot>, rest: seq<Slot>, b: Slot,
                    path: seq<Slot>)
    requires AllAnswer(v, before, visits) && rest != [] && rest[0] == b && path == visits + rest
    ensures visits + [b] <= path
    ensures AllAnswer(v, before, visits + [b]) <==> Answers(v, LearnedAll(v, before, visits), b)
    ensures LearnedAll(v, before, visits + [b]) == Learned(v, LearnedAll(v, before, visits), b)
    ensures AllAnswer(v, before, path) ==> AllAnswer(v, before, visits + [b])
  {
    hide *;
    AnswerOneMore(v, before, visits, b);
    AnswerMore(v, before, visits + [b], rest[1..]);
    assert path == visits + [b] + rest[1..];
  }

  lemma PathGoesOn(content: Content, roots: Roots, h: string, k: nat, b: Slot, node: Node, visits: seq<Slot>,
                   path: seq<Slot>)
    requires k <= |h| && b.prefix == h[..k] && b.consumer && SlotOk(content, roots, b)
             && NodeIn(content, b.descriptor.digest) == Some(node)
    requires path == visits + PathSlots(content, roots.index, h, k)
    ensures k < |h| && h[k..k + 1] in Children(node) ==>
              path == visits + [b] + PathSlots(content, roots.index, h, k + 1)
    ensures k < |h| && h[k..k + 1] !in Children(node) ==> path == visits + [b]
    ensures Children(node) == map[] ==> path == visits + [b]
  {
    PathRest(content, roots, h, k, b, node);
    hide PathSlots, SlotOk, NodeIn, Children;
    if k < |h| && h[k..k + 1] in Children(node) {
      assert visits + ([b] + PathSlots(content, roots.index, h, k + 1)) == visits + [b] + PathSlots(content,
                 roots.index, h, k + 1);
    }
  }

  lemma PathRest(content: Content, roots: Roots, h: string, k: nat, b: Slot, node: Node)
    requires k <= |h| && b.prefix == h[..k] && b.consumer && SlotOk(content, roots, b)
             && NodeIn(content, b.descriptor.digest) == Some(node)
    ensures k < |h| && h[k..k + 1] in Children(node) ==>
              PathSlots(content, roots.index, h, k) == [b] + PathSlots(content, roots.index, h, k + 1)
    ensures k < |h| && h[k..k + 1] !in Children(node) ==> PathSlots(content, roots.index, h, k) == [b]
    ensures Children(node) == map[] ==> PathSlots(content, roots.index, h, k) == [b]
  {
    if k < |h| {
      var p := h[..k + 1];
      assert p[..k] == h[..k] && p[k..] == h[k..k + 1];
    }
  }
}

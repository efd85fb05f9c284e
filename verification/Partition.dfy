/** `partitionCatalog`: records split by the digits of their names' hashes until every node fits
    (worker/catalog.go:224-252). */
module Partition {
  import opened Catalog
  import opened Names

  datatype Plan = Leaf(records: map<string, Record>) | Branch(children: map<string, Plan>)

  type Measure = map<string, Record> -> nat

  /** The records whose hash continues with `path` at `depth`. */
  function Under(hash: Hash, records: map<string, Record>, depth: nat, path: string): map<string, Record> {
    map n | n in records && |hash(n)| >= depth && StartsAt(hash(n), depth, path) :: records[n]
  }

  predicate StartsAt(h: string, depth: nat, path: string) {
    depth + |path| <= |h| && h[depth..depth + |path|] == path
  }

  function Nibbles(hash: Hash, records: map<string, Record>, depth: nat): set<string> {
    set n | n in records && depth < |hash(n)| :: hash(n)[depth..depth + 1]
  }

  /** `measure` is the encoded size of a leaf. The split fails when a single record, or records that share all 64
      digits, do not fit. */
  function Split(measure: Measure, hash: Hash, records: map<string, Record>, depth: nat, limit: int): Option<Plan>
    requires depth <= DEPTH
    decreases DEPTH - depth
  {
    if measure(records) <= limit then Some(Leaf(records))
    else if |records| == 1 || depth == DEPTH then None
    else
      var groups := map nibble | nibble in Nibbles(hash, records, depth) :: Split(measure, hash,
                        Under(hash, records, depth, nibble), depth + 1, limit);
      if exists nibble :: nibble in groups && groups[nibble].None? then None
      else Some(Branch(map nibble | nibble in groups :: groups[nibble].value))
  }

  /** The subtree at a path. */
  function Sub(plan: Plan, path: string): Option<Plan> {
    if path == "" then Some(plan)
    else if plan.Branch? && path[..1] in plan.children then Sub(plan.children[path[..1]], path[1..])
    else None
  }

  lemma StartsSplit(h: string, depth: nat, path: string)
    requires path != ""
    ensures StartsAt(h, depth, path) <==> StartsAt(h, depth, path[..1]) && StartsAt(h, depth + 1, path[1..])
  {
    if depth + |path| <= |h| {
      var part := h[depth..depth + |path|];
      assert part[..1] == h[depth..depth + 1] && part[1..] == h[depth + 1..depth + |path|];
      assert part == part[..1] + part[1..] && path == path[..1] + path[1..];
    }
  }

  lemma UnderUnder(hash: Hash, records: map<string, Record>, depth: nat, path: string)
    requires HashText(hash) && path != ""
    ensures Under(hash, Under(hash, records, depth, path[..1]), depth + 1, path[1..]) == Under(hash, records, depth,
                path)
  {
    hide StartsAt;
    forall n | n in records
      ensures StartsAt(hash(n), depth, path)
              <==> StartsAt(hash(n), depth, path[..1]) && StartsAt(hash(n), depth + 1, path[1..])
      ensures StartsAt(hash(n), depth, path) ==> |hash(n)| >= depth + 1
      ensures StartsAt(hash(n), depth, path[..1]) ==> |hash(n)| >= depth + 1
    {
      StartsSplit(hash(n), depth, path);
      StartsFits(hash(n), depth, path);
      StartsFits(hash(n), depth, path[..1]);
    }
  }

  lemma StartsFits(h: string, depth: nat, path: string)
    ensures StartsAt(h, depth, path) ==> depth + |path| <= |h|
  {
  }

  lemma UnderAll(hash: Hash, records: map<string, Record>, depth: nat)
    requires HashText(hash) && depth <= DEPTH
    ensures Under(hash, records, depth, "") == records
  {
    assert forall n :: |hash(n)| == DEPTH;
  }

  lemma NibbleInhabited(hash: Hash, records: map<string, Record>, depth: nat, nibble: string)
    requires HashText(hash)
    ensures nibble in Nibbles(hash, records, depth) ==> |nibble| == 1 && Under(hash, records, depth, nibble) != map[]
  {
    if nibble in Nibbles(hash, records, depth) {
      var n :| n in records && depth < |hash(n)| && hash(n)[depth..depth + 1] == nibble;
      assert n in Under(hash, records, depth, nibble);
    }
  }

  /** The child of a split under one digit. */
  lemma SplitChild(measure: Measure, hash: Hash, records: map<string, Record>, depth: nat, limit: int, nibble: string)
    requires HashText(hash) && depth <= DEPTH && Split(measure, hash, records, depth, limit).Some?
    requires var plan := Split(measure, hash, records, depth, limit).value; plan.Branch? && nibble in plan.children
    ensures depth < DEPTH && |nibble| == 1 && Under(hash, records, depth, nibble) != map[]
    ensures Split(measure, hash, Under(hash, records, depth, nibble), depth + 1, limit)
              == Some(Split(measure, hash, records, depth, limit).value.children[nibble])
  {
    NibbleInhabited(hash, records, depth, nibble);
    hide Under, Nibbles;
  }

  /** What a successful split has at a path is the split of exactly the records under that path. */
  lemma {:induction false} SubIsSplit(measure: Measure, hash: Hash, records: map<string, Record>, depth: nat,
                                      limit: int, path: string)
    requires HashText(hash) && depth <= DEPTH
    requires Split(measure, hash, records, depth, limit).Some?
             && Sub(Split(measure, hash, records, depth, limit).value, path).Some?
    ensures depth + |path| <= DEPTH
    ensures Split(measure, hash, Under(hash, records, depth, path), depth + |path|, limit)
              == Sub(Split(measure, hash, records, depth, limit).value, path)
    ensures path != "" ==> Under(hash, records, depth, path) != map[]
    decreases |path|
  {
    hide Split, Under, HashText;
    UnderAll(hash, records, depth);
    if path != "" {
      var nibble := path[..1];
      SplitChild(measure, hash, records, depth, limit, nibble);
      SubIsSplit(measure, hash, Under(hash, records, depth, nibble), depth + 1, limit, path[1..]);
      UnderUnder(hash, records, depth, path);
      if path[1..] == "" { assert path == nibble; }
    }
  }

  // ---- what a successful split promises, from the root

  /** A leaf holds exactly the records whose hash starts with its path, and fits. */
  lemma LeafHolds(measure: Measure, hash: Hash, records: map<string, Record>, limit: int, path: string)
    requires HashText(hash) && Split(measure, hash, records, 0, limit).Some?
    requires var sub := Sub(Split(measure, hash, records, 0, limit).value, path); sub.Some? && sub.value.Leaf?
    ensures Sub(Split(measure, hash, records, 0, limit).value, path).value.records == Under(hash, records, 0, path)
    ensures |path| <= DEPTH && measure(Under(hash, records, 0, path)) <= limit
            && (path != "" ==> Under(hash, records, 0, path) != map[])
  {
    SubIsSplit(measure, hash, records, 0, limit, path);
  }

  /** A branch has a child for exactly the next digits that occur, and there is one. */
  lemma BranchHolds(measure: Measure, hash: Hash, records: map<string, Record>, limit: int, path: string)
    requires HashText(hash) && measure(map[]) <= limit && Split(measure, hash, records, 0, limit).Some?
    requires var sub := Sub(Split(measure, hash, records, 0, limit).value, path); sub.Some? && sub.value.Branch?
    ensures |path| < DEPTH && measure(Under(hash, records, 0, path)) > limit
    ensures Sub(Split(measure, hash, records, 0, limit).value, path).value.children.Keys == Nibbles(hash,
                Under(hash, records, 0, path), |path|)
    ensures Nibbles(hash, Under(hash, records, 0, path), |path|) != {}
    ensures forall nibble ::
              nibble in Nibbles(hash, Under(hash, records, 0, path), |path|) ==> |nibble| == 1 && Nibble(nibble[0])
  {
    SubIsSplit(measure, hash, records, 0, limit, path);
    SplitBranch(measure, hash, Under(hash, records, 0, path), |path|, limit);
  }

  lemma SplitBranch(measure: Measure, hash: Hash, under: map<string, Record>, depth: nat, limit: int)
    requires HashText(hash) && measure(map[]) <= limit && depth <= DEPTH
    requires Split(measure, hash, under, depth, limit).Some? && Split(measure, hash, under, depth, limit).value.Branch?
    ensures depth < DEPTH
            && Split(measure, hash, under, depth, limit).value.children.Keys == Nibbles(hash, under, depth)
    ensures Nibbles(hash, under, depth) != {}
            && forall nibble :: nibble in Nibbles(hash, under, depth) ==> |nibble| == 1 && Nibble(nibble[0])
  {
    assert under != map[];
    NibblesOccur(hash, under, depth);
    hide Under, Nibbles, HashText;
  }

  lemma NibblesOccur(hash: Hash, under: map<string, Record>, depth: nat)
    requires HashText(hash) && under != map[] && depth < DEPTH
    ensures Nibbles(hash, under, depth) != {}
            && forall nibble :: nibble in Nibbles(hash, under, depth) ==> |nibble| == 1 && Nibble(nibble[0])
  {
    var n :| n in under;
    assert hash(n)[depth..depth + 1] in Nibbles(hash, under, depth);
    forall nibble | nibble in Nibbles(hash, under, depth)
      ensures |nibble| == 1 && Nibble(nibble[0])
    {
      var m :| m in under && depth < |hash(m)| && hash(m)[depth..depth + 1] == nibble;
      assert Nibble(hash(m)[depth]);
    }
  }

  ghost predicate Holds(plan: Plan, path: string, name: string) {
    Sub(plan, path).Some? && Sub(plan, path).value.Leaf? && name in Sub(plan, path).value.records
  }

  lemma {:induction false} SubAppend(plan: Plan, path: string, nibble: string)
    requires |nibble| == 1 && Sub(plan, path).Some?
    ensures Sub(plan, path + nibble) == if Sub(plan, path).value.Branch? && nibble in Sub(plan, path).value.children
                                        then Some(Sub(plan, path).value.children[nibble]) else None
  {
    var p := path + nibble;
    if path == "" {
      assert p == nibble && p[..1] == nibble && p[1..] == "";
    } else {
      assert p[..1] == path[..1] && p[1..] == path[1..] + nibble;
      SubAppend(plan.children[path[..1]], path[1..], nibble);
    }
  }

  /** Every record has a leaf; by `LeafHolds` the leaf's path is a prefix of the record's hash. */
  lemma {:induction false} RecordPlaced(measure: Measure, hash: Hash, records: map<string, Record>, depth: nat,
                                        limit: int, name: string)
    returns (path: string)
    requires HashText(hash) && depth <= DEPTH && Split(measure, hash, records, depth, limit).Some? && name in records
    ensures Holds(Split(measure, hash, records, depth, limit).value, path, name)
    decreases DEPTH - depth
  {
    var plan := Split(measure, hash, records, depth, limit).value;
    if plan.Leaf? { return ""; }
    var nibble := hash(name)[depth..depth + 1];
    assert nibble in Nibbles(hash, records, depth);
    SplitChild(measure, hash, records, depth, limit, nibble);
    var rest := RecordPlaced(measure, hash, Under(hash, records, depth, nibble), depth + 1, limit, name);
    path := nibble + rest;
    assert path[..1] == nibble && path[1..] == rest;
  }

  /** No second leaf has it. */
  lemma {:induction false} PlacedOnce(plan: Plan, p: string, q: string)
    requires |p| <= |q| && p == q[..|p|] && Sub(plan, p).Some? && Sub(plan, q).Some? && Sub(plan, p).value.Leaf?
    ensures p == q
  {
    if p != "" {
      assert p[..1] == q[..1] && p[1..] == q[1..][..|p| - 1];
      PlacedOnce(plan.children[p[..1]], p[1..], q[1..]);
      assert p == p[..1] + p[1..] && q == q[..1] + q[1..];
    }
  }

  // ---- when a split fails

  ghost predicate Monotone(measure: Measure) {
    forall a, b :: (forall n :: n in a ==> n in b && b[n] == a[n]) ==> measure(a) <= measure(b)
  }

  ghost predicate Shared(hash: Hash, records: map<string, Record>, depth: nat) {
    forall m, n ::
      m in records && n in records ==> |hash(m)| >= depth && |hash(n)| >= depth && hash(m)[..depth] == hash(n)[..depth]
  }

  ghost predicate Separate(hash: Hash, records: map<string, Record>) {
    forall m, n :: m in records && n in records && hash(m) == hash(n) ==> m == n
  }

  ghost predicate Oversize(measure: Measure, records: map<string, Record>, limit: int) {
    exists n :: n in records && measure(map[n := records[n]]) > limit
  }

  lemma FitsAll(measure: Measure, records: map<string, Record>, limit: int)
    requires Monotone(measure) && measure(records) <= limit
    ensures !Oversize(measure, records, limit)
  {
    forall n | n in records
      ensures measure(map[n := records[n]]) <= limit
    {
      var one := map[n := records[n]];
      assert forall k :: k in one ==> k in records && records[k] == one[k];
    }
  }

  /** Some record is oversize exactly when some group has one. */
  lemma GroupsCover(measure: Measure, hash: Hash, records: map<string, Record>, depth: nat, limit: int)
    requires HashText(hash) && depth < DEPTH
    ensures Oversize(measure, records, limit)
            <==> exists nibble ::
                   nibble in Nibbles(hash, records, depth)
                   && Oversize(measure, Under(hash, records, depth, nibble), limit)
  {
    if Oversize(measure, records, limit) {
      var n :| n in records && measure(map[n := records[n]]) > limit;
      var nibble := hash(n)[depth..depth + 1];
      assert nibble in Nibbles(hash, records, depth) && n in Under(hash, records, depth, nibble);
      assert Oversize(measure, Under(hash, records, depth, nibble), limit);
    }
    if nibble :| nibble in Nibbles(hash, records, depth)
                 && Oversize(measure, Under(hash, records, depth, nibble), limit) {
      var group := Under(hash, records, depth, nibble);
      var n :| n in group && measure(map[n := group[n]]) > limit;
      assert n in records && map[n := group[n]] == map[n := records[n]];
    }
  }

  lemma SplitGroups(measure: Measure, hash: Hash, records: map<string, Record>, depth: nat, limit: int)
    requires depth < DEPTH && measure(records) > limit && |records| != 1
    ensures Split(measure, hash, records, depth, limit).None?
            <==> exists nibble :: nibble in Nibbles(hash, records, depth)
                   && Split(measure, hash, Under(hash, records, depth, nibble), depth + 1, limit).None?
  {
    hide Under, Nibbles;
    var groups := map nibble | nibble in Nibbles(hash, records, depth) :: Split(measure, hash,
                                                                                Under(hash, records, depth, nibble),
                                                                                depth + 1, limit);
    assert Split(measure, hash, records, depth, limit).None?
           <==> exists nibble :: nibble in groups && groups[nibble].None?;
    if nibble :| nibble in groups && groups[nibble].None? {
      assert Split(measure, hash, Under(hash, records, depth, nibble), depth + 1, limit).None?;
    }
    forall nibble | nibble in Nibbles(hash, records, depth)
                    && Split(measure, hash, Under(hash, records, depth, nibble), depth + 1, limit).None?
      ensures nibble in groups && groups[nibble].None?
    {
    }
  }

  /** With distinct hashes and a size that grows with the records, a split fails exactly when some record does not fit
      by itself. */
  lemma {:induction false} SplitFails(measure: Measure, hash: Hash, records: map<string, Record>, depth: nat,
                                      limit: int)
    requires HashText(hash) && Monotone(measure) && measure(map[]) <= limit && depth <= DEPTH
    requires Shared(hash, records, depth) && Separate(hash, records)
    ensures Split(measure, hash, records, depth, limit).None? <==> Oversize(measure, records, limit)
    decreases DEPTH - depth
  {
    hide Oversize, Under, Nibbles, Shared, Separate, HashText, Monotone;
    if measure(records) <= limit {
      FitsAll(measure, records, limit);
    } else if |records| == 1 || depth == DEPTH {
      OnlyRecord(measure, hash, records, depth, limit);
    } else {
      forall nibble | nibble in Nibbles(hash, records, depth)
        ensures Split(measure, hash, Under(hash, records, depth, nibble), depth + 1, limit).None?
                <==> Oversize(measure, Under(hash, records, depth, nibble), limit)
      {
        NibbleInhabited(hash, records, depth, nibble);
        GroupAgrees(hash, records, depth, nibble);
        SplitFails(measure, hash, Under(hash, records, depth, nibble), depth + 1, limit);
      }
      SplitGroups(measure, hash, records, depth, limit);
      GroupsCover(measure, hash, records, depth, limit);
    }
  }

  lemma OnlyRecord(measure: Measure, hash: Hash, records: map<string, Record>, depth: nat, limit: int)
    requires HashText(hash) && measure(map[]) <= limit && measure(records) > limit && depth <= DEPTH
             && (|records| == 1 || depth == DEPTH)
    requires Shared(hash, records, depth) && Separate(hash, records)
    ensures Oversize(measure, records, limit)
  {
    assert records != map[];
    var n :| n in records;
    forall m | m in records
      ensures m == n
    {
      if depth == DEPTH {
        assert hash(m)[..depth] == hash(m) && hash(n)[..depth] == hash(n);
      } else {
        SubsetSize({m, n}, records.Keys);
      }
    }
    assert records == map[n := records[n]];
  }

  lemma GroupAgrees(hash: Hash, records: map<string, Record>, depth: nat, nibble: string)
    requires HashText(hash) && depth < DEPTH && |nibble| == 1
    requires Shared(hash, records, depth)
    ensures Shared(hash, Under(hash, records, depth, nibble), depth + 1)
    ensures Separate(hash, records) ==> Separate(hash, Under(hash, records, depth, nibble))
  {
    forall m | m in Under(hash, records, depth, nibble)
      ensures hash(m)[..depth + 1] == hash(m)[..depth] + nibble
    {
    }
  }
}

/** Reading nodes in some order: what a view remembers, and which orders of visits succeed (worker/catalog.go:377-398,
    524-532). */
module CatalogOrder {
  import opened Catalog
  import opened CatalogWalk
  import opened Names
  import opened Snapshots

  /** What a view reads from. */
  datatype Reader = Reader(content: Content, size: Size, reachable: map<string, Descriptor>, hash: Hash)

  /** `node` answers for a slot when the paths of the digests seen before are `memory`: a digest seen before must stand
      at the same path and is not read again. */
  ghost predicate Answers(v: Reader, memory: map<string, string>, b: Slot) {
    && Reaches(v.reachable, b.descriptor) && SlotAccepted(v.content, v.reachable, v.hash, b)
    && if b.descriptor.digest in memory then memory[b.descriptor.digest] == b.prefix
       else Readable(v.content, v.size, b.descriptor, b.consumer)
  }

  ghost function Learned(v: Reader, memory: map<string, string>, b: Slot): map<string, string> {
    if Answers(v, memory, b) then memory[b.descriptor.digest := b.prefix] else memory
  }

  ghost function LearnedAll(v: Reader, memory: map<string, string>, order: seq<Slot>): map<string, string>
    decreases |order|
  {
    if order == [] then memory else LearnedAll(v, Learned(v, memory, order[0]), order[1..])
  }

  ghost predicate AllAnswer(v: Reader, memory: map<string, string>, order: seq<Slot>)
    decreases |order|
  {
    order == [] || (Answers(v, memory, order[0]) && AllAnswer(v, Learned(v, memory, order[0]), order[1..]))
  }

  ghost predicate Kept(before: map<string, string>, after: map<string, string>) {
    forall d :: d in before ==> d in after && after[d] == before[d]
  }

  lemma LearnedKeeps(v: Reader, memory: map<string, string>, b: Slot)
    ensures Kept(memory, Learned(v, memory, b))
  {
  }

  lemma {:induction false} AnswerOneMore(v: Reader, memory: map<string, string>, order: seq<Slot>, b: Slot)
    ensures AllAnswer(v, memory, order + [b])
            <==> AllAnswer(v, memory, order) && Answers(v, LearnedAll(v, memory, order), b)
    ensures LearnedAll(v, memory, order + [b]) == Learned(v, LearnedAll(v, memory, order), b)
    decreases |order|
  {
    hide Answers, Learned;
    if order != [] {
      assert (order + [b])[0] == order[0] && (order + [b])[1..] == order[1..] + [b];
      AnswerOneMore(v, Learned(v, memory, order[0]), order[1..], b);
    } else {
      assert (order + [b])[1..] == [];
    }
  }

  lemma {:induction false} AnswerMore(v: Reader, memory: map<string, string>, s: seq<Slot>, t: seq<Slot>)
    ensures AllAnswer(v, memory, s + t) <==> AllAnswer(v, memory, s) && AllAnswer(v, LearnedAll(v, memory, s), t)
    ensures LearnedAll(v, memory, s + t) == LearnedAll(v, LearnedAll(v, memory, s), t)
    decreases |s|
  {
    hide Answers, Learned;
    if s != [] {
      assert (s + t)[0] == s[0] && (s + t)[1..] == s[1..] + t;
      AnswerMore(v, Learned(v, memory, s[0]), s[1..], t);
    } else {
      assert s + t == t;
    }
  }

  lemma {:induction false} LearnedAllKeeps(v: Reader, memory: map<string, string>, order: seq<Slot>)
    ensures Kept(memory, LearnedAll(v, memory, order))
    decreases |order|
  {
    hide Answers, Learned;
    if order != [] {
      LearnedKeeps(v, memory, order[0]);
      LearnedAllKeeps(v, Learned(v, memory, order[0]), order[1..]);
    }
  }

  /** The slot was accepted and its digest is remembered at its path. */
  ghost predicate Visited(content: Content, reachable: map<string, Descriptor>, hash: Hash,
                          prefixes: map<string, string>, b: Slot) {
    && SlotAccepted(content, reachable, hash, b) && Reaches(reachable, b.descriptor) && b.descriptor.digest in prefixes
    && prefixes[b.descriptor.digest] == b.prefix
  }

  lemma {:induction false} AnsweredRemembered(v: Reader, memory: map<string, string>, order: seq<Slot>)
    requires AllAnswer(v, memory, order)
    ensures forall i ::
              0 <= i < |order| ==> Visited(v.content, v.reachable, v.hash, LearnedAll(v, memory, order), order[i])
    decreases |order|
  {
    hide SlotAccepted, Reaches, Readable;
    if order != [] {
      var (b, rest) := (order[0], order[1..]);
      var learned := Learned(v, memory, b);
      AnsweredRemembered(v, learned, rest);
      LearnedAllKeeps(v, learned, rest);
      forall i | 0 <= i < |order|
        ensures Visited(v.content, v.reachable, v.hash, LearnedAll(v, memory, order), order[i])
      {
        if i > 0 { assert order[i] == rest[i - 1]; }
      }
    }
  }

  // ---- an order judged slot by slot

  ghost predicate First(order: seq<Slot>, i: nat)
    requires i < |order|
  {
    forall j :: 0 <= j < i ==> order[j].descriptor.digest != order[i].descriptor.digest
  }

  /** What has to hold of a slot whatever the order. */
  ghost predicate Stands(v: Reader, memory: map<string, string>, b: Slot) {
    && Reaches(v.reachable, b.descriptor) && SlotAccepted(v.content, v.reachable, v.hash, b)
    && (b.descriptor.digest in memory ==> memory[b.descriptor.digest] == b.prefix)
  }

  ghost predicate SamePaths(order: seq<Slot>) {
    forall i, j ::
      0 <= i < j < |order| && order[i].descriptor.digest == order[j].descriptor.digest ==>
        order[i].prefix == order[j].prefix
  }

  /** Where a digest that is not remembered is met first, it can be read. */
  ghost predicate FirstReadable(v: Reader, memory: map<string, string>, order: seq<Slot>, i: nat)
    requires i < |order|
  {
    order[i].descriptor.digest !in memory && First(order, i) ==>
      Readable(v.content, v.size, order[i].descriptor, order[i].consumer)
  }

  ghost predicate FirstsReadable(v: Reader, memory: map<string, string>, order: seq<Slot>) {
    forall i :: 0 <= i < |order| ==> FirstReadable(v, memory, order, i)
  }

  ghost predicate AllStand(v: Reader, memory: map<string, string>, order: seq<Slot>) {
    forall i :: 0 <= i < |order| ==> Stands(v, memory, order[i])
  }

  /** A sequence of visits succeeds exactly when every slot stands, no digest is met at two paths, and each digest that
      is not remembered is readable in the tree in which it is met first. */
  lemma {:induction false} OrderExact(v: Reader, memory: map<string, string>, order: seq<Slot>)
    ensures AllAnswer(v, memory, order)
            <==> AllStand(v, memory, order) && SamePaths(order) && FirstsReadable(v, memory, order)
    decreases |order|
  {
    if order != [] {
      var (b, rest) := (order[0], order[1..]);
      assert order == [b] + rest;
      AnswersExact(v, memory, order);
      if Answers(v, memory, b) {
        var learned := Learned(v, memory, b);
        OrderExact(v, learned, rest);
        hide Answers, Learned, AllStand, SamePaths, FirstsReadable;
        if AllAnswer(v, learned, rest) {
          StandsBefore(v, memory, b, rest);
          FirstsAfter(v, memory, b, rest);
        }
        if AllStand(v, memory, order) && SamePaths(order) && FirstsReadable(v, memory, order) {
          StandsAfter(v, memory, b, rest);
          FirstsAfter(v, memory, b, rest);
        }
      } else {
        hide Answers, Learned, AllStand, SamePaths, FirstsReadable;
      }
    }
  }

  lemma AnswersExact(v: Reader, memory: map<string, string>, order: seq<Slot>)
    requires order != []
    ensures AllStand(v, memory, order) && FirstsReadable(v, memory, order) ==> Answers(v, memory, order[0])
  {
    hide Readable, SlotAccepted, Reaches;
    assert First(order, 0);
    if AllStand(v, memory, order) && FirstsReadable(v, memory, order) {
      assert Stands(v, memory, order[0]) && FirstReadable(v, memory, order, 0);
    }
  }

  lemma StandsBefore(v: Reader, memory: map<string, string>, b: Slot, rest: seq<Slot>)
    requires Answers(v, memory, b) && AllStand(v, Learned(v, memory, b), rest) && SamePaths(rest)
    ensures AllStand(v, memory, [b] + rest) && SamePaths([b] + rest)
  {
    hide Readable, SlotAccepted, Reaches;
    var order := [b] + rest;
    forall i | 0 <= i < |order|
      ensures Stands(v, memory, order[i])
    {
      if i > 0 { assert Stands(v, Learned(v, memory, b), rest[i - 1]); }
    }
    forall i, j | 0 <= i < j < |order| && order[i].descriptor.digest == order[j].descriptor.digest
      ensures order[i].prefix == order[j].prefix
    {
      assert Stands(v, Learned(v, memory, b), rest[j - 1]);
      assert order[j] == rest[j - 1];
      if i > 0 { assert order[i] == rest[i - 1]; }
    }
  }

  lemma StandsAfter(v: Reader, memory: map<string, string>, b: Slot, rest: seq<Slot>)
    requires Answers(v, memory, b) && AllStand(v, memory, [b] + rest) && SamePaths([b] + rest)
    ensures AllStand(v, Learned(v, memory, b), rest) && SamePaths(rest)
  {
    hide Readable, SlotAccepted, Reaches;
    var order := [b] + rest;
    assert order[0] == b;
    forall i | 0 <= i < |rest|
      ensures Stands(v, Learned(v, memory, b), rest[i])
    {
      assert Stands(v, memory, order[i + 1]) && order[i + 1] == rest[i];
    }
    forall i, j | 0 <= i < j < |rest| && rest[i].descriptor.digest == rest[j].descriptor.digest
      ensures rest[i].prefix == rest[j].prefix
    {
      assert rest[i] == order[i + 1] && rest[j] == order[j + 1];
    }
  }

  lemma FirstsAfter(v: Reader, memory: map<string, string>, b: Slot, rest: seq<Slot>)
    requires Answers(v, memory, b)
    ensures FirstsReadable(v, Learned(v, memory, b), rest) <==> FirstsReadable(v, memory, [b] + rest)
  {
    var order := [b] + rest;
    FirstReadableHere(v, memory, b, rest);
    forall i | 0 <= i < |rest|
      ensures FirstReadable(v, Learned(v, memory, b), rest, i) <==> FirstReadable(v, memory, order, i + 1)
    {
      FirstReadableAfter(v, memory, b, rest, i);
    }
    hide Answers, Learned, FirstReadable;
    if FirstsReadable(v, Learned(v, memory, b), rest) {
      forall k | 0 <= k < |order|
        ensures FirstReadable(v, memory, order, k)
      {
        if k > 0 { assert FirstReadable(v, Learned(v, memory, b), rest, k - 1); }
      }
    }
  }

  lemma FirstReadableHere(v: Reader, memory: map<string, string>, b: Slot, rest: seq<Slot>)
    requires Answers(v, memory, b)
    ensures FirstReadable(v, memory, [b] + rest, 0)
  {
    hide Readable, SlotAccepted, Reaches;
  }

  lemma FirstReadableAfter(v: Reader, memory: map<string, string>, b: Slot, rest: seq<Slot>, i: nat)
    requires Answers(v, memory, b) && i < |rest|
    ensures FirstReadable(v, Learned(v, memory, b), rest, i) <==> FirstReadable(v, memory, [b] + rest, i + 1)
  {
    hide Readable, SlotAccepted, Reaches, First;
    FirstAfter(b, rest, i);
    assert ([b] + rest)[i + 1] == rest[i];
  }

  lemma FirstAfter(b: Slot, rest: seq<Slot>, i: nat)
    requires i < |rest|
    ensures First([b] + rest, i + 1) <==> First(rest, i) && rest[i].descriptor.digest != b.descriptor.digest
  {
    var order := [b] + rest;
    assert order[0] == b && order[i + 1] == rest[i];
    if First(order, i + 1) {
      forall j | 0 <= j < i
        ensures rest[j].descriptor.digest != rest[i].descriptor.digest
      {
        assert order[j + 1] == rest[j];
      }
    }
  }

  // ---- what is visited

  /** The traversal went through every place of both trees. */
  ghost predicate Everywhere(content: Content, roots: Roots, visits: seq<Slot>) {
    forall b :: b in visits <==> SlotOk(content, roots, b)
  }

  ghost predicate LevelByLevel(order: seq<Slot>) {
    forall i, j :: 0 <= i < j < |order| ==> |order[i].prefix| <= |order[j].prefix|
  }

  /** Every place once, level by level, and in any order within a level. */
  ghost predicate Schedule(content: Content, roots: Roots, order: seq<Slot>) {
    Distinct(order) && Everywhere(content, roots, order) && LevelByLevel(order)
  }

  /** The places of the consumer tree that following a hash meets. */
  ghost function PathSlots(content: Content, root: Descriptor, h: string, k: nat): seq<Slot>
    requires k <= |h|
    decreases |h| - k
  {
    var d := At(content, root, h[..k]);
    if d.None? then [] else [Slot(d.value, h[..k], true)] + if k < |h| then PathSlots(content, root, h, k + 1) else []
  }

  lemma {:induction false} PathSlotAt(content: Content, root: Descriptor, h: string, k: nat)
    requires k <= |h|
    ensures |PathSlots(content, root, h, k)| <= |h| - k + 1
    ensures forall i :: 0 <= i < |PathSlots(content, root, h, k)| ==>
              k + i <= |h| && PathSlots(content, root, h, k)[i].prefix == h[..k + i]
              && PathSlots(content, root, h, k)[i].consumer
              && At(content, root, h[..k + i]) == Some(PathSlots(content, root, h, k)[i].descriptor)
    decreases |h| - k
  {
    hide At;
    if At(content, root, h[..k]).Some? && k < |h| {
      PathSlotAt(content, root, h, k + 1);
      var rest := PathSlots(content, root, h, k + 1);
      var all := PathSlots(content, root, h, k);
      forall i | 0 <= i < |all|
        ensures all[i].prefix == h[..k + i] && all[i].consumer
                && At(content, root, h[..k + i]) == Some(all[i].descriptor)
      {
        if i > 0 { assert all[i] == rest[i - 1] && (k + 1) + (i - 1) == k + i; }
      }
    }
  }
}

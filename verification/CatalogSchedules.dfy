/** Which loads and lookups succeed, over all orders in which a level may be read (worker/catalog.go:491-532). */
module CatalogSchedules {
  import opened Catalog
  import opened CatalogOrder
  import opened CatalogRecords
  import opened CatalogWalk
  import opened Names
  import opened Snapshots

  /** What a load demands whatever the order. */
  ghost predicate Sound(v: Reader, roots: Roots) {
    && (forall b ::
          SlotOk(v.content, roots, b) ==>
            SlotAccepted(v.content, v.reachable, v.hash, b) && Reaches(v.reachable, b.descriptor))
    && OnePrefix(v.content, roots)
  }

  function Rank(b: Slot, consumer: bool): nat { 2 * |b.prefix| + if b.consumer == consumer then 0 else 1 }

  ghost predicate Ranked(order: seq<Slot>, consumer: bool) {
    forall i, j :: 0 <= i < j < |order| ==> Rank(order[i], consumer) <= Rank(order[j], consumer)
  }

  lemma {:induction false} Least(slots: set<Slot>, consumer: bool) returns (b: Slot)
    requires slots != {}
    ensures b in slots && forall c :: c in slots ==> Rank(b, consumer) <= Rank(c, consumer)
  {
    hide Rank;
    b :| b in slots;
    if slots != {b} {
      var c := Least(slots - {b}, consumer);
      if Rank(c, consumer) <= Rank(b, consumer) { b := c; }
    }
  }

  /** The places of each level with those of one tree first. */
  lemma {:induction false} Arranged(slots: set<Slot>, consumer: bool) returns (order: seq<Slot>)
    ensures Distinct(order) && Ranked(order, consumer) && forall b :: b in order <==> b in slots
  {
    hide Rank;
    order := [];
    if slots != {} {
      var b := Least(slots, consumer);
      var rest := Arranged(slots - {b}, consumer);
      order := [b] + rest;
      forall i, j | 0 <= i < j < |order|
        ensures order[i] != order[j] && Rank(order[i], consumer) <= Rank(order[j], consumer)
      {
        assert order[j] == rest[j - 1] && rest[j - 1] in rest;
        if i > 0 { assert order[i] == rest[i - 1]; }
      }
    }
  }

  lemma ArrangedSchedule(content: Content, roots: Roots, all: seq<Slot>, consumer: bool) returns (order: seq<Slot>)
    requires Everywhere(content, roots, all)
    ensures Schedule(content, roots, order) && Ranked(order, consumer)
  {
    order := Arranged(Elements(all), consumer);
    assert forall b :: b in order <==> b in all;
    forall i, j | 0 <= i < j < |order|
      ensures |order[i].prefix| <= |order[j].prefix|
    {
      assert Rank(order[i], consumer) <= Rank(order[j], consumer);
    }
  }

  /** In a schedule the slots demand what a load demands whatever the order, and readability where a digest comes
      first. */
  lemma ScheduleExact(v: Reader, roots: Roots, order: seq<Slot>)
    requires Schedule(v.content, roots, order)
    ensures AllAnswer(v, map[], order) <==> Sound(v, roots) && FirstsReadable(v, map[], order)
  {
    OrderExact(v, map[], order);
    hide SlotOk, SlotAccepted, Reaches, AllAnswer, FirstsReadable, Readable, LevelByLevel, Distinct;
    if AllStand(v, map[], order) && SamePaths(order) {
      forall b | SlotOk(v.content, roots, b)
        ensures SlotAccepted(v.content, v.reachable, v.hash, b) && Reaches(v.reachable, b.descriptor)
      {
        assert b in order;
        var i :| 0 <= i < |order| && order[i] == b;
        assert Stands(v, map[], order[i]);
      }
      forall b, c | SlotOk(v.content, roots, b) && SlotOk(v.content, roots, c)
                    && b.descriptor.digest == c.descriptor.digest
        ensures b.prefix == c.prefix
      {
        assert b in order && c in order;
        var i, j :| 0 <= i < |order| && 0 <= j < |order| && order[i] == b && order[j] == c;
        assert i < j ==> order[i].prefix == order[j].prefix;
        assert j < i ==> order[j].prefix == order[i].prefix;
      }
    }
    if Sound(v, roots) {
      forall i | 0 <= i < |order|
        ensures SlotOk(v.content, roots, order[i]) && Stands(v, map[], order[i])
      {
        assert order[i] in order;
      }
    }
  }

  lemma SamePlace(content: Content, roots: Roots, b: Slot, c: Slot)
    requires SlotOk(content, roots, b) && SlotOk(content, roots, c) && OnePrefix(content, roots)
             && b.descriptor.digest == c.descriptor.digest
    ensures b == c || b.consumer != c.consumer
    ensures |b.prefix| == |c.prefix|
  {
    assert b.prefix == c.prefix;
  }

  /** Where the slots of one tree come first in each level, each of them comes first with its digest. */
  lemma RankedFirst(content: Content, roots: Roots, order: seq<Slot>, consumer: bool, i: nat)
    requires Schedule(content, roots, order) && Ranked(order, consumer) && OnePrefix(content, roots) && i < |order|
    requires order[i].consumer == consumer
    ensures First(order, i)
  {
    hide SlotOk, OnePrefix, LevelByLevel;
    forall j | 0 <= j < i
      ensures order[j].descriptor.digest != order[i].descriptor.digest
    {
      assert order[j] in order && order[i] in order;
      assert Rank(order[j], consumer) <= Rank(order[i], consumer) && order[j] != order[i];
      if order[j].descriptor.digest == order[i].descriptor.digest { SamePlace(content, roots, order[j], order[i]); }
    }
  }

  /** A load succeeds in every order exactly when every place is readable in its own tree. */
  lemma EveryOrderLoads(v: Reader, roots: Roots, all: seq<Slot>)
    requires Everywhere(v.content, roots, all)
    ensures (forall order :: Schedule(v.content, roots, order) ==> AllAnswer(v, map[], order))
            <==> Loadable(v.content, v.size, v.reachable, v.hash, roots)
  {
    hide SlotOk, SlotAccepted, Reaches, AllAnswer, Readable, OnePrefix;
    if Loadable(v.content, v.size, v.reachable, v.hash, roots) {
      forall order | Schedule(v.content, roots, order)
        ensures AllAnswer(v, map[], order)
      {
        ScheduleExact(v, roots, order);
        assert forall i :: 0 <= i < |order| ==> order[i] in order && SlotOk(v.content, roots, order[i]);
      }
    }
    if forall order :: Schedule(v.content, roots, order) ==> AllAnswer(v, map[], order) {
      var consumers := ArrangedSchedule(v.content, roots, all, true);
      var writers := ArrangedSchedule(v.content, roots, all, false);
      assert AllAnswer(v, map[], consumers) && AllAnswer(v, map[], writers);
      ScheduleExact(v, roots, consumers);
      ScheduleExact(v, roots, writers);
      forall b | SlotOk(v.content, roots, b)
        ensures Readable(v.content, v.size, b.descriptor, b.consumer)
      {
        FirstsAreReadable(v, roots, if b.consumer then consumers else writers, b);
      }
    }
  }

  lemma FirstsAreReadable(v: Reader, roots: Roots, order: seq<Slot>, b: Slot)
    requires Schedule(v.content, roots, order) && Ranked(order, b.consumer) && SlotOk(v.content, roots, b)
    requires Sound(v, roots) && FirstsReadable(v, map[], order)
    ensures Readable(v.content, v.size, b.descriptor, b.consumer)
  {
    hide SlotOk, Readable, Ranked, LevelByLevel, Distinct, OnePrefix;
    assert b in order;
    var i :| 0 <= i < |order| && order[i] == b;
    RankedFirst(v.content, roots, order, b.consumer, i);
    assert FirstReadable(v, map[], order, i);
  }

  /** Some place of the digest is readable in its own tree. */
  ghost predicate ReadableSomewhere(v: Reader, roots: Roots, digest: string) {
    exists c ::
      SlotOk(v.content, roots, c) && c.descriptor.digest == digest
      && Readable(v.content, v.size, c.descriptor, c.consumer)
  }

  /** A load succeeds in some order exactly when every digest is readable in one of the trees that have it. */
  lemma SomeOrderLoads(v: Reader, roots: Roots, all: seq<Slot>)
    requires Everywhere(v.content, roots, all)
    ensures (exists order :: Schedule(v.content, roots, order) && AllAnswer(v, map[], order))
            <==> Sound(v, roots)
                 && forall b :: SlotOk(v.content, roots, b) ==> ReadableSomewhere(v, roots, b.descriptor.digest)
  {
    hide SlotOk, AllAnswer, Readable, Sound, ReadableSomewhere, FirstsReadable;
    if order :| Schedule(v.content, roots, order) && AllAnswer(v, map[], order) {
      ScheduleExact(v, roots, order);
      forall b | SlotOk(v.content, roots, b)
        ensures ReadableSomewhere(v, roots, b.descriptor.digest)
      {
        assert b in order;
        var i :| 0 <= i < |order| && order[i] == b;
        FirstWith(v, roots, order, i);
      }
    }
    if Sound(v, roots) && forall b :: SlotOk(v.content, roots, b) ==> ReadableSomewhere(v, roots, b.descriptor.digest) {
      var order := ArrangedSchedule(v.content, roots, all, false);
      WritersFirst(v, roots, order);
      ScheduleExact(v, roots, order);
    }
  }

  lemma {:induction false} FirstWith(v: Reader, roots: Roots, order: seq<Slot>, i: nat)
    requires Everywhere(v.content, roots, order) && FirstsReadable(v, map[], order) && i < |order|
    ensures ReadableSomewhere(v, roots, order[i].descriptor.digest)
  {
    hide SlotOk, Readable;
    assert order[i] in order;
    if First(order, i) {
      assert FirstReadable(v, map[], order, i);
    } else {
      var j :| 0 <= j < i && order[j].descriptor.digest == order[i].descriptor.digest;
      FirstWith(v, roots, order, j);
    }
  }

  /** A consumer node that can be read is small enough for a writer node as well. */
  lemma WriterReads(v: Reader, d: Descriptor)
    ensures Readable(v.content, v.size, d, true) ==> Readable(v.content, v.size, d, false)
  {
  }

  lemma SoundDescriptor(v: Reader, roots: Roots, b: Slot, c: Slot)
    requires Sound(v, roots) && SlotOk(v.content, roots, b) && SlotOk(v.content, roots, c)
             && b.descriptor.digest == c.descriptor.digest
    ensures b.descriptor == c.descriptor
  {
  }

  lemma WritersFirst(v: Reader, roots: Roots, order: seq<Slot>)
    requires Schedule(v.content, roots, order) && Ranked(order, false) && Sound(v, roots)
    requires forall b :: SlotOk(v.content, roots, b) ==> ReadableSomewhere(v, roots, b.descriptor.digest)
    ensures FirstsReadable(v, map[], order)
  {
    hide SlotOk, Readable, Sound, Ranked, Schedule;
    forall i | 0 <= i < |order|
      ensures FirstReadable(v, map[], order, i)
    {
      assert order[i] in order && SlotOk(v.content, roots, order[i]) by { ScheduledSlot(v.content, roots, order, i); }
      if First(order, i) { FirstReads(v, roots, order, i); }
    }
  }

  lemma ScheduledSlot(content: Content, roots: Roots, order: seq<Slot>, i: nat)
    requires Schedule(content, roots, order) && i < |order|
    ensures SlotOk(content, roots, order[i])
  {
    assert order[i] in order;
  }

  lemma FirstReads(v: Reader, roots: Roots, order: seq<Slot>, i: nat)
    requires Schedule(v.content, roots, order) && Ranked(order, false) && Sound(v, roots) && i < |order|
             && First(order, i)
    requires ReadableSomewhere(v, roots, order[i].descriptor.digest)
    ensures Readable(v.content, v.size, order[i].descriptor, order[i].consumer)
  {
    hide SlotOk, Readable, LevelByLevel, OnePrefix, Ranked;
    var b := order[i];
    assert b in order;
    var c :| SlotOk(v.content, roots, c) && c.descriptor.digest == b.descriptor.digest
             && Readable(v.content, v.size, c.descriptor, c.consumer);
    SoundDescriptor(v, roots, b, c);
    WriterReads(v, c.descriptor);
    if b.consumer && !c.consumer { WriterEarlier(v.content, roots, order, i, c); }
  }

  /** With writers first, a digest that the writer tree has does not come first in the consumer tree. */
  lemma WriterEarlier(content: Content, roots: Roots, order: seq<Slot>, i: nat, c: Slot)
    requires Schedule(content, roots, order) && Ranked(order, false) && OnePrefix(content, roots) && i < |order|
             && order[i].consumer
    requires SlotOk(content, roots, c) && !c.consumer && c.descriptor.digest == order[i].descriptor.digest
    ensures !First(order, i)
  {
    hide SlotOk, LevelByLevel, OnePrefix;
    assert order[i] in order && c in order;
    SamePlace(content, roots, order[i], c);
    var j :| 0 <= j < |order| && order[j] == c;
    assert i < j ==> Rank(order[i], false) <= Rank(order[j], false);
  }

  /** On a tree that loads in every order, any visits on a fresh view succeed. */
  lemma LoadableAnswers(v: Reader, roots: Roots, visits: seq<Slot>)
    requires Loadable(v.content, v.size, v.reachable, v.hash, roots)
             && forall b :: b in visits ==> SlotOk(v.content, roots, b)
    ensures AllAnswer(v, map[], visits)
  {
    OrderExact(v, map[], visits);
    hide SlotOk, SlotAccepted, Reaches, AllAnswer, Readable;
    assert forall i :: 0 <= i < |visits| ==> visits[i] in visits;
  }

  // ---- lookups

  lemma PathSlotOk(content: Content, roots: Roots, h: string, i: nat)
    requires i < |PathSlots(content, roots.index, h, 0)|
    ensures SlotOk(content, roots, PathSlots(content, roots.index, h, 0)[i])
  {
    PathSlotAt(content, roots.index, h, 0);
  }

  /** A slot whose digest was answered for before answers again when its path is the same. */
  lemma AnsweredAgain(v: Reader, memory: map<string, string>, b: Slot)
    requires Visited(v.content, v.reachable, v.hash, memory, b)
    ensures Answers(v, memory, b)
  {
  }

  lemma {:induction false} AllAnswerAgain(v: Reader, memory: map<string, string>, order: seq<Slot>)
    requires forall i :: 0 <= i < |order| ==> Visited(v.content, v.reachable, v.hash, memory, order[i])
    ensures AllAnswer(v, memory, order)
    decreases |order|
  {
    hide Answers, Visited;
    if order != [] {
      var (b, rest) := (order[0], order[1..]);
      AnsweredAgain(v, memory, b);
      LearnedAgain(v, memory, b);
      forall i | 0 <= i < |rest|
        ensures Visited(v.content, v.reachable, v.hash, memory, rest[i])
      {
        assert rest[i] == order[i + 1];
      }
      AllAnswerAgain(v, memory, rest);
    }
  }

  lemma LearnedAgain(v: Reader, memory: map<string, string>, b: Slot)
    requires Visited(v.content, v.reachable, v.hash, memory, b)
    ensures Learned(v, memory, b) == memory
  {
    hide Answers;
  }

  /** After a load that met every place, and whatever was read since, every lookup succeeds. */
  lemma LookupAfterLoad(v: Reader, roots: Roots, before: map<string, string>, visits: seq<Slot>,
                        memory: map<string, string>, name: string)
    requires HashText(v.hash) && Everywhere(v.content, roots, visits) && AllAnswer(v, before, visits)
    requires Kept(LearnedAll(v, before, visits), memory) && FilesAgree(v.content, roots)
    ensures AllAnswer(v, memory, PathSlots(v.content, roots.index, v.hash(name), 0))
    ensures Agree(map[], Along(v.content, roots.index, v.hash(name), 0))
  {
    var path := PathSlots(v.content, roots.index, v.hash(name), 0);
    AnsweredRemembered(v, before, visits);
    hide SlotOk, AllAnswer, LearnedAll, SlotAccepted, Reaches, FilesAgree, PathSlots, Agree, Along, HashText;
    forall i | 0 <= i < |path|
      ensures Visited(v.content, v.reachable, v.hash, memory, path[i])
    {
      PathSlotOk(v.content, roots, v.hash(name), i);
      assert path[i] in visits;
      assert Visited(v.content, v.reachable, v.hash, LearnedAll(v, before, visits), path[i]);
    }
    AllAnswerAgain(v, memory, path);
    AlongAgrees(v.content, roots, v.hash(name));
  }

  lemma AlongAgrees(content: Content, roots: Roots, h: string)
    requires FilesAgree(content, roots)
    ensures Agree(map[], Along(content, roots.index, h, 0))
  {
    var records := Along(content, roots.index, h, 0);
    if records != map[] {
      assert h[..0] == "";
      assert NodeAt(content, roots.index, h[..0]).Some?;
      AlongMeets(content, roots.index, h, 0);
      var j :| 0 <= j <= |h| && NodeAt(content, roots.index, h[..j]).Some?
               && records == Records(NodeAt(content, roots.index, h[..j]).value);
      var b := Slot(At(content, roots.index, h[..j]).value, h[..j], true);
      hide FilesAgree, Agree, Along;
      GatherFits(content, roots, [], b, map[]);
    }
  }

  ghost predicate OnePlaceEach(path: seq<Slot>) {
    forall b, c :: b in path && c in path && b.descriptor.digest == c.descriptor.digest ==> b == c
  }

  /** On a fresh view a lookup reaches its leaf exactly when every consumer node on its path is valid and readable by
      itself, and no digest stands there twice. */
  lemma FreshLookup(v: Reader, root: Descriptor, h: string)
    ensures var path := PathSlots(v.content, root, h, 0);
            AllAnswer(v, map[], path) <==> (forall b :: b in path ==> Answers(v, map[], b)) && OnePlaceEach(path)
  {
    var path := PathSlots(v.content, root, h, 0);
    PathSlotAt(v.content, root, h, 0);
    OrderExact(v, map[], path);
    hide AllAnswer, PathSlots, AllStand, SamePaths, FirstsReadable, Answers, OnePlaceEach;
    if AllStand(v, map[], path) && SamePaths(path) && FirstsReadable(v, map[], path) {
      PathDigests(path);
      forall i | 0 <= i < |path|
        ensures Answers(v, map[], path[i])
      {
        FreshAnswer(v, path, i);
      }
    }
    if (forall b :: b in path ==> Answers(v, map[], b)) && OnePlaceEach(path) { FreshPath(v, path); }
  }

  lemma FreshAnswer(v: Reader, path: seq<Slot>, i: nat)
    requires AllStand(v, map[], path) && FirstsReadable(v, map[], path) && i < |path| && First(path, i)
    ensures Answers(v, map[], path[i])
  {
    assert Stands(v, map[], path[i]) && FirstReadable(v, map[], path, i);
  }

  lemma FreshPath(v: Reader, path: seq<Slot>)
    requires (forall b :: b in path ==> Answers(v, map[], b)) && OnePlaceEach(path)
    ensures AllStand(v, map[], path) && SamePaths(path) && FirstsReadable(v, map[], path)
  {
    hide Readable, SlotAccepted, Reaches;
    forall i | 0 <= i < |path|
      ensures Stands(v, map[], path[i]) && FirstReadable(v, map[], path, i)
    {
      assert path[i] in path;
    }
  }

  lemma PathDigests(path: seq<Slot>)
    requires SamePaths(path) && forall i :: 0 <= i < |path| ==> |path[i].prefix| == i
    ensures (forall i :: 0 <= i < |path| ==> First(path, i)) && OnePlaceEach(path)
  {
    forall i, j | 0 <= i < j < |path|
      ensures path[i].descriptor.digest != path[j].descriptor.digest
    {
      assert |path[i].prefix| != |path[j].prefix|;
    }
  }

  /** On a fresh view of accepted trees all lookups succeed exactly when every consumer node on some name's path is
      readable as a consumer node. */
  lemma FreshLookups(v: Reader, roots: Roots)
    requires Sound(v, roots)
    ensures (forall name :: AllAnswer(v, map[], PathSlots(v.content, roots.index, v.hash(name), 0)))
            <==> forall name, b :: b in PathSlots(v.content, roots.index, v.hash(name), 0) ==>
                   Readable(v.content, v.size, b.descriptor, true)
  {
    hide AllAnswer, PathSlots, Readable, Sound;
    forall name
      ensures AllAnswer(v, map[], PathSlots(v.content, roots.index, v.hash(name), 0))
              <==> forall b ::
                     b in PathSlots(v.content, roots.index, v.hash(name), 0) ==>
                       Readable(v.content, v.size, b.descriptor, true)
    {
      FreshLookup(v, roots.index, v.hash(name));
      SoundPath(v, roots, v.hash(name));
    }
  }

  lemma SoundPath(v: Reader, roots: Roots, h: string)
    requires Sound(v, roots)
    ensures OnePlaceEach(PathSlots(v.content, roots.index, h, 0))
    ensures forall b :: b in PathSlots(v.content, roots.index, h, 0) ==>
              (Answers(v, map[], b) <==> Readable(v.content, v.size, b.descriptor, true))
  {
    var path := PathSlots(v.content, roots.index, h, 0);
    PathSlotAt(v.content, roots.index, h, 0);
    hide PathSlots, SlotAccepted, Reaches, SlotOk, Readable;
    forall i | 0 <= i < |path|
      ensures SlotOk(v.content, roots, path[i])
    {
      PathSlotOk(v.content, roots, h, i);
    }
    forall b, c | b in path && c in path && b.descriptor.digest == c.descriptor.digest
      ensures b == c
    {
      SamePlace(v.content, roots, b, c);
    }
  }

  // ---- the order matters

  const PADDED := Raw(Some(Node(Some(map[]), None)), None, true, 0)

  /** One blob for both roots: an empty leaf whose text is longer than a consumer node may be, but not a writer node. */
  function SharedRoot(): Descriptor {
    Descriptor("sha256:" + seq(64, _ => '0'), "application/octet-stream", 200 * 1024)
  }

  function SharedRootReader(hash: Hash): Reader {
    var d := SharedRoot();
    Reader(digest => if digest == d.digest then Some(PADDED) else None, _ => 200 * 1024, map[d.digest := d], hash)
  }

  lemma SharedAnswers(hash: Hash)
    ensures var (v, d) := (SharedRootReader(hash), SharedRoot());
            && Answers(v, map[], Slot(d, "", false)) && !Answers(v, map[], Slot(d, "", true))
            && Answers(v, map[d.digest := ""], Slot(d, "", true))
  {
    var (v, d) := (SharedRootReader(hash), SharedRoot());
    assert Readable(v.content, v.size, d, false) && !Readable(v.content, v.size, d, true);
  }

  lemma WriterFirst(hash: Hash)
    ensures var (v, d) := (SharedRootReader(hash), SharedRoot());
            AllAnswer(v, map[], [Slot(d, "", false), Slot(d, "", true)])
  {
    var (v, d) := (SharedRootReader(hash), SharedRoot());
    var (index, writer) := (Slot(d, "", true), Slot(d, "", false));
    SharedAnswers(hash);
    hide Answers;
    assert Learned(v, map[], writer) == map[d.digest := ""];
    assert [writer, index][1..] == [index] && [index][1..] == [];
    assert AllAnswer(v, map[d.digest := ""], [index]);
  }

  lemma SharedPath(hash: Hash, name: string)
    ensures var d := SharedRoot();
            var path := PathSlots(SharedRootReader(hash).content, d, hash(name), 0);
            path != [] && path[0] == Slot(d, "", true)
  {
    assert hash(name)[..0] == "";
  }

  /** Reading the writer root first makes the load succeed; reading the index root first, or any lookup on a fresh view,
      fails. */
  lemma LoadOrderMatters(hash: Hash, name: string)
    ensures var v, roots := SharedRootReader(hash), Roots(SharedRoot(), SharedRoot());
            var index, writer := Slot(SharedRoot(), "", true), Slot(SharedRoot(), "", false);
            && Schedule(v.content, roots, [writer, index]) && AllAnswer(v, map[], [writer, index])
            && Schedule(v.content, roots, [index, writer]) && !AllAnswer(v, map[], [index, writer])
            && !AllAnswer(v, map[], PathSlots(v.content, roots.index, hash(name), 0))
  {
    SharedPlaces(hash);
    SharedAnswers(hash);
    WriterFirst(hash);
    SharedPath(hash, name);
    hide Answers, PathSlots, SharedRootReader;
  }

  lemma SharedPlaces(hash: Hash)
    ensures forall b :: SlotOk(SharedRootReader(hash).content, Roots(SharedRoot(), SharedRoot()), b)
                        <==> b == Slot(SharedRoot(), "", true) || b == Slot(SharedRoot(), "", false)
  {
    var v, d := SharedRootReader(hash), SharedRoot();
    forall path | path != ""
      ensures At(v.content, d, path).None?
    {
      var n := |path| - 1;
      SharedChildren(v, d, path[..n]);
    }
  }

  lemma SharedChildren(v: Reader, d: Descriptor, path: string)
    requires v.content(d.digest) == Some(PADDED) && (forall digest :: v.content(digest) in {Some(PADDED), None})
    ensures At(v.content, d, path).Some? && NodeIn(v.content, At(v.content, d, path).value.digest).Some? ==>
              Children(NodeIn(v.content, At(v.content, d, path).value.digest).value) == map[]
  {
  }
}

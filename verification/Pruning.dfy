/** Which uploaded paths `PublishStore` may publish (worker/publication.go:423-453). */
module Pruning {
  import opened Names
  import opened Snapshots

  /** A set of uploaded paths that can be published together: a reference to an uploaded path must be in the set, any
      other reference must be covered already. */
  ghost predicate Supported(uploaded: set<string>, refs: map<string, seq<string>>, covered: set<string>,
                            s: set<string>) {
    s <= uploaded && s <= refs.Keys
    && forall p, r :: p in s && r in refs[p] ==> if r in uploaded then r in s else r in covered
  }

  /** What one would ask for of candidates that are not covered yet: every reference is kept or covered. */
  ghost predicate Kept(refs: map<string, seq<string>>, covered: set<string>, s: set<string>) {
    s <= refs.Keys && forall p, r :: p in s && r in refs[p] ==> r in s || r in covered
  }

  /** The candidates are filtered to be uncovered (lines 257-261). */
  lemma KeptIsSupported(uploaded: set<string>, refs: map<string, seq<string>>, covered: set<string>)
    requires uploaded <= refs.Keys
    ensures uploaded !! covered ==>
              forall s :: Supported(uploaded, refs, covered, s) <==> s <= uploaded && Kept(refs, covered, s)
  {
  }

  ghost predicate Hopeless(uploaded: set<string>, refs: map<string, seq<string>>, covered: set<string>, p: string) {
    forall s :: Supported(uploaded, refs, covered, s) ==> p !in s
  }

  /** The reference of `p` at some position is handled: entered as a consumer, covered, or `p` is queued. */
  ghost predicate Handled(uploaded: set<string>, covered: set<string>, consumers: map<string, seq<string>>,
                          invalid: seq<string>, p: string, r: string) {
    if r in uploaded then p in ConsumersOf(consumers, r) else r in covered || p in invalid
  }

  ghost predicate Consumes(consumers: map<string, seq<string>>, r: string, c: string) { c in ConsumersOf(consumers, r) }

  ghost predicate Refers(uploaded: set<string>, refs: map<string, seq<string>>, r: string, c: string) {
    r in uploaded && c in refs && r in refs[c]
  }

  /** `consumers` only lists paths that refer to the key, and the queue only lists hopeless ones. */
  ghost predicate Honest(uploaded: set<string>, refs: map<string, seq<string>>, covered: set<string>,
                         consumers: map<string, seq<string>>, invalid: seq<string>) {
    && (forall r, c :: Consumes(consumers, r, c) ==> Refers(uploaded, refs, r, c))
    && (forall p :: p in invalid ==> Hopeless(uploaded, refs, covered, p))
  }

  /** A reference that is neither uploaded nor covered cannot be kept. */
  lemma LostReference(uploaded: set<string>, refs: map<string, seq<string>>, covered: set<string>, p: string, r: string)
    requires p in refs && r in refs[p] && r !in uploaded && r !in covered
    ensures Hopeless(uploaded, refs, covered, p)
  {
    forall s | Supported(uploaded, refs, covered, s)
      ensures p !in s
    {
    }
  }

  lemma EnteredConsumer(consumers: map<string, seq<string>>, r: string, p: string)
    ensures forall q, x :: x in ConsumersOf(consumers[r := ConsumersOf(consumers, r) + [p]], q)
              <==> x in ConsumersOf(consumers, q) || (q == r && x == p)
  {
    forall q, x
      ensures x in ConsumersOf(consumers[r := ConsumersOf(consumers, r) + [p]], q)
              <==> x in ConsumersOf(consumers, q) || (q == r && x == p)
    {
      AppendElement(ConsumersOf(consumers, r), p);
      assert x in Elements(ConsumersOf(consumers, r) + [p]) <==> x in Elements(ConsumersOf(consumers, r)) || x == p;
    }
  }

  lemma HonestStart(uploaded: set<string>, refs: map<string, seq<string>>, covered: set<string>)
    ensures Honest(uploaded, refs, covered, map[], [])
  {
  }

  /** One reference of the first loop. */
  method Enter(uploaded: set<string>, refs: map<string, seq<string>>, covered: set<string>, p: string, r: string,
               consumers: map<string, seq<string>>, invalid: seq<string>)
    returns (consumers': map<string, seq<string>>, invalid': seq<string>)
    requires p in refs && r in refs[p] && Honest(uploaded, refs, covered, consumers, invalid)
    ensures Honest(uploaded, refs, covered, consumers', invalid')
            && Handled(uploaded, covered, consumers', invalid', p, r)
    ensures forall q, x ::
              Handled(uploaded, covered, consumers, invalid, q, x) ==>
                Handled(uploaded, covered, consumers', invalid', q, x)
  {
    consumers', invalid' := consumers, invalid;
    if r in uploaded {
      consumers' := consumers[r := ConsumersOf(consumers, r) + [p]];
      EnteredConsumer(consumers, r, p);
      forall q, c | Consumes(consumers', q, c)
        ensures Refers(uploaded, refs, q, c)
      {
        if !Consumes(consumers, q, c) { assert q == r && c == p; }
      }
    } else if r !in covered {
      LostReference(uploaded, refs, covered, p, r);
      invalid' := invalid + [p];
      assert forall x :: x in invalid' <==> x in invalid || x == p;
    }
  }

  /** Lines 430-440. */
  method Collect(uploaded: set<string>, refs: map<string, seq<string>>, covered: set<string>)
    returns (consumers: map<string, seq<string>>, invalid: seq<string>)
    requires uploaded <= refs.Keys
    ensures Honest(uploaded, refs, covered, consumers, invalid)
    ensures forall p, r :: p in uploaded && r in refs[p] ==> Handled(uploaded, covered, consumers, invalid, p, r)
  {
    consumers, invalid := map[], [];
    HonestStart(uploaded, refs, covered);
    var todo := uploaded;
    while todo != {}
      invariant todo <= uploaded && Honest(uploaded, refs, covered, consumers, invalid)
      invariant forall p, r ::
                  p in uploaded && p !in todo && r in refs[p] ==> Handled(uploaded, covered, consumers, invalid, p, r)
      decreases todo
    {
      var p :| p in todo;
      for i := 0 to |refs[p]|
        invariant Honest(uploaded, refs, covered, consumers, invalid)
        invariant forall q, r ::
                    q in uploaded && q !in todo && r in refs[q] ==> Handled(uploaded, covered, consumers, invalid, q, r)
        invariant forall k :: 0 <= k < i ==> Handled(uploaded, covered, consumers, invalid, p, refs[p][k])
      {
        hide Honest, Handled;
        consumers, invalid := Enter(uploaded, refs, covered, p, refs[p][i], consumers, invalid);
      }
      todo := todo - {p};
    }
  }

  /** The pruning loop's bookkeeping: a reference that is no longer kept has its referrer queued. */
  ghost predicate Queued(uploaded: set<string>, refs: map<string, seq<string>>, covered: set<string>,
                         ready: set<string>, invalid: seq<string>) {
    forall p, r ::
      p in ready && p in refs && r in refs[p] ==> p in invalid || (if r in uploaded then r in ready else r in covered)
  }

  lemma ConsumerHopeless(uploaded: set<string>, refs: map<string, seq<string>>, covered: set<string>, p: string,
                         c: string)
    requires Hopeless(uploaded, refs, covered, p) && p in uploaded && c in refs && p in refs[c]
    ensures Hopeless(uploaded, refs, covered, c)
  {
    forall s | Supported(uploaded, refs, covered, s)
      ensures c !in s
    {
    }
  }

  /** `PublishStore` keeps the greatest publishable set, mutually referring groups included. */
  method Prune(uploaded: set<string>, refs: map<string, seq<string>>, covered: set<string>) returns (ready: set<string>)
    requires uploaded <= refs.Keys
    ensures Supported(uploaded, refs, covered, ready)
    ensures forall s :: Supported(uploaded, refs, covered, s) ==> s <= ready
    ensures uploaded !! covered ==>
              Kept(refs, covered, ready) && forall s :: s <= uploaded && Kept(refs, covered, s) ==> s <= ready
  {
    var consumers, invalid := Collect(uploaded, refs, covered);
    ready := uploaded;
    while invalid != []
      invariant ready <= uploaded && (forall p :: p in uploaded && p !in ready ==> Hopeless(uploaded, refs, covered, p))
      invariant forall p :: p in invalid ==> Hopeless(uploaded, refs, covered, p)
      invariant Queued(uploaded, refs, covered, ready, invalid)
      decreases ready, |invalid|
    {
      hide Hopeless, Supported;
      var p := invalid[0];
      assert forall x :: x in invalid <==> x == p || x in invalid[1..];
      invalid := invalid[1..];
      if p in ready {
        forall c | c in ConsumersOf(consumers, p)
          ensures Hopeless(uploaded, refs, covered, c)
        {
          assert Consumes(consumers, p, c);
          ConsumerHopeless(uploaded, refs, covered, p, c);
        }
        forall q, r | q in ready - {p} && r in refs[q] && r == p
          ensures q in ConsumersOf(consumers, p)
        {
          assert Handled(uploaded, covered, consumers, invalid, q, r);
        }
        ready := ready - {p};
        invalid := invalid + ConsumersOf(consumers, p);
      }
    }
    forall s | Supported(uploaded, refs, covered, s)
      ensures s <= ready
    {
      forall p | p in s
        ensures p in ready
      {
      }
    }
    KeptIsSupported(uploaded, refs, covered);
  }

  /** A group of uploaded paths that only refer to one another and to covered paths is kept whole. */
  lemma CyclesKept(uploaded: set<string>, refs: map<string, seq<string>>, covered: set<string>, ready: set<string>,
                   group: set<string>)
    requires uploaded <= refs.Keys && uploaded !! covered && group <= uploaded
    requires forall s :: Supported(uploaded, refs, covered, s) ==> s <= ready
    requires Kept(refs, covered, group)
    ensures group <= ready
  {
    KeptIsSupported(uploaded, refs, covered);
  }

  ghost predicate Referenced(u: Snapshot, p: string) {
    || (exists q :: q in u.upstream && p in Listed(u.upstream[q]))
    || (exists name :: name in u.narinfos && p in u.narinfos[name].refs)
  }

  /** A record whose key a new one takes over, with a path that nothing else covers. */
  ghost predicate Replaced(t: Snapshot, added: map<string, Narinfo>, name: string) {
    && name in added && name in t.narinfos && t.narinfos[name].storePath != added[name].storePath
    && t.narinfos[name].storePath !in t.upstream
  }

  /** Who covers a path once the narinfos are added. */
  lemma AddedCovers(t: Snapshot, added: map<string, Narinfo>, p: string)
    requires RecordsOk(t) && forall name :: name in added ==> name == NarinfoKey(added[name].storePath)
    ensures var u := t.(narinfos := t.narinfos + added);
            Covers(t, p) && !Covers(u, p) ==>
              Replaced(t, added, NarinfoKey(p)) && t.narinfos[NarinfoKey(p)].storePath == p
    ensures var u := t.(narinfos := t.narinfos + added);
            Replaced(t, added, NarinfoKey(p)) && t.narinfos[NarinfoKey(p)].storePath == p ==> !Covers(u, p)
  {
    var u := t.(narinfos := t.narinfos + added);
    hide NarinfoKey, Archive;
    if Covers(t, p) && p !in t.upstream {
      var name :| name in t.narinfos && t.narinfos[name].storePath == p;
      assert NarinfoOk(t.files, name, t.narinfos[name]);
      assert name in u.narinfos;
    }
    forall name | name in u.narinfos && u.narinfos[name].storePath == p
      ensures name == NarinfoKey(p)
    {
      if name !in added { assert NarinfoOk(t.files, name, t.narinfos[name]); }
    }
  }

  lemma ReferencedCovered(u: Snapshot)
    ensures (forall p :: Referenced(u, p) ==> Covers(u, p))
            <==> (forall q :: q in u.upstream ==> RefsCovered(u, Listed(u.upstream[q])))
                 && forall name :: name in u.narinfos ==> RefsCovered(u, u.narinfos[name].refs)
  {
    hide Covers;
    if forall p :: Referenced(u, p) ==> Covers(u, p) {
      forall q | q in u.upstream
        ensures RefsCovered(u, Listed(u.upstream[q]))
      {
        forall r | r in Listed(u.upstream[q])
          ensures Covers(u, r)
        {
          assert Referenced(u, r);
        }
      }
      forall name | name in u.narinfos
        ensures RefsCovered(u, u.narinfos[name].refs)
      {
        forall r | r in u.narinfos[name].refs
          ensures Covers(u, r)
        {
          assert Referenced(u, r);
        }
      }
    }
  }

  /** References of what is published are covered by what was there or by what is published with them. */
  lemma ReferencesKnown(t: Snapshot, uploaded: set<string>, refs: map<string, seq<string>>, covered: set<string>,
                        ready: set<string>, added: map<string, Narinfo>, p: string)
    requires Closed(t) && Supported(uploaded, refs, covered, ready) && forall q :: q in covered ==> Covers(t, q)
    requires forall name :: name in added ==> added[name].storePath in ready
    requires forall name :: name in added ==> Elements(added[name].refs) == Elements(refs[added[name].storePath])
    requires Referenced(t.(narinfos := t.narinfos + added), p)
    ensures Covers(t, p) || p in ready
  {
    var u := t.(narinfos := t.narinfos + added);
    hide NarinfoKey, Archive, Covers, RecordsOk;
    if q :| q in u.upstream && p in Listed(u.upstream[q]) {
      assert RefsCovered(t, Listed(t.upstream[q]));
    } else {
      var name :| name in u.narinfos && p in u.narinfos[name].refs;
      if name in added {
        assert p in Elements(added[name].refs);
        assert p in refs[added[name].storePath];
      } else {
        assert RefsCovered(t, t.narinfos[name].refs);
      }
    }
  }

  /** Publishing the kept narinfos: `t` is what snapshot and parent cover together. The result is closed exactly when no
      record that is left refers to a path whose own record lost its key; nothing is lost when every key is new. */
  lemma PruningKeepsClosed(t: Snapshot, uploaded: set<string>, refs: map<string, seq<string>>, covered: set<string>,
                           ready: set<string>, added: map<string, Narinfo>)
    requires Closed(t) && Supported(uploaded, refs, covered, ready) && forall p :: p in covered ==> Covers(t, p)
    requires forall p :: p in ready ==> NarinfoKey(p) in added && added[NarinfoKey(p)].storePath == p
    requires forall name :: name in added ==> NarinfoOk(t.files, name, added[name]) && added[name].storePath in ready
    requires forall name :: name in added ==> Elements(added[name].refs) == Elements(refs[added[name].storePath])
    ensures
      var u := t.(narinfos := t.narinfos + added);
      Closed(u) <==> forall name :: Replaced(t, added, name) ==> !Referenced(u, t.narinfos[name].storePath)
  {
    var u := t.(narinfos := t.narinfos + added);
    ReferencedCovered(u);
    AddedRecords(t, added);
    hide Archive, NarinfoKey, Closed, Supported, RefsCovered, RecordsOk;
    if forall name :: Replaced(t, added, name) ==> !Referenced(u, t.narinfos[name].storePath) {
      forall p | Referenced(u, p)
        ensures Covers(u, p)
      {
        ReferencesKnown(t, uploaded, refs, covered, ready, added, p);
        AddedCovers(t, added, p);
        if p in ready { assert NarinfoKey(p) in u.narinfos && u.narinfos[NarinfoKey(p)].storePath == p; }
      }
    }
    forall name | Replaced(t, added, name)
      ensures !Covers(u, t.narinfos[name].storePath)
    {
      ReplacedKey(t, added, name);
      AddedCovers(t, added, t.narinfos[name].storePath);
    }
  }

  lemma ReplacedKey(t: Snapshot, added: map<string, Narinfo>, name: string)
    requires RecordsOk(t) && Replaced(t, added, name)
    ensures name == NarinfoKey(t.narinfos[name].storePath)
  {
    assert NarinfoOk(t.files, name, t.narinfos[name]);
  }

  lemma AddedRecords(t: Snapshot, added: map<string, Narinfo>)
    requires Closed(t) && forall name :: name in added ==> NarinfoOk(t.files, name, added[name])
    ensures RecordsOk(t) && RecordsOk(t.(narinfos := t.narinfos + added))
    ensures forall name :: name in added ==> name == NarinfoKey(added[name].storePath)
    ensures var u := t.(narinfos := t.narinfos + added);
            Closed(u) <==> (forall q :: q in u.upstream ==> RefsCovered(u, Listed(u.upstream[q])))
                           && forall name :: name in u.narinfos ==> RefsCovered(u, u.narinfos[name].refs)
  {
    hide Archive, NarinfoKey, RefsCovered;
  }
}

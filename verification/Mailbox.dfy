/** Reading a mailbox that may return any entry ever written, or none (worker/pool.go:59-71, 169-214). */
module Mailbox {
  import opened Names
  import opened Messages

  /** A stored record; the key is the fresh nonce of its write, here the position in the mailbox. */
  datatype Entry = Entry(key: nat, message: Message)

  /** What the control store may answer for a mailbox with these writes: nothing, or any one of them. */
  predicate Offered(box: seq<Message>, got: Option<Entry>) {
    got.Some? ==> got.value.key < |box| && box[got.value.key] == got.value.message
  }

  predicate Newer(seen: Option<Entry>, e: Entry) {
    seen.None? || (e.key != seen.value.key && e.message.sent > seen.value.message.sent)
  }

  function Keep(seen: Option<Entry>, got: Option<Entry>): Option<Entry> {
    if got.Some? && Newer(seen, got.value) then got else seen
  }

  /** An error stays an error; otherwise the retained record is what the caller sees. */
  function Answer(seen: Option<Entry>, got: Option<Entry>): Option<Message> {
    if got.None? || Keep(seen, got).None? then None else Some(Keep(seen, got).value.message)
  }

  class Record {
    var seen: Option<Entry>

    constructor ()
      ensures seen == None
    {
      seen := None;
    }

    method Read(got: Option<Entry>) returns (message: Option<Message>)
      modifies this
      ensures seen == Keep(old(seen), got) && message == Answer(old(seen), got)
    {
      if got.None? { return None; }
      if seen.None? || got.value.key != seen.value.key {
        if seen.None? || got.value.message.sent > seen.value.message.sent {
          seen := got;
        }
      }
      message := Some(seen.value.message);
    }
  }

  function KeepAll(seen: Option<Entry>, gots: seq<Option<Entry>>): Option<Entry> {
    if gots == [] then seen else Keep(KeepAll(seen, gots[..|gots| - 1]), gots[|gots| - 1])
  }

  /** However the store replays or loses entries, what a reader returns was written, and never goes back in time. */
  lemma {:induction false} ReadsMoveForward(box: seq<Message>, gots: seq<Option<Entry>>, i: nat, j: nat)
    requires i < j < |gots| && forall k :: 0 <= k < |gots| ==> Offered(box, gots[k])
    ensures
      var (a, b) := (Answer(KeepAll(None, gots[..i]), gots[i]), Answer(KeepAll(None, gots[..j]), gots[j]));
      && (a.Some? ==> a.value in box) && (b.Some? ==> b.value in box)
      && (a.Some? && b.Some? ==> a.value.sent <= b.value.sent)
  {
    KeptOffered(box, gots, i);
    KeptOffered(box, gots, j);
    assert gots[..i + 1][..i] == gots[..i];
    KeptAdvances(gots, i + 1, j);
  }

  lemma {:induction false} KeptOffered(box: seq<Message>, gots: seq<Option<Entry>>, n: nat)
    requires n <= |gots| && forall k :: 0 <= k < |gots| ==> Offered(box, gots[k])
    ensures Offered(box, KeepAll(None, gots[..n]))
  {
    if n > 0 {
      KeptOffered(box, gots, n - 1);
      assert gots[..n][..n - 1] == gots[..n - 1];
    }
  }

  lemma {:induction false} KeptAdvances(gots: seq<Option<Entry>>, m: nat, n: nat)
    requires m <= n <= |gots|
    ensures
      var (a, b) := (KeepAll(None, gots[..m]), KeepAll(None, gots[..n]));
      a.Some? ==> b.Some? && a.value.message.sent <= b.value.message.sent
  {
    if m < n {
      KeptAdvances(gots, m, n - 1);
      assert gots[..n][..n - 1] == gots[..n - 1];
    }
  }

  // ---- the kept record is the latest one read

  /** One of the reads gave the record, and none gave one that was sent later. */
  ghost predicate LatestOf(gots: seq<Option<Entry>>, e: Entry) {
    && (exists k :: 0 <= k < |gots| && gots[k] == Some(e))
    && forall k :: 0 <= k < |gots| && gots[k].Some? ==> gots[k].value.message.sent <= e.message.sent
  }

  /** Whatever was read so far, the record that is kept is the latest of it. */
  lemma {:induction false} KeepsLatest(box: seq<Message>, gots: seq<Option<Entry>>)
    requires forall k :: 0 <= k < |gots| ==> Offered(box, gots[k])
    ensures KeepAll(None, gots).None? <==> forall k :: 0 <= k < |gots| ==> gots[k].None?
    ensures KeepAll(None, gots).Some? ==> LatestOf(gots, KeepAll(None, gots).value)
  {
    if gots != [] {
      var n := |gots| - 1;
      KeepsLatest(box, gots[..n]);
      var seen := KeepAll(None, gots[..n]);
      if seen.Some? {
        var k :| 0 <= k < n && gots[..n][k] == seen;
        assert gots[k] == seen;
      }
      forall k | 0 <= k < n && gots[k].Some?
        ensures seen.Some? && gots[k].value.message.sent <= seen.value.message.sent
      {
        assert gots[..n][k] == gots[k];
      }
      if gots[n].Some? && !Newer(seen, gots[n].value) { assert gots[n].value.message.sent <= seen.value.message.sent; }
    }
  }

  /** Every write to the mailbox was sent later than the one before. */
  ghost predicate SentInOrder(box: seq<Message>) { forall i, j :: 0 <= i < j < |box| ==> box[i].sent < box[j].sent }

  /** A read that does not fail answers with the last write among all that were read so far. */
  lemma AnswersLatest(box: seq<Message>, gots: seq<Option<Entry>>, n: nat) returns (k: nat)
    requires SentInOrder(box) && n < |gots| && forall k :: 0 <= k < |gots| ==> Offered(box, gots[k])
    requires gots[n].Some?
    ensures k <= n && gots[k].Some? && gots[k].value.key < |box|
    ensures Answer(KeepAll(None, gots[..n]), gots[n]) == Some(box[gots[k].value.key])
    ensures forall j :: 0 <= j <= n && gots[j].Some? ==> gots[j].value.key <= gots[k].value.key
  {
    var prior := gots[..n + 1];
    KeepsLatest(box, prior);
    assert prior[n] == gots[n] && prior[..n] == gots[..n];
    var e := KeepAll(None, prior).value;
    k :| 0 <= k < |prior| && prior[k] == Some(e);
    assert gots[k] == Some(e);
    forall j | 0 <= j <= n && gots[j].Some?
      ensures gots[j].value.key <= e.key
    {
      assert prior[j] == gots[j];
    }
  }
}

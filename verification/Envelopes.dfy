/** How the records of a mailbox are sealed, and why a store that loses, mixes up or invents entries is no worse than
    one that answers with any earlier write or none (worker/pool.go:121-214). */
module Envelopes {
  import opened Names
  import opened Messages
  import opened Mailbox

  type Text = string

  /** HMAC-SHA-256 of a tag and a text under the key of the pool, as hexadecimal digits. */
  type Mac = (string, Text) -> string

  /** What a text decodes to, if it is a message. */
  type Decode = Text -> Option<Message>

  datatype Envelope = Envelope(data: Text, mac: string)

  /** What the store answers; the envelope is absent when it cannot be decrypted, is too long or does not decode. */
  datatype Sealed = Sealed(key: string, content: Option<Envelope>)

  const NONCE := 32

  // ---- mailboxes

  /** `tag` and `prefix` for the runners of one pool, whose names all begin with `pool`. */
  function Tag(pool: string, role: string, runner: nat): string
    requires runner < RUNNERS
  {
    pool + "-" + role + "-" + ["0123"[runner]]
  }

  function Prefix(mac: Mac, pool: string, role: string, runner: nat): string
    requires runner < RUNNERS
  {
    "nix-ci-control-v1-" + mac("mailbox", Tag(pool, role, runner)) + "-"
  }

  /** Different mailboxes have different prefixes, unless two of their tags collide. */
  lemma PrefixesDiffer(mac: Mac, pool: string, a: string, b: string, q: nat, r: nat)
    requires q < RUNNERS && r < RUNNERS
    requires mac("mailbox", Tag(pool, a, q)) == mac("mailbox", Tag(pool, b, r)) ==> Tag(pool, a, q) == Tag(pool, b, r)
    ensures Prefix(mac, pool, a, q) == Prefix(mac, pool, b, r) <==> a == b && q == r
  {
    if Prefix(mac, pool, a, q) == Prefix(mac, pool, b, r) {
      var (p, m, n) := (Prefix(mac, pool, a, q), mac("mailbox", Tag(pool, a, q)), mac("mailbox", Tag(pool, b, r)));
      assert p[18..|p| - 1] == m && p[18..|p| - 1] == n;
      var (s, t) := (Tag(pool, a, q), Tag(pool, b, r));
      assert s[|s| - 1] == "0123"[q] && t[|t| - 1] == "0123"[r];
      assert s[|pool| + 1..|s| - 2] == a && t[|pool| + 1..|t| - 2] == b;
    }
  }

  // ---- writing and reading

  /** A record that was written, under its own key. */
  datatype Written = Written(key: string, data: Text)

  predicate KeyOf(prefix: string, key: string) { |key| == |prefix| + NONCE && key[..|prefix|] == prefix }

  /** Every write has a key of its own under the prefix, and holds a message. */
  ghost predicate Mailed(decode: Decode, prefix: string, log: seq<Written>) {
    && (forall i :: 0 <= i < |log| ==> KeyOf(prefix, log[i].key) && decode(log[i].data).Some?)
    && forall i, j :: 0 <= i < j < |log| ==> log[i].key != log[j].key
  }

  function Box(decode: Decode, log: seq<Written>): seq<Message>
    requires forall i :: 0 <= i < |log| ==> decode(log[i].data).Some?
  {
    seq(|log|, i requires 0 <= i < |log| => decode(log[i].data).value)
  }

  /** The store has no valid code for a key of this mailbox other than those that were written. */
  ghost predicate Unforged(mac: Mac, prefix: string, log: seq<Written>, answer: Option<Sealed>) {
    answer.Some? && answer.value.content.Some? && KeyOf(prefix, answer.value.key)
    && answer.value.content.value.mac == mac(answer.value.key, answer.value.content.value.data) ==>
      Written(answer.value.key, answer.value.content.value.data) in log
  }

  /** What is done with an answer: the key that is known already needs no content, and any other must be of this
      mailbox, decrypt, be authentic for its key, and hold a message. */
  predicate Valid(mac: Mac, decode: Decode, prefix: string, known: string, answer: Option<Sealed>) {
    && answer.Some?
    && (answer.value.key != known ==>
          && KeyOf(prefix, answer.value.key) && answer.value.content.Some?
          && var e := answer.value.content.value;
             e.mac == mac(answer.value.key, e.data) && decode(e.data).Some?)
  }

  /** A written record by its place. */
  ghost function Placed(decode: Decode, prefix: string, log: seq<Written>, w: Written): (e: Entry)
    requires Mailed(decode, prefix, log) && w in log
    ensures e.key < |log| && log[e.key] == w && decode(w.data) == Some(e.message)
    ensures Offered(Box(decode, log), Some(e))
  {
    var i :| 0 <= i < |log| && log[i] == w;
    Entry(i, Box(decode, log)[i])
  }

  class SealedRecord {
    const mac: Mac
    const decode: Decode
    const prefix: string
    var key: string
    var data: Text
    var sent: int

    constructor (mac: Mac, decode: Decode, prefix: string)
      ensures this.mac == mac && this.decode == decode && this.prefix == prefix && key == "" && data == ""
    {
      this.mac, this.decode, this.prefix, key, data, sent := mac, decode, prefix, "", "", 0;
    }

    /** What is kept was written. */
    ghost predicate Keeps(log: seq<Written>)
      reads this
    {
      && Mailed(decode, prefix, log) && decode("").None?
      && (if key == "" then data == "" else Written(key, data) in log && decode(data).value.sent == sent)
    }

    /** The kept record by its place in the mailbox. */
    ghost function Seen(log: seq<Written>): Option<Entry>
      reads this
      requires Keeps(log)
    {
      if key == "" then None else Some(Placed(decode, prefix, log, Written(key, data)))
    }

    /** Lines 174-213. Whatever the store answers, it is as if it had answered with some write of this mailbox, or had
        failed. */
    method Read(answer: Option<Sealed>, ghost log: seq<Written>)
      returns (message: Option<Message>, ghost got: Option<Entry>)
      requires Keeps(log) && Unforged(mac, prefix, log, answer)
      modifies this
      ensures Keeps(log) && Offered(Box(decode, log), got)
      ensures Seen(log) == Keep(old(Seen(log)), got) && message == Answer(old(Seen(log)), got)
      ensures message.Some?
              <==> Valid(mac, decode, prefix, old(key), answer) && (answer.value.key != "" || old(key) != "")
    {
      message, got := None, None;
      if answer.None? { return; }
      got := Seen(log);
      var k := answer.value.key;
      if k != key {
        got := None;
        if |k| != |prefix| + NONCE || k[..|prefix|] != prefix { return; }
        if answer.value.content.None? { return; }
        var e := answer.value.content.value;
        if e.mac != mac(k, e.data) { return; }
        var decoded := decode(e.data);
        if decoded.None? { return; }
        got := Some(Placed(decode, prefix, log, Written(k, e.data)));
        if key == "" || decoded.value.sent > sent {
          key, data, sent := k, e.data, decoded.value.sent;
        }
      }
      message := decode(data);
    }
  }

  // ---- what a write is for

  /** Line 139-166: what is stored for a message under a fresh nonce. */
  function Seal(mac: Mac, prefix: string, nonce: string, data: Text): Sealed {
    Sealed(prefix + nonce, Some(Envelope(data, mac(prefix + nonce, data))))
  }

  /** What is written is accepted by a reader of the mailbox that does not have it yet. */
  lemma SealedIsValid(mac: Mac, decode: Decode, prefix: string, nonce: string, data: Text, known: string)
    requires |nonce| == NONCE && decode(data).Some?
    ensures Valid(mac, decode, prefix, known, Some(Seal(mac, prefix, nonce, data)))
  {
    assert (prefix + nonce)[..|prefix|] == prefix;
  }

  /** And by no reader of another mailbox, or under another key: its code is for its own key alone. */
  lemma SealedElsewhere(mac: Mac, decode: Decode, prefix: string, nonce: string, data: Text, other: string, k: string,
                        known: string)
    requires |prefix| == |other| && |nonce| == NONCE && k != known
    requires mac(k, data) == mac(prefix + nonce, data) ==> k == prefix + nonce
    ensures Valid(mac, decode, other, known, Some(Seal(mac, prefix, nonce, data).(key := k))) ==>
              other == prefix && k == prefix + nonce
  {
    assert (prefix + nonce)[..|prefix|] == prefix;
  }
}

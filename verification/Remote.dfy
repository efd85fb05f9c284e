/** The coordinator's side of one helper: the status reader (worker/pool.go:274-298) and the wait for a result
    (`remoteTask`, worker/scheduler.go:297-360). */
module Remote {
  import opened Names
  import opened Messages
  import opened Mailbox
  import S = Snapshots

  /** A task handed to the helper: `since` (the source's `assigned`) is absent until its record is written. */
  datatype Wait = Wait(sequence: nat, instance: string, task: Task, since: Option<int>, acknowledged: bool)

  datatype Verdict = Pending(acknowledged: bool) | Failure | Result(snapshot: string)

  /** One turn of the polling loop; `verified` says that the published snapshot is `Acceptable`. */
  function Judge(wait: Wait, status: Option<Message>, now: int, lease: int, verified: bool): Verdict {
    if !Fresh(status, now, lease) || status.value.instance != wait.instance then Failure
    else if status.value.sequence > wait.sequence then Failure
    else
      var current := status.value.sequence == wait.sequence;
      var acknowledged := wait.acknowledged || (current && status.value.state == "busy");
      if current && status.value.state == "failed" then Failure
      else if current && status.value.state == "done" then if verified then Result(status.value.snapshot) else Failure
      else if !acknowledged && wait.since.Some? && now - wait.since.value >= lease then Failure
      else Pending(acknowledged)
  }

  /** A task fails exactly when its helper is silent, replaced or ahead, reports failure or an unacceptable result, or
      has not said for a lease that it took the task; it succeeds exactly when the helper reports an acceptable
      result. */
  lemma VerdictExactly(wait: Wait, status: Option<Message>, now: int, lease: int, verified: bool)
    ensures
      var verdict := Judge(wait, status, now, lease, verified);
      if !Fresh(status, now, lease) || status.value.instance != wait.instance || status.value.sequence > wait.sequence
      then verdict == Failure
      else if status.value.sequence == wait.sequence && status.value.state == "failed" then verdict == Failure
      else if status.value.sequence == wait.sequence && status.value.state == "done"
      then verdict == (if verified then Result(status.value.snapshot) else Failure)
      else if wait.acknowledged || (status.value.sequence == wait.sequence && status.value.state == "busy")
      then verdict == Pending(true)
      else verdict == if wait.since.Some? && now >= wait.since.value + lease then Failure else Pending(false)
  {
  }

  /** A status replaces the stored one only if it belongs to this pool and is more recent. */
  function Observe(session: string, latest: Option<Message>, message: Option<Message>): Option<Message> {
    if message.Some? && message.value.session == session
       && (latest.None? || message.value.sent > latest.value.sent) then message
    else latest
  }

  function ObserveAll(session: string, gots: seq<Option<Entry>>): Option<Message> {
    if gots == [] then None
    else
      var prior := gots[..|gots| - 1];
      Observe(session, ObserveAll(session, prior), Answer(KeepAll(None, prior), gots[|gots| - 1]))
  }

  /** The message is one of this pool that a read answered with. */
  ghost predicate Heard(session: string, gots: seq<Option<Entry>>, k: int, m: Message) {
    0 <= k < |gots| && Answer(KeepAll(None, gots[..k]), gots[k]) == Some(m) && m.session == session
  }

  /** The stored status is the latest one of this pool that was ever heard. */
  lemma {:induction false} ObservesLatest(session: string, gots: seq<Option<Entry>>)
    ensures IsLatest(session, gots, ObserveAll(session, gots))
  {
    if gots != [] {
      var n := |gots| - 1;
      var prior := gots[..n];
      ObservesLatest(session, prior);
      ObservesMore(session, gots, ObserveAll(session, prior));
    }
  }

  /** The latest of all that were heard, if any was. */
  ghost predicate IsLatest(session: string, gots: seq<Option<Entry>>, latest: Option<Message>) {
    && (latest.Some? ==> exists k :: Heard(session, gots, k, latest.value))
    && forall k, m :: Heard(session, gots, k, m) ==> latest.Some? && m.sent <= latest.value.sent
  }

  lemma HeardBefore(session: string, gots: seq<Option<Entry>>, k: int, m: Message)
    requires gots != [] && k != |gots| - 1
    ensures Heard(session, gots, k, m) <==> Heard(session, gots[..|gots| - 1], k, m)
  {
    if 0 <= k < |gots| - 1 { assert gots[..|gots| - 1][..k] == gots[..k]; }
  }

  lemma ObservesMore(session: string, gots: seq<Option<Entry>>, before: Option<Message>)
    requires gots != [] && IsLatest(session, gots[..|gots| - 1], before)
    ensures
      var n := |gots| - 1;
      IsLatest(session, gots, Observe(session, before, Answer(KeepAll(None, gots[..n]), gots[n])))
  {
    hide KeepAll, Answer;
    var n := |gots| - 1;
    var answer := Answer(KeepAll(None, gots[..n]), gots[n]);
    var after := Observe(session, before, answer);
    if before.Some? {
      var k :| Heard(session, gots[..n], k, before.value);
      HeardBefore(session, gots, k, before.value);
      assert Heard(session, gots, k, before.value);
    }
    if after != before { assert Heard(session, gots, n, after.value); }
    forall k, m | Heard(session, gots, k, m)
      ensures after.Some? && m.sent <= after.value.sent
    {
      if k != n { HeardBefore(session, gots, k, m); }
    }
  }

  class StatusReader {
    const session: string
    const record: Record
    var latest: Option<Message>

    constructor (session: string)
      ensures this.session == session && latest == None && record.seen == None && fresh(record)
    {
      var r := new Record();
      this.session, record, latest := session, r, None;
    }

    method Turn(got: Option<Entry>)
      modifies this, record
      ensures record.seen == Keep(old(record.seen), got)
      ensures latest == Observe(session, old(latest), Answer(old(record.seen), got))
    {
      var message := record.Read(got);
      if message.Some? && message.value.session == session {
        var previous := latest;
        if previous.None? || message.value.sent > previous.value.sent {
          latest := message;
        }
      }
    }
  }

  /** `archivePattern` behind "cache/" (worker/snapshot.go:41). */
  predicate ArchiveFile(name: string) {
    && |name| == 82 && name[..10] == "cache/nar/" && name[74..] == ".nar.zst"
    && forall i :: 10 <= i < 74 ==> '0' <= name[i] <= '9' || 'a' <= name[i] <= 'f'
  }

  /** The checks of lines 325-344 on what is loaded under the published digest; `loaded` is absent when loading
      fails. */
  ghost predicate Acceptable(digest: string, loaded: Option<S.Snapshot>, outputs: seq<string>) {
    && S.IsDigest(digest) && loaded.Some? && S.Closed(loaded.value)
    && (forall name :: name in loaded.value.files ==> ArchiveFile(name))
    && (forall path :: path in outputs ==> S.Contains(loaded.value, path))
  }

  predicate HexText(h: string) { |h| == 64 && forall c :: c in h ==> c in "0123456789abcdef" }

  lemma HexDigits(c: char)
    ensures c in "0123456789abcdef" <==> '0' <= c <= '9' || 'a' <= c <= 'f'
  {
  }

  lemma HexSlice(s: string, i: nat)
    requires i + 64 <= |s|
    ensures HexText(s[i..i + 64]) <==> forall k :: i <= k < i + 64 ==> '0' <= s[k] <= '9' || 'a' <= s[k] <= 'f'
  {
    var h := s[i..i + 64];
    forall k | i <= k < i + 64
      ensures s[k] in "0123456789abcdef" <==> '0' <= s[k] <= '9' || 'a' <= s[k] <= 'f'
      ensures s[k] == h[k - i] && s[k] in h
    {
      HexDigits(s[k]);
    }
  }

  lemma ArchiveParts(name: string)
    ensures ArchiveFile(name) <==> exists h :: HexText(h) && name == "cache/nar/" + h + ".nar.zst"
  {
    if |name| == 82 {
      HexSlice(name, 10);
      if ArchiveFile(name) { assert name == name[..10] + name[10..74] + name[74..]; }
    }
    if h :| HexText(h) && name == "cache/nar/" + h + ".nar.zst" {
      assert name[..10] == "cache/nar/" && name[10..74] == h && name[74..] == ".nar.zst";
    }
  }

  lemma DigestParts(digest: string)
    ensures S.IsDigest(digest) <==> exists h :: HexText(h) && digest == "sha256:" + h
  {
    if |digest| == 71 {
      HexSlice(digest, 7);
      if S.IsDigest(digest) { assert digest == digest[..7] + digest[7..71]; }
    }
    if h :| HexText(h) && digest == "sha256:" + h { assert digest[..7] == "sha256:" && digest[7..71] == h; }
  }

  /** A result is what was published under a digest, closed, made of archives, and with a record of every output. */
  lemma AcceptableExactly(digest: string, loaded: Option<S.Snapshot>, outputs: seq<string>)
    ensures Acceptable(digest, loaded, outputs)
            <==> (exists h :: HexText(h) && digest == "sha256:" + h) && loaded.Some? && S.Closed(loaded.value)
                 && (forall name :: name in loaded.value.files ==>
                       exists h :: HexText(h) && name == "cache/nar/" + h + ".nar.zst")
                 && forall path :: path in outputs ==> S.Covers(loaded.value, path)
  {
    DigestParts(digest);
    if loaded.Some? && S.Closed(loaded.value) {
      assert S.RecordsOk(loaded.value);
      forall path
        ensures S.Contains(loaded.value, path) <==> S.Covers(loaded.value, path)
      {
        S.ContainsIsCovers(loaded.value, path);
      }
      forall name
        ensures ArchiveFile(name) <==> exists h :: HexText(h) && name == "cache/nar/" + h + ".nar.zst"
      {
        ArchiveParts(name);
      }
    }
    hide S.Closed, S.Contains, S.Covers, ArchiveFile, S.IsDigest, HexText;
  }

  method Verify(digest: string, loaded: Option<S.Snapshot>, outputs: seq<string>) returns (ok: bool)
    ensures ok <==> Acceptable(digest, loaded, outputs)
  {
    if !S.IsDigest(digest) { return false; }
    if loaded.None? { return false; }
    var snapshot := loaded.value;
    var closed := S.RequireClosed(snapshot);
    if !closed { return false; }
    hide S.Closed, S.Contains;
    var names := snapshot.files.Keys;
    while names != {}
      invariant names <= snapshot.files.Keys
                && forall name :: name in snapshot.files && name !in names ==> ArchiveFile(name)
      decreases names
    {
      var name :| name in names;
      if !ArchiveFile(name) { return false; }
      names := names - {name};
    }
    for i := 0 to |outputs|
      invariant forall k :: 0 <= k < i ==> S.Contains(snapshot, outputs[k])
    {
      if !S.Contains(snapshot, outputs[i]) { return false; }
    }
    ok := true;
  }

  class RemoteTask {
    const sequence: nat
    const instance: string
    const task: Task
    var since: Option<int>
    var acknowledged: bool

    function View(): Wait
      reads this
    {
      Wait(sequence, instance, task, since, acknowledged)
    }

    constructor (sequence: nat, instance: string, task: Task)
      ensures View() == Wait(sequence, instance, task, None, false)
    {
      this.sequence, this.instance, this.task, since, acknowledged := sequence, instance, task, None, false;
    }

    /** Lines 301-306: the assignment's record is written, or the task fails. */
    method Write(ok: bool, now: int) returns (sent: bool)
      modifies this`since
      ensures sent == ok && View() == old(View()).(since := if ok then Some(now) else old(since))
    {
      if ok { since := Some(now); }
      sent := ok;
    }

    method Poll(status: Option<Message>, now: int, lease: int, loaded: Option<S.Snapshot>) returns (verdict: Verdict)
      modifies this`acknowledged
      ensures verdict == Judge(old(View()), status, now, lease,
                               status.Some? && Acceptable(status.value.snapshot, loaded, task.outputs))
      ensures verdict.Pending? ==> acknowledged == verdict.acknowledged
    {
      if !Fresh(status, now, lease) || status.value.instance != instance { return Failure; }
      if status.value.sequence > sequence { return Failure; }
      if status.value.sequence == sequence {
        if status.value.state == "busy" { acknowledged := true; }
        if status.value.state == "failed" { return Failure; }
        if status.value.state == "done" {
          var verified := Verify(status.value.snapshot, loaded, task.outputs);
          if !verified { return Failure; }
          return Result(status.value.snapshot);
        }
      }
      if !acknowledged && since.Some? && now - since.value >= lease { return Failure; }
      verdict := Pending(acknowledged);
    }
  }
}

/** `narPacker`: small archives concatenated into packs, one pack uploading while the next one fills
    (worker/publication.go:109-212). */
module Packer {
  import opened Blobs
  import opened Names
  import opened Snapshots

  const PACKED_ARCHIVE_LIMIT := 1024 * 1024

  datatype Outcome = Fine | Failed(reason: string)

  datatype Entry = Entry(name: string, text: Bytes)

  // ---- what a pack holds

  function Joined(records: seq<Entry>): Bytes {
    if records == [] then [] else Joined(records[..|records| - 1]) + records[|records| - 1].text
  }

  function Layout(digest: Digest, records: seq<Entry>): map<string, File> {
    if records == [] then map[]
    else
      var before, last := records[..|records| - 1], records[|records| - 1];
      Layout(digest, before)[last.name := File(NO_BLOB, |Joined(before)|, |last.text|, digest(last.text))]
  }

  function Placed(files: map<string, File>, blob: Descriptor): map<string, File> {
    map n | n in files :: files[n].(blob := blob)
  }

  ghost predicate DistinctNames(records: seq<Entry>) {
    forall i, j :: 0 <= i < j < |records| ==> records[i].name != records[j].name
  }

  lemma {:induction false} JoinedPrefix(records: seq<Entry>, i: nat)
    requires i < |records|
    ensures |Joined(records[..i])| + |records[i].text| <= |Joined(records)|
    ensures Joined(records)[|Joined(records[..i])|..|Joined(records[..i])| + |records[i].text|] == records[i].text
    ensures Joined(records[..i + 1]) == Joined(records[..i]) + records[i].text
  {
    var before := records[..|records| - 1];
    assert records[..i + 1][..i] == records[..i];
    if i < |records| - 1 {
      JoinedPrefix(before, i);
      assert before[..i] == records[..i];
    }
  }

  /** Records tile the pack: each byte of it lies in exactly one record's range. */
  lemma {:induction false} Tiles(records: seq<Entry>, k: nat)
    requires k < |Joined(records)|
    ensures exists i :: Within(records, i, k)
    ensures forall i, j :: Within(records, i, k) && Within(records, j, k) ==> i == j
  {
    var n := |records| - 1;
    var before := records[..n];
    forall i | 0 <= i < n
      ensures Within(records, i, k) <==> Within(before, i, k)
      ensures Within(records, i, k) ==> k < |Joined(before)|
    {
      assert before[..i] == records[..i];
      JoinedPrefix(before, i);
    }
    if k < |Joined(before)| {
      Tiles(before, k);
      var i :| Within(before, i, k);
      assert Within(records, i, k);
      forall a, b | Within(records, a, k) && Within(records, b, k)
        ensures a == b
      {
        assert Within(before, a, k) && Within(before, b, k);
      }
    } else {
      assert Within(records, n, k);
    }
  }

  ghost predicate Within(records: seq<Entry>, i: int, k: nat) {
    0 <= i < |records| && |Joined(records[..i])| <= k < |Joined(records[..i])| + |records[i].text|
  }

  /** Every name of the layout stands for a record of that name at that record's own range. */
  lemma {:induction false} LayoutLocates(digest: Digest, records: seq<Entry>, name: string)
    ensures name in Layout(digest, records) <==> exists r :: r in records && r.name == name
    ensures name in Layout(digest, records) ==> exists i :: 0 <= i < |records| && Located(digest, records, i, name)
  {
    if records != [] {
      var n := |records| - 1;
      var before := records[..n];
      LayoutLocates(digest, before, name);
      assert records == before + [records[n]];
      if name == records[n].name {
        assert Located(digest, records, n, name);
      } else if name in Layout(digest, records) {
        var i :| 0 <= i < n && Located(digest, before, i, name);
        assert before[..i] == records[..i];
        assert Located(digest, records, i, name);
      }
    }
  }

  ghost predicate Located(digest: Digest, records: seq<Entry>, i: int, name: string)
    requires 0 <= i < |records|
  {
    && name in Layout(digest, records) && records[i].name == name
    && Layout(digest, records)[name] == File(NO_BLOB, |Joined(records[..i])|, |records[i].text|,
                                             digest(records[i].text))
  }

  /** Distinct names keep every record's own place. */
  lemma LayoutKeepsAll(digest: Digest, records: seq<Entry>, i: nat)
    requires i < |records| && DistinctNames(records)
    ensures Located(digest, records, i, records[i].name)
  {
    LayoutLocates(digest, records, records[i].name);
    assert records[i] in records;
    var j :| 0 <= j < |records| && Located(digest, records, j, records[i].name);
    assert i == j;
  }

  /** Once the pack is stored, each of its files names exactly its record. */
  lemma PlacedLocates(digest: Digest, records: seq<Entry>, name: string) returns (i: nat)
    requires name in Layout(digest, records)
    ensures i < |records| && records[i].name == name
    ensures RangeOf(digest, Joined(records), Placed(Layout(digest, records), Stored(digest, Joined(records)))[name],
                    records[i].text)
  {
    LayoutLocates(digest, records, name);
    i :| 0 <= i < |records| && Located(digest, records, i, name);
    JoinedPrefix(records, i);
  }

  // ---- advertising

  /** `name` is advertised with the text of some accepted record of that name, in a stored blob. */
  ghost predicate Shown(digest: Digest, blobs: set<Bytes>, files: map<string, File>, accepted: set<Entry>,
                        name: string) {
    name in files
    && exists r, data :: r in accepted && r.name == name && data in blobs && RangeOf(digest, data, files[name], r.text)
  }

  lemma ShownStays(digest: Digest, blobs: set<Bytes>, more: set<Bytes>, files: map<string, File>, accepted: set<Entry>,
                   all: set<Entry>, name: string)
    requires Shown(digest, blobs, files, accepted, name) && blobs <= more && accepted <= all
    ensures Shown(digest, more, files, all, name)
  {
    var r, data :| r in accepted && r.name == name && data in blobs && RangeOf(digest, data, files[name], r.text);
    assert r in all && data in more;
  }

  ghost predicate OneTextEach(accepted: set<Entry>) {
    forall a, b :: a in accepted && b in accepted && a.name == b.name ==> a == b
  }

  /** The record is advertised at its own bytes in a stored blob. */
  ghost predicate ShownAs(digest: Digest, blobs: set<Bytes>, files: map<string, File>, r: Entry) {
    r.name in files && exists data :: data in blobs && RangeOf(digest, data, files[r.name], r.text)
  }

  lemma ShownOwn(digest: Digest, blobs: set<Bytes>, files: map<string, File>, accepted: set<Entry>)
    requires OneTextEach(accepted) && forall r :: r in accepted ==> Shown(digest, blobs, files, accepted, r.name)
    ensures forall r :: r in accepted ==> ShownAs(digest, blobs, files, r)
  {
    hide RangeOf;
  }

  datatype Flight = Flight(data: Bytes, files: map<string, File>, done: Option<Outcome>)

  // ---- the invariant; `loads[i]` are the records of upload `i`, `accepted` the records whose `add` succeeded

  ghost predicate Filling(digest: Digest, limit: nat, buffer: Bytes, files: map<string, File>, packed: seq<Entry>) {
    buffer == Joined(packed) && files == Layout(digest, packed) && |buffer| <= limit && (buffer == [] ==> packed == [])
  }

  ghost predicate FlightOk(digest: Digest, limit: nat, f: Flight, load: seq<Entry>) {
    f.data == Joined(load) && f.files == Layout(digest, load) && 0 < |f.data| <= limit
  }

  ghost predicate FlightsOk(digest: Digest, limit: nat, flights: seq<Flight>, loads: seq<seq<Entry>>) {
    |flights| == |loads| && forall i :: 0 <= i < |flights| ==> FlightOk(digest, limit, flights[i], loads[i])
  }

  /** Uploads other than the awaited one have ended, and what was received is a failure exactly if one
      of them failed. */
  ghost predicate OneUpload(flights: seq<Flight>, upload: Option<nat>, err: Outcome) {
    && (upload.Some? ==> upload.value < |flights| && err.Fine?)
    && (forall i ::
          0 <= i < |flights| && upload != Some(i) ==>
            flights[i].done.Some? && (flights[i].done.value.Failed? ==> err.Failed?))
    && (err.Failed? ==> exists i :: 0 <= i < |flights| && flights[i].done == Some(err))
  }

  ghost predicate Known(accepted: set<Entry>, packed: seq<Entry>, loads: seq<seq<Entry>>) {
    Elements(packed) <= accepted && forall i :: 0 <= i < |loads| ==> Elements(loads[i]) <= accepted
  }

  ghost predicate AllShown(digest: Digest, blobs: set<Bytes>, base: map<string, File>, files: map<string, File>,
                           accepted: set<Entry>) {
    forall n :: n in files ==> (n in base && files[n] == base[n]) || Shown(digest, blobs, files, accepted, n)
  }

  ghost predicate Pending(flights: seq<Flight>, loads: seq<seq<Entry>>, r: Entry, i: int) {
    0 <= i < |flights| && i < |loads| && r in loads[i] && flights[i].done != Some(Fine)
  }

  /** An accepted record is in the buffer, advertised, or in an upload that has not succeeded. */
  ghost predicate Accounted(packed: seq<Entry>, flights: seq<Flight>, loads: seq<seq<Entry>>, r: Entry, shown: bool) {
    r in packed || shown || exists i :: Pending(flights, loads, r, i)
  }

  ghost predicate AllAccounted(digest: Digest, blobs: set<Bytes>, files: map<string, File>, accepted: set<Entry>,
                               packed: seq<Entry>, flights: seq<Flight>, loads: seq<seq<Entry>>) {
    forall r :: r in accepted ==> Accounted(packed, flights, loads, r, Shown(digest, blobs, files, accepted, r.name))
  }

  // ---- what the steps keep

  /** A finished upload advertises its whole load. */
  lemma LandShows(digest: Digest, limit: nat, blobs: set<Bytes>, files: map<string, File>, accepted: set<Entry>,
                  f: Flight, load: seq<Entry>, n: string)
    requires FlightOk(digest, limit, f, load) && Elements(load) <= accepted
    requires n in f.files || Shown(digest, blobs, files, accepted, n)
    ensures Shown(digest, blobs + {f.data}, files + Placed(f.files, Stored(digest, f.data)), accepted, n)
  {
    var files' := files + Placed(f.files, Stored(digest, f.data));
    if n in f.files {
      var i := PlacedLocates(digest, load, n);
      assert load[i] in Elements(load);
      assert f.data in blobs + {f.data} && RangeOf(digest, f.data, files'[n], load[i].text);
    } else {
      var r, data :| r in accepted && r.name == n && data in blobs && RangeOf(digest, data, files[n], r.text);
      assert data in blobs + {f.data} && RangeOf(digest, data, files'[n], r.text);
    }
  }

  lemma LandAllShown(digest: Digest, limit: nat, blobs: set<Bytes>, base: map<string, File>, files: map<string, File>,
                     accepted: set<Entry>, f: Flight, load: seq<Entry>)
    requires AllShown(digest, blobs, base, files, accepted) && FlightOk(digest, limit, f, load)
             && Elements(load) <= accepted
    ensures AllShown(digest, blobs + {f.data}, base, files + Placed(f.files, Stored(digest, f.data)), accepted)
  {
    hide Shown, FlightOk, Placed;
    forall n | n in files + Placed(f.files, Stored(digest, f.data))
      ensures (n in base && (files + Placed(f.files, Stored(digest, f.data)))[n] == base[n])
              || Shown(digest, blobs + {f.data}, files + Placed(f.files, Stored(digest, f.data)), accepted, n)
    {
      PlacedKeys(f.files, Stored(digest, f.data));
      if n in f.files || Shown(digest, blobs, files, accepted, n) {
        LandShows(digest, limit, blobs, files, accepted, f, load, n);
      }
    }
  }

  lemma PlacedKeys(files: map<string, File>, blob: Descriptor)
    ensures Placed(files, blob).Keys == files.Keys
  {
  }

  lemma LandAccounts(digest: Digest, limit: nat, blobs: set<Bytes>, files: map<string, File>, accepted: set<Entry>,
                     packed: seq<Entry>, flights: seq<Flight>, loads: seq<seq<Entry>>, i: nat, outcome: Outcome)
    requires AllAccounted(digest, blobs, files, accepted, packed, flights, loads)
             && FlightsOk(digest, limit, flights, loads)
    requires i < |flights| && flights[i].done.None? && Elements(loads[i]) <= accepted
    ensures outcome.Failed? ==> AllAccounted(digest, blobs, files, accepted, packed,
                flights[i := flights[i].(done := Some(outcome))], loads)
    ensures outcome.Fine? ==>
              AllAccounted(digest, blobs + {flights[i].data},
                files + Placed(flights[i].files, Stored(digest, flights[i].data)), accepted, packed,
                flights[i := flights[i].(done := Some(outcome))], loads)
  {
    var f := flights[i];
    var flights' := flights[i := f.(done := Some(outcome))];
    assert FlightOk(digest, limit, f, loads[i]);
    hide Shown, FlightOk, FlightsOk, Placed;
    forall r | r in accepted
      ensures outcome.Failed? ==> Accounted(packed, flights', loads, r, Shown(digest, blobs, files, accepted, r.name))
      ensures outcome.Fine? ==>
                Accounted(packed, flights', loads, r,
                          Shown(digest, blobs + {f.data}, files + Placed(f.files, Stored(digest, f.data)), accepted,
                                r.name))
    {
      assert Accounted(packed, flights, loads, r, Shown(digest, blobs, files, accepted, r.name));
      if r in packed {
      } else if Shown(digest, blobs, files, accepted, r.name) {
        LandShows(digest, limit, blobs, files, accepted, f, loads[i], r.name);
      } else {
        var k :| Pending(flights, loads, r, k);
        if k == i && outcome.Fine? {
          LoadNamed(digest, limit, f, loads[i], r);
          LandShows(digest, limit, blobs, files, accepted, f, loads[i], r.name);
        } else {
          assert Pending(flights', loads, r, k);
        }
      }
    }
  }

  lemma LoadNamed(digest: Digest, limit: nat, f: Flight, load: seq<Entry>, r: Entry)
    requires FlightOk(digest, limit, f, load) && r in load
    ensures r.name in f.files
  {
    LayoutLocates(digest, load, r.name);
  }

  /** A new upload takes over the buffer's records. */
  lemma DepartAccounts(digest: Digest, blobs: set<Bytes>, files: map<string, File>, accepted: set<Entry>,
                       packed: seq<Entry>, flights: seq<Flight>, loads: seq<seq<Entry>>, f: Flight)
    requires AllAccounted(digest, blobs, files, accepted, packed, flights, loads) && |flights| == |loads|
             && f.done.None?
    ensures AllAccounted(digest, blobs, files, accepted, [], flights + [f], loads + [packed])
  {
    hide Shown;
    forall r | r in accepted
      ensures Accounted([], flights + [f], loads + [packed], r, Shown(digest, blobs, files, accepted, r.name))
    {
      assert Accounted(packed, flights, loads, r, Shown(digest, blobs, files, accepted, r.name));
      if r in packed {
        assert Pending(flights + [f], loads + [packed], r, |flights|);
      } else if !Shown(digest, blobs, files, accepted, r.name) {
        var k :| Pending(flights, loads, r, k);
        assert Pending(flights + [f], loads + [packed], r, k);
      }
    }
  }

  lemma AcceptAccounts(digest: Digest, blobs: set<Bytes>, files: map<string, File>, accepted: set<Entry>,
                       packed: seq<Entry>, flights: seq<Flight>, loads: seq<seq<Entry>>, r: Entry)
    requires AllAccounted(digest, blobs, files, accepted, packed, flights, loads)
    ensures AllAccounted(digest, blobs, files, accepted + {r}, packed + [r], flights, loads)
  {
    hide Accounted, Shown;
    forall q | q in accepted + {r}
      ensures Accounted(packed + [r], flights, loads, q, Shown(digest, blobs, files, accepted + {r}, q.name))
    {
      if q in accepted { assert Accounted(packed, flights, loads, q, Shown(digest, blobs, files, accepted, q.name)); }
      AcceptOne(digest, blobs, files, accepted, packed, flights, loads, r, q);
    }
  }

  lemma AcceptOne(digest: Digest, blobs: set<Bytes>, files: map<string, File>, accepted: set<Entry>, packed: seq<Entry>,
                  flights: seq<Flight>, loads: seq<seq<Entry>>, r: Entry, q: Entry)
    requires q == r || Accounted(packed, flights, loads, q, Shown(digest, blobs, files, accepted, q.name))
    ensures Accounted(packed + [r], flights, loads, q, Shown(digest, blobs, files, accepted + {r}, q.name))
  {
    AppendElement(packed, r);
    assert r in Elements(packed + [r]);
    if q != r {
      if q in packed {
        assert q in Elements(packed + [r]);
      } else if Shown(digest, blobs, files, accepted, q.name) {
        ShownStays(digest, blobs, blobs, files, accepted, accepted + {r}, q.name);
      }
    }
  }

  lemma AcceptShows(digest: Digest, blobs: set<Bytes>, base: map<string, File>, files: map<string, File>,
                    accepted: set<Entry>, r: Entry)
    requires AllShown(digest, blobs, base, files, accepted)
    ensures AllShown(digest, blobs, base, files, accepted + {r})
  {
    forall n | n in files && Shown(digest, blobs, files, accepted, n)
      ensures Shown(digest, blobs, files, accepted + {r}, n)
    {
      ShownStays(digest, blobs, blobs, files, accepted, accepted + {r}, n);
    }
  }

  /** A record uploaded on its own is advertised at once. */
  lemma WholeShows(digest: Digest, blobs: set<Bytes>, files: map<string, File>, accepted: set<Entry>, r: Entry,
                   n: string)
    requires n == r.name || Shown(digest, blobs, files, accepted, n)
    ensures Shown(digest, blobs + {r.text}, files[r.name := WholeFile(Stored(digest, r.text))], accepted + {r}, n)
  {
    var files' := files[r.name := WholeFile(Stored(digest, r.text))];
    if n == r.name {
      assert r.text[0..|r.text|] == r.text;
      assert r in accepted + {r} && r.text in blobs + {r.text} && RangeOf(digest, r.text, files'[n], r.text);
    } else {
      var q, data :| q in accepted && q.name == n && data in blobs && RangeOf(digest, data, files[n], q.text);
      assert q in accepted + {r} && data in blobs + {r.text} && RangeOf(digest, data, files'[n], q.text);
    }
  }

  lemma WholeKeeps(digest: Digest, blobs: set<Bytes>, base: map<string, File>, files: map<string, File>,
                   accepted: set<Entry>, packed: seq<Entry>, flights: seq<Flight>, loads: seq<seq<Entry>>, r: Entry)
    requires AllShown(digest, blobs, base, files, accepted)
             && AllAccounted(digest, blobs, files, accepted, packed, flights, loads)
    ensures AllShown(digest, blobs + {r.text}, base, files[r.name := WholeFile(Stored(digest, r.text))], accepted + {r})
    ensures AllAccounted(digest, blobs + {r.text}, files[r.name := WholeFile(Stored(digest, r.text))], accepted + {r},
                         packed, flights, loads)
  {
    var files' := files[r.name := WholeFile(Stored(digest, r.text))];
    hide Shown, WholeFile, Stored, Accounted;
    forall n | n in files'
      ensures (n in base && files'[n] == base[n]) || Shown(digest, blobs + {r.text}, files', accepted + {r}, n)
    {
      if n == r.name || Shown(digest, blobs, files, accepted, n) { WholeShows(digest, blobs, files, accepted, r, n); }
    }
    forall q | q in accepted + {r}
      ensures Accounted(packed, flights, loads, q, Shown(digest, blobs + {r.text}, files', accepted + {r}, q.name))
    {
      if q.name == r.name || Shown(digest, blobs, files, accepted, q.name) {
        WholeShows(digest, blobs, files, accepted, r, q.name);
        ShownAccounts(packed, flights, loads, q);
      } else {
        assert Accounted(packed, flights, loads, q, Shown(digest, blobs, files, accepted, q.name));
        UnshownAccounts(packed, flights, loads, q, Shown(digest, blobs + {r.text}, files', accepted + {r}, q.name));
      }
    }
  }

  lemma ShownAccounts(packed: seq<Entry>, flights: seq<Flight>, loads: seq<seq<Entry>>, q: Entry)
    ensures Accounted(packed, flights, loads, q, true)
  {
  }

  lemma UnshownAccounts(packed: seq<Entry>, flights: seq<Flight>, loads: seq<seq<Entry>>, q: Entry, shown: bool)
    requires Accounted(packed, flights, loads, q, false)
    ensures Accounted(packed, flights, loads, q, shown)
  {
  }

  /** One landing, one departure and one acceptance keep what is known about accepted records. */
  lemma DepartKeeps(digest: Digest, limit: nat, accepted: set<Entry>, packed: seq<Entry>, flights: seq<Flight>,
                    loads: seq<seq<Entry>>, f: Flight, err: Outcome)
    requires FlightsOk(digest, limit, flights, loads) && OneUpload(flights, None, err) && err.Fine?
             && Known(accepted, packed, loads)
    requires FlightOk(digest, limit, f, packed)
    ensures FlightsOk(digest, limit, flights + [f], loads + [packed]) && OneUpload(flights + [f], Some(|flights|), err)
    ensures Known(accepted, [], loads + [packed]) && |flights| == |loads|
  {
    hide FlightOk;
  }

  lemma LandFlights(digest: Digest, limit: nat, flights: seq<Flight>, loads: seq<seq<Entry>>, upload: Option<nat>,
                    err: Outcome, accepted: set<Entry>, packed: seq<Entry>, i: nat, outcome: Outcome)
    requires FlightsOk(digest, limit, flights, loads) && OneUpload(flights, upload, err)
             && Known(accepted, packed, loads)
    requires i < |flights| && flights[i].done.None?
    ensures FlightsOk(digest, limit, flights[i := flights[i].(done := Some(outcome))], loads)
            && FlightOk(digest, limit, flights[i], loads[i])
    ensures OneUpload(flights[i := flights[i].(done := Some(outcome))], upload, err) && upload == Some(i)
    ensures |flights| == |loads| && Elements(loads[i]) <= accepted
  {
    hide Joined, Layout;
  }

  lemma UploadKnown(flights: seq<Flight>, upload: Option<nat>, err: Outcome)
    requires OneUpload(flights, upload, err)
    ensures upload.Some? ==> upload.value < |flights| && err.Fine?
  {
  }

  lemma Received(flights: seq<Flight>, upload: Option<nat>, err: Outcome)
    requires OneUpload(flights, upload, err) && upload.Some? && upload.value < |flights|
             && flights[upload.value].done.Some?
    ensures OneUpload(flights, None, flights[upload.value].done.value)
  {
  }

  lemma FillingKnown(digest: Digest, limit: nat, buffer: Bytes, files: map<string, File>, packed: seq<Entry>)
    requires Filling(digest, limit, buffer, files, packed)
    ensures buffer == Joined(packed) && files == Layout(digest, packed) && (buffer == [] <==> packed == [])
    ensures buffer != [] ==> FlightOk(digest, limit, Flight(buffer, files, None), packed)
  {
  }

  lemma FillingStart(digest: Digest, limit: nat)
    ensures Filling(digest, limit, [], map[], [])
  {
  }

  lemma FillingMore(digest: Digest, limit: nat, buffer: Bytes, files: map<string, File>, packed: seq<Entry>, r: Entry)
    requires Filling(digest, limit, buffer, files, packed) && |buffer| + |r.text| <= limit && r.text != []
    ensures Filling(digest, limit, buffer + r.text, files[r.name := File(NO_BLOB, |buffer|, |r.text|, digest(r.text))],
                    packed + [r])
  {
    assert (packed + [r])[..|packed|] == packed;
  }

  lemma KnownMore(accepted: set<Entry>, packed: seq<Entry>, loads: seq<seq<Entry>>, r: Entry)
    requires Known(accepted, packed, loads)
    ensures Known(accepted + {r}, packed, loads) && Known(accepted + {r}, packed + [r], loads)
  {
    AppendElement(packed, r);
  }

  /** With no upload left and no failure received, nothing accepted is still pending. */
  lemma Settled(digest: Digest, blobs: set<Bytes>, files: map<string, File>, accepted: set<Entry>, flights: seq<Flight>,
                loads: seq<seq<Entry>>, err: Outcome)
    requires AllAccounted(digest, blobs, files, accepted, [], flights, loads) && OneUpload(flights, None, err)
             && err.Fine?
    ensures forall r :: r in accepted ==> Shown(digest, blobs, files, accepted, r.name)
  {
    hide Shown;
    forall r | r in accepted
      ensures Shown(digest, blobs, files, accepted, r.name)
    {
      assert Accounted([], flights, loads, r, Shown(digest, blobs, files, accepted, r.name));
    }
  }

  /** The result of the awaited upload, or what was known when none is awaited. */
  function Result(flights: seq<Flight>, upload: Option<nat>, err: Outcome): Outcome {
    if upload.Some? && upload.value < |flights|
       && flights[upload.value].done.Some? then flights[upload.value].done.value else err
  }

  /** When no upload is awaited, the result is a failure exactly if some upload failed. */
  lemma AllLanded(flights: seq<Flight>, err: Outcome)
    requires OneUpload(flights, None, err)
    ensures err.Fine? <==> forall i :: 0 <= i < |flights| ==> flights[i].done == Some(Fine)
    ensures err.Failed? ==> exists i :: 0 <= i < |flights| && flights[i].done == Some(err)
  {
  }

  datatype Stream = Cipher(text: Bytes) | Broken(reason: string)

  function Min(a: nat, b: nat): nat { if a < b then a else b }

  /** The packer's fields, the snapshot's files and the storage's blobs. Uploads are numbered; `upload` is the channel
      that is awaited. `finishing` is whether `finish` holds the lock, having flushed. Each method is one step under the
      lock, or one that needs no lock; between any two of them large records may be uploaded and uploads may end. */
  class NarPacker {
    const digest: Digest
    const limit: nat
    const base: map<string, File>
    var buffer: Bytes
    var files: map<string, File>
    var err: Outcome
    var upload: Option<nat>
    var finishing: bool
    var flights: seq<Flight>
    var snapshot: map<string, File>
    var blobs: set<Bytes>
    ghost var packed: seq<Entry>
    ghost var loads: seq<seq<Entry>>
    ghost var accepted: set<Entry>

    ghost predicate Valid()
      reads this
    {
      && Filling(digest, limit, buffer, files, packed)
      && FlightsOk(digest, limit, flights, loads)
      && OneUpload(flights, upload, err)
      && Known(accepted, packed, loads) && (finishing ==> packed == [])
      && AllShown(digest, blobs, base, snapshot, accepted)
      && AllAccounted(digest, blobs, snapshot, accepted, packed, flights, loads)
    }

    /** The awaited upload, if any, has ended, so that its result can be received. */
    predicate Landed()
      reads this
    {
      upload.Some? ==> upload.value < |flights| && flights[upload.value].done.Some?
    }

    /** At most 1 MiB, and no more than a pack. */
    predicate Small(text: Bytes): (r: bool)
      ensures r <==> |text| <= limit && |text| <= 1_048_576
    {
      |text| <= Min(limit, PACKED_ARCHIVE_LIMIT)
    }

    constructor (digest: Digest, limit: nat, snapshot: map<string, File>, blobs: set<Bytes>)
      ensures Valid() && this.digest == digest && this.limit == limit && this.base == snapshot == this.snapshot
              && this.blobs == blobs
      ensures packed == [] && flights == [] && upload.None? && err.Fine? && accepted == {} && !finishing
    {
      this.digest, this.limit, this.base, this.snapshot, this.blobs := digest, limit, snapshot, snapshot, blobs;
      buffer, files, err, upload, flights := [], map[], Fine, None, [];
      packed, loads, accepted, finishing := [], [], {}, false;
    }

    /** Lines 200-203. */
    method Advertise(files: map<string, File>, blob: Descriptor)
      modifies this`snapshot
      ensures snapshot == old(snapshot) + Placed(files, blob)
    {
      var names := files.Keys;
      while names != {}
        invariant names <= files.Keys
        invariant snapshot == old(snapshot) + (map n | n in files && n !in names :: files[n].(blob := blob))
        decreases names
      {
        var name :| name in names;
        snapshot := snapshot[name := files[name].(blob := blob)];
        names := names - {name};
      }
    }

    /** The uploading goroutine ends (lines 196-210): it advertises its files only when the upload succeeded. */
    method Land(i: nat, outcome: Outcome)
      requires Valid() && i < |flights| && flights[i].done.None?
      modifies this`flights, this`snapshot, this`blobs
      ensures Valid() && flights == old(flights)[i := old(flights)[i].(done := Some(outcome))]
      ensures outcome.Failed? ==> snapshot == old(snapshot) && blobs == old(blobs)
      ensures outcome.Fine? ==> blobs == old(blobs) + {flights[i].data}
      ensures outcome.Fine? ==> snapshot == old(snapshot) + Placed(flights[i].files, Stored(digest, flights[i].data))
    {
      hide Filling, FlightsOk, FlightOk, OneUpload, Known, AllShown, AllAccounted, Placed;
      var f := flights[i];
      LandFlights(digest, limit, flights, loads, upload, err, accepted, packed, i, outcome);
      LandAccounts(digest, limit, blobs, snapshot, accepted, packed, flights, loads, i, outcome);
      if outcome.Fine? {
        LandAllShown(digest, limit, blobs, base, snapshot, accepted, f, loads[i]);
        Advertise(f.files, Stored(digest, f.data));
        blobs := blobs + {f.data};
      }
      flights := flights[i := f.(done := Some(outcome))];
    }

    /** Lines 178-184, when the result is there. */
    method WaitUpload() returns (e: Outcome)
      requires Valid() && Landed()
      modifies this`err, this`upload
      ensures Valid() && upload.None? && e == err
      ensures err == Result(flights, old(upload), old(err))
    {
      hide Filling, FlightsOk, FlightOk, OneUpload, Known, AllShown, AllAccounted, Placed;
      if upload.Some? {
        UploadKnown(flights, upload, err);
        Received(flights, upload, err);
        err := flights[upload.value].done.value;
        upload := None;
      }
      e := err;
    }

    /** Lines 186-212. Fails without touching the buffer, or empties it into a new upload. */
    method Flush() returns (e: Outcome)
      requires Valid() && Landed()
      modifies this`flights, this`err, this`upload, this`buffer, this`files, this`packed, this`loads
      ensures Valid() && e == err
      ensures err == Result(old(flights), old(upload), old(err))
      ensures e.Failed? || old(packed) == [] ==>
                upload.None? && buffer == old(buffer) && files == old(files) && packed == old(packed)
                && flights == old(flights) && loads == old(loads)
      ensures e.Fine? ==> buffer == [] && packed == []
      ensures e.Fine? && old(packed) != [] ==>
                upload == Some(|old(flights)|) && loads == old(loads) + [old(packed)]
                && flights == old(flights) + [Flight(Joined(old(packed)), Layout(digest, old(packed)), None)]
    {
      hide Filling, FlightsOk, FlightOk, OneUpload, Known, AllShown, AllAccounted, Placed, Joined, Layout;
      UploadKnown(flights, upload, err);
      e := WaitUpload();
      FillingKnown(digest, limit, buffer, files, packed);
      if e.Failed? || buffer == [] { return; }
      var f := Flight(buffer, files, None);
      DepartKeeps(digest, limit, accepted, packed, flights, loads, f, err);
      DepartAccounts(digest, blobs, snapshot, accepted, packed, flights, loads, f);
      buffer, files := [], map[];
      upload := Some(|flights|);
      flights := flights + [f];
      loads, packed := loads + [packed], [];
      FillingStart(digest, limit);
    }

    /** Lines 127-167. `direct` is the outcome of a large record's own upload. A small record takes the lock, and waits
        with it for the awaited upload when the buffer is full. */
    method Add(name: string, source: Stream, direct: Outcome) returns (e: Outcome)
      requires Valid() && (source.Cipher? ==> source.text != [])
      requires source.Cipher? && Small(source.text) ==> !finishing && (|buffer| + |source.text| > limit ==> Landed())
      modifies this
      ensures Valid() && finishing == old(finishing)
      ensures e.Fine? ==> source.Cipher?
      ensures accepted == if e.Fine? then old(accepted) + {Entry(name, source.text)} else old(accepted)
      ensures source.Broken? ==> e == Failed(source.reason) && snapshot == old(snapshot) && packed == old(packed)
      ensures source.Cipher? && !Small(source.text) ==>
                e == direct && packed == old(packed) && flights == old(flights) && upload == old(upload)
                && err == old(err)
                && snapshot
                     == if e.Fine? then old(snapshot)[name := WholeFile(Stored(digest, source.text))] else old(snapshot)
      ensures source.Cipher? && Small(source.text) ==> snapshot == old(snapshot) && blobs == old(blobs) && e == err
      ensures source.Cipher? && Small(source.text) ==>
                err == if |old(buffer)| + |source.text| > limit then Result(old(flights), old(upload),
                                                                            old(err)) else old(err)
      ensures source.Cipher? && Small(source.text) && e.Failed? ==>
                packed == old(packed) && buffer == old(buffer) && flights == old(flights) && loads == old(loads)
      ensures source.Cipher? && Small(source.text) && e.Fine? ==>
                packed == (if |old(buffer)| + |source.text| <= limit then old(packed) else [])
                  + [Entry(name, source.text)]
      ensures source.Cipher? && Small(source.text) && e.Fine? && |old(buffer)| + |source.text| <= limit ==>
                flights == old(flights) && upload == old(upload) && loads == old(loads)
      ensures source.Cipher? && Small(source.text) && e.Fine? && |old(buffer)| + |source.text| > limit ==>
                upload == Some(|old(flights)|) && loads == old(loads) + [old(packed)]
                && flights == old(flights) + [Flight(old(buffer), old(files), None)]
    {
      hide Filling, FlightsOk, FlightOk, OneUpload, Known, AllShown, AllAccounted, Placed, Joined, Layout, WholeFile,
        Stored;
      if source.Broken? { return Failed(source.reason); }
      var r := Entry(name, source.text);
      KnownMore(accepted, packed, loads, r);
      if !Small(source.text) {
        if direct.Failed? { return direct; }
        WholeKeeps(digest, blobs, base, snapshot, accepted, packed, flights, loads, r);
        snapshot := snapshot[name := WholeFile(Stored(digest, source.text))];
        blobs := blobs + {source.text};
        accepted := accepted + {r};
        return Fine;
      }
      UploadKnown(flights, upload, err);
      if err.Failed? { return err; }
      if |buffer| + |source.text| > limit {
        FillingKnown(digest, limit, buffer, files, packed);
        e := Flush();
        if e.Failed? { return; }
      }
      e := Fine;
      KnownMore(accepted, packed, loads, r);
      AcceptShows(digest, blobs, base, snapshot, accepted, r);
      AcceptAccounts(digest, blobs, snapshot, accepted, packed, flights, loads, r);
      FillingMore(digest, limit, buffer, files, packed, r);
      files := files[name := File(NO_BLOB, |buffer|, |source.text|, digest(source.text))];
      buffer := buffer + source.text;
      packed := packed + [r];
      accepted := accepted + {r};
    }

    /** Lines 169-174: `finish` takes the lock and flushes, and keeps the lock when that succeeded. */
    method BeginFinish() returns (e: Outcome)
      requires Valid() && Landed() && !finishing
      modifies this`flights, this`err, this`upload, this`buffer, this`files, this`packed, this`loads, this`finishing
      ensures Valid() && e == err && (finishing <==> e.Fine?)
      ensures err == Result(old(flights), old(upload), old(err))
      ensures e.Fine? ==> packed == [] && loads == if old(packed) == [] then old(loads) else old(loads) + [old(packed)]
      ensures e.Failed? ==> packed == old(packed) && loads == old(loads) && flights == old(flights)
    {
      hide Filling, FlightsOk, FlightOk, OneUpload, Known, AllShown, AllAccounted, Placed, Joined, Layout;
      e := Flush();
      finishing := e.Fine?;
    }

    /** Line 175: after a successful `finish` every accepted record's name is advertised with an accepted text, at
        exactly its own record when names are distinct. */
    method EndFinish() returns (e: Outcome)
      requires Valid() && Landed() && finishing
      modifies this`err, this`upload, this`finishing
      ensures Valid() && e == err && !finishing && upload.None?
      ensures err == Result(flights, old(upload), old(err))
      ensures e.Fine? <==> forall i :: 0 <= i < |flights| ==> flights[i].done == Some(Fine)
      ensures e.Failed? ==> exists i :: 0 <= i < |flights| && flights[i].done == Some(e)
      ensures e.Fine? ==> forall r :: r in accepted ==> Shown(digest, blobs, snapshot, accepted, r.name)
      ensures e.Fine? && OneTextEach(accepted) ==> forall r :: r in accepted ==> ShownAs(digest, blobs, snapshot, r)
    {
      hide Filling, FlightsOk, FlightOk, OneUpload, Known, AllShown, AllAccounted, Placed, Joined, Layout, Shown;
      e := WaitUpload();
      AllLanded(flights, err);
      if e.Fine? {
        Settled(digest, blobs, snapshot, accepted, flights, loads, err);
        if OneTextEach(accepted) { ShownOwn(digest, blobs, snapshot, accepted); }
      }
      finishing := false;
    }
  }
}

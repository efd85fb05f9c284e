/** Content-addressed blobs and the byte ranges that snapshot files name in them. */
module Blobs {
  import opened Snapshots

  type Byte = b: int | 0 <= b < 256

  type Bytes = seq<Byte>

  /** Stands for `contentDigest`: SHA-256 as text. */
  type Digest = Bytes -> string

  ghost predicate DigestText(digest: Digest) { forall b :: IsDigest(digest(b)) }

  /** No two of the texts collide. */
  ghost predicate Apart(digest: Digest, texts: set<Bytes>) {
    forall a, b :: a in texts && b in texts && digest(a) == digest(b) ==> a == b
  }

  /** What `UploadBlob` answers for the bytes it stored. */
  function Stored(digest: Digest, data: Bytes): Descriptor { Descriptor(digest(data), MEDIA, |data|) }

  /** `cachePackSize`: the limit of a pack and the largest pack that is kept for reading. */
  const PACK_SIZE := 16 * 1024 * 1024

  const MEDIA := "application/octet-stream"

  /** `f` names a range of the blob `data` that holds exactly `record`. */
  ghost predicate RangeOf(digest: Digest, data: Bytes, f: File, record: Bytes) {
    && f.blob == Stored(digest, data)
    && 0 <= f.offset && f.size == |record| && f.offset + f.size <= |data| && data[f.offset..f.offset + f.size] == record
    && f.digest == digest(record)
  }

  /** A reader of the blob with the named digest gets the record, unless what it finds is another text with that
      digest. */
  lemma ReadsBack(digest: Digest, data: Bytes, found: Bytes, f: File, record: Bytes)
    requires Apart(digest, {data, found}) && RangeOf(digest, data, f, record) && digest(found) == f.blob.digest
    ensures 0 <= f.offset && f.offset + f.size <= |found| && found[f.offset..f.offset + f.size] == record
  {
    assert found == data;
  }

  /** Such a file passes `SnapshotFile.validate`. */
  lemma RangeValid(digest: Digest, data: Bytes, f: File, record: Bytes)
    requires DigestText(digest) && RangeOf(digest, data, f, record) && record != [] && |data| < BLOB_LIMIT
    ensures ValidFile(f)
  {
    assert IsDigest(digest(data)) && IsDigest(digest(record));
    if f.size == f.blob.size { assert data == record; }
  }
}

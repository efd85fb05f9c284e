/** Snapshots and the simple checks that the fast forms must agree with (worker/snapshot.go,
    worker/runner.go:112-127). */
module Snapshots {
  import opened Names

  // ---- store paths and keys (worker/snapshot.go:34-43)

  const STORE := "/nix/store/"

  predicate HashChar(c: char) { '0' <= c <= '9' || ('a' <= c <= 'z' && c != 'e' && c != 'o' && c != 't' && c != 'u') }

  predicate PathChar(c: char) {
    'a' <= c <= 'z' || 'A' <= c <= 'Z' || '0' <= c <= '9' || c in "+._?=-"
  }

  predicate ValidStorePath(path: string) {
    && |path| > |STORE| + 33 && path[..|STORE|] == STORE
    && (forall i :: |STORE| <= i < |STORE| + 32 ==> HashChar(path[i]))
    && path[|STORE| + 32] == '-'
    && forall i :: |STORE| + 33 <= i < |path| ==> PathChar(path[i])
  }

  /** The part after the last slash. */
  function Base(path: string): string {
    if path == "" then "" else if '/' in path[1..] then Base(path[1..]) else if path[0] == '/' then path[1..] else path
  }

  function BeforeDash(s: string): string {
    if s == "" || s[0] == '-' then "" else [s[0]] + BeforeDash(s[1..])
  }

  function NarinfoKey(path: string): string { "cache/" + BeforeDash(Base(path)) + ".narinfo" }

  // ---- records

  datatype Descriptor = Descriptor(digest: string, mediaType: string, size: int)

  const NO_BLOB := Descriptor("", "", 0)

  datatype File = File(blob: Descriptor, offset: int, size: int, digest: string)

  const BLOB_LIMIT: int := 10 * 1024 * 1024 * 1024

  predicate IsDigest(s: string) {
    && |s| == 71 && s[..7] == "sha256:"
    && forall i :: 7 <= i < 71 ==> '0' <= s[i] <= '9' || 'a' <= s[i] <= 'f'
  }

  function WholeFile(blob: Descriptor): File { File(blob, 0, blob.size, blob.digest) }

  /** `SnapshotFile.validate` (worker/snapshot.go:148-159). */
  predicate ValidFile(f: File) {
    && IsDigest(f.blob.digest) && IsDigest(f.digest)
    && 0 < f.blob.size < BLOB_LIMIT && 0 < f.size <= f.blob.size && 0 <= f.offset <= f.blob.size - f.size
    && (f.size == f.blob.size ==> f.digest == f.blob.digest)
  }

  /** A valid file that covers its blob is the blob itself. */
  lemma WholeExactly(f: File)
    requires ValidFile(f)
    ensures f.size == f.blob.size <==> f == WholeFile(f.blob)
    ensures 0 <= f.offset < f.offset + f.size <= f.blob.size
  {
  }

  /** `unicode.IsSpace`. */
  predicate Blank(c: char) {
    || '\t' <= c <= '\r' || c == ' ' || c == '\U{85}' || c == '\U{A0}' || c == '\U{1680}'
    || '\U{2000}' <= c <= '\U{200A}'
    || c == '\U{2028}' || c == '\U{2029}' || c == '\U{202F}' || c == '\U{205F}' || c == '\U{3000}'
  }

  /** `strings.Fields` on a field of a narinfo, with the store directory put before each name. */
  function Paths(text: string, word: string): seq<string> {
    if text == "" then (if word == "" then [] else [STORE + word])
    else if Blank(text[0]) then (if word == "" then [] else [STORE + word]) + Paths(text[1..], "")
    else Paths(text[1..], word + [text[0]])
  }

  /** Blanks separate fields. */
  lemma {:induction false} FieldsSplit(a: string, blank: char, b: string, word: string)
    requires Blank(blank)
    ensures Paths(a + [blank] + b, word) == Paths(a, word) + Paths(b, "")
  {
    var text := a + [blank] + b;
    if a == "" {
      assert text[1..] == b;
    } else {
      assert text[1..] == a[1..] + [blank] + b && text[0] == a[0];
      if Blank(a[0]) { FieldsSplit(a[1..], blank, b, ""); } else { FieldsSplit(a[1..], blank, b, word + [a[0]]); }
    }
  }

  /** A text without blanks is one field, unless it is empty. */
  lemma {:induction false} OneField(name: string, word: string)
    requires forall c :: c in name ==> !Blank(c)
    ensures Paths(name, word) == if word + name == "" then [] else ["/nix/store/" + word + name]
  {
    if name == "" {
      assert word + name == word && "/nix/store/" + word + name == "/nix/store/" + word;
    } else {
      OneField(name[1..], word + [name[0]]);
      assert word + [name[0]] + name[1..] == word + name;
      assert "/nix/store/" + (word + [name[0]]) + name[1..] == "/nix/store/" + word + name;
    }
  }

  /** A store path is the store directory, a hash of 32 base-32 digits and a name; the hash is what its narinfo is
      stored under. */
  lemma StorePathParts(h: string, name: string)
    requires |h| == 32
    ensures ValidStorePath("/nix/store/" + h + "-" + name)
            <==> name != "" && (forall c :: c in h ==> c in "0123456789abcdfghijklmnpqrsvwxyz")
                 && forall c :: c in name ==> PathChar(c)
  {
    var path := "/nix/store/" + h + "-" + name;
    assert path[..11] == "/nix/store/" && path[11 + 32] == '-';
    assert forall i :: 0 <= i < 32 ==> path[11 + i] == h[i];
    assert forall i :: 0 <= i < |name| ==> path[11 + 33 + i] == name[i];
    forall c
      ensures HashChar(c) <==> c in "0123456789abcdfghijklmnpqrsvwxyz"
    {
      HashDigits(c);
    }
    hide HashChar, PathChar;
    if ValidStorePath(path) {
      forall i | 0 <= i < 32
        ensures HashChar(h[i])
      {
        assert path[11 + i] == h[i];
      }
      forall i | 0 <= i < |name|
        ensures PathChar(name[i])
      {
        assert path[11 + 33 + i] == name[i];
      }
    }
  }

  /** Every valid store path is of that form. */
  lemma StorePathExactly(path: string)
    ensures ValidStorePath(path)
            <==> exists h, name :: |h| == 32 && name != "" && path == "/nix/store/" + h + "-" + name
                                   && (forall c :: c in h ==> c in "0123456789abcdfghijklmnpqrsvwxyz")
                                   && forall c :: c in name ==> PathChar(c)
  {
    if ValidStorePath(path) {
      var (h, name) := (path[11..43], path[44..]);
      assert path == path[..11] + h + [path[43]] + name;
      StorePathParts(h, name);
    }
    if h, name :| |h| == 32 && name != "" && path == "/nix/store/" + h + "-" + name
                  && (forall c :: c in h ==> c in "0123456789abcdfghijklmnpqrsvwxyz")
                  && forall c :: c in name ==> PathChar(c)
    {
      StorePathParts(h, name);
    }
  }

  lemma HashDigits(c: char)
    ensures HashChar(c) <==> c in "0123456789abcdfghijklmnpqrsvwxyz"
  {
  }

  /** A narinfo by what `NarinfoFields` reads from it; `valid` is whether it accepts the text, `references` is the text
      of that field, and `other` stands for everything else in the text. */
  datatype Narinfo = Narinfo(
    valid: bool, storePath: string, url: string, narHash: string, narSize: string, references: string, other: string)
  {
    const refs: seq<string> := Paths(references, "")
  }

  function Archive(n: Narinfo): string { "cache/" + n.url }

  /** A reference list may be absent (Go's nil), which `slices.Equal` does not tell from an empty one. */
  type References = Option<seq<string>>

  function Listed(r: References): seq<string> { if r.Some? then r.value else [] }

  datatype Snapshot = Snapshot(
    files: map<string, File>, narinfos: map<string, Narinfo>, upstream: map<string, References>)

  const EMPTY := Snapshot(map[], map[], map[])

  // ---- ValidateRecords, RequireClosed, Contains (worker/snapshot.go:177-246)

  ghost predicate UpstreamOk(path: string, refs: References) {
    ValidStorePath(path) && refs.Some? && forall r :: r in refs.value ==> ValidStorePath(r)
  }

  ghost predicate NarinfoOk(files: map<string, File>, name: string, n: Narinfo) {
    n.valid && name == NarinfoKey(n.storePath) && Archive(n) in files
  }

  ghost predicate RecordsOk(s: Snapshot) {
    && (forall p :: p in s.upstream ==> UpstreamOk(p, s.upstream[p]))
    && (forall name :: name in s.narinfos ==> NarinfoOk(s.files, name, s.narinfos[name]))
  }

  ghost predicate Covers(s: Snapshot, p: string) {
    p in s.upstream || exists name :: name in s.narinfos && s.narinfos[name].storePath == p
  }

  ghost predicate RefsCovered(s: Snapshot, refs: seq<string>) { forall r :: r in refs ==> Covers(s, r) }

  /** Every reference of every record is itself covered. */
  ghost predicate Closed(s: Snapshot) {
    && RecordsOk(s)
    && (forall p :: p in s.upstream ==> RefsCovered(s, Listed(s.upstream[p])))
    && (forall name :: name in s.narinfos ==> RefsCovered(s, s.narinfos[name].refs))
  }

  predicate Contains(s: Snapshot, path: string) {
    path in s.upstream || (NarinfoKey(path) in s.narinfos && s.narinfos[NarinfoKey(path)].storePath == path)
  }

  /** On valid records the key lookup of `Contains` is the same as searching every narinfo. */
  lemma ContainsIsCovers(s: Snapshot, p: string)
    requires RecordsOk(s)
    ensures Contains(s, p) <==> Covers(s, p)
  {
    if Covers(s, p) && p !in s.upstream {
      var name :| name in s.narinfos && s.narinfos[name].storePath == p;
      assert NarinfoOk(s.files, name, s.narinfos[name]);
    }
  }

  predicate AllStorePaths(refs: seq<string>) { forall r :: r in refs ==> ValidStorePath(r) }

  method ValidateRecords(s: Snapshot) returns (ok: bool)
    ensures ok <==> RecordsOk(s)
  {
    var paths := s.upstream.Keys;
    while paths != {}
      invariant paths <= s.upstream.Keys && forall p :: p in s.upstream && p !in paths ==> UpstreamOk(p, s.upstream[p])
    {
      var path :| path in paths;
      if !ValidStorePath(path) || s.upstream[path].None? || !AllStorePaths(s.upstream[path].value) { return false; }
      paths := paths - {path};
    }
    var names := s.narinfos.Keys;
    while names != {}
      invariant names <= s.narinfos.Keys
      invariant forall name :: name in s.narinfos && name !in names ==> NarinfoOk(s.files, name, s.narinfos[name])
    {
      var name :| name in names;
      var n := s.narinfos[name];
      if !n.valid { return false; }
      if name != NarinfoKey(n.storePath) || Archive(n) !in s.files { return false; }
      names := names - {name};
    }
    ok := true;
  }

  method AllIn(refs: seq<string>, paths: set<string>) returns (ok: bool)
    ensures ok <==> forall r :: r in refs ==> r in paths
  {
    for i := 0 to |refs|
      invariant forall k :: 0 <= k < i ==> refs[k] in paths
    {
      if refs[i] !in paths { return false; }
    }
    ok := true;
  }

  method RequireClosed(s: Snapshot) returns (ok: bool)
    ensures ok <==> Closed(s)
  {
    var valid := ValidateRecords(s);
    if !valid { return false; }
    var paths := s.upstream.Keys + set name | name in s.narinfos :: s.narinfos[name].storePath;
    assert forall p :: p in paths <==> Covers(s, p);
    var todo := s.upstream.Keys;
    while todo != {}
      invariant todo <= s.upstream.Keys
                && forall p :: p in s.upstream && p !in todo ==> RefsCovered(s, Listed(s.upstream[p]))
    {
      var path :| path in todo;
      var found := AllIn(Listed(s.upstream[path]), paths);
      if !found {
        assert !RefsCovered(s, Listed(s.upstream[path]));
        return false;
      }
      todo := todo - {path};
    }
    var names := s.narinfos.Keys;
    while names != {}
      invariant names <= s.narinfos.Keys
                && forall n :: n in s.narinfos && n !in names ==> RefsCovered(s, s.narinfos[n].refs)
    {
      var name :| name in names;
      var found := AllIn(s.narinfos[name].refs, paths);
      if !found {
        assert !RefsCovered(s, s.narinfos[name].refs);
        return false;
      }
      names := names - {name};
    }
    ok := true;
  }

  // ---- Merge and CacheUnion

  predicate SameFields(a: Narinfo, b: Narinfo) {
    a.storePath == b.storePath && a.narHash == b.narHash && a.narSize == b.narSize && a.references == b.references
    && a.url == b.url
  }

  /** The compared fields are all that is read from a narinfo. */
  lemma SameFieldsExactly(a: Narinfo, b: Narinfo)
    ensures SameFields(a, b) <==> a == b.(valid := a.valid, other := a.other)
    ensures SameFields(a, b) ==> a.refs == b.refs && Archive(a) == Archive(b) && a.storePath == b.storePath
  {
  }

  predicate Matching(a: Narinfo, b: Narinfo) { a == b || (a.valid && b.valid && SameFields(a, b)) }

  predicate StartsWith(s: string, prefix: string) { |prefix| <= |s| && s[..|prefix|] == prefix }

  ghost predicate Mergeable(s: Snapshot, other: Snapshot) {
    && (forall p :: p in s.upstream && p in other.upstream ==> Listed(s.upstream[p]) == Listed(other.upstream[p]))
    && (forall n :: n in s.narinfos && n in other.narinfos ==> Matching(s.narinfos[n], other.narinfos[n]))
  }

  predicate TakesFile(files: map<string, File>, name: string) {
    StartsWith(name, "cache/") && (name !in files || StartsWith(name, "cache/plan/"))
  }

  ghost function Merged(s: Snapshot, other: Snapshot): Snapshot {
    Snapshot(s.files + (map n | n in other.files && TakesFile(s.files, n) :: other.files[n]),
      other.narinfos + s.narinfos, s.upstream + other.upstream)
  }

  ghost function Restrict<T>(m: map<string, T>, keys: set<string>): map<string, T> {
    map k | k in m && k in keys :: m[k]
  }

  /** What a merge has: plan files are those of the other snapshot and other cache files only new ones; narinfos that
      are there stay, and every path of either side has a reference list. */
  lemma MergedByCase(s: Snapshot, other: Snapshot, n: string)
    ensures n in Merged(s, other).files <==> n in s.files || (n in other.files && |n| >= 6 && n[..6] == "cache/")
    ensures n in Merged(s, other).files ==>
              Merged(s, other).files[n]
              == if n in other.files && |n| >= 11 && n[..11] == "cache/plan/" then other.files[n]
                 else if n in s.files then s.files[n] else other.files[n]
    ensures n in Merged(s, other).narinfos <==> n in s.narinfos || n in other.narinfos
    ensures n in Merged(s, other).narinfos ==>
              Merged(s, other).narinfos[n] == if n in s.narinfos then s.narinfos[n] else other.narinfos[n]
    ensures n in Merged(s, other).upstream <==> n in s.upstream || n in other.upstream
    ensures Mergeable(s, other) && n in Merged(s, other).upstream ==>
              && (n in s.upstream ==> Listed(Merged(s, other).upstream[n]) == Listed(s.upstream[n]))
              && (n in other.upstream ==> Listed(Merged(s, other).upstream[n]) == Listed(other.upstream[n]))
  {
    if |n| >= 11 && n[..11] == "cache/plan/" { assert n[..6] == n[..11][..6]; }
  }

  method MergeUpstream(mine: map<string, References>, theirs: map<string, References>)
    returns (ok: bool, r: map<string, References>)
    ensures ok <==> forall p :: p in mine && p in theirs ==> Listed(mine[p]) == Listed(theirs[p])
    ensures ok ==> r == mine + theirs
  {
    ok, r := true, mine;
    var paths := theirs.Keys;
    while paths != {}
      invariant paths <= theirs.Keys && r == mine + Restrict(theirs, theirs.Keys - paths)
      invariant forall p :: p in mine && p in theirs && p !in paths ==> Listed(mine[p]) == Listed(theirs[p])
      decreases paths
    {
      var path :| path in paths;
      if path in r && Listed(r[path]) != Listed(theirs[path]) { return false, r; }
      r := r[path := theirs[path]];
      paths := paths - {path};
    }
  }

  method MergeNarinfos(mine: map<string, Narinfo>, theirs: map<string, Narinfo>)
    returns (ok: bool, r: map<string, Narinfo>)
    ensures ok <==> forall n :: n in mine && n in theirs ==> Matching(mine[n], theirs[n])
    ensures ok ==> r == theirs + mine
  {
    ok, r := true, mine;
    var names := theirs.Keys;
    while names != {}
      invariant names <= theirs.Keys && r == Restrict(theirs, theirs.Keys - names) + mine
      invariant forall n :: n in mine && n in theirs && n !in names ==> Matching(mine[n], theirs[n])
      decreases names
    {
      var name :| name in names;
      if name in r {
        if !Matching(r[name], theirs[name]) { return false, r; }
      } else {
        r := r[name := theirs[name]];
      }
      names := names - {name};
    }
  }

  method MergeFiles(mine: map<string, File>, theirs: map<string, File>) returns (r: map<string, File>)
    ensures r == mine + (map n | n in theirs && TakesFile(mine, n) :: theirs[n])
  {
    r := mine;
    var keys := theirs.Keys;
    while keys != {}
      invariant keys <= theirs.Keys
      invariant r.Keys == mine.Keys + set n | n in theirs && n !in keys && TakesFile(mine, n)
      invariant forall n ::
                  n in r ==> r[n] == if n in theirs && n !in keys && TakesFile(mine, n) then theirs[n] else mine[n]
      decreases keys
    {
      var name :| name in keys;
      if StartsWith(name, "cache/") {
        if name !in r || StartsWith(name, "cache/plan/") {
          r := r[name := theirs[name]];
        }
      }
      keys := keys - {name};
    }
  }

  /** `Snapshot.Merge`, map by map. */
  method Merge(s: Snapshot, other: Snapshot) returns (r: Option<Snapshot>)
    ensures r.Some? <==> Mergeable(s, other)
    ensures r.Some? ==> r.value == Merged(s, other)
  {
    var paths, upstream := MergeUpstream(s.upstream, other.upstream);
    if !paths { return None; }
    var records, narinfos := MergeNarinfos(s.narinfos, other.narinfos);
    if !records { return None; }
    var files := MergeFiles(s.files, other.files);
    r := Some(Snapshot(files, narinfos, upstream));
  }

  ghost predicate UnionOk(parent: Snapshot, delta: Snapshot) {
    Mergeable(Merged(EMPTY, parent), delta) && Closed(Merged(Merged(EMPTY, parent), delta))
  }

  /** `CacheUnion`: both snapshots merged from scratch and checked as a whole. */
  method CacheUnion(parent: Snapshot, delta: Snapshot) returns (r: Option<Snapshot>)
    ensures r.Some? <==> UnionOk(parent, delta)
    ensures r.Some? ==> r.value == Merged(Merged(EMPTY, parent), delta)
  {
    var first := Merge(EMPTY, parent);
    r := Merge(first.value, delta);
    if r.Some? {
      var closed := RequireClosed(r.value);
      if !closed { r := None; }
    }
  }
}

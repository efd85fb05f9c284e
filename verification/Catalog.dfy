/** The catalog tree: nodes, the checks a node must pass, and what following a path through it means
    (worker/catalog.go). */
module Catalog {
  import opened Names
  import opened Snapshots

  const NODE_LIMIT := 128 * 1024
  const WRITER_LIMIT := 1024 * 1024
  const ROOT_LIMIT := 16 * 1024
  const CATALOG_LIMIT := 256 * 1024 * 1024
  const CIPHER_SLACK := 1024 * 1024
  const DEPTH := 64

  function Limit(consumer: bool): int { if consumer then NODE_LIMIT else WRITER_LIMIT }

  /** Stands for the hexadecimal SHA-256 of a name. */
  type Hash = string -> string

  predicate Nibble(c: char) { '0' <= c <= '9' || 'a' <= c <= 'f' }

  ghost predicate HashText(hash: Hash) {
    forall n :: |hash(n)| == DEPTH && forall i :: 0 <= i < DEPTH ==> Nibble(hash(n)[i])
  }

  // ---- cache names (worker/cache.go:273-275, worker/catalog.go:74-76)

  predicate NarChar(c: char) {
    'a' <= c <= 'z' || 'A' <= c <= 'Z' || '0' <= c <= '9' || c == '.' || c == '_' || c == '-'
  }

  predicate Alphanumeric(c: char) { 'a' <= c <= 'z' || 'A' <= c <= 'Z' || '0' <= c <= '9' }

  predicate NarStem(s: string) { |s| > 4 && s[|s| - 4..] == ".nar" && forall i :: 0 <= i < |s| - 4 ==> NarChar(s[i]) }

  /** An archive name with an optional suffix after ".nar". */
  predicate NarName(s: string) {
    NarStem(s)
    || exists i :: 0 < i < |s| - 1 && s[i] == '.' && NarStem(s[..i]) && forall j :: i < j < |s| ==> Alphanumeric(s[j])
  }

  predicate NarinfoName(s: string) { |s| == 40 && s[32..] == ".narinfo" && forall i :: 0 <= i < 32 ==> HashChar(s[i]) }

  predicate CachePath(s: string) {
    s == "nix-cache-info" || NarinfoName(s) || (StartsWith(s, "nar/") && NarName(s[4..]))
  }

  predicate ConsumerFile(name: string) { StartsWith(name, "cache/") && CachePath(name[6..]) }

  lemma NarinfoNameExactly(s: string)
    ensures NarinfoName(s)
            <==> exists h :: |h| == 32 && s == h + ".narinfo"
                             && forall c :: c in h ==> c in "0123456789abcdfghijklmnpqrsvwxyz"
  {
    if NarinfoName(s) {
      var h := s[..32];
      assert s == h + s[32..];
      forall c | c in h
        ensures c in "0123456789abcdfghijklmnpqrsvwxyz"
      {
        HashDigits(c);
      }
    }
    if h :| |h| == 32 && s == h + ".narinfo" && forall c :: c in h ==> c in "0123456789abcdfghijklmnpqrsvwxyz" {
      assert s[32..] == ".narinfo";
      forall i | 0 <= i < 32
        ensures HashChar(s[i])
      {
        assert s[i] == h[i];
        HashDigits(h[i]);
      }
    }
  }

  ghost predicate Stem(s: string) { s != "" && forall c :: c in s ==> NarChar(c) }

  lemma NarStemExactly(s: string)
    ensures NarStem(s) <==> exists stem :: Stem(stem) && s == stem + ".nar"
  {
    if NarStem(s) {
      var stem := s[..|s| - 4];
      assert s == stem + s[|s| - 4..];
      assert forall i :: 0 <= i < |stem| ==> stem[i] == s[i];
    }
    if stem :| Stem(stem) && s == stem + ".nar" {
      assert s[|s| - 4..] == ".nar";
      assert forall i :: 0 <= i < |s| - 4 ==> s[i] == stem[i];
    }
  }

  ghost predicate Suffixed(s: string, stem: string, suffix: string) {
    Stem(stem) && suffix != "" && (forall c :: c in suffix ==> Alphanumeric(c)) && s == stem + ".nar" + "." + suffix
  }

  /** An archive is named by a nonempty stem, ".nar" and at most one more suffix. */
  lemma NarNameExactly(s: string)
    ensures NarName(s) <==> (exists stem :: Stem(stem) && s == stem + ".nar") || exists stem, x :: Suffixed(s, stem, x)
  {
    NarStemExactly(s);
    hide Stem, NarStem, Alphanumeric;
    if i :| 0 < i < |s| - 1 && s[i] == '.' && NarStem(s[..i]) && forall j :: i < j < |s| ==> Alphanumeric(s[j]) {
      NarStemExactly(s[..i]);
      var stem :| Stem(stem) && s[..i] == stem + ".nar";
      var x := s[i + 1..];
      assert s == s[..i] + "." + x;
      assert Suffixed(s, stem, x);
    }
    if stem, x :| Suffixed(s, stem, x) {
      var i := |stem| + 4;
      assert s[..i] == stem + ".nar" && s[i] == '.' && s[i + 1..] == x;
      NarStemExactly(s[..i]);
      forall j | i < j < |s|
        ensures Alphanumeric(s[j])
      {
        assert s[j] == x[j - i - 1];
      }
    }
  }

  /** What the consumer tree may name: the cache's own description, narinfos and archives. */
  lemma ConsumerFileExactly(name: string)
    ensures ConsumerFile(name)
            <==> name == "cache/nix-cache-info"
                 || (exists s :: NarinfoName(s) && name == "cache/" + s)
                 || exists s :: NarName(s) && name == "cache/nar/" + s
  {
    hide NarName, NarinfoName;
    if ConsumerFile(name) {
      assert name == "cache/" + name[6..];
      if StartsWith(name[6..], "nar/") { assert name[6..] == "nar/" + name[6..][4..]; }
    }
    if s :| NarinfoName(s) && name == "cache/" + s { assert name[..6] == "cache/" && name[6..] == s; }
    if s :| NarName(s) && name == "cache/nar/" + s {
      assert name[..6] == "cache/" && name[6..] == "nar/" + s && name[6..][..4] == "nar/" && name[6..][4..] == s;
    }
    if name == "cache/nix-cache-info" { assert name[..6] == "cache/" && name[6..] == "nix-cache-info"; }
  }

  /** What `NarinfoFields` demands of a store path; more names are allowed than in `ValidStorePath`. */
  predicate RecordStorePath(path: string) {
    && |path| > |STORE| + 33 && path[..|STORE|] == STORE
    && (forall i :: |STORE| <= i < |STORE| + 32 ==> HashChar(path[i]))
    && path[|STORE| + 32] == '-'
    && forall i :: |STORE| + 33 <= i < |path| ==> path[i] != '/' && path[i] != '\\' && path[i] != '\n'
  }

  lemma {:induction false} BaseAfter(front: string, rest: string)
    requires rest != "" && '/' !in rest
    ensures Base(front + "/" + rest) == rest
  {
    var s := front + "/" + rest;
    if front == "" {
      assert s[1..] == rest;
    } else {
      assert s[1..] == front[1..] + "/" + rest;
      assert s[1..][|front| - 1] == '/';
      BaseAfter(front[1..], rest);
    }
  }

  lemma {:induction false} DashAfter(front: string, rest: string)
    requires '-' !in front
    ensures BeforeDash(front + "-" + rest) == front
  {
    var s := front + "-" + rest;
    if front != "" {
      assert s[1..] == front[1..] + "-" + rest && s[0] == front[0];
      DashAfter(front[1..], rest);
      assert front == [front[0]] + front[1..];
    }
  }

  /** A narinfo is stored under the hash of its store path. */
  lemma NarinfoKeyParts(h: string, name: string)
    requires '-' !in h && '/' !in h && '/' !in name
    ensures NarinfoKey("/nix/store/" + h + "-" + name) == "cache/" + h + ".narinfo"
  {
    assert "/nix/store/" + h + "-" + name == "/nix/store" + "/" + (h + "-" + name);
    BaseAfter("/nix/store", h + "-" + name);
    DashAfter(h, name);
  }

  /** A narinfo is always stored under a name of the consumer tree. */
  lemma NarinfoKeyIsConsumer(path: string)
    requires RecordStorePath(path)
    ensures ConsumerFile(NarinfoKey(path))
  {
    var h, rest := path[11..43], path[44..];
    assert path == "/nix/store/" + h + "-" + rest by {
      assert path == path[..11] + path[11..43] + [path[43]] + path[44..];
    }
    assert forall i :: 0 <= i < |rest| ==> rest[i] == path[44 + i];
    assert forall i :: 0 <= i < 32 ==> h[i] == path[11 + i];
    NarinfoKeyParts(h, rest);
    var key := NarinfoKey(path);
    assert key[..6] == "cache/" && key[6..] == h + ".narinfo";
  }

  lemma FirstChar(s: string, prefix: string)
    requires prefix != ""
    ensures StartsWith(s, prefix) ==> s != "" && s[0] == prefix[0]
  {
    if StartsWith(s, prefix) { assert s[..|prefix|][0] == s[0]; }
  }

  lemma StorePathIsNotConsumer(path: string)
    requires ValidStorePath(path)
    ensures !ConsumerFile(path)
  {
    FirstChar(path, STORE);
    FirstChar(path, "cache/");
  }

  // ---- nodes

  /** A record; an absent narinfo is the empty text, an absent reference list a nil pointer. */
  datatype Record = Record(file: Option<File>, narinfo: Option<Narinfo>, archive: Option<File>,
                           references: Option<seq<string>>)

  const NO_RECORD := Record(None, None, None, None)

  datatype Node = Node(records: Option<map<string, Record>>, children: Option<map<string, Descriptor>>)

  function Children(node: Node): map<string, Descriptor> { if node.children.Some? then node.children.value else map[] }

  function Records(node: Node): map<string, Record> { if node.records.Some? then node.records.value else map[] }

  /** `reachableBlob` (lines 346-352). */
  predicate Reaches(reachable: map<string, Descriptor>, d: Descriptor) {
    d.digest in reachable && reachable[d.digest].size == d.size && reachable[d.digest].mediaType == d.mediaType
  }

  /** `validateFile` (lines 354-359). */
  predicate FileOk(reachable: map<string, Descriptor>, f: File) { ValidFile(f) && Reaches(reachable, f.blob) }

  /** The checks of one record (lines 410-452). */
  predicate RecordOk(reachable: map<string, Descriptor>, hash: Hash, prefix: string, consumer: bool, name: string,
                     r: Record) {
    && ConsumerFile(name) == consumer && StartsWith(hash(name), prefix)
    && !(r.file.None? && r.narinfo.None? && r.references.None?)
    && (consumer ==> r.references.None?)
    && (!consumer ==> r.narinfo.None? && r.archive.None?)
    && (r.references.Some? ==> ValidStorePath(name) && AllStorePaths(r.references.value))
    && (r.file.Some? ==> FileOk(reachable, r.file.value))
    && (r.narinfo.Some? ==>
          r.narinfo.value.valid && name == NarinfoKey(r.narinfo.value.storePath) && r.archive.Some?
          && FileOk(reachable, r.archive.value))
    && (r.narinfo.None? ==> r.archive.None?)
  }

  /** Accepted records of the consumer tree have a narinfo with its archive or a file, and those of the writer tree a
      reference list or a file, each under a name of its kind that hashes to the node's path. */
  lemma RecordExactly(reachable: map<string, Descriptor>, hash: Hash, prefix: string, name: string, r: Record)
    requires RecordOk(reachable, hash, prefix, true, name, r) || RecordOk(reachable, hash, prefix, false, name, r)
    ensures |prefix| <= |hash(name)| && hash(name)[..|prefix|] == prefix
    ensures RecordOk(reachable, hash, prefix, true, name, r)
            <==> ConsumerFile(name) && r.references.None? && (r.narinfo.Some? <==> r.archive.Some?)
                 && (r.narinfo.Some? || r.file.Some?)
                 && (r.narinfo.Some? ==> r.narinfo.value.valid && name == NarinfoKey(r.narinfo.value.storePath))
    ensures RecordOk(reachable, hash, prefix, false, name, r)
            <==> !ConsumerFile(name) && r.narinfo.None? && r.archive.None? && (r.references.Some? || r.file.Some?)
                 && (r.references.Some? ==> ValidStorePath(name) && AllStorePaths(r.references.value))
    ensures (r.file.Some? ==> FileOk(reachable, r.file.value))
            && (r.archive.Some? ==> FileOk(reachable, r.archive.value))
  {
    hide ConsumerFile, FileOk, NarinfoKey, ValidStorePath, AllStorePaths;
  }

  predicate ChildrenOk(reachable: map<string, Descriptor>, prefix: string, children: map<string, Descriptor>) {
    forall nibble ::
      nibble in children ==>
        |nibble| == 1 && Nibble(nibble[0]) && |prefix| < DEPTH && Reaches(reachable, children[nibble])
  }

  /** The checks of a decoded node (lines 399-452). */
  predicate Accepts(reachable: map<string, Descriptor>, hash: Hash, node: Node, prefix: string, consumer: bool) {
    && |prefix| <= DEPTH && (node.records.Some? || Children(node) != map[])
    && !(node.records.Some? && node.children.Some?)
    && ChildrenOk(reachable, prefix, Children(node))
    && forall name :: name in Records(node) ==> RecordOk(reachable, hash, prefix, consumer, name, Records(node)[name])
  }

  // ---- following a path

  /** What the catalog's entry names: the roots of the two trees and the metadata. */
  datatype Root = Root(index: Descriptor, writer: Descriptor, metadata: Descriptor)

  /** A text: the node and the root of this format that it decodes to, if any, whether it decodes to metadata, and how
      it is spelled. */
  datatype Raw = Raw(node: Option<Node>, root: Option<Root>, metadata: bool, spelling: nat)

  /** The plaintext that a digest stands for; none when the blob is missing or cannot be decrypted. A digest names one
      content forever. */
  type Content = string -> Option<Raw>

  type Size = Raw -> nat

  function NodeIn(content: Content, digest: string): Option<Node> {
    var raw := content(digest);
    if raw.None? then None else raw.value.node
  }

  /** The descriptor that the tree under `root` has at a path. */
  function At(content: Content, root: Descriptor, path: string): Option<Descriptor> {
    if path == "" then Some(root)
    else
      var n := |path| - 1;
      var parent := At(content, root, path[..n]);
      if parent.None? then None
      else
        var node := NodeIn(content, parent.value.digest);
        if node.None? || path[n..] !in Children(node.value) then None else Some(Children(node.value)[path[n..]])
  }

  function NodeAt(content: Content, root: Descriptor, path: string): Option<Node> {
    var d := At(content, root, path);
    if d.None? then None else NodeIn(content, d.value.digest)
  }

  lemma {:induction false} AtPrefix(content: Content, root: Descriptor, path: string, k: nat)
    requires k <= |path| && At(content, root, path).Some?
    ensures At(content, root, path[..k]).Some?
    ensures k < |path| ==>
              NodeAt(content, root, path[..k]).Some?
              && path[k..k + 1] in Children(NodeAt(content, root, path[..k]).value)
  {
    var n := |path| - 1;
    if k == |path| {
      assert path[..k] == path;
    } else if k == n {
      assert path[n..] == path[n..n + 1];
    } else {
      AtPrefix(content, root, path[..n], k);
      assert path[..n][..k] == path[..k] && path[..n][k..k + 1] == path[k..k + 1];
    }
  }

  /** Every node of the tree decodes and passes its checks. */
  ghost predicate TreeOk(content: Content, reachable: map<string, Descriptor>, hash: Hash, root: Descriptor,
                         consumer: bool) {
    forall path :: At(content, root, path).Some? ==>
      NodeAt(content, root, path).Some? && Accepts(reachable, hash, NodeAt(content, root, path).value, path, consumer)
  }

  /** The places of an accepted tree are paths of at most 64 hexadecimal digits; what is there is either records or at
      least one child. */
  lemma {:induction false} TreeShape(content: Content, reachable: map<string, Descriptor>, hash: Hash, root: Descriptor,
                                     consumer: bool, path: string)
    requires TreeOk(content, reachable, hash, root, consumer) && At(content, root, path).Some?
    ensures |path| <= 64 && forall i :: 0 <= i < |path| ==> path[i] in "0123456789abcdef"
    ensures NodeAt(content, root, path).Some?
    ensures var node := NodeAt(content, root, path).value;
            if node.records.Some? then node.children.None? else Children(node) != map[]
    decreases |path|
  {
    hide Accepts, NodeIn;
    AcceptedShape(reachable, hash, NodeAt(content, root, path).value, path, consumer);
    if path != "" {
      var n := |path| - 1;
      TreeShape(content, reachable, hash, root, consumer, path[..n]);
      AcceptedShape(reachable, hash, NodeAt(content, root, path[..n]).value, path[..n], consumer);
      AtPrefix(content, root, path, n);
      assert path[n..n + 1] == path[n..];
      assert path == path[..n] + path[n..];
    }
  }

  lemma AcceptedShape(reachable: map<string, Descriptor>, hash: Hash, node: Node, path: string, consumer: bool)
    requires Accepts(reachable, hash, node, path, consumer)
    ensures |path| <= 64 && if node.records.Some? then node.children.None? else Children(node) != map[]
    ensures forall nibble ::
              nibble in Children(node) ==> |nibble| == 1 && nibble[0] in "0123456789abcdef" && |path| < 64
  {
    forall nibble | nibble in Children(node)
      ensures |nibble| == 1 && nibble[0] in "0123456789abcdef" && |path| < 64
    {
      HexNibble(nibble[0]);
    }
  }

  lemma HexNibble(c: char)
    ensures Nibble(c) <==> c in "0123456789abcdef"
  {
  }

  /** A full traversal meets the record under `name` at `path`. */
  ghost predicate Met(content: Content, root: Descriptor, path: string, name: string, r: Record) {
    var node := NodeAt(content, root, path);
    node.Some? && name in Records(node.value) && Records(node.value)[name] == r
  }

  /** The records that following a hash leads to: those of the first node without children, none when a branch is
      missing. */
  function Along(content: Content, root: Descriptor, h: string, k: nat): map<string, Record>
    requires k <= |h|
    decreases |h| - k
  {
    var node := NodeAt(content, root, h[..k]);
    if node.None? then map[]
    else if Children(node.value) == map[] then Records(node.value)
    else if k < |h| then Along(content, root, h, k + 1)
    else map[]
  }

  /** A record's path is a prefix of its hash, and nodes with records have no children, so no name is stored twice. */
  lemma NameOnce(content: Content, reachable: map<string, Descriptor>, hash: Hash, root: Descriptor, consumer: bool,
                 name: string, p: string, q: string, r: Record, s: Record)
    requires TreeOk(content, reachable, hash, root, consumer) && Met(content, root, p, name, r)
             && Met(content, root, q, name, s)
    ensures p == q && r == s
  {
    if |p| <= |q| {
      NestedOnce(content, reachable, hash, root, consumer, name, p, q);
    } else {
      NestedOnce(content, reachable, hash, root, consumer, name, q, p);
    }
  }

  lemma NestedOnce(content: Content, reachable: map<string, Descriptor>, hash: Hash, root: Descriptor, consumer: bool,
                   name: string, p: string, q: string)
    requires TreeOk(content, reachable, hash, root, consumer) && |p| <= |q|
    requires NodeAt(content, root, p).Some? && name in Records(NodeAt(content, root, p).value)
    requires NodeAt(content, root, q).Some? && name in Records(NodeAt(content, root, q).value)
    ensures p == q
  {
    assert At(content, root, p).Some? && At(content, root, q).Some?;
    var node, other := NodeAt(content, root, p).value, NodeAt(content, root, q).value;
    assert Accepts(reachable, hash, node, p, consumer) && Accepts(reachable, hash, other, q, consumer);
    assert RecordOk(reachable, hash, p, consumer, name, Records(node)[name])
           && RecordOk(reachable, hash, q, consumer, name, Records(other)[name]);
    assert q[..|p|] == hash(name)[..|q|][..|p|] == hash(name)[..|p|] == p;
    if |p| < |q| { AtPrefix(content, root, q, |p|); } else { assert q == q[..|p|]; }
  }

  lemma {:induction false} AlongMeets(content: Content, root: Descriptor, h: string, k: nat)
    requires k <= |h| && NodeAt(content, root, h[..k]).Some?
    ensures Along(content, root, h, k) == map[]
            || exists j ::
                 k <= j <= |h| && NodeAt(content, root, h[..j]).Some?
                 && Along(content, root, h, k) == Records(NodeAt(content, root, h[..j]).value)
    decreases |h| - k
  {
    var node := NodeAt(content, root, h[..k]).value;
    if Children(node) == map[] {
      assert Along(content, root, h, k) == Records(NodeAt(content, root, h[..k]).value);
    } else if k < |h| && NodeAt(content, root, h[..k + 1]).Some? {
      AlongMeets(content, root, h, k + 1);
    }
  }

  lemma NodeHasPath(content: Content, root: Descriptor, p: string)
    requires NodeAt(content, root, p).Some?
    ensures At(content, root, p).Some?
  {
  }

  lemma RecordsOrChildren(content: Content, reachable: map<string, Descriptor>, hash: Hash, root: Descriptor,
                          consumer: bool, p: string)
    requires TreeOk(content, reachable, hash, root, consumer) && NodeAt(content, root, p).Some?
    ensures Records(NodeAt(content, root, p).value) == map[] || Children(NodeAt(content, root, p).value) == map[]
  {
    assert At(content, root, p).Some?;
    assert Accepts(reachable, hash, NodeAt(content, root, p).value, p, consumer);
  }

  /** From any node above it, following the hash leads to the record. */
  lemma {:induction false} AlongReaches(content: Content, reachable: map<string, Descriptor>, hash: Hash,
                                        root: Descriptor, consumer: bool, name: string, p: string, k: nat)
    requires TreeOk(content, reachable, hash, root, consumer) && k <= |p| <= |hash(name)| && p == hash(name)[..|p|]
    requires NodeAt(content, root, p).Some? && name in Records(NodeAt(content, root, p).value)
    ensures Along(content, root, hash(name), k) == Records(NodeAt(content, root, p).value)
    decreases |p| - k
  {
    hide At, NodeAt, Accepts, TreeOk, Records, Children;
    var h := hash(name);
    NodeHasPath(content, root, p);
    AtPrefix(content, root, p, k);
    assert p[..k] == h[..k];
    if k < |p| {
      AlongReaches(content, reachable, hash, root, consumer, name, p, k + 1);
    } else {
      assert p[..k] == p;
      RecordsOrChildren(content, reachable, hash, root, consumer, p);
    }
  }

  /** The fast form agrees with the full one: on any accepted tree, following a name's hash finds a record under the
      name exactly when a traversal of the whole tree meets it, and it is the same record. */
  lemma LookupAgrees(content: Content, reachable: map<string, Descriptor>, hash: Hash, root: Descriptor, consumer: bool,
                     name: string, r: Record)
    requires TreeOk(content, reachable, hash, root, consumer)
    ensures (name in Along(content, root, hash(name), 0) && Along(content, root, hash(name), 0)[name] == r)
            <==> exists path :: Met(content, root, path, name, r)
  {
    var h := hash(name);
    var found := Along(content, root, h, 0);
    if name in found && found[name] == r {
      assert h[..0] == "";
      AlongMeets(content, root, h, 0);
      var j :| 0 <= j <= |h| && NodeAt(content, root, h[..j]).Some?
               && found == Records(NodeAt(content, root, h[..j]).value);
      assert Met(content, root, h[..j], name, r);
    }
    if path :| Met(content, root, path, name, r) {
      assert At(content, root, path).Some?;
      var node := NodeAt(content, root, path).value;
      assert Accepts(reachable, hash, node, path, consumer);
      assert RecordOk(reachable, hash, path, consumer, name, Records(node)[name]);
      AlongReaches(content, reachable, hash, root, consumer, name, path, 0);
    }
  }
}

/** Names, the byte-wise order Go compares strings with, and the sorting behind `slices.Sort` and `sortedKeys`. */
module Names {

  datatype Option<+T> = None | Some(value: T)

  /** Go's `<` on strings: the first differing position decides, a proper prefix comes first. */
  predicate Less(a: string, b: string) {
    if b == "" then false
    else if a == "" then true
    else if a[0] != b[0] then a[0] < b[0]
    else Less(a[1..], b[1..])
  }

  predicate AtMost(a: string, b: string) { a == b || Less(a, b) }

  lemma {:induction false} LessTotal(a: string, b: string)
    ensures a != b ==> Less(a, b) || Less(b, a)
    ensures !(Less(a, b) && Less(b, a))
    ensures !Less(a, a)
  {
    if a != "" && b != "" && a[0] == b[0] {
      LessTotal(a[1..], b[1..]);
      assert a == [a[0]] + a[1..] && b == [b[0]] + b[1..];
    }
    if a != "" { LessTotal(a[1..], a[1..]); }
  }

  lemma {:induction false} LessTransitive(a: string, b: string, c: string)
    requires Less(a, b) && Less(b, c)
    ensures Less(a, c)
  {
    if a != "" && a[0] == b[0] && b[0] == c[0] { LessTransitive(a[1..], b[1..], c[1..]); }
  }

  ghost predicate Ascending(s: seq<string>) { forall i, j :: 0 <= i < j < |s| ==> AtMost(s[i], s[j]) }

  ghost predicate Distinct<T>(s: seq<T>) { forall i, j :: 0 <= i < j < |s| ==> s[i] != s[j] }

  function Elements<T(==)>(s: seq<T>): set<T> { set x | x in s }

  lemma AppendElement<T>(s: seq<T>, x: T)
    ensures Elements(s + [x]) == Elements(s) + {x}
    ensures Distinct(s) && x !in Elements(s) ==> Distinct(s + [x])
  {
    assert forall y :: y in s + [x] <==> y in s || y == x;
  }

  function Insert(x: string, s: seq<string>): (r: seq<string>)
    ensures multiset(r) == multiset{x} + multiset(s)
  {
    if s == [] || AtMost(x, s[0]) then [x] + s
    else
      assert s == [s[0]] + s[1..];
      [s[0]] + Insert(x, s[1..])
  }

  /** `slices.Sort` on a copy. */
  function Sort(s: seq<string>): (r: seq<string>)
    ensures multiset(r) == multiset(s)
  {
    if s == [] then []
    else
      assert s == [s[0]] + s[1..];
      Insert(s[0], Sort(s[1..]))
  }

  lemma {:induction false} InsertAscending(x: string, s: seq<string>)
    requires Ascending(s)
    ensures Ascending(Insert(x, s))
  {
    var r := Insert(x, s);
    if s == [] {
    } else if AtMost(x, s[0]) {
      forall j | 1 <= j < |r|
        ensures AtMost(x, r[j])
      {
        if j > 1 && x != s[0] && s[0] != s[j - 1] { LessTransitive(x, s[0], s[j - 1]); }
      }
    } else {
      InsertAscending(x, s[1..]);
      LessTotal(x, s[0]);
      var t := Insert(x, s[1..]);
      forall j | 0 <= j < |t|
        ensures AtMost(s[0], t[j])
      {
        assert t[j] in multiset(t);
        if t[j] != x {
          assert t[j] in multiset(s[1..]);
          assert t[j] in s[1..];
        }
      }
    }
  }

  lemma {:induction false} SortAscending(s: seq<string>)
    ensures Ascending(Sort(s))
  {
    if s != [] {
      SortAscending(s[1..]);
      InsertAscending(s[0], Sort(s[1..]));
    }
  }

  lemma {:induction false} DistinctCounts<T>(s: seq<T>)
    ensures Distinct(s) <==> forall x :: multiset(s)[x] <= 1
  {
    if s != [] {
      DistinctCounts(s[1..]);
      assert s == [s[0]] + s[1..];
      assert multiset(s) == multiset{s[0]} + multiset(s[1..]);
      if Distinct(s) {
        assert forall i :: 0 <= i < |s[1..]| ==> s[1..][i] == s[i + 1];
        assert s[0] !in s[1..];
        assert s[0] !in multiset(s[1..]);
      } else if forall x :: multiset(s)[x] <= 1 {
        assert multiset(s)[s[0]] == 1 + multiset(s[1..])[s[0]];
        assert s[0] !in multiset(s[1..]);
        assert s[0] !in s[1..];
        assert forall x :: multiset(s[1..])[x] <= multiset(s)[x];
        assert false;
      }
    }
  }

  lemma SortKeeps(s: seq<string>)
    ensures Ascending(Sort(s)) && Elements(Sort(s)) == Elements(s) && |Sort(s)| == |s|
    ensures Distinct(s) ==> Distinct(Sort(s))
  {
    SortAscending(s);
    DistinctCounts(s);
    DistinctCounts(Sort(s));
    assert |multiset(Sort(s))| == |multiset(s)|;
    forall x
      ensures x in Sort(s) <==> x in s
    {
      assert x in Sort(s) <==> x in multiset(Sort(s));
    }
  }

  lemma {:induction false} DistinctSize<T>(s: seq<T>)
    requires Distinct(s)
    ensures |Elements(s)| == |s|
  {
    if s != [] {
      var t := s[..|s| - 1];
      assert s == t + [s[|s| - 1]];
      AppendElement(t, s[|s| - 1]);
      DistinctSize(t);
    }
  }

  lemma SubsetSize<T>(a: set<T>, b: set<T>)
    requires a <= b
    ensures |a| <= |b|
    ensures |a| == |b| ==> a == b
  {
    assert b == a + (b - a);
  }

  /** Go's lookup in a map of slices: an absent key has the empty one. */
  function ConsumersOf(consumers: map<string, seq<string>>, d: string): seq<string> {
    if d in consumers then consumers[d] else []
  }

  /** Some enumeration of a finite set; its order stands for Go's unspecified map iteration order. */
  method Enumerate(s: set<string>) returns (r: seq<string>)
    ensures Elements(r) == s && Distinct(r) && |r| == |s|
  {
    r := [];
    var rest := s;
    while rest != {}
      invariant Elements(r) + rest == s && Elements(r) !! rest
      invariant Distinct(r) && |r| + |rest| == |s|
      decreases rest
    {
      var x :| x in rest;
      rest, r := rest - {x}, r + [x];
    }
  }
}

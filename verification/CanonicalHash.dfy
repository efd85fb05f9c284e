/** One spelling for every SHA-256 NAR hash: 52 base-32 digits of the little-endian number
    (worker/upstream.go:23-48). */
module CanonicalHash {
  import opened Blobs
  import opened Names

  const ALPHABET := "0123456789abcdfghijklmnpqrsvwxyz"
  const SCHEME := "sha256:"

  predicate Base32Char(c: char) {
    '0' <= c <= '9' || 'a' <= c <= 'd' || 'f' <= c <= 'n' || 'p' <= c <= 's' || 'v' <= c <= 'z'
  }

  predicate IsNix32(s: string) {
    && |s| == 59 && s[..7] == SCHEME && (s[7] == '0' || s[7] == '1')
    && forall i :: 7 <= i < 59 ==> Base32Char(s[i])
  }

  predicate HexChar(c: char) { '0' <= c <= '9' || 'a' <= c <= 'f' || 'A' <= c <= 'F' }

  predicate IsHex(s: string) { |s| == 71 && s[..7] == SCHEME && forall i :: 7 <= i < 71 ==> HexChar(s[i]) }

  function Nibble(c: char): (n: int)
    requires HexChar(c)
    ensures 0 <= n < 16
  {
    if c <= '9' then (c - '0') as int else if c <= 'F' then (c - 'A') as int + 10 else (c - 'a') as int + 10
  }

  /** `hex.DecodeString` of the 64 digits. */
  function Bytes(s: string): (r: seq<Byte>)
    requires IsHex(s)
    ensures |r| == 32
  {
    seq(32, i requires 0 <= i < 32 => 16 * Nibble(s[7 + 2 * i]) + Nibble(s[8 + 2 * i]))
  }

  // ---- numbers

  function Power(b: nat, e: nat): nat { if e == 0 then 1 else b * Power(b, e - 1) }

  function BigEndian(s: seq<Byte>): nat { if s == [] then 0 else 256 * BigEndian(s[..|s| - 1]) + s[|s| - 1] }

  function LittleEndian(s: seq<Byte>): nat { if s == [] then 0 else s[0] + 256 * LittleEndian(s[1..]) }

  ghost predicate Reversed<T>(s: seq<T>, r: seq<T>) {
    |r| == |s| && forall i :: 0 <= i < |s| ==> r[i] == s[|s| - 1 - i]
  }

  lemma {:induction false} ReversedNumber(s: seq<Byte>, r: seq<Byte>)
    requires Reversed(s, r)
    ensures BigEndian(r) == LittleEndian(s)
  {
    if s != [] { ReversedNumber(s[1..], r[..|r| - 1]); }
  }

  lemma {:induction false} PowerPositive(b: nat, e: nat)
    requires b > 0
    ensures Power(b, e) > 0
  {
    if e > 0 { PowerPositive(b, e - 1); }
  }

  lemma {:induction false} LittleEndianBound(s: seq<Byte>)
    ensures LittleEndian(s) < Power(256, |s|)
  {
    if s != [] { LittleEndianBound(s[1..]); }
  }

  lemma {:induction false} LittleEndianInjective(s: seq<Byte>, t: seq<Byte>)
    requires |s| == |t| && LittleEndian(s) == LittleEndian(t)
    ensures s == t
  {
    if s != [] {
      LittleEndianInjective(s[1..], t[1..]);
      assert s == [s[0]] + s[1..] && t == [t[0]] + t[1..];
    }
  }

  // ---- base 32

  function Letter(v: nat): char
    requires v < 32
  {
    ALPHABET[v]
  }

  /** The lowest `k` base-32 digits of `n`, most significant first. */
  function Digits(n: nat, k: nat): (r: string)
    ensures |r| == k
  {
    if k == 0 then "" else Digits(n / 32, k - 1) + [Letter(n % 32)]
  }

  function DigitValue(c: char): (v: nat)
    requires Base32Char(c)
    ensures v < 32
  {
    if c <= '9' then (c - '0') as int
    else if c <= 'd' then (c - 'a') as int + 10
    else if c <= 'n' then (c - 'f') as int + 14
    else if c <= 's' then (c - 'p') as int + 23
    else (c - 'v') as int + 27
  }

  ghost predicate Base32(s: string) { forall i :: 0 <= i < |s| ==> Base32Char(s[i]) }

  /** The number that base-32 digits denote. */
  function Value(s: string): nat
    requires Base32(s)
  {
    if s == "" then 0 else 32 * Value(s[..|s| - 1]) + DigitValue(s[|s| - 1])
  }

  lemma AlphabetIndexed(v: nat)
    requires v < 32
    ensures Base32Char(Letter(v)) && DigitValue(Letter(v)) == v
  {
    if v < 10 {
      assert v == 0 || v == 1 || v == 2 || v == 3 || v == 4 || v == 5 || v == 6 || v == 7 || v == 8 || v == 9;
    } else if v < 23 {
      assert v == 10 || v == 11 || v == 12 || v == 13 || v == 14 || v == 15 || v == 16 || v == 17 || v == 18 || v == 19
          || v == 20 || v == 21 || v == 22;
    } else {
      assert v == 23 || v == 24 || v == 25 || v == 26 || v == 27 || v == 28 || v == 29 || v == 30 || v == 31;
    }
  }

  lemma DigitValueInjective(c: char, d: char)
    requires Base32Char(c) && Base32Char(d) && DigitValue(c) == DigitValue(d)
    ensures c == d
  {
  }

  lemma {:induction false} DigitsInAlphabet(n: nat, k: nat)
    ensures Base32(Digits(n, k))
  {
    if k > 0 {
      DigitsInAlphabet(n / 32, k - 1);
      AlphabetIndexed(n % 32);
    }
  }

  lemma {:induction false} DigitsDenote(n: nat, k: nat)
    requires n < Power(32, k)
    ensures Base32(Digits(n, k)) && Value(Digits(n, k)) == n
  {
    DigitsInAlphabet(n, k);
    if k > 0 {
      DigitsDenote(n / 32, k - 1);
      AlphabetIndexed(n % 32);
      assert Digits(n, k)[..k - 1] == Digits(n / 32, k - 1);
    }
  }

  lemma DigitBack(n: nat, high: nat, c: char)
    requires Base32Char(c) && n == 32 * high + DigitValue(c)
    ensures n / 32 == high && Letter(n % 32) == c
  {
    var v := DigitValue(c);
    AlphabetIndexed(v);
    DigitValueInjective(Letter(v), c);
    hide DigitValue, Base32Char, Letter;
    assert n % 32 == v;
  }

  /** Appending one digit. */
  lemma LastDigit(n: nat, high: nat, c: char, k: nat)
    requires Base32Char(c) && n == 32 * high + DigitValue(c) && high < Power(32, k)
    ensures Digits(n, k + 1) == Digits(high, k) + [c] && n < Power(32, k + 1)
  {
    DigitBack(n, high, c);
    hide Letter, DigitValue, Base32Char;
  }

  lemma {:induction false} ValueDigits(s: string)
    requires Base32(s)
    ensures Digits(Value(s), |s|) == s && Value(s) < Power(32, |s|)
  {
    if s != "" {
      ValueDigits(s[..|s| - 1]);
      ValueLast(s);
      hide *;
      assert s == s[..|s| - 1] + [s[|s| - 1]];
    }
  }

  lemma ValueStep(s: string)
    requires Base32(s) && s != ""
    ensures Base32(s[..|s| - 1]) && Base32Char(s[|s| - 1])
            && Value(s) == 32 * Value(s[..|s| - 1]) + DigitValue(s[|s| - 1])
  {
  }

  lemma ValueLast(s: string)
    requires Base32(s) && s != "" && Value(s[..|s| - 1]) < Power(32, |s| - 1)
    ensures Digits(Value(s), |s|) == Digits(Value(s[..|s| - 1]), |s| - 1) + [s[|s| - 1]] && Value(s) < Power(32, |s|)
  {
    ValueStep(s);
    hide *;
    LastDigit(Value(s), Value(s[..|s| - 1]), s[|s| - 1], |s| - 1);
  }

  lemma DivideBoth(n: nat, a: nat, b: nat)
    requires a > 0 && b > 0
    ensures a * b > 0 && n / (a * b) == n / a / b
  {
    var m := n / a;
    assert n == a * m + n % a;
    assert m == b * (m / b) + m % b;
    Positive(a, b);
    hide *;
    DivideParts(n, a, b, m / b, m % b, n % a);
  }

  lemma DivideParts(n: nat, a: nat, b: nat, q: nat, r: nat, t: nat)
    requires r < b && t < a && n == a * (b * q + r) + t && a * b > 0
    ensures n / (a * b) == q
  {
    Expand(a, b, q, r);
    Multiples(a, r, b);
    QuotientFrom(n, a * b, q, a * r, t);
  }

  lemma QuotientFrom(n: nat, d: nat, q: nat, r: nat, t: nat)
    requires d > 0 && n == d * q + r + t && r + t < d
    ensures n / d == q
  {
    Quotient(n, d, q, r + t);
  }

  lemma Positive(a: nat, b: nat)
    requires a > 0 && b > 0
    ensures a * b > 0
  {
  }

  lemma Expand(a: nat, b: nat, q: nat, r: nat)
    ensures a * (b * q + r) == (a * b) * q + a * r
  {
    assert a * (b * q) == (a * b) * q;
  }

  lemma Quotient(n: nat, d: nat, q: nat, r: nat)
    requires d > 0 && n == d * q + r && r < d
    ensures n / d == q
  {
    Multiples(d, n / d, q);
    Multiples(d, q, n / d);
  }

  lemma Product(d: nat, k: nat)
    ensures d * k >= 0
  {
  }

  lemma Multiples(d: nat, a: int, b: int)
    ensures a < b ==> d * a + d <= d * b
  {
    if a < b {
      var k := b - a - 1;
      Product(d, k);
      assert b == a + 1 + k;
    }
  }

  /** Each digit read off on its own, as the shifting loop does. */
  lemma {:induction false} DigitAt(n: nat, k: nat, i: nat)
    requires i < k
    ensures Power(32, k - 1 - i) > 0 && Digits(n, k)[i] == Letter(n / Power(32, k - 1 - i) % 32)
  {
    PowerPositive(32, k - 1 - i);
    if i < k - 1 {
      DigitAt(n / 32, k - 1, i);
      DivideBoth(n, 32, Power(32, k - 2 - i));
    }
  }

  lemma {:induction false} ShiftIsPower(e: nat)
    ensures Power(2, 5 * e) == Power(32, e)
  {
    if e > 0 {
      ShiftIsPower(e - 1);
      var p := 5 * (e - 1);
      assert Power(2, p + 5) == 2 * Power(2, p + 4) && Power(2, p + 4) == 2 * Power(2, p + 3);
      assert Power(2, p + 3) == 2 * Power(2, p + 2) && Power(2, p + 2) == 2 * Power(2, p + 1);
      assert Power(2, p + 1) == 2 * Power(2, p);
    }
  }

  /** 256 bits fit 52 digits with the first one 0 or 1. */
  lemma {:induction false} BytesFit(e: nat)
    ensures Power(256, 5 * e) == Power(32, 8 * e)
  {
    if e > 0 {
      BytesFit(e - 1);
      var p, q := 5 * (e - 1), 8 * (e - 1);
      assert Power(256, p + 5) == 256 * Power(256, p + 4) && Power(256, p + 4) == 256 * Power(256, p + 3);
      assert Power(256, p + 3) == 256 * Power(256, p + 2) && Power(256, p + 2) == 256 * Power(256, p + 1);
      assert Power(256, p + 1) == 256 * Power(256, p) && Power(32, q + 8) == 32 * Power(32, q + 7);
      assert Power(32, q + 7) == 32 * Power(32, q + 6) && Power(32, q + 6) == 32 * Power(32, q + 5);
      assert Power(32, q + 5) == 32 * Power(32, q + 4) && Power(32, q + 4) == 32 * Power(32, q + 3);
      assert Power(32, q + 3) == 32 * Power(32, q + 2) && Power(32, q + 2) == 32 * Power(32, q + 1);
      assert Power(32, q + 1) == 32 * Power(32, q);
    }
  }

  // ---- the specification and the method

  function Canonical(value: string): Option<string> {
    if IsNix32(value) then Some(value)
    else if IsHex(value) then Some(SCHEME + Digits(LittleEndian(Bytes(value)), 52))
    else None
  }

  method ReverseInPlace(raw: array<Byte>)
    modifies raw
    ensures Reversed(old(raw[..]), raw[..])
  {
    var i, j := 0, raw.Length - 1;
    while i < j
      invariant 0 <= i <= j + 1 && i + j == raw.Length - 1
      invariant forall k ::
                  0 <= k < i ==> raw[k] == old(raw[raw.Length - 1 - k]) && raw[raw.Length - 1 - k] == old(raw[k])
      invariant forall k :: i <= k <= j ==> raw[k] == old(raw[k])
    {
      raw[i], raw[j] := raw[j], raw[i];
      i, j := i + 1, j - 1;
    }
  }

  /** `Uint64` keeps the low 64 bits, of which the mask keeps five. */
  lemma MaskedDigit(v: nat)
    ensures v % 0x1_0000_0000_0000_0000 % 32 == v % 32
  {
    var q, r := v / 0x1_0000_0000_0000_0000, v % 0x1_0000_0000_0000_0000;
    assert v == 32 * (0x800_0000_0000_0000 * q) + r;
  }

  /** The digit that the loop reads off at its `i`-th turn. */
  lemma ShiftedDigit(n: nat, i: nat)
    requires i < 52
    ensures Power(2, 255 - 5 * i) > 0
    ensures Letter(n / Power(2, 255 - 5 * i) % 0x1_0000_0000_0000_0000 % 32) == Digits(n, 52)[i]
  {
    hide *;
    PowerPositive(2, 255 - 5 * i);
    DigitAt(n, 52, i);
    ShiftIsPower(51 - i);
    assert 5 * (51 - i) == 255 - 5 * i;
    var q := n / Power(2, 255 - 5 * i);
    MaskedDigit(q);
  }

  /** The loop over `shift`. */
  method Encode(n: nat) returns (s: string)
    ensures s == SCHEME + Digits(n, 52)
  {
    s := SCHEME;
    ghost var i := 0;
    var shift := 255;
    while shift >= 0
      invariant 0 <= i <= 52 && shift == 255 - 5 * i && s == SCHEME + Digits(n, 52)[..i]
    {
      hide Power, Digits;
      ShiftedDigit(n, i);
      var v := n / Power(2, shift);
      s := s + [Letter(v % 0x1_0000_0000_0000_0000 % 32)];
      shift, i := shift - 5, i + 1;
    }
  }

  /** Accepts exactly the two spellings. A base-32 text stays as it is, and every digit for a hexadecimal text is the
      one for its own five bits. */
  method Canonicalize(value: string) returns (r: Option<string>)
    ensures r == Canonical(value)
    ensures r.Some? <==> IsNix32(value) || IsHex(value)
    ensures IsNix32(value) ==> r == Some(value)
    ensures IsHex(value) ==>
              |r.value| == 59 && r.value[..7] == "sha256:"
              && forall k :: 0 <= k < 52 ==>
                   r.value[58 - k] == "0123456789abcdfghijklmnpqrsvwxyz"[FiveBits(Bytes(value), k)]
  {
    if IsNix32(value) { return Some(value); }
    if !IsHex(value) { return None; }
    FiveBitDigits(value);
    hide IsNix32, IsHex, Digits, FiveBits;
    var bytes := Bytes(value);
    var raw := new Byte[32](i requires 0 <= i < 32 => bytes[i]);
    assert raw[..] == bytes;
    ReverseInPlace(raw);
    ReversedNumber(bytes, raw[..]);
    var s := Encode(BigEndian(raw[..]));
    r := Some(s);
  }

  // ---- what every digit is

  /** The bits `5 * k` to `5 * k + 4`, counted from the lowest bit of the first byte. They lie in at most two bytes. */
  function FiveBits(bytes: seq<Byte>, k: nat): (v: nat)
    requires |bytes| == 32 && k < 52
    ensures v < 32
  {
    var (i, j) := (5 * k / 8, 5 * k % 8);
    PowerPositive(2, j);
    (bytes[i] / Power(2, j) + if i < 31 then Power(2, 8 - j) * bytes[i + 1] else 0) % 32
  }

  lemma Powers()
    ensures Power(2, 0) == 1 && Power(2, 1) == 2 && Power(2, 2) == 4 && Power(2, 3) == 8 && Power(2, 4) == 16
    ensures Power(2, 5) == 32 && Power(2, 6) == 64 && Power(2, 7) == 128 && Power(2, 8) == 256
  {
    assert Power(2, 1) == 2 * Power(2, 0) && Power(2, 2) == 2 * Power(2, 1) && Power(2, 3) == 2 * Power(2, 2);
    assert Power(2, 4) == 2 * Power(2, 3) && Power(2, 5) == 2 * Power(2, 4) && Power(2, 6) == 2 * Power(2, 5);
    assert Power(2, 7) == 2 * Power(2, 6) && Power(2, 8) == 2 * Power(2, 7);
  }

  lemma {:induction false} PowersAdd(b: nat, d: nat, e: nat)
    requires b > 0
    ensures Power(b, d) > 0 && Power(b, d + e) == Power(b, d) * Power(b, e)
  {
    PowerPositive(b, d);
    if e > 0 {
      PowersAdd(b, d, e - 1);
      var (x, y) := (Power(b, d), Power(b, e - 1));
      assert b * (x * y) == x * (b * y);
    }
  }

  lemma {:induction false} BytePower(i: nat)
    ensures Power(256, i) == Power(2, 8 * i)
  {
    if i > 0 {
      BytePower(i - 1);
      Powers();
      PowersAdd(2, 8 * i - 8, 8);
    }
  }

  /** Dropping the lowest bytes. */
  lemma {:induction false} DropBytes(s: seq<Byte>, i: nat)
    requires i <= |s|
    ensures Power(256, i) > 0 && LittleEndian(s) / Power(256, i) == LittleEndian(s[i..])
  {
    PowerPositive(256, i);
    if i == 0 {
      assert s[0..] == s;
    } else {
      DropBytes(s[1..], i - 1);
      assert s[1..][i - 1..] == s[i..];
      var (n, m, q) := (LittleEndian(s), LittleEndian(s[1..]), Power(256, i - 1));
      DivideBoth(n, 256, q);
      assert n / 256 == m;
    }
  }

  /** The low bits of a number whose two lowest bytes are `a` and `b`. */
  lemma LowBits(a: Byte, b: nat, j: nat)
    requires j < 8
    ensures Power(2, j) > 0
    ensures (a + 256 * b) / Power(2, j) % 32 == (a / Power(2, j) + Power(2, 8 - j) * (b % 256)) % 32
  {
    Powers();
    PowersAdd(2, j, 8 - j);
    hide Power;
    SplitBits(a, b, Power(2, j), Power(2, 8 - j));
  }

  lemma SplitBits(a: Byte, b: nat, p: nat, q: nat)
    requires p > 0 && p * q == 256
    ensures (a + 256 * b) / p % 32 == (a / p + q * (b % 256)) % 32
  {
    Expand(p, q, b, 0);
    DivideSum(a, p, q * b);
    Expand(q, 256, b / 256, b % 256);
    assert q * b == q * 256 * (b / 256) + q * (b % 256);
    DropTerm(a / p + q * (b % 256), q, b / 256);
  }

  lemma DivideSum(a: nat, p: nat, m: nat)
    requires p > 0
    ensures (a + p * m) / p == a / p + m
  {
    Expand(p, 1, a / p, m);
    Expand(p, 1, m, a / p);
    Quotient(a + p * m, p, a / p + m, a % p);
  }

  lemma DropTerm(x: nat, q: nat, c: nat)
    ensures (x + q * 256 * c) % 32 == x % 32
  {
    Expand(32, 8 * q, c, 0);
  }

  lemma FiveBitsOf(bytes: seq<Byte>, k: nat)
    requires |bytes| == 32 && k < 52
    ensures Power(32, k) > 0 && LittleEndian(bytes) / Power(32, k) % 32 == FiveBits(bytes, k)
  {
    var (i, j) := (5 * k / 8, 5 * k % 8);
    PowerPositive(2, j);
    PowerPositive(32, k);
    ShiftIsPower(k);
    PowersAdd(2, 8 * i, j);
    BytePower(i);
    DropBytes(bytes, i);
    DivideBoth(LittleEndian(bytes), Power(256, i), Power(2, j));
    var rest := bytes[i..];
    assert rest[0] == bytes[i] && (i < 31 ==> rest[1..][0] == bytes[i + 1]);
    LowBits(bytes[i], LittleEndian(rest[1..]), j);
    LowByte(rest[1..]);
  }

  lemma LowByte(s: seq<Byte>)
    ensures LittleEndian(s) % 256 == if s == [] then 0 else s[0]
  {
  }

  lemma FiveBitDigits(value: string)
    requires IsHex(value)
    ensures var text := SCHEME + Digits(LittleEndian(Bytes(value)), 52);
            |text| == 59 && text[..7] == "sha256:"
            && forall k :: 0 <= k < 52 ==>
                 text[58 - k] == "0123456789abcdfghijklmnpqrsvwxyz"[FiveBits(Bytes(value), k)]
  {
    var n := LittleEndian(Bytes(value));
    forall k | 0 <= k < 52
      ensures Digits(n, 52)[51 - k] == "0123456789abcdfghijklmnpqrsvwxyz"[FiveBits(Bytes(value), k)]
    {
      DigitAt(n, 52, 51 - k);
      FiveBitsOf(Bytes(value), k);
    }
  }

  /** What two hexadecimal digits denote, in either case. */
  lemma DigitPair(value: string, k: nat, high: nat, low: nat)
    requires IsHex(value) && k < 32 && high < 16 && low < 16
    requires value[7 + 2 * k] == "0123456789abcdef"[high] || value[7 + 2 * k] == "0123456789ABCDEF"[high]
    requires value[8 + 2 * k] == "0123456789abcdef"[low] || value[8 + 2 * k] == "0123456789ABCDEF"[low]
    ensures Bytes(value)[k] == 16 * high + low
  {
    NibbleIndexed(high);
    NibbleIndexed(low);
  }

  lemma NibbleIndexed(v: nat)
    requires v < 16
    ensures HexChar("0123456789abcdef"[v]) && Nibble("0123456789abcdef"[v]) == v
    ensures HexChar("0123456789ABCDEF"[v]) && Nibble("0123456789ABCDEF"[v]) == v
  {
    if v < 10 {
      assert v == 0 || v == 1 || v == 2 || v == 3 || v == 4 || v == 5 || v == 6 || v == 7 || v == 8 || v == 9;
    } else {
      assert v == 10 || v == 11 || v == 12 || v == 13 || v == 14 || v == 15;
    }
  }

  /** The digits of both alphabets are all that is accepted. */
  lemma AcceptedChars(c: char)
    ensures HexChar(c) <==> c in "0123456789abcdefABCDEF"
    ensures Base32Char(c) <==> c in "0123456789abcdfghijklmnpqrsvwxyz"
  {
    assert forall v :: 0 <= v < 22 ==> HexChar("0123456789abcdefABCDEF"[v]);
  }

  // ---- what the spelling promises

  lemma {:induction false} FirstDigit(n: nat)
    requires n < 2 * Power(32, 51)
    ensures Digits(n, 52)[0] == '0' || Digits(n, 52)[0] == '1'
  {
    DigitAt(n, 52, 0);
    var p := Power(32, 51);
    if n < p { Quotient(n, p, 0, n); } else { Quotient(n, p, 1, n - p); }
  }

  lemma Room()
    ensures Power(256, 32) == 2 * Power(32, 51) && 2 * Power(32, 51) <= Power(32, 52)
  {
    BytesFit(6);
    assert Power(256, 32) == 256 * Power(256, 31) && Power(256, 31) == 256 * Power(256, 30);
    assert Power(32, 52) == 32 * Power(32, 51) && Power(32, 51) == 32 * Power(32, 50);
    assert Power(32, 50) == 32 * Power(32, 49) && Power(32, 49) == 32 * Power(32, 48);
  }

  lemma NumberFits(value: string)
    requires IsHex(value)
    ensures LittleEndian(Bytes(value)) < 2 * Power(32, 51) && 2 * Power(32, 51) <= Power(32, 52)
  {
    LittleEndianBound(Bytes(value));
    Room();
  }

  /** A hexadecimal hash becomes a valid base-32 text that denotes the same little-endian 256-bit number. */
  lemma SameNumber(value: string)
    requires IsHex(value)
    ensures Canonical(value).Some? && IsNix32(Canonical(value).value)
    ensures Base32(Canonical(value).value[7..])
    ensures Value(Canonical(value).value[7..]) == LittleEndian(Bytes(value))
  {
    var n := LittleEndian(Bytes(value));
    NumberFits(value);
    DigitsDenote(n, 52);
    FirstDigit(n);
    var text := SCHEME + Digits(n, 52);
    assert text[7..] == Digits(n, 52) && text[..7] == SCHEME;
    forall i | 7 <= i < 59
      ensures Base32Char(text[i])
    {
      assert text[i] == Digits(n, 52)[i - 7];
    }
  }

  lemma Idempotent(value: string)
    requires Canonical(value).Some?
    ensures Canonical(Canonical(value).value) == Canonical(value)
  {
    if !IsNix32(value) { SameNumber(value); }
  }

  /** Two hexadecimal hashes get the same text exactly when they spell the same bytes, whatever the letter case. */
  lemma SameTextIffSameBytes(a: string, b: string)
    requires IsHex(a) && IsHex(b)
    ensures Canonical(a) == Canonical(b) <==> Bytes(a) == Bytes(b)
  {
    SameNumber(a);
    SameNumber(b);
    if Canonical(a) == Canonical(b) { LittleEndianInjective(Bytes(a), Bytes(b)); }
  }

  /** The same hexadecimal digit, in either case. */
  ghost predicate SameDigit(c: char, d: char) {
    exists v ::
      0 <= v < 16 && (c == "0123456789abcdef"[v] || c == "0123456789ABCDEF"[v])
      && (d == "0123456789abcdef"[v] || d == "0123456789ABCDEF"[v])
  }

  /** Letter case is all that is forgotten. */
  lemma SameTextIffSameDigits(a: string, b: string)
    requires IsHex(a) && IsHex(b)
    ensures Canonical(a) == Canonical(b) <==> forall i :: 7 <= i < 71 ==> SameDigit(a[i], b[i])
  {
    hide SameDigit, Canonical, Nibble;
    SameTextIffSameBytes(a, b);
    if Bytes(a) == Bytes(b) {
      forall i | 7 <= i < 71
        ensures SameDigit(a[i], b[i])
      {
        SamePair(a, b, (i - 7) / 2);
        NibbleDecides(a[i], b[i]);
      }
    }
    if forall i :: 7 <= i < 71 ==> SameDigit(a[i], b[i]) {
      forall k | 0 <= k < 32
        ensures Bytes(a)[k] == Bytes(b)[k]
      {
        NibbleDecides(a[7 + 2 * k], b[7 + 2 * k]);
        NibbleDecides(a[8 + 2 * k], b[8 + 2 * k]);
      }
    }
  }

  lemma SamePair(a: string, b: string, k: nat)
    requires IsHex(a) && IsHex(b) && k < 32 && Bytes(a)[k] == Bytes(b)[k]
    ensures Nibble(a[7 + 2 * k]) == Nibble(b[7 + 2 * k]) && Nibble(a[8 + 2 * k]) == Nibble(b[8 + 2 * k])
  {
    hide Nibble;
  }

  lemma NibbleDecides(c: char, d: char)
    requires HexChar(c) && HexChar(d)
    ensures Nibble(c) == Nibble(d) <==> SameDigit(c, d)
  {
    NibbleSpelled(c);
    NibbleSpelled(d);
    hide Nibble, HexChar;
    if SameDigit(c, d) {
      var v :| 0 <= v < 16 && (c == "0123456789abcdef"[v] || c == "0123456789ABCDEF"[v])
               && (d == "0123456789abcdef"[v] || d == "0123456789ABCDEF"[v]);
      NibbleIndexed(v);
    }
  }

  lemma NibbleSpelled(c: char)
    requires HexChar(c)
    ensures c == "0123456789abcdef"[Nibble(c)] || c == "0123456789ABCDEF"[Nibble(c)]
  {
  }

  // ---- every base-32 text is the spelling of some hash

  function ByteString(n: nat, k: nat): (r: seq<Byte>)
    ensures |r| == k
  {
    if k == 0 then [] else [n % 256] + ByteString(n / 256, k - 1)
  }

  lemma {:induction false} ByteStringDenotes(n: nat, k: nat)
    requires n < Power(256, k)
    ensures LittleEndian(ByteString(n, k)) == n
  {
    if k > 0 { ByteStringDenotes(n / 256, k - 1); }
  }

  function HexDigit(v: nat): (c: char)
    requires v < 16
    ensures HexChar(c) && Nibble(c) == v
  {
    if v < 10 then '0' + v as char else 'a' + (v - 10) as char
  }

  function Spelled(bytes: seq<Byte>): (r: string)
    requires |bytes| == 32
    ensures |r| == 71 && r[..7] == SCHEME
    ensures forall i ::
              0 <= i < 64 ==> r[7 + i] == HexDigit(if i % 2 == 0 then bytes[i / 2] / 16 else bytes[i / 2] % 16)
  {
    SCHEME + seq(64, i requires 0 <= i < 64 => HexDigit(if i % 2 == 0 then bytes[i / 2] / 16 else bytes[i / 2] % 16))
  }

  lemma SpelledBytes(bytes: seq<Byte>)
    requires |bytes| == 32
    ensures IsHex(Spelled(bytes)) && Bytes(Spelled(bytes)) == bytes
  {
    hide Spelled, Nibble, HexDigit, HexChar;
    var r := Spelled(bytes);
    forall i | 7 <= i < 71
      ensures HexChar(r[i])
    {
      var k := i - 7;
      assert r[i] == HexDigit(if k % 2 == 0 then bytes[k / 2] / 16 else bytes[k / 2] % 16);
    }
    forall k | 0 <= k < 32
      ensures 16 * Nibble(r[7 + 2 * k]) + Nibble(r[8 + 2 * k]) == bytes[k]
    {
      assert r[7 + 2 * k] == HexDigit(bytes[2 * k / 2] / 16);
      assert r[7 + (2 * k + 1)] == HexDigit(bytes[(2 * k + 1) / 2] % 16);
    }
  }

  lemma {:induction false} LeadingDigit(s: string)
    requires s != "" && (s[0] == '0' || s[0] == '1') && Base32(s)
    ensures Value(s) < 2 * Power(32, |s| - 1)
  {
    if |s| > 1 { LeadingDigit(s[..|s| - 1]); }
  }

  lemma HexIsNotNix32(value: string)
    requires IsHex(value)
    ensures !IsNix32(value)
  {
  }

  /** The other direction: no two of the accepted texts are spare, each is the canonical form of a hexadecimal hash. */
  lemma EveryTextIsReached(text: string)
    requires IsNix32(text)
    ensures exists value :: IsHex(value) && Canonical(value) == Some(text)
  {
    hide Digits, ByteString, Spelled, Bytes, LittleEndian, Value, Power;
    var digits := text[7..];
    assert Base32(digits);
    ValueDigits(digits);
    LeadingDigit(digits);
    Room();
    var bytes := ByteString(Value(digits), 32);
    ByteStringDenotes(Value(digits), 32);
    assert text == SCHEME + digits;
    SpelledBytes(bytes);
    var value := Spelled(bytes);
    HexIsNotNix32(value);
    assert Canonical(value) == Some(SCHEME + Digits(LittleEndian(bytes), 52));
  }
}

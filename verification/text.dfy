/** String operations of the JavaScript runtime that the source relies on:
    `startsWith`, `endsWith`, `includes`, `indexOf`, case-insensitive
    comparison of ASCII text, `trim`, `String(n)`, `padStart(2, '0')` and
    lowercase hex. Each is defined once, with the property a caller relies on
    stated in its contract. */
module Text {
  import opened Common

  // ---------------------------------------------------------------------------
  // Prefixes, suffixes and occurrences
  // ---------------------------------------------------------------------------

  predicate StartsWith(s: string, p: string) {
    |p| <= |s| && s[..|p|] == p
  }

  predicate EndsWith(s: string, p: string) {
    |p| <= |s| && s[|s| - |p|..] == p
  }

  /** ASCII case folding. A JavaScript regular expression with the `i` flag
      and without `u` never folds a non-ASCII character onto an ASCII one, so
      for the ASCII patterns of the source this folding is exact. */
  function Lower(c: char): (r: char)
    ensures 'A' <= c <= 'Z' ==> r as int == c as int + 32
    ensures !('A' <= c <= 'Z') ==> r == c
  {
    if 'A' <= c <= 'Z' then (c as int + 32) as char else c
  }

  predicate SameChar(a: char, b: char, ignoreCase: bool) {
    if ignoreCase then Lower(a) == Lower(b) else a == b
  }

  /** `p` occurs in `s` starting at index `i` (compared exactly, or with ASCII
      case folding). */
  predicate MatchAt(s: string, p: string, i: int, ignoreCase: bool) {
    0 <= i && i + |p| <= |s| &&
    forall k :: 0 <= k < |p| ==> SameChar(s[i + k], p[k], ignoreCase)
  }

  predicate OccursAt(s: string, p: string, i: int) {
    MatchAt(s, p, i, false)
  }

  lemma OccursAtIsSlice(s: string, p: string, i: int)
    requires 0 <= i && i + |p| <= |s|
    ensures OccursAt(s, p, i) <==> s[i..i + |p|] == p
  {
    if OccursAt(s, p, i) {
      assert forall k :: 0 <= k < |p| ==> s[i..i + |p|][k] == p[k];
    }
  }

  /** The first index at or after `from` where `p` occurs: `indexOf`, and the
      search a regular-expression engine performs for a literal. */
  function Find(s: string, p: string, from: nat, ignoreCase: bool): (r: Option<nat>)
    ensures r.Some? ==> from <= r.value && MatchAt(s, p, r.value, ignoreCase)
    ensures r.Some? ==> forall k :: from <= k < r.value ==> !MatchAt(s, p, k, ignoreCase)
    ensures r.None? ==> forall k :: from <= k ==> !MatchAt(s, p, k, ignoreCase)
    decreases |s| - from
  {
    if from + |p| > |s| then None
    else if MatchAt(s, p, from, ignoreCase) then Some(from)
    else Find(s, p, from + 1, ignoreCase)
  }

  /** `s.includes(p)`. */
  predicate Includes(s: string, p: string) {
    Find(s, p, 0, false).Some?
  }

  lemma IncludesIff(s: string, p: string)
    ensures Includes(s, p) <==> exists i :: OccursAt(s, p, i)
  {
    var r := Find(s, p, 0, false);
    if r.Some? { assert OccursAt(s, p, r.value); }
  }

  lemma IncludesWitness(s: string, p: string, i: int)
    requires OccursAt(s, p, i)
    ensures Includes(s, p)
  {
    IncludesIff(s, p);
  }

  /** Cutting `a + [c] + b` at its first `c`: when `a` holds no `c`, the
      parts on either side are determined by the whole. */
  lemma SplitAt(a: string, b: string, a': string, b': string, c: char)
    requires c !in a && c !in a'
    requires a + [c] + b == a' + [c] + b'
    ensures a == a' && b == b'
  {
    var s := a + [c] + b;
    assert forall k :: 0 <= k < |a| ==> s[k] == a[k];
    assert forall k :: 0 <= k < |a'| ==> s[k] == a'[k];
    assert s[|a|] == c && s[|a'|] == c;
    assert |a| == |a'|;
    assert a == s[..|a|] == a';
    assert b == s[|a| + 1..] == b';
  }

  // ---------------------------------------------------------------------------
  // String.prototype.trim
  // ---------------------------------------------------------------------------

  /** The characters `trim` removes: ECMAScript WhiteSpace and LineTerminator. */
  predicate IsSpace(c: char) {
    c == '\t' || c == '\n' || c == '\U{000B}' || c == '\U{000C}' || c == '\r' ||
    c == ' ' || c == '\U{00A0}' || c == '\U{1680}' || ('\U{2000}' <= c <= '\U{200A}') ||
    c == '\U{2028}' || c == '\U{2029}' || c == '\U{202F}' || c == '\U{205F}' ||
    c == '\U{3000}' || c == '\U{FEFF}'
  }

  predicate AllSpace(s: string) {
    forall k :: 0 <= k < |s| ==> IsSpace(s[k])
  }

  /** Number of leading whitespace characters. */
  function LeadingSpace(s: string): (n: nat)
    ensures n <= |s|
    ensures AllSpace(s[..n])
    ensures n < |s| ==> !IsSpace(s[n])
  {
    if |s| == 0 || !IsSpace(s[0]) then 0
    else
      var m := LeadingSpace(s[1..]);
      assert s[..m + 1] == [s[0]] + s[1..][..m];
      m + 1
  }

  /** Number of trailing whitespace characters. */
  function TrailingSpace(s: string): (n: nat)
    ensures n <= |s|
    ensures AllSpace(s[|s| - n..])
    ensures n < |s| ==> !IsSpace(s[|s| - n - 1])
  {
    if |s| == 0 || !IsSpace(s[|s| - 1]) then 0
    else
      var m := TrailingSpace(s[..|s| - 1]);
      TrailingStep(s, m);
      m + 1
  }

  lemma TrailingStep(s: string, m: nat)
    requires 0 < |s| && IsSpace(s[|s| - 1])
    requires m < |s| && AllSpace(s[..|s| - 1][|s| - 1 - m..])
    ensures AllSpace(s[|s| - (m + 1)..])
  {
    var t := s[|s| - (m + 1)..];
    forall k | 0 <= k < m ensures IsSpace(t[k]) {
      assert t[k] == s[..|s| - 1][|s| - 1 - m..][k];
    }
    assert t[m] == s[|s| - 1];
  }

  lemma AllSpaceJoin(s: string, a: nat)
    requires a <= |s| && AllSpace(s[..a]) && AllSpace(s[a..])
    ensures AllSpace(s)
  {
    forall k | 0 <= k < |s| ensures IsSpace(s[k]) {
      if k < a { assert s[k] == s[..a][k]; } else { assert s[k] == s[a..][k - a]; }
    }
  }

  /** `s.trim()`: what is left between the leading and the trailing
      whitespace. */
  function Trim(s: string): (r: string)
    ensures LeadingSpace(s) + |r| <= |s|
    ensures r == s[LeadingSpace(s)..LeadingSpace(s) + |r|]
    ensures AllSpace(s[LeadingSpace(s) + |r|..])
    ensures |r| > 0 ==> !IsSpace(r[0]) && !IsSpace(r[|r| - 1])
    ensures |r| == 0 <==> AllSpace(s)
  {
    var a := LeadingSpace(s);
    var rest := s[a..];
    var b := |rest| - TrailingSpace(rest);
    assert s[a..][..b] == s[a..a + b];
    assert s[a + b..] == rest[b..];
    assert b == 0 ==> AllSpace(s) by {
      if b == 0 { AllSpaceJoin(s, a); }
    }
    s[a..a + b]
  }

  lemma {:induction false} LeadingSpaceAt(s: string, a: nat)
    requires a < |s| && AllSpace(s[..a]) && !IsSpace(s[a])
    ensures LeadingSpace(s) == a
  {
    if a > 0 {
      assert s[..a][0] == s[0];
      assert s[1..][..a - 1] == s[..a][1..];
      LeadingSpaceAt(s[1..], a - 1);
    }
  }

  lemma {:induction false} TrailingSpaceAt(s: string, b: nat)
    requires 0 < b <= |s| && AllSpace(s[b..]) && !IsSpace(s[b - 1])
    ensures TrailingSpace(s) == |s| - b
  {
    if b < |s| {
      assert s[b..][|s| - 1 - b] == s[|s| - 1];
      assert s[..|s| - 1][b..] == s[b..][..|s| - 1 - b];
      TrailingSpaceAt(s[..|s| - 1], b);
    }
  }

  /** Whitespace around a slice with non-space ends is exactly what `trim`
      removes. */
  lemma TrimUnique(s: string, a: nat, b: nat)
    requires a < b <= |s|
    requires AllSpace(s[..a]) && AllSpace(s[b..])
    requires !IsSpace(s[a]) && !IsSpace(s[b - 1])
    ensures Trim(s) == s[a..b]
  {
    LeadingSpaceAt(s, a);
    assert s[a..][b - a..] == s[b..];
    TrailingSpaceAt(s[a..], b - a);
  }

  // ---------------------------------------------------------------------------
  // Decimal numerals: String(n), and a reader for them
  // ---------------------------------------------------------------------------

  predicate IsDigit(c: char) {
    '0' <= c <= '9'
  }

  /** A numeral holds no character other than digits. */
  lemma DigitsLack(s: string, c: char)
    requires forall k :: 0 <= k < |s| ==> IsDigit(s[k])
    requires !IsDigit(c)
    ensures c !in s
  {
    assert forall k :: 0 <= k < |s| ==> s[k] != c;
  }

  function DigitChar(d: nat): (c: char)
    requires d < 10
    ensures IsDigit(c) && c as int - '0' as int == d
  {
    ('0' as int + d) as char
  }

  /** `String(n)` for a non-negative integer: shortest decimal numeral. */
  function Decimal(n: nat): (r: string)
    ensures |r| >= 1
    ensures forall k :: 0 <= k < |r| ==> IsDigit(r[k])
    ensures r[0] == '0' ==> n == 0
  {
    if n < 10 then [DigitChar(n)] else Decimal(n / 10) + [DigitChar(n % 10)]
  }

  /** The value of a string of decimal digits (leading zeros allowed). */
  function DecimalValue(s: string): nat
    requires forall k :: 0 <= k < |s| ==> IsDigit(s[k])
  {
    if |s| == 0 then 0
    else
      assert IsDigit(s[|s| - 1]);
      10 * DecimalValue(s[..|s| - 1]) + (s[|s| - 1] as int - '0' as int)
  }

  /** Reading back `String(n)` gives `n`: the numeral is a faithful rendering. */
  lemma {:induction false} DecimalRoundTrip(n: nat)
    ensures DecimalValue(Decimal(n)) == n
  {
    if n >= 10 {
      var r := Decimal(n);
      assert r[..|r| - 1] == Decimal(n / 10);
      DecimalRoundTrip(n / 10);
    }
  }

  /** Distinct numbers get distinct numerals. */
  lemma DecimalInjective(m: nat, n: nat)
    requires Decimal(m) == Decimal(n)
    ensures m == n
  {
    DecimalRoundTrip(m);
    DecimalRoundTrip(n);
  }

  /** A leading zero does not change the value of a digit string. */
  lemma {:induction false} DecimalValueLeadingZero(s: string)
    requires forall k :: 0 <= k < |s| ==> IsDigit(s[k])
    ensures DecimalValue(['0'] + s) == DecimalValue(s)
  {
    if |s| > 0 {
      var t := ['0'] + s;
      assert t[..|t| - 1] == ['0'] + s[..|s| - 1];
      DecimalValueLeadingZero(s[..|s| - 1]);
    }
  }

  /** `s.padStart(2, '0')`. */
  function PadStart2(s: string): (r: string)
    ensures |r| == if |s| < 2 then 2 else |s|
    ensures EndsWith(r, s)
    ensures forall k :: 0 <= k < |r| - |s| ==> r[k] == '0'
  {
    var pad := if |s| == 0 then "00" else if |s| == 1 then "0" else "";
    assert (pad + s)[|pad|..] == s;
    pad + s
  }

  /** `String(n).padStart(2, '0')` keeps the value of `n` and gives exactly two
      digits below 100. */
  lemma Pad2Value(n: nat)
    ensures forall k :: 0 <= k < |PadStart2(Decimal(n))| ==> IsDigit(PadStart2(Decimal(n))[k])
    ensures DecimalValue(PadStart2(Decimal(n))) == n
    ensures n < 100 ==> |PadStart2(Decimal(n))| == 2
  {
    DecimalRoundTrip(n);
    var d := Decimal(n);
    if |d| == 1 { DecimalValueLeadingZero(d); }
    if n < 100 && n >= 10 {
      assert Decimal(n / 10) == [DigitChar(n / 10)];
    }
  }

  // ---------------------------------------------------------------------------
  // Lowercase hex: Buffer.toString('hex')
  // ---------------------------------------------------------------------------

  predicate IsLowerHex(c: char) {
    '0' <= c <= '9' || 'a' <= c <= 'f'
  }

  function HexChar(v: nat): (c: char)
    requires v < 16
    ensures IsLowerHex(c)
  {
    if v < 10 then ('0' as int + v) as char else ('a' as int + v - 10) as char
  }

  function HexValue(c: char): (v: nat)
    requires IsLowerHex(c)
    ensures v < 16
  {
    if c <= '9' then c as int - '0' as int else c as int - 'a' as int + 10
  }

  /** `buf.toString('hex')`: two lowercase digits per byte, high nibble first. */
  function Hex(bytes: seq<byte>): (r: string)
    ensures |r| == 2 * |bytes|
    ensures forall k :: 0 <= k < |r| ==> IsLowerHex(r[k])
  {
    if |bytes| == 0 then []
    else [HexChar(bytes[0] / 16), HexChar(bytes[0] % 16)] + Hex(bytes[1..])
  }

  function HexToBytes(s: string): seq<byte>
    requires |s| % 2 == 0
    requires forall k :: 0 <= k < |s| ==> IsLowerHex(s[k])
  {
    if |s| == 0 then []
    else [(HexValue(s[0]) * 16 + HexValue(s[1])) as byte] + HexToBytes(s[2..])
  }

  /** Hex encoding loses nothing: the bytes read back from their hex text. */
  lemma {:induction false} HexRoundTrip(bytes: seq<byte>)
    ensures HexToBytes(Hex(bytes)) == bytes
  {
    if |bytes| > 0 {
      var h := Hex(bytes);
      assert h[2..] == Hex(bytes[1..]);
      HexRoundTrip(bytes[1..]);
    }
  }
}

/**
 * The JavaScript string operations the extension and the relay rely on:
 * `includes`, `startsWith`, `some` over pattern lists, `toLowerCase`, `trim`,
 * number-to-string conversion, `padStart`, `slice` and `split`.
 */
module Text {

  /** `sub` occurs in `s` starting at index `i`. */
  predicate OccursAt(s: string, sub: string, i: int) {
    0 <= i && i + |sub| <= |s| && s[i..i + |sub|] == sub
  }

  /** `s.includes(sub)`. */
  predicate Contains(s: string, sub: string) {
    exists i | 0 <= i <= |s| - |sub| :: OccursAt(s, sub, i)
  }

  /** `s.startsWith(p)`. */
  predicate StartsWith(s: string, p: string) {
    |p| <= |s| && s[..|p|] == p
  }

  /** A pattern found inside a slice of `s` is found in `s`. */
  lemma ContainsInSlice(s: string, lo: nat, hi: nat, p: string)
    requires lo <= hi <= |s|
    requires Contains(s[lo..hi], p)
    ensures Contains(s, p)
  {
    var i :| 0 <= i <= hi - lo - |p| && OccursAt(s[lo..hi], p, i);
    forall k | 0 <= k < |p| ensures s[lo + i..lo + i + |p|][k] == p[k] {
      assert s[lo..hi][i..i + |p|][k] == p[k];
    }
    assert OccursAt(s, p, lo + i);
  }

  /** A non-empty pattern whose first character does not occur in `s` is not contained in `s`. */
  lemma NotContainsWithoutFirstChar(s: string, p: string)
    requires |p| > 0 && p[0] !in s
    ensures !Contains(s, p)
  {
    forall i | 0 <= i <= |s| - |p| ensures !OccursAt(s, p, i) {
      assert s[i..i + |p|][0] == s[i] != p[0];
    }
  }

  /** `pats.some(p => s.includes(p))`, evaluated left to right. */
  function ContainsAny(s: string, pats: seq<string>): (r: bool)
    ensures r <==> exists k | 0 <= k < |pats| :: Contains(s, pats[k])
  {
    if |pats| == 0 then false
    else Contains(s, pats[0]) || ContainsAny(s, pats[1..])
  }

  /** `prefixes.some(p => s.startsWith(p))`, evaluated left to right. */
  function StartsWithAny(s: string, prefixes: seq<string>): (r: bool)
    ensures r <==> exists k | 0 <= k < |prefixes| :: StartsWith(s, prefixes[k])
  {
    if |prefixes| == 0 then false
    else StartsWith(s, prefixes[0]) || StartsWithAny(s, prefixes[1..])
  }

  /** `toLowerCase` on one character, for the ASCII letters. */
  function LowerChar(c: char): char {
    if 'A' <= c <= 'Z' then (c as int + 32) as char else c
  }

  /** `s.toLowerCase()`, restricted to ASCII case mapping. */
  function ToLower(s: string): (r: string)
    ensures |r| == |s|
    ensures forall i | 0 <= i < |s| :: r[i] == LowerChar(s[i])
  {
    seq(|s|, i requires 0 <= i < |s| => LowerChar(s[i]))
  }

  /** Lower-casing twice is lower-casing once. */
  lemma ToLowerIdempotent(s: string)
    ensures ToLower(ToLower(s)) == ToLower(s)
  {
    assert forall i | 0 <= i < |s| :: LowerChar(LowerChar(s[i])) == LowerChar(s[i]);
  }

  /** The characters `String.prototype.trim` removes: ECMAScript WhiteSpace and LineTerminator. */
  predicate IsJsSpace(c: char) {
    || c == '\t' || c == '\n' || c == '\U{B}' || c == '\U{C}' || c == '\r' || c == ' '
    || c == '\U{A0}' || c == '\U{1680}' || ('\U{2000}' <= c <= '\U{200A}')
    || c == '\U{2028}' || c == '\U{2029}' || c == '\U{202F}' || c == '\U{205F}'
    || c == '\U{3000}' || c == '\U{FEFF}'
  }

  /** The length of the longest prefix of `s` all of whose characters satisfy `p`. */
  function LongestPrefix(s: string, p: char -> bool): (n: nat)
    ensures n <= |s|
    ensures forall k | 0 <= k < n :: p(s[k])
    ensures n < |s| ==> !p(s[n])
  {
    if |s| > 0 && p(s[0]) then 1 + LongestPrefix(s[1..], p) else 0
  }

  /** The length of the longest suffix of `s` all of whose characters satisfy `p`. */
  function LongestSuffix(s: string, p: char -> bool): (n: nat)
    ensures n <= |s|
    ensures forall k | |s| - n <= k < |s| :: p(s[k])
    ensures n < |s| ==> !p(s[|s| - 1 - n])
  {
    if |s| > 0 && p(s[|s| - 1]) then 1 + LongestSuffix(s[..|s| - 1], p) else 0
  }

  /** The part of `s` between `lo` leading and `n` trailing characters. */
  function Middle(s: string, lo: nat, n: nat): string
    requires lo + n <= |s|
  {
    s[lo..|s| - n]
  }

  /** Cutting the longest white-space prefix and then the longest white-space suffix leaves non-white ends. */
  lemma TrimEnds(s: string, lo: nat, n: nat)
    requires lo == LongestPrefix(s, IsJsSpace) && n == LongestSuffix(s[lo..], IsJsSpace)
    ensures lo + n <= |s|
    ensures var r := Middle(s, lo, n); r == [] || (!IsJsSpace(r[0]) && !IsJsSpace(r[|r| - 1]))
  {
    var rest := s[lo..];
    var r := Middle(s, lo, n);
    assert r == rest[..|rest| - n];
    assert r != [] ==> r[0] == s[lo] && r[|r| - 1] == rest[|rest| - 1 - n];
  }

  /** What the two cuts remove is white space. */
  lemma TrimCutsSpace(s: string, lo: nat, n: nat)
    requires lo == LongestPrefix(s, IsJsSpace) && n == LongestSuffix(s[lo..], IsJsSpace)
    ensures lo + n <= |s|
    ensures forall k | 0 <= k < lo :: IsJsSpace(s[k])
    ensures forall k | |s| - n <= k < |s| :: IsJsSpace(s[k])
  {
    var rest := s[lo..];
    assert forall k | |s| - n <= k < |s| :: s[k] == rest[k - lo];
  }

  /** The middle part occurs in `s` where the leading white space ends. */
  lemma MiddleOccurs(s: string, lo: nat, n: nat)
    requires lo + n <= |s|
    ensures OccursAt(s, Middle(s, lo, n), lo) && lo + |Middle(s, lo, n)| == |s| - n
  {
  }

  /** `s.trim()`: `s` without its leading and trailing white space. */
  function Trim(s: string): (r: string)
    ensures |r| <= |s|
    ensures r == [] || (!IsJsSpace(r[0]) && !IsJsSpace(r[|r| - 1]))
    ensures exists lo | 0 <= lo <= |s| - |r| ::
              && OccursAt(s, r, lo)
              && (forall k | 0 <= k < lo :: IsJsSpace(s[k]))
              && (forall k | lo + |r| <= k < |s| :: IsJsSpace(s[k]))
  {
    var lo := LongestPrefix(s, IsJsSpace);
    var n := LongestSuffix(s[lo..], IsJsSpace);
    TrimEnds(s, lo, n);
    TrimCutsSpace(s, lo, n);
    MiddleOccurs(s, lo, n);
    Middle(s, lo, n)
  }

  /** Trimming a trimmed string changes nothing. */
  lemma TrimIdempotent(s: string)
    ensures Trim(Trim(s)) == Trim(s)
  {
    var t := Trim(s);
    var lo := LongestPrefix(t, IsJsSpace);
    assert lo == 0;
    assert LongestSuffix(t, IsJsSpace) == 0;
    assert t[0..][..|t| - 0] == t;
  }

  /** Trimming cannot make a pattern appear. */
  lemma TrimKeepsAbsence(s: string, p: string)
    requires !Contains(s, p)
    ensures !Contains(Trim(s), p)
  {
    var r := Trim(s);
    var lo :| 0 <= lo <= |s| - |r| && OccursAt(s, r, lo);
    assert s[lo..lo + |r|] == r;
    if Contains(r, p) {
      ContainsInSlice(s, lo, lo + |r|, p);
    }
  }

  /** The decimal digit for `d`. */
  function DigitChar(d: nat): (c: char)
    requires d < 10
    ensures '0' <= c <= '9'
  {
    "0123456789"[d]
  }

  /** The value of a decimal digit. */
  function DigitValue(c: char): (d: nat)
    requires '0' <= c <= '9'
    ensures d < 10
  {
    c as int - '0' as int
  }

  predicate AllDigits(s: string) {
    forall k | 0 <= k < |s| :: '0' <= s[k] <= '9'
  }

  /** `String(n)` for a non-negative integer: its decimal digits, without leading zeros. */
  function Decimal(n: nat): (r: string)
    ensures |r| >= 1 && AllDigits(r)
    ensures r[0] == '0' ==> n == 0 && |r| == 1
    ensures n < 10 <==> |r| == 1
  {
    if n < 10 then [DigitChar(n)] else Decimal(n / 10) + [DigitChar(n % 10)]
  }

  /** The number a string of decimal digits denotes. */
  function ParseDecimal(s: string): nat
    requires AllDigits(s)
  {
    if s == [] then 0 else 10 * ParseDecimal(s[..|s| - 1]) + DigitValue(s[|s| - 1])
  }

  lemma DigitRoundTrip(d: nat)
    requires d < 10
    ensures DigitValue(DigitChar(d)) == d
  {
  }

  /** Reading back the decimal form of `n` gives `n`. */
  lemma {:induction false} DecimalRoundTrip(n: nat)
    ensures ParseDecimal(Decimal(n)) == n
  {
    DigitRoundTrip(n % 10);
    if n >= 10 {
      var r := Decimal(n);
      assert r[..|r| - 1] == Decimal(n / 10);
      DecimalRoundTrip(n / 10);
    } else {
      assert Decimal(n)[..0] == [];
    }
  }

  /** `String(n).padStart(2, '0')`. */
  function PadStart2(n: nat): (r: string)
    ensures AllDigits(r) && |r| >= 2
    ensures n < 100 ==> |r| == 2
  {
    var d := Decimal(n);
    if |d| < 2 then "0" + d else d
  }

  /** A padded month or day reads back as itself. */
  lemma {:induction false} PadStart2RoundTrip(n: nat)
    ensures ParseDecimal(PadStart2(n)) == n
  {
    DecimalRoundTrip(n);
    var d := Decimal(n);
    if |d| < 2 {
      var r := "0" + d;
      assert r[..|r| - 1] == "0";
      assert ParseDecimal("0"[..0]) == 0;
      assert ParseDecimal(d[..0]) == 0;
    }
  }

  /** `s.slice(0, n)` for `n >= 0`. */
  function SliceHead(s: string, n: nat): (r: string)
    ensures |r| == if n <= |s| then n else |s|
    ensures r == s[..|r|]
  {
    if n <= |s| then s[..n] else s
  }

  /** `s.slice(-n)` for `n > 0`: the last `n` characters, or all of `s` when it is shorter. */
  function SliceTail(s: string, n: nat): (r: string)
    ensures |r| == if n <= |s| then n else |s|
    ensures r == s[|s| - |r|..]
  {
    if n <= |s| then s[|s| - n..] else s
  }

  /** The index of the first occurrence of `c` in `s`. */
  function IndexOf(s: string, c: char): (i: nat)
    requires c in s
    ensures i < |s| && s[i] == c && c !in s[..i]
  {
    if s[0] == c then 0 else 1 + IndexOf(s[1..], c)
  }

  /** `s.split(sep)` for a one-character separator. */
  function Split(s: string, sep: char): (r: seq<string>)
    ensures |r| >= 1
    decreases |s|
  {
    if sep !in s then [s]
    else
      var i := IndexOf(s, sep);
      [s[..i]] + Split(s[i + 1..], sep)
  }

  /** Splitting `a + [sep] + b` where `a` has no separator yields `a` and then the pieces of `b`. */
  lemma SplitAfterSegment(a: string, b: string, sep: char)
    requires sep !in a
    ensures Split(a + [sep] + b, sep) == [a] + Split(b, sep)
  {
    var s := a + [sep] + b;
    assert s[|a|] == sep;
    var i := IndexOf(s, sep);
    assert s[..i] == a;
    assert s[i + 1..] == b;
  }

  /** A string without separator is a single piece. */
  lemma SplitWhole(s: string, sep: char)
    requires sep !in s
    ensures Split(s, sep) == [s]
  {
  }

  /** Decimal digits never contain a slash. */
  lemma DigitsHaveNoSlash(s: string)
    requires AllDigits(s)
    ensures '/' !in s
  {
    forall k | 0 <= k < |s| ensures s[k] != '/' {
      assert '0' <= s[k] <= '9';
    }
  }

  /** `parts.join(sep)`. */
  function Join(parts: seq<string>, sep: char): (r: string)
    requires |parts| >= 1
  {
    if |parts| == 1 then parts[0] else parts[0] + [sep] + Join(parts[1..], sep)
  }

  /** Splitting a join of separator-free parts gives the parts back. */
  lemma {:induction false} SplitJoin(parts: seq<string>, sep: char)
    requires |parts| >= 1
    requires forall k | 0 <= k < |parts| :: sep !in parts[k]
    ensures Split(Join(parts, sep), sep) == parts
  {
    if |parts| == 1 {
      SplitWhole(parts[0], sep);
    } else {
      SplitJoin(parts[1..], sep);
      SplitAfterSegment(parts[0], Join(parts[1..], sep), sep);
    }
  }
}

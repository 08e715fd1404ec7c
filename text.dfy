/**
  * Character classes and string scanners shared by the parsers.
  *
  * The source uses Kotlin's String library and small regular expressions;
  * each of them is written out here over `seq<char>`, one scanner per shape
  * of pattern the source uses.
  */
module Text {

  import opened Wrappers

  // ---------------------------------------------------------------------------
  // Character classes
  // ---------------------------------------------------------------------------

  predicate IsDigit(c: char) { '0' <= c <= '9' }

  predicate IsUpperAscii(c: char) { 'A' <= c <= 'Z' }

  predicate IsLowerAscii(c: char) { 'a' <= c <= 'z' }

  /** The id alphabet `[a-zA-Z0-9_-]` used for video and playlist ids. */
  predicate IsIdChar(c: char)
  {
    IsLowerAscii(c) || IsUpperAscii(c) || IsDigit(c) || c == '_' || c == '-'
  }

  /** Eleven characters of `[a-zA-Z0-9_-]`, the form of a video id. */
  predicate IsVideoId(t: string)
  {
    |t| == 11 && forall k :: 0 <= k < |t| ==> IsIdChar(t[k])
  }

  /** The regular-expression class `\s` of the JVM: `[ \t\n\x0B\f\r]`. */
  predicate IsRegexSpace(c: char)
  {
    c == ' ' || c == '\t' || c == '\n' || c == '\U{000B}' || c == '\U{000C}' || c == '\r'
  }

  /**
    * Kotlin's `Char.isWhitespace()`: the JVM whitespace controls, the
    * information separators 1C..1F and every space, line or paragraph
    * separator (no-break spaces included).
    */
  predicate IsWhitespace(c: char)
  {
    || ('\t' <= c <= '\r')
    || ('\U{001C}' <= c <= '\U{001F}')
    || c == ' ' || c == '\U{00A0}' || c == '\U{1680}'
    || ('\U{2000}' <= c <= '\U{200A}')
    || c == '\U{2028}' || c == '\U{2029}' || c == '\U{202F}' || c == '\U{205F}' || c == '\U{3000}'
  }

  /** Value of a decimal digit or of an ASCII hexadecimal digit of either case. */
  function DigitValue(c: char, radix: nat): (v: int)
    ensures -1 <= v < radix
    ensures v >= 0 ==> radix == 10 || radix == 16
  {
    var v :=
      if IsDigit(c) then c as int - '0' as int
      else if 'a' <= c <= 'z' then c as int - 'a' as int + 10
      else if 'A' <= c <= 'Z' then c as int - 'A' as int + 10
      else -1;
    if (radix == 10 || radix == 16) && v < radix then v else -1
  }

  // ---------------------------------------------------------------------------
  // Substring search
  // ---------------------------------------------------------------------------

  /** `p` occurs in `s` starting at index `i`. */
  predicate StartsAt(s: string, i: int, p: string)
  {
    0 <= i && i + |p| <= |s| && s[i..i + |p|] == p
  }

  /**
    * Kotlin's `s.indexOf(p, from)`: the first index at or after `from` where
    * `p` occurs, or -1.
    */
  function IndexOf(s: string, p: string, from: nat): (r: int)
    ensures r == -1 <==> forall i :: from <= i <= |s| ==> !StartsAt(s, i, p)
    ensures r != -1 ==> from <= r && StartsAt(s, r, p)
    ensures r != -1 ==> forall i :: from <= i < r ==> !StartsAt(s, i, p)
    decreases |s| + 1 - from
  {
    if from > |s| then -1
    else if StartsAt(s, from, p) then from
    else IndexOf(s, p, from + 1)
  }

  /** Kotlin's `s.contains(p)`. */
  predicate Contains(s: string, p: string)
  {
    IndexOf(s, p, 0) != -1
  }

  lemma ContainsAt(s: string, p: string, i: nat)
    requires StartsAt(s, i, p)
    ensures Contains(s, p)
  {
  }

  /** `p` occurs in `a + p + b` right after `a`. */
  lemma StartsAtJoin(a: string, p: string, b: string)
    ensures StartsAt(a + p + b, |a|, p)
  {
    assert (a + p + b)[|a|..|a| + |p|] == p;
  }

  /** An occurrence stays an occurrence when text is appended. */
  lemma StartsAtExtend(a: string, b: string, i: int, p: string)
    requires StartsAt(a, i, p)
    ensures StartsAt(a + b, i, p)
  {
    assert (a + b)[i..i + |p|] == a[i..i + |p|];
  }

  /** The first index at or after `from` holding `c`, or -1. */
  function IndexOfChar(s: string, c: char, from: nat): (r: int)
    ensures r == -1 <==> forall i :: from <= i < |s| ==> s[i] != c
    ensures r != -1 ==> from <= r < |s| && s[r] == c
    ensures r != -1 ==> forall i :: from <= i < r ==> s[i] != c
    decreases |s| - from
  {
    if from >= |s| then -1
    else if s[from] == c then from
    else IndexOfChar(s, c, from + 1)
  }

  /** The end of the longest run of characters satisfying `p` that starts at `i`. */
  function RunEnd(s: string, i: nat, p: char -> bool): (e: nat)
    requires i <= |s|
    ensures i <= e <= |s|
    ensures forall k :: i <= k < e ==> p(s[k])
    ensures e < |s| ==> !p(s[e])
    decreases |s| - i
  {
    if i < |s| && p(s[i]) then RunEnd(s, i + 1, p) else i
  }

  /** Kotlin's `substringBefore(c)`: everything before the first `c`, or all of `s`. */
  function SubstringBefore(s: string, c: char): (r: string)
    ensures c !in r
    ensures r <= s
    ensures |r| < |s| ==> s[|r|] == c
  {
    var k := IndexOfChar(s, c, 0);
    if k == -1 then s else s[..k]
  }

  /** Kotlin's `substringAfter(p, "")`: everything after the first `p`, or "". */
  function SubstringAfter(s: string, p: string): (r: string)
    ensures Contains(s, p) ==> s[IndexOf(s, p, 0) + |p|..] == r
    ensures !Contains(s, p) ==> r == ""
  {
    var k := IndexOf(s, p, 0);
    if k == -1 then "" else s[k + |p|..]
  }

  // ---------------------------------------------------------------------------
  // Trimming
  // ---------------------------------------------------------------------------

  /** Kotlin's `isBlank()`: every character is whitespace (so "" is blank). */
  predicate IsBlank(s: string)
  {
    forall i :: 0 <= i < |s| ==> IsWhitespace(s[i])
  }

  /** Index of the first non-whitespace character, or |s|. */
  function TrimStartIndex(s: string): (a: nat)
    ensures a <= |s|
    ensures forall i :: 0 <= i < a ==> IsWhitespace(s[i])
    ensures a < |s| ==> !IsWhitespace(s[a])
  {
    RunEnd(s, 0, IsWhitespace)
  }

  /** One past the last non-whitespace character at or after `a`, or `a`. */
  function TrimEndIndex(s: string, a: nat, b: nat): (e: nat)
    requires a <= b <= |s|
    ensures a <= e <= b
    ensures forall i :: e <= i < b ==> IsWhitespace(s[i])
    ensures e > a ==> !IsWhitespace(s[e - 1])
    decreases b
  {
    if b > a && IsWhitespace(s[b - 1]) then TrimEndIndex(s, a, b - 1) else b
  }

  /** Kotlin's `trim()`: drop leading and trailing whitespace. */
  function Trim(s: string): (r: string)
    ensures |r| <= |s| && TrimStartIndex(s) + |r| <= |s|
    ensures r != "" ==> !IsWhitespace(r[0]) && !IsWhitespace(r[|r| - 1])
    ensures r == s[TrimStartIndex(s)..TrimStartIndex(s) + |r|]
    ensures forall i :: 0 <= i < TrimStartIndex(s) ==> IsWhitespace(s[i])
    ensures forall i :: TrimStartIndex(s) + |r| <= i < |s| ==> IsWhitespace(s[i])
  {
    var a := TrimStartIndex(s);
    var e := TrimEndIndex(s, a, |s|);
    s[a..e]
  }

  lemma {:induction false} TrimBlank(s: string)
    ensures Trim(s) == "" <==> IsBlank(s)
  {
    var r := Trim(s);
    if r == "" {
      forall i | 0 <= i < |s| ensures IsWhitespace(s[i]) {
      }
    } else {
      assert !IsWhitespace(r[0]);
      assert r[0] == s[TrimStartIndex(s)];
    }
  }

  /** A string whose two ends are not whitespace is its own trim. */
  lemma TrimOfTrimmed(s: string)
    requires s == "" || (!IsWhitespace(s[0]) && !IsWhitespace(s[|s| - 1]))
    ensures Trim(s) == s
  {
    if s != "" {
      assert TrimStartIndex(s) == 0;
      assert TrimEndIndex(s, 0, |s|) == |s|;
    }
  }

  /** Kotlin's `trim(c)` for a single character: drop `c` from both ends. */
  function TrimChar(s: string, c: char): (r: string)
    ensures |r| <= |s|
    ensures r != "" ==> r[0] != c && r[|r| - 1] != c
    decreases |s|
  {
    if |s| > 0 && s[0] == c then TrimChar(s[1..], c)
    else if |s| > 0 && s[|s| - 1] == c then TrimChar(s[..|s| - 1], c)
    else s
  }

  // ---------------------------------------------------------------------------
  // Numbers
  // ---------------------------------------------------------------------------

  /** Value of a non-empty run of digits in the given radix, most significant first. */
  function DigitsValue(ds: string, radix: nat): (v: nat)
    requires radix == 10 || radix == 16
    requires forall i :: 0 <= i < |ds| ==> DigitValue(ds[i], radix) >= 0
    decreases |ds|
  {
    if ds == [] then 0
    else DigitsValue(ds[..|ds| - 1], radix) * radix + DigitValue(ds[|ds| - 1], radix)
  }

  predicate AllDigits(ds: string, radix: nat)
  {
    forall i :: 0 <= i < |ds| ==> DigitValue(ds[i], radix) >= 0
  }

  const INT_MIN: int := -0x8000_0000
  const INT_MAX: int := 0x7FFF_FFFF
  const LONG_MIN: int := -0x8000_0000_0000_0000
  const LONG_MAX: int := 0x7FFF_FFFF_FFFF_FFFF

  /**
    * Kotlin's `toIntOrNull(radix)` / `toLongOrNull(radix)` for the range
    * [lo, hi]: an optional leading '+' or '-' followed by at least one digit,
    * and a value in range; otherwise null.
    */
  function ParseInteger(s: string, radix: nat, lo: int, hi: int): (r: Option<int>)
    requires radix == 10 || radix == 16
    ensures r.Some? ==> lo <= r.value <= hi
    ensures s == [] ==> r.None?
    ensures r.Some? && s[0] != '-' && s[0] != '+' ==> AllDigits(s, radix) && r.value == DigitsValue(s, radix)
  {
    if s == [] then None
    else
      var negative := s[0] == '-';
      var body := if s[0] == '-' || s[0] == '+' then s[1..] else s;
      if body == [] || !AllDigits(body, radix) then None
      else
        var v: int := if negative then 0 - DigitsValue(body, radix) as int else DigitsValue(body, radix);
        if lo <= v <= hi then Some(v) else None
  }

  /** Kotlin's `Long` division, which truncates toward zero. */
  function TruncDiv(a: int, b: int): (q: int)
    requires b > 0
    ensures a >= 0 ==> 0 <= q && q * b <= a < q * b + b
    ensures a < 0 ==> q <= 0 && q * b >= a > q * b - b
  {
    if a >= 0 then a / b else -((-a) / b)
  }

  function ParseInt(s: string): Option<int> { ParseInteger(s, 10, INT_MIN, INT_MAX) }

  function ParseLong(s: string): Option<int> { ParseInteger(s, 10, LONG_MIN, LONG_MAX) }

  /** Decimal text of a natural number, as Kotlin's string templates write it. */
  function NatToString(n: nat): (r: string)
    ensures |r| >= 1
    ensures forall i :: 0 <= i < |r| ==> IsDigit(r[i])
  {
    if n < 10 then [('0' as int + n) as char]
    else NatToString(n / 10) + [('0' as int + n % 10) as char]
  }

  lemma {:induction false} NatToStringValue(n: nat)
    ensures AllDigits(NatToString(n), 10)
    ensures DigitsValue(NatToString(n), 10) == n
  {
    var r := NatToString(n);
    if n >= 10 {
      NatToStringValue(n / 10);
      assert r[..|r| - 1] == NatToString(n / 10);
    }
  }

  function IntToString(n: int): (r: string)
    ensures |r| >= 1
  {
    if n < 0 then "-" + NatToString(-n) else NatToString(n)
  }

  /** Reading back the text of a number gives the number. */
  lemma IntToStringRoundTrip(n: int, lo: int, hi: int)
    requires lo <= n <= hi
    ensures ParseInteger(IntToString(n), 10, lo, hi) == Some(n)
  {
    NatToStringValue(if n < 0 then -n else n);
    if n < 0 {
      assert IntToString(n)[1..] == NatToString(-n);
    }
  }

  // ---------------------------------------------------------------------------
  // Case, split, join, sum
  // ---------------------------------------------------------------------------

  function UpperAscii(c: char): char
  {
    if IsLowerAscii(c) then (c as int - 32) as char else c
  }

  function LowerAscii(c: char): char
  {
    if IsUpperAscii(c) then (c as int + 32) as char else c
  }

  /** `p` at `i`, ASCII letters compared without case. */
  predicate StartsAtIgnoreCase(s: string, i: nat, p: string)
  {
    i + |p| <= |s| && forall k :: 0 <= k < |p| ==> LowerAscii(s[i + k]) == LowerAscii(p[k])
  }

  /** `uppercase()` restricted to the ASCII letters. */
  function Uppercase(s: string): (r: string)
    ensures |r| == |s|
    ensures forall i :: 0 <= i < |s| ==> r[i] == UpperAscii(s[i])
  {
    seq(|s|, i requires 0 <= i < |s| => UpperAscii(s[i]))
  }

  /** `lowercase()` restricted to the ASCII letters. */
  function Lowercase(s: string): (r: string)
    ensures |r| == |s|
    ensures forall i :: 0 <= i < |s| ==> r[i] == LowerAscii(s[i])
  {
    seq(|s|, i requires 0 <= i < |s| => LowerAscii(s[i]))
  }

  /** `s.contains(p, ignoreCase = true)` for ASCII letters, searching from `from`. */
  function ContainsIgnoreCase(s: string, p: string, from: nat): (r: bool)
    ensures r <==> exists i :: from <= i && StartsAtIgnoreCase(s, i, p)
    decreases |s| - from
  {
    if from + |p| > |s| then false
    else StartsAtIgnoreCase(s, from, p) || ContainsIgnoreCase(s, p, from + 1)
  }

  /** Kotlin's `split(c)`: the pieces between occurrences of `c`, always at least one. */
  function Split(s: string, c: char): (parts: seq<string>)
    ensures |parts| >= 1
    ensures forall k :: 0 <= k < |parts| ==> c !in parts[k]
    decreases |s|
  {
    var k := IndexOfChar(s, c, 0);
    if k == -1 then [s] else [s[..k]] + Split(s[k + 1..], c)
  }

  function Join(parts: seq<string>, sep: string): string
  {
    if parts == [] then ""
    else if |parts| == 1 then parts[0]
    else parts[0] + sep + Join(parts[1..], sep)
  }

  /** Splitting and joining again with the same separator gives back the text. */
  lemma {:induction false} SplitJoin(s: string, c: char)
    ensures Join(Split(s, c), [c]) == s
    decreases |s|
  {
    var k := IndexOfChar(s, c, 0);
    if k != -1 {
      SplitJoin(s[k + 1..], c);
      assert s == s[..k] + [c] + s[k + 1..];
    }
  }

  /** The first `c` of `a + [c] + rest` is the one after `a` when `a` has none. */
  lemma IndexOfCharAfter(a: string, c: char, rest: string)
    requires c !in a
    ensures IndexOfChar(a + [c] + rest, c, 0) == |a|
  {
    var s := a + [c] + rest;
    assert s[|a|] == c;
    assert forall i :: 0 <= i < |a| ==> s[i] == a[i];
  }

  /** Splitting at the first separator. */
  lemma SplitFirst(a: string, c: char, rest: string)
    requires c !in a
    ensures Split(a + [c] + rest, c) == [a] + Split(rest, c)
  {
    var s := a + [c] + rest;
    IndexOfCharAfter(a, c, rest);
    assert s[..|a|] == a;
    assert s[|a| + 1..] == rest;
  }

  /** Joining pieces free of `c` with `c` and splitting again gives the pieces back. */
  lemma {:induction false} JoinSplit(parts: seq<string>, c: char)
    requires |parts| >= 1
    requires forall k :: 0 <= k < |parts| ==> c !in parts[k]
    ensures Split(Join(parts, [c]), c) == parts
    decreases |parts|
  {
    if |parts| == 1 {
      assert IndexOfChar(parts[0], c, 0) == -1;
    } else {
      assert c !in parts[0];
      SplitFirst(parts[0], c, Join(parts[1..], [c]));
      JoinSplit(parts[1..], c);
      assert parts == [parts[0]] + parts[1..];
    }
  }

  function Sum(xs: seq<int>): int
  {
    if xs == [] then 0 else Sum(xs[..|xs| - 1]) + xs[|xs| - 1]
  }

  lemma SumAppend(xs: seq<int>, ys: seq<int>)
    ensures Sum(xs + ys) == Sum(xs) + Sum(ys)
    decreases |ys|
  {
    if ys != [] {
      SumAppend(xs, ys[..|ys| - 1]);
      assert (xs + ys)[..|xs + ys| - 1] == xs + ys[..|ys| - 1];
      assert (xs + ys)[|xs + ys| - 1] == ys[|ys| - 1];
    } else {
      assert xs + ys == xs;
    }
  }

  lemma {:induction false} SumNonNegative(xs: seq<int>)
    requires forall i :: 0 <= i < |xs| ==> xs[i] >= 0
    ensures Sum(xs) >= 0
    decreases |xs|
  {
    if xs != [] {
      SumNonNegative(xs[..|xs| - 1]);
    }
  }

}

/**
 * The JavaScript string built-ins the navigator relies on, with their
 * language-defined behaviour: `trim`, the `\s` class, a case-insensitive
 * ASCII prefix test, `indexOf`/`lastIndexOf` on one character, `substring`,
 * `replace` of the first occurrence, `parseInt(_, 16)` and the decimal
 * formatting of an integer number.
 */
module Text {
  import opened Maybe

  // ---------------------------------------------------------------------
  // Whitespace and trimming
  // ---------------------------------------------------------------------

  /** The WhiteSpace and LineTerminator code points: what `trim` removes and `\s` matches. */
  predicate IsJsWhitespace(c: char) {
    || c == ' ' || c == '\t' || c == '\n' || c == '\U{B}' || c == '\U{C}' || c == '\r'
    || c == '\U{A0}' || c == '\U{1680}' || ('\U{2000}' <= c <= '\U{200A}')
    || c == '\U{2028}' || c == '\U{2029}' || c == '\U{202F}' || c == '\U{205F}'
    || c == '\U{3000}' || c == '\U{FEFF}'
  }

  predicate AllWhitespace(s: string) {
    forall k :: 0 <= k < |s| ==> IsJsWhitespace(s[k])
  }

  /** Neither end of `s` is whitespace. */
  predicate Trimmed(s: string) {
    |s| == 0 || (!IsJsWhitespace(s[0]) && !IsJsWhitespace(s[|s| - 1]))
  }

  /** The first position at or after `from` that is not whitespace (or |s|). */
  function SkipWhitespace(s: string, from: nat): (n: nat)
    requires from <= |s|
    ensures from <= n <= |s|
    ensures n < |s| ==> !IsJsWhitespace(s[n])
    decreases |s| - from
  {
    if from < |s| && IsJsWhitespace(s[from]) then SkipWhitespace(s, from + 1) else from
  }

  /** Everything SkipWhitespace passes over is whitespace. */
  lemma {:induction false} SkipWhitespaceSkipsOnlyWhitespace(s: string, from: nat)
    requires from <= |s|
    ensures forall k :: from <= k < SkipWhitespace(s, from) ==> IsJsWhitespace(s[k])
    decreases |s| - from
  {
    if from < |s| && IsJsWhitespace(s[from]) {
      SkipWhitespaceSkipsOnlyWhitespace(s, from + 1);
    }
  }

  /** The last position before `upto` that is not whitespace, plus one (or 0). */
  function BackOverWhitespace(s: string, upto: nat): (n: nat)
    requires upto <= |s|
    ensures n <= upto
    ensures n > 0 ==> !IsJsWhitespace(s[n - 1])
  {
    if upto > 0 && IsJsWhitespace(s[upto - 1]) then BackOverWhitespace(s, upto - 1) else upto
  }

  /** Everything BackOverWhitespace passes over is whitespace. */
  lemma {:induction false} BackOverWhitespaceSkipsOnlyWhitespace(s: string, upto: nat)
    requires upto <= |s|
    ensures forall k :: BackOverWhitespace(s, upto) <= k < upto ==> IsJsWhitespace(s[k])
  {
    if upto > 0 && IsJsWhitespace(s[upto - 1]) {
      BackOverWhitespaceSkipsOnlyWhitespace(s, upto - 1);
    }
  }

  /** `String.prototype.trim`: the longest slice of `s` with no whitespace at either end. */
  function Trim(s: string): (r: string)
    ensures Trimmed(r)
    ensures |r| <= |s|
    ensures Trimmed(s) ==> r == s
    ensures r == [] <==> AllWhitespace(s)
    ensures exists a, b :: 0 <= a <= b <= |s| && r == s[a..b] && AllWhitespace(s[..a]) && AllWhitespace(s[b..])
  {
    var start := SkipWhitespace(s, 0);
    var stop := BackOverWhitespace(s, |s|);
    if start < stop then
      assert !IsJsWhitespace(s[start]);
      assert AllWhitespace(s[..start]) && AllWhitespace(s[stop..]) by {
        SkipWhitespaceSkipsOnlyWhitespace(s, 0);
        BackOverWhitespaceSkipsOnlyWhitespace(s, |s|);
      }
      s[start..stop]
    else
      assert AllWhitespace(s) by {
        SkipWhitespaceSkipsOnlyWhitespace(s, 0);
        BackOverWhitespaceSkipsOnlyWhitespace(s, |s|);
      }
      assert s[..0] == [] == s[0..0] && s[0..] == s;
      []
  }

  /** Trimming whitespace laid around a trimmed text gives exactly that text. */
  lemma TrimRemovesPadding(pre: string, m: string, post: string)
    requires AllWhitespace(pre) && AllWhitespace(post) && Trimmed(m)
    ensures Trim(pre + m + post) == m
  {
    var s := pre + m + post;
    var i, j := |pre|, |pre| + |m|;
    assert s[..i] == pre && s[i..j] == m && s[j..] == post;
    if m == [] {
      assert AllWhitespace(s) by {
        forall k | 0 <= k < |s|
          ensures IsJsWhitespace(s[k])
        {
          if k < i { assert s[k] == s[..i][k]; } else { assert s[k] == s[j..][k - j]; }
        }
      }
    } else {
      TrimOfPaddedSlice(s, i, j);
    }
  }

  /** A non-empty trimmed middle with only whitespace on either side is what `trim` keeps. */
  lemma TrimOfPaddedSlice(s: string, i: nat, j: nat)
    requires i < j <= |s|
    requires AllWhitespace(s[..i]) && AllWhitespace(s[j..]) && Trimmed(s[i..j])
    ensures Trim(s) == s[i..j]
  {
    var r := Trim(s);
    assert Trimmed(r);
    var a, b :| 0 <= a <= b <= |s| && r == s[a..b] && AllWhitespace(s[..a]) && AllWhitespace(s[b..]);
    TrimmedSliceIsUnique(s, a, b, i, j);
  }

  /** Two ways of cutting whitespace off both ends of `s` down to a non-empty trimmed middle are the same cut. */
  lemma TrimmedSliceIsUnique(s: string, a: nat, b: nat, i: nat, j: nat)
    requires a <= b <= |s| && i < j <= |s|
    requires AllWhitespace(s[..a]) && AllWhitespace(s[b..]) && Trimmed(s[a..b])
    requires AllWhitespace(s[..i]) && AllWhitespace(s[j..]) && Trimmed(s[i..j])
    ensures a == i && b == j
  {
    assert s[i..j][0] == s[i] && s[i..j][j - i - 1] == s[j - 1];
    assert a <= i < j <= b;
    assert s[a..b][0] == s[a] && s[a..b][b - a - 1] == s[b - 1];
  }

  // ---------------------------------------------------------------------
  // Prefixes and ASCII case folding
  // ---------------------------------------------------------------------

  predicate StartsWith(s: string, prefix: string) {
    |prefix| <= |s| && s[..|prefix|] == prefix
  }

  /** The canonicalisation of a non-Unicode `/i` regular expression, on the ASCII letters it can equate. */
  function LowerAscii(c: char): (r: char)
    ensures 'A' <= c <= 'Z' ==> 'a' <= r <= 'z' && r as int == c as int + 32
    ensures !('A' <= c <= 'Z') ==> r == c
  {
    if 'A' <= c <= 'Z' then (c as int + 32) as char else c
  }

  predicate StartsWithIgnoringCase(s: string, prefix: string) {
    |prefix| <= |s| && forall i :: 0 <= i < |prefix| ==> LowerAscii(s[i]) == LowerAscii(prefix[i])
  }

  lemma StartsWithIgnoringCaseOfPrefix(prefix: string, rest: string)
    ensures StartsWithIgnoringCase(prefix + rest, prefix)
  {
    assert forall i :: 0 <= i < |prefix| ==> (prefix + rest)[i] == prefix[i];
  }

  // ---------------------------------------------------------------------
  // Searching and slicing
  // ---------------------------------------------------------------------

  /** The first position at or after `from` holding `c`, if any. */
  function IndexFrom(s: string, c: char, from: nat): (r: Option<nat>)
    requires from <= |s|
    ensures r.Some? ==> from <= r.value < |s| && s[r.value] == c
    ensures r.Some? ==> forall k :: from <= k < r.value ==> s[k] != c
    ensures r.None? ==> forall k :: from <= k < |s| ==> s[k] != c
    decreases |s| - from
  {
    if from == |s| then None
    else if s[from] == c then Some(from)
    else IndexFrom(s, c, from + 1)
  }

  /** `s.indexOf(c)`: the first position of `c`, if any. */
  function FirstIndexOf(s: string, c: char): (r: Option<nat>)
    ensures r.Some? ==> r.value < |s| && s[r.value] == c
    ensures r.Some? ==> forall k :: 0 <= k < r.value ==> s[k] != c
    ensures r.None? <==> c !in s
  {
    IndexFrom(s, c, 0)
  }

  /** The last position before `upto` holding `c`, if any. */
  function IndexBefore(s: string, c: char, upto: nat): (r: Option<nat>)
    requires upto <= |s|
    ensures r.Some? ==> r.value < upto && s[r.value] == c
    ensures r.Some? ==> forall k :: r.value < k < upto ==> s[k] != c
    ensures r.None? ==> forall k :: 0 <= k < upto ==> s[k] != c
  {
    if upto == 0 then None
    else if s[upto - 1] == c then Some(upto - 1)
    else IndexBefore(s, c, upto - 1)
  }

  /** `s.lastIndexOf(c)`: the last position of `c`, if any. */
  function LastIndexOf(s: string, c: char): (r: Option<nat>)
    ensures r.Some? ==> r.value < |s| && s[r.value] == c
    ensures r.Some? ==> forall k :: r.value < k < |s| ==> s[k] != c
    ensures r.None? <==> c !in s
  {
    IndexBefore(s, c, |s|)
  }

  /** `s.replace(c, "")` with a one-character pattern: only the first occurrence goes. */
  function RemoveFirst(s: string, c: char): (r: string)
    ensures |s| > 0 && s[0] == c ==> r == s[1..]
  {
    if |s| == 0 then s
    else if s[0] == c then s[1..]
    else [s[0]] + RemoveFirst(s[1..], c)
  }

  /** RemoveFirst cuts out exactly the occurrence `indexOf` finds, and changes nothing when there is none. */
  lemma {:induction false} RemoveFirstSplices(s: string, c: char)
    ensures FirstIndexOf(s, c).None? ==> RemoveFirst(s, c) == s
    ensures FirstIndexOf(s, c).Some? ==>
              var i := FirstIndexOf(s, c).value;
              RemoveFirst(s, c) == s[..i] + s[i + 1..]
  {
    if |s| > 0 && s[0] != c {
      RemoveFirstSplices(s[1..], c);
      match FirstIndexOf(s[1..], c)
      case None =>
        assert FirstIndexOf(s, c).None?;
        assert [s[0]] + s[1..] == s;
      case Some(i) =>
        assert FirstIndexOf(s, c) == Some(i + 1);
        assert [s[0]] + (s[1..][..i] + s[1..][i + 1..]) == s[..i + 1] + s[i + 2..];
    }
  }

  function ClampIndex(i: int, len: nat): (r: nat)
    ensures r <= len
  {
    if i < 0 then 0 else if i > len then len else i
  }

  /** `s.substring(start, end)`: both indices clamped to the string, swapped when out of order. */
  function Substring(s: string, start: int, end: int): (r: string)
    ensures 0 <= start <= end <= |s| ==> r == s[start..end]
    ensures 0 <= end <= start <= |s| ==> r == s[end..start]
    ensures 0 <= start <= |s| <= end ==> r == s[start..]
    ensures start <= 0 && end <= 0 ==> r == []
    ensures |s| <= start && |s| <= end ==> r == []
    ensures |r| <= |s|
  {
    var a := ClampIndex(start, |s|);
    var b := ClampIndex(end, |s|);
    if a <= b then s[a..b] else s[b..a]
  }

  /** The order of the two indices does not matter. */
  lemma SubstringSwaps(s: string, start: int, end: int)
    ensures Substring(s, start, end) == Substring(s, end, start)
  {
  }

  /** An index outside the string acts as the nearer end of it. */
  lemma SubstringClamps(s: string, start: int, end: int)
    ensures Substring(s, start, end) == Substring(s, ClampIndex(start, |s|), ClampIndex(end, |s|))
  {
  }

  lemma SubstringExamples()
    ensures Substring("abc", 2, 4) == "c"
    ensures Substring("abc", 4, 2) == "c"
    ensures Substring("abc", -1, 2) == "ab"
  {
  }

  // ---------------------------------------------------------------------
  // Hexadecimal parsing: parseInt(s, 16)
  // ---------------------------------------------------------------------

  predicate IsHexDigit(c: char) {
    ('0' <= c <= '9') || ('a' <= c <= 'f') || ('A' <= c <= 'F')
  }

  /** The value of a hex digit; a character that is not one is given 0 and is never asked for. */
  function HexDigitValue(c: char): (r: nat)
    ensures r < 16
  {
    if '0' <= c <= '9' then c as int - '0' as int
    else if 'a' <= c <= 'f' then c as int - 'a' as int + 10
    else if 'A' <= c <= 'F' then c as int - 'A' as int + 10
    else 0
  }

  /** The value of `s[start..stop]` read as hex digits, most significant first. */
  function HexValue(s: string, start: nat, stop: nat): (r: nat)
    requires start <= stop <= |s|
    ensures stop - start <= 1 ==> r < 16
    ensures stop - start <= 2 ==> r < 256
    decreases stop
  {
    if stop == start then 0 else 16 * HexValue(s, start, stop - 1) + HexDigitValue(s[stop - 1])
  }

  /** The first position at or after `from` that is not a hex digit (or |s|). */
  function HexRunEnd(s: string, from: nat): (n: nat)
    requires from <= |s|
    ensures from <= n <= |s|
    ensures n < |s| ==> !IsHexDigit(s[n])
    decreases |s| - from
  {
    if from < |s| && IsHexDigit(s[from]) then HexRunEnd(s, from + 1) else from
  }

  /** Everything HexRunEnd passes over is a hex digit. */
  lemma {:induction false} HexRunIsDigits(s: string, from: nat)
    requires from <= |s|
    ensures forall i :: from <= i < HexRunEnd(s, from) ==> IsHexDigit(s[i])
    decreases |s| - from
  {
    if from < |s| && IsHexDigit(s[from]) {
      HexRunIsDigits(s, from + 1);
    }
  }

  /** Where the digits start once an optional `0x`/`0X` at `from` is passed over. */
  function AfterHexPrefix(s: string, from: nat): (k: nat)
    requires from <= |s|
    ensures from <= k <= |s|
  {
    if from + 1 < |s| && s[from] == '0' && (s[from + 1] == 'x' || s[from + 1] == 'X') then from + 2 else from
  }

  /**
   * `parseInt(s, 16)`: leading whitespace is skipped, one sign is read, an
   * `0x`/`0X` prefix is passed over, and the longest run of hex digits that
   * follows is the value; with no digit at all the result is `NaN` (None).
   */
  function ParseIntHex(s: string): (r: Option<int>)
    ensures |s| <= 2 && r.Some? ==> -255 <= r.value <= 255
    ensures r.Some? ==> exists i :: 0 <= i < |s| && IsHexDigit(s[i])
    ensures |s| == 1 && IsHexDigit(s[0]) ==> r == Some(HexDigitValue(s[0]))
    ensures |s| == 2 && IsHexDigit(s[0]) && IsHexDigit(s[1]) ==> r == Some(16 * HexDigitValue(s[0]) + HexDigitValue(s[1]))
  {
    var i := SkipWhitespace(s, 0);
    var negative := i < |s| && s[i] == '-';
    var j := if i < |s| && (s[i] == '-' || s[i] == '+') then i + 1 else i;
    var k := AfterHexPrefix(s, j);
    var e := HexRunEnd(s, k);
    if e == k then None
    else
      assert IsHexDigit(s[k]);
      if 1 <= |s| <= 2 && IsHexDigit(s[0]) && (|s| == 1 || IsHexDigit(s[1])) then
        HexDigitIsNotWhitespace(s[0]);
        assert i == 0 && j == 0 && k == 0 && e == |s|;
        assert HexValue(s, 0, 1) == HexDigitValue(s[0]);
        Some(HexValue(s, k, e))
      else if negative then Some(0 - HexValue(s, k, e))
      else Some(HexValue(s, k, e))
  }

  /** The lower-case hex digit of a value below 16. */
  function HexDigitChar(d: nat): (c: char)
    requires d < 16
    ensures IsHexDigit(c) && HexDigitValue(c) == d
  {
    if d < 10 then (d + '0' as int) as char else (d - 10 + 'a' as int) as char
  }

  /** The two lower-case hex digits of a byte value. */
  function HexPair(n: nat): (r: string)
    requires n < 256
    ensures |r| == 2 && IsHexDigit(r[0]) && IsHexDigit(r[1])
  {
    [HexDigitChar(n / 16), HexDigitChar(n % 16)]
  }

  lemma HexDigitIsNotWhitespace(c: char)
    requires IsHexDigit(c)
    ensures !IsJsWhitespace(c) && c != '-' && c != '+'
  {
  }

  // ---------------------------------------------------------------------
  // Number to string
  // ---------------------------------------------------------------------

  function DigitChar(d: nat): (c: char)
    requires d < 10
    ensures '0' <= c <= '9'
  {
    (d + '0' as int) as char
  }

  predicate IsDecimal(s: string) {
    |s| > 0 && forall i :: 0 <= i < |s| ==> '0' <= s[i] <= '9'
  }

  /** The value a string of decimal digits denotes. */
  function DecimalValue(s: string): nat
    requires forall i :: 0 <= i < |s| ==> '0' <= s[i] <= '9'
  {
    if |s| == 0 then 0 else 10 * DecimalValue(s[..|s| - 1]) + (s[|s| - 1] as int - '0' as int)
  }

  /** The shortest decimal spelling of a non-negative integer (no leading zero). */
  function NatToDecimal(n: nat): (r: string)
    ensures IsDecimal(r)
    ensures |r| > 1 ==> r[0] != '0'
    ensures r[0] == '0' <==> n == 0
  {
    if n < 10 then [DigitChar(n)] else NatToDecimal(n / 10) + [DigitChar(n % 10)]
  }

  lemma {:induction false} NatToDecimalRoundTrip(n: nat)
    ensures DecimalValue(NatToDecimal(n)) == n
  {
    if n >= 10 {
      var front := NatToDecimal(n / 10);
      var r := front + [DigitChar(n % 10)];
      assert r[..|r| - 1] == front;
      NatToDecimalRoundTrip(n / 10);
    }
  }

  /** Digits that do not start with `0` denote a positive number. */
  lemma {:induction false} LeadingDigitMakesPositive(s: string)
    requires IsDecimal(s) && s[0] != '0'
    ensures DecimalValue(s) > 0
    decreases |s|
  {
    if |s| > 1 {
      var front := s[..|s| - 1];
      assert front[0] == s[0];
      LeadingDigitMakesPositive(front);
    }
  }

  /**
   * A decimal spelling without a leading zero is the one NatToDecimal
   * prints, so the contracts that promise such a spelling fix the text.
   */
  lemma {:induction false} DecimalSpellingIsUnique(s: string)
    requires IsDecimal(s) && (|s| > 1 ==> s[0] != '0')
    ensures s == NatToDecimal(DecimalValue(s))
    decreases |s|
  {
    if |s| > 1 {
      var front := s[..|s| - 1];
      var d := s[|s| - 1] as int - '0' as int;
      assert front[0] == s[0];
      LeadingDigitMakesPositive(front);
      DecimalSpellingIsUnique(front);
      var n := DecimalValue(s);
      assert n == 10 * DecimalValue(front) + d;
      assert n / 10 == DecimalValue(front) && n % 10 == d;
      assert s == front + [s[|s| - 1]];
    }
  }

  /** Template-literal formatting of a number that is an integer or `NaN`. */
  function FormatNumber(v: Option<int>): (r: string)
    ensures v.None? ==> r == "NaN"
    ensures v.Some? && v.value >= 0 ==> IsDecimal(r) && DecimalValue(r) == v.value && (|r| > 1 ==> r[0] != '0')
    ensures v.Some? && v.value < 0 ==> |r| > 1 && r[0] == '-' && IsDecimal(r[1..]) && DecimalValue(r[1..]) == -v.value && r[1] != '0'
  {
    match v
    case None => "NaN"
    case Some(n) =>
      if n >= 0 then
        NatToDecimalRoundTrip(n);
        NatToDecimal(n)
      else
        NatToDecimalRoundTrip(-n);
        assert ("-" + NatToDecimal(-n))[1..] == NatToDecimal(-n);
        "-" + NatToDecimal(-n)
  }
}

/** The JavaScript string operations the application relies on, over `seq<char>`:
    `split` on one character, `join`, `trim`, ASCII case mapping, `includes`,
    `endsWith`, decimal formatting of integers and `parseInt`. */
module Strings {
  import opened Common

  /** JavaScript's WhiteSpace and LineTerminator code points: what `String.prototype.trim` strips. */
  predicate IsWhitespace(c: char) {
    || c == ' ' || c == '\t' || c == '\n' || c == '\r' || c == '\U{000B}' || c == '\U{000C}'
    || c == '\U{00A0}' || c == '\U{FEFF}' || c == '\U{1680}' || ('\U{2000}' <= c <= '\U{200A}')
    || c == '\U{2028}' || c == '\U{2029}' || c == '\U{202F}' || c == '\U{205F}' || c == '\U{3000}'
  }

  /** A string made of whitespace only (the empty string included). */
  predicate IsBlank(s: string) {
    forall i :: 0 <= i < |s| ==> IsWhitespace(s[i])
  }

  /** The first position at or after `i` that does not hold whitespace (`|s|` when none does). */
  function SkipBlanks(s: string, i: nat): (n: nat)
    requires i <= |s|
    ensures i <= n <= |s|
    ensures forall k :: i <= k < n ==> IsWhitespace(s[k])
    ensures n < |s| ==> !IsWhitespace(s[n])
    decreases |s| - i
  {
    if i < |s| && IsWhitespace(s[i]) then SkipBlanks(s, i + 1) else i
  }

  /** The end of `s[..j]` once its trailing whitespace is dropped. */
  function SkipBlanksBack(s: string, j: nat): (n: nat)
    requires j <= |s|
    ensures n <= j
    ensures forall k :: n <= k < j ==> IsWhitespace(s[k])
    ensures n > 0 ==> !IsWhitespace(s[n - 1])
  {
    if j > 0 && IsWhitespace(s[j - 1]) then SkipBlanksBack(s, j - 1) else j
  }

  /** `s.trimStart()`: the suffix of `s` left after its leading whitespace. */
  function TrimStart(s: string): string {
    s[SkipBlanks(s, 0)..]
  }

  /** `s.trimEnd()`: the prefix of `s` left after its trailing whitespace. */
  function TrimEnd(s: string): string {
    s[..SkipBlanksBack(s, |s|)]
  }

  /** `s.trim()`: empty exactly when `s` is blank, otherwise neither end is whitespace. */
  function Trim(s: string): (r: string)
    ensures |r| <= |s|
    ensures r == [] <==> IsBlank(s)
    ensures r != [] ==> !IsWhitespace(r[0]) && !IsWhitespace(r[|r| - 1])
  {
    var i := SkipBlanks(s, 0);
    var t := s[i..];
    var j := SkipBlanksBack(t, |t|);
    assert i < |s| ==> j > 0 by {
      if i < |s| {
        assert t[0] == s[i];
      }
    }
    assert IsBlank(s) <==> i == |s|;
    assert j > 0 ==> t[..j][0] == s[i];
    TrimEnd(TrimStart(s))
  }

  /** Trimming only removes characters: what is left was in the string. */
  lemma TrimWithin(s: string)
    ensures forall c :: c in Trim(s) ==> c in s
  {
    var i := SkipBlanks(s, 0);
    var t := s[i..];
    var r := t[..SkipBlanksBack(t, |t|)];
    assert Trim(s) == r;
    forall c | c in r ensures c in s {
      var k :| 0 <= k < |r| && r[k] == c;
      assert s[i + k] == c;
    }
  }

  /** Position of the first occurrence of `c` in `s`. */
  function IndexOf(s: string, c: char): (i: nat)
    requires c in s
    ensures i < |s| && s[i] == c && c !in s[..i]
  {
    IndexFrom(s, c, 0)
  }

  /** Position of the first occurrence of `c` in `s` at or after position `start`. */
  function IndexFrom(s: string, c: char, start: nat): (i: nat)
    requires start <= |s| && c in s[start..]
    ensures start <= i < |s| && s[i] == c
    ensures forall k :: start <= k < i ==> s[k] != c
    decreases |s| - start
  {
    if s[start] == c then start
    else
      assert s[start..] == [s[start]] + s[start + 1..];
      IndexFrom(s, c, start + 1)
  }

  /** `s.split(c)` for a one-character separator: never empty, and no piece holds the separator. */
  function Split(s: string, c: char): (r: seq<string>)
    ensures |r| >= 1
    ensures forall i :: 0 <= i < |r| ==> c !in r[i]
    decreases |s|
  {
    if c !in s then [s]
    else
      var i := IndexOf(s, c);
      [s[..i]] + Split(s[i + 1..], c)
  }

  /** `parts.join(sep)`. */
  function Join(parts: seq<string>, sep: string): string
  {
    if |parts| == 0 then ""
    else if |parts| == 1 then parts[0]
    else parts[0] + sep + Join(parts[1..], sep)
  }

  /** A character found in neither the parts nor the separator is not in their join. */
  lemma {:induction false} JoinAvoids(parts: seq<string>, sep: string, c: char)
    requires c !in sep
    requires forall i :: 0 <= i < |parts| ==> c !in parts[i]
    ensures c !in Join(parts, sep)
  {
    if |parts| > 1 {
      JoinAvoids(parts[1..], sep, c);
    }
  }

  /** Joining the pieces of a split with the same separator gives back the string. */
  lemma {:induction false} JoinSplit(s: string, c: char)
    ensures Join(Split(s, c), [c]) == s
    decreases |s|
  {
    if c in s {
      var i := IndexOf(s, c);
      JoinSplit(s[i + 1..], c);
      var rest := Split(s[i + 1..], c);
      assert Split(s, c) == [s[..i]] + rest;
      assert ([s[..i]] + rest)[1..] == rest;
      assert s == s[..i] + [c] + s[i + 1..];
    }
  }

  /** Splitting a join recovers the parts, provided no part contains the separator. */
  lemma {:induction false} SplitJoin(parts: seq<string>, c: char)
    requires |parts| >= 1
    requires forall i :: 0 <= i < |parts| ==> c !in parts[i]
    ensures Split(Join(parts, [c]), c) == parts
  {
    if |parts| > 1 {
      var head := parts[0];
      var tail := Join(parts[1..], [c]);
      var s := head + [c] + tail;
      assert Join(parts, [c]) == s;
      assert s[..|head|] == head && s[|head| + 1..] == tail;
      SplitAt(s, c, |head|);
      SplitJoin(parts[1..], c);
      assert parts == [head] + parts[1..];
    }
  }

  /** Words without spaces joined by single spaces split back into the words. */
  lemma SplitJoinedWords(words: seq<string>)
    requires |words| >= 1
    requires forall i :: 0 <= i < |words| ==> ' ' !in words[i]
    ensures Split(Join(words, " "), ' ') == words
  {
    assert " " == [' '];
    SplitJoin(words, ' ');
  }

  /** A string whose first separator is at position `i` splits into `s[..i]` and the pieces
      of what follows the separator. */
  lemma SplitAt(s: string, c: char, i: nat)
    requires i < |s| && s[i] == c && c !in s[..i]
    ensures Split(s, c) == [s[..i]] + Split(s[i + 1..], c)
  {
    var j := IndexOf(s, c);
    assert s[j] == c && c !in s[..j];
    assert j == i;
  }

  function LowerChar(c: char): char {
    if 'A' <= c <= 'Z' then (c as int + 32) as char else c
  }

  function UpperChar(c: char): char {
    if 'a' <= c <= 'z' then (c as int - 32) as char else c
  }

  /** `s.toLowerCase()`, restricted to the ASCII letters. */
  function ToLower(s: string): string {
    seq(|s|, i requires 0 <= i < |s| => LowerChar(s[i]))
  }

  /** `s.toUpperCase()`, restricted to the ASCII letters. */
  function ToUpper(s: string): string {
    seq(|s|, i requires 0 <= i < |s| => UpperChar(s[i]))
  }

  predicate StartsWith(s: string, prefix: string) {
    |prefix| <= |s| && s[..|prefix|] == prefix
  }

  /** `s.endsWith(suffix)`. */
  predicate EndsWith(s: string, suffix: string) {
    |suffix| <= |s| && s[|s| - |suffix|..] == suffix
  }

  /** `s.includes(p)`: `p` occurs somewhere in `s`. */
  predicate Contains(s: string, p: string)
    decreases |s|
  {
    StartsWith(s, p) || (s != [] && Contains(s[1..], p))
  }

  /** The empty query occurs in every string. */
  lemma ContainsEmpty(s: string)
    ensures Contains(s, "")
  {
    assert StartsWith(s, "");
  }

  /** `s.toLowerCase().includes(query.toLowerCase())`: the search test of the list pages. */
  predicate MatchesQuery(s: string, query: string) {
    Contains(ToLower(s), ToLower(query))
  }

  /** The empty search matches every string. */
  lemma EmptyQueryMatches(s: string)
    ensures MatchesQuery(s, "")
  {
    ContainsEmpty(ToLower(s));
  }

  /** `s[0]` inside a template string: the first character, or the text `undefined` for an
      empty string. */
  function FirstLetter(s: string): string {
    if s == [] then "undefined" else [s[0]]
  }

  /** Upper-casing two characters upper-cases each. */
  lemma ToUpperPair(a: char, b: char)
    ensures ToUpper([a, b]) == [UpperChar(a), UpperChar(b)]
  {
  }

  /** Upper-casing twice is upper-casing once. */
  lemma ToUpperIdempotent(s: string)
    ensures ToUpper(ToUpper(s)) == ToUpper(s)
  {
  }

  /** `s.substring(0, n)`: the first `n` characters, or all of `s` if it is shorter. */
  function Take(s: string, n: nat): (r: string)
    ensures |r| == if |s| < n then |s| else n
    ensures r == s[..|r|]
  {
    if |s| < n then s else s[..n]
  }

  /** A character outside the Basic Multilingual Plane, which JavaScript stores as a
      surrogate pair of two UTF-16 code units. */
  predicate IsAstral(c: char) {
    c > '\U{FFFF}'
  }

  /** `s.length`: the number of UTF-16 code units, two for an astral character and one for
      any other. */
  function Utf16Length(s: string): (n: nat)
    ensures |s| <= n <= 2 * |s|
    ensures n == |s| <==> forall i :: 0 <= i < |s| ==> !IsAstral(s[i])
  {
    if s == [] then 0
    else
      assert forall i :: 1 <= i < |s| ==> s[i] == s[1..][i - 1];
      (if IsAstral(s[0]) then 2 else 1) + Utf16Length(s[1..])
  }

  /** A single astral character already has length two. */
  lemma AstralCharIsTwoUnits(c: char)
    requires IsAstral(c)
    ensures Utf16Length([c]) == 2
    ensures |[c]| == 1
  {
  }

  predicate IsDigit(c: char) {
    '0' <= c <= '9'
  }

  predicate IsDigits(s: string) {
    forall i :: 0 <= i < |s| ==> IsDigit(s[i])
  }

  function DigitChar(d: nat): char
    requires d < 10
  {
    ('0' as int + d) as char
  }

  /** The decimal numeral of `n` (`${n}` in a template string): digits only, no leading zero. */
  function NatToDecimal(n: nat): (r: string)
    ensures r != [] && IsDigits(r)
    ensures |r| > 1 ==> r[0] != '0'
  {
    if n < 10 then [DigitChar(n)]
    else
      var prefix := NatToDecimal(n / 10);
      assert prefix[0] != '0' by {
        if |prefix| == 1 {
          assert prefix == [DigitChar(n / 10)];
        }
      }
      prefix + [DigitChar(n % 10)]
  }

  /** The value of a decimal numeral. */
  function DecimalValue(s: string): nat
    requires IsDigits(s)
  {
    if s == [] then 0
    else 10 * DecimalValue(s[..|s| - 1]) + (s[|s| - 1] as int - '0' as int)
  }

  /** Reading back the numeral of `n` gives `n`. */
  lemma {:induction false} DecimalRoundTrip(n: nat)
    ensures DecimalValue(NatToDecimal(n)) == n
  {
    if n >= 10 {
      DecimalRoundTrip(n / 10);
      var s := NatToDecimal(n);
      assert s[..|s| - 1] == NatToDecimal(n / 10);
    }
  }

  /** Distinct numbers have distinct numerals, so `${n}` ids are unique when the numbers are. */
  lemma NatToDecimalInjective(m: nat, n: nat)
    ensures NatToDecimal(m) == NatToDecimal(n) ==> m == n
  {
    DecimalRoundTrip(m);
    DecimalRoundTrip(n);
  }

  /** `String(i)` for an integer-valued JavaScript number. */
  function IntToDecimal(i: int): string {
    if i < 0 then "-" + NatToDecimal(-i) else NatToDecimal(i)
  }

  /** The end of the run of decimal digits that starts at position `i`. */
  function DigitRunEnd(s: string, i: nat): (n: nat)
    requires i <= |s|
    ensures i <= n <= |s|
    ensures forall k :: i <= k < n ==> IsDigit(s[k])
    ensures n < |s| ==> !IsDigit(s[n])
    decreases |s| - i
  {
    if i < |s| && IsDigit(s[i]) then DigitRunEnd(s, i + 1) else i
  }

  /** The longest prefix of `s` made of decimal digits. */
  function DigitPrefix(s: string): (r: string)
    ensures IsDigits(r) && StartsWith(s, r)
    ensures |r| == |s| || !IsDigit(s[|r|])
  {
    s[..DigitRunEnd(s, 0)]
  }

  predicate IsHexDigit(c: char) {
    IsDigit(c) || 'a' <= c <= 'f' || 'A' <= c <= 'F'
  }

  function HexDigitValue(c: char): (d: nat)
    requires IsHexDigit(c)
    ensures d < 16
  {
    if IsDigit(c) then c as int - '0' as int
    else if 'a' <= c <= 'f' then c as int - 'a' as int + 10
    else c as int - 'A' as int + 10
  }

  /** The end of the run of hexadecimal digits that starts at position `i`. */
  function HexRunEnd(s: string, i: nat): (n: nat)
    requires i <= |s|
    ensures i <= n <= |s|
    ensures forall k :: i <= k < n ==> IsHexDigit(s[k])
    ensures n < |s| ==> !IsHexDigit(s[n])
    decreases |s| - i
  {
    if i < |s| && IsHexDigit(s[i]) then HexRunEnd(s, i + 1) else i
  }

  /** The value of a hexadecimal numeral. */
  function HexValue(s: string): nat
    requires forall i :: 0 <= i < |s| ==> IsHexDigit(s[i])
  {
    if s == [] then 0
    else 16 * HexValue(s[..|s| - 1]) + HexDigitValue(s[|s| - 1])
  }

  /** The `0x`/`0X` prefix with which `parseInt` without a radix switches to base 16. */
  predicate HasHexPrefix(s: string) {
    |s| >= 2 && s[0] == '0' && (s[1] == 'x' || s[1] == 'X')
  }

  /** `parseInt(s)` without a radix: leading whitespace, an optional sign, then either `0x`
      or `0X` and the longest run of hexadecimal digits, or the longest run of decimal
      digits; `None` stands for `NaN` (no digit at all). */
  function ParseInt(s: string): Option<int>
  {
    var t := TrimStart(s);
    var negative := t != [] && t[0] == '-';
    var unsigned := if t != [] && (t[0] == '-' || t[0] == '+') then t[1..] else t;
    var magnitude: Option<nat> :=
      if HasHexPrefix(unsigned) then
        var n := HexRunEnd(unsigned[2..], 0);
        if n == 0 then None else Some(HexValue(unsigned[2..][..n]))
      else
        var digits := DigitPrefix(unsigned);
        if digits == [] then None else Some(DecimalValue(digits));
    match magnitude
    case None => None
    case Some(m) =>
      var v: int := if negative then -(m as int) else m;
      Some(v)
  }

  /** `parseInt` reads `0x` followed by hexadecimal digits as a hexadecimal numeral. */
  lemma ParseIntReadsHex(h: string)
    requires h != [] && forall i :: 0 <= i < |h| ==> IsHexDigit(h[i])
    ensures ParseInt("0x" + h) == Some(HexValue(h))
  {
    var s := "0x" + h;
    assert SkipBlanks(s, 0) == 0;
    assert TrimStart(s) == s;
    assert s[2..] == h;
    assert HexRunEnd(h, 0) == |h|;
    assert h[..|h|] == h;
  }

  /** `parseInt` reads back every integer `IntToDecimal` writes. */
  lemma ParseIntRoundTrip(i: int)
    ensures ParseInt(IntToDecimal(i)) == Some(i)
  {
    var n: nat := if i < 0 then -i else i;
    var numeral := NatToDecimal(n);
    DecimalRoundTrip(n);
    DigitsArePrefix(numeral);
    if i < 0 {
      var s := "-" + numeral;
      assert !HasHexPrefix(numeral) by { assert |numeral| >= 2 ==> IsDigit(numeral[1]); }
      assert SkipBlanks(s, 0) == 0;
      assert TrimStart(s) == s;
      assert s[1..] == numeral;
    } else {
      assert !IsWhitespace(numeral[0]) by { assert IsDigit(numeral[0]); }
      assert SkipBlanks(numeral, 0) == 0;
      assert TrimStart(numeral) == numeral;
      assert numeral[0] != '-' && numeral[0] != '+' by { assert IsDigit(numeral[0]); }
      assert !HasHexPrefix(numeral) by { assert |numeral| >= 2 ==> IsDigit(numeral[1]); }
    }
  }

  lemma DigitsArePrefix(s: string)
    requires IsDigits(s)
    ensures DigitPrefix(s) == s
  {
    assert DigitRunEnd(s, 0) == |s|;
  }

  /** `a < b` as JavaScript compares strings: character by character, a proper prefix first. */
  predicate LessThan(a: string, b: string)
    decreases |a|
  {
    |b| > 0 && (|a| == 0 || a[0] < b[0] || (a[0] == b[0] && LessThan(a[1..], b[1..])))
  }

  lemma {:induction false} LessThanIrreflexive(a: string)
    ensures !LessThan(a, a)
    decreases |a|
  {
    if |a| > 0 {
      LessThanIrreflexive(a[1..]);
    }
  }

  lemma {:induction false} LessThanTransitive(a: string, b: string, c: string)
    requires LessThan(a, b) && LessThan(b, c)
    ensures LessThan(a, c)
    decreases |a|
  {
    if |a| > 0 && a[0] == b[0] && b[0] == c[0] {
      LessThanTransitive(a[1..], b[1..], c[1..]);
    }
  }

  lemma LessThanAsymmetric(a: string, b: string)
    ensures !(LessThan(a, b) && LessThan(b, a))
  {
    if LessThan(a, b) && LessThan(b, a) {
      LessThanTransitive(a, b, a);
      LessThanIrreflexive(a);
    }
  }

  /** Any two distinct strings are ordered one way or the other. */
  lemma {:induction false} LessThanTotal(a: string, b: string)
    ensures a == b || LessThan(a, b) || LessThan(b, a)
    decreases |a|
  {
    if |a| > 0 && |b| > 0 && a[0] == b[0] {
      LessThanTotal(a[1..], b[1..]);
      if a[1..] == b[1..] {
        assert a == [a[0]] + a[1..] && b == [b[0]] + b[1..];
      }
    }
  }

  /** Every element is smaller than every later one: sorted ascending, without repeats. */
  predicate StrictlySorted(xs: seq<string>) {
    forall i, j :: 0 <= i < j < |xs| ==> LessThan(xs[i], xs[j])
  }

  /** Places `x` in a strictly sorted list (nothing changes when it is already there). */
  function InsertSorted(x: string, xs: seq<string>): (r: seq<string>)
    requires StrictlySorted(xs)
    ensures StrictlySorted(r)
    ensures forall y :: y in r <==> y == x || y in xs
    ensures x !in xs ==> |r| == |xs| + 1
  {
    if xs == [] then [x]
    else if x == xs[0] then xs
    else if LessThan(x, xs[0]) then
      forall j | 0 < j < |xs| ensures LessThan(x, xs[j]) {
        LessThanTransitive(x, xs[0], xs[j]);
      }
      [x] + xs
    else
      LessThanTotal(x, xs[0]);
      var rest := InsertSorted(x, xs[1..]);
      assert forall y :: y in rest ==> LessThan(xs[0], y) by {
        forall y | y in rest ensures LessThan(xs[0], y) {
          if y != x {
            var j :| 0 <= j < |xs[1..]| && xs[1..][j] == y;
            assert xs[j + 1] == y;
          }
        }
      }
      [xs[0]] + rest
  }

  /** `xs.sort()` for a list without repeats: the same strings, in ascending order. */
  function Sort(xs: seq<string>): (r: seq<string>)
    requires NoDuplicates(xs)
    ensures StrictlySorted(r)
    ensures |r| == |xs|
    ensures forall y :: y in r <==> y in xs
  {
    if xs == [] then []
    else
      assert NoDuplicates(xs[1..]);
      assert xs[0] !in xs[1..] by {
        forall k | 0 <= k < |xs[1..]| ensures xs[1..][k] != xs[0] {
          assert xs[1..][k] == xs[k + 1];
        }
      }
      InsertSorted(xs[0], Sort(xs[1..]))
  }

  /** A strictly sorted list holds no repeats. */
  lemma SortedHasNoDuplicates(xs: seq<string>)
    requires StrictlySorted(xs)
    ensures NoDuplicates(xs)
  {
    forall i, j | 0 <= i < j < |xs| ensures xs[i] != xs[j] {
      if xs[i] == xs[j] {
        LessThanIrreflexive(xs[i]);
      }
    }
  }
}

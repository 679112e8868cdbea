/**
 * The java.lang.String, Integer and Scanner behaviour that the transport parsers rely on:
 * literal splitting with limit 0 and -1, literal replacement, trim, isBlank and Scanner line
 * splitting as Java does them; Integer.parseInt and the case mappings on ASCII characters only.
 */
module JavaStrings {
  import opened Wrappers

  const INT_MIN: int := -0x8000_0000
  const INT_MAX: int := 0x7FFF_FFFF

  predicate IsInt32(n: int) { INT_MIN <= n <= INT_MAX }

  /** A value of Java's `int` type. */
  type Int32 = n: int | INT_MIN <= n <= INT_MAX

  predicate StartsWith(s: string, prefix: string) {
    |prefix| <= |s| && s[..|prefix|] == prefix
  }

  predicate EndsWith(s: string, suffix: string) {
    |suffix| <= |s| && s[|s| - |suffix|..] == suffix
  }

  /** `s.contains(part)`. */
  predicate Contains(s: string, part: string)
    decreases |s|
  {
    StartsWith(s, part) || (|s| > 0 && Contains(s[1..], part))
  }

  /** No character of `s` is `c`. */
  predicate Avoids(s: string, c: char) {
    forall i :: 0 <= i < |s| ==> s[i] != c
  }

  // ---------------------------------------------------------------------------------------
  // Splitting on a literal delimiter
  // ---------------------------------------------------------------------------------------

  /**
   * `s.split(quote(d), -1)`: the pieces between the leftmost non-overlapping occurrences of `d`,
   * keeping empty pieces everywhere.
   */
  function SplitAll(s: string, d: string): (parts: seq<string>)
    requires |d| > 0
    ensures |parts| >= 1
    decreases |s|
  {
    if |s| < |d| then [s]
    else if s[..|d|] == d then [""] + SplitAll(s[|d|..], d)
    else
      var rest := SplitAll(s[1..], d);
      [[s[0]] + rest[0]] + rest[1..]
  }

  /** The pieces separated by `d`; the inverse of `SplitAll`. */
  function Join(parts: seq<string>, d: string): string
    requires |parts| >= 1
  {
    if |parts| == 1 then parts[0] else parts[0] + d + Join(parts[1..], d)
  }

  /** Drops the empty strings at the end of `parts`, as `split` with limit 0 does. */
  function DropTrailingEmpty(parts: seq<string>): (r: seq<string>)
    ensures |r| <= |parts| && r == parts[..|r|]
    ensures r == [] || r[|r| - 1] != ""
    ensures forall i :: |r| <= i < |parts| ==> parts[i] == ""
  {
    if |parts| > 0 && parts[|parts| - 1] == "" then DropTrailingEmpty(parts[..|parts| - 1]) else parts
  }

  /**
   * `s.split(quote(d))`, i.e. limit 0: when `d` does not occur the result is `[s]` (so `""` gives
   * `[""]`); otherwise the pieces with trailing empty pieces removed.
   */
  function Split(s: string, d: string): (parts: seq<string>)
    requires |d| > 0
  {
    var all := SplitAll(s, d);
    if |all| == 1 then all else DropTrailingEmpty(all)
  }

  lemma {:induction false} SplitAllJoin(s: string, d: string)
    requires |d| > 0
    ensures Join(SplitAll(s, d), d) == s
    decreases |s|
  {
    if |s| < |d| {
    } else if s[..|d|] == d {
      SplitAllJoin(s[|d|..], d);
      var rest := SplitAll(s[|d|..], d);
      assert SplitAll(s, d) == [""] + rest;
      assert ([""] + rest)[1..] == rest;
      assert s == s[..|d|] + s[|d|..];
    } else {
      SplitAllJoin(s[1..], d);
      var rest := SplitAll(s[1..], d);
      var parts := [[s[0]] + rest[0]] + rest[1..];
      assert SplitAll(s, d) == parts;
      if |rest| == 1 {
        assert s == [s[0]] + s[1..];
      } else {
        assert parts[1..] == rest[1..];
        assert Join(rest, d) == rest[0] + d + Join(rest[1..], d);
        assert s == [s[0]] + s[1..];
      }
    }
  }

  /** Without the delimiter's first character, nothing is split off. */
  lemma {:induction false} SplitAllNoMatch(s: string, d: string)
    requires |d| > 0 && Avoids(s, d[0])
    ensures SplitAll(s, d) == [s]
    decreases |s|
  {
    if |s| >= |d| {
      assert s[..|d|][0] != d[0];
      SplitAllNoMatch(s[1..], d);
      assert [s[0]] + s[1..] == s;
    }
  }

  /** A leading piece free of the delimiter's first character is split off exactly. */
  lemma {:induction false} SplitAllConcat(a: string, d: string, b: string)
    requires |d| > 0 && Avoids(a, d[0])
    ensures SplitAll(a + d + b, d) == [a] + SplitAll(b, d)
    decreases |a|
  {
    var s := a + d + b;
    if a == [] {
      assert s == d + b && s[..|d|] == d && s[|d|..] == b;
    } else {
      assert s[..|d|][0] == a[0];
      assert s[1..] == a[1..] + d + b;
      SplitAllConcat(a[1..], d, b);
      assert [a[0]] + a[1..] == a;
    }
  }

  /** Splitting the join of pieces that avoid the delimiter's first character gives the pieces back. */
  lemma {:induction false} SplitAllOfJoin(parts: seq<string>, d: string)
    requires |d| > 0 && |parts| >= 1
    requires forall i :: 0 <= i < |parts| ==> Avoids(parts[i], d[0])
    ensures SplitAll(Join(parts, d), d) == parts
    decreases |parts|
  {
    if |parts| == 1 {
      SplitAllNoMatch(parts[0], d);
    } else {
      SplitAllOfJoin(parts[1..], d);
      SplitAllConcat(parts[0], d, Join(parts[1..], d));
      assert [parts[0]] + parts[1..] == parts;
    }
  }

  /** The same for `split` with limit 0, when the last piece is not empty. */
  lemma SplitOfJoin(parts: seq<string>, d: string)
    requires |d| > 0 && |parts| >= 1 && parts[|parts| - 1] != ""
    requires forall i :: 0 <= i < |parts| ==> Avoids(parts[i], d[0])
    ensures Split(Join(parts, d), d) == parts
  {
    SplitAllOfJoin(parts, d);
  }

  /** Splitting `a + d + b` on a delimiter that neither piece mentions gives exactly the two pieces. */
  lemma SplitTwo(a: string, d: string, b: string)
    requires |d| > 0 && Avoids(a, d[0]) && Avoids(b, d[0]) && b != ""
    ensures SplitAll(a + d + b, d) == [a, b]
    ensures Split(a + d + b, d) == [a, b]
  {
    SplitAllConcat(a, d, b);
    SplitAllNoMatch(b, d);
  }

  /** Splitting `a + d + b + d + c` gives the three pieces. */
  lemma SplitThree(a: string, b: string, c: string, d: string)
    requires |d| > 0 && Avoids(a, d[0]) && Avoids(b, d[0]) && Avoids(c, d[0]) && c != ""
    ensures Split(a + d + b + d + c, d) == [a, b, c]
  {
    var s := a + d + b + d + c;
    assert s == a + d + (b + d + c);
    SplitAllConcat(a, d, b + d + c);
    SplitAllConcat(b, d, c);
    SplitAllNoMatch(c, d);
    var all := [a] + ([b] + [c]);
    assert SplitAll(s, d) == all;
    assert all == [a, b, c];
    assert DropTrailingEmpty(all) == all;
  }

  // ---------------------------------------------------------------------------------------
  // Literal replacement and case
  // ---------------------------------------------------------------------------------------

  /** `s.replace(target, replacement)`: left to right, non-overlapping. */
  function Replace(s: string, target: string, replacement: string): string
    requires |target| > 0
    decreases |s|
  {
    if |s| < |target| then s
    else if s[..|target|] == target then replacement + Replace(s[|target|..], target, replacement)
    else [s[0]] + Replace(s[1..], target, replacement)
  }

  /** Text that never mentions the target's first character is left as it is. */
  lemma {:induction false} ReplaceAvoided(s: string, target: string, replacement: string)
    requires |target| > 0 && Avoids(s, target[0])
    ensures Replace(s, target, replacement) == s
    decreases |s|
  {
    if |s| >= |target| {
      assert s[..|target|][0] != target[0];
      ReplaceAvoided(s[1..], target, replacement);
    }
  }

  /** A prefix that never mentions the target's first character is copied through unchanged. */
  lemma {:induction false} ReplaceAvoidingPrefix(a: string, b: string, target: string, replacement: string)
    requires |target| > 0 && Avoids(a, target[0])
    ensures Replace(a + b, target, replacement) == a + Replace(b, target, replacement)
    decreases |a|
  {
    if a == [] {
      assert a + b == b;
    } else {
      var s := a + b;
      ReplaceAvoidingPrefix(a[1..], b, target, replacement);
      if |s| < |target| {
        assert |b| < |target|;
      } else {
        assert s[..|target|] != target by {
          assert s[..|target|][0] == a[0];
        }
        assert s[1..] == a[1..] + b;
        calc {
          Replace(s, target, replacement);
          [a[0]] + Replace(a[1..] + b, target, replacement);
          [a[0]] + (a[1..] + Replace(b, target, replacement));
          { assert [a[0]] + a[1..] == a; }
          a + Replace(b, target, replacement);
        }
      }
    }
  }

  /**
   * Pieces that are not empty and avoid `c`, joined by `c`, never hold `c` twice in a row, so
   * replacing the doubled `c` changes nothing.
   */
  lemma {:induction false} ReplaceDoubledInJoin(parts: seq<string>, c: char, replacement: string)
    requires |parts| >= 1
    requires forall i :: 0 <= i < |parts| ==> parts[i] != "" && Avoids(parts[i], c)
    ensures Replace(Join(parts, [c]), [c, c], replacement) == Join(parts, [c])
    decreases |parts|
  {
    if |parts| == 1 {
      ReplaceAvoided(parts[0], [c, c], replacement);
    } else {
      var rest := Join(parts[1..], [c]);
      ReplaceDoubledInJoin(parts[1..], c, replacement);
      assert parts[0] + [c] + rest == parts[0] + ([c] + rest);
      ReplaceAvoidingPrefix(parts[0], [c] + rest, [c, c], replacement);
      assert rest[0] == parts[1][0] != c by {
        JoinStartsWithFirst(parts[1..], [c]);
      }
      var t := [c] + rest;
      assert t[..2] != [c, c] by {
        assert t[..2][1] == rest[0];
      }
      assert t[1..] == rest;
    }
  }

  lemma JoinStartsWithFirst(parts: seq<string>, d: string)
    requires |parts| >= 1 && parts[0] != ""
    ensures Join(parts, d) != "" && Join(parts, d)[0] == parts[0][0]
  {
  }

  /** Every character of a join comes from a piece or from the delimiter. */
  lemma {:induction false} JoinChars(parts: seq<string>, d: string, ok: char -> bool)
    requires |parts| >= 1
    requires forall i, j :: 0 <= i < |parts| && 0 <= j < |parts[i]| ==> ok(parts[i][j])
    requires forall j :: 0 <= j < |d| ==> ok(d[j])
    ensures forall k :: 0 <= k < |Join(parts, d)| ==> ok(Join(parts, d)[k])
    decreases |parts|
  {
    if |parts| > 1 {
      JoinChars(parts[1..], d, ok);
      var rest := Join(parts[1..], d);
      var s := parts[0] + d + rest;
      forall k | 0 <= k < |s|
        ensures ok(s[k])
      {
        if k < |parts[0]| {
          assert s[k] == parts[0][k];
        } else if k < |parts[0]| + |d| {
          assert s[k] == d[k - |parts[0]|];
        } else {
          assert s[k] == rest[k - |parts[0]| - |d|];
          assert ok(rest[k - |parts[0]| - |d|]);
        }
      }
    }
  }

  /** Removing every occurrence of a single character leaves none. */
  lemma {:induction false} ReplaceRemovesChar(s: string, c: char)
    ensures Avoids(Replace(s, [c], ""), c)
    decreases |s|
  {
    if |s| >= 1 {
      ReplaceRemovesChar(s[1..], c);
    }
  }

  function UpperAscii(c: char): char {
    if 'a' <= c <= 'z' then (c as int - 32) as char else c
  }

  function LowerAscii(c: char): char {
    if 'A' <= c <= 'Z' then (c as int + 32) as char else c
  }

  /**
   * Whether `equalsIgnoreCase` takes `c` for the lower-case ASCII letter `letter`: it compares
   * `Character.toUpperCase` of both, then `Character.toLowerCase` of those, so besides the letter
   * in either case it takes the dotted and dotless i, the Kelvin sign and the long s.
   */
  predicate SameLetterIgnoringCase(c: char, letter: char)
    requires 'a' <= letter <= 'z'
  {
    || c == letter
    || c == UpperAscii(letter)
    || (letter == 'i' && (c == '\U{130}' || c == '\U{131}'))
    || (letter == 'k' && c == '\U{212A}')
    || (letter == 's' && c == '\U{17F}')
  }

  /** `toUpperCase()` restricted to ASCII letters. */
  function ToUpperAscii(s: string): (r: string)
    ensures |r| == |s| && forall i :: 0 <= i < |s| ==> r[i] == UpperAscii(s[i])
  {
    seq(|s|, i requires 0 <= i < |s| => UpperAscii(s[i]))
  }

  /** `toLowerCase()` restricted to ASCII letters. */
  function ToLowerAscii(s: string): (r: string)
    ensures |r| == |s| && forall i :: 0 <= i < |s| ==> r[i] == LowerAscii(s[i])
  {
    seq(|s|, i requires 0 <= i < |s| => LowerAscii(s[i]))
  }

  // ---------------------------------------------------------------------------------------
  // Whitespace
  // ---------------------------------------------------------------------------------------

  /** `Character.isWhitespace`. */
  predicate IsWhitespace(c: char) {
    c == ' ' || c == '\t' || c == '\n' || c == '\U{000B}' || c == '\U{000C}' || c == '\r'
    || ('\U{001C}' <= c <= '\U{001F}')
    || c == '\U{1680}' || ('\U{2000}' <= c <= '\U{2006}') || ('\U{2008}' <= c <= '\U{200A}')
    || c == '\U{2028}' || c == '\U{2029}' || c == '\U{205F}' || c == '\U{3000}'
  }

  /** `s.isBlank()`. */
  predicate IsBlank(s: string) {
    forall i :: 0 <= i < |s| ==> IsWhitespace(s[i])
  }

  function TrimStart(s: string): (r: string)
    ensures |r| <= |s| && r == s[|s| - |r|..]
    ensures r == [] || r[0] > ' '
  {
    if |s| > 0 && s[0] <= ' ' then TrimStart(s[1..]) else s
  }

  function TrimEnd(s: string): (r: string)
    ensures |r| <= |s| && r == s[..|r|]
    ensures r == [] || r[|r| - 1] > ' '
  {
    if |s| > 0 && s[|s| - 1] <= ' ' then TrimEnd(s[..|s| - 1]) else s
  }

  /** `s.trim()`: removes every character up to U+0020 from both ends. */
  function Trim(s: string): (r: string)
    ensures r == [] || (r[0] > ' ' && r[|r| - 1] > ' ')
  {
    TrimEnd(TrimStart(s))
  }

  /** `s.indexOf(c)`: the first index holding `c`, or -1. */
  function IndexOf(s: string, c: char): (k: int)
    ensures -1 <= k < |s|
    ensures k == -1 <==> Avoids(s, c)
    ensures k >= 0 ==> s[k] == c && Avoids(s[..k], c)
  {
    if |s| == 0 then -1
    else if s[0] == c then 0
    else var k := IndexOf(s[1..], c); if k == -1 then -1 else k + 1
  }

  // ---------------------------------------------------------------------------------------
  // Scanner lines
  // ---------------------------------------------------------------------------------------

  predicate IsLineTerminator(c: char) {
    c == '\n' || c == '\r' || c == '\U{2028}' || c == '\U{2029}' || c == '\U{0085}'
  }

  /** Index of the first line terminator, or |s|. */
  function LineEnd(s: string): (k: nat)
    ensures k <= |s| && (k < |s| ==> IsLineTerminator(s[k]))
    ensures forall i :: 0 <= i < k ==> !IsLineTerminator(s[i])
  {
    if |s| == 0 || IsLineTerminator(s[0]) then 0 else LineEnd(s[1..]) + 1
  }

  /**
   * The lines a Scanner returns through `hasNextLine`/`nextLine`: text between terminators
   * ("\r\n" counts as one), with no empty line after a final terminator.
   */
  function Lines(s: string): (lines: seq<string>)
    ensures forall i :: 0 <= i < |lines| ==> forall j :: 0 <= j < |lines[i]| ==> !IsLineTerminator(lines[i][j])
    decreases |s|
  {
    if s == [] then []
    else
      var k := LineEnd(s);
      if k == |s| then [s]
      else
        var skip := if s[k] == '\r' && k + 1 < |s| && s[k + 1] == '\n' then 2 else 1;
        [s[..k]] + Lines(s[k + skip..])
  }

  // ---------------------------------------------------------------------------------------
  // Integer.parseInt and its inverse
  // ---------------------------------------------------------------------------------------

  predicate IsDigit(c: char) { '0' <= c <= '9' }

  predicate AllDigits(s: string) { forall i :: 0 <= i < |s| ==> IsDigit(s[i]) }

  function DigitsValue(ds: string): nat
    requires AllDigits(ds)
  {
    if ds == [] then 0 else DigitsValue(ds[..|ds| - 1]) * 10 + (ds[|ds| - 1] as int - '0' as int)
  }

  /**
   * `Integer.parseInt(s)`: an optional '+' or '-', then at least one decimal digit, and a value
   * in the 32-bit range; anything else is a NumberFormatException (`None`).
   */
  function ParseInt(s: string): (r: Option<int>)
    ensures r.Some? ==> IsInt32(r.value)
    ensures s == [] ==> r == None
  {
    if |s| == 0 then None
    else
      var start := if s[0] == '-' || s[0] == '+' then 1 else 0;
      var ds := s[start..];
      if |ds| == 0 || !AllDigits(ds) then None
      else
        var v: int := if s[0] == '-' then -(DigitsValue(ds) as int) else DigitsValue(ds);
        if IsInt32(v) then Some(v) else None
  }

  function DigitChar(d: nat): char
    requires d < 10
  {
    ('0' as int + d) as char
  }

  function NatToString(n: nat): (s: string)
    ensures |s| >= 1 && AllDigits(s)
  {
    if n < 10 then [DigitChar(n)] else NatToString(n / 10) + [DigitChar(n % 10)]
  }

  /** `Integer.toString(n)`: the decimal text `parseInt` reads back. */
  function IntToString(n: int): (s: string)
    ensures |s| >= 1
  {
    if n < 0 then "-" + NatToString(-n) else NatToString(n)
  }

  lemma {:induction false} NatToStringValue(n: nat)
    ensures DigitsValue(NatToString(n)) == n
  {
    if n >= 10 {
      NatToStringValue(n / 10);
      var s := NatToString(n);
      assert s[..|s| - 1] == NatToString(n / 10);
    }
  }

  /** The characters `IntToString` can produce: digits and a leading minus sign. */
  predicate IsNumeral(s: string) {
    forall i :: 0 <= i < |s| ==> IsDigit(s[i]) || (i == 0 && s[i] == '-')
  }

  lemma IntToStringNumeral(n: int)
    ensures IsNumeral(IntToString(n))
  {
  }

  /** A numeral avoids every character that is neither a digit nor '-'. */
  lemma NumeralAvoids(s: string, c: char)
    requires IsNumeral(s) && !IsDigit(c) && c != '-'
    ensures Avoids(s, c)
  {
  }

  /** Round trip: every 32-bit value is read back from its decimal text. */
  lemma ParseIntToString(n: int)
    requires IsInt32(n)
    ensures ParseInt(IntToString(n)) == Some(n)
  {
    var m := if n < 0 then -n else n;
    NatToStringValue(m);
    if n < 0 {
      assert IntToString(n)[1..] == NatToString(m);
    }
  }
}

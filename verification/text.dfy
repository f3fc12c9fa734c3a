/** String primitives with the semantics of the JavaScript built-ins the
    service relies on: `String.prototype.trim`, `includes`, `startsWith`,
    `padStart(2, "0")`, decimal `String(n)` for integers, and `length`
    counted in UTF-16 code units. */
module Text {

  /** The characters JavaScript's `trim` removes and `\s` matches: the
      WhiteSpace and LineTerminator productions of ECMAScript (tab, vertical tab,
      form feed, space, no-break space, BOM, the Zs separators, LF, CR, LS, PS). */
  predicate IsWhitespace(c: char) {
    || c == '\t' || c == '\n' || c == '\U{B}' || c == '\U{C}' || c == '\r'
    || c == ' ' || c == '\U{A0}' || c == '\U{1680}'
    || ('\U{2000}' <= c <= '\U{200A}')
    || c == '\U{2028}' || c == '\U{2029}' || c == '\U{202F}' || c == '\U{205F}'
    || c == '\U{3000}' || c == '\U{FEFF}'
  }

  predicate AllWhitespace(s: string) {
    forall k | 0 <= k < |s| :: IsWhitespace(s[k])
  }

  /** Number of whitespace characters at the front of `s`. */
  function LeadingWhitespace(s: string): (n: nat)
    ensures n <= |s|
    ensures AllWhitespace(s[..n])
    ensures n < |s| ==> !IsWhitespace(s[n])
  {
    if |s| == 0 || !IsWhitespace(s[0]) then 0
    else
      var n := 1 + LeadingWhitespace(s[1..]);
      assert s[..n] == [s[0]] + s[1..][..n - 1];
      n
  }

  /** Number of whitespace characters at the back of `s`. */
  function TrailingWhitespace(s: string): (n: nat)
    ensures n <= |s|
    ensures AllWhitespace(s[|s| - n..])
    ensures n < |s| ==> !IsWhitespace(s[|s| - n - 1])
  {
    if |s| == 0 || !IsWhitespace(s[|s| - 1]) then 0
    else
      var init := s[..|s| - 1];
      var n := 1 + TrailingWhitespace(init);
      assert s == init + [s[|s| - 1]];
      assert s[|s| - n..] == init[|init| - (n - 1)..] + [s[|s| - 1]];
      n
  }

  /** `s.trim()`: `s` with its leading and trailing whitespace removed. The result
      is the infix of `s` left between two all-whitespace margins, and it begins
      and ends with a non-whitespace character unless it is empty. */
  function Trim(s: string): (r: string)
    ensures |r| <= |s|
    ensures exists i :: 0 <= i <= |s| - |r| && s[i..i + |r|] == r
                        && AllWhitespace(s[..i]) && AllWhitespace(s[i + |r|..])
    ensures r == [] <==> AllWhitespace(s)
    ensures r != [] ==> !IsWhitespace(r[0]) && !IsWhitespace(r[|r| - 1])
  {
    CutWhitespaceTrims(s);
    CutWhitespace(s)
  }

  /** The text left after dropping the whitespace margins of `s`. */
  function CutWhitespace(s: string): string {
    var i := LeadingWhitespace(s);
    s[i..][..|s| - i - TrailingWhitespace(s[i..])]
  }

  /** `CutWhitespace` has the properties `Trim` promises. */
  lemma CutWhitespaceTrims(s: string)
    ensures var r := CutWhitespace(s);
      && |r| <= |s|
      && (exists i :: 0 <= i <= |s| - |r| && s[i..i + |r|] == r
                      && AllWhitespace(s[..i]) && AllWhitespace(s[i + |r|..]))
      && (r == [] <==> AllWhitespace(s))
      && (r != [] ==> !IsWhitespace(r[0]) && !IsWhitespace(r[|r| - 1]))
  {
    var i := LeadingWhitespace(s);
    var j := TrailingWhitespace(s[i..]);
    TrimInfix(s, i, j);
    TrimEnds(s, i, j);
  }

  /** The text between two all-whitespace margins is an infix of `s` framed
      by white space, as `Trim` promises. */
  lemma TrimInfix(s: string, i: nat, j: nat)
    requires i <= |s| && j <= |s| - i
    requires AllWhitespace(s[..i]) && AllWhitespace(s[i..][|s| - i - j..])
    ensures var r := s[i..][..|s| - i - j];
      exists i' :: 0 <= i' <= |s| - |r| && s[i'..i' + |r|] == r
                   && AllWhitespace(s[..i']) && AllWhitespace(s[i' + |r|..])
  {
    WhiteMargins(s, i, j);
  }

  /** When the margins are maximal the text between them is empty only for an
      all-whitespace `s`, and otherwise begins and ends with a character that
      is not white space. */
  lemma TrimEnds(s: string, i: nat, j: nat)
    requires i <= |s| && j <= |s| - i
    requires AllWhitespace(s[..i]) && (i < |s| ==> !IsWhitespace(s[i]))
    requires AllWhitespace(s[i..][|s| - i - j..])
    requires j < |s| - i ==> !IsWhitespace(s[i..][|s| - i - j - 1])
    ensures var r := s[i..][..|s| - i - j];
      && (r == [] <==> AllWhitespace(s))
      && (r != [] ==> !IsWhitespace(r[0]) && !IsWhitespace(r[|r| - 1]))
  {
    var r := s[i..][..|s| - i - j];
    if r == [] {
      WhiteMargins(s, i, j);
    } else {
      assert r[0] == s[i] && r[|r| - 1] == s[i..][|s| - i - j - 1];
      assert !IsWhitespace(s[i]);
    }
  }

  /** Cutting two all-whitespace margins off `s` leaves an infix, and it
      leaves nothing only when all of `s` is white space. */
  lemma WhiteMargins(s: string, i: nat, j: nat)
    requires i <= |s| && j <= |s| - i
    requires AllWhitespace(s[..i]) && AllWhitespace(s[i..][|s| - i - j..])
    ensures var r := s[i..][..|s| - i - j];
      && s[i..i + |r|] == r
      && AllWhitespace(s[i + |r|..])
      && (r == [] ==> AllWhitespace(s))
  {
    var t := s[i..];
    var r := t[..|t| - j];
    assert s[i + |r|..] == t[|t| - j..];
    if r == [] {
      forall k | 0 <= k < |s| ensures IsWhitespace(s[k]) {
        if k < i {
          assert s[..i][k] == s[k];
        } else {
          assert t[|t| - j..][k - i] == s[k];
        }
      }
    }
  }

  /** A string that does not begin or end with whitespace is unchanged by trim. */
  lemma TrimOfTrimmed(s: string)
    requires s != [] ==> !IsWhitespace(s[0]) && !IsWhitespace(s[|s| - 1])
    ensures Trim(s) == s
  {
  }

  /** Trim is idempotent. */
  lemma TrimIdempotent(s: string)
    ensures Trim(Trim(s)) == Trim(s)
  {
    TrimOfTrimmed(Trim(s));
  }

  /** `sub` occurs in `s` starting at index `i`. */
  predicate OccursAt(s: string, sub: string, i: int) {
    0 <= i && i + |sub| <= |s| && s[i..i + |sub|] == sub
  }

  /** `s.includes(sub)`. */
  predicate Includes(s: string, sub: string) {
    exists i | 0 <= i <= |s| - |sub| :: OccursAt(s, sub, i)
  }

  /** A string lacking the first character of `sub` does not include it. */
  lemma AbsentHead(s: string, sub: string)
    requires |sub| > 0 && sub[0] !in s
    ensures !Includes(s, sub)
  {
    forall i | 0 <= i <= |s| - |sub| ensures !OccursAt(s, sub, i) {
      assert s[i..i + |sub|][0] == s[i];
    }
  }

  /** `s.startsWith(p)`, case-sensitive. */
  predicate StartsWith(s: string, p: string) {
    |p| <= |s| && s[..|p|] == p
  }

  /** A common first part keeps a prefix a prefix. */
  lemma StartsWithAfter(a: string, s: string, p: string)
    requires StartsWith(s, p)
    ensures StartsWith(a + s, a + p)
  {
    assert (a + s)[..|a + p|] == a + s[..|p|];
  }

  /** An occurrence inside a part of a string is an occurrence in the whole. */
  lemma IncludesInfix(s: string, i: int, j: int, sub: string)
    requires 0 <= i <= j <= |s|
    requires Includes(s[i..j], sub)
    ensures Includes(s, sub)
  {
    var k :| 0 <= k <= j - i - |sub| && OccursAt(s[i..j], sub, k);
    forall m | 0 <= m < |sub| ensures s[i + k + m] == sub[m] {
      assert s[i..j][k..k + |sub|][m] == sub[m];
    }
    assert OccursAt(s, sub, i + k);
  }

  predicate IsAsciiDigit(c: char) {
    '0' <= c <= '9'
  }

  predicate AllAsciiDigits(s: string) {
    forall k | 0 <= k < |s| :: IsAsciiDigit(s[k])
  }

  function DigitChar(d: nat): (c: char)
    requires d < 10
    ensures IsAsciiDigit(c)
    ensures c as int - '0' as int == d
  {
    (d + '0' as int) as char
  }

  /** The value of a string of ASCII digits read as a base-10 numeral. */
  function DecimalValue(s: string): nat
    requires AllAsciiDigits(s)
  {
    if s == [] then 0
    else 10 * DecimalValue(s[..|s| - 1]) + (s[|s| - 1] as int - '0' as int)
  }

  /** `String(n)` for a non-negative integer: its shortest base-10 numeral. */
  function NatToDecimal(n: nat): (r: string)
    ensures 1 <= |r|
    ensures AllAsciiDigits(r)
    ensures r[0] == '0' ==> n == 0
    ensures n < 10 <==> |r| == 1
    ensures n < 100 ==> |r| <= 2
    ensures DecimalValue(r) == n
  {
    if n < 10 then [DigitChar(n)]
    else
      var r := NatToDecimal(n / 10) + [DigitChar(n % 10)];
      assert r[..|r| - 1] == NatToDecimal(n / 10);
      r
  }

  /** `String(n)` for an integer: a minus sign before the numeral of `|n|`. */
  function IntToDecimal(n: int): (r: string)
    ensures 1 <= |r|
    ensures n >= 0 ==> r == NatToDecimal(n)
    ensures n < 0 ==> r[0] == '-' && r[1..] == NatToDecimal(-n)
  {
    if n >= 0 then NatToDecimal(n) else "-" + NatToDecimal(-n)
  }

  /** A numeral without leading zeros determines its value and back. */
  lemma {:induction false} DecimalRoundTrip(s: string)
    requires AllAsciiDigits(s) && 1 <= |s| && (s[0] == '0' ==> |s| == 1)
    ensures NatToDecimal(DecimalValue(s)) == s
    decreases |s|
  {
    if |s| > 1 {
      var p := s[..|s| - 1];
      assert p[0] == s[0];
      if p[0] == '0' { assert false; }
      DecimalRoundTrip(p);
      var v := DecimalValue(s);
      assert v / 10 == DecimalValue(p);
      assert NatToDecimal(v) == NatToDecimal(v / 10) + [DigitChar(v % 10)];
      assert s == p + [s[|s| - 1]];
    }
  }

  /** `String(n).padStart(2, "0")`: at least two digits, a zero in front of a
      single-digit numeral. */
  function Pad2(n: nat): (r: string)
    ensures |r| >= 2
    ensures AllAsciiDigits(r)
    ensures n < 100 ==> |r| == 2 && DecimalValue(r) == n
    ensures n >= 10 ==> r == NatToDecimal(n)
  {
    var d := NatToDecimal(n);
    if |d| < 2 then
      assert DecimalValue(['0'] + d) == n by {
        assert (['0'] + d)[..1] == ['0'];
      }
      ['0'] + d
    else d
  }

  /** `s.length` in JavaScript: characters outside the Basic Multilingual Plane
      take two UTF-16 code units. */
  function Utf16Length(s: string): (n: nat)
    ensures |s| <= n <= 2 * |s|
    ensures (forall k | 0 <= k < |s| :: s[k] as int <= 0xFFFF) ==> n == |s|
    ensures |s| == 1 ==> n == if s[0] as int > 0xFFFF then 2 else 1
  {
    if s == [] then 0
    else (if s[0] as int > 0xFFFF then 2 else 1) + Utf16Length(s[1..])
  }

  /** The UTF-16 length of a concatenation is the sum of the lengths, so with
      the length of one character it fixes the length of every string. */
  lemma {:induction false} Utf16LengthConcat(a: string, b: string)
    ensures Utf16Length(a + b) == Utf16Length(a) + Utf16Length(b)
  {
    if a != [] {
      assert (a + b)[1..] == a[1..] + b;
      Utf16LengthConcat(a[1..], b);
    } else {
      assert a + b == b;
    }
  }

  /** A character outside the Basic Multilingual Plane after text inside it
      counts two more code units. */
  lemma Utf16LengthSupplementaryLast(s: string, c: char)
    requires forall k | 0 <= k < |s| :: s[k] as int <= 0xFFFF
    requires c as int > 0xFFFF
    ensures Utf16Length(s + [c]) == |s| + 2
  {
    Utf16LengthConcat(s, [c]);
  }
}

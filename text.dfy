/**
 * The handful of Go string operations the discovery code relies on, written
 * over Dafny strings (sequences of Unicode code points, which is what Go's
 * `range` over a UTF-8 string yields):
 *   - strings.TrimSpace, with unicode.IsSpace as the notion of white space;
 *   - strings.HasPrefix / HasSuffix / TrimPrefix / TrimSuffix;
 *   - strings.Split with a one-character separator, and its inverse Join;
 *   - the decimal rendering of fmt's `%d` for a natural number, and its inverse.
 */
module Text {

  /** unicode.IsSpace: the Latin-1 white space characters plus the rest of
      Unicode's White_Space property. */
  predicate IsSpace(c: char) {
    var n := c as int;
    n == 0x09 || n == 0x0A || n == 0x0B || n == 0x0C || n == 0x0D || n == 0x20 ||
    n == 0x85 || n == 0xA0 || n == 0x1680 || (0x2000 <= n <= 0x200A) ||
    n == 0x2028 || n == 0x2029 || n == 0x202F || n == 0x205F || n == 0x3000
  }

  predicate IsDigit(c: char) {
    '0' <= c <= '9'
  }

  predicate AllSpace(s: string) {
    forall k :: 0 <= k < |s| ==> IsSpace(s[k])
  }

  predicate AllDigits(s: string) {
    forall k :: 0 <= k < |s| ==> IsDigit(s[k])
  }

  // ---------------------------------------------------------------------------
  // TrimSpace

  /** How many white space characters `s` starts with. */
  function LeadingSpace(s: string): (n: nat)
    ensures n <= |s|
    ensures forall k :: 0 <= k < n ==> IsSpace(s[k])
    ensures n < |s| ==> !IsSpace(s[n])
    decreases |s|
  {
    if s != [] && IsSpace(s[0]) then 1 + LeadingSpace(s[1..]) else 0
  }

  /** Where the white space that `s` ends with begins. */
  function TrailingSpace(s: string): (m: nat)
    ensures m <= |s|
    ensures forall k :: m <= k < |s| ==> IsSpace(s[k])
    ensures 0 < m ==> !IsSpace(s[m - 1])
    decreases |s|
  {
    if s != [] && IsSpace(s[|s| - 1]) then TrailingSpace(s[..|s| - 1]) else |s|
  }

  /** Drops the white space at the front of `s`. */
  function TrimLeft(s: string): (r: string)
    ensures r == [] || !IsSpace(r[0])
  {
    s[LeadingSpace(s)..]
  }

  /** Drops the white space at the back of `s`. */
  function TrimRight(s: string): (r: string)
    ensures r == [] || !IsSpace(r[|r| - 1])
  {
    s[..TrailingSpace(s)]
  }

  /** strings.TrimSpace: `s` without its leading and trailing white space;
      the result neither starts nor ends with white space. */
  function TrimSpace(s: string): (r: string)
    ensures |r| <= |s|
    ensures r == [] || (!IsSpace(r[0]) && !IsSpace(r[|r| - 1]))
  {
    TrimRight(TrimLeft(s))
  }

  /** What TrimSpace cuts off is white space, and what it keeps is a slice of the input. */
  lemma {:induction false} TrimSpaceSlice(s: string)
    ensures var r := TrimSpace(s); var i := LeadingSpace(s);
      && i + |r| <= |s| && r == s[i..i + |r|] && AllSpace(s[..i]) && AllSpace(s[i + |r|..])
  {
    var i := LeadingSpace(s);
    var l := s[i..];
    var m := TrailingSpace(l);
    assert TrimLeft(s) == l;
    assert TrimSpace(s) == l[..m];
    assert l[..m] == s[i..i + m];
    assert AllSpace(s[i + m..]) by {
      assert s[i + m..] == l[m..];
    }
  }

  /** A string is trimmed to nothing exactly when it is all white space. */
  lemma {:induction false} TrimSpaceBlank(s: string)
    ensures TrimSpace(s) == [] <==> AllSpace(s)
  {
    var i := LeadingSpace(s);
    var l := s[i..];
    if TrimSpace(s) == [] {
      // All of TrimLeft(s) is trailing white space, so TrimLeft(s) cannot
      // start with a non-space: it is empty, and all of s is leading space.
      assert TrailingSpace(l) == 0;
      assert AllSpace(l);
    }
  }

  /** TrimSpace leaves a string that does not start or end with white space as it is. */
  lemma {:induction false} TrimSpaceKeeps(s: string)
    requires s != [] && !IsSpace(s[0]) && !IsSpace(s[|s| - 1])
    ensures TrimSpace(s) == s
  {
    assert LeadingSpace(s) == 0;
    assert TrimLeft(s) == s;
    assert TrailingSpace(s) == |s|;
  }

  // ---------------------------------------------------------------------------
  // Prefixes and suffixes

  predicate HasPrefix(s: string, p: string) {
    |p| <= |s| && s[..|p|] == p
  }

  predicate HasSuffix(s: string, p: string) {
    |p| <= |s| && s[|s| - |p|..] == p
  }

  /** strings.TrimPrefix: `s` without `p` in front when it starts with `p`. */
  function TrimPrefix(s: string, p: string): (r: string)
    ensures HasPrefix(s, p) ==> p + r == s
    ensures !HasPrefix(s, p) ==> r == s
  {
    if HasPrefix(s, p) then s[|p|..] else s
  }

  /** strings.TrimSuffix: `s` without `p` at the back when it ends with `p`. */
  function TrimSuffix(s: string, p: string): (r: string)
    ensures HasSuffix(s, p) ==> r + p == s
    ensures !HasSuffix(s, p) ==> r == s
  {
    if HasSuffix(s, p) then s[..|s| - |p|] else s
  }

  // ---------------------------------------------------------------------------
  // Split and Join

  /** The number of times `c` occurs in `s`. */
  function Occurrences(s: string, c: char): nat
    decreases |s|
  {
    if s == [] then 0 else (if s[0] == c then 1 else 0) + Occurrences(s[1..], c)
  }

  /** strings.Split(s, string(sep)): the pieces of `s` between the separators.
      There is always one more piece than there are separators (so the empty
      string gives one empty piece), and no piece holds a separator. */
  function Split(s: string, sep: char): (r: seq<string>)
    ensures |r| == Occurrences(s, sep) + 1
    ensures forall i :: 0 <= i < |r| ==> sep !in r[i]
    decreases |s|
  {
    if s == [] then [""]
    else
      var rest := Split(s[1..], sep);
      if s[0] == sep then [""] + rest
      else [[s[0]] + rest[0]] + rest[1..]
  }

  /** strings.Join(parts, string(sep)). */
  function Join(parts: seq<string>, sep: char): string
    decreases |parts|
  {
    if parts == [] then ""
    else if |parts| == 1 then parts[0]
    else parts[0] + [sep] + Join(parts[1..], sep)
  }

  /** Split loses nothing: joining the pieces with the separator gives back the input. */
  lemma {:induction false} JoinSplit(s: string, sep: char)
    ensures Join(Split(s, sep), sep) == s
    decreases |s|
  {
    if s != [] {
      var rest := Split(s[1..], sep);
      JoinSplit(s[1..], sep);
      if s[0] == sep {
        assert Split(s, sep) == [""] + rest;
        assert ([""] + rest)[1..] == rest;
        assert [s[0]] + s[1..] == s;
      } else {
        var parts := [[s[0]] + rest[0]] + rest[1..];
        assert Split(s, sep) == parts;
        if |rest| == 1 {
          assert [s[0]] + s[1..] == s;
        } else {
          assert parts[1..] == rest[1..];
          assert Join(rest, sep) == rest[0] + [sep] + Join(rest[1..], sep);
          assert [s[0]] + s[1..] == s;
        }
      }
    }
  }

  // ---------------------------------------------------------------------------
  // Decimal numerals

  function DigitChar(d: nat): (c: char)
    requires d < 10
    ensures IsDigit(c)
  {
    "0123456789"[d]
  }

  function DigitValue(c: char): int {
    c as int - '0' as int
  }

  /** fmt's `%d` of a natural number: a non-empty string of decimal digits
      without a superfluous leading zero. */
  function NatToString(n: nat): (r: string)
    ensures |r| >= 1 && AllDigits(r)
    ensures r[0] == '0' ==> n == 0
    decreases n
  {
    if n < 10 then [DigitChar(n)] else NatToString(n / 10) + [DigitChar(n % 10)]
  }

  /** The value of a string of decimal digits. */
  function ParseDecimal(s: string): int
    decreases |s|
  {
    if s == [] then 0 else 10 * ParseDecimal(s[..|s| - 1]) + DigitValue(s[|s| - 1])
  }

  /** Reading the rendering of `n` back gives `n`, so the rendering is injective. */
  lemma {:induction false} ParseNatToString(n: nat)
    ensures ParseDecimal(NatToString(n)) == n
    decreases n
  {
    if n >= 10 {
      var s := NatToString(n);
      assert s[..|s| - 1] == NatToString(n / 10);
      ParseNatToString(n / 10);
    }
  }

  /** The longest prefix of `s` made of decimal digits. */
  function LeadingDigits(s: string): (r: string)
    ensures AllDigits(r) && HasPrefix(s, r)
    decreases |s|
  {
    if s != [] && IsDigit(s[0]) then [s[0]] + LeadingDigits(s[1..]) else ""
  }

  /** Digits followed by something that does not start with a digit: the
      leading digit run is exactly those digits. */
  lemma {:induction false} LeadingDigitsOf(d: string, rest: string)
    requires AllDigits(d)
    requires rest != [] && !IsDigit(rest[0])
    ensures LeadingDigits(d + rest) == d
    decreases |d|
  {
    if d == [] {
      assert d + rest == rest;
    } else {
      assert (d + rest)[1..] == d[1..] + rest;
      LeadingDigitsOf(d[1..], rest);
    }
  }
}

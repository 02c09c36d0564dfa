// The JavaScript string operations the application relies on, written out:
// `toLowerCase` (ASCII letters only), `includes`, `trim`, `startsWith`, and the
// decimal rendering of a non-negative integer (`String(n)`, template literals).

module Text {

  predicate IsAsciiUpper(c: char) { 'A' <= c <= 'Z' }

  /** ASCII case folding of one character. */
  function LowerChar(c: char): char {
    if IsAsciiUpper(c) then (c as int - 'A' as int + 'a' as int) as char else c
  }

  /** `s.toLowerCase()`, restricted to the ASCII letters. */
  function Lower(s: string): (r: string)
    ensures |r| == |s|
    ensures forall i :: 0 <= i < |s| ==> r[i] == LowerChar(s[i])
    ensures forall i :: 0 <= i < |r| ==> !IsAsciiUpper(r[i])
  {
    if s == [] then [] else [LowerChar(s[0])] + Lower(s[1..])
  }

  /** `q` occurs in `s` starting at index `i`. */
  predicate OccursAt(s: string, q: string, i: int) {
    0 <= i && i + |q| <= |s| && s[i..i + |q|] == q
  }

  predicate StartsWith(s: string, q: string) {
    |q| <= |s| && s[..|q|] == q
  }

  /** A slice of the tail is the slice one further along. */
  lemma TailSlice(s: string, i: nat, n: nat)
    requires 1 <= |s| && i + n <= |s| - 1
    ensures s[1..][i..i + n] == s[i + 1..i + 1 + n]
  {
  }

  /** `s.includes(q)`, searched left to right. */
  function Includes(s: string, q: string): (r: bool)
    ensures r <==> exists i :: OccursAt(s, q, i)
  {
    if StartsWith(s, q) then (assert OccursAt(s, q, 0); true)
    else if s == [] then false
    else
      var r := Includes(s[1..], q);
      assert forall i :: OccursAt(s[1..], q, i) <==> OccursAt(s, q, i + 1) by {
        forall i ensures OccursAt(s[1..], q, i) <==> OccursAt(s, q, i + 1) {
          if 0 <= i && i + |q| <= |s| - 1 {
            TailSlice(s, i, |q|);
          }
        }
      }
      assert forall i :: OccursAt(s, q, i) ==> i >= 1 || StartsWith(s, q);
      assert (exists i :: OccursAt(s, q, i)) ==> exists i :: OccursAt(s[1..], q, i) by {
        if exists i :: OccursAt(s, q, i) {
          var i :| OccursAt(s, q, i);
          assert OccursAt(s[1..], q, i - 1);
        }
      }
      r
  }

  /** The empty string is included in every string. */
  lemma IncludesEmpty(s: string)
    ensures Includes(s, "")
  {
    assert OccursAt(s, "", 0);
  }

  /**
   * The characters `String.prototype.trim` removes: the ECMAScript WhiteSpace
   * code points (tab, vertical tab, form feed, zero-width no-break space and the
   * Unicode space separators) and the LineTerminator code points.
   */
  predicate IsJsWhitespace(c: char) {
    var n := c as int;
    n == 0x09 || n == 0x0A || n == 0x0B || n == 0x0C || n == 0x0D || n == 0x20 ||
    n == 0xA0 || n == 0x1680 || (0x2000 <= n <= 0x200A) || n == 0x2028 || n == 0x2029 ||
    n == 0x202F || n == 0x205F || n == 0x3000 || n == 0xFEFF
  }

  function TrimStart(s: string): (r: string)
    ensures |r| <= |s| && r == s[|s| - |r|..]
    ensures forall i :: 0 <= i < |s| - |r| ==> IsJsWhitespace(s[i])
    ensures r == [] || !IsJsWhitespace(r[0])
  {
    if s != [] && IsJsWhitespace(s[0]) then TrimStart(s[1..]) else s
  }

  function TrimEnd(s: string): (r: string)
    ensures |r| <= |s| && r == s[..|r|]
    ensures forall i :: |r| <= i < |s| ==> IsJsWhitespace(s[i])
    ensures r == [] || !IsJsWhitespace(r[|r| - 1])
  {
    if s != [] && IsJsWhitespace(s[|s| - 1]) then TrimEnd(s[..|s| - 1]) else s
  }

  /** `s.trim()`: never longer, and neither starting nor ending with whitespace. */
  function Trim(s: string): (r: string)
    ensures |r| <= |s|
    ensures r == [] || (!IsJsWhitespace(r[0]) && !IsJsWhitespace(r[|r| - 1]))
  {
    var t := TrimStart(s);
    var r := TrimEnd(t);
    assert r == [] || r[0] == t[0];
    r
  }

  /** Where the slice `trim` keeps starts in `s`. */
  function TrimStartIndex(s: string): (i: nat)
    ensures i <= |s|
  {
    |s| - |TrimStart(s)|
  }

  /** What `trim` keeps is the slice of `s` from `TrimStartIndex(s)`, `|Trim(s)|` characters long. */
  lemma TrimIsSlice(s: string)
    ensures TrimStartIndex(s) + |Trim(s)| <= |s|
    ensures Trim(s) == s[TrimStartIndex(s)..TrimStartIndex(s) + |Trim(s)|]
  {
    var t, i := TrimStart(s), TrimStartIndex(s);
    SuffixThenPrefix(s, t, i, |Trim(s)|);
  }

  /** Every character before the kept slice is whitespace. */
  lemma TrimDropsLeadingWhitespace(s: string)
    ensures forall k :: 0 <= k < TrimStartIndex(s) ==> IsJsWhitespace(s[k])
  {
  }

  /** Every character after the kept slice is whitespace. */
  lemma TrimDropsTrailingWhitespace(s: string)
    ensures TrimStartIndex(s) + |Trim(s)| <= |s|
    ensures forall k :: TrimStartIndex(s) + |Trim(s)| <= k < |s| ==> IsJsWhitespace(s[k])
  {
    var t, i := TrimStart(s), TrimStartIndex(s);
    SuffixThenPrefix(s, t, i, |Trim(s)|);
  }

  /** What `trim` keeps neither starts nor ends with whitespace. */
  lemma TrimEndsAreNotWhitespace(s: string)
    ensures Trim(s) == [] || (!IsJsWhitespace(Trim(s)[0]) && !IsJsWhitespace(Trim(s)[|Trim(s)| - 1]))
  {
    var t := TrimStart(s);
    if Trim(s) != [] {
      assert Trim(s)[0] == t[0];
    }
  }

  /** `trim` gives the empty string exactly when `s` is all whitespace. */
  lemma TrimEmptyIffAllWhitespace(s: string)
    ensures Trim(s) == [] <==> forall k :: 0 <= k < |s| ==> IsJsWhitespace(s[k])
  {
    TrimIsSlice(s);
    TrimDropsLeadingWhitespace(s);
    TrimDropsTrailingWhitespace(s);
    TrimEndsAreNotWhitespace(s);
    if Trim(s) != [] {
      assert Trim(s)[0] == s[TrimStartIndex(s)];
    }
  }

  /** A prefix of a suffix is a slice, and what follows the prefix in the suffix follows the slice in the whole. */
  lemma SuffixThenPrefix(s: string, t: string, i: nat, n: nat)
    requires i <= |s| && t == s[i..] && n <= |t|
    ensures t[..n] == s[i..i + n]
    ensures forall k :: i + n <= k < |s| ==> s[k] == t[k - i]
  {
  }

  /** Trimming twice is trimming once. */
  lemma TrimIdempotent(s: string)
    ensures Trim(Trim(s)) == Trim(s)
  {
    var u := Trim(s);
    TrimEndsAreNotWhitespace(s);
    assert TrimStart(u) == u;
    assert TrimEnd(u) == u;
  }

  /** The digit character for 0 <= d < 10. */
  function DigitChar(d: nat): char
    requires d < 10
  {
    ('0' as int + d) as char
  }

  predicate IsDigit(c: char) { '0' <= c <= '9' }

  /** The decimal rendering of a non-negative integer, as `String(n)` gives it. */
  function Decimal(n: nat): (r: string)
    ensures |r| >= 1
    ensures forall i :: 0 <= i < |r| ==> IsDigit(r[i])
    ensures |r| > 1 ==> r[0] != '0'
  {
    if n < 10 then [DigitChar(n)] else Decimal(n / 10) + [DigitChar(n % 10)]
  }

  function DigitValue(c: char): nat
    requires IsDigit(c)
  {
    c as int - '0' as int
  }

  /** The value a string of decimal digits denotes. */
  function DigitsValue(s: string): nat
    requires forall i :: 0 <= i < |s| ==> IsDigit(s[i])
  {
    if s == [] then 0 else DigitsValue(s[..|s| - 1]) * 10 + DigitValue(s[|s| - 1])
  }

  /** The decimal rendering reads back as the number it renders. */
  lemma {:induction false} DecimalRoundTrip(n: nat)
    ensures DigitsValue(Decimal(n)) == n
  {
    if n >= 10 {
      DecimalRoundTrip(n / 10);
      var d := Decimal(n);
      assert d[..|d| - 1] == Decimal(n / 10);
    }
  }
}

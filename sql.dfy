// How PostgreSQL reads the positional parameters of a query text: `$`
// followed by one or more decimal digits names the parameter with that
// number. The server's query builders are checked against this reading.

module Sql {
  import opened Text

  /** The longest run of decimal digits at the start of `s`. */
  function LeadingDigits(s: string): (d: string)
    ensures |d| <= |s| && d == s[..|d|]
    ensures forall k :: 0 <= k < |d| ==> IsDigit(d[k])
    ensures |d| == |s| || !IsDigit(s[|d|])
  {
    if s != [] && IsDigit(s[0]) then [s[0]] + LeadingDigits(s[1..]) else []
  }

  /** A run of digits that cannot be extended is the leading-digit run. */
  lemma {:induction false} LeadingDigitsIs(s: string, d: string)
    requires |d| <= |s| && d == s[..|d|]
    requires forall k :: 0 <= k < |d| ==> IsDigit(d[k])
    requires |d| == |s| || !IsDigit(s[|d|])
    ensures LeadingDigits(s) == d
    decreases |d|
  {
    if d != [] {
      assert s[0] == d[0];
      assert d[1..] == s[1..][..|d| - 1];
      assert |d| == |s| || s[1..][|d| - 1] == s[|d|];
      LeadingDigitsIs(s[1..], d[1..]);
    }
  }

  /** The numbers of the parameters `s` refers to, left to right. */
  function Placeholders(s: string): seq<nat>
    decreases |s|
  {
    if s == [] then []
    else if s[0] == '$' && LeadingDigits(s[1..]) != [] then
      var d := LeadingDigits(s[1..]);
      [DigitsValue(d)] + Placeholders(s[1 + |d|..])
    else Placeholders(s[1..])
  }

  /** `s` is empty or starts with something other than a digit, so no digit run can continue into it. */
  predicate NoLeadingDigit(s: string) {
    s == [] || !IsDigit(s[0])
  }

  /** Digits that continue past the end of `a` would be cut off by a non-digit. */
  lemma LeadingDigitsAppend(a: string, b: string)
    requires NoLeadingDigit(b)
    ensures LeadingDigits(a + b) == LeadingDigits(a)
  {
    var d := LeadingDigits(a);
    assert (a + b)[..|d|] == d;
    if |d| < |a| {
      assert (a + b)[|d|] == a[|d|];
    } else if b != [] {
      assert (a + b)[|d|] == b[0];
    }
    LeadingDigitsIs(a + b, d);
  }

  /** How far one step of the reading moves: past `$` and its digits, or past one character. */
  function StepLength(a: string): (n: nat)
    requires a != []
    ensures 1 <= n <= |a|
  {
    if a[0] == '$' && LeadingDigits(a[1..]) != [] then 1 + |LeadingDigits(a[1..])| else 1
  }

  /** The parameter that one step of the reading finds, if any. */
  function StepFound(a: string): seq<nat>
    requires a != []
  {
    if a[0] == '$' && LeadingDigits(a[1..]) != [] then [DigitsValue(LeadingDigits(a[1..]))] else []
  }

  /** The reading of a non-empty text is its first step followed by the reading of the rest. */
  lemma PlaceholdersStep(s: string)
    requires s != []
    ensures Placeholders(s) == StepFound(s) + Placeholders(s[StepLength(s)..])
  {
  }

  /** One step of the reading of `a + b` is the step of the reading of `a`. */
  lemma AppendStep(a: string, b: string)
    requires a != [] && NoLeadingDigit(b)
    ensures Placeholders(a) == StepFound(a) + Placeholders(a[StepLength(a)..])
    ensures Placeholders(a + b) == StepFound(a) + Placeholders(a[StepLength(a)..] + b)
  {
    var ab := a + b;
    var n := StepLength(a);
    assert ab[0] == a[0];
    assert ab[1..] == a[1..] + b;
    LeadingDigitsAppend(a[1..], b);
    assert StepLength(ab) == n && StepFound(ab) == StepFound(a);
    assert ab[n..] == a[n..] + b;
    PlaceholdersStep(a);
    PlaceholdersStep(ab);
  }

  /** Text that does not begin with a digit can be appended without changing the parameters before it. */
  lemma {:induction false} PlaceholdersAppend(a: string, b: string)
    requires NoLeadingDigit(b)
    ensures Placeholders(a + b) == Placeholders(a) + Placeholders(b)
    decreases |a|
  {
    if a == [] {
      assert a + b == b;
    } else {
      PlaceholdersAppend(a[StepLength(a)..], b);
      AppendAfterStep(a, b);
    }
  }

  /** If appending `b` after the rest of `a` keeps the parameters apart, so does appending it after `a`. */
  lemma AppendAfterStep(a: string, b: string)
    requires a != [] && NoLeadingDigit(b)
    requires Placeholders(a[StepLength(a)..] + b) == Placeholders(a[StepLength(a)..]) + Placeholders(b)
    ensures Placeholders(a + b) == Placeholders(a) + Placeholders(b)
  {
    var n, f := StepLength(a), StepFound(a);
    var pa, pb := Placeholders(a[n..]), Placeholders(b);
    AppendStep(a, b);
    Regroup(Placeholders(a + b), f, pa, pb, Placeholders(a));
  }

  lemma Regroup(x: seq<nat>, f: seq<nat>, pa: seq<nat>, pb: seq<nat>, y: seq<nat>)
    requires x == f + (pa + pb) && y == f + pa
    ensures x == y + pb
  {
  }

  /** No `$` anywhere in `s`. */
  predicate DollarFree(s: string) {
    '$' !in s
  }

  /** Text without a `$` refers to no parameter. */
  lemma {:induction false} NoDollarNoPlaceholder(s: string)
    requires DollarFree(s)
    ensures Placeholders(s) == []
    decreases |s|
  {
    if s != [] {
      assert s[0] in s;
      assert forall c :: c in s[1..] ==> c in s;
      NoDollarNoPlaceholder(s[1..]);
    }
  }

  /** `$k`, with k written in decimal, refers to parameter k. */
  lemma PlaceholderOf(k: nat)
    ensures Placeholders("$" + Decimal(k)) == [k]
  {
    var s := "$" + Decimal(k);
    assert s[1..] == Decimal(k);
    LeadingDigitsIs(s[1..], Decimal(k));
    assert s[1 + |Decimal(k)|..] == [];
    DecimalRoundTrip(k);
  }

  /** Text without a `$` in front of `b` adds no parameter. */
  lemma PrefixedPlaceholders(a: string, b: string)
    requires DollarFree(a) && NoLeadingDigit(b)
    ensures Placeholders(a + b) == Placeholders(b)
  {
    PlaceholdersAppend(a, b);
    NoDollarNoPlaceholder(a);
  }

  /** Text without a `$` around `b` adds no parameter. */
  lemma SurroundedPlaceholders(a: string, b: string, c: string)
    requires DollarFree(a) && DollarFree(c) && NoLeadingDigit(b) && NoLeadingDigit(c)
    ensures Placeholders(a + b + c) == Placeholders(b)
  {
    PlaceholdersAppend(a + b, c);
    NoDollarNoPlaceholder(c);
    PrefixedPlaceholders(a, b);
  }

  /** Text without a `$` followed by `$k` refers to parameter k alone. */
  lemma TextThenParameter(a: string, k: nat)
    requires DollarFree(a)
    ensures Placeholders(a + ("$" + Decimal(k))) == [k]
  {
    PrefixedPlaceholders(a, "$" + Decimal(k));
    PlaceholderOf(k);
  }

  /** The numbers start, start + 1, ..., start + n - 1. */
  function Numbering(start: nat, n: nat): (r: seq<nat>)
    ensures |r| == n && forall i :: 0 <= i < n ==> r[i] == start + i
    decreases n
  {
    if n == 0 then [] else [start] + Numbering(start + 1, n - 1)
  }

  /** `parts.join(sep)`. */
  function Join(parts: seq<string>, sep: string): (r: string)
    ensures parts != [] ==> |parts[0]| <= |r| && r[..|parts[0]|] == parts[0]
  {
    if parts == [] then ""
    else if |parts| == 1 then parts[0]
    else
      var r := parts[0] + (sep + Join(parts[1..], sep));
      assert r[..|parts[0]|] == parts[0];
      r
  }
}

/** Numbers in names: writing them, reading them back, and splitting a name into its parts. */
module Decimal {
  import opened Wrappers

  function Digit(d: nat): char
    requires d < 10
  {
    ('0' as int + d) as char
  }

  predicate IsDigit(c: char) {
    '0' <= c <= '9'
  }

  /** `str(n)`. */
  function ToString(n: nat): (s: string)
    ensures s != "" && forall i :: 0 <= i < |s| ==> IsDigit(s[i])
  {
    if n < 10 then [Digit(n)] else ToString(n / 10) + [Digit(n % 10)]
  }

  /** The number the first `n` characters spell. */
  function Value(s: string, n: nat): Option<nat>
    requires n <= |s|
  {
    if n == 0 then Some(0)
    else if !IsDigit(s[n - 1]) then None
    else match Value(s, n - 1)
      case None => None
      case Some(v) => Some(10 * v + (s[n - 1] as int - '0' as int))
  }

  /** `int(text)` for texts of digits; anything else is refused. */
  function ParseInt(s: string): Option<nat> {
    if s == "" then None else Value(s, |s|)
  }

  lemma {:induction false} ValueOfPrefix(s: string, c: char, n: nat)
    requires n <= |s|
    ensures Value(s + [c], n) == Value(s, n)
  {
    if n > 0 { ValueOfPrefix(s, c, n - 1); }
  }

  /** Reading a written number gives it back. */
  lemma {:induction false} ParseOfToString(n: nat)
    ensures ParseInt(ToString(n)) == Some(n)
  {
    if n >= 10 {
      ParseOfToString(n / 10);
      ValueOfPrefix(ToString(n / 10), Digit(n % 10), |ToString(n / 10)|);
      assert Value(ToString(n), |ToString(n)| - 1) == Some(n / 10);
    } else {
      assert Value(ToString(n), 0) == Some(0);
    }
  }

  lemma ToStringIsInjective(m: nat, n: nat)
    ensures ToString(m) == ToString(n) ==> m == n
  {
    ParseOfToString(m);
    ParseOfToString(n);
  }

  // ---- Prefixes ----

  /** What follows the prefix, if it is there. */
  function AfterPrefix(s: string, prefix: string): Option<string> {
    if |prefix| <= |s| && s[..|prefix|] == prefix then Some(s[|prefix|..]) else None
  }

  /** The number behind a prefix. */
  function NumberAfter(s: string, prefix: string): Option<nat> {
    match AfterPrefix(s, prefix)
    case None => None
    case Some(rest) => ParseInt(rest)
  }

  lemma NumberRoundTrip(prefix: string, n: nat)
    ensures AfterPrefix(prefix + ToString(n), prefix) == Some(ToString(n))
    ensures NumberAfter(prefix + ToString(n), prefix) == Some(n)
  {
    ParseOfToString(n);
  }

  // ---- Splitting at ">>>" ----

  const ARROW := ">>>"

  function Split(s: string, from: nat, i: nat): seq<string>
    requires from <= i <= |s|
    decreases |s| - i
  {
    if i == |s| then [s[from..]]
    else if i + 3 <= |s| && s[i..i + 3] == ARROW then [s[from..i]] + Split(s, i + 3, i + 3)
    else Split(s, from, i + 1)
  }

  predicate NoArrow(part: string) {
    forall i :: 0 <= i < |part| ==> part[i] != '>'
  }

  /** Skipping over characters of one part. */
  lemma {:induction false} SkipPart(s: string, from: nat, i: nat, end: nat)
    requires from <= i <= end <= |s| && forall k :: i <= k < end ==> s[k] != '>'
    ensures Split(s, from, i) == Split(s, from, end)
    decreases end - i
  {
    if i < end {
      if i + 3 <= |s| { assert s[i..i + 3][0] == s[i]; }
      SkipPart(s, from, i + 1, end);
    }
  }

  lemma OnePart(s: string, from: nat, end: nat)
    requires from <= end && end + 3 <= |s| && s[end..end + 3] == ARROW && NoArrow(s[from..end])
    ensures Split(s, from, from) == [s[from..end]] + Split(s, end + 3, end + 3)
  {
    forall k | from <= k < end ensures s[k] != '>' { assert s[from..end][k - from] == s[k]; }
    SkipPart(s, from, from, end);
  }

  lemma LastPart(s: string, from: nat)
    requires from <= |s| && NoArrow(s[from..])
    ensures Split(s, from, from) == [s[from..]]
  {
    forall k | from <= k < |s| ensures s[k] != '>' { assert s[from..][k - from] == s[k]; }
    SkipPart(s, from, from, |s|);
  }

  function Name(a: string, b: string, c: string, d: string): string {
    a + ARROW + b + ARROW + c + ARROW + d
  }

  lemma NamePositions(a: string, b: string, c: string, d: string)
    ensures var s, p, q, r := Name(a, b, c, d), |a|, |a| + 3 + |b|, |a| + 6 + |b| + |c|;
      && |s| == r + 3 + |d|
      && s[0..p] == a && s[p + 3..q] == b && s[q + 3..r] == c && s[r + 3..] == d
      && s[p..p + 3] == ARROW && s[q..q + 3] == ARROW && s[r..r + 3] == ARROW
  {
  }

  lemma SplitAtArrows(s: string, from: nat, p: nat, q: nat, r: nat)
    requires from <= p && p + 3 <= q && q + 3 <= r && r + 3 <= |s|
    requires s[p..p + 3] == ARROW && s[q..q + 3] == ARROW && s[r..r + 3] == ARROW
    requires NoArrow(s[from..p]) && NoArrow(s[p + 3..q]) && NoArrow(s[q + 3..r]) && NoArrow(s[r + 3..])
    ensures Split(s, from, from) == [s[from..p], s[p + 3..q], s[q + 3..r], s[r + 3..]]
  {
    OnePart(s, from, p);
    OnePart(s, p + 3, q);
    OnePart(s, q + 3, r);
    LastPart(s, r + 3);
  }

  /** A name of four parts splits into them. */
  lemma SplitName(a: string, b: string, c: string, d: string)
    requires NoArrow(a) && NoArrow(b) && NoArrow(c) && NoArrow(d)
    ensures Split(Name(a, b, c, d), 0, 0) == [a, b, c, d]
  {
    NamePositions(a, b, c, d);
    SplitAtArrows(Name(a, b, c, d), 0, |a|, |a| + 3 + |b|, |a| + 6 + |b| + |c|);
  }

  /** The digits are the decimal ones, most significant first. */
  lemma DecimalDigits(n: nat, high: nat, low: nat)
    requires n == 10 * high + low && low < 10
    ensures high == 0 ==> ToString(n) == ["0123456789"[low]]
    ensures high > 0 ==> ToString(n) == ToString(high) + ["0123456789"[low]]
  {
    assert n / 10 == high && n % 10 == low;
  }
}

/** The string functions of the standard library that the modelled code calls. */
module Text {
  import opened Basics

  predicate StartsWith(s: string, pre: string) {
    |pre| <= |s| && s[..|pre|] == pre
  }

  lemma StartsAlso(s: string, a: string, b: string)
    ensures StartsWith(s, a + b) ==> StartsWith(s, a)
  {
    if StartsWith(s, a + b) {
      assert s[..|a|] == s[..|a + b|][..|a|] == a;
    }
  }

  predicate OccursAt(s: string, pat: string, k: nat) {
    k + |pat| <= |s| && s[k..k + |pat|] == pat
  }

  /** The first place at or after `i` where `pat` occurs. */
  function IndexFrom(s: string, pat: string, i: nat): (r: Option<nat>)
    requires i <= |s|
    ensures r.Some? ==> i <= r.value && OccursAt(s, pat, r.value)
    ensures forall k | i <= k && (r.Some? ==> k < r.value) :: !OccursAt(s, pat, k)
    decreases |s| - i
  {
    if OccursAt(s, pat, i) then Some(i)
    else if i == |s| then None
    else IndexFrom(s, pat, i + 1)
  }

  /** Splits at the first separator, if there is one. */
  function SplitFirst(s: string, sep: string): (string, Option<string>) {
    var at := IndexFrom(s, sep, 0);
    if at.Some? then (s[..at.value], Some(s[at.value + |sep|..])) else (s, None)
  }

  /** Removes the first occurrence of `pat`. */
  function RemoveFirst(s: string, pat: string): string {
    var at := IndexFrom(s, pat, 0);
    if at.Some? then s[..at.value] + s[at.value + |pat|..] else s
  }

  predicate IsDigit(c: char) {
    '0' <= c <= '9'
  }

  function DigitValue(c: char): (d: nat)
    requires IsDigit(c)
    ensures d <= 9
  {
    (c - '0') as int
  }

  const MAX_UINT64: int := 0xFFFF_FFFF_FFFF_FFFF
  const MAX_INT64: int := 0x7FFF_FFFF_FFFF_FFFF

  datatype Digits = Malformed | TooLarge | Value(n: nat)

  /** Reads digits from the left and stops at the first bad character or at an overflow. */
  function ReadDigits(s: string, n: nat): Digits {
    if s == [] then Value(n)
    else if !IsDigit(s[0]) then Malformed
    else if 10 * n + DigitValue(s[0]) > MAX_UINT64 then TooLarge
    else ReadDigits(s[1..], 10 * n + DigitValue(s[0]))
  }

  datatype Number = Number(value: int, ok: bool)

  /** Decimal conversion to a 64-bit integer; out of range it fails but yields the nearest value. */
  function Atoi(s: string): Number {
    var negative := s != [] && s[0] == '-';
    var digits := if s != [] && (s[0] == '-' || s[0] == '+') then s[1..] else s;
    if digits == [] then Number(0, false)
    else
      match ReadDigits(digits, 0)
      case Malformed => Number(0, false)
      case TooLarge => Number(if negative then -MAX_INT64 - 1 else MAX_INT64, false)
      case Value(n) =>
        if negative then (if n > MAX_INT64 + 1 then Number(-MAX_INT64 - 1, false) else Number(0 - n, true))
        else if n > MAX_INT64 then Number(MAX_INT64, false)
        else Number(n, true)
  }

  /** The order of strings, character by character. */
  predicate Less(a: string, b: string) {
    b != [] && (a == [] || a[0] < b[0] || (a[0] == b[0] && Less(a[1..], b[1..])))
  }

  predicate LessEq(a: string, b: string) {
    !Less(b, a)
  }

  lemma {:induction false} LessIsTotal(a: string, b: string)
    ensures Less(a, b) || a == b || Less(b, a)
    ensures !(Less(a, b) && Less(b, a)) && (a == b ==> !Less(a, b))
  {
    if a != [] && b != [] {
      LessIsTotal(a[1..], b[1..]);
      assert a == [a[0]] + a[1..] && b == [b[0]] + b[1..];
    }
  }

  lemma {:induction false} LessIsTransitive(a: string, b: string, c: string)
    requires Less(a, b) && Less(b, c)
    ensures Less(a, c)
  {
    if a != [] && a[0] == b[0] && b[0] == c[0] {
      LessIsTransitive(a[1..], b[1..], c[1..]);
    }
  }
}

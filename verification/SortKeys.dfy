/** The keys by which the merged playlist is sorted. A `char` stands for one byte of a string. */
module SortKeys {
  import opened Basics
  import opened Text

  function Zeros(n: int): string {
    if n <= 0 then "" else "0" + Zeros(n - 1)
  }

  function Digit(d: nat): char
    requires d <= 9
  {
    '0' + d as char
  }

  function Decimal(n: nat): (s: string)
    ensures s != []
  {
    if n < 10 then [Digit(n)] else Decimal(n / 10) + [Digit(n % 10)]
  }

  /** A decimal number padded with zeros to a width that counts the sign. */
  function Padded(n: int, width: int): string {
    if n < 0 then "-" + Zeros(width - 1 - |Decimal(-n)|) + Decimal(-n)
    else Zeros(width - |Decimal(n)|) + Decimal(n)
  }

  /** Two's-complement wrap-around of 64-bit arithmetic. */
  function Wrap64(x: int): int {
    (x + MAX_INT64 + 1) % (MAX_UINT64 + 1) - MAX_INT64 - 1
  }

  const MAX_INT32 := 0x7FFF_FFFF

  const REPLACED := {'/', '\\', ':', '*', '?', '"', '<', '>', '|'}

  predicate IsClean(s: string) {
    forall k | 0 <= k < |s| :: s[k] !in REPLACED && s[k] != ' '
  }

  function Replace(s: string): (r: string)
    ensures IsClean(r)
  {
    if s == [] then []
    else (if s[0] in REPLACED then "_" else if s[0] == ' ' then "" else [s[0]]) + Replace(s[1..])
  }

  const MAX_NAME := 100

  /** A string made fit for a file name, cut at 100 bytes. */
  function SanitizeField(s: string): (r: string)
    ensures |r| <= MAX_NAME && IsClean(r)
  {
    var r := Replace(s);
    if |r| > MAX_NAME then r[..MAX_NAME] else r
  }

  function WithoutSpaces(s: string): string {
    if s == [] then [] else (if s[0] == ' ' then "" else [s[0]]) + WithoutSpaces(s[1..])
  }

  predicate ReplacesEach(s: string, r: string) {
    |r| == |s| && forall k | 0 <= k < |s| :: r[k] == if s[k] in "/\\:*?\"<>|" then '_' else s[k]
  }

  lemma {:induction false} ReplacedEach(s: string)
    ensures ReplacesEach(WithoutSpaces(s), Replace(s))
  {
    if s == [] {
    } else {
      ReplacedEach(s[1..]);
    }
  }

  /** Sanitising drops spaces, turns each forbidden character into an underscore, and keeps the first 100 bytes of that. */
  lemma SanitizedEach(s: string)
    ensures var t := WithoutSpaces(s);
      ReplacesEach(t[..Min(|t|, 100)], SanitizeField(s))
  {
    ReplacedEach(s);
  }

  lemma {:induction false} CleanStays(s: string)
    requires IsClean(s)
    ensures Replace(s) == s
  {
    if s == [] {
    } else {
      CleanStays(s[1..]);
    }
  }

  /** Sanitising once is enough, and what is clean and short is left as it is. */
  lemma SanitizedStays(s: string)
    ensures SanitizeField(SanitizeField(s)) == SanitizeField(s)
    ensures IsClean(s) && |s| <= MAX_NAME ==> SanitizeField(s) == s
  {
    CleanStays(SanitizeField(s));
    if IsClean(s) {
      CleanStays(s);
    }
  }

  function NumericKey(value: string, width: int, direction: string): string {
    var n := Atoi(value);
    if !n.ok then SanitizeField(value)
    else if direction == "desc" then Padded(Wrap64(MAX_INT32 - n.value), width)
    else Padded(n.value, width)
  }

  function StringKey(value: string, direction: string): string {
    if direction == "desc" then "~" + value else SanitizeField(value)
  }

  // ----- Padded numbers compare as numbers -----

  function Pow10(w: nat): (p: nat)
    ensures 0 < p
  {
    if w == 0 then 1 else 10 * Pow10(w - 1)
  }

  /** Exactly `w` digits. */
  function Fixed(n: nat, w: nat): (s: string)
    ensures |s| == w
    decreases w
  {
    if w == 0 then "" else Fixed(n / 10, w - 1) + [Digit(n % 10)]
  }

  lemma {:induction false} ZerosSnoc(n: nat)
    ensures Zeros(n + 1) == Zeros(n) + "0"
  {
    if n == 0 {
    } else {
      ZerosSnoc(n - 1);
    }
  }

  lemma {:induction false} FixedZero(w: nat)
    ensures Fixed(0, w) == Zeros(w)
  {
    if w == 0 {
    } else {
      FixedZero(w - 1);
      ZerosSnoc(w - 1);
    }
  }

  lemma OneDigitLess(n: nat, w: nat)
    requires 10 <= n < Pow10(w) && 0 < w
    ensures 1 < w && n / 10 < Pow10(w - 1)
  {
    assert Pow10(w) == 10 * Pow10(w - 1);
    assert Pow10(0) == 1;
  }

  lemma {:induction false} PaddedIsFixed(n: nat, w: nat)
    requires n < Pow10(w) && 0 < w
    ensures |Decimal(n)| <= w && Padded(n, w) == Fixed(n, w)
    decreases w
  {
    if n < 10 {
      FixedZero(w - 1);
      assert n / 10 == 0 && n % 10 == n;
    } else {
      OneDigitLess(n, w);
      PaddedIsFixed(n / 10, w - 1);
      Regroup(Zeros(w - |Decimal(n)|), Decimal(n / 10), [Digit(n % 10)]);
    }
  }

  lemma {:induction false} LessAtEnd(x: string, y: string, c: char, d: char)
    requires |x| == |y|
    ensures Less(x + [c], y + [d]) <==> Less(x, y) || (x == y && c < d)
  {
    var a, b := x + [c], y + [d];
    if x != [] {
      LessAtEnd(x[1..], y[1..], c, d);
      assert a[1..] == x[1..] + [c] && b[1..] == y[1..] + [d];
      assert x == [x[0]] + x[1..] && y == [y[0]] + y[1..];
    } else {
      assert a == [c] && b == [d] && a[1..] == [] && b[1..] == [];
    }
  }

  lemma {:induction false} FixedCompares(a: nat, b: nat, w: nat)
    requires a < Pow10(w) && b < Pow10(w)
    ensures Less(Fixed(a, w), Fixed(b, w)) <==> a < b
    ensures Fixed(a, w) == Fixed(b, w) <==> a == b
    decreases w
  {
    if w == 0 {
    } else {
      FixedCompares(a / 10, b / 10, w - 1);
      LessAtEnd(Fixed(a / 10, w - 1), Fixed(b / 10, w - 1), Digit(a % 10), Digit(b % 10));
      var x, y := Fixed(a, w), Fixed(b, w);
      assert x[..w - 1] == Fixed(a / 10, w - 1) && y[..w - 1] == Fixed(b / 10, w - 1);
      assert x[w - 1] == Digit(a % 10) && y[w - 1] == Digit(b % 10);
    }
  }

  /** A value a numeric key can order: it reads as a number from 0 to the largest 32-bit integer. */
  predicate IsOrdinal(value: string) {
    var n := Atoi(value);
    n.ok && 0 <= n.value <= 0x7FFF_FFFF
  }

  lemma {:induction false} DecimalFits(n: nat)
    ensures n < Pow10(|Decimal(n)|)
  {
    if n < 10 {
      assert Pow10(1) == 10 * Pow10(0);
    } else {
      DecimalFits(n / 10);
    }
  }

  /** How many digits a key of the given width shows: the width, or more if the number has more. */
  function Digits(n: nat, width: nat): nat {
    Max(width, |Decimal(n)|)
  }

  lemma {:induction false} PowersGrow(v: nat, w: nat)
    requires v <= w
    ensures Pow10(v) <= Pow10(w)
  {
    if v == w {
    } else {
      PowersGrow(v, w - 1);
    }
  }

  lemma PaddedShows(n: nat, width: nat)
    requires 0 < width
    ensures n < Pow10(Digits(n, width)) && Padded(n, width) == Fixed(n, Digits(n, width))
  {
    var d := Digits(n, width);
    DecimalFits(n);
    PowersGrow(|Decimal(n)|, d);
    PaddedIsFixed(n, d);
  }

  /** Dividing by ten first makes no difference. */
  lemma DivideTwice(n: nat, p: nat)
    requires 0 < p
    ensures (n / 10) / p == n / (10 * p)
  {
    var q, r := n / 10, n % 10;
    var q', r' := q / p, q % p;
    assert n == 10 * (p * q' + r') + r;
    assert 10 * (p * q') == (10 * p) * q';
    ModOf(n, 10 * p, q', 10 * r' + r);
  }

  /** What is left of a number without its last `k` digits. */
  function Without(n: nat, k: nat): nat {
    if k == 0 then n else Without(n / 10, k - 1)
  }

  lemma {:induction false} WithoutIsQuotient(n: nat, k: nat)
    ensures Without(n, k) == n / Pow10(k)
  {
    if k == 0 {
      assert Pow10(0) == 1;
    } else {
      WithoutIsQuotient(n / 10, k - 1);
      DivideTwice(n, Pow10(k - 1));
    }
  }

  /** A number that fits `w` digits begins with those that are left without its last ones. */
  lemma {:induction false} BeginsWith(n: nat, w: nat, v: nat)
    requires v <= w && n < Pow10(w)
    ensures Without(n, w - v) < Pow10(v) && Fixed(n, w)[..v] == Fixed(Without(n, w - v), v)
    decreases w
  {
    if v == w {
      assert Fixed(n, w)[..w] == Fixed(n, w);
    } else {
      BeginsWith(n / 10, w - 1, v);
      assert Fixed(n, w)[..v] == Fixed(n / 10, w - 1)[..v];
    }
  }

  /** A string is less than a longer one if it is less than, or is, the beginning of it. */
  lemma {:induction false} LessByPrefix(s: string, t: string)
    requires |s| < |t|
    ensures Less(s, t) <==> Less(s, t[..|s|]) || s == t[..|s|]
  {
    if s == [] {
    } else {
      LessByPrefix(s[1..], t[1..]);
      var p := t[..|s|];
      assert p[1..] == t[1..][..|s| - 1];
      assert s == [s[0]] + s[1..] && p == [p[0]] + p[1..];
    }
  }

  /** When the key of `x` comes before that of `y`: more digits count only by how they begin. */
  predicate KeyBefore(x: nat, y: nat, width: nat) {
    var dx, dy := Digits(x, width), Digits(y, width);
    if dx == dy then x < y
    else if dx < dy then x <= Without(y, dy - dx)
    else Without(x, dx - dy) < y
  }

  /** A number with fewer digits against one with more, which begins with `q`. */
  lemma ShortAgainstLong(x: nat, dx: nat, y: nat, dy: nat, q: nat)
    requires dx < dy && x < Pow10(dx) && q < Pow10(dx) && Fixed(y, dy)[..dx] == Fixed(q, dx)
    ensures Less(Fixed(x, dx), Fixed(y, dy)) <==> x <= q
    ensures Less(Fixed(y, dy), Fixed(x, dx)) <==> q < x
  {
    LessByPrefix(Fixed(x, dx), Fixed(y, dy));
    LessIsTotal(Fixed(x, dx), Fixed(y, dy));
    FixedCompares(x, q, dx);
  }

  /** The order of padded numbers as strings, whatever their sizes. */
  lemma PaddedCompares(x: nat, y: nat, width: nat)
    requires 0 < width
    ensures Less(Padded(x, width), Padded(y, width)) <==> KeyBefore(x, y, width)
    ensures Padded(x, width) == Padded(y, width) <==> x == y
  {
    var dx, dy := Digits(x, width), Digits(y, width);
    PaddedShows(x, width);
    PaddedShows(y, width);
    if dx == dy {
      FixedCompares(x, y, dx);
    } else if dx < dy {
      BeginsWith(y, dy, dx);
      ShortAgainstLong(x, dx, y, dy, Without(y, dy - dx));
    } else {
      BeginsWith(x, dx, dy);
      ShortAgainstLong(y, dy, x, dx, Without(x, dx - dy));
    }
  }

  /** The number a numeric key shows: for `desc` its distance from the largest 32-bit integer, as far as 64 bits hold it. */
  function Shown(value: string, direction: string): int {
    var n := Atoi(value).value;
    if direction != "desc" then n
    else if 0x7FFF_FFFF - n <= MAX_INT64 then 0x7FFF_FFFF - n
    else 0x7FFF_FFFF - n - 0x1_0000_0000_0000_0000
  }

  lemma AtoiInRange(value: string)
    ensures -MAX_INT64 - 1 <= Atoi(value).value <= MAX_INT64
  {
  }

  lemma ShownIsKey(value: string, width: nat, direction: string)
    requires Atoi(value).ok
    ensures NumericKey(value, width, direction) == Padded(Shown(value, direction), width)
    ensures -MAX_INT64 - 1 <= Shown(value, direction) <= MAX_INT64
  {
    AtoiInRange(value);
  }

  /** Different numbers show differently; on 32-bit values, and on all with which 64 bits do not overflow, `desc` reverses the order. */
  lemma ShownOrder(a: string, b: string, direction: string)
    ensures Shown(a, direction) == Shown(b, direction) <==> Atoi(a).value == Atoi(b).value
    ensures direction != "desc" ==> (Shown(a, direction) < Shown(b, direction) <==> Atoi(a).value < Atoi(b).value)
    ensures IsOrdinal(a) && IsOrdinal(b) && direction == "desc" ==>
      (Shown(a, direction) < Shown(b, direction) <==> Atoi(b).value < Atoi(a).value)
    ensures IsOrdinal(a) ==> 0 <= Shown(a, direction) <= MAX_INT32
  {
    AtoiInRange(a);
    AtoiInRange(b);
  }

  /** When the key of any number comes before that of another: the sign first, then the digits. */
  predicate KeyComesFirst(m: int, n: int, width: nat)
    requires 1 < width
  {
    if m >= 0 && n >= 0 then KeyBefore(m, n, width)
    else if m < 0 && n < 0 then KeyBefore(-m, -n, width - 1)
    else m < 0
  }

  lemma NegativeShows(n: nat, width: nat)
    requires 0 < n && 1 < width
    ensures Padded(0 - n, width) == "-" + Padded(n, width - 1)
  {
  }

  lemma {:induction false} FixedDigits(n: nat, w: nat)
    ensures forall k | 0 <= k < w :: IsDigit(Fixed(n, w)[k])
    decreases w
  {
    if w == 0 {
    } else {
      FixedDigits(n / 10, w - 1);
    }
  }

  lemma StartsWithDigit(n: nat, width: nat)
    requires 0 < width
    ensures Padded(n, width) != "" && IsDigit(Padded(n, width)[0])
  {
    PaddedShows(n, width);
    FixedDigits(n, Digits(n, width));
  }

  lemma LessAfter(c: char, a: string, b: string)
    ensures Less([c] + a, [c] + b) <==> Less(a, b)
    ensures [c] + a == [c] + b <==> a == b
  {
    assert ([c] + a)[1..] == a && ([c] + b)[1..] == b;
  }

  lemma NegativesCompare(m: nat, n: nat, width: nat)
    requires 0 < m && 0 < n && 1 < width
    ensures Less(Padded(0 - m, width), Padded(0 - n, width)) <==> KeyBefore(m, n, width - 1)
    ensures Padded(0 - m, width) == Padded(0 - n, width) <==> m == n
  {
    NegativeShows(m, width);
    NegativeShows(n, width);
    PaddedCompares(m, n, width - 1);
    LessAfter('-', Padded(m, width - 1), Padded(n, width - 1));
  }

  lemma NegativeIsLess(m: nat, n: nat, width: nat)
    requires 0 < m && 1 < width
    ensures Less(Padded(0 - m, width), Padded(n, width)) && !Less(Padded(n, width), Padded(0 - m, width))
  {
    NegativeShows(m, width);
    StartsWithDigit(n, width);
    LessIsTotal(Padded(0 - m, width), Padded(n, width));
  }

  /** The order of padded numbers as strings, whatever their signs and sizes. */
  lemma SignedCompares(m: int, n: int, width: nat)
    requires 1 < width
    ensures Less(Padded(m, width), Padded(n, width)) <==> KeyComesFirst(m, n, width)
    ensures Padded(m, width) == Padded(n, width) <==> m == n
  {
    if m >= 0 && n >= 0 {
      PaddedCompares(m, n, width);
    } else if m < 0 && n < 0 {
      NegativesCompare(-m, -n, width);
    } else if m < 0 {
      NegativeIsLess(-m, n, width);
      LessIsTotal(Padded(m, width), Padded(n, width));
    } else {
      NegativeIsLess(-n, m, width);
      LessIsTotal(Padded(n, width), Padded(m, width));
    }
  }

  /** Of any two values that are numbers: which key comes first, told from the numbers they show. */
  lemma NumericKeysCompare(a: string, b: string, width: nat, direction: string)
    requires Atoi(a).ok && Atoi(b).ok && 1 < width
    ensures var m, n := Shown(a, direction), Shown(b, direction);
      && (Less(NumericKey(a, width, direction), NumericKey(b, width, direction)) <==> KeyComesFirst(m, n, width))
      && (NumericKey(a, width, direction) == NumericKey(b, width, direction) <==> m == n)
  {
    ShownIsKey(a, width, direction);
    ShownIsKey(b, width, direction);
    SignedCompares(Shown(a, direction), Shown(b, direction), width);
  }

  lemma TenDigitsSuffice()
    ensures MAX_INT32 < Pow10(10)
  {
    assert Pow10(5) == 100_000;
    assert Pow10(6) == 10 * Pow10(5) && Pow10(7) == 10 * Pow10(6) && Pow10(8) == 10 * Pow10(7);
  }

  /** Keys of ten digits show all 32-bit values alike. */
  lemma TenDigitsAlign(x: nat, y: nat, width: nat)
    requires x <= MAX_INT32 && y <= MAX_INT32 && width == 10
    ensures KeyComesFirst(x, y, width) <==> x < y
  {
    TenDigitsSuffice();
    PaddedIsFixed(x, width);
    PaddedIsFixed(y, width);
  }

  /** On text the `desc` direction reverses nothing: its keys are ordered as the values are. */
  lemma DescendingTextAscends(a: string, b: string)
    ensures Less(StringKey(a, "desc"), StringKey(b, "desc")) <==> Less(a, b)
  {
    assert ("~" + a)[1..] == a && ("~" + b)[1..] == b;
  }

  // ----- Numbers that are written out and read back -----

  lemma {:induction false} ReadDigitsConcat(a: string, b: string, n: nat, v: nat)
    requires ReadDigits(a, n) == Value(v)
    ensures ReadDigits(a + b, n) == ReadDigits(b, v)
  {
    if a == [] {
      assert a + b == b;
    } else {
      assert (a + b)[1..] == a[1..] + b;
      ReadDigitsConcat(a[1..], b, 10 * n + DigitValue(a[0]), v);
    }
  }

  lemma OneDigit(d: nat, n: nat)
    requires d <= 9 && 10 * n + d <= MAX_UINT64
    ensures ReadDigits([Digit(d)], n) == Value(10 * n + d)
  {
    assert [Digit(d)][1..] == [];
  }

  lemma {:induction false} ReadsDecimal(n: nat)
    requires n <= MAX_UINT64
    ensures ReadDigits(Decimal(n), 0) == Value(n) && IsDigit(Decimal(n)[0])
  {
    if n < 10 {
      OneDigit(n, 0);
    } else {
      ReadsDecimal(n / 10);
      ReadDigitsConcat(Decimal(n / 10), [Digit(n % 10)], 0, n / 10);
      OneDigit(n % 10, n / 10);
    }
  }

  /** Reading a number that was written out gives it back. */
  lemma AtoiOfDecimal(n: nat)
    requires n <= MAX_INT64
    ensures Atoi(Decimal(n)) == Number(n, true)
  {
    ReadsDecimal(n);
  }

  lemma Appended(n: nat, s: string, d: nat, t: string)
    requires Decimal(n) == s && 0 < n && d <= 9 && t == s + [Digit(d)]
    ensures Decimal(10 * n + d) == t
  {
  }

  lemma KeysOfSixDigits(x: nat, y: nat, a: string, b: string, width: nat)
    requires Decimal(x) == a && Decimal(y) == b && |a| == width && |b| == width + 1
    requires 1 < width && x < y <= MAX_INT32 && y / 10 < x
    ensures Less(NumericKey(b, width, ""), NumericKey(a, width, ""))
  {
    AtoiOfDecimal(x);
    AtoiOfDecimal(y);
    assert Without(y, 1) == Without(y / 10, 0);
    NumericKeysCompare(b, a, width, "");
  }

  /** Five digits do not suffice: the key of 100000 comes before that of 99999. */
  lemma FiveDigitsMisorder(a: string, b: string)
    requires a == "99999" && b == "100000"
    ensures Less(NumericKey(b, 5, ""), NumericKey(a, 5, ""))
  {
    Appended(1, "1", 0, "10");
    Appended(10, "10", 0, "100");
    Appended(100, "100", 0, "1000");
    Appended(1_000, "1000", 0, "10000");
    Appended(10_000, "10000", 0, "100000");
    Appended(9, "9", 9, "99");
    Appended(99, "99", 9, "999");
    Appended(999, "999", 9, "9999");
    Appended(9_999, "9999", 9, "99999");
    KeysOfSixDigits(99_999, 100_000, a, b, 5);
  }
}

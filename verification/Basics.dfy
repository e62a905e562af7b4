/** Small types and arithmetic shared by the other modules. */
module Basics {
  datatype Option<+T> = None | Some(value: T)

  newtype byte = x: int | 0 <= x < 256

  type Bytes = seq<byte>

  /** The error values the stream code tells apart. */
  datatype Error = Eof | Canceled | Failed(message: string)

  function Min(a: int, b: int): int {
    if a <= b then a else b
  }

  function Max(a: int, b: int): int {
    if a <= b then b else a
  }

  function Flatten(parts: seq<Bytes>): Bytes {
    if parts == [] then [] else parts[0] + Flatten(parts[1..])
  }

  lemma Regroup<T>(a: seq<T>, b: seq<T>, c: seq<T>)
    ensures a + (b + c) == (a + b) + c
  {
  }

  lemma {:induction false} FlattenConcat(a: seq<Bytes>, b: seq<Bytes>)
    ensures Flatten(a + b) == Flatten(a) + Flatten(b)
  {
    if a == [] {
      assert a + b == b;
    } else {
      FlattenConcat(a[1..], b);
      assert (a + b)[0] == a[0] && (a + b)[1..] == a[1..] + b;
      Regroup(a[0], Flatten(a[1..]), Flatten(b));
    }
  }

  function FoldLeft<S, T>(s: S, xs: seq<T>, f: (S, T) -> S): S
    decreases |xs|
  {
    if xs == [] then s else FoldLeft(f(s, xs[0]), xs[1..], f)
  }

  lemma {:induction false} FoldLeftConcat<S, T>(s: S, a: seq<T>, b: seq<T>, f: (S, T) -> S)
    ensures FoldLeft(s, a + b, f) == FoldLeft(FoldLeft(s, a, f), b, f)
    decreases |a|
  {
    if a == [] {
      assert a + b == b;
    } else {
      FoldLeftConcat(f(s, a[0]), a[1..], b, f);
      assert (a + b)[1..] == a[1..] + b;
    }
  }

  /** A non-zero multiple of `n` is at least `n` away from zero. */
  lemma MultipleSize(n: int, q: int)
    requires 0 < n
    ensures q >= 1 ==> n * q >= n
    ensures q <= -1 ==> n * q <= -n
  {
    if q >= 1 {
      assert n * q == n + n * (q - 1);
    } else if q <= -1 {
      assert n * q == n * (q + 1) - n;
    }
  }

  /** The quotient and the remainder of a division are unique. */
  lemma ModOf(x: int, n: int, q: int, m: int)
    requires 0 <= m < n && x == n * q + m
    ensures x % n == m && x / n == q
  {
    var q', m' := x / n, x % n;
    assert x == n * q' + m';
    assert n * (q - q') == n * q - n * q';
    MultipleSize(n, q - q');
  }

  lemma SmallMod(x: int, n: int)
    requires 0 < n
    ensures 0 <= x < n ==> x % n == x
  {
  }

  /** Numbers less than `n` apart with the same residue are the same. */
  lemma SameResidue(x: int, y: int, n: int)
    requires 0 < n && x % n == y % n && -n < x - y < n
    ensures x == y
  {
    var p, q := x / n, y / n;
    assert x == n * p + x % n && y == n * q + y % n;
    assert n * (p - q) == n * p - n * q;
    MultipleSize(n, p - q);
  }

  lemma ModNext(k: int, n: int)
    requires 0 < n
    ensures (k + 1) % n == if k % n + 1 == n then 0 else k % n + 1
  {
    var q, m := k / n, k % n;
    if m + 1 == n {
      assert n * (q + 1) == n * q + n;
      ModOf(k + 1, n, q + 1, 0);
    } else {
      ModOf(k + 1, n, q, m + 1);
    }
  }

  lemma ModPrev(k: int, n: int)
    requires 0 < n
    ensures (k - 1) % n == if k % n == 0 then n - 1 else k % n - 1
  {
    ModNext(k - 1, n);
  }

  /** The distance round a ring between two positions is the difference of their counts, modulo the size. */
  lemma ModDistance(k: int, w: int, n: int)
    requires 0 < n && k <= w
    ensures (w - k) % n == if k % n <= w % n then w % n - k % n else w % n + n - k % n
    ensures (w - k) % n <= w - k
  {
    var qk, mk, qw, mw := k / n, k % n, w / n, w % n;
    assert w - k == n * (qw - qk) + (mw - mk);
    if mk <= mw {
      ModOf(w - k, n, qw - qk, mw - mk);
    } else {
      assert n * (qw - qk - 1) == n * (qw - qk) - n;
      ModOf(w - k, n, qw - qk - 1, mw + n - mk);
    }
    if w - k < n {
      ModOf(w - k, n, 0, w - k);
    }
  }

  lemma {:induction false} SubsetSize<T>(a: set<T>, b: set<T>)
    requires a <= b
    ensures |a| <= |b| && (|a| == |b| ==> a == b)
  {
    if a == {} {
    } else {
      var x :| x in a;
      SubsetSize(a - {x}, b - {x});
      assert a == a - {x} + {x} && b == b - {x} + {x};
    }
  }
}

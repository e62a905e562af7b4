/** The retry delays. */
module Backoff {
  import opened Basics

  /** The state of a backoff strategy; delays are in any one unit of time. */
  datatype Delay = Delay(initial: int, max: int, current: int)

  function NewDelay(initial: int, max: int): Delay {
    Delay(initial, max, initial)
  }

  /** The delay to sleep now. */
  function Now(b: Delay): int {
    if b.max == 0 then b.initial else b.current
  }

  function Advance(b: Delay): Delay {
    if b.max == 0 then b else b.(current := Min(b.current * 2, b.max))
  }

  function Restart(b: Delay): Delay {
    if b.max > 0 then b.(current := b.initial) else b
  }

  class BackoffStrategy {
    const initial: int
    const max: int
    var current: int

    ghost function State(): Delay
      reads this
    {
      Delay(initial, max, current)
    }

    constructor (initial: int, max: int)
      ensures State() == NewDelay(initial, max)
    {
      this.initial, this.max, current := initial, max, initial;
    }

    method Next() returns (d: int)
      modifies this
      ensures d == Now(old(State())) && State() == Advance(old(State()))
    {
      if max == 0 {
        return initial;
      }
      d := current;
      current := current * 2;
      if current > max {
        current := max;
      }
    }

    method Reset()
      modifies this
      ensures State() == Restart(old(State()))
    {
      if max > 0 {
        current := initial;
      }
    }
  }

  /** The first `n` delays. */
  function Delays(b: Delay, n: nat): (ds: seq<int>)
    ensures |ds| == n
    decreases n
  {
    if n == 0 then [] else [Now(b)] + Delays(Advance(b), n - 1)
  }

  function Pow2(n: nat): (p: nat)
    ensures 0 < p
  {
    if n == 0 then 1 else 2 * Pow2(n - 1)
  }

  lemma CappedDoubling(x: int, max: int, p: nat)
    requires 0 <= x && 0 < max && 0 < p
    ensures Min(Min(x * 2, max) * p, max) == Min(x * (2 * p), max)
  {
    assert x * (2 * p) == (x * 2) * p;
    if x * 2 > max {
      assert (x * 2 - max) * p >= 0;
      assert max * p == max + max * (p - 1) && max * (p - 1) >= 0;
    }
  }

  /** From any point on, the delays double until they reach the maximum. */
  lemma {:induction false} DelaysFrom(b: Delay, n: nat, k: nat)
    requires 0 <= b.current && 0 < b.max && 1 <= k < n
    ensures Delays(b, n)[k] == Min(b.current * Pow2(k), b.max)
    decreases n
  {
    var next := Advance(b);
    if k == 1 {
      assert Pow2(1) == 2 * Pow2(0);
      assert Delays(b, n)[1] == Delays(next, n - 1)[0] == next.current;
    } else {
      DelaysFrom(next, n - 1, k - 1);
      CappedDoubling(b.current, b.max, Pow2(k - 1));
    }
  }

  /** A fresh strategy sleeps `initial` first and then `min(initial * 2^k, max)`. */
  lemma DelaySchedule(initial: int, max: int, n: nat, k: nat)
    requires 0 <= initial && 0 < max && k < n
    ensures Delays(NewDelay(initial, max), n)[k] == if k == 0 then initial else Min(initial * Pow2(k), max)
  {
    if k > 0 {
      DelaysFrom(NewDelay(initial, max), n, k);
    }
  }

  /** Below a negative maximum, delays double too, downwards. */
  lemma {:induction false} DelaysBelowZero(b: Delay, n: nat, k: nat)
    requires b.current <= b.max < 0 && k < n
    ensures Delays(b, n)[k] == b.current * Pow2(k)
    decreases n
  {
    if k == 0 {
      assert Pow2(0) == 1;
    } else {
      DelaysBelowZero(Advance(b), n - 1, k - 1);
      assert b.current * (2 * Pow2(k - 1)) == (b.current * 2) * Pow2(k - 1);
    }
  }

  /** With a negative maximum only the first delay is a delay at all. */
  lemma DelayWithNegativeMaximum(initial: int, max: int, n: nat, k: nat)
    requires 0 <= initial && max < 0 && k < n
    ensures Delays(NewDelay(initial, max), n)[k] == if k == 0 then initial else max * Pow2(k - 1)
  {
    if k > 0 {
      DelaysBelowZero(Advance(NewDelay(initial, max)), n - 1, k - 1);
    }
  }

  /** Without a maximum, every delay is the initial one. */
  lemma {:induction false} DelayWithoutMaximum(initial: int, n: nat, k: nat)
    requires k < n
    ensures Delays(NewDelay(initial, 0), n)[k] == initial
  {
    if k == 0 {
    } else {
      DelayWithoutMaximum(initial, n - 1, k - 1);
    }
  }
}

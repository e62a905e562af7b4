/** The per-provider connection counters. */
module Concurrency {
  import opened Basics
  import opened Text
  import opened SortKeys

  function VariableOf(p: string): string {
    "M3U_MAX_CONCURRENCY_" + p
  }

  /** The limit that an environment sets for a provider. */
  function LimitIn(environment: map<string, string>, p: string): (m: int)
    ensures 1 <= m
  {
    var max := Atoi(if VariableOf(p) in environment then environment[VariableOf(p)] else "");
    if !max.ok || max.value < 1 then 1 else max.value
  }

  /** A limit written out in decimal is the limit; without one, or with one that is not a positive number, it is 1. */
  lemma LimitIsSet(environment: map<string, string>, p: string, n: nat)
    requires n <= MAX_INT64
    ensures LimitIn(environment[VariableOf(p) := Decimal(n)], p) == Max(n, 1)
    ensures VariableOf(p) !in environment || !Atoi(environment[VariableOf(p)]).ok ==> LimitIn(environment, p) == 1
  {
    AtoiOfDecimal(n);
  }

  /** One provider's limit does not depend on what is set for another. */
  lemma LimitsAreSeparate(environment: map<string, string>, p: string, q: string, value: string)
    requires p != q
    ensures LimitIn(environment[VariableOf(q) := value], p) == LimitIn(environment, p)
  {
    var k := |"M3U_MAX_CONCURRENCY_"|;
    assert VariableOf(p)[k..] == p && VariableOf(q)[k..] == q;
  }

  class ConcurrencyManager {
    const environment: map<string, string>
    var count: map<string, int>
    var maxCache: map<string, int>

    constructor (environment: map<string, string>)
      ensures this.environment == environment && Valid() && forall p :: Count(p) == 0
    {
      this.environment, count, maxCache := environment, map[], map[];
    }

    function Limit(p: string): (m: int)
      ensures 1 <= m
    {
      LimitIn(environment, p)
    }

    /** Counters never go below zero, and a cached limit is the limit. */
    ghost predicate Valid()
      reads this
    {
      && (forall p | p in count :: 0 <= count[p])
      && (forall p | p in maxCache :: maxCache[p] == Limit(p))
    }

    function Count(p: string): int
      reads this
    {
      if p in count then count[p] else 0
    }

    method GetMaxConcurrency(p: string) returns (m: int)
      requires Valid()
      modifies this`maxCache
      ensures Valid() && m == Limit(p)
    {
      if p in maxCache {
        return maxCache[p];
      }
      var max := Atoi(if VariableOf(p) in environment then environment[VariableOf(p)] else "");
      m := max.value;
      if !max.ok || m < 1 {
        m := 1;
      }
      maxCache := maxCache[p := m];
    }

    method GetConcurrencyStatus(p: string) returns (current: int, max: int, priority: int)
      requires Valid()
      modifies this`maxCache
      ensures Valid() && current == Count(p) && max == Limit(p) && priority == Limit(p) - Count(p)
    {
      max := GetMaxConcurrency(p);
      current := 0;
      if p in count {
        current := count[p];
      }
      priority := max - current;
    }

    method ConcurrencyPriorityValue(p: string) returns (priority: int)
      requires Valid()
      modifies this`maxCache
      ensures Valid() && priority == Limit(p) - Count(p)
    {
      var _, _, slots := GetConcurrencyStatus(p);
      priority := slots;
    }

    /** Full means that there are no free slots left. */
    method CheckConcurrency(p: string) returns (full: bool)
      requires Valid()
      modifies this`maxCache
      ensures Valid() && (full <==> Limit(p) - Count(p) <= 0)
    {
      var current, max, _ := GetConcurrencyStatus(p);
      full := current >= max;
    }

    method UpdateConcurrency(p: string, incr: bool)
      requires Valid()
      modifies this`count, this`maxCache
      ensures Valid()
      ensures Count(p) == if incr then old(Count(p)) + 1 else Max(old(Count(p)) - 1, 0)
      ensures forall q | q != p :: Count(q) == old(Count(q))
    {
      var c := if p in count then count[p] else 0;
      if incr {
        c := c + 1;
      } else if c > 0 {
        c := c - 1;
      }
      count := count[p := c];
      var _ := GetMaxConcurrency(p);
    }
  }
}

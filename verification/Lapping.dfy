/** A run in which a client is lapped and loses what was written, without anybody noticing. */
module Lapping {
  import opened Basics
  import opened RingLog
  import opened Protocol

  /** The steps that write `es`. */
  function Writes(es: seq<Entry>): seq<Event> {
    if es == [] then [] else Writes(es[..|es| - 1]) + [CheckState(es[|es| - 1]), SwapIn]
  }

  function PutAll(r: Ring, es: seq<Entry>): Ring
    requires WellFormed(r)
    ensures WellFormed(PutAll(r, es))
  {
    if es == [] then r else Put(PutAll(r, es[..|es| - 1]), es[|es| - 1])
  }

  lemma OneWrite(s: Sys, e: Entry)
    requires WellFormed(s.ring) && s.lock == Unlocked && s.state == Active && !Terminal(e)
    ensures Step(Step(s, CheckState(e)), SwapIn) == s.(ring := Put(s.ring, e), log := s.log + [e])
  {
  }

  lemma TwoMore(s: Sys, evs: seq<Event>, a: Event, b: Event)
    requires WellFormed(s.ring)
    ensures Run(s, evs + [a, b]) == Step(Step(Run(s, evs), a), b)
  {
    var all := evs + [a, b];
    assert all[..|all| - 1] == evs + [a] && (evs + [a])[..|evs|] == evs;
  }

  /** An active stream that nobody is writing to accepts them all. */
  lemma {:induction false} WritesAccepted(s: Sys, es: seq<Entry>)
    requires WellFormed(s.ring) && s.lock == Unlocked && s.state == Active && forall e | e in es :: !Terminal(e)
    ensures Run(s, Writes(es)) == s.(ring := PutAll(s.ring, es), log := s.log + es)
  {
    if es == [] {
      assert s.log + es == s.log;
    } else {
      var before, last := es[..|es| - 1], es[|es| - 1];
      WritesAccepted(s, before);
      assert last in es;
      OneWrite(Run(s, Writes(before)), last);
      TwoMore(s, Writes(before), CheckState(last), SwapIn);
      assert s.log + before + [last] == s.log + es;
    }
  }

  lemma {:induction false} WritesAreGood(s: Sys, es: seq<Entry>)
    requires Good(s)
    ensures Good(Run(s, Writes(es)))
  {
    if es == [] {
    } else {
      var before, last := es[..|es| - 1], es[|es| - 1];
      WritesAreGood(s, before);
      TwoMore(s, Writes(before), CheckState(last), SwapIn);
      StepIsGood(Run(s, Writes(before)), CheckState(last));
      StepIsGood(Step(Run(s, Writes(before)), CheckState(last)), SwapIn);
    }
  }

  /** `s` is active, its log is `log`, and `h` has joined before the first write and been given nothing. */
  ghost predicate Lapping(s: Sys, h: nat, log: seq<Entry>, waiting: bool) {
    && Good(s) && s.lock == Unlocked && s.state == Active && s.log == log
    && h in s.readers && s.readers[h] == Reader(|s.ring.slots| - 1, -1, -1, waiting, [], Reading)
  }

  lemma JoinsNew(n: nat, h: nat)
    requires 0 < n
    ensures Lapping(Run(Init(n), [Join(h)]), h, [], false) && |Run(Init(n), [Join(h)]).ring.slots| == n
  {
    RunIsGood(n, []);
    assert [Join(h)][..0] == [];
    StepIsGood(Init(n), Join(h));
  }

  lemma LapsOn(s: Sys, h: nat, log: seq<Entry>, waiting: bool, es: seq<Entry>)
    requires Lapping(s, h, log, waiting) && forall e | e in es :: !Terminal(e)
    ensures Lapping(Run(s, Writes(es)), h, log + es, waiting)
    ensures |Run(s, Writes(es)).ring.slots| == |s.ring.slots|
  {
    WritesAccepted(s, es);
    WritesAreGood(s, es);
  }

  /** Exactly a ring behind, the reader goes to sleep. */
  lemma LappedSleeps(s: Sys, h: nat, log: seq<Entry>)
    requires Lapping(s, h, log, false) && |log| == |s.ring.slots| - 1
    ensures Lapping(Run(s, [Poll(h)]), h, log, true) && |Run(s, [Poll(h)]).ring.slots| == |s.ring.slots|
  {
    assert [Poll(h)][..0] == [];
    SmallMod(|log|, |s.ring.slots|);
    StaleOnlyOnCleared(s.ring, s.readers[h].at);
    StepIsGood(s, Poll(h));
    assert Step(s, Poll(h)) == s.(readers := s.readers[h := Polled(s, s.readers[h])]);
  }

  lemma OneBehind(s: Sys, h: nat, log: seq<Entry>)
    requires Lapping(s, h, log, true) && |log| == |s.ring.slots| && 2 <= |log|
    ensures Lag(s.ring, s.readers[h].at) == 1 && s.readers[h].at != s.ring.pos
  {
    ModOf(|log|, |log|, 1, 0);
  }

  /** Woken by one more write, it is given that write alone. */
  lemma LappedGetsLast(s: Sys, h: nat, log: seq<Entry>, t: Sys)
    requires Lapping(s, h, log, true) && |log| == |s.ring.slots| && 2 <= |log| && t == Step(s, Poll(h))
    ensures t.log == log && h in t.readers && t.readers[h].count == |log|
    ensures t.readers[h].got == Blocks(log, |log| - 1, |log|)
  {
    var rd := s.readers[h];
    var polled := Polled(s, rd);
    OneBehind(s, h, log);
    PolledReadsTail(s, rd);
    assert t == s.(readers := s.readers[h := polled]);
  }

  /**
    A client joins a new ring of `n` slots; `n - 1` writes later it stands exactly a ring behind, and its
    read goes to sleep with nothing delivered. After one more write it is given that write alone: the
    `n - 1` before it are lost.
   */
  lemma LappedReaderLoses(n: nat, h: nat, es: seq<Entry>, last: Entry, asleep: Sys, end: Sys)
    requires 2 <= n == |es| + 1 && !Terminal(last) && last.data != [] && forall e | e in es :: !Terminal(e)
    requires asleep == Run(Init(n), [Join(h)] + Writes(es) + [Poll(h)])
    requires end == Run(asleep, Writes([last]) + [Poll(h)])
    ensures h in asleep.readers && asleep.readers[h].waiting && asleep.readers[h].got == [] && asleep.log == es
    ensures h in end.readers && end.readers[h].count == n && end.log == es + [last]
    ensures end.readers[h].got == [Delivery(n - 1, last.data)]
  {
    var joined := Run(Init(n), [Join(h)]);
    RunConcat(Init(n), [Join(h)], Writes(es));
    RunConcat(Init(n), [Join(h)] + Writes(es), [Poll(h)]);
    RunConcat(asleep, Writes([last]), [Poll(h)]);
    JoinsNew(n, h);
    LapsOn(joined, h, [], false, es);
    assert [] + es == es;
    LappedSleeps(Run(joined, Writes(es)), h, es);
    LapsOn(asleep, h, es, true, [last]);
    assert [Poll(h)][..0] == [];
    LappedGetsLast(Run(asleep, Writes([last])), h, es + [last], end);
    assert Blocks(es + [last], n - 1, n) == Blocks(es + [last], n - 1, n - 1) + [Delivery(n - 1, last.data)];
  }
}

/**
  Readers of a coordinator that has been used before: everything was cleared at a write count `b`, and the
  counter went on from there.
 */
module Reuse {
  import opened Basics
  import opened RingLog
  import opened Protocol
  import Lapping

  /** Exactly the slots written since count `b` hold something. */
  ghost predicate IntactSince(r: Ring, b: int) {
    forall i | 0 <= i < |r.slots| ::
      if b < Expected(r, i) then r.slots[i].stamp == Expected(r, i) else r.slots[i] == EMPTY
  }

  ghost predicate GoodSince(s: Sys, b: int) {
    SysInv(s) && 0 <= b <= s.ring.writeSeq && IntactSince(s.ring, b)
  }

  /** Clearing begins a new use. */
  lemma ClearBegins(s: Sys)
    requires SysInv(s) && s.lock == Unlocked
    ensures GoodSince(Step(s, Clear), s.ring.writeSeq)
  {
    StepKeepsInv(s, Clear);
  }

  lemma PutKeepsIntactSince(r: Ring, e: Entry, b: int)
    requires Stamped(r) && IntactSince(r, b) && b <= r.writeSeq
    ensures IntactSince(Put(r, e), b)
  {
  }

  lemma StepIsGoodSince(s: Sys, ev: Event, b: int)
    requires GoodSince(s, b) && Spares(s, ev)
    ensures GoodSince(Step(s, ev), b)
  {
    StepKeepsInv(s, ev);
    if ev.SwapIn? && s.lock.Checked? {
      PutKeepsIntactSince(s.ring, s.lock.entry, b);
    }
  }

  // ----- The same ring as if blank chunks had been written before `b` -----

  function Filled(r: Ring, i: nat): Slot
    requires i < |r.slots|
  {
    if r.slots[i] == EMPTY && 0 < Expected(r, i) then Slot(Expected(r, i), BLANK) else r.slots[i]
  }

  function Refill(r: Ring): Ring {
    r.(slots := seq(|r.slots|, i requires 0 <= i < |r.slots| => Filled(r, i)))
  }

  function Blanked(log: seq<Entry>, b: int): seq<Entry> {
    seq(|log|, i requires 0 <= i < |log| => if i < b then BLANK else log[i])
  }

  lemma RefillFits(r: Ring, log: seq<Entry>, b: int)
    requires Inv(r) && Backed(r, log) && IntactSince(r, b) && 0 <= b <= |log|
    ensures Inv(Refill(r)) && Backed(Refill(r), Blanked(log, b)) && Intact(Refill(r))
  {
    var f := Refill(r);
    forall i | 0 <= i < |f.slots|
      ensures f.slots[i] == EMPTY || (f.slots[i].stamp == Expected(f, i) && 0 < f.slots[i].stamp)
      ensures 0 < f.slots[i].stamp <= |log| ==> f.slots[i].entry == Blanked(log, b)[f.slots[i].stamp - 1]
      ensures 0 < Expected(f, i) ==> f.slots[i].stamp == Expected(f, i)
    {
      assert f.slots[i] == Filled(r, i) && Expected(f, i) == Expected(r, i);
    }
  }

  lemma {:induction false} SameDeliveries(w: seq<Slot>, v: seq<Slot>)
    requires |w| == |v| && forall j | 0 <= j < |w| :: w[j] == v[j] || (w[j].entry == v[j].entry && w[j].entry.data == [])
    ensures Deliveries(w) == Deliveries(v)
  {
    if w == [] {
    } else {
      SameDeliveries(w[..|w| - 1], v[..|v| - 1]);
    }
  }

  /** A walk reads the same in both rings. */
  lemma RefillReads(r: Ring, from: nat)
    requires WellFormed(r) && from < |r.slots|
    ensures Entries(Window(Refill(r), from)) == Entries(Window(r, from))
    ensures Deliveries(Window(Refill(r), from)) == Deliveries(Window(r, from))
  {
    var w, v := Window(Refill(r), from), Window(r, from);
    forall j | 0 <= j < |w| ensures w[j].entry == v[j].entry && (w[j] == v[j] || w[j].entry.data == []) {
      WindowAt(Refill(r), from, j);
      WindowAt(r, from, j);
      assert w[j] == Filled(r, Walk(r, from, j));
    }
    SameDeliveries(w, v);
  }

  /** The state as a reader of the new use sees it. */
  function AsNew(s: Sys, b: int): Sys {
    s.(ring := Refill(s.ring), log := Blanked(s.log, b))
  }

  /** A read that jumps nowhere is the same. */
  lemma SameRead(s: Sys, rd: Reader, b: int)
    requires Inv(s.ring) && Backed(s.ring, s.log) && IntactSince(s.ring, b) && 0 <= b <= |s.log| && rd.at < |s.ring.slots|
    requires Start(s.ring, rd) == (rd.at, rd.count)
    ensures Polled(s, rd) == Polled(AsNew(s, b), rd)
  {
    RefillFits(s.ring, s.log, b);
    RefillReads(s.ring, rd.at);
    StaleOnlyOnCleared(Refill(s.ring), rd.at);
  }

  // ----- What a reader of the new use is given -----

  /** The reader has been given every block since `b` or its join point, whichever is later, up to its position. */
  ghost predicate CompleteSince(s: Sys, rd: Reader, b: int) {
    Complete(s.(log := Blanked(s.log, b)), rd)
  }

  lemma {:induction false} BlanksAreNoBlocks(log: seq<Entry>, b: nat, lo: nat, hi: nat)
    requires hi <= |log|
    ensures Blocks(Blanked(log, b), lo, hi) == Blocks(log, Max(lo, b), hi)
  {
    if hi <= lo {
    } else {
      BlanksAreNoBlocks(log, b, lo, hi - 1);
    }
  }

  /** Which says this of the log itself. */
  lemma CompleteSinceMeans(s: Sys, rd: Reader, b: nat)
    requires CompleteSince(s, rd, b) && b <= |s.log|
    ensures rd.count <= |s.log|
    ensures rd.got == Blocks(s.log, Max(rd.joined, b), Max(rd.count, 0))
  {
    BlanksAreNoBlocks(s.log, b, Max(rd.joined, 0), Max(rd.count, 0));
  }

  /**
    A reader that joined right after the clear, before the next write, and whose first read comes after it:
    in a ring's worth of writes or more, it is taken for stale and jumps to the writer.
   */
  predicate Skips(s: Sys, rd: Reader, b: int) {
    !rd.waiting && rd.count == b - 1 && b < s.ring.writeSeq && |s.ring.slots| < s.ring.writeSeq
  }

  lemma StaleSince(s: Sys, rd: Reader, b: int)
    requires GoodSince(s, b) && Placed(s.ring, rd) && |s.log| - rd.count < |s.ring.slots| && b - 1 <= rd.count
    ensures Start(s.ring, rd) ==
      if Skips(s, rd, b) then (s.ring.pos, s.ring.writeSeq)
      else if !rd.waiting && rd.count == b - 1 && |s.ring.slots| < s.ring.writeSeq then (s.ring.pos, b)
      else (rd.at, rd.count)
  {
    CloseLag(s, rd);
    StaleOnlyOnCleared(s.ring, rd.at);
  }

  lemma PlainReadKeeps(s: Sys, rd: Reader, b: int, polled: Reader)
    requires GoodSince(s, b) && Placed(s.ring, rd) && rd.outcome == Reading && CompleteSince(s, rd, b)
    requires |s.log| - rd.count < |s.ring.slots| && Start(s.ring, rd) == (rd.at, rd.count) && polled == Polled(s, rd)
    ensures CompleteSince(s, polled, b)
  {
    SameRead(s, rd, b);
    RefillFits(s.ring, s.log, b);
    PolledKeepsComplete(AsNew(s, b), rd, polled);
  }

  /** A read that jumps to the writer hands on nothing and stands level with it. */
  lemma JumpedRead(s: Sys, rd: Reader, polled: Reader)
    requires WellFormed(s.ring) && rd.at < |s.ring.slots| && rd.outcome == Reading
    requires Start(s.ring, rd) == (s.ring.pos, s.ring.writeSeq) && polled == Polled(s, rd)
    ensures polled.got == rd.got && polled.count == s.ring.writeSeq && polled.outcome == Reading && polled.joined == rd.joined
  {
    assert Window(s.ring, s.ring.pos) == [];
  }

  lemma NothingBetween(s: Sys, rd: Reader, b: nat, polled: Reader)
    requires CompleteSince(s, rd, b) && b <= |s.log| && rd.outcome == Reading && -1 <= rd.joined
    requires rd.count == b - 1 && polled.got == rd.got && polled.count == |s.log|
    requires polled.outcome == Reading && polled.joined == rd.joined && rd.joined <= rd.count
    ensures CompleteSince(s, polled, b) <==> Blocks(s.log, b, |s.log|) == []
  {
    BlanksAreNoBlocks(s.log, b, Max(rd.joined, 0), Max(rd.count, 0));
    BlanksAreNoBlocks(s.log, b, Max(rd.joined, 0), |s.log|);
  }

  /**
    A read of a reader less than a ring behind leaves it complete exactly when it does not skip, or there was
    nothing to skip.
   */
  lemma ReadKeepsIff(s: Sys, rd: Reader, b: int, polled: Reader)
    requires GoodSince(s, b) && Placed(s.ring, rd) && rd.outcome == Reading && CompleteSince(s, rd, b)
    requires |s.log| - rd.count < |s.ring.slots| && b - 1 <= rd.count && polled == Polled(s, rd)
    ensures CompleteSince(s, polled, b) <==> !Skips(s, rd, b) || Blocks(s.log, b, |s.log|) == []
    ensures Skips(s, rd, b) ==> polled.got == rd.got && polled.count == |s.log|
  {
    StaleSince(s, rd, b);
    if Start(s.ring, rd) == (rd.at, rd.count) && !Skips(s, rd, b) {
      PlainReadKeeps(s, rd, b, polled);
    } else {
      JumpedRead(s, rd, polled);
      NothingBetween(s, rd, b, polled);
    }
  }

  /** Every read of `h` starts less than a ring behind, and none skips. */
  ghost predicate KeepsUpSince(s: Sys, evs: seq<Event>, h: nat, b: int)
    requires WellFormed(s.ring)
  {
    evs == [] || (
      var t, ev := Run(s, evs[..|evs| - 1]), evs[|evs| - 1];
      && KeepsUpSince(s, evs[..|evs| - 1], h, b)
      && (ev == Poll(h) && CanPoll(t, h) ==>
            t.ring.writeSeq - t.readers[h].count < |t.ring.slots| && !Skips(t, t.readers[h], b)))
  }

  lemma LongerLogKeepsSince(s: Sys, t: Sys, rd: Reader, b: int)
    requires CompleteSince(s, rd, b) && s.log <= t.log
    ensures CompleteSince(t, rd, b)
  {
    assert Blanked(s.log, b) <= Blanked(t.log, b);
    LongerLogKeepsComplete(s.(log := Blanked(s.log, b)), t.(log := Blanked(t.log, b)), rd);
  }

  lemma JoinsSince(s: Sys, ev: Event, t: Sys, h: nat, b: int)
    requires GoodSince(s, b) && t == Step(s, ev) && h !in s.readers && h in t.readers
    ensures b - 1 <= t.readers[h].joined && CompleteSince(t, t.readers[h], b)
  {
    assert t.readers[h] == Reader(Prev(s.ring.pos, |s.ring.slots|), s.ring.writeSeq - 1, s.ring.writeSeq - 1, false, [], Reading);
  }

  lemma StepKeepsSince(s: Sys, ev: Event, t: Sys, h: nat, b: int)
    requires GoodSince(s, b) && t == Step(s, ev) && h in s.readers
    requires b - 1 <= s.readers[h].joined && CompleteSince(s, s.readers[h], b)
    requires h in t.readers && t.readers[h].outcome != Dropped
    requires ev == Poll(h) && CanPoll(s, h) ==> |s.log| - s.readers[h].count < |s.ring.slots| && !Skips(s, s.readers[h], b)
    ensures b - 1 <= t.readers[h].joined && CompleteSince(t, t.readers[h], b)
  {
    var rd := s.readers[h];
    assert ReaderInv(s, rd);
    if ev == Poll(h) && CanPoll(s, h) {
      assert t == s.(readers := s.readers[h := Polled(s, rd)]);
      ReadKeepsIff(s, rd, b, t.readers[h]);
      assert t.log == s.log && t.readers[h].joined == rd.joined;
      LongerLogKeepsSince(s, t, t.readers[h], b);
    } else {
      assert t.readers[h] == rd && s.log <= t.log;
      LongerLogKeepsSince(s, t, rd, b);
    }
  }

  lemma {:induction false} RunIsGoodSince(s0: Sys, b: int, evs: seq<Event>)
    requires GoodSince(s0, b) && SparesLog(s0, evs)
    ensures GoodSince(Run(s0, evs), b)
  {
    if evs == [] {
    } else {
      RunIsGoodSince(s0, b, evs[..|evs| - 1]);
      StepIsGoodSince(Run(s0, evs[..|evs| - 1]), evs[|evs| - 1], b);
    }
  }

  /**
    In a new use of a coordinator, while nothing written in it is cleared, a reader that joins it, keeps up and
    does not skip has handed on every block since its join point, or since the clear, up to its position.
   */
  lemma {:induction false} NothingLostSince(s0: Sys, b: int, evs: seq<Event>, h: nat, t: Sys)
    requires GoodSince(s0, b) && h !in s0.readers && SparesLog(s0, evs) && KeepsUpSince(s0, evs, h, b)
    requires t == Run(s0, evs) && h in t.readers && t.readers[h].outcome != Dropped
    ensures GoodSince(t, b) && b - 1 <= t.readers[h].joined && CompleteSince(t, t.readers[h], b)
  {
    RunIsGoodSince(s0, b, evs);
    if evs == [] {
    } else {
      var before, ev := evs[..|evs| - 1], evs[|evs| - 1];
      var s := Run(s0, before);
      RunIsGoodSince(s0, b, before);
      if h in s.readers {
        DroppedForGood(s, ev, h);
        NothingLostSince(s0, b, before, h, s);
        StepKeepsSince(s, ev, t, h, b);
      } else {
        JoinsSince(s, ev, t, h, b);
        LongerLogKeepsSince(t, t, t.readers[h], b);
      }
    }
  }

  // ----- A run that loses a block -----

  function NewReader(s: Sys): Reader
    requires WellFormed(s.ring)
  {
    Reader(Prev(s.ring.pos, |s.ring.slots|), s.ring.writeSeq - 1, s.ring.writeSeq - 1, false, [], Reading)
  }

  /** `h` has joined a coordinator on which a ring's worth was written and cleared, and nothing since. */
  ghost predicate JoinedAnew(s: Sys, h: nat) {
    && GoodSince(s, s.ring.writeSeq) && s.lock == Unlocked && s.state == Active
    && 3 <= |s.ring.slots| <= s.ring.writeSeq && h in s.readers && s.readers[h] == NewReader(s)
  }

  /** Once one block has been written, it skips. */
  lemma NewClientSkips(s: Sys, h: nat, last: Entry, written: Sys)
    requires JoinedAnew(s, h) && !Terminal(last) && written == Step(Step(s, CheckState(last)), SwapIn)
    ensures GoodSince(written, s.ring.writeSeq) && written.log == s.log + [last]
    ensures h in written.readers && written.readers[h] == s.readers[h]
    ensures Skips(written, written.readers[h], s.ring.writeSeq)
  {
    var b := s.ring.writeSeq;
    Lapping.OneWrite(s, last);
    StepIsGoodSince(s, CheckState(last), b);
    StepIsGoodSince(Step(s, CheckState(last)), SwapIn, b);
  }

  /** Its read gives it nothing and puts it level with the writer. */
  lemma SkipsPast(s: Sys, h: nat, b: int, polled: Sys)
    requires GoodSince(s, b) && h in s.readers && Skips(s, s.readers[h], b) && CanPoll(s, h)
    requires |s.log| - s.readers[h].count < |s.ring.slots| && polled == Step(s, Poll(h))
    ensures GoodSince(polled, b) && polled == s.(readers := s.readers[h := polled.readers[h]])
    ensures polled.readers[h].got == s.readers[h].got && polled.readers[h].count == |s.log|
    ensures polled.readers[h].joined == s.readers[h].joined && polled.readers[h].outcome == Reading
  {
    var rd := s.readers[h];
    assert ReaderInv(s, rd);
    StaleSince(s, rd, b);
    JumpedRead(s, rd, Polled(s, rd));
    assert polled == s.(readers := s.readers[h := Polled(s, rd)]);
    StepIsGoodSince(s, Poll(h), b);
  }

  ghost predicate Reachable(n: nat, s: Sys) {
    0 < n && exists evs :: s == Run(Init(n), evs)
  }

  lemma StepReaches(n: nat, s: Sys, ev: Event)
    requires Reachable(n, s)
    ensures Reachable(n, Step(s, ev))
  {
    var evs :| s == Run(Init(n), evs);
    assert (evs + [ev])[..|evs|] == evs;
    assert Step(s, ev) == Run(Init(n), evs + [ev]);
  }

  lemma ReachableInv(n: nat, s: Sys)
    requires Reachable(n, s)
    ensures SysInv(s) && |s.ring.slots| == n
  {
    var evs :| s == Run(Init(n), evs);
    RunKeepsInv(n, evs);
  }

  lemma WritesReach(n: nat, s: Sys, es: seq<Entry>, t: Sys)
    requires Reachable(n, s) && s.lock == Unlocked && s.state == Active && s.log == []
    requires t == Run(s, Lapping.Writes(es)) && forall e | e in es :: !Terminal(e)
    ensures Reachable(n, t) && t == s.(ring := t.ring, log := es)
  {
    var evs :| s == Run(Init(n), evs);
    RunConcat(Init(n), evs, Lapping.Writes(es));
    Lapping.WritesAccepted(s, es);
    assert [] + es == es;
  }

  /** A handler that starts a writer clears; with no client counted, it makes the stream active. */
  lemma Begins(n: nat, s: Sys, h: nat, t: Sys)
    requires Reachable(n, s) && s.lock == Unlocked && Phase(s, h) == Away
    requires t == s.(ring := Wipe(s.ring), phase := s.phase[h := if s.state == Active then Adding else SawInactive])
    ensures Reachable(n, t)
  {
    StepReaches(n, s, Clear);
    StepReaches(n, Step(s, Clear), LoadState(h));
    assert Step(s, Clear) == s.(ring := Wipe(s.ring));
  }

  lemma Revives(n: nat, s: Sys, h: nat, t: Sys)
    requires Reachable(n, s) && s.clients == 0 && Phase(s, h) == SawInactive
    requires t == s.(state := Active, phase := s.phase[h := Adding])
    ensures Reachable(n, t)
  {
    StepReaches(n, s, LoadCount(h));
    StepReaches(n, Step(s, LoadCount(h)), Revive(h));
    assert Step(s, LoadCount(h)) == Enter(s, h, SawNobody);
  }

  lemma Counts(n: nat, s: Sys, h: nat, t: Sys)
    requires Reachable(n, s) && Phase(s, h) == Adding
    requires t == s.(clients := s.clients + 1, phase := s.phase[h := Registered])
    ensures Reachable(n, t)
  {
    StepReaches(n, s, AddClient(h));
  }

  lemma Joins(n: nat, s: Sys, h: nat, t: Sys)
    requires Reachable(n, s) && h !in s.readers && WellFormed(s.ring) && t == s.(readers := s.readers[h := NewReader(s)])
    ensures Reachable(n, t)
  {
    StepReaches(n, s, Join(h));
  }

  /** The last client is uncounted; the stream drains and is cleared. */
  lemma Leaves(n: nat, s: Sys, h: nat, t: Sys)
    requires Reachable(n, s) && Phase(s, h) == Registered && s.clients == 1
    requires t == s.(clients := 0, phase := s.phase[h := Drained], state := Draining)
    ensures Reachable(n, t)
  {
    StepReaches(n, s, RemoveClient(h));
    StepReaches(n, Step(s, RemoveClient(h)), Drain(h));
    assert Step(s, RemoveClient(h)) == Enter(s, h, Emptied).(clients := 0);
  }

  lemma ClearsUp(n: nat, s: Sys, h: nat, t: Sys)
    requires Reachable(n, s) && s.lock == Unlocked && Phase(s, h) == Drained && WellFormed(s.ring)
    requires t == s.(ring := Wipe(s.ring), phase := s.phase[h := Left])
    ensures Reachable(n, t)
  {
    StepReaches(n, s, DrainClear(h));
  }

  /** The client of `g` is registered and reading, and `es` has been written. */
  lemma FirstUse(n: nat, g: nat, es: seq<Entry>) returns (s: Sys)
    requires 0 < n && forall e | e in es :: !Terminal(e)
    ensures Reachable(n, s) && s.lock == Unlocked && s.state == Active && s.log == es
    ensures s.clients == 1 && s.phase == map[g := Registered] && s.readers.Keys == {g}
  {
    s := Init(n);
    assert s == Run(Init(n), []);
    var began := s.(ring := Wipe(s.ring), phase := map[g := Adding]);
    Begins(n, s, g, began);
    var counted := began.(clients := 1, phase := map[g := Registered]);
    Counts(n, began, g, counted);
    var joined := counted.(readers := counted.readers[g := NewReader(counted)]);
    Joins(n, counted, g, joined);
    s := Run(joined, Lapping.Writes(es));
    WritesReach(n, joined, es, s);
  }

  /** It leaves. */
  lemma LastLeaves(n: nat, g: nat, s: Sys) returns (t: Sys)
    requires Reachable(n, s) && s.lock == Unlocked && s.clients == 1 && s.phase == map[g := Registered]
    ensures Reachable(n, t) && t.lock == Unlocked && t.clients == 0 && t.phase == map[g := Left] && t.state == Draining
    ensures t.log == s.log && t.readers == s.readers
  {
    ReachableInv(n, s);
    var left := s.(clients := 0, phase := s.phase[g := Drained], state := Draining);
    Leaves(n, s, g, left);
    t := left.(ring := Wipe(s.ring), phase := left.phase[g := Left]);
    ClearsUp(n, left, g, t);
  }

  /** `h` takes its place. */
  lemma NextArrives(n: nat, h: nat, s: Sys) returns (t: Sys)
    requires Reachable(n, s) && s.lock == Unlocked && s.clients == 0 && h !in s.phase && s.state == Draining && h !in s.readers
    ensures Reachable(n, t) && t.ring == Wipe(s.ring) && t.log == s.log && t.lock == Unlocked && t.state == Active
    ensures t.phase == s.phase[h := Registered] && t.clients == 1 && t.readers == s.readers[h := NewReader(t)]
  {
    ReachableInv(n, s);
    var began := s.(ring := Wipe(s.ring), phase := s.phase[h := SawInactive]);
    Begins(n, s, h, began);
    var revived := began.(state := Active, phase := began.phase[h := Adding]);
    Revives(n, began, h, revived);
    var counted := revived.(clients := 1, phase := revived.phase[h := Registered]);
    Counts(n, revived, h, counted);
    t := counted.(readers := counted.readers[h := NewReader(counted)]);
    Joins(n, counted, h, t);
  }

  lemma ArrivedAnew(n: nat, h: nat, s: Sys, t: Sys)
    requires Reachable(n, s) && Reachable(n, t) && t.ring == Wipe(s.ring) && t.log == s.log && t.lock == Unlocked && t.state == Active
    requires h in t.readers && t.readers[h] == NewReader(t) && 3 <= n <= |s.log|
    ensures JoinedAnew(t, h) && t.ring.writeSeq == |s.log|
  {
    ReachableInv(n, s);
    ReachableInv(n, t);
  }

  lemma WritesThenReads(n: nat, h: nat, last: Entry, s: Sys, written: Sys, t: Sys)
    requires Reachable(n, s) && JoinedAnew(s, h) && |s.log| == n && !Terminal(last)
    requires written == Step(Step(s, CheckState(last)), SwapIn) && t == Step(written, Poll(h))
    ensures Reachable(n, t) && GoodSince(t, n) && t.log == s.log + [last] && h in t.readers
    ensures t == written.(readers := written.readers[h := t.readers[h]])
    ensures t.readers[h].joined == n - 1 && t.readers[h].got == [] && t.readers[h].count == n + 1
    ensures t.readers[h].outcome == Reading
  {
    StepReaches(n, s, CheckState(last));
    StepReaches(n, Step(s, CheckState(last)), SwapIn);
    StepReaches(n, written, Poll(h));
    ReachableInv(n, s);
    ReachableInv(n, written);
    Lapping.OneWrite(s, last);
    NewClientSkips(s, h, last, written);
    SkipsPast(written, h, n, t);
  }

  /**
    A ring's worth is written and its only client leaves; another takes its place, one more block is written, and
    the new client reads. It joined before that block and stands past it, given nothing, though nothing written
    since has been cleared.
   */
  lemma ReusedReaderLoses(n: nat, g: nat, h: nat, es: seq<Entry>, last: Entry) returns (t: Sys)
    requires 3 <= n == |es| && g != h && !Terminal(last) && forall e | e in es :: !Terminal(e)
    ensures Reachable(n, t) && GoodSince(t, n) && t.log == es + [last]
    ensures Phase(t, h) == Registered && t.clients == 1 && h in t.readers && t.readers[h].outcome == Reading
    ensures t.readers[h].joined == n - 1 && t.readers[h].got == [] && t.readers[h].count == n + 1
  {
    var first := FirstUse(n, g, es);
    var left := LastLeaves(n, g, first);
    var second := NextArrives(n, h, left);
    ArrivedAnew(n, h, left, second);
    var written := Step(Step(second, CheckState(last)), SwapIn);
    t := Step(written, Poll(h));
    WritesThenReads(n, h, last, second, written, t);
    Lapping.OneWrite(second, last);
  }

  // ----- A handler that clears late -----

  lemma {:induction false} NothingInEmpty(w: seq<Slot>)
    requires forall j | 0 <= j < |w| :: w[j] == EMPTY
    ensures Deliveries(w) == [] && LastFault(Entries(w)) == None
  {
    if w == [] {
    } else {
      NothingInEmpty(w[..|w| - 1]);
      assert Entries(w)[..|w| - 1] == Entries(w[..|w| - 1]);
    }
  }

  /** A read that walks a cleared ring is given nothing and stands level with the writer. */
  lemma ReadsWiped(s: Sys, rd: Reader, polled: Reader)
    requires SysInv(s) && s.ring == Wipe(s.ring) && rd.at < |s.ring.slots| && rd.at != s.ring.pos && rd.outcome == Reading
    requires polled == Polled(s, rd)
    ensures polled.got == rd.got && polled.outcome == Reading && polled.joined == rd.joined
    ensures s.ring.writeSeq <= |s.ring.slots| ==> polled.count == s.ring.writeSeq
  {
    var w := Window(s.ring, rd.at);
    forall j | 0 <= j < |w| ensures w[j] == EMPTY {
      WindowAt(s.ring, rd.at, j);
    }
    NothingInEmpty(w);
    NothingInEmpty([]);
    assert Window(s.ring, s.ring.pos) == [];
  }

  lemma LooksAgain(n: nat, s: Sys, h: nat, t: Sys)
    requires Reachable(n, s) && Phase(s, h) == Left && s.clients == 0 && t == s.(phase := s.phase[h := SawEmpty])
    ensures Reachable(n, t)
  {
    StepReaches(n, s, Recheck(h));
  }

  lemma ClearsLate(n: nat, s: Sys, h: nat, t: Sys)
    requires Reachable(n, s) && Phase(s, h) == SawEmpty && s.lock == Unlocked && WellFormed(s.ring)
    requires t == s.(ring := Wipe(s.ring), phase := s.phase[h := Away])
    ensures Reachable(n, t)
  {
    StepReaches(n, s, LateClear(h));
  }

  lemma OneWriteReaches(n: nat, s: Sys, e: Entry, t: Sys)
    requires Reachable(n, s) && WellFormed(s.ring) && s.lock == Unlocked && s.state == Active && !Terminal(e)
    requires t == s.(ring := Put(s.ring, e), log := s.log + [e])
    ensures Reachable(n, t)
  {
    Lapping.OneWrite(s, e);
    StepReaches(n, s, CheckState(e));
    StepReaches(n, Step(s, CheckState(e)), SwapIn);
  }

  lemma PollReaches(n: nat, s: Sys, h: nat, t: Sys)
    requires Reachable(n, s) && CanPoll(s, h) && WellFormed(s.ring) && t == s.(readers := s.readers[h := Polled(s, s.readers[h])])
    ensures Reachable(n, t)
  {
    StepReaches(n, s, Poll(h));
  }

  lemma LeavesAndLooks(n: nat, g: nat, es: seq<Entry>) returns (s: Sys)
    requires 0 < n && forall e | e in es :: !Terminal(e)
    ensures Reachable(n, s) && s.lock == Unlocked && s.state == Draining && s.log == es && s.clients == 0
    ensures s.phase == map[g := SawEmpty] && s.readers.Keys == {g}
  {
    s := FirstUse(n, g, es);
    var left := LastLeaves(n, g, s);
    s := left.(phase := map[g := SawEmpty]);
    assert left.phase[g := SawEmpty] == map[g := SawEmpty];
    LooksAgain(n, left, g, s);
  }

  lemma NothingWritten(n: nat, s: Sys)
    requires Reachable(n, s) && s.log == []
    ensures s.ring.writeSeq == 0 && |s.ring.slots| == n && s.ring.pos == 0
  {
    ReachableInv(n, s);
  }

  /** One handler's client has left and the handler has seen that nobody is left; another client has come since. */
  lemma ComesBetween(n: nat, g: nat, h: nat) returns (s: Sys)
    requires 3 <= n && g != h
    ensures Reachable(n, s) && s.lock == Unlocked && s.state == Active && s.log == [] && s.clients == 1
    ensures Phase(s, g) == SawEmpty && Phase(s, h) == Registered && h in s.readers && s.readers[h] == NewReader(s)
    ensures s.ring.writeSeq == 0 && |s.ring.slots| == n && s.ring.pos == 0
  {
    var seen := LeavesAndLooks(n, g, []);
    s := NextArrives(n, h, seen);
    NothingWritten(n, s);
  }

  /**
    A leaving handler may look at the client count and clear only later. When another client has registered in
    between, it loses what was written for it: it is registered, joined before the block and stands past it, given nothing.
   */
  lemma LateClearLoses(n: nat, g: nat, h: nat, last: Entry) returns (t: Sys)
    requires 3 <= n && g != h && !Terminal(last)
    ensures Reachable(n, t) && t.state == Active && t.log == [last] && t.clients == 1
    ensures Phase(t, h) == Registered && h in t.readers && t.readers[h].outcome == Reading
    ensures t.readers[h].joined == -1 && t.readers[h].got == [] && t.readers[h].count == 1
  {
    var s := ComesBetween(n, g, h);
    var written := s.(ring := Put(s.ring, last), log := s.log + [last]);
    OneWriteReaches(n, s, last, written);
    var cleared := written.(ring := Wipe(written.ring), phase := written.phase[g := Away]);
    ClearsLate(n, written, g, cleared);
    ReachableInv(n, cleared);
    var rd := cleared.readers[h];
    ReadsWiped(cleared, rd, Polled(cleared, rd));
    t := cleared.(readers := cleared.readers[h := Polled(cleared, rd)]);
    PollReaches(n, cleared, h, t);
  }
}

/**
  The coordinator under interleaving. A step is one lock-protected section or one atomic load or
  store of any thread: writers, readers, registering and leaving clients. A step that is not
  enabled leaves the state alone, so every list of steps is a run.
 */
module Protocol {
  import opened Basics
  import opened RingLog

  /** One block of data a reader received, with its place in the log. */
  datatype Delivery = Delivery(index: int, data: Bytes)

  datatype Outcome = Reading | Ended(fault: Fault) | Dropped

  /**
    A client's read loop: its position in the ring, the write count at which it took that position
    (`count`) and at which it joined, and everything it has handed to its client.
   */
  datatype Reader = Reader(at: nat, count: int, joined: int, waiting: bool, got: seq<Delivery>, outcome: Outcome)

  /** Progress of the thread holding the write lock: it has read the state, or swapped in an error. */
  datatype WriteLock = Unlocked | Checked(entry: Entry) | Swapped

  /** Where a client is in registering, leaving, and cleaning up. */
  datatype Client = Away | SawInactive | SawNobody | Adding | Registered | Emptied | Drained | Left | SawEmpty

  datatype Sys = Sys(ring: Ring, state: State, clients: int, log: seq<Entry>, lock: WriteLock,
                     phase: map<nat, Client>, readers: map<nat, Reader>)

  datatype Event =
    | CheckState(entry: Entry) | SwapIn | MarkDraining | StoreClosed | Clear
    | LoadState(h: nat) | LoadCount(h: nat) | Revive(h: nat) | AddClient(h: nat)
    | RemoveClient(h: nat) | Drain(h: nat) | DrainClear(h: nat) | Recheck(h: nat) | LateClear(h: nat)
    | Join(h: nat) | Poll(h: nat) | PollThenDrop(h: nat, served: nat) | Drop(h: nat)

  function Phase(s: Sys, h: nat): Client {
    if h in s.phase then s.phase[h] else Away
  }

  function Init(n: nat): Sys {
    Sys(NewRing(n), Active, 0, [], Unlocked, map[], map[])
  }

  /** The blocks a walk delivers. */
  function Deliveries(w: seq<Slot>): seq<Delivery> {
    if w == [] then []
    else
      var x := w[|w| - 1];
      Deliveries(w[..|w| - 1]) + if x.entry.data == [] then [] else [Delivery(x.stamp - 1, x.entry.data)]
  }

  function DataOf(ds: seq<Delivery>): seq<Bytes> {
    seq(|ds|, i requires 0 <= i < |ds| => ds[i].data)
  }

  /** The blocks a walk delivers are the data of the non-empty chunks that a read copies. */
  lemma {:induction false} DeliveriesArePayloads(w: seq<Slot>)
    ensures DataOf(Deliveries(w)) == Payloads(Entries(w))
  {
    if w == [] {
    } else {
      DeliveriesArePayloads(w[..|w| - 1]);
      SnocEntry(Entries(w[..|w| - 1]), w[|w| - 1].entry);
      assert Entries(w) == Entries(w[..|w| - 1]) + [w[|w| - 1].entry];
    }
  }

  function Enter(s: Sys, h: nat, c: Client): Sys {
    s.(phase := s.phase[h := c])
  }

  /** A write by the thread that holds the lock: load the state, swap, store the draining state. */
  function WriteStep(s: Sys, ev: Event): Sys
    requires WellFormed(s.ring)
  {
    match ev
    case CheckState(e) =>
      if s.lock == Unlocked && s.state == Active then s.(lock := Checked(e)) else s
    case SwapIn =>
      if s.lock.Checked? then
        var e := s.lock.entry;
        s.(ring := Put(s.ring, e), log := s.log + [e], lock := if Terminal(e) then Swapped else Unlocked)
      else s
    case MarkDraining =>
      if s.lock == Swapped then s.(state := Draining, lock := Unlocked) else s
    case StoreClosed => s.(state := Closed)
    case Clear =>
      if s.lock == Unlocked then s.(ring := Wipe(s.ring)) else s
    case _ => s
  }

  function ClientStep(s: Sys, ev: Event): Sys {
    match ev
    case LoadState(h) =>
      if Phase(s, h) == Away then Enter(s, h, if s.state == Active then Adding else SawInactive) else s
    case LoadCount(h) =>
      if Phase(s, h) == SawInactive then Enter(s, h, if s.clients == 0 then SawNobody else Adding) else s
    case Revive(h) =>
      if Phase(s, h) == SawNobody then Enter(s, h, Adding).(state := Active) else s
    case AddClient(h) =>
      if Phase(s, h) == Adding then Enter(s, h, Registered).(clients := s.clients + 1) else s
    case RemoveClient(h) =>
      if Phase(s, h) == Registered then
        Enter(s, h, if s.clients == 1 then Emptied else Left).(clients := s.clients - 1)
      else s
    case Drain(h) =>
      if Phase(s, h) == Emptied then Enter(s, h, Drained).(state := Draining) else s
    case DrainClear(h) =>
      if Phase(s, h) == Drained && s.lock == Unlocked then Enter(s, h, Left).(ring := Wipe(s.ring)) else s
    case Recheck(h) =>
      if Phase(s, h) == Left then Enter(s, h, if s.clients == 0 then SawEmpty else Away) else s
    case LateClear(h) =>
      if Phase(s, h) == SawEmpty && s.lock == Unlocked then Enter(s, h, Away).(ring := Wipe(s.ring)) else s
    case _ => s
  }

  /** Where a read starts walking: a reader woken from its wait does not repeat the staleness test. */
  function Start(r: Ring, rd: Reader): (int, int)
    requires WellFormed(r) && rd.at < |r.slots|
  {
    if !rd.waiting && Stale(r, rd.at) then (r.pos, r.writeSeq) else (rd.at, rd.count)
  }

  /** A read either goes to sleep or collects everything up to the writer. */
  function ReadOnce(r: Ring, state: State, rd: Reader): Reader
    requires WellFormed(r) && rd.at < |r.slots|
  {
    var (from, count) := Start(r, rd);
    if from == r.pos && state == Active then
      rd.(at := from, count := count, waiting := true)
    else
      var w := Window(r, from);
      var got := rd.got + Deliveries(w);
      match LastFault(Entries(w))
      case Some(f) =>
        rd.(at := r.pos, count := r.writeSeq, waiting := false, got := got, outcome := Ended(f))
      case None =>
        rd.(at := r.pos, count := r.writeSeq, waiting := false, got := got)
  }

  function Polled(s: Sys, rd: Reader): Reader
    requires WellFormed(s.ring) && rd.at < |s.ring.slots|
  {
    ReadOnce(s.ring, s.state, rd)
  }

  /** A read loop that loses its client after `served` of the blocks it collected. */
  function ReadThenDropped(r: Ring, state: State, rd: Reader, served: nat): Reader
    requires WellFormed(r) && rd.at < |r.slots|
  {
    var got := ReadOnce(r, state, rd).got;
    rd.(got := got[..Min(|got|, |rd.got| + served)], outcome := Dropped)
  }

  function PolledThenDropped(s: Sys, rd: Reader, served: nat): Reader
    requires WellFormed(s.ring) && rd.at < |s.ring.slots|
  {
    ReadThenDropped(s.ring, s.state, rd, served)
  }

  predicate CanPoll(s: Sys, h: nat) {
    h in s.readers && s.readers[h].outcome == Reading && s.lock == Unlocked && s.readers[h].at < |s.ring.slots|
  }

  function ReaderStep(s: Sys, ev: Event): Sys
    requires WellFormed(s.ring)
  {
    match ev
    case Join(h) =>
      if h in s.readers then s
      else
        var k := s.ring.writeSeq - 1;
        s.(readers := s.readers[h := Reader(Prev(s.ring.pos, |s.ring.slots|), k, k, false, [], Reading)])
    case Poll(h) =>
      if CanPoll(s, h) then s.(readers := s.readers[h := Polled(s, s.readers[h])]) else s
    case PollThenDrop(h, served) =>
      if CanPoll(s, h) then s.(readers := s.readers[h := PolledThenDropped(s, s.readers[h], served)]) else s
    case Drop(h) =>
      if h in s.readers && s.readers[h].outcome == Reading then
        s.(readers := s.readers[h := s.readers[h].(outcome := Dropped)])
      else s
    case _ => s
  }

  function Step(s: Sys, ev: Event): (t: Sys)
    requires WellFormed(s.ring)
    ensures WellFormed(t.ring) && |t.ring.slots| == |s.ring.slots|
  {
    ReaderStep(ClientStep(WriteStep(s, ev), ev), ev)
  }

  function Run(s: Sys, evs: seq<Event>): (t: Sys)
    requires WellFormed(s.ring)
    ensures WellFormed(t.ring) && |t.ring.slots| == |s.ring.slots|
  {
    if evs == [] then s else Step(Run(s, evs[..|evs| - 1]), evs[|evs| - 1])
  }

  lemma {:induction false} RunSplit(s: Sys, evs: seq<Event>, k: nat)
    requires WellFormed(s.ring) && k <= |evs|
    ensures Run(s, evs) == Run(Run(s, evs[..k]), evs[k..])
  {
    if k == |evs| {
      assert evs[..k] == evs && evs[k..] == [];
    } else {
      var most, after := evs[..|evs| - 1], evs[k..];
      RunSplit(s, most, k);
      assert most[..k] == evs[..k] && most[k..] == after[..|after| - 1] && after[|after| - 1] == evs[|evs| - 1];
    }
  }

  lemma RunConcat(s: Sys, a: seq<Event>, b: seq<Event>)
    requires WellFormed(s.ring)
    ensures Run(s, a + b) == Run(Run(s, a), b)
  {
    var all := a + b;
    assert all[..|a|] == a && all[|a|..] == b;
    RunSplit(s, all, |a|);
  }

  // ----- What every step keeps -----

  /** Strictly increasing log positions within `[lo, hi)`, each with that entry's data. */
  ghost predicate FromLog(got: seq<Delivery>, log: seq<Entry>, lo: int, hi: int) {
    && (forall i | 0 <= i < |got| ::
          0 <= got[i].index < |log| && lo <= got[i].index < hi && got[i].data == log[got[i].index].data)
    && (forall i, j | 0 <= i < j < |got| :: got[i].index < got[j].index)
  }

  /** A reader stands where its count says. */
  ghost predicate Placed(r: Ring, rd: Reader) {
    && 0 < |r.slots|
    && -1 <= rd.joined <= rd.count <= r.writeSeq && rd.joined < r.writeSeq
    && rd.at < |r.slots| && rd.count % |r.slots| == rd.at
  }

  ghost predicate ReaderInv(s: Sys, rd: Reader) {
    && Placed(s.ring, rd)
    && FromLog(rd.got, s.log, rd.joined, if rd.outcome == Reading then rd.count else s.ring.writeSeq)
  }

  ghost predicate SysInv(s: Sys) {
    && Inv(s.ring)
    && Backed(s.ring, s.log)
    && forall h | h in s.readers :: ReaderInv(s, s.readers[h])
  }

  /** Every slot is empty or holds the log entry of its place, which is `base` for the first. */
  ghost predicate HoldsSome(w: seq<Slot>, log: seq<Entry>, base: int) {
    && base + |w| <= |log|
    && forall j | 0 <= j < |w| ::
         w[j] == EMPTY || (w[j].stamp == base + j + 1 && 0 < w[j].stamp && w[j].entry == log[base + j])
  }

  /** What one slot delivers. */
  function SlotDelivers(x: Slot): seq<Delivery> {
    if x.entry.data == [] then [] else [Delivery(x.stamp - 1, x.entry.data)]
  }

  lemma SlotAdds(got: seq<Delivery>, x: Slot, log: seq<Entry>, lo: int, k: int)
    requires FromLog(got, log, lo, k) && lo <= k < |log|
    requires x == EMPTY || (x.stamp == k + 1 && 0 < x.stamp && x.entry == log[k])
    ensures FromLog(got + SlotDelivers(x), log, lo, k + 1)
  {
  }

  lemma {:induction false} DeliveriesFromLog(w: seq<Slot>, log: seq<Entry>, base: int)
    requires HoldsSome(w, log, base)
    ensures FromLog(Deliveries(w), log, base, base + |w|)
  {
    if w == [] {
    } else {
      var before, last := w[..|w| - 1], w[|w| - 1];
      assert HoldsSome(before, log, base);
      DeliveriesFromLog(before, log, base);
      SlotAdds(Deliveries(before), last, log, base, base + |before|);
    }
  }

  lemma WindowFromLog(r: Ring, log: seq<Entry>, from: nat)
    requires Stamped(r) && Backed(r, log) && from < |r.slots|
    ensures FromLog(Deliveries(Window(r, from)), log, |log| - Lag(r, from), |log|)
  {
    var w := Window(r, from);
    forall j | 0 <= j < |w|
      ensures w[j] == EMPTY || (w[j].stamp == |log| - Lag(r, from) + j + 1 && 0 < w[j].stamp && w[j].entry == log[|log| - Lag(r, from) + j])
    {
      WindowSlot(r, log, from, j);
    }
    DeliveriesFromLog(w, log, |log| - Lag(r, from));
  }

  lemma FromLogConcat(a: seq<Delivery>, b: seq<Delivery>, log: seq<Entry>, lo: int, mid: int, hi: int)
    requires FromLog(a, log, lo, mid) && FromLog(b, log, mid, hi) && lo <= mid <= hi
    ensures FromLog(a + b, log, lo, hi)
  {
  }

  lemma PolledKeepsInv(s: Sys, rd: Reader)
    requires Inv(s.ring) && Backed(s.ring, s.log) && ReaderInv(s, rd) && rd.outcome == Reading
    ensures ReaderInv(s, Polled(s, rd))
    ensures rd.got <= Polled(s, rd).got
  {
    var (from, count) := Start(s.ring, rd);
    LagIsDistance(s.ring, from, count);
    WindowFromLog(s.ring, s.log, from);
    var lag := Lag(s.ring, from);
    FromLogConcat(rd.got, Deliveries(Window(s.ring, from)), s.log, rd.joined, |s.log| - lag, |s.log|);
  }

  lemma WriteKeepsInv(s: Sys, ev: Event)
    requires SysInv(s)
    ensures SysInv(WriteStep(s, ev))
  {
    var t := WriteStep(s, ev);
    if ev.SwapIn? && s.lock.Checked? {
      PutKeepsInv(s.ring, s.lock.entry);
      PutKeepsBacked(s.ring, s.log, s.lock.entry);
      forall h | h in s.readers ensures ReaderInv(t, t.readers[h]) {
        assert ReaderInv(s, s.readers[h]);
      }
    } else {
      forall h | h in s.readers ensures ReaderInv(t, t.readers[h]) {
        assert ReaderInv(s, s.readers[h]);
      }
    }
  }

  lemma ClientKeepsInv(s: Sys, ev: Event)
    requires SysInv(s)
    ensures SysInv(ClientStep(s, ev))
  {
    var t := ClientStep(s, ev);
    assert t.ring == s.ring || t.ring == Wipe(s.ring);
    forall h | h in t.readers ensures ReaderInv(t, t.readers[h]) {
      assert ReaderInv(s, s.readers[h]);
    }
  }

  lemma ReplaceKeepsInv(s: Sys, h: nat, rd: Reader)
    requires SysInv(s) && ReaderInv(s, rd)
    ensures SysInv(s.(readers := s.readers[h := rd]))
  {
    var t := s.(readers := s.readers[h := rd]);
    forall x | x in t.readers ensures ReaderInv(t, t.readers[x]) {
      assert x != h ==> ReaderInv(s, s.readers[x]);
    }
  }

  lemma JoinKeepsInv(s: Sys, h: nat)
    requires SysInv(s)
    ensures SysInv(ReaderStep(s, Join(h)))
  {
    if h !in s.readers {
      var k := s.ring.writeSeq - 1;
      ModPrev(s.ring.writeSeq, |s.ring.slots|);
      ReplaceKeepsInv(s, h, Reader(Prev(s.ring.pos, |s.ring.slots|), k, k, false, [], Reading));
    }
  }

  lemma ReaderKeepsInv(s: Sys, ev: Event)
    requires SysInv(s)
    ensures SysInv(ReaderStep(s, ev))
  {
    match ev
    case Join(h) => JoinKeepsInv(s, h);
    case Poll(h) =>
      if CanPoll(s, h) {
        PolledKeepsInv(s, s.readers[h]);
        ReplaceKeepsInv(s, h, Polled(s, s.readers[h]));
      }
    case PollThenDrop(h, served) =>
      if CanPoll(s, h) {
        PolledKeepsInv(s, s.readers[h]);
        ReplaceKeepsInv(s, h, PolledThenDropped(s, s.readers[h], served));
      }
    case Drop(h) =>
      if h in s.readers {
        assert ReaderInv(s, s.readers[h]);
        ReplaceKeepsInv(s, h, s.readers[h].(outcome := Dropped));
      }
    case _ =>
  }

  lemma StepKeepsInv(s: Sys, ev: Event)
    requires SysInv(s)
    ensures SysInv(Step(s, ev))
  {
    WriteKeepsInv(s, ev);
    ClientKeepsInv(WriteStep(s, ev), ev);
    ReaderKeepsInv(ClientStep(WriteStep(s, ev), ev), ev);
  }

  lemma {:induction false} RunKeepsInv(n: nat, evs: seq<Event>)
    requires 0 < n
    ensures SysInv(Run(Init(n), evs))
  {
    if evs == [] {
      NewRingInv(n);
    } else {
      RunKeepsInv(n, evs[..|evs| - 1]);
      StepKeepsInv(Run(Init(n), evs[..|evs| - 1]), evs[|evs| - 1]);
    }
  }

  // ----- Under every interleaving -----

  /**
    Over its whole life, and whatever else happens, a reader hands on blocks of strictly increasing
    log positions, each with the bytes that were written there.
   */
  lemma DeliveriesNeverRepeat(n: nat, evs: seq<Event>, h: nat)
    requires 0 < n && h in Run(Init(n), evs).readers
    ensures var s := Run(Init(n), evs);
      var got := s.readers[h].got;
      && (forall i, j | 0 <= i < j < |got| :: got[i].index < got[j].index)
      && (forall i | 0 <= i < |got| :: 0 <= got[i].index < |s.log| && got[i].data == s.log[got[i].index].data)
  {
    RunKeepsInv(n, evs);
    assert ReaderInv(Run(Init(n), evs), Run(Init(n), evs).readers[h]);
  }

  /** Reading adds to what was handed on. */
  lemma ReaderStepGrows(s: Sys, ev: Event, h: nat)
    requires WellFormed(s.ring) && h in s.readers
    ensures h in ReaderStep(s, ev).readers && s.readers[h].got <= ReaderStep(s, ev).readers[h].got
  {
  }

  /** What was handed on is never taken back. */
  lemma DeliveriesOnlyGrow(s: Sys, ev: Event, h: nat, t: Sys)
    requires WellFormed(s.ring) && h in s.readers && t == Step(s, ev)
    ensures h in t.readers && s.readers[h].got <= t.readers[h].got
  {
    var w := WriteStep(s, ev);
    var c := ClientStep(w, ev);
    assert w.readers == s.readers && c.readers == w.readers;
    ReaderStepGrows(c, ev, h);
  }

  lemma SizeKept(n: nat, evs: seq<Event>)
    requires 0 < n
    ensures |Run(Init(n), evs).ring.slots| == n
  {
  }

  /** In every run the writer stands where its count says and each slot is empty or has its one possible stamp. */
  lemma StampsInEveryRun(n: nat, evs: seq<Event>, i: nat)
    requires i < n
    ensures var r := Run(Init(n), evs).ring;
      && |r.slots| == n && r.pos == r.writeSeq % n
      && (r.slots[i].stamp == 0 || (r.writeSeq - n < r.slots[i].stamp <= r.writeSeq && (r.slots[i].stamp - 1) % n == i))
      && (Stale(r, i) <==> r.slots[i].stamp == 0 && n < r.writeSeq)
  {
    RunKeepsInv(n, evs);
    SizeKept(n, evs);
    var r := Run(Init(n), evs).ring;
    StampIsUnique(r, i, Expected(r, i));
    StaleOnlyOnCleared(r, i);
  }

  // ----- Runs in which nothing that was written is cleared -----

  predicate Clears(ev: Event) {
    ev.Clear? || ev.DrainClear? || ev.LateClear?
  }

  /** The step is no clear, or one that finds nothing to clear. */
  predicate Spares(s: Sys, ev: Event)
    requires WellFormed(s.ring)
  {
    Clears(ev) ==> Step(s, ev).ring == s.ring
  }

  /** No step of a run clears anything that was written. */
  predicate SparesLog(s: Sys, evs: seq<Event>)
    requires WellFormed(s.ring)
  {
    evs == [] || (SparesLog(s, evs[..|evs| - 1]) && Spares(Run(s, evs[..|evs| - 1]), evs[|evs| - 1]))
  }

  /** A reachable state of such a run. */
  ghost predicate Good(s: Sys) {
    SysInv(s) && Intact(s.ring)
  }

  lemma StepIsGood(s: Sys, ev: Event)
    requires Good(s) && Spares(s, ev)
    ensures Good(Step(s, ev))
  {
    StepKeepsInv(s, ev);
    if ev.SwapIn? && s.lock.Checked? {
      PutKeepsBacked(s.ring, s.log, s.lock.entry);
    }
  }

  lemma {:induction false} RunIsGood(n: nat, evs: seq<Event>)
    requires 0 < n && SparesLog(Init(n), evs)
    ensures Good(Run(Init(n), evs)) && |Run(Init(n), evs).ring.slots| == n
  {
    if evs == [] {
      NewRingInv(n);
      NewRingIntact(n);
    } else {
      RunIsGood(n, evs[..|evs| - 1]);
      StepIsGood(Run(Init(n), evs[..|evs| - 1]), evs[|evs| - 1]);
    }
  }

  /** Clearing before anything was written changes nothing; the first handler's clear is of this kind. */
  lemma EarlyClearSpares(s: Sys, ev: Event)
    requires SysInv(s) && s.ring.writeSeq == 0
    ensures Spares(s, ev)
  {
    assert forall i | 0 <= i < |s.ring.slots| :: s.ring.slots[i] == EMPTY;
    assert Wipe(s.ring) == s.ring;
  }

  /** The non-empty blocks of `log[lo..hi]` with their positions. */
  function Blocks(log: seq<Entry>, lo: nat, hi: nat): seq<Delivery>
    requires hi <= |log|
  {
    if hi <= lo then []
    else Blocks(log, lo, hi - 1) + if log[hi - 1].data == [] then [] else [Delivery(hi - 1, log[hi - 1].data)]
  }

  /** The slots hold the log from `base` on; before the log's start there is an empty slot. */
  ghost predicate HoldsLog(w: seq<Slot>, log: seq<Entry>, base: int) {
    && -1 <= base && base + |w| <= |log|
    && forall j | 0 <= j < |w| :: if base + j < 0 then w[j] == EMPTY else w[j] == Slot(base + j + 1, log[base + j])
  }

  lemma {:induction false} DeliveriesAreBlocks(w: seq<Slot>, log: seq<Entry>, base: int, lo: nat, hi: nat)
    requires HoldsLog(w, log, base) && lo == Max(base, 0) && hi == Max(base + |w|, 0)
    ensures Deliveries(w) == Blocks(log, lo, hi)
  {
    if w == [] {
    } else {
      var before, last := w[..|w| - 1], w[|w| - 1];
      assert HoldsLog(before, log, base);
      DeliveriesAreBlocks(before, log, base, lo, Max(base + |before|, 0));
      assert if base + |before| < 0 then last == EMPTY else last == Slot(base + |before| + 1, log[base + |before|]);
    }
  }

  lemma WindowHoldsLog(r: Ring, log: seq<Entry>, from: nat)
    requires Stamped(r) && Backed(r, log) && Intact(r) && from < |r.slots| && Lag(r, from) <= |log| + 1
    ensures HoldsLog(Window(r, from), log, |log| - Lag(r, from))
  {
    forall j | 0 <= j < Lag(r, from) {
      WindowSlot(r, log, from, j);
    }
  }

  lemma WindowIsBlocks(r: Ring, log: seq<Entry>, from: nat, lo: nat)
    requires Stamped(r) && Backed(r, log) && Intact(r) && from < |r.slots| && Lag(r, from) <= |log| + 1
    requires lo == Max(|log| - Lag(r, from), 0)
    ensures Deliveries(Window(r, from)) == Blocks(log, lo, |log|)
  {
    WindowHoldsLog(r, log, from);
    DeliveriesAreBlocks(Window(r, from), log, |log| - Lag(r, from), lo, |log|);
  }

  /** `polled` is `rd` after collecting the last `d` log entries. */
  ghost predicate Collected(s: Sys, rd: Reader, polled: Reader, d: nat) {
    && polled.got == rd.got + Blocks(s.log, Max(|s.log| - d, 0), |s.log|)
    && polled.outcome == (match LastFault(Tail(s.log, d)) case Some(f) => Ended(f) case None => Reading)
    && polled.count == |s.log| && polled.joined == rd.joined
  }

  lemma PolledReadsTail(s: Sys, rd: Reader)
    requires Stamped(s.ring) && Backed(s.ring, s.log) && Intact(s.ring) && rd.outcome == Reading
    requires rd.at < |s.ring.slots| && Lag(s.ring, rd.at) <= |s.log| + 1
    ensures !Stale(s.ring, rd.at)
    ensures if rd.at == s.ring.pos && s.state == Active then Polled(s, rd) == rd.(waiting := true)
            else Collected(s, rd, Polled(s, rd), Lag(s.ring, rd.at))
  {
    WindowIsBlocks(s.ring, s.log, rd.at, Max(|s.log| - Lag(s.ring, rd.at), 0));
    WalkYieldsTail(s.ring, s.log, rd.at, Lag(s.ring, rd.at));
    StaleOnlyOnCleared(s.ring, rd.at);
  }

  /** A reader's lag, as its distance to the writer modulo the size. */
  lemma ReaderLag(s: Sys, rd: Reader, n: nat)
    requires Inv(s.ring) && Backed(s.ring, s.log) && Placed(s.ring, rd) && n == |s.ring.slots|
    ensures Lag(s.ring, rd.at) == (|s.log| - rd.count) % n
    ensures Lag(s.ring, rd.at) <= |s.log| - rd.count
  {
    LagIsDistance(s.ring, rd.at, rd.count);
  }

  lemma GoodLag(s: Sys, h: nat, n: nat)
    requires Good(s) && h in s.readers && n == |s.ring.slots|
    ensures var rd := s.readers[h];
      && rd.at < n && rd.count <= |s.log|
      && Lag(s.ring, rd.at) == (|s.log| - rd.count) % n && Lag(s.ring, rd.at) <= |s.log| + 1
  {
    assert ReaderInv(s, s.readers[h]);
    ReaderLag(s, s.readers[h], n);
  }

  /** A poll that need not wait. */
  predicate Collects(s: Sys, h: nat)
    requires WellFormed(s.ring)
  {
    CanPoll(s, h) && !(s.readers[h].at == s.ring.pos && s.state == Active)
  }

  /** The staleness branch does not fire, and the poll collects the last `d` log entries. */
  ghost predicate PollYieldsTail(s: Sys, h: nat, d: nat)
    requires WellFormed(s.ring) && CanPoll(s, h)
  {
    var rd, t := s.readers[h], Step(s, Poll(h));
    && !Stale(s.ring, rd.at)
    && h in t.readers
    && Collected(s, rd, t.readers[h], d)
  }

  lemma PollOfLag(s: Sys, h: nat, d: nat)
    requires Good(s) && Collects(s, h) && d == Lag(s.ring, s.readers[h].at) <= |s.log| + 1
    ensures PollYieldsTail(s, h, d)
  {
    PolledReadsTail(s, s.readers[h]);
    assert Step(s, Poll(h)) == s.(readers := s.readers[h := Polled(s, s.readers[h])]);
  }

  lemma PollOfGood(s: Sys, h: nat, n: nat)
    requires Good(s) && Collects(s, h) && n == |s.ring.slots|
    ensures s.readers[h].count <= |s.log| && PollYieldsTail(s, h, (|s.log| - s.readers[h].count) % n)
  {
    GoodLag(s, h, n);
    PollOfLag(s, h, Lag(s.ring, s.readers[h].at));
  }

  /**
    When nothing written is cleared, the staleness branch never fires, and a poll that collects returns exactly
    the non-empty blocks, and the last error, of the last `(w - count) mod n` log entries.
   */
  lemma PollReadsTheTail(n: nat, evs: seq<Event>, s: Sys, h: nat)
    requires 0 < n && SparesLog(Init(n), evs) && s == Run(Init(n), evs) && Collects(s, h)
    ensures PollYieldsTail(s, h, (|s.log| - s.readers[h].count) % n)
  {
    RunIsGood(n, evs);
    PollOfGood(s, h, n);
  }

  /** Every time reader `h` polls, the writer is less than a ring ahead of it. */
  ghost predicate KeepsUp(s: Sys, evs: seq<Event>, h: nat)
    requires WellFormed(s.ring)
  {
    evs == [] || (
      var t, ev := Run(s, evs[..|evs| - 1]), evs[|evs| - 1];
      && KeepsUp(s, evs[..|evs| - 1], h)
      && (ev == Poll(h) && CanPoll(t, h) ==> t.ring.writeSeq - t.readers[h].count < |t.ring.slots|))
  }

  ghost predicate Complete(s: Sys, rd: Reader) {
    && rd.count <= |s.log|
    && rd.got == Blocks(s.log, Max(rd.joined, 0), Max(rd.count, 0))
    && (rd.outcome.Ended? ==> exists i | 0 <= i < rd.count :: Terminal(s.log[i]))
    && (rd.outcome.Ended? ==> LastFault(s.log[..rd.count]) == Some(rd.outcome.fault))
  }

  lemma {:induction false} BlocksConcat(log: seq<Entry>, lo: nat, mid: nat, hi: nat)
    requires lo <= mid <= hi <= |log|
    ensures Blocks(log, lo, hi) == Blocks(log, lo, mid) + Blocks(log, mid, hi)
  {
    if hi <= mid {
    } else {
      BlocksConcat(log, lo, mid, hi - 1);
    }
  }

  lemma {:induction false} BlocksOfPrefix(log: seq<Entry>, more: seq<Entry>, lo: nat, hi: nat)
    requires hi <= |log|
    ensures Blocks(log + more, lo, hi) == Blocks(log, lo, hi)
  {
    if hi <= lo {
    } else {
      BlocksOfPrefix(log, more, lo, hi - 1);
    }
  }

  /** The last error of a list is that of any tail which has one. */
  lemma {:induction false} FaultOfTail(a: seq<Entry>, b: seq<Entry>)
    requires LastFault(b).Some?
    ensures LastFault(a + b) == LastFault(b)
    ensures exists i | 0 <= i < |a + b| :: Terminal((a + b)[i])
  {
    var all := a + b;
    if Terminal(b[|b| - 1]) {
      assert Terminal(all[|all| - 1]);
    } else {
      FaultOfTail(a, b[..|b| - 1]);
      assert all[..|all| - 1] == a + b[..|b| - 1];
    }
  }

  /** Blocks and errors from `count` on complete those before it. */
  lemma CatchUp(log: seq<Entry>, lo: nat, count: int)
    requires -1 <= count <= |log| && lo <= Max(count, 0)
    ensures var tail := Tail(log, |log| - count);
      && Blocks(log, lo, |log|) == Blocks(log, lo, Max(count, 0)) + Blocks(log, Max(count, 0), |log|)
      && (LastFault(tail).Some? ==>
            LastFault(log) == LastFault(tail) && exists i | 0 <= i < |log| :: Terminal(log[i]))
  {
    var k := Max(count, 0);
    BlocksConcat(log, lo, k, |log|);
    assert Tail(log, |log| - count) == log[k..] && log == log[..k] + log[k..];
    if LastFault(log[k..]).Some? {
      FaultOfTail(log[..k], log[k..]);
    }
  }

  lemma CollectedIsComplete(s: Sys, rd: Reader, polled: Reader)
    requires Complete(s, rd) && -1 <= rd.joined <= rd.count
    requires Collected(s, rd, polled, |s.log| - rd.count)
    ensures Complete(s, polled)
  {
    CatchUp(s.log, Max(rd.joined, 0), rd.count);
    assert s.log[..|s.log|] == s.log;
  }

  /** A reader less than a ring behind lags by its distance. */
  lemma CloseLag(s: Sys, rd: Reader)
    requires Inv(s.ring) && Backed(s.ring, s.log) && Placed(s.ring, rd) && |s.log| - rd.count < |s.ring.slots|
    ensures Lag(s.ring, rd.at) == |s.log| - rd.count
  {
    ReaderLag(s, rd, |s.ring.slots|);
    SmallMod(|s.log| - rd.count, |s.ring.slots|);
  }

  lemma PolledKeepsComplete(s: Sys, rd: Reader, polled: Reader)
    requires Inv(s.ring) && Backed(s.ring, s.log) && Intact(s.ring)
    requires Placed(s.ring, rd) && rd.outcome == Reading && polled == Polled(s, rd)
    requires |s.log| - rd.count < |s.ring.slots| && Complete(s, rd)
    ensures Complete(s, polled)
  {
    CloseLag(s, rd);
    PolledReadsTail(s, rd);
    if !(rd.at == s.ring.pos && s.state == Active) {
      CollectedIsComplete(s, rd, polled);
    }
  }

  lemma LongerLogKeepsComplete(s: Sys, t: Sys, rd: Reader)
    requires Complete(s, rd) && s.log <= t.log
    ensures Complete(t, rd)
  {
    var more := t.log[|s.log|..];
    assert t.log == s.log + more;
    BlocksOfPrefix(s.log, more, Max(rd.joined, 0), Max(rd.count, 0));
    if rd.outcome.Ended? {
      assert t.log[..rd.count] == s.log[..rd.count];
      var i :| 0 <= i < rd.count && Terminal(s.log[i]);
      assert Terminal(t.log[i]);
    }
  }

  lemma JoinsComplete(s: Sys, ev: Event, t: Sys, h: nat)
    requires SysInv(s) && t == Step(s, ev) && h !in s.readers && h in t.readers
    ensures Complete(t, t.readers[h])
  {
  }

  lemma StepKeepsComplete(s: Sys, ev: Event, t: Sys, h: nat)
    requires Good(s) && t == Step(s, ev) && h in s.readers && Complete(s, s.readers[h])
    requires h in t.readers && t.readers[h].outcome != Dropped
    requires ev == Poll(h) && CanPoll(s, h) ==> |s.log| - s.readers[h].count < |s.ring.slots|
    ensures Complete(t, t.readers[h])
  {
    var rd := s.readers[h];
    assert ReaderInv(s, rd);
    if ev == Poll(h) && CanPoll(s, h) {
      assert t == s.(readers := s.readers[h := Polled(s, rd)]);
      PolledKeepsComplete(s, rd, t.readers[h]);
    } else {
      assert t.readers[h] == rd && s.log <= t.log;
      LongerLogKeepsComplete(s, t, rd);
    }
  }

  lemma DroppedForGood(s: Sys, ev: Event, h: nat)
    requires WellFormed(s.ring) && h in s.readers
    ensures h in Step(s, ev).readers
    ensures s.readers[h].outcome == Dropped ==> Step(s, ev).readers[h].outcome == Dropped
  {
  }

  /** A client that is gone, or was told the end, is given nothing more, whatever happens; leaving takes nothing back. */
  lemma GoneForGood(s: Sys, ev: Event, h: nat)
    requires WellFormed(s.ring) && h in s.readers
    ensures h in Step(s, ev).readers
    ensures s.readers[h].outcome != Reading ==> Step(s, ev).readers[h] == s.readers[h]
    ensures ev == Drop(h) && s.readers[h].outcome == Reading ==> Step(s, ev).readers[h] == s.readers[h].(outcome := Dropped)
  {
  }

  /**
    A reader that keeps up while nothing written is cleared has handed on every block from its join point to
    its position; once it is told an error, that is the last error the log held by then.
   */
  lemma {:induction false} NothingLost(n: nat, evs: seq<Event>, h: nat, t: Sys)
    requires 0 < n && SparesLog(Init(n), evs) && KeepsUp(Init(n), evs, h)
    requires t == Run(Init(n), evs) && h in t.readers && t.readers[h].outcome != Dropped
    ensures Complete(t, t.readers[h])
  {
    if evs == [] {
    } else {
      var before, ev := evs[..|evs| - 1], evs[|evs| - 1];
      var s := Run(Init(n), before);
      RunIsGood(n, before);
      if h in s.readers {
        DroppedForGood(s, ev, h);
        NothingLost(n, before, h, s);
        StepKeepsComplete(s, ev, t, h);
      } else {
        JoinsComplete(s, ev, t, h);
      }
    }
  }

  // ----- After an error -----

  /** An error has been accepted and nobody has revived the stream. */
  predicate Frozen(s: Sys) {
    s.lock == Swapped || (s.lock == Unlocked && s.state != Active)
  }

  lemma FrozenStep(s: Sys, ev: Event)
    requires WellFormed(s.ring) && Frozen(s) && !ev.Revive?
    ensures var t := Step(s, ev);
      Frozen(t) && t.log == s.log && t.ring.writeSeq == s.ring.writeSeq && (Clears(ev) || t.ring == s.ring)
  {
  }

  /** Once a terminal chunk is accepted, no write gets into the ring before a revival. */
  lemma {:induction false} TerminalFreeze(s: Sys, evs: seq<Event>)
    requires WellFormed(s.ring) && Frozen(s) && forall i | 0 <= i < |evs| :: !evs[i].Revive?
    ensures var t := Run(s, evs);
      && Frozen(t) && t.log == s.log && t.ring.writeSeq == s.ring.writeSeq
      && (SparesLog(s, evs) ==> t.ring == s.ring)
  {
    if evs == [] {
    } else {
      var before, ev := evs[..|evs| - 1], evs[|evs| - 1];
      TerminalFreeze(s, before);
      FrozenStep(Run(s, before), ev);
    }
  }

  /** Accepting a terminal chunk is what freezes the stream. */
  lemma AcceptedErrorFreezes(s: Sys)
    requires WellFormed(s.ring) && s.lock.Checked? && Terminal(s.lock.entry)
    ensures var t := Step(s, SwapIn);
      Frozen(t) && t.log == s.log + [s.lock.entry]
  {
  }

  /** Reporting an error as a whole: the terminal chunk is accepted exactly in an active stream, which is closed either way. */
  lemma ReportCloses(s: Sys, e: Entry)
    requires WellFormed(s.ring) && s.lock == Unlocked && Terminal(e)
    ensures var t := Step(Step(Step(Step(s, CheckState(e)), SwapIn), MarkDraining), StoreClosed);
      && t.state == Closed && t.lock == Unlocked
      && (if s.state == Active then t.log == s.log + [e] && t.ring == Put(s.ring, e) else t.log == s.log && t.ring == s.ring)
  {
    var checked := Step(s, CheckState(e));
    if s.state == Active {
      assert checked == s.(lock := Checked(e));
      var swapped := Step(checked, SwapIn);
      assert swapped == s.(ring := Put(s.ring, e), log := s.log + [e], lock := Swapped);
      assert Step(swapped, MarkDraining) == swapped.(state := Draining, lock := Unlocked);
    } else {
      assert checked == s && Step(s, SwapIn) == s && Step(s, MarkDraining) == s;
    }
  }

  /** Only a registering client that counted nobody revives a stream. */
  lemma OnlyEmptyRegistrationRevives(s: Sys, ev: Event, h: nat)
    requires WellFormed(s.ring)
    ensures var t := Step(s, ev);
      && (s.state != Active && t.state == Active ==> ev.Revive? && Phase(s, ev.h) == SawNobody)
      && (Phase(s, h) != SawNobody && Phase(t, h) == SawNobody ==>
            ev == LoadCount(h) && s.clients == 0 && Phase(s, h) == SawInactive)
  {
  }

  /** `polled` has been handed the last `d` log entries and then the final error, or nothing if `d` is 0. */
  ghost predicate Told(s: Sys, rd: Reader, polled: Reader, d: nat)
    requires s.log != []
  {
    var last := s.log[|s.log| - 1];
    && polled.got == rd.got + Blocks(s.log, Max(|s.log| - d, 0), |s.log|)
    && polled.outcome == (if d == 0 then Reading else Ended(Fault(last.err, last.status)))
    && polled.count == |s.log|
    && (d == 0 ==> polled.got == rd.got)
  }

  /** The stream has stopped after an error, which is the last entry of the log. */
  predicate Failed(s: Sys) {
    s.state != Active && s.log != [] && Terminal(s.log[|s.log| - 1])
  }

  lemma FrozenRead(s: Sys, rd: Reader, polled: Reader, d: nat)
    requires Good(s) && Failed(s) && rd.outcome == Reading && rd.at < |s.ring.slots|
    requires polled == Polled(s, rd) && d == Lag(s.ring, rd.at) <= |s.log| + 1
    ensures Told(s, rd, polled, d)
  {
    PolledReadsTail(s, rd);
    TailFault(s.log, d);
  }

  lemma FrozenPoll(s: Sys, h: nat, n: nat)
    requires Good(s) && Failed(s) && CanPoll(s, h) && n == |s.ring.slots|
    ensures Told(s, s.readers[h], Step(s, Poll(h)).readers[h], (|s.log| - s.readers[h].count) % n)
  {
    GoodLag(s, h, n);
    var rd := s.readers[h];
    var polled := Polled(s, rd);
    FrozenRead(s, rd, polled, Lag(s.ring, rd.at));
    assert Step(s, Poll(h)) == s.(readers := s.readers[h := polled]);
  }

  /**
    After an error, when nothing written was cleared, a reader's next poll hands on all it can still
    reach and then that error, unless its lag is a multiple of the ring size; then it is told nothing and
    stands where it stood.
   */
  lemma FrozenReaderIsTold(n: nat, evs: seq<Event>, s: Sys, h: nat)
    requires 0 < n && SparesLog(Init(n), evs) && s == Run(Init(n), evs)
    requires Failed(s) && CanPoll(s, h)
    ensures Told(s, s.readers[h], Step(s, Poll(h)).readers[h], (|s.log| - s.readers[h].count) % n)
  {
    RunIsGood(n, evs);
    FrozenPoll(s, h, n);
  }
}

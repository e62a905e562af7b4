/**
  The shared stream buffer as a value: a ring of slots, the writer's position in it and the
  write counter. The lemmas say what such a ring remembers of the log of all accepted writes.
 */
module RingLog {
  import opened Basics

  /** What a chunk carries: its bytes, and the error and status that end a stream. */
  datatype Entry = Entry(data: Bytes, err: Option<Error>, status: int)

  /** The part of a terminal chunk that a reader hands on. */
  datatype Fault = Fault(err: Option<Error>, status: int)

  /** Whether the stream accepts writes, has been told to stop, or has stopped. */
  datatype State = Active | Draining | Closed

  const BLANK := Entry([], None, 0)

  predicate Terminal(e: Entry) {
    e.err.Some? || e.status != 0
  }

  /** A ring slot; `stamp` is the sequence number of the write that filled it, 0 when it is cleared. */
  datatype Slot = Slot(stamp: int, entry: Entry)

  const EMPTY := Slot(0, BLANK)

  datatype Ring = Ring(slots: seq<Slot>, pos: nat, writeSeq: nat)

  predicate WellFormed(r: Ring) {
    r.pos < |r.slots|
  }

  function Next(i: nat, n: nat): nat {
    if i + 1 == n then 0 else i + 1
  }

  function Prev(i: nat, n: nat): nat
    requires 0 < n
  {
    if i == 0 then n - 1 else i - 1
  }

  function NewRing(n: nat): Ring {
    Ring(seq(n, i => EMPTY), 0, 0)
  }

  /** An accepted write fills the writer's slot, stamps it and advances the writer. */
  function Put(r: Ring, e: Entry): Ring
    requires WellFormed(r)
  {
    Ring(r.slots[r.pos := Slot(r.writeSeq + 1, e)], Next(r.pos, |r.slots|), r.writeSeq + 1)
  }

  /** Clearing empties every slot; it moves neither the writer nor the counter. */
  function Wipe(r: Ring): Ring {
    r.(slots := seq(|r.slots|, i => EMPTY))
  }

  /** The staleness test looks at the stamp the slot has now. */
  predicate Stale(r: Ring, from: nat)
    requires from < |r.slots|
  {
    r.slots[from].stamp < r.writeSeq - |r.slots|
  }

  function Jump(r: Ring, from: nat): nat
    requires WellFormed(r) && from < |r.slots|
  {
    if Stale(r, from) then r.pos else from
  }

  /** How many slots a walk visits on its way from `from` to the writer. */
  function Lag(r: Ring, from: nat): (d: nat)
    requires WellFormed(r) && from < |r.slots|
    ensures d < |r.slots|
  {
    if from <= r.pos then r.pos - from else r.pos + |r.slots| - from
  }

  /** The slots such a walk visits, in order. */
  function Window(r: Ring, from: nat): (w: seq<Slot>)
    requires WellFormed(r) && from < |r.slots|
    ensures |w| == Lag(r, from)
  {
    if from <= r.pos then r.slots[from..r.pos] else r.slots[from..] + r.slots[..r.pos]
  }

  function Entries(w: seq<Slot>): (es: seq<Entry>) {
    seq(|w|, i requires 0 <= i < |w| => w[i].entry)
  }

  /** The data of the non-empty entries, in order. */
  function Payloads(es: seq<Entry>): seq<Bytes> {
    if es == [] then []
    else (if es[0].data == [] then [] else [es[0].data]) + Payloads(es[1..])
  }

  /** The error of the last terminal entry, if there is one. */
  function LastFault(es: seq<Entry>): Option<Fault> {
    if es == [] then None
    else
      var e := es[|es| - 1];
      if Terminal(e) then Some(Fault(e.err, e.status)) else LastFault(es[..|es| - 1])
  }

  // ----- What a ring can look like -----

  /** The stamp that slot `i` carries if it has not been cleared since its last write. */
  function Expected(r: Ring, i: nat): int {
    if i < r.pos then r.writeSeq - r.pos + i + 1 else r.writeSeq - r.pos - |r.slots| + i + 1
  }

  /** Every slot is empty or carries its expected stamp. */
  ghost predicate Stamped(r: Ring) {
    && WellFormed(r)
    && forall i | 0 <= i < |r.slots| ::
         r.slots[i] == EMPTY || (r.slots[i].stamp == Expected(r, i) && 0 < r.slots[i].stamp)
  }

  ghost predicate Inv(r: Ring) {
    Stamped(r) && r.pos == r.writeSeq % |r.slots|
  }

  lemma NewRingInv(n: nat)
    requires 0 < n
    ensures Inv(NewRing(n))
  {
    ModOf(0, n, 0, 0);
  }

  lemma PutKeepsInv(r: Ring, e: Entry)
    requires Inv(r)
    ensures Inv(Put(r, e))
  {
    ModNext(r.writeSeq, |r.slots|);
  }

  lemma WipeKeepsInv(r: Ring)
    requires Inv(r)
    ensures Inv(Wipe(r))
  {
  }

  /** The predecessor of the expected stamp is congruent to the slot's index. */
  lemma ExpectedResidue(r: Ring, i: nat)
    requires Inv(r) && i < |r.slots|
    ensures (Expected(r, i) - 1) % |r.slots| == i
  {
    var n, q := |r.slots|, r.writeSeq / |r.slots|;
    assert r.writeSeq == n * q + r.pos;
    if i < r.pos {
      ModOf(Expected(r, i) - 1, n, q, i);
    } else {
      assert n * (q - 1) == n * q - n;
      ModOf(Expected(r, i) - 1, n, q - 1, i);
    }
  }

  /**
    A slot's stamp is 0 or the one number in `(writeSeq - n, writeSeq]` whose predecessor is
    congruent to the slot's index.
   */
  lemma StampIsUnique(r: Ring, i: nat, s: int)
    requires Inv(r) && i < |r.slots|
    ensures var n := |r.slots|;
      r.writeSeq - n < s <= r.writeSeq && (s - 1) % n == i <==> s == Expected(r, i)
  {
    ExpectedResidue(r, i);
    var n, x := |r.slots|, Expected(r, i);
    assert r.writeSeq - n < x <= r.writeSeq;
    if r.writeSeq - n < s <= r.writeSeq && (s - 1) % n == i {
      SameResidue(s - 1, x - 1, n);
    }
  }

  /**
    The stale branch fires exactly on a cleared slot once more than a ring's worth has been
    written. In particular it never notices a reader that has been lapped.
   */
  lemma StaleOnlyOnCleared(r: Ring, from: nat)
    requires Stamped(r) && from < |r.slots|
    ensures Stale(r, from) <==> r.slots[from] == EMPTY && |r.slots| < r.writeSeq
  {
  }

  // ----- What a ring remembers of the log -----

  /** Every uncleared slot holds the log entry its stamp names. */
  ghost predicate Backed(r: Ring, log: seq<Entry>) {
    && r.writeSeq == |log|
    && forall i | 0 <= i < |r.slots| ::
         0 < r.slots[i].stamp <= |log| ==> r.slots[i].entry == log[r.slots[i].stamp - 1]
  }

  /** No slot has been cleared since it was written. */
  ghost predicate Intact(r: Ring) {
    forall i | 0 <= i < |r.slots| :: 0 < Expected(r, i) ==> r.slots[i].stamp == Expected(r, i)
  }

  lemma NewRingIntact(n: nat)
    requires 0 < n
    ensures Intact(NewRing(n)) && Backed(NewRing(n), [])
  {
  }

  lemma PutKeepsBacked(r: Ring, log: seq<Entry>, e: Entry)
    requires Stamped(r) && Backed(r, log)
    ensures Backed(Put(r, e), log + [e])
    ensures Intact(r) ==> Intact(Put(r, e))
  {
  }

  /** The slot a walk meets after `j` steps. */
  function Walk(r: Ring, from: nat, j: nat): nat {
    if from + j < |r.slots| then from + j else from + j - |r.slots|
  }

  lemma WindowAt(r: Ring, from: nat, j: nat)
    requires WellFormed(r) && from < |r.slots| && j < Lag(r, from)
    ensures Walk(r, from, j) < |r.slots| && Window(r, from)[j] == r.slots[Walk(r, from, j)]
    ensures Expected(r, Walk(r, from, j)) == r.writeSeq - Lag(r, from) + j + 1
  {
  }

  lemma SlotFromLog(r: Ring, log: seq<Entry>, i: nat)
    requires Stamped(r) && Backed(r, log) && i < |r.slots|
    ensures var k := Expected(r, i) - 1;
      && (r.slots[i] == EMPTY || (0 <= k < |log| && r.slots[i] == Slot(k + 1, log[k])))
      && (Intact(r) && 0 <= k ==> r.slots[i] != EMPTY)
  {
  }

  /** The `j`-th slot of a walk is empty or holds the log entry of its place. */
  lemma WindowSlot(r: Ring, log: seq<Entry>, from: nat, j: nat)
    requires Stamped(r) && Backed(r, log) && from < |r.slots| && j < Lag(r, from)
    ensures var x, k := Window(r, from)[j], |log| - Lag(r, from) + j;
      && (x == EMPTY || (0 <= k && x == Slot(k + 1, log[k])))
      && (Intact(r) && 0 <= k ==> x != EMPTY)
  {
    WindowAt(r, from, j);
    SlotFromLog(r, log, Walk(r, from, j));
  }

  /** A reader's position is `k` counts, so its lag is its distance to the writer modulo the size. */
  lemma LagIsDistance(r: Ring, from: nat, k: int)
    requires Inv(r) && from < |r.slots| && k <= r.writeSeq && k % |r.slots| == from
    ensures Lag(r, from) == (r.writeSeq - k) % |r.slots|
    ensures Lag(r, from) <= r.writeSeq - k
  {
    ModDistance(k, r.writeSeq, |r.slots|);
  }

  /** The last `d` entries of the log, or all of it. */
  function Tail(log: seq<Entry>, d: nat): seq<Entry> {
    if d <= |log| then log[|log| - d..] else log
  }

  /** A walk of an uncleared ring meets the end of the log, perhaps after one slot never written. */
  lemma WindowIsEndOfLog(r: Ring, log: seq<Entry>, from: nat)
    requires Stamped(r) && Backed(r, log) && Intact(r) && from < |r.slots| && Lag(r, from) <= |log| + 1
    ensures var d, seen := Lag(r, from), Entries(Window(r, from));
      seen == if d <= |log| then log[|log| - d..] else [BLANK] + log
  {
    forall j | 0 <= j < Lag(r, from)
      ensures Window(r, from)[j].entry == if |log| - Lag(r, from) + j < 0 then BLANK else log[|log| - Lag(r, from) + j]
    {
      WindowSlot(r, log, from, j);
    }
  }

  lemma {:induction false} FaultSkipsBlank(es: seq<Entry>)
    ensures LastFault([BLANK] + es) == LastFault(es)
  {
    var all := [BLANK] + es;
    if es == [] {
      assert all[..0] == [];
    } else {
      FaultSkipsBlank(es[..|es| - 1]);
      assert all[..|all| - 1] == [BLANK] + es[..|es| - 1];
    }
  }

  lemma WalkYieldsTail(r: Ring, log: seq<Entry>, from: nat, d: nat)
    requires Stamped(r) && Backed(r, log) && Intact(r) && from < |r.slots| && d == Lag(r, from) <= |log| + 1
    ensures var seen := Entries(Window(r, from));
      Payloads(seen) == Payloads(Tail(log, d)) && LastFault(seen) == LastFault(Tail(log, d))
  {
    WindowIsEndOfLog(r, log, from);
    FaultSkipsBlank(log);
    assert ([BLANK] + log)[1..] == log;
  }

  /**
    The ring refines the log. On a ring that was never cleared, a walk from a position taken at
    count `k` yields exactly the data and the last error of the last `(w - k) mod n` log entries.
   */
  lemma RingRefinesLog(r: Ring, log: seq<Entry>, from: nat, k: int)
    requires Inv(r) && Backed(r, log) && Intact(r)
    requires from < |r.slots| && -1 <= k <= |log| && k % |r.slots| == from
    ensures var seen := Entries(Window(r, from));
      var tail := Tail(log, (|log| - k) % |r.slots|);
      Payloads(seen) == Payloads(tail) && LastFault(seen) == LastFault(tail)
  {
    var d := Lag(r, from);
    LagIsDistance(r, from, k);
    WalkYieldsTail(r, log, from, d);
    assert d == (|log| - k) % |r.slots|;
  }

  /** A reader less than a ring behind sees everything since it took its position. */
  lemma KeepingUpSeesAll(log: seq<Entry>, k: int, n: nat)
    requires -1 <= k <= |log| && |log| - k < n
    ensures Tail(log, (|log| - k) % n) == log[Max(k, 0)..]
  {
    SmallMod(|log| - k, n);
  }

  lemma LossFrom(w: nat, k: int, n: nat, q: nat, d: nat)
    requires 0 < n && -1 <= k <= w && w - k == n * q + d && d < n
    ensures q == 0 <==> w - k < n
    ensures var seen := if d <= w then d else w;
      && w - Max(k, 0) - seen == (if w - k < n then 0 else n * q - (if k < 0 then 1 else 0))
      && (w - Max(k, 0) == seen <==> w - k < n || w == Max(k, 0))
  {
    MultipleSize(n, q);
  }

  /**
    What a lapped reader loses is a whole number of rings' worth of slots, of which a client that joined
    a new ring counts one that was never written. Nothing is lost exactly when the writer is less than a
    ring ahead or nothing was written at all.
   */
  lemma LossIsWholeLaps(log: seq<Entry>, k: int, n: nat)
    requires 0 < n && -1 <= k <= |log|
    ensures var passed, seen := |log| - k, |Tail(log, (|log| - k) % n)|;
      && passed - passed % n == n * (passed / n)
      && |log| - Max(k, 0) - seen == (if passed < n then 0 else n * (passed / n) - (if k < 0 then 1 else 0))
      && (|log| - Max(k, 0) == seen <==> passed < n || |log| == Max(k, 0))
  {
    LossFrom(|log|, k, n, (|log| - k) / n, (|log| - k) % n);
  }

  /** The last error of any tail of a log that ends with an error is that error. */
  lemma TailFault(log: seq<Entry>, d: nat)
    requires log != [] && Terminal(log[|log| - 1])
    ensures var last := log[|log| - 1];
      LastFault(Tail(log, d)) == if d == 0 then None else Some(Fault(last.err, last.status))
  {
    var tail := Tail(log, d);
    if d == 0 {
      assert tail == [];
    } else {
      assert tail[|tail| - 1] == log[|log| - 1];
    }
  }

  /**
    Once the log ends with a terminal entry, a reader is told its error if and only if its lag is
    not a multiple of the ring size.
   */
  lemma FaultReachesReader(r: Ring, log: seq<Entry>, from: nat, k: int)
    requires Inv(r) && Backed(r, log) && Intact(r)
    requires from < |r.slots| && -1 <= k <= |log| && k % |r.slots| == from
    requires log != [] && Terminal(log[|log| - 1])
    ensures var last := log[|log| - 1];
      var told := LastFault(Entries(Window(r, from)));
      told == if (|log| - k) % |r.slots| == 0 then None else Some(Fault(last.err, last.status))
  {
    RingRefinesLog(r, log, from, k);
    TailFault(log, (|log| - k) % |r.slots|);
  }

  lemma {:induction false} PayloadsConcat(a: seq<Entry>, b: seq<Entry>)
    ensures Payloads(a + b) == Payloads(a) + Payloads(b)
  {
    if a == [] {
      assert a + b == b;
    } else {
      PayloadsConcat(a[1..], b);
      assert (a + b)[0] == a[0] && (a + b)[1..] == a[1..] + b;
      var head := if a[0].data == [] then [] else [a[0].data];
      assert head + (Payloads(a[1..]) + Payloads(b)) == (head + Payloads(a[1..])) + Payloads(b);
    }
  }

  /** One more entry at the end: its data, if any, comes last, and its error overrides earlier ones. */
  lemma SnocEntry(es: seq<Entry>, e: Entry)
    ensures Payloads(es + [e]) == Payloads(es) + (if e.data == [] then [] else [e.data])
    ensures LastFault(es + [e]) == if Terminal(e) then Some(Fault(e.err, e.status)) else LastFault(es)
  {
    PayloadsConcat(es, [e]);
    assert (es + [e])[..|es|] == es;
  }

  /** A step of a walk; it ends at the writer after `Lag` steps, and never passes its start again. */
  lemma WalkNext(r: Ring, from: nat, j: nat)
    requires WellFormed(r) && from < |r.slots| && j < Lag(r, from)
    ensures Next(Walk(r, from, j), |r.slots|) == Walk(r, from, j + 1) < |r.slots|
    ensures Walk(r, from, j + 1) != from && (Walk(r, from, j + 1) == r.pos <==> j + 1 == Lag(r, from))
  {
  }

  /** The `j`-th slot met on a walk. */
  lemma SeenAt(r: Ring, from: nat, j: nat)
    requires WellFormed(r) && from < |r.slots| && j < Lag(r, from)
    ensures Walk(r, from, j) < |r.slots|
    ensures var seen := Entries(Window(r, from));
      seen[..j + 1] == seen[..j] + [r.slots[Walk(r, from, j)].entry]
  {
  }
}

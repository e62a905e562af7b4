/**
  One writer that passes blocks into the shared buffer and may end with a final chunk, while any number of
  clients read, join and leave. Every change of the coordinator is a step of `Protocol`. Where the blocks come
  from does not matter here.
 */
module Feeder {
  import opened Basics
  import opened RingLog
  import opened Protocol
  import opened Registration

  /** The writer is between writes, has a chunk to write, is in a write, is about to close the stream, or has stopped. */
  datatype Pc = Idle | Offering(entry: Entry) | Writing | Closing | Done

  /** The blocks passed so far and the final chunk, once there is one. */
  datatype Feed = Feed(passed: seq<Bytes>, last: Option<Entry>, pc: Pc)

  datatype Fed = Fed(sys: Sys, feed: Feed)

  datatype Move = Pass(block: Bytes) | Finish(fault: Fault) | Halt | Begin | Return | FinishClose | Other(ev: Event)

  const NOTHING_FED := Feed([], None, Idle)

  /** The coordinator's step in a move, if the move has one. */
  function EventOf(p: Fed, m: Move): seq<Event> {
    match m
    case Begin => if p.feed.pc.Offering? && p.sys.lock == Unlocked then [CheckState(p.feed.pc.entry)] else []
    case FinishClose => if p.feed.pc == Closing then [StoreClosed] else []
    case Other(ev) => if ev.CheckState? || ev.StoreClosed? then [] else [ev]
    case _ => []
  }

  function FeedStep(p: Fed, m: Move): Feed {
    var f := p.feed;
    match m
    case Pass(b) => if f.pc == Idle && b != [] then Feed(f.passed + [b], None, Offering(Entry(b, None, 0))) else f
    case Finish(x) =>
      var e := Entry([], x.err, x.status);
      if f.pc == Idle && Terminal(e) then f.(last := Some(e), pc := Offering(e)) else f
    case Halt => if f.pc == Idle && p.sys.state != Active then f.(pc := Done) else f
    case Begin => if f.pc.Offering? && p.sys.lock == Unlocked then f.(pc := Writing) else f
    case Return =>
      if f.pc == Writing && p.sys.lock == Unlocked then f.(pc := if f.last.Some? then Closing else Idle) else f
    case FinishClose => if f.pc == Closing then f.(pc := Done) else f
    case Other(_) => f
  }

  function FedStep(p: Fed, m: Move): (q: Fed)
    requires WellFormed(p.sys.ring)
    ensures WellFormed(q.sys.ring)
  {
    var evs := EventOf(p, m);
    Fed(if evs == [] then p.sys else Step(p.sys, evs[0]), FeedStep(p, m))
  }

  function FedRun(n: nat, moves: seq<Move>): (p: Fed)
    requires 0 < n
    ensures WellFormed(p.sys.ring)
  {
    if moves == [] then Fed(Init(n), NOTHING_FED) else FedStep(FedRun(n, moves[..|moves| - 1]), moves[|moves| - 1])
  }

  /** The coordinator's own run behind a run of the writer. */
  function Events(n: nat, moves: seq<Move>): seq<Event>
    requires 0 < n
  {
    if moves == [] then []
    else Events(n, moves[..|moves| - 1]) + EventOf(FedRun(n, moves[..|moves| - 1]), moves[|moves| - 1])
  }

  lemma {:induction false} FedIsRun(n: nat, moves: seq<Move>)
    requires 0 < n
    ensures FedRun(n, moves).sys == Run(Init(n), Events(n, moves))
  {
    if moves == [] {
    } else {
      var before := moves[..|moves| - 1];
      FedIsRun(n, before);
      var evs := EventOf(FedRun(n, before), moves[|moves| - 1]);
      var all := Events(n, moves);
      if evs == [] {
        assert all == Events(n, before);
      } else {
        assert all[..|all| - 1] == Events(n, before);
      }
    }
  }

  function DataLog(blocks: seq<Bytes>): seq<Entry> {
    seq(|blocks|, i requires 0 <= i < |blocks| => Entry(blocks[i], None, 0))
  }

  // ----- What every move keeps -----

  /** The log before the write of a chunk: all blocks before it. */
  function Before(f: Feed): seq<Bytes> {
    if f.last.Some? || f.passed == [] then f.passed else f.passed[..|f.passed| - 1]
  }

  /** A chunk about to be written: the last block passed, or the final chunk. */
  predicate EntryFits(f: Feed, e: Entry) {
    if f.last.Some? then e == f.last.value else f.passed != [] && e == Entry(f.passed[|f.passed| - 1], None, 0)
  }

  /** The log holds some of the blocks in order, or all of them and the final chunk. */
  predicate LogShape(log: seq<Entry>, f: Feed) {
    || (|log| <= |f.passed| && log == DataLog(f.passed[..|log|]))
    || (f.last.Some? && f.pc in {Writing, Closing, Done} && log == DataLog(f.passed) + [f.last.value])
  }

  predicate PcFits(s: Sys, f: Feed) {
    match f.pc
    case Idle => s.lock == Unlocked && f.last.None? && (s.state == Active ==> s.log == DataLog(f.passed))
    case Offering(e) => s.lock == Unlocked && EntryFits(f, e) && (s.state == Active ==> s.log == DataLog(Before(f)))
    case Writing =>
      (match s.lock
       case Unlocked => (f.last.Some? ==> s.state != Active) && (s.state == Active ==> s.log == DataLog(f.passed))
       case Checked(e) => EntryFits(f, e) && s.log == DataLog(Before(f))
       case Swapped => f.last.Some?)
    case Closing => s.lock == Unlocked && s.state != Active
    case Done => s.lock == Unlocked && s.state != Active
  }

  predicate FedInv(p: Fed) {
    && WellFormed(p.sys.ring)
    && (forall i | 0 <= i < |p.feed.passed| :: p.feed.passed[i] != [])
    && (p.feed.last.Some? ==> Terminal(p.feed.last.value) && p.feed.last.value.data == [])
    && LogShape(p.sys.log, p.feed) && PcFits(p.sys, p.feed)
  }

  lemma PassKeepsInv(p: Fed, b: Bytes, q: Fed)
    requires FedInv(p) && q == FedStep(p, Pass(b))
    ensures FedInv(q)
  {
    var f, g := p.feed, q.feed;
    if g != f {
      assert g.passed[..|f.passed|] == f.passed;
      assert g.passed[..|p.sys.log|] == f.passed[..|p.sys.log|];
    }
  }

  /** The moves of the writer that pass nothing. */
  lemma OwnMoveKeepsInv(p: Fed, m: Move, q: Fed)
    requires FedInv(p) && !m.Pass? && !m.Other? && q == FedStep(p, m)
    ensures FedInv(q)
  {
    assert q.sys.log == p.sys.log && q.feed.passed == p.feed.passed;
  }

  lemma SwapKeepsInv(p: Fed, q: Fed)
    requires FedInv(p) && p.sys.lock.Checked? && q == FedStep(p, Other(SwapIn))
    ensures FedInv(q)
  {
    var f, log, e := p.feed, p.sys.log, p.sys.lock.entry;
    var all := log + [e];
    assert q.sys.log == all;
    if f.last.None? {
      assert all == DataLog(f.passed);
      assert f.passed[..|all|] == f.passed;
    }
  }

  lemma OtherKeepsInv(p: Fed, ev: Event, q: Fed)
    requires FedInv(p) && Undisturbed(p.sys, ev) && q == FedStep(p, Other(ev))
    ensures FedInv(q)
  {
    if ev.SwapIn? && p.sys.lock.Checked? {
      SwapKeepsInv(p, q);
    } else {
      assert q.feed == p.feed && q.sys.log == p.sys.log;
    }
  }

  lemma MoveKeepsInv(p: Fed, m: Move, q: Fed)
    requires FedInv(p) && q == FedStep(p, m) && forall ev | ev in EventOf(p, m) :: Undisturbed(p.sys, ev)
    ensures FedInv(q)
  {
    match m
    case Pass(b) => PassKeepsInv(p, b, q);
    case Other(ev) =>
      if ev.CheckState? || ev.StoreClosed? {
        assert q == p;
      } else {
        assert ev in EventOf(p, m);
        OtherKeepsInv(p, ev, q);
      }
    case _ => OwnMoveKeepsInv(p, m, q);
  }

  lemma {:induction false} FedRunKeepsInv(n: nat, moves: seq<Move>)
    requires 0 < n && RunsUndisturbed(Init(n), Events(n, moves))
    ensures FedInv(FedRun(n, moves))
  {
    if moves == [] {
    } else {
      var before, m := moves[..|moves| - 1], moves[|moves| - 1];
      var p := FedRun(n, before);
      FedIsRun(n, before);
      UndisturbedPrefix(Init(n), Events(n, before), EventOf(p, m), Events(n, moves));
      FedRunKeepsInv(n, before);
      MoveKeepsInv(p, m, FedRun(n, moves));
    }
  }

  /** A writer that has written its final chunk closes the stream; one that finds it inactive stops without a chunk. */
  lemma WriterStops(p: Fed, m: Move, q: Fed)
    requires WellFormed(p.sys.ring) && q == FedStep(p, m)
    requires (m == FinishClose && p.feed.pc == Closing) || (m == Halt && p.feed.pc == Idle && p.sys.state != Active)
    ensures q.feed == p.feed.(pc := Done) && q.sys.log == p.sys.log
    ensures q.sys.state == if m == FinishClose then Closed else p.sys.state
  {
  }

  // ----- What a reader is given -----

  lemma {:induction false} BlocksOfDataLog(blocks: seq<Bytes>, log: seq<Entry>, lo: nat, hi: nat)
    requires lo <= hi <= |blocks| <= |log| && log[..|blocks|] == DataLog(blocks)
    requires forall i | 0 <= i < |blocks| :: blocks[i] != []
    ensures DataOf(Blocks(log, lo, hi)) == blocks[lo..hi]
  {
    if hi <= lo {
    } else {
      BlocksOfDataLog(blocks, log, lo, hi - 1);
      assert log[hi - 1] == log[..|blocks|][hi - 1] == Entry(blocks[hi - 1], None, 0);
      assert blocks[lo..hi] == blocks[lo..hi - 1] + [blocks[hi - 1]];
      assert DataOf(Blocks(log, lo, hi)) == DataOf(Blocks(log, lo, hi - 1)) + [blocks[hi - 1]];
    }
  }

  lemma DataIsNotTerminal(blocks: seq<Bytes>)
    ensures forall i | 0 <= i < |blocks| :: !Terminal(DataLog(blocks)[i])
  {
  }

  /** A terminal entry of the log is the final chunk, at its end. */
  lemma OnlyLastIsTerminal(log: seq<Entry>, f: Feed, i: nat)
    requires LogShape(log, f) && i < |log| && Terminal(log[i])
    ensures f.last.Some? && log == DataLog(f.passed) + [f.last.value] && i == |f.passed| == |log| - 1
  {
    DataIsNotTerminal(f.passed);
    DataIsNotTerminal(f.passed[..Min(|log|, |f.passed|)]);
  }

  /** A reader that was told how the stream ended, by this chunk, has been given all blocks from its join point on. */
  ghost predicate GotAllPassed(rd: Reader, f: Feed) {
    && f.last.Some? && rd.outcome == Ended(Fault(f.last.value.err, f.last.value.status))
    && Max(rd.joined, 0) <= |f.passed| && DataOf(rd.got) == f.passed[Max(rd.joined, 0)..]
  }

  lemma EndedGotAll(s: Sys, f: Feed, rd: Reader)
    requires FedInv(Fed(s, f)) && Complete(s, rd) && -1 <= rd.joined < |s.log| && rd.outcome.Ended?
    ensures GotAllPassed(rd, f)
  {
    var log, j := s.log, Max(rd.joined, 0);
    var i :| 0 <= i < rd.count && Terminal(log[i]);
    OnlyLastIsTerminal(log, f, i);
    assert rd.count == |log| && log[..rd.count] == log;
    assert log[..|f.passed|] == DataLog(f.passed);
    BlocksOfDataLog(f.passed, log, j, |f.passed|);
    assert f.passed[j..|f.passed|] == f.passed[j..];
    assert Blocks(log, j, |log|) == Blocks(log, j, |f.passed|) + [];
  }

  /**
    Whatever the interleaving, if nothing written is cleared, the stream is not revived and the client keeps
    up, a client loop that is told how the stream ended is told the writer's own final chunk, and has handed
    on exactly the blocks that were passed, from its join point to the last, once each and in order.
   */
  lemma FedToTheEnd(n: nat, moves: seq<Move>, h: nat, evs: seq<Event>, p: Fed)
    requires 0 < n && evs == Events(n, moves) && p == FedRun(n, moves)
    requires RunsUndisturbed(Init(n), evs) && KeepsUp(Init(n), evs, h)
    requires h in p.sys.readers && p.sys.readers[h].outcome.Ended?
    ensures GotAllPassed(p.sys.readers[h], p.feed)
  {
    FedIsRun(n, moves);
    FedRunKeepsInv(n, moves);
    UndisturbedSpares(Init(n), evs);
    NothingLost(n, evs, h, p.sys);
    RunKeepsInv(n, evs);
    assert ReaderInv(p.sys, p.sys.readers[h]);
    EndedGotAll(p.sys, p.feed, p.sys.readers[h]);
  }

  /**
    A run whose beginning disturbs nothing: from the clear that starts the writer on, up to a moment at which
    `c` holds the stream, clients only register; from then on `c` stays.
   */
  predicate StartsAndStays(n: nat, evs: seq<Event>, j: nat, k: nat, c: nat)
    requires 0 < n && j <= k <= |evs|
  {
    && Run(Init(n), evs[..j]).ring.writeSeq == 0
    && (forall i | 0 <= i < k :: !evs[i].Revive? && !evs[i].RemoveClient?)
    && (forall i | j <= i < |evs| :: !evs[i].Clear?)
    && (forall i | k <= i < |evs| :: evs[i] != RemoveClient(c))
  }

  /** The beginning of such a run. */
  lemma StartUndisturbed(n: nat, evs: seq<Event>, j: nat, k: nat, c: nat, start: seq<Event>)
    requires 0 < n && j <= k <= |evs| && StartsAndStays(n, evs, j, k, c) && start == evs[..k]
    ensures RunsUndisturbed(Init(n), start)
  {
    assert start[..j] == evs[..j];
    StartIsUndisturbed(n, start, j);
  }

  lemma StayingUndisturbed(n: nat, evs: seq<Event>, j: nat, k: nat, c: nat)
    requires 0 < n && j <= k <= |evs| && StartsAndStays(n, evs, j, k, c) && Held(Run(Init(n), evs[..k]), c)
    ensures RunsUndisturbed(Init(n), evs)
  {
    StartUndisturbed(n, evs, j, k, c, evs[..k]);
    RegisteredClientProtects(Init(n), evs, k, c);
  }
}

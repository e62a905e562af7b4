/** How a writer serves a client that registers, keeps level with it and stays: one chunk written and read after another. */
module Serving {
  import opened Basics
  import opened RingLog
  import opened Protocol
  import opened Registration
  import opened Feeder

  /** The client registers first, and then nobody leaves, clears or revives. */
  predicate OneClient(evs: seq<Event>, h: nat) {
    && 2 <= |evs| && evs[0] == LoadState(h) && evs[1] == AddClient(h)
    && forall i | 0 <= i < |evs| :: !evs[i].Revive? && !evs[i].RemoveClient? && !evs[i].Clear?
  }

  /** These moves lead to `p`, with `h` the one client, which keeps up. */
  ghost predicate Leads(n: nat, moves: seq<Move>, h: nat, p: Fed) {
    && 0 < n && p == FedRun(n, moves)
    && OneClient(Events(n, moves), h) && KeepsUp(Init(n), Events(n, moves), h)
  }

  /** A move that a writer's own code decides on. */
  predicate Own(m: Move) {
    m.Pass? || m.Finish? || m.Halt?
  }

  /** `more` goes on from `moves` without such moves. */
  predicate Extends(moves: seq<Move>, more: seq<Move>) {
    moves <= more && forall i | |moves| <= i < |more| :: !Own(more[i])
  }

  lemma OneMoveFewer(feeds: seq<Move>, more: seq<Move>, f: Move, longer: seq<Move>)
    requires Extends(feeds, more) && |feeds| < |more| && f == more[|feeds|] && longer == feeds + [f]
    ensures !Own(f) && Extends(longer, more)
  {
  }

  /** `p` is reached from there without such moves. */
  ghost predicate Served(n: nat, from: seq<Move>, h: nat, p: Fed) {
    exists moves :: Extends(from, moves) && Leads(n, moves, h, p)
  }

  lemma KeepsUpOneMore(s: Sys, evs: seq<Event>, ev: Event, h: nat, all: seq<Event>)
    requires WellFormed(s.ring) && KeepsUp(s, evs, h) && all == evs + [ev]
    requires var t := Run(s, evs); ev == Poll(h) && CanPoll(t, h) ==> t.ring.writeSeq - t.readers[h].count < |t.ring.slots|
    ensures KeepsUp(s, all, h)
  {
    assert all[..|all| - 1] == evs && all[|all| - 1] == ev;
  }

  /** No step of the coordinator, or a harmless one. */
  ghost predicate Harmless(s: Sys, steps: seq<Event>, h: nat) {
    |steps| <= 1 && forall ev | ev in steps ::
      && !ev.Revive? && !ev.RemoveClient? && !ev.Clear?
      && (ev == Poll(h) && CanPoll(s, h) ==> s.ring.writeSeq - s.readers[h].count < |s.ring.slots|)
  }

  lemma EventsGoOn(s: Sys, evs: seq<Event>, steps: seq<Event>, h: nat, all: seq<Event>)
    requires WellFormed(s.ring) && OneClient(evs, h) && KeepsUp(s, evs, h) && Harmless(Run(s, evs), steps, h) && all == evs + steps
    ensures OneClient(all, h) && KeepsUp(s, all, h)
  {
    if steps == [] {
      assert all == evs;
    } else {
      assert steps[0] in steps && steps == [steps[0]];
      KeepsUpOneMore(s, evs, steps[0], h, all);
    }
  }

  lemma OneMoveMore(n: nat, moves: seq<Move>, m: Move)
    requires 0 < n
    ensures FedRun(n, moves + [m]) == FedStep(FedRun(n, moves), m)
    ensures Events(n, moves + [m]) == Events(n, moves) + EventOf(FedRun(n, moves), m)
  {
    assert (moves + [m])[..|moves|] == moves;
  }

  lemma LeadsOn(n: nat, moves: seq<Move>, h: nat, p: Fed, m: Move, more: seq<Move>, steps: seq<Event>)
    requires Leads(n, moves, h, p) && more == moves + [m] && steps == EventOf(p, m) && Harmless(p.sys, steps, h)
    ensures Leads(n, more, h, FedStep(p, m))
  {
    OneMoveMore(n, moves, m);
    FedIsRun(n, moves);
    EventsGoOn(Init(n), Events(n, moves), steps, h, Events(n, more));
  }

  lemma ServedBy(n: nat, from: seq<Move>, h: nat, p: Fed, moves: seq<Move>)
    requires Extends(from, moves) && Leads(n, moves, h, p)
    ensures Served(n, from, h, p)
  {
  }

  lemma ServedOn(n: nat, from: seq<Move>, h: nat, p: Fed, m: Move, q: Fed)
    requires Served(n, from, h, p) && !Own(m) && WellFormed(p.sys.ring) && q == FedStep(p, m) && Harmless(p.sys, EventOf(p, m), h)
    ensures Served(n, from, h, q)
  {
    var moves :| Extends(from, moves) && Leads(n, moves, h, p);
    var more := moves + [m];
    LeadsOn(n, moves, h, p, m, more, EventOf(p, m));
    ServedBy(n, from, h, q, more);
  }

  lemma ServedFrom(n: nat, from: seq<Move>, h: nat, p: Fed)
    requires Leads(n, from, h, p)
    ensures Served(n, from, h, p)
  {
    assert Extends(from, from);
  }

  // ----- One move at a time -----

  function WithSys(p: Fed, s: Sys): Fed {
    p.(sys := s)
  }

  function WithPc(p: Fed, pc: Pc): Fed {
    p.(feed := p.feed.(pc := pc))
  }

  lemma OtherIs(p: Fed, ev: Event, m: Move)
    requires WellFormed(p.sys.ring) && !ev.CheckState? && !ev.StoreClosed? && m == Other(ev)
    ensures EventOf(p, m) == [ev] && FedStep(p, m) == WithSys(p, Step(p.sys, ev))
  {
  }

  lemma BeginIs(p: Fed, e: Entry, m: Move)
    requires WellFormed(p.sys.ring) && m == Begin
    requires p.feed.pc == Offering(e) && p.sys.lock == Unlocked && p.sys.state == Active
    ensures EventOf(p, m) == [CheckState(e)]
    ensures FedStep(p, m) == WithPc(WithSys(p, p.sys.(lock := Checked(e))), Writing)
  {
  }

  lemma ReturnIs(p: Fed, m: Move)
    requires WellFormed(p.sys.ring) && m == Return && p.feed.pc == Writing && p.sys.lock == Unlocked
    ensures EventOf(p, m) == [] && FedStep(p, m) == WithPc(p, if p.feed.last.Some? then Closing else Idle)
  {
  }

  /** A step of the coordinator that is not the writer's. */
  lemma OtherMove(n: nat, from: seq<Move>, h: nat, p: Fed, ev: Event, s: Sys)
    requires WellFormed(p.sys.ring) && Served(n, from, h, p) && Harmless(p.sys, [ev], h)
    requires !ev.CheckState? && !ev.StoreClosed? && s == Step(p.sys, ev)
    ensures Served(n, from, h, WithSys(p, s))
  {
    OtherIs(p, ev, Other(ev));
    ServedOn(n, from, h, p, Other(ev), WithSys(p, s));
  }

  lemma BeginMove(n: nat, from: seq<Move>, h: nat, p: Fed, e: Entry, s: Sys)
    requires WellFormed(p.sys.ring) && Served(n, from, h, p) && p.feed.pc == Offering(e)
    requires p.sys.lock == Unlocked && p.sys.state == Active && s == p.sys.(lock := Checked(e))
    ensures Served(n, from, h, WithPc(WithSys(p, s), Writing))
  {
    BeginIs(p, e, Begin);
    ServedOn(n, from, h, p, Begin, WithPc(WithSys(p, s), Writing));
  }

  lemma ReturnMove(n: nat, from: seq<Move>, h: nat, p: Fed, pc: Pc)
    requires WellFormed(p.sys.ring) && Served(n, from, h, p)
    requires p.feed.pc == Writing && p.sys.lock == Unlocked && pc == if p.feed.last.Some? then Closing else Idle
    ensures Served(n, from, h, WithPc(p, pc))
  {
    ReturnIs(p, Return);
    ServedOn(n, from, h, p, Return, WithPc(p, pc));
  }

  lemma SwapStep(s: Sys, e: Entry)
    requires WellFormed(s.ring) && s.lock == Checked(e)
    ensures Step(s, SwapIn) == s.(ring := Put(s.ring, e), log := s.log + [e], lock := if Terminal(e) then Swapped else Unlocked)
  {
  }

  /** The coordinator after a chunk has been written. */
  function Wrote(s: Sys, e: Entry): Sys
    requires WellFormed(s.ring)
  {
    s.(ring := Put(s.ring, e), log := s.log + [e], lock := Unlocked, state := if Terminal(e) then Draining else s.state)
  }

  lemma SwapMove(n: nat, from: seq<Move>, h: nat, p: Fed, e: Entry, s: Sys)
    requires WellFormed(s.ring) && Served(n, from, h, p) && p.sys == s.(lock := Checked(e))
    ensures Served(n, from, h, WithSys(p, Wrote(s, e)))
  {
    var swapped := Step(p.sys, SwapIn);
    SwapStep(p.sys, e);
    OtherMove(n, from, h, p, SwapIn, swapped);
    if Terminal(e) {
      OtherMove(n, from, h, WithSys(p, swapped), MarkDraining, Wrote(s, e));
    }
  }

  /** The writer writes the chunk it offers. */
  lemma Writes(n: nat, from: seq<Move>, h: nat, p: Fed, e: Entry, pc: Pc)
    requires WellFormed(p.sys.ring) && Served(n, from, h, p) && p.feed.pc == Offering(e)
    requires p.sys.lock == Unlocked && p.sys.state == Active && pc == if p.feed.last.Some? then Closing else Idle
    ensures Served(n, from, h, WithPc(WithSys(p, Wrote(p.sys, e)), pc))
  {
    var s := p.sys;
    var checked := s.(lock := Checked(e));
    BeginMove(n, from, h, p, e, checked);
    var writing := WithPc(WithSys(p, checked), Writing);
    SwapMove(n, from, h, writing, e, s);
    ReturnMove(n, from, h, WithSys(writing, Wrote(s, e)), pc);
  }

  // ----- The client keeps level with the writer -----

  /** `h` holds the stream and stands level with the writer. */
  ghost predicate Level(s: Sys, h: nat) {
    && Good(s) && 2 <= |s.ring.slots| && s.lock == Unlocked && Phase(s, h) == Registered && h in s.readers
    && s.readers[h].outcome == Reading && s.readers[h].at == s.ring.pos && s.readers[h].count == s.ring.writeSeq
  }

  lemma WroteIsGood(s: Sys, e: Entry)
    requires Good(s) && s.lock == Unlocked
    ensures Good(Wrote(s, e))
  {
    var checked := s.(lock := Checked(e));
    StepIsGood(checked, SwapIn);
    SwapStep(checked, e);
  }

  lemma OneFault(e: Entry)
    ensures LastFault([e]) == if Terminal(e) then Some(Fault(e.err, e.status)) else None
  {
    assert [e][..0] == [];
  }

  lemma OneAhead(s: Sys, h: nat, e: Entry, s': Sys)
    requires Level(s, h) && s' == Wrote(s, e)
    ensures Lag(s'.ring, s.readers[h].at) == 1 && s.readers[h].at != s'.ring.pos && Tail(s'.log, 1) == [e]
  {
  }

  /** What `h` has after its next poll. */
  lemma LevelReads(s: Sys, h: nat, e: Entry, s': Sys, rd: Reader)
    requires Level(s, h) && s' == Wrote(s, e) && rd == Polled(s', s.readers[h])
    ensures Good(s') && Step(s', Poll(h)) == s'.(readers := s'.readers[h := rd])
    ensures rd.at == s'.ring.pos && rd.count == s'.ring.writeSeq && rd.joined == s.readers[h].joined
    ensures rd.outcome == if Terminal(e) then Ended(Fault(e.err, e.status)) else Reading
  {
    WroteIsGood(s, e);
    OneAhead(s, h, e, s');
    PolledReadsTail(s', s.readers[h]);
    OneFault(e);
  }

  lemma PollMove(n: nat, from: seq<Move>, h: nat, p: Fed, s: Sys, e: Entry, rd: Reader)
    requires Served(n, from, h, p) && Level(s, h) && p.sys == Wrote(s, e) && rd == Polled(p.sys, s.readers[h])
    ensures Served(n, from, h, WithSys(p, p.sys.(readers := s.readers[h := rd])))
  {
    LevelReads(s, h, e, p.sys, rd);
    OtherMove(n, from, h, p, Poll(h), Step(p.sys, Poll(h)));
  }

  /** The writer writes the chunk it offers, and `h` reads it. */
  lemma WritesAndReads(n: nat, from: seq<Move>, h: nat, p: Fed, e: Entry, pc: Pc) returns (q: Fed)
    requires Served(n, from, h, p) && Level(p.sys, h) && p.sys.state == Active
    requires p.feed.pc == Offering(e) && pc == if p.feed.last.Some? then Closing else Idle
    ensures Served(n, from, h, q) && q.feed == p.feed.(pc := pc)
    ensures h in q.sys.readers && q.sys.readers[h].joined == p.sys.readers[h].joined
    ensures if Terminal(e) then q.sys.readers[h].outcome == Ended(Fault(e.err, e.status))
            else Level(q.sys, h) && q.sys.state == Active
  {
    var s := p.sys;
    var s' := Wrote(s, e);
    Writes(n, from, h, p, e, pc);
    var wrote := WithPc(WithSys(p, s'), pc);
    var rd := Polled(s', s.readers[h]);
    LevelReads(s, h, e, s', rd);
    PollMove(n, from, h, wrote, s, e, rd);
    q := WithSys(wrote, s'.(readers := s.readers[h := rd]));
    StepIsGood(s', Poll(h));
  }

  // ----- The beginning -----

  /** The client has registered and the writer is about to start. */
  function Registers(n: nat, h: nat): Fed
    requires 0 < n
  {
    Fed(Init(n).(phase := map[h := Registered], clients := 1), NOTHING_FED)
  }

  lemma RegisterSteps(n: nat, h: nat)
    requires 0 < n
    ensures Step(Init(n), LoadState(h)) == Init(n).(phase := map[h := Adding])
    ensures Step(Init(n).(phase := map[h := Adding]), AddClient(h)) == Init(n).(phase := map[h := Registered], clients := 1)
  {
    assert map[][h := Adding] == map[h := Adding] && map[h := Adding][h := Registered] == map[h := Registered];
  }

  lemma TwoEventsKeepUp(s: Sys, evs: seq<Event>, h: nat)
    requires WellFormed(s.ring) && OneClient(evs, h) && |evs| == 2
    ensures KeepsUp(s, evs, h)
  {
    assert evs[..1][..0] == [];
  }

  lemma FirstMove(n: nat, h: nat, m: Move, moves: seq<Move>)
    requires 0 < n && m == Other(LoadState(h)) && moves == [m]
    ensures FedRun(n, moves) == WithSys(Registers(n, h), Init(n).(phase := map[h := Adding]))
    ensures Events(n, moves) == [LoadState(h)]
  {
    RegisterSteps(n, h);
    OtherIs(FedRun(n, []), LoadState(h), m);
    OneMoveMore(n, [], m);
    assert [] + moves == moves;
  }

  lemma SecondMove(n: nat, h: nat, m: Move, moves: seq<Move>)
    requires 0 < n && m == Other(AddClient(h)) && Events(n, moves) == [LoadState(h)]
    requires FedRun(n, moves) == WithSys(Registers(n, h), Init(n).(phase := map[h := Adding]))
    ensures FedRun(n, moves + [m]) == Registers(n, h) && Events(n, moves + [m]) == [LoadState(h)] + [AddClient(h)]
  {
    RegisterSteps(n, h);
    OtherIs(FedRun(n, moves), AddClient(h), m);
    OneMoveMore(n, moves, m);
  }

  lemma LeadsFirst(n: nat, h: nat, moves: seq<Move>, evs: seq<Event>, p: Fed)
    requires 0 < n && FedRun(n, moves) == p && evs == Events(n, moves) && OneClient(evs, h) && |evs| == 2
    requires forall i | 0 <= i < |moves| :: !Own(moves[i])
    ensures Served(n, [], h, p)
  {
    TwoEventsKeepUp(Init(n), evs, h);
    assert Extends([], moves) && Leads(n, moves, h, p);
  }

  lemma ServedFirst(n: nat, h: nat, a: Move, b: Move)
    requires 0 < n && a == Other(LoadState(h)) && b == Other(AddClient(h))
    ensures Served(n, [], h, Registers(n, h))
  {
    FirstMove(n, h, a, [a]);
    SecondMove(n, h, b, [a]);
    LeadsFirst(n, h, [a] + [b], [LoadState(h)] + [AddClient(h)], Registers(n, h));
  }

  lemma JoinStep(s: Sys, h: nat)
    requires WellFormed(s.ring) && h !in s.readers
    ensures Step(s, Join(h)) == s.(readers := s.readers[h :=
      Reader(Prev(s.ring.pos, |s.ring.slots|), s.ring.writeSeq - 1, s.ring.writeSeq - 1, false, [], Reading)])
  {
  }

  /** On a new ring a joining client finds one slot that was never written, and then stands level with the writer. */
  lemma FirstPoll(s: Sys, h: nat, t: Sys)
    requires Good(s) && 2 <= |s.ring.slots| && s.ring.writeSeq == 0 && s.lock == Unlocked && Phase(s, h) == Registered
    requires h in s.readers && s.readers[h] == Reader(|s.ring.slots| - 1, -1, -1, false, [], Reading)
    requires t == Step(s, Poll(h))
    ensures Level(t, h) && t.readers[h].joined == -1 && t.state == s.state
  {
    var rd := s.readers[h];
    PolledReadsTail(s, rd);
    assert Lag(s.ring, rd.at) == 1 && Tail(s.log, 1) == [];
    StepIsGood(s, Poll(h));
    assert t == s.(readers := s.readers[h := Polled(s, rd)]);
  }

  lemma GoodStart(n: nat, s: Sys)
    requires 0 < n && s.ring == NewRing(n) && s.log == [] && s.readers == map[]
    ensures Good(s) && s.ring.writeSeq == 0
  {
    NewRingInv(n);
    NewRingIntact(n);
  }

  lemma ServedJoined(n: nat, h: nat, s: Sys)
    requires 2 <= n && s == Step(Registers(n, h).sys, Join(h))
    ensures Served(n, [], h, WithSys(Registers(n, h), s))
  {
    ServedFirst(n, h, Other(LoadState(h)), Other(AddClient(h)));
    OtherMove(n, [], h, Registers(n, h), Join(h), s);
  }

  lemma GoodJoined(n: nat, s: Sys, h: nat, t: Sys)
    requires 2 <= n && s == Init(n).(phase := map[h := Registered], clients := 1) && t == Step(s, Join(h))
    ensures Good(t) && t == s.(readers := map[h := Reader(n - 1, -1, -1, false, [], Reading)])
  {
    GoodStart(n, s);
    StepIsGood(s, Join(h));
    JoinStep(s, h);
  }

  /** The writer has nothing under way, and `h`, which joined before the first write, has everything written so far. */
  ghost predicate AtRest(p: Fed, h: nat) {
    && Level(p.sys, h) && p.sys.state == Active && p.feed.pc == Idle && p.feed.last.None?
    && p.sys.readers[h].joined == -1
  }

  /** The client joins and finds nothing yet. */
  lemma ServesFirst(n: nat, h: nat) returns (p: Fed)
    requires 2 <= n
    ensures Served(n, [], h, p) && AtRest(p, h)
  {
    var start := Registers(n, h);
    var joined := Step(start.sys, Join(h));
    ServedJoined(n, h, joined);
    GoodJoined(n, start.sys, h, joined);
    var polled := Step(joined, Poll(h));
    OtherMove(n, [], h, WithSys(start, joined), Poll(h), polled);
    FirstPoll(joined, h, polled);
    p := WithSys(start, polled);
  }

  // ----- The client that stays -----

  lemma HoldsAlone(n: nat, start: seq<Event>, h: nat)
    requires 0 < n && |start| == 2 && start[0] == LoadState(h) && start[1] == AddClient(h)
    ensures Held(Run(Init(n), start), h)
  {
    var first := start[..1];
    assert first[..0] == [] && first[0] == LoadState(h);
    RegisterSteps(n, h);
    assert Run(Init(n), first) == Init(n).(phase := map[h := Adding]);
    var s := Run(Init(n), start);
    assert start[..|start| - 1] == first;
    assert s == Init(n).(phase := map[h := Registered], clients := 1);
    assert RegisteredClients(s) == {h};
  }

  lemma OneClientStays(n: nat, evs: seq<Event>, h: nat)
    requires 0 < n && OneClient(evs, h)
    ensures StartsAndStays(n, evs, 0, 2, h) && Held(Run(Init(n), evs[..2]), h)
  {
    assert evs[..0] == [];
    HoldsAlone(n, evs[..2], h);
  }
}

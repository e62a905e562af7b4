/**
  Who runs when: request handlers start a writer under the initialization lock, register, and leave;
  writers bracket their work with the provider's counter and take the lock to report their end.
  Any number of coordinators share the counters. A step that is not enabled changes nothing.
 */
module Accounting {
  import opened Basics

  /** A handler, from taking the lock to leaving. */
  datatype HandlerPc = Locked | Marked | Ready | Counted | Streaming | Gone

  datatype Handler = Handler(coord: nat, pc: HandlerPc)

  /** A writer goroutine, from being spawned to its return. */
  datatype WriterPc = Spawned | Bracketed | Leaving | Closing | Cleared | Returned

  datatype Writer = Writer(coord: nat, provider: string, pc: WriterPc)

  datatype Owner = Nobody | HandlerOwns(h: nat) | WriterOwns(w: nat)

  datatype World = World(handlers: map<nat, Handler>, writers: map<nat, Writer>,
                         lock: map<nat, Owner>, active: map<nat, bool>,
                         clients: map<nat, int>, count: map<string, int>)

  datatype Event =
    | Lock(h: nat, c: nat) | Check(h: nat) | Spawn(h: nat, w: nat, provider: string) | Register(h: nat)
    | Unlock(h: nat) | Unregister(h: nat)
    | Enter(w: nat) | Exit(w: nat) | Abort(w: nat) | LockToClose(w: nat) | ClearFlag(w: nat) | UnlockAndReturn(w: nat)

  function LockOf(s: World, c: nat): Owner {
    if c in s.lock then s.lock[c] else Nobody
  }

  function ActiveOf(s: World, c: nat): bool {
    c in s.active && s.active[c]
  }

  function ClientsOf(s: World, c: nat): int {
    if c in s.clients then s.clients[c] else 0
  }

  function CountOf(s: World, p: string): int {
    if p in s.count then s.count[p] else 0
  }

  const INIT := World(map[], map[], map[], map[], map[], map[])

  predicate HandlerAt(s: World, h: nat, pc: HandlerPc) {
    h in s.handlers && s.handlers[h].pc == pc
  }

  predicate WriterAt(s: World, w: nat, pc: WriterPc) {
    w in s.writers && s.writers[w].pc == pc
  }

  function MoveHandler(s: World, h: nat, pc: HandlerPc): World
    requires h in s.handlers
  {
    s.(handlers := s.handlers[h := s.handlers[h].(pc := pc)])
  }

  function MoveWriter(s: World, w: nat, pc: WriterPc): World
    requires w in s.writers
  {
    s.(writers := s.writers[w := s.writers[w].(pc := pc)])
  }

  function HandlerStep(s: World, ev: Event): World {
    match ev
    case Lock(h, c) =>
      if h !in s.handlers && LockOf(s, c) == Nobody then
        s.(handlers := s.handlers[h := Handler(c, Locked)], lock := s.lock[c := HandlerOwns(h)])
      else s
    case Check(h) =>
      if HandlerAt(s, h, Locked) then
        var c := s.handlers[h].coord;
        if ActiveOf(s, c) then MoveHandler(s, h, Ready)
        else MoveHandler(s, h, Marked).(active := s.active[c := true])
      else s
    case Spawn(h, w, p) =>
      if HandlerAt(s, h, Marked) && w !in s.writers then
        MoveHandler(s, h, Ready).(writers := s.writers[w := Writer(s.handlers[h].coord, p, Spawned)])
      else s
    case Register(h) =>
      if HandlerAt(s, h, Ready) then
        var c := s.handlers[h].coord;
        MoveHandler(s, h, Counted).(clients := s.clients[c := ClientsOf(s, c) + 1])
      else s
    case Unlock(h) =>
      if HandlerAt(s, h, Counted) then
        MoveHandler(s, h, Streaming).(lock := s.lock[s.handlers[h].coord := Nobody])
      else s
    case Unregister(h) =>
      if HandlerAt(s, h, Streaming) then
        var c := s.handlers[h].coord;
        MoveHandler(s, h, Gone).(clients := s.clients[c := ClientsOf(s, c) - 1])
      else s
    case _ => s
  }

  function WriterStep(s: World, ev: Event): World {
    match ev
    case Enter(w) =>
      if WriterAt(s, w, Spawned) then
        var p := s.writers[w].provider;
        MoveWriter(s, w, Bracketed).(count := s.count[p := CountOf(s, p) + 1])
      else s
    case Exit(w) =>
      if WriterAt(s, w, Bracketed) then
        var p := s.writers[w].provider;
        MoveWriter(s, w, Leaving).(count := s.count[p := Max(CountOf(s, p) - 1, 0)])
      else s
    case Abort(w) =>
      if WriterAt(s, w, Spawned) then MoveWriter(s, w, Leaving) else s
    case LockToClose(w) =>
      if WriterAt(s, w, Leaving) && LockOf(s, s.writers[w].coord) == Nobody then
        MoveWriter(s, w, Closing).(lock := s.lock[s.writers[w].coord := WriterOwns(w)])
      else s
    case ClearFlag(w) =>
      if WriterAt(s, w, Closing) then
        MoveWriter(s, w, Cleared).(active := s.active[s.writers[w].coord := false])
      else s
    case UnlockAndReturn(w) =>
      if WriterAt(s, w, Cleared) then
        MoveWriter(s, w, Returned).(lock := s.lock[s.writers[w].coord := Nobody])
      else s
    case _ => s
  }

  function Step(s: World, ev: Event): World {
    WriterStep(HandlerStep(s, ev), ev)
  }

  function Run(evs: seq<Event>): World {
    if evs == [] then INIT else Step(Run(evs[..|evs| - 1]), evs[|evs| - 1])
  }

  // ----- The sets that the counters count -----

  predicate IsRegistered(x: Handler, c: nat) {
    x.coord == c && (x.pc == Counted || x.pc == Streaming)
  }

  function Registered(handlers: map<nat, Handler>, c: nat): set<nat> {
    set h | h in handlers && IsRegistered(handlers[h], c)
  }

  predicate IsInside(x: Writer, p: string) {
    x.provider == p && x.pc == Bracketed
  }

  function Inside(writers: map<nat, Writer>, p: string): set<nat> {
    set w | w in writers && IsInside(writers[w], p)
  }

  predicate IsLive(x: Writer, c: nat) {
    x.coord == c && x.pc != Returned
  }

  function One(b: bool): int {
    if b then 1 else 0
  }

  lemma SizeWith(rest: set<nat>, x: nat, b: bool)
    requires x !in rest
    ensures |if b then rest + {x} else rest| == |rest| + One(b)
  {
  }

  lemma RegisteredSplit(handlers: map<nat, Handler>, h: nat, c: nat, rest: set<nat>)
    requires rest == Registered(handlers, c) - {h}
    ensures |Registered(handlers, c)| == |rest| + One(h in handlers && IsRegistered(handlers[h], c))
  {
    assert Registered(handlers, c) == if h in handlers && IsRegistered(handlers[h], c) then rest + {h} else rest;
    SizeWith(rest, h, h in handlers && IsRegistered(handlers[h], c));
  }

  lemma RegisteredAfter(handlers: map<nat, Handler>, h: nat, x: Handler, c: nat)
    ensures |Registered(handlers[h := x], c)|
      == |Registered(handlers, c)| + One(IsRegistered(x, c)) - One(h in handlers && IsRegistered(handlers[h], c))
  {
    var rest := Registered(handlers, c) - {h};
    assert Registered(handlers[h := x], c) - {h} == rest;
    RegisteredSplit(handlers, h, c, rest);
    RegisteredSplit(handlers[h := x], h, c, rest);
  }

  lemma InsideSplit(writers: map<nat, Writer>, w: nat, p: string, rest: set<nat>)
    requires rest == Inside(writers, p) - {w}
    ensures |Inside(writers, p)| == |rest| + One(w in writers && IsInside(writers[w], p))
  {
    assert Inside(writers, p) == if w in writers && IsInside(writers[w], p) then rest + {w} else rest;
    SizeWith(rest, w, w in writers && IsInside(writers[w], p));
  }

  lemma InsideAfter(writers: map<nat, Writer>, w: nat, x: Writer, p: string)
    ensures |Inside(writers[w := x], p)|
      == |Inside(writers, p)| + One(IsInside(x, p)) - One(w in writers && IsInside(writers[w], p))
  {
    var rest := Inside(writers, p) - {w};
    assert Inside(writers[w := x], p) - {w} == rest;
    InsideSplit(writers, w, p, rest);
    InsideSplit(writers[w := x], w, p, rest);
  }

  // ----- What every step keeps -----

  predicate HoldsLock(x: Handler) {
    x.pc != Streaming && x.pc != Gone
  }

  predicate Ending(x: Writer) {
    x.pc == Closing || x.pc == Cleared
  }

  ghost predicate OwnerFits(s: World, c: nat, o: Owner) {
    match o
    case Nobody => true
    case HandlerOwns(h) => h in s.handlers && s.handlers[h].coord == c && HoldsLock(s.handlers[h])
    case WriterOwns(w) => w in s.writers && s.writers[w].coord == c && Ending(s.writers[w])
  }

  /** A handler or writer owns its coordinator's lock exactly while it is in its locked section. */
  ghost predicate LocksFit(s: World) {
    && (forall h | h in s.handlers :: HoldsLock(s.handlers[h]) ==> LockOf(s, s.handlers[h].coord) == HandlerOwns(h))
    && (forall w | w in s.writers :: Ending(s.writers[w]) ==> LockOf(s, s.writers[w].coord) == WriterOwns(w))
    && (forall c | c in s.lock :: OwnerFits(s, c, s.lock[c]))
  }

  /** The flag is up from before a writer is spawned until the writer takes it down. */
  ghost predicate FlagsFit(s: World) {
    && (forall w | w in s.writers ::
          s.writers[w].pc != Cleared && s.writers[w].pc != Returned ==> ActiveOf(s, s.writers[w].coord))
    && (forall h | h in s.handlers :: s.handlers[h].pc == Marked ==> ActiveOf(s, s.handlers[h].coord))
  }

  ghost predicate OneLive(s: World) {
    forall v, w | v in s.writers && w in s.writers && v != w ::
      !(IsLive(s.writers[v], s.writers[v].coord) && IsLive(s.writers[w], s.writers[v].coord))
  }

  ghost predicate NoneBesideMarked(s: World) {
    forall h, w | h in s.handlers && w in s.writers ::
      !(s.handlers[h].pc == Marked && IsLive(s.writers[w], s.handlers[h].coord))
  }

  /** At most one writer is live, and none while a handler is about to spawn one. */
  ghost predicate OneWriter(s: World) {
    OneLive(s) && NoneBesideMarked(s)
  }

  ghost predicate CountsFit(s: World) {
    && (forall c :: ClientsOf(s, c) == |Registered(s.handlers, c)|)
    && (forall p :: CountOf(s, p) == |Inside(s.writers, p)|)
  }

  ghost predicate WorldInv(s: World) {
    LocksFit(s) && FlagsFit(s) && OneWriter(s) && CountsFit(s)
  }

  lemma HandlerKeepsClients(s: World, ev: Event, c: nat)
    requires ClientsOf(s, c) == |Registered(s.handlers, c)|
    ensures ClientsOf(HandlerStep(s, ev), c) == |Registered(HandlerStep(s, ev).handlers, c)|
  {
    var t := HandlerStep(s, ev);
    if t != s {
      RegisteredAfter(s.handlers, ev.h, t.handlers[ev.h], c);
    }
  }

  lemma HandlerKeepsCount(s: World, ev: Event, p: string)
    requires CountOf(s, p) == |Inside(s.writers, p)|
    ensures CountOf(HandlerStep(s, ev), p) == |Inside(HandlerStep(s, ev).writers, p)|
  {
    var t := HandlerStep(s, ev);
    if ev.Spawn? && t != s {
      InsideAfter(s.writers, ev.w, t.writers[ev.w], p);
    }
  }

  lemma WriterKeepsCount(s: World, ev: Event, p: string)
    requires CountOf(s, p) == |Inside(s.writers, p)|
    ensures CountOf(WriterStep(s, ev), p) == |Inside(WriterStep(s, ev).writers, p)|
  {
    var t := WriterStep(s, ev);
    if t != s {
      if WriterAt(s, ev.w, Bracketed) && s.writers[ev.w].provider == p {
        assert ev.w in Inside(s.writers, p);
      }
      InsideAfter(s.writers, ev.w, t.writers[ev.w], p);
    }
  }

  lemma StepKeepsCounts(s: World, ev: Event)
    requires CountsFit(s)
    ensures CountsFit(Step(s, ev))
  {
    forall c ensures ClientsOf(Step(s, ev), c) == |Registered(Step(s, ev).handlers, c)| {
      HandlerKeepsClients(s, ev, c);
    }
    forall p ensures CountOf(Step(s, ev), p) == |Inside(Step(s, ev).writers, p)| {
      HandlerKeepsCount(s, ev, p);
      WriterKeepsCount(HandlerStep(s, ev), ev, p);
    }
  }

  lemma OnlyOwnerUnlocks(s: World, ev: Event, h: nat, c: nat, t: World)
    requires LocksFit(s) && t == HandlerStep(s, ev) && LockOf(s, c) == HandlerOwns(h)
    ensures LockOf(t, c) == HandlerOwns(h) || ev == Unlock(h)
  {
  }

  lemma HandlerKeepsHolders(s: World, ev: Event, h: nat, t: World)
    requires LocksFit(s) && t == HandlerStep(s, ev)
    ensures h in t.handlers && HoldsLock(t.handlers[h]) ==> LockOf(t, t.handlers[h].coord) == HandlerOwns(h)
  {
    if h in s.handlers {
      assert t.handlers[h].coord == s.handlers[h].coord;
      if HoldsLock(t.handlers[h]) {
        OnlyOwnerUnlocks(s, ev, h, t.handlers[h].coord, t);
      }
    }
  }

  lemma HandlerKeepsOwners(s: World, ev: Event, c: nat)
    requires LocksFit(s)
    ensures var t := HandlerStep(s, ev);
      c in t.lock ==> OwnerFits(t, c, t.lock[c])
  {
    if c in s.lock {
      assert OwnerFits(s, c, s.lock[c]);
    }
  }

  lemma HandlerKeepsEnding(s: World, ev: Event, w: nat)
    requires LocksFit(s)
    ensures var t := HandlerStep(s, ev);
      w in t.writers && Ending(t.writers[w]) ==> LockOf(t, t.writers[w].coord) == WriterOwns(w)
  {
  }

  lemma HandlerKeepsLocks(s: World, ev: Event)
    requires LocksFit(s)
    ensures LocksFit(HandlerStep(s, ev))
  {
    var t := HandlerStep(s, ev);
    forall h | h in t.handlers ensures HoldsLock(t.handlers[h]) ==> LockOf(t, t.handlers[h].coord) == HandlerOwns(h) {
      HandlerKeepsHolders(s, ev, h, t);
    }
    forall w | w in t.writers ensures Ending(t.writers[w]) ==> LockOf(t, t.writers[w].coord) == WriterOwns(w) {
      HandlerKeepsEnding(s, ev, w);
    }
    forall c | c in t.lock ensures OwnerFits(t, c, t.lock[c]) {
      HandlerKeepsOwners(s, ev, c);
    }
  }

  lemma WriterKeepsLocks(s: World, ev: Event)
    requires LocksFit(s)
    ensures LocksFit(WriterStep(s, ev))
  {
  }

  lemma HandlerKeepsFlags(s: World, ev: Event)
    requires LocksFit(s) && FlagsFit(s)
    ensures FlagsFit(HandlerStep(s, ev))
  {
  }

  lemma WriterKeepsFlags(s: World, ev: Event)
    requires LocksFit(s) && FlagsFit(s) && OneWriter(s)
    ensures FlagsFit(WriterStep(s, ev))
  {
  }

  lemma HandlerKeepsOneLive(s: World, ev: Event)
    requires OneWriter(s)
    ensures OneLive(HandlerStep(s, ev))
  {
  }

  lemma HandlerKeepsNoneBesideMarked(s: World, ev: Event)
    requires LocksFit(s) && FlagsFit(s) && OneWriter(s)
    ensures NoneBesideMarked(HandlerStep(s, ev))
  {
  }

  lemma WriterKeepsOneWriter(s: World, ev: Event)
    requires OneWriter(s)
    ensures OneWriter(WriterStep(s, ev))
  {
  }

  lemma {:induction false} RunKeepsInv(evs: seq<Event>)
    ensures WorldInv(Run(evs))
  {
    if evs == [] {
      assert forall c :: Registered(INIT.handlers, c) == {};
      assert forall p :: Inside(INIT.writers, p) == {};
    } else {
      var s, ev := Run(evs[..|evs| - 1]), evs[|evs| - 1];
      RunKeepsInv(evs[..|evs| - 1]);
      HandlerKeepsLocks(s, ev);
      HandlerKeepsFlags(s, ev);
      HandlerKeepsOneLive(s, ev);
      HandlerKeepsNoneBesideMarked(s, ev);
      WriterKeepsLocks(HandlerStep(s, ev), ev);
      WriterKeepsFlags(HandlerStep(s, ev), ev);
      WriterKeepsOneWriter(HandlerStep(s, ev), ev);
      StepKeepsCounts(s, ev);
    }
  }

  /** At most one writer goroutine is live per coordinator, whatever the interleaving. */
  lemma SingleWriter(evs: seq<Event>, v: nat, w: nat)
    requires var s := Run(evs);
      && v in s.writers && s.writers[v].pc != Returned
      && w in s.writers && s.writers[w].pc != Returned
      && s.writers[v].coord == s.writers[w].coord
    ensures v == w
  {
    RunKeepsInv(evs);
  }

  /**
    The client counter is the number of registered handlers, each provider's counter the number of
    writers inside their bracket, over all coordinators; so the floor at zero never takes effect.
   */
  lemma CountersAreExact(evs: seq<Event>, c: nat, p: string, w: nat)
    ensures var s := Run(evs);
      && ClientsOf(s, c) == |Registered(s.handlers, c)| && CountOf(s, p) == |Inside(s.writers, p)|
      && (WriterAt(s, w, Bracketed) ==>
            CountOf(Step(s, Exit(w)), s.writers[w].provider) == CountOf(s, s.writers[w].provider) - 1)
  {
    RunKeepsInv(evs);
    var s := Run(evs);
    if WriterAt(s, w, Bracketed) {
      assert w in Inside(s.writers, s.writers[w].provider);
    }
  }

  // ----- The flag, exactly -----

  /** A writer that is running or about to take the flag down. */
  predicate KeepsFlag(x: Writer) {
    x.pc != Cleared && x.pc != Returned
  }

  ghost predicate FlagWanted(s: World, c: nat) {
    || (exists h | h in s.handlers :: s.handlers[h].pc == Marked && s.handlers[h].coord == c)
    || (exists w | w in s.writers :: KeepsFlag(s.writers[w]) && s.writers[w].coord == c)
  }

  ghost predicate FlagsWanted(s: World) {
    forall c | ActiveOf(s, c) :: FlagWanted(s, c)
  }

  lemma WriterWants(s: World, w: nat)
    requires w in s.writers && KeepsFlag(s.writers[w])
    ensures FlagWanted(s, s.writers[w].coord)
  {
  }

  /** A marked handler stays marked until it has spawned its writer. */
  lemma MarkedUntilSpawn(s: World, ev: Event, h: nat, t: World)
    requires t == HandlerStep(s, ev) && HandlerAt(s, h, Marked)
    ensures h in t.handlers && t.handlers[h].coord == s.handlers[h].coord
    ensures t.handlers[h].pc == Marked
         || (ev.Spawn? && ev.w in t.writers && KeepsFlag(t.writers[ev.w]) && t.writers[ev.w].coord == s.handlers[h].coord)
  {
  }

  /** Handlers leave the writers that there are alone, and only a marked one raises the flag. */
  lemma HandlerRaisesFlag(s: World, ev: Event, c: nat, w: nat, t: World)
    requires t == HandlerStep(s, ev)
    ensures w in s.writers ==> w in t.writers && t.writers[w] == s.writers[w]
    ensures ActiveOf(t, c) && !ActiveOf(s, c) ==> ev.Check? && HandlerAt(t, ev.h, Marked) && t.handlers[ev.h].coord == c
  {
  }

  lemma HandlerKeepsWanted(s: World, ev: Event, c: nat, t: World)
    requires t == HandlerStep(s, ev) && (ActiveOf(s, c) ==> FlagWanted(s, c))
    ensures ActiveOf(t, c) ==> FlagWanted(t, c)
  {
    if !ActiveOf(s, c) {
      HandlerRaisesFlag(s, ev, c, 0, t);
    } else if h :| h in s.handlers && s.handlers[h].pc == Marked && s.handlers[h].coord == c {
      MarkedUntilSpawn(s, ev, h, t);
    } else {
      var w :| w in s.writers && KeepsFlag(s.writers[w]) && s.writers[w].coord == c;
      HandlerRaisesFlag(s, ev, c, w, t);
    }
  }

  lemma WriterKeepsWanted(s: World, ev: Event, c: nat, t: World)
    requires t == WriterStep(s, ev) && (ActiveOf(s, c) ==> FlagWanted(s, c))
    ensures ActiveOf(t, c) ==> FlagWanted(t, c)
  {
    if ActiveOf(t, c) {
      if h :| h in s.handlers && s.handlers[h].pc == Marked && s.handlers[h].coord == c {
        assert t.handlers[h] == s.handlers[h];
      } else {
        var w :| w in s.writers && KeepsFlag(s.writers[w]) && s.writers[w].coord == c;
        WriterWants(t, w);
      }
    }
  }

  lemma {:induction false} FlagsAreWanted(evs: seq<Event>)
    ensures FlagsWanted(Run(evs))
  {
    if evs == [] {
    } else {
      var s, ev := Run(evs[..|evs| - 1]), evs[|evs| - 1];
      FlagsAreWanted(evs[..|evs| - 1]);
      forall c | ActiveOf(Step(s, ev), c) ensures FlagWanted(Step(s, ev), c) {
        HandlerKeepsWanted(s, ev, c, HandlerStep(s, ev));
        WriterKeepsWanted(HandlerStep(s, ev), ev, c, Step(s, ev));
      }
    }
  }

  /** The flag is up exactly while a handler is about to spawn a writer or a writer has not yet taken it down. */
  lemma FlagIsExact(evs: seq<Event>, c: nat)
    ensures ActiveOf(Run(evs), c) <==> FlagWanted(Run(evs), c)
  {
    RunKeepsInv(evs);
    FlagsAreWanted(evs);
  }

  /** So whenever the lock is free, no handler is marked and no writer keeps the flag, the next handler spawns a writer. */
  lemma NextHandlerSpawns(evs: seq<Event>, h: nat, c: nat, w: nat, p: string)
    requires var s := Run(evs); h !in s.handlers && w !in s.writers && LockOf(s, c) == Nobody && !FlagWanted(s, c)
    ensures var t := Step(Step(Step(Run(evs), Lock(h, c)), Check(h)), Spawn(h, w, p));
      WriterAt(t, w, Spawned) && t.writers[w].coord == c && ActiveOf(t, c)
  {
    FlagIsExact(evs, c);
    var s := Run(evs);
    var locked := Step(s, Lock(h, c));
    assert HandlerAt(locked, h, Locked) && locked.handlers[h].coord == c && locked.writers == s.writers && !ActiveOf(locked, c);
    var marked := Step(locked, Check(h));
    assert HandlerAt(marked, h, Marked) && marked.handlers[h].coord == c && marked.writers == s.writers && ActiveOf(marked, c);
  }

  /** A writer that nobody disturbs is counted while it works. */
  lemma WriterIsCounted(s: World, w: nat, x: Writer, inside: World, left: World)
    requires WriterAt(s, w, Spawned) && x == s.writers[w] && 0 <= CountOf(s, x.provider)
    requires inside == Step(s, Enter(w)) && left == Step(inside, Exit(w))
    ensures CountOf(inside, x.provider) == CountOf(s, x.provider) + 1 && CountOf(left, x.provider) == CountOf(s, x.provider)
    ensures WriterAt(left, w, Leaving) && left.writers[w].coord == x.coord && left.lock == s.lock
  {
  }

  /** One that stops before its work is not counted at all. */
  lemma AbortedIsNotCounted(s: World, w: nat, p: string)
    requires WriterAt(s, w, Spawned)
    ensures WriterAt(Step(s, Abort(w)), w, Leaving) && CountOf(Step(s, Abort(w)), p) == CountOf(s, p)
  {
  }

  /** When it has left, it takes the flag down under the lock, lets go of the lock and is over. */
  lemma WriterEnds(s: World, w: nat, c: nat, closing: World, cleared: World, end: World)
    requires WriterAt(s, w, Leaving) && c == s.writers[w].coord && LockOf(s, c) == Nobody
    requires closing == Step(s, LockToClose(w)) && cleared == Step(closing, ClearFlag(w)) && end == Step(cleared, UnlockAndReturn(w))
    ensures LockOf(closing, c) == LockOf(cleared, c) == WriterOwns(w) && !ActiveOf(cleared, c)
    ensures WriterAt(end, w, Returned) && LockOf(end, c) == Nobody && !ActiveOf(end, c)
  {
  }

  /** The course of a handler after it has made sure of a writer: it is counted, lets go of the lock, and is uncounted. */
  lemma HandlerRunsThrough(s: World, h: nat, c: nat)
    requires HandlerAt(s, h, Ready) && s.handlers[h].coord == c
    ensures var counted := Step(s, Register(h));
      var streaming := Step(counted, Unlock(h));
      var end := Step(streaming, Unregister(h));
      && ClientsOf(counted, c) == ClientsOf(s, c) + 1 && LockOf(streaming, c) == Nobody
      && HandlerAt(end, h, Gone) && ClientsOf(end, c) == ClientsOf(s, c)
  {
  }
}

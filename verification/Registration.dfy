/** How a client that stays registered protects what was written, and the stream's state. */
module Registration {
  import opened Basics
  import opened RingLog
  import opened Protocol

  /** The step clears nothing that was written and does not change the state by reviving it. */
  predicate Undisturbed(s: Sys, ev: Event)
    requires WellFormed(s.ring)
  {
    Spares(s, ev) && (ev.Revive? ==> Step(s, ev).state == s.state)
  }

  predicate RunsUndisturbed(s: Sys, evs: seq<Event>)
    requires WellFormed(s.ring)
  {
    evs == [] || (RunsUndisturbed(s, evs[..|evs| - 1]) && Undisturbed(Run(s, evs[..|evs| - 1]), evs[|evs| - 1]))
  }

  lemma UndisturbedPrefix(s: Sys, evs: seq<Event>, more: seq<Event>, all: seq<Event>)
    requires WellFormed(s.ring) && |more| <= 1 && all == evs + more && RunsUndisturbed(s, all)
    ensures RunsUndisturbed(s, evs) && forall ev | ev in more :: Undisturbed(Run(s, evs), ev)
  {
    if more == [] {
      assert all == evs;
    } else {
      assert all[..|all| - 1] == evs && all[|all| - 1] == more[0];
    }
  }

  function RegisteredClients(s: Sys): set<nat> {
    set h | h in s.phase && s.phase[h] == Registered
  }

  /** The counter counts the registered clients. */
  ghost predicate Counted(s: Sys) {
    s.clients == |RegisteredClients(s)|
  }

  lemma CountedEnter(s: Sys, h: nat, p: Client, t: Sys)
    requires Counted(s) && t.phase == s.phase[h := p]
    requires t.clients == s.clients + (if p == Registered then 1 else 0) - (if Phase(s, h) == Registered then 1 else 0)
    ensures Counted(t)
  {
    var rest := RegisteredClients(s) - {h};
    assert RegisteredClients(s) == if Phase(s, h) == Registered then rest + {h} else rest;
    assert RegisteredClients(t) == if p == Registered then rest + {h} else rest;
  }

  lemma CountedClientStep(s: Sys, ev: Event, t: Sys)
    requires Counted(s) && t == ClientStep(s, ev)
    ensures Counted(t)
  {
    if t.phase != s.phase {
      CountedEnter(s, ev.h, t.phase[ev.h], t);
    }
  }

  lemma CountedStep(s: Sys, ev: Event)
    requires WellFormed(s.ring) && Counted(s)
    ensures Counted(Step(s, ev))
  {
    var t := WriteStep(s, ev);
    assert RegisteredClients(t) == RegisteredClients(s);
    CountedClientStep(t, ev, ClientStep(t, ev));
    assert RegisteredClients(Step(s, ev)) == RegisteredClients(ClientStep(t, ev));
  }

  /** In every run the counter is exact. */
  lemma {:induction false} ClientsAreCounted(n: nat, evs: seq<Event>)
    requires 0 < n
    ensures Counted(Run(Init(n), evs))
  {
    if evs == [] {
      assert RegisteredClients(Init(n)) == {};
    } else {
      ClientsAreCounted(n, evs[..|evs| - 1]);
      CountedStep(Run(Init(n), evs[..|evs| - 1]), evs[|evs| - 1]);
    }
  }

  /** `c` is registered, and nobody is about to revive, drain or clear. */
  ghost predicate Held(s: Sys, c: nat) {
    && Counted(s) && Phase(s, c) == Registered
    && forall h | h in s.phase :: s.phase[h] !in {SawNobody, Emptied, Drained, SawEmpty}
  }

  lemma {:induction false} UndisturbedSpares(s: Sys, evs: seq<Event>)
    requires WellFormed(s.ring) && RunsUndisturbed(s, evs)
    ensures SparesLog(s, evs)
  {
    if evs == [] {
    } else {
      UndisturbedSpares(s, evs[..|evs| - 1]);
    }
  }

  lemma OthersLeaveSome(s: Sys, h: nat, c: nat)
    requires Held(s, c) && h != c && Phase(s, h) == Registered
    ensures 2 <= s.clients
  {
    assert {c, h} <= RegisteredClients(s);
    SubsetSize({c, h}, RegisteredClients(s));
  }

  lemma HeldSomebody(s: Sys, c: nat)
    requires Held(s, c)
    ensures 1 <= s.clients
  {
    assert c in RegisteredClients(s);
  }

  lemma HeldClientStep(s: Sys, ev: Event, c: nat, t: Sys)
    requires Held(s, c) && ev != RemoveClient(c) && t == ClientStep(s, ev)
    ensures Held(t, c) && t.ring == s.ring && t.state == s.state
  {
    HeldSomebody(s, c);
    CountedClientStep(s, ev, t);
    if ev.RemoveClient? && Phase(s, ev.h) == Registered {
      OthersLeaveSome(s, ev.h, c);
    }
  }

  lemma HeldStep(s: Sys, ev: Event, c: nat)
    requires WellFormed(s.ring) && Held(s, c) && ev != RemoveClient(c) && !ev.Clear?
    ensures Held(Step(s, ev), c) && Undisturbed(s, ev)
  {
    var t := WriteStep(s, ev);
    assert t.phase == s.phase && RegisteredClients(t) == RegisteredClients(s);
    var u := ClientStep(t, ev);
    HeldClientStep(t, ev, c, u);
    assert Step(s, ev).phase == u.phase && RegisteredClients(Step(s, ev)) == RegisteredClients(u);
  }

  /** The run disturbs nothing and ends with `c` holding the stream. */
  ghost predicate Protected(s: Sys, evs: seq<Event>, c: nat)
    requires WellFormed(s.ring)
  {
    RunsUndisturbed(s, evs) && Held(Run(s, evs), c)
  }

  lemma ProtectedSnoc(s: Sys, evs: seq<Event>, c: nat)
    requires WellFormed(s.ring) && evs != [] && Protected(s, evs[..|evs| - 1], c)
    requires evs[|evs| - 1] != RemoveClient(c) && !evs[|evs| - 1].Clear?
    ensures Protected(s, evs, c)
  {
    HeldStep(Run(s, evs[..|evs| - 1]), evs[|evs| - 1], c);
  }

  /**
    While a client stays registered, and the writer is not started anew, nothing that was written is
    cleared and nobody revives the stream.
   */
  lemma {:induction false} RegisteredClientProtects(s: Sys, evs: seq<Event>, k: nat, c: nat)
    requires WellFormed(s.ring) && k <= |evs| && Protected(s, evs[..k], c)
    requires forall i | k <= i < |evs| :: evs[i] != RemoveClient(c) && !evs[i].Clear?
    ensures Protected(s, evs, c)
  {
    if k == |evs| {
      assert evs[..k] == evs;
    } else {
      var before := evs[..|evs| - 1];
      assert before[..k] == evs[..k];
      RegisteredClientProtects(s, before, k, c);
      ProtectedSnoc(s, evs, c);
    }
  }

  lemma StepGrows(s: Sys, ev: Event)
    requires WellFormed(s.ring)
    ensures s.ring.writeSeq <= Step(s, ev).ring.writeSeq
  {
  }

  /** Until something is written there is nothing to disturb. */
  lemma {:induction false} NothingToDisturb(n: nat, evs: seq<Event>)
    requires 0 < n && Run(Init(n), evs).ring.writeSeq == 0 && forall ev | ev in evs :: !ev.Revive?
    ensures RunsUndisturbed(Init(n), evs)
  {
    if evs == [] {
    } else {
      var before, last := evs[..|evs| - 1], evs[|evs| - 1];
      StepGrows(Run(Init(n), before), last);
      NothingToDisturb(n, before);
      RunKeepsInv(n, before);
      EarlyClearSpares(Run(Init(n), before), last);
      assert last in evs;
    }
  }

  /** No client is leaving. */
  predicate NobodyLeaving(s: Sys) {
    forall h | h in s.phase :: s.phase[h] !in {Emptied, Drained, Left, SawEmpty}
  }

  lemma NobodyLeavesStep(s: Sys, ev: Event)
    requires WellFormed(s.ring) && NobodyLeaving(s) && !ev.RemoveClient? && !ev.Revive?
    ensures NobodyLeaving(Step(s, ev)) && (!ev.Clear? ==> Undisturbed(s, ev))
  {
    var t := WriteStep(s, ev);
    assert t.phase == s.phase;
    assert Step(s, ev).phase == ClientStep(t, ev).phase;
  }

  /**
    While clients register and none leaves, nothing is disturbed after the clear with which the writer is
    started, though the writer may be ahead of them.
   */
  lemma {:induction false} StartIsUndisturbed(n: nat, evs: seq<Event>, j: nat)
    requires 0 < n && j <= |evs| && Run(Init(n), evs[..j]).ring.writeSeq == 0
    requires forall ev | ev in evs :: !ev.Revive? && !ev.RemoveClient?
    requires forall i | j <= i < |evs| :: !evs[i].Clear?
    ensures RunsUndisturbed(Init(n), evs) && NobodyLeaving(Run(Init(n), evs))
    decreases |evs|
  {
    if evs == [] {
    } else {
      var before, last := evs[..|evs| - 1], evs[|evs| - 1];
      assert last in evs && forall ev | ev in before :: ev in evs;
      if j == |evs| {
        assert evs[..j] == evs;
        StepGrows(Run(Init(n), before), last);
        assert before[..|before|] == before;
        StartIsUndisturbed(n, before, |before|);
        NothingToDisturb(n, evs);
      } else {
        assert before[..j] == evs[..j];
        StartIsUndisturbed(n, before, j);
      }
      NobodyLeavesStep(Run(Init(n), before), last);
    }
  }
}

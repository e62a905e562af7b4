/**
  The loop that reads a source body and passes on what it read. One turn of the loop meets one
  `Turn`: the stream state, the context and the clock as the loop finds them, and one read.
 */
module SourceLoop {
  import opened Basics
  import opened Backoff
  import opened RingLog

  datatype Read = Read(data: Bytes, err: Option<Error>)

  datatype Turn = Turn(active: bool, cancelled: bool, late: bool, read: Read, settled: bool)

  /** The loop is still reading, or it has returned. */
  datatype Exit = Running | Returned(err: Option<Error>)

  const TIMED_OUT := Failed("stream timeout: no new segments")

  const MAX_EMPTY_READS := 10

  // Delays are in nanoseconds.
  const SECOND := 1_000_000_000

  /** The retry delays of a loop: a second less than the timeout is the most it sleeps. */
  function RetryDelay(initialBackoff: int, timeoutSeconds: int): Delay {
    NewDelay(initialBackoff, (timeoutSeconds - 1) * SECOND)
  }

  /** What one turn does: pass a block on, sleep before a retry, return. */
  datatype Action = Action(feed: Option<Bytes>, empties: nat, retries: bool, exit: Exit)

  /** What a read does to a loop that has met `empties` empty reads in a row. */
  function ReadAction(empties: nat, r: Read, timeoutSeconds: int): Action {
    if r.data == [] then
      Action(None, empties + 1, false, if empties + 1 > MAX_EMPTY_READS then Returned(Some(Eof)) else Running)
    else if r.err == Some(Eof) then
      Action(Some(r.data), 0, false, Returned(Some(Eof)))
    else if r.err.Some? then
      if timeoutSeconds >= 0 then Action(None, 0, true, Running) else Action(None, 0, false, Returned(r.err))
    else
      Action(Some(r.data), 0, false, Running)
  }

  function TurnAction(empties: nat, t: Turn, timeoutSeconds: int): Action {
    if !t.active then Action(None, empties, false, Returned(None))
    else if t.cancelled then Action(None, empties, false, Returned(Some(Canceled)))
    else if timeoutSeconds > 0 && t.late then Action(None, empties, false, Returned(Some(TIMED_OUT)))
    else ReadAction(empties, t.read, timeoutSeconds)
  }

  datatype Trace = Trace(blocks: seq<Bytes>, sleeps: seq<int>, exit: Exit, used: nat, empties: nat)

  function Passed(a: Action): seq<Bytes> {
    if a.feed.Some? then [a.feed.value] else []
  }

  function AfterTurn(b: Delay, a: Action, t: Turn): Delay {
    if a.retries then Advance(b)
    else if a.feed.Some? && a.exit.Running? && t.settled then Restart(b)
    else b
  }

  /** The whole loop. */
  function Loop(turns: seq<Turn>, empties: nat, b: Delay, timeoutSeconds: int): Trace {
    if turns == [] then Trace([], [], Running, 0, empties)
    else
      var a := TurnAction(empties, turns[0], timeoutSeconds);
      var sleeps := if a.retries then [Now(b)] else [];
      if a.exit.Returned? then Trace(Passed(a), sleeps, a.exit, 1, a.empties)
      else
        var rest := Loop(turns[1..], a.empties, AfterTurn(b, a, turns[0]), timeoutSeconds);
        Trace(Passed(a) + rest.blocks, sleeps + rest.sleeps, rest.exit, rest.used + 1, rest.empties)
  }

  /** The loop from turn `i` on, one turn at a time. */
  lemma LoopUnfolds(turns: seq<Turn>, i: nat, empties: nat, b: Delay, timeoutSeconds: int)
    requires i < |turns|
    ensures var t := Loop(turns[i..], empties, b, timeoutSeconds);
      var a := TurnAction(empties, turns[i], timeoutSeconds);
      var sleeps := if a.retries then [Now(b)] else [];
      if a.exit.Returned? then t.blocks == Passed(a) && t.sleeps == sleeps && t.exit == a.exit
      else
        var rest := Loop(turns[i + 1..], a.empties, AfterTurn(b, a, turns[i]), timeoutSeconds);
        t.blocks == Passed(a) + rest.blocks && t.sleeps == sleeps + rest.sleeps && t.exit == rest.exit
  {
    assert turns[i..][1..] == turns[i + 1..];
  }

  /** What the loop does with one read: at most one block is passed on, and at most one nap taken before a retry. */
  method TakeRead(t: Turn, zeroReads: nat, backoff: BackoffStrategy, timeoutSeconds: int)
      returns (feed: seq<Bytes>, nap: seq<int>, zeros: nat, exit: Exit)
    modifies backoff
    ensures var a := ReadAction(zeroReads, t.read, timeoutSeconds);
      && feed == Passed(a) && zeros == a.empties && exit == a.exit
      && nap == (if a.retries then [Now(old(backoff.State()))] else [])
      && backoff.State() == AfterTurn(old(backoff.State()), a, t)
  {
    feed, nap, zeros, exit := [], [], zeroReads, Running;
    var n, err := |t.read.data|, t.read.err;
    if n == 0 {
      zeros := zeros + 1;
      if zeros > MAX_EMPTY_READS {
        exit := Returned(Some(Eof));
      }
      return;
    }
    zeros := 0;
    if err == Some(Eof) {
      feed, exit := [t.read.data], Returned(Some(Eof));
    } else if err.Some? {
      if timeoutSeconds < 0 {
        exit := Returned(err);
      } else {
        var d := backoff.Next();
        nap := [d];
      }
    } else {
      feed := [t.read.data];
      if t.settled {
        backoff.Reset();
      }
    }
  }

  /** The loop has done `blocks` and `sleeps` and is left with `rest` of the whole trace. */
  predicate LeftWith(whole: Trace, blocks: seq<Bytes>, sleeps: seq<int>, rest: Trace) {
    whole.blocks == blocks + rest.blocks && whole.sleeps == sleeps + rest.sleeps && whole.exit == rest.exit
  }

  lemma LeftWithLess(whole: Trace, blocks: seq<Bytes>, sleeps: seq<int>, rest: Trace,
                     feed: seq<Bytes>, nap: seq<int>, less: Trace)
    requires LeftWith(whole, blocks, sleeps, rest)
    requires rest.blocks == feed + less.blocks && rest.sleeps == nap + less.sleeps && rest.exit == less.exit
    ensures LeftWith(whole, blocks + feed, sleeps + nap, less)
  {
  }

  method ReadAndWriteStream(turns: seq<Turn>, initialBackoff: int, timeoutSeconds: int)
      returns (blocks: seq<Bytes>, sleeps: seq<int>, exit: Exit)
    ensures var t := Loop(turns, 0, RetryDelay(initialBackoff, timeoutSeconds), timeoutSeconds);
      blocks == t.blocks && sleeps == t.sleeps && exit == t.exit
  {
    var backoff := new BackoffStrategy(initialBackoff, (timeoutSeconds - 1) * SECOND);
    blocks, sleeps := [], [];
    var zeroReads := 0;
    var i := 0;
    ghost var whole := Loop(turns, 0, backoff.State(), timeoutSeconds);
    assert turns[0..] == turns;
    while i < |turns|
      invariant 0 <= i <= |turns| && 0 <= zeroReads
      invariant LeftWith(whole, blocks, sleeps, Loop(turns[i..], zeroReads, backoff.State(), timeoutSeconds))
    {
      var t := turns[i];
      ghost var rest := Loop(turns[i..], zeroReads, backoff.State(), timeoutSeconds);
      LoopUnfolds(turns, i, zeroReads, backoff.State(), timeoutSeconds);
      i := i + 1;
      if !t.active {
        return blocks, sleeps, Returned(None);
      }
      if t.cancelled {
        return blocks, sleeps, Returned(Some(Canceled));
      }
      if timeoutSeconds > 0 && t.late {
        return blocks, sleeps, Returned(Some(TIMED_OUT));
      }
      var feed, nap, end;
      feed, nap, zeroReads, end := TakeRead(t, zeroReads, backoff, timeoutSeconds);
      if end.Returned? {
        return blocks + feed, sleeps + nap, end;
      }
      LeftWithLess(whole, blocks, sleeps, rest, feed, nap, Loop(turns[i..], zeroReads, backoff.State(), timeoutSeconds));
      blocks, sleeps := blocks + feed, sleeps + nap;
    }
    exit := Running;
  }

  // ----- What the loop passes on -----

  /** A read whose bytes count: not empty, and with no error but the end of the source. */
  predicate Counts(r: Read) {
    r.data != [] && (r.err.None? || r.err == Some(Eof))
  }

  function Kept(turns: seq<Turn>): seq<Bytes> {
    if turns == [] then [] else (if Counts(turns[0].read) then [turns[0].read.data] else []) + Kept(turns[1..])
  }

  lemma KeptNext(turns: seq<Turn>, k: nat)
    requires turns != [] && k <= |turns| - 1
    ensures Kept(turns[..k + 1]) == (if Counts(turns[0].read) then [turns[0].read.data] else []) + Kept(turns[1..][..k])
  {
    assert turns[..k + 1][1..] == turns[1..][..k];
  }

  /** The loop was not stopped from outside on this turn. */
  predicate Live(t: Turn, timeoutSeconds: int) {
    t.active && !t.cancelled && !(timeoutSeconds > 0 && t.late)
  }

  /**
    The blocks of a trace are the reads that count, in order, up to the turn on which the loop returned;
    that turn is left out when the loop was stopped from outside.
   */
  ghost predicate PassesReads(turns: seq<Turn>, t: Trace, timeoutSeconds: int) {
    && t.used <= |turns| && (t.exit.Running? ==> t.used == |turns|)
    && (t.exit.Returned? ==> 0 < t.used)
    && (forall i | 0 <= i < t.used - 1 :: Live(turns[i], timeoutSeconds))
    && t.blocks ==
       if t.used == 0 || Live(turns[t.used - 1], timeoutSeconds) then Kept(turns[..t.used])
       else Kept(turns[..t.used - 1])
  }

  lemma PassesOneMore(turns: seq<Turn>, t: Trace, more: Trace, timeoutSeconds: int)
    requires turns != [] && Live(turns[0], timeoutSeconds) && PassesReads(turns[1..], more, timeoutSeconds)
    requires t.used == more.used + 1 && t.exit == more.exit
    requires t.blocks == (if Counts(turns[0].read) then [turns[0].read.data] else []) + more.blocks
    ensures PassesReads(turns, t, timeoutSeconds)
  {
    forall i | 0 <= i < t.used - 1 ensures Live(turns[i], timeoutSeconds) {
      assert i > 0 ==> turns[i] == turns[1..][i - 1];
    }
    KeptNext(turns, more.used);
    if more.used > 0 {
      KeptNext(turns, more.used - 1);
      assert turns[t.used - 1] == turns[1..][more.used - 1];
    }
  }

  lemma PassesFirst(turns: seq<Turn>, t: Trace, a: Action, timeoutSeconds: int)
    requires turns != [] && t.used == 1 && t.exit.Returned? && t.blocks == Passed(a)
    requires Passed(a) == if Live(turns[0], timeoutSeconds) && Counts(turns[0].read) then [turns[0].read.data] else []
    ensures PassesReads(turns, t, timeoutSeconds)
  {
    assert turns[..1] == [turns[0]] && [turns[0]][1..] == [] && turns[..0] == [];
  }

  /** This is so for every trace of the loop. */
  lemma {:induction false} LoopPassesReads(turns: seq<Turn>, empties: nat, b: Delay, timeoutSeconds: int, t: Trace)
    requires t == Loop(turns, empties, b, timeoutSeconds)
    ensures PassesReads(turns, t, timeoutSeconds)
  {
    if turns == [] {
    } else {
      var a := TurnAction(empties, turns[0], timeoutSeconds);
      if a.exit.Returned? {
        PassesFirst(turns, t, a, timeoutSeconds);
      } else {
        var b' := AfterTurn(b, a, turns[0]);
        var more := Loop(turns[1..], a.empties, b', timeoutSeconds);
        LoopPassesReads(turns[1..], a.empties, b', timeoutSeconds, more);
        PassesOneMore(turns, t, more, timeoutSeconds);
      }
    }
  }

  // ----- How the loop ends -----

  /** The last eleven reads up to turn `used`, counting `empties` before the first, gave nothing. */
  predicate Dried(turns: seq<Turn>, used: nat, empties: nat)
    requires used <= |turns|
  {
    10 < used + empties && forall i | Max(0, used - 11) <= i < used :: turns[i].read.data == []
  }

  /** The read failed with an error of its own, and the configuration allows no retry. */
  predicate ReadFails(t: Turn, e: Error, timeoutSeconds: int) {
    Live(t, timeoutSeconds) && t.read.data != [] && t.read.err == Some(e) && e != Eof && timeoutSeconds < 0
  }

  /** What the last turn says about how a loop that has had at least one ends, one case at a time. */
  ghost predicate ExitFits(turns: seq<Turn>, used: nat, empties: nat, timeoutSeconds: int, exit: Exit)
    requires 0 < used <= |turns|
  {
    var t, timeout := turns[used - 1], Failed("stream timeout: no new segments");
    && (exit == Returned(None) <==> !t.active)
    && (exit == Returned(Some(Canceled)) <==> (t.active && t.cancelled) || ReadFails(t, Canceled, timeoutSeconds))
    && (exit == Returned(Some(timeout)) <==>
          (t.active && !t.cancelled && 0 < timeoutSeconds && t.late) || ReadFails(t, timeout, timeoutSeconds))
    && (exit == Returned(Some(Eof)) <==>
          Live(t, timeoutSeconds) && (Dried(turns, used, empties) || (t.read.data != [] && t.read.err == Some(Eof))))
    && (forall e | e != Eof && e != Canceled && e != timeout ::
          exit == Returned(Some(e)) <==> ReadFails(t, e, timeoutSeconds))
    && (exit == Running <==>
          Live(t, timeoutSeconds) && !Dried(turns, used, empties)
          && (t.read.data == [] || t.read.err.None? || (t.read.err != Some(Eof) && 0 <= timeoutSeconds)))
  }

  lemma ExitOfTurn(turns: seq<Turn>, empties: nat, timeoutSeconds: int)
    requires turns != [] && empties <= 10
    ensures ExitFits(turns, 1, empties, timeoutSeconds, TurnAction(empties, turns[0], timeoutSeconds).exit)
  {
  }

  /** Reads in a row are counted alike with and without the first turn. */
  lemma DriedNext(turns: seq<Turn>, used: nat, empties: nat, after: nat)
    requires 0 < used <= |turns| - 1 && empties <= 10 && after <= 10
    requires after == if turns[0].read.data == [] then empties + 1 else 0
    ensures Dried(turns[1..], used, after) <==> Dried(turns, used + 1, empties)
  {
    var rest := turns[1..];
    assert forall i | 1 <= i < |turns| :: turns[i] == rest[i - 1];
    if Dried(turns, used + 1, empties) {
      forall i | Max(0, used - 11) <= i < used ensures rest[i].read.data == [] {
        assert turns[i + 1].read.data == [];
      }
    }
  }

  /** How every trace of the loop ends. */
  lemma {:induction false} LoopExit(turns: seq<Turn>, empties: nat, b: Delay, timeoutSeconds: int, t: Trace)
    requires empties <= 10 && t == Loop(turns, empties, b, timeoutSeconds)
    ensures t.used <= |turns|
    ensures if turns == [] then t.exit == Running else 0 < t.used && ExitFits(turns, t.used, empties, timeoutSeconds, t.exit)
  {
    if turns != [] {
      var a := TurnAction(empties, turns[0], timeoutSeconds);
      ExitOfTurn(turns, empties, timeoutSeconds);
      if a.exit.Running? {
        var rest := Loop(turns[1..], a.empties, AfterTurn(b, a, turns[0]), timeoutSeconds);
        LoopExit(turns[1..], a.empties, AfterTurn(b, a, turns[0]), timeoutSeconds, rest);
        if turns[1..] != [] {
          DriedNext(turns, rest.used, empties, a.empties);
          assert turns[1..][rest.used - 1] == turns[t.used - 1];
        }
      }
    }
  }

  lemma OneTurn(t: Turn, empties: nat, b: Delay, timeoutSeconds: int)
    ensures var a, loop := TurnAction(empties, t, timeoutSeconds), Loop([t], empties, b, timeoutSeconds);
      loop.blocks == Passed(a) && loop.exit == a.exit && loop.empties == a.empties
  {
    assert [t][1..] == [];
  }

  /** `both` is the trace `first`, which has not returned, followed by the trace `second`. */
  ghost predicate Resumed(first: Trace, second: Trace, both: Trace, n: nat) {
    && both.blocks == first.blocks + second.blocks && both.exit == second.exit
    && both.used == n + second.used && both.empties == second.empties
  }

  /** A loop that has not returned goes on where it stopped. */
  lemma {:induction false} LoopResumes(a: seq<Turn>, c: seq<Turn>, empties: nat, b: Delay, timeoutSeconds: int) returns (b': Delay)
    requires Loop(a, empties, b, timeoutSeconds).exit.Running?
    ensures var first := Loop(a, empties, b, timeoutSeconds);
      Resumed(first, Loop(c, first.empties, b', timeoutSeconds), Loop(a + c, empties, b, timeoutSeconds), |a|)
  {
    if a == [] {
      assert a + c == c;
      b' := b;
    } else {
      var act := TurnAction(empties, a[0], timeoutSeconds);
      assert (a + c)[0] == a[0] && (a + c)[1..] == a[1..] + c;
      b' := LoopResumes(a[1..], c, act.empties, AfterTurn(b, act, a[0]), timeoutSeconds);
      var rest := Loop(a[1..], act.empties, AfterTurn(b, act, a[0]), timeoutSeconds);
      Regroup(Passed(act), rest.blocks, Loop(c, rest.empties, b', timeoutSeconds).blocks);
    }
  }

  /** A loop that has returned reads no further. */
  lemma {:induction false} LoopStops(a: seq<Turn>, c: seq<Turn>, empties: nat, b: Delay, timeoutSeconds: int)
    requires Loop(a, empties, b, timeoutSeconds).exit.Returned?
    ensures Loop(a + c, empties, b, timeoutSeconds) == Loop(a, empties, b, timeoutSeconds)
  {
    var act := TurnAction(empties, a[0], timeoutSeconds);
    assert (a + c)[1..] == a[1..] + c;
    if act.exit.Running? {
      LoopStops(a[1..], c, act.empties, AfterTurn(b, act, a[0]), timeoutSeconds);
    }
  }

  /** A dry source ends the loop with the end of file at the eleventh empty read in a row, not before. */
  lemma {:induction false} DrySourceEnds(turns: seq<Turn>, empties: nat, b: Delay, timeoutSeconds: int)
    requires empties <= MAX_EMPTY_READS
    requires forall i | 0 <= i < |turns| :: Live(turns[i], timeoutSeconds) && turns[i].read.data == []
    ensures var t := Loop(turns, empties, b, timeoutSeconds);
      && t.blocks == [] && t.sleeps == []
      && t.exit == (if empties + |turns| > MAX_EMPTY_READS then Returned(Some(Eof)) else Running)
      && t.used == Min(|turns|, MAX_EMPTY_READS + 1 - empties)
  {
    if turns == [] {
    } else {
      assert Live(turns[0], timeoutSeconds) && turns[0].read.data == [];
      if empties < MAX_EMPTY_READS {
        DrySourceEnds(turns[1..], empties + 1, b, timeoutSeconds);
      }
    }
  }

  /** While nothing resets the backoff, the retries sleep through its schedule. */
  lemma {:induction false} RetriesFollowSchedule(turns: seq<Turn>, empties: nat, b: Delay, timeoutSeconds: int)
    requires forall i | 0 <= i < |turns| :: !turns[i].settled
    ensures var t := Loop(turns, empties, b, timeoutSeconds);
      t.sleeps == Delays(b, |t.sleeps|)
  {
    if turns == [] {
    } else {
      var a := TurnAction(empties, turns[0], timeoutSeconds);
      RetriesFollowSchedule(turns[1..], a.empties, AfterTurn(b, a, turns[0]), timeoutSeconds);
    }
  }

  // ----- The media writer and the segment writer -----

  const STATUS_CLIENT_CLOSED := 0
  const STATUS_SERVER_ERROR := 1
  const STATUS_EOF := 2

  /** What the media writer reports for the error its loop returned; the timeout is an ordinary error. */
  function FinalFault(err: Error, cancelled: bool): Fault {
    if cancelled && err == Canceled then Fault(Some(Canceled), STATUS_CLIENT_CLOSED)
    else if err == Eof then Fault(Some(Eof), STATUS_EOF)
    else Fault(Some(err), STATUS_SERVER_ERROR)
  }

  /** The read loop's timeout is reported like any other error: the case meant for it is never taken. */
  lemma TimeoutIsOrdinary(cancelled: bool)
    ensures FinalFault(TIMED_OUT, cancelled) == Fault(Some(TIMED_OUT), STATUS_SERVER_ERROR)
  {
  }

  /** A read that is tried again after a sleep. */
  predicate Retried(t: Turn, timeoutSeconds: int) {
    Live(t, timeoutSeconds) && t.read.data != [] && t.read.err.Some? && t.read.err != Some(Eof) && 0 <= timeoutSeconds
  }

  function RetryCount(turns: seq<Turn>, timeoutSeconds: int): nat {
    if turns == [] then 0 else (if Retried(turns[0], timeoutSeconds) then 1 else 0) + RetryCount(turns[1..], timeoutSeconds)
  }

  /** There is one sleep for every failed read. */
  lemma {:induction false} RetriesAreCounted(turns: seq<Turn>, empties: nat, b: Delay, timeoutSeconds: int, t: Trace)
    requires t == Loop(turns, empties, b, timeoutSeconds)
    ensures t.used <= |turns| && |t.sleeps| == RetryCount(turns[..t.used], timeoutSeconds)
  {
    if turns == [] {
    } else {
      var a := TurnAction(empties, turns[0], timeoutSeconds);
      if a.exit.Returned? {
        assert turns[..1][1..] == [];
      } else {
        var rest := Loop(turns[1..], a.empties, AfterTurn(b, a, turns[0]), timeoutSeconds);
        RetriesAreCounted(turns[1..], a.empties, AfterTurn(b, a, turns[0]), timeoutSeconds, rest);
        assert turns[..t.used][1..] == turns[1..][..rest.used];
      }
    }
  }

  /**
    The first retry sleeps the initial backoff. Later ones sleep twice as long each time, up to a second less
    than the timeout; with a timeout of one second the same each time, and with none not at all.
   */
  lemma {:induction false} RetrySleeps(turns: seq<Turn>, initialBackoff: int, timeoutSeconds: int, k: nat)
    requires 0 <= initialBackoff && forall i | 0 <= i < |turns| :: !turns[i].settled
    requires k < |Loop(turns, 0, RetryDelay(initialBackoff, timeoutSeconds), timeoutSeconds).sleeps|
    ensures var nap := Loop(turns, 0, RetryDelay(initialBackoff, timeoutSeconds), timeoutSeconds).sleeps[k];
      if k == 0 || timeoutSeconds == 1 then nap == initialBackoff
      else if 1 < timeoutSeconds then nap == Min(initialBackoff * Pow2(k), (timeoutSeconds - 1) * 1_000_000_000)
      else nap < 0
  {
    var b, max := RetryDelay(initialBackoff, timeoutSeconds), (timeoutSeconds - 1) * SECOND;
    var sleeps := Loop(turns, 0, b, timeoutSeconds).sleeps;
    RetriesFollowSchedule(turns, 0, b, timeoutSeconds);
    if timeoutSeconds == 1 {
      DelayWithoutMaximum(initialBackoff, |sleeps|, k);
    } else if 1 < timeoutSeconds {
      DelaySchedule(initialBackoff, max, |sleeps|, k);
    } else {
      DelayWithNegativeMaximum(initialBackoff, max, |sleeps|, k);
      if k > 0 {
        MultipleSize(-max, Pow2(k - 1));
      }
    }
  }

  /**
    Once a read has given data and at least a second has passed since the last error, the loop goes on as a
    new one would: it retries with the initial backoff again.
   */
  lemma {:induction false} SettledStartsAfresh(a: seq<Turn>, t: Turn, c: seq<Turn>, empties: nat, b: Delay, timeoutSeconds: int)
    requires Loop(a, empties, b, timeoutSeconds).exit == Running
    requires Live(t, timeoutSeconds) && t.settled && t.read.data != [] && t.read.err.None?
    requires 0 <= b.max && (b.max == 0 ==> b.current == b.initial)
    ensures var all, first := Loop(a + [t] + c, empties, b, timeoutSeconds), Loop(a, empties, b, timeoutSeconds);
      var rest := Loop(c, 0, NewDelay(b.initial, b.max), timeoutSeconds);
      && all.blocks == first.blocks + ([t.read.data] + rest.blocks) && all.sleeps == first.sleeps + rest.sleeps
      && all.exit == rest.exit && all.used == |a| + 1 + rest.used
  {
    var turns := a + [t] + c;
    if a == [] {
      assert turns[0] == t && turns[1..] == c;
    } else {
      var act := TurnAction(empties, a[0], timeoutSeconds);
      var b' := AfterTurn(b, act, a[0]);
      assert turns[0] == a[0] && turns[1..] == a[1..] + [t] + c;
      SettledStartsAfresh(a[1..], t, c, act.empties, b', timeoutSeconds);
      var first, rest := Loop(a[1..], act.empties, b', timeoutSeconds), Loop(c, 0, NewDelay(b.initial, b.max), timeoutSeconds);
      Regroup(Passed(act), first.blocks, [t.read.data] + rest.blocks);
      Regroup(if act.retries then [Now(b)] else [], first.sleeps, rest.sleeps);
    }
  }

  /** One segment: whether the context was done before it, and the body or the reason there is none. */
  datatype Segment = Segment(cancelled: bool, failure: Option<Error>, turns: seq<Turn>)

  function SegmentTrace(g: Segment, initialBackoff: int, timeoutSeconds: int): Trace {
    Loop(g.turns, 0, RetryDelay(initialBackoff, timeoutSeconds), timeoutSeconds)
  }

  /** A segment that does not stop its successors: its body ended, or the stream did. */
  predicate Finished(g: Segment, initialBackoff: int, timeoutSeconds: int) {
    var exit := SegmentTrace(g, initialBackoff, timeoutSeconds).exit;
    !g.cancelled && g.failure.None? && (exit == Returned(None) || exit == Returned(Some(Eof)))
  }

  /** That is: there was a body, and its loop saw the stream inactive, an EOF read, or the eleventh empty one. */
  lemma FinishedIff(g: Segment, initialBackoff: int, timeoutSeconds: int, used: nat)
    requires used == SegmentTrace(g, initialBackoff, timeoutSeconds).used
    ensures used <= |g.turns|
    ensures Finished(g, initialBackoff, timeoutSeconds) <==>
      && !g.cancelled && g.failure.None? && 0 < used
      && var t := g.turns[used - 1];
         || !t.active
         || (Live(t, timeoutSeconds) && (Dried(g.turns, used, 0) || (t.read.data != [] && t.read.err == Some(Eof))))
  {
    LoopExit(g.turns, 0, RetryDelay(initialBackoff, timeoutSeconds), timeoutSeconds, SegmentTrace(g, initialBackoff, timeoutSeconds));
  }

  function AllBlocks(gs: seq<Segment>, initialBackoff: int, timeoutSeconds: int): seq<Bytes> {
    if gs == [] then []
    else AllBlocks(gs[..|gs| - 1], initialBackoff, timeoutSeconds)
         + SegmentTrace(gs[|gs| - 1], initialBackoff, timeoutSeconds).blocks
  }

  lemma AllBlocksNext(gs: seq<Segment>, k: nat, initialBackoff: int, timeoutSeconds: int)
    requires k < |gs|
    ensures AllBlocks(gs[..k + 1], initialBackoff, timeoutSeconds)
         == AllBlocks(gs[..k], initialBackoff, timeoutSeconds) + SegmentTrace(gs[k], initialBackoff, timeoutSeconds).blocks
  {
    assert gs[..k + 1][..k] == gs[..k];
  }

  /**
    Streams the segments in order. Without an error every segment was streamed to its end; with one,
    all those before the failing segment were.
   */
  method ProcessSegments(gs: seq<Segment>, initialBackoff: int, timeoutSeconds: int)
      returns (blocks: seq<Bytes>, exit: Exit, done: nat)
    ensures done <= |gs| && forall j | 0 <= j < done :: Finished(gs[j], initialBackoff, timeoutSeconds)
    ensures done == |gs| ==> exit == Returned(None) && blocks == AllBlocks(gs, initialBackoff, timeoutSeconds)
    ensures done < |gs| ==>
      var g := gs[done];
      var part := SegmentTrace(g, initialBackoff, timeoutSeconds);
      && !Finished(g, initialBackoff, timeoutSeconds)
      && exit == (if g.cancelled then Returned(Some(Canceled))
                  else if g.failure.Some? then Returned(g.failure) else part.exit)
      && blocks == AllBlocks(gs[..done], initialBackoff, timeoutSeconds)
                   + if g.cancelled || g.failure.Some? then [] else part.blocks
  {
    blocks, done := [], 0;
    while done < |gs|
      invariant done <= |gs| && blocks == AllBlocks(gs[..done], initialBackoff, timeoutSeconds)
      invariant forall j | 0 <= j < done :: Finished(gs[j], initialBackoff, timeoutSeconds)
    {
      var g := gs[done];
      if g.cancelled {
        assert blocks + [] == blocks;
        return blocks, Returned(Some(Canceled)), done;
      }
      if g.failure.Some? {
        assert blocks + [] == blocks;
        return blocks, Returned(g.failure), done;
      }
      var part, _, end := ReadAndWriteStream(g.turns, initialBackoff, timeoutSeconds);
      AllBlocksNext(gs, done, initialBackoff, timeoutSeconds);
      blocks := blocks + part;
      if end.Running? || (end.err.Some? && end.err != Some(Eof)) {
        return blocks, end, done;
      }
      done := done + 1;
    }
    assert gs[..done] == gs;
    exit := Returned(None);
  }
}

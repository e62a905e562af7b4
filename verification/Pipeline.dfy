/** The media writer: a source body is read, block by block, into the shared buffer. */
module Pipeline {
  import opened Basics
  import opened RingLog
  import opened Protocol
  import opened Registration
  import opened SourceLoop
  import opened Scripts
  import opened Feeder

  /** The reads taken, those to come, whether the context is done, and the error the read loop returned, once it has. */
  datatype Source = Source(taken: seq<Read>, rest: seq<Read>, empties: nat, cancelled: bool, returned: Option<Error>)

  datatype Pipe = Pipe(fed: Fed, source: Source)

  datatype PipeMove = ReadTurn(late: bool) | Cancel | Report | Feeding(m: Move)

  /** The loop is at its head, with the stream active. */
  predicate AtLoopHead(p: Pipe) {
    p.fed.feed.pc == Idle && p.source.returned.None? && p.fed.sys.state == Active
  }

  /** A turn meets the next read of the source. */
  function NextTurn(s: Source, late: bool): Turn {
    Turn(true, s.cancelled, late, if s.rest == [] then Read([], None) else s.rest[0], false)
  }

  function NextAction(s: Source, late: bool, timeoutSeconds: int): Action {
    TurnAction(s.empties, NextTurn(s, late), timeoutSeconds)
  }

  /** Without a next read the loop can only be stopped from outside. */
  predicate TakesTurn(p: Pipe, late: bool, timeoutSeconds: int) {
    AtLoopHead(p) && (p.source.rest != [] || !Live(NextTurn(p.source, late), timeoutSeconds))
  }

  /** What a move of the pipeline makes the writer do. */
  function FeedOf(p: Pipe, m: PipeMove, timeoutSeconds: int): seq<Move> {
    match m
    case ReadTurn(late) =>
      if p.fed.feed.pc == Idle && p.source.returned.None? && p.fed.sys.state != Active then [Halt]
      else if !TakesTurn(p, late, timeoutSeconds) then []
      else
        var a := NextAction(p.source, late, timeoutSeconds);
        if a.feed.Some? then [Pass(a.feed.value)] else []
    case Cancel => []
    case Report =>
      if p.fed.feed.pc == Idle && p.source.returned.Some? then [Finish(FinalFault(p.source.returned.value, p.source.cancelled))]
      else []
    case Feeding(f) => if f.Pass? || f.Finish? || f.Halt? then [] else [f]
  }

  /** One turn of the read loop. */
  function TurnStep(s: Source, late: bool, timeoutSeconds: int): Source {
    var a := NextAction(s, late, timeoutSeconds);
    var returned := if a.exit.Returned? then a.exit.err else None;
    if s.rest == [] || !Live(NextTurn(s, late), timeoutSeconds) then s.(returned := returned)
    else Source(s.taken + [s.rest[0]], s.rest[1..], a.empties, s.cancelled, returned)
  }

  function SourceStep(p: Pipe, m: PipeMove, timeoutSeconds: int): Source {
    match m
    case ReadTurn(late) => if TakesTurn(p, late, timeoutSeconds) then TurnStep(p.source, late, timeoutSeconds) else p.source
    case Cancel => p.source.(cancelled := true)
    case _ => p.source
  }

  function PipeStep(p: Pipe, m: PipeMove, timeoutSeconds: int): (q: Pipe)
    requires WellFormed(p.fed.sys.ring)
    ensures WellFormed(q.fed.sys.ring)
  {
    var feeds := FeedOf(p, m, timeoutSeconds);
    Pipe(if feeds == [] then p.fed else FedStep(p.fed, feeds[0]), SourceStep(p, m, timeoutSeconds))
  }

  function PipeRun(n: nat, script: seq<Read>, moves: seq<PipeMove>, timeoutSeconds: int): (p: Pipe)
    requires 0 < n
    ensures WellFormed(p.fed.sys.ring)
  {
    if moves == [] then Pipe(Fed(Init(n), NOTHING_FED), Source([], script, 0, false, None))
    else PipeStep(PipeRun(n, script, moves[..|moves| - 1], timeoutSeconds), moves[|moves| - 1], timeoutSeconds)
  }

  /** The writer's own run behind a run of the pipeline. */
  function Feeds(n: nat, script: seq<Read>, moves: seq<PipeMove>, timeoutSeconds: int): seq<Move>
    requires 0 < n
  {
    if moves == [] then []
    else
      var before := moves[..|moves| - 1];
      Feeds(n, script, before, timeoutSeconds)
      + FeedOf(PipeRun(n, script, before, timeoutSeconds), moves[|moves| - 1], timeoutSeconds)
  }

  lemma {:induction false} PipeIsFed(n: nat, script: seq<Read>, moves: seq<PipeMove>, timeoutSeconds: int)
    requires 0 < n
    ensures PipeRun(n, script, moves, timeoutSeconds).fed == FedRun(n, Feeds(n, script, moves, timeoutSeconds))
  {
    if moves == [] {
    } else {
      var before := moves[..|moves| - 1];
      PipeIsFed(n, script, before, timeoutSeconds);
      var feeds := FeedOf(PipeRun(n, script, before, timeoutSeconds), moves[|moves| - 1], timeoutSeconds);
      var all := Feeds(n, script, moves, timeoutSeconds);
      if feeds == [] {
        assert all == Feeds(n, script, before, timeoutSeconds);
      } else {
        assert all[..|all| - 1] == Feeds(n, script, before, timeoutSeconds);
      }
    }
  }

  // ----- What every move keeps -----

  /** The reads are those of the script, and only the last of them made the loop return, if any did. */
  predicate TakenFits(s: Source, script: seq<Read>, timeoutSeconds: int) {
    && |s.taken| <= |script| && s.taken == script[..|s.taken|] && s.rest == script[|s.taken|..]
    && Consume(s.taken, timeoutSeconds).empties == s.empties
    && (s.taken != [] ==> Consume(s.taken[..|s.taken| - 1], timeoutSeconds).exit == Running)
  }

  /** The loop returned what the reads made it return, or else it was stopped by the context or by the timeout. */
  predicate ReturnFits(s: Source, timeoutSeconds: int) {
    match Consume(s.taken, timeoutSeconds).exit
    case Returned(err) => s.returned == err && err.Some?
    case Running =>
      || s.returned.None?
      || (s.returned == Some(Canceled) && s.cancelled)
      || (s.returned == Some(Failed("stream timeout: no new segments")) && 0 < timeoutSeconds)
  }

  /** The writer has passed what the reads amount to, and ends only after its loop. */
  predicate PassedFits(p: Pipe, timeoutSeconds: int) {
    && p.fed.feed.passed == Consume(p.source.taken, timeoutSeconds).blocks
    && (p.fed.feed.last.Some? ==> p.source.returned.Some?)
  }

  lemma TurnKeepsTaken(s: Source, late: bool, script: seq<Read>, timeoutSeconds: int)
    requires TakenFits(s, script, timeoutSeconds) && ReturnFits(s, timeoutSeconds) && s.returned.None?
    requires s.rest != [] || !Live(NextTurn(s, late), timeoutSeconds)
    ensures var t := TurnStep(s, late, timeoutSeconds); TakenFits(t, script, timeoutSeconds) && ReturnFits(t, timeoutSeconds)
  {
    var t := TurnStep(s, late, timeoutSeconds);
    if Live(NextTurn(s, late), timeoutSeconds) {
      ConsumeOne(s.taken, s.rest[0], timeoutSeconds);
      assert s.rest[0] == script[|s.taken|];
      assert t.taken[..|s.taken|] == s.taken;
    }
  }

  /** What a turn changes in the writer. */
  lemma TurnFeeds(p: Pipe, late: bool, timeoutSeconds: int, q: Pipe, a: Action)
    requires WellFormed(p.fed.sys.ring) && TakesTurn(p, late, timeoutSeconds) && a == NextAction(p.source, late, timeoutSeconds)
    requires q == PipeStep(p, ReadTurn(late), timeoutSeconds)
    ensures q.fed.feed.passed == p.fed.feed.passed + Passed(a)
    ensures q.fed.feed.last.Some? ==> p.fed.feed.last.Some?
    ensures q.source == TurnStep(p.source, late, timeoutSeconds)
  {
  }

  /** The other moves pass nothing, and end the writer only after its loop. */
  lemma OtherMoveFeeds(p: Pipe, m: PipeMove, timeoutSeconds: int, q: Pipe)
    requires WellFormed(p.fed.sys.ring) && !(m.ReadTurn? && TakesTurn(p, m.late, timeoutSeconds))
    requires q == PipeStep(p, m, timeoutSeconds) && (p.fed.feed.last.Some? ==> p.source.returned.Some?)
    ensures q.fed.feed.passed == p.fed.feed.passed && (q.fed.feed.last.Some? ==> p.source.returned.Some?)
    ensures q.source == p.source.(cancelled := q.source.cancelled) && (p.source.cancelled ==> q.source.cancelled)
  {
  }

  lemma TurnPasses(p: Pipe, late: bool, script: seq<Read>, timeoutSeconds: int, q: Pipe)
    requires WellFormed(p.fed.sys.ring) && TakenFits(p.source, script, timeoutSeconds) && ReturnFits(p.source, timeoutSeconds)
    requires PassedFits(p, timeoutSeconds) && TakesTurn(p, late, timeoutSeconds) && q == PipeStep(p, ReadTurn(late), timeoutSeconds)
    ensures PassedFits(q, timeoutSeconds)
  {
    TurnFeeds(p, late, timeoutSeconds, q, NextAction(p.source, late, timeoutSeconds));
    if Live(NextTurn(p.source, late), timeoutSeconds) {
      ConsumeOne(p.source.taken, p.source.rest[0], timeoutSeconds);
    }
  }

  lemma PipeMoveFits(p: Pipe, m: PipeMove, script: seq<Read>, timeoutSeconds: int, q: Pipe)
    requires WellFormed(p.fed.sys.ring) && TakenFits(p.source, script, timeoutSeconds) && ReturnFits(p.source, timeoutSeconds)
    requires PassedFits(p, timeoutSeconds) && q == PipeStep(p, m, timeoutSeconds)
    ensures TakenFits(q.source, script, timeoutSeconds) && ReturnFits(q.source, timeoutSeconds) && PassedFits(q, timeoutSeconds)
  {
    if m.ReadTurn? && TakesTurn(p, m.late, timeoutSeconds) {
      TurnFeeds(p, m.late, timeoutSeconds, q, NextAction(p.source, m.late, timeoutSeconds));
      TurnKeepsTaken(p.source, m.late, script, timeoutSeconds);
      TurnPasses(p, m.late, script, timeoutSeconds, q);
    } else {
      OtherMoveFeeds(p, m, timeoutSeconds, q);
    }
  }

  lemma {:induction false} PipeRunFits(n: nat, script: seq<Read>, moves: seq<PipeMove>, timeoutSeconds: int)
    requires 0 < n
    ensures TakenFits(PipeRun(n, script, moves, timeoutSeconds).source, script, timeoutSeconds)
    ensures ReturnFits(PipeRun(n, script, moves, timeoutSeconds).source, timeoutSeconds)
    ensures PassedFits(PipeRun(n, script, moves, timeoutSeconds), timeoutSeconds)
  {
    if moves == [] {
    } else {
      var before := moves[..|moves| - 1];
      PipeRunFits(n, script, before, timeoutSeconds);
      PipeMoveFits(PipeRun(n, script, before, timeoutSeconds), moves[|moves| - 1], script, timeoutSeconds,
                   PipeRun(n, script, moves, timeoutSeconds));
    }
  }

  // ----- What the writer reports -----

  /** The final chunk for an error the loop returned; `stopped` says that no read made it return. */
  predicate ReportFits(last: Entry, err: Error, stopped: bool, cancelled: bool) {
    && last.data == [] && last.err == Some(err)
    && (err == Eof ==> last.status == 2)
    && (err == Canceled && stopped ==> last.status == 0)
    && (err == Canceled && !cancelled ==> last.status == 1)
    && (err != Eof && err != Canceled ==> last.status == 1)
  }

  predicate Reported(p: Pipe, timeoutSeconds: int) {
    p.fed.feed.last.Some? ==>
      && p.source.returned.Some?
      && ReportFits(p.fed.feed.last.value, p.source.returned.value, Consume(p.source.taken, timeoutSeconds).exit == Running,
                    p.source.cancelled)
  }

  lemma MoveKeepsReported(p: Pipe, m: PipeMove, timeoutSeconds: int, q: Pipe)
    requires WellFormed(p.fed.sys.ring) && ReturnFits(p.source, timeoutSeconds) && Reported(p, timeoutSeconds)
    requires q == PipeStep(p, m, timeoutSeconds)
    ensures Reported(q, timeoutSeconds)
  {
  }

  /**
    The final chunk of every run: the end of the source is reported as such, with status 2; a cancellation that
    stopped the loop with status 0; every other error as it is, with status 1.
   */
  lemma {:induction false} ReportsWhatHappened(n: nat, script: seq<Read>, moves: seq<PipeMove>, timeoutSeconds: int)
    requires 0 < n
    ensures Reported(PipeRun(n, script, moves, timeoutSeconds), timeoutSeconds)
  {
    if moves == [] {
    } else {
      var before := moves[..|moves| - 1];
      ReportsWhatHappened(n, script, before, timeoutSeconds);
      PipeRunFits(n, script, before, timeoutSeconds);
      MoveKeepsReported(PipeRun(n, script, before, timeoutSeconds), moves[|moves| - 1], timeoutSeconds,
                        PipeRun(n, script, moves, timeoutSeconds));
    }
  }

  /** When the context is done the loop's next turn stops it, late or not, and that is reported with status 0. */
  lemma CancelIsReported(p: Pipe, late: bool, timeoutSeconds: int, stopped: Pipe, end: Pipe)
    requires WellFormed(p.fed.sys.ring) && AtLoopHead(p)
    requires stopped == PipeStep(PipeStep(p, Cancel, timeoutSeconds), ReadTurn(late), timeoutSeconds)
    requires end == PipeStep(stopped, Report, timeoutSeconds)
    ensures stopped.source.taken == p.source.taken && stopped.fed == p.fed && end.fed.feed.pc == Offering(Entry([], Some(Canceled), 0))
  {
    assert PipeStep(p, Cancel, timeoutSeconds) == p.(source := p.source.(cancelled := true));
  }

  /** When the source has been silent for the timeout, that stops it too, and is reported as an error of the server. */
  lemma TimeoutIsReported(p: Pipe, timeoutSeconds: int, stopped: Pipe, end: Pipe)
    requires WellFormed(p.fed.sys.ring) && AtLoopHead(p) && !p.source.cancelled && 0 < timeoutSeconds
    requires stopped == PipeStep(p, ReadTurn(true), timeoutSeconds) && end == PipeStep(stopped, Report, timeoutSeconds)
    ensures stopped.source.taken == p.source.taken && stopped.fed == p.fed
    ensures end.fed.feed.pc == Offering(Entry([], Some(Failed("stream timeout: no new segments")), 1))
  {
  }

  /** A loop that finds the stream inactive stops, and the writer ends without a report. */
  lemma InactiveStops(p: Pipe, late: bool, timeoutSeconds: int)
    requires WellFormed(p.fed.sys.ring) && p.fed.feed.pc == Idle && p.source.returned.None? && p.fed.sys.state != Active
    ensures var q := PipeStep(p, ReadTurn(late), timeoutSeconds);
      q.fed.feed == p.fed.feed.(pc := Done) && q.source == p.source && q.fed.sys == p.fed.sys
  {
  }

  // ----- End to end -----

  /** Reader `h` was told the end of the source. */
  predicate SawEnd(s: Sys, h: nat) {
    h in s.readers && s.readers[h].outcome == Ended(Fault(Some(Eof), STATUS_EOF))
  }

  /** The reader was given the blocks of the reads `used`, from its join point on, and the loop ended with the source. */
  ghost predicate GotAll(rd: Reader, used: seq<Read>, timeoutSeconds: int) {
    var source := Consume(used, timeoutSeconds);
    && source.exit == Returned(Some(Eof)) && source.blocks == KeptReads(used)
    && Max(rd.joined, 0) <= |source.blocks|
    && DataOf(rd.got) == source.blocks[Max(rd.joined, 0)..]
  }

  /** A run of the pipeline, its events and where it ends. */
  predicate IsRun(n: nat, script: seq<Read>, moves: seq<PipeMove>, timeoutSeconds: int, evs: seq<Event>, p: Pipe) {
    0 < n && evs == Events(n, Feeds(n, script, moves, timeoutSeconds)) && p == PipeRun(n, script, moves, timeoutSeconds)
  }

  /**
    Whatever ended the stream: under the same conditions a client loop that is told so is told what the writer
    reported, and has handed on exactly the blocks the source loop passed on, from its join point to the last.
   */
  lemma ToldWhatHappened(n: nat, script: seq<Read>, moves: seq<PipeMove>, timeoutSeconds: int, h: nat, evs: seq<Event>, p: Pipe)
    requires IsRun(n, script, moves, timeoutSeconds, evs, p)
    requires RunsUndisturbed(Init(n), evs) && KeepsUp(Init(n), evs, h)
    requires h in p.fed.sys.readers && p.fed.sys.readers[h].outcome.Ended?
    ensures GotAllPassed(p.fed.sys.readers[h], p.fed.feed) && Reported(p, timeoutSeconds)
    ensures p.source.taken <= script && p.fed.feed.passed == KeptReads(p.source.taken)
  {
    PipeIsFed(n, script, moves, timeoutSeconds);
    PipeRunFits(n, script, moves, timeoutSeconds);
    ReportsWhatHappened(n, script, moves, timeoutSeconds);
    FedToTheEnd(n, Feeds(n, script, moves, timeoutSeconds), h, evs, p.fed);
    ConsumeKeepsWhatCounts(p.source.taken, timeoutSeconds);
  }

  /**
    End to end. Whatever the interleaving, if nothing written is cleared, the stream is not revived and the
    client keeps up, a client loop that ends with the end of file has handed on exactly the blocks the source
    loop passed on, from the client's join point to the last, once each and in order.
   */
  lemma EndToEnd(n: nat, script: seq<Read>, moves: seq<PipeMove>, timeoutSeconds: int, h: nat, evs: seq<Event>, p: Pipe)
    requires IsRun(n, script, moves, timeoutSeconds, evs, p)
    requires RunsUndisturbed(Init(n), evs) && KeepsUp(Init(n), evs, h) && SawEnd(p.fed.sys, h)
    ensures p.source.taken <= script && GotAll(p.fed.sys.readers[h], p.source.taken, timeoutSeconds)
  {
    ToldWhatHappened(n, script, moves, timeoutSeconds, h, evs, p);
    PipeRunFits(n, script, moves, timeoutSeconds);
  }

  /**
    In particular when from the writer's start on clients only register, until one of them holds the stream,
    and that one stays; the writer may be ahead of it.
   */
  lemma EndToEndWhileRegistered(n: nat, script: seq<Read>, moves: seq<PipeMove>, timeoutSeconds: int, h: nat, evs: seq<Event>,
                                p: Pipe, j: nat, k: nat, c: nat)
    requires IsRun(n, script, moves, timeoutSeconds, evs, p)
    requires j <= k <= |evs| && StartsAndStays(n, evs, j, k, c) && Held(Run(Init(n), evs[..k]), c)
    requires KeepsUp(Init(n), evs, h) && SawEnd(p.fed.sys, h)
    ensures p.source.taken <= script && GotAll(p.fed.sys.readers[h], p.source.taken, timeoutSeconds)
  {
    StayingUndisturbed(n, evs, j, k, c);
    EndToEnd(n, script, moves, timeoutSeconds, h, evs, p);
  }

  /**
    If moreover no non-empty read came with an error other than the end of file, the source's bytes are
    those before the client's join point followed by exactly the bytes the client was given.
   */
  lemma SourceBytesArrive(n: nat, script: seq<Read>, moves: seq<PipeMove>, timeoutSeconds: int, h: nat, evs: seq<Event>, p: Pipe)
    requires IsRun(n, script, moves, timeoutSeconds, evs, p)
    requires RunsUndisturbed(Init(n), evs) && KeepsUp(Init(n), evs, h) && SawEnd(p.fed.sys, h)
    requires forall i | 0 <= i < |script| && script[i].data != [] :: Counts(script[i])
    ensures var rd, used := p.fed.sys.readers[h], p.source.taken;
      && used <= script && Max(rd.joined, 0) <= |KeptReads(used)|
      && AllBytes(used) == Flatten(KeptReads(used)[..Max(rd.joined, 0)]) + Flatten(DataOf(rd.got))
  {
    EndToEnd(n, script, moves, timeoutSeconds, h, evs, p);
    CleanReadsAllCount(p.source.taken);
    FlattenSplit(KeptReads(p.source.taken), Max(p.fed.sys.readers[h].joined, 0));
  }
}

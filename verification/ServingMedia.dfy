/** Every media source that ends can be served to its end. */
module ServingMedia {
  import opened Basics
  import opened RingLog
  import opened Protocol
  import opened Registration
  import opened SourceLoop
  import opened Scripts
  import opened Feeder
  import opened Pipeline
  import opened Serving

  /** The media writer reaches `p`, with `h` the one client, which keeps up. */
  ghost predicate MediaServed(n: nat, script: seq<Read>, timeoutSeconds: int, h: nat, p: Pipe) {
    0 < n && exists moves ::
      p == PipeRun(n, script, moves, timeoutSeconds) && Leads(n, Feeds(n, script, moves, timeoutSeconds), h, p.fed)
  }

  /** A move and what it makes the writer do. */
  lemma MoveFeeds(n: nat, script: seq<Read>, moves: seq<PipeMove>, timeoutSeconds: int, m: PipeMove, p: Pipe)
    requires 0 < n && p == PipeRun(n, script, moves, timeoutSeconds)
    ensures PipeRun(n, script, moves + [m], timeoutSeconds) == PipeStep(p, m, timeoutSeconds)
    ensures Feeds(n, script, moves + [m], timeoutSeconds) == Feeds(n, script, moves, timeoutSeconds) + FeedOf(p, m, timeoutSeconds)
  {
    assert (moves + [m])[..|moves|] == moves;
  }

  lemma MediaReached(n: nat, script: seq<Read>, moves: seq<PipeMove>, timeoutSeconds: int, h: nat, p: Pipe)
    requires 0 < n && p == PipeRun(n, script, moves, timeoutSeconds) && Leads(n, Feeds(n, script, moves, timeoutSeconds), h, p.fed)
    ensures MediaServed(n, script, timeoutSeconds, h, p)
  {
  }

  lemma FeedingIs(p: Pipe, f: Move, m: PipeMove, timeoutSeconds: int)
    requires WellFormed(p.fed.sys.ring) && !Own(f) && m == Feeding(f)
    ensures FeedOf(p, m, timeoutSeconds) == [f] && PipeStep(p, m, timeoutSeconds) == Pipe(FedStep(p.fed, f), p.source)
  {
  }

  /** What goes on without moves of the writer's own goes on in the pipeline. */
  lemma {:induction false} MediaFollows(n: nat, script: seq<Read>, moves: seq<PipeMove>, timeoutSeconds: int, h: nat,
                                        feeds: seq<Move>, more: seq<Move>, p: Pipe, q: Pipe)
    requires 0 < n && p == PipeRun(n, script, moves, timeoutSeconds) && feeds == Feeds(n, script, moves, timeoutSeconds)
    requires Extends(feeds, more) && Leads(n, more, h, q.fed) && q.source == p.source
    ensures MediaServed(n, script, timeoutSeconds, h, q)
    decreases |more| - |feeds|
  {
    if |feeds| == |more| {
      assert more == feeds;
      PipeIsFed(n, script, moves, timeoutSeconds);
      MediaReached(n, script, moves, timeoutSeconds, h, q);
    } else {
      var f := more[|feeds|];
      var m := Feeding(f);
      OneMoveFewer(feeds, more, f, feeds + [f]);
      MoveFeeds(n, script, moves, timeoutSeconds, m, p);
      FeedingIs(p, f, m, timeoutSeconds);
      MediaFollows(n, script, moves + [m], timeoutSeconds, h, feeds + [f], more, Pipe(FedStep(p.fed, f), p.source), q);
    }
  }

  /** From a state that is reached, what is served from there is reached. */
  lemma MediaGoesOn(n: nat, script: seq<Read>, moves: seq<PipeMove>, timeoutSeconds: int, h: nat, p: Pipe, q: Pipe)
    requires 0 < n && p == PipeRun(n, script, moves, timeoutSeconds) && q.source == p.source
    requires Served(n, Feeds(n, script, moves, timeoutSeconds), h, q.fed)
    ensures MediaServed(n, script, timeoutSeconds, h, q)
  {
    var feeds := Feeds(n, script, moves, timeoutSeconds);
    var more :| Extends(feeds, more) && Leads(n, more, h, q.fed);
    MediaFollows(n, script, moves, timeoutSeconds, h, feeds, more, p, q);
  }

  /** A move that makes no step of the coordinator. */
  lemma MediaMoves(n: nat, script: seq<Read>, timeoutSeconds: int, h: nat, p: Pipe, m: PipeMove, feeds: seq<Move>, q: Pipe)
    requires MediaServed(n, script, timeoutSeconds, h, p) && WellFormed(p.fed.sys.ring) && feeds == FeedOf(p, m, timeoutSeconds)
    requires q == PipeStep(p, m, timeoutSeconds) && (feeds == [] || (|feeds| == 1 && EventOf(p.fed, feeds[0]) == []))
    ensures MediaServed(n, script, timeoutSeconds, h, q)
  {
    var moves :| p == PipeRun(n, script, moves, timeoutSeconds) && Leads(n, Feeds(n, script, moves, timeoutSeconds), h, p.fed);
    var before := Feeds(n, script, moves, timeoutSeconds);
    MoveFeeds(n, script, moves, timeoutSeconds, m, p);
    if feeds == [] {
      assert before + feeds == before;
    } else {
      assert feeds == [feeds[0]];
      LeadsOn(n, before, h, p.fed, feeds[0], before + feeds, []);
    }
    MediaReached(n, script, moves + [m], timeoutSeconds, h, q);
  }

  /** The writer writes the chunk it offers, and `h` reads it. */
  lemma MediaWrites(n: nat, script: seq<Read>, timeoutSeconds: int, h: nat, p: Pipe, e: Entry, pc: Pc) returns (q: Pipe)
    requires MediaServed(n, script, timeoutSeconds, h, p) && Level(p.fed.sys, h) && p.fed.sys.state == Active
    requires p.fed.feed.pc == Offering(e) && pc == if p.fed.feed.last.Some? then Closing else Idle
    ensures MediaServed(n, script, timeoutSeconds, h, q) && q.source == p.source && q.fed.feed == p.fed.feed.(pc := pc)
    ensures h in q.fed.sys.readers && q.fed.sys.readers[h].joined == p.fed.sys.readers[h].joined
    ensures if Terminal(e) then q.fed.sys.readers[h].outcome == Ended(Fault(e.err, e.status))
            else Level(q.fed.sys, h) && q.fed.sys.state == Active
  {
    var moves :| p == PipeRun(n, script, moves, timeoutSeconds) && Leads(n, Feeds(n, script, moves, timeoutSeconds), h, p.fed);
    var feeds := Feeds(n, script, moves, timeoutSeconds);
    ServedFrom(n, feeds, h, p.fed);
    var fed := WritesAndReads(n, feeds, h, p.fed, e, pc);
    q := Pipe(fed, p.source);
    MediaGoesOn(n, script, moves, timeoutSeconds, h, p, q);
  }

  // ----- The whole source -----

  /** `h` has everything written so far, and the context is not done. */
  ghost predicate Serves(n: nat, script: seq<Read>, timeoutSeconds: int, h: nat, p: Pipe) {
    MediaServed(n, script, timeoutSeconds, h, p) && AtRest(p.fed, h) && !p.source.cancelled
  }

  lemma ServesStart(n: nat, script: seq<Read>, timeoutSeconds: int, h: nat) returns (p: Pipe)
    requires 2 <= n
    ensures Serves(n, script, timeoutSeconds, h, p) && p.source == Source([], script, 0, false, None)
  {
    var fed := ServesFirst(n, h);
    var start := PipeRun(n, script, [], timeoutSeconds);
    p := Pipe(fed, start.source);
    MediaGoesOn(n, script, [], timeoutSeconds, h, start, p);
  }

  lemma TurnIs(p: Pipe, timeoutSeconds: int, a: Action, q: Pipe, feeds: seq<Move>)
    requires WellFormed(p.fed.sys.ring) && TakesTurn(p, false, timeoutSeconds) && p.source.rest != [] && !p.source.cancelled
    requires a == ReadAction(p.source.empties, p.source.rest[0], timeoutSeconds) && p.fed.feed.last.None?
    requires q == PipeStep(p, ReadTurn(false), timeoutSeconds) && feeds == FeedOf(p, ReadTurn(false), timeoutSeconds)
    ensures feeds == [] || (|feeds| == 1 && EventOf(p.fed, feeds[0]) == [])
    ensures q.fed.sys == p.fed.sys && q.source == TurnStep(p.source, false, timeoutSeconds)
    ensures q.fed.feed.last.None? && q.fed.feed.pc == if a.feed.Some? then Offering(Entry(a.feed.value, None, 0)) else Idle
  {
  }

  /** The next read is taken and, if it gives a block, the block is written and read. */
  lemma ServesRead(n: nat, script: seq<Read>, timeoutSeconds: int, h: nat, p: Pipe) returns (q: Pipe)
    requires Serves(n, script, timeoutSeconds, h, p) && p.source.returned.None? && p.source.rest != []
    ensures Serves(n, script, timeoutSeconds, h, q) && q.source == TurnStep(p.source, false, timeoutSeconds)
  {
    var a, feeds := ReadAction(p.source.empties, p.source.rest[0], timeoutSeconds), FeedOf(p, ReadTurn(false), timeoutSeconds);
    q := PipeStep(p, ReadTurn(false), timeoutSeconds);
    TurnIs(p, timeoutSeconds, a, q, feeds);
    MediaMoves(n, script, timeoutSeconds, h, p, ReadTurn(false), feeds, q);
    if a.feed.Some? {
      q := MediaWrites(n, script, timeoutSeconds, h, q, Entry(a.feed.value, None, 0), Idle);
    }
  }

  /** The loop does not stop before the script does. */
  lemma StopsWithScript(s: Source, script: seq<Read>, timeoutSeconds: int)
    requires TakenFits(s, script, timeoutSeconds) && ReturnFits(s, timeoutSeconds) && Consume(script, timeoutSeconds).exit == Returned(Some(Eof))
    ensures if s.returned.None? then s.rest != [] else Consume(s.taken, timeoutSeconds).exit.Returned? ==> s.returned == Some(Eof)
  {
    assert script == s.taken + s.rest && (s.rest == [] ==> s.taken == script);
    if s.returned.Some? && Consume(s.taken, timeoutSeconds).exit.Returned? {
      ConsumeStops(s.taken, s.rest, timeoutSeconds);
    }
  }

  lemma FitsServed(n: nat, script: seq<Read>, timeoutSeconds: int, h: nat, p: Pipe)
    requires MediaServed(n, script, timeoutSeconds, h, p)
    ensures TakenFits(p.source, script, timeoutSeconds) && ReturnFits(p.source, timeoutSeconds)
  {
    var moves :| p == PipeRun(n, script, moves, timeoutSeconds) && Leads(n, Feeds(n, script, moves, timeoutSeconds), h, p.fed);
    PipeRunFits(n, script, moves, timeoutSeconds);
  }

  lemma TurnTakes(s: Source, timeoutSeconds: int)
    requires s.rest != [] && !s.cancelled
    ensures var t := TurnStep(s, false, timeoutSeconds); |t.rest| < |s.rest| && t.taken == s.taken + [s.rest[0]]
  {
  }

  /** All reads are taken, up to the one that ends the source. */
  lemma {:induction false} ServesAll(n: nat, script: seq<Read>, timeoutSeconds: int, h: nat, p: Pipe) returns (q: Pipe)
    requires Serves(n, script, timeoutSeconds, h, p) && Consume(script, timeoutSeconds).exit == Returned(Some(Eof))
    requires p.source.returned.Some? ==> Consume(p.source.taken, timeoutSeconds).exit.Returned?
    ensures Serves(n, script, timeoutSeconds, h, q) && q.source.returned == Some(Eof)
    decreases |p.source.rest|
  {
    FitsServed(n, script, timeoutSeconds, h, p);
    StopsWithScript(p.source, script, timeoutSeconds);
    if p.source.returned.Some? {
      q := p;
    } else {
      TurnTakes(p.source, timeoutSeconds);
      ConsumeOne(p.source.taken, p.source.rest[0], timeoutSeconds);
      q := ServesRead(n, script, timeoutSeconds, h, p);
      q := ServesAll(n, script, timeoutSeconds, h, q);
    }
  }

  lemma ReportIs(p: Pipe, timeoutSeconds: int, q: Pipe, feeds: seq<Move>)
    requires WellFormed(p.fed.sys.ring) && p.fed.feed.pc == Idle && p.source.returned == Some(Eof) && !p.source.cancelled
    requires q == PipeStep(p, Report, timeoutSeconds) && feeds == FeedOf(p, Report, timeoutSeconds)
    ensures |feeds| == 1 && EventOf(p.fed, feeds[0]) == []
    ensures q.fed.sys == p.fed.sys && q.source == p.source && q.fed.feed.last.Some?
    ensures q.fed.feed.pc == Offering(Entry([], Some(Eof), STATUS_EOF))
  {
  }

  /** And then its end is reported, and `h` is told. */
  lemma ServesEnd(n: nat, script: seq<Read>, timeoutSeconds: int, h: nat, p: Pipe) returns (q: Pipe)
    requires Serves(n, script, timeoutSeconds, h, p) && p.source.returned == Some(Eof)
    ensures MediaServed(n, script, timeoutSeconds, h, q) && SawEnd(q.fed.sys, h) && q.fed.sys.readers[h].joined == -1
  {
    q := PipeStep(p, Report, timeoutSeconds);
    ReportIs(p, timeoutSeconds, q, FeedOf(p, Report, timeoutSeconds));
    MediaMoves(n, script, timeoutSeconds, h, p, Report, FeedOf(p, Report, timeoutSeconds), q);
    q := MediaWrites(n, script, timeoutSeconds, h, q, Entry([], Some(Eof), STATUS_EOF), Closing);
  }

  lemma LeadsToEnd(n: nat, script: seq<Read>, moves: seq<PipeMove>, timeoutSeconds: int, h: nat, p: Pipe, evs: seq<Event>)
    requires 0 < n && p == PipeRun(n, script, moves, timeoutSeconds) && Leads(n, Feeds(n, script, moves, timeoutSeconds), h, p.fed)
    requires SawEnd(p.fed.sys, h) && p.fed.sys.readers[h].joined == -1 && evs == Events(n, Feeds(n, script, moves, timeoutSeconds))
    ensures StartsAndStays(n, evs, 0, 2, h) && Held(Run(Init(n), evs[..2]), h)
    ensures DataOf(p.fed.sys.readers[h].got) == Consume(script, timeoutSeconds).blocks
  {
    OneClientStays(n, evs, h);
    EndToEndWhileRegistered(n, script, moves, timeoutSeconds, h, evs, p, 0, 2, h);
    EndOfScript(p.source.taken, script, timeoutSeconds);
  }

  /**
    Every source that ends can be served: on any ring of two slots or more there is a run in which a client
    registers, keeps up, stays, is told the end of the source, and has been given every block of it.
   */
  lemma SourceIsServed(n: nat, script: seq<Read>, timeoutSeconds: int, h: nat)
      returns (moves: seq<PipeMove>, evs: seq<Event>, p: Pipe)
    requires 2 <= n && Consume(script, timeoutSeconds).exit == Returned(Some(Eof))
    ensures IsRun(n, script, moves, timeoutSeconds, evs, p) && KeepsUp(Init(n), evs, h) && 2 <= |evs|
    ensures StartsAndStays(n, evs, 0, 2, h) && Held(Run(Init(n), evs[..2]), h)
    ensures SawEnd(p.fed.sys, h) && DataOf(p.fed.sys.readers[h].got) == Consume(script, timeoutSeconds).blocks
  {
    p := ServesStart(n, script, timeoutSeconds, h);
    p := ServesAll(n, script, timeoutSeconds, h, p);
    p := ServesEnd(n, script, timeoutSeconds, h, p);
    moves :| p == PipeRun(n, script, moves, timeoutSeconds) && Leads(n, Feeds(n, script, moves, timeoutSeconds), h, p.fed);
    evs := Events(n, Feeds(n, script, moves, timeoutSeconds));
    LeadsToEnd(n, script, moves, timeoutSeconds, h, p, evs);
  }

  /** Such is every source whose last read is the first to end it. */
  lemma LastReadEnds(script: seq<Read>, timeoutSeconds: int)
    requires script != [] && Consume(script[..|script| - 1], timeoutSeconds).exit == Running
    requires var r := script[|script| - 1]; r.data != [] && r.err == Some(Eof)
    ensures Consume(script, timeoutSeconds).exit == Returned(Some(Eof))
  {
  }
}

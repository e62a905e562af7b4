/** Every list of segments can be served to its end. */
module ServingSegments {
  import opened Basics
  import opened RingLog
  import opened Protocol
  import opened Registration
  import opened SourceLoop
  import opened Scripts
  import opened Feeder
  import opened Segments
  import opened Serving

  /** The segment writer reaches `p`, with `h` the one client, which keeps up. */
  ghost predicate SegServed(n: nat, timeoutSeconds: int, h: nat, p: SegPipe) {
    0 < n && exists moves ::
      p == SegRun(n, moves, timeoutSeconds) && Leads(n, Feeds(n, moves, timeoutSeconds), h, p.fed)
  }

  /** A move and what it makes the writer do. */
  lemma MoveFeeds(n: nat, moves: seq<SegMove>, timeoutSeconds: int, m: SegMove, p: SegPipe)
    requires 0 < n && p == SegRun(n, moves, timeoutSeconds)
    ensures SegRun(n, moves + [m], timeoutSeconds) == SegStep(p, m, timeoutSeconds)
    ensures Feeds(n, moves + [m], timeoutSeconds) == Feeds(n, moves, timeoutSeconds) + FeedOf(p, m, timeoutSeconds)
  {
    assert (moves + [m])[..|moves|] == moves;
  }

  lemma SegReached(n: nat, moves: seq<SegMove>, timeoutSeconds: int, h: nat, p: SegPipe)
    requires 0 < n && p == SegRun(n, moves, timeoutSeconds) && Leads(n, Feeds(n, moves, timeoutSeconds), h, p.fed)
    ensures SegServed(n, timeoutSeconds, h, p)
  {
  }

  lemma FeedingIs(p: SegPipe, f: Move, m: SegMove, timeoutSeconds: int)
    requires WellFormed(p.fed.sys.ring) && !Own(f) && m == Feeding(f)
    ensures FeedOf(p, m, timeoutSeconds) == [f] && SegStep(p, m, timeoutSeconds) == SegPipe(FedStep(p.fed, f), p.source)
  {
  }

  /** What goes on without moves of the writer's own goes on here. */
  lemma {:induction false} SegFollows(n: nat, moves: seq<SegMove>, timeoutSeconds: int, h: nat,
                                      feeds: seq<Move>, more: seq<Move>, p: SegPipe, q: SegPipe)
    requires 0 < n && p == SegRun(n, moves, timeoutSeconds) && feeds == Feeds(n, moves, timeoutSeconds)
    requires Extends(feeds, more) && Leads(n, more, h, q.fed) && q.source == p.source
    ensures SegServed(n, timeoutSeconds, h, q)
    decreases |more| - |feeds|
  {
    if |feeds| == |more| {
      assert more == feeds;
      SegRunIsFed(n, moves, timeoutSeconds);
      SegReached(n, moves, timeoutSeconds, h, q);
    } else {
      var f := more[|feeds|];
      var m := Feeding(f);
      OneMoveFewer(feeds, more, f, feeds + [f]);
      MoveFeeds(n, moves, timeoutSeconds, m, p);
      FeedingIs(p, f, m, timeoutSeconds);
      SegFollows(n, moves + [m], timeoutSeconds, h, feeds + [f], more, SegPipe(FedStep(p.fed, f), p.source), q);
    }
  }

  /** From a state that is reached, what is served from there is reached. */
  lemma SegGoesOn(n: nat, moves: seq<SegMove>, timeoutSeconds: int, h: nat, p: SegPipe, q: SegPipe)
    requires 0 < n && p == SegRun(n, moves, timeoutSeconds) && q.source == p.source
    requires Served(n, Feeds(n, moves, timeoutSeconds), h, q.fed)
    ensures SegServed(n, timeoutSeconds, h, q)
  {
    var feeds := Feeds(n, moves, timeoutSeconds);
    var more :| Extends(feeds, more) && Leads(n, more, h, q.fed);
    SegFollows(n, moves, timeoutSeconds, h, feeds, more, p, q);
  }

  /** A move that makes no step of the coordinator. */
  lemma SegMoves(n: nat, timeoutSeconds: int, h: nat, p: SegPipe, m: SegMove, feeds: seq<Move>, q: SegPipe)
    requires SegServed(n, timeoutSeconds, h, p) && WellFormed(p.fed.sys.ring) && feeds == FeedOf(p, m, timeoutSeconds)
    requires q == SegStep(p, m, timeoutSeconds) && (feeds == [] || (|feeds| == 1 && EventOf(p.fed, feeds[0]) == []))
    ensures SegServed(n, timeoutSeconds, h, q)
  {
    var moves :| p == SegRun(n, moves, timeoutSeconds) && Leads(n, Feeds(n, moves, timeoutSeconds), h, p.fed);
    var before := Feeds(n, moves, timeoutSeconds);
    MoveFeeds(n, moves, timeoutSeconds, m, p);
    if feeds == [] {
      assert before + feeds == before;
    } else {
      assert feeds == [feeds[0]];
      LeadsOn(n, before, h, p.fed, feeds[0], before + feeds, []);
    }
    SegReached(n, moves + [m], timeoutSeconds, h, q);
  }

  /** The writer writes the chunk it offers, and `h` reads it. */
  lemma SegWrites(n: nat, timeoutSeconds: int, h: nat, p: SegPipe, e: Entry, pc: Pc) returns (q: SegPipe)
    requires SegServed(n, timeoutSeconds, h, p) && Level(p.fed.sys, h) && p.fed.sys.state == Active
    requires p.fed.feed.pc == Offering(e) && pc == if p.fed.feed.last.Some? then Closing else Idle
    ensures SegServed(n, timeoutSeconds, h, q) && q.source == p.source && q.fed.feed == p.fed.feed.(pc := pc)
    ensures h in q.fed.sys.readers && q.fed.sys.readers[h].joined == p.fed.sys.readers[h].joined
    ensures if Terminal(e) then q.fed.sys.readers[h].outcome == Ended(Fault(e.err, e.status))
            else Level(q.fed.sys, h) && q.fed.sys.state == Active
  {
    var moves :| p == SegRun(n, moves, timeoutSeconds) && Leads(n, Feeds(n, moves, timeoutSeconds), h, p.fed);
    var feeds := Feeds(n, moves, timeoutSeconds);
    ServedFrom(n, feeds, h, p.fed);
    var fed := WritesAndReads(n, feeds, h, p.fed, e, pc);
    q := SegPipe(fed, p.source);
    SegGoesOn(n, moves, timeoutSeconds, h, p, q);
  }

  // ----- All segments -----

  /** `h` has everything written so far. */
  ghost predicate Serves(n: nat, timeoutSeconds: int, h: nat, p: SegPipe) {
    SegServed(n, timeoutSeconds, h, p) && AtRest(p.fed, h)
  }

  lemma ServesStart(n: nat, timeoutSeconds: int, h: nat) returns (p: SegPipe)
    requires 2 <= n
    ensures Serves(n, timeoutSeconds, h, p) && p.source == Source([], [], false)
  {
    var fed := ServesFirst(n, h);
    var start := SegRun(n, [], timeoutSeconds);
    p := SegPipe(fed, start.source);
    SegGoesOn(n, [], timeoutSeconds, h, start, p);
  }

  lemma TakeIs(p: SegPipe, r: Read, timeoutSeconds: int, a: Action, q: SegPipe, feeds: seq<Move>)
    requires WellFormed(p.fed.sys.ring) && AtLoopHead(p) && p.fed.feed.last.None? && a == NextAction(p, r, timeoutSeconds)
    requires q == SegStep(p, TakeRead(r), timeoutSeconds) && feeds == FeedOf(p, TakeRead(r), timeoutSeconds)
    ensures feeds == [] || (|feeds| == 1 && EventOf(p.fed, feeds[0]) == [])
    ensures q.fed.sys == p.fed.sys && q.source == Source(p.source.over, p.source.current + [r], a.exit == Running)
    ensures q.fed.feed.last.None? && q.fed.feed.pc == if a.feed.Some? then Offering(Entry(a.feed.value, None, 0)) else Idle
  {
  }

  /** The next read is taken and, if it gives a block, the block is written and read. */
  lemma ServesRead(n: nat, timeoutSeconds: int, h: nat, p: SegPipe, r: Read) returns (q: SegPipe)
    requires Serves(n, timeoutSeconds, h, p) && p.source.running
    ensures Serves(n, timeoutSeconds, h, q)
    ensures q.source == Source(p.source.over, p.source.current + [r], NextAction(p, r, timeoutSeconds).exit == Running)
  {
    var a, feeds := NextAction(p, r, timeoutSeconds), FeedOf(p, TakeRead(r), timeoutSeconds);
    q := SegStep(p, TakeRead(r), timeoutSeconds);
    TakeIs(p, r, timeoutSeconds, a, q, feeds);
    SegMoves(n, timeoutSeconds, h, p, TakeRead(r), feeds, q);
    if a.feed.Some? {
      q := SegWrites(n, timeoutSeconds, h, q, Entry(a.feed.value, None, 0), Idle);
    }
  }

  lemma FitsServed(n: nat, timeoutSeconds: int, h: nat, p: SegPipe)
    requires SegServed(n, timeoutSeconds, h, p)
    ensures SourceFits(p, timeoutSeconds)
  {
    var moves :| p == SegRun(n, moves, timeoutSeconds) && Leads(n, Feeds(n, moves, timeoutSeconds), h, p.fed);
    SegRunFits(n, moves, timeoutSeconds);
  }

  /** The writer gives up a segment whose loop has not returned. */
  lemma GivesUp(n: nat, timeoutSeconds: int, h: nat, p: SegPipe, q: SegPipe)
    requires Serves(n, timeoutSeconds, h, p) && q == SegStep(p, Abandon, timeoutSeconds)
    ensures Serves(n, timeoutSeconds, h, q) && q.source == p.source.(running := false)
  {
    SegMoves(n, timeoutSeconds, h, p, Abandon, [], q);
  }

  lemma OneReadMore(body: seq<Read>, k: nat, before: seq<Read>, current: seq<Read>, timeoutSeconds: int)
    requires k < |body| && before == body[..k] && current == before + [body[k]] && Consume(before, timeoutSeconds).exit == Running
    ensures current == body[..k + 1]
    ensures var a := ReadAction(Consume(before, timeoutSeconds).empties, body[k], timeoutSeconds);
      a.exit.Returned? ==> Consume(current, timeoutSeconds).blocks == Consume(body, timeoutSeconds).blocks
  {
    ConsumeOne(before, body[k], timeoutSeconds);
    if Consume(current, timeoutSeconds).exit.Returned? {
      EndOfScript(current, body, timeoutSeconds);
    }
  }

  /** The rest of a segment, to its end or until its loop returns. */
  lemma {:induction false} ServesBody(n: nat, timeoutSeconds: int, h: nat, p: SegPipe, body: seq<Read>, k: nat) returns (q: SegPipe)
    requires Serves(n, timeoutSeconds, h, p) && p.source.running && k <= |body| && p.source.current == body[..k]
    ensures Serves(n, timeoutSeconds, h, q) && !q.source.running && q.source.over == p.source.over
    ensures Consume(q.source.current, timeoutSeconds).blocks == Consume(body, timeoutSeconds).blocks
    decreases |body| - k
  {
    if k == |body| {
      assert body[..k] == body;
      q := SegStep(p, Abandon, timeoutSeconds);
      GivesUp(n, timeoutSeconds, h, p, q);
    } else {
      FitsServed(n, timeoutSeconds, h, p);
      q := ServesRead(n, timeoutSeconds, h, p, body[k]);
      OneReadMore(body, k, p.source.current, q.source.current, timeoutSeconds);
      if q.source.running {
        q := ServesBody(n, timeoutSeconds, h, q, body, k + 1);
      }
    }
  }

  lemma OpenIs(p: SegPipe, timeoutSeconds: int, q: SegPipe)
    requires WellFormed(p.fed.sys.ring) && p.fed.feed.pc == Idle && !p.source.running && q == SegStep(p, Open, timeoutSeconds)
    ensures FeedOf(p, Open, timeoutSeconds) == [] && q == SegPipe(p.fed, Source(p.source.over + [p.source.current], [], true))
  {
  }

  /** One segment after another. */
  lemma {:induction false} ServesBodies(n: nat, timeoutSeconds: int, h: nat, bodies: seq<seq<Read>>) returns (p: SegPipe)
    requires 2 <= n
    ensures Serves(n, timeoutSeconds, h, p) && !p.source.running
    ensures SegmentBlocks(Bodies(p.source), timeoutSeconds) == SegmentBlocks(bodies, timeoutSeconds)
  {
    if bodies == [] {
      p := ServesStart(n, timeoutSeconds, h);
      OneSegmentMore([], [], timeoutSeconds);
    } else {
      var before, last := bodies[..|bodies| - 1], bodies[|bodies| - 1];
      var first := ServesBodies(n, timeoutSeconds, h, before);
      var begun := SegStep(first, Open, timeoutSeconds);
      OpenIs(first, timeoutSeconds, begun);
      SegMoves(n, timeoutSeconds, h, first, Open, [], begun);
      p := ServesBody(n, timeoutSeconds, h, begun, last, 0);
      OneSegmentMore(p.source.over, p.source.current, timeoutSeconds);
    }
  }

  lemma EndIs(p: SegPipe, x: Fault, timeoutSeconds: int, q: SegPipe, feeds: seq<Move>)
    requires WellFormed(p.fed.sys.ring) && p.fed.feed.pc == Idle && !p.source.running && p.fed.sys.state == Active
    requires Terminal(Entry([], x.err, x.status)) && q == SegStep(p, End(x), timeoutSeconds) && feeds == FeedOf(p, End(x), timeoutSeconds)
    ensures |feeds| == 1 && EventOf(p.fed, feeds[0]) == []
    ensures q.fed.sys == p.fed.sys && q.source == p.source && q.fed.feed.last.Some?
    ensures q.fed.feed.pc == Offering(Entry([], x.err, x.status))
  {
  }

  /** And then the end is reported, and `h` is told. */
  lemma ServesEnd(n: nat, timeoutSeconds: int, h: nat, p: SegPipe, x: Fault) returns (q: SegPipe)
    requires Serves(n, timeoutSeconds, h, p) && !p.source.running && Terminal(Entry([], x.err, x.status))
    ensures SegServed(n, timeoutSeconds, h, q) && q.source == p.source
    ensures h in q.fed.sys.readers && q.fed.sys.readers[h].outcome == Ended(x) && q.fed.sys.readers[h].joined == -1
  {
    q := SegStep(p, End(x), timeoutSeconds);
    EndIs(p, x, timeoutSeconds, q, FeedOf(p, End(x), timeoutSeconds));
    SegMoves(n, timeoutSeconds, h, p, End(x), FeedOf(p, End(x), timeoutSeconds), q);
    q := SegWrites(n, timeoutSeconds, h, q, Entry([], x.err, x.status), Closing);
  }

  lemma LeadsToEnd(n: nat, moves: seq<SegMove>, timeoutSeconds: int, h: nat, p: SegPipe, evs: seq<Event>)
    requires 0 < n && p == SegRun(n, moves, timeoutSeconds) && Leads(n, Feeds(n, moves, timeoutSeconds), h, p.fed)
    requires h in p.fed.sys.readers && p.fed.sys.readers[h].outcome.Ended? && p.fed.sys.readers[h].joined == -1
    requires evs == Events(n, Feeds(n, moves, timeoutSeconds))
    ensures RunsUndisturbed(Init(n), evs)
    ensures DataOf(p.fed.sys.readers[h].got) == SegmentBlocks(Bodies(p.source), timeoutSeconds)
  {
    OneClientStays(n, evs, h);
    StayingUndisturbed(n, evs, 0, 2, h);
    SegmentsArrive(n, moves, timeoutSeconds, h, evs, p);
  }

  /**
    Every list of segments can be served: on any ring of two slots or more, and for any final error, there is an
    undisturbed run in which a client keeps up, is told that error, and has been given every block of the segments.
   */
  lemma SegmentsAreServed(n: nat, bodies: seq<seq<Read>>, timeoutSeconds: int, h: nat, x: Fault)
      returns (moves: seq<SegMove>, evs: seq<Event>, p: SegPipe)
    requires 2 <= n && (x.err.Some? || x.status != 0)
    ensures p == SegRun(n, moves, timeoutSeconds) && evs == Events(n, Feeds(n, moves, timeoutSeconds))
    ensures RunsUndisturbed(Init(n), evs) && KeepsUp(Init(n), evs, h)
    ensures h in p.fed.sys.readers && p.fed.sys.readers[h].outcome == Ended(x)
    ensures DataOf(p.fed.sys.readers[h].got) == SegmentBlocks(bodies, timeoutSeconds)
  {
    p := ServesBodies(n, timeoutSeconds, h, bodies);
    p := ServesEnd(n, timeoutSeconds, h, p, x);
    moves :| p == SegRun(n, moves, timeoutSeconds) && Leads(n, Feeds(n, moves, timeoutSeconds), h, p.fed);
    evs := Events(n, Feeds(n, moves, timeoutSeconds));
    LeadsToEnd(n, moves, timeoutSeconds, h, p, evs);
  }
}

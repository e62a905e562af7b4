/**
  The segment writer: one body after another is read into the shared buffer. Which segments there are, and
  when the writer gives up, is left open; so is the chunk with which it ends.
 */
module Segments {
  import opened Basics
  import opened RingLog
  import opened Protocol
  import opened Registration
  import opened SourceLoop
  import opened Scripts
  import opened Feeder

  /** The reads taken from the segments that are over and from the current one, whose loop may still be running. */
  datatype Source = Source(over: seq<seq<Read>>, current: seq<Read>, running: bool)

  function Bodies(s: Source): seq<seq<Read>> {
    s.over + [s.current]
  }

  datatype SegPipe = SegPipe(fed: Fed, source: Source)

  datatype SegMove = Open | TakeRead(read: Read) | Abandon | End(fault: Fault) | Feeding(m: Move)

  /** All blocks of the segments, in order. */
  function SegmentBlocks(bodies: seq<seq<Read>>, timeoutSeconds: int): seq<Bytes> {
    if bodies == [] then []
    else SegmentBlocks(bodies[..|bodies| - 1], timeoutSeconds) + Consume(bodies[|bodies| - 1], timeoutSeconds).blocks
  }

  /** The loop over the current segment is at its head, with the stream active. */
  predicate AtLoopHead(p: SegPipe) {
    p.fed.feed.pc == Idle && p.source.running && p.fed.sys.state == Active
  }

  /** The next turn of the current segment's loop. */
  function NextAction(p: SegPipe, r: Read, timeoutSeconds: int): Action {
    ReadAction(Consume(p.source.current, timeoutSeconds).empties, r, timeoutSeconds)
  }

  /** What a move makes the writer do. */
  function FeedOf(p: SegPipe, m: SegMove, timeoutSeconds: int): seq<Move> {
    match m
    case TakeRead(r) =>
      if !AtLoopHead(p) then []
      else
        var a := NextAction(p, r, timeoutSeconds);
        if a.feed.Some? then [Pass(a.feed.value)] else []
    case End(x) => if p.source.running then [] else if p.fed.sys.state == Active then [Finish(x)] else [Halt]
    case Feeding(f) => if f.Pass? || f.Finish? || f.Halt? then [] else [f]
    case _ => []
  }

  function SourceStep(p: SegPipe, m: SegMove, timeoutSeconds: int): Source {
    var s := p.source;
    match m
    case Open => if p.fed.feed.pc == Idle && !s.running then Source(s.over + [s.current], [], true) else s
    case TakeRead(r) =>
      if AtLoopHead(p) then s.(current := s.current + [r], running := NextAction(p, r, timeoutSeconds).exit == Running) else s
    case Abandon => s.(running := false)
    case _ => s
  }

  function SegStep(p: SegPipe, m: SegMove, timeoutSeconds: int): (q: SegPipe)
    requires WellFormed(p.fed.sys.ring)
    ensures WellFormed(q.fed.sys.ring)
  {
    var feeds := FeedOf(p, m, timeoutSeconds);
    SegPipe(if feeds == [] then p.fed else FedStep(p.fed, feeds[0]), SourceStep(p, m, timeoutSeconds))
  }

  function SegRun(n: nat, moves: seq<SegMove>, timeoutSeconds: int): (p: SegPipe)
    requires 0 < n
    ensures WellFormed(p.fed.sys.ring)
  {
    if moves == [] then SegPipe(Fed(Init(n), NOTHING_FED), Source([], [], false))
    else SegStep(SegRun(n, moves[..|moves| - 1], timeoutSeconds), moves[|moves| - 1], timeoutSeconds)
  }

  function Feeds(n: nat, moves: seq<SegMove>, timeoutSeconds: int): seq<Move>
    requires 0 < n
  {
    if moves == [] then []
    else
      var before := moves[..|moves| - 1];
      Feeds(n, before, timeoutSeconds) + FeedOf(SegRun(n, before, timeoutSeconds), moves[|moves| - 1], timeoutSeconds)
  }

  lemma {:induction false} SegRunIsFed(n: nat, moves: seq<SegMove>, timeoutSeconds: int)
    requires 0 < n
    ensures SegRun(n, moves, timeoutSeconds).fed == FedRun(n, Feeds(n, moves, timeoutSeconds))
  {
    if moves == [] {
    } else {
      var before := moves[..|moves| - 1];
      SegRunIsFed(n, before, timeoutSeconds);
      var feeds := FeedOf(SegRun(n, before, timeoutSeconds), moves[|moves| - 1], timeoutSeconds);
      var all := Feeds(n, moves, timeoutSeconds);
      if feeds == [] {
        assert all == Feeds(n, before, timeoutSeconds);
      } else {
        assert all[..|all| - 1] == Feeds(n, before, timeoutSeconds);
      }
    }
  }

  // ----- What every move keeps -----

  lemma OneSegmentMore(bodies: seq<seq<Read>>, body: seq<Read>, timeoutSeconds: int)
    ensures SegmentBlocks(bodies + [body], timeoutSeconds)
         == SegmentBlocks(bodies, timeoutSeconds) + Consume(body, timeoutSeconds).blocks
  {
    assert (bodies + [body])[..|bodies|] == bodies;
  }

  /** The writer has passed the blocks of the segments, and a running loop has not returned. */
  predicate SourceFits(p: SegPipe, timeoutSeconds: int) {
    var c := Consume(p.source.current, timeoutSeconds);
    && p.fed.feed.passed == SegmentBlocks(p.source.over, timeoutSeconds) + c.blocks
    && (p.source.running ==> c.exit == Running)
  }

  /** What a read of the running loop changes. */
  lemma ReadPasses(p: SegPipe, r: Read, timeoutSeconds: int, q: SegPipe, a: Action)
    requires WellFormed(p.fed.sys.ring) && AtLoopHead(p) && a == NextAction(p, r, timeoutSeconds)
    requires q == SegStep(p, TakeRead(r), timeoutSeconds)
    ensures q.fed.feed.passed == p.fed.feed.passed + Passed(a)
    ensures q.source == Source(p.source.over, p.source.current + [r], a.exit == Running)
  {
  }

  lemma ReadFits(p: SegPipe, r: Read, timeoutSeconds: int, q: SegPipe)
    requires WellFormed(p.fed.sys.ring) && SourceFits(p, timeoutSeconds) && AtLoopHead(p)
    requires q == SegStep(p, TakeRead(r), timeoutSeconds)
    ensures SourceFits(q, timeoutSeconds)
  {
    var a := NextAction(p, r, timeoutSeconds);
    var done, blocks := SegmentBlocks(p.source.over, timeoutSeconds), Consume(p.source.current, timeoutSeconds).blocks;
    ReadPasses(p, r, timeoutSeconds, q, a);
    ConsumeOne(p.source.current, r, timeoutSeconds);
    Regroup(done, blocks, Passed(a));
  }

  lemma OpenFits(p: SegPipe, timeoutSeconds: int, q: SegPipe)
    requires WellFormed(p.fed.sys.ring) && SourceFits(p, timeoutSeconds) && q == SegStep(p, Open, timeoutSeconds)
    ensures SourceFits(q, timeoutSeconds)
  {
    OneSegmentMore(p.source.over, p.source.current, timeoutSeconds);
  }

  lemma SegMoveFits(p: SegPipe, m: SegMove, timeoutSeconds: int, q: SegPipe)
    requires WellFormed(p.fed.sys.ring) && SourceFits(p, timeoutSeconds) && q == SegStep(p, m, timeoutSeconds)
    ensures SourceFits(q, timeoutSeconds)
  {
    if m.TakeRead? && AtLoopHead(p) {
      ReadFits(p, m.read, timeoutSeconds, q);
    } else if m.Open? {
      OpenFits(p, timeoutSeconds, q);
    } else {
      assert q.fed.feed.passed == p.fed.feed.passed && q.source == p.source.(running := q.source.running);
    }
  }

  lemma {:induction false} SegRunFits(n: nat, moves: seq<SegMove>, timeoutSeconds: int)
    requires 0 < n
    ensures SourceFits(SegRun(n, moves, timeoutSeconds), timeoutSeconds)
  {
    if moves == [] {
    } else {
      var before := moves[..|moves| - 1];
      SegRunFits(n, before, timeoutSeconds);
      SegMoveFits(SegRun(n, before, timeoutSeconds), moves[|moves| - 1], timeoutSeconds, SegRun(n, moves, timeoutSeconds));
    }
  }

  // ----- End to end -----

  /**
    Whatever the interleaving, if nothing written is cleared, the stream is not revived and the client keeps
    up, a client loop that is told how the stream ended has handed on exactly the blocks of the segments, in
    order, from its join point to the last.
   */
  lemma SegmentsArrive(n: nat, moves: seq<SegMove>, timeoutSeconds: int, h: nat, evs: seq<Event>, p: SegPipe)
    requires 0 < n && evs == Events(n, Feeds(n, moves, timeoutSeconds)) && p == SegRun(n, moves, timeoutSeconds)
    requires RunsUndisturbed(Init(n), evs) && KeepsUp(Init(n), evs, h)
    requires h in p.fed.sys.readers && p.fed.sys.readers[h].outcome.Ended?
    ensures GotAllPassed(p.fed.sys.readers[h], p.fed.feed)
    ensures p.fed.feed.passed == SegmentBlocks(Bodies(p.source), timeoutSeconds)
  {
    SegRunIsFed(n, moves, timeoutSeconds);
    SegRunFits(n, moves, timeoutSeconds);
    OneSegmentMore(p.source.over, p.source.current, timeoutSeconds);
    FedToTheEnd(n, Feeds(n, moves, timeoutSeconds), h, evs, p.fed);
  }

  /** A segment whose body is read without interruption. */
  function Uninterrupted(bodies: seq<seq<Read>>): seq<Segment> {
    seq(|bodies|, i requires 0 <= i < |bodies| => Segment(false, None, LiveTurns(bodies[i])))
  }

  /** These are the blocks that streaming the segments passes on. */
  lemma {:induction false} SegmentBlocksAreStreamed(bodies: seq<seq<Read>>, initialBackoff: int, timeoutSeconds: int)
    ensures AllBlocks(Uninterrupted(bodies), initialBackoff, timeoutSeconds) == SegmentBlocks(bodies, timeoutSeconds)
  {
    if bodies == [] {
    } else {
      var before, last := bodies[..|bodies| - 1], bodies[|bodies| - 1];
      SegmentBlocksAreStreamed(before, initialBackoff, timeoutSeconds);
      LoopIsConsume(last, RetryDelay(initialBackoff, timeoutSeconds), timeoutSeconds);
      var all := Uninterrupted(bodies);
      assert all[..|all| - 1] == Uninterrupted(before) && all[|all| - 1] == Segment(false, None, LiveTurns(last));
    }
  }
}

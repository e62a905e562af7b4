/** What a source's reads amount to, when nothing stops the loop that reads them from outside. */
module Scripts {
  import opened Basics
  import opened SourceLoop
  import Backoff

  datatype Progress = Progress(blocks: seq<Bytes>, empties: nat, exit: Exit)

  /** The read loop on a list of reads, when nothing stops it from outside. */
  function Consume(rs: seq<Read>, timeoutSeconds: int): Progress {
    if rs == [] then Progress([], 0, Running)
    else
      var p := Consume(rs[..|rs| - 1], timeoutSeconds);
      if p.exit.Returned? then p
      else
        var a := ReadAction(p.empties, rs[|rs| - 1], timeoutSeconds);
        Progress(p.blocks + Passed(a), a.empties, a.exit)
  }

  /** The blocks of the reads that count. */
  function KeptReads(rs: seq<Read>): seq<Bytes> {
    if rs == [] then []
    else KeptReads(rs[..|rs| - 1]) + if Counts(rs[|rs| - 1]) then [rs[|rs| - 1].data] else []
  }

  /** Every byte the source gave. */
  function AllBytes(rs: seq<Read>): Bytes {
    if rs == [] then [] else AllBytes(rs[..|rs| - 1]) + rs[|rs| - 1].data
  }

  lemma {:induction false} ConsumeKeepsWhatCounts(rs: seq<Read>, timeoutSeconds: int)
    requires rs != [] ==> Consume(rs[..|rs| - 1], timeoutSeconds).exit == Running
    ensures Consume(rs, timeoutSeconds).blocks == KeptReads(rs)
  {
    if rs == [] {
    } else {
      ConsumeKeepsWhatCounts(rs[..|rs| - 1], timeoutSeconds);
    }
  }

  lemma {:induction false} CleanReadsAllCount(rs: seq<Read>)
    requires forall i | 0 <= i < |rs| && rs[i].data != [] :: Counts(rs[i])
    ensures Flatten(KeptReads(rs)) == AllBytes(rs)
  {
    if rs == [] {
    } else {
      var last := rs[|rs| - 1];
      CleanReadsAllCount(rs[..|rs| - 1]);
      var block := if Counts(last) then [last.data] else [];
      FlattenConcat(KeptReads(rs[..|rs| - 1]), block);
      assert Flatten([last.data]) == last.data + Flatten([]);
    }
  }

  function LiveTurns(rs: seq<Read>): seq<Turn> {
    seq(|rs|, i requires 0 <= i < |rs| => Turn(true, false, false, rs[i], false))
  }

  /** The pipeline's writer and the read loop agree on what a script yields. */
  lemma {:induction false} LoopIsConsume(rs: seq<Read>, b: Backoff.Delay, timeoutSeconds: int)
    ensures var t, c := Loop(LiveTurns(rs), 0, b, timeoutSeconds), Consume(rs, timeoutSeconds);
      t.blocks == c.blocks && t.exit == c.exit && t.empties == c.empties
  {
    if rs == [] {
    } else {
      var before, last := rs[..|rs| - 1], LiveTurns(rs[|rs| - 1..]);
      LoopIsConsume(before, b, timeoutSeconds);
      assert LiveTurns(rs) == LiveTurns(before) + last;
      if Consume(before, timeoutSeconds).exit == Running {
        var b' := LoopResumes(LiveTurns(before), last, 0, b, timeoutSeconds);
        OneTurn(last[0], Consume(before, timeoutSeconds).empties, b', timeoutSeconds);
        assert last == [last[0]];
      } else {
        LoopStops(LiveTurns(before), last, 0, b, timeoutSeconds);
      }
    }
  }

  lemma ConsumeOne(taken: seq<Read>, r: Read, timeoutSeconds: int)
    requires Consume(taken, timeoutSeconds).exit == Running
    ensures var c := Consume(taken, timeoutSeconds);
      var a := ReadAction(c.empties, r, timeoutSeconds);
      Consume(taken + [r], timeoutSeconds) == Progress(c.blocks + Passed(a), a.empties, a.exit)
  {
    assert (taken + [r])[..|taken|] == taken;
  }

  /** Reads after the loop has returned make no difference. */
  lemma {:induction false} ConsumeStops(a: seq<Read>, c: seq<Read>, timeoutSeconds: int)
    requires Consume(a, timeoutSeconds).exit.Returned?
    ensures Consume(a + c, timeoutSeconds) == Consume(a, timeoutSeconds)
    decreases |c|
  {
    if c == [] {
      assert a + c == a;
    } else {
      ConsumeStops(a, c[..|c| - 1], timeoutSeconds);
      assert (a + c)[..|a + c| - 1] == a + c[..|c| - 1];
    }
  }

  /** What the reads amount to that ended the source is what the whole script does. */
  lemma EndOfScript(used: seq<Read>, script: seq<Read>, timeoutSeconds: int)
    requires used <= script && Consume(used, timeoutSeconds).exit.Returned?
    ensures Consume(script, timeoutSeconds) == Consume(used, timeoutSeconds)
  {
    var rest := script[|used|..];
    assert script == used + rest;
    ConsumeStops(used, rest, timeoutSeconds);
  }

  lemma FlattenSplit(blocks: seq<Bytes>, j: nat)
    requires j <= |blocks|
    ensures Flatten(blocks) == Flatten(blocks[..j]) + Flatten(blocks[j..])
  {
    var a, b := blocks[..j], blocks[j..];
    assert a + b == blocks;
    FlattenConcat(a, b);
  }
}

/** Which lines of a playlist belong together, and which streams, URLs and index files come of them. */
module Pairing {
  import opened Basics
  import opened Text
  import opened SortKeys
  import opened Streams
  import opened Playlist

  /** The `#EXTINF` line in force before line `i`: the nearest one above it, with only lines that start with `#` between. */
  function TagBefore(lines: seq<Line>, i: nat): Option<string>
    requires i <= |lines|
  {
    if i == 0 then None
    else
      var line := TrimSpace(lines[i - 1].content);
      if StartsWith(line, "#EXTINF:") then Some(line)
      else if StartsWith(line, "#") then TagBefore(lines, i - 1)
      else None
  }

  /** An `#EXTINF` line and the line of its URL. */
  datatype Call = Call(tag: string, next: Line)

  /** The pairs of a playlist, in order: every line that does not start with `#` and has a tag in force. */
  function Calls(lines: seq<Line>): seq<Call> {
    if lines == [] then []
    else
      var n := |lines| - 1;
      var tag := TagBefore(lines, n);
      Calls(lines[..n])
      + if tag.Some? && !StartsWith(TrimSpace(lines[n].content), "#") then [Call(tag.value, lines[n])] else []
  }

  /** A playlist's index, how URLs are hashed, and the settings. */
  datatype Source = Source(m3uIndex: string, hash: string -> string, settings: Settings)

  function UrlOfCall(c: Call): string {
    TrimSpace(c.next.content)
  }

  function StreamOf(c: Call, src: Source): StreamInfo {
    Described(c.tag, src.settings)
  }

  /** The title, the source and the hash of the URL. */
  function FileOf(c: Call, src: Source): FileName {
    FileName(StreamOf(c, src).title, src.m3uIndex, src.hash(UrlOfCall(c)))
  }

  predicate Titled(c: Call, src: Source) {
    StreamOf(c, src).title != ""
  }

  predicate Kept(c: Call, src: Source) {
    Titled(c, src) && src.settings.keep(StreamOf(c, src).group, StreamOf(c, src).title)
  }

  /** The pairs whose streams are sent, by their places. */
  function KeptCalls(calls: seq<Call>, src: Source): (places: seq<nat>)
    ensures forall k | 0 <= k < |places| :: places[k] < |calls|
  {
    if calls == [] then []
    else KeptCalls(calls[..|calls| - 1], src) + if Kept(calls[|calls| - 1], src) then [|calls| - 1] else []
  }

  function FilesOf(calls: seq<Call>, src: Source): set<FileName> {
    set c | c in calls && Titled(c, src) :: FileOf(c, src)
  }

  /** Neither an index file from before nor an earlier pair has the same title, source and hash. */
  predicate IsNew(calls: seq<Call>, i: nat, src: Source, files: set<FileName>)
    requires i < |calls|
  {
    FileOf(calls[i], src) !in files && forall j | 0 <= j < i && Titled(calls[j], src) :: FileOf(calls[j], src) != FileOf(calls[i], src)
  }

  /** What is sent for a pair: its URL goes with it, as its line and itself, only the first time. */
  function SentFor(calls: seq<Call>, i: nat, src: Source, files: set<FileName>): StreamInfo
    requires i < |calls|
  {
    var c := calls[i];
    var urls := if IsNew(calls, i, src, files)
                then map[src.hash(UrlOfCall(c)) := Decimal(c.next.lineNum) + ":::" + UrlOfCall(c)]
                else map[];
    StreamOf(c, src).(sourceM3U := src.m3uIndex, sourceIndex := c.next.lineNum, urls := map[src.m3uIndex := urls])
  }

  ghost predicate SendsAll(sent: seq<StreamInfo>, calls: seq<Call>, src: Source, files: set<FileName>) {
    var places := KeptCalls(calls, src);
    |sent| == |places| && forall k | 0 <= k < |sent| :: sent[k] == SentFor(calls, places[k], src, files)
  }

  /** The streams and the index files that come of the pairs. */
  ghost predicate ComesOf(end: Progress, calls: seq<Call>, src: Source, files: set<FileName>) {
    end.files == files + FilesOf(calls, src) && SendsAll(end.sent, calls, src, files)
  }

  // ----- One pair more -----

  lemma EarlierStays(calls: seq<Call>, c: Call, more: seq<Call>, i: nat, src: Source, files: set<FileName>)
    requires i < |calls| && more == calls + [c]
    ensures SentFor(more, i, src, files) == SentFor(calls, i, src, files)
  {
    assert more[i] == calls[i];
    if IsNew(calls, i, src, files) {
      forall j | 0 <= j < i && Titled(more[j], src) ensures FileOf(more[j], src) != FileOf(more[i], src) {
        assert more[j] == calls[j];
      }
    }
    if IsNew(more, i, src, files) {
      forall j | 0 <= j < i && Titled(calls[j], src) ensures FileOf(calls[j], src) != FileOf(calls[i], src) {
        assert more[j] == calls[j];
      }
    }
  }

  lemma NewMeansNoFile(calls: seq<Call>, c: Call, more: seq<Call>, src: Source, files: set<FileName>)
    requires more == calls + [c]
    ensures IsNew(more, |calls|, src, files) <==> FileOf(c, src) !in files + FilesOf(calls, src)
  {
    if FileOf(c, src) in FilesOf(calls, src) {
      var d :| d in calls && Titled(d, src) && FileOf(d, src) == FileOf(c, src);
      var j :| 0 <= j < |calls| && calls[j] == d;
      assert more[j] == d;
    } else {
      forall j | 0 <= j < |calls| && Titled(more[j], src) ensures FileOf(more[j], src) != FileOf(c, src) {
        assert more[j] in calls;
      }
    }
  }

  lemma FilesOneMore(calls: seq<Call>, c: Call, more: seq<Call>, src: Source)
    requires more == calls + [c]
    ensures FilesOf(more, src) == FilesOf(calls, src) + if Titled(c, src) then {FileOf(c, src)} else {}
  {
    assert forall x :: x in more <==> x in calls || x == c;
  }

  /** What parsing one pair gives after the pairs before it. */
  lemma ParsedIs(calls: seq<Call>, c: Call, more: seq<Call>, src: Source, files: set<FileName>)
    requires more == calls + [c]
    ensures var parsed := Parsed(c.tag, c.next, src.m3uIndex, src.hash, files + FilesOf(calls, src), src.settings);
      && parsed.1 == files + FilesOf(more, src)
      && parsed.0 == if Titled(c, src) then Some(SentFor(more, |calls|, src, files)) else None
  {
    NewMeansNoFile(calls, c, more, src, files);
    FilesOneMore(calls, c, more, src);
  }

  lemma SendsOneMore(sent: seq<StreamInfo>, calls: seq<Call>, c: Call, more: seq<Call>, src: Source, files: set<FileName>)
    requires SendsAll(sent, calls, src, files) && more == calls + [c]
    ensures SendsAll(if Kept(c, src) then sent + [SentFor(more, |calls|, src, files)] else sent, more, src, files)
  {
    assert more[..|more| - 1] == calls;
    forall k | 0 <= k < |sent| ensures sent[k] == SentFor(more, KeptCalls(calls, src)[k], src, files) {
      EarlierStays(calls, c, more, KeptCalls(calls, src)[k], src, files);
    }
  }

  // ----- One line more -----

  lemma {:induction false} HandlesLast(p: Progress, lines: seq<Line>, x: Line, src: Source)
    ensures HandleLines(p, lines + [x], src.m3uIndex, src.hash, src.settings)
         == HandleLine(HandleLines(p, lines, src.m3uIndex, src.hash, src.settings), x, src.m3uIndex, src.hash, src.settings)
    decreases |lines|
  {
    if lines == [] {
      assert [] + [x] == [x] && [x][1..] == [];
    } else {
      var q := HandleLine(p, lines[0], src.m3uIndex, src.hash, src.settings);
      HandlesLast(q, lines[1..], x, src);
      assert (lines + [x])[1..] == lines[1..] + [x];
    }
  }

  lemma {:induction false} TagOfPrefix(lines: seq<Line>, i: nat, more: seq<Line>)
    requires i <= |lines| && lines <= more
    ensures TagBefore(more, i) == TagBefore(lines, i)
  {
    if i == 0 {
    } else {
      TagOfPrefix(lines, i - 1, more);
    }
  }

  /** The tag that is waiting is the one in force. */
  predicate Waits(end: Progress, lines: seq<Line>) {
    var tag := TagBefore(lines, |lines|);
    end.currentLine == if tag.Some? then tag.value else ""
  }

  lemma {:induction false} TagIsATag(lines: seq<Line>, i: nat)
    requires i <= |lines| && TagBefore(lines, i).Some?
    ensures TagBefore(lines, i).value != ""
  {
    if !StartsWith(TrimSpace(lines[i - 1].content), "#EXTINF:") {
      TagIsATag(lines, i - 1);
    }
  }

  lemma CallsOneMore(lines: seq<Line>, x: Line, more: seq<Line>)
    requires more == lines + [x]
    ensures TagBefore(more, |lines|) == TagBefore(lines, |lines|)
    ensures var tag := TagBefore(lines, |lines|);
      Calls(more) == Calls(lines)
        + if tag.Some? && !StartsWith(TrimSpace(x.content), "#") then [Call(tag.value, x)] else []
  {
    TagOfPrefix(lines, |lines|, more);
    assert more[..|more| - 1] == lines;
  }

  lemma CallIs(end: Progress, c: Call, src: Source, end': Progress)
    requires end.currentLine == c.tag != "" && !StartsWith(TrimSpace(c.next.content), "#")
    requires end' == HandleLine(end, c.next, src.m3uIndex, src.hash, src.settings)
    ensures var parsed := Parsed(c.tag, c.next, src.m3uIndex, src.hash, end.files, src.settings);
      end' == Progress("", parsed.1,
        if parsed.0.Some? && src.settings.keep(parsed.0.value.group, parsed.0.value.title) then end.sent + [parsed.0.value] else end.sent)
  {
    StartsAlso(TrimSpace(c.next.content), "#", "EXTINF:");
    assert EXTINF == "#" + "EXTINF:";
  }

  /** The line of a URL, with a tag in force. */
  lemma HandlesCall(end: Progress, calls: seq<Call>, c: Call, more: seq<Call>, src: Source, files: set<FileName>, end': Progress)
    requires ComesOf(end, calls, src, files) && end.currentLine == c.tag != "" && more == calls + [c]
    requires !StartsWith(TrimSpace(c.next.content), "#")
    requires end' == HandleLine(end, c.next, src.m3uIndex, src.hash, src.settings)
    ensures ComesOf(end', more, src, files) && end'.currentLine == ""
  {
    CallIs(end, c, src, end');
    ParsedIs(calls, c, more, src, files);
    SendsOneMore(end.sent, calls, c, more, src, files);
  }

  /** Any other line. */
  lemma HandlesNoCall(end: Progress, x: Line, src: Source, end': Progress)
    requires end.currentLine == "" || StartsWith(TrimSpace(x.content), "#")
    requires end' == HandleLine(end, x, src.m3uIndex, src.hash, src.settings)
    ensures var line := TrimSpace(x.content);
      end' == if StartsWith(line, "#EXTINF:") then end.(currentLine := line) else end
  {
  }

  lemma HandlesOneMore(end: Progress, lines: seq<Line>, x: Line, more: seq<Line>, src: Source, files: set<FileName>, end': Progress)
    requires ComesOf(end, Calls(lines), src, files) && Waits(end, lines) && more == lines + [x]
    requires end' == HandleLine(end, x, src.m3uIndex, src.hash, src.settings)
    ensures ComesOf(end', Calls(more), src, files) && Waits(end', more)
  {
    var line, tag := TrimSpace(x.content), TagBefore(lines, |lines|);
    CallsOneMore(lines, x, more);
    if tag.Some? {
      TagIsATag(lines, |lines|);
    }
    if tag.Some? && !StartsWith(line, "#") {
      HandlesCall(end, Calls(lines), Call(tag.value, x), Calls(more), src, files, end');
    } else {
      HandlesNoCall(end, x, src, end');
      assert Calls(more) == Calls(lines);
    }
  }

  lemma NothingYet(first: Progress, src: Source, files: set<FileName>)
    requires first == Progress("", files, [])
    ensures ComesOf(first, Calls([]), src, files) && Waits(first, [])
  {
    assert FilesOf([], src) == {};
  }

  lemma HandlesNext(p: Progress, lines: seq<Line>, k: nat, src: Source, q: Progress)
    requires k < |lines| && q == HandleLine(p, lines[k], src.m3uIndex, src.hash, src.settings)
    ensures HandleLines(p, lines[k..], src.m3uIndex, src.hash, src.settings)
         == HandleLines(q, lines[k + 1..], src.m3uIndex, src.hash, src.settings)
  {
    assert lines[k..][1..] == lines[k + 1..];
  }

  /** What has come of the first `k` lines. */
  ghost predicate ComesOfFirst(p: Progress, lines: seq<Line>, k: nat, src: Source, files: set<FileName>)
    requires k <= |lines|
  {
    ComesOf(p, Calls(lines[..k]), src, files) && Waits(p, lines[..k])
  }

  lemma HandlesAt(p: Progress, lines: seq<Line>, k: nat, src: Source, files: set<FileName>, q: Progress,
                  done: seq<Line>, more: seq<Line>)
    requires k < |lines| && done == lines[..k] && more == lines[..k + 1] && ComesOf(p, Calls(done), src, files) && Waits(p, done)
    requires q == HandleLine(p, lines[k], src.m3uIndex, src.hash, src.settings)
    ensures ComesOf(q, Calls(more), src, files) && Waits(q, more)
  {
    assert more == done + [lines[k]];
    HandlesOneMore(p, done, lines[k], more, src, files, q);
  }

  /** From what has come of the first lines, the rest leads to what comes of all of them. */
  lemma {:induction false} HandlesRest(p: Progress, lines: seq<Line>, k: nat, src: Source, files: set<FileName>, end: Progress)
    requires k <= |lines| && ComesOfFirst(p, lines, k, src, files)
    requires end == HandleLines(p, lines[k..], src.m3uIndex, src.hash, src.settings)
    ensures ComesOfFirst(end, lines, |lines|, src, files)
    decreases |lines| - k
  {
    if k < |lines| {
      var q := HandleLine(p, lines[k], src.m3uIndex, src.hash, src.settings);
      HandlesNext(p, lines, k, src, q);
      HandlesAt(p, lines, k, src, files, q, lines[..k], lines[..k + 1]);
      HandlesRest(q, lines, k + 1, src, files, end);
    }
  }

  /**
    For every list of lines: the streams sent are those of its pairs that the filter keeps, in order. The first pair
    with a given title, source and URL hash sends its URL with its line, a repeated one sends none, and there is an index
    file afterwards for each that was there before or has a title.
   */
  lemma PlaylistComesOf(lines: seq<Line>, src: Source, files: set<FileName>, first: Progress, end: Progress)
    requires first == Progress("", files, []) && end == HandleLines(first, lines, src.m3uIndex, src.hash, src.settings)
    ensures ComesOf(end, Calls(lines), src, files) && Waits(end, lines)
  {
    NothingYet(first, src, files);
    assert lines[..0] == [] && lines[0..] == lines && lines[..|lines|] == lines;
    HandlesRest(first, lines, 0, src, files, end);
  }

  lemma {:induction false} HandlesConcat(p: Progress, a: seq<Line>, b: seq<Line>, src: Source)
    ensures HandleLines(p, a + b, src.m3uIndex, src.hash, src.settings)
         == HandleLines(HandleLines(p, a, src.m3uIndex, src.hash, src.settings), b, src.m3uIndex, src.hash, src.settings)
    decreases |b|
  {
    if b == [] {
      assert a + b == a;
    } else {
      var before, last := b[..|b| - 1], b[|b| - 1];
      HandlesConcat(p, a, before, src);
      assert b == before + [last];
      Regroup(a, before, [last]);
      HandlesLast(p, a + before, last, src);
      HandlesLast(HandleLines(p, a, src.m3uIndex, src.hash, src.settings), before, last, src);
    }
  }

  /** Any other line that starts with `#` makes no difference wherever it stands. */
  lemma CommentsAreIgnored(p: Progress, a: seq<Line>, comment: Line, b: seq<Line>, src: Source)
    requires var line := TrimSpace(comment.content); StartsWith(line, "#") && !StartsWith(line, "#EXTINF:")
    ensures HandleLines(p, a + ([comment] + b), src.m3uIndex, src.hash, src.settings)
         == HandleLines(p, a + b, src.m3uIndex, src.hash, src.settings)
  {
    HandlesConcat(p, a, [comment] + b, src);
    HandlesConcat(p, a, b, src);
    assert ([comment] + b)[1..] == b;
  }
}

/** When a title is flushed, and what is merged into its entry, told from the list of adds alone. */
module Flushes {
  import opened Basics
  import opened Streams
  import opened SortKeys
  import opened Sorter
  import opened SorterProperties

  /** The distinct names that were added to a shard. */
  function Names(hash: string -> nat, adds: seq<StreamInfo>, shard: nat): set<string> {
    set s | s in adds && KeyOf(hash, s).shard == shard :: KeyOf(hash, s).name
  }

  function PageOf(hash: string -> nat, adds: seq<StreamInfo>, shard: nat): Page {
    Look(BookFrom(map[], hash, adds), shard, map[])
  }

  lemma PageNames(hash: string -> nat, adds: seq<StreamInfo>, shard: nat)
    ensures PageOf(hash, adds, shard).Keys == Names(hash, adds, shard)
    ensures |PageOf(hash, adds, shard)| == |Names(hash, adds, shard)|
  {
    var page, names := PageOf(hash, adds, shard), Names(hash, adds, shard);
    forall t ensures t in page <==> t in names {
      KeysAreConserved(hash, adds, Key(shard, t));
    }
    assert page.Keys == names;
  }

  lemma NewTitleCounts(p: Page, t: string, s: StreamInfo)
    requires t !in p
    ensures |p[t := Buffered(s, [])]| == |p| + 1
    ensures |BufferedTitles(p[t := Buffered(s, [])])| == |BufferedTitles(p)| + 1
  {
    var q := p[t := Buffered(s, [])];
    assert q.Keys == p.Keys + {t};
    assert BufferedTitles(q) == BufferedTitles(p) + {t};
  }

  lemma FlushEmptiesBuffer(p: Page)
    ensures BufferedTitles(FlushPage(p)) == {} && FlushPage(p).Keys == p.Keys && |FlushPage(p)| == |p|
  {
    assert FlushPage(p).Keys == p.Keys;
  }

  lemma LaterCounts(p: Page, t: string, s: StreamInfo)
    requires t in p
    ensures var q := AddToPage(p, t, s); q.Keys == p.Keys && |q| == |p| && BufferedTitles(q) == BufferedTitles(p)
  {
    var q := AddToPage(p, t, s);
    assert q.Keys == p.Keys;
  }

  /** A page buffers what is left over of its titles after whole flushes. */
  lemma PageCounts(p: Page, t: string, s: StreamInfo)
    requires |BufferedTitles(p)| == |p| % 250
    ensures |BufferedTitles(AddToPage(p, t, s))| == |AddToPage(p, t, s)| % 250
  {
    if t in p {
      LaterCounts(p, t, s);
    } else {
      NewTitleCounts(p, t, s);
      FlushEmptiesBuffer(p[t := Buffered(s, [])]);
    }
  }

  lemma {:induction false} BufferIsRemainder(hash: string -> nat, adds: seq<StreamInfo>, shard: nat)
    ensures |BufferedTitles(PageOf(hash, adds, shard))| == |PageOf(hash, adds, shard)| % 250
  {
    if adds == [] {
      assert BufferedTitles(map[]) == {};
    } else {
      var before, last := adds[..|adds| - 1], adds[|adds| - 1];
      BufferIsRemainder(hash, before, shard);
      PageCounts(PageOf(hash, before, shard), SanitizeField(last.title), last);
    }
  }

  /** How many times a shard with `n` names has been flushed. */
  function FlushCount(n: nat): nat {
    n / 250
  }

  /** The record of a known title after an add to its page. */
  lemma RecordAfterAdd(p: Page, t: string, s: StreamInfo, x: string)
    requires x in p && |BufferedTitles(p)| == |p| % 250
    ensures var q := AddToPage(p, t, s);
      && x in q && q[x].first == p[x].first && |p| <= |q|
      && (q[x].Flushed? <==> p[x].Flushed? || FlushCount(|p|) < FlushCount(|q|))
      && (p[x].Buffered? && q[x].Flushed? ==> q[x] == Flushed(p[x].first, []))
  {
    if t in p {
      LaterCounts(p, t, s);
    } else {
      NewTitleCounts(p, t, s);
      FlushEmptiesBuffer(p[t := Buffered(s, [])]);
    }
  }

  lemma RecordOfNew(p: Page, t: string, s: StreamInfo)
    requires t !in p && |BufferedTitles(p)| == |p| % 250
    ensures var q := AddToPage(p, t, s);
      && t in q && |q| == |p| + 1
      && q[t] == if FlushCount(|p|) < FlushCount(|q|) then Flushed(s, []) else Buffered(s, [])
  {
    NewTitleCounts(p, t, s);
    FlushEmptiesBuffer(p[t := Buffered(s, [])]);
  }

  /** The record of the `m`-th title of a page that now has `n`, counting from 0. */
  predicate Ripe(r: Record, first: StreamInfo, m: nat, n: nat) {
    r.first == first && m < n && (r.Flushed? <==> FlushCount(m) < FlushCount(n))
  }

  lemma StaysRipe(p: Page, t: string, s: StreamInfo, x: string, first: StreamInfo, m: nat)
    requires x in p && Ripe(p[x], first, m, |p|) && |BufferedTitles(p)| == |p| % 250
    ensures x in AddToPage(p, t, s) && Ripe(AddToPage(p, t, s)[x], first, m, |AddToPage(p, t, s)|)
  {
    RecordAfterAdd(p, t, s, x);
  }

  /** `adds[i]` is the first add of its key. */
  predicate IsFirst(hash: string -> nat, adds: seq<StreamInfo>, i: nat, k: Key)
    requires i < |adds|
  {
    KeyOf(hash, adds[i]) == k && k.name !in Names(hash, adds[..i], k.shard)
  }

  lemma {:induction false} RipeRecord(hash: string -> nat, adds: seq<StreamInfo>, i: nat, k: Key, m: nat)
    requires i < |adds| && IsFirst(hash, adds, i, k) && m == |PageOf(hash, adds[..i], k.shard)|
    ensures Known(BookFrom(map[], hash, adds), k)
    ensures Ripe(RecordAt(BookFrom(map[], hash, adds), k), adds[i], m, |PageOf(hash, adds, k.shard)|)
    decreases |adds|
  {
    var before, last := adds[..|adds| - 1], adds[|adds| - 1];
    var p, t := PageOf(hash, before, k.shard), SanitizeField(last.title);
    BufferIsRemainder(hash, before, k.shard);
    if i == |before| {
      PageNames(hash, before, k.shard);
      RecordOfNew(p, t, last);
    } else {
      assert before[..i] == adds[..i];
      RipeRecord(hash, before, i, k, m);
      if KeyOf(hash, last).shard == k.shard {
        StaysRipe(p, t, last, k.name, adds[i], m);
      }
    }
  }

  /**
    A title is flushed exactly when its shard, by the number of its distinct names, has been flushed more
    often than before that title came.
   */
  lemma FlushedWhen(hash: string -> nat, adds: seq<StreamInfo>, i: nat, k: Key)
    requires i < |adds| && IsFirst(hash, adds, i, k)
    ensures Known(BookFrom(map[], hash, adds), k)
    ensures Ripe(RecordAt(BookFrom(map[], hash, adds), k), adds[i],
                 |Names(hash, adds[..i], k.shard)|, |Names(hash, adds, k.shard)|)
  {
    PageNames(hash, adds[..i], k.shard);
    PageNames(hash, adds, k.shard);
    RipeRecord(hash, adds, i, k, |PageOf(hash, adds[..i], k.shard)|);
  }

  // ----- What is merged -----

  /** More adds, no fewer names. */
  lemma NamesGrow(hash: string -> nat, adds: seq<StreamInfo>, i: nat, j: nat, shard: nat)
    requires i <= j <= |adds|
    ensures FlushCount(|Names(hash, adds[..i], shard)|) <= FlushCount(|Names(hash, adds[..j], shard)|)
  {
    assert forall s | s in adds[..i] :: s in adds[..j];
    SubsetSize(Names(hash, adds[..i], shard), Names(hash, adds[..j], shard));
  }

  /**
    `adds[i]` is the first add of `k`, and `adds[j]` the add that flushes it: before it the shard's names have
    not reached the next multiple of 250, with it they have. If none has, `j` is the end of the list.
   */
  predicate FlushedBy(hash: string -> nat, adds: seq<StreamInfo>, i: nat, j: nat, k: Key)
    requires i < |adds|
  {
    var m := |Names(hash, adds[..i], k.shard)|;
    && IsFirst(hash, adds, i, k) && i <= j <= |adds|
    && FlushCount(|Names(hash, adds[..j], k.shard)|) == FlushCount(m)
    && (j < |adds| ==> FlushCount(m) < FlushCount(|Names(hash, adds[..j + 1], k.shard)|))
  }

  /** Such an add, or the end of the list, is found from any moment before it on. */
  lemma {:induction false} FlushedLater(hash: string -> nat, adds: seq<StreamInfo>, i: nat, k: Key, from: nat) returns (j: nat)
    requires i < |adds| && IsFirst(hash, adds, i, k) && i <= from <= |adds|
    requires FlushCount(|Names(hash, adds[..from], k.shard)|) == FlushCount(|Names(hash, adds[..i], k.shard)|)
    ensures FlushedBy(hash, adds, i, j, k)
    decreases |adds| - from
  {
    j := from;
    if from < |adds| {
      NamesGrow(hash, adds, i, from + 1, k.shard);
      if FlushCount(|Names(hash, adds[..from + 1], k.shard)|) == FlushCount(|Names(hash, adds[..i], k.shard)|) {
        j := FlushedLater(hash, adds, i, k, from + 1);
      }
    }
  }

  /** So there is one for every key that is added. */
  lemma FlushedBySome(hash: string -> nat, adds: seq<StreamInfo>, i: nat, k: Key) returns (j: nat)
    requires i < |adds| && IsFirst(hash, adds, i, k)
    ensures FlushedBy(hash, adds, i, j, k)
  {
    j := FlushedLater(hash, adds, i, k, i);
  }

  lemma {:induction false} BookFromSplit(book: Book, hash: string -> nat, adds: seq<StreamInfo>, j: nat)
    requires j <= |adds|
    ensures BookFrom(book, hash, adds) == BookFrom(BookFrom(book, hash, adds[..j]), hash, adds[j..])
    decreases |adds|
  {
    if j == |adds| {
      assert adds[..j] == adds && adds[j..] == [];
    } else {
      var most, after := adds[..|adds| - 1], adds[j..];
      assert most[..j] == adds[..j] && most[j..] == after[..|after| - 1] && after[|after| - 1] == adds[|adds| - 1];
      BookFromSplit(book, hash, most, j);
    }
  }

  lemma BookOneMore(hash: string -> nat, adds: seq<StreamInfo>, j: nat)
    requires j < |adds|
    ensures BookFrom(map[], hash, adds[..j + 1]) == Added(BookFrom(map[], hash, adds[..j]), hash, adds[j])
  {
    assert adds[..j + 1][..j] == adds[..j];
  }

  /** A record that was buffered and then flushed has nothing merged into it. */
  lemma FlushedJustNow(book: Book, hash: string -> nat, s: StreamInfo, k: Key)
    requires |BufferedTitles(Look(book, k.shard, map[]))| == |Look(book, k.shard, map[])| % 250
    requires Known(Added(book, hash, s), k) && RecordAt(Added(book, hash, s), k).Flushed?
    requires Known(book, k) ==> RecordAt(book, k).Buffered?
    ensures RecordAt(Added(book, hash, s), k) == Flushed(RecordAt(Added(book, hash, s), k).first, [])
  {
    var p := Look(book, k.shard, map[]);
    if KeyOf(hash, s).shard == k.shard {
      if k.name in p {
        RecordAfterAdd(p, SanitizeField(s.title), s, k.name);
      } else if k.name == SanitizeField(s.title) {
        RecordOfNew(p, k.name, s);
      }
    }
  }

  lemma NotYetFlushed(hash: string -> nat, adds: seq<StreamInfo>, i: nat, j: nat, k: Key)
    requires i < |adds| && FlushedBy(hash, adds, i, j, k)
    ensures Known(BookFrom(map[], hash, adds[..j]), k) ==> RecordAt(BookFrom(map[], hash, adds[..j]), k).Buffered?
  {
    if i == j {
      PageNames(hash, adds[..j], k.shard);
    } else {
      assert adds[..j][..i] == adds[..i] && adds[..j][i] == adds[i];
      FlushedWhen(hash, adds[..j], i, k);
    }
  }

  /** The add that flushes a title leaves its first stream on file and nothing merged into it. */
  lemma JustFlushed(hash: string -> nat, adds: seq<StreamInfo>, i: nat, j: nat, k: Key)
    requires i < |adds| && j < |adds| && FlushedBy(hash, adds, i, j, k)
    ensures Known(BookFrom(map[], hash, adds[..j + 1]), k)
    ensures RecordAt(BookFrom(map[], hash, adds[..j + 1]), k) == Flushed(adds[i], [])
  {
    var upTo := adds[..j + 1];
    assert upTo[..i] == adds[..i] && upTo[i] == adds[i];
    FlushedWhen(hash, upTo, i, k);
    BookOneMore(hash, adds, j);
    BufferIsRemainder(hash, adds[..j], k.shard);
    NotYetFlushed(hash, adds, i, j, k);
    FlushedJustNow(BookFrom(map[], hash, adds[..j]), hash, adds[j], k);
  }

  /** A title that has not been flushed: its entry is its first stream. */
  lemma NotFlushed(hash: string -> nat, adds: seq<StreamInfo>, i: nat, k: Key)
    requires i < |adds| && FlushedBy(hash, adds, i, |adds|, k)
    ensures Known(BookFrom(map[], hash, adds), k) && Final(RecordAt(BookFrom(map[], hash, adds), k)) == Stored(adds[i])
  {
    assert adds[..|adds|] == adds;
    FlushedWhen(hash, adds, i, k);
  }

  /** The entry a title ends up with, from the adds alone: its first stream and all adds of its key after the flush. */
  lemma EntryFromAdds(hash: string -> nat, adds: seq<StreamInfo>, i: nat, j: nat, k: Key)
    requires i < |adds| && FlushedBy(hash, adds, i, j, k)
    ensures Known(BookFrom(map[], hash, adds), k)
    ensures Final(RecordAt(BookFrom(map[], hash, adds), k))
         == Fold(Stored(adds[i]), ForKey(hash, adds[Min(j + 1, |adds|)..], k))
  {
    if j == |adds| {
      NotFlushed(hash, adds, i, k);
      assert adds[|adds|..] == [];
    } else {
      JustFlushed(hash, adds, i, j, k);
      BookFromSplit(map[], hash, adds, j + 1);
      EntryAfterFlush(hash, BookFrom(map[], hash, adds[..j + 1]), adds[j + 1..], k);
    }
  }

  lemma {:induction false} ForKeySplit(hash: string -> nat, adds: seq<StreamInfo>, j: nat, k: Key)
    requires j <= |adds|
    ensures ForKey(hash, adds, k) == ForKey(hash, adds[..j], k) + ForKey(hash, adds[j..], k)
    decreases |adds|
  {
    if j == |adds| {
      assert adds[..j] == adds && adds[j..] == [];
    } else {
      var most, after := adds[..|adds| - 1], adds[j..];
      ForKeySplit(hash, most, j, k);
      assert most[..j] == adds[..j] && most[j..] == after[..|after| - 1] && after[|after| - 1] == adds[|adds| - 1];
    }
  }

  lemma {:induction false} NoneOfKey(hash: string -> nat, adds: seq<StreamInfo>, k: Key)
    requires forall s | s in adds :: KeyOf(hash, s) != k
    ensures ForKey(hash, adds, k) == []
  {
    if adds == [] {
    } else {
      NoneOfKey(hash, adds[..|adds| - 1], k);
      assert adds[|adds| - 1] in adds;
    }
  }

  /** The adds of a key: its first, those up to `m`, and those from there on. */
  lemma AddsOfKey(hash: string -> nat, adds: seq<StreamInfo>, i: nat, m: nat, k: Key)
    requires i < m <= |adds| && IsFirst(hash, adds, i, k)
    ensures ForKey(hash, adds, k) == [adds[i]] + (ForKey(hash, adds[i + 1..m], k) + ForKey(hash, adds[m..], k))
  {
    ForKeySplit(hash, adds, m, k);
    ForKeySplit(hash, adds[..m], i + 1, k);
    assert adds[..m][..i + 1] == adds[..i + 1] && adds[..m][i + 1..] == adds[i + 1..m];
    assert adds[..i + 1][..i] == adds[..i];
    NoneOfKey(hash, adds[..i], k);
    assert ForKey(hash, adds[..i + 1], k) == [adds[i]];
    Regroup([adds[i]], ForKey(hash, adds[i + 1..m], k), ForKey(hash, adds[m..], k));
  }

  /**
    So the entry is the merge of everything added under its key exactly when the adds after the first, up to
    the one that flushes it, had nothing to contribute.
   */
  lemma MergedFromAdds(hash: string -> nat, adds: seq<StreamInfo>, i: nat, j: nat, k: Key, early: seq<StreamInfo>, late: seq<StreamInfo>)
    requires i < |adds| && FlushedBy(hash, adds, i, j, k)
    requires early == ForKey(hash, adds[i + 1..Min(j + 1, |adds|)], k)
    requires late == ForKey(hash, adds[Min(j + 1, |adds|)..], k)
    ensures ForKey(hash, adds, k) == [adds[i]] + (early + late)
    ensures Known(BookFrom(map[], hash, adds), k)
    ensures Final(RecordAt(BookFrom(map[], hash, adds), k)) == Fold(Stored(adds[i]), early + late)
       <==> NothingToLose(Stored(adds[i]), early, late)
  {
    AddsOfKey(hash, adds, i, Min(j + 1, |adds|), k);
    EntryFromAdds(hash, adds, i, j, k);
    EarlyAddsAreLost(Stored(adds[i]), early, late);
  }
}

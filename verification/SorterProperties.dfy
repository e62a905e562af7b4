/** What a whole run of the sorter gives: which entries are emitted, what is merged into them, in which order. */
module SorterProperties {
  import opened Basics
  import opened Streams
  import opened Text
  import opened SortKeys
  import opened Sorting
  import opened Sorter

  /** The book after a run of adds. */
  function BookFrom(book: Book, hash: string -> nat, adds: seq<StreamInfo>): Book {
    if adds == [] then book else Added(BookFrom(book, hash, adds[..|adds| - 1]), hash, adds[|adds| - 1])
  }

  /** The adds of one key, in order. */
  function ForKey(hash: string -> nat, adds: seq<StreamInfo>, k: Key): seq<StreamInfo> {
    if adds == [] then []
    else
      var last := adds[|adds| - 1];
      ForKey(hash, adds[..|adds| - 1], k) + if KeyOf(hash, last) == k then [last] else []
  }

  /** An add of another key can at most flush a record. */
  lemma AddToOther(hash: string -> nat, book: Book, s: StreamInfo, k: Key)
    requires KeyOf(hash, s) != k
    ensures Known(Added(book, hash, s), k) <==> Known(book, k)
    ensures Known(book, k) ==>
      var r, r' := RecordAt(book, k), RecordAt(Added(book, hash, s), k);
      r' == r || (r.Buffered? && r' == Flushed(r.first, []))
  {
  }

  /** An add of the key itself, and the flush it may cause. */
  lemma AddToSame(hash: string -> nat, book: Book, s: StreamInfo)
    ensures Known(Added(book, hash, s), KeyOf(hash, s))
    ensures var k, r' := KeyOf(hash, s), RecordAt(Added(book, hash, s), KeyOf(hash, s));
      if Known(book, k) then r' == LaterRecord(RecordAt(book, k), s)
      else r' == Buffered(s, []) || r' == Flushed(s, [])
  {
  }

  /** Exactly the keys that were added are known. */
  lemma {:induction false} KeysAreConserved(hash: string -> nat, adds: seq<StreamInfo>, k: Key)
    ensures Known(BookFrom(map[], hash, adds), k) <==> exists s :: s in adds && KeyOf(hash, s) == k
    ensures forall s | s in adds :: KeyOf(hash, s) == Key(hash(s.title) % 4096, SanitizeField(s.title))
  {
    if adds == [] {
    } else {
      var before, last := adds[..|adds| - 1], adds[|adds| - 1];
      KeysAreConserved(hash, before, k);
      assert adds == before + [last];
      if KeyOf(hash, last) == k {
        AddToSame(hash, BookFrom(map[], hash, before), last);
        assert last in adds;
      } else {
        AddToOther(hash, BookFrom(map[], hash, before), last, k);
        assert forall s | s in adds && KeyOf(hash, s) == k :: s in before;
        assert forall s | s in before :: s in adds;
      }
    }
  }

  lemma {:induction false} RunIsFiled(hash: string -> nat, adds: seq<StreamInfo>)
    ensures Filed(hash, BookFrom(map[], hash, adds))
  {
    if adds == [] {
    } else {
      var before := adds[..|adds| - 1];
      RunIsFiled(hash, before);
      AddedKeepsFiled(hash, BookFrom(map[], hash, before), adds[|adds| - 1]);
    }
  }

  /**
    A list of what the book holds has, for every stream that was added, exactly one entry of its key, and
    no other entries.
   */
  lemma OneEntryPerKey(hash: string -> nat, adds: seq<StreamInfo>, emitted: seq<StreamInfo>)
    requires Distinct(emitted) && forall x :: x in emitted <==> Listed(hash, BookFrom(map[], hash, adds), x)
    ensures forall i, j | 0 <= i < j < |emitted| :: KeyOf(hash, emitted[i]) != KeyOf(hash, emitted[j])
    ensures (set x | x in emitted :: KeyOf(hash, x)) == set s | s in adds :: KeyOf(hash, s)
  {
    var book := BookFrom(map[], hash, adds);
    forall i, j | 0 <= i < j < |emitted| ensures KeyOf(hash, emitted[i]) != KeyOf(hash, emitted[j]) {
      assert emitted[i] in emitted && emitted[j] in emitted;
    }
    forall x | x in emitted ensures KeyOf(hash, x) in set s | s in adds :: KeyOf(hash, s) {
      KeysAreConserved(hash, adds, KeyOf(hash, x));
    }
    RunIsFiled(hash, adds);
    forall s | s in adds ensures KeyOf(hash, s) in set x | x in emitted :: KeyOf(hash, x) {
      KeysAreConserved(hash, adds, KeyOf(hash, s));
      EntryKey(hash, book, KeyOf(hash, s));
      assert Final(RecordAt(book, KeyOf(hash, s))) in emitted;
    }
  }

  /** A shard's index is the buffered titles and those in the file. */
  lemma IndexIsBufferAndFile(shard: Shard, file: map<string, StreamInfo>, page: Page)
    requires Agrees(shard, file, page)
    ensures shard.index == shard.buffer.Keys + file.Keys
  {
    forall t | t in shard.index ensures t in shard.buffer || t in file {
      assert page[t].Buffered? || OnFile(page[t]).Some?;
    }
  }

  predicate IsEndOf<T(==)>(a: seq<T>, b: seq<T>) {
    |a| <= |b| && b[|b| - |a|..] == a
  }

  /** `r` is what is left of the adds `all` of its key. */
  ghost predicate Remembers(r: Record, all: seq<StreamInfo>) {
    all != [] && r.first == all[0] && if r.Buffered? then r.early == all[1..] else IsEndOf(r.late, all[1..])
  }

  lemma EndGrows<T>(a: seq<T>, b: seq<T>, x: T)
    requires IsEndOf(a, b)
    ensures IsEndOf(a + [x], b + [x])
  {
  }

  lemma RemembersLater(r: Record, all: seq<StreamInfo>, s: StreamInfo)
    requires Remembers(r, all)
    ensures Remembers(LaterRecord(r, s), all + [s])
  {
    assert (all + [s])[1..] == all[1..] + [s];
    if r.Flushed? {
      EndGrows(r.late, all[1..], s);
    }
  }

  /** The adds that are merged into the first stream: those made after its flush. */
  function Merged(r: Record): seq<StreamInfo> {
    if r.Flushed? then r.late else []
  }

  lemma SplitHistory(all: seq<StreamInfo>, late: seq<StreamInfo>)
    requires all != [] && IsEndOf(late, all[1..])
    ensures all[|all| - |late|..] == late && all[1..] == all[1..|all| - |late|] + late
  {
  }

  /** The first stream added under a key stays the first, and what is merged later is the end of the key's adds. */
  lemma {:induction false} HistoryOfKey(hash: string -> nat, adds: seq<StreamInfo>, k: Key)
    ensures Known(BookFrom(map[], hash, adds), k) <==> ForKey(hash, adds, k) != []
    ensures Known(BookFrom(map[], hash, adds), k) ==>
      Remembers(RecordAt(BookFrom(map[], hash, adds), k), ForKey(hash, adds, k))
  {
    if adds == [] {
    } else {
      var before, last := adds[..|adds| - 1], adds[|adds| - 1];
      var book, all := BookFrom(map[], hash, before), ForKey(hash, before, k);
      HistoryOfKey(hash, before, k);
      if KeyOf(hash, last) != k {
        AddToOther(hash, book, last, k);
      } else {
        AddToSame(hash, book, last);
        if Known(book, k) {
          RemembersLater(RecordAt(book, k), all, last);
        } else {
          assert all + [last] == [last] && [last][1..] == [];
        }
      }
    }
  }

  /** Once a key's first stream has been flushed, every later add of the key is merged, in order. */
  lemma {:induction false} MergedAfterFlush(hash: string -> nat, book: Book, adds: seq<StreamInfo>, k: Key)
    requires Known(book, k) && RecordAt(book, k).Flushed?
    ensures Known(BookFrom(book, hash, adds), k)
    ensures RecordAt(BookFrom(book, hash, adds), k)
         == Flushed(RecordAt(book, k).first, RecordAt(book, k).late + ForKey(hash, adds, k))
  {
    var r := RecordAt(book, k);
    if adds == [] {
      assert r.late + [] == r.late;
    } else {
      var before, last := adds[..|adds| - 1], adds[|adds| - 1];
      MergedAfterFlush(hash, book, before, k);
      if KeyOf(hash, last) == k {
        AddToSame(hash, BookFrom(book, hash, before), last);
        Regroup(r.late, ForKey(hash, before, k), [last]);
      } else {
        AddToOther(hash, BookFrom(book, hash, before), last, k);
      }
    }
  }

  lemma FoldSnoc(base: StreamInfo, more: seq<StreamInfo>, s: StreamInfo)
    ensures Fold(base, more + [s]) == Stored(Merge(Fold(base, more), s))
  {
    assert (more + [s])[..|more|] == more;
  }

  lemma {:induction false} FoldConcat(base: StreamInfo, a: seq<StreamInfo>, b: seq<StreamInfo>)
    ensures Fold(base, a + b) == Fold(Fold(base, a), b)
  {
    if b == [] {
      assert a + b == a;
    } else {
      var before, last := b[..|b| - 1], b[|b| - 1];
      FoldConcat(base, a, before);
      assert b == before + [last];
      Regroup(a, before, [last]);
      FoldSnoc(base, a + before, last);
      FoldSnoc(Fold(base, a), before, last);
    }
  }

  /** So the entry is the left fold of the merge over the flushed entry and all later adds. */
  lemma EntryAfterFlush(hash: string -> nat, book: Book, adds: seq<StreamInfo>, k: Key)
    requires Known(book, k) && RecordAt(book, k).Flushed?
    ensures Known(BookFrom(book, hash, adds), k)
    ensures Final(RecordAt(BookFrom(book, hash, adds), k)) == Fold(Final(RecordAt(book, k)), ForKey(hash, adds, k))
  {
    MergedAfterFlush(hash, book, adds, k);
    var r := RecordAt(book, k);
    FoldConcat(Stored(r.first), r.late, ForKey(hash, adds, k));
  }

  // ----- What a merge keeps -----

  /** A merge has the URLs of both streams; where both have one under the same provider and name, the second's. */
  lemma MergedUrls(a: StreamInfo, b: StreamInfo, provider: string, sub: string)
    ensures provider in Merge(a, b).urls <==> provider in a.urls || provider in b.urls
    ensures var merged, first, second := UrlsOf(Merge(a, b).urls, provider), UrlsOf(a.urls, provider), UrlsOf(b.urls, provider);
      && (sub in merged <==> sub in first || sub in second)
      && (sub in second ==> merged[sub] == second[sub])
      && (sub in first && sub !in second ==> merged[sub] == first[sub])
  {
    if provider in a.urls || provider in b.urls {
      assert Merge(a, b).urls[provider] == BothUrls(a.urls, b.urls, provider);
    }
  }

  const ATTRIBUTES := 6

  /** The attributes a merge fills in. */
  function Attribute(s: StreamInfo, k: nat): string {
    match k
    case 0 => s.title
    case 1 => s.tvgId
    case 2 => s.tvgChNo
    case 3 => s.tvgType
    case 4 => s.logo
    case _ => s.group
  }

  /** The first value of an attribute that is not empty. */
  function FirstSet(streams: seq<StreamInfo>, k: nat): string {
    if streams == [] then "" else First(Attribute(streams[0], k), FirstSet(streams[1..], k))
  }

  lemma {:induction false} FirstSetConcat(a: seq<StreamInfo>, b: seq<StreamInfo>, k: nat)
    ensures FirstSet(a + b, k) == First(FirstSet(a, k), FirstSet(b, k))
  {
    if a == [] {
      assert a + b == b;
    } else {
      FirstSetConcat(a[1..], b, k);
      assert (a + b)[1..] == a[1..] + b;
    }
  }

  predicate SameSource(a: StreamInfo, b: StreamInfo) {
    a.sourceM3U == b.sourceM3U && a.sourceIndex == b.sourceIndex
  }

  /** `s` comes from the least of the sources of `streams`. */
  ghost predicate FromLeastSource(s: StreamInfo, streams: seq<StreamInfo>) {
    && (exists x :: x in streams && SameSource(x, s))
    && (forall x | x in streams :: !SourceLess(x, s))
  }

  lemma SourcesAreOrdered(a: StreamInfo, b: StreamInfo)
    ensures SourceLess(a, b) || SameSource(a, b) || SourceLess(b, a)
    ensures !(SourceLess(a, b) && SourceLess(b, a)) && (SameSource(a, b) ==> !SourceLess(a, b))
  {
    LessIsTotal(a.sourceM3U, b.sourceM3U);
  }

  lemma SourceLessIsTransitive(a: StreamInfo, b: StreamInfo, c: StreamInfo)
    requires SourceLess(a, b) && SourceLess(b, c)
    ensures SourceLess(a, c)
  {
    if Less(a.sourceM3U, b.sourceM3U) && Less(b.sourceM3U, c.sourceM3U) {
      LessIsTransitive(a.sourceM3U, b.sourceM3U, c.sourceM3U);
    }
  }

  /** The least source of some streams is one source. */
  lemma LeastSourceIsUnique(s: StreamInfo, t: StreamInfo, streams: seq<StreamInfo>)
    requires FromLeastSource(s, streams) && FromLeastSource(t, streams)
    ensures SameSource(s, t)
  {
    var x :| x in streams && SameSource(x, s);
    var y :| y in streams && SameSource(y, t);
    SourcesAreOrdered(s, t);
    assert !SourceLess(x, t) && !SourceLess(y, s);
  }

  lemma MergeFillsIn(a: StreamInfo, b: StreamInfo, k: nat)
    ensures Attribute(Stored(Merge(a, b)), k) == First(Attribute(a, k), Attribute(b, k))
  {
  }

  lemma FirstSetOne(s: StreamInfo, k: nat)
    ensures FirstSet([s], k) == Attribute(s, k)
  {
    assert [s][1..] == [];
  }

  /** Folding gives every attribute its first non-empty value. */
  lemma {:induction false} FoldFillsIn(base: StreamInfo, more: seq<StreamInfo>, k: nat)
    requires k < ATTRIBUTES
    ensures Attribute(Fold(base, more), k) == First(Attribute(base, k), FirstSet(more, k))
  {
    if more == [] {
    } else {
      var before, last := more[..|more| - 1], more[|more| - 1];
      FoldFillsIn(base, before, k);
      assert more == before + [last];
      FirstSetConcat(before, [last], k);
      FirstSetOne(last, k);
      MergeFillsIn(Fold(base, before), last, k);
    }
  }

  lemma LeastSourceGrows(x: StreamInfo, last: StreamInfo, streams: seq<StreamInfo>)
    requires FromLeastSource(x, streams)
    ensures FromLeastSource(Stored(Merge(x, last)), streams + [last])
  {
    var s, all := Stored(Merge(x, last)), streams + [last];
    SourcesAreOrdered(x, last);
    if SourceLess(last, x) {
      assert last in all && SameSource(last, s);
    } else {
      var y :| y in streams && SameSource(y, x);
      assert y in all && SameSource(y, s);
    }
    forall y | y in all ensures !SourceLess(y, s) {
      SourcesAreOrdered(y, s);
      if SourceLess(y, s) && y in streams {
        if SourceLess(last, x) {
          SourceLessIsTransitive(y, last, x);
        }
        assert SourceLess(y, x);
      }
    }
  }

  /** Folding gives the least source. */
  lemma {:induction false} FoldHasLeastSource(base: StreamInfo, more: seq<StreamInfo>)
    ensures FromLeastSource(Fold(base, more), [base] + more)
  {
    if more == [] {
      assert [base] + more == [base];
      SourcesAreOrdered(base, base);
    } else {
      var before, last := more[..|more| - 1], more[|more| - 1];
      FoldHasLeastSource(base, before);
      assert [base] + more == ([base] + before) + [last];
      LeastSourceGrows(Fold(base, before), last, [base] + before);
    }
  }

  /** Streams that agree on every attribute, on their source and on their URLs are the same. */
  lemma SameStream(a: StreamInfo, b: StreamInfo)
    requires forall k: nat | k < ATTRIBUTES :: Attribute(a, k) == Attribute(b, k)
    requires SameSource(a, b) && a.urls == b.urls
    ensures a == b
  {
    assert Attribute(a, 0) == Attribute(b, 0) && Attribute(a, 1) == Attribute(b, 1) && Attribute(a, 2) == Attribute(b, 2);
    assert Attribute(a, 3) == Attribute(b, 3) && Attribute(a, 4) == Attribute(b, 4) && Attribute(a, 5) == Attribute(b, 5);
  }

  /** Whatever `early` could have contributed is already there, or comes anyway. */
  ghost predicate NothingToLose(base: StreamInfo, early: seq<StreamInfo>, late: seq<StreamInfo>) {
    && (forall k: nat | k < ATTRIBUTES :: FirstSet(early, k) in {"", FirstSet(late, k)} || Attribute(base, k) != "")
    && (forall e | e in early :: exists s :: s in [base] + late && !SourceLess(e, s))
  }

  lemma LeastOfMore(kept: StreamInfo, all: StreamInfo, base: StreamInfo, early: seq<StreamInfo>, late: seq<StreamInfo>)
    requires FromLeastSource(kept, [base] + late) && FromLeastSource(all, [base] + (early + late))
    ensures SameSource(kept, all) <==> forall e | e in early :: exists s :: s in [base] + late && !SourceLess(e, s)
  {
    var few, many := [base] + late, [base] + (early + late);
    assert forall x :: x in many <==> x in few || x in early;
    var x :| x in few && SameSource(x, kept);
    if SameSource(kept, all) {
      forall e | e in early ensures exists s :: s in few && !SourceLess(e, s) {
        assert e in many && !SourceLess(e, x);
      }
    } else if forall e | e in early :: exists s :: s in few && !SourceLess(e, s) {
      forall e | e in many ensures !SourceLess(e, kept) {
        if e in early && SourceLess(e, kept) {
          var s :| s in few && !SourceLess(e, s);
          SourcesAreOrdered(s, kept);
          if SourceLess(kept, s) {
            SourceLessIsTransitive(e, kept, s);
          }
          assert false;
        }
      }
      assert FromLeastSource(kept, many);
      LeastSourceIsUnique(kept, all, many);
      assert false;
    }
  }

  /**
    Adds that arrive while a title's first stream is still buffered are dropped by the flush. The entry is
    nevertheless what merging everything would give exactly when those adds had nothing to contribute.
   */
  lemma EarlyAddsAreLost(base: StreamInfo, early: seq<StreamInfo>, late: seq<StreamInfo>)
    requires base.urls == map[]
    ensures Fold(base, late) == Fold(base, early + late) <==> NothingToLose(base, early, late)
  {
    var kept, all := Fold(base, late), Fold(base, early + late);
    forall k: nat | k < ATTRIBUTES
      ensures Attribute(kept, k) == Attribute(all, k) <==> FirstSet(early, k) in {"", FirstSet(late, k)} || Attribute(base, k) != ""
    {
      FoldFillsIn(base, late, k);
      FoldFillsIn(base, early + late, k);
      FirstSetConcat(early, late, k);
    }
    FoldHasLeastSource(base, late);
    FoldHasLeastSource(base, early + late);
    LeastOfMore(kept, all, base, early, late);
    if SameSource(kept, all) && NothingToLose(base, early, late) {
      SameStream(kept, all);
    }
  }

  /** The entry of `r` is the merge of all adds of its key exactly when those left out had nothing to contribute. */
  ghost predicate MergesAllOrNothingLost(r: Record, all: seq<StreamInfo>)
    requires |Merged(r)| < |all|
  {
    Final(r) == Fold(Stored(all[0]), all[1..])
    <==> NothingToLose(Stored(all[0]), all[1..|all| - |Merged(r)|], Merged(r))
  }

  lemma RememberedMerge(r: Record, all: seq<StreamInfo>)
    requires Remembers(r, all)
    ensures |Merged(r)| < |all| && all[|all| - |Merged(r)|..] == Merged(r) && MergesAllOrNothingLost(r, all)
  {
    SplitHistory(all, Merged(r));
    EarlyAddsAreLost(Stored(all[0]), all[1..|all| - |Merged(r)|], Merged(r));
  }

  /**
    On a run: the entry a title ends up with is the merge of everything that was added under its key
    exactly when the adds that came before the flush, other than the first, had nothing to contribute.
   */
  lemma MergedIffNothingLost(hash: string -> nat, adds: seq<StreamInfo>, k: Key, r: Record, all: seq<StreamInfo>)
    requires Known(BookFrom(map[], hash, adds), k)
    requires r == RecordAt(BookFrom(map[], hash, adds), k) && all == ForKey(hash, adds, k)
    ensures |Merged(r)| < |all| && all[|all| - |Merged(r)|..] == Merged(r) && MergesAllOrNothingLost(r, all)
  {
    HistoryOfKey(hash, adds, k);
    RememberedMerge(r, all);
  }

  lemma OneBuffered(t: string, s: StreamInfo)
    ensures AddToPage(map[], t, s) == map[t := Buffered(s, [])]
  {
    var q := map[t := Buffered(s, [])];
    assert map[][t := Buffered(s, [])] == q && BufferedTitles(q) == {t};
  }

  /** The second of two adds of a title is lost: only the first is emitted. */
  lemma SecondAddIsLost(hash: string -> nat, a: StreamInfo, b: StreamInfo)
    requires a.title == b.title && a.tvgId == "" && b.tvgId != ""
    ensures var k := KeyOf(hash, a); var book := BookFrom(map[], hash, [a, b]);
      Known(book, k) && Final(RecordAt(book, k)) == Stored(a) && Merge(a, b).tvgId != ""
  {
    assert [a, b][..1] == [a] && [a][..0] == [];
    assert BookFrom(map[], hash, [a]) == Added(map[], hash, a);
    AddToSame(hash, map[], a);
    AddToSame(hash, Added(map[], hash, a), b);
    OneBuffered(SanitizeField(a.title), a);
  }

  // ----- The order of the emitted list -----

  const NUMERIC_KEYS := {"tvg-id", "tvg-chno", "channel-id", "channel-number", "source"}

  /** The field a numeric sorting key reads. */
  function Field(s: StreamInfo, sortingKey: string): string {
    if sortingKey == "tvg-id" then s.tvgId else if sortingKey == "source" then s.sourceM3U else s.tvgChNo
  }

  function KeyWidth(sortingKey: string): nat {
    if sortingKey == "source" then 5 else 10
  }

  /** The value of the field in `x` is at most that in `y`, or at least for `desc`. */
  predicate NumberLessEq(x: StreamInfo, y: StreamInfo, sortingKey: string, direction: string) {
    var a, b := Atoi(Field(x, sortingKey)).value, Atoi(Field(y, sortingKey)).value;
    if direction == "desc" then b <= a else a <= b
  }

  predicate InNumericOrder(emitted: seq<StreamInfo>, sortingKey: string, direction: string) {
    forall i, j | 0 <= i < j < |emitted| :: NumberLessEq(emitted[i], emitted[j], sortingKey, direction)
  }

  /** `x` belongs before `y`, but by the numbers their keys show, its key does not come first. */
  predicate Misordered(x: StreamInfo, y: StreamInfo, sortingKey: string, direction: string) {
    && !NumberLessEq(y, x, sortingKey, direction)
    && !KeyComesFirst(Shown(Field(x, sortingKey), direction), Shown(Field(y, sortingKey), direction), KeyWidth(sortingKey))
  }

  /** No two of the entries have numbers that their keys misorder. */
  ghost predicate NoneMisordered(entries: seq<StreamInfo>, sortingKey: string, direction: string) {
    forall x, y | x in entries && y in entries :: !Misordered(x, y, sortingKey, direction)
  }

  lemma KeyOfNumber(s: StreamInfo, sortingKey: string, direction: string)
    requires sortingKey in NUMERIC_KEYS
    ensures GetSortKey(s, sortingKey, direction) == NumericKey(Field(s, sortingKey), KeyWidth(sortingKey), direction)
  {
  }

  /** Of two entries with different numbers, the key of the one comes first, or that of the other. */
  lemma PairInOrder(x: StreamInfo, y: StreamInfo, sortingKey: string, direction: string)
    requires sortingKey in NUMERIC_KEYS && Atoi(Field(x, sortingKey)).ok && Atoi(Field(y, sortingKey)).ok
    requires !NumberLessEq(y, x, sortingKey, direction)
    ensures ByKey(sortingKey, direction)(y, x) <==> Misordered(x, y, sortingKey, direction)
    ensures Misordered(x, y, sortingKey, direction) ==> !ByKey(sortingKey, direction)(x, y)
  {
    KeyOfNumber(x, sortingKey, direction);
    KeyOfNumber(y, sortingKey, direction);
    ShownOrder(Field(x, sortingKey), Field(y, sortingKey), direction);
    NumericKeysCompare(Field(x, sortingKey), Field(y, sortingKey), KeyWidth(sortingKey), direction);
    LessIsTotal(GetSortKey(x, sortingKey, direction), GetSortKey(y, sortingKey, direction));
  }

  /** Two misordered entries stand the wrong way round. */
  lemma MisorderedShows(emitted: seq<StreamInfo>, i: nat, j: nat, sortingKey: string, direction: string)
    requires Ordered(emitted, ByKey(sortingKey, direction)) && i < |emitted| && j < |emitted| && i != j
    requires !ByKey(sortingKey, direction)(emitted[i], emitted[j])
    requires !NumberLessEq(emitted[j], emitted[i], sortingKey, direction)
    ensures !InNumericOrder(emitted, sortingKey, direction)
  {
    assert !(i < j);
  }

  /**
    Entries sorted by a numeric field that holds numbers, of whatever size and sign, are in numeric order, or for
    `desc` in reverse numeric order, exactly when no two of them have numbers that their keys misorder.
   */
  lemma EmittedInNumericOrder(emitted: seq<StreamInfo>, sortingKey: string, direction: string)
    requires sortingKey in NUMERIC_KEYS && Ordered(emitted, ByKey(sortingKey, direction))
    requires forall s | s in emitted :: Atoi(Field(s, sortingKey)).ok
    ensures InNumericOrder(emitted, sortingKey, direction) <==> NoneMisordered(emitted, sortingKey, direction)
  {
    if NoneMisordered(emitted, sortingKey, direction) {
      forall i, j | 0 <= i < j < |emitted| ensures NumberLessEq(emitted[i], emitted[j], sortingKey, direction) {
        assert emitted[i] in emitted && emitted[j] in emitted;
        if !NumberLessEq(emitted[i], emitted[j], sortingKey, direction) {
          PairInOrder(emitted[j], emitted[i], sortingKey, direction);
        }
      }
    } else {
      var x, y :| x in emitted && y in emitted && Misordered(x, y, sortingKey, direction);
      PairInOrder(x, y, sortingKey, direction);
      var i :| 0 <= i < |emitted| && emitted[i] == x;
      var j :| 0 <= j < |emitted| && emitted[j] == y;
      MisorderedShows(emitted, i, j, sortingKey, direction);
    }
  }

  /** Ids and channel numbers in the 32-bit range always come out in numeric order. */
  lemma IdsAndChannelsInOrder(emitted: seq<StreamInfo>, sortingKey: string, direction: string)
    requires sortingKey in NUMERIC_KEYS - {"source"} && Ordered(emitted, ByKey(sortingKey, direction))
    requires forall s | s in emitted :: IsOrdinal(Field(s, sortingKey))
    ensures InNumericOrder(emitted, sortingKey, direction)
  {
    forall x, y | x in emitted && y in emitted ensures !Misordered(x, y, sortingKey, direction) {
      var a, b := Field(x, sortingKey), Field(y, sortingKey);
      ShownOrder(a, b, direction);
      ShownOrder(b, a, direction);
      TenDigitsAlign(Shown(a, direction), Shown(b, direction), 10);
    }
    EmittedInNumericOrder(emitted, sortingKey, direction);
  }

  lemma NotANumber(s: StreamInfo, sortingKey: string, direction: string)
    requires sortingKey in NUMERIC_KEYS && !Atoi(Field(s, sortingKey)).ok
    ensures GetSortKey(s, sortingKey, direction) == SanitizeField(Field(s, sortingKey))
  {
  }

  /** Among entries whose numeric field holds no number, the order is that of the sanitised texts, in either direction. */
  lemma NotNumbersInTextOrder(emitted: seq<StreamInfo>, sortingKey: string, direction: string, i: nat, j: nat)
    requires sortingKey in NUMERIC_KEYS && Ordered(emitted, ByKey(sortingKey, direction)) && i < j < |emitted|
    requires !Atoi(Field(emitted[i], sortingKey)).ok && !Atoi(Field(emitted[j], sortingKey)).ok
    ensures LessEq(SanitizeField(Field(emitted[i], sortingKey)), SanitizeField(Field(emitted[j], sortingKey)))
  {
    NotANumber(emitted[i], sortingKey, direction);
    NotANumber(emitted[j], sortingKey, direction);
  }

  /** Entries without a value come before all that have a number, in either direction. */
  lemma UnsetComesFirst(emitted: seq<StreamInfo>, sortingKey: string, direction: string, i: nat, j: nat)
    requires sortingKey in NUMERIC_KEYS && Ordered(emitted, ByKey(sortingKey, direction)) && i < |emitted| && j < |emitted|
    requires Field(emitted[i], sortingKey) == "" && Atoi(Field(emitted[j], sortingKey)).ok
    ensures i < j
  {
    NotANumber(emitted[i], sortingKey, direction);
    assert GetSortKey(emitted[j], sortingKey, direction) != "";
  }

  lemma SourceKey(s: StreamInfo, sortingKey: string, direction: string)
    requires sortingKey == "source"
    ensures GetSortKey(s, sortingKey, direction) == NumericKey(s.sourceM3U, 5, direction)
  {
  }

  /** A source numbered 100000 is emitted before one numbered 99999. */
  lemma SourceKeysMisorder(emitted: seq<StreamInfo>, i: nat, j: nat, sortingKey: string)
    requires sortingKey == "source" && Ordered(emitted, ByKey(sortingKey, ""))
    requires i < |emitted| && emitted[i].sourceM3U == "99999"
    requires j < |emitted| && emitted[j].sourceM3U == "100000"
    ensures j < i
  {
    var s, t := emitted[i], emitted[j];
    SourceKey(s, sortingKey, "");
    SourceKey(t, sortingKey, "");
    FiveDigitsMisorder(s.sourceM3U, t.sourceM3U);
    assert !ByKey(sortingKey, "")(s, t);
    assert s.sourceM3U[0] != t.sourceM3U[0];
  }

  // ----- The order of text -----

  /** The field a text sorting key reads. */
  function TextField(s: StreamInfo, sortingKey: string): string {
    if sortingKey in {"tvg-group", "group-title"} then s.group else if sortingKey == "tvg-type" then s.tvgType else s.title
  }

  /** In any direction but `desc`, entries sorted by a text key are in ascending order of the sanitised values. */
  lemma EmittedInTextOrder(emitted: seq<StreamInfo>, sortingKey: string, direction: string, i: nat, j: nat)
    requires sortingKey !in NUMERIC_KEYS && direction != "desc" && Ordered(emitted, ByKey(sortingKey, direction))
    requires i < j < |emitted|
    ensures var a, b := TextField(emitted[i], sortingKey), TextField(emitted[j], sortingKey);
      && LessEq(SanitizeField(a), SanitizeField(b))
      && (IsClean(a) && IsClean(b) && |a| <= 100 && |b| <= 100 ==> LessEq(a, b))
  {
    SanitizedStays(TextField(emitted[i], sortingKey));
    SanitizedStays(TextField(emitted[j], sortingKey));
  }

  predicate InDescendingText(emitted: seq<StreamInfo>, sortingKey: string) {
    forall i, j | 0 <= i < j < |emitted| :: LessEq(TextField(emitted[j], sortingKey), TextField(emitted[i], sortingKey))
  }

  lemma TextKeysAscend(x: StreamInfo, y: StreamInfo, sortingKey: string, direction: string)
    requires sortingKey !in NUMERIC_KEYS && direction == "desc" && ByKey(sortingKey, direction)(x, y)
    ensures LessEq(TextField(x, sortingKey), TextField(y, sortingKey))
  {
    DescendingTextAscends(TextField(y, sortingKey), TextField(x, sortingKey));
  }

  /** Sorted by a text key with `desc`, the list ascends; it is in descending order exactly when all values are the same. */
  lemma DescendingTextOnlyIfEqual(emitted: seq<StreamInfo>, sortingKey: string, direction: string)
    requires sortingKey !in NUMERIC_KEYS && direction == "desc" && Ordered(emitted, ByKey(sortingKey, direction))
    ensures forall i, j | 0 <= i < j < |emitted| :: LessEq(TextField(emitted[i], sortingKey), TextField(emitted[j], sortingKey))
    ensures InDescendingText(emitted, sortingKey)
       <==> forall i, j | 0 <= i < j < |emitted| :: TextField(emitted[i], sortingKey) == TextField(emitted[j], sortingKey)
  {
    forall i, j | 0 <= i < j < |emitted|
      ensures LessEq(TextField(emitted[i], sortingKey), TextField(emitted[j], sortingKey))
      ensures LessEq(TextField(emitted[j], sortingKey), TextField(emitted[i], sortingKey))
         <==> TextField(emitted[i], sortingKey) == TextField(emitted[j], sortingKey)
    {
      TextKeysAscend(emitted[i], emitted[j], sortingKey, direction);
      LessIsTotal(TextField(emitted[i], sortingKey), TextField(emitted[j], sortingKey));
    }
  }
}

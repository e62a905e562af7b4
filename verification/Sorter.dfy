/**
  The sharded sorter of the merged playlist. The code keeps, per shard, an index, a buffer and a file;
  the ghost `book` says, title by title, which streams were added before and after the title was flushed.
 */
module Sorter {
  import opened Basics
  import opened Streams
  import opened Text
  import opened SortKeys
  import opened Sorting

  /** What is left of a stream once it has been written out and read back: URLs are not written. */
  function Stored(s: StreamInfo): StreamInfo {
    s.(urls := map[])
  }

  function First(a: string, b: string): string {
    if a == "" then b else a
  }

  /** What `k` maps to in either map, an absent key mapping to nothing. */
  function UrlsOf(a: map<string, map<string, string>>, k: string): map<string, string> {
    if k in a then a[k] else map[]
  }

  function BothUrls(a: map<string, map<string, string>>, b: map<string, map<string, string>>, k: string): map<string, string> {
    UrlsOf(a, k) + UrlsOf(b, k)
  }

  function MergeUrls(a: map<string, map<string, string>>, b: map<string, map<string, string>>): map<string, map<string, string>> {
    map k | k in a.Keys + b.Keys :: BothUrls(a, b, k)
  }

  /** The order of sources: by playlist, then by line. */
  predicate SourceLess(a: StreamInfo, b: StreamInfo) {
    Less(a.sourceM3U, b.sourceM3U) || (a.sourceM3U == b.sourceM3U && a.sourceIndex < b.sourceIndex)
  }

  function Merge(a: StreamInfo, b: StreamInfo): StreamInfo {
    var src := if SourceLess(b, a) then b else a;
    StreamInfo(First(a.title, b.title), First(a.tvgId, b.tvgId), First(a.tvgChNo, b.tvgChNo),
               First(a.tvgType, b.tvgType), First(a.logo, b.logo), First(a.group, b.group),
               MergeUrls(a.urls, b.urls), src.sourceM3U, src.sourceIndex)
  }

  function Restrict<V>(m: map<string, V>, keys: set<string>): map<string, V> {
    map k | k in m && k in keys :: m[k]
  }

  lemma OneMore<V>(b: map<string, V>, done: set<string>, key: string)
    requires key in b && key !in done
    ensures Restrict(b, done + {key}) == Restrict(b, done)[key := b[key]]
  {
  }

  lemma OtherKeyStays(a: map<string, map<string, string>>, b: map<string, map<string, string>>, key: string,
                      urls: map<string, string>, k: string)
    requires k != key
    ensures BothUrls(a, b[key := urls], k) == BothUrls(a, b, k)
  {
  }

  lemma SameMerge(a: map<string, map<string, string>>, b: map<string, map<string, string>>, r: map<string, map<string, string>>)
    requires r.Keys == a.Keys + b.Keys && forall k | k in r :: r[k] == BothUrls(a, b, k)
    ensures r == MergeUrls(a, b)
  {
  }

  lemma AddOneUrl(a: map<string, map<string, string>>, b: map<string, map<string, string>>, key: string, urls: map<string, string>)
    requires key !in b
    ensures MergeUrls(a, b[key := urls]) == MergeUrls(a, b)[key := UrlsOf(a, key) + urls]
  {
    var more, r := b[key := urls], MergeUrls(a, b)[key := UrlsOf(a, key) + urls];
    forall k | k in r ensures r[k] == BothUrls(a, more, k) {
      if k != key {
        OtherKeyStays(a, b, key, urls, k);
      }
    }
    SameMerge(a, more, r);
  }

  lemma UrlsBefore(a: map<string, map<string, string>>, b: map<string, map<string, string>>, key: string)
    requires key !in b
    ensures UrlsOf(MergeUrls(a, b), key) == UrlsOf(a, key)
  {
    if key in a {
      assert BothUrls(a, b, key) == a[key];
    }
  }

  lemma NothingToAdd(a: map<string, map<string, string>>, b: map<string, map<string, string>>)
    requires b == map[]
    ensures MergeUrls(a, b) == a
  {
    forall k | k in a ensures BothUrls(a, b, k) == a[k] {
    }
  }

  /** Adds provider by provider. */
  method AddUrls(a: map<string, map<string, string>>, b: map<string, map<string, string>>)
      returns (r: map<string, map<string, string>>)
    ensures r == MergeUrls(a, b)
  {
    r := a;
    var done := {};
    NothingToAdd(a, Restrict(b, {}));
    while done != b.Keys
      invariant done <= b.Keys && r == MergeUrls(a, Restrict(b, done))
      decreases b.Keys - done
    {
      assert exists k :: k in b.Keys && k !in done;
      var key :| key in b && key !in done;
      OneMore(b, done, key);
      AddOneUrl(a, Restrict(b, done), key, b[key]);
      UrlsBefore(a, Restrict(b, done), key);
      r := r[key := (if key in r then r[key] else map[]) + b[key]];
      done := done + {key};
    }
    assert Restrict(b, b.Keys) == b;
  }

  method MergeStreamInfoAttributes(a: StreamInfo, b: StreamInfo) returns (r: StreamInfo)
    ensures r == Merge(a, b)
  {
    r := a;
    if r.title == "" {
      r := r.(title := b.title);
    }
    if r.tvgId == "" {
      r := r.(tvgId := b.tvgId);
    }
    if r.tvgChNo == "" {
      r := r.(tvgChNo := b.tvgChNo);
    }
    if r.tvgType == "" {
      r := r.(tvgType := b.tvgType);
    }
    if r.logo == "" {
      r := r.(logo := b.logo);
    }
    if r.group == "" {
      r := r.(group := b.group);
    }
    var urls := AddUrls(r.urls, b.urls);
    r := r.(urls := urls);
    if Less(b.sourceM3U, r.sourceM3U) || (b.sourceM3U == r.sourceM3U && b.sourceIndex < r.sourceIndex) {
      r := r.(sourceM3U := b.sourceM3U, sourceIndex := b.sourceIndex);
    }
  }

  // ----- The reference: one record per title -----

  /** A title's first stream and those added later, while it was buffered or after it was flushed. */
  datatype Record = Buffered(first: StreamInfo, early: seq<StreamInfo>) | Flushed(first: StreamInfo, late: seq<StreamInfo>)

  type Page = map<string, Record>

  const FLUSH_AT := 250

  function BufferedTitles(p: Page): set<string> {
    set t | t in p && p[t].Buffered?
  }

  function FlushPage(p: Page): Page {
    map t | t in p :: if p[t].Buffered? then Flushed(p[t].first, []) else p[t]
  }

  function LaterRecord(r: Record, s: StreamInfo): Record {
    match r
    case Buffered(f, early) => Buffered(f, early + [s])
    case Flushed(f, late) => Flushed(f, late + [s])
  }

  function AddToPage(p: Page, t: string, s: StreamInfo): Page {
    if t !in p then
      var q := p[t := Buffered(s, [])];
      if |BufferedTitles(q)| >= FLUSH_AT then FlushPage(q) else q
    else
      p[t := LaterRecord(p[t], s)]
  }

  /** Folding streams into one that has been written out. */
  function Fold(base: StreamInfo, more: seq<StreamInfo>): StreamInfo {
    if more == [] then base else Stored(Merge(Fold(base, more[..|more| - 1]), more[|more| - 1]))
  }

  /** What the shard's file says about a title, if anything. */
  function OnFile(r: Record): Option<StreamInfo> {
    match r
    case Flushed(f, late) => Some(Fold(Stored(f), late))
    case Buffered(f, early) => if early == [] then None else Some(Fold(Stored(early[0]), early[1..]))
  }

  function FileOf(p: Page): map<string, StreamInfo> {
    map t | t in p && OnFile(p[t]).Some? :: OnFile(p[t]).value
  }

  function BufferOf(p: Page): map<string, StreamInfo> {
    map t | t in p && p[t].Buffered? :: Stored(p[t].first)
  }

  function MergeInto(before: Option<StreamInfo>, s: StreamInfo): StreamInfo {
    Stored(if before.Some? then Merge(before.value, s) else s)
  }

  lemma LaterOnFile(r: Record, s: StreamInfo)
    ensures OnFile(LaterRecord(r, s)) == Some(MergeInto(OnFile(r), s))
  {
    match r
    case Flushed(f, late) => assert (late + [s])[..|late|] == late;
    case Buffered(f, early) =>
      if early != [] {
        assert (early + [s])[1..] == early[1..] + [s];
        assert (early[1..] + [s])[..|early| - 1] == early[1..];
      }
  }

  lemma LaterKeepsBuffer(p: Page, t: string, s: StreamInfo)
    requires t in p
    ensures AddToPage(p, t, s).Keys == p.Keys && BufferOf(AddToPage(p, t, s)) == BufferOf(p)
  {
  }

  lemma FileChanges(p: Page, q: Page, t: string, entry: StreamInfo)
    requires t in p && t in q && q == p[t := q[t]] && OnFile(q[t]) == Some(entry)
    ensures FileOf(q) == FileOf(p)[t := entry]
  {
  }

  /** A later add of a known title changes its entry in the file and nothing else. */
  lemma LaterAdd(p: Page, t: string, s: StreamInfo)
    requires t in p
    ensures AddToPage(p, t, s).Keys == p.Keys && BufferOf(AddToPage(p, t, s)) == BufferOf(p)
    ensures var file := FileOf(p);
      FileOf(AddToPage(p, t, s)) == file[t := MergeInto(if t in file then Some(file[t]) else None, s)]
  {
    var q, file := AddToPage(p, t, s), FileOf(p);
    LaterKeepsBuffer(p, t, s);
    LaterOnFile(p[t], s);
    var entry := MergeInto(OnFile(p[t]), s);
    assert (if t in file then Some(file[t]) else None) == OnFile(p[t]);
    FileChanges(p, q, t, entry);
  }

  lemma BufferSize(p: Page)
    ensures BufferOf(p).Keys == BufferedTitles(p) && |BufferOf(p)| == |BufferedTitles(p)|
  {
    assert BufferOf(p).Keys == BufferedTitles(p);
  }

  /** A first add buffers the title. */
  lemma FirstAdd(p: Page, t: string, s: StreamInfo)
    requires t !in p
    ensures var q := p[t := Buffered(s, [])];
      BufferOf(q) == BufferOf(p)[t := Stored(s)] && FileOf(q) == FileOf(p)
  {
    var q := p[t := Buffered(s, [])];
    assert forall x | x in p :: q[x] == p[x];
  }

  /** A flush moves the buffer to the file, over whatever the file said about the buffered titles. */
  lemma FlushMoves(p: Page)
    ensures BufferOf(FlushPage(p)) == map[] && FlushPage(p).Keys == p.Keys
    ensures FileOf(FlushPage(p)) == FileOf(p) + BufferOf(p)
  {
  }

  // ----- The code -----

  lemma OverlayOne<V>(a: map<string, V>, b: map<string, V>, key: string, v: V)
    ensures a + b[key := v] == (a + b)[key := v]
  {
  }

  /** Writes every entry of `b` over `a`. */
  method Overlay<V>(a: map<string, V>, b: map<string, V>) returns (r: map<string, V>)
    ensures r == a + b
  {
    r := a;
    var done := {};
    while done != b.Keys
      invariant done <= b.Keys && r == a + Restrict(b, done)
      decreases b.Keys - done
    {
      assert exists k :: k in b.Keys && k !in done;
      var title :| title in b && title !in done;
      OneMore(b, done, title);
      OverlayOne(a, Restrict(b, done), title, b[title]);
      r := r[title := b[title]];
      done := done + {title};
    }
    assert Restrict(b, b.Keys) == b;
  }

  const SHARDS := 4096

  datatype Shard = Shard(index: set<string>, buffer: map<string, StreamInfo>)

  const NEW_SHARD := Shard({}, map[])

  function Look<V>(m: map<nat, V>, i: nat, default: V): V {
    if i in m then m[i] else default
  }

  /** A shard's index lists every title of its page; the buffer and the file say what the page says. */
  ghost predicate Agrees(shard: Shard, file: map<string, StreamInfo>, page: Page) {
    shard.index == page.Keys && shard.buffer == BufferOf(page) && file == FileOf(page)
  }

  /** What adding a new title makes of a shard's index and buffer. */
  lemma NewTitleAgrees(shard: Shard, file: map<string, StreamInfo>, page: Page, t: string, s: StreamInfo)
    requires Agrees(shard, file, page) && t !in page
    ensures Agrees(Shard(shard.index + {t}, shard.buffer[t := Stored(s)]), file, page[t := Buffered(s, [])])
  {
    FirstAdd(page, t, s);
  }

  lemma FlushAgrees(shard: Shard, file: map<string, StreamInfo>, page: Page)
    requires Agrees(shard, file, page)
    ensures Agrees(shard.(buffer := map[]), file + shard.buffer, FlushPage(page))
  {
    FlushMoves(page);
  }

  /** The shards, the files and the book agree everywhere. */
  ghost predicate AllAgree(shards: map<nat, Shard>, disk: map<nat, map<string, StreamInfo>>, book: map<nat, Page>) {
    forall i :: Agrees(Look(shards, i, NEW_SHARD), Look(disk, i, map[]), Look(book, i, map[]))
  }

  /** Changing one shard, its file and its page, so that they agree, leaves all the others agreeing. */
  lemma OneShardChanges(shards: map<nat, Shard>, disk: map<nat, map<string, StreamInfo>>, book: map<nat, Page>,
                        i: nat, shard: Shard, disk': map<nat, map<string, StreamInfo>>, page: Page)
    requires AllAgree(shards, disk, book)
    requires forall j | j != i :: Look(disk', j, map[]) == Look(disk, j, map[])
    requires Agrees(shard, Look(disk', i, map[]), page)
    ensures AllAgree(shards[i := shard], disk', book[i := page])
  {
    forall j ensures Agrees(Look(shards[i := shard], j, NEW_SHARD), Look(disk', j, map[]), Look(book[i := page], j, map[])) {
      if j != i {
        assert Agrees(Look(shards, j, NEW_SHARD), Look(disk, j, map[]), Look(book, j, map[]));
      }
    }
  }

  type Book = map<nat, Page>

  /** Where the sorter keeps a stream: titles that share a key are one entry. */
  datatype Key = Key(shard: nat, name: string)

  function KeyOf(hash: string -> nat, s: StreamInfo): Key {
    Key(hash(s.title) % SHARDS, SanitizeField(s.title))
  }

  predicate Known(book: Book, k: Key) {
    k.name in Look(book, k.shard, map[])
  }

  function RecordAt(book: Book, k: Key): Record
    requires Known(book, k)
  {
    Look(book, k.shard, map[])[k.name]
  }

  function Added(book: Book, hash: string -> nat, s: StreamInfo): Book {
    var k := KeyOf(hash, s);
    book[k.shard := AddToPage(Look(book, k.shard, map[]), k.name, s)]
  }

  /** The entry a title ends up with: only adds after its flush are merged into its first stream. */
  function Final(r: Record): StreamInfo {
    match r
    case Buffered(f, early) => Stored(f)
    case Flushed(f, late) => Fold(Stored(f), late)
  }

  function Later(r: Record): seq<StreamInfo> {
    match r
    case Buffered(f, early) => early
    case Flushed(f, late) => late
  }

  ghost predicate RecordFiled(hash: string -> nat, r: Record, k: Key) {
    KeyOf(hash, r.first) == k && forall s | s in Later(r) :: KeyOf(hash, s) == k
  }

  /** Every stream is kept under its own key. */
  ghost predicate Filed(hash: string -> nat, book: Book) {
    forall k | Known(book, k) :: RecordFiled(hash, RecordAt(book, k), k)
  }

  lemma AddedKeepsFiled(hash: string -> nat, book: Book, s: StreamInfo)
    requires Filed(hash, book)
    ensures Filed(hash, Added(book, hash, s))
  {
    var k, q := KeyOf(hash, s), Added(book, hash, s);
    forall x | Known(q, x) ensures RecordFiled(hash, RecordAt(q, x), x) {
      if x != k {
        assert Known(book, x);
      } else if Known(book, k) {
        assert RecordFiled(hash, RecordAt(book, k), k);
      }
    }
  }

  lemma FlushKeepsFiled(hash: string -> nat, book: Book, i: nat)
    requires Filed(hash, book)
    ensures Filed(hash, book[i := FlushPage(Look(book, i, map[]))])
  {
    var q := book[i := FlushPage(Look(book, i, map[]))];
    forall x | Known(q, x) ensures RecordFiled(hash, RecordAt(q, x), x) {
      assert Known(book, x) && RecordFiled(hash, RecordAt(book, x), x);
    }
  }

  /** Merging streams of one key gives a stream of that key, whichever title survives. */
  lemma {:induction false} FoldKeepsKey(hash: string -> nat, base: StreamInfo, more: seq<StreamInfo>, k: Key)
    requires KeyOf(hash, base) == k && forall s | s in more :: KeyOf(hash, s) == k
    ensures KeyOf(hash, Fold(base, more)) == k
  {
    if more == [] {
    } else {
      var before, last := Fold(base, more[..|more| - 1]), more[|more| - 1];
      FoldKeepsKey(hash, base, more[..|more| - 1], k);
      assert last in more && Fold(base, more) == Stored(Merge(before, last));
      assert Fold(base, more).title == First(before.title, last.title);
    }
  }

  /** The streams the book would list, each under the key of its own title. */
  ghost predicate Listed(hash: string -> nat, book: Book, x: StreamInfo) {
    var k := KeyOf(hash, x);
    Known(book, k) && x == Final(RecordAt(book, k))
  }

  /** The entries of a flushed page, as its file has them. */
  lemma FlushedPage(p: Page)
    requires p == FlushPage(p)
    ensures FileOf(p).Keys == p.Keys && forall t | t in p :: FileOf(p)[t] == Final(p[t])
  {
    forall t | t in p ensures OnFile(p[t]) == Some(Final(p[t])) {
      assert p[t].Flushed?;
    }
  }

  /** The key entries are sorted by. */
  function GetSortKey(s: StreamInfo, sortingKey: string, direction: string): string {
    if sortingKey == "tvg-id" then NumericKey(s.tvgId, 10, direction)
    else if sortingKey in {"tvg-chno", "channel-id", "channel-number"} then NumericKey(s.tvgChNo, 10, direction)
    else if sortingKey in {"tvg-group", "group-title"} then StringKey(s.group, direction)
    else if sortingKey == "tvg-type" then StringKey(s.tvgType, direction)
    else if sortingKey == "source" then NumericKey(s.sourceM3U, 5, direction)
    else StringKey(s.title, direction)
  }

  function ByKey(sortingKey: string, direction: string): (StreamInfo, StreamInfo) -> bool {
    (a: StreamInfo, b: StreamInfo) => LessEq(GetSortKey(a, sortingKey, direction), GetSortKey(b, sortingKey, direction))
  }

  lemma LessEqIsTransitive(a: string, b: string, c: string)
    requires LessEq(a, b) && LessEq(b, c)
    ensures LessEq(a, c)
  {
    if Less(c, a) {
      LessIsTotal(a, b);
      if a == b {
        LessIsTotal(b, c);
      } else {
        LessIsTransitive(c, a, b);
      }
    }
  }

  lemma ByKeyCompares(sortingKey: string, direction: string)
    ensures Comparison(ByKey(sortingKey, direction))
  {
    forall a, b: StreamInfo ensures ByKey(sortingKey, direction)(a, b) || ByKey(sortingKey, direction)(b, a) {
      LessIsTotal(GetSortKey(a, sortingKey, direction), GetSortKey(b, sortingKey, direction));
    }
    forall a, b, c: StreamInfo | ByKey(sortingKey, direction)(a, b) && ByKey(sortingKey, direction)(b, c)
      ensures ByKey(sortingKey, direction)(a, c)
    {
      LessEqIsTransitive(GetSortKey(a, sortingKey, direction), GetSortKey(b, sortingKey, direction), GetSortKey(c, sortingKey, direction));
    }
  }

  lemma EntryKey(hash: string -> nat, book: Book, k: Key)
    requires Filed(hash, book) && Known(book, k)
    ensures var x := Final(RecordAt(book, k)); KeyOf(hash, x) == k && Listed(hash, book, x)
  {
    var r := RecordAt(book, k);
    assert RecordFiled(hash, r, k);
    if r.Flushed? {
      FoldKeepsKey(hash, Stored(r.first), r.late, k);
    }
  }

  lemma FlushTwice(p: Page)
    ensures FlushPage(FlushPage(p)) == FlushPage(p)
  {
  }

  lemma FlushKeepsFinal(p: Page, t: string)
    ensures t in FlushPage(p) <==> t in p
    ensures t in p ==> Final(FlushPage(p)[t]) == Final(p[t])
  {
  }

  class SortingManager {
    const hash: string -> nat
    const sortingKey: string
    const sortingDir: string
    var shardMap: map<nat, Shard>
    // The shard files, by shard number.
    var disk: map<nat, map<string, StreamInfo>>
    ghost var book: map<nat, Page>

    constructor (hash: string -> nat, sortingKey: string, sortingDir: string)
      ensures Valid() && book == map[]
      ensures this.hash == hash && this.sortingKey == sortingKey && this.sortingDir == sortingDir
    {
      this.hash, this.sortingKey, this.sortingDir := hash, sortingKey, sortingDir;
      shardMap, disk, book := map[], map[], map[];
    }

    ghost predicate Valid()
      reads this
    {
      AllAgree(shardMap, disk, book) && Filed(hash, book)
    }

    method ReadShard(i: nat) returns (entries: map<string, StreamInfo>)
      ensures entries == Look(disk, i, map[])
    {
      entries := if i in disk then disk[i] else map[];
    }

    method HandleExisting(i: nat, title: string, s: StreamInfo)
      modifies this`disk
      ensures var before := Look(old(disk), i, map[]);
        disk == old(disk)[i := before[title := MergeInto(if title in before then Some(before[title]) else None, s)]]
    {
      var entries := ReadShard(i);
      var entry := s;
      if title in entries {
        entry := MergeStreamInfoAttributes(entries[title], s);
      }
      disk := disk[i := entries[title := Stored(entry)]];
    }

    method FlushShard(i: nat, data: Shard) returns (after: Shard)
      modifies this`disk
      ensures after == data.(buffer := map[])
      ensures Look(disk, i, map[]) == Look(old(disk), i, map[]) + data.buffer
      ensures forall j | j != i :: Look(disk, j, map[]) == Look(old(disk), j, map[])
    {
      after := data;
      if data.buffer != map[] {
        var entries := ReadShard(i);
        entries := Overlay(entries, data.buffer);
        disk := disk[i := entries];
        after := data.(buffer := map[]);
      }
    }

    method AddNewTitle(i: nat, t: string, s: StreamInfo, before: Shard, ghost page: Page) returns (after: Shard)
      requires Agrees(before, Look(disk, i, map[]), page) && t !in page
      modifies this`disk
      ensures Agrees(after, Look(disk, i, map[]), AddToPage(page, t, s))
      ensures forall j | j != i :: Look(disk, j, map[]) == Look(old(disk), j, map[])
    {
      NewTitleAgrees(before, Look(disk, i, map[]), page, t, s);
      after := Shard(before.index + {t}, before.buffer[t := Stored(s)]);
      ghost var q := page[t := Buffered(s, [])];
      BufferSize(q);
      if |after.buffer| >= FLUSH_AT {
        FlushAgrees(after, Look(disk, i, map[]), q);
        after := FlushShard(i, after);
      }
    }

    /** The part of an add that holds the shard's lock. */
    method AddToShard(i: nat, t: string, s: StreamInfo, before: Shard, ghost page: Page) returns (after: Shard)
      requires Agrees(before, Look(disk, i, map[]), page)
      modifies this`disk
      ensures Agrees(after, Look(disk, i, map[]), AddToPage(page, t, s))
      ensures forall j | j != i :: Look(disk, j, map[]) == Look(old(disk), j, map[])
    {
      after := before;
      if t !in after.index && i in disk {
        var entries := ReadShard(i);
        assert entries.Keys <= page.Keys;
        after := after.(index := after.index + entries.Keys);
        assert after.index == page.Keys;
      }
      if t in after.index {
        LaterAdd(page, t, s);
        HandleExisting(i, t, s);
      } else {
        after := AddNewTitle(i, t, s, after, page);
      }
    }

    method AddToSorter(s: StreamInfo)
      requires Valid()
      modifies this
      ensures Valid()
      ensures book == Added(old(book), hash, s)
    {
      var i, t := hash(s.title) % SHARDS, SanitizeField(s.title);
      var shard := if i in shardMap then shardMap[i] else NEW_SHARD;
      ghost var page := Look(book, i, map[]);
      shard := AddToShard(i, t, s, shard, page);
      OneShardChanges(old(shardMap), old(disk), book, i, shard, disk, AddToPage(page, t, s));
      AddedKeepsFiled(hash, book, s);
      shardMap := shardMap[i := shard];
      book := Added(book, hash, s);
    }

    method FlushOne(i: nat)
      requires Valid()
      modifies this
      ensures Valid()
      ensures forall j: nat :: Look(book, j, map[]) == if j == i then FlushPage(Look(old(book), i, map[])) else Look(old(book), j, map[])
    {
      ghost var page := Look(book, i, map[]);
      assert Agrees(Look(shardMap, i, NEW_SHARD), Look(disk, i, map[]), page);
      if i in shardMap {
        FlushAgrees(shardMap[i], Look(disk, i, map[]), page);
        var shard := FlushShard(i, shardMap[i]);
        OneShardChanges(shardMap, old(disk), book, i, shard, disk, FlushPage(page));
        FlushKeepsFiled(hash, book, i);
        shardMap := shardMap[i := shard];
        book := book[i := FlushPage(page)];
      } else {
        assert page.Keys == {};
        assert FlushPage(page) == page;
      }
    }

    /** Flushes every shard. */
    method FlushAll()
      requires Valid()
      modifies this
      ensures Valid()
      ensures forall j: nat | j < SHARDS :: Look(book, j, map[]) == FlushPage(Look(old(book), j, map[]))
    {
      for i := 0 to SHARDS
        invariant Valid()
        invariant forall j: nat :: Look(book, j, map[]) == if j < i then FlushPage(Look(old(book), j, map[])) else Look(old(book), j, map[])
      {
        FlushOne(i);
      }
    }

    /** The entries of one shard's file, after those already read. */
    method ReadEntries(i: nat, before: seq<StreamInfo>) returns (entries: seq<StreamInfo>)
      requires Valid() && Look(book, i, map[]) == FlushPage(Look(book, i, map[]))
      requires Distinct(before) && forall x :: x in before <==> Listed(hash, book, x) && KeyOf(hash, x).shard < i
      ensures Distinct(entries) && forall x :: x in entries <==> Listed(hash, book, x) && KeyOf(hash, x).shard <= i
    {
      ghost var page := Look(book, i, map[]);
      assert Agrees(Look(shardMap, i, NEW_SHARD), Look(disk, i, map[]), page);
      FlushedPage(page);
      entries := before;
      var file := ReadShard(i);
      var done := {};
      while done != file.Keys
        invariant done <= file.Keys && Distinct(entries)
        invariant forall x :: x in entries <==> Listed(hash, book, x) && (KeyOf(hash, x).shard < i || (KeyOf(hash, x).shard == i && KeyOf(hash, x).name in done))
        decreases file.Keys - done
      {
        assert exists t :: t in file && t !in done;
        var title :| title in file && title !in done;
        EntryKey(hash, book, Key(i, title));
        DistinctAppend(entries, file[title]);
        entries := entries + [file[title]];
        done := done + {title};
      }
    }

    /** Emits every entry, in the order of the sort keys. */
    method GetSortedEntries() returns (emitted: seq<StreamInfo>)
      requires Valid()
      modifies this
      ensures Valid()
      ensures forall j: nat | j < SHARDS :: Look(book, j, map[]) == FlushPage(Look(old(book), j, map[]))
      ensures Distinct(emitted) && forall x :: x in emitted <==> Listed(hash, old(book), x)
      ensures Ordered(emitted, ByKey(sortingKey, sortingDir))
    {
      FlushAll();
      var entries := [];
      for i := 0 to SHARDS
        invariant Distinct(entries) && forall x :: x in entries <==> Listed(hash, book, x) && KeyOf(hash, x).shard < i
        modifies {}
      {
        FlushTwice(Look(old(book), i, map[]));
        entries := ReadEntries(i, entries);
      }
      ByKeyCompares(sortingKey, sortingDir);
      emitted := Sort(entries, ByKey(sortingKey, sortingDir));
      SameMembers(emitted, entries);
      forall x ensures Listed(hash, book, x) <==> Listed(hash, old(book), x) {
        var k := KeyOf(hash, x);
        assert k.shard < SHARDS;
        FlushKeepsFinal(Look(old(book), k.shard, map[]), k.name);
      }
    }
  }
}

/** A playlist that is printed and read again gives the streams that were printed. */
module PlaylistProperties {
  import opened Basics
  import opened Text
  import opened SortKeys
  import opened Streams
  import opened Playlist
  import Laps

  /** A pair that can stand in a line: a proper key, and no quote in the value. */
  ghost predicate Clean(p: Pair) {
    p.key != "" && (forall k | 0 <= k < |p.key| :: IsKeyChar(p.key[k])) && Free(p.value, '"')
  }

  lemma PairTextAt(p: Pair, k: nat)
    requires k < |PairText(p)|
    ensures |PairText(p)| == |p.key| + |p.value| + 3
    ensures PairText(p)[k] == if k < |p.key| then p.key[k]
                              else if k == |p.key| then '='
                              else if k == |p.key| + 1 || k == |p.key| + 2 + |p.value| then '"'
                              else p.value[k - |p.key| - 2]
  {
  }

  lemma SliceOf(line: string, i: nat, text: string, a: nat, b: nat)
    requires OccursAt(line, text, i) && a <= b <= |text|
    ensures line[i + a..i + b] == text[a..b]
  {
    forall k | a <= k < b ensures line[i + k] == text[k] {
      assert line[i + k] == line[i..i + |text|][k];
    }
  }

  /** The parts of a pair's text. */
  lemma PairParts(p: Pair)
    ensures var text, n := PairText(p), |p.key|;
      |text| == n + |p.value| + 3 && text[..n] == p.key && text[n..n + 2] == "=\""
      && text[n + 2..|text| - 1] == p.value && text[|text| - 1..] == "\""
  {
  }

  /** The match that the text of `p` makes at `i`. */
  function MatchOf(p: Pair, i: nat): Match {
    Match(i, i + |p.key|, i + |p.key| + 2 + |p.value|)
  }

  /** A slice of a line, character by character. */
  lemma SliceAt(line: string, i: nat, part: string)
    requires i + |part| <= |line| && line[i..i + |part|] == part
    ensures forall k | i <= k < i + |part| :: line[k] == part[k - i]
  {
    forall k | i <= k < i + |part| ensures line[k] == part[k - i] {
      assert line[k] == line[i..i + |part|][k - i];
    }
  }

  /** Where the text of a pair stands, so do its parts. */
  lemma PairSlices(line: string, i: nat, p: Pair)
    requires OccursAt(line, PairText(p), i)
    ensures var m := MatchOf(p, i);
      && m.end < |line|
      && line[m.start..m.mid] == p.key && line[m.mid..m.mid + 2] == "=\""
      && line[m.mid + 2..m.end] == p.value && line[m.end..m.end + 1] == "\""
  {
    var text := PairText(p);
    PairParts(p);
    SliceOf(line, i, text, 0, |p.key|);
    SliceOf(line, i, text, |p.key|, |p.key| + 2);
    SliceOf(line, i, text, |p.key| + 2, |text| - 1);
    SliceOf(line, i, text, |text| - 1, |text|);
  }

  /** Where the text of a pair stands, there is a match. */
  lemma PairMatches(line: string, i: nat, p: Pair)
    requires Clean(p) && OccursAt(line, PairText(p), i)
    ensures Matches(line, MatchOf(p, i)) && PairOf(line, MatchOf(p, i)) == p
  {
    var m := MatchOf(p, i);
    PairSlices(line, i, p);
    SliceAt(line, i, p.key);
    SliceAt(line, m.mid, "=\"");
    SliceAt(line, m.mid + 2, p.value);
    SliceAt(line, m.end, "\"");
  }

  /** At most one pair starts at a place, and it is found. */
  lemma MatchAtFinds(line: string, m: Match)
    requires Matches(line, m)
    ensures MatchAt(line, m.start) == Some(m)
  {
    assert KeyEnd(line, m.start) == m.mid;
    assert NextQuote(line, m.mid + 2) == m.end;
  }

  /** The scan finds the leftmost pair. */
  lemma {:induction false} FindFromIsLeftmost(line: string, i: nat, m: Match)
    requires Matches(line, m) && i <= m.start
    ensures var r := FindFrom(line, i); r.Some? && (r.value.start < m.start || r.value == m)
    decreases m.start - i
  {
    if i < m.start {
      FindFromIsLeftmost(line, i + 1, m);
    } else {
      MatchAtFinds(line, m);
    }
  }

  /** A match that starts right after a character no key may have is the leftmost from there on. */
  lemma LeftmostMatch(line: string, i: nat, m: Match)
    requires i < |line| && !IsKeyChar(line[i]) && Matches(line, m) && m.start == i + 1
    ensures FindFrom(line, i) == Some(m)
  {
    FindFromIsLeftmost(line, i, m);
  }

  lemma PairLength(p: Pair, i: nat)
    ensures MatchOf(p, i).end + 1 == i + |PairText(p)|
  {
  }

  lemma FindAllIs(line: string, i: nat, m: Match, p: Pair)
    requires i <= |line| && FindFrom(line, i) == Some(m) && Matches(line, m) && PairOf(line, m) == p
    ensures FindAll(line, i) == [p] + FindAll(line, m.end + 1)
  {
  }

  lemma FoundPair(line: string, i: nat, p: Pair, m: Match, n: nat)
    requires i < |line| && line[i] == ' ' && Matches(line, m) && m.start == i + 1 && PairOf(line, m) == p && n == m.end + 1
    ensures FindAll(line, i) == [p] + FindAll(line, n)
  {
    LeftmostMatch(line, i, m);
    FindAllIs(line, i, m, p);
  }

  /** Where a pair stands after a space, the scan finds it. */
  lemma FindsPair(line: string, i: nat, p: Pair, n: nat)
    requires Clean(p) && i < |line| && line[i] == ' ' && OccursAt(line, PairText(p), i + 1)
    requires n == i + 1 + |PairText(p)|
    ensures n <= |line| && FindAll(line, i) == [p] + FindAll(line, n)
  {
    PairMatches(line, i + 1, p);
    PairLength(p, i + 1);
    FoundPair(line, i, p, MatchOf(p, i + 1), n);
  }

  /** A text without quotes holds no pair. */
  lemma NoPairs(line: string, i: nat)
    requires i <= |line| && Free(line[i..], '"')
    ensures FindAll(line, i) == []
  {
    forall k | i <= k < |line| ensures line[k] != '"' {
      assert line[k] == line[i..][k - i];
    }
  }

  lemma Slices(line: string, i: nat, text: string, rest: string)
    requires i <= |line| && line[i..] == " " + text + rest
    ensures i < |line| && line[i] == ' ' && OccursAt(line, text, i + 1) && line[i + 1 + |text|..] == rest
  {
    assert line[i] == line[i..][0];
    assert line[i + 1..i + 1 + |text|] == line[i..][1..1 + |text|];
    assert line[i + 1 + |text|..] == line[i..][1 + |text|..];
  }

  /** Printed pairs are found again, in order. */
  lemma {:induction false} FindsPairs(line: string, i: nat, pairs: seq<Pair>, tail: string)
    requires i <= |line| && line[i..] == PairsText(pairs) + tail && Free(tail, '"')
    requires forall p | p in pairs :: Clean(p)
    ensures FindAll(line, i) == pairs
    decreases |pairs|
  {
    if pairs == [] {
      assert line[i..] == tail;
      NoPairs(line, i);
    } else {
      var p, rest := pairs[0], PairsText(pairs[1..]) + tail;
      assert p in pairs;
      assert line[i..] == " " + PairText(p) + rest;
      Slices(line, i, PairText(p), rest);
      var n := i + 1 + |PairText(p)|;
      FindsPair(line, i, p, n);
      FindsPairs(line, n, pairs[1..], tail);
      assert [p] + pairs[1..] == pairs;
    }
  }

  /** No pair begins before a space that no `=` comes before. */
  lemma NoPairBefore(line: string, n: nat, m: Match)
    requires n < |line| && line[n] == ' ' && (forall k | 0 <= k < n :: line[k] != '=') && Matches(line, m)
    ensures n <= m.start
  {
  }

  /** Scanning may begin anywhere before the first match. */
  lemma {:induction false} SkipTo(line: string, i: nat, n: nat)
    requires i <= n <= |line| && forall m | Matches(line, m) :: n <= m.start
    ensures FindFrom(line, i) == FindFrom(line, n)
    decreases n - i
  {
    if n <= i {
    } else {
      SkipTo(line, i + 1, n);
    }
  }

  lemma HeadHasNoPair(line: string, head: string)
    requires StartsWith(line, head + " ") && Free(head, '=')
    ensures FindAll(line, 0) == FindAll(line, |head|)
  {
    forall k | 0 <= k <= |head| ensures line[k] == (head + " ")[k] {
      assert line[..|head| + 1][k] == (head + " ")[k];
    }
    forall m | Matches(line, m) ensures |head| <= m.start {
      NoPairBefore(line, |head|, m);
    }
    SkipTo(line, 0, |head|);
  }

  lemma FreeConcat(a: string, b: string, c: char)
    requires Free(a, c) && Free(b, c)
    ensures Free(a + b, c)
  {
  }

  lemma FirstQuote(a: string, p: Pair, b: string)
    requires Free(a, '"') && Clean(p)
    ensures forall k | 0 <= k < |a| + |p.key| + 1 :: (a + PairText(p) + b)[k] != '"'
  {
    var text := PairText(p);
    var s := a + text + b;
    forall k | 0 <= k < |a| + |p.key| + 1 ensures s[k] != '"' {
      if k < |a| {
        assert s[k] == a[k];
      } else {
        assert s[k] == text[k - |a|];
        PairTextAt(p, k - |a|);
      }
    }
  }

  lemma Middle(a: string, t: string, b: string)
    ensures OccursAt(a + t + b, t, |a|) && (a + t + b)[..|a|] == a && (a + t + b)[|a| + |t|..] == b
  {
  }

  /** The first place a pair is found in a text is after the part that has no quotes. */
  lemma RemovesPair(a: string, p: Pair, b: string)
    requires Free(a, '"') && Clean(p)
    ensures RemoveFirst(a + PairText(p) + b, PairText(p)) == a + b
  {
    var text, quote := PairText(p), |p.key| + 1;
    var s := a + text + b;
    FirstQuote(a, p, b);
    PairTextAt(p, quote);
    Middle(a, text, b);
    var at := IndexFrom(s, text, 0).value;
    assert s[at + quote] == s[at..at + |text|][quote] == '"';
    assert at == |a|;
  }

  function Spaces(n: nat): string {
    seq(n, _ => ' ')
  }

  lemma FirstPairApart(a: string, pairs: seq<Pair>, tail: string, rest: string)
    requires pairs != [] && rest == PairsText(pairs[1..])
    ensures a + PairsText(pairs) + tail == (a + " ") + PairText(pairs[0]) + (rest + tail)
  {
    assert PairsText(pairs) == " " + PairText(pairs[0]) + rest;
  }

  lemma OneSpaceMore(a: string, n: nat)
    ensures (a + " ") + Spaces(n) == a + Spaces(n + 1)
  {
  }

  /** Removing all pairs leaves the spaces between them. */
  lemma {:induction false} RemovesPairs(line: string, a: string, pairs: seq<Pair>, tail: string)
    requires line == a + PairsText(pairs) + tail && Free(a, '"') && forall p | p in pairs :: Clean(p)
    ensures RemoveAll(line, pairs) == a + Spaces(|pairs|) + tail
    decreases |pairs|
  {
    if pairs == [] {
      assert a + PairsText(pairs) == a && a + Spaces(0) == a;
    } else {
      var p, rest, b := pairs[0], PairsText(pairs[1..]), a + " ";
      assert p in pairs;
      FirstPairApart(a, pairs, tail, rest);
      RemovesPair(b, p, rest + tail);
      Regroup(b, rest, tail);
      RemovesPairs(b + rest + tail, b, pairs[1..], tail);
      OneSpaceMore(a, |pairs| - 1);
    }
  }

  lemma SplitsAtComma(a: string, b: string)
    requires Free(a, ',')
    ensures SplitFirst(a + "," + b, ",").1 == Some(b)
  {
    var s := a + "," + b;
    assert OccursAt(s, ",", |a|);
    var at := IndexFrom(s, ",", 0).value;
    assert s[at..at + 1][0] == s[at];
    assert at == |a|;
    assert s[at + 1..] == b;
  }

  // ----- White space -----

  lemma {:induction false} TrimLeftIsEnd(s: string)
    ensures |TrimLeft(s)| <= |s| && TrimLeft(s) == s[|s| - |TrimLeft(s)|..]
  {
    if s != [] && IsSpace(s[0]) {
      TrimLeftIsEnd(s[1..]);
    }
  }

  lemma {:induction false} TrimRightIsStart(s: string)
    ensures |TrimRight(s)| <= |s| && TrimRight(s) == s[..|TrimRight(s)|]
  {
    if s != [] && IsSpace(s[|s| - 1]) {
      TrimRightIsStart(s[..|s| - 1]);
    }
  }

  lemma TrimKeepsFree(s: string, c: char)
    requires Free(s, c)
    ensures Free(TrimSpace(s), c)
  {
    TrimLeftIsEnd(s);
    TrimRightIsStart(TrimLeft(s));
  }

  lemma TrimmedStays(s: string)
    requires Trimmed(s)
    ensures TrimSpace(s) == s
  {
  }

  lemma {:induction false} TrimLeftSnoc(s: string, c: char)
    requires IsSpace(c)
    ensures TrimLeft(s + [c]) == if TrimLeft(s) == [] then [] else TrimLeft(s) + [c]
  {
    if s == [] {
      assert s + [c] == [c] && [c][1..] == [];
    } else if IsSpace(s[0]) {
      TrimLeftSnoc(s[1..], c);
      assert (s + [c])[1..] == s[1..] + [c];
    }
  }

  /** Dropping a carriage return at the end of a line makes no difference once the line is trimmed. */
  lemma TrimAfterDropCR(s: string)
    ensures TrimSpace(DropCR(s)) == TrimSpace(s)
  {
    if DropCR(s) != s {
      var t, c := s[..|s| - 1], s[|s| - 1];
      TrimLeftSnoc(t, c);
      assert s == t + [c];
      assert (TrimLeft(t) + [c])[..|TrimLeft(t)|] == TrimLeft(t);
    }
  }

  // ----- One entry -----

  /** What can be printed: no quotes and no line breaks, and a title without spaces round it. */
  ghost predicate Printable(s: StreamInfo) {
    && s.title != "" && Trimmed(s.title)
    && (forall v | v in [s.title, s.tvgId, s.tvgChNo, s.tvgType, s.logo, s.group] :: Free(v, '"') && Free(v, '\n'))
  }

  /** What an entry for `s` says once it is read: attributes are trimmed, and the logo is rewritten. */
  function Reread(s: StreamInfo, settings: Settings): StreamInfo {
    StreamInfo(s.title, TrimSpace(s.tvgId), TrimSpace(s.tvgChNo), TrimSpace(s.tvgType),
               if s.logo == "" then "" else settings.logo(TrimSpace(s.logo)), TrimSpace(s.group), map[], "", 0)
  }

  lemma AssignOne(s: StreamInfo, p: Pair, settings: Settings)
    ensures AssignAll(s, [p], settings) == Assign(s, p, settings)
  {
    var f := Assigner(settings);
    assert FoldLeft(f(s, p), [p][1..], f) == f(s, p);
  }

  lemma Unquoted(value: string)
    requires Free(value, '"')
    ensures GeneralParser(TrimSpace(value)) == TrimSpace(value)
  {
    TrimKeepsFree(value, '"');
  }

  const KEYS := {"tvg-id", "tvg-chno", "tvg-logo", "tvg-group", "group-title", "tvg-type", "tvg-name"}

  /** The key a pair is printed with is the key it is read by. */
  lemma KeyReads(key: string)
    requires key in KEYS
    ensures ToLower(TrimSpace(key)) == key
  {
    TrimmedStays(key);
  }

  lemma KeySlots()
    ensures SlotOf("tvg-id") == IdSlot && SlotOf("tvg-chno") == ChNoSlot && SlotOf("tvg-logo") == LogoSlot
    ensures SlotOf("tvg-group") == SlotOf("group-title") == GroupSlot
    ensures SlotOf("tvg-type") == TypeSlot && SlotOf("tvg-name") == NameSlot
  {
  }

  /** What a value without quotes says about a stream. */
  function Put(s: StreamInfo, slot: Slot, value: string, settings: Settings): StreamInfo {
    match slot
    case IdSlot => s.(tvgId := TrimSpace(value))
    case ChNoSlot => s.(tvgChNo := TrimSpace(value))
    case NameSlot => s.(title := TrimSpace(value))
    case TypeSlot => s.(tvgType := TrimSpace(value))
    case GroupSlot => s.(group := TrimSpace(value))
    case LogoSlot => s.(logo := settings.logo(TrimSpace(value)))
    case NoSlot => s
  }

  lemma AssignPuts(s: StreamInfo, key: string, value: string, settings: Settings)
    requires key in KEYS && Free(value, '"')
    ensures Assign(s, Pair(key, value), settings) == Put(s, SlotOf(key), value, settings)
  {
    KeyReads(key);
    Unquoted(value);
  }

  lemma AssignShown(s: StreamInfo, key: string, slot: Slot, value: string, settings: Settings)
    requires key in KEYS && SlotOf(key) == slot && Free(value, '"')
    ensures AssignAll(s, IfSet(value, [key]), settings) == if value == "" then s else Put(s, slot, value, settings)
  {
    if value != "" {
      assert IfSet(value, [key]) == [Pair(key, value)];
      AssignOne(s, Pair(key, value), settings);
      AssignPuts(s, key, value, settings);
    }
  }

  lemma AssignGroup(s: StreamInfo, a: string, b: string, value: string, settings: Settings)
    requires a in KEYS && b in KEYS && SlotOf(a) == SlotOf(b) == GroupSlot && Free(value, '"')
    ensures AssignAll(s, IfSet(value, [a, b]), settings) == if value == "" then s else s.(group := TrimSpace(value))
  {
    if value != "" {
      var p, q := Pair(a, value), Pair(b, value);
      assert IfSet(value, [a, b]) == [p] + [q];
      FoldLeftConcat(s, [p], [q], Assigner(settings));
      AssignOne(s, p, settings);
      AssignPuts(s, a, value, settings);
      AssignOne(s.(group := TrimSpace(value)), q, settings);
      AssignPuts(s.(group := TrimSpace(value)), b, value, settings);
    }
  }

  lemma TrimNothing()
    ensures TrimSpace("") == ""
  {
  }

  lemma AssignedInOrder(s: StreamInfo, settings: Settings)
    requires Printable(s)
    ensures
      var s1 := AssignAll(NO_STREAM, IfSet(s.tvgId, ["tvg-id"]), settings);
      var s2 := AssignAll(s1, IfSet(s.tvgChNo, ["tvg-chno"]), settings);
      var s3 := AssignAll(s2, IfSet(s.logo, ["tvg-logo"]), settings);
      var s4 := AssignAll(s3, IfSet(s.group, ["tvg-group", "group-title"]), settings);
      var s5 := AssignAll(s4, IfSet(s.tvgType, ["tvg-type"]), settings);
      AssignAll(s5, IfSet(s.title, ["tvg-name"]), settings) == Reread(s, settings)
  {
    KeySlots();
    TrimNothing();
    TrimmedStays(s.title);
    var s1 := NO_STREAM.(tvgId := TrimSpace(s.tvgId));
    AssignShown(NO_STREAM, "tvg-id", IdSlot, s.tvgId, settings);
    var s2 := s1.(tvgChNo := TrimSpace(s.tvgChNo));
    AssignShown(s1, "tvg-chno", ChNoSlot, s.tvgChNo, settings);
    var s3 := if s.logo == "" then s2 else s2.(logo := settings.logo(TrimSpace(s.logo)));
    AssignShown(s2, "tvg-logo", LogoSlot, s.logo, settings);
    var s4 := s3.(group := TrimSpace(s.group));
    AssignGroup(s3, "tvg-group", "group-title", s.group, settings);
    var s5 := s4.(tvgType := TrimSpace(s.tvgType));
    AssignShown(s4, "tvg-type", TypeSlot, s.tvgType, settings);
    AssignShown(s5, "tvg-name", NameSlot, s.title, settings);
  }

  /** Reading the printed attributes in order fills in the stream. */
  lemma AssignsShown(s: StreamInfo, settings: Settings)
    requires Printable(s)
    ensures AssignAll(NO_STREAM, ShownPairs(s), settings) == Reread(s, settings)
  {
    var f := Assigner(settings);
    var a, b, c := IfSet(s.tvgId, ["tvg-id"]), IfSet(s.tvgChNo, ["tvg-chno"]), IfSet(s.logo, ["tvg-logo"]);
    var d, e, g := IfSet(s.group, ["tvg-group", "group-title"]), IfSet(s.tvgType, ["tvg-type"]), IfSet(s.title, ["tvg-name"]);
    assert ShownPairs(s) == a + b + c + d + e + g;
    FoldLeftConcat(NO_STREAM, a + b + c + d + e, g, f);
    FoldLeftConcat(NO_STREAM, a + b + c + d, e, f);
    FoldLeftConcat(NO_STREAM, a + b + c, d, f);
    FoldLeftConcat(NO_STREAM, a + b, c, f);
    FoldLeftConcat(NO_STREAM, a, b, f);
    AssignedInOrder(s, settings);
  }

  lemma KeyIsPlain(key: string)
    requires key in KEYS
    ensures key != "" && Free(key, '\n') && forall k | 0 <= k < |key| :: IsKeyChar(key[k])
  {
  }

  lemma InIfSet(p: Pair, value: string, keys: seq<string>)
    requires p in IfSet(value, keys)
    ensures p.key in keys && p.value == value
  {
  }

  lemma ShownIsPlain(s: StreamInfo, p: Pair)
    requires Printable(s) && p in ShownPairs(s)
    ensures p.key in KEYS && Free(p.value, '"') && Free(p.value, '\n')
  {
    if p in IfSet(s.tvgId, ["tvg-id"]) {
      InIfSet(p, s.tvgId, ["tvg-id"]);
    } else if p in IfSet(s.tvgChNo, ["tvg-chno"]) {
      InIfSet(p, s.tvgChNo, ["tvg-chno"]);
    } else if p in IfSet(s.logo, ["tvg-logo"]) {
      InIfSet(p, s.logo, ["tvg-logo"]);
    } else if p in IfSet(s.group, ["tvg-group", "group-title"]) {
      InIfSet(p, s.group, ["tvg-group", "group-title"]);
    } else if p in IfSet(s.tvgType, ["tvg-type"]) {
      InIfSet(p, s.tvgType, ["tvg-type"]);
    } else {
      InIfSet(p, s.title, ["tvg-name"]);
    }
  }

  lemma ShownIsClean(s: StreamInfo)
    requires Printable(s)
    ensures forall p | p in ShownPairs(s) :: Clean(p)
  {
    forall p | p in ShownPairs(s) ensures Clean(p) {
      ShownIsPlain(s, p);
      KeyIsPlain(p.key);
    }
  }

  /** There is a first attribute, as the title is never empty. */
  lemma SomethingShown(s: StreamInfo)
    requires s.title != ""
    ensures ShownPairs(s) != []
  {
    assert |IfSet(s.title, ["tvg-name"])| == 1;
  }

  lemma LineParts(head: string, pairs: seq<Pair>, title: string)
    requires pairs != []
    ensures var line := head + PairsText(pairs) + "," + title;
      line == head + PairsText(pairs) + ("," + title) && |head| <= |line|
      && line[|head|..] == PairsText(pairs) + ("," + title) && StartsWith(line, head + " ")
  {
    var line, text := head + PairsText(pairs) + "," + title, PairsText(pairs);
    assert line == head + text + ("," + title);
    assert text[0] == ' ';
    assert line[..|head| + 1] == head + " ";
  }

  lemma PairsOfPrinted(head: string, pairs: seq<Pair>, title: string)
    requires pairs != [] && Free(head, '=') && Free(title, '"') && forall p | p in pairs :: Clean(p)
    ensures FindAll(head + PairsText(pairs) + "," + title, 0) == pairs
  {
    var line := head + PairsText(pairs) + "," + title;
    LineParts(head, pairs, title);
    HeadHasNoPair(line, head);
    FreeConcat(",", title, '"');
    FindsPairs(line, |head|, pairs, "," + title);
  }

  lemma RestOfPrinted(head: string, pairs: seq<Pair>, title: string)
    requires pairs != [] && Free(head, '"') && Free(head, ',') && forall p | p in pairs :: Clean(p)
    ensures SplitFirst(RemoveAll(head + PairsText(pairs) + "," + title, pairs), ",").1 == Some(title)
  {
    LineParts(head, pairs, title);
    RemovesPairs(head + PairsText(pairs) + "," + title, head, pairs, "," + title);
    var rest := head + Spaces(|pairs|);
    Regroup(rest, ",", title);
    SplitsAtComma(rest, title);
  }

  lemma HeadIsPlain()
    ensures Free(HEAD, '"') && Free(HEAD, ',') && Free(HEAD, '=')
  {
  }

  /** A line of printed attributes describes what they assign, with the title that follows them. */
  lemma DescribedByPairs(head: string, pairs: seq<Pair>, title: string, s: StreamInfo, settings: Settings)
    requires Free(head, '"') && Free(head, ',') && Free(head, '=')
    requires pairs != [] && Free(title, '"') && forall p | p in pairs :: Clean(p)
    requires AssignAll(NO_STREAM, pairs, settings) == s
    ensures Described(head + PairsText(pairs) + "," + title, settings) == s.(title := GeneralParser(TrimSpace(title)))
  {
    PairsOfPrinted(head, pairs, title);
    RestOfPrinted(head, pairs, title);
  }

  /** An `#EXTINF` line that was printed describes the stream it was printed for. */
  lemma DescribesPrinted(s: StreamInfo, settings: Settings)
    requires Printable(s)
    ensures Described(EntryLine(s), settings) == Reread(s, settings)
  {
    ShownIsClean(s);
    SomethingShown(s);
    AssignsShown(s, settings);
    HeadIsPlain();
    DescribedByPairs(HEAD, ShownPairs(s), s.title, Reread(s, settings), settings);
    TrimmedStays(s.title);
    Unquoted(s.title);
  }

  lemma ShownOne(p: Pair, value: string, key: string)
    ensures p in IfSet(value, [key]) <==> value != "" && p == Pair(key, value)
  {
    assert value != "" ==> IfSet(value, [key]) == [Pair(key, value)];
  }

  lemma ShownTwo(p: Pair, value: string, a: string, b: string)
    ensures p in IfSet(value, [a, b]) <==> value != "" && p in {Pair(a, value), Pair(b, value)}
  {
    assert value != "" ==> IfSet(value, [a, b]) == [Pair(a, value), Pair(b, value)];
  }

  /** The attributes an entry should have. */
  predicate Belongs(s: StreamInfo, key: string, value: string) {
    && value != ""
    && (|| (key == "tvg-id" && value == s.tvgId) || (key == "tvg-chno" && value == s.tvgChNo)
        || (key == "tvg-logo" && value == s.logo) || (key in {"tvg-group", "group-title"} && value == s.group)
        || (key == "tvg-type" && value == s.tvgType) || (key == "tvg-name" && value == s.title))
  }

  lemma InShown(s: StreamInfo, p: Pair)
    ensures p in ShownPairs(s) <==>
      || p in IfSet(s.tvgId, ["tvg-id"]) || p in IfSet(s.tvgChNo, ["tvg-chno"]) || p in IfSet(s.logo, ["tvg-logo"])
      || p in IfSet(s.group, ["tvg-group", "group-title"]) || p in IfSet(s.tvgType, ["tvg-type"]) || p in IfSet(s.title, ["tvg-name"])
  {
  }

  lemma ShownBelongs(s: StreamInfo, key: string, value: string)
    ensures Pair(key, value) in ShownPairs(s) <==> Belongs(s, key, value)
  {
    var p := Pair(key, value);
    InShown(s, p);
    ShownOne(p, s.tvgId, "tvg-id");
    ShownOne(p, s.tvgChNo, "tvg-chno");
    ShownOne(p, s.logo, "tvg-logo");
    ShownTwo(p, s.group, "tvg-group", "group-title");
    ShownOne(p, s.tvgType, "tvg-type");
    ShownOne(p, s.title, "tvg-name");
  }

  /** An entry shows each attribute that is not empty under its name, the group under two, and nothing else. */
  lemma EntryShows(s: StreamInfo, key: string, value: string)
    requires Printable(s)
    ensures StartsWith(EntryLine(s), "#EXTINF:-1 ")
    ensures Pair(key, value) in FindAll(EntryLine(s), 0) <==> Belongs(s, key, value)
  {
    ShownIsClean(s);
    SomethingShown(s);
    HeadIsPlain();
    PairsOfPrinted(HEAD, ShownPairs(s), s.title);
    LineParts(HEAD, ShownPairs(s), s.title);
    ShownBelongs(s, key, value);
  }

  lemma PairOnOneLine(p: Pair)
    requires p.key in KEYS && Free(p.value, '\n')
    ensures Free(PairText(p), '\n')
  {
    KeyIsPlain(p.key);
    FreeConcat(p.key, "=\"", '\n');
    FreeConcat(p.key + "=\"", p.value, '\n');
    FreeConcat(p.key + "=\"" + p.value, "\"", '\n');
  }

  lemma {:induction false} PairsOnOneLine(pairs: seq<Pair>)
    requires forall p | p in pairs :: Free(PairText(p), '\n')
    ensures Free(PairsText(pairs), '\n')
    decreases |pairs|
  {
    if pairs == [] {
    } else {
      PairsOnOneLine(pairs[1..]);
      assert pairs[0] in pairs;
      FreeConcat(" ", PairText(pairs[0]), '\n');
      FreeConcat(" " + PairText(pairs[0]), PairsText(pairs[1..]), '\n');
    }
  }

  lemma EntryOnOneLine(s: StreamInfo)
    requires Printable(s)
    ensures Free(EntryLine(s), '\n')
  {
    var pairs := ShownPairs(s);
    forall p | p in pairs ensures Free(PairText(p), '\n') {
      ShownIsPlain(s, p);
      PairOnOneLine(p);
    }
    PairsOnOneLine(pairs);
    FreeConcat(HEAD, PairsText(pairs), '\n');
    FreeConcat(HEAD + PairsText(pairs), ",", '\n');
    FreeConcat(HEAD + PairsText(pairs) + ",", s.title, '\n');
  }

  /** There is nothing to trim in a line that begins with the tag and ends with a title. */
  lemma NothingToTrim(line: string, middle: string, title: string)
    requires line == HEAD + middle + title && title != "" && Trimmed(title)
    ensures DropCR(line) == line && TrimSpace(line) == line && StartsWith(line, EXTINF)
  {
    assert line[|line| - 1] == title[|title| - 1] && line[0] == HEAD[0];
    assert !IsSpace(title[|title| - 1]) && !IsSpace(HEAD[0]);
    assert line[..8] == HEAD[..8] == EXTINF;
  }

  /** The printed line is one line, with nothing to trim, and is taken for an `#EXTINF` line. */
  lemma EntryLineIsOneLine(s: StreamInfo)
    requires Printable(s)
    ensures var line := EntryLine(s);
      Free(line, '\n') && DropCR(line) == line && TrimSpace(line) == line && StartsWith(line, EXTINF)
  {
    EntryOnOneLine(s);
    var pairs := PairsText(ShownPairs(s));
    Regroup(HEAD, pairs, ",");
    NothingToTrim(EntryLine(s), pairs + ",", s.title);
  }

  // ----- The whole playlist -----

  /** An entry that can be read back: its URL stands on a line that is not taken for a comment. */
  ghost predicate Readable(e: Entry) {
    Printable(e.stream) && Free(e.url, '\n') && !StartsWith(TrimSpace(e.url), "#")
  }

  /** What reading the entries gives: those the filter keeps, in order, with their source and line. */
  function Reads(entries: seq<Entry>, n: nat, m3uIndex: string, settings: Settings): seq<StreamInfo> {
    if entries == [] then []
    else
      var s := Reread(entries[0].stream, settings).(sourceM3U := m3uIndex, sourceIndex := n + 1);
      (if settings.keep(s.group, s.title) then [s] else []) + Reads(entries[1..], n + 2, m3uIndex, settings)
  }

  function WithoutUrls(streams: seq<StreamInfo>): seq<StreamInfo> {
    seq(|streams|, i requires 0 <= i < |streams| => streams[i].(urls := map[]))
  }

  lemma ScansLine(line: string, rest: string)
    requires Free(line, '\n')
    ensures ScanLines(line + "\n" + rest) == [DropCR(line)] + ScanLines(rest)
  {
    var s := line + "\n" + rest;
    assert OccursAt(s, "\n", |line|);
    var at := IndexFrom(s, "\n", 0).value;
    assert s[at..at + 1][0] == s[at];
    assert at == |line|;
    assert s[..at] == line && s[at + 1..] == rest;
  }

  lemma HandlesTag(p: Progress, s: StreamInfo, n: nat, m3uIndex: string, hash: string -> string, settings: Settings)
    requires Printable(s)
    ensures HandleLine(p, Line(DropCR(EntryLine(s)), n), m3uIndex, hash, settings) == p.(currentLine := EntryLine(s))
  {
    EntryLineIsOneLine(s);
  }

  lemma ParsesPrinted(s: StreamInfo, next: Line, m3uIndex: string, hash: string -> string, files: set<FileName>, settings: Settings)
    requires Printable(s)
    ensures var parsed := Parsed(EntryLine(s), next, m3uIndex, hash, files, settings).0;
      parsed.Some? && parsed.value.(urls := map[]) == Reread(s, settings).(sourceM3U := m3uIndex, sourceIndex := next.lineNum)
  {
    DescribesPrinted(s, settings);
  }

  lemma NotATag(url: string)
    requires !StartsWith(TrimSpace(url), "#")
    ensures !StartsWith(TrimSpace(DropCR(url)), EXTINF) && !StartsWith(TrimSpace(DropCR(url)), "#")
  {
    TrimAfterDropCR(url);
    StartsAlso(TrimSpace(url), "#", "EXTINF:");
    assert EXTINF == "#" + "EXTINF:";
  }

  lemma SentOneMore(sent: seq<StreamInfo>, s: StreamInfo)
    ensures WithoutUrls(sent + [s]) == WithoutUrls(sent) + [s.(urls := map[])]
  {
  }

  lemma HandlesUrl(p: Progress, e: Entry, n: nat, m3uIndex: string, hash: string -> string, settings: Settings)
    requires Readable(e) && p.currentLine == EntryLine(e.stream)
    ensures var s := Reread(e.stream, settings).(sourceM3U := m3uIndex, sourceIndex := n);
      var q := HandleLine(p, Line(DropCR(e.url), n), m3uIndex, hash, settings);
      q.currentLine == "" && WithoutUrls(q.sent) == WithoutUrls(p.sent) + if settings.keep(s.group, s.title) then [s] else []
  {
    var next := Line(DropCR(e.url), n);
    NotATag(e.url);
    ParsesPrinted(e.stream, next, m3uIndex, hash, p.files, settings);
    assert p.currentLine != "";
    var parsed := Parsed(p.currentLine, next, m3uIndex, hash, p.files, settings).0.value;
    SentOneMore(p.sent, parsed);
  }

  /** The two lines of an entry give its stream, and leave nothing waiting. */
  lemma HandlesEntry(p: Progress, e: Entry, n: nat, m3uIndex: string, hash: string -> string, settings: Settings)
    requires Readable(e)
    ensures var s := Reread(e.stream, settings).(sourceM3U := m3uIndex, sourceIndex := n + 1);
      var q := HandleLine(HandleLine(p, Line(DropCR(EntryLine(e.stream)), n), m3uIndex, hash, settings),
                          Line(DropCR(e.url), n + 1), m3uIndex, hash, settings);
      q.currentLine == "" && WithoutUrls(q.sent) == WithoutUrls(p.sent) + if settings.keep(s.group, s.title) then [s] else []
  {
    HandlesTag(p, e.stream, n, m3uIndex, hash, settings);
    HandlesUrl(p.(currentLine := EntryLine(e.stream)), e, n + 1, m3uIndex, hash, settings);
  }

  lemma ScansTwo(line: string, url: string, more: string)
    requires Free(line, '\n') && Free(url, '\n')
    ensures ScanLines(line + "\n" + url + "\n" + more) == [DropCR(line)] + ([DropCR(url)] + ScanLines(more))
  {
    assert line + "\n" + url + "\n" + more == line + "\n" + (url + "\n" + more);
    ScansLine(line, url + "\n" + more);
    ScansLine(url, more);
  }

  /** The lines of a printed list of entries. */
  lemma EntryLines(entries: seq<Entry>)
    requires entries != [] && Free(EntryLine(entries[0].stream), '\n') && Free(entries[0].url, '\n')
    ensures var e := entries[0];
      ScanLines(EntriesText(entries)) == [DropCR(EntryLine(e.stream))] + ([DropCR(e.url)] + ScanLines(EntriesText(entries[1..])))
  {
    ScansTwo(EntryLine(entries[0].stream), entries[0].url, EntriesText(entries[1..]));
  }

  lemma ReadsOne(before: seq<StreamInfo>, entries: seq<Entry>, n: nat, m3uIndex: string, settings: Settings)
    requires entries != []
    ensures var s := Reread(entries[0].stream, settings).(sourceM3U := m3uIndex, sourceIndex := n + 1);
      before + Reads(entries, n, m3uIndex, settings)
      == before + (if settings.keep(s.group, s.title) then [s] else []) + Reads(entries[1..], n + 2, m3uIndex, settings)
  {
  }

  lemma TwoLines(p: Progress, a: Line, b: Line, more: seq<string>, n: nat, m3uIndex: string, hash: string -> string, settings: Settings)
    requires a.lineNum == n && b.lineNum == n + 1
    ensures HandleLines(p, Numbered([a.content] + ([b.content] + more), n), m3uIndex, hash, settings)
         == HandleLines(HandleLine(HandleLine(p, a, m3uIndex, hash, settings), b, m3uIndex, hash, settings),
                        Numbered(more, n + 2), m3uIndex, hash, settings)
  {
    var all := [a.content] + ([b.content] + more);
    assert all[1..] == [b.content] + more && ([b.content] + more)[1..] == more;
    assert Numbered(all, n) == [a] + ([b] + Numbered(more, n + 2));
    assert ([a] + ([b] + Numbered(more, n + 2)))[1..] == [b] + Numbered(more, n + 2);
    assert ([b] + Numbered(more, n + 2))[1..] == Numbered(more, n + 2);
  }

  lemma {:induction false} HandlesEntries(p: Progress, entries: seq<Entry>, n: nat, m3uIndex: string, hash: string -> string, settings: Settings)
    requires p.currentLine == "" && forall e | e in entries :: Readable(e)
    ensures var q := HandleLines(p, Numbered(ScanLines(EntriesText(entries)), n), m3uIndex, hash, settings);
      WithoutUrls(q.sent) == WithoutUrls(p.sent) + Reads(entries, n, m3uIndex, settings)
    decreases |entries|
  {
    if entries == [] {
      assert WithoutUrls(p.sent) + [] == WithoutUrls(p.sent);
    } else {
      var e := entries[0];
      assert e in entries;
      EntryLineIsOneLine(e.stream);
      EntryLines(entries);
      var a, b := Line(DropCR(EntryLine(e.stream)), n), Line(DropCR(e.url), n + 1);
      TwoLines(p, a, b, ScanLines(EntriesText(entries[1..])), n, m3uIndex, hash, settings);
      HandlesEntry(p, e, n, m3uIndex, hash, settings);
      var q := HandleLine(HandleLine(p, a, m3uIndex, hash, settings), b, m3uIndex, hash, settings);
      HandlesEntries(q, entries[1..], n + 2, m3uIndex, hash, settings);
      ReadsOne(WithoutUrls(p.sent), entries, n, m3uIndex, settings);
    }
  }

  const HEADER := "#EXTM3U"

  lemma HeaderLine(text: string)
    ensures ScanLines(M3U_HEADER + text) == [HEADER] + ScanLines(text)
  {
    assert M3U_HEADER == HEADER + "\n";
    ScansLine(HEADER, text);
  }

  lemma HeaderIgnored(p: Progress, lines: seq<string>, m3uIndex: string, hash: string -> string, settings: Settings)
    requires p.currentLine == ""
    ensures HandleLines(p, Numbered([HEADER] + lines, 0), m3uIndex, hash, settings)
         == HandleLines(p, Numbered(lines, 1), m3uIndex, hash, settings)
  {
    var line, rest := Line(HEADER, 0), Numbered(lines, 1);
    TrimmedStays(HEADER);
    assert HandleLine(p, line, m3uIndex, hash, settings) == p;
    assert ([HEADER] + lines)[1..] == lines;
    assert Numbered([HEADER] + lines, 0) == [line] + rest;
    assert ([line] + rest)[1..] == rest;
  }

  /**
    Reading a printed playlist gives back, in order, every stream the filter keeps: the same title, its
    attributes trimmed, the line it came from.
   */
  lemma RoundTrip(entries: seq<Entry>, m3uIndex: string, hash: string -> string, files: set<FileName>, settings: Settings)
    requires forall e | e in entries :: Readable(e)
    ensures var lines := Numbered(ScanLines(M3U_HEADER + EntriesText(entries)), 0);
      var end := HandleLines(Progress("", files, []), lines, m3uIndex, hash, settings);
      WithoutUrls(end.sent) == Reads(entries, 1, m3uIndex, settings)
  {
    var text, first := EntriesText(entries), Progress("", files, []);
    HeaderLine(text);
    HeaderIgnored(first, ScanLines(text), m3uIndex, hash, settings);
    HandlesEntries(first, entries, 1, m3uIndex, hash, settings);
    assert WithoutUrls(first.sent) == [];
  }

  /** Two streams with the same title, id, channel number, type and group. */
  predicate SameAttributes(a: StreamInfo, b: StreamInfo) {
    a.title == b.title && a.tvgId == b.tvgId && a.tvgChNo == b.tvgChNo && a.tvgType == b.tvgType && a.group == b.group
  }

  ghost predicate TrimmedAttributes(s: StreamInfo) {
    Trimmed(s.tvgId) && Trimmed(s.tvgChNo) && Trimmed(s.tvgType) && Trimmed(s.group)
  }

  lemma {:induction false} ReadsAll(entries: seq<Entry>, n: nat, m3uIndex: string, settings: Settings)
    requires forall e | e in entries :: TrimmedAttributes(e.stream)
    requires forall g, t :: settings.keep(g, t)
    ensures var r := Reads(entries, n, m3uIndex, settings);
      |r| == |entries| && forall k | 0 <= k < |r| :: SameAttributes(r[k], entries[k].stream) && r[k].sourceIndex == n + 2 * k + 1
    decreases |entries|
  {
    if entries == [] {
    } else {
      var s := entries[0].stream;
      assert entries[0] in entries;
      TrimmedStays(s.tvgId);
      TrimmedStays(s.tvgChNo);
      TrimmedStays(s.tvgType);
      TrimmedStays(s.group);
      ReadsAll(entries[1..], n + 2, m3uIndex, settings);
    }
  }

  /** With no filter, and attributes without spaces round them, every stream comes back as it was. */
  lemma UnfilteredRoundTrip(entries: seq<Entry>, m3uIndex: string, hash: string -> string, files: set<FileName>, settings: Settings)
    requires forall e | e in entries :: Readable(e) && TrimmedAttributes(e.stream)
    requires forall g, t :: settings.keep(g, t)
    ensures var lines := Numbered(ScanLines(M3U_HEADER + EntriesText(entries)), 0);
      var sent := HandleLines(Progress("", files, []), lines, m3uIndex, hash, settings).sent;
      |sent| == |entries| && forall k | 0 <= k < |sent| :: SameAttributes(sent[k], entries[k].stream) && sent[k].sourceIndex == 2 * k + 2
  {
    var lines := Numbered(ScanLines(M3U_HEADER + EntriesText(entries)), 0);
    var sent := HandleLines(Progress("", files, []), lines, m3uIndex, hash, settings).sent;
    RoundTrip(entries, m3uIndex, hash, files, settings);
    ReadsAll(entries, 1, m3uIndex, settings);
    assert |WithoutUrls(sent)| == |sent|;
    forall k | 0 <= k < |sent| ensures SameAttributes(sent[k], entries[k].stream) && sent[k].sourceIndex == 2 * k + 2 {
      assert WithoutUrls(sent)[k] == sent[k].(urls := map[]);
    }
  }

  // ----- The line number kept with a URL -----

  lemma {:induction false} DecimalIsDigits(n: nat)
    ensures forall k | 0 <= k < |Decimal(n)| :: IsDigit(Decimal(n)[k])
  {
    if n < 10 {
    } else {
      DecimalIsDigits(n / 10);
    }
  }

  /** The load balancer reads back, from a URL as the parser keeps it, the line it came from and the URL itself. */
  lemma StoredUrlKeepsLine(lineNum: nat, url: string)
    requires lineNum <= MAX_INT64
    ensures Laps.Line(StoredUrl(lineNum, url)) == lineNum && Laps.UrlOf(StoredUrl(lineNum, url)) == url
  {
    var number, s := Decimal(lineNum), StoredUrl(lineNum, url);
    DecimalIsDigits(lineNum);
    AtoiOfDecimal(lineNum);
    forall k | 0 <= k < |number| ensures s[k] != ':' {
      assert s[k] == number[k] && IsDigit(number[k]);
    }
    assert OccursAt(s, ":::", |number|);
    var at := IndexFrom(s, ":::", 0).value;
    assert s[at] == s[at..at + 3][0] == ':';
    assert at == |number|;
    assert s[..at] == number && s[at + 3..] == url;
  }
}

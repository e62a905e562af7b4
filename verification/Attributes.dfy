/** What an attribute line says, whoever wrote it. */
module Attributes {
  import opened Basics
  import opened Text
  import opened Streams
  import opened Playlist
  import opened PlaylistProperties

  /** The attribute names a stream is read from. */
  function NamesOf(slot: Slot): set<string> {
    match slot
    case IdSlot => {"tvg-id"}
    case ChNoSlot => {"tvg-chno", "channel-id", "channel-number"}
    case NameSlot => {"tvg-name"}
    case TypeSlot => {"tvg-type"}
    case GroupSlot => {"tvg-group", "group-title"}
    case LogoSlot => {"tvg-logo"}
    case NoSlot => {}
  }

  /** `a` is `b` but that some letters may be capitals. */
  predicate SameButCase(a: string, b: string) {
    |a| == |b| && forall k | 0 <= k < |a| :: a[k] == b[k] || ('A' <= a[k] <= 'Z' && a[k] as int + 32 == b[k] as int)
  }

  predicate IsKey(key: string) {
    key != "" && forall k | 0 <= k < |key| :: IsKeyChar(key[k])
  }

  predicate NoCapitals(s: string) {
    forall k | 0 <= k < |s| :: !('A' <= s[k] <= 'Z')
  }

  lemma NamesHaveNoCapitals(slot: Slot)
    ensures forall name | name in NamesOf(slot) :: NoCapitals(name)
  {
  }

  lemma LowerIsSame(key: string, name: string)
    requires NoCapitals(name)
    ensures ToLower(key) == name <==> SameButCase(key, name)
  {
    forall k | 0 <= k < |key| ensures LowerChar(key[k]) == if 'A' <= key[k] <= 'Z' then (key[k] as int + 32) as char else key[k] {
    }
    if SameButCase(key, name) {
      assert forall k | 0 <= k < |key| :: ToLower(key)[k] == name[k];
    }
    if ToLower(key) == name {
      assert forall k | 0 <= k < |key| :: LowerChar(key[k]) == name[k];
    }
  }

  lemma KeyIsTrimmed(key: string)
    requires IsKey(key)
    ensures TrimSpace(key) == key
  {
    assert !IsSpace(key[0]) && !IsSpace(key[|key| - 1]);
    TrimmedStays(key);
  }

  lemma SlotByName(name: string, slot: Slot)
    requires slot != NoSlot
    ensures SlotOf(name) == slot <==> name in NamesOf(slot)
  {
  }

  /** A key fills a slot exactly when it is one of its names, in capitals or not. */
  lemma KeyMeans(key: string, slot: Slot)
    requires IsKey(key) && slot != NoSlot
    ensures SlotOf(ToLower(TrimSpace(key))) == slot <==> exists name :: name in NamesOf(slot) && SameButCase(key, name)
  {
    KeyIsTrimmed(key);
    SlotByName(ToLower(key), slot);
    NamesHaveNoCapitals(slot);
    forall name | name in NamesOf(slot) ensures ToLower(key) == name <==> SameButCase(key, name) {
      LowerIsSame(key, name);
    }
  }

  // ----- The last attribute of a kind counts -----

  predicate Fills(p: Pair, slot: Slot) {
    exists name :: name in NamesOf(slot) && SameButCase(p.key, name)
  }

  /** The trimmed value of the last pair that fills a slot. */
  ghost function LastOf(pairs: seq<Pair>, slot: Slot): Option<string> {
    if pairs == [] then None
    else
      var p := pairs[|pairs| - 1];
      if Fills(p, slot) then Some(TrimSpace(p.value)) else LastOf(pairs[..|pairs| - 1], slot)
  }

  function FieldOf(s: StreamInfo, slot: Slot): string {
    match slot
    case IdSlot => s.tvgId
    case ChNoSlot => s.tvgChNo
    case NameSlot => s.title
    case TypeSlot => s.tvgType
    case GroupSlot => s.group
    case LogoSlot => s.logo
    case NoSlot => ""
  }

  /** What a slot has after some pairs; the logo is rewritten. */
  ghost function Says(pairs: seq<Pair>, slot: Slot, settings: Settings): string {
    var v := LastOf(pairs, slot);
    if v.None? then "" else if slot == LogoSlot then settings.logo(v.value) else v.value
  }

  lemma AssignFills(s: StreamInfo, p: Pair, slot: Slot, settings: Settings)
    requires Clean(p) && slot != NoSlot
    ensures FieldOf(Assign(s, p, settings), slot)
         == if !Fills(p, slot) then FieldOf(s, slot) else if slot == LogoSlot then settings.logo(TrimSpace(p.value)) else TrimSpace(p.value)
  {
    KeyMeans(p.key, slot);
    Unquoted(p.value);
  }

  lemma {:induction false} LastCounts(pairs: seq<Pair>, slot: Slot, settings: Settings)
    requires slot != NoSlot && forall p | p in pairs :: Clean(p)
    ensures FieldOf(AssignAll(NO_STREAM, pairs, settings), slot) == Says(pairs, slot, settings)
  {
    if pairs == [] {
    } else {
      var before, last := pairs[..|pairs| - 1], pairs[|pairs| - 1];
      assert pairs == before + [last];
      LastCounts(before, slot, settings);
      FoldLeftConcat(NO_STREAM, before, [last], Assigner(settings));
      AssignOne(AssignAll(NO_STREAM, before, settings), last, settings);
      AssignFills(AssignAll(NO_STREAM, before, settings), last, slot, settings);
    }
  }

  /**
    A line of attributes, in whatever order, repeated or not: each field has the value of its last attribute, and the
    title is what follows the comma, whatever the attributes say.
   */
  lemma LineSays(head: string, pairs: seq<Pair>, title: string, s: StreamInfo, slot: Slot, settings: Settings)
    requires Free(head, '"') && Free(head, ',') && Free(head, '=')
    requires pairs != [] && Free(title, '"') && forall p | p in pairs :: Clean(p)
    requires s == Described(head + PairsText(pairs) + "," + title, settings)
    ensures s.title == TrimSpace(title)
    ensures slot != NoSlot && slot != NameSlot ==> FieldOf(s, slot) == Says(pairs, slot, settings)
  {
    DescribedByPairs(head, pairs, title, AssignAll(NO_STREAM, pairs, settings), settings);
    Unquoted(title);
    if slot != NoSlot {
      LastCounts(pairs, slot, settings);
    }
  }

  // ----- Quotes and spaces -----

  function Many(c: char, n: nat): string {
    seq(n, i => c)
  }

  lemma {:induction false} TrimAllQuotes(n: nat)
    ensures TrimQuotes(Many('"', n)) == ""
  {
    if n > 0 {
      TrimAllQuotes(n - 1);
      assert Many('"', n)[1..] == Many('"', n - 1);
    }
  }

  lemma {:induction false} TrimQuotesIs(m: nat, t: string, n: nat)
    requires t == [] || (t[0] != '"' && t[|t| - 1] != '"')
    ensures TrimQuotes(Many('"', m) + t + Many('"', n)) == t
    decreases m + n
  {
    var s := Many('"', m) + t + Many('"', n);
    if m > 0 {
      TrimQuotesIs(m - 1, t, n);
      assert s[0] == '"' && s[1..] == Many('"', m - 1) + t + Many('"', n);
    } else if n > 0 {
      assert s[|s| - 1] == '"' && s[..|s| - 1] == Many('"', 0) + t + Many('"', n - 1);
      TrimQuotesIs(0, t, n - 1);
      if s[0] == '"' {
        assert t == [];
        TrimAllQuotes(n);
        assert s == Many('"', n);
      }
    } else {
      assert s == t;
    }
  }

  /** Values in quotes lose them, however many there are; a quote at one end alone stays. */
  lemma QuotesAreDropped(m: nat, t: string, n: nat)
    requires t == [] || (t[0] != '"' && t[|t| - 1] != '"')
    ensures GeneralParser(Many('"', m) + t + Many('"', n)) == if (m > 0 && n > 0) || t == [] then t else Many('"', m) + t + Many('"', n)
  {
    TrimQuotesIs(m, t, n);
    var s := Many('"', m) + t + Many('"', n);
    if t == [] {
      if s != [] {
        assert s[0] == '"' && s[|s| - 1] == '"';
      }
    } else {
      assert s[0] == (if m > 0 then '"' else t[0]) && s[|s| - 1] == if n > 0 then '"' else t[|t| - 1];
    }
  }

  predicate AllSpaces(s: string) {
    forall k | 0 <= k < |s| :: IsSpace(s[k])
  }

  lemma {:induction false} TrimsLeft(a: string, s: string)
    requires AllSpaces(a) && s != "" && !IsSpace(s[0])
    ensures TrimLeft(a + s) == s
  {
    if a == [] {
      assert a + s == s;
    } else {
      TrimsLeft(a[1..], s);
      assert (a + s)[1..] == a[1..] + s;
    }
  }

  lemma {:induction false} TrimsRight(s: string, b: string)
    requires AllSpaces(b) && s != "" && !IsSpace(s[|s| - 1])
    ensures TrimRight(s + b) == s
    decreases |b|
  {
    if b == [] {
      assert s + b == s;
    } else {
      TrimsRight(s, b[..|b| - 1]);
      assert (s + b)[..|s + b| - 1] == s + b[..|b| - 1];
    }
  }

  /** Trimming takes away the spaces round a text and nothing else. */
  lemma TrimsSpaces(a: string, s: string, b: string)
    requires AllSpaces(a) && AllSpaces(b) && Trimmed(s) && s != ""
    ensures TrimSpace(a + s + b) == s
  {
    assert a + s + b == a + (s + b) && (s + b)[0] == s[0];
    TrimsLeft(a, s + b);
    TrimsRight(s, b);
  }
}

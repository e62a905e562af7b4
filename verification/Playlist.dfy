/** Reading and writing playlists: an `#EXTINF` line with its attributes, then the line of the URL. */
module Playlist {
  import opened Basics
  import opened Text
  import opened SortKeys
  import opened Streams

  predicate IsSpace(c: char) {
    || '\t' <= c <= '\r' || c in {' ', '\U{85}', '\U{A0}', '\U{1680}', '\U{2028}', '\U{2029}', '\U{202F}', '\U{205F}', '\U{3000}'}
    || '\U{2000}' <= c <= '\U{200A}'
  }

  function TrimLeft(s: string): string {
    if s != [] && IsSpace(s[0]) then TrimLeft(s[1..]) else s
  }

  function TrimRight(s: string): string {
    if s != [] && IsSpace(s[|s| - 1]) then TrimRight(s[..|s| - 1]) else s
  }

  function TrimSpace(s: string): string {
    TrimRight(TrimLeft(s))
  }

  /** There is nothing to trim. */
  predicate Trimmed(s: string) {
    s == [] || (!IsSpace(s[0]) && !IsSpace(s[|s| - 1]))
  }

  predicate Free(s: string, c: char) {
    forall k | 0 <= k < |s| :: s[k] != c
  }

  function LowerChar(c: char): char {
    if 'A' <= c <= 'Z' then 'a' + (c - 'A') else c
  }

  /** Lower case of the characters a key may have. */
  function ToLower(s: string): (r: string)
    ensures (forall k | 0 <= k < |s| :: !('A' <= s[k] <= 'Z')) ==> r == s
  {
    seq(|s|, i requires 0 <= i < |s| => LowerChar(s[i]))
  }

  // ----- The attributes of a line -----

  predicate IsKeyChar(c: char) {
    'a' <= c <= 'z' || 'A' <= c <= 'Z' || IsDigit(c) || c == '_' || c == '-'
  }

  /** A key from `start`, the `=` at `mid`, and a value whose closing quote is at `end`. */
  datatype Match = Match(start: nat, mid: nat, end: nat)

  /** `m` is a way to read the text from `m.start` as `key="value"`. */
  predicate Matches(line: string, m: Match) {
    && m.start < m.mid && m.mid + 2 <= m.end < |line|
    && (forall k | m.start <= k < m.mid :: IsKeyChar(line[k]))
    && line[m.mid] == '=' && line[m.mid + 1] == '"' && line[m.end] == '"'
    && (forall k | m.mid + 2 <= k < m.end :: line[k] != '"')
  }

  /** The first character from `i` on that no key may have, or the end of the line. */
  function KeyEnd(line: string, i: nat): (j: nat)
    requires i <= |line|
    ensures i <= j <= |line| && (forall k | i <= k < j :: IsKeyChar(line[k])) && (j < |line| ==> !IsKeyChar(line[j]))
    decreases |line| - i
  {
    if i < |line| && IsKeyChar(line[i]) then KeyEnd(line, i + 1) else i
  }

  /** The first quote from `i` on, or the end of the line. */
  function NextQuote(line: string, i: nat): (j: nat)
    requires i <= |line|
    ensures i <= j <= |line| && (forall k | i <= k < j :: line[k] != '"') && (j < |line| ==> line[j] == '"')
    decreases |line| - i
  {
    if i < |line| && line[i] != '"' then NextQuote(line, i + 1) else i
  }

  /** The pair that starts at `i`; there is at most one. */
  function MatchAt(line: string, i: nat): (r: Option<Match>)
    requires i <= |line|
    ensures r.Some? ==> Matches(line, r.value) && r.value.start == i
  {
    var j := KeyEnd(line, i);
    if i < j && j + 2 <= |line| && line[j] == '=' && line[j + 1] == '"' then
      var q := NextQuote(line, j + 2);
      if q < |line| then Some(Match(i, j, q)) else None
    else None
  }

  /** The leftmost pair from `i` on. */
  function FindFrom(line: string, i: nat): (r: Option<Match>)
    requires i <= |line|
    ensures r.Some? ==> Matches(line, r.value) && i <= r.value.start
    decreases |line| - i
  {
    var m := MatchAt(line, i);
    if m.Some? || i == |line| then m else FindFrom(line, i + 1)
  }

  datatype Pair = Pair(key: string, value: string)

  /** A pair as it stands in a line. */
  function PairText(p: Pair): string {
    p.key + "=\"" + p.value + "\""
  }

  /** All pairs from `i` on, from left to right, none overlapping another. */
  function FindAll(line: string, i: nat): seq<Pair>
    requires i <= |line|
    decreases |line| - i, 1
  {
    AndAfter(line, FindFrom(line, i))
  }

  function PairOf(line: string, m: Match): Pair
    requires Matches(line, m)
  {
    Pair(line[m.start..m.mid], line[m.mid + 2..m.end])
  }

  /** The pair that was found, and all pairs after it. */
  function AndAfter(line: string, m: Option<Match>): seq<Pair>
    requires m.Some? ==> Matches(line, m.value)
    decreases if m.Some? then |line| - m.value.start else 0, 0
  {
    if m.None? then [] else [PairOf(line, m.value)] + FindAll(line, m.value.end + 1)
  }

  function TrimQuotes(s: string): string {
    if s != [] && s[0] == '"' then TrimQuotes(s[1..])
    else if s != [] && s[|s| - 1] == '"' then TrimQuotes(s[..|s| - 1])
    else s
  }

  function GeneralParser(s: string): string {
    if s != [] && s[0] == '"' && s[|s| - 1] == '"' then TrimQuotes(s) else s
  }

  /** What the program is configured with: how logos are rewritten, and which groups and titles are kept. */
  datatype Settings = Settings(logo: string -> string, keep: (string, string) -> bool)

  const NO_STREAM := StreamInfo("", "", "", "", "", "", map[], "", 0)

  /** The attributes a stream has. */
  datatype Slot = IdSlot | ChNoSlot | NameSlot | TypeSlot | GroupSlot | LogoSlot | NoSlot

  function SlotOf(key: string): Slot {
    if key == "tvg-id" then IdSlot
    else if key in {"tvg-chno", "channel-id", "channel-number"} then ChNoSlot
    else if key == "tvg-name" then NameSlot
    else if key == "tvg-type" then TypeSlot
    else if key in {"tvg-group", "group-title"} then GroupSlot
    else if key == "tvg-logo" then LogoSlot
    else NoSlot
  }

  /** What one attribute says about a stream. */
  function Assign(s: StreamInfo, p: Pair, settings: Settings): StreamInfo {
    var value := TrimSpace(p.value);
    match SlotOf(ToLower(TrimSpace(p.key)))
    case IdSlot => s.(tvgId := GeneralParser(value))
    case ChNoSlot => s.(tvgChNo := GeneralParser(value))
    case NameSlot => s.(title := GeneralParser(value))
    case TypeSlot => s.(tvgType := GeneralParser(value))
    case GroupSlot => s.(group := GeneralParser(value))
    case LogoSlot => s.(logo := settings.logo(value))
    case NoSlot => s
  }

  function Assigner(settings: Settings): (StreamInfo, Pair) -> StreamInfo {
    (s: StreamInfo, p: Pair) => Assign(s, p, settings)
  }

  function AssignAll(s: StreamInfo, pairs: seq<Pair>, settings: Settings): StreamInfo {
    FoldLeft(s, pairs, Assigner(settings))
  }

  function RemoveAll(line: string, pairs: seq<Pair>): string {
    if pairs == [] then line else RemoveAll(RemoveFirst(line, PairText(pairs[0])), pairs[1..])
  }

  /** The stream an `#EXTINF` line describes, before its source is filled in. */
  function Described(line: string, settings: Settings): StreamInfo {
    var pairs := FindAll(line, 0);
    var s := AssignAll(NO_STREAM, pairs, settings);
    var rest := SplitFirst(RemoveAll(line, pairs), ",").1;
    if rest.Some? then s.(title := GeneralParser(TrimSpace(rest.value))) else s
  }

  /** The file under which a stream's URL is indexed. */
  datatype FileName = FileName(title: string, m3uIndex: string, urlHash: string)

  /** A URL as it is kept with a stream: the line it came from, then the URL. */
  function StoredUrl(lineNum: nat, url: string): string {
    Decimal(lineNum) + ":::" + url
  }

  datatype Line = Line(content: string, lineNum: nat)

  /** The stream that an `#EXTINF` line and the line of its URL give, and the index files there are afterwards. */
  function Parsed(line: string, next: Line, m3uIndex: string, hash: string -> string, files: set<FileName>,
                  settings: Settings): (Option<StreamInfo>, set<FileName>)
  {
    var s, url := Described(line, settings), TrimSpace(next.content);
    if s.title == "" then (None, files)
    else
      var file := FileName(s.title, m3uIndex, hash(url));
      var urls := if file in files then map[] else map[hash(url) := StoredUrl(next.lineNum, url)];
      (Some(s.(sourceM3U := m3uIndex, sourceIndex := next.lineNum, urls := map[m3uIndex := urls])), files + {file})
  }

  /** Sets the field that an attribute's key names. */
  method SetAttribute(s: StreamInfo, p: Pair, settings: Settings) returns (r: StreamInfo)
    ensures r == Assign(s, p, settings)
  {
    r := s;
    var key, value := ToLower(TrimSpace(p.key)), TrimSpace(p.value);
    if key == "tvg-id" {
      r := r.(tvgId := GeneralParser(value));
    } else if key == "tvg-chno" || key == "channel-id" || key == "channel-number" {
      r := r.(tvgChNo := GeneralParser(value));
    } else if key == "tvg-name" {
      r := r.(title := GeneralParser(value));
    } else if key == "tvg-type" {
      r := r.(tvgType := GeneralParser(value));
    } else if key == "tvg-group" || key == "group-title" {
      r := r.(group := GeneralParser(value));
    } else if key == "tvg-logo" {
      r := r.(logo := settings.logo(value));
    }
  }

  method ParseLine(line: string, next: Line, m3uIndex: string, hash: string -> string, files: set<FileName>, settings: Settings)
      returns (stream: Option<StreamInfo>, files': set<FileName>)
    ensures (stream, files') == Parsed(line, next, m3uIndex, hash, files, settings)
  {
    var url := TrimSpace(next.content);
    var s := NO_STREAM;
    var matches := FindAll(line, 0);
    var lineWithoutPairs := line;
    for i := 0 to |matches|
      invariant AssignAll(s, matches[i..], settings) == AssignAll(NO_STREAM, matches, settings)
      invariant RemoveAll(lineWithoutPairs, matches[i..]) == RemoveAll(line, matches)
    {
      assert matches[i..][1..] == matches[i + 1..];
      s := SetAttribute(s, matches[i], settings);
      lineWithoutPairs := RemoveFirst(lineWithoutPairs, PairText(matches[i]));
    }
    var commaSplit := SplitFirst(lineWithoutPairs, ",");
    if commaSplit.1.Some? {
      s := s.(title := GeneralParser(TrimSpace(commaSplit.1.value)));
    }
    assert s == Described(line, settings);
    if s.title == "" {
      return None, files;
    }
    var file, urls := FileName(s.title, m3uIndex, hash(url)), map[];
    files' := files;
    if file !in files {
      files' := files + {file};
      urls := urls[hash(url) := StoredUrl(next.lineNum, url)];
    } else {
      assert files == files + {file};
    }
    stream := Some(s.(sourceM3U := m3uIndex, sourceIndex := next.lineNum, urls := map[m3uIndex := urls]));
  }

  // ----- The lines of a playlist -----

  const EXTINF := "#EXTINF:"

  /** The `#EXTINF` line waiting for its URL, the index files, and the streams sent so far. */
  datatype Progress = Progress(currentLine: string, files: set<FileName>, sent: seq<StreamInfo>)

  function HandleLine(p: Progress, next: Line, m3uIndex: string, hash: string -> string, settings: Settings): Progress {
    var line := TrimSpace(next.content);
    if StartsWith(line, EXTINF) then p.(currentLine := line)
    else if p.currentLine != "" && !StartsWith(line, "#") then
      var parsed := Parsed(p.currentLine, next, m3uIndex, hash, p.files, settings);
      var sent := if parsed.0.Some? && settings.keep(parsed.0.value.group, parsed.0.value.title) then p.sent + [parsed.0.value] else p.sent;
      Progress("", parsed.1, sent)
    else p
  }

  function HandleLines(p: Progress, lines: seq<Line>, m3uIndex: string, hash: string -> string, settings: Settings): Progress
    decreases |lines|
  {
    if lines == [] then p else HandleLines(HandleLine(p, lines[0], m3uIndex, hash, settings), lines[1..], m3uIndex, hash, settings)
  }

  method HandleDownloaded(lines: seq<Line>, m3uIndex: string, hash: string -> string, files: set<FileName>, settings: Settings)
      returns (sent: seq<StreamInfo>, files': set<FileName>)
    ensures var end := HandleLines(Progress("", files, []), lines, m3uIndex, hash, settings);
      sent == end.sent && files' == end.files
  {
    var currentLine := "";
    sent, files' := [], files;
    for i := 0 to |lines|
      invariant HandleLines(Progress(currentLine, files', sent), lines[i..], m3uIndex, hash, settings)
             == HandleLines(Progress("", files, []), lines, m3uIndex, hash, settings)
    {
      assert lines[i..][1..] == lines[i + 1..];
      var line := TrimSpace(lines[i].content);
      if StartsWith(line, EXTINF) {
        currentLine := line;
      } else if currentLine != "" && !StartsWith(line, "#") {
        var stream;
        stream, files' := ParseLine(currentLine, lines[i], m3uIndex, hash, files', settings);
        if stream.Some? && settings.keep(stream.value.group, stream.value.title) {
          sent := sent + [stream.value];
        }
        currentLine := "";
      }
    }
  }

  // ----- Writing -----

  function Join(parts: seq<string>, sep: string): string
    requires parts != []
  {
    if |parts| == 1 then parts[0] else parts[0] + sep + Join(parts[1..], sep)
  }

  /** The same value under each key, or nothing if it is empty. */
  function IfSet(value: string, keys: seq<string>): seq<Pair> {
    if value == "" then [] else seq(|keys|, i requires 0 <= i < |keys| => Pair(keys[i], value))
  }

  /** The attributes an entry shows. */
  function ShownPairs(s: StreamInfo): seq<Pair> {
    IfSet(s.tvgId, ["tvg-id"])
    + IfSet(s.tvgChNo, ["tvg-chno"])
    + IfSet(s.logo, ["tvg-logo"])
    + IfSet(s.group, ["tvg-group", "group-title"])
    + IfSet(s.tvgType, ["tvg-type"])
    + IfSet(s.title, ["tvg-name"])
  }

  /** Pairs as they follow one another in a line. */
  function PairsText(pairs: seq<Pair>): string {
    if pairs == [] then "" else " " + PairText(pairs[0]) + PairsText(pairs[1..])
  }

  const HEAD := "#EXTINF:-1"

  function EntryLine(s: StreamInfo): string {
    HEAD + PairsText(ShownPairs(s)) + "," + s.title
  }

  function Texts(pairs: seq<Pair>): seq<string> {
    seq(|pairs|, i requires 0 <= i < |pairs| => PairText(pairs[i]))
  }

  lemma JoinOne(head: string, next: string, rest: seq<string>)
    ensures Join([head] + ([next] + rest), " ") == head + " " + Join([next] + rest, " ")
  {
    assert ([head] + ([next] + rest))[1..] == [next] + rest;
  }

  lemma {:induction false} JoinIsPairs(head: string, pairs: seq<Pair>)
    ensures Join([head] + Texts(pairs), " ") == head + PairsText(pairs)
    decreases |pairs|
  {
    if pairs == [] {
    } else {
      var next, rest := PairText(pairs[0]), Texts(pairs[1..]);
      JoinIsPairs(next, pairs[1..]);
      assert Texts(pairs) == [next] + rest;
      JoinOne(head, next, rest);
      Regroup(head, " ", next + PairsText(pairs[1..]));
      Regroup(" ", next, PairsText(pairs[1..]));
    }
  }

  lemma TagIf(tags: seq<string>, value: string, key: string)
    ensures tags + Texts(IfSet(value, [key])) == if value == "" then tags else tags + [PairText(Pair(key, value))]
  {
  }

  lemma TwoTagsIf(tags: seq<string>, value: string, a: string, b: string)
    ensures tags + Texts(IfSet(value, [a, b]))
         == if value == "" then tags else tags + [PairText(Pair(a, value))] + [PairText(Pair(b, value))]
  {
  }

  lemma TextsConcat(tags: seq<string>, a: seq<Pair>, b: seq<Pair>)
    ensures tags + Texts(a + b) == tags + Texts(a) + Texts(b)
  {
  }

  lemma TextsOfShown(s: StreamInfo, tags: seq<string>)
    ensures tags + Texts(IfSet(s.tvgId, ["tvg-id"])) + Texts(IfSet(s.tvgChNo, ["tvg-chno"])) + Texts(IfSet(s.logo, ["tvg-logo"]))
            + Texts(IfSet(s.group, ["tvg-group", "group-title"])) + Texts(IfSet(s.tvgType, ["tvg-type"]))
            + Texts(IfSet(s.title, ["tvg-name"]))
         == tags + Texts(ShownPairs(s))
  {
    var a, b, c := IfSet(s.tvgId, ["tvg-id"]), IfSet(s.tvgChNo, ["tvg-chno"]), IfSet(s.logo, ["tvg-logo"]);
    var d, e, g := IfSet(s.group, ["tvg-group", "group-title"]), IfSet(s.tvgType, ["tvg-type"]), IfSet(s.title, ["tvg-name"]);
    TextsConcat(tags, a, b);
    TextsConcat(tags, a + b, c);
    TextsConcat(tags, a + b + c, d);
    TextsConcat(tags, a + b + c + d, e);
    TextsConcat(tags, a + b + c + d + e, g);
  }

  method FormatStreamEntry(s: StreamInfo, url: string) returns (entry: string)
    ensures entry == EntryLine(s) + "\n" + url + "\n"
  {
    var tags := [HEAD];
    TextsOfShown(s, tags);
    TagIf(tags, s.tvgId, "tvg-id");
    if s.tvgId != "" {
      tags := tags + [PairText(Pair("tvg-id", s.tvgId))];
    }
    TagIf(tags, s.tvgChNo, "tvg-chno");
    if s.tvgChNo != "" {
      tags := tags + [PairText(Pair("tvg-chno", s.tvgChNo))];
    }
    TagIf(tags, s.logo, "tvg-logo");
    if s.logo != "" {
      tags := tags + [PairText(Pair("tvg-logo", s.logo))];
    }
    TwoTagsIf(tags, s.group, "tvg-group", "group-title");
    if s.group != "" {
      tags := tags + [PairText(Pair("tvg-group", s.group))];
      tags := tags + [PairText(Pair("group-title", s.group))];
    }
    TagIf(tags, s.tvgType, "tvg-type");
    if s.tvgType != "" {
      tags := tags + [PairText(Pair("tvg-type", s.tvgType))];
    }
    TagIf(tags, s.title, "tvg-name");
    if s.title != "" {
      tags := tags + [PairText(Pair("tvg-name", s.title))];
    }
    JoinIsPairs(HEAD, ShownPairs(s));
    entry := Join(tags, " ") + "," + s.title + "\n";
    entry := entry + url;
    entry := entry + "\n";
  }

  /** A playlist entry: a stream and the URL it is listed with. */
  datatype Entry = Entry(stream: StreamInfo, url: string)

  function EntriesText(entries: seq<Entry>): string {
    if entries == [] then ""
    else EntryLine(entries[0].stream) + "\n" + entries[0].url + "\n" + EntriesText(entries[1..])
  }

  const M3U_HEADER := "#EXTM3U\n"

  // ----- Lines of a text -----

  function DropCR(s: string): string {
    if s != [] && s[|s| - 1] == '\r' then s[..|s| - 1] else s
  }

  function ScanLines(s: string): seq<string> {
    if s == [] then []
    else
      var at := IndexFrom(s, "\n", 0);
      if at.Some? then [DropCR(s[..at.value])] + ScanLines(s[at.value + 1..]) else [DropCR(s)]
  }

  function Numbered(lines: seq<string>, n: nat): seq<Line> {
    if lines == [] then [] else [Line(lines[0], n)] + Numbered(lines[1..], n + 1)
  }
}

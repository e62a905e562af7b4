/**
  What the load balancer does, as a value: laps of picks, picks of probes. What it observes of the world
  is a function of time: free slots, replies, and whether the context is done; time passes between any
  two observations.
 */
module Laps {
  import opened Basics
  import opened Text
  import opened Sorting

  datatype Reply = BadRequest | Refused | NoResponse | Status(code: int)

  datatype Env = Env(slots: (nat, string) -> int, reply: (nat, string) -> Reply, done: nat -> bool)

  const STATUS_OK := 200

  /** A stream's URLs: provider, then sub-index, then `line:::url`. */
  type Urls = map<string, map<string, string>>

  /** What happened to a URL when its turn came. */
  datatype Verdict = AlreadyTested | AtLimit | Unusable | Usable

  datatype Probe = Probe(sub: string, at: nat, verdict: Verdict)

  /** One provider's turn: when it was picked, the order of its URLs, what happened to each. */
  datatype Pick = Pick(index: string, at: nat, order: seq<string>, probes: seq<Probe>)

  datatype Choice = Choice(index: string, sub: string, url: string)

  datatype Outcome = Selected(choice: Choice) | NoStreams | NoIndexes | Cancelled

  function Id(index: string, sub: string): string {
    index + "|" + sub
  }

  /** The position of a URL in its playlist; anything that is not a number counts as 0. */
  function Line(content: string): int {
    Atoi(SplitFirst(content, ":::").0).value
  }

  function UrlOf(content: string): string {
    var parts := SplitFirst(content, ":::");
    if parts.1.Some? then parts.1.value else content
  }

  ghost predicate LineOrder(urls: map<string, string>, order: seq<string>) {
    && (forall i | 0 <= i < |order| :: order[i] in urls)
    && Distinct(order) && (forall i, j | 0 <= i < j < |order| :: Line(urls[order[i]]) <= Line(urls[order[j]]))
    && (forall s | s in urls :: s in order)
  }

  // ----- What one provider's turn amounts to -----

  function Judge(env: Env, tested: seq<string>, index: string, sub: string, url: string, at: nat): Verdict {
    if Id(index, sub) in tested then AlreadyTested
    else if env.slots(at, index) <= 0 then AtLimit
    else if env.reply(at, url) == Status(STATUS_OK) then Usable
    else Unusable
  }

  function Mark(tested: seq<string>, index: string, p: Probe): seq<string> {
    if p.verdict == Unusable then tested + [Id(index, p.sub)] else tested
  }

  function MarkAll(tested: seq<string>, index: string, probes: seq<Probe>): seq<string> {
    if probes == [] then tested else Mark(MarkAll(tested, index, probes[..|probes| - 1]), index, probes[|probes| - 1])
  }

  predicate HasWon(probes: seq<Probe>) {
    probes != [] && probes[|probes| - 1].verdict == Usable
  }

  /** A probe concerns the URL whose turn it is and has the verdict its moment calls for. */
  ghost predicate ProbeOk(env: Env, tested: seq<string>, start: nat, index: string, urls: map<string, string>,
                          order: seq<string>, probes: seq<Probe>, i: nat)
    requires i < |probes| <= |order|
  {
    && order[i] in urls
    && probes[i] == Probe(order[i], start + i,
         Judge(env, MarkAll(tested, index, probes[..i]), index, order[i], UrlOf(urls[order[i]]), start + i))
    && (i < |probes| - 1 ==> probes[i].verdict != Usable)
  }

  /** The probes follow the order, and a win ends them. */
  ghost predicate ScanOk(env: Env, tested: seq<string>, start: nat, index: string, urls: map<string, string>,
                         order: seq<string>, probes: seq<Probe>) {
    |probes| <= |order| && forall i | 0 <= i < |probes| :: ProbeOk(env, tested, start, index, urls, order, probes, i)
  }

  // ----- What one lap amounts to -----

  function Elements<T>(s: seq<T>): set<T> {
    set x | x in s
  }

  function Done(picks: seq<Pick>): set<string> {
    set i | 0 <= i < |picks| :: picks[i].index
  }

  function TestedAfter(tested: seq<string>, picks: seq<Pick>): seq<string> {
    if picks == [] then tested
    else
      var p := picks[|picks| - 1];
      MarkAll(TestedAfter(tested, picks[..|picks| - 1]), p.index, p.probes)
  }

  function TimeAfter(start: nat, picks: seq<Pick>): nat {
    if picks == [] then start else TimeAfter(start, picks[..|picks| - 1]) + 1 + |picks[|picks| - 1].probes|
  }

  predicate LapWon(picks: seq<Pick>) {
    picks != [] && HasWon(picks[|picks| - 1].probes)
  }

  /**
    A pick has the most free slots of all providers not picked before. When there are none left, as can
    happen with a list that repeats a provider, the empty name is picked.
   */
  ghost predicate Greedy(env: Env, providers: set<string>, done: set<string>, at: nat, index: string) {
    && index !in done
    && (if providers <= done then index == "" else index in providers)
    && forall q | q in providers && q !in done :: env.slots(at, q) <= env.slots(at, index)
  }

  /** A provider's URLs are tried by line until one wins; a provider without URLs for the stream is passed over. */
  ghost predicate TurnOk(env: Env, urls: Urls, tested: seq<string>, start: nat, p: Pick) {
    if p.index in urls then
      && LineOrder(urls[p.index], p.order)
      && ScanOk(env, tested, start, p.index, urls[p.index], p.order, p.probes)
      && (HasWon(p.probes) || |p.probes| == |p.order|)
    else p.order == [] && p.probes == []
  }

  ghost predicate PickOk(env: Env, urls: Urls, providers: set<string>, done: set<string>,
                         tested: seq<string>, now: nat, p: Pick) {
    p.at == now && Greedy(env, providers, done, p.at, p.index) && TurnOk(env, urls, tested, now + 1, p)
  }

  ghost predicate LapOk(env: Env, urls: Urls, providers: set<string>, tested: seq<string>, start: nat, picks: seq<Pick>) {
    picks == [] || (
      var before := picks[..|picks| - 1];
      && LapOk(env, urls, providers, tested, start, before)
      && !LapWon(before)
      && PickOk(env, urls, providers, Done(before), TestedAfter(tested, before), TimeAfter(start, before), picks[|picks| - 1]))
  }

  /** Before a pick the context is looked at if it is the first, or follows a turn with URLs. */
  predicate LooksBefore(urls: Urls, picks: seq<Pick>, i: nat)
    requires i < |picks|
  {
    i == 0 || picks[i - 1].index in urls
  }

  /** The context was not done whenever it was looked at before a pick. */
  predicate GoesOn(env: Env, urls: Urls, picks: seq<Pick>) {
    forall i | 0 <= i < |picks| :: LooksBefore(urls, picks, i) ==> !env.done(picks[i].at)
  }

  /** The context is done when a lap over some providers would begin, or after a turn with URLs that did not win. */
  predicate LapStopped(env: Env, urls: Urls, providers: set<string>, start: nat, picks: seq<Pick>) {
    && env.done(TimeAfter(start, picks))
    && (if picks == [] then providers != {} else picks[|picks| - 1].index in urls && !LapWon(picks))
  }

  datatype Lap = Lap(start: nat, tested: seq<string>, picks: seq<Pick>)

  datatype BalanceResult = Found(choice: Choice) | NoUrls | Exhausted | Interrupted | StillTrying

  ghost predicate LapFits(env: Env, urls: Urls, providers: set<string>, tested: seq<string>, laps: seq<Lap>, i: nat)
    requires i < |laps|
  {
    && laps[i].tested == (if i == 0 then tested else [])
    && LapOk(env, urls, providers, laps[i].tested, laps[i].start, laps[i].picks)
    && (i < |laps| - 1 ==> !LapWon(laps[i].picks))
  }

  /** Every lap is in order; only the last may be won; each lap after the first starts with nothing tested. */
  ghost predicate LapsOk(env: Env, urls: Urls, providers: set<string>, tested: seq<string>, laps: seq<Lap>) {
    forall i | 0 <= i < |laps| :: LapFits(env, urls, providers, tested, laps, i)
  }

  function EndOf(lap: Lap): nat {
    TimeAfter(lap.start, lap.picks)
  }

  /** A lap picks on only while the context is not done, and unless it is won or stopped it picks every provider. */
  ghost predicate LapFull(env: Env, urls: Urls, providers: set<string>, lap: Lap) {
    && GoesOn(env, urls, lap.picks) && (env.done(lap.start) ==> lap.picks == [])
    && (LapWon(lap.picks) || LapStopped(env, urls, providers, lap.start, lap.picks) || providers <= Done(lap.picks))
  }

  /** When the next lap starts. */
  function NextStart(start: nat, laps: seq<Lap>): nat {
    if laps == [] then start else EndOf(laps[|laps| - 1]) + 1
  }

  ghost predicate LapFollows(env: Env, urls: Urls, providers: set<string>, start: nat, laps: seq<Lap>, i: nat)
    requires i < |laps|
  {
    && LapFull(env, urls, providers, laps[i]) && laps[i].start == NextStart(start, laps[..i])
    && (i < |laps| - 1 ==> !env.done(EndOf(laps[i])))
  }

  /** A lap follows another only where the context was not done at the end of the one before. */
  ghost predicate LapsFollow(env: Env, urls: Urls, providers: set<string>, start: nat, laps: seq<Lap>) {
    forall i | 0 <= i < |laps| :: LapFollows(env, urls, providers, start, laps, i)
  }

  /** The context was done at the end of the last lap, which was not won. */
  predicate LapsStopped(env: Env, laps: seq<Lap>) {
    laps != [] && !LapWon(laps[|laps| - 1].picks) && env.done(EndOf(laps[|laps| - 1]))
  }

  /** Another lap may follow: the last was not won, and the context was not done at its end. */
  predicate MayFollow(env: Env, laps: seq<Lap>) {
    laps == [] || (!LapWon(laps[|laps| - 1].picks) && !env.done(EndOf(laps[|laps| - 1])))
  }

  /** Laps in order, each following the one before. */
  ghost predicate LapsRun(env: Env, urls: Urls, providers: set<string>, tested: seq<string>, start: nat, laps: seq<Lap>) {
    LapsOk(env, urls, providers, tested, laps) && LapsFollow(env, urls, providers, start, laps)
  }

  /** What is on the list of tested URLs after some laps: one that was won or stopped leaves its marks. */
  function TestedAfterLaps(env: Env, urls: Urls, providers: set<string>, tested: seq<string>, laps: seq<Lap>): seq<string> {
    if laps == [] then tested
    else
      var lap := laps[|laps| - 1];
      if LapWon(lap.picks) || LapStopped(env, urls, providers, lap.start, lap.picks) then TestedAfter(lap.tested, lap.picks)
      else []
  }

  /** The choice is the last URL of a lap that was won. */
  predicate Selects(urls: Urls, picks: seq<Pick>, c: Choice) {
    && LapWon(picks)
    && var p := picks[|picks| - 1];
       && c.index == p.index && c.index in urls
       && c.sub == p.probes[|p.probes| - 1].sub && c.sub in urls[c.index]
       && c.url == UrlOf(urls[c.index][c.sub])
  }

  /** The last URL of a turn that was won is a choice. */
  lemma WonSelects(env: Env, tested: seq<string>, start: nat, urls: Urls, p: Pick)
    requires p.index in urls && ScanOk(env, tested, start, p.index, urls[p.index], p.order, p.probes) && HasWon(p.probes)
    ensures var sub := p.order[|p.probes| - 1];
      sub in urls[p.index] && Selects(urls, [p], Choice(p.index, sub, UrlOf(urls[p.index][sub])))
  {
    assert ProbeOk(env, tested, start, p.index, urls[p.index], p.order, p.probes, |p.probes| - 1);
  }

  /** A list over which a lap ends: its distinct names, and the empty one, are as many as it is long. */
  predicate Ends(all: seq<string>) {
    |all| <= |Elements(all) + {""}|
  }

  // ----- How laps grow -----

  lemma ScanExtends(env: Env, tested: seq<string>, start: nat, index: string, urls: map<string, string>,
                    order: seq<string>, probes: seq<Probe>, p: Probe, more: seq<Probe>)
    requires ScanOk(env, tested, start, index, urls, order, probes) && !HasWon(probes)
    requires |probes| < |order| && order[|probes|] in urls
    requires p == Probe(order[|probes|], start + |probes|,
      Judge(env, MarkAll(tested, index, probes), index, order[|probes|], UrlOf(urls[order[|probes|]]), start + |probes|))
    requires more == probes + [p]
    ensures ScanOk(env, tested, start, index, urls, order, more) && (HasWon(more) <==> p.verdict == Usable)
    ensures MarkAll(tested, index, more) == Mark(MarkAll(tested, index, probes), index, p)
  {
    assert more[..|probes|] == probes;
    forall i | 0 <= i < |more| ensures ProbeOk(env, tested, start, index, urls, order, more, i) {
      if i < |probes| {
        assert ProbeOk(env, tested, start, index, urls, order, probes, i) && more[..i] == probes[..i];
      }
    }
  }

  lemma DoneGrows(before: seq<Pick>, p: Pick)
    ensures Done(before + [p]) == Done(before) + {p.index}
  {
    var picks := before + [p];
    forall x | x in Done(before) ensures x in Done(picks) {
      var i :| 0 <= i < |before| && before[i].index == x;
      assert picks[i].index == x;
    }
    assert picks[|before|].index in Done(picks);
    forall x | x in Done(picks) ensures x in Done(before) + {p.index} {
      var i :| 0 <= i < |picks| && picks[i].index == x;
      assert i < |before| ==> before[i].index == x;
    }
  }

  lemma LapGrows(env: Env, urls: Urls, providers: set<string>, tested: seq<string>, start: nat, before: seq<Pick>, p: Pick)
    requires LapOk(env, urls, providers, tested, start, before) && !LapWon(before)
    requires PickOk(env, urls, providers, Done(before), TestedAfter(tested, before), TimeAfter(start, before), p)
    ensures var picks := before + [p];
      && LapOk(env, urls, providers, tested, start, picks)
      && TestedAfter(tested, picks) == MarkAll(TestedAfter(tested, before), p.index, p.probes)
      && TimeAfter(start, picks) == TimeAfter(start, before) + 1 + |p.probes|
      && Done(picks) == Done(before) + {p.index}
      && (LapWon(picks) <==> HasWon(p.probes))
  {
    var picks := before + [p];
    assert picks[..|picks| - 1] == before;
    DoneGrows(before, p);
  }

  /** The lap has not been won, and the context was not done after its last turn with URLs, or before its first. */
  predicate MayGoOn(env: Env, urls: Urls, start: nat, picks: seq<Pick>) {
    && GoesOn(env, urls, picks) && !LapWon(picks)
    && (picks == [] || picks[|picks| - 1].index in urls ==> !env.done(TimeAfter(start, picks)))
  }

  lemma LapsGrow(env: Env, urls: Urls, providers: set<string>, tested: seq<string>, laps: seq<Lap>, lap: Lap)
    requires LapsOk(env, urls, providers, tested, laps) && (laps == [] || !LapWon(laps[|laps| - 1].picks))
    requires lap.tested == if laps == [] then tested else []
    requires LapOk(env, urls, providers, lap.tested, lap.start, lap.picks)
    ensures LapsOk(env, urls, providers, tested, laps + [lap])
  {
    var more := laps + [lap];
    forall i | 0 <= i < |more| ensures LapFits(env, urls, providers, tested, more, i) {
      if i < |laps| {
        assert LapFits(env, urls, providers, tested, laps, i);
      }
    }
  }

  /** What the laps that were run call for, with this many retries and watched for this many rounds. */
  predicate ResultFits(env: Env, urls: Urls, maxRetries: int, rounds: nat, laps: seq<Lap>, result: BalanceResult) {
    && (result == NoUrls <==> forall p | p in urls :: urls[p] == map[])
    && match result
       case NoUrls => laps == []
       case Found(c) => laps != [] && Selects(urls, laps[|laps| - 1].picks, c)
       case Interrupted => LapsStopped(env, laps)
       case Exhausted => MayFollow(env, laps) && maxRetries != 0 && |laps| == Max(maxRetries, 0)
       case StillTrying => MayFollow(env, laps) && |laps| == rounds && (maxRetries == 0 || rounds < maxRetries)
  }

  /** Where another lap may follow, nothing of the last one is left. */
  lemma NothingLeft(env: Env, urls: Urls, providers: set<string>, tested: seq<string>, laps: seq<Lap>)
    requires MayFollow(env, laps)
    ensures TestedAfterLaps(env, urls, providers, tested, laps) == if laps == [] then tested else []
  {
  }

  lemma FollowsOneMore(env: Env, urls: Urls, providers: set<string>, start: nat, laps: seq<Lap>, lap: Lap)
    requires LapsFollow(env, urls, providers, start, laps) && LapFull(env, urls, providers, lap)
    requires lap.start == NextStart(start, laps) && (laps == [] || !env.done(EndOf(laps[|laps| - 1])))
    ensures LapsFollow(env, urls, providers, start, laps + [lap])
  {
    var more := laps + [lap];
    forall i | 0 <= i < |more| ensures LapFollows(env, urls, providers, start, more, i) {
      if i < |laps| {
        assert LapFollows(env, urls, providers, start, laps, i) && more[..i] == laps[..i];
      } else {
        assert more[..i] == laps;
      }
    }
  }

  // ----- Providers -----

  lemma {:induction false} DistinctSize<T>(s: seq<T>)
    requires Distinct(s)
    ensures |Elements(s)| == |s|
  {
    if s == [] {
    } else {
      var n := |s| - 1;
      DistinctSize(s[..n]);
      assert Elements(s) == Elements(s[..n]) + {s[n]};
    }
  }

  lemma DistinctEnds(all: seq<string>)
    requires Distinct(all)
    ensures Ends(all)
  {
    DistinctSize(all);
    SubsetSize(Elements(all), Elements(all) + {""});
  }

  lemma SameProviders(a: seq<string>, b: seq<string>)
    requires multiset(a) == multiset(b)
    ensures |a| == |b| && Elements(a) == Elements(b)
  {
    SameMembers(a, b);
  }

  /** While fewer names are done than the list is long, the next one is new. */
  lemma EmptyNameLeft(all: seq<string>, done: set<string>)
    requires Ends(all) && |done| < |all| && Elements(all) <= done
    ensures "" !in done
  {
    if "" in done {
      SubsetSize(Elements(all) + {""}, done);
    }
  }

  lemma {:induction false} SizeOfElements<T>(s: seq<T>)
    ensures |Elements(s)| <= |s|
  {
    if s == [] {
    } else {
      var n := |s| - 1;
      SizeOfElements(s[..n]);
      assert Elements(s) == Elements(s[..n]) + {s[n]};
    }
  }

  /** The names done are providers, and the empty one only once all of them are done. */
  ghost predicate DoneInOrder(all: seq<string>, done: set<string>) {
    done <= Elements(all) + {""} && ("" in done && "" !in Elements(all) ==> Elements(all) <= done)
  }

  lemma DoneOneMore(env: Env, all: seq<string>, done: set<string>, at: nat, index: string)
    requires DoneInOrder(all, done) && Greedy(env, Elements(all), done, at, index)
    ensures DoneInOrder(all, done + {index}) && |done + {index}| == |done| + 1
  {
  }

  /** When as many names are done as the list is long, all providers are among them. */
  lemma AllDone(all: seq<string>, done: set<string>)
    requires DoneInOrder(all, done) && |all| <= |done|
    ensures Elements(all) <= done
  {
    if !(Elements(all) <= done) {
      SizeOfElements(all);
      SubsetSize(done, Elements(all));
    }
  }

  // ----- The loop of a lap -----

  /** What the loop of a lap has done so far. */
  ghost predicate InLap(env: Env, urls: Urls, all: seq<string>, tested: seq<string>, start: nat, picks: seq<Pick>, done: set<string>) {
    LapOk(env, urls, Elements(all), tested, start, picks) && GoesOn(env, urls, picks) && done == Done(picks) && DoneInOrder(all, done)
  }

  lemma GoesOnMore(env: Env, urls: Urls, start: nat, picks: seq<Pick>, p: Pick, more: seq<Pick>)
    requires MayGoOn(env, urls, start, picks) && p.at == TimeAfter(start, picks) && more == picks + [p]
    ensures GoesOn(env, urls, more)
  {
    forall i | 0 <= i < |more| && LooksBefore(urls, more, i) ensures !env.done(more[i].at) {
      if i < |picks| {
        assert LooksBefore(urls, picks, i);
      }
    }
  }

  lemma StillGoing(env: Env, urls: Urls, start: nat, picks: seq<Pick>, p: Pick, now: nat)
    requires GoesOn(env, urls, picks) && !LapWon(picks) && picks != [] && picks[|picks| - 1] == p
    requires now == TimeAfter(start, picks) && (p.index in urls ==> !env.done(now))
    ensures MayGoOn(env, urls, start, picks)
  {
  }

  lemma OnePickMore(env: Env, urls: Urls, all: seq<string>, tested: seq<string>, start: nat, picks: seq<Pick>, done: set<string>,
                    p: Pick, more: seq<Pick>)
    requires InLap(env, urls, all, tested, start, picks, done) && MayGoOn(env, urls, start, picks) && more == picks + [p]
    requires PickOk(env, urls, Elements(all), done, TestedAfter(tested, picks), TimeAfter(start, picks), p)
    ensures InLap(env, urls, all, tested, start, more, done + {p.index}) && |done + {p.index}| == |done| + 1
    ensures TestedAfter(tested, more) == MarkAll(TestedAfter(tested, picks), p.index, p.probes)
    ensures TimeAfter(start, more) == TimeAfter(start, picks) + 1 + |p.probes| && (LapWon(more) <==> HasWon(p.probes))
  {
    LapGrows(env, urls, Elements(all), tested, start, picks, p);
    GoesOnMore(env, urls, start, picks, p, more);
    DoneOneMore(env, all, done, p.at, p.index);
  }
}

/** The load balancer's code: every method does what `Laps` says. */
module LoadBalancer {
  import opened Basics
  import opened Sorting
  import opened Laps
  import opened LapProperties

  /** Sorts in place by falling key; nothing is promised about the order of equal keys. */
  method SortSlice(a: array<string>, key: string -> int)
    modifies a
    ensures multiset(a[..]) == multiset(old(a[..]))
    ensures forall i, j | 0 <= i < j < a.Length :: key(a[i]) >= key(a[j])
  {
    var sorted := Sort(a[..], (x, y) => key(x) >= key(y));
    forall i | 0 <= i < a.Length {
      a[i] := sorted[i];
    }
    assert a[..] == sorted;
  }

  lemma SortedInfos(urls: map<string, string>, infos: seq<(string, int)>, sorted: seq<(string, int)>, order: seq<string>)
    requires forall i | 0 <= i < |infos| :: infos[i].0 in urls && infos[i].1 == Line(urls[infos[i].0])
    requires forall i, j | 0 <= i < j < |infos| :: infos[i].0 != infos[j].0
    requires forall k | k in urls :: (k, Line(urls[k])) in infos
    requires multiset(sorted) == multiset(infos) && |order| == |sorted|
    requires forall i, j | 0 <= i < j < |sorted| :: sorted[i].1 <= sorted[j].1
    requires forall i | 0 <= i < |order| :: order[i] == sorted[i].0
    ensures LineOrder(urls, order)
  {
    forall i | 0 <= i < |sorted| ensures sorted[i].0 in urls && sorted[i].1 == Line(urls[sorted[i].0]) {
      assert sorted[i] in multiset(sorted);
      assert sorted[i] in infos;
    }
    forall i, j | 0 <= i < j < |sorted| ensures sorted[i].0 != sorted[j].0 {
      if sorted[i].0 == sorted[j].0 {
        assert sorted[i] == sorted[j];
        DistinctCounts(infos, sorted[i]);
        RepeatCounts(sorted, i, j);
      }
    }
    forall k | k in urls ensures k in order {
      assert (k, Line(urls[k])) in multiset(sorted);
      var i :| 0 <= i < |sorted| && sorted[i] == (k, Line(urls[k]));
      assert order[i] == k;
    }
  }

  /** The sub-indexes of a provider's URLs by playlist line. */
  method SortStreamSubUrls(urls: map<string, string>) returns (order: seq<string>)
    ensures LineOrder(urls, order)
  {
    var infos: seq<(string, int)> := [];
    var rest := urls.Keys;
    while rest != {}
      invariant rest <= urls.Keys
      invariant forall i | 0 <= i < |infos| ::
        infos[i].0 in urls && infos[i].0 !in rest && infos[i].1 == Line(urls[infos[i].0])
      invariant forall i, j | 0 <= i < j < |infos| :: infos[i].0 != infos[j].0
      invariant forall k | k in urls :: k in rest || (k, Line(urls[k])) in infos
      decreases |rest|
    {
      var key :| key in rest;
      infos := infos + [(key, Line(urls[key]))];
      rest := rest - {key};
    }
    var sorted := Sort(infos, (x: (string, int), y: (string, int)) => x.1 <= y.1);
    order := seq(|sorted|, i requires 0 <= i < |sorted| => sorted[i].0);
    SortedInfos(urls, infos, sorted, order);
  }

  class LoadBalancerInstance {
    const env: Env
    const maxRetries: int
    var now: nat
    var testedIndexes: map<string, seq<string>>

    constructor (env: Env, maxRetries: int)
      ensures this.env == env && this.maxRetries == maxRetries && now == 0 && testedIndexes == map[]
    {
      this.env, this.maxRetries, now, testedIndexes := env, maxRetries, 0, map[];
    }

    function TestedOf(streamId: string): seq<string>
      reads this
    {
      if streamId in testedIndexes then testedIndexes[streamId] else []
    }

    method MarkTested(streamId: string, id: string)
      modifies this`testedIndexes
      ensures TestedOf(streamId) == old(TestedOf(streamId)) + [id]
      ensures forall s | s != streamId :: TestedOf(s) == old(TestedOf(s))
    {
      testedIndexes := testedIndexes[streamId := TestedOf(streamId) + [id]];
    }

    method ClearTested(streamId: string)
      modifies this`testedIndexes
      ensures TestedOf(streamId) == []
      ensures forall s | s != streamId :: TestedOf(s) == old(TestedOf(s))
    {
      testedIndexes := testedIndexes - {streamId};
    }

    /** One URL: skip it if it was tested or its provider is full, otherwise request it. */
    method TryUrl(streamId: string, index: string, sub: string, url: string) returns (p: Probe)
      modifies this`now, this`testedIndexes
      ensures p == Probe(sub, old(now), Judge(env, old(TestedOf(streamId)), index, sub, url, old(now)))
      ensures now == old(now) + 1 && TestedOf(streamId) == Mark(old(TestedOf(streamId)), index, p)
      ensures forall s | s != streamId :: TestedOf(s) == old(TestedOf(s))
    {
      var at := now;
      now := now + 1;
      if Id(index, sub) in TestedOf(streamId) {
        return Probe(sub, at, AlreadyTested);
      }
      if env.slots(at, index) <= 0 {
        return Probe(sub, at, AtLimit);
      }
      match env.reply(at, url) {
        case Status(code) =>
          if code == STATUS_OK {
            return Probe(sub, at, Usable);
          }
        case _ =>
      }
      MarkTested(streamId, Id(index, sub));
      return Probe(sub, at, Unusable);
    }

    /** Tries a provider's URLs by line, skipping tested ones and those over the provider's limit. */
    method TryStreamUrls(streamId: string, index: string, urls: map<string, string>)
        returns (won: Option<Choice>, order: seq<string>, probes: seq<Probe>)
      modifies this`now, this`testedIndexes
      ensures LineOrder(urls, order)
      ensures ScanOk(env, old(TestedOf(streamId)), old(now), index, urls, order, probes)
      ensures TestedOf(streamId) == MarkAll(old(TestedOf(streamId)), index, probes)
      ensures forall s | s != streamId :: TestedOf(s) == old(TestedOf(s))
      ensures now == old(now) + |probes|
      ensures won.Some? <==> HasWon(probes)
      ensures won.Some? ==> won.value == Choice(index, order[|probes| - 1], UrlOf(urls[order[|probes| - 1]]))
      ensures won.None? ==> |probes| == |order|
    {
      order := SortStreamSubUrls(urls);
      probes, won := [], None;
      ghost var start, tested := now, TestedOf(streamId);
      while |probes| < |order|
        invariant |probes| <= |order| && now == start + |probes|
        invariant ScanOk(env, tested, start, index, urls, order, probes) && !HasWon(probes)
        invariant TestedOf(streamId) == MarkAll(tested, index, probes)
        invariant forall s | s != streamId :: TestedOf(s) == old(TestedOf(s))
        decreases |order| - |probes|
      {
        var sub := order[|probes|];
        var p := TryUrl(streamId, index, sub, UrlOf(urls[sub]));
        var more := probes + [p];
        ScanExtends(env, tested, start, index, urls, order, probes, p, more);
        probes := more;
        if p.verdict == Usable {
          won := Some(Choice(index, sub, UrlOf(urls[sub])));
          return;
        }
      }
    }

    /** The provider not yet picked that has the most free slots now, or the empty name if there is none. */
    method PickIndex(indexes: array<string>, done: set<string>, ghost all: seq<string>) returns (index: string)
      requires multiset(indexes[..]) == multiset(all) && Ends(all) && |done| < |all|
      modifies indexes
      ensures multiset(indexes[..]) == multiset(all)
      ensures Greedy(env, Elements(all), done, now, index)
    {
      var t := now;
      SortSlice(indexes, (q: string) => env.slots(t, q));
      SameMembers(indexes[..], all);
      index := "";
      for i := 0 to indexes.Length
        invariant forall j | 0 <= j < i :: indexes[j] in done
        invariant index == ""
      {
        if indexes[i] !in done {
          index := indexes[i];
          assert index in indexes[..];
          return;
        }
      }
      assert forall q | q in all :: q in indexes[..];
      EmptyNameLeft(all, done);
    }

    /** A picked provider's turn; one without URLs for the stream is passed over. */
    method TryProvider(streamId: string, index: string, at: nat, urls: Urls) returns (won: Option<Choice>, p: Pick)
      modifies this`now, this`testedIndexes
      ensures p.index == index && p.at == at && TurnOk(env, urls, old(TestedOf(streamId)), old(now), p)
      ensures TestedOf(streamId) == MarkAll(old(TestedOf(streamId)), index, p.probes)
      ensures forall s | s != streamId :: TestedOf(s) == old(TestedOf(s))
      ensures now == old(now) + |p.probes|
      ensures won.Some? <==> HasWon(p.probes)
      ensures won.Some? ==> Selects(urls, [p], won.value)
    {
      if index !in urls {
        return None, Pick(index, at, [], []);
      }
      var order, probes;
      won, order, probes := TryStreamUrls(streamId, index, urls[index]);
      p := Pick(index, at, order, probes);
      if won.Some? {
        WonSelects(env, old(TestedOf(streamId)), old(now), urls, p);
      }
    }

    /** Picks the next provider and tries its URLs. */
    method TakeTurn(streamId: string, indexes: array<string>, urls: Urls, done: set<string>, ghost all: seq<string>)
        returns (won: Option<Choice>, p: Pick)
      requires multiset(indexes[..]) == multiset(all) && Ends(all) && |done| < |all|
      modifies this`now, this`testedIndexes, indexes
      ensures multiset(indexes[..]) == multiset(all)
      ensures PickOk(env, urls, Elements(all), done, old(TestedOf(streamId)), old(now), p)
      ensures TestedOf(streamId) == MarkAll(old(TestedOf(streamId)), p.index, p.probes)
      ensures forall s | s != streamId :: TestedOf(s) == old(TestedOf(s))
      ensures now == old(now) + 1 + |p.probes|
      ensures won.Some? <==> HasWon(p.probes)
      ensures won.Some? ==> Selects(urls, [p], won.value)
    {
      var at := now;
      ghost var tested := TestedOf(streamId);
      var index := PickIndex(indexes, done, all);
      now := now + 1;
      assert TestedOf(streamId) == tested;
      won, p := TryProvider(streamId, index, at, urls);
    }

    /**
      The loop of a lap. Before every pick the providers are sorted again by free slots, in place, and the
      first one not yet picked is next.
     */
    method PickAll(streamId: string, indexes: array<string>, urls: Urls, ghost all: seq<string>)
        returns (result: Outcome, picks: seq<Pick>)
      requires Ends(all) && all == indexes[..] && indexes.Length > 0 && !env.done(now)
      modifies this`now, this`testedIndexes, indexes
      ensures multiset(indexes[..]) == multiset(all)
      ensures InLap(env, urls, all, old(TestedOf(streamId)), old(now), picks, Done(picks)) && picks != []
      ensures TestedOf(streamId) == TestedAfter(old(TestedOf(streamId)), picks) && now == TimeAfter(old(now), picks)
      ensures forall s | s != streamId :: TestedOf(s) == old(TestedOf(s))
      ensures result != NoIndexes && (result.Selected? <==> LapWon(picks))
      ensures result.Selected? ==> Selects(urls, picks, result.choice)
      ensures result == NoStreams ==> Elements(all) <= Done(picks)
      ensures result == Cancelled <==> LapStopped(env, urls, Elements(all), old(now), picks)
    {
      picks := [];
      ghost var start, tested := now, TestedOf(streamId);
      var done: set<string> := {};
      while |done| < indexes.Length
        invariant multiset(indexes[..]) == multiset(all) && |done| <= indexes.Length
        invariant InLap(env, urls, all, tested, start, picks, done) && MayGoOn(env, urls, start, picks)
        invariant TestedOf(streamId) == TestedAfter(tested, picks) && now == TimeAfter(start, picks)
        invariant forall s | s != streamId :: TestedOf(s) == old(TestedOf(s))
        decreases indexes.Length - |done|
      {
        var won, p := TakeTurn(streamId, indexes, urls, done, all);
        var more := picks + [p];
        OnePickMore(env, urls, all, tested, start, picks, done, p, more);
        picks, done := more, done + {p.index};
        if won.Some? {
          return Selected(won.value), picks;
        }
        if p.index in urls && env.done(now) {
          return Cancelled, picks;
        }
        StillGoing(env, urls, start, picks, p, now);
      }
      AllDone(all, done);
      result := NoStreams;
    }

    /** One lap, unless there is no provider or the context is done. */
    method TryAllStreams(streamId: string, indexes: array<string>, urls: Urls)
        returns (result: Outcome, picks: seq<Pick>)
      requires Ends(indexes[..])
      modifies this`now, this`testedIndexes, indexes
      ensures multiset(indexes[..]) == multiset(old(indexes[..]))
      ensures LapOk(env, urls, Elements(old(indexes[..])), old(TestedOf(streamId)), old(now), picks)
      ensures TestedOf(streamId) == TestedAfter(old(TestedOf(streamId)), picks) && now == TimeAfter(old(now), picks)
      ensures forall s | s != streamId :: TestedOf(s) == old(TestedOf(s))
      ensures result.Selected? <==> LapWon(picks)
      ensures result.Selected? ==> Selects(urls, picks, result.choice)
      ensures result == NoIndexes <==> indexes.Length == 0
      ensures result == NoStreams ==> Elements(old(indexes[..])) <= Done(picks)
      ensures GoesOn(env, urls, picks) && (picks == [] <==> indexes.Length == 0 || env.done(old(now)))
      ensures result == Cancelled <==> LapStopped(env, urls, Elements(old(indexes[..])), old(now), picks)
    {
      if indexes.Length == 0 {
        return NoIndexes, [];
      }
      assert indexes[0] in Elements(indexes[..]);
      if env.done(now) {
        return Cancelled, [];
      }
      result, picks := PickAll(streamId, indexes, urls, indexes[..]);
    }

    /** One more lap after those that were not won. */
    method NextLap(streamId: string, indexes: array<string>, urls: Urls, before: seq<Lap>,
                   ghost all: seq<string>, ghost first: seq<string>, ghost begin: nat) returns (outcome: Outcome, laps: seq<Lap>)
      requires Ends(all) && multiset(indexes[..]) == multiset(all)
      requires LapsRun(env, urls, Elements(all), first, begin, before) && MayFollow(env, before) && now == NextStart(begin, before)
      requires TestedOf(streamId) == if before == [] then first else []
      modifies this`now, this`testedIndexes, indexes
      ensures multiset(indexes[..]) == multiset(all)
      ensures LapsRun(env, urls, Elements(all), first, begin, laps) && |laps| == |before| + 1
      ensures now == EndOf(laps[|laps| - 1])
      ensures TestedOf(streamId) == TestedAfter(laps[|laps| - 1].tested, laps[|laps| - 1].picks)
      ensures forall s | s != streamId :: TestedOf(s) == old(TestedOf(s))
      ensures outcome.Selected? <==> LapWon(laps[|laps| - 1].picks)
      ensures outcome.Selected? ==> Selects(urls, laps[|laps| - 1].picks, outcome.choice)
      ensures outcome == Cancelled <==> LapStopped(env, urls, Elements(all), laps[|laps| - 1].start, laps[|laps| - 1].picks)
    {
      var start, tested := now, TestedOf(streamId);
      SameProviders(indexes[..], all);
      var picks;
      outcome, picks := TryAllStreams(streamId, indexes, urls);
      var lap := Lap(start, tested, picks);
      LapsGrow(env, urls, Elements(all), first, before, lap);
      FollowsOneMore(env, urls, Elements(all), begin, before, lap);
      laps := before + [lap];
    }

    /** One more lap and the pause after it, with the result of the whole if that is the end. */
    method LapAndPause(streamId: string, indexes: array<string>, urls: Urls, before: seq<Lap>, ghost all: seq<string>,
                       ghost first: seq<string>, ghost begin: nat) returns (end: Option<BalanceResult>, laps: seq<Lap>)
      requires Ends(all) && multiset(indexes[..]) == multiset(all)
      requires LapsRun(env, urls, Elements(all), first, begin, before) && MayFollow(env, before) && now == NextStart(begin, before)
      requires TestedOf(streamId) == if before == [] then first else []
      modifies this`now, this`testedIndexes, indexes
      ensures multiset(indexes[..]) == multiset(all)
      ensures LapsRun(env, urls, Elements(all), first, begin, laps) && |laps| == |before| + 1
      ensures forall s | s != streamId :: TestedOf(s) == old(TestedOf(s))
      ensures TestedOf(streamId) == TestedAfterLaps(env, urls, Elements(all), first, laps)
      ensures if LapWon(laps[|laps| - 1].picks) then
                end.Some? && end.value.Found? && Selects(urls, laps[|laps| - 1].picks, end.value.choice)
              else if LapsStopped(env, laps) then end == Some(Interrupted)
              else end == None && MayFollow(env, laps) && now == NextStart(begin, laps) && TestedOf(streamId) == []
    {
      var outcome;
      outcome, laps := NextLap(streamId, indexes, urls, before, all, first, begin);
      if outcome.Selected? {
        return Some(Found(outcome.choice)), laps;
      }
      if outcome == Cancelled {
        return Some(Interrupted), laps;
      }
      ClearTested(streamId);
      if env.done(now) {
        return Some(Interrupted), laps;
      }
      now := now + 1;
      end := None;
    }

    method RunLaps(streamId: string, indexes: array<string>, urls: Urls, rounds: nat, ghost all: seq<string>)
        returns (result: BalanceResult, laps: seq<Lap>)
      requires Ends(all) && all == indexes[..]
      modifies this`now, this`testedIndexes, indexes
      ensures multiset(indexes[..]) == multiset(all)
      ensures LapsRun(env, urls, Elements(all), old(TestedOf(streamId)), old(now), laps)
      ensures TestedOf(streamId) == TestedAfterLaps(env, urls, Elements(all), old(TestedOf(streamId)), laps)
      ensures forall s | s != streamId :: TestedOf(s) == old(TestedOf(s))
      ensures maxRetries != 0 ==> |laps| <= Max(maxRetries, 0)
      ensures ResultFits(env, urls, maxRetries, rounds, laps, result)
    {
      laps := [];
      if forall p | p in urls :: urls[p] == map[] {
        return NoUrls, laps;
      }
      ghost var first, begin := TestedOf(streamId), now;
      var lap := 0;
      while (lap < maxRetries || maxRetries == 0) && lap < rounds
        invariant lap == |laps| && (maxRetries != 0 ==> lap <= Max(maxRetries, 0)) && lap <= rounds
        invariant multiset(indexes[..]) == multiset(all)
        invariant LapsRun(env, urls, Elements(all), first, begin, laps) && MayFollow(env, laps)
        invariant TestedOf(streamId) == (if laps == [] then first else []) && now == NextStart(begin, laps)
        invariant forall s | s != streamId :: TestedOf(s) == old(TestedOf(s))
        decreases rounds - lap
      {
        var end;
        end, laps := LapAndPause(streamId, indexes, urls, laps, all, first, begin);
        lap := lap + 1;
        if end.Some? {
          return end.value, laps;
        }
      }
      NothingLeft(env, urls, Elements(all), first, laps);
      result := if lap < maxRetries || maxRetries == 0 then StillTrying else Exhausted;
    }

    /**
      Laps over all providers until one is won, the context is done, or the retries are used up; with
      zero retries configured there is no limit, and the run is watched for `rounds` laps at most.
     */
    method Balance(streamId: string, indexes: array<string>, urls: Urls, rounds: nat)
        returns (result: BalanceResult, laps: seq<Lap>)
      requires Ends(indexes[..])
      modifies this`now, this`testedIndexes, indexes
      ensures multiset(indexes[..]) == multiset(old(indexes[..]))
      ensures LapsRun(env, urls, Elements(old(indexes[..])), old(TestedOf(streamId)), old(now), laps)
      ensures TestedOf(streamId) == TestedAfterLaps(env, urls, Elements(old(indexes[..])), old(TestedOf(streamId)), laps)
      ensures forall s | s != streamId :: TestedOf(s) == old(TestedOf(s))
      ensures maxRetries != 0 ==> |laps| <= Max(maxRetries, 0)
      ensures maxRetries != 0 ==> TotalRequests(laps) <= Max(maxRetries, 0) * |AllUrls(urls)|
      ensures TotalRequests(laps) <= |laps| * |AllUrls(urls)|
      ensures result == NoUrls <==> forall p | p in urls :: urls[p] == map[]
      ensures result == NoUrls ==> laps == []
      ensures result.Found? <==> laps != [] && LapWon(laps[|laps| - 1].picks)
      ensures result.Found? ==> Selects(urls, laps[|laps| - 1].picks, result.choice)
      ensures result == Interrupted <==> LapsStopped(env, laps)
      ensures result == Exhausted ==> maxRetries != 0 && |laps| == Max(maxRetries, 0)
      ensures result == StillTrying ==> |laps| == rounds && (maxRetries == 0 || rounds < maxRetries)
    {
      ghost var all, first := indexes[..], TestedOf(streamId);
      result, laps := RunLaps(streamId, indexes, urls, rounds, all);
      RequestsAreBounded(env, urls, Elements(all), first, laps, |laps|);
      if maxRetries != 0 {
        RequestsAreBounded(env, urls, Elements(all), first, laps, Max(maxRetries, 0));
      }
    }
  }
}

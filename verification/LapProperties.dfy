/** What a lap of the load balancer guarantees, for every environment. */
module LapProperties {
  import opened Basics
  import opened Sorting
  import opened Laps

  // ----- Greedy order -----

  lemma {:induction false} PrefixOk(env: Env, urls: Urls, providers: set<string>, tested: seq<string>, start: nat,
                                    picks: seq<Pick>, k: nat)
    requires LapOk(env, urls, providers, tested, start, picks) && k < |picks|
    ensures LapOk(env, urls, providers, tested, start, picks[..k]) && !LapWon(picks[..k])
    ensures PickOk(env, urls, providers, Done(picks[..k]), TestedAfter(tested, picks[..k]), TimeAfter(start, picks[..k]), picks[k])
  {
    var before := picks[..|picks| - 1];
    if k < |before| {
      PrefixOk(env, urls, providers, tested, start, before, k);
      assert before[..k] == picks[..k];
    }
  }

  /**
    Each lap picks a name at most once, and each pick has the most free slots, at its moment, of the
    providers not yet picked; the empty name is picked once all providers have been.
   */
  lemma LapIsGreedy(env: Env, urls: Urls, providers: set<string>, tested: seq<string>, start: nat, picks: seq<Pick>, i: nat)
    requires LapOk(env, urls, providers, tested, start, picks) && i < |picks|
    ensures picks[i].index in providers || (picks[i].index == "" && providers <= Done(picks[..i]))
    ensures forall j | 0 <= j < i :: picks[j].index != picks[i].index
    ensures forall q | q in providers && env.slots(picks[i].at, q) > env.slots(picks[i].at, picks[i].index) ::
      exists j | 0 <= j < i :: picks[j].index == q
  {
    PrefixOk(env, urls, providers, tested, start, picks, i);
    assert Greedy(env, providers, Done(picks[..i]), picks[i].at, picks[i].index);
    forall j | 0 <= j < i ensures picks[j].index != picks[i].index {
      assert picks[..i][j].index in Done(picks[..i]);
    }
    forall q | q in providers && env.slots(picks[i].at, q) > env.slots(picks[i].at, picks[i].index)
      ensures exists j | 0 <= j < i :: picks[j].index == q
    {
      assert q in Done(picks[..i]);
      var j :| 0 <= j < i && picks[..i][j].index == q;
      assert picks[j].index == q;
    }
  }

  // ----- Completeness -----

  lemma {:induction false} MarkAllKeeps(tested: seq<string>, index: string, probes: seq<Probe>)
    ensures tested <= MarkAll(tested, index, probes)
    ensures forall j | 0 <= j < |probes| ::
      MarkAll(tested, index, probes[..j]) <= MarkAll(tested, index, probes)
      && (probes[j].verdict == Unusable ==> Id(index, probes[j].sub) in MarkAll(tested, index, probes))
  {
    if probes == [] {
    } else {
      var before := probes[..|probes| - 1];
      MarkAllKeeps(tested, index, before);
      forall j | 0 <= j < |probes|
        ensures MarkAll(tested, index, probes[..j]) <= MarkAll(tested, index, probes)
        ensures probes[j].verdict == Unusable ==> Id(index, probes[j].sub) in MarkAll(tested, index, probes)
      {
        if j < |before| {
          assert before[..j] == probes[..j] && before[j] == probes[j];
        }
      }
    }
  }

  lemma {:induction false} TestedAfterKeeps(tested: seq<string>, picks: seq<Pick>, k: nat)
    requires k <= |picks|
    ensures TestedAfter(tested, picks[..k]) <= TestedAfter(tested, picks)
  {
    if k == |picks| {
      assert picks[..k] == picks;
    } else {
      var before, last := picks[..|picks| - 1], picks[|picks| - 1];
      TestedAfterKeeps(tested, before, k);
      assert before[..k] == picks[..k];
      MarkAllKeeps(TestedAfter(tested, before), last.index, last.probes);
    }
  }

  /** The list of tested URLs at the moment of a probe. */
  function TestedAt(tested: seq<string>, picks: seq<Pick>, i: nat, j: nat): seq<string>
    requires i < |picks| && j <= |picks[i].probes|
  {
    MarkAll(TestedAfter(tested, picks[..i]), picks[i].index, picks[i].probes[..j])
  }

  /** What the verdict of a probe says about the world when the URL's turn came, and about the list of tested URLs. */
  ghost predicate Reason(env: Env, urls: Urls, tested: seq<string>, picks: seq<Pick>, i: nat, j: nat)
    requires i < |picks| && j < |picks[i].probes|
  {
    var q, p := picks[i].index, picks[i].probes[j];
    && q in urls && p.sub in urls[q]
    && var known, slots, reply := TestedAt(tested, picks, i, j), env.slots(p.at, q), env.reply(p.at, UrlOf(urls[q][p.sub]));
       match p.verdict
       case AlreadyTested => Id(q, p.sub) in known
       case AtLimit => Id(q, p.sub) !in known && slots <= 0
       case Unusable => Id(q, p.sub) !in known && 0 < slots && reply != Status(200)
                        && Id(q, p.sub) in TestedAfter(tested, picks)
       case Usable => Id(q, p.sub) !in known && 0 < slots && reply == Status(200)
  }

  lemma TurnMarksLast(tested: seq<string>, picks: seq<Pick>, i: nat, j: nat)
    requires i < |picks| && j < |picks[i].probes| && picks[i].probes[j].verdict == Unusable
    ensures Id(picks[i].index, picks[i].probes[j].sub) in TestedAfter(tested, picks)
  {
    var p, known := picks[i], TestedAfter(tested, picks[..i]);
    MarkAllKeeps(known, p.index, p.probes);
    TestedAfterKeeps(tested, picks, i + 1);
    assert picks[..i + 1][..i] == picks[..i];
    assert TestedAfter(tested, picks[..i + 1]) == MarkAll(known, p.index, p.probes);
  }

  lemma VerdictHasReason(env: Env, urls: Urls, tested: seq<string>, start: nat, picks: seq<Pick>, i: nat, j: nat)
    requires i < |picks| && j < |picks[i].probes| <= |picks[i].order| && picks[i].index in urls
    requires var p := picks[i];
      ProbeOk(env, TestedAfter(tested, picks[..i]), start, p.index, urls[p.index], p.order, p.probes, j)
    requires picks[i].probes[j].verdict == Unusable ==> Id(picks[i].index, picks[i].probes[j].sub) in TestedAfter(tested, picks)
    ensures Reason(env, urls, tested, picks, i, j)
  {
  }

  lemma ProbeHasReason(env: Env, urls: Urls, providers: set<string>, tested: seq<string>, start: nat,
                       picks: seq<Pick>, i: nat, j: nat)
    requires LapOk(env, urls, providers, tested, start, picks) && i < |picks| && j < |picks[i].probes|
    ensures Reason(env, urls, tested, picks, i, j)
    ensures j < |picks[i].order| && picks[i].probes[j].sub == picks[i].order[j]
    ensures j < |picks[i].probes| - 1 ==> picks[i].probes[j].verdict != Usable
  {
    PrefixOk(env, urls, providers, tested, start, picks, i);
    if picks[i].probes[j].verdict == Unusable {
      TurnMarksLast(tested, picks, i, j);
    }
    VerdictHasReason(env, urls, tested, TimeAfter(start, picks[..i]) + 1, picks, i, j);
  }

  /** A URL's turn came and it was not usable, for a reason. */
  ghost predicate RuledOut(env: Env, urls: Urls, tested: seq<string>, picks: seq<Pick>, q: string, sub: string) {
    exists i, j | 0 <= i < |picks| && 0 <= j < |picks[i].probes| ::
      && picks[i].index == q && picks[i].probes[j].sub == sub && picks[i].probes[j].verdict != Usable
      && Reason(env, urls, tested, picks, i, j)
  }

  lemma RulesOut(env: Env, urls: Urls, tested: seq<string>, picks: seq<Pick>, i: nat, j: nat)
    requires i < |picks| && j < |picks[i].probes| && picks[i].probes[j].verdict != Usable
    requires Reason(env, urls, tested, picks, i, j)
    ensures RuledOut(env, urls, tested, picks, picks[i].index, picks[i].probes[j].sub)
  {
  }

  /** All URLs of a provider whose turn did not win were ruled out. */
  lemma TurnRulesOut(env: Env, urls: Urls, providers: set<string>, tested: seq<string>, start: nat,
                     picks: seq<Pick>, i: nat, sub: string)
    requires LapOk(env, urls, providers, tested, start, picks) && i < |picks| && !HasWon(picks[i].probes)
    requires picks[i].index in urls && sub in urls[picks[i].index]
    ensures RuledOut(env, urls, tested, picks, picks[i].index, sub)
  {
    PrefixOk(env, urls, providers, tested, start, picks, i);
    var p := picks[i];
    var j :| 0 <= j < |p.order| && p.order[j] == sub;
    ProbeHasReason(env, urls, providers, tested, start, picks, i, j);
    RulesOut(env, urls, tested, picks, i, j);
  }

  /**
    A lap that ends without a choice has ruled out every URL the stream has under any provider: it was
    already tested, or it was requested, failed and is now marked tested, or its provider was full.
   */
  lemma LapIsComplete(env: Env, urls: Urls, providers: set<string>, tested: seq<string>, start: nat,
                      picks: seq<Pick>, q: string, sub: string)
    requires LapOk(env, urls, providers, tested, start, picks) && !LapWon(picks) && providers <= Done(picks)
    requires q in providers && q in urls && sub in urls[q]
    ensures RuledOut(env, urls, tested, picks, q, sub)
  {
    var i :| 0 <= i < |picks| && picks[i].index == q;
    if i < |picks| - 1 {
      PrefixOk(env, urls, providers, tested, start, picks, i + 1);
      assert picks[..i + 1][i] == picks[i];
    }
    TurnRulesOut(env, urls, providers, tested, start, picks, i, sub);
  }

  /** The URLs of one provider that were requested. */
  function Asked(index: string, probes: seq<Probe>): seq<(string, string)> {
    if probes == [] then []
    else
      var p := probes[|probes| - 1];
      Asked(index, probes[..|probes| - 1]) + if p.verdict == Usable || p.verdict == Unusable then [(index, p.sub)] else []
  }

  lemma {:induction false} MarkedMeansFailed(tested: seq<string>, index: string, probes: seq<Probe>, id: string)
    requires id in MarkAll(tested, index, probes) && id !in tested
    ensures exists j | 0 <= j < |probes| :: probes[j].verdict == Unusable && Id(index, probes[j].sub) == id
    ensures exists r :: r in Asked(index, probes) && Id(r.0, r.1) == id
  {
    var before, last := probes[..|probes| - 1], probes[|probes| - 1];
    if id in MarkAll(tested, index, before) {
      MarkedMeansFailed(tested, index, before, id);
      var r :| r in Asked(index, before) && Id(r.0, r.1) == id;
      assert r in Asked(index, probes);
      var j :| 0 <= j < |before| && before[j].verdict == Unusable && Id(index, before[j].sub) == id;
      assert probes[j] == before[j];
    } else {
      assert (index, last.sub) in Asked(index, probes);
      assert probes[|probes| - 1].verdict == Unusable;
    }
  }

  /** All requests of a lap, in order. */
  function Requests(picks: seq<Pick>): seq<(string, string)> {
    if picks == [] then []
    else
      var p := picks[|picks| - 1];
      Requests(picks[..|picks| - 1]) + Asked(p.index, p.probes)
  }

  /** A URL of this name was requested in the lap, and the request failed. */
  ghost predicate Failed(picks: seq<Pick>, id: string) {
    exists i, j | 0 <= i < |picks| && 0 <= j < |picks[i].probes| ::
      picks[i].probes[j].verdict == Unusable && Id(picks[i].index, picks[i].probes[j].sub) == id
  }

  /** What counts as tested was so before the lap or was requested during it under the same name, and failed. */
  lemma {:induction false} TestedMeansAsked(tested: seq<string>, picks: seq<Pick>, id: string)
    requires id in TestedAfter(tested, picks)
    ensures id in tested || Failed(picks, id)
    ensures id in tested || exists r :: r in Requests(picks) && Id(r.0, r.1) == id
  {
    if picks == [] {
    } else {
      var before, last := picks[..|picks| - 1], picks[|picks| - 1];
      if id in TestedAfter(tested, before) {
        TestedMeansAsked(tested, before, id);
        if id !in tested {
          var r :| r in Requests(before) && Id(r.0, r.1) == id;
          assert r in Requests(picks);
          var i, j :| 0 <= i < |before| && 0 <= j < |before[i].probes|
            && before[i].probes[j].verdict == Unusable && Id(before[i].index, before[i].probes[j].sub) == id;
          assert picks[i] == before[i];
        }
      } else {
        MarkedMeansFailed(TestedAfter(tested, before), last.index, last.probes, id);
        var r :| r in Asked(last.index, last.probes) && Id(r.0, r.1) == id;
        assert r in Requests(picks);
        var j :| 0 <= j < |last.probes| && last.probes[j].verdict == Unusable && Id(last.index, last.probes[j].sub) == id;
        assert picks[|picks| - 1].probes[j].verdict == Unusable;
      }
    }
  }

  /** Names of URLs are told apart by provider and sub-index when sub-indexes have no bar in them. */
  lemma IdIsInjective(q: string, sub: string, q': string, sub': string)
    requires '|' !in sub && '|' !in sub' && Id(q, sub) == Id(q', sub')
    ensures q == q' && sub == sub'
  {
    var id := Id(q, sub);
    assert id[|q|] == '|' && id[|q'|] == '|';
    assert forall k | |q| < k < |id| :: id[k] == sub[k - |q| - 1];
    assert forall k | |q'| < k < |id| :: id[k] == sub'[k - |q'| - 1];
    assert |q| == |q'|;
    assert q == id[..|q|] && sub == id[|q| + 1..];
  }

  // ----- The first eligible URL wins -----

  /** A URL of an earlier line comes earlier in the order. */
  lemma PlaceBefore(urls: map<string, string>, order: seq<string>, s: string, j: nat) returns (k: nat)
    requires LineOrder(urls, order) && s in urls && j < |order| && Line(urls[s]) < Line(urls[order[j]])
    ensures k < j && order[k] == s
  {
    k :| 0 <= k < |order| && order[k] == s;
  }

  lemma EarlierLinesRuledOut(env: Env, urls: Urls, providers: set<string>, tested: seq<string>, start: nat,
                             picks: seq<Pick>, c: Choice)
    requires LapOk(env, urls, providers, tested, start, picks) && Selects(urls, picks, c)
    ensures forall s | s in urls[c.index] && Line(urls[c.index][s]) < Line(urls[c.index][c.sub]) ::
      RuledOut(env, urls, tested, picks, c.index, s)
  {
    var i, p := |picks| - 1, picks[|picks| - 1];
    var j := |p.probes| - 1;
    PrefixOk(env, urls, providers, tested, start, picks, i);
    ProbeHasReason(env, urls, providers, tested, start, picks, i, j);
    forall s | s in urls[c.index] && Line(urls[c.index][s]) < Line(urls[c.index][c.sub])
      ensures RuledOut(env, urls, tested, picks, c.index, s)
    {
      var k := PlaceBefore(urls[c.index], p.order, s, j);
      ProbeHasReason(env, urls, providers, tested, start, picks, i, k);
      RulesOut(env, urls, tested, picks, i, k);
    }
  }

  /**
    A chosen URL belongs to the stream, was untested and under its limit when its turn came, and
    answered 200. Every URL of the providers picked before, and every URL of its own provider on an
    earlier line, had been ruled out, and no provider left had more free slots when this one was picked.
   */
  lemma FirstEligibleWins(env: Env, urls: Urls, providers: set<string>, tested: seq<string>, start: nat,
                          picks: seq<Pick>, c: Choice)
    requires LapOk(env, urls, providers, tested, start, picks) && Selects(urls, picks, c)
    ensures c.index in urls && c.sub in urls[c.index] && c.url == UrlOf(urls[c.index][c.sub])
    ensures c.index in providers || (c.index == "" && providers <= Done(picks[..|picks| - 1]))
    ensures var i := |picks| - 1;
      var j := |picks[i].probes| - 1;
      var at := picks[i].probes[j].at;
      && Id(c.index, c.sub) !in TestedAt(tested, picks, i, j)
      && 0 < env.slots(at, c.index) && env.reply(at, c.url) == Status(200)
      && (forall q | q in providers && q !in Done(picks[..i]) :: env.slots(picks[i].at, q) <= env.slots(picks[i].at, c.index))
    ensures forall q, s | q in Done(picks[..|picks| - 1]) && q in urls && s in urls[q] :: RuledOut(env, urls, tested, picks, q, s)
    ensures forall s | s in urls[c.index] && Line(urls[c.index][s]) < Line(urls[c.index][c.sub]) ::
      RuledOut(env, urls, tested, picks, c.index, s)
  {
    var i := |picks| - 1;
    var p := picks[i];
    var j := |p.probes| - 1;
    PrefixOk(env, urls, providers, tested, start, picks, i);
    ProbeHasReason(env, urls, providers, tested, start, picks, i, j);
    forall q, s | q in Done(picks[..i]) && q in urls && s in urls[q] ensures RuledOut(env, urls, tested, picks, q, s) {
      var k :| 0 <= k < i && picks[..i][k].index == q;
      PrefixOk(env, urls, providers, tested, start, picks, k + 1);
      assert picks[..k + 1][k] == picks[k];
      TurnRulesOut(env, urls, providers, tested, start, picks, k, s);
    }
    EarlierLinesRuledOut(env, urls, providers, tested, start, picks, c);
  }

  /** When the retries are used up, every lap has ruled out every URL the stream has under any provider. */
  lemma EveryLapRulesOut(env: Env, urls: Urls, providers: set<string>, tested: seq<string>, start: nat,
                         laps: seq<Lap>, i: nat, q: string, sub: string)
    requires LapsRun(env, urls, providers, tested, start, laps) && MayFollow(env, laps) && i < |laps|
    requires q in providers && q in urls && sub in urls[q]
    ensures RuledOut(env, urls, laps[i].tested, laps[i].picks, q, sub)
  {
    var lap := laps[i];
    assert LapFits(env, urls, providers, tested, laps, i) && LapFollows(env, urls, providers, start, laps, i);
    assert !env.done(EndOf(lap)) && !LapWon(lap.picks);
    LapIsComplete(env, urls, providers, lap.tested, lap.start, lap.picks, q, sub);
  }

  // ----- How often URLs are requested -----

  function AllUrls(urls: Urls): set<(string, string)> {
    set q, s | q in urls && s in urls[q] :: (q, s)
  }

  lemma {:induction false} AskedAreDistinct(index: string, order: seq<string>, probes: seq<Probe>)
    requires |probes| <= |order| && Distinct(order) && forall j | 0 <= j < |probes| :: probes[j].sub == order[j]
    ensures Distinct(Asked(index, probes))
    ensures forall r | r in Asked(index, probes) :: r.0 == index && exists j :: 0 <= j < |probes| && order[j] == r.1
  {
    if probes == [] {
    } else {
      var n := |probes| - 1;
      AskedAreDistinct(index, order, probes[..n]);
      assert (index, order[n]) !in Asked(index, probes[..n]);
      forall r | r in Asked(index, probes) ensures r.0 == index && exists j :: 0 <= j < |probes| && order[j] == r.1 {
        if r !in Asked(index, probes[..n]) {
          assert order[n] == r.1;
        }
      }
    }
  }

  lemma DistinctConcat<T>(a: seq<T>, b: seq<T>)
    requires Distinct(a) && Distinct(b) && forall x | x in a :: x !in b
    ensures Distinct(a + b)
  {
    forall i, j | 0 <= i < j < |a + b| ensures (a + b)[i] != (a + b)[j] {
      assert i < |a| <= j ==> a[i] in a && b[j - |a|] in b;
    }
  }

  lemma TurnAsksOnce(env: Env, urls: Urls, providers: set<string>, done: set<string>, tested: seq<string>, now: nat, p: Pick)
    requires PickOk(env, urls, providers, done, tested, now, p)
    ensures Distinct(Asked(p.index, p.probes))
    ensures forall r | r in Asked(p.index, p.probes) :: r in AllUrls(urls) && r.0 == p.index
  {
    if p.index in urls {
      forall j | 0 <= j < |p.probes| ensures p.probes[j].sub == p.order[j] {
        assert ProbeOk(env, tested, now + 1, p.index, urls[p.index], p.order, p.probes, j);
      }
      AskedAreDistinct(p.index, p.order, p.probes);
    }
  }

  lemma {:induction false} RequestsAreDistinct(env: Env, urls: Urls, providers: set<string>, tested: seq<string>, start: nat, picks: seq<Pick>)
    requires LapOk(env, urls, providers, tested, start, picks)
    ensures Distinct(Requests(picks)) && forall r | r in Requests(picks) :: r in AllUrls(urls) && r.0 in Done(picks)
  {
    if picks == [] {
    } else {
      var before, p := picks[..|picks| - 1], picks[|picks| - 1];
      RequestsAreDistinct(env, urls, providers, tested, start, before);
      DoneGrows(before, p);
      assert picks == before + [p];
      TurnAsksOnce(env, urls, providers, Done(before), TestedAfter(tested, before), TimeAfter(start, before), p);
      DistinctConcat(Requests(before), Asked(p.index, p.probes));
    }
  }

  /** No URL is requested twice in a lap. */
  lemma NoUrlTwice(env: Env, urls: Urls, providers: set<string>, tested: seq<string>, start: nat, picks: seq<Pick>)
    requires LapOk(env, urls, providers, tested, start, picks)
    ensures forall i, j | 0 <= i < j < |Requests(picks)| :: Requests(picks)[i] != Requests(picks)[j]
    ensures |Requests(picks)| <= |AllUrls(urls)|
  {
    RequestsAreDistinct(env, urls, providers, tested, start, picks);
    DistinctSize(Requests(picks));
    SubsetSize(Elements(Requests(picks)), AllUrls(urls));
  }

  function TotalRequests(laps: seq<Lap>): nat {
    if laps == [] then 0 else TotalRequests(laps[..|laps| - 1]) + |Requests(laps[|laps| - 1].picks)|
  }

  lemma LapBounded(env: Env, urls: Urls, providers: set<string>, tested: seq<string>, laps: seq<Lap>, i: nat)
    requires i < |laps| && LapFits(env, urls, providers, tested, laps, i)
    ensures |Requests(laps[i].picks)| <= |AllUrls(urls)|
  {
    var lap := laps[i];
    NoUrlTwice(env, urls, providers, lap.tested, lap.start, lap.picks);
  }

  lemma LapsPrefix(env: Env, urls: Urls, providers: set<string>, tested: seq<string>, laps: seq<Lap>, before: seq<Lap>)
    requires LapsOk(env, urls, providers, tested, laps) && laps != [] && before == laps[..|laps| - 1]
    ensures LapsOk(env, urls, providers, tested, before)
  {
    forall i | 0 <= i < |before| ensures LapFits(env, urls, providers, tested, before, i) {
      assert LapFits(env, urls, providers, tested, laps, i);
    }
  }

  lemma OneLapMore(total: nat, more: nat, n: nat, all: nat)
    requires 0 < n && total <= (n - 1) * all && more <= all
    ensures total + more <= n * all
  {
    assert n * all == (n - 1) * all + all;
  }

  /** So all laps together request at most as many URLs as there are, times the number of laps. */
  lemma {:induction false} RequestsAreBounded(env: Env, urls: Urls, providers: set<string>, tested: seq<string>, laps: seq<Lap>, n: nat)
    requires LapsOk(env, urls, providers, tested, laps) && |laps| <= n
    ensures TotalRequests(laps) <= n * |AllUrls(urls)|
    decreases |laps|
  {
    if laps == [] {
    } else {
      var before, last := laps[..|laps| - 1], |laps| - 1;
      assert LapFits(env, urls, providers, tested, laps, last);
      LapBounded(env, urls, providers, tested, laps, last);
      LapsPrefix(env, urls, providers, tested, laps, before);
      RequestsAreBounded(env, urls, providers, tested, before, n - 1);
      OneLapMore(TotalRequests(before), |Requests(laps[last].picks)|, n, |AllUrls(urls)|);
    }
  }

  // ----- Repeated providers -----

  /** The next provider by the loop's own rule, which yields the empty name when all are done. */
  function NextIndex(order: seq<string>, done: set<string>): string {
    if order == [] then "" else if order[0] !in done then order[0] else NextIndex(order[1..], done)
  }

  lemma {:induction false} NextIndexIs(order: seq<string>, done: set<string>)
    ensures var x := NextIndex(order, done);
      if Elements(order) <= done then x == "" else x in order && x !in done
  {
    if order == [] {
    } else {
      assert Elements(order) == {order[0]} + Elements(order[1..]);
      NextIndexIs(order[1..], done);
    }
  }

  function DoneAfter(orders: seq<seq<string>>): set<string> {
    if orders == [] then {}
    else
      var done := DoneAfter(orders[..|orders| - 1]);
      done + {NextIndex(orders[|orders| - 1], done)}
  }

  lemma {:induction false} DoneAfterSize(providers: set<string>, orders: seq<seq<string>>)
    requires forall k | 0 <= k < |orders| :: Elements(orders[k]) == providers
    ensures DoneAfter(orders) <= providers + {""}
    ensures |DoneAfter(orders)| == Min(|orders|, |providers + {""}|)
  {
    if orders == [] {
    } else {
      var before, order := orders[..|orders| - 1], orders[|orders| - 1];
      DoneAfterSize(providers, before);
      var done := DoneAfter(before);
      NextIndexIs(order, done);
      assert Elements(order) == providers;
      SubsetSize(done, providers + {""});
      var x := NextIndex(order, done);
      if x in done {
        assert done == providers + {""} && done + {x} == done;
      } else {
        assert done != providers + {""} && |done + {x}| == |done| + 1;
      }
    }
  }

  /**
    A lap ends over exactly the lists that `Ends` names: however often the loop goes round, its guard
    stays true over any other.
   */
  lemma LapEndsIff(all: seq<string>, orders: seq<seq<string>>)
    requires |orders| >= |all| && forall k | 0 <= k < |orders| :: multiset(orders[k]) == multiset(all)
    ensures |DoneAfter(orders)| >= |all| <==> Ends(all)
  {
    forall k | 0 <= k < |orders| ensures Elements(orders[k]) == Elements(all) {
      SameMembers(orders[k], all);
    }
    DoneAfterSize(Elements(all), orders);
  }

  /** A provider listed three times: the lap never ends. */
  lemma ThreeTimesNeverEnds(orders: seq<seq<string>>)
    requires |orders| >= 3 && forall k | 0 <= k < |orders| :: orders[k] == ["a", "a", "a"]
    ensures |DoneAfter(orders)| < 3
  {
    var all := ["a", "a", "a"];
    assert Elements(all) == {"a"};
    assert |{"a"} + {""}| <= 2 by {
      assert {"a"} + {""} == {"a", ""};
    }
    LapEndsIff(all, orders);
  }
}

/** One tick of the poll loop: increment the poll counter, then fetch every
    Twitter adapter and after them every YouTube adapter, in order, logging
    and skipping each failure. The remote answers each Fetch receives are
    parameters, one per adapter. */
module Poll {
  import opened Wrappers
  import opened Metrics
  import T = TwitterPlatform
  import Y = YouTubePlatform

  /** The poll counter: prefix + "counter", without labels. */
  function CounterId(metricPrefix: string): (id: MetricId)
    ensures id.labels == map[]
  {
    MetricId(metricPrefix + "counter", map[])
  }

  /** What start-up hands to the poll loop: the metric prefix, the interval and
      the adapters, in the order they were constructed. */
  datatype Service = Service(metricPrefix: string, intervalSeconds: int, twitters: seq<T.Twitter>, youtubes: seq<Y.YouTube>)
  {
    /** The poll counter of this service. */
    function Counter(): MetricId
    {
      CounterId(metricPrefix)
    }

    /** The registry right after start-up: the counter and every adapter's
        gauges, all at 0. */
    function InitialSeries(): map<MetricId, nat>
    {
      map[Counter() := 0] + Zeros(TwitterGauges(twitters)) + Zeros(YouTubeGauges(youtubes))
    }

    /** The counter and every adapter's gauges are registered, and no two
        adapters of a platform share an account (so none share a gauge). */
    predicate Valid(series: map<MetricId, nat>)
    {
      && Counter() in series
      && (forall i :: 0 <= i < |twitters| ==> twitters[i].Gauges() <= series.Keys)
      && (forall i :: 0 <= i < |youtubes| ==> youtubes[i].Gauges() <= series.Keys)
      && (forall i, j :: 0 <= i < j < |twitters| ==> twitters[i].screenName != twitters[j].screenName)
      && (forall i, j :: 0 <= i < j < |youtubes| ==> youtubes[i].channelId != youtubes[j].channelId)
    }
  }

  /** Every gauge of the Twitter adapters `ts`. */
  function TwitterGauges(ts: seq<T.Twitter>): set<MetricId>
  {
    if ts == [] then {} else TwitterGauges(ts[..|ts| - 1]) + ts[|ts| - 1].Gauges()
  }

  /** Every gauge of the YouTube adapters `ys`. */
  function YouTubeGauges(ys: seq<Y.YouTube>): set<MetricId>
  {
    if ys == [] then {} else YouTubeGauges(ys[..|ys| - 1]) + ys[|ys| - 1].Gauges()
  }

  lemma {:induction false} TwitterGaugesMembers(ts: seq<T.Twitter>)
    ensures forall g :: g in TwitterGauges(ts) <==> exists i :: 0 <= i < |ts| && g in ts[i].Gauges()
  {
    if ts != [] {
      var n := |ts| - 1;
      TwitterGaugesMembers(ts[..n]);
      assert forall i :: 0 <= i < n ==> ts[..n][i] == ts[i];
    }
  }

  lemma {:induction false} YouTubeGaugesMembers(ys: seq<Y.YouTube>)
    ensures forall g :: g in YouTubeGauges(ys) <==> exists i :: 0 <= i < |ys| && g in ys[i].Gauges()
  {
    if ys != [] {
      var n := |ys| - 1;
      YouTubeGaugesMembers(ys[..n]);
      assert forall i :: 0 <= i < n ==> ys[..n][i] == ys[i];
    }
  }

  /** A Twitter gauge, a YouTube gauge and the counter never coincide: their label sets differ. */
  lemma PlatformsDisjoint(t: T.Twitter, y: Y.YouTube, counter: MetricId)
    requires counter.labels == map[]
    ensures t.Gauges() !! y.Gauges()
    ensures counter !in t.Gauges() && counter !in y.Gauges()
  {
    T.NotOwned(t, counter);
    Y.NotOwned(y, counter);
    T.FourGauges(t);
    forall g | g in t.Gauges()
      ensures g !in y.Gauges()
    {
      Y.NotOwned(y, g);
    }
  }

  // ---------------------------------------------------------------------------
  // The effect of one tick on the registry

  /** The registry after fetching the Twitter adapters `ts` in order. */
  function TwitterRound(series: map<MetricId, nat>, ts: seq<T.Twitter>, shows: seq<T.UserShow>): (r: map<MetricId, nat>)
    requires |shows| == |ts|
    requires forall i :: 0 <= i < |ts| ==> ts[i].Gauges() <= series.Keys
    ensures r.Keys == series.Keys
  {
    if ts == [] then series
    else
      var n := |ts| - 1;
      T.Apply(TwitterRound(series, ts[..n], shows[..n]), ts[n], shows[n])
  }

  /** The registry after fetching the YouTube adapters `ys` in order. */
  function YouTubeRound(series: map<MetricId, nat>, ys: seq<Y.YouTube>, listings: seq<Y.Listing>): (r: map<MetricId, nat>)
    requires |listings| == |ys|
    requires forall i :: 0 <= i < |ys| ==> ys[i].Gauges() <= series.Keys
    ensures r.Keys == series.Keys
  {
    if ys == [] then series
    else
      var n := |ys| - 1;
      Y.Apply(YouTubeRound(series, ys[..n], listings[..n]), ys[n], listings[n])
  }

  /** The registry after one tick. */
  function Cycle(series: map<MetricId, nat>, svc: Service, shows: seq<T.UserShow>, listings: seq<Y.Listing>): (r: map<MetricId, nat>)
    requires svc.Valid(series) && |shows| == |svc.twitters| && |listings| == |svc.youtubes|
    ensures r.Keys == series.Keys
  {
    var counted := series[svc.Counter() := series[svc.Counter()] + 1];
    YouTubeRound(TwitterRound(counted, svc.twitters, shows), svc.youtubes, listings)
  }

  /** The lines one tick logs: one per failed Fetch, in the order of the fetches. */
  function TwitterLog(ts: seq<T.Twitter>, shows: seq<T.UserShow>): (log: seq<string>)
    requires |shows| == |ts|
    ensures |log| <= |ts|
  {
    if ts == [] then []
    else
      var n := |ts| - 1;
      TwitterLog(ts[..n], shows[..n])
        + match T.FetchError(ts[n], shows[n]) case Some(e) => ["Error with Twitter: " + e] case None => []
  }

  function YouTubeLog(ys: seq<Y.YouTube>, listings: seq<Y.Listing>): (log: seq<string>)
    requires |listings| == |ys|
    ensures |log| <= |ys|
  {
    if ys == [] then []
    else
      var n := |ys| - 1;
      YouTubeLog(ys[..n], listings[..n])
        + match Y.FetchError(ys[n], listings[n]) case Some(e) => ["Error with YouTube: " + e] case None => []
  }

  function CycleLog(svc: Service, shows: seq<T.UserShow>, listings: seq<Y.Listing>): (log: seq<string>)
    requires |shows| == |svc.twitters| && |listings| == |svc.youtubes|
    ensures |log| <= |svc.twitters| + |svc.youtubes|
  {
    TwitterLog(svc.twitters, shows) + YouTubeLog(svc.youtubes, listings)
  }

  // ---------------------------------------------------------------------------
  // What a round does and does not touch

  /** A round writes nothing outside the gauges of its adapters. */
  lemma {:induction false} TwitterRoundFrame(series: map<MetricId, nat>, ts: seq<T.Twitter>, shows: seq<T.UserShow>, id: MetricId)
    requires |shows| == |ts|
    requires forall i :: 0 <= i < |ts| ==> ts[i].Gauges() <= series.Keys
    requires id in series && forall i :: 0 <= i < |ts| ==> id !in ts[i].Gauges()
    ensures TwitterRound(series, ts, shows)[id] == series[id]
  {
    if ts != [] {
      var n := |ts| - 1;
      assert forall i :: 0 <= i < n ==> ts[..n][i] == ts[i];
      TwitterRoundFrame(series, ts[..n], shows[..n], id);
      T.ApplyFrame(TwitterRound(series, ts[..n], shows[..n]), ts[n], shows[n], id);
    }
  }

  lemma {:induction false} YouTubeRoundFrame(series: map<MetricId, nat>, ys: seq<Y.YouTube>, listings: seq<Y.Listing>, id: MetricId)
    requires |listings| == |ys|
    requires forall i :: 0 <= i < |ys| ==> ys[i].Gauges() <= series.Keys
    requires id in series && forall i :: 0 <= i < |ys| ==> id !in ys[i].Gauges()
    ensures YouTubeRound(series, ys, listings)[id] == series[id]
  {
    if ys != [] {
      var n := |ys| - 1;
      assert forall i :: 0 <= i < n ==> ys[..n][i] == ys[i];
      YouTubeRoundFrame(series, ys[..n], listings[..n], id);
      Y.ApplyFrame(YouTubeRound(series, ys[..n], listings[..n]), ys[n], listings[n], id);
    }
  }

  /** After a round, each adapter's gauges hold its fresh counts if its Fetch
      succeeded, and what they held before the round if it failed. */
  lemma {:induction false} TwitterRoundOutcome(series: map<MetricId, nat>, ts: seq<T.Twitter>, shows: seq<T.UserShow>, i: nat)
    requires |shows| == |ts| && i < |ts|
    requires forall k :: 0 <= k < |ts| ==> ts[k].Gauges() <= series.Keys
    requires forall j, k :: 0 <= j < k < |ts| ==> ts[j].screenName != ts[k].screenName
    ensures T.Readback(TwitterRound(series, ts, shows), ts[i])
         == if shows[i].Success? then shows[i].value else T.Readback(series, ts[i])
  {
    var n := |ts| - 1;
    var before := TwitterRound(series, ts[..n], shows[..n]);
    assert forall k :: 0 <= k < n ==> ts[..n][k] == ts[k];
    if i == n {
      T.ApplyReadback(before, ts[n], shows[n]);
      forall g | g in ts[n].Gauges()
        ensures before[g] == series[g]
      {
        forall k | 0 <= k < n
          ensures g !in ts[..n][k].Gauges()
        {
          T.GaugesDisjoint(ts[k], ts[n]);
        }
        TwitterRoundFrame(series, ts[..n], shows[..n], g);
      }
    } else {
      TwitterRoundOutcome(series, ts[..n], shows[..n], i);
      T.GaugesDisjoint(ts[i], ts[n]);
      forall g | g in ts[i].Gauges()
        ensures T.Apply(before, ts[n], shows[n])[g] == before[g]
      {
        T.ApplyFrame(before, ts[n], shows[n], g);
      }
    }
  }

  lemma {:induction false} YouTubeRoundOutcome(series: map<MetricId, nat>, ys: seq<Y.YouTube>, listings: seq<Y.Listing>, i: nat)
    requires |listings| == |ys| && i < |ys|
    requires forall k :: 0 <= k < |ys| ==> ys[k].Gauges() <= series.Keys
    requires forall j, k :: 0 <= j < k < |ys| ==> ys[j].channelId != ys[k].channelId
    ensures Y.Readback(YouTubeRound(series, ys, listings), ys[i])
         == match Y.FindChannel(listings[i], ys[i].channelId)
            case Some(ch) => ch.statistics
            case None => Y.Readback(series, ys[i])
  {
    var n := |ys| - 1;
    var before := YouTubeRound(series, ys[..n], listings[..n]);
    assert forall k :: 0 <= k < n ==> ys[..n][k] == ys[k];
    if i == n {
      Y.ApplyReadback(before, ys[n], listings[n]);
      forall g | g in ys[n].Gauges()
        ensures before[g] == series[g]
      {
        forall k | 0 <= k < n
          ensures g !in ys[..n][k].Gauges()
        {
          Y.GaugesDisjoint(ys[k], ys[n]);
        }
        YouTubeRoundFrame(series, ys[..n], listings[..n], g);
      }
    } else {
      YouTubeRoundOutcome(series, ys[..n], listings[..n], i);
      Y.GaugesDisjoint(ys[i], ys[n]);
      forall g | g in ys[i].Gauges()
        ensures Y.Apply(before, ys[n], listings[n])[g] == before[g]
      {
        Y.ApplyFrame(before, ys[n], listings[n], g);
      }
    }
  }

  // ---------------------------------------------------------------------------
  // What a tick does

  /** The poll counter is none of the adapters' gauges. */
  lemma CounterOwnedByNone(svc: Service)
    ensures forall i :: 0 <= i < |svc.twitters| ==> svc.Counter() !in svc.twitters[i].Gauges()
    ensures forall i :: 0 <= i < |svc.youtubes| ==> svc.Counter() !in svc.youtubes[i].Gauges()
  {
    var c := svc.Counter();
    forall i | 0 <= i < |svc.twitters|
      ensures c !in svc.twitters[i].Gauges()
    {
      T.NotOwned(svc.twitters[i], c);
    }
    forall i | 0 <= i < |svc.youtubes|
      ensures c !in svc.youtubes[i].Gauges()
    {
      Y.NotOwned(svc.youtubes[i], c);
    }
  }

  /** A tick increments the poll counter by exactly one, whatever the fetches
      answer and however many adapters there are. */
  lemma CycleCountsOnce(series: map<MetricId, nat>, svc: Service, shows: seq<T.UserShow>, listings: seq<Y.Listing>)
    requires svc.Valid(series) && |shows| == |svc.twitters| && |listings| == |svc.youtubes|
    ensures Cycle(series, svc, shows, listings)[svc.Counter()] == series[svc.Counter()] + 1
  {
    var c := svc.Counter();
    var counted := series[c := series[c] + 1];
    CounterOwnedByNone(svc);
    assert counted.Keys == series.Keys;
    TwitterRoundFrame(counted, svc.twitters, shows, c);
    var afterTwitter := TwitterRound(counted, svc.twitters, shows);
    assert afterTwitter.Keys == series.Keys;
    YouTubeRoundFrame(afterTwitter, svc.youtubes, listings, c);
    assert Cycle(series, svc, shows, listings) == YouTubeRound(afterTwitter, svc.youtubes, listings);
  }

  /** After a tick, a Twitter adapter whose Fetch succeeded holds the fresh
      counts, and one whose Fetch failed keeps its previous values; the other
      adapters' outcomes do not matter. */
  lemma CycleTwitterOutcome(series: map<MetricId, nat>, svc: Service, shows: seq<T.UserShow>, listings: seq<Y.Listing>, i: nat)
    requires svc.Valid(series) && |shows| == |svc.twitters| && |listings| == |svc.youtubes|
    requires i < |svc.twitters|
    ensures T.Readback(Cycle(series, svc, shows, listings), svc.twitters[i])
         == if shows[i].Success? then shows[i].value else T.Readback(series, svc.twitters[i])
  {
    var c := svc.Counter();
    var counted := series[c := series[c] + 1];
    var t := svc.twitters[i];
    T.NotOwned(t, c);
    TwitterRoundOutcome(counted, svc.twitters, shows, i);
    var afterTwitter := TwitterRound(counted, svc.twitters, shows);
    forall g | g in t.Gauges()
      ensures YouTubeRound(afterTwitter, svc.youtubes, listings)[g] == afterTwitter[g]
    {
      forall k | 0 <= k < |svc.youtubes|
        ensures g !in svc.youtubes[k].Gauges()
      {
        PlatformsDisjoint(t, svc.youtubes[k], c);
      }
      YouTubeRoundFrame(afterTwitter, svc.youtubes, listings, g);
    }
  }

  /** After a tick, a YouTube adapter whose channel was found holds its fresh
      statistics, and one whose Fetch failed keeps its previous values. */
  lemma CycleYouTubeOutcome(series: map<MetricId, nat>, svc: Service, shows: seq<T.UserShow>, listings: seq<Y.Listing>, i: nat)
    requires svc.Valid(series) && |shows| == |svc.twitters| && |listings| == |svc.youtubes|
    requires i < |svc.youtubes|
    ensures Y.Readback(Cycle(series, svc, shows, listings), svc.youtubes[i])
         == match Y.FindChannel(listings[i], svc.youtubes[i].channelId)
            case Some(ch) => ch.statistics
            case None => Y.Readback(series, svc.youtubes[i])
  {
    var c := svc.Counter();
    var counted := series[c := series[c] + 1];
    var y := svc.youtubes[i];
    Y.NotOwned(y, c);
    var afterTwitter := TwitterRound(counted, svc.twitters, shows);
    forall g | g in y.Gauges()
      ensures afterTwitter[g] == series[g]
    {
      forall k | 0 <= k < |svc.twitters|
        ensures g !in svc.twitters[k].Gauges()
      {
        PlatformsDisjoint(svc.twitters[k], y, c);
      }
      TwitterRoundFrame(counted, svc.twitters, shows, g);
    }
    YouTubeRoundOutcome(afterTwitter, svc.youtubes, listings, i);
  }

  /** A tick changes no series other than the counter and the adapters' gauges,
      and registers or removes none. */
  lemma CycleFrame(series: map<MetricId, nat>, svc: Service, shows: seq<T.UserShow>, listings: seq<Y.Listing>, id: MetricId)
    requires svc.Valid(series) && |shows| == |svc.twitters| && |listings| == |svc.youtubes|
    requires id in series && id != svc.Counter()
    requires forall i :: 0 <= i < |svc.twitters| ==> id !in svc.twitters[i].Gauges()
    requires forall i :: 0 <= i < |svc.youtubes| ==> id !in svc.youtubes[i].Gauges()
    ensures Cycle(series, svc, shows, listings).Keys == series.Keys
    ensures Cycle(series, svc, shows, listings)[id] == series[id]
  {
    var c := svc.Counter();
    var counted := series[c := series[c] + 1];
    TwitterRoundFrame(counted, svc.twitters, shows, id);
    YouTubeRoundFrame(TwitterRound(counted, svc.twitters, shows), svc.youtubes, listings, id);
  }

  /** A round logs nothing exactly when every Fetch in it succeeds. */
  lemma {:induction false} TwitterLogEmpty(ts: seq<T.Twitter>, shows: seq<T.UserShow>)
    requires |shows| == |ts|
    ensures TwitterLog(ts, shows) == [] <==> forall i :: 0 <= i < |ts| ==> shows[i].Success?
  {
    if ts != [] {
      var n := |ts| - 1;
      TwitterLogEmpty(ts[..n], shows[..n]);
      assert forall i :: 0 <= i < n ==> shows[..n][i] == shows[i];
    }
  }

  lemma {:induction false} YouTubeLogEmpty(ys: seq<Y.YouTube>, listings: seq<Y.Listing>)
    requires |listings| == |ys|
    ensures YouTubeLog(ys, listings) == [] <==>
            forall i :: 0 <= i < |ys| ==> Y.FindChannel(listings[i], ys[i].channelId).Some?
  {
    if ys != [] {
      var n := |ys| - 1;
      YouTubeLogEmpty(ys[..n], listings[..n]);
      assert forall i :: 0 <= i < n ==> listings[..n][i] == listings[i] && ys[..n][i] == ys[i];
    }
  }

  // ---------------------------------------------------------------------------
  // The tick itself

  /** The Twitter loop of a tick: Fetch on every adapter in order, logging each error. */
  method FetchTwitters(reg: Registry, ts: seq<T.Twitter>, shows: seq<T.UserShow>) returns (log: seq<string>)
    requires |shows| == |ts|
    requires forall i :: 0 <= i < |ts| ==> ts[i].Gauges() <= reg.series.Keys
    modifies reg
    ensures reg.series == TwitterRound(old(reg.series), ts, shows)
    ensures log == TwitterLog(ts, shows)
  {
    log := [];
    for i := 0 to |ts|
      invariant reg.series == TwitterRound(old(reg.series), ts[..i], shows[..i])
      invariant reg.series.Keys == old(reg.series).Keys
      invariant log == TwitterLog(ts[..i], shows[..i])
    {
      assert ts[..i + 1][..i] == ts[..i] && shows[..i + 1][..i] == shows[..i];
      var err := T.Fetch(reg, ts[i], shows[i]);
      if err.Some? {
        log := log + ["Error with Twitter: " + err.value];
      }
    }
    assert ts[..|ts|] == ts && shows[..|shows|] == shows;
  }

  /** The YouTube loop of a tick: Fetch on every adapter in order, logging each error. */
  method FetchYouTubes(reg: Registry, ys: seq<Y.YouTube>, listings: seq<Y.Listing>) returns (log: seq<string>)
    requires |listings| == |ys|
    requires forall i :: 0 <= i < |ys| ==> ys[i].Gauges() <= reg.series.Keys
    modifies reg
    ensures reg.series == YouTubeRound(old(reg.series), ys, listings)
    ensures log == YouTubeLog(ys, listings)
  {
    log := [];
    for i := 0 to |ys|
      invariant reg.series == YouTubeRound(old(reg.series), ys[..i], listings[..i])
      invariant reg.series.Keys == old(reg.series).Keys
      invariant log == YouTubeLog(ys[..i], listings[..i])
    {
      assert ys[..i + 1][..i] == ys[..i] && listings[..i + 1][..i] == listings[..i];
      var err := Y.Fetch(reg, ys[i], listings[i]);
      if err.Some? {
        log := log + ["Error with YouTube: " + err.value];
      }
    }
    assert ys[..|ys|] == ys && listings[..|listings|] == listings;
  }

  /** Validity depends on the registered identities only, not on the values. */
  lemma ValidKeys(svc: Service, series: map<MetricId, nat>, series': map<MetricId, nat>)
    requires svc.Valid(series) && series'.Keys == series.Keys
    ensures svc.Valid(series')
  {
  }

  /** A tick, written out: the counter increment, then the Twitter round,
      then the YouTube round. */
  lemma CycleUnfold(series: map<MetricId, nat>, svc: Service, shows: seq<T.UserShow>, listings: seq<Y.Listing>)
    requires svc.Valid(series) && |shows| == |svc.twitters| && |listings| == |svc.youtubes|
    ensures Cycle(series, svc, shows, listings)
         == YouTubeRound(TwitterRound(series[svc.Counter() := series[svc.Counter()] + 1], svc.twitters, shows), svc.youtubes, listings)
  {
  }

  /** The counter increment, the Twitter round and the YouTube round, taken
      one after the other, make up a tick. */
  lemma CycleSteps(before: map<MetricId, nat>, counted: map<MetricId, nat>, mid: map<MetricId, nat>,
                   after: map<MetricId, nat>, svc: Service, shows: seq<T.UserShow>, listings: seq<Y.Listing>)
    requires svc.Valid(before) && |shows| == |svc.twitters| && |listings| == |svc.youtubes|
    requires counted == before[svc.Counter() := before[svc.Counter()] + 1]
    requires forall i :: 0 <= i < |svc.twitters| ==> svc.twitters[i].Gauges() <= counted.Keys
    requires mid == TwitterRound(counted, svc.twitters, shows)
    requires forall i :: 0 <= i < |svc.youtubes| ==> svc.youtubes[i].Gauges() <= mid.Keys
    requires after == YouTubeRound(mid, svc.youtubes, listings)
    ensures after == Cycle(before, svc, shows, listings)
    ensures svc.Valid(after)
  {
    CycleUnfold(before, svc, shows, listings);
    ValidKeys(svc, before, after);
  }

  /** One iteration of the poll loop: count the tick, then fetch every Twitter
      adapter and after them every YouTube adapter. Every Fetch error is logged
      and the tick goes on with the next adapter. */
  method PollCycle(reg: Registry, svc: Service, shows: seq<T.UserShow>, listings: seq<Y.Listing>)
    returns (log: seq<string>)
    requires svc.Valid(reg.series) && |shows| == |svc.twitters| && |listings| == |svc.youtubes|
    modifies reg
    ensures reg.series == Cycle(old(reg.series), svc, shows, listings)
    ensures log == CycleLog(svc, shows, listings)
    ensures svc.Valid(reg.series)
  {
    ghost var before := reg.series;
    reg.Inc(svc.Counter());
    ghost var counted := reg.series;
    assert counted.Keys == before.Keys;
    ValidKeys(svc, before, counted);
    var twitterLog := FetchTwitters(reg, svc.twitters, shows);
    ghost var mid := reg.series;
    ValidKeys(svc, counted, mid);
    var youtubeLog := FetchYouTubes(reg, svc.youtubes, listings);
    CycleSteps(before, counted, mid, reg.series, svc, shows, listings);
    log := twitterLog + youtubeLog;
  }
}

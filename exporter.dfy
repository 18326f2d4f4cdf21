/** Start-up of the exporter: read the SMUE_ settings from the environment,
    parse the poll interval, register the poll counter, and construct one
    adapter per account named in the two comma-separated lists. Every failure
    here ends the process before the first tick. The environment is a map, and
    the answers of the start-up probes are parameters, one per listed account. */
module Exporter {
  import opened Wrappers
  import opened Text
  import opened Metrics
  import T = TwitterPlatform
  import Y = YouTubePlatform
  import opened Poll

  const EnvPrefix: string := "SMUE_"

  /** getEnv: the value of SMUE_<key> whenever that variable is set, even to the
      empty string, and the fallback only when it is unset. */
  function GetEnv(env: map<string, string>, key: string, fallback: string): (value: string)
    ensures EnvPrefix + key in env ==> value == env[EnvPrefix + key]
    ensures EnvPrefix + key !in env ==> value == fallback
  {
    var fullKey := EnvPrefix + key;
    if fullKey in env then env[fullKey] else fallback
  }

  /** Everything main reads from the environment. */
  datatype Settings = Settings(
    httpPort: string,
    httpPath: string,
    metricPrefix: string,
    twitter: T.Credentials,
    youtube: Y.Credentials,
    intervalSeconds: string,
    twitterScreenNames: string,
    youtubeChannelIds: string)

  function ReadSettings(env: map<string, string>): (st: Settings)
    ensures EnvPrefix + "METRICS_PREFIX" !in env ==> st.metricPrefix == "social_media_user_"
    ensures EnvPrefix + "INTERVAL_SECONDS" !in env ==> st.intervalSeconds == "300"
    ensures EnvPrefix + "TWITTER_SCREEN_NAMES" !in env ==> st.twitterScreenNames == ""
    ensures EnvPrefix + "YOUTUBE_CHANNEL_IDS" !in env ==> st.youtubeChannelIds == ""
    ensures EnvPrefix + "TWITTER_SCREEN_NAMES" in env ==> st.twitterScreenNames == env[EnvPrefix + "TWITTER_SCREEN_NAMES"]
    ensures EnvPrefix + "YOUTUBE_CHANNEL_IDS" in env ==> st.youtubeChannelIds == env[EnvPrefix + "YOUTUBE_CHANNEL_IDS"]
  {
    Settings(
      GetEnv(env, "HTTP_PORT", "9100"),
      GetEnv(env, "HTTP_PATH", "metrics"),
      GetEnv(env, "METRICS_PREFIX", "social_media_user_"),
      T.Credentials(GetEnv(env, "TWITTER_CLIENT_ID", ""), GetEnv(env, "TWITTER_CLIENT_SECRET", ""),
                    GetEnv(env, "TWITTER_ACCESS_TOKEN", ""), GetEnv(env, "TWITTER_ACCESS_TOKEN_SECRET", "")),
      Y.Credentials(GetEnv(env, "YOUTUBE_CLIENT_ID", ""), GetEnv(env, "YOUTUBE_CLIENT_SECRET", ""),
                    GetEnv(env, "YOUTUBE_ACCESS_TOKEN", ""), GetEnv(env, "YOUTUBE_REFRESH_TOKEN", "")),
      GetEnv(env, "INTERVAL_SECONDS", "300"),
      GetEnv(env, "TWITTER_SCREEN_NAMES", ""),
      GetEnv(env, "YOUTUBE_CHANNEL_IDS", ""))
  }

  /** Why the process stopped before polling: os.Exit(1) on a bad interval, or
      Fatalf on the first adapter that could not be constructed. */
  datatype Fatal = BadInterval(text: string) | TwitterSetup(error: string) | YouTubeSetup(error: string)

  /** The outcome of NewTwitter for each listed screen name, in list order. */
  function TwitterConstructs(metricPrefix: string, names: seq<string>, c: T.Credentials, probes: seq<T.UserShow>)
    : seq<Result<T.Twitter, string>>
    requires |probes| == |names|
  {
    seq(|names|, i requires 0 <= i < |names| => T.Construct(metricPrefix, names[i], c, probes[i]))
  }

  /** The outcome of NewYouTube for each listed channel id, in list order. */
  function YouTubeConstructs(metricPrefix: string, ids: seq<string>, c: Y.Credentials, probes: seq<Y.Probe>)
    : seq<Result<Y.YouTube, string>>
    requires |probes| == |ids|
  {
    seq(|ids|, i requires 0 <= i < |ids| => Y.Construct(metricPrefix, ids[i], c, probes[i]))
  }

  /** One probe answer per listed account. */
  predicate ProbesFit(st: Settings, twitterProbes: seq<T.UserShow>, youtubeProbes: seq<Y.Probe>)
  {
    |twitterProbes| == |Entries(st.twitterScreenNames)| && |youtubeProbes| == |Entries(st.youtubeChannelIds)|
  }

  /** What start-up ends in: the first fatal error, in the order main meets
      them, or the service the poll loop runs. */
  function Launch(st: Settings, twitterProbes: seq<T.UserShow>, youtubeProbes: seq<Y.Probe>): (r: Result<Service, Fatal>)
    requires ProbesFit(st, twitterProbes, youtubeProbes)
    ensures Atoi(st.intervalSeconds).None? <==> r.Failure? && r.error.BadInterval?
    ensures r.Success? ==> r.value.metricPrefix == st.metricPrefix && Atoi(st.intervalSeconds) == Some(r.value.intervalSeconds)
  {
    match Atoi(st.intervalSeconds)
    case None => Failure(BadInterval(st.intervalSeconds))
    case Some(seconds) =>
      match Collect(TwitterConstructs(st.metricPrefix, Entries(st.twitterScreenNames), st.twitter, twitterProbes))
      case Failure(e) => Failure(TwitterSetup(e))
      case Success(twitters) =>
        match Collect(YouTubeConstructs(st.metricPrefix, Entries(st.youtubeChannelIds), st.youtube, youtubeProbes))
        case Failure(e) => Failure(YouTubeSetup(e))
        case Success(youtubes) => Success(Service(st.metricPrefix, seconds, twitters, youtubes))
  }

  // ---------------------------------------------------------------------------
  // Properties of start-up

  /** The interval setting is SMUE_INTERVAL_SECONDS as it is, even when empty,
      and "300" only when the variable is unset. */
  lemma IntervalSetting(env: map<string, string>)
    ensures "SMUE_INTERVAL_SECONDS" in env ==> ReadSettings(env).intervalSeconds == env["SMUE_INTERVAL_SECONDS"]
    ensures "SMUE_INTERVAL_SECONDS" !in env ==> ReadSettings(env).intervalSeconds == "300"
  {
    assert EnvPrefix + "INTERVAL_SECONDS" == "SMUE_INTERVAL_SECONDS";
  }

  /** A non-numeric interval ends the run before anything else happens. */
  lemma NonNumericIntervalIsFatal(st: Settings, twitterProbes: seq<T.UserShow>, youtubeProbes: seq<Y.Probe>)
    requires ProbesFit(st, twitterProbes, youtubeProbes)
    requires Atoi(st.intervalSeconds).None?
    ensures Launch(st, twitterProbes, youtubeProbes) == Failure(BadInterval(st.intervalSeconds))
  {
  }

  /** An interval variable that is set but empty is not replaced by the default:
      it fails to parse and ends the run; an unset one gives 300 seconds. */
  lemma IntervalFromEnvironment(env: map<string, string>, twitterProbes: seq<T.UserShow>, youtubeProbes: seq<Y.Probe>)
    requires ProbesFit(ReadSettings(env), twitterProbes, youtubeProbes)
    ensures "SMUE_INTERVAL_SECONDS" in env && env["SMUE_INTERVAL_SECONDS"] == "" ==>
              Launch(ReadSettings(env), twitterProbes, youtubeProbes) == Failure(BadInterval(""))
    ensures "SMUE_INTERVAL_SECONDS" !in env && Launch(ReadSettings(env), twitterProbes, youtubeProbes).Success? ==>
              Launch(ReadSettings(env), twitterProbes, youtubeProbes).value.intervalSeconds == 300
    ensures "SMUE_INTERVAL_SECONDS" !in env && Launch(ReadSettings(env), twitterProbes, youtubeProbes).Failure? ==>
              !Launch(ReadSettings(env), twitterProbes, youtubeProbes).error.BadInterval?
  {
    IntervalSetting(env);
    AtoiExamples();
  }

  /** When every screen name's construction succeeds, the adapters are those
      screen names under the common prefix, in order. */
  lemma TwitterCollected(metricPrefix: string, names: seq<string>, c: T.Credentials, probes: seq<T.UserShow>)
    requires |probes| == |names|
    requires Collect(TwitterConstructs(metricPrefix, names, c, probes)).Success?
    ensures var ts := Collect(TwitterConstructs(metricPrefix, names, c, probes)).value;
            |ts| == |names| && forall i :: 0 <= i < |names| ==> ts[i] == T.Twitter(metricPrefix, names[i])
  {
    var rs := TwitterConstructs(metricPrefix, names, c, probes);
    CollectSuccess(rs);
    forall i | 0 <= i < |names|
      ensures Collect(rs).value[i] == T.Twitter(metricPrefix, names[i])
    {
      assert rs[i] == T.Construct(metricPrefix, names[i], c, probes[i]);
    }
  }

  /** When every channel's construction succeeds, the adapters are those
      channel ids under the common prefix, in order, each named after the
      channel its probe found. */
  lemma YouTubeCollected(metricPrefix: string, ids: seq<string>, c: Y.Credentials, probes: seq<Y.Probe>)
    requires |probes| == |ids|
    requires Collect(YouTubeConstructs(metricPrefix, ids, c, probes)).Success?
    ensures var ys := Collect(YouTubeConstructs(metricPrefix, ids, c, probes)).value;
            && |ys| == |ids|
            && forall i :: 0 <= i < |ids| ==>
                 && ys[i].metricPrefix == metricPrefix && ys[i].channelId == ids[i]
                 && Y.FindChannel(probes[i].listing, ids[i]).Some?
                 && ys[i].channelName == Y.FindChannel(probes[i].listing, ids[i]).value.title
  {
    var rs := YouTubeConstructs(metricPrefix, ids, c, probes);
    CollectSuccess(rs);
    forall i | 0 <= i < |ids|
      ensures && Collect(rs).value[i].metricPrefix == metricPrefix && Collect(rs).value[i].channelId == ids[i]
              && Y.FindChannel(probes[i].listing, ids[i]).Some?
              && Collect(rs).value[i].channelName == Y.FindChannel(probes[i].listing, ids[i]).value.title
    {
      assert rs[i] == Y.Construct(metricPrefix, ids[i], c, probes[i]);
    }
  }

  /** On success there is one adapter per non-empty list entry, in list order:
      Twitter adapters for the screen names, YouTube adapters for the channel
      ids, each YouTube adapter named after the channel its probe found. */
  lemma LaunchAdapters(st: Settings, twitterProbes: seq<T.UserShow>, youtubeProbes: seq<Y.Probe>)
    requires ProbesFit(st, twitterProbes, youtubeProbes)
    requires Launch(st, twitterProbes, youtubeProbes).Success?
    ensures var svc := Launch(st, twitterProbes, youtubeProbes).value;
            var names := Entries(st.twitterScreenNames);
            var ids := Entries(st.youtubeChannelIds);
            && svc.metricPrefix == st.metricPrefix
            && Atoi(st.intervalSeconds) == Some(svc.intervalSeconds)
            && svc.twitters == Collect(TwitterConstructs(st.metricPrefix, names, st.twitter, twitterProbes)).value
            && svc.youtubes == Collect(YouTubeConstructs(st.metricPrefix, ids, st.youtube, youtubeProbes)).value
            && |svc.twitters| == |names|
            && (forall i :: 0 <= i < |names| ==> svc.twitters[i] == T.Twitter(st.metricPrefix, names[i]))
            && |svc.youtubes| == |ids|
            && (forall i :: 0 <= i < |ids| ==>
                  && svc.youtubes[i].metricPrefix == st.metricPrefix && svc.youtubes[i].channelId == ids[i]
                  && Y.FindChannel(youtubeProbes[i].listing, ids[i]).Some?
                  && svc.youtubes[i].channelName == Y.FindChannel(youtubeProbes[i].listing, ids[i]).value.title)
  {
    var names := Entries(st.twitterScreenNames);
    var ids := Entries(st.youtubeChannelIds);
    TwitterCollected(st.metricPrefix, names, st.twitter, twitterProbes);
    YouTubeCollected(st.metricPrefix, ids, st.youtube, youtubeProbes);
  }

  /** If any adapter cannot be constructed, start-up fails, so no tick ever runs. */
  lemma AnySetupErrorIsFatal(st: Settings, twitterProbes: seq<T.UserShow>, youtubeProbes: seq<Y.Probe>)
    requires ProbesFit(st, twitterProbes, youtubeProbes)
    requires || (exists i :: 0 <= i < |twitterProbes|
                  && T.Construct(st.metricPrefix, Entries(st.twitterScreenNames)[i], st.twitter, twitterProbes[i]).Failure?)
             || (exists i :: 0 <= i < |youtubeProbes|
                  && Y.Construct(st.metricPrefix, Entries(st.youtubeChannelIds)[i], st.youtube, youtubeProbes[i]).Failure?)
    ensures Launch(st, twitterProbes, youtubeProbes).Failure?
  {
    var trs := TwitterConstructs(st.metricPrefix, Entries(st.twitterScreenNames), st.twitter, twitterProbes);
    var yrs := YouTubeConstructs(st.metricPrefix, Entries(st.youtubeChannelIds), st.youtube, youtubeProbes);
    if i :| 0 <= i < |twitterProbes| && T.Construct(st.metricPrefix, Entries(st.twitterScreenNames)[i], st.twitter, twitterProbes[i]).Failure? {
      assert trs[i].Failure?;
      CollectSuccess(trs);
      assert Collect(trs).Failure?;
    } else {
      var i :| 0 <= i < |youtubeProbes| && Y.Construct(st.metricPrefix, Entries(st.youtubeChannelIds)[i], st.youtube, youtubeProbes[i]).Failure?;
      assert yrs[i].Failure?;
      CollectSuccess(yrs);
      assert Collect(yrs).Failure?;
    }
  }

  /** Empty account lists (which is what unset ones read as) start a service
      with no adapters. */
  lemma NoListsNoAdapters(st: Settings)
    requires st.twitterScreenNames == "" && st.youtubeChannelIds == ""
    requires Atoi(st.intervalSeconds).Some?
    ensures ProbesFit(st, [], [])
    ensures Launch(st, [], []) == Success(Service(st.metricPrefix, Atoi(st.intervalSeconds).value, [], []))
  {
    EmptyListHasNoEntries();
  }

  /** A missing Twitter client ID with at least one screen name listed stops the
      process with that error; it does not merely skip the Twitter accounts. */
  lemma MissingClientIdIsFatal(st: Settings, twitterProbes: seq<T.UserShow>, youtubeProbes: seq<Y.Probe>)
    requires ProbesFit(st, twitterProbes, youtubeProbes)
    requires Atoi(st.intervalSeconds).Some?
    requires Entries(st.twitterScreenNames) != []
    requires st.twitter.clientId == ""
    ensures Launch(st, twitterProbes, youtubeProbes) == Failure(TwitterSetup("a client ID is required"))
  {
    var names := Entries(st.twitterScreenNames);
    var rs := TwitterConstructs(st.metricPrefix, names, st.twitter, twitterProbes);
    EntriesAreAccounts(st.twitterScreenNames);
    assert names[0] in names;
    assert rs[0] == Failure("a client ID is required");
    CollectSuccess(rs);
    CollectFirstFailure(rs);
    forall i | 0 <= i < |rs|
      ensures rs[i] == Failure("a client ID is required")
    {
      assert names[i] in names;
    }
  }

  // ---------------------------------------------------------------------------
  // The start-up code

  /** The screen names of the registered Twitter series are among the first
      `j` entries. */
  ghost predicate TwitterOwners(series: map<MetricId, nat>, entries: seq<string>, j: nat)
    requires j <= |entries|
  {
    forall id :: id in series && "screen_name" in id.labels ==> id.labels["screen_name"] in entries[..j]
  }

  /** The channel ids of the registered YouTube series are among the first
      `j` entries. */
  ghost predicate YouTubeOwners(series: map<MetricId, nat>, entries: seq<string>, j: nat)
    requires j <= |entries|
  {
    forall id :: id in series && "channel_id" in id.labels ==> id.labels["channel_id"] in entries[..j]
  }

  /** The next screen name of a repeat-free list has no series yet, and once
      its gauges are registered the owners cover one more entry. */
  lemma TwitterNext(series: map<MetricId, nat>, t: T.Twitter, entries: seq<string>, j: nat)
    requires j < |entries| && Distinct(entries) && entries[j] == t.screenName
    requires TwitterOwners(series, entries, j)
    ensures t.Gauges() !! series.Keys
    ensures TwitterOwners(series + Zeros(t.Gauges()), entries, j + 1)
  {
    T.FourGauges(t);
    forall k | 0 <= k < j
      ensures entries[..j][k] != t.screenName
    {
    }
    assert entries[..j + 1] == entries[..j] + [t.screenName];
  }

  /** The next channel id of a repeat-free list has no series yet, and once
      its gauges are registered the owners cover one more entry. */
  lemma YouTubeNext(series: map<MetricId, nat>, y: Y.YouTube, entries: seq<string>, j: nat)
    requires j < |entries| && Distinct(entries) && entries[j] == y.channelId
    requires YouTubeOwners(series, entries, j)
    ensures y.Gauges() !! series.Keys
    ensures YouTubeOwners(series + Zeros(y.Gauges()), entries, j + 1)
  {
    Y.ThreeGauges(y);
    forall k | 0 <= k < j
      ensures entries[..j][k] != y.channelId
    {
    }
    assert entries[..j + 1] == entries[..j] + [y.channelId];
  }

  /** Once every piece has been visited, the kept entries are all of them, and
      so are the outcomes computed for them. */
  lemma AllPiecesSeen<R>(parts: seq<string>, j: nat, outcomes: seq<R>)
    requires j <= |NonEmpty(parts)| == |outcomes|
    requires NonEmpty(parts[..|parts|]) == NonEmpty(parts)[..j]
    ensures j == |NonEmpty(parts)| && outcomes[..j] == outcomes
  {
    assert parts[..|parts|] == parts;
  }

  /** One iteration of the Twitter range loop on the `j`-th screen name: the
      outcome is that name's construction; a failure ends the whole loop with
      its error, a success extends the adapters and registers its gauges. */
  method AddTwitter(reg: Registry, metricPrefix: string, name: string, c: T.Credentials, probes: seq<T.UserShow>,
                    ghost entries: seq<string>, j: nat, ghost adapters: seq<T.Twitter>, ghost start: map<MetricId, nat>)
    returns (made: Result<T.Twitter, string>)
    requires j < |entries| == |probes| && Distinct(entries) && |adapters| == j
    requires entries[j] == name
    requires Collect(TwitterConstructs(metricPrefix, entries, c, probes)[..j]) == Success(adapters)
    requires TwitterOwners(reg.series, entries, j)
    requires reg.series == start + Zeros(TwitterGauges(adapters))
    modifies reg
    ensures made == T.Construct(metricPrefix, entries[j], c, probes[j])
    ensures made.Failure? ==> Collect(TwitterConstructs(metricPrefix, entries, c, probes)) == Failure(made.error)
    ensures made.Success? ==>
              && Collect(TwitterConstructs(metricPrefix, entries, c, probes)[..j + 1]) == Success(adapters + [made.value])
              && reg.series == start + Zeros(TwitterGauges(adapters + [made.value]))
              && TwitterOwners(reg.series, entries, j + 1)
  {
    ghost var results := TwitterConstructs(metricPrefix, entries, c, probes);
    TwitterNext(reg.series, T.Twitter(metricPrefix, entries[j]), entries, j);
    CollectStep(results, j);
    made := T.NewTwitter(reg, metricPrefix, name, c, probes[j]);
    assert made == results[j];
    if made.Success? {
      ZerosAdd(start, TwitterGauges(adapters), made.value.Gauges());
      assert (adapters + [made.value])[..j] == adapters;
    }
  }

  /** The body of the Twitter range loop on the `i`-th piece, `j` entries
      having been kept before it: an empty piece is skipped, any other is
      the next entry and goes through AddTwitter. */
  method VisitTwitter(reg: Registry, metricPrefix: string, names: seq<string>, i: nat, c: T.Credentials,
                      probes: seq<T.UserShow>, j: nat, adapters: seq<T.Twitter>, ghost start: map<MetricId, nat>)
    returns (j': nat, adapters': seq<T.Twitter>, failure: Option<string>)
    requires i < |names| && |probes| == |NonEmpty(names)| && Distinct(NonEmpty(names))
    requires j <= |NonEmpty(names)| && |adapters| == j && NonEmpty(names[..i]) == NonEmpty(names)[..j]
    requires Collect(TwitterConstructs(metricPrefix, NonEmpty(names), c, probes)[..j]) == Success(adapters)
    requires reg.series == start + Zeros(TwitterGauges(adapters))
    requires TwitterOwners(reg.series, NonEmpty(names), j)
    modifies reg
    ensures failure.Some? ==> Collect(TwitterConstructs(metricPrefix, NonEmpty(names), c, probes)) == Failure(failure.value)
    ensures failure.None? ==>
              && j' <= |NonEmpty(names)| && |adapters'| == j' && NonEmpty(names[..i + 1]) == NonEmpty(names)[..j']
              && Collect(TwitterConstructs(metricPrefix, NonEmpty(names), c, probes)[..j']) == Success(adapters')
              && reg.series == start + Zeros(TwitterGauges(adapters'))
              && TwitterOwners(reg.series, NonEmpty(names), j')
  {
    NonEmptyStep(names, i, j);
    j', adapters', failure := j, adapters, None;
    if names[i] != "" {
      var made := AddTwitter(reg, metricPrefix, names[i], c, probes, NonEmpty(names), j, adapters, start);
      if made.Failure? {
        failure := Some(made.error);
      } else {
        j', adapters' := j + 1, adapters + [made.value];
      }
    }
  }

  /** One iteration of the YouTube range loop on the `j`-th channel id: the
      outcome is that channel's construction; a failure ends the whole loop
      with its error, a success extends the adapters and registers its gauges. */
  method AddYouTube(reg: Registry, metricPrefix: string, channelId: string, c: Y.Credentials, probes: seq<Y.Probe>,
                    ghost entries: seq<string>, j: nat, ghost adapters: seq<Y.YouTube>, ghost start: map<MetricId, nat>)
    returns (made: Result<Y.YouTube, string>)
    requires j < |entries| == |probes| && Distinct(entries) && |adapters| == j
    requires entries[j] == channelId
    requires Collect(YouTubeConstructs(metricPrefix, entries, c, probes)[..j]) == Success(adapters)
    requires YouTubeOwners(reg.series, entries, j)
    requires reg.series == start + Zeros(YouTubeGauges(adapters))
    modifies reg
    ensures made == Y.Construct(metricPrefix, entries[j], c, probes[j])
    ensures made.Failure? ==> Collect(YouTubeConstructs(metricPrefix, entries, c, probes)) == Failure(made.error)
    ensures made.Success? ==>
              && Collect(YouTubeConstructs(metricPrefix, entries, c, probes)[..j + 1]) == Success(adapters + [made.value])
              && reg.series == start + Zeros(YouTubeGauges(adapters + [made.value]))
              && YouTubeOwners(reg.series, entries, j + 1)
  {
    ghost var results := YouTubeConstructs(metricPrefix, entries, c, probes);
    ghost var planned := Y.Construct(metricPrefix, entries[j], c, probes[j]);
    if planned.Success? {
      YouTubeNext(reg.series, planned.value, entries, j);
    }
    CollectStep(results, j);
    made := Y.NewYouTube(reg, metricPrefix, channelId, c, probes[j]);
    assert made == results[j];
    if made.Success? {
      ZerosAdd(start, YouTubeGauges(adapters), made.value.Gauges());
      assert (adapters + [made.value])[..j] == adapters;
    }
  }

  /** The body of the YouTube range loop on the `i`-th piece, `j` entries
      having been kept before it: an empty piece is skipped, any other is
      the next entry and goes through AddYouTube. */
  method VisitYouTube(reg: Registry, metricPrefix: string, ids: seq<string>, i: nat, c: Y.Credentials,
                      probes: seq<Y.Probe>, j: nat, adapters: seq<Y.YouTube>, ghost start: map<MetricId, nat>)
    returns (j': nat, adapters': seq<Y.YouTube>, failure: Option<string>)
    requires i < |ids| && |probes| == |NonEmpty(ids)| && Distinct(NonEmpty(ids))
    requires j <= |NonEmpty(ids)| && |adapters| == j && NonEmpty(ids[..i]) == NonEmpty(ids)[..j]
    requires Collect(YouTubeConstructs(metricPrefix, NonEmpty(ids), c, probes)[..j]) == Success(adapters)
    requires reg.series == start + Zeros(YouTubeGauges(adapters))
    requires YouTubeOwners(reg.series, NonEmpty(ids), j)
    modifies reg
    ensures failure.Some? ==> Collect(YouTubeConstructs(metricPrefix, NonEmpty(ids), c, probes)) == Failure(failure.value)
    ensures failure.None? ==>
              && j' <= |NonEmpty(ids)| && |adapters'| == j' && NonEmpty(ids[..i + 1]) == NonEmpty(ids)[..j']
              && Collect(YouTubeConstructs(metricPrefix, NonEmpty(ids), c, probes)[..j']) == Success(adapters')
              && reg.series == start + Zeros(YouTubeGauges(adapters'))
              && YouTubeOwners(reg.series, NonEmpty(ids), j')
  {
    NonEmptyStep(ids, i, j);
    j', adapters', failure := j, adapters, None;
    if ids[i] != "" {
      var made := AddYouTube(reg, metricPrefix, ids[i], c, probes, NonEmpty(ids), j, adapters, start);
      if made.Failure? {
        failure := Some(made.error);
      } else {
        j', adapters' := j + 1, adapters + [made.value];
      }
    }
  }

  /** The Twitter range loop of main over the pieces of the split list: skip
      empty pieces, construct an adapter for each remaining screen name in
      order, and stop at the first error. */
  method BuildTwitters(reg: Registry, metricPrefix: string, names: seq<string>, c: T.Credentials, probes: seq<T.UserShow>)
    returns (r: Result<seq<T.Twitter>, string>)
    requires |probes| == |NonEmpty(names)| && Distinct(NonEmpty(names))
    requires forall id :: id in reg.series ==> "screen_name" !in id.labels
    modifies reg
    ensures r == Collect(TwitterConstructs(metricPrefix, NonEmpty(names), c, probes))
    ensures r.Success? ==> reg.series == old(reg.series) + Zeros(TwitterGauges(r.value))
  {
    ghost var start := reg.series;
    var adapters: seq<T.Twitter> := [];
    var j := 0;
    for i := 0 to |names|
      invariant j <= |NonEmpty(names)| && |adapters| == j && NonEmpty(names[..i]) == NonEmpty(names)[..j]
      invariant Collect(TwitterConstructs(metricPrefix, NonEmpty(names), c, probes)[..j]) == Success(adapters)
      invariant reg.series == start + Zeros(TwitterGauges(adapters))
      invariant TwitterOwners(reg.series, NonEmpty(names), j)
    {
      var failure;
      j, adapters, failure := VisitTwitter(reg, metricPrefix, names, i, c, probes, j, adapters, start);
      if failure.Some? {
        return Failure(failure.value);
      }
    }
    AllPiecesSeen(names, j, TwitterConstructs(metricPrefix, NonEmpty(names), c, probes));
    r := Success(adapters);
  }

  /** The Twitter part of main: split the screen-name list at commas and run
      the range loop over the pieces. */
  method SetUpTwitter(reg: Registry, metricPrefix: string, list: string, c: T.Credentials, probes: seq<T.UserShow>)
    returns (r: Result<seq<T.Twitter>, string>)
    requires |probes| == |Entries(list)| && Distinct(Entries(list))
    requires forall id :: id in reg.series ==> "screen_name" !in id.labels
    modifies reg
    ensures r == Collect(TwitterConstructs(metricPrefix, Entries(list), c, probes))
    ensures r.Success? ==> reg.series == old(reg.series) + Zeros(TwitterGauges(r.value))
  {
    var names := Split(list, ',');
    r := BuildTwitters(reg, metricPrefix, names, c, probes);
  }

  /** The YouTube range loop of main over the pieces of the split list: skip
      empty pieces, construct an adapter for each remaining channel id in
      order, and stop at the first error. */
  method BuildYouTubes(reg: Registry, metricPrefix: string, ids: seq<string>, c: Y.Credentials, probes: seq<Y.Probe>)
    returns (r: Result<seq<Y.YouTube>, string>)
    requires |probes| == |NonEmpty(ids)| && Distinct(NonEmpty(ids))
    requires forall id :: id in reg.series ==> "channel_id" !in id.labels
    modifies reg
    ensures r == Collect(YouTubeConstructs(metricPrefix, NonEmpty(ids), c, probes))
    ensures r.Success? ==> reg.series == old(reg.series) + Zeros(YouTubeGauges(r.value))
  {
    ghost var start := reg.series;
    var adapters: seq<Y.YouTube> := [];
    var j := 0;
    for i := 0 to |ids|
      invariant j <= |NonEmpty(ids)| && |adapters| == j && NonEmpty(ids[..i]) == NonEmpty(ids)[..j]
      invariant Collect(YouTubeConstructs(metricPrefix, NonEmpty(ids), c, probes)[..j]) == Success(adapters)
      invariant reg.series == start + Zeros(YouTubeGauges(adapters))
      invariant YouTubeOwners(reg.series, NonEmpty(ids), j)
    {
      var failure;
      j, adapters, failure := VisitYouTube(reg, metricPrefix, ids, i, c, probes, j, adapters, start);
      if failure.Some? {
        return Failure(failure.value);
      }
    }
    AllPiecesSeen(ids, j, YouTubeConstructs(metricPrefix, NonEmpty(ids), c, probes));
    r := Success(adapters);
  }

  /** The YouTube part of main: split the channel-id list at commas and run
      the range loop over the pieces. */
  method SetUpYouTube(reg: Registry, metricPrefix: string, list: string, c: Y.Credentials, probes: seq<Y.Probe>)
    returns (r: Result<seq<Y.YouTube>, string>)
    requires |probes| == |Entries(list)| && Distinct(Entries(list))
    requires forall id :: id in reg.series ==> "channel_id" !in id.labels
    modifies reg
    ensures r == Collect(YouTubeConstructs(metricPrefix, Entries(list), c, probes))
    ensures r.Success? ==> reg.series == old(reg.series) + Zeros(YouTubeGauges(r.value))
  {
    var ids := Split(list, ',');
    r := BuildYouTubes(reg, metricPrefix, ids, c, probes);
  }

  /** Neither the counter nor a Twitter gauge carries a channel_id label. */
  lemma NoChannelLabels(counter: MetricId, ts: seq<T.Twitter>)
    requires counter.labels == map[]
    ensures forall id :: id in map[counter := 0] + Zeros(TwitterGauges(ts)) ==> "channel_id" !in id.labels
  {
    TwitterGaugesMembers(ts);
    forall id | id in map[counter := 0] + Zeros(TwitterGauges(ts)) && id != counter
      ensures "channel_id" !in id.labels
    {
      var i :| 0 <= i < |ts| && id in ts[i].Gauges();
      T.FourGauges(ts[i]);
    }
  }

  /** A service that starts from repeat-free lists is valid in its initial
      registry: the counter and every gauge are registered, and no account is
      polled twice. */
  lemma LaunchValid(st: Settings, twitterProbes: seq<T.UserShow>, youtubeProbes: seq<Y.Probe>)
    requires ProbesFit(st, twitterProbes, youtubeProbes)
    requires Distinct(Entries(st.twitterScreenNames)) && Distinct(Entries(st.youtubeChannelIds))
    requires Launch(st, twitterProbes, youtubeProbes).Success?
    ensures var svc := Launch(st, twitterProbes, youtubeProbes).value;
            svc.Valid(svc.InitialSeries())
  {
    var svc := Launch(st, twitterProbes, youtubeProbes).value;
    LaunchAdapters(st, twitterProbes, youtubeProbes);
    TwitterGaugesMembers(svc.twitters);
    YouTubeGaugesMembers(svc.youtubes);
    var keys := svc.InitialSeries().Keys;
    assert svc.Counter() in keys;
    forall i | 0 <= i < |svc.twitters|
      ensures svc.twitters[i].Gauges() <= keys
    {
    }
    forall i | 0 <= i < |svc.youtubes|
      ensures svc.youtubes[i].Gauges() <= keys
    {
    }
  }

  /** main up to the start of the poll loop, given the settings read from the
      environment. The registry is created first; a
      bad interval stops the process while it is still empty. Otherwise the
      counter is registered, then the Twitter adapters, then the YouTube
      adapters. On success the returned service is ready for PollCycle. A
      screen name or channel id listed twice would be registered twice, which
      the registry refuses; lists are therefore required to be free of repeats. */
  method Start(st: Settings, twitterProbes: seq<T.UserShow>, youtubeProbes: seq<Y.Probe>)
    returns (reg: Registry, r: Result<Service, Fatal>)
    requires ProbesFit(st, twitterProbes, youtubeProbes)
    requires Distinct(Entries(st.twitterScreenNames)) && Distinct(Entries(st.youtubeChannelIds))
    ensures fresh(reg)
    ensures r == Launch(st, twitterProbes, youtubeProbes)
    ensures r.Failure? && r.error.BadInterval? ==> reg.series == map[]
    ensures r.Success? ==> r.value.Valid(reg.series) && reg.series == r.value.InitialSeries()
  {
    reg := new Registry();
    var seconds := Atoi(st.intervalSeconds);
    if seconds.None? {
      return reg, Failure(BadInterval(st.intervalSeconds));
    }
    var counter := CounterId(st.metricPrefix);
    reg.Register(counter);
    var twitters := SetUpTwitter(reg, st.metricPrefix, st.twitterScreenNames, st.twitter, twitterProbes);
    if twitters.Failure? {
      return reg, Failure(TwitterSetup(twitters.error));
    }
    NoChannelLabels(counter, twitters.value);
    var youtubes := SetUpYouTube(reg, st.metricPrefix, st.youtubeChannelIds, st.youtube, youtubeProbes);
    if youtubes.Failure? {
      return reg, Failure(YouTubeSetup(youtubes.error));
    }
    r := Success(Service(st.metricPrefix, seconds.value, twitters.value, youtubes.value));
    LaunchValid(st, twitterProbes, youtubeProbes);
  }
}

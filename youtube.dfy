/** One YouTube channel as a metric source: checking its settings, finding the
    channel once, registering its three gauges labelled with the channel's id
    and title, and refreshing them on each poll. The Channels.List call is not
    performed here: its answer is a parameter. */
module YouTubePlatform {
  import opened Wrappers
  import opened Text
  import opened Metrics

  datatype Statistics = Statistics(subscriberCount: nat, viewCount: nat, videoCount: nat)

  /** One item of a Channels.List response (its snippet title and statistics). */
  datatype Channel = Channel(id: string, title: string, statistics: Statistics)

  /** What one Channels.List call answers: the items, or the error text of the call. */
  type Listing = Result<seq<Channel>, string>

  /** What NewYouTube's remote steps answer: the error of youtube.New, if any,
      and the listing of its probe. */
  datatype Probe = Probe(clientError: Option<string>, listing: Listing)

  datatype Credentials = Credentials(clientId: string, clientSecret: string, accessToken: string, refreshToken: string)

  /** An adapter for one channel. Its gauges are determined by the metric prefix,
      the channel id and the channel title found when it was constructed. */
  datatype YouTube = YouTube(metricPrefix: string, channelId: string, channelName: string)
  {
    function Labels(): map<string, string>
    {
      map["channel_id" := channelId, "channel_name" := channelName]
    }

    function Subscribers(): MetricId
    {
      MetricId(metricPrefix + "youtube_subscribers", Labels())
    }

    function Views(): MetricId
    {
      MetricId(metricPrefix + "youtube_views", Labels())
    }

    function Videos(): MetricId
    {
      MetricId(metricPrefix + "youtube_videos", Labels())
    }

    /** The gauges this adapter owns. */
    function Gauges(): set<MetricId>
    {
      {Subscribers(), Views(), Videos()}
    }
  }

  /** Every adapter owns exactly three distinct gauges, labelled with the channel id and name. */
  lemma ThreeGauges(y: YouTube)
    ensures |y.Gauges()| == 3
    ensures forall g :: g in y.Gauges() ==>
              g.labels == map["channel_id" := y.channelId, "channel_name" := y.channelName]
  {
    var p := y.metricPrefix;
    assert |y.Subscribers().name| == |p| + 19 && |y.Views().name| == |p| + 13 && |y.Videos().name| == |p| + 14;
    assert |{y.Subscribers(), y.Views()}| == 2;
  }

  /** A series without a channel_id label is no YouTube adapter's gauge. */
  lemma NotOwned(y: YouTube, id: MetricId)
    requires "channel_id" !in id.labels
    ensures id !in y.Gauges()
  {
    assert "channel_id" in y.Labels();
  }

  /** Adapters for different channel ids own disjoint gauges, whatever their titles. */
  lemma GaugesDisjoint(a: YouTube, b: YouTube)
    requires a.channelId != b.channelId
    ensures a.Gauges() !! b.Gauges()
  {
    assert a.Labels()["channel_id"] != b.Labels()["channel_id"];
  }

  // ---------------------------------------------------------------------------
  // getChannel

  /** The last item whose id is `channelId`, if any. */
  function LastWithId(items: seq<Channel>, channelId: string): (r: Option<Channel>)
    ensures r.Some? ==> r.value.id == channelId
  {
    if items == [] then None
    else if items[|items| - 1].id == channelId then Some(items[|items| - 1])
    else LastWithId(items[..|items| - 1], channelId)
  }

  /** LastWithId finds nothing exactly when no item has the id, and otherwise an
      item with the id after which no item has it. */
  lemma {:induction false} LastWithIdSpec(items: seq<Channel>, channelId: string)
    ensures LastWithId(items, channelId).None? <==> forall i :: 0 <= i < |items| ==> items[i].id != channelId
    ensures LastWithId(items, channelId).Some? ==>
      exists k :: 0 <= k < |items| && items[k] == LastWithId(items, channelId).value && items[k].id == channelId
                  && forall j :: k < j < |items| ==> items[j].id != channelId
  {
    if items != [] {
      var n := |items| - 1;
      if items[n].id != channelId {
        LastWithIdSpec(items[..n], channelId);
        assert forall i :: 0 <= i < n ==> items[..n][i] == items[i];
        if LastWithId(items[..n], channelId).Some? {
          var k :| 0 <= k < n && items[..n][k] == LastWithId(items[..n], channelId).value && items[..n][k].id == channelId
                   && forall j :: k < j < n ==> items[..n][j].id != channelId;
          assert items[k] == LastWithId(items, channelId).value;
        }
      }
    }
  }

  /** What getChannel returns for a listing: nothing when the call failed,
      otherwise the last item with the channel's id. */
  function FindChannel(listing: Listing, channelId: string): (r: Option<Channel>)
    ensures r.Some? ==> listing.Success? && r.value.id == channelId
  {
    if listing.Failure? then None else LastWithId(listing.value, channelId)
  }

  /** getChannel: a scan over the listed items that keeps the last match. */
  method GetChannel(listing: Listing, channelId: string) returns (found: Option<Channel>)
    ensures found == FindChannel(listing, channelId)
    ensures found.Some? ==> listing.Success? && found.value in listing.value && found.value.id == channelId
  {
    if listing.Failure? {
      return None;
    }
    var items := listing.value;
    found := None;
    var i := 0;
    while i < |items|
      invariant 0 <= i <= |items|
      invariant found == LastWithId(items[..i], channelId)
      invariant found.Some? ==> found.value in items[..i] && found.value.id == channelId
    {
      assert items[..i + 1][..i] == items[..i];
      if items[i].id == channelId {
        found := Some(items[i]);
      }
      i := i + 1;
    }
    assert items[..i] == items;
  }

  // ---------------------------------------------------------------------------
  // Construction

  const RequiredErrors: seq<string> := [
    "a channel ID is required",
    "an access token is required",
    "a refresh token is required"
  ]

  /** The parameter checks of NewYouTube, in their order. The client ID and
      secret are passed on but never checked. */
  function Validate(channelId: string, c: Credentials): (r: Option<string>)
    ensures r.None? <==> channelId != "" && c.accessToken != "" && c.refreshToken != ""
    ensures r.Some? ==> r.value in RequiredErrors
  {
    if channelId == "" then Some("a channel ID is required")
    else if c.accessToken == "" then Some("an access token is required")
    else if c.refreshToken == "" then Some("a refresh token is required")
    else None
  }

  /** The checks reject the first empty field among channel id, access token and
      refresh token, with that field's error. */
  lemma ValidateFollowsFieldOrder(channelId: string, c: Credentials)
    ensures Validate(channelId, c) == FirstEmpty([channelId, c.accessToken, c.refreshToken], RequiredErrors)
  {
    var fields := [channelId, c.accessToken, c.refreshToken];
    var errors := RequiredErrors;
    if channelId != "" {
      assert FirstEmpty(fields, errors) == FirstEmpty(fields[1..], errors[1..]);
      if c.accessToken != "" {
        assert FirstEmpty(fields[1..], errors[1..]) == FirstEmpty(fields[2..], errors[2..]);
        if c.refreshToken != "" {
          assert FirstEmpty(fields[2..], errors[2..]) == FirstEmpty(fields[3..], errors[3..]);
          assert fields[3..] == [];
        }
      }
    }
  }

  /** An empty client ID or secret is never the reason construction fails. */
  lemma ClientIdAndSecretOptional(channelId: string, c: Credentials)
    ensures Validate(channelId, c) == Validate(channelId, c.(clientId := "", clientSecret := ""))
  {
  }

  function ClientError(channelId: string, cause: string): string
  {
    "Error when creating youtube client " + channelId + ": " + cause
  }

  function NoAccessError(channelId: string): string
  {
    "The authenticated user doesn't have access to the channel with ID " + channelId
  }

  /** What NewYouTube returns, given what its remote steps answer. */
  function Construct(metricPrefix: string, channelId: string, c: Credentials, probe: Probe): (r: Result<YouTube, string>)
    ensures r.Success? <==> Validate(channelId, c).None? && probe.clientError.None?
                            && FindChannel(probe.listing, channelId).Some?
    ensures r.Success? ==> r.value.metricPrefix == metricPrefix && r.value.channelId == channelId
                            && r.value.channelName == FindChannel(probe.listing, channelId).value.title
  {
    match Validate(channelId, c)
    case Some(e) => Failure(e)
    case None =>
      match probe.clientError
      case Some(e) => Failure(ClientError(channelId, e))
      case None =>
        match FindChannel(probe.listing, channelId)
        case None => Failure(NoAccessError(channelId))
        case Some(ch) => Success(YouTube(metricPrefix, channelId, ch.title))
  }

  /** A channel missing from the probe's listing is reported with its id. */
  lemma MissingChannelNamesChannel(metricPrefix: string, channelId: string, c: Credentials, probe: Probe)
    requires Validate(channelId, c).None? && probe.clientError.None?
    requires forall ch :: probe.listing.Success? && ch in probe.listing.value ==> ch.id != channelId
    ensures Construct(metricPrefix, channelId, c, probe).Failure?
    ensures Contains(Construct(metricPrefix, channelId, c, probe).error, channelId)
  {
    if probe.listing.Success? {
      LastWithIdSpec(probe.listing.value, channelId);
    }
    ContainsMiddle("The authenticated user doesn't have access to the channel with ID ", channelId, "");
    assert NoAccessError(channelId) == "The authenticated user doesn't have access to the channel with ID " + channelId + "";
  }

  /** NewYouTube: check the settings, create the client, find the channel, and
      only then register the three gauges under the channel's title. On failure
      the registry is untouched. */
  method NewYouTube(reg: Registry, metricPrefix: string, channelId: string, c: Credentials, probe: Probe)
    returns (r: Result<YouTube, string>)
    requires Construct(metricPrefix, channelId, c, probe).Success? ==>
               Construct(metricPrefix, channelId, c, probe).value.Gauges() !! reg.series.Keys
    modifies reg
    ensures r == Construct(metricPrefix, channelId, c, probe)
    ensures r.Failure? ==> reg.series == old(reg.series)
    ensures r.Success? ==> reg.series == old(reg.series) + Zeros(r.value.Gauges())
  {
    var invalid := Validate(channelId, c);
    if invalid.Some? {
      return Failure(invalid.value);
    }
    if probe.clientError.Some? {
      return Failure(ClientError(channelId, probe.clientError.value));
    }
    var found := GetChannel(probe.listing, channelId);
    if found.None? {
      return Failure(NoAccessError(channelId));
    }
    var y := YouTube(metricPrefix, channelId, found.value.title);
    ThreeGauges(y);
    reg.Register(y.Subscribers());
    reg.Register(y.Views());
    reg.Register(y.Videos());
    r := Success(y);
    assert reg.series == old(reg.series) + Zeros(y.Gauges());
  }

  // ---------------------------------------------------------------------------
  // Fetch

  /** The statistics currently held by an adapter's gauges. */
  function Readback(series: map<MetricId, nat>, y: YouTube): Statistics
    requires y.Gauges() <= series.Keys
  {
    Statistics(series[y.Subscribers()], series[y.Views()], series[y.Videos()])
  }

  /** The registry after Fetch, given the answer of its Channels.List call: when
      the channel is not found nothing is written; otherwise subscribers, views
      and videos take the found item's statistics. The gauges keep their labels,
      whatever title the item now has. */
  function Apply(series: map<MetricId, nat>, y: YouTube, listing: Listing): (r: map<MetricId, nat>)
    requires y.Gauges() <= series.Keys
    ensures r.Keys == series.Keys
  {
    match FindChannel(listing, y.channelId)
    case None => series
    case Some(ch) =>
      series[y.Subscribers() := ch.statistics.subscriberCount][y.Views() := ch.statistics.viewCount]
            [y.Videos() := ch.statistics.videoCount]
  }

  /** After Fetch the gauges read the found channel's statistics, or their previous values. */
  lemma ApplyReadback(series: map<MetricId, nat>, y: YouTube, listing: Listing)
    requires y.Gauges() <= series.Keys
    ensures Readback(Apply(series, y, listing), y)
         == match FindChannel(listing, y.channelId)
            case Some(ch) => ch.statistics
            case None => Readback(series, y)
  {
    ThreeGauges(y);
  }

  /** Fetch writes only the adapter's own gauges. */
  lemma ApplyFrame(series: map<MetricId, nat>, y: YouTube, listing: Listing, id: MetricId)
    requires y.Gauges() <= series.Keys
    requires id in series && id !in y.Gauges()
    ensures Apply(series, y, listing)[id] == series[id]
  {
  }

  /** The error Fetch returns, if any. */
  function FetchError(y: YouTube, listing: Listing): (r: Option<string>)
    ensures r.Some? <==> FindChannel(listing, y.channelId).None?
  {
    if FindChannel(listing, y.channelId).None? then Some("Channel " + y.channelId + " is now owned by the authenticated user")
    else None
  }

  /** Fetch fails exactly when the channel is not found, and its error names the channel id. */
  lemma FetchErrorNamesChannel(y: YouTube, listing: Listing)
    ensures FetchError(y, listing).Some? <==> FindChannel(listing, y.channelId).None?
    ensures FetchError(y, listing).Some? ==> Contains(FetchError(y, listing).value, y.channelId)
  {
    if FetchError(y, listing).Some? {
      ContainsMiddle("Channel ", y.channelId, " is now owned by the authenticated user");
    }
  }

  /** YouTube.Fetch: getChannel, then the three Set calls. */
  method Fetch(reg: Registry, y: YouTube, listing: Listing) returns (err: Option<string>)
    requires y.Gauges() <= reg.series.Keys
    modifies reg
    ensures reg.series == Apply(old(reg.series), y, listing)
    ensures err == FetchError(y, listing)
  {
    var ch := GetChannel(listing, y.channelId);
    if ch.None? {
      return FetchError(y, listing);
    }
    var stats := ch.value.statistics;
    reg.Set(y.Subscribers(), stats.subscriberCount);
    reg.Set(y.Views(), stats.viewCount);
    reg.Set(y.Videos(), stats.videoCount);
    err := None;
  }
}

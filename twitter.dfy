/** One Twitter account as a metric source: checking its settings, probing the
    account once, registering its four gauges, and refreshing them on each poll.
    The Users.Show call is not performed here: its answer is a parameter. */
module TwitterPlatform {
  import opened Wrappers
  import opened Text
  import opened Metrics

  /** The counts of a user as Users.Show reports them. */
  datatype TwitterUser = TwitterUser(favouritesCount: nat, statusesCount: nat, followersCount: nat, friendsCount: nat)

  /** What one Users.Show call answers: the user, or the error text of the call. */
  type UserShow = Result<TwitterUser, string>

  datatype Credentials = Credentials(clientId: string, clientSecret: string, accessToken: string, accessTokenSecret: string)

  /** An adapter for one screen name. Its gauges are determined by the metric
      prefix and the screen name, which is their single label. */
  datatype Twitter = Twitter(metricPrefix: string, screenName: string)
  {
    function Labels(): map<string, string>
    {
      map["screen_name" := screenName]
    }

    function Likes(): MetricId
    {
      MetricId(metricPrefix + "twitter_likes", Labels())
    }

    function Statuses(): MetricId
    {
      MetricId(metricPrefix + "twitter_statuses", Labels())
    }

    function Followers(): MetricId
    {
      MetricId(metricPrefix + "twitter_followers", Labels())
    }

    function Friends(): MetricId
    {
      MetricId(metricPrefix + "twitter_friends", Labels())
    }

    /** The gauges this adapter owns. */
    function Gauges(): set<MetricId>
    {
      {Likes(), Statuses(), Followers(), Friends()}
    }
  }

  /** Every adapter owns exactly four distinct gauges, all labelled with its screen name. */
  lemma FourGauges(t: Twitter)
    ensures |t.Gauges()| == 4
    ensures forall g :: g in t.Gauges() ==> g.labels == map["screen_name" := t.screenName]
  {
    var p := t.metricPrefix;
    assert |t.Likes().name| == |p| + 13 && |t.Statuses().name| == |p| + 16;
    assert |t.Followers().name| == |p| + 17 && |t.Friends().name| == |p| + 15;
    assert |{t.Likes(), t.Statuses()}| == 2;
    assert |{t.Likes(), t.Statuses(), t.Followers()}| == 3;
  }

  /** A series without a screen_name label is no Twitter adapter's gauge. */
  lemma NotOwned(t: Twitter, id: MetricId)
    requires "screen_name" !in id.labels
    ensures id !in t.Gauges()
  {
    assert "screen_name" in t.Labels();
  }

  /** Adapters for different screen names own disjoint gauges, since their labels differ. */
  lemma GaugesDisjoint(a: Twitter, b: Twitter)
    requires a.screenName != b.screenName
    ensures a.Gauges() !! b.Gauges()
  {
    assert a.Labels()["screen_name"] != b.Labels()["screen_name"];
  }

  // ---------------------------------------------------------------------------
  // Construction

  const RequiredErrors: seq<string> := [
    "a screen name is required",
    "a client ID is required",
    "a client secret is required",
    "an access token is required",
    "an access token secret is required"
  ]

  /** The parameter checks of NewTwitter, in their order. */
  function Validate(screenName: string, c: Credentials): (r: Option<string>)
    ensures r.None? <==> && screenName != "" && c.clientId != "" && c.clientSecret != ""
                         && c.accessToken != "" && c.accessTokenSecret != ""
    ensures r.Some? ==> r.value in RequiredErrors
  {
    if screenName == "" then Some("a screen name is required")
    else if c.clientId == "" then Some("a client ID is required")
    else if c.clientSecret == "" then Some("a client secret is required")
    else if c.accessToken == "" then Some("an access token is required")
    else if c.accessTokenSecret == "" then Some("an access token secret is required")
    else None
  }

  /** The checks reject the first empty field among screen name, client ID,
      client secret, access token and access token secret, with that field's error. */
  lemma ValidateFollowsFieldOrder(screenName: string, c: Credentials)
    ensures Validate(screenName, c)
         == FirstEmpty([screenName, c.clientId, c.clientSecret, c.accessToken, c.accessTokenSecret], RequiredErrors)
  {
    var fields := [screenName, c.clientId, c.clientSecret, c.accessToken, c.accessTokenSecret];
    var errors := RequiredErrors;
    if screenName != "" {
      assert FirstEmpty(fields, errors) == FirstEmpty(fields[1..], errors[1..]);
      if c.clientId != "" {
        assert FirstEmpty(fields[1..], errors[1..]) == FirstEmpty(fields[2..], errors[2..]);
        if c.clientSecret != "" {
          assert FirstEmpty(fields[2..], errors[2..]) == FirstEmpty(fields[3..], errors[3..]);
          if c.accessToken != "" {
            assert FirstEmpty(fields[3..], errors[3..]) == FirstEmpty(fields[4..], errors[4..]);
            if c.accessTokenSecret != "" {
              assert FirstEmpty(fields[4..], errors[4..]) == FirstEmpty(fields[5..], errors[5..]);
              assert fields[5..] == [];
            }
          }
        }
      }
    }
  }

  function ProbeError(screenName: string, cause: string): string
  {
    "Error when checking that the screen name is valid " + screenName + ": " + cause
  }

  /** What NewTwitter returns, given the answer of its one Users.Show probe. */
  function Construct(metricPrefix: string, screenName: string, c: Credentials, probe: UserShow): (r: Result<Twitter, string>)
    ensures r.Success? <==> Validate(screenName, c).None? && probe.Success?
    ensures r.Success? ==> r.value == Twitter(metricPrefix, screenName) && screenName != ""
  {
    match Validate(screenName, c)
    case Some(e) => Failure(e)
    case None =>
      if probe.Failure? then Failure(ProbeError(screenName, probe.error))
      else Success(Twitter(metricPrefix, screenName))
  }

  /** A failed probe with valid settings is reported with the screen name. */
  lemma ProbeFailureNamesAccount(metricPrefix: string, screenName: string, c: Credentials, probe: UserShow)
    requires Validate(screenName, c).None? && probe.Failure?
    ensures Construct(metricPrefix, screenName, c, probe).Failure?
    ensures Contains(Construct(metricPrefix, screenName, c, probe).error, screenName)
  {
    ContainsMiddle("Error when checking that the screen name is valid ", screenName, ": " + probe.error);
    assert ProbeError(screenName, probe.error)
        == "Error when checking that the screen name is valid " + screenName + (": " + probe.error);
  }

  /** NewTwitter: check the settings, probe the account, and only then register
      the four gauges. On failure the registry is untouched. */
  method NewTwitter(reg: Registry, metricPrefix: string, screenName: string, c: Credentials, probe: UserShow)
    returns (r: Result<Twitter, string>)
    requires Construct(metricPrefix, screenName, c, probe).Success? ==>
               Twitter(metricPrefix, screenName).Gauges() !! reg.series.Keys
    modifies reg
    ensures r == Construct(metricPrefix, screenName, c, probe)
    ensures r.Failure? ==> reg.series == old(reg.series)
    ensures r.Success? ==> reg.series == old(reg.series) + Zeros(r.value.Gauges())
  {
    var invalid := Validate(screenName, c);
    if invalid.Some? {
      return Failure(invalid.value);
    }
    if probe.Failure? {
      return Failure(ProbeError(screenName, probe.error));
    }
    var t := Twitter(metricPrefix, screenName);
    FourGauges(t);
    reg.Register(t.Likes());
    reg.Register(t.Statuses());
    reg.Register(t.Followers());
    reg.Register(t.Friends());
    r := Success(t);
    assert reg.series == old(reg.series) + Zeros(t.Gauges());
  }

  // ---------------------------------------------------------------------------
  // Fetch

  /** The counts currently held by an adapter's gauges. */
  function Readback(series: map<MetricId, nat>, t: Twitter): TwitterUser
    requires t.Gauges() <= series.Keys
  {
    TwitterUser(series[t.Likes()], series[t.Statuses()], series[t.Followers()], series[t.Friends()])
  }

  /** The registry after Fetch, given the answer of its Users.Show call: on an
      error nothing is written; otherwise likes, statuses, followers and friends
      take the fresh counts. */
  function Apply(series: map<MetricId, nat>, t: Twitter, show: UserShow): (r: map<MetricId, nat>)
    requires t.Gauges() <= series.Keys
    ensures r.Keys == series.Keys
  {
    if show.Failure? then series
    else
      var u := show.value;
      series[t.Likes() := u.favouritesCount][t.Statuses() := u.statusesCount]
            [t.Followers() := u.followersCount][t.Friends() := u.friendsCount]
  }

  /** After Fetch the gauges read the fresh counts, or their previous values on an error. */
  lemma ApplyReadback(series: map<MetricId, nat>, t: Twitter, show: UserShow)
    requires t.Gauges() <= series.Keys
    ensures Readback(Apply(series, t, show), t) == if show.Success? then show.value else Readback(series, t)
  {
    FourGauges(t);
  }

  /** Fetch writes only the adapter's own gauges. */
  lemma ApplyFrame(series: map<MetricId, nat>, t: Twitter, show: UserShow, id: MetricId)
    requires t.Gauges() <= series.Keys
    requires id in series && id !in t.Gauges()
    ensures Apply(series, t, show)[id] == series[id]
  {
  }

  /** The error Fetch returns, if any. */
  function FetchError(t: Twitter, show: UserShow): (r: Option<string>)
    ensures r.Some? <==> show.Failure?
  {
    if show.Failure? then Some("Error when requesting user details for " + t.screenName + ": " + show.error)
    else None
  }

  /** Fetch fails exactly when the call fails, and its error names the screen name. */
  lemma FetchErrorNamesAccount(t: Twitter, show: UserShow)
    ensures FetchError(t, show).Some? <==> show.Failure?
    ensures show.Failure? ==> Contains(FetchError(t, show).value, t.screenName)
  {
    if show.Failure? {
      ContainsMiddle("Error when requesting user details for ", t.screenName, ": " + show.error);
      assert FetchError(t, show).value
          == "Error when requesting user details for " + t.screenName + (": " + show.error);
    }
  }

  /** Twitter.Fetch: one Users.Show call, then the four Set calls. */
  method Fetch(reg: Registry, t: Twitter, show: UserShow) returns (err: Option<string>)
    requires t.Gauges() <= reg.series.Keys
    modifies reg
    ensures reg.series == Apply(old(reg.series), t, show)
    ensures err == FetchError(t, show)
  {
    if show.Failure? {
      return FetchError(t, show);
    }
    var u := show.value;
    reg.Set(t.Likes(), u.favouritesCount);
    reg.Set(t.Statuses(), u.statusesCount);
    reg.Set(t.Followers(), u.followersCount);
    reg.Set(t.Friends(), u.friendsCount);
    err := None;
  }
}

# social-media-user-exporter, modelled in Dafny

The exporter is a small Prometheus exporter. At start-up it reads its settings
from `SMUE_`-prefixed environment variables. It parses the poll interval and
registers a poll counter. It then builds one adapter per Twitter screen name
and one per YouTube channel id listed in two comma-separated variables. Each
adapter checks its credentials, probes the remote account once and registers
its gauges: four per Twitter account, labelled `screen_name`, and three per
YouTube channel, labelled `channel_id` and `channel_name`. On every tick the
counter goes up by one. Then every Twitter adapter fetches, then every YouTube
adapter, in list order. A fetch error is logged and the tick goes on.

The model has seven modules:

- `Wrappers` (`wrappers.dfy`) holds `Option`, `Result` and `Collect`. `Collect` is the "construct in order, stop at the first error" behaviour of the start-up loops.
- `Text` (`text.dfy`) holds `strings.Split`, the skip of empty entries, the first-empty-field check and `strconv.Atoi` on a 64-bit platform.
- `Metrics` (`metrics.dfy`) is the registry, a class whose `series` map goes from a series identity (name plus constant labels) to its value. `Register`, `Set` and `Inc` update that map in place.
- `TwitterPlatform` (`twitter.dfy`) covers `NewTwitter` and `Twitter.Fetch`.
- `YouTubePlatform` (`youtube.dfy`) covers `NewYouTube`, `getChannel` and `YouTube.Fetch`.
- `Poll` (`poll.dfy`) holds the started service and one tick of the poll loop, both as a method on the registry and as the function that specifies it.
- `Exporter` (`exporter.dfy`) covers `getEnv`, the settings read by `main`, and start-up up to the first tick. It has the start-up methods and the function `Launch` that specifies them.

Remote calls are not performed. Their answers are parameters:

- A `UserShow` is the answer to one Users.Show call: the user's counts or the call's error text.
- A `Listing` is the answer to one Channels.List call: the listed channels or the call's error.
- A YouTube `Probe` is the `youtube.New` error, if any, plus the listing of the start-up `getChannel`.

The environment is a `map<string, string>`. A key that is absent is an unset variable.

The code does a few things a reader might not expect, and the model follows the code:

- An empty required credential is fatal when at least one account of that platform is listed. The process stops with that error. It does not start with zero adapters for that platform (`Exporter.MissingClientIdIsFatal`). With no account listed, credentials are never looked at (`Exporter.NoListsNoAdapters`).
- `SMUE_INTERVAL_SECONDS` set to the empty string is not replaced by the default `300`. It fails to parse, and the process exits (`Exporter.IntervalFromEnvironment`).
- The YouTube client ID and secret are never checked (`YouTubePlatform.ClientIdAndSecretOptional`).
- `getChannel` keeps the last listed item with the wanted id, not the first (`YouTubePlatform.LastWithIdSpec`).
- The `channel_name` label is fixed when the adapter is constructed. Later fetches do not update it.
- The YouTube fetch error reads "Channel … is now owned by the authenticated user". The wording is kept as the code writes it.

## Model

| member | source | states |
|---|---|---|
| Exporter.GetEnv | main.go:20-26 | The value of `SMUE_<key>` whenever that variable is set, even to the empty string; the fallback exactly when it is unset |
| Exporter.ReadSettings | main.go:32-82 | Each setting is read under its own `SMUE_` key: unset, the prefix is "social_media_user_", the interval "300" and both account lists empty; set, each list is taken exactly as given |
| Exporter.Launch | main.go:52-94 | Start-up stops with the bad-interval error exactly when the interval does not parse; a started service carries the configured prefix and the parsed interval (its adapters: Exporter.LaunchAdapters, Exporter.AnySetupErrorIsFatal) |
| Exporter.IntervalSetting | main.go:52 | The interval setting is the variable's text when set (even empty) and "300" when unset |
| Exporter.IntervalFromEnvironment | main.go:52-57 | A set-but-empty interval variable ends start-up with the bad-interval error; an unset one starts a service with a 300-second interval or fails only for another reason |
| Exporter.NonNumericIntervalIsFatal | main.go:53-57 | An interval that does not parse ends start-up with that error, before any adapter is built |
| Text.Atoi | main.go:53 | A parsed interval always lies within the signed 64-bit range |
| Text.AtoiItoa | main.go:53 | Every signed 64-bit value written in decimal parses back to itself |
| Text.AtoiExamples | main.go:53-57 | The empty string, a lone sign and "5m" do not parse; "300" parses to 300 |
| Text.Split | main.go:68 | Splitting always yields at least one piece, so an empty list splits into one empty piece |
| Text.JoinSplit | main.go:68 | Joining the pieces with the separator gives the list back: nothing is lost or reordered |
| Text.SplitJoin | main.go:68 | Separator-free pieces joined and split again come back unchanged |
| Text.SplitPiecesFree | main.go:68 | No piece contains a comma |
| Text.SplitFirstPiece | main.go:68 | A comma-free string splits into itself, and a comma after it closes the first piece |
| Text.NonEmpty | main.go:70-73 | Skipping empty pieces keeps at most as many entries as there are pieces (which ones: Text.NonEmptyMembers) |
| Text.NonEmptyMembers | main.go:70-73 | The entries kept are exactly the non-empty pieces |
| Text.NonEmptyPrefix | main.go:70-73 | The entries kept from the first pieces are a prefix of the entries kept from all of them |
| Text.NonEmptyStep | main.go:70-73 | Each further piece adds itself to the kept entries exactly when it is not empty, and is then the next entry |
| Text.Entries | main.go:67-73 | An empty list names no account (what a list names: Text.EntriesAreAccounts) |
| Text.EmptyListHasNoEntries | main.go:67-68 | An unset or empty list names no account |
| Text.EntriesAreAccounts | main.go:67-73 | Every account entry is non-empty, comma-free and one of the split pieces |
| Text.FirstEmpty | platform/twitter.go:31-45 | A check chain rejects only with one of its own field errors (which one: Text.FirstEmptySpec) |
| Text.FirstEmptySpec | platform/twitter.go:31-45 | A check chain passes exactly when every field is non-empty, and otherwise rejects with the error of the earliest empty field |
| Wrappers.Collect | main.go:70-79 | A loop that finishes holds exactly one adapter per entry (the rest: Wrappers.CollectSuccess, Wrappers.CollectFirstFailure, Wrappers.CollectStopsAtFailure) |
| Wrappers.CollectSuccess | main.go:70-79 | The loop finishes exactly when every construction succeeds, and then holds each adapter at its entry's position |
| Wrappers.CollectFirstFailure | main.go:74-77 | A failed loop reports the error of the first construction that failed, all earlier ones having succeeded |
| Wrappers.CollectStopsAtFailure | main.go:75-77 | Once a construction fails, the later entries change nothing |
| Wrappers.CollectStep | main.go:74-78 | One more construction after a successful prefix either appends its adapter or makes its error the loop's result |
| Metrics.Registry.constructor | main.go:36 | A new registry holds no series |
| Metrics.Registry.Register | main.go:60-64 | Registering adds the new series at 0 and changes nothing else |
| Metrics.Registry.Set | platform/twitter.go:106-109 | A gauge Set writes that one series and no other |
| Metrics.Registry.Inc | main.go:100 | The counter goes up by exactly one and no other series changes |
| Metrics.Zeros | main.go:60-94 | A batch of fresh registrations adds exactly the given series, each at 0 |
| Metrics.ZerosAdd | main.go:60-94 | Registering two batches of fresh series in turn is registering their union |
| TwitterPlatform.FourGauges | platform/twitter.go:61-94 | A Twitter adapter owns four distinct gauges, all labelled only with its screen name |
| TwitterPlatform.NotOwned | platform/twitter.go:69-71 | A series without a screen_name label is none of a Twitter adapter's gauges |
| TwitterPlatform.GaugesDisjoint | platform/twitter.go:66-93 | Adapters for different screen names own disjoint gauges |
| TwitterPlatform.Validate | platform/twitter.go:31-45 | The checks pass exactly when screen name, client ID, client secret, access token and access token secret are all non-empty; a rejection carries one of the five "is required" messages |
| TwitterPlatform.ValidateFollowsFieldOrder | platform/twitter.go:31-45 | The parameter checks reject the first empty field among screen name, client ID, client secret, access token and access token secret, with that field's message |
| TwitterPlatform.Construct | platform/twitter.go:31-59 | Construction succeeds exactly when every field is filled in and the probe succeeds, and then yields the adapter for that prefix and screen name |
| TwitterPlatform.ProbeFailureNamesAccount | platform/twitter.go:56-59 | A failed probe with valid settings fails construction with an error that names the screen name |
| TwitterPlatform.NewTwitter | platform/twitter.go:28-95 | The result is the construction outcome; on failure the registry is untouched, on success exactly the four gauges are added at 0 |
| TwitterPlatform.Apply | platform/twitter.go:106-109 | A fetch never adds or removes a series |
| TwitterPlatform.ApplyReadback | platform/twitter.go:101-111 | After a fetch the gauges hold the user's favourites, statuses, followers and friends counts, or their previous values when the call failed |
| TwitterPlatform.ApplyFrame | platform/twitter.go:106-109 | A fetch writes no series other than the adapter's own gauges |
| TwitterPlatform.FetchError | platform/twitter.go:101-104 | A fetch reports an error exactly when the Users.Show call fails |
| TwitterPlatform.FetchErrorNamesAccount | platform/twitter.go:101-104 | A fetch reports an error exactly when the call fails, and the error names the screen name |
| TwitterPlatform.Fetch | platform/twitter.go:98-112 | The method leaves the registry as the fetch specification says and returns its error |
| YouTubePlatform.ThreeGauges | platform/youtube.go:77-101 | A YouTube adapter owns three distinct gauges, labelled with its channel id and the probed channel title |
| YouTubePlatform.NotOwned | platform/youtube.go:81-83 | A series without a channel_id label is none of a YouTube adapter's gauges |
| YouTubePlatform.GaugesDisjoint | platform/youtube.go:77-101 | Adapters for different channel ids own disjoint gauges |
| YouTubePlatform.LastWithId | platform/youtube.go:116-122 | A channel the scan keeps has the wanted id (which one: YouTubePlatform.LastWithIdSpec) |
| YouTubePlatform.LastWithIdSpec | platform/youtube.go:116-122 | The scan finds nothing exactly when no item has the id, and otherwise an item with the id after which no item has it |
| YouTubePlatform.FindChannel | platform/youtube.go:107-123 | A channel is found only when the list call succeeded, and it has the wanted id |
| YouTubePlatform.GetChannel | platform/youtube.go:107-123 | The loop returns what the lookup specifies; a found channel is one of the listed items and has the wanted id; a failed call finds nothing |
| YouTubePlatform.Validate | platform/youtube.go:32-40 | The checks pass exactly when channel id, access token and refresh token are all non-empty, whatever the client ID and secret; a rejection carries one of the three "is required" messages |
| YouTubePlatform.ValidateFollowsFieldOrder | platform/youtube.go:32-40 | The parameter checks reject the first empty field among channel id, access token and refresh token, with that field's message |
| YouTubePlatform.ClientIdAndSecretOptional | platform/youtube.go:32-45 | Empty client ID and secret never change the outcome of the checks |
| YouTubePlatform.Construct | platform/youtube.go:32-75 | Construction succeeds exactly when the checks pass, the client is created and the channel is listed, and then yields the adapter for that prefix and channel id named after the found channel |
| YouTubePlatform.MissingChannelNamesChannel | platform/youtube.go:72-75 | A channel missing from the listing fails construction with an error naming the channel id |
| YouTubePlatform.NewYouTube | platform/youtube.go:29-104 | The result is the construction outcome; on failure the registry is untouched, on success exactly the three gauges are added at 0 |
| YouTubePlatform.Apply | platform/youtube.go:133-135 | A fetch never adds or removes a series |
| YouTubePlatform.ApplyReadback | platform/youtube.go:126-138 | After a fetch the gauges hold the found channel's subscriber, view and video counts, or their previous values when it is not found |
| YouTubePlatform.ApplyFrame | platform/youtube.go:133-135 | A fetch writes no series other than the adapter's own gauges |
| YouTubePlatform.FetchError | platform/youtube.go:128-131 | A fetch reports an error exactly when the channel is not found |
| YouTubePlatform.FetchErrorNamesChannel | platform/youtube.go:128-131 | A fetch reports an error exactly when the channel is not found, and the error names the channel id |
| YouTubePlatform.Fetch | platform/youtube.go:126-138 | The method leaves the registry as the fetch specification says and returns its error |
| Poll.TwitterGaugesMembers | main.go:69-78 | A series is a registered Twitter gauge exactly when it is a gauge of one of the adapters |
| Poll.YouTubeGaugesMembers | main.go:84-93 | A series is a registered YouTube gauge exactly when it is a gauge of one of the adapters |
| Poll.CounterId | main.go:60-64 | The poll counter carries no constant labels |
| Poll.CounterOwnedByNone | main.go:60-64 | The poll counter is none of the adapters' gauges |
| Poll.PlatformsDisjoint | main.go:60-64 | The counter, a Twitter gauge and a YouTube gauge never coincide |
| Poll.TwitterRound | main.go:105-110 | A Twitter round never adds or removes a series |
| Poll.YouTubeRound | main.go:113-118 | A YouTube round never adds or removes a series |
| Poll.TwitterRoundFrame | main.go:105-110 | A Twitter round writes nothing outside its adapters' gauges |
| Poll.YouTubeRoundFrame | main.go:113-118 | A YouTube round writes nothing outside its adapters' gauges |
| Poll.TwitterRoundOutcome | main.go:105-110 | After a Twitter round each adapter's gauges hold its own fetch result, one failing adapter not disturbing the others |
| Poll.YouTubeRoundOutcome | main.go:113-118 | After a YouTube round each adapter's gauges hold its own fetch result, one failing adapter not disturbing the others |
| Poll.Cycle | main.go:100-118 | A tick keeps the set of registered series (what it writes: Poll.CycleCountsOnce, Poll.CycleTwitterOutcome, Poll.CycleYouTubeOutcome, Poll.CycleFrame) |
| Poll.CycleUnfold | main.go:100-118 | A tick is the counter increment, then the Twitter round, then the YouTube round |
| Poll.CycleCountsOnce | main.go:100-118 | A tick increments the counter by exactly one whatever the fetches answer |
| Poll.CycleTwitterOutcome | main.go:100-110 | After a tick every Twitter adapter's gauges hold its fetch result or their previous values |
| Poll.CycleYouTubeOutcome | main.go:100-118 | After a tick every YouTube adapter's gauges hold its fetch result or their previous values |
| Poll.CycleFrame | main.go:100-118 | A tick keeps the set of series and writes no series but the counter and the adapters' gauges |
| Poll.TwitterLog | main.go:105-110 | A Twitter round logs at most one line per adapter (when none: Poll.TwitterLogEmpty) |
| Poll.YouTubeLog | main.go:113-118 | A YouTube round logs at most one line per adapter (when none: Poll.YouTubeLogEmpty) |
| Poll.CycleLog | main.go:104-118 | A tick logs at most one line per adapter |
| Poll.TwitterLogEmpty | main.go:105-110 | The Twitter round logs nothing exactly when every fetch succeeds |
| Poll.YouTubeLogEmpty | main.go:113-118 | The YouTube round logs nothing exactly when every channel is found |
| Poll.FetchTwitters | main.go:105-110 | The loop leaves the registry as the Twitter round specifies and logs "Error with Twitter: " plus each error, in order |
| Poll.FetchYouTubes | main.go:113-118 | The loop leaves the registry as the YouTube round specifies and logs "Error with YouTube: " plus each error, in order |
| Poll.ValidKeys | main.go:100-118 | Whether the service is valid depends only on which series are registered, so updating values keeps it valid |
| Poll.CycleSteps | main.go:100-118 | The increment and the two rounds, done one after the other, make up a tick and leave the service valid |
| Poll.PollCycle | main.go:100-118 | One tick: counter, then Twitter, then YouTube; the registry ends as the tick specifies, the log is the tick's log, and the service stays valid |
| Exporter.TwitterCollected | main.go:70-79 | When every screen name's construction succeeds the adapters are those screen names under the prefix, in list order |
| Exporter.YouTubeCollected | main.go:85-94 | When every channel's construction succeeds the adapters are those channel ids under the prefix, in list order, each named after its probed channel |
| Exporter.LaunchAdapters | main.go:67-94 | A started service has one adapter per non-empty entry, in list order, with the parsed interval and the configured prefix |
| Exporter.AnySetupErrorIsFatal | main.go:70-94 | If any listed account's construction fails, start-up fails |
| Exporter.NoListsNoAdapters | main.go:67-94 | Empty account lists start a service with no adapters, whatever the credentials |
| Exporter.MissingClientIdIsFatal | main.go:74-77 | An empty Twitter client ID with a screen name listed stops start-up with "a client ID is required" |
| Exporter.TwitterNext | main.go:74-78 | The next screen name of a repeat-free list has no series registered yet |
| Exporter.YouTubeNext | main.go:89-93 | The next channel id of a repeat-free list has no series registered yet |
| Exporter.AllPiecesSeen | main.go:70 | Once the range loop has visited every piece, every entry was kept and every outcome taken |
| Exporter.AddTwitter | main.go:74-78 | The next screen name's construction is that entry's outcome; a failure is the whole loop's result, a success extends the adapters and registers exactly its four gauges |
| Exporter.AddYouTube | main.go:89-93 | The next channel's construction is that entry's outcome; a failure is the whole loop's result, a success extends the adapters and registers exactly its three gauges |
| Exporter.VisitTwitter | main.go:70-78 | One iteration: an empty piece changes nothing; any other either ends the loop with the loop's own error or extends the adapters and registrations by its entry |
| Exporter.VisitYouTube | main.go:85-93 | One iteration: an empty piece changes nothing; any other either ends the loop with the loop's own error or extends the adapters and registrations by its entry |
| Exporter.BuildTwitters | main.go:69-79 | The range loop over the pieces yields stop-at-first-failure construction of the non-empty pieces, and on success has registered exactly their gauges |
| Exporter.BuildYouTubes | main.go:84-94 | The range loop over the pieces yields stop-at-first-failure construction of the non-empty pieces, and on success has registered exactly their gauges |
| Exporter.SetUpTwitter | main.go:67-79 | Splitting the list at commas and running the loop yields stop-at-first-failure construction of the list's entries, and on success has registered exactly their gauges |
| Exporter.SetUpYouTube | main.go:82-94 | Splitting the list at commas and running the loop yields stop-at-first-failure construction of the list's entries, and on success has registered exactly their gauges |
| Exporter.NoChannelLabels | main.go:60-79 | Before the YouTube loop no registered series carries a channel_id label |
| Exporter.LaunchValid | main.go:59-94 | A started service is valid in its initial registry: counter and every gauge registered, no account polled twice |
| Exporter.Start | main.go:52-94 | Start-up ends as its specification says; a bad interval leaves the registry empty; on success the registry holds the counter and every adapter's gauges at 0 |

## Left out

- The HTTP endpoint (`SMUE_HTTP_PORT`, `SMUE_HTTP_PATH`, the handler and `ListenAndServe`) is left out. It only serves the registry. The two settings are read, but nothing uses them.
- The goroutine, the endless loop and the sleep between ticks are left out. One tick is modelled as `Poll.PollCycle`, and the parsed interval is kept in the service unused. Concurrency between ticks and scrapes is not modelled.
- Logging is modelled only as the sequence of fetch-error lines of one tick. Other lines are not modelled: progress messages, the interval message, and the "Error getting channel list" line that `getChannel` prints. Where the log is written is not modelled either.
- OAuth (token refresh, HTTP clients) is left out. The remote calls' answers are parameters.
- Metrics.Registry.Set: counts are stored as unbounded naturals, not converted to float64. Precision loss above 2^53 is not modelled.
- Metrics.Registry.Register: a second registration of the same series is excluded by its precondition. The library refuses it, and the model does not cover that path.
- Exporter.Start: lists that name an account twice are excluded, because the second registration would be refused. Exporter.SetUpTwitter and Exporter.SetUpYouTube require the same.
- YouTubePlatform.Construct and YouTubePlatform.NewYouTube: a found channel whose `Snippet` is nil is not modelled. Its title is read for the `channel_name` label during construction (platform/youtube.go:83, 91, 99), and every listed channel has one here.
- YouTubePlatform.Apply: a found channel whose `Statistics` is nil is not modelled. Its counts are read during a fetch (platform/youtube.go:133-135), and every listed channel has them here.
- The counts are natural numbers. The Twitter client's signed `int` counts are assumed non-negative, and YouTube's `uint64` counts are unbounded here.
- The help strings of the metrics are not part of a series' identity and are left out.
- `platform/platform.go` is not part of this model. It declares the `Interface` type, which neither adapter's behaviour depends on, and a second `getEnv` (platform/platform.go:10-16) that behaves like the one in `main.go` and that nothing calls. Only the `main.go` one is modelled, as `Exporter.GetEnv`.

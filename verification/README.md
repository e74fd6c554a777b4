# corona-slack-bot, modelled in Dafny

The bot polls a public statistics API for infection counts, decides whether the
new reading is worth reporting, and reports it to a Slack channel, either as a
new message, by editing its own latest message, or as a reply in that
message's thread. This project models the three pieces of decision logic in
`index.js` and the loop that ties the first two together:

- `Fetcher.dfy`: the fetcher's one-slot fallback cache (`getCoronaStats`). It
  starts as the all-zero snapshot. A fetch with a non-zero population replaces
  it. A fetch with a zero population, or one that throws, returns the cached
  snapshot unchanged.
- `Significance.dfy`: the significance decision of `tick`. It works over the
  last reported snapshot (`lastData`) and the time of that report (`lastTime`):
  the first tick reports; no change in infected and dead never reports; a
  change with no new deaths and fewer than `NEW_LIMIT` new infections waits
  four hours; anything else reports. `Notifier` is the closure's state, and
  `Notifier.Step` is one decision with its state update.
- `Publisher.dfy`: the choice in `setLastSlackMessage` between a thread reply,
  an edit in place and a new post.
- `Bot.dfy`: one tick (fetch, then decide, then hand the report to the
  publisher once) and a finite run of ticks. The lemmas about runs state what
  the state machine guarantees across ticks: the cache and `lastData` track
  what they should, the first tick always reports, two consecutive reports
  always differ and are either significant or four hours apart, and a report
  never carries data from a failed fetch.
- `Snapshots.dfy`, `Wrappers.dfy`: the snapshot record and `Option` (for
  JavaScript's `null`).

Time is an integer number of milliseconds, passed in with each tick.
`NEW_LIMIT` is an integer parameter (50 by default). The source compares the
numeric difference with the environment string; JavaScript coerces the string
to a number, and the model compares the integers. `SPAM_STRATEGY` and
`BOT_NAME` are string parameters.

Two behaviours of the code are kept as written:

- The first tick reports even when the first fetch fails. It then reports the
  all-zero snapshot (`Bot.FirstTickReports` with `Refresh(Zero, Error) == Zero`).
- The rule "a rise of at least NEW_LIMIT is reported" holds only when something
  changed. The no-change check runs first, so with `NEW_LIMIT <= 0` an
  unchanged reading is still suppressed. `Significance.SignificantIsReported`
  states the rule for a positive `NEW_LIMIT`.

## Model

| member | source | states |
|---|---|---|
| `Fetcher.Refresh` | index.js:31-45 | a fetch with a non-zero population returns its data (which becomes the cache); a failed fetch or a zero population returns the cache unchanged; the result is the cache or the fetched data and nothing else; a cache with a population never loses it |
| `Fetcher.CacheHoldsLatestUsable` | index.js:21-44 | after any sequence of fetches the cache holds the most recent fetch with a non-zero population, whatever failed after it |
| `Fetcher.CacheEmptyUntilUsable` | index.js:21-36 | the cache is the all-zero snapshot until the first usable fetch, and its population is zero exactly when no fetch so far was usable |
| `Fetcher.StatsCache.constructor` | index.js:21-29 | the cache starts as the all-zero snapshot |
| `Fetcher.StatsCache.Get` | index.js:31-45 | one call: the cache becomes `Refresh` of the old cache, and the returned value is the new cache content |
| `Significance.ShouldNotify` | index.js:74-96 | the first tick reports; an unchanged infected and dead count never reports; a change in deaths or a rise of at least NEW_LIMIT reports; any other change (falls included) reports exactly when four hours have passed since the last report |
| `Significance.DefaultLimitThreshold` | index.js:9 | with the default NEW_LIMIT of 50 and no new deaths, a rise of 50 is reported at once and a rise of 49 only after four hours |
| `Significance.SignificantIsReported` | index.js:86-91 | with a positive NEW_LIMIT, a change in deaths or a rise of at least NEW_LIMIT is always reported |
| `Significance.Notifier.constructor` | index.js:65-66 | no last report, last time 0 |
| `Significance.Notifier.Step` | index.js:74-99 | reports exactly when `ShouldNotify` holds; a report records the snapshot and the time; a suppression changes nothing |
| `Publisher.ChooseAction` | index.js:121-152 | an edit or a thread reply only targets the bot's own latest message (lookup ok, a message, a bot profile with the bot's name), by its timestamp; THREAD replies and every other strategy edits; anything else is always a new post, whatever the strategy; the result is a new post exactly when the latest message is not the bot's own or its timestamp is empty |
| `Publisher.DefaultStrategyEditsOwnMessage` | index.js:7 | under the default EDIT strategy a report overwrites the bot's own latest message, by its timestamp |
| `Bot.TickStep` | index.js:70-111 | the cache is refreshed by the tick's fetch; the tick reports exactly when `ShouldNotify` holds for the refreshed snapshot, and then reports that snapshot at the tick's time and records it as the last report; a tick that does not report keeps the last report; the first tick always reports |
| `Bot.RunTracksLastNotice` | index.js:64-99 | after any run, the cache is the fold of all fetches, there is a last report exactly when something was sent, and it is the last report sent, with its time |
| `Bot.RunExtendsPrefix` | index.js:157-160 | later ticks only append to the list of reports handed to the publisher; they never retract or change earlier entries of that list (on Slack, the EDIT strategy does overwrite the earlier message) |
| `Bot.FirstTickReports` | index.js:72-99 | the first tick always sends a report, of the cache after the first fetch (the all-zero snapshot if that fetch failed) |
| `Bot.ConsecutiveReportsAreWorthIt` | index.js:68-99 | of two consecutive reports the second changed infected or dead, and either is significant or came at least four hours after the first |
| `Bot.ReportsAreFetchedSnapshots` | index.js:72-99 | each report carries some tick's time and the cache content right after that tick's fetch |
| `Bot.ReportsNeverCarryFailedFetches` | index.js:33-44 | each report is the all-zero start value or the data of a fetch with a non-zero population, never data from a failed or empty fetch; a report with a zero population is the all-zero start value |
| `Bot.Bot.constructor` | index.js:20-29 | the process starts with the all-zero cache and no last report |
| `Bot.Bot.Tick` | index.js:70-111 | one tick fetches through the cache, decides, and returns the report to publish exactly when it reports, as `TickStep` says |
| `Bot.Bot.Loop` | index.js:157-160 | a run of ticks sends exactly the reports `Run` lists, and leaves the state `Run` computes |

## Left out

- The HTTP request and the JSON field extraction (`getVgApiData`, index.js:48-62): only the outcome is modelled, as `Ok(snapshot)` or `Error`. A missing, null or NaN population is falsy in JavaScript just like 0, and is modelled as population 0.
- The Slack calls (`channels.history`, `chat.postMessage`, `chat.update`): the lookup result is an input of `ChooseAction`, and the call made is its `Action`. A failing Slack call is not modelled.
- The per-100k rate and the message text (index.js:103-109): floating-point formatting. A report is modelled as the snapshot with its time.
- The timer (`setTimeout`, index.js:155-162) and the publish that is never awaited: `Loop` runs a finite sequence of ticks one after another. Overlapping ticks or publishes are not modelled.
- Configuration loading and the exit on missing variables (index.js:4-16), console output, and the clock: the configuration values and the time are parameters.
- `Publisher.ChooseAction`: a missing (`undefined`) timestamp is not modelled; timestamps are strings, and only the empty string counts as no target.

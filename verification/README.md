# go-rmq-monitor in Dafny

A model of the core of go-rmq-monitor, a daemon that samples RabbitMQ queues through the
management API and flags queues that are "stuck". A queue is stuck when its ready-message count
is above a minimum and has not fallen by at least one message per check over the recent window.
The model covers these parts of the program:

- the configuration: per-queue overrides, interval fallback, startup validation, the API URL;
- the allow-list filter over the fetched queues;
- the detector: stagnation and stuck tests, and the per-queue hysteresis machine;
- the five-minute alert throttle and the state transitions;
- the service: the scheduler that decides which queues are due at a tick, the ticker period,
  the check step, and the Slack notification gate with its cooldowns;
- the Slack message formatter and the webhook client's result folding;
- the logger's levels and line format;
- the command line's verbosity handling and the daemon re-exec argument rewrite.

Times are integer nanoseconds, and a Go zero `time.Time` is `None`. Go's `int` is an unbounded
`int`; its truncating `/` is `Durations.TruncDiv`. Go's `%` appears only in
`formatDuration`, on non-negative operands, where it agrees with Dafny's `%`. Rates are `real`.

The things the core reads from outside are parameters:

- the broker's answer to a fetch is a `Result`;
- the clock is read twice per check: `now` before the broker fetch (scheduling, notification
  cooldowns) and `analyzedAt` inside the detector after the fetch (snapshots, transitions,
  alerts), with `now <= analyzedAt`;
- each webhook's answer is `post(i, url, message)`;
- Go's `%.2f` and time layout are the two functions of `Slack.Renderers`;
- `json.Marshal` is an `encode` function, or the `json` field of `Logger.Fields`.

Modules, one per Go package or file:

| module | file | Go source |
|---|---|---|
| `Config` | config.dfy | internal/config/config.go |
| `RabbitMQ` | rabbitmq.dfy | internal/rabbitmq/client.go |
| `Analyzer` | analyzer.dfy | internal/analyzer/analyzer.go: the `Analyzer` class and the pure step |
| `AnalyzerProps` | analyzer_props.dfy | what repeated evaluations guarantee |
| `Monitor` | service.dfy | internal/monitor/service.go: the `Service` class |
| `Slack` | slack.dfy | internal/slack/formatter.go and types.go |
| `SlackClient` | slack_client.dfy | internal/slack/client.go |
| `Logger` | logger.dfy | internal/logger/logger.go: the `Logger` class |
| `Cli` | cli.dfy | cmd/monitor.go |

Helper modules: `Wrappers` (Option, Result), `Decimal` (Go's `%d` and `%03d` and their
inverse), `Durations` (time units, truncating division) and `Sequences` (subsequence
embeddings).

## Notes on the code

- The code keeps one `LastSlackAlert` per queue for both notification kinds. So a delivered
  alert holds back a recovery that comes within the recovery cooldown
  (`Monitor.AlertHoldsBackRecovery`).
- internal/monitor/service.go reads `cfg.Notifications.Slack`, but `config.Config` has no
  such field. The Slack settings are therefore a separate constructor argument of
  `Monitor.Service`.
- internal/monitor/service.go uses `slack.AlertTypeStuck` and `slack.AlertTypeRecovered`. The
  slack package declares only `AlertTypeAlerting` ("alerting") and `AlertTypeNotAlerting`
  ("not_alerting"). The model takes the first pair to mean the second (`Monitor.AlertTypeOf`).

## Model

| member | source | states |
|---|---|---|
| Config.GetDetectionConfig | internal/config/config.go:52-67 | each of the three detection fields is its override when present, else the global default |
| Config.NoOverridesGivesDefaults | internal/config/config.go:52-67 | a queue without overrides gets the global defaults unchanged |
| Config.OverridesAreIndependent | internal/config/config.go:56-64 | overriding the threshold never changes the other two resolved fields |
| Config.ResolveIdempotent | internal/config/config.go:52-67 | resolving a queue against its own resolution changes nothing |
| Config.GetCheckInterval | internal/config/config.go:71-76 | the queue's interval when present, else the global one |
| Config.Validate | internal/config/config.go:135-153 | accepts exactly the globally valid configurations; each error message is returned exactly when its check is the first to fail, in the code's order |
| Config.DefaultsAreValid | internal/config/config.go:116-132 | the built-in defaults pass validation |
| Config.ValidateIgnoresQueueOverrides | internal/config/config.go:135-153 | a queue with a 0 ns interval and threshold -1 passes validation and resolves to those values (finding F1, as written) |
| Config.FirstBadQueue | internal/config/config.go:135-153 | None exactly when every per-queue override is in bounds |
| Config.ValidateStrict | internal/config/config.go:135-153 | corrected validation: None exactly when the global checks and every per-queue bound hold; otherwise the first global error takes precedence |
| Config.StrictConfigResolvesSafely | internal/config/config.go:52-76 | under the corrected validation every resolved interval is positive and every resolved threshold is at least 1 |
| Config.GetRabbitMQURL | internal/config/config.go:156-162 | the URL starts with the scheme and "://", and its last colon is followed by exactly the decimal port |
| Config.URLRoundTrip | internal/config/config.go:156-162 | the URL's scheme, host and port can be read back from it, whatever the host contains |
| Config.SchemeRoundTrip | internal/config/config.go:157-161 | the scheme prefix says whether TLS is on |
| Config.HostPortRoundTrip | internal/config/config.go:161 | the port after the last colon reads back as the port |
| RabbitMQ.ConvertQueueInfo | internal/rabbitmq/client.go:79-97 | counters copied; the three rates come from the message stats, all zero when these are absent; the state is empty |
| RabbitMQ.FilterQueues | internal/rabbitmq/client.go:122-140 | the loop keeps exactly the allow-listed queues in order (all of them for an empty list) |
| RabbitMQ.FilterProperties | internal/rabbitmq/client.go:122-140 | empty list: identity; otherwise a queue is kept iff some entry names it, and kept as often as it occurs; the result is a subsequence of the input |
| RabbitMQ.KeepMembers | internal/rabbitmq/client.go:133-137 | a queue is in the result iff it is an input queue whose name is listed |
| RabbitMQ.KeepMultiplicity | internal/rabbitmq/client.go:133-137 | each queue keeps its number of occurrences, or disappears |
| RabbitMQ.KeepIsSubsequence | internal/rabbitmq/client.go:132-139 | the kept queues keep their input order |
| Analyzer.TrimHistory | internal/analyzer/analyzer.go:129-133 | the trimmed history has at most the limit number of samples |
| Analyzer.RecentWindow | internal/analyzer/analyzer.go:253-257 | the window has `threshold` samples, or all of them when there are fewer |
| Analyzer.RecentWindowIsSuffix | internal/analyzer/analyzer.go:253-257 | the window is the newest samples of the history, in order |
| Analyzer.IsMessageCountStagnant | internal/analyzer/analyzer.go:248-296 | stagnant only with two or more samples |
| Analyzer.IsQueueStuck | internal/analyzer/analyzer.go:207-245 | stuck iff the history is long enough, the latest count is above the minimum and the count is stagnant; the reason is empty exactly when not stuck |
| Analyzer.RecordSnapshot | internal/analyzer/analyzer.go:119-133 | only the history changes; it grows by the new sample, capped at threshold + 1, and the sample is last |
| Analyzer.OnStuck | internal/analyzer/analyzer.go:136-176 | a stuck verdict leaves the history, the name and the Slack time alone |
| Analyzer.OnHealthy | internal/analyzer/analyzer.go:177-197 | a healthy verdict leaves the history, the name and the Slack time alone |
| Analyzer.Step | internal/analyzer/analyzer.go:105-197 | one evaluation leaves a non-empty history of at most threshold + 1 samples, and never touches the name or the Slack time |
| Analyzer.StepHistory | internal/analyzer/analyzer.go:119-133 | the new history is the old one with the new sample appended, cut to its newest threshold + 1 samples; nothing is dropped while it fits |
| Analyzer.ProcessQueue | internal/analyzer/analyzer.go:105-197 | one queue of the loop creates or replaces that queue's entry only, keeps every other entry, and appends at most one alert and at most one transition |
| Analyzer.AnalyzeBatch | internal/analyzer/analyzer.go:104-198 | after the loop the table's names are the old names plus the names of the batch |
| Analyzer.AnalyzeBatchSnoc | internal/analyzer/analyzer.go:105-198 | the batch over a longer prefix is the batch over the shorter one plus one more queue |
| Analyzer.SafePrefixLength | internal/analyzer/analyzer.go:129-133 | the longest prefix the loop gets through before Go panics: at the first queue whose resolved threshold is negative (the trimming slice at line 132 for -2 and below, the index of the last sample at line 213 for -1) |
| Analyzer.Analyzer.constructor | internal/analyzer/analyzer.go:73-79 | the given defaults, no per-queue configurations, no states |
| Analyzer.Analyzer.SetQueueConfig | internal/analyzer/analyzer.go:82-86 | exactly that queue's configuration is replaced |
| Analyzer.Analyzer.GetConfigForQueue | internal/analyzer/analyzer.go:89-94 | the queue's own configuration when set, else the default |
| Analyzer.Analyzer.Analyze | internal/analyzer/analyzer.go:97-204 | states, alerts and transitions are the batch fold over the queues up to the first one that panics; `panicked` is true iff there is such a queue; configurations unchanged |
| Analyzer.Analyzer.Reset | internal/analyzer/analyzer.go:299-303 | the state table is emptied and nothing else changes |
| Analyzer.Analyzer.GetState | internal/analyzer/analyzer.go:306-318 | present iff the table has the queue, and then it is that state |
| Analyzer.Analyzer.RecordSlackAlert | internal/monitor/service.go:380 | only that queue's last-notification time changes, to `now` |
| AnalyzerProps.SteadyDrainTotal | internal/analyzer/analyzer.go:286-291 | a history that drops by one per step drops by at least its length minus one overall |
| AnalyzerProps.WindowKeepsDrain | internal/analyzer/analyzer.go:253-257 | the recent window of a steadily drained history is steadily drained |
| AnalyzerProps.SteadyDrainNotStagnant | internal/analyzer/analyzer.go:269-295 | with a threshold of at least two checks, a queue drained by at least one message per check is never stagnant |
| AnalyzerProps.ThresholdOneAlwaysStagnant | internal/analyzer/analyzer.go:253-283 | with a threshold of one check, any history of two or more samples whose newest count is positive is stagnant (finding F3, as written) |
| AnalyzerProps.ThresholdOneFlagsDrainingQueue | internal/analyzer/analyzer.go:207-245 | 50 then 40 idle messages with a threshold of one check: stuck, although draining (finding F3, as written) |
| AnalyzerProps.IsMessageCountStagnantCorrected | internal/analyzer/analyzer.go:248-296 | the corrected test compares at least two samples; it agrees with the code from a threshold of two on |
| AnalyzerProps.CorrectedSteadyDrainNotStagnant | internal/analyzer/analyzer.go:269-295 | under the corrected test a steadily drained queue is never stagnant, for every threshold of one or more (finding F3, corrected) |
| AnalyzerProps.CorrectedThresholdOneDrainingHealthy | internal/analyzer/analyzer.go:253-283 | under the corrected test, 50 then 40 with a threshold of one check is not stagnant (finding F3, corrected) |
| AnalyzerProps.ConstantCountIsStagnant | internal/analyzer/analyzer.go:280-283 | a positive count that never moves is stagnant |
| AnalyzerProps.StagnationReadsOnlyCounts | internal/analyzer/analyzer.go:248-296 | the stagnation test depends only on the ready counts |
| AnalyzerProps.VerdictIgnoresRates | internal/analyzer/analyzer.go:220-244 | whether a queue is stuck does not depend on the rates or the rate threshold; rates only choose the reason |
| AnalyzerProps.RatesDisabledReason | internal/analyzer/analyzer.go:222-242 | with a negative rate threshold, a stuck queue's reason is always the no-progress one |
| AnalyzerProps.ExampleStuckWithoutConsumers | internal/analyzer/analyzer.go:225-232 | three samples of 50 idle messages with defaults: stuck, for lack of consumers |
| AnalyzerProps.ExampleDrainingIsHealthy | internal/analyzer/analyzer.go:285-295 | 50, 40, 25 with defaults: not stuck |
| AnalyzerProps.StepCounter | internal/analyzer/analyzer.go:136-196 | the streak grows by one on a stuck verdict and resets to 0 otherwise |
| AnalyzerProps.StepTransition | internal/analyzer/analyzer.go:139-193 | enters stuck iff stuck, not already stuck and the streak reaches the threshold; leaves iff healthy while stuck; only then do the state and stuck-since time move |
| AnalyzerProps.StepTransitionPayload | internal/analyzer/analyzer.go:142-190 | a recovery carries the time since entering stuck and no reason; an entry carries the verdict's reason |
| AnalyzerProps.StepAlert | internal/analyzer/analyzer.go:155-175 | an alert fires iff stuck, at the threshold and five minutes after the previous alert; only then does the alert time move |
| AnalyzerProps.NewStateConsistent | internal/analyzer/analyzer.go:111-117 | a fresh state satisfies the state invariant |
| AnalyzerProps.StepPreservesConsistent | internal/analyzer/analyzer.go:105-197 | one evaluation keeps the invariant: in stuck iff the streak is at the threshold, with a stuck-since time, and a bounded history |
| AnalyzerProps.Run | internal/analyzer/analyzer.go:105-197 | one result per poll of a series |
| AnalyzerProps.RunStep | internal/analyzer/analyzer.go:105-197 | the k-th result is the evaluation of the k-th poll from the state the earlier ones left |
| AnalyzerProps.RunConsistent | internal/analyzer/analyzer.go:105-197 | an evaluation that keeps the invariant keeps it over any series |
| AnalyzerProps.AlertMarkPersists | internal/analyzer/analyzer.go:174 | the alert time stays put across polls without an alert |
| AnalyzerProps.AlertsApart | internal/analyzer/analyzer.go:155-175 | any two alerts of a throttled series are at least the throttle apart |
| AnalyzerProps.QuietSteps | internal/analyzer/analyzer.go:151-192 | the health state and stuck-since time stay put across polls without a transition |
| AnalyzerProps.Alternation | internal/analyzer/analyzer.go:139-181 | consecutive transitions alternate: each starts where the previous one ended |
| AnalyzerProps.EpisodeDuration | internal/analyzer/analyzer.go:152-183 | a recovery reports the time since the transition that entered stuck |
| AnalyzerProps.DetectorThrottles | internal/analyzer/analyzer.go:155-175 | the detector satisfies the throttle property |
| AnalyzerProps.DetectorHysteresis | internal/analyzer/analyzer.go:139-193 | the detector satisfies the hysteresis property |
| AnalyzerProps.DetectorKeepsConsistent | internal/analyzer/analyzer.go:105-197 | the detector keeps the state invariant |
| AnalyzerProps.Results | internal/analyzer/analyzer.go:105-197 | one detector result per poll |
| AnalyzerProps.DetectorStep | internal/analyzer/analyzer.go:105-197 | the k-th detector result is `Step` from the state left by the earlier polls |
| AnalyzerProps.TraceConsistent | internal/analyzer/analyzer.go:105-197 | the detector's state invariant holds before every poll |
| AnalyzerProps.AlertsFiveMinutesApart | internal/analyzer/analyzer.go:157-158 | two alerts for one queue are at least five minutes apart |
| AnalyzerProps.TransitionsAlternate | internal/analyzer/analyzer.go:139-193 | the detector's transitions alternate between entering and leaving stuck |
| AnalyzerProps.FirstTransitionEntersStuck | internal/analyzer/analyzer.go:139-181 | from a fresh state the first transition enters stuck |
| AnalyzerProps.StuckDurationSpansEpisode | internal/analyzer/analyzer.go:152-183 | a recovery's stuck duration is exactly the episode's length |
| AnalyzerProps.BatchUntouched | internal/analyzer/analyzer.go:105-117 | a queue not in the batch keeps its state, or its absence |
| AnalyzerProps.BatchAppendsOnly | internal/analyzer/analyzer.go:150-191 | alerts and transitions are only appended, at most one of each per queue |
| AnalyzerProps.Table | internal/analyzer/analyzer.go:105-117 | every queue of the batch has an entry afterwards |
| AnalyzerProps.TableStepsEachOnce | internal/analyzer/analyzer.go:105-117 | with distinct names each queue's entry is one update of its state before the batch |
| AnalyzerProps.TableUntouched | internal/analyzer/analyzer.go:105-117 | names not in the batch keep their entry |
| AnalyzerProps.ProcessQueueStates | internal/analyzer/analyzer.go:107-117 | one queue replaces exactly its own entry |
| AnalyzerProps.BatchTable | internal/analyzer/analyzer.go:105-198 | the batch's state table is the table fold of the per-queue updates |
| AnalyzerProps.BatchStepsEachOnce | internal/analyzer/analyzer.go:105-198 | with distinct names each queue is evaluated exactly once, with its own configuration |
| Monitor.IntervalFor | internal/monitor/service.go:197-200 | the queue's interval, else the global one; positive when all intervals are |
| Monitor.Boundary | internal/monitor/service.go:204-206 | the latest scheduled time: at or before `now` and less than one interval earlier, for `now` at or after the start |
| Monitor.IsDue | internal/monitor/service.go:209-218 | a never-checked queue is due; a due queue was last checked before `now`; a queue last checked at or after the start and at least one interval ago is due |
| Monitor.BoundariesCoincide | internal/monitor/service.go:204-206 | two boundaries less than an interval apart are the same |
| Monitor.NotDueAgainInPeriod | internal/monitor/service.go:209-218 | a queue checked at t is not due again before the next boundary after t |
| Monitor.DueAgainNextPeriod | internal/monitor/service.go:209-218 | from the next boundary on it is due again |
| Monitor.TickerInterval | internal/monitor/service.go:127-133 | the minimum of the global and the per-queue intervals, attained by one of them; positive iff every interval is |
| Monitor.SelectDue | internal/monitor/service.go:193-245 | no more queues are picked than fetched |
| Monitor.SelectionFrame | internal/monitor/service.go:220-222 | only picked queues' records change, each to `now`; no record disappears |
| Monitor.DueIsSubsequence | internal/monitor/service.go:194-221 | the picked queues are a subsequence of the fetched ones |
| Monitor.SelectStep | internal/monitor/service.go:195-222 | with distinct names the last queue is picked iff due by the old table, and earlier picks are unaffected |
| Monitor.DueIffScheduled | internal/monitor/service.go:195-222 | with distinct names each queue is picked iff it is due by the table as it was before the tick |
| Monitor.SameNameOncePerTick | internal/monitor/service.go:209-222 | a second queue with the same name (another vhost) is not picked in the same tick |
| Monitor.AlertTypeOf | internal/monitor/service.go:327-341 | alerts are sent as "alerting", recoveries as the other type |
| Monitor.KindOf | internal/monitor/service.go:327-345 | an alert iff the transition enters stuck; a recovery iff it enters healthy and recoveries are enabled |
| Monitor.AlertFor | internal/monitor/service.go:359-372 | the Slack alert carries the transition's queue, time, duration and the kind's type |
| Monitor.Handle | internal/monitor/service.go:317-388 | only the transition's queue's last-notification time changes, to `now`, and only when the alert is delivered; an error iff the state is missing or a due send fails |
| Monitor.HandleTouchesOneTime | internal/monitor/service.go:348-380 | handling one transition changes at most that queue's last-notification time, to `now` |
| Monitor.DeliveredAfterCooldown | internal/monitor/service.go:348-356 | a delivered notification comes at least its kind's cooldown after the previous one |
| Monitor.AlertHoldsBackRecovery | internal/monitor/service.go:348-380 | after a delivered alert, a recovery within the recovery cooldown is held back |
| Monitor.NotifyAll | internal/monitor/service.go:264-272 | at most one error per transition |
| Monitor.NotifyAllStep | internal/monitor/service.go:265-271 | one more transition extends the outcome of the earlier ones |
| Monitor.NotifyAllFrame | internal/monitor/service.go:264-272 | a check's notifications change only last-notification times, each kept or set to `now`; queues without a transition are untouched |
| Monitor.TablesResolveConfiguredQueues | internal/monitor/service.go:54-59 | the interval and detection tables hold exactly the configured names, each entry resolved from a configured queue of that name |
| Monitor.StrictConfigSchedulable | internal/monitor/service.go:54-59 | under the corrected validation every interval is positive and every threshold is at least 1 (finding F1, corrected) |
| Monitor.ValidatedButUnschedulable | internal/monitor/service.go:127-140 | a configuration the validation accepts gives an interval table with a zero interval (finding F1, as written) |
| Monitor.Service.constructor | internal/monitor/service.go:33-113 | a detector with the resolved per-queue configurations, the interval table, an empty last-check table, and a Slack client exactly when enabled |
| Monitor.Service.HandleStateTransition | internal/monitor/service.go:317-388 | the error and the new state table are those of `Handle` |
| Monitor.Service.NotifyTransitions | internal/monitor/service.go:264-272 | the errors and the new state table are those of `NotifyAll` |
| Monitor.Service.SelectDueQueues | internal/monitor/service.go:193-245 | the picked queues and the new last-check table are those of `SelectDue` |
| Monitor.Service.PerformCheck | internal/monitor/service.go:177-296 | a failed fetch changes nothing; otherwise the filtered, due queues are recorded at the scheduling time; then nothing, a panic, or the detector's result at the later detector time, with the notification errors (at the scheduling time) when Slack is on |
| Slack.FormatNumberRoundTrip | internal/slack/formatter.go:116-121 | removing the comma and parsing gives the number back |
| Slack.FormatNumber | internal/slack/formatter.go:116-121 | no comma below 1000; from 1000 on a comma fourth from the end, followed by three digits worth the number modulo 1000 |
| Slack.FormatNumberSeparators | internal/slack/formatter.go:116-121 | exactly one comma from 1000 on, none below |
| Slack.FormatNumberMillion | internal/slack/formatter.go:120 | 1234567 is written "1234,567": one separator only |
| Slack.WithoutSeparator | internal/slack/formatter.go:116-121 | without its comma the rendering is the plain decimal digits |
| Slack.ThousandsValue | internal/slack/formatter.go:120 | the digits around the comma read back as the number |
| Slack.DurationSpan | internal/slack/formatter.go:124-142 | the units shown: whole seconds under a minute, minutes and seconds under an hour, hours and minutes beyond, each bracketing the duration |
| Slack.RenderSpan | internal/slack/formatter.go:129-141 | the text starts with the leading count and its unit, and stops there exactly when the smaller unit's count is zero |
| Slack.FormatDuration | internal/slack/formatter.go:124-142 | under a minute: the whole seconds and " seconds"; under an hour: the whole minutes and " minutes", followed by the seconds unless they are zero; from an hour on: the whole hours and " hours", followed by the minutes unless they are zero |
| Slack.AlertingMessage | internal/slack/formatter.go:17-64 | five blocks; the count field shows the ready messages with a thousands separator, a field shows the stuck streak, and the problem block states the reason |
| Slack.RecoveryMessage | internal/slack/formatter.go:66-113 | five blocks; a field shows how long the queue was alerting as a readable duration, and the current count is shown with a thousands separator |
| Slack.FormatAlert | internal/slack/formatter.go:9-113 | the alerting text exactly for "alerting"; five blocks, header, three sections, context with the time; the queue field first |
| Slack.LayoutsDiffer | internal/slack/formatter.go:17-113 | the two layouts' headers always differ |
| SlackClient.New | internal/slack/client.go:28-39 | a zero timeout becomes ten seconds; any other configuration is kept |
| SlackClient.Failure | internal/slack/client.go:75-84 | a failed webhook's error carries its 1-based position |
| SlackClient.Deliver | internal/slack/client.go:60-96 | the loop's result is `DeliveryResult`: none when disabled, an error when no URL is configured |
| SlackClient.SendAlert | internal/slack/client.go:42-97 | formats once and returns the delivery result |
| SlackClient.TallyMeaning | internal/slack/client.go:61-89 | no success counted iff none succeeded; an error kept iff one failed, and it is the last |
| SlackClient.SendFailsIff | internal/slack/client.go:91-96 | with URLs configured, the send fails iff no webhook succeeded and one failed; the error is the last failure's |
| SlackClient.OneSuccessSuffices | internal/slack/client.go:91-96 | one webhook answering 200 makes the send succeed |
| SlackClient.AllEmptySucceeds | internal/slack/client.go:64-96 | a list of empty URLs succeeds without posting |
| Logger.ParseLevel | internal/logger/logger.go:67-80 | one of the four levels; an unknown name means info |
| Logger.LevelToString | internal/logger/logger.go:83-96 | one of the four names; an out-of-range level prints as info |
| Logger.NamesMatchLevels | internal/logger/logger.go:67-96 | the i-th name and level i map to each other both ways |
| Logger.NameRoundTrip | internal/logger/logger.go:67-96 | printing a parsed level name gives the name back |
| Logger.LevelRoundTrip | internal/logger/logger.go:67-96 | parsing a printed level gives the level back |
| Logger.FormatText | internal/logger/logger.go:135-148 | starts with "[time] level: message", ends in a newline, and is exactly that header and newline without fields or error |
| Logger.FormatTextWithFields | internal/logger/logger.go:135-148 | with fields, their JSON follows the header after one space and comes before the error part, if any, and the final newline |
| Logger.FormatTextEndsWithError | internal/logger/logger.go:143-147 | an entry with an error ends with " error=" and the error |
| Logger.FormatTextOneLine | internal/logger/logger.go:135-148 | when no part holds a newline, the line's only newline is the last character |
| Logger.Render | internal/logger/logger.go:118-125 | every written output ends in a newline |
| Logger.Logger.constructor | internal/logger/logger.go:56-63 | the parsed level, the format, nothing written |
| Logger.Logger.Log | internal/logger/logger.go:99-132 | below the threshold nothing is written; otherwise exactly one rendered line is appended |
| Cli.AdjustLogging | cmd/monitor.go:61-66 | three or more `-v` give debug, exactly two info, fewer leave the settings as configured |
| Cli.TwoFlagsOverrideDebug | cmd/monitor.go:62-66 | `-vv` makes a configured debug level less verbose |
| Cli.WithoutD | cmd/monitor.go:128-133 | no 'd' remains and the result is no longer |
| Cli.WithoutDCounts | cmd/monitor.go:128-133 | every other character keeps its number of occurrences |
| Cli.WithoutDKeeps | cmd/monitor.go:128-133 | a string without 'd' is unchanged |
| Cli.RemoveD | cmd/monitor.go:128-133 | the loop computes `WithoutD` |
| Cli.StripDaemonArgs | cmd/monitor.go:115-143 | the loop computes `ChildArgs` |
| Cli.ChildArgs | cmd/monitor.go:117-143 | no more arguments than given |
| Cli.ChildArgsConcat | cmd/monitor.go:117-143 | arguments are rewritten independently, so order is kept |
| Cli.DaemonFlagsDropped | cmd/monitor.go:119-121 | "--daemon" and "-d" are dropped |
| Cli.LeadingDCluster | cmd/monitor.go:124-139 | a cluster led by 'd' loses every 'd', and is dropped when nothing is left |
| Cli.LeadingDKeepsRest | cmd/monitor.go:124-139 | "-dvvv" becomes "-vvv" |
| Cli.LeadingDOnlyDropped | cmd/monitor.go:134-138 | "-dd" is dropped |
| Cli.OthersPassThrough | cmd/monitor.go:142 | every other argument passes unchanged and in order |
| Cli.NoStandaloneDaemonFlag | cmd/monitor.go:117-143 | no child argument is "-d" or "--daemon" |
| Cli.TrailingDSurvives | cmd/monitor.go:124-126 | "-vd" reaches the child unchanged and still sets the daemon flag (finding F2, as written) |
| Cli.DashRestNotDaemon | cmd/monitor.go:32 | a dash and letters other than 'd' do not set the daemon flag |
| Cli.RewriteStrictNeverDaemon | cmd/monitor.go:117-143 | the corrected rewrite never passes on an argument that names the daemon flag |
| Cli.ChildArgsStrict | cmd/monitor.go:117-143 | the corrected rewrite gives no more arguments than given |
| Cli.StrictChildNeverDaemon | cmd/monitor.go:117-143 | no argument of the corrected child list sets the daemon flag (finding F2, corrected) |
| Cli.StrictKeepsOthers | cmd/monitor.go:142 | both rewrites pass every non-daemon argument unchanged |
| Cli.StrictDropsTrailingD | cmd/monitor.go:124-139 | the corrected rewrite hands "-vd" on as "-v" |
| Decimal.ParseIntRoundTrip | internal/slack/formatter.go:118 | Go's `%d` rendering reads back as the number |
| Decimal.Pad3 | internal/slack/formatter.go:120 | Go's `%03d`: three digits worth the number |
| Durations.TruncDiv | internal/monitor/service.go:205 | Go's truncating division: the quotient brackets the dividend from the zero side |

## Left out

- Concurrency is not modelled: the `Start` ticker loop, `Stop`, the stop channel, the wait
  group and the mutexes. A check is one call of `Monitor.Service.PerformCheck`.
- `Monitor.TickerInterval` computes the ticker period. `time.NewTicker` itself, and its panic
  on a non-positive period, are not modelled. Instead `PerformCheck` requires `Schedulable()`,
  which holds exactly when the period is positive.
- The service's log calls (stuck-queue warnings, per-queue debug lines, summaries) are left
  out: they change no state the model tracks.
- The logger is modelled on its own, by `Logger.Logger.Log`.
- `rabbitmq.NewClient` and its connection test are not modelled. `GetQueues` and `GetQueue`
  are I/O; the broker's answer is the `fetch` parameter of `PerformCheck`.
- `convertDetailedQueueInfo` is the same conversion as `RabbitMQ.ConvertQueueInfo` and is not
  modelled separately.
- `config.Load` is not modelled: the viper file reading and the unmarshalling. Its defaults are
  `Config.DefaultConfig`, and its validation is `Config.Validate`.
- Go's `%.2f` float formatting and the UTC time layout are the `Slack.Renderers` parameters.
- `json.Marshal` is not modelled.
  - In the logger it is the `encode` parameter, and in `formatText` the `json` field of
    `Logger.Fields`.
  - Its failure in `SendAlert` is not modelled. A `Message` of strings cannot fail to marshal.
- The HTTP POST is the `post` parameter. The same function answers every send of one check.
- `Slack.DurationSpan` works on exact integer nanoseconds. Go goes through `float64` seconds,
  minutes and hours. Float rounding for durations above 2^53 ns is not modelled.
- `time.Sub` saturation and int64 overflow are not modelled. The only exception is a zero
  time, for which `Analyzer.Elapsed` gives the maximum duration.
- Analyzer.Analyzer.Analyze: when a queue's resolved threshold is negative, Go panics partway
  through that queue. The model stops before that queue and reports `panicked`. The state the
  panicking queue had already changed is not modelled, because the process aborts.
- `GetQueueState` returning a pointer through which the service writes `LastSlackAlert` is
  modelled as `Analyzer.Analyzer.RecordSlackAlert`.
- The logger's `New` is partly modelled. Directory and file creation and their errors are left
  out; the level and format it installs are `Logger.Logger.constructor`.
- The `Debug`, `Info`, `Warn` and `Error` wrappers are `Log` at a fixed level. `Close` is I/O.
- File and standard output receive the same lines, modelled as one `written` sequence.
- The PID file, `runMonitor`'s signal handling, and `exec.Command`, `Start` and `Release` in
  `runAsDaemon` are not part of this model. Only the argument rewrite is.
- `GetConfig` of the Slack client is a plain field read.
- Slack.FormatAlert states the layout, the header, the block kinds, the first field and the
  time line. It does not state the text of every field.

## Findings

The rows are findings F1, F2 and F3, in order.

| source | as written | input that shows it | evidently intended | confidence | as-written member | corrected member |
|---|---|---|---|---|---|---|
| internal/config/config.go:135-153 | `validate` checks only the global interval and threshold, never a queue's `check_interval` or `threshold_checks` override | one queue with `check_interval: 0s` and `threshold_checks: -1`: it is accepted. The ticker period is then 0, and `time.NewTicker` panics when the service starts (internal/monitor/service.go:140), before any check runs. With a threshold of -1 the history is trimmed to nothing, and the stuck test's index of the last sample panics (internal/analyzer/analyzer.go:213); a threshold of -2 or less already makes the trimming slice at internal/analyzer/analyzer.go:132 go out of range | the same bounds on every override as on the global values | medium, not executed | Config.ValidateIgnoresQueueOverrides, Monitor.ValidatedButUnschedulable | Config.ValidateStrict, Config.StrictConfigResolvesSafely, Monitor.StrictConfigSchedulable |
| cmd/monitor.go:124-139 | only a short cluster whose first letter is 'd' has its 'd' removed | `monitor -vd`: the child gets "-vd", parses the daemon flag again and re-executes itself instead of monitoring | remove 'd' from every short cluster, so the child never sees the daemon flag | high, not executed | Cli.TrailingDSurvives | Cli.RewriteArgStrict, Cli.ChildArgsStrict, Cli.StrictChildNeverDaemon, Cli.StrictDropsTrailingD |
| internal/analyzer/analyzer.go:253-283 | the stagnation window holds `threshold_checks` samples, so with a threshold of 1 it is the newest sample alone and its first and last counts are equal | `threshold_checks: 1` (accepted by validation) and ready counts 50 then 40 with no consumers: reported stuck on the second check although the queue is draining, against the code's own statements that a falling count is healthy (internal/analyzer/analyzer.go:234) and that the history keeps threshold + 1 samples to allow a comparison (internal/analyzer/analyzer.go:129) | a window of at least two samples (the trimmed history keeps threshold + 1 samples so that two can be compared), so that a steady drain is never stagnant | medium, not executed | AnalyzerProps.ThresholdOneAlwaysStagnant, AnalyzerProps.ThresholdOneFlagsDrainingQueue | AnalyzerProps.IsMessageCountStagnantCorrected, AnalyzerProps.CorrectedSteadyDrainNotStagnant, AnalyzerProps.CorrectedThresholdOneDrainingHealthy |

Two behaviours are proved but not claimed as defects:

- `-vv` lowers a configured debug level to info (`Cli.TwoFlagsOverrideDebug`).
- Of two fetched queues with the same name in different virtual hosts, only the first is
  checked in a tick (`Monitor.SameNameOncePerTick`).

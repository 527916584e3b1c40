# Xray Checker: a verified model

Xray Checker is a Go service that checks proxies through a generated Xray configuration, keeps statistics about
their outages, raises Telegram alerts, collects reports from remote nodes and follows a master's subscription list.
This project models its stateful core in Dafny and proves what that core keeps over whole runs.

| files | what they model |
|---|---|
| `Rolling.dfy`, `RollingProofs.dfy`, `SummaryProofs.dfy`, `ClockProofs.dfy` | the capped on/off log of each proxy, the two algorithms that read downtime from it, what their readings mean, and what they need of the clock |
| `Ledger.dfy`, `LedgerProofs.dfy`, `LedgerRuns.dfy` | the statistics store: totals, incident list with two eviction rules, pruning |
| `Latency.dfy` | the latency ring and its interpolated percentiles |
| `Metrics.dfy`, `Registry.dfy` | snapshots; nodes that are pending, up or down, the sweep and the one-shot grace snapshot |
| `Alerts.dfy`, `AlertProofs.dfy`, `AlertOutcome.dfy`, `AlertTiming.dfy` | the alert tracker and `ProcessSnapshot`; what one call announces and leaves standing; its invariants over runs |
| `AlertLedger.dfy`, `BotLedger.dfy` | `ProcessSnapshot` as the caller of the statistics store |
| `AlertPipeline.dfy`, `GraceProofs.dfy` | registry and alert pipeline as one system, other readers included |
| `Diagnostics.dfy` | the concurrent diagnostics fan-out as interleaved steps |
| `Verdicts.dfy` | status and root cause of a diagnosed proxy, and the rewriting of target errors before it |
| `UrlStore.dfy`, `ReconcileProofs.dfy` | the subscription store with failing writes, and reconciliation with rollback |
| `StableIds.dfy`, `IdAssignment.dfy`, `IdRanks.dfy`, `IdProofs.dfy`, `ConfigSets.dfy` | connection identities, collision splitting, comparison of configuration sets |
| `ValidatedConfig.dfy`, `Pruning.dfy` | generated inbounds, outbounds and routes; the prune-and-retry loop |
| `Splitter.dfy`, `SplitterProofs.dfy` | the HTML-aware message splitter |
| `RateLimiter.dfy`, `AuthLimiter.dfy`, `LoginProofs.dfy` | the token bucket and the login lockout |
| `Text.dfy`, `CodePoints.dfy`, `Sorting.dfy`, `Options.dfy` | byte strings, decimal rendering, trimming, UTF-8, stable sorting, missing values |

Code that changes state step by step is a class or a method with loops, specified by a function on values; the
results about runs are lemmas about those functions. Network, files, clocks, hashing, validation and sending are
parameters: a clock reading is an argument, a write that may fail is an oracle over the number of writes, the hash
is any function. A string is a Go string, a sequence of bytes: one char below 256 per byte, so that U+00A0 is the two
chars C2 A0, and lengths and trimming are those of the source for any text, valid UTF-8 or not. What the Xray core reads
has been through a JSON file, where each byte that is not UTF-8 has become U+FFFD (`Text.Coerced`).

## Where the code does not do what is expected of it

Each of these is a lemma that says exactly when the expectation is met.

- Recording a change of state leaves a log on which the two downtime readings agree, if and only if its time is not
  before the last event kept, or it ends an outage in a log whose kept events all fall on one second
  (`ClockProofs.RecordAgreesIff`). Otherwise `UptimePercent` can even exceed 100 (`RollingProofs.SteppedBackClock`).
- Pruning forgets the totals of a proxy but not its open incident. Open incidents stay tied to current outages
  throughout a run if and only if no pruning forgets a proxy that has one open (`LedgerProofs.TrackedIffSafelyPruned`);
  otherwise a proxy can come to have two open incidents (`LedgerProofs.PrunedWhileDown`). In runs of `ProcessSnapshot`,
  which does the pruning, that is if and only if no call meets an open incident of a proxy that its snapshot does not show
  enabled while it shows others (`AlertLedger.IncidentsTrackedIff`).
- A call orphans an open alert exactly when its proxy is missing from the snapshot (`AlertProofs.ProcessKeepsSound`). In
  the whole system, with any readers of the merged snapshot, alerts stay with proxies last seen down if and only if each
  feed comes while every proxy with an open alert is still shown (`GraceProofs.SoundThroughoutIff`). A reader other than
  the alert pipeline, such as the one at node_manager.go:135-144, can use up the grace snapshot that would show it
  (`GraceProofs.GraceSpentRun`).
- A reconciliation drops what the master no longer wants if and only if every such URL is stored trimmed
  (`ReconcileProofs.ManagedIsDesired`). One stored with surrounding white space is never dropped; and if the master wants
  its trimmed form, that form is dropped instead and every later run reloads, for ever. Runs settle after the first if and
  only if there is no such pair (`ReconcileProofs.RunsConvergeIff`, `ReconcileProofs.WantedIsLost`).
- Ids survive every reordering if and only if name and subscription name tell the members of each colliding group apart
  (`IdProofs.OrderFreeIffDistinguished`), though the comment on `AssignStableIDs` promises it of any set.
- Label edits are seen by `IsConfigsEqual` within an alphabet if and only if values hold no unit separator and keys no
  record separator, or values no record separator and keys no unit separator (`ConfigSets.SeparatesIff`).
- The proxy pruned from a rejected configuration is the one the core complained of exactly if its name is UTF-8, does not
  start with white space and does not hold ` > ` (`Pruning.NamedIsPruned`); with every core that names what it refuses by
  the tags it read, exactly the refused proxies are dropped if and only if their names are like that
  (`Pruning.OnlyRefusedIffSafe`). A name can get another proxy pruned (`Pruning.AnotherIsPruned`).
- `splitMessage` can exceed its limit, by as much as one line adds to the closing tags and no more
  (`SplitterProofs.ChunksAlmostFit`, `SplitterProofs.LimitExceeded`). Texts whose lines each fit and may add g bytes to the
  closers keep every limit from 11 up, if and only if g is too small for one closer (`SplitterProofs.LimitKeptIff`).
- The rate limiter's sleep is cut to whole nanoseconds: a lone waiter is granted on its next try if and only if nothing
  was cut, and one more nanosecond always suffices (`RateLimiter.TruncatedSleep`).
- The sweep of old login records is invisible in every run if and only if the window is at most ten minutes, or every
  failure locks and a lock lasts at least the window (`AuthLimiter.SweepInvisibleIff`).

One comment in the source is not borne out and has no lemma of its own: new URLs are said to be validated before the store
is touched (subscription/reconcile.go:22-25), but the code validates each URL just before adding it, after earlier ones
have been stored. The model follows the code, and its failures roll back either way.

## Model

| member | source | states |
|---|---|---|
| `Rolling.RollingStats.constructor` | telegram/stats.go:514-522 | an empty log; a size that is not positive becomes 1000 |
| `Rolling.RollingStats.Record` | telegram/stats.go:525-539 | only the named proxy's history changes: a repeated state is dropped, otherwise the event is appended and the oldest fall off beyond the limit |
| `Rolling.RollingStats.UptimePercent` | telegram/stats.go:556-624 | the loop with its running state computes the reading that `SummaryProofs.UptimeMeans` characterises |
| `Rolling.RollingStats.FlapCount24h` | telegram/stats.go:645-661 | the count that `SummaryProofs.FlapsCount` characterises |
| `Rolling.RollingStats.Outages` | telegram/stats.go:790-803 | pairs offline and online events into outages, the pending one ending now |
| `Rolling.RollingStats.ClipAll` | telegram/stats.go:805-824 | total length and number of the outages clipped to the window, empty ones not counted |
| `Rolling.RollingStats.IncidentStats` | telegram/stats.go:770-846 | the summary that `SummaryProofs.SummaryMeans` characterises |
| `RollingProofs.RecordedShape` | telegram/stats.go:525-539 | after any run of `Record` the log alternates, is no longer than the limit and ends with the last recorded state |
| `RollingProofs.RecordedSorted` | telegram/stats.go:525-539 | nondecreasing calls leave a sorted log made only of events that were recorded |
| `RollingProofs.CappedIsSuffix` | telegram/stats.go:525-539 | the capped log is always the newest part of the log kept without a limit |
| `SummaryProofs.RecordedAreChanges` | telegram/stats.go:525-539 | the log is the newest of all changes of state among the calls, each with its time, and nothing else |
| `RollingProofs.SweepIsOfflineSeconds` | telegram/stats.go:556-624 | the sweep counts exactly the seconds whose latest event is offline |
| `RollingProofs.ClippedCounts` | telegram/stats.go:790-824 | from any point of the scan, the clipped intervals still to come add up to the offline seconds still to come |
| `RollingProofs.DowntimeAgrees` | telegram/stats.go:556-846 | sweep and clipped intervals give the same downtime, the offline seconds of the window, never more than the observed span, so neither clamp fires |
| `RollingProofs.DowntimeAgreesOnEveryRun` | telegram/stats.go:525-846 | the same for the log left by every run of `Record` with nondecreasing, nonnegative times |
| `RollingProofs.UptimeIsOnlineShare` | telegram/stats.go:556-624 | uptime is the share of online seconds in the observed part of the window, between 0 and 100 |
| `RollingProofs.SteppedBackClock` | telegram/stats.go:594-619 | a history with decreasing times for which the readings disagree and uptime is 130 percent |
| `ClockProofs.ClippedMore` | telegram/stats.go:790-824 | what one more event does to the clipped downtime, whatever its time |
| `ClockProofs.DisagreeAcross` | telegram/stats.go:556-824 | a change recorded before the last of several events makes the readings of the two seconds around that event differ |
| `ClockProofs.DisagreeBefore` | telegram/stats.go:556-824 | an outage recorded before everything else makes the readings differ |
| `ClockProofs.AgreeIffClockKept` | telegram/stats.go:525-846 | one more event in an ordered log: all readings, for every window and later instant, agree if and only if its time is not before the last or it ends an outage in a log of one second |
| `ClockProofs.RecordAgreesIff` | telegram/stats.go:525-846 | the same for `Record` on a log that may be full |
| `RollingProofs.TruncationHarmless` | telegram/stats.go:531-846 | if the oldest retained event is not inside the window, the capped log gives the uptime and, for nonnegative times, the whole incident summary of the full one |
| `RollingProofs.IncidentsAtMostFlapsPlusOne` | telegram/stats.go:645-830 | over a day, incidents exceed flaps by at most one |
| `RollingProofs.MeanTimesCoverWindow` | telegram/stats.go:828-845 | n incidents times the mean time to repair make up the offline seconds of the window, and times the mean time between failures the rest, each up to n-1 nanoseconds |
| `SummaryProofs.UptimeMeans` | telegram/stats.go:556-624 | every case of the uptime: 100 for no events, the last state for a log that begins now or later, otherwise the share of online seconds since the window or the log began |
| `SummaryProofs.FlapsCount` | telegram/stats.go:645-661 | flaps are the offline events of the last 86400 seconds, both ends included |
| `SummaryProofs.IncidentsCounted` | telegram/stats.go:790-824 | from any point of the scan, the incidents still to come are the outages that meet the window |
| `SummaryProofs.SummaryMeans` | telegram/stats.go:770-846 | incidents are the outages that last over some second of the window; mean time to repair is its offline seconds divided by them, mean time between failures its other seconds; without incidents the latter is the window as given |
| `Ledger.StatsStore.constructor` | telegram/stats.go:48-62 | an empty store whose log keeps 1000 events |
| `Ledger.StatsStore.RecordCheck` | telegram/stats.go:100-120 | counts the check, and the success if online, of that proxy alone |
| `Ledger.StatsStore.RecordInitialDown` | telegram/stats.go:123-155 | opens an incident, an outage and a log event unless the proxy is already down |
| `Ledger.StatsStore.AddIncidentEntry` | telegram/stats.go:157-181 | one scan finds count and oldest; the list becomes the one `LedgerProofs.AddIncidentView` describes |
| `Ledger.StatsStore.CloseIncidents` | telegram/stats.go:232-242 | every open incident of the proxy, and no other, gets its end and its nonnegative length |
| `Ledger.StatsStore.RecordTransition` | telegram/stats.go:184-247 | opens or closes the outage, logs the event always, returns the length of an outage that ended |
| `Ledger.StatsStore.SyncOnlineState` | telegram/stats.go:250-280 | closes an outage found open, without a log event |
| `Ledger.StatsStore.PruneInactive` | telegram/stats.go:346-366 | forgets the totals of inactive proxies and nothing else; an empty set forgets none |
| `Ledger.StatsStore.GetFlapCount24h` | telegram/stats.go:369-374 | the flap count of the proxy's own log |
| `LedgerProofs.QuotaEvictsOwnOldest` | telegram/stats.go:159-174 | at its quota a proxy loses exactly its own oldest entry, every other proxy none |
| `LedgerProofs.AddIncidentView` | telegram/stats.go:157-181 | both limits hold after an addition, the new incident comes first for its proxy, every proxy's entries stay the newest part of what they were |
| `LedgerProofs.CloseOpenView` | telegram/stats.go:232-242 | closing touches only the open entries of one proxy |
| `LedgerProofs.RunSizes` | telegram/stats.go:99-366 | in every run at most 15 entries per proxy and 100 in all, each with the length its times say |
| `LedgerProofs.RunAccounts` | telegram/stats.go:99-366 | in every run, whatever is pruned, the totals are those of the proxy's outages since it was last forgotten |
| `LedgerProofs.RunFollows` | telegram/stats.go:99-366 | if no pruning forgot it with an incident open, the ledger shows the newest of all its outages, open at most for the current one |
| `LedgerProofs.LedgerSound` | telegram/stats.go:99-366 | in every run that never forgets the proxy with an incident open: at most one incident is open, only while it is down and with the start of that outage; drop count and downtime are those of all outages since it was last forgotten; both limits hold |
| `LedgerProofs.TrackedIffSafelyPruned` | telegram/stats.go:99-366 | open incidents stay tied to the current outage after every prefix of a run, if and only if no pruning of the run forgets a proxy with one open |
| `LedgerProofs.PrunedWhileDown` | telegram/stats.go:346-366 | a run with pruning after which one proxy has two open incidents |
| `LedgerRuns.RunCounts` | telegram/stats.go:100-116 | in every run, the counters are the numbers of checks and of successful checks of the proxy since it was last forgotten |
| `LedgerRuns.RunLabels` | telegram/stats.go:100-366 | a proxy has totals exactly if a call named it since it was last forgotten; they bear the last name and the time of the last check |
| `LedgerRuns.EvictionMeans` | telegram/stats.go:157-181 | a new incident takes the place of its owner's oldest if that has 15, else of the last if there are 100, else nobody's |
| `LedgerRuns.RunIncidents` | telegram/stats.go:123-280 | every incident ever listed was opened by a call with its time, name and reason, and closed, if it is, by another |
| `LedgerRuns.RunLogs` | telegram/stats.go:123-247 | the log of a proxy is what recording its transitions and first outages leaves, whatever is pruned |
| `Latency.LatencySamples.constructor` | telegram/stats.go:673-681 | an empty ring; a size that is not positive becomes 100 |
| `Latency.LatencySamples.Add` | telegram/stats.go:684-696 | the ring in arrival order stays the newest samples of the history, which grows only by positive samples |
| `Latency.LatencySamples.StoredIsNewest` | telegram/stats.go:684-696 | the stored slots hold, as a multiset, exactly the last min(n, size) positive samples |
| `Latency.LatencySamples.Percentile` | telegram/stats.go:707-736 | the percentile of the stored samples, 0 when there are none |
| `Latency.Interpolate` | telegram/stats.go:718-735 | linear interpolation at the clamped rank of sorted samples |
| `Latency.PercentileMonotoneAndBounded` | telegram/stats.go:707-736 | percentiles rise with p and stay within any bounds of the samples |
| `Latency.PercentileEnds` | telegram/stats.go:707-736 | p = 0 gives the least sample and p = 1 the greatest |
| `Latency.PercentileExact` | telegram/stats.go:707-736 | the percentile lies between the samples next to rank (n-1)p, in proportion; outside [0, 1] it is the least or the greatest |
| `Latency.PercentileIgnoresOrder` | telegram/stats.go:707-736 | the rotation of the ring does not show |
| `Metrics.OwnersDiffer` | nodes/report.go:156-180 | a remote identity belongs to one node only, and never to the master |
| `Registry.Registry.constructor` | nodes/registry.go:85-98 | every configured node starts pending, with no snapshot |
| `Registry.Registry.Report` | nodes/registry.go:217-242 | the reporting node comes up with its snapshot and interval (300 s if not positive), others unchanged |
| `Registry.Registry.SweepStale` | nodes/registry.go:396-420 | the names returned are exactly those of the nodes that were up and are now down, each once and in ascending order; which those are says `Registry.UpIffHeardInTime` |
| `Registry.Registry.SweepNode` | nodes/registry.go:400-416 | one node's turn of a sweep, with the deadline that `Registry.UpIffHeardInTime` gives in seconds |
| `Registry.Registry.TakePart` | nodes/registry.go:304-315 | one node's part of the merged snapshot; a grace mark is used up by it |
| `Registry.Registry.MergedSnapshot` | nodes/registry.go:297-318 | local metrics, then each node's part in ascending order of names; every grace mark is cleared |
| `Registry.Registry.HealthSnapshot` | nodes/registry.go:358-383 | one entry per node in ascending order of names: up or not, ever reported or not, how many entries and how many of them online; changing nothing |
| `Registry.Registry.NodeHealth` | nodes/registry.go:364-380 | counts the metrics of one node that are online |
| `Registry.StepIsLocal` | nodes/registry.go:200-420 | what an event does to one node depends on that node alone |
| `Registry.SilentNode` | nodes/registry.go:297-318 | after its last report an up node shows its snapshot unchanged some number of times, then once with every entry disabled and otherwise the same, then nothing |
| `Registry.DownNode` | nodes/registry.go:297-318 | a down node shows the disabled snapshot at most once |
| `Registry.PendingNode` | nodes/registry.go:396-420 | a node that never reported stays as it is in every run and shows nothing |
| `Registry.PunctualNodeStaysUp` | nodes/registry.go:396-420 | a node that reports within each deadline is up after every prefix of the run |
| `Registry.UpIffHeardInTime` | nodes/registry.go:217-420 | after any run, a node is up if and only if no sweep since its last report came later than twice its interval and 60 s after it; the interval is 300 s if none was reported, and never more than the whole seconds of a positive cap; otherwise it is down with that report's snapshot |
| `Registry.SilentUpIff` | nodes/registry.go:396-420 | the same from any state in which it is up, for a run without a report of it |
| `Registry.MergedMembers` | nodes/registry.go:297-318 | a merged snapshot holds what the master lists, every entry of a node that is up unchanged, every entry of one in grace disabled, and nothing else |
| `Registry.MergedInOrder` | nodes/registry.go:297-318 | the master's entries come first, then those of each node in one piece, in ascending order of names |
| `Alerts.AlertKeyInjective` | telegram/alert_tracker.go:92-94 | chat, thread and proxy can be read back from an alert's key |
| `Alerts.AlertTracker.HasAlert` | telegram/alert_tracker.go:97-103 | whether the key is filed |
| `Alerts.AlertTracker.Track` | telegram/alert_tracker.go:106-121 | files the alert, the others stay |
| `Alerts.AlertTracker.Resolve` | telegram/alert_tracker.go:124-135 | takes out exactly that alert and returns it, if it was there |
| `Alerts.AlertTracker.GetDowntime` | telegram/alert_tracker.go:152-175 | the time since the earliest alert of the proxy, never negative |
| `Alerts.Bot.ProcessSnapshot` | telegram/alerts.go:30-264 | one call's new state and outages, as the value function of which the run lemmas speak |
| `Alerts.Bot.SeedAll` | telegram/alerts.go:37-64 | the first call records every enabled proxy and announces nothing |
| `Alerts.Bot.SeedProxy` | telegram/alerts.go:38-61 | one proxy of the first call |
| `Alerts.Bot.DiffAll` | telegram/alerts.go:66-198 | the comparison loop: new state, outages to announce, and the enabled ids |
| `Alerts.Bot.DiffProxy` | telegram/alerts.go:71-197 | one proxy: transitions, suppression by quiet time and by flapping, resolution |
| `Alerts.Bot.ResolveEverywhere` | telegram/alerts.go:74-79 | the proxy's alerts are gone from every configured chat |
| `Alerts.Bot.ForgetGone` | telegram/alerts.go:200-209 | states of proxies not seen enabled are dropped, statistics pruned unless nothing was seen |
| `Alerts.Bot.DropUnseen` | telegram/alerts.go:200-206 | the loop deletes exactly the unseen ids from both maps |
| `Alerts.Bot.Announce` | telegram/alerts.go:244-264 | per chat: skip if an alert stands, track only a message that was sent for a proxy still down |
| `AlertOutcome.OutagesAnnounced` | telegram/alerts.go:66-198 | exactly which outages a call announces, each once: seen online before, enabled and offline now, not in quiet hours, of the master's own proxy or with node alerts on, and with at most 10 offline events in 86400 s, or 900 s after the last announcement made with more |
| `AlertOutcome.FirstCallSilent` | telegram/alerts.go:37-64 | the first call announces nothing |
| `AlertOutcome.AlertAfterCall` | telegram/alerts.go:71-264 | the alert of each shown proxy in each chat afterwards: new, with the time of the call, if announced where none stood and the message went out; none if disabled or back; the one that stood otherwise |
| `AlertOutcome.AlertAfterFirstCall` | telegram/alerts.go:37-64 | the first call takes away the stored alerts of the proxies it finds online, and no others |
| `AlertOutcome.GoneIsForgotten` | telegram/alerts.go:200-209 | a proxy last seen and now missing loses its state and its pause, its totals only if others are enabled, and keeps its log |
| `AlertProofs.ScanLeaves` | telegram/alerts.go:71-198 | a proxy the snapshot does not show keeps all its state through the scan |
| `AlertProofs.ScanSlices` | telegram/alerts.go:71-198 | a proxy the snapshot shows is treated as if it stood there alone |
| `AlertProofs.ScanOutages` | telegram/alerts.go:102-135 | each shown proxy's outage is announced or not whatever else the snapshot shows |
| `AlertProofs.SendAllOnly` | telegram/alerts.go:224-264 | sending adds alerts only for announced proxies and changes nothing else |
| `AlertProofs.AfterCall` | telegram/alerts.go:66-264 | after a call the last seen states are exactly the enabled part of its snapshot |
| `AlertProofs.ProcessKeepsSound` | telegram/alerts.go:30-264 | alerts stand only for proxies last seen down after the call, if and only if every proxy with an open alert is in the snapshot |
| `AlertProofs.OrphanRemains` | telegram/alerts.go:200-264 | an alert whose proxy is missing survives, unchanged, without a last seen state |
| `AlertProofs.AlertsSoundOnEveryRun` | telegram/alerts.go:30-264 | in every serial run in which no down proxy vanishes silently, every open alert is for a proxy last seen down |
| `AlertTiming.StatsAgreeOnEveryRun` | telegram/alerts.go:37-139 | a proxy enabled throughout is "currently down" in the statistics exactly when it was last seen down |
| `AlertTiming.FlapStep` | telegram/alerts.go:121-206 | the time of the last flap alert moves exactly when a flapping proxy is announced, never within the pause, and is kept through disabled appearances |
| `AlertTiming.FlapAnnouncementsApart` | telegram/alerts.go:121-206 | any two announcements of one flapping proxy are at least 15 minutes apart, unless it vanished from the snapshots while enabled |
| `AlertLedger.DownTracks` | telegram/stats.go:123-210 | opening an incident of a proxy that is not down keeps open incidents tied to current outages |
| `AlertLedger.PruneTracksIff` | telegram/stats.go:346-366 | pruning keeps that, if and only if it does not forget a proxy with an incident open |
| `AlertLedger.CallTracksIff` | telegram/alerts.go:30-264 | one call keeps it, if and only if it does not meet an open incident of a proxy that is missing among the enabled ones while there are others |
| `AlertLedger.IncidentsTrackedIff` | telegram/alerts.go:200-209 | it holds throughout a run of calls, if and only if no call does |
| `AlertLedger.ForgottenIsDown` | telegram/alerts.go:200-209 | only a proxy that is down can be forgotten in that way |
| `BotLedger.LedgerOfRun` | telegram/alerts.go:30-209 | the statistics after any run of calls are those of the store after the checks, transitions and prunings that can be read off from each snapshot and the one before |
| `BotLedger.CallsTimely` | telegram/alerts.go:30-209 | these calls are in order of time |
| `BotLedger.PipelineStatistics` | telegram/alerts.go:30-209 | so in every run counters, names, totals, log and incidents of each proxy are those of its checks and outages, within both limits |
| `AlertPipeline.MergedUnique` | nodes/registry.go:297-318 | merged snapshots have unique ids, as `ProcessSnapshot` needs |
| `AlertPipeline.ReportKeeps` | nodes/registry.go:228-242 | an accepted report keeps the system invariant |
| `AlertPipeline.SweepKeeps` | main.go:851-866 | a sweep keeps it |
| `AlertPipeline.FeedKeeps` | main.go:295-305 | a feed keeps it and leaves exactly the enabled merged proxies as last seen |
| `AlertPipeline.ReadKeeps` | node_manager.go:135-144 | another reader keeps it as long as no silent node still owes its grace to a proxy last seen down |
| `AlertPipeline.AlertsSoundAcrossNodes` | main.go:295-305 | in every allowed run of reports, sweeps, feeds and reads, every open alert is for a proxy last seen down that a node still shows |
| `AlertPipeline.AlertsSoundFromStart` | main.go:295-305 | in particular from a fresh registry and an empty tracker |
| `GraceProofs.MergedShowsIff` | nodes/registry.go:297-318 | the merged snapshot has a proxy exactly if the master lists it or its own node still shows it |
| `GraceProofs.FeedSoundIff` | main.go:295-305 | a feed leaves only alerts of proxies last seen down, if and only if every proxy with an open alert is still shown |
| `GraceProofs.SoundThroughoutIff` | main.go:295-305 | so throughout any run, whatever is reported, swept and read, if and only if each of its feeds meets that condition |
| `GraceProofs.GraceSpentElsewhere` | node_manager.go:135-144 | wherever another reader comes between sweep and feed, an open alert of the silent node's is left standing |
| `GraceProofs.GraceSpentRun` | node_manager.go:135-144 | a run from the start in which that happens |
| `Diagnostics.SameKeySameProbe` | checker/target.go:646-678 | proxies with the same cache key would make the same request |
| `Diagnostics.MutualExclusion` | checker/target.go:658-683 | two processes in their critical sections work on different keys |
| `Diagnostics.StepKeepsInv` | checker/target.go:563-705 | every step of every process keeps the invariant and lowers the number of steps left |
| `Diagnostics.RunsKeepInv` | checker/target.go:524-709 | so does every interleaving, whatever the answers |
| `Diagnostics.AtMostOneCallPerKey` | checker/target.go:524-709 | every interleaving makes at most one request per key, keeps at most the configured number past the semaphore, and has at most eleven steps per proxy |
| `Diagnostics.SameKeySameAnswer` | checker/target.go:651-690 | finished offline proxies with one key report one cache entry, from exactly one request if one was due |
| `Diagnostics.SomeoneCanMove` | checker/target.go:563-708 | there is no deadlock: until all are done somebody can move |
| `Diagnostics.PlansConsistent` | checker/target.go:644-678 | the plans of any proxies meet what the lemmas on interleavings assume: one key, one request |
| `Diagnostics.DiagnosticsSound` | checker/target.go:524-709 | for any proxies and any interleaving: at most one request per key, bounded entry, bounded length and no standstill |
| `Diagnostics.ReportsMean` | checker/target.go:644-690 | in every interleaving a finished proxy that is offline and has a server reports the answer to the only request with its key, `ping:` and server asked as ping over UDP, `tcp:`, server and port asked as TCP otherwise; without a port nothing and no request; any other proxy no entry |
| `Diagnostics.RequestsAreDue` | checker/target.go:644-678 | nobody is asked about but offline proxies with a server, each for what it needs |
| `Diagnostics.RunsKeepAsked` | checker/target.go:651-690 | every interleaving keeps cache and reports tied to the requests made and the answers they got |
| `Verdicts.CountTargets` | checker/target.go:400-415 | successes are counted, and each failure class is counted above zero exactly if some failing target has it |
| `Verdicts.DetermineVerdict` | checker/target.go:394-462 | the first failing layer in the order DNS, UDP or TCP, TLS, then the failure classes; the status is what `Verdicts.StatusMeans` says |
| `Verdicts.StatusMeans` | checker/target.go:417-426 | online exactly if there are targets and all succeed, offline exactly if none succeeds |
| `Verdicts.SuccessMeans` | checker/target.go:417-426 | all is well if all targets succeed, otherwise how many of how many do, if any does |
| `Verdicts.LayersMean` | checker/target.go:428-450 | when no target succeeds, a failed layer is to blame before any target: DNS, then UDP or else TCP and TLS, with the words that tell its kinds apart |
| `Verdicts.TargetErrorsMean` | checker/target.go:400-462 | when every layer answered, the first that applies: some error holds 403; eof or reset; timeout; none of these |
| `Verdicts.AlignTargetErrors` | checker/target.go:491-521 | in place: untouched if any target succeeded, otherwise every failing target's error names the failed layer |
| `Verdicts.BlameAll` | checker/target.go:503-507 | every failing target gets the layer's error, succeeding ones keep theirs |
| `Verdicts.BlamedMeans` | checker/target.go:491-521 | when all targets fail, each error names the first failed layer of DNS, TCP and, over UDP, UDP; with none it stays |
| `Verdicts.AlignKeepsDiagnosis` | checker/target.go:488-521 | rewriting the errors changes neither status nor verdict, whatever the probes can report |
| `UrlStore.URLStore.constructor` | subscription/manager.go:49-86 | a store holding what the file held |
| `UrlStore.URLStore.Persist` | subscription/manager.go:227-245 | a successful write leaves the contents on disk, a failed one the old file |
| `UrlStore.NormalizeMeans` | subscription/manager.go:247-256 | a URL is accepted exactly if, trimmed, it starts with `http://` or `https://` |
| `UrlStore.URLStore.Add` | subscription/manager.go:158-178 | appends a new normal URL; fails exactly on an invalid URL or when its write fails, and then changes nothing |
| `UrlStore.URLStore.Remove` | subscription/manager.go:183-207 | cuts out the first match, keeps the managed flag; fails exactly when its write fails, and then changes nothing |
| `UrlStore.URLStore.Find` | subscription/manager.go:189-195 | the first occurrence, or -1 exactly if there is none |
| `UrlStore.URLStore.AddManaged` | subscription/manager.go:261-291 | flags, and appends if new; false for a static URL; fails exactly on an invalid URL or when its write fails, and then changes nothing |
| `UrlStore.URLStore.Managed` | subscription/manager.go:294-304 | the flagged dynamic URLs in order |
| `UrlStore.URLStore.RemoveManaged` | subscription/manager.go:307-337 | removes a flagged stored URL with its flag; fails exactly when its write fails, and then changes nothing |
| `UrlStore.URLStore.Restore` | subscription/manager.go:352-361 | contents as given, in memory always, on disk unless the write fails |
| `UrlStore.ReconcileManaged` | subscription/reconcile.go:26-95 | fails if and only if one of the writes it needs fails, or the reload does after a change; any failure leaves the memory exactly as before; otherwise the reconciled contents; reloads if and only if all writes succeed and something changed |
| `UrlStore.AddUrls` | subscription/reconcile.go:58-73 | the adding loop adds exactly the accepted URLs in order, one write each, and fails exactly if one of those writes does |
| `UrlStore.RemoveUrls` | subscription/reconcile.go:74-83 | the removing loop, one write for each URL it finds to remove, and fails exactly if one of those writes does |
| `ReconcileProofs.AddAllAppends` | subscription/reconcile.go:58-73 | new URLs go to the end in order and all get the flag |
| `ReconcileProofs.RemoveAllIs` | subscription/manager.go:307-337 | removing a list takes from each trimmed form that is flagged and stored its flag and its first occurrence, all at once, whatever the list held |
| `ReconcileProofs.ManagedIsDesired` | subscription/reconcile.go:26-95 | managed becomes (old managed and desired) plus the validated new URLs, if and only if every managed URL to be dropped is stored trimmed |
| `ReconcileProofs.UntrimmedStays` | subscription/manager.go:307-315 | an unwanted managed URL stored with surrounding space survives |
| `ReconcileProofs.DynamicAfter` | subscription/reconcile.go:26-95 | for any contents, the stored list and flags after a successful run: the validated URLs appended, then the cut ones out |
| `ReconcileProofs.TidyAfter` | subscription/reconcile.go:26-95 | with distinct normal entries the dynamic list keeps its order, loses exactly the unwanted managed ones, and gets the validated URLs sorted at its end |
| `ReconcileProofs.OperationsKeepTidy` | subscription/manager.go:158-337 | the store's operations keep the list distinct and in normal form |
| `ReconcileProofs.LostIsTwin` | subscription/reconcile.go:58-83 | a wanted URL is missing after a run exactly if it is the trimmed form of an unwanted managed one and was new, or flagged and stored once |
| `ReconcileProofs.SecondRunIff` | subscription/reconcile.go:26-95 | a second run with the same list and a deterministic validator changes nothing and does not reload, if and only if there is no such pair |
| `ReconcileProofs.RunsConvergeIff` | subscription/reconcile.go:26-95 | the same for every later run: all of them are idle, or all of them reload |
| `ReconcileProofs.WantedIsLost` | subscription/manager.go:307-315 | the shortest such store, and the wanted URL it loses |
| `StableIds.DecodeFrame` | models/proxy_config.go:129-132 | a decoder takes exactly the first component off, whatever its value contains |
| `StableIds.DecodeEncode` | models/proxy_config.go:129-132 | the framing has an inverse |
| `StableIds.EncodingIsIdentity` | models/proxy_config.go:127-186 | two configurations hash the same string if and only if they agree on every field the identity covers |
| `StableIds.ListsIdentified` | models/proxy_config.go:161-174 | of lists of texts without commas the identity keeps the order, but of the ALPN list only what it holds and how often |
| `IdAssignment.GroupByBase` | models/proxy_config.go:199-210 | the groups by bare id, each in order of positions, foreign ids left out |
| `IdAssignment.WriteGroup` | models/proxy_config.go:212-235 | each member of the group gets the id of its rank, nobody else's id changes |
| `IdAssignment.AssignStableIDs` | models/proxy_config.go:198-236 | every configuration gets the id its rank by (name, subscription name, index) determines; foreign ids stay |
| `IdAssignment.SortedRank` | models/proxy_config.go:218-226 | the place a stable sort gives a member is the number of members before it |
| `IdRanks.LeqIsByteLess` | models/proxy_config.go:218-224 | the order of strings is that of their first differing bytes, a proper prefix coming first |
| `IdRanks.AssignedMeans` | models/proxy_config.go:198-236 | a foreign id stays; the member of a group that none precedes, by name, subscription name, index and position, gets the hash of the connection; one that n precede the hash of that hash, two colons and n |
| `IdRanks.PrecedingGrows` | models/proxy_config.go:218-235 | of two members the one that precedes the other has fewer before it |
| `IdRanks.LeastKeepsBareId` | models/proxy_config.go:227-231 | so the least member of a group keeps the bare id |
| `IdProofs.BaseIsIdentity` | models/proxy_config.go:120-186 | under a hash without collisions, bare ids are equal exactly for the same identity |
| `IdProofs.IdsDistinct` | models/proxy_config.go:188-236 | under such a hash all configurations without a foreign id get different ids |
| `IdProofs.SecondAssignmentChangesNothing` | models/proxy_config.go:195-197 | assigning again over an assigned set changes no id |
| `IdProofs.OrderDoesNotMatter` | models/proxy_config.go:188-193 | if names tell the members of each group apart, every reordering leaves each its id |
| `IdProofs.SwapMovesIds` | models/proxy_config.go:225-225 | two members with both names equal swap ids when they swap places |
| `IdProofs.OrderFreeIffDistinguished` | models/proxy_config.go:188-193 | ids survive every reordering if and only if names tell the members of each group apart |
| `ConfigSets.SetIndexes` | xray/utils.go:11-13 | positions become indexes, nothing else changes |
| `ConfigSets.PrepareProxyConfigs` | xray/utils.go:10-17 | indexes are positions, ids are assigned over the whole set, and are distinct when the hash is collision-free and no id is foreign |
| `ConfigSets.CountSignatures` | xray/utils.go:55-60 | how often each signature occurs, and no other key |
| `ConfigSets.IsConfigsEqual` | xray/utils.go:43-72 | true if and only if the multisets of signatures are equal, hence whatever the order |
| `ConfigSets.Includes` | xray/utils.go:65-69 | the comparison loop, a missing signature counting as 0 |
| `ConfigSets.SeparatedPair` | xray/utils.go:19-41 | within an alphabet that can be read from the front or from the back, equal signatures mean equal bare id and equal labels |
| `ConfigSets.SeparatesIff` | xray/utils.go:19-41 | which of the two control characters keys and values may hold for that to be so, if and only if |
| `ConfigSets.ValueCollision` | xray/utils.go:35-39 | a value with both characters passes for a value and another label |
| `ConfigSets.KeyCollision` | xray/utils.go:35-39 | a key with both characters passes for a label and another key |
| `ConfigSets.RecordCollision` | xray/utils.go:35-39 | with the record separator in keys and values text moves between a key and its value |
| `ConfigSets.UnitCollision` | xray/utils.go:35-39 | with the unit separator in keys and values text moves between a value and the next key |
| `ValidatedConfig.OutboundTagIndex` | xray/config.go:47-49 | an outbound tag determines name and index |
| `ValidatedConfig.InboundTagIndex` | xray/config.go:132-132 | an inbound tag determines the index, whatever name and protocol contain |
| `ValidatedConfig.GenerateInbounds` | xray/config.go:124-148 | one inbound per proxy in order, on port start + index |
| `ValidatedConfig.GenerateOutbounds` | xray/config.go:150-171 | direct, block, then one outbound per proxy in order |
| `ValidatedConfig.GenerateRouting` | xray/config.go:519-537 | one rule per proxy in order, from its inbound to its outbound |
| `ValidatedConfig.GenerateConfig` | xray/config.go:21-32 | the three parts of one proxy list |
| `Text.CoercedMeans` | xray/config.go:21-32 | text comes through the JSON file unchanged exactly if it is UTF-8 |
| `CodePoints.RuneLenMeans` | xray/config.go:21-32 | bytes are taken for a character exactly if they are the UTF-8 form of a Unicode scalar value |
| `CodePoints.TrimMeans` | xray/config.go:61-63 | trimming takes white space characters of Unicode off both ends, all of them and nothing else |
| `ValidatedConfig.OutboundTagCoerced` | xray/config.go:21-49 | the tag in the file is the tag of the name in the file |
| `ValidatedConfig.InboundTagCoerced` | xray/config.go:21-132 | the same for inbound tags |
| `ValidatedConfig.TagsWrittenOut` | xray/config.go:47-171 | port, tags and rule of each proxy as they stand in the file, for names of any bytes |
| `ValidatedConfig.InboundsUnique` | xray/config.go:124-148 | distinct indexes make inbound tags and ports in the file distinct, whatever the names |
| `ValidatedConfig.OutboundsUnique` | xray/config.go:150-171 | distinct indexes make outbound tags in the file distinct from each other and from the two fixed ones |
| `ValidatedConfig.PortReachesItsProxy` | xray/config.go:124-537 | with the configuration in the file, traffic to port start + index leaves through the outbound of that same proxy |
| `ValidatedConfig.OtherPortsClosed` | xray/config.go:124-148 | a port of no listed proxy has no listener in the file |
| `Pruning.TagReadBack` | xray/config.go:51-64 | a tag in a build error of the documented shape is read back if and only if the name is clean |
| `Pruning.ExtractMeans` | xray/config.go:51-64 | of any message: what stands, trimmed, between the first `with tag ` and the first ` > ` after it or the end; nothing without the former |
| `Pruning.ReadsBack` | xray/config.go:51-64 | the tag the core read from the file is taken for the proxy's own if and only if the name is clean and UTF-8 |
| `Pruning.NoBreakSpaceNotClean` | xray/config.go:61-63 | a name that starts with U+00A0 is among those that are not clean |
| `Pruning.LoneByteNotSafe` | xray/config.go:98-105 | a name that starts with the byte FF is among those that are not UTF-8 |
| `Pruning.NamedIsPruned` | xray/config.go:77-122 | the proxy pruned is the one complained of if and only if its name is clean and UTF-8 |
| `Pruning.AnotherIsPruned` | xray/config.go:51-64 | a name that continues another proxy's tag with the separator gets that other proxy pruned |
| `Pruning.FindTag` | xray/config.go:98-105 | the first proxy with the tag, or -1 exactly if there is none |
| `Pruning.TakeTurn` | xray/config.go:79-121 | one turn of the loop: it ends the run, or names the proxy to drop |
| `Pruning.GenerateValidatedConfig` | xray/config.go:77-122 | terminates for any core; survivors, builds, file and error as the value function of which the lemmas speak; at most one build more than proxies |
| `Pruning.RunEnds` | xray/config.go:77-122 | whatever the core answers, the run ends with a configuration it built, or rejected without naming a proxy in it; that one is written, and the run fails only if it cannot be rendered or written |
| `Pruning.FewBuilds` | xray/config.go:79-121 | each build but the last costs one proxy |
| `Pruning.SurvivorsInOrder` | xray/config.go:77-122 | survivors keep order and index, and the file holds exactly their configuration as rendered |
| `Pruning.WrittenConfigRoutes` | xray/config.go:77-148 | in whatever is written, every survivor still answers on its own port |
| `Pruning.ExactlyTheRefused` | xray/config.go:72-122 | with a core that names what it refuses by the tags it read, and safe names, exactly the refused proxies are dropped, one build each, whatever the order of its complaints |
| `Pruning.UnsafeSurvives` | xray/config.go:77-122 | a core that keeps naming a proxy whose name is not safe never gets rid of it |
| `Pruning.OnlyRefusedIffSafe` | xray/config.go:72-122 | every core that names what it refuses loses exactly the refused proxies, if and only if their names are clean and UTF-8 |
| `Splitter.UpdateOpenTags` | telegram/formatters.go:140-176 | the open tags after a text, as a fold over its tags |
| `Splitter.ApplyTag` | telegram/formatters.go:147-169 | one tag: opening, self-closing, unknown, or closing the innermost of its name |
| `Splitter.CloseTag` | telegram/formatters.go:149-157 | the search for the innermost open tag of a name removes that one and no other |
| `Splitter.CloseTags` | telegram/formatters.go:178-185 | closers, innermost first |
| `Splitter.OpenTagsPrefix` | telegram/formatters.go:187-193 | openers, outermost first |
| `Splitter.SplitMessage` | telegram/formatters.go:108-138 | the chunks of the parts the lemmas speak of |
| `Splitter.AddLine` | telegram/formatters.go:118-132 | one line: cut first if it would not fit, then append |
| `SplitterProofs.TagsConcat` | telegram/formatters.go:140-176 | scanning two texts one after the other finds the tags of both, if the first closes its brackets |
| `SplitterProofs.ElementsFollowed` | telegram/formatters.go:140-176 | of all elements named in small letters exactly fourteen are followed: opened by their tag and closed by their closing tag |
| `SplitterProofs.TagMeans` | telegram/formatters.go:140-176 | what any one tag does: a closing tag takes out the innermost open tag of its name, if any; one that ends in a slash or names another element nothing; a link opens with all its attributes, any other element with its name alone |
| `SplitterProofs.EscapedIsInert` | telegram/formatters.go:195-198 | escaped text opens no tag, closes its brackets and is read back as it was |
| `SplitterProofs.NestAllIsApplyAll` | telegram/formatters.go:140-176 | on properly nested text the splitter's bookkeeping is a stack |
| `SplitterProofs.PartBalanced` | telegram/formatters.go:178-193 | reopened tags, body and closers together are balanced |
| `SplitterProofs.ChunksBalanced` | telegram/formatters.go:108-193 | a balanced text whose lines close their own brackets is cut into chunks that are each balanced |
| `SplitterProofs.ChunksCarryText` | telegram/formatters.go:108-138 | for any text, the bodies of the chunks in order are the text up to newlines |
| `SplitterProofs.PlainTextKept` | telegram/formatters.go:108-138 | text without tags and empty lines is exactly its chunks with a newline between two |
| `SplitterProofs.CutsAreNeeded` | telegram/formatters.go:118-137 | chunks hold whole lines, and each but the last would exceed the limit with the line the next begins with |
| `SplitterProofs.ChunksChain` | telegram/formatters.go:118-125 | each chunk reopens exactly what the one before it closed |
| `SplitterProofs.ChunksAlmostFit` | telegram/formatters.go:118-137 | if every line fits with its prefix and closers, a chunk exceeds the limit by at most the largest growth of the closers in one line |
| `SplitterProofs.LimitExceeded` | telegram/formatters.go:118-137 | that bound is met, for every element name and every limit large enough |
| `SplitterProofs.LimitKeptIff` | telegram/formatters.go:118-137 | texts whose lines fit and add at most g bytes to the closers all keep the limit, if and only if g is less than one closer |
| `RateLimiter.TokenBucket.constructor` | checker/checkhost.go:119-126 | a full bucket |
| `RateLimiter.TokenBucket.Attempt` | checker/checkhost.go:130-146 | one turn under the lock: refill to at most the burst, take a token if there is one, or say how long to sleep |
| `RateLimiter.TokenBucket.Wait` | checker/checkhost.go:128-155 | the loop stops at its first grant, having been refused before, or ends refused with its context |
| `RateLimiter.WindowBound` | checker/checkhost.go:128-155 | from any attempt on, tokens left plus grants never exceed burst plus inflow |
| `RateLimiter.GrantsInWindow` | checker/checkhost.go:110-155 | any window of length T of any trace has at most burst + rate * T grants |
| `RateLimiter.LevelIsLeastBudget` | checker/checkhost.go:128-155 | the level is exactly the least of the budgets of all windows |
| `RateLimiter.GrantedIffWithinBounds` | checker/checkhost.go:128-155 | an attempt is granted if and only if the grant breaks the bound of no window ending then |
| `RateLimiter.RefusalInvisible` | checker/checkhost.go:130-146 | a refused attempt changes no later level |
| `RateLimiter.WithoutRefusal` | checker/checkhost.go:130-146 | leaving a refused attempt out changes no later grant |
| `RateLimiter.WakesInTime` | checker/checkhost.go:144-152 | a lone waiter is granted on its next try if and only if it slept at least the computed time and the burst is at least one |
| `RateLimiter.TruncatedSleep` | checker/checkhost.go:152-152 | with the sleep cut to nanoseconds, if and only if nothing was cut; one nanosecond more always suffices |
| `AuthLimiter.Limiter.constructor` | web/handlers.go:148-155 | no records |
| `AuthLimiter.Limiter.CheckLocked` | web/handlers.go:174-182 | locked exactly before the end of the address's lock |
| `AuthLimiter.Limiter.RecordFailure` | web/handlers.go:184-213 | sweeps a crowded table, then starts or extends the address's record and locks it at the limit; no other record changes |
| `AuthLimiter.Limiter.Sweep` | web/handlers.go:189-195 | deletes exactly the records older than ten minutes whose lock is over |
| `AuthLimiter.Limiter.RecordSuccess` | web/handlers.go:215-219 | forgets the address |
| `AuthLimiter.Limiter.Authenticate` | web/handlers.go:229-264 | a locked address is turned away unrecorded; otherwise success forgets and failure records |
| `AuthLimiter.FailuresPerRecord` | web/handlers.go:174-264 | in every run, other addresses and sweeps included, a record absorbs at most maxFailures + window / lock failures (at least one) |
| `AuthLimiter.BoundMet` | web/handlers.go:174-213 | for any settings there is a run that reaches that bound |
| `AuthLimiter.SweepInvisible` | web/handlers.go:189-195 | with a window of at most ten minutes, or locks that outlast it at every failure, sweeping changes no answer of any run |
| `AuthLimiter.SweepShowsOn` | web/handlers.go:189-205 | under any other settings, a run with a crowd of addresses whose answers the sweep changes |
| `AuthLimiter.SweepInvisibleIff` | web/handlers.go:184-213 | the sweep is invisible in every run, if and only if the settings are of the first kind |
| `AuthLimiter.SweepSeen` | web/handlers.go:189-205 | an answer changes exactly when a crowded table is swept of the address's own record while it still counts |
| `LoginProofs.TableReflects` | web/handlers.go:174-219 | in every run without sweeps, the record of an address is that of the failures since its last success that came within a window of the first of them, locked by the last if they are enough |
| `LoginProofs.AnswersMean` | web/handlers.go:174-219 | so every answer follows from the requests made: locked until a lock after the last of enough failures, and how many there are |
| `LoginProofs.SweepingAnswersMean` | web/handlers.go:174-219 | the same with sweeps, under the settings that make them invisible |

## Left out

- `Heatmap7d` and everything else that needs a calendar and time zones.
- Ledger.StatsStore.constructor: starts empty; loading a stored file, and saving one, is not modelled.
- Ledger.StatsStore.RecordCheck: the latency it also feeds to the ring; the ring is modelled by itself. Times are whole seconds throughout the statistics, as they are stored.
- Latency.LatencySamples.Percentile: reals stand for floating point, so rounding is not modelled; `StdDev` is left out.
- ClockProofs.RecordAgreesIff: speaks of the first event that goes back in an ordered log, not of logs already out of order.
- Metrics.OwnersDiffer: holds for reported ids without `/`, as nodes generate them; nodes/report.go:159-180 checks neither that nor that ids are distinct in one report, and the node snapshots of the alert lemmas assume both.
- Registry.Registry.Report: authentication, payload checks and the answer to the node; version, host, ASN, diagnostics and audits of the node; adding and removing nodes at run time.
- Registry.Registry.HealthSnapshot: leaves out version, host, ASN, time of the last report and interval.
- Alerts.AlertTracker.Track: persistence of the tracker is not modelled.
- Alerts.Bot.ProcessSnapshot: calls are serial. Overlapping calls could interleave between the still-down check and the tracking of an alert (telegram/alerts.go:249-261). The lists of recoveries and deletions, the messages made from them, a bot without a statistics store and the event buffer of quiet hours are left out. The flap pause compares whole seconds.
- Alerts.Bot.DiffAll: without the lists of recoveries and deletions.
- Alerts.Bot.DiffProxy: without the recovery action and the buffered event.
- AlertPipeline.AlertsSoundAcrossNodes: assumes that no source drops a proxy that is down from what it reports; `GraceProofs.SoundThroughoutIff` does not.
- BotLedger.LedgerOfRun: speaks of runs from an empty store.
- Diagnostics.StepKeepsInv: steps are atomic and memory is sequentially consistent, which the locks, channels and concurrent maps involved provide; the inner goroutines that probe one proxy are one step, their outcome is given, and reports hold the cache entry, not the texts `EnrichVerdictWithCheckHost` makes from it.
- Diagnostics.ReportsMean: says which answer a proxy gets, not how its summary is worked into the text of the verdict (checker/target.go:465-489).
- Verdicts.AlignTargetErrors: the fixed words of the messages are English here.
- Verdicts.AlignKeepsDiagnosis: leaves out a UDP node with a TCP error and no other, which the probes cannot report as UDP nodes are not probed over TCP (checker/target.go:302-350).
- UrlStore.URLStore.constructor: takes the stored contents as given; the older file format and read errors are not modelled.
- UrlStore.URLStore.Persist: the disk holds what was handed to the JSON encoder, which would replace bytes of a URL that are not UTF-8.
- UrlStore.URLStore.Add: per-URL metadata and its time stamps, and notifications.
- UrlStore.ReconcileManaged: the reload is one oracle; a failing write while restoring is covered for memory only, which is all the source promises.
- SHA-256 and the cut to 16 hexadecimal digits: identities are proved for a hash that does not collide on the strings one set hashes.
- StableIds.EncodingIsIdentity: the hashed fields are taken from the configuration as stored; the default for a missing alterId is applied before.
- ValidatedConfig.GenerateInbounds: ports and tags only; listen address, sniffing and settings play no part in routing. Xray's own routing is taken to be first match by inbound tag.
- ValidatedConfig.GenerateOutbounds: tags and the proxy each stands for; the transport settings are left out.
- ValidatedConfig.GenerateConfig: the log section is left out, and of the rendering as JSON everything but what it does to tags.
- Pruning.GenerateValidatedConfig: lists are values, so that the caller's slice stays untouched when a proxy is cut out is not shown.
- Splitter.SplitMessage: where exactly newlines fall is claimed only for text without tags and empty lines, as the test at telegram/formatters.go:127 can drop one elsewhere.
- Splitter.ApplyTag: letters outside ASCII keep their case, but for the two that lower into ASCII; no name the splitter looks for holds any other.
- RateLimiter.TokenBucket.Attempt: reals stand for floating point, so rounding is not modelled.
- AuthLimiter.Limiter.RecordFailure: a record is a value in the table, where the source updates it through a reference nobody else holds.
- AuthLimiter.FailuresPerRecord: the check and the record are one step; concurrent requests of one address can pass the check together.
- Overflow of 64-bit times and durations.
- HTTP, Telegram, Xray and Check-Host themselves, DNS and socket probes, parsing of share links and subscriptions, menus and views.

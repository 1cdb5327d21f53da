# Verified models of the EIMS cores

EIMS collects telemetry and offline audit reports from machines, analyses log bundles, and keeps a
registry of assets. This project models the parts whose correctness depends on loops, state and
interleaving, and proves what they promise.

| file | what it models |
|---|---|
| `TelemetryStream.dfy` | the stream protocol as a state machine: publish, fetch, commit, failure, trim, advance, cancellation and restart in any order |
| `TelemetryReplay.dfy` | what cancellations and restarts do: when a row is committed twice, and when it cannot be |
| `TelemetryWorker.dfy` | one pass of the consumer as the code runs it, and its refinement of a protocol cycle |
| `TelemetryRuns.dfy` | the consumer over time, step by step: every history of arrivals, reads, transactions, trims, cancellations and restarts is a protocol run; failures counted from pass to pass |
| `TelemetryTables.dfy` | what the consumer reads, stores, reports and quarantines, in the fields of the entries |
| `FailedLogins.dfy` | the failed-login counters with their two times to live, also when a pass ends between INCR and EXPIRE |
| `BundleCorrelation.dfy`, `BundleVerdict.dfy` | the correlation of a log bundle: grouping loops against a declarative ladder; the verdict in the fields of the summaries |
| `Evidence.dfy`, `IncidentFields.dfy` | chronological order of records, and the incident sketch built from it; each of its fields |
| `OperationSegments.dfy` | the partition of a log into operations, and the windows shown around anchor lines |
| `Compaction.dfy`, `CompactedText.dfy` | bounded compaction of a log, and retention of original lines under the same windows; what both keep, in line numbers and characters |
| `GlobalSearch.dfy`, `SearchPaging.dfy` | paging over several providers with a per-provider budget |
| `TimeCorrelation.dfy` | counting pairs of events close in time with an early exit |
| `AssetJournal.dfy` | the asset registry, its state matrix and its audit journal |
| `ImportPipeline.dfy`, `ImportOutcome.dfy` | deduplicated ingestion of report events and their bounded analysis; what becomes of each entry |
| `Manifest.dfy`, `PlainText.dfy` | the package manifest: text, parser, and the check of a package |
| `Compliance.dfy` | the rounded compliance score |
| `Sorting.dfy`, `Strings.dfy`, `Basics.dfy` | stable sorting, string order, small shared definitions |

Code that changes state is modelled by classes and loops whose contracts tie the new state to a function
of the old one; the properties are proved about those functions. For the main operations there are also
laws that say the outcome in the fields of the input, with the numbers and names written out, and not
through the helpers that code and specification share. What lies outside (regular expressions,
timestamps, digests, success or failure of Redis and of a transaction) appears as parameters or as
nondeterministic steps. `dafny verify dfyconfig.toml` checks everything.

Main results:

- **Telemetry.** In every interleaving the metric of a published heartbeat or the event of a published
  log entry is in its table, the entry is still in the stream, or it is at least 100 000 entries old.
  Without truncation and interruptions the tables hold exactly the rows up to the consumer's watermark,
  in order. After an interruption the next batch duplicates a row exactly when it reaches an entry with
  a row up to that watermark, and a row is committed at most once more than there were interruptions.
  Every history of the consumer itself, with arrivals, cancellations and errors between and inside its
  passes, is such a run, so all this holds of its tables; and an undisturbed pass of the worker is the
  run of its four steps.
- **Failed logins.** A key counts six exactly when it began five increments earlier and these six lie
  within 60 s, or its first one was cut off between INCR and EXPIRE, which leaves a key without end. Six
  increments are six failed logins when no pass that counted one was given up; a pass that is given up
  counts its failures again. A single login then alerts exactly when the increments of all those passes
  do: five aborted passes suffice if all lie within 60 s, and at a steady pace exactly if they come less
  than twelve seconds apart. Six uncut increments within 60 s alert if and only if the first of them begins
  a key or is over the limit, or the sixth of the key it belongs to comes before the end that key got at
  its start; ten always alert.
- **Evidence.** The correlation loops compute the ladder, whatever the upload order; without a
  strong link a medium reason is given exactly when two files carry a resource and all that carry it
  have one clock and come within 300 s of one instant. Segments are the only partition that is justified cut by cut, by conditions on the segment's
  own records; a window shows exactly the lines near an anchor. Compaction stays within 60 000
  characters, keeps both ends of the log, and is idempotent.
- **Paging and counting.** A budgeted page is a slice of one fixed stable ranking whenever no provider
  holds back a better hit than it returns; for a single provider its pages are right if and only if
  that holds at the end of each of them, and for several providers with different hits if and only if
  every hit held back is outranked by as many returned ones as the pages show. The early-exit scan counts
  exactly the close pairs.
- **Registry and ingestion.** The journal determines every asset's state and score after every run. A
  transition happens exactly along one of twelve arrows, an import settles on at most one asset and
  judges it by the score 70, and a pass quarantines exactly the assets whose failed logins went over the
  limit. Re-importing a report adds nothing. Stored keys stay unique if and only if no two usable
  entries of the report share a new key, and it is known exactly which events can share a key with
  another one.
- **Manifest and score.** A manifest reads back as written if and only if all paths are plain, and
  with a collision-free digest a changed package is reported if and only if it was really changed. The
  overall score lies between the domain scores, and the verdict has an exact integer condition.

Where code and documentation disagree the models follow the code:

- `worker.py` calls its trimming exactly-once (line 231). A cancellation or restart between commit and
  cursor movement commits rows again (`TelemetryReplay.RestartCommitsTwice`,
  `TelemetryReplay.ReplayDuplicatesIff`).
- `worker.py` speaks of a sliding window of 60 s (lines 203 and 213). It is a fixed window that starts
  at the first failure and grows to 300 s after an alert, so nine failures within a second can stay
  silent (`FailedLogins.NineFailuresSilent`, `FailedLogins.SixFailuresAlertIff`). It counts increments rather
  than logins (`TelemetryRuns.LoneLoginReportedIff`), and an INCR whose EXPIRE never comes leaves a key on
  which six failures alert although any time lies between them (`FailedLogins.CutKeyAlerts`).
- `provider.py` asks every provider for descending relevance (lines 46 and 47). Most providers order by
  name or time and compute the relevance afterwards, so hits can repeat from page to page and the best
  one can be missed (`GlobalSearch.NameOrderHidesTheBest`, `GlobalSearch.PagesExactIff`).
- A batch without any row trims the stream but does not move the cursor, so it is read again while the
  approximate trim removes nothing (`TelemetryStream.RereadsIff`, `TelemetryStream.SkippedBatchStalls`).
- The state matrix is called authoritative, but it binds only transitions. Report imports move
  discovered, quarantined and decommissioned assets outside of it, and automated quarantine moves
  discovered and decommissioned ones (`AssetJournal.BypassesMatrixIff`).
- `compliance.py` documents a verdict from 80 percent on. It compares the rounded score, so 79.5
  percent suffices (`Compliance.VerdictAgreesIff`).
- The event key joins its fields with `|` without escaping, so a `|` inside a field can make two
  events share a key (`ImportPipeline.BarsConfuseKeys`, `ImportPipeline.ConfusedIff`), and a report that
  lists an event twice stores it twice (`ImportPipeline.ListedTwiceStoredTwice`).

## Model

| member | source | states |
|---|---|---|
| `TelemetryStream.StepWellFormed` | backend/domain/telemetry/worker.py:142-238 | every step keeps: ids ascend, the stream is a suffix of what was published, the cursor is a published id, and a batch in flight is a slice of the history behind the cursor |
| `TelemetryStream.RunWellFormed` | backend/domain/telemetry/worker.py:142-238 | the same for every run |
| `TelemetryStream.NoLoss` | backend/domain/telemetry/worker.py:142-238 | over every interleaving, a row-producing entry is committed, or still in the stream, or at least 100 000 entries were published after it |
| `TelemetryStream.TrimKeepsNoLoss` | backend/domain/telemetry/worker.py:280-293 | trimming below the newest id of a committed batch loses nothing |
| `TelemetryStream.PublishKeepsNoLoss` | backend/domain/telemetry/broker.py:70-80 | truncation by XADD touches only entries that are at least 100 000 entries old |
| `TelemetryStream.TruncationMayDrop` | backend/domain/telemetry/broker.py:70-80 | the bound is tight: an XADD to a stream of 100 000 entries may drop the oldest one |
| `TelemetryStream.NothingInvented` | backend/domain/telemetry/worker.py:171-200 | every committed row is the row of some published entry |
| `TelemetryStream.CommittedAtMostOncePerLife` | backend/domain/telemetry/worker.py:231-236 | in every run a row is committed at most once more than the worker was cancelled or restarted |
| `TelemetryStream.ExactlyOnce` | backend/domain/telemetry/worker.py:231-236 | without truncation and interruptions the committed rows are, in order, the rows of the published entries up to the watermark, also after failed commits and batches without rows |
| `TelemetryStream.ExactlyOnceUnexposed` | backend/domain/telemetry/worker.py:231-236 | without truncation, interruptions that leave no committed entry behind the cursor keep the rows those of a prefix of the history, each once |
| `TelemetryStream.CycleEffect` | backend/domain/telemetry/worker.py:142-238 | an undisturbed fetch, commit, trim and advance: the new stream, rows and cursor |
| `TelemetryStream.RereadsIff` | backend/domain/telemetry/worker.py:234-236 | the next cycle reads the same batch again exactly when it has no row and the trim leaves all of it |
| `TelemetryStream.SkippedBatchStalls` | backend/domain/telemetry/worker.py:234-236 | any number of cycles, of four steps each, over skipped entries leaves the whole state unchanged while the trim removes nothing |
| `TelemetryReplay.NoDuplicatesUnexposed` | backend/domain/telemetry/worker.py:142-238 | in every run, truncated or not, whose interruptions leave no stored entry ahead of the cursor, no row is committed twice |
| `TelemetryReplay.AppendDuplicatesIff` | backend/domain/telemetry/worker.py:171-200 | committing a batch repeats a row exactly when one of its entries is stored |
| `TelemetryReplay.StoredIff` | backend/domain/telemetry/worker.py:231-236 | without truncation and interruptions an entry with a row is stored exactly up to the watermark |
| `TelemetryReplay.ExposedIff` | backend/domain/telemetry/worker.py:102-113 | then an interruption leaves a stored entry ahead of its cursor exactly when the stream holds an entry with a row between that cursor and the watermark; a cancellation outside commit and trim never does |
| `TelemetryReplay.ReplayDuplicatesIff` | backend/domain/telemetry/worker.py:102-113 | then the next batch of any size commits unless an entry raises, and repeats a row exactly when it reaches an entry with a row up to the watermark |
| `TelemetryReplay.ReplayDuplicatesIffExposed` | backend/domain/telemetry/worker.py:102-113 | for any state without duplicates, the rows of the next batch repeat one for some batch size exactly when the interruption was exposed |
| `TelemetryReplay.RestartCommitsTwice` | backend/domain/telemetry/worker.py:231-236 | a concrete run in which a restart commits one entry twice |
| `TelemetryWorker.ScanMeaning` | backend/domain/telemetry/worker.py:149-216 | the batch loop stops at an entry that raises, keeping the failures counted until then; otherwise it yields the protocol's rows split by table |
| `TelemetryWorker.RowsByTable` | backend/domain/telemetry/worker.py:184-200 | the processed count is the number of rows of both tables |
| `TelemetryWorker.AlertsHaveRows` | backend/domain/telemetry/worker.py:192-216 | every alert comes with a row, so a pass with alerts always opens a transaction |
| `TelemetryWorker.ReportedIffAlerting` | backend/domain/telemetry/worker.py:205-216 | an address is reported for a batch exactly when one of its failures there alerts, given all failures counted before |
| `TelemetryWorker.PassIsCycle` | backend/domain/telemetry/worker.py:142-238 | the change a pass makes to stream, cursor and tables is one protocol cycle |
| `TelemetryWorker.PassEffect` | backend/domain/telemetry/worker.py:142-238 | a pass that goes through is a protocol cycle from every matching protocol state, counts each failure, lists each row once, and quarantines the alerted assets |
| `TelemetryWorker.PassStopsIff` | backend/domain/telemetry/worker.py:142-238 | a pass stops early exactly on a failed read, an empty batch, a raising entry or a failed transaction with rows; then stream, tables, cursor, lists and registry stay, but the counters keep the failures reached |
| `TelemetryWorker.TelemetryStreamConsumer.ProcessBatch` | backend/domain/telemetry/worker.py:142-238 | the pass as run changes redis, database, registry and worker as the function on their contents says |
| `TelemetryWorker.TelemetryStreamConsumer.ReadMessages` | backend/domain/telemetry/worker.py:155-216 | the loop over a batch collects the rows by table, the alerts and the counters of the scan |
| `TelemetryWorker.TelemetryStreamConsumer.PersistBatch` | backend/domain/telemetry/worker.py:223-278 | both tables grow and the alerted assets are quarantined in one transaction, or nothing changes |
| `TelemetryWorker.TelemetryStreamConsumer.AckAndTrim` | backend/domain/telemetry/worker.py:280-293 | what goes is a prefix of the stream, all of it below the newest id of the batch, and no more entries than the approximate trim takes |
| `TelemetryWorker.TrimCount` | backend/domain/telemetry/worker.py:290-291 | an approximate trim removes some entries below the id, oldest first |
| `TelemetryRuns.HistoryIsRun` | backend/domain/telemetry/worker.py:102-293 | every history of arrivals, reads, batches given up on the way, transactions, trims, cursor moves, cancellations and restarts changes stream, cursor and tables as a run of the protocol, step for step |
| `TelemetryRuns.PassIsSteps` | backend/domain/telemetry/worker.py:142-238 | an undisturbed pass of the worker changes the contents as the run of its steps: read, persist, clear, move, or read and give up |
| `TelemetryRuns.ConsumerLosesNothing` | backend/domain/telemetry/worker.py:142-238 | in every such history, arrivals and cancellations inside a pass included, the row of a published entry is in its table, or the entry is still in the stream, or at least 100 000 entries were published after it |
| `TelemetryRuns.ConsumerExactlyOnce` | backend/domain/telemetry/worker.py:142-238 | without truncation, cancellation between steps and restart both tables hold at every moment, in order, the rows of the published entries up to the cursor or the end of the batch just committed, also after batches given up |
| `TelemetryRuns.CountedAgainIff` | backend/domain/telemetry/worker.py:205-216 | without truncation in between, a failure counted in one pass that could read is counted again by the next pass with the same batch size exactly when the first was aborted, whatever arrives in between |
| `TelemetryRuns.CountedExactlyOnce` | backend/domain/telemetry/worker.py:205-216 | without truncation, cancellation, restart and batches given up after a failure was counted, every failed login up to the cursor was counted exactly once, in order, and no other, whenever no pass is under way |
| `TelemetryRuns.CountersAreRecorded` | backend/domain/telemetry/worker.py:209-216 | in every history the counters are those of the failures counted, at the times they were counted, those cut off before their EXPIRE included |
| `TelemetryRuns.LoneLoginReportedIff` | backend/domain/telemetry/worker.py:205-216 | after an outage of any length, with passes at any times and any failures counted before, a single failed login alerts and quarantines its asset exactly when the key of its address alerts at the increments of all passes that could read |
| `TelemetryRuns.QuickOutageReportedIff` | backend/domain/telemetry/worker.py:205-216 | if all these passes lie within 60 s of the first, it alerts exactly after five aborted ones |
| `TelemetryRuns.SteadyOutageReportedIff` | backend/domain/telemetry/worker.py:102-113 | if they come at a steady pace, it alerts exactly after five aborted ones less than twelve seconds apart |
| `TelemetryRuns.SlowOutageSilent` | backend/domain/telemetry/worker.py:102-113 | with passes fifteen seconds apart no number of aborted ones leads to an alert |
| `TelemetryRuns.RegistryStaysConsistent` | backend/domain/telemetry/worker.py:248-269 | the quarantines of the consumer keep the registry consistent with its journal over every history |
| `TelemetryTables.EntriesAreKept` | backend/domain/telemetry/worker.py:142-238 | over every history, the metric of a published heartbeat with a usable payload is in the metrics table and the event of such a log entry in the event table, or the entry is still in the stream, or 100 000 entries were published after it |
| `TelemetryTables.TablesMean` | backend/domain/telemetry/worker.py:142-238 | without truncation, cancellation between steps and restart the two tables hold exactly the metrics of the heartbeats and the events of the log entries up to where the consumer has stored, in order and each once |
| `TelemetryTables.BatchMeans` | backend/domain/telemetry/worker.py:142-148 | a batch is the next entries behind the cursor, as many as asked for if there are so many |
| `TelemetryTables.PassMeans` | backend/domain/telemetry/worker.py:142-238 | a pass finds nothing without a read or a batch; it is aborted exactly by a heartbeat or log entry that cannot be used, or by a failed transaction although there is something to store; otherwise it counts what it stored |
| `TelemetryTables.LoginsCounted` | backend/domain/telemetry/worker.py:205-216 | between two passes of an undisturbed history the entries counted are the log events 4625 with a source address up to the cursor, in order and each once |
| `TelemetryTables.CountersMean` | backend/domain/telemetry/worker.py:205-216 | over every history the counters are those of one failure for each login counted, at its address |
| `TelemetryTables.CutIsCounted` | backend/domain/telemetry/worker.py:209-212 | a batch given up between the INCR and the EXPIRE of a login leaves that login counted, and cut off |
| `TelemetryTables.AlertsMean` | backend/domain/telemetry/worker.py:205-216 | a batch has an alert exactly for each such event at whose increment its address counts six or more, with its agent, address and count |
| `TelemetryTables.PassQuarantines` | backend/domain/telemetry/worker.py:248-269 | a pass that goes through quarantines exactly the assets of the agents that sent such events, 30 points down to zero, and leaves every other asset as it was |
| `FailedLogins.KeyAt` | backend/domain/telemetry/worker.py:209-216 | the key behind any failure: its count, when it ends if it does, and the failure it began with |
| `FailedLogins.FirstAlertIff` | backend/domain/telemetry/worker.py:209-216 | a key counts six exactly when it began five increments earlier, and these six lie within 60 s or the first of them was cut off between INCR and EXPIRE |
| `FailedLogins.CutKeyAlerts` | backend/domain/telemetry/worker.py:209-216 | six failures any time apart alert if the first was cut off before its EXPIRE |
| `FailedLogins.LaterAlertSound` | backend/domain/telemetry/worker.py:213-216 | every later alert follows an increment over the limit on the same key, by less than 300 s if that one was not cut off |
| `FailedLogins.NextAlertIff` | backend/domain/telemetry/worker.py:213-216 | after an alert the next increment counts on exactly within 300 s, and otherwise begins a key |
| `FailedLogins.TenFailuresAlert` | backend/domain/telemetry/worker.py:205-216 | any ten increments spanning less than 60 s go over the limit, whatever came before, and alert if none of them is cut off |
| `FailedLogins.SixFailuresAlertIff` | backend/domain/telemetry/worker.py:205-216 | six increments spanning less than 60 s go over the limit if and only if the first begins a key, or is over it, or the sixth of its key comes before the end that key got from its first |
| `FailedLogins.NineFailuresSilent` | backend/domain/telemetry/worker.py:205-216 | nine failures within one second that straddle two keys and raise no alert |
| `FailedLogins.SteadyCount` | backend/domain/telemetry/worker.py:209-216 | increments at a steady pace all count on if six of them fit into 60 s, and otherwise none of them is over the limit |
| `FailedLogins.AddressesIndependent` | backend/domain/telemetry/worker.py:209-212 | the key of an address depends on its own failures only, however addresses interleave |
| `BundleCorrelation.CorrelateBundle` | backend/domain/analyzer/services/bundle.py:560-723 | the loops compute the declarative ladder, its reasons, and the mentioned files (all files when nothing relates them) |
| `BundleCorrelation.Correlator.StrongPasses` | backend/domain/analyzer/services/bundle.py:594-611 | strong exactly when two differently named files share a job session or job id |
| `BundleCorrelation.Correlator.ResourcePasses` | backend/domain/analyzer/services/bundle.py:652-690 | without a strong link: medium exactly when some shared resource is verified, else weak when one is shared |
| `BundleCorrelation.Correlator.SignaturePass` | backend/domain/analyzer/services/bundle.py:692-708 | otherwise weak exactly when a signature is shared |
| `BundleCorrelation.Correlator.Run` | backend/domain/analyzer/services/bundle.py:594-717 | the passes in order end with the ladder's confidence and reasons, and the sources are the names in the reasons |
| `BundleCorrelation.Correlator.Record` | backend/domain/analyzer/services/bundle.py:631-650 | a reason moves the confidence and adds its names |
| `BundleCorrelation.GroupBy` | backend/domain/analyzer/services/bundle.py:654-659 | each value maps to exactly the files that hold it |
| `BundleCorrelation.WindowsAgree` | backend/domain/analyzer/services/bundle.py:618-630 | the pair loop decides whether all holders are timed, in one clock domain, with pairwise overlapping windows |
| `BundleCorrelation.Judge` | backend/domain/analyzer/services/bundle.py:660-665 | one value gives the reason the ladder assigns to it, or none if it is not shared |
| `BundleCorrelation.GroupDecides` | backend/domain/analyzer/services/bundle.py:618-650 | what the loops see of a group agrees with shared and verified as defined on the files |
| `BundleCorrelation.SharedNames` | backend/domain/analyzer/services/bundle.py:602-604 | a value is shared exactly when its set of file names has two members |
| `BundleCorrelation.StrongReasonsMeaning` | backend/domain/analyzer/services/bundle.py:594-611 | strong reasons exist exactly when the files are strongly linked |
| `BundleCorrelation.ResourceReasonsMeaning` | backend/domain/analyzer/services/bundle.py:652-690 | resource reasons, and medium ones among them, exist exactly when the ladder says so |
| `BundleCorrelation.SignatureReasonsMeaning` | backend/domain/analyzer/services/bundle.py:694-708 | signature reasons exist exactly when a signature is shared |
| `BundleCorrelation.UploadOrderIrrelevant` | backend/domain/analyzer/services/bundle.py:563-578 | any permutation of the files gives the same confidence, reasons and set of sources |
| `BundleCorrelation.AddingAFile` | backend/domain/analyzer/services/bundle.py:594-712 | a further file never demotes strong and never unrelates a bundle |
| `BundleCorrelation.VerifiedWithIff` | backend/domain/analyzer/services/bundle.py:618-630 | a resource with a holder stays verified exactly unless the new file holds it without fitting some holder |
| `BundleCorrelation.DemotesIff` | backend/domain/analyzer/services/bundle.py:613-690 | a further file demotes medium to weak if and only if it makes no strong link and every resource that two files now share and that was verified before is one it holds without fitting some holder |
| `BundleCorrelation.AddingAFileMayDemote` | backend/domain/analyzer/services/bundle.py:641-650 | a further untimed holder demotes a concrete bundle from medium to weak |
| `BundleCorrelation.CommonInstant` | backend/domain/analyzer/services/bundle.py:540-557 | all holders of a verified resource have one common instant in their windows expanded by 300 s |
| `BundleCorrelation.MediumReasonHasInstant` | backend/domain/analyzer/services/bundle.py:618-640 | so has every recorded medium reason, which names all its holders |
| `BundleVerdict.VerifiedIff` | backend/domain/analyzer/services/bundle.py:540-557 | the pairwise comparison of windows verifies a shared value exactly when all files that carry it have both times and a clock, all in one clock, and one instant lies within 300 s of every window |
| `BundleVerdict.ConfidenceMeans` | backend/domain/analyzer/services/bundle.py:594-712 | strong with a job session or job id in two files; else medium with a path, machine or snapshot in two files that come near one instant; else weak with any of these or a signature in two files; else none |
| `BundleVerdict.ReasonsMean` | backend/domain/analyzer/services/bundle.py:594-717 | which reasons are given, each with exactly the files that carry its value, and no others |
| `BundleVerdict.ReasonsInPlace` | backend/domain/analyzer/services/bundle.py:594-717 | they come kind by kind in the order of the passes, by value in one kind, none twice, and the caution about weak links comes last |
| `Evidence.OrderIgnoresInput` | backend/domain/analyzer/services/evidence.py:196-216 | permuted records with distinct places order alike |
| `Evidence.OrderKeepsRecords` | backend/domain/analyzer/services/evidence.py:196-216 | ordering neither drops nor repeats a record |
| `Evidence.OrderIsChronological` | backend/domain/analyzer/services/evidence.py:199-203 | in one clock domain times ascend and untimed records come last; in several domains the order is that of the sources |
| `Evidence.IncidentIgnoresUploadOrder` | backend/domain/analyzer/services/incident_extract.py:243-351 | any permutation of the records gives the same incident in every field but operationStage |
| `Evidence.FirstAndTerminal` | backend/domain/analyzer/services/incident_extract.py:259-270 | in one clock domain no timed failure precedes the first one, and none follows the terminal one when that is timed |
| `Evidence.IncidentFromRecords` | backend/domain/analyzer/services/incident_extract.py:243-351 | the loops build exactly the incident defined on the records, stage and next evidence included |
| `Evidence.CollectPaths` | backend/domain/analyzer/services/incident_extract.py:316-337 | the paths, sorted and without repetition, are those in signals and in hinted lines at other places |
| `Evidence.CollectLabels` | backend/domain/analyzer/services/incident_extract.py:277-281 | the loop yields the names of the matching patterns and no others, each once, in table order |
| `Evidence.LabelsAreMatches` | backend/domain/analyzer/services/incident_extract.py:277-281 | a label is emitted exactly when a pattern of that name matches; none comes twice; the labels of the first k patterns come first |
| `IncidentFields.OrderMeans` | backend/domain/analyzer/services/evidence.py:196-216 | in one clock domain timed records come first and by time, equal times and untimed ones by file and line; in several clock domains all by file and line |
| `IncidentFields.EventsMean` | backend/domain/analyzer/services/incident_extract.py:262-270 | first and terminal event are the ends of the failures, or of the warnings when nothing failed, and are missing exactly when no line is a signal |
| `IncidentFields.EventsFrame` | backend/domain/analyzer/services/incident_extract.py:259-270 | in one clock domain no timed one of these precedes the first, and none follows the terminal one when that is timed |
| `IncidentFields.ListsMean` | backend/domain/analyzer/services/incident_extract.py:272-302 | the timeline shows the first twelve signals in order, the evidence the first ten failures, each text cut to 300 characters |
| `IncidentFields.SignaturesMean` | backend/domain/analyzer/services/incident_extract.py:283-300 | the signatures are the first 200 characters of every failure that carries one, sorted and each once |
| `IncidentFields.PathsMean` | backend/domain/analyzer/services/incident_extract.py:316-337 | the paths are the three least of those in signals and in hinted lines at places without a signal, never of HTML |
| `IncidentFields.UnknownMeans` | backend/domain/analyzer/services/incident_extract.py:304-314 | the unknowns name clocks that differ between timed signals, else signals without a time |
| `IncidentFields.StageMeans` | backend/domain/analyzer/services/incident_extract.py:276-281 | the stage joins the labels that match the signal lines in the order of the records |
| `OperationSegments.OperationSegments` | backend/domain/analyzer/services/evidence.py:360-405 | the loop partitions the sorted records with every cut justified by what the segment before had shown, and no cut missed |
| `OperationSegments.PartitionUnique` | backend/domain/analyzer/services/evidence.py:360-405 | there is only one such partition |
| `OperationSegments.SegmentsIgnoreInput` | backend/domain/analyzer/services/evidence.py:374 | permuted records with distinct places have the same segments |
| `OperationSegments.SegmentIsOneOperation` | backend/domain/analyzer/services/evidence.py:384-392 | inside a segment: one file, line gaps up to 15, one clock domain, date and time gaps up to 300 s, one value per session type, one unambiguous operation |
| `OperationSegments.CutIff` | backend/domain/analyzer/services/evidence.py:360-392 | a record closes a segment exactly for another file, a gap of more than 15 lines, a session value that differs from that of some record, an operation that differs from that of some record where both name one, or, against the last timed record, another clock, another day or more than 300 s |
| `OperationSegments.PartitionMeans` | backend/domain/analyzer/services/evidence.py:393-405 | every segment begins with a record that had to be cut off in this sense, and holds none that had to |
| `OperationSegments.WindowSpans` | backend/domain/analyzer/services/evidence.py:335-345 | exactly the spans around the anchors, each all lines at most the radius away, none twice, in the order of their anchors |
| `OperationSegments.SegmentContextFacts` | backend/domain/analyzer/services/evidence.py:430-433 | the windows defined for a segment show exactly the lines at most the radius away from an anchor, there is one around every anchor, and none comes twice |
| `OperationSegments.ContextOfSegment` | backend/domain/analyzer/services/evidence.py:430-433 | the loop yields exactly these windows in order |
| `OperationSegments.ContextOfFile` | backend/domain/analyzer/services/evidence.py:429-437 | the same for all operations of one file |
| `OperationSegments.DiagnosticContext` | backend/domain/analyzer/services/evidence.py:408-438 | the windows come file by file and operation by operation; each shows exactly the lines of one operation at most the radius away from an anchor of it, and every anchor line of the bundle has such a window |
| `Compaction.ChooseCentres` | backend/domain/analyzer/services/compaction.py:54-66 | the loop over covered lines chooses the greedy centres |
| `Compaction.CentresApart` | backend/domain/analyzer/services/compaction.py:57-66 | at most 40 centres, all signal lines, more than 24 lines apart |
| `Compaction.WindowsDisjoint` | backend/domain/analyzer/services/compaction.py:57-66 | windows are disjoint and in order |
| `Compaction.SignalsCovered` | backend/domain/analyzer/services/compaction.py:55-66 | unless 40 were chosen, every signal line is within 24 lines after a centre |
| `Compaction.MeetsLast` | backend/domain/analyzer/services/compaction.py:61-64 | a new window meets the covered lines exactly when the last centre is at most 24 lines away |
| `Compaction.DistinctWindows` | backend/domain/analyzer/services/compaction.py:68-75 | the loop keeps the first of equal windows and drops blank ones |
| `Compaction.CompactLogEvidence` | backend/domain/analyzer/services/compaction.py:41-92 | the method computes the compacted text, whose parts `CompactedText.CompactMeans` describes |
| `Compaction.EnforceBound` | backend/domain/analyzer/services/compaction.py:83-92 | the result overruns the bound exactly when header, tail, marks and note come within 500 characters of it, and by no more than the mark; otherwise header, tail and note survive whole |
| `Compaction.BoundExceededIff` | backend/domain/analyzer/services/compaction.py:41-92 | the same for the compacted text as a function of the input |
| `Compaction.RoomForWindows` | backend/domain/analyzer/services/compaction.py:84-91 | with a bound of 12 000 or more the overrunning branch is unreachable |
| `Compaction.CompactionBoundedAndIdempotent` | backend/domain/analyzer/services/compaction.py:41-92 | under the default bound the result never exceeds 60 000 characters, and compacting it again changes nothing |
| `CompactedText.CentreIff` | backend/domain/analyzer/services/compaction.py:54-66 | a line is a centre exactly if it is a signal, fewer than 40 centres come before it, and none of them within 24 lines |
| `CompactedText.CompactMeans` | backend/domain/analyzer/services/compaction.py:41-92 | a log within its bound stays; else its first 3000 and last 8000 characters frame the windows of lines c-12 to c+12 around the centres, the first of each stripped text that is not empty, in order; if that is too long the windows lose their end, and only if they cannot lose enough the whole is cut |
| `CompactedText.EndsAreKept` | backend/domain/analyzer/services/compaction.py:57-92 | under the default bound a longer log keeps its first 3000 characters at the beginning and its last 8000 just before the note |
| `CompactedText.EndsIff` | backend/domain/analyzer/services/evidence.py:137-145 | header and tail are the lines with fewer than 3000 characters before them or fewer than 8000 behind |
| `CompactedText.RetainedIff` | backend/domain/analyzer/services/evidence.py:146-164 | a window around a centre is retained whole exactly if it lies in header and tail or still fits the budget beside them and what was retained of earlier windows; otherwise nothing of it besides header and tail |
| `CompactedText.RetainedFrom` | backend/domain/analyzer/services/evidence.py:146-164 | every other retained line is at most twelve lines from a centre |
| `CompactedText.RecordsMean` | backend/domain/analyzer/services/evidence.py:167-193 | the records are the lines that are not blank, and retained where the file exceeds its budget, each with its file and number |
| `Compaction.HeaderIsLeast` | backend/domain/analyzer/services/evidence.py:137-145 | the header is the shortest prefix that reaches its budget |
| `Compaction.TailIsLatest` | backend/domain/analyzer/services/evidence.py:137-145 | the tail is the shortest suffix that reaches its budget |
| `Compaction.EndLines` | backend/domain/analyzer/services/evidence.py:137-145 | the two loops select header and tail |
| `Compaction.RetainedSourceLines` | backend/domain/analyzer/services/evidence.py:127-164 | the greedy loop tries exactly the windows that compaction chooses |
| `Compaction.RetentionWithinBudget` | backend/domain/analyzer/services/evidence.py:127-164 | header and tail are kept, the rest lies in chosen windows, and the cost is within the budget or that of header and tail |
| `Compaction.BoundedIsFiltered` | backend/domain/analyzer/services/evidence.py:167-193 | bounded building equals filtering the unbounded records, without renumbering |
| `Compaction.BuildEvidenceRecords` | backend/domain/analyzer/services/evidence.py:167-193 | the loops build the records of all files, bounded per file |
| `GlobalSearch.GlobalSearch` | backend/domain/search/service.py:27-54 | the page is cut from the sorted answers under its budget, and is the slice of the stable ranking of all hits whenever no provider holds back a better hit than it returns |
| `GlobalSearch.Collect` | backend/domain/search/service.py:43-49 | a faulting provider contributes nothing, the others up to the budget |
| `GlobalSearch.CollectedOf` | backend/domain/search/service.py:43-49 | wherever a provider stands among the others, it adds its first hits up to the budget at its place, and nothing if it faults |
| `GlobalSearch.BudgetIsEnough` | backend/domain/search/service.py:40-51 | if no provider holds back a better hit than its first n, the first n of the budgeted ranking are the first n of the full ranking |
| `GlobalSearch.PrefixExactIff` | backend/domain/search/service.py:40-51 | sorting the first n hits of one provider gives the first n of all of them sorted if and only if no hit behind the first n outranks one of them |
| `GlobalSearch.PageIsExact` | backend/domain/search/service.py:51-54 | under that condition a page is the slice of the ranking |
| `GlobalSearch.PagesConcatenate` | backend/domain/search/service.py:53-54 | under that condition for every page, the budgeted pages one to n together are the first n*limit hits: none repeated or skipped |
| `GlobalSearch.PagesExactIff` | backend/domain/search/service.py:40-54 | for one provider the first n pages are right if and only if the condition holds at the end of each of them |
| `SearchPaging.BudgetEnoughIff` | backend/domain/search/service.py:40-51 | for several providers with different hits, the first n of the budgeted ranking are right if and only if every hit held back is outranked by n returned ones |
| `SearchPaging.SeveralPagesExactIff` | backend/domain/search/service.py:40-54 | the first n pages are right if and only if that holds at the end of each of them |
| `SearchPaging.BeforeInSort` | backend/domain/search/service.py:51 | the ranking puts one hit before another exactly when it is more relevant, or as relevant and earlier in provider order |
| `GlobalSearch.NameOrderHidesTheBest` | backend/domain/search/providers/asset_provider.py:38-78 | hits in name order: pages one and two show the same hit and the exact match is on neither |
| `GlobalSearch.RankingIsStable` | backend/domain/search/service.py:51 | the ranking sorts all hits by descending relevance and keeps provider order among ties |
| `GlobalSearch.TotalExactIff` | backend/domain/search/service.py:52-54 | the reported total is the true one exactly when no provider was cut off |
| `TimeCorrelation.TimePairs` | backend/api/routers/analyzer/stats.py:110-124 | each pair's counter is the number of i<j with times present, ids known and distinct, at most 300 s apart, in either order of time |
| `AssetJournal.AssetRepository.CreateAsset` | backend/domain/asset_registry/repository.py:55-97 | enrols a discovered asset and journals it, or fails on a taken fingerprint with nothing changed |
| `AssetJournal.AssetRepository.TransitionAsset` | backend/domain/asset_registry/repository.py:125-172 | moves along the matrix and journals it, or fails with nothing changed, as `AssetJournal.TransitionMeans` says arrow by arrow |
| `AssetJournal.AssetRepository.UpsertOfflineReport` | backend/domain/asset_registry/repository.py:205-264 | creates or updates the one matching asset and journals it, or fails with nothing changed |
| `AssetJournal.AssetRepository.QuarantineAlerted` | backend/domain/telemetry/worker.py:248-269 | quarantines each alerted asset once, 30 points down to zero, and journals it |
| `AssetJournal.JournalDeterminesRegistry` | backend/domain/asset_registry/repository.py:55-264 | after every run, replaying the journal gives every asset's state and score; every record agrees with the replay before it; transitions are arrows of the matrix; scores stay within 0 and 100; fingerprints stay unique |
| `AssetJournal.RunConsistent` | backend/domain/asset_registry/repository.py:55-264 | the same as an invariant kept from any consistent registry |
| `AssetJournal.BypassesMatrixIff` | backend/domain/asset_registry/state_machine.py:37-92 | an operation changes the state of an asset outside the matrix exactly when a valid import settles on one that is discovered, quarantined or decommissioned, or an alert names one that is discovered or decommissioned |
| `AssetJournal.LeavesDecommissionedIff` | backend/domain/asset_registry/repository.py:213-248 | Decommissioned is left exactly by an import that settles on the asset or an alert that names it |
| `AssetJournal.DecommissionedAbsorbing` | backend/domain/asset_registry/state_machine.py:60-88 | with enrolments and transitions only, Decommissioned is absorbing over every run |
| `AssetJournal.TransitionMeans` | backend/domain/asset_registry/repository.py:125-172 | a transition is done exactly if state and requested name are one of twelve arrows; then that asset alone has the state of that name, and one record tells both states and the score; otherwise nothing changes and the answer is violation, or not found for a missing asset |
| `AssetJournal.EnrolMeans` | backend/domain/asset_registry/repository.py:55-97 | an enrolment fails exactly on a fingerprint in use, with nothing changed; otherwise the new asset is Discovered with score 0 and one record |
| `AssetJournal.ImportMeans` | backend/domain/asset_registry/repository.py:205-264 | an import fails with nothing changed exactly on two assets that match or a score outside 0 to 100; otherwise the asset that matches, or a new one, gets hostname, address and score, and is Compliant from score 70 on and else NonCompliant, with one record |
| `AssetJournal.QuarantineTouches` | backend/domain/telemetry/worker.py:248-269 | an alerted asset that is not yet quarantined becomes so and loses 30 points down to zero; nothing else of it changes, and nothing of the others |
| `AssetJournal.QuarantineIsRecorded` | backend/domain/telemetry/worker.py:248-269 | the journal has a record of it with the attempts of the first alert about the asset and both scores |
| `ImportPipeline.IngestReportEvents` | backend/domain/analyzer/services/import_pipeline.py:343-443 | received = new + duplicate + failed on every path; the rows added; nothing committed is taken back; analysed + failed analyses within the cap and the new rows |
| `ImportPipeline.NormalizeAll` | backend/domain/analyzer/services/import_pipeline.py:369-377 | unusable entries are dropped and counted |
| `ImportPipeline.Partition` | backend/domain/analyzer/services/import_pipeline.py:392-398 | the usable events split into new rows and duplicates |
| `ImportPipeline.Analyse` | backend/domain/analyzer/services/import_pipeline.py:426-433 | the candidates not analysed before and analysed successfully enter the history; every other such candidate counts as a failure |
| `ImportPipeline.ReimportAddsNothing` | backend/domain/analyzer/services/import_pipeline.py:379-398 | importing the same report again adds nothing, at any later time |
| `ImportPipeline.NothingNewIff` | backend/domain/analyzer/services/import_pipeline.py:392-398 | nothing is new exactly when every usable event is known |
| `ImportPipeline.KeysStayUniqueIff` | backend/domain/analyzer/services/import_pipeline.py:379-398 | stored keys stay unique if and only if no two usable entries of the report share a key that is not stored yet |
| `ImportPipeline.RowsUniqueIff` | backend/domain/analyzer/services/import_pipeline.py:392-398 | the new rows have different keys if and only if no key that is not stored occurs twice among the events |
| `ImportPipeline.ListedTwiceStoredTwice` | backend/domain/analyzer/services/import_pipeline.py:392-398 | a report that lists one usable entry twice stores its key twice |
| `ImportPipeline.NoSkippedEventOutranks` | backend/domain/analyzer/services/import_pipeline.py:416-420 | no new event outside the candidates outranks one inside, and equals keep report order |
| `ImportPipeline.KeyIdentifies` | backend/domain/analyzer/services/import_pipeline.py:124-140 | an event without bars in its fields has the key of another event of any asset exactly when asset, channel, provider, record id and time agree |
| `ImportPipeline.ConfusedIff` | backend/domain/analyzer/services/import_pipeline.py:78-140 | another event of some report has the same key and another identity if and only if a bar in channel, provider or record id can serve as one of the two cuts between them |
| `ImportPipeline.ProducibleNames` | backend/domain/analyzer/services/import_pipeline.py:94-98 | every normalised event has a channel and a provider without outer blanks |
| `ImportPipeline.BarsConfuseKeys` | backend/domain/analyzer/services/import_pipeline.py:130-140 | two different events with bars in their fields share a key |
| `ImportOutcome.NormalizeMeans` | backend/domain/analyzer/services/import_pipeline.py:78-122 | an entry is dropped exactly without an event id of at least 0; else its fields are stripped, get their defaults, and are cut to 16 characters of severity and 1000 of message |
| `ImportOutcome.UsableMean` | backend/domain/analyzer/services/import_pipeline.py:369-377 | the usable events are those of the entries not dropped, one for each, in order |
| `ImportOutcome.RowsMean` | backend/domain/analyzer/services/import_pipeline.py:392-398 | there is one new row for each usable event whose key is not known, in order |
| `ImportOutcome.CandidatesMean` | backend/domain/analyzer/services/import_pipeline.py:416-420 | the candidates are as many new rows as the cap allows, and no other new row is more severe than one of them: critical before error before warning before the rest |
| `ImportOutcome.AnalysedMean` | backend/domain/analyzer/services/import_pipeline.py:426-433 | the keys that enter the history are those of the candidates not analysed before whose analysis works, in order |
| `Manifest.RoundTripIff` | tools/build_usb_package.py:150-190 | the written manifest parses back to the written records if and only if every path is free of bars, line boundaries, outer blanks and a leading `#` |
| `Manifest.ParsedText` | tools/build_usb_package.py:174-190 | for tidy paths the parser returns exactly the records that do not look like comments |
| `Manifest.ScannedTidy` | tools/build_usb_package.py:178-190 | whatever the text, parsed paths have no bar, boundary or outer blank |
| `Manifest.BuiltIsCovered` | tools/build_usb_package.py:150-159 | the built records are size and digest of every file but the manifest, whatever the listing order |
| `Manifest.ManifestStands` | tools/build_usb_package.py:162-190 | a manifest over plain paths keeps standing for the files it was written over as long as it is left alone |
| `Manifest.TamperingIsReportedIff` | tools/build_usb_package.py:205-244 | with a collision-free digest the check reports an integrity problem if and only if a covered file was changed or removed, or a file was added that is neither generated output nor bytecode |
| `Manifest.ReportsByKind` | tools/build_usb_package.py:212-242 | exactly when each kind of problem is reported for a changed package |
| `Manifest.FreshPackageCleanIff` | tools/build_usb_package.py:205-244 | a fresh package has no missing, size, hash or unexpected problem, and none at all exactly when it covers something, holds the required files and no forbidden path |
| `Manifest.ReportedIsJustified` | tools/build_usb_package.py:212-244 | every reported problem holds of the package |
| `Manifest.JustifiedIsReported` | tools/build_usb_package.py:212-244 | every problem that holds is reported |
| `Manifest.MissingOrRaised` | tools/build_usb_package.py:205-213 | a missing manifest is the only problem reported, and the check raises exactly when the manifest cannot be decoded or parsed |
| `Manifest.Package.BuildManifest` | tools/build_usb_package.py:150-159 | the loop skips directories and the manifest and records the rest |
| `Manifest.Package.WriteManifest` | tools/build_usb_package.py:162-171 | writes the header and one line per record, and nothing else |
| `Manifest.Package.ParseManifest` | tools/build_usb_package.py:174-190 | a missing file gives no records; undecodable text or a bad size raises |
| `Manifest.ReadLines` | tools/build_usb_package.py:178-190 | the loop over the lines reads the files section |
| `Manifest.Package.FindProblems` | tools/build_usb_package.py:205-244 | the problems in the order in which they are found |
| `Manifest.WrittenLines` | tools/build_usb_package.py:162-171 | the written text has three head lines and then one line per record with path, size and digest |
| `Manifest.GeneratedMeans` | tools/build_usb_package.py:193-197 | generated output is a listed name or anything below it |
| `Manifest.BytecodeMeans` | tools/build_usb_package.py:200-202 | bytecode is anything below a directory `__pycache__` or a name that ends in `.pyc` |
| `Manifest.ForbiddenMeans` | tools/build_usb_package.py:239-242 | a path is forbidden exactly if a marker stands somewhere in its lower-case form |
| `PlainText.LinesOfUnlines` | tools/build_usb_package.py:171-179 | splitting joined lines gives them back |
| `PlainText.FirstLine` | tools/build_usb_package.py:179 | a text that starts with a line and its boundary splits into that line and the lines of the rest; "\r\n" is one boundary |
| `PlainText.ValueOfDecimal` | tools/build_usb_package.py:170-189 | a printed size reads back |
| `PlainText.SplitMeans` | tools/build_usb_package.py:182-186 | splitting gives exactly the stretches between the separators |
| `PlainText.StripFacts` | tools/build_usb_package.py:186 | stripping cuts off blanks at both ends and nothing else |
| `Compliance.CalculateCompliance` | clients/usb_auditor/scanner/compliance.py:84-188 | the report: score within 0 and 100 and between two domain scores, exact verdict condition, counters that cover all checks exactly when every status is known |
| `Compliance.ExtractStatuses` | clients/usb_auditor/scanner/compliance.py:38-60 | the statuses of the entries that have one, in order |
| `Compliance.StatusesMean` | clients/usb_auditor/scanner/compliance.py:38-60 | the status of every entry that has one stands in the list at the place of its rank, and nothing else does |
| `Compliance.CountMeans` | clients/usb_auditor/scanner/compliance.py:152-154 | the counters are the numbers of checks with that status |
| `Compliance.RoundingBounds` | clients/usb_auditor/scanner/compliance.py:136 | rounding half to even, as two inequalities without division |
| `Compliance.ScoreInRange` | clients/usb_auditor/scanner/compliance.py:141-146 | the score lies within 0 and 100, and is 100 when everything passes |
| `Compliance.OverallBetweenDomains` | clients/usb_auditor/scanner/compliance.py:131-146 | bounds on all domains with checks bound the overall score, through the rounding |
| `Compliance.OverallIsFramed` | clients/usb_auditor/scanner/compliance.py:131-146 | some domain scores no more than the whole and some no less |
| `Compliance.RaisingNeverLowers` | clients/usb_auditor/scanner/compliance.py:63-79 | raising one status never lowers the score |
| `Compliance.CompliantIff` | clients/usb_auditor/scanner/compliance.py:148-149 | compliant exactly when there are checks and 100(2 PASS + WARNING) is at least 159 per check |
| `Compliance.VerdictAgreesIff` | clients/usb_auditor/scanner/compliance.py:15-17 | the verdict differs from the documented 80 percent exactly from 79.5 up to, not including, 80 percent |
| `Compliance.LenientVerdict` | clients/usb_auditor/scanner/compliance.py:148-149 | a report at 79.54 percent is compliant |
| `Compliance.EarnedCounts` | clients/usb_auditor/config/settings.py:113-118 | points depend on the numbers of passes and warnings only |
| `Compliance.CountersCoverIff` | clients/usb_auditor/scanner/compliance.py:151-154 | the three counters cover every check exactly when every status is known |
| `Sorting.SortStable` | backend/domain/search/service.py:51 | the sort keeps equal elements in place |
| `Sorting.SortIgnoresOrder` | backend/domain/analyzer/services/evidence.py:196-216 | sorting by a key without ties ignores the input order |

## Left out

- Regular expressions, `datetime` parsing, `str.strip` and `str.lower` in the evidence engine, HTML, EVTX and OCR extraction: functions or fields of a line.
- Evidence.IncidentIgnoresUploadOrder: operationStage is left out, because its patterns search the signal lines joined in input order.
- TelemetryStream.Classify: `Unusable` stands for any exception inside the loop, including a failing asset lookup or counter; no liveness is claimed, since such an entry or a failing transaction can hold a batch for ever.
- Stream ids are natural numbers, "0-0" is 0; Redis losing data, several consumers, the in-memory stub broker, and the publish path that answers "accepted" without queueing are not modelled; published means a successful XADD.
- TelemetryWorker.TelemetryStreamConsumer.PersistBatch: the session factory and the Redis client are assumed initialised; the message published for a quarantine is not modelled.
- TelemetryRuns.HistoryIsRun: reading a batch and looking through it, the transaction, and the trim each happen at one moment; a batch given up is given up after some entry, before or after its INCR.
- The cache from certificate fingerprints to assets in the consumer: rows carry the fingerprint.
- FailedLogins.KeyAt: a key is gone at its expiry instant; the theorems that need it say that time does not go back.
- BundleCorrelation.CorrelateBundle: reasons are values rather than sentences; summaries have set log locations aside already (`is_evidence_file_path`).
- OperationSegments.DiagnosticContext: windows are lists of records instead of text under printed file headers; codes without anchor patterns give the empty text.
- Compaction.CompactionBoundedAndIdempotent: texts have fewer than 10^100 characters and no more lines than characters.
- GlobalSearch.GlobalSearch: relevance is a real number; a provider is deterministic and returns the first hits of one list, in an order of its own.
- SearchPaging.SeveralPagesExactIff: the hits of all providers differ from each other; for hits that repeat only sufficiency is stated, by `GlobalSearch.PagesConcatenate`.
- The frequency table, the labels and the clusters of the statistics page.
- The asset cache in Redis, actor ids, timestamps, and concurrent registry transactions: operations are serial, and a failed commit changes nothing.
- What an analysis produces, provenance labels, and the text of the summaries.
- Manifest.Package.FindProblems: paths name files directly; symbolic links, `..`, letter case of the file system and unreadable files are not modelled; a listing may come in any order.
- Manifest.ToInt: what Python's `int` makes of text other than ASCII digits is a parameter.
- Compliance.CalculateCompliance: exact rationals instead of floating point; statuses are strings.
- Authentication, web search, translation, embeddings, scanners, exporters, migrations and the user interface: case analysis or I/O only.

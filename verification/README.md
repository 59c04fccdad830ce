# kcover preflight and recovery, modelled in Dafny

kcover finds slow nodes before a training job starts and restarts jobs that fail. Every node of a
workload exchanges data with one partner per batch and writes a JSON report. An agent compacts the
report and stores it as a `PreflightReport`. The manager collects the reports of a workload and names the
slow nodes. A ledger in one ConfigMap keeps several controllers from restarting a job too often. This
project models those parts and proves what they promise.

| module | part of the system |
|---|---|
| `Base`, `Json`, `Preflight` | results, Go's string order and sorting; JSON values; the shared data types |
| `ReportParser`, `ParserLaws` | reading one report document; what does not matter to it, and what missing batches and thresholds do |
| `DocumentLaws` | what is read from a document, told by its members alone, with every condition of acceptance |
| `Detection`, `VerdictLaws` | the slow-node rule as loops over maps, refined to a set formula; what the formula guarantees |
| `RoundRobin` | the pairing of the nodes by a rotating row, and the verdict on the node reports of a check built with it |
| `Aggregator`, `AggregatorRuns` | the collection of a workload's reports as an object; all its runs |
| `WholeCheck` | a whole check from the JSON documents through the collecting object to the verdict |
| `StoredCheck` | the same check from the nodes on: compacted, built, watched, read and collected |
| `RestartLedger` | one call under an arbitrary environment; any number of controllers interleaved; grants per time span |
| `WorkQueue`, `Publisher` | delivery with retries: queue, pending map, single worker, submitters, timers |
| `EventForwarder` | the event channel of capacity one with its overflow queue |
| `Compaction`, `Transport` | the stored form of a report, its name, its hashed identity, producer and consumer |

Loops, in-place updates and objects of the Go code are methods and classes here. Each is tied by its
`ensures` to a specification function, and the laws are lemmas about those functions. Go maps are visited in
an arbitrary order (`:|`), so results that depend on that order are stated as sets of possible results.
Concurrency is a state machine: `Next` gives the effect of one action, `Reaches` the states that some list
of actions leads to, and the laws hold of every reachable state.

Library code outside the repository is a function-valued parameter (`parseFloat`, `parseAddr`,
`unicode.ToLower`, SHA-256): the laws hold for any such function unless a `requires` says otherwise.

What the proofs show about the code beyond its documentation:

- The verdict is exact when fewer nodes are faulty than there are batches, and in general exactly when no
  healthy node has only faulty partners. The bound is tight for every even number of nodes: as many failing
  nodes as batches can make a healthy one be named. With two nodes, one faulty node makes both be named.
- Beside a fail-fast report a further failure can clear a node named before, in a workload of four nodes
  already; the exact condition is given, for IPs and for the nodes of the verdict list.
- Two spellings of one address are the only pairs that the two ends report in different orders. The verdict
  does not depend on that order.
- Stamps of two grants for one job may lie at any distance below the time to live, but only when another
  job's call came in between at a time when it could prune the earlier entry. What is bounded is the distance
  from a recorded stamp to the next commit. Stamps keep apart in all runs exactly when there is one job only.
- pkg/preflight/report_transport_test.go:59-73 suggests that every workload name gives a valid object name.
  A name with a dot next to a hyphen or a dot does not; the exact condition is given.
- A fail-fast report whose threshold is not text, or with a batch entry that is not an object, is accepted by
  the manager's reader but cannot be compacted, hence not stored.
- The repository's README.md:240-241 asks for exactly `min(workload_size - 1, 5)` batch slots. The code accepts fewer and
  ignores more; without fail-fast reports, a batch that no report covers means that no node is named.
- Of two reports submitted under one name with different contents only one can be stored, and the other is
  dropped, whether it is submitted while the first is in delivery or after the first is stored. Once everything
  is delivered, each report is stored as itself exactly when names determine contents.

## Model

| member | source | states |
|---|---|---|
| Detection.DetectSlowNodes | pkg/preflight/slow_node_detection.go:35-49 | the result lists, in strict dictionary order, exactly the fail-fast names and the names of the IPs that fail in every failing batch; without fail-fast reports the pairwise part is empty when fewer batches fail than are expected; whatever the map order |
| Detection.ClassifyNodeReports | pkg/preflight/slow_node_detection.go:51-68 | splits the reports into the fail-fast names and the remaining reports, and tells whether there was a fail-fast one |
| Detection.FoldPairs | pkg/preflight/slow_node_detection.go:147-163 | every reported pair has one entry, failed exactly when some report of it failed, in whatever order the reports are visited |
| Detection.FailedNodeIPsByBatch | pkg/preflight/slow_node_detection.go:147-185 | a batch has an entry exactly when a pair failed in it, and the entry holds exactly the IPs at either end of a failed pair |
| Detection.IntersectFailedNodeIPs | pkg/preflight/slow_node_detection.go:190-232 | despite in-place deletion and the early exit, the result names exactly the IPs found in every batch of the table |
| Detection.Retain | pkg/preflight/slow_node_detection.go:210-218 | deleting while iterating leaves the intersection of the two sets |
| Detection.NodeIPToName | pkg/preflight/slow_node_detection.go:116-126 | maps exactly the non-empty reported IPs, each to the name of some node that reported it |
| Detection.MergePairwiseSlowNodes | pkg/preflight/slow_node_detection.go:103-114 | adds exactly the names of the IPs common to all batches of the table |
| Detection.ObservedBatchCount | pkg/preflight/slow_node_detection.go:268-277 | counts the distinct batch indices over all results |
| Base.SortedNames | pkg/preflight/slow_node_detection.go:128-142 | the elements of the set, each once, in dictionary order: of two neighbours the first is a proper prefix of the second or has the smaller character where they first differ |
| Base.StrLeIff | pkg/preflight/slow_node_detection.go:134-138 | Go's string comparison, character by character, is dictionary order |
| VerdictLaws.ListedMeans | pkg/preflight/slow_node_detection.go:35-49 | every fail-fast node is listed and every named IP has an entry, the node of one of its reporters or, when nobody reported it, the IP itself; nothing else is listed |
| VerdictLaws.NobodyPassesListsNodes | pkg/preflight/slow_node_detection.go:16-49 | when nobody fails fast and every node reports a failure of every batch, the list holds exactly the nodes |
| VerdictLaws.NamedIffFailsEverywhere | pkg/preflight/slow_node_detection.go:78-88 | although only counts are compared, without fail-fast reports an IP is named exactly when it fails in every batch from 0 to the expected number |
| VerdictLaws.VerdictUnique | pkg/preflight/slow_node_detection.go:116-142 | if a non-empty IP determines its node, the answer is one list, whatever the map order |
| VerdictLaws.VerdictOnSchedule | pkg/preflight/slow_node_detection.go:16-49 | when every node has one partner per batch and no partner twice, and a pair fails exactly when it touches a faulty node, the verdict lists the faulty nodes and the healthy ones all of whose partners are faulty |
| VerdictLaws.ExactIffNobodySurrounded | pkg/preflight/slow_node_detection.go:16-49 | on such a schedule the verdict is exactly the faulty nodes if and only if no healthy node has only faulty partners |
| VerdictLaws.FewFaultsAreIdentified | pkg/preflight/slow_node_detection.go:35-49 | with fewer faulty nodes than batches the verdict is exactly the faulty nodes |
| VerdictLaws.TwoNodesAreBothNamed | pkg/preflight/report_parser.go:278-281 | with two nodes and one batch, one faulty node makes both be named |
| VerdictLaws.MoreFailuresNameMore | pkg/preflight/slow_node_detection.go:147-232 | without fail-fast reports, batches that fail in addition never remove a node from the verdict |
| VerdictLaws.FailFastKeepsNamesIff | pkg/preflight/slow_node_detection.go:78-88 | beside a fail-fast report, all named IPs survive additional failures if and only if every newly failing batch contains them too |
| VerdictLaws.FailFastKeepsNodesIff | pkg/preflight/slow_node_detection.go:35-49 | beside a fail-fast report, every node of the verdict list survives additional failures if and only if every newly failing batch contains the IP of every named node that did not fail fast itself |
| VerdictLaws.InVerdictIff | pkg/preflight/slow_node_detection.go:16-33 | a node that reports under its own name and IP is in the verdict list exactly when it failed fast or its IP is named |
| VerdictLaws.UncoveredBatchNamesNobody | pkg/preflight/slow_node_detection.go:83-87 | without fail-fast reports, a planned batch without any result leaves the verdict empty |
| VerdictLaws.FailFastBreaksMonotonicity | pkg/preflight/slow_node_detection.go:78-88 | reports of four nodes, with the three batches of their plan, for which a further failure takes a node out of the verdict list |
| VerdictLaws.SwapKeepsVerdict | pkg/preflight/slow_node_detection.go:151-182 | exchanging the two ends of any pairs keeps the set of possible verdicts |
| RoundRobin.RoundRobinPairs | pkg/preflight/slow_node_aggregator_test.go:1186-1208 | after rotating the row in place batch by batch, each batch pairs exactly those who sit opposite each other in the closed form of the rotation |
| RoundRobin.RoundRobinIsPairing | pkg/preflight/slow_node_aggregator_test.go:1186-1208 | for every even number of nodes partners are mutual and nobody meets anyone twice |
| RoundRobin.PairsArePartners | pkg/preflight/slow_node_aggregator_test.go:1191-1201 | every node is in one pair of each batch, with its partner |
| RoundRobin.RoundRobinFaultsAreFound | pkg/preflight/slow_node_aggregator_test.go:1132-1174 | for every even number of nodes up to the maximum and every set of fewer failing nodes than batches, the verdict on the node reports of the check is exactly the failing nodes, even though only they themselves report the failure |
| RoundRobin.BoundIsTight | pkg/preflight/slow_node_detection.go:35-49 | for every even number of nodes and every node, if exactly those fail whom it meets in the planned batches, which are as many as there are batches, then the healthy node is in the verdict, too |
| WholeCheck.DocumentRead | pkg/preflight/report_parser.go:15-47 | each document of the check is accepted with the plan for its size and one result per planned batch; the entries of further batches are dropped |
| WholeCheck.WholeCheckFindsFaults | pkg/preflight/slow_node_aggregator_test.go:573-599 | the 16-node test for every even number of nodes, every set of fewer failing nodes than batches, every timely order of arrival and any sweeps in between: the last report is answered with exactly the failing nodes |
| WholeCheck.RunCheck | pkg/preflight/slow_node_aggregator_test.go:573-599 | feeding the documents to a new aggregator object in any order ends with the sorted list of exactly the failing nodes |
| WholeCheck.Feed | pkg/preflight/slow_node_aggregator_test.go:579-598 | every call but the last one is answered as pending, the last one with a verdict |
| StoredCheck.StoredCheckFindsFaults | pkg/preflight/report_event.go:65-134 | the same conclusion when the reports collected are those read from the compacted documents |
| StoredCheck.StoredReportPasses | pkg/preflight/report_transport.go:50-97 | every compacted document of the check is built into a resource that carries it and that the watcher accepts |
| StoredCheck.RunStoredCheck | pkg/preflight/report_transport.go:50-97 | compacting and building every document, and feeding the stored reports to a new aggregator object in any order, ends with the sorted list of exactly the failing nodes |
| Preflight.BuildWorkloadPlan | pkg/preflight/report_parser.go:273-297 | succeeds exactly for even sizes from 2 to 10000; the plan then expects one report per node, and one batch less than there are nodes, but no more than 5 |
| DocumentLaws.DocumentMeans | pkg/preflight/report_parser.go:15-263 | the full law of reading: the manager reads a given report, plan and results from a document if and only if the members of the document say so (types and ranges of the members, threshold, every entry legible, no planned batch twice, results ascending and exactly those that the entries say) |
| DocumentLaws.ParsedMeans | pkg/preflight/preflight.go:9-20 | a report is parsed exactly from an object whose integer members are int64 literals, whose text members are texts, each absent or null counting as zero or empty, with a node name |
| DocumentLaws.EntryMeans | pkg/preflight/report_parser.go:127-182 | an entry is read as a given result if and only if its index, pair, reporter, status and measurement say so; the pair is put in the order of the addresses, or of the texts if one is not an address |
| DocumentLaws.IdentityMeans | pkg/preflight/report_parser.go:335-383 | with a pair, the reporter is `self_ip` if given, else `node_ip`, and must be one end; without one, only a skipped entry with `self_ip` is read, as that node paired with itself |
| DocumentLaws.FailureMeans | pkg/preflight/report_parser.go:184-218 | a batch with status fail or skip, in any case, has failed whatever the threshold; any other passes without a threshold; with one, a missing or ill-typed measurement is an error, a non-positive one is a failure, and else the batch fails exactly when it took longer than the threshold allows |
| DocumentLaws.ThresholdMeans | pkg/preflight/report_parser.go:239-263 | the threshold is zero if absent or blank, and otherwise the number that the trimmed text reads as, if it is not negative; anything else is an error |
| DocumentLaws.ListMeans | pkg/preflight/report_parser.go:93-125 | the batch list is read exactly when every entry is legible or past the plan and no planned batch has two; the results are those of the entries, in ascending order |
| DocumentLaws.FailFastIff | pkg/preflight/slow_node_aggregator.go:185-197 | an accepted document makes its node fail fast if and only if `gpu_check` or `storage_check` is 2, or its list has no entry for any planned batch |
| DocumentLaws.FailedChecksAreAccepted | pkg/preflight/report_parser.go:24-28 | with `gpu_check` or `storage_check` 2 the document is accepted for its name and size alone, whatever its batches and threshold are |
| DocumentLaws.FailedChecksAreNamed | pkg/preflight/slow_node_detection.go:51-68 | and its node is in every verdict list, whatever the others report |
| DocumentLaws.SkippedAlone | pkg/preflight/slow_node_detection.go:248-266 | a skipped entry without a pair stands for its reporter paired with itself, and has failed |
| DocumentLaws.SkippedCheckNamesEveryone | pkg/preflight/slow_node_aggregator_test.go:12-44 | a check of any size in which every planned batch was skipped or failed puts every node into the list |
| DocumentLaws.SkippedCheckNamesOnlyNodes | pkg/preflight/slow_node_aggregator_test.go:12-44 | and nobody else, when the pairs join addresses of its nodes |
| ReportParser.ExtractNodeReport | pkg/preflight/report_parser.go:15-47 | the staged reading with its early exits equals the specification; DocumentLaws.DocumentMeans says what that is in terms of the document |
| ReportParser.ExtractBatchResults | pkg/preflight/report_parser.go:93-125 | the loop computes the collected views of the entries; ParserLaws.CollectMeaning says what those are |
| ReportParser.ExtractBatchResult | pkg/preflight/report_parser.go:127-182 | an accepted entry has its index within the plan and the reporter at one end of its pair; DocumentLaws.EntryMeans says when it is accepted and as what |
| ReportParser.BatchSelfIP | pkg/preflight/report_parser.go:365-383 | an accepted reporter address is one end of the pair |
| ReportParser.ExtractBusBWThreshold | pkg/preflight/report_parser.go:239-263 | an accepted threshold is never negative; DocumentLaws.ThresholdMeans says which number it is |
| ReportParser.OrderedBatchResults | pkg/preflight/report_parser.go:220-235 | sorting the indices yields the results in ascending order of their index |
| ParserLaws.OrderedHolds | pkg/preflight/report_parser.go:229-232 | the ordered results are exactly the kept ones, none left out |
| ParserLaws.CollectMeaning | pkg/preflight/report_parser.go:97-122 | a batch list is accepted exactly when no entry is malformed and no index is taken twice, and then each batch is found under its index |
| ParserLaws.BatchOrderIsIrrelevant | pkg/preflight/report_parser.go:93-125 | reordering the batch list of a document changes neither acceptance nor anything read from it |
| ParserLaws.BatchesPastThePlanAreIgnored | pkg/preflight/report_parser.go:110-112 | an entry for a batch past the plan may stand anywhere in the list, whatever else it holds, without any effect |
| ParserLaws.ExtractedIsWellFormed | pkg/preflight/report_parser.go:15-47 | every accepted report has a valid plan and a node name; its results ascend strictly within the plan and have the reporter at one end |
| ParserLaws.CompleteIffCovered | pkg/preflight/report_parser.go:93-125 | a report accepted without failing fast has exactly the planned number of results if and only if its list holds an entry for every planned batch |
| ParserLaws.MissingBatchNamesNobody | pkg/preflight/report_parser.go:93-125 | if no document has an entry for some planned batch and none fails fast, the verdict on the documents is empty |
| ParserLaws.PairReadsAlikeIff | pkg/preflight/report_parser.go:335-363 | both ends read their pair in the same order unless the two texts are spellings of one address |
| ParserLaws.SwappedPairsReadAlike | pkg/preflight/report_parser.go:335-383 | exchanging pair ends in a document keeps acceptance, plan and fields, and the results up to the order of the ends |
| ParserLaws.SwappedPairsGiveSameVerdict | pkg/preflight/report_parser.go:335-383 | such a document leads to the same possible verdicts among any other reports |
| ParserLaws.BusBWBounds | pkg/preflight/report_parser.go:212-218 | bus bandwidth is at least the algorithm bandwidth and below twice it, and falls as time grows |
| ParserLaws.FailsWhenTooSlow | pkg/preflight/report_parser.go:184-210 | a batch with positive measurements and no bad status fails exactly when its time exceeds what the threshold allows |
| ParserLaws.RaisedThresholdFailsMore | pkg/preflight/report_parser.go:184-263 | reading a report with a higher threshold gives the same batches, of which at least the same ones failed |
| ParserLaws.HigherThresholdsNameMore | pkg/preflight/report_parser.go:184-263 | end to end, raising the thresholds of any reports never removes a node from the verdict when no report fails fast |
| Aggregator.SlowNodeAggregator.constructor | pkg/preflight/slow_node_aggregator.go:104-114 | starts empty, with ten minutes in place of a timeout that is not positive |
| Aggregator.SlowNodeAggregator.AddReportForWorkload | pkg/preflight/slow_node_aggregator.go:134-183 | rejects exactly missing identities, a missing observation time and unreadable documents, without effect; otherwise only the window of the report's own key steps, the answer fits that step, and a timeout names a node; the object stays the result of its recorded calls |
| Aggregator.SlowNodeAggregator.AddNodeReport | pkg/preflight/slow_node_aggregator.go:185-197 | replaces the node's entry in its own workload object and touches no other; a report without results counts as failing fast |
| Aggregator.SlowNodeAggregator.WorkloadForReport | pkg/preflight/slow_node_aggregator.go:199-218 | yields the object of the key with its old content if the plan is the same, else an empty one in its place |
| Aggregator.SlowNodeAggregator.EnsureWorkload | pkg/preflight/slow_node_aggregator.go:220-231 | a new object for the key with the given plan and times and no reports |
| Aggregator.SlowNodeAggregator.ExpireWorkloadIfTimedOut | pkg/preflight/slow_node_aggregator.go:237-251 | removes and describes the key's workload exactly when it is incomplete and the timeout has passed since its last report |
| Aggregator.SlowNodeAggregator.ExpireOneTimedOutWorkload | pkg/preflight/slow_node_aggregator.go:253-267 | removes and describes one timed-out workload if there is any, and nothing else |
| Aggregator.SlowNodeAggregator.ExpireTimedOutWorkloads | pkg/preflight/slow_node_aggregator.go:269-282 | terminates, removes exactly the timed-out workloads, reports each once, and each error names a node |
| Aggregator.SlowNodeAggregator.BuildTimeoutError | pkg/preflight/slow_node_aggregator.go:284-300 | the error lists exactly the reported nodes, in dictionary order, with both counts |
| Aggregator.AddToKeepsStored | pkg/preflight/slow_node_aggregator.go:153-182 | whatever arrives, a stored window keeps at least one report but fewer than expected and an observation span within the timeout; a verdict is over exactly the expected number of nodes; an overflowing report seeds the next window |
| Aggregator.TimeoutsNameANode | pkg/recovery/recovery.go:53-57 | a timeout error always has a first reported node, the least of the reported ones in dictionary order, and 1 <= received < expected, so the controller's branch for no reported nodes is never taken |
| Aggregator.SweepOrderIsIrrelevant | pkg/preflight/slow_node_aggregator.go:253-282 | two sweeps of the same workloads return the same errors, whatever the map order |
| AggregatorRuns.EveryReportIsAccountedFor | pkg/preflight/slow_node_aggregator.go:134-282 | in every run each report of a key is in exactly one place, in order of arrival: the open collection, or a closed one with its fate and the cause of it (a verdict on completion; a report or sweep at least the timeout later; the very next report with another plan; the very next report observed too far from one of them; a late report that is dropped right after it ended a collection); that cause occurred in the run, just when all reports until then were filed; the window is determined by the open reports |
| AggregatorRuns.CollectionEndsIff | pkg/preflight/slow_node_aggregator.go:155-182 | conversely, an input ends the open collection if and only if it comes at least the timeout after the last report, or is a report with another plan, observed too far from one of them, or completing it |
| AggregatorRuns.VerdictIsSafe | pkg/preflight/slow_node_aggregator.go:153-182 | a verdict comes from the last reports of exactly the expected number of distinct nodes, all of one plan, observed within the timeout of each other, each arriving less than the timeout after the one before |
| AggregatorRuns.FinishedCallIsSafe | pkg/preflight/slow_node_aggregator.go:134-183 | the same of every call that answers with a verdict, for the reports of its own key in any run of calls and sweeps |
| AggregatorRuns.ExpiredCallIsSafe | pkg/preflight/slow_node_aggregator.go:155-171 | a call that answers with a timeout lists exactly the nodes whose reports form the incomplete collection open for its own key |
| AggregatorRuns.KeysAreIndependent | pkg/preflight/slow_node_aggregator.go:28-32 | each key evolves by its own reports and the sweeps as if there were no other key |
| AggregatorRuns.LastArrivalIsReady | pkg/preflight/slow_node_aggregator.go:173-182 | timely reports of distinct nodes for one plan all wait, except that the last one missing is answered with all of them |
| AggregatorRuns.ArrivalOrderIsIrrelevant | pkg/preflight/slow_node_aggregator.go:158-182 | the same reports in any order, at any timely moments and between any sweeps, end in the same verdict |
| AggregatorRuns.FaultyNodesAreFound | pkg/preflight/slow_node_aggregator.go:134-183 | end to end: in whatever order the reports of a scheduled check arrive, the last call names exactly the faulty nodes when they are fewer than the batches |
| RestartLedger.LedgerKeySeparatesJobs | pkg/recovery/job_restart_ledger.go:35-38 | jobs share a ledger entry only if they are the same, for a digest without collisions |
| RestartLedger.PruneEntries | pkg/recovery/job_restart_ledger.go:74-79 | deleting while iterating keeps exactly the entries that parse and are not yet past their time to live |
| RestartLedger.TryWrite | pkg/recovery/job_restart_ledger.go:55-91 | a write that is applied over an existing ledger keeps exactly the entries live at its stamp, besides its own |
| RestartLedger.TryWriteCases | pkg/recovery/job_restart_ledger.go:55-91 | all answers to a look and the write after it: a live entry of the job denies; otherwise the stamp is written over the entries that are live, unless the ledger was created, written or removed meanwhile |
| RestartLedger.ConfigMapStore.AllowRestart | pkg/recovery/job_restart_ledger.go:40-95 | the retry loop, under any behaviour of other writers and any lost requests or answers, ends as its specification says; what it wrote is what is stored |
| RestartLedger.ConflictsAreRetried | pkg/recovery/job_restart_ledger.go:46-94 | a conflict is retried: the first of five attempts that meets none decides, with a grant if its write is applied and acknowledged, a denial if the job was restarted, and an error on any fault; five conflicts are an error |
| RestartLedger.CallIsSound | pkg/recovery/job_restart_ledger.go:46-94 | a call commits at most one write, with its own stamp over live entries; it returns true if and only if the write of the turn that settled it was applied and acknowledged after nothing but conflicts, so a lost answer is never a grant; a denial wrote nothing and names a live restart |
| RestartLedger.CommitterWaited | pkg/recovery/job_restart_ledger.go:74-91 | whoever commits for a job, with any number of controllers interleaved, does so no earlier than the stamp of every earlier write for it plus the time to live |
| RestartLedger.ReachableIsSpaced | pkg/recovery/job_restart_ledger.go:40-94 | that spacing, and that a live write is still in the store and the last for its job, hold in every reachable state |
| RestartLedger.RestartsAreBounded | pkg/recovery/job_restart_ledger.go:19-20 | no restart storm: if each call commits within delay < ttl of its clock sample, then n commits for a job within a span satisfy (n - 1) * (ttl - delay) <= span |
| RestartLedger.CallsAreSound | pkg/recovery/job_restart_ledger.go:46-94 | in every interleaving each grant has a write of its own, no call writes twice, and denied calls write nothing |
| RestartLedger.ConflictsAreRetriedByAll | pkg/recovery/job_restart_ledger.go:46-94 | the same in every reachable state of any number of controllers: a call that meets a conflict looks again with the same clock sample unless it has attempted five times, and any other answer ends it |
| RestartLedger.AttemptsAreCounted | pkg/recovery/job_restart_ledger.go:46-48 | the attempt number of a running call is one more than the conflicts it has met |
| RestartLedger.StampsCanBeCloser | pkg/recovery/job_restart_ledger.go:42-79 | for any two jobs, any time to live and any distance below it, a reachable state in which two grants of one job carry stamps at that distance |
| RestartLedger.OnlyOtherJobsBringStampsCloser | pkg/recovery/job_restart_ledger.go:42-79 | stamps of one job come closer than the time to live only across a write for another job whose own stamp lies past the time to live of the earlier one |
| RestartLedger.StampsApartIffOneJob | pkg/recovery/job_restart_ledger.go:42-79 | the stamps of each job keep at least a positive time to live apart in all runs over a set of jobs if and only if the set has at most one job |
| RestartLedger.PruningForgetsNothingThatMatters | pkg/recovery/job_restart_ledger.go:71-87 | for calls one after the other at non-decreasing times, whatever the ledger contained, it decides like one that never forgets |
| Publisher.ReportPublisher.constructor | pkg/preflight/report_publisher.go:40-58 | starts in the initial state, in front of whatever the API server already holds |
| Publisher.ReportPublisher.Start | pkg/preflight/report_publisher.go:78-103 | the publisher runs from then on, and nothing else changes |
| Publisher.ReportPublisher.Fire | pkg/preflight/report_publisher.go:140 | when its retry time has come, a delayed key is queued again |
| Publisher.LostThenStored | pkg/preflight/report_publisher.go:132-150 | started, given one report, and with the first request lost, the object retries and ends with the report stored and announced once |
| Publisher.ReportPublisher.Submit | pkg/preflight/report_publisher.go:62-76 | accepts exactly while running and with an identity; the report is then pending and its key queued; otherwise nothing changes |
| Publisher.ReportPublisher.ProcessNext | pkg/preflight/report_publisher.go:117-151 | a round takes the oldest key; by the fault of its request, its report is dropped as refused, kept for a retry (stored or not), found already stored, or stored and announced; it is the corresponding run of the machine's steps |
| Publisher.RoundOutcome | pkg/preflight/report_publisher.go:117-151 | the machine's steps from taking a key to releasing it have exactly that effect: a permanent refusal ends the delivery at once, with the store and the announcements unchanged, and without an answer the report stays pending until its retry |
| Publisher.ReportPublisher.Finish | pkg/preflight/report_publisher.go:153-158 | removes the key from the pending reports and nothing else |
| Publisher.KubeReportSink.WriteReport | pkg/preflight/report_transport.go:126-150 | create-if-absent, fault by fault: an existing report is never overwritten and is answered as success without creation; a refusal is permanent and stores nothing; a lost answer may still have created |
| Publisher.NothingIsLost | pkg/preflight/report_publisher.go:62-158 | in every interleaving each pending key is queued, marked, delayed or in the worker's hand; each accepted key is stored, permanently refused or pending; each acknowledged creation is announced once and nothing else is |
| Publisher.PendingWorkCanProceed | pkg/preflight/report_publisher.go:105-151 | while a report is pending the worker can move or a retry is due, even when every request is answered |
| Publisher.QuietRunsAreShort | pkg/preflight/report_publisher.go:105-158 | while every request is answered, be it by refusal, and nothing new is submitted, no run of worker and timers is longer than an explicit measure of what is queued, delayed and in hand |
| Publisher.RestIsReachable | pkg/preflight/report_publisher.go:105-158 | and from every such state a run within the measure leaves nothing pending, whatever reports the API server refuses |
| Publisher.ValidityDecides | pkg/preflight/report_publisher.go:132-150 | such a run stores what was pending if the API server finds it valid, and has it refused without storing it if not |
| Publisher.EverythingIsDelivered | pkg/preflight/report_publisher.go:60-76 | where such a run can go no further, nothing is pending and every accepted key is stored, unless it was permanently refused |
| Publisher.ContentsAreKept | pkg/preflight/report_publisher.go:66-73 | when a name fixes the content, the accepted report itself is stored, refused or pending |
| Publisher.ContentsKeptIff | pkg/preflight/report_publisher.go:62-158 | once nothing accepted is pending or refused, every accepted report is stored as itself if and only if accepted reports of one name are equal and agree with what was stored before |
| Publisher.RaceDropsSecondContent | pkg/preflight/report_publisher.go:145-158 | a run in which a second report under the same name, submitted before the first is finished, is dropped |
| WorkQueue.Queue.Done | pkg/preflight/report_publisher.go:122 | releasing a key that was added meanwhile makes it ready again, so the queue stays consistent |
| Publisher.KeysSeparate | pkg/preflight/report_publisher.go:66 | two reports share a key exactly when they are the same resource, as a namespace contains no slash |
| EventForwarder.Forwarder.Forward | pkg/events/kubeevent_transport.go:150-166 | sends directly if the channel has room, else queues; no event is lost or doubled, and each of the two streams keeps its order of arrival; order as a whole breaks exactly when a direct send finds older events waiting |
| EventForwarder.Forwarder.Take | pkg/events/kubeevent_transport.go:171-180 | taking the oldest queued event leaves the line of events unchanged |
| EventForwarder.Forwarder.Send | pkg/events/kubeevent_transport.go:182-188 | handing it to the channel leaves the line of events unchanged |
| EventForwarder.EveryEventIsThere | pkg/events/kubeevent_transport.go:150-190 | delivered, in the channel, in hand and queued together hold every forwarded event |
| EventForwarder.ThirdBeforeSecond | pkg/events/kubeevent_transport.go:157-165 | a run in which a later event overtakes a queued one |
| Compaction.CompactReport | pkg/preflight/report_event.go:65-134 | the loop with its early exits builds the compacted document of the specification, or fails; CompactedIff and CompactedKeeps say when and what |
| Compaction.CompactedIff | pkg/preflight/report_event.go:65-114 | a document can be compacted if and only if its top-level members are legible, its threshold is text if given, and all its batch entries are objects |
| Compaction.CompactedKeeps | pkg/preflight/report_event.go:88-162 | the stored document has exactly six top-level members, the batch list in its order, and the trimmed threshold unless blank; of each entry it keeps nine members and no other |
| Compaction.CompactionPreservesMeaning | pkg/preflight/report_event.go:65-162 | the manager accepts the compacted document exactly when it accepts the original, and reads the same plan, results and fields except version and workload |
| Compaction.SameNodeReport | pkg/preflight/report_event.go:88-134 | so the aggregator stores the same node report either way |
| Compaction.CompactionIsIdempotent | pkg/preflight/report_event.go:65-134 | compacting a compacted document succeeds and changes nothing |
| Compaction.CompactableIff | pkg/preflight/report_event.go:100-112 | a report the manager accepts can be compacted unless it fails fast and has a threshold that is not text or a batch entry that is not an object |
| Compaction.SomeAcceptedReportsCannotBeStored | pkg/preflight/report_event.go:142-145 | such a report |
| Json.ReencodeIdempotent | pkg/preflight/report_event.go:128-131 | values written and read once no longer change when written and read again |
| Json.ReencodeKeepsValue | pkg/preflight/report_event.go:128-131 | they differ from what was read only in whether numbers are written as integers |
| Transport.BuildNamePart | pkg/preflight/report_transport.go:109-124 | the loop yields the lower-cased, sanitized and trimmed name, or the placeholder |
| Transport.NamePartMeans | pkg/preflight/report_transport.go:109-124 | the name part is the text between the outermost characters that are letters or digits, each lower-cased, with a hyphen for every character that may not stand in a name |
| Transport.ReportNameIsTidy | pkg/preflight/report_transport.go:99-124 | for any workload name the report name has at most 253 characters, all of them letters, digits, hyphens and dots, starts and ends with a letter or digit, and ends in the hash |
| Transport.ReportNameValidIff | pkg/preflight/report_transport.go:99-124 | the report name is a valid DNS subdomain exactly when, in the sanitized workload name, no dot between the first and the last letter or digit that fit touches another dot or a hyphen |
| Transport.ValidWorkloadsGiveValidNames | pkg/preflight/report_transport.go:99-124 | workload names that are valid subdomains give valid report names, also when cut |
| Transport.SomeWorkloadsGiveInvalidNames | pkg/preflight/report_transport_test.go:59-73 | a workload name that gives an invalid object name |
| Transport.IdentityIsInjective | pkg/preflight/report_event.go:60-63 | reports that differ in namespace, UID, node, rank or digest have different identities before hashing, as the first three contain no slash |
| Transport.BuiltMeans | pkg/preflight/report_transport.go:50-107 | a resource is built if and only if the text is a valid report of the node with a rank that fits into 32 bits; it carries exactly what was given, and its name ends in five bytes of the hash of namespace, UID, node, rank and digest |
| Transport.ValidMeans | pkg/preflight/report_transport.go:233-270 | the watcher passes a resource if and only if it is complete, its text is a valid report of its node and rank, and the text names no other workload |
| Transport.HexMeans | pkg/preflight/report_transport.go:100 | two hexadecimal digits for each byte, the high one first |
| Transport.DecimalMeans | pkg/preflight/report_event.go:60-63 | the rank is written in decimal digits that read back as it, without a leading zero |
| Transport.BuiltReportValidIff | pkg/preflight/report_transport.go:233-270 | the watcher accepts a built report exactly when its text names no other workload |
| Transport.ProducerAndConsumerAgree | pkg/preflight/report_transport.go:50-97 | whatever the agent compacts and builds, the watcher accepts |

## Left out

- AddReportForWorkload: does not tell the reasons for a rejection apart; `now` is a parameter instead of a clock, and the wrapper `AddReport`, which passes the workload name as its UID, is omitted.
- BusBWBounds: bandwidth is over the reals, and the product of shape and element size does not overflow.
- ExtractBusBWThreshold: a threshold is a real number or fails to parse; NaN and infinities are not modelled.
- Numeric batch fields (`batch_idx`, `allreduce_ms`, `allreduce_shape`, `dtype_bytes`, `world_size`) written as text: real numbers as well, so NaN, infinities and the conversion of huge values to int are not modelled.
- IdentityIsInjective: says nothing of the names themselves, since only five bytes of the hash are kept.
- LedgerKeySeparatesJobs: assumes a digest without collisions.
- BuildNamePart: lower-casing maps one character to one character, and characters are code points, not bytes.
- Start: a publisher that was stopped is not modelled, so it never refuses to start; the worker runs as calls of ProcessNext.
- Fire: when a retry is due is up to the caller.
- Finish: does not model forgetting the key's retry count in the rate limiter, which only affects the delay of later retries.
- ProcessNext: is one uninterrupted round; submissions and timers between its steps are the machine's interleavings.
- EverythingIsDelivered: counts steps, not time; a retry timer is assumed to fire eventually.
- RunCheck: all documents arrive at one moment and under one workload name, as in the test; WholeCheckFindsFaults covers other times.
- RestartsAreBounded: one time to live for all controllers and one monotone clock; nobody else changes the ledger's data or deletes it, though its other fields may be edited.
- JSON text: documents are values with unique member names; the case-insensitive matching of struct fields, numbers outside the range of float64 and its rounding are not modelled.
- Text and value of a report are identified where the text is hashed: the digest is a parameter.
- Time stamps as text: stamps are integers or unparseable; RFC 3339 formatting, the one-second resolution of Kubernetes times and saturating durations are not modelled.
- Mutexes of the aggregator and the publisher: their critical sections are atomic steps.
- The publisher's shutdown, rate limits and backoff times, and the content of the observation event.
- The event transport's filters, conversion and cancellation; an event is its place in the order of arrival.
- Kubernetes clients, informers, watch streams, owner references and leader election.
- Logging and error texts.
- `cmd/`, `pkg/kube`, `pkg/podobserver`, the detectors and the remaining handlers of `pkg/recovery`: predicates and plumbing without state of their own.

/** A whole check from the nodes to the verdict: each document is compacted, built, watched, read and collected. */
module StoredCheck {
  import opened Base
  import opened Preflight
  import opened ReportParser
  import opened RoundRobin
  import opened AggregatorRuns
  import opened WholeCheck
  import Aggregator
  import Compaction
  import Detection
  import Json
  import Transport

  /** What the agent stores for node i, before it is wrapped into a resource. */
  function StoredText(names: seq<string>, ips: seq<string>, i: nat, fails: bool): Result<Json.Json>
    requires |names| == |ips| && i < |names|
  {
    Compaction.Compacted(Document(names, ips, i, fails))
  }

  /** The compacted document is read with the same plan, and collected as the same node report. */
  lemma StoredTextRead(lib: Lib, names: seq<string>, ips: seq<string>, i: nat, fails: bool)
    requires Cluster(names, ips) && i < |names| && "" !in names
    ensures var doc, text := Document(names, ips, i, fails), StoredText(names, ips, i, fails);
      && text.Ok? && ExtractedFrom(lib, doc).Ok? && ExtractedFrom(lib, Some(text.value)).Ok?
      && var e, f := ExtractedFrom(lib, doc).value, ExtractedFrom(lib, Some(text.value)).value;
         NodeReportOf(f.report, f.results) == NodeReportOf(e.report, e.results) && f.plan == e.plan
  {
    var doc := Document(names, ips, i, fails);
    DocumentParsed(names, ips, i, fails);
    DocumentRead(lib, names, ips, i, fails);
    Compaction.CompactableIff(lib, doc);
    Compaction.SameNodeReport(lib, doc);
  }

  /** r is what the manager collects from the stored report of node i. */
  ghost predicate IsStoredReportOf(
    r: NodeReport, lib: Lib, names: seq<string>, ips: seq<string>, i: int, failing: set<string>)
    requires Cluster(names, ips)
  {
    && 0 <= i < |names|
    && var text := StoredText(names, ips, i, names[i] in failing);
       && text.Ok?
       && var read := ExtractedFrom(lib, Some(text.value));
          read.Ok? && r == NodeReportOf(read.value.report, read.value.results)
  }

  lemma StoredReportIff(r: NodeReport, lib: Lib, names: seq<string>, ips: seq<string>, i: int, failing: set<string>)
    requires Cluster(names, ips) && "" !in names
    ensures IsStoredReportOf(r, lib, names, ips, i, failing) <==> IsReportOf(r, lib, names, ips, i, failing)
  {
    if 0 <= i < |names| {
      StoredTextRead(lib, names, ips, i, names[i] in failing);
    }
  }

  /** The reports in h are those read from the stored reports of the check. */
  ghost predicate CarriesTheStored(h: seq<Input>, lib: Lib, names: seq<string>, ips: seq<string>, failing: set<string>)
    requires Cluster(names, ips)
  {
    && (forall r :: Reported(OnlyAdds(h), r) ==> exists i :: IsStoredReportOf(r, lib, names, ips, i, failing))
    && (forall r, i :: IsStoredReportOf(r, lib, names, ips, i, failing) ==> Reported(OnlyAdds(h), r))
  }

  lemma StoredCarryTheCheck(h: seq<Input>, lib: Lib, names: seq<string>, ips: seq<string>, failing: set<string>)
    requires Cluster(names, ips) && "" !in names && CarriesTheStored(h, lib, names, ips, failing)
    ensures CarriesTheCheck(h, lib, names, ips, failing)
  {
    forall r | Reported(OnlyAdds(h), r) ensures exists i :: IsReportOf(r, lib, names, ips, i, failing) {
      var i :| IsStoredReportOf(r, lib, names, ips, i, failing);
      StoredReportIff(r, lib, names, ips, i, failing);
    }
    forall r, i | IsReportOf(r, lib, names, ips, i, failing) ensures Reported(OnlyAdds(h), r) {
      StoredReportIff(r, lib, names, ips, i, failing);
      assert IsStoredReportOf(r, lib, names, ips, i, failing);
    }
  }

  /** Collected from stored reports in any timely order, the last one is answered with exactly the failing nodes. */
  lemma StoredCheckFindsFaults(
    h: seq<Input>, lib: Lib, names: seq<string>, ips: seq<string>, failing: set<string>, timeout: int,
    slow: seq<string>)
    requires Cluster(names, ips) && "" !in names && failing <= Detection.SetOf(names) && timeout > 0
    requires var plan := BuildWorkloadPlan(|names|).value; LastOneIn(h, plan, timeout) && |failing| < plan.batchCount
    requires CarriesTheStored(h, lib, names, ips, failing)
    ensures LastOutcome(h, timeout).Ready?
    ensures var (all, n) := (LastOutcome(h, timeout).reports, LastOutcome(h, timeout).batchCount);
      Detection.IsVerdict(all, n, slow) ==> IsSortedListOf(slow, failing)
  {
    StoredCarryTheCheck(h, lib, names, ips, failing);
    WholeCheckFindsFaults(h, lib, names, ips, failing, timeout, slow);
  }

  /** The resource built from the compacted document exists, carries it, and passes the watcher. */
  lemma StoredReportPasses(
    h: Transport.Hashing, lower: char -> char, names: seq<string>, ips: seq<string>, i: nat, fails: bool, now: int)
    requires forall s :: |h.sha256(s)| == 32
    requires Cluster(names, ips) && i < |names| && "" !in names
    ensures StoredText(names, ips, i, fails).Ok?
    ensures var text := Some(StoredText(names, ips, i, fails).value);
      var built := Transport.BuildPreflightReport(
        h, lower, NAMESPACE, names[i], WORKLOAD, WORKLOAD_UID, text, Some(now));
      built.Ok? && Transport.ValidateReport(built.value) && built.value.report == text
  {
    var lib := Lib(_ => None, _ => None);
    var doc := Document(names, ips, i, fails);
    StoredTextRead(lib, names, ips, i, fails);
    DocumentParsed(names, ips, i, fails);
    Compaction.CompactionPreservesMeaning(lib, doc);
    assert names[i] in names;
    Transport.ProducerAndConsumerAgree(h, lower, NAMESPACE, names[i], WORKLOAD, WORKLOAD_UID, doc, Some(now));
  }

  /** The agent's part for one node: compact and build. The watcher accepts the result. */
  method Publish(
    h: Transport.Hashing, lower: char -> char, names: seq<string>, ips: seq<string>, i: nat, fails: bool, now: int)
    returns (stored: Transport.PreflightReport)
    requires forall s :: |h.sha256(s)| == 32
    requires Cluster(names, ips) && i < |names| && "" !in names
    ensures Transport.ValidateReport(stored)
    ensures stored.namespace == NAMESPACE && stored.workloadName == WORKLOAD && stored.workloadUID == WORKLOAD_UID
    ensures stored.nodeName == names[i] && stored.observedAt == Some(now)
    ensures StoredText(names, ips, i, fails).Ok? && stored.report == Some(StoredText(names, ips, i, fails).value)
  {
    StoredReportPasses(h, lower, names, ips, i, fails, now);
    var text, nodeName := Compaction.CompactReport(Document(names, ips, i, fails));
    DocumentParsed(names, ips, i, fails);
    stored := Transport.BuildPreflightReport(
      h, lower, NAMESPACE, nodeName, WORKLOAD, WORKLOAD_UID, Some(text.value), Some(now)).value;
  }

  /** What the manager reads from a published report is the input of its node. */
  lemma PublishedReads(
    lib: Lib, names: seq<string>, ips: seq<string>, failing: set<string>, order: seq<nat>, now: int, k: nat)
    requires Cluster(names, ips) && "" !in names && IsOrder(order, |names|) && k < |order|
    ensures var text := StoredText(names, ips, order[k], names[order[k]] in failing);
      text.Ok? && Reads(lib, Some(text.value), Inputs(lib, names, ips, failing, order, now)[k], now)
  {
    StoredTextRead(lib, names, ips, order[k], names[order[k]] in failing);
    ReadReportOf(lib, names, ips, failing, order[k]);
  }

  /** From the nodes to the verdict: all reports are published, and then fed to the manager in any order. */
  method RunStoredCheck(
    lib: Lib, h: Transport.Hashing, lower: char -> char, names: seq<string>, ips: seq<string>, failing: set<string>,
    order: seq<nat>, now: int)
    returns (slow: seq<string>)
    requires forall s :: |h.sha256(s)| == 32
    requires Cluster(names, ips) && "" !in names && failing <= Detection.SetOf(names) && IsOrder(order, |names|)
    requires |failing| < BuildWorkloadPlan(|names|).value.batchCount
    ensures IsSortedListOf(slow, failing)
  {
    ghost var hs := Inputs(lib, names, ips, failing, order, now);
    var docs := PublishAll(h, lower, names, ips, failing, order, now);
    forall k | 0 <= k < |docs| ensures Reads(lib, docs[k], hs[k], now) {
      assert IsStoredText(docs[k], names, ips, order[k], failing);
      PublishedReads(lib, names, ips, failing, order, now, k);
    }
    var aggregator := new Aggregator.SlowNodeAggregator(0);
    InputsPrepared(lib, names, ips, failing, order, now, aggregator.timeout);
    slow := FeedAll(aggregator, lib, docs, now, hs, BuildWorkloadPlan(|names|).value, failing);
  }

  ghost predicate IsStoredText(
    doc: Option<Json.Json>, names: seq<string>, ips: seq<string>, i: nat, failing: set<string>)
    requires |names| == |ips| && i < |names|
  {
    var text := StoredText(names, ips, i, names[i] in failing);
    text.Ok? && doc == Some(text.value)
  }

  method PublishAll(
    h: Transport.Hashing, lower: char -> char, names: seq<string>, ips: seq<string>, failing: set<string>,
    order: seq<nat>, now: int)
    returns (docs: seq<Option<Json.Json>>)
    requires forall s :: |h.sha256(s)| == 32
    requires Cluster(names, ips) && "" !in names && IsOrder(order, |names|)
    ensures |docs| == |order|
    ensures forall k :: 0 <= k < |docs| ==> IsStoredText(docs[k], names, ips, order[k], failing)
  {
    docs := [];
    for k := 0 to |order|
      invariant |docs| == k
      invariant forall j :: 0 <= j < k ==> IsStoredText(docs[j], names, ips, order[j], failing)
    {
      var stored := Publish(h, lower, names, ips, order[k], names[order[k]] in failing, now);
      docs := docs + [stored.report];
    }
  }
}

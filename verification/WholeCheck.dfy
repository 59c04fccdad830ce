/**
 * A whole check from documents to verdict: the reports that pkg/preflight/slow_node_aggregator_test.go
 * writes for a round-robin schedule, read and collected by the manager.
 */
module WholeCheck {
  import opened Base
  import opened Json
  import opened Preflight
  import opened ReportParser
  import Detection
  import VerdictLaws
  import opened RoundRobin
  import opened Aggregator
  import opened AggregatorRuns
  import Compaction
  import ParserLaws

  // ---- The documents ----

  function IntJson(i: int): Json { Compaction.IntJson(i) }

  /** One batch of node i: a failing node says so, any other reports its measurements. */
  function Entry(ips: seq<string>, i: nat, b: nat, fails: bool): map<string, Json>
    requires i < |ips| && b < |ips|
  {
    var (first, second) := Ordered(ips[i], ips[Opposite(|ips|, b, i)]);
    map["batch_idx" := IntJson(b), "pair" := Arr([Str(first), Str(second)]), "self_ip" := Str(ips[i])]
    + if fails then map["status" := Str("fail")]
      else map["allreduce_ms" := Num(0.5, false), "world_size" := IntJson(16),
               "allreduce_shape" := IntJson(16777216), "dtype_bytes" := IntJson(4)]
  }

  /** The entries of the first k batches. */
  function Entries(ips: seq<string>, i: nat, k: nat, fails: bool): seq<Json>
    requires i < |ips| && k <= |ips|
  {
    seq(k, b requires 0 <= b < k => Obj(Entry(ips, i, b, fails)))
  }

  function DocumentFields(names: seq<string>, ips: seq<string>, i: nat, fails: bool): map<string, Json>
    requires |names| == |ips| && i < |names|
  {
    map[
      "version" := IntJson(1), "workload" := Str("job-16"), "workload_size" := IntJson(|names|), "rank" := IntJson(i),
      "node_name" := Str(names[i]), "node_ip" := Str(ips[i]), "gpu_check" := IntJson(1), "storage_check" := IntJson(1),
      "batches" := Arr(Entries(ips, i, |ips| - 1, fails))
    ]
  }

  /** The report of node i: an entry for each of the n - 1 batches of the schedule. */
  function Document(names: seq<string>, ips: seq<string>, i: nat, fails: bool): Option<Json>
    requires |names| == |ips| && i < |names|
  {
    Some(Obj(DocumentFields(names, ips, i, fails)))
  }

  // ---- What the manager reads from them ----

  /** The result of one entry; the reader orders the ends by address. */
  function ReadResult(lib: Lib, ips: seq<string>, i: nat, b: nat, fails: bool): BatchResult
    requires i < |ips| && b < |ips|
  {
    var (first, second) := Ordered(ips[i], ips[Opposite(|ips|, b, i)]);
    if ShouldSwapPair(lib, first, second) then BatchResult(b, second, first, ips[i], fails)
    else BatchResult(b, first, second, ips[i], fails)
  }

  function ReadResults(lib: Lib, ips: seq<string>, i: nat, batches: nat, fails: bool): seq<BatchResult>
    requires i < |ips| && batches <= |ips|
  {
    seq(batches, b requires 0 <= b < batches => ReadResult(lib, ips, i, b, fails))
  }

  lemma StatusesDiffer()
    ensures EqualFold("fail", "fail") && !EqualFold("fail", "skip") && !EqualFold("", "fail") && !EqualFold("", "skip")
  {
    assert "fail"[0] == 'f' && "skip"[0] == 's';
    assert !FoldsTo('f', 's');
  }

  lemma EntryFields(ips: seq<string>, i: nat, b: nat, fails: bool)
    requires i < |ips| && b < |ips|
    ensures var f := FieldsOf(Entry(ips, i, b, fails));
      var (first, second) := Ordered(ips[i], ips[Opposite(|ips|, b, i)]);
      && f.batchIdx == Some(IntJson(b)) && f.pair == Some(Arr([Str(first), Str(second)]))
          && f.selfIP == Some(Str(ips[i]))
      && Status(f) == if fails then "fail" else ""
  {
  }

  lemma StatusRead(lib: Lib, f: BatchFields, fails: bool)
    requires Status(f) == if fails then "fail" else ""
    ensures BatchFailed(lib, f, 0.0) == Ok(fails) && !EqualFold(Status(f), "skip")
  {
    StatusesDiffer();
  }

  lemma EntryRead(lib: Lib, ips: seq<string>, i: nat, b: nat, fails: bool, reporter: string, batches: nat)
    requires i < |ips| && b < |ips| && "" !in ips
    ensures ViewItem(lib, Obj(Entry(ips, i, b, fails)), reporter, batches, 0.0)
         == if b < batches then Batch(ReadResult(lib, ips, i, b, fails)) else Ignored
  {
    EntryFields(ips, i, b, fails);
    IndexRead(lib, b);
    if b < batches {
      EntryPair(lib, ips, i, b);
      FieldsRead(lib, FieldsOf(Entry(ips, i, b, fails)), ReadResult(lib, ips, i, b, fails), reporter, batches);
    }
  }

  lemma FieldsRead(lib: Lib, f: BatchFields, r: BatchResult, reporter: string, batches: nat)
    requires 0 <= r.batchIdx < batches && IntField(lib, f.batchIdx) == Ok(r.batchIdx)
    requires PairField(lib, f.pair) == Some((r.pairFirst, r.pairSecond))
    requires f.selfIP == Some(Str(r.selfIP)) && r.selfIP != "" && (r.selfIP == r.pairFirst || r.selfIP == r.pairSecond)
    requires Status(f) == if r.failed then "fail" else ""
    ensures ExtractBatchResult(lib, f, reporter, batches, 0.0) == Ok(r)
  {
    StatusRead(lib, f, r.failed);
  }

  lemma IndexRead(lib: Lib, b: nat)
    ensures IntField(lib, Some(IntJson(b))) == Ok(b)
  {
    assert (b as real).Floor == b;
  }

  lemma EntryPair(lib: Lib, ips: seq<string>, i: nat, b: nat)
    requires i < |ips| && b < |ips| && "" !in ips
    ensures var (first, second) := Ordered(ips[i], ips[Opposite(|ips|, b, i)]);
      var r := ReadResult(lib, ips, i, b, true);
      && PairField(lib, Some(Arr([Str(first), Str(second)]))) == Some((r.pairFirst, r.pairSecond))
      && (ips[i] == r.pairFirst || ips[i] == r.pairSecond) && ips[i] != ""
  {
    assert ips[i] in ips && ips[Opposite(|ips|, b, i)] in ips;
  }

  /** The results kept after k entries. */
  function Kept(lib: Lib, ips: seq<string>, i: nat, k: nat, batches: nat, fails: bool): map<int, BatchResult>
    requires i < |ips| && k <= |ips|
  {
    map b: int | 0 <= b < Min(k, batches) :: ReadResult(lib, ips, i, b, fails)
  }

  lemma OneMoreKept(lib: Lib, ips: seq<string>, i: nat, k: nat, batches: nat, fails: bool)
    requires i < |ips| && k < |ips|
    ensures var view := if k < batches then Batch(ReadResult(lib, ips, i, k, fails)) else Ignored;
      AddView(Ok(Kept(lib, ips, i, k, batches, fails)), view) == Ok(Kept(lib, ips, i, k + 1, batches, fails))
  {
    if k < batches {
      KeptGrows(lib, ips, i, k, batches, fails);
    } else {
      KeptStays(lib, ips, i, k, batches, fails);
    }
  }

  lemma KeptGrows(lib: Lib, ips: seq<string>, i: nat, k: nat, batches: nat, fails: bool)
    requires i < |ips| && k < |ips| && k < batches
    ensures k !in Kept(lib, ips, i, k, batches, fails)
    ensures Kept(lib, ips, i, k, batches, fails)[k := ReadResult(lib, ips, i, k, fails)]
         == Kept(lib, ips, i, k + 1, batches, fails)
  {
  }

  lemma KeptStays(lib: Lib, ips: seq<string>, i: nat, k: nat, batches: nat, fails: bool)
    requires i < |ips| && k < |ips| && k >= batches
    ensures Kept(lib, ips, i, k, batches, fails) == Kept(lib, ips, i, k + 1, batches, fails)
  {
  }

  lemma OneMoreView(lib: Lib, items: seq<Json>, item: Json, reporter: string, batches: int, threshold: real)
    ensures Views(lib, items + [item], reporter, batches, threshold)
         == Views(lib, items, reporter, batches, threshold) + [ViewItem(lib, item, reporter, batches, threshold)]
  {
  }

  lemma MoreEntries(ips: seq<string>, i: nat, k: nat, fails: bool)
    requires i < |ips| && k < |ips|
    ensures Entries(ips, i, k + 1, fails) == Entries(ips, i, k, fails) + [Obj(Entry(ips, i, k, fails))]
  {
  }

  lemma MoreViews(lib: Lib, ips: seq<string>, i: nat, k: nat, fails: bool, reporter: string, batches: nat)
    requires i < |ips| && k < |ips| && "" !in ips
    ensures Views(lib, Entries(ips, i, k + 1, fails), reporter, batches, 0.0)
         == Views(lib, Entries(ips, i, k, fails), reporter, batches, 0.0)
            + [if k < batches then Batch(ReadResult(lib, ips, i, k, fails)) else Ignored]
  {
    MoreEntries(ips, i, k, fails);
    OneMoreView(lib, Entries(ips, i, k, fails), Obj(Entry(ips, i, k, fails)), reporter, batches, 0.0);
    EntryRead(lib, ips, i, k, fails, reporter, batches);
  }

  lemma {:induction false} EntriesCollected(lib: Lib, ips: seq<string>, i: nat, k: nat, fails: bool, reporter: string,
      batches: nat)
    requires i < |ips| && k <= |ips| && "" !in ips
    ensures Collect(Views(lib, Entries(ips, i, k, fails), reporter, batches, 0.0))
        == Ok(Kept(lib, ips, i, k, batches, fails))
  {
    if k == 0 {
      assert Views(lib, Entries(ips, i, 0, fails), reporter, batches, 0.0) == [];
    } else {
      EntriesCollected(lib, ips, i, k - 1, fails, reporter, batches);
      MoreViews(lib, ips, i, k - 1, fails, reporter, batches);
      OneMoreKept(lib, ips, i, k - 1, batches, fails);
      CollectLast(Views(lib, Entries(ips, i, k - 1, fails), reporter, batches, 0.0),
                  if k - 1 < batches then Batch(ReadResult(lib, ips, i, k - 1, fails)) else Ignored);
    }
  }

  lemma {:induction false} OrderedGapless(m: map<int, BatchResult>, results: seq<BatchResult>)
    requires forall b :: 0 <= b < |results| ==> b in m && m[b] == results[b]
    ensures OrderedBelow(m, |results|) == results
  {
    if results == [] {
    } else {
      var n := |results| - 1;
      OrderedGapless(m, results[..n]);
      assert results == results[..n] + [results[n]];
    }
  }

  lemma DocumentParsed(names: seq<string>, ips: seq<string>, i: nat, fails: bool)
    requires Cluster(names, ips) && i < |names| && "" !in names
    ensures ParseReport(Document(names, ips, i, fails)) == Ok(Report(1, "job-16", |names|, i, names[i], ips[i], 1, 1))
  {
    var f := DocumentFields(names, ips, i, fails);
    Compaction.IntJsonReads(1);
    Compaction.IntJsonReads(|names|);
    Compaction.IntJsonReads(i);
    assert names[i] in names;
    assert MembersOf(f) == ReportMembers(
      Some(IntJson(1)), Some(Str("job-16")), Some(IntJson(|names|)), Some(IntJson(i)),
      Some(Str(names[i])), Some(Str(ips[i])), Some(IntJson(1)), Some(IntJson(1)));
  }

  lemma DocumentRead(lib: Lib, names: seq<string>, ips: seq<string>, i: nat, fails: bool)
    requires Cluster(names, ips) && i < |names| && "" !in names
    ensures var plan := BuildWorkloadPlan(|names|).value;
      ExtractedFrom(lib, Document(names, ips, i, fails)) ==
      Ok(Extracted(Report(1, "job-16", |names|, i, names[i], ips[i], 1, 1), plan,
          ReadResults(lib, ips, i, plan.batchCount, fails)))
  {
    DocumentParsed(names, ips, i, fails);
    BatchesRead(lib, names, ips, i, fails, BuildWorkloadPlan(|names|).value.batchCount);
  }

  lemma BatchesRead(lib: Lib, names: seq<string>, ips: seq<string>, i: nat, fails: bool, n: nat)
    requires Cluster(names, ips) && i < |names| && n < |ips|
    ensures ReadBatches(lib, DocumentFields(names, ips, i, fails), ips[i], n) == Ok(ReadResults(lib, ips, i, n, fails))
  {
    BatchFieldsGiven(lib, names, ips, i, fails);
    EntriesCollected(lib, ips, i, |ips| - 1, fails, ips[i], n);
    KeptInOrder(lib, ips, i, |ips| - 1, n, fails);
  }

  lemma BatchFieldsGiven(lib: Lib, names: seq<string>, ips: seq<string>, i: nat, fails: bool)
    requires Cluster(names, ips) && i < |names|
    ensures var f := DocumentFields(names, ips, i, fails);
      ExtractBusBWThreshold(lib, f) == Ok(0.0) && BatchItems(f) == Entries(ips, i, |ips| - 1, fails)
  {
  }

  lemma KeptInOrder(lib: Lib, ips: seq<string>, i: nat, k: nat, n: nat, fails: bool)
    requires i < |ips| && n <= k <= |ips|
    ensures OrderedBelow(Kept(lib, ips, i, k, n, fails), n) == ReadResults(lib, ips, i, n, fails)
  {
    var m, results := Kept(lib, ips, i, k, n, fails), ReadResults(lib, ips, i, n, fails);
    forall b: int | 0 <= b < |results| ensures b in m && m[b] == results[b] {
      assert results[b] == ReadResult(lib, ips, i, b, fails);
      assert m[b] == ReadResult(lib, ips, i, b, fails);
    }
    OrderedGapless(m, results);
  }

  /** What the aggregator stores for node i. */
  function ReadReport(lib: Lib, names: seq<string>, ips: seq<string>, i: nat, batches: nat, fails: bool): NodeReport
    requires |names| == |ips| && i < |ips| && batches <= |ips|
  {
    NodeReport(names[i], ips[i], false, ReadResults(lib, ips, i, batches, fails))
  }

  ghost function ReadReports(
    lib: Lib, names: seq<string>, ips: seq<string>, batches: nat, failing: set<string>): map<string, NodeReport>
    requires Distinct(names) && |ips| == |names| && batches <= |ips|
  {
    map i | 0 <= i < |names| :: names[i] := ReadReport(lib, names, ips, i, batches, names[i] in failing)
  }

  lemma OwnAndReadResults(lib: Lib, ips: seq<string>, i: nat, batches: nat, fails: bool)
    requires i < |ips| && batches < |ips|
    ensures ParserLaws.ResultsUpToSwap(OwnResults(ips, i, batches, fails), ReadResults(lib, ips, i, batches, fails))
  {
  }

  lemma ReadAlike(lib: Lib, names: seq<string>, ips: seq<string>, batches: nat, failing: set<string>)
    requires Cluster(names, ips) && batches < |ips|
    ensures VerdictLaws.SameReportsUpToSwap(CheckReports(names, ips, batches, failing),
        ReadReports(lib, names, ips, batches, failing))
  {
    var a, b := CheckReports(names, ips, batches, failing), ReadReports(lib, names, ips, batches, failing);
    assert a.Keys == b.Keys;
    forall x | x in a
      ensures a[x] == b[x].(batchResults := a[x].batchResults)
          && ParserLaws.ResultsUpToSwap(a[x].batchResults, b[x].batchResults)
    {
      var i := NodeBehind(names, ips, batches, failing, x);
      OwnAndReadResults(lib, ips, i, batches, x in failing);
    }
  }

  /** The reports in h are those read from the documents of the check. */
  ghost predicate CarriesTheCheck(h: seq<Input>, lib: Lib, names: seq<string>, ips: seq<string>, failing: set<string>)
    requires Cluster(names, ips) && "" !in names
  {
    && (forall r :: Reported(OnlyAdds(h), r) ==> exists i :: IsReportOf(r, lib, names, ips, i, failing))
    && (forall r, i :: IsReportOf(r, lib, names, ips, i, failing) ==> Reported(OnlyAdds(h), r))
  }

  /** r is what the manager stores for the document of node i. */
  ghost predicate IsReportOf(r: NodeReport, lib: Lib, names: seq<string>, ips: seq<string>, i: int,
      failing: set<string>)
    requires Cluster(names, ips) && "" !in names
  {
    && 0 <= i < |names|
    && var read := ExtractedFrom(lib, Document(names, ips, i, names[i] in failing));
       read.Ok? && r == NodeReportOf(read.value.report, read.value.results)
  }

  lemma DocumentsRead(r: NodeReport, lib: Lib, names: seq<string>, ips: seq<string>, i: nat, failing: set<string>)
    requires Cluster(names, ips) && "" !in names && i < |names|
    ensures var batches := BuildWorkloadPlan(|names|).value.batchCount;
      IsReportOf(r, lib, names, ips, i, failing) <==> r == ReadReport(lib, names, ips, i, batches, names[i] in failing)
  {
    DocumentRead(lib, names, ips, i, names[i] in failing);
  }

  lemma CollectedCheck(h: seq<Input>, lib: Lib, names: seq<string>, ips: seq<string>, failing: set<string>)
    requires Cluster(names, ips) && "" !in names && CarriesTheCheck(h, lib, names, ips, failing)
        && DistinctNodes(OnlyAdds(h))
    ensures var batches := BuildWorkloadPlan(|names|).value.batchCount;
      LastWriter(OnlyAdds(h)) == ReadReports(lib, names, ips, batches, failing)
  {
    var batches := BuildWorkloadPlan(|names|).value.batchCount;
    var adds, reports := OnlyAdds(h), ReadReports(lib, names, ips, batches, failing);
    forall x ensures x in LastWriter(adds) ==> x in reports && LastWriter(adds)[x] == reports[x] {
      CollectedFromDocument(h, lib, names, ips, failing, x);
    }
    forall x ensures x in reports ==> x in LastWriter(adds) {
      DocumentCollected(h, lib, names, ips, failing, x);
    }
  }

  lemma CollectedFromDocument(h: seq<Input>, lib: Lib, names: seq<string>, ips: seq<string>, failing: set<string>,
      x: string)
    requires Cluster(names, ips) && "" !in names && CarriesTheCheck(h, lib, names, ips, failing)
        && DistinctNodes(OnlyAdds(h))
    ensures var reports := ReadReports(lib, names, ips, BuildWorkloadPlan(|names|).value.batchCount, failing);
      x in LastWriter(OnlyAdds(h)) ==> x in reports && LastWriter(OnlyAdds(h))[x] == reports[x]
  {
    if x in LastWriter(OnlyAdds(h)) {
      var r := KeptWasReported(OnlyAdds(h), x);
      var i :| IsReportOf(r, lib, names, ips, i, failing);
      DocumentsRead(r, lib, names, ips, i, failing);
      ReadReportsAt(lib, names, ips, BuildWorkloadPlan(|names|).value.batchCount, failing, i);
    }
  }

  lemma KeptWasReported(adds: seq<Input>, x: string) returns (r: NodeReport)
    requires (forall a :: a in adds ==> a.Add?) && DistinctNodes(adds) && x in LastWriter(adds)
    ensures Reported(adds, r) && r == LastWriter(adds)[x] && r.nodeName == x
  {
    LastWriterOfDistinct(adds);
    LastWriterNames(adds);
    var k :| 0 <= k < |adds| && adds[k].report.nodeName == x;
    r := adds[k].report;
  }

  lemma ReadReportsAt(lib: Lib, names: seq<string>, ips: seq<string>, batches: nat, failing: set<string>, i: nat)
    requires Distinct(names) && |ips| == |names| && batches <= |ips| && i < |names|
    ensures var reports := ReadReports(lib, names, ips, batches, failing);
      names[i] in reports && reports[names[i]] == ReadReport(lib, names, ips, i, batches, names[i] in failing)
  {
  }

  lemma DocumentCollected(h: seq<Input>, lib: Lib, names: seq<string>, ips: seq<string>, failing: set<string>,
      x: string)
    requires Cluster(names, ips) && "" !in names && CarriesTheCheck(h, lib, names, ips, failing)
        && DistinctNodes(OnlyAdds(h))
    ensures x in ReadReports(lib, names, ips, BuildWorkloadPlan(|names|).value.batchCount, failing)
        ==> x in LastWriter(OnlyAdds(h))
  {
    var batches := BuildWorkloadPlan(|names|).value.batchCount;
    if x in ReadReports(lib, names, ips, batches, failing) {
      var i :| 0 <= i < |names| && names[i] == x;
      var r := ReadReport(lib, names, ips, i, batches, x in failing);
      DocumentsRead(r, lib, names, ips, i, failing);
      assert Reported(OnlyAdds(h), r);
      ReportedIsKept(OnlyAdds(h), r);
    }
  }

  lemma ReportedIsKept(adds: seq<Input>, r: NodeReport)
    requires (forall a :: a in adds ==> a.Add?) && DistinctNodes(adds) && Reported(adds, r)
    ensures r.nodeName in LastWriter(adds)
  {
    LastWriterOfDistinct(adds);
  }

  /**
   * The 16-node test for every even number of nodes, every set of fewer failing nodes than batches, and
   * every timely order of arrival: the last document is answered with exactly the failing nodes.
   */
  lemma WholeCheckFindsFaults(
    h: seq<Input>, lib: Lib, names: seq<string>, ips: seq<string>, failing: set<string>, timeout: int,
        slow: seq<string>)
    requires Cluster(names, ips) && "" !in names && failing <= Detection.SetOf(names) && timeout > 0
    requires var plan := BuildWorkloadPlan(|names|).value; LastOneIn(h, plan, timeout) && |failing| < plan.batchCount
    requires CarriesTheCheck(h, lib, names, ips, failing)
    ensures LastOutcome(h, timeout).Ready?
    ensures var (all, n) := (LastOutcome(h, timeout).reports, LastOutcome(h, timeout).batchCount);
      Detection.IsVerdict(all, n, slow) ==> IsSortedListOf(slow, failing)
  {
    var plan := BuildWorkloadPlan(|names|).value;
    LastArrivalIsReady(h, plan, timeout);
    CollectedCheck(h, lib, names, ips, failing);
    var all := LastOutcome(h, timeout).reports;
    if Detection.IsVerdict(all, plan.batchCount, slow) {
      ReadAlike(lib, names, ips, plan.batchCount, failing);
      VerdictLaws.SwapKeepsVerdict(CheckReports(names, ips, plan.batchCount, failing), all, plan.batchCount, slow);
      RoundRobinFaultsAreFound(names, ips, failing, slow);
    }
  }

  // ---- The test itself, for all sizes ----

  const NAMESPACE := "default"
  const WORKLOAD := "job-d"
  const WORKLOAD_UID := "uid-of-job-d"
  const CHECK_KEY := Key(NAMESPACE, WORKLOAD_UID, WORKLOAD)

  /** Each of the first n numbers once. */
  ghost predicate IsOrder(order: seq<nat>, n: nat) {
    |order| == n && Distinct(order) && forall k :: 0 <= k < |order| ==> order[k] < n
  }

  lemma EveryNodeIsInOrder(order: seq<nat>, n: nat, i: nat)
    requires IsOrder(order, n) && i < n
    ensures exists k :: 0 <= k < |order| && order[k] == i
  {
    var all: set<int> := set k: int | 0 <= k < |order| :: order[k];
    SameSet(order, all);
    SubsetSize(all, Below(n));
    assert i in all;
  }

  lemma {:induction false} SameSet(order: seq<nat>, all: set<int>)
    requires Distinct(order) && all == set k: int | 0 <= k < |order| :: order[k]
    ensures |all| == |order|
    decreases |order|
  {
    if order == [] {
    } else {
      var front := order[..|order| - 1];
      var less: set<int> := set k: int | 0 <= k < |front| :: front[k];
      SameSet(front, less);
      assert all == less + {order[|order| - 1]};
    }
  }

  /** What the manager reads from the document of node i. */
  function ReadOf(lib: Lib, names: seq<string>, ips: seq<string>, failing: set<string>, i: nat): Extracted
    requires |names| == |ips| && i < |names| <= MAX_WORKLOAD_SIZE && |names| % 2 == 0
  {
    var plan := BuildWorkloadPlan(|names|).value;
    Extracted(Report(1, "job-16", |names|, i, names[i], ips[i], 1, 1), plan,
              ReadResults(lib, ips, i, plan.batchCount, names[i] in failing))
  }

  /** The documents in the given order, as inputs of one moment. */
  ghost function Inputs(
    lib: Lib, names: seq<string>, ips: seq<string>, failing: set<string>, order: seq<nat>, now: int): (h: seq<Input>)
    requires Cluster(names, ips) && IsOrder(order, |names|)
    ensures |h| == |order|
    ensures forall j :: 0 <= j < |h| ==> h[j] == InputOf(ReadOf(lib, names, ips, failing, order[j]), now, now)
  {
    seq(|order|, j requires 0 <= j < |order| => InputOf(ReadOf(lib, names, ips, failing, order[j]), now, now))
  }

  lemma {:induction false} InputsAreAdds(h: seq<Input>)
    requires forall j :: 0 <= j < |h| ==> h[j].Add?
    ensures OnlyAdds(h) == h
  {
    if h == [] {
    } else {
      InputsAreAdds(h[..|h| - 1]);
    }
  }

  lemma {:induction false} OneMomentIsTimely(h: seq<Input>, now: int, timeout: int)
    requires timeout > 0 && forall j :: 0 <= j < |h| ==> h[j].Add? && h[j].now == now
    ensures Timely(h, timeout)
    ensures LastAddAt(h).Some? ==> LastAddAt(h).value == now
  {
    if h == [] {
    } else {
      OneMomentIsTimely(h[..|h| - 1], now, timeout);
    }
  }

  /** i is the input for the node of the given name. */
  ghost predicate InputFor(i: Input, name: string, plan: Plan, now: int) {
    i.Add? && i.plan == plan && i.report.nodeName == name != "" && i.now == i.observedAt == now
  }

  /** Each input is for another node. */
  ghost predicate InputsFor(h: seq<Input>, names: seq<string>, plan: Plan, now: int) {
    |h| <= |names| && Distinct(names) && forall j :: 0 <= j < |h| ==> InputFor(h[j], names[j], plan, now)
  }

  lemma InputsAreCompatible(h: seq<Input>, names: seq<string>, plan: Plan, now: int, timeout: int)
    requires InputsFor(h, names, plan, now) && timeout > 0
    ensures forall a :: a in h ==> a.Add?
    ensures Compatible(h, plan, timeout)
  {
    forall i, j | 0 <= i < j < |h| ensures h[i].report.nodeName != h[j].report.nodeName {
      assert names[i] != names[j];
    }
  }

  lemma InputsArrive(h: seq<Input>, names: seq<string>, plan: Plan, now: int, timeout: int)
    requires InputsFor(h, names, plan, now) && timeout > 0 && ValidPlan(plan)
    ensures OnlyAdds(h) == h && Arrivals(h, plan, timeout)
  {
    InputsAreAdds(h);
    OneMomentIsTimely(h, now, timeout);
    InputsAreCompatible(h, names, plan, now, timeout);
  }

  lemma ReadReportOf(lib: Lib, names: seq<string>, ips: seq<string>, failing: set<string>, i: nat)
    requires Cluster(names, ips) && "" !in names && i < |names|
    ensures ExtractedFrom(lib, Document(names, ips, i, names[i] in failing)) == Ok(ReadOf(lib, names, ips, failing, i))
    ensures IsReportOf(InputOf(ReadOf(lib, names, ips, failing, i), 0, 0).report, lib, names, ips, i, failing)
  {
    DocumentRead(lib, names, ips, i, names[i] in failing);
  }

  lemma InputsCarryTheCheck(
    lib: Lib, names: seq<string>, ips: seq<string>, failing: set<string>, order: seq<nat>, now: int)
    requires Cluster(names, ips) && "" !in names && IsOrder(order, |names|)
    ensures CarriesTheCheck(Inputs(lib, names, ips, failing, order, now), lib, names, ips, failing)
  {
    var h := Inputs(lib, names, ips, failing, order, now);
    InputsAreAdds(h);
    forall r | Reported(OnlyAdds(h), r) ensures exists i :: IsReportOf(r, lib, names, ips, i, failing) {
      var j :| 0 <= j < |h| && h[j].report == r;
      ReadReportOf(lib, names, ips, failing, order[j]);
      assert IsReportOf(r, lib, names, ips, order[j], failing);
    }
    forall r, i | IsReportOf(r, lib, names, ips, i, failing) ensures Reported(OnlyAdds(h), r) {
      EveryNodeIsInOrder(order, |names|, i);
      var k :| 0 <= k < |order| && order[k] == i;
      ReadReportOf(lib, names, ips, failing, i);
      assert h[k].report == r;
    }
  }

  /** Any verdict on the collected reports lists the failing nodes. */
  ghost predicate EndsWell(outcome: Outcome, failing: set<string>) {
    outcome.Ready? && forall slow ::
        Detection.IsVerdict(outcome.reports, outcome.batchCount, slow) ==> IsSortedListOf(slow, failing)
  }

  /** After h, i arrives in time; if it is the last one, the answer is the failing nodes. */
  ghost predicate Follows(h: seq<Input>, i: Input, plan: Plan, failing: set<string>, timeout: int) {
    && i.Add? && OnlyAdds(h) == h && Arrivals(h, plan, timeout)
    && OnlyAdds(h + [i]) == h + [i] && Arrivals(h + [i], plan, timeout)
    && (|h| + 1 == plan.reportCount ==> EndsWell(LastOutcome(h + [i], timeout), failing))
  }

  /** As many inputs as the plan wants, each following those before it. */
  ghost predicate Prepared(hs: seq<Input>, plan: Plan, failing: set<string>, timeout: int) {
    && timeout > 0 && 0 < |hs| == plan.reportCount
    && forall k :: 0 <= k < |hs| ==> FollowsAt(hs, k, plan, failing, timeout)
  }

  ghost predicate FollowsAt(hs: seq<Input>, k: nat, plan: Plan, failing: set<string>, timeout: int)
    requires k < |hs|
  {
    Follows(hs[..k], hs[k], plan, failing, timeout)
  }

  lemma InputsPrepared(
    lib: Lib, names: seq<string>, ips: seq<string>, failing: set<string>, order: seq<nat>, now: int, timeout: int)
    requires Cluster(names, ips) && "" !in names && failing <= Detection.SetOf(names) && IsOrder(order, |names|)
    requires timeout > 0 && |failing| < BuildWorkloadPlan(|names|).value.batchCount
    ensures Prepared(Inputs(lib, names, ips, failing, order, now), BuildWorkloadPlan(|names|).value, failing, timeout)
  {
    var hs, plan := Inputs(lib, names, ips, failing, order, now), BuildWorkloadPlan(|names|).value;
    InputsAreFor(lib, names, ips, failing, order, now);
    InputsArrive(hs, Reordered(names, order), plan, now, timeout);
    InputsCarryTheCheck(lib, names, ips, failing, order, now);
    CheckEndsWell(hs, lib, names, ips, failing, timeout);
    forall k | 0 <= k < |hs| ensures FollowsAt(hs, k, plan, failing, timeout) {
      InputFollows(hs, Reordered(names, order), plan, now, failing, timeout, k);
    }
  }

  lemma InputFollows(
    hs: seq<Input>, names: seq<string>, plan: Plan, now: int, failing: set<string>, timeout: int, k: nat)
    requires InputsFor(hs, names, plan, now) && timeout > 0 && ValidPlan(plan) && k < |hs| == plan.reportCount
    requires hs[|hs| - 1].Add? && EndsWell(LastOutcome(hs, timeout), failing)
    ensures FollowsAt(hs, k, plan, failing, timeout)
  {
    assert hs[..k + 1] == hs[..k] + [hs[k]];
    assert k + 1 == |hs| ==> hs[..k + 1] == hs;
    NextFollows(hs[..k], hs[k], names, plan, now, failing, timeout);
  }

  lemma NextFollows(
    h: seq<Input>, i: Input, names: seq<string>, plan: Plan, now: int, failing: set<string>, timeout: int)
    requires InputsFor(h, names, plan, now) && InputsFor(h + [i], names, plan, now) && i.Add?
    requires timeout > 0 && ValidPlan(plan)
    requires |h| + 1 == plan.reportCount ==> EndsWell(LastOutcome(h + [i], timeout), failing)
    ensures Follows(h, i, plan, failing, timeout)
  {
    InputsArrive(h, names, plan, now, timeout);
    InputsArrive(h + [i], names, plan, now, timeout);
  }

  /** The names in the given order. */
  function Reordered(names: seq<string>, order: seq<nat>): (r: seq<string>)
    requires forall k :: 0 <= k < |order| ==> order[k] < |names|
    ensures |r| == |order| && forall k :: 0 <= k < |r| ==> r[k] == names[order[k]]
  {
    seq(|order|, k requires 0 <= k < |order| => names[order[k]])
  }

  lemma InputsAreFor(
    lib: Lib, names: seq<string>, ips: seq<string>, failing: set<string>, order: seq<nat>, now: int)
    requires Cluster(names, ips) && "" !in names && IsOrder(order, |names|)
    ensures InputsFor(Inputs(lib, names, ips, failing, order, now), Reordered(names, order),
        BuildWorkloadPlan(|names|).value, now)
  {
    var all := Reordered(names, order);
    forall i, j | 0 <= i < j < |all| ensures all[i] != all[j] {
      assert order[i] != order[j];
    }
    forall j | 0 <= j < |all| ensures all[j] != "" {
      assert names[order[j]] in names;
    }
  }

  lemma CheckEndsWell(
    hs: seq<Input>, lib: Lib, names: seq<string>, ips: seq<string>, failing: set<string>, timeout: int)
    requires Cluster(names, ips) && "" !in names && failing <= Detection.SetOf(names) && timeout > 0
    requires var plan := BuildWorkloadPlan(|names|).value;
      |failing| < plan.batchCount && LastOneIn(hs, plan, timeout)
    requires CarriesTheCheck(hs, lib, names, ips, failing)
    ensures EndsWell(LastOutcome(hs, timeout), failing)
  {
    var outcome := LastOutcome(hs, timeout);
    LastArrivalIsReady(hs, BuildWorkloadPlan(|names|).value, timeout);
    forall slow | Detection.IsVerdict(outcome.reports, outcome.batchCount, slow) ensures IsSortedListOf(slow, failing) {
      WholeCheckFindsFaults(hs, lib, names, ips, failing, timeout, slow);
    }
  }

  /**
   * Feeds the documents to a new aggregator in any order. Every call but the last waits, and the last one
   * answers with exactly the failing nodes.
   */
  method RunCheck(lib: Lib, names: seq<string>, ips: seq<string>, failing: set<string>, order: seq<nat>, now: int)
    returns (slow: seq<string>)
    requires Cluster(names, ips) && "" !in names && failing <= Detection.SetOf(names) && IsOrder(order, |names|)
    requires |failing| < BuildWorkloadPlan(|names|).value.batchCount
    ensures IsSortedListOf(slow, failing)
  {
    var aggregator := new SlowNodeAggregator(0);
    ghost var hs, plan := Inputs(lib, names, ips, failing, order, now), BuildWorkloadPlan(|names|).value;
    InputsPrepared(lib, names, ips, failing, order, now, aggregator.timeout);
    var docs := seq(|order|, k requires 0 <= k < |order| => Document(names, ips, order[k], names[order[k]] in failing));
    forall k | 0 <= k < |docs| ensures Reads(lib, docs[k], hs[k], now) {
      ReadReportOf(lib, names, ips, failing, order[k]);
    }
    slow := FeedAll(aggregator, lib, docs, now, hs, plan, failing);
  }

  /** The document is accepted and gives the input. */
  ghost predicate Reads(lib: Lib, doc: Option<Json>, i: Input, now: int) {
    ExtractedFrom(lib, doc).Ok? && i == InputOf(ExtractedFrom(lib, doc).value, now, now)
  }

  method FeedAll(
    aggregator: SlowNodeAggregator, lib: Lib, docs: seq<Option<Json>>, now: int,
    ghost hs: seq<Input>, ghost plan: Plan, ghost failing: set<string>)
    returns (slow: seq<string>)
    requires aggregator.Valid() && Prepared(hs, plan, failing, aggregator.timeout)
    requires |docs| == |hs| && History(aggregator.calls, CHECK_KEY) == []
    requires forall k :: 0 <= k < |docs| ==> Reads(lib, docs[k], hs[k], now)
    modifies aggregator, aggregator.repr
    ensures aggregator.Valid() && fresh(aggregator.repr - old(aggregator.repr))
    ensures IsSortedListOf(slow, failing)
  {
    var result := Rejected;
    for k := 0 to |docs|
      invariant aggregator.Valid() && fresh(aggregator.repr - old(aggregator.repr))
      invariant History(aggregator.calls, CHECK_KEY) == hs[..k]
      invariant 0 < k < |docs| ==> result == Pending
      invariant k == |docs| ==> result.Finished? && IsSortedListOf(result.slowNodes, failing)
    {
      result := Feed(aggregator, lib, docs[k], now, hs, plan, failing, k);
    }
    slow := result.slowNodes;
  }

  /** Adds the document of input k, and tells what the answer is. */
  method Feed(
    aggregator: SlowNodeAggregator, lib: Lib, doc: Option<Json>, now: int,
    ghost hs: seq<Input>, ghost plan: Plan, ghost failing: set<string>, ghost k: nat)
    returns (result: AddResult)
    requires aggregator.Valid() && Prepared(hs, plan, failing, aggregator.timeout)
    requires k < |hs| && History(aggregator.calls, CHECK_KEY) == hs[..k]
    requires Reads(lib, doc, hs[k], now)
    modifies aggregator, aggregator.repr
    ensures aggregator.Valid() && fresh(aggregator.repr - old(aggregator.repr))
    ensures History(aggregator.calls, CHECK_KEY) == hs[..k + 1]
    ensures if k + 1 < |hs| then result == Pending
            else result.Finished? && IsSortedListOf(result.slowNodes, failing)
  {
    ghost var calls, before, e := aggregator.calls, aggregator.content, ExtractedFrom(lib, doc).value;
    result := aggregator.AddReportForWorkload(lib, NAMESPACE, WORKLOAD_UID, WORKLOAD, doc, Some(now), now);
    OneMoreInHistory(calls, e, now, hs, k);
    AnswerFits(calls, before, aggregator.content, aggregator.timeout, e, now, hs, plan, failing, k, result);
  }

  lemma OneMoreInHistory(calls: seq<Call>, e: Extracted, now: int, hs: seq<Input>, k: nat)
    requires k < |hs| && History(calls, CHECK_KEY) == hs[..k] && hs[k] == InputOf(e, now, now)
    ensures History(calls + [AddOf(CHECK_KEY, e, now, now)], CHECK_KEY) == hs[..k + 1]
  {
    var c := AddOf(CHECK_KEY, e, now, now);
    assert (calls + [c])[..|calls|] == calls;
    assert hs[..k + 1] == hs[..k] + [hs[k]];
  }

  lemma AnswerFits(
    calls: seq<Call>, before: map<Key, Window>, after: map<Key, Window>, timeout: int, e: Extracted, now: int,
    hs: seq<Input>, plan: Plan, failing: set<string>, k: nat, result: AddResult)
    requires Prepared(hs, plan, failing, timeout) && k < |hs|
    requires History(calls, CHECK_KEY) == hs[..k] && before == Run(calls, timeout)
    requires hs[k] == InputOf(e, now, now) && Adds(before, after, timeout, CHECK_KEY, e, now, now, result)
    ensures if k + 1 < |hs| then result == Pending
            else result.Finished? && IsSortedListOf(result.slowNodes, failing)
  {
    NextAnswer(calls, hs, plan, failing, timeout, k);
    AddsMatches(before, after, timeout, e, now, result);
    MatchedAnswer(result, Outcomes(Lookup(before, CHECK_KEY), hs[k], timeout).1, failing, timeout);
  }

  lemma NextAnswer(calls: seq<Call>, hs: seq<Input>, plan: Plan, failing: set<string>, timeout: int, k: nat)
    requires Prepared(hs, plan, failing, timeout) && k < |hs| && hs[k].Add? && History(calls, CHECK_KEY) == hs[..k]
    ensures var outcome := Outcomes(Lookup(Run(calls, timeout), CHECK_KEY), hs[k], timeout).1;
      if k + 1 < |hs| then outcome == Waiting else EndsWell(outcome, failing)
  {
    assert FollowsAt(hs, k, plan, failing, timeout);
    CallAnswer(calls, hs[..k], hs[k], plan, failing, timeout);
  }

  lemma CallAnswer(calls: seq<Call>, h: seq<Input>, i: Input, plan: Plan, failing: set<string>, timeout: int)
    requires History(calls, CHECK_KEY) == h && timeout > 0 && |h| < plan.reportCount
    requires Follows(h, i, plan, failing, timeout)
    ensures var outcome := Outcomes(Lookup(Run(calls, timeout), CHECK_KEY), i, timeout).1;
      if |h| + 1 < plan.reportCount then outcome == Waiting else EndsWell(outcome, failing)
  {
    KeysAreIndependent(calls, CHECK_KEY, timeout);
    OneMoreAnswer(h, i, plan, timeout);
  }

  lemma OneMoreAnswer(h: seq<Input>, i: Input, plan: Plan, timeout: int)
    requires timeout > 0 && i.Add? && |h| < plan.reportCount
    requires OnlyAdds(h) == h && Arrivals(h, plan, timeout)
    requires OnlyAdds(h + [i]) == h + [i] && Arrivals(h + [i], plan, timeout)
    ensures var outcome := Outcomes(After(h, timeout).window, i, timeout).1;
      && outcome == LastOutcome(h + [i], timeout)
      && (|h| + 1 < plan.reportCount ==> outcome == Waiting)
  {
    assert (h + [i])[..|h|] == h;
    ArrivalsWait(h, plan, timeout);
    LastAddIsLast(h);
    NextArrival(h, After(h, timeout), i, plan, timeout);
  }

  lemma AddsMatches(
    before: map<Key, Window>, after: map<Key, Window>, timeout: int, e: Extracted, now: int, result: AddResult)
    requires Adds(before, after, timeout, CHECK_KEY, e, now, now, result)
    ensures Matches(result, CHECK_KEY, Outcomes(Lookup(before, CHECK_KEY), InputOf(e, now, now), timeout).1, timeout)
  {
  }

  lemma MatchedAnswer(result: AddResult, outcome: Outcome, failing: set<string>, timeout: int)
    requires Matches(result, CHECK_KEY, outcome, timeout)
    ensures outcome.Waiting? ==> result == Pending
    ensures EndsWell(outcome, failing) ==> result.Finished? && IsSortedListOf(result.slowNodes, failing)
  {
  }
}

/** The compacted form in which a report is stored: pkg/preflight/report_event.go. */
module Compaction {
  import opened Base
  import opened Json
  import Preflight
  import opened ReportParser
  import DocumentLaws

  const THRESHOLD := "node_check_busbw_threshold_gbps"

  const KEPT_FIELDS: seq<string> := [
    "batch_idx", "pair", "self_ip", "local_rank", "status", "allreduce_ms", "world_size", "allreduce_shape",
        "dtype_bytes"]

  function IntJson(i: int): Json { Num(i as real, true) }

  function CompactBusBWThreshold(raw: map<string, Json>): Result<Option<string>> {
    match Field(raw, THRESHOLD)
    case None => Ok(None)
    case Some(Str(s)) => Ok(if TrimSpace(s) == "" then None else Some(TrimSpace(s)))
    case Some(_) => Err
  }

  /** The kept fields of a batch entry, as they read after encoding. */
  function CompactBatch(batch: map<string, Json>): map<string, Json> {
    map k | k in KEPT_FIELDS && k in batch :: Reencode(batch[k])
  }

  function CompactBatches(items: seq<Json>): seq<Json>
    requires forall i :: 0 <= i < |items| ==> items[i].Obj?
  {
    seq(|items|, i requires 0 <= i < |items| => Obj(CompactBatch(items[i].fields)))
  }

  function CompactFields(report: Preflight.Report, threshold: Option<string>, batches: seq<Json>): map<string, Json> {
    map[
      "workload_size" := IntJson(report.workloadSize),
      "rank" := IntJson(report.rank),
      "node_name" := Str(report.nodeName),
      "node_ip" := Str(report.nodeIP),
      "gpu_check" := IntJson(report.gpuCheck),
      "storage_check" := IntJson(report.storageCheck),
      "batches" := Arr(batches)
    ] + if threshold.Some? then map[THRESHOLD := Str(threshold.value)] else map[]
  }

  /** The stored document, as it reads after encoding. */
  function Compacted(doc: Option<Json>): Result<Json> {
    match ParseReport(doc)
    case Err => Err
    case Ok(report) =>
      var raw := doc.value.fields;
      match CompactBusBWThreshold(raw)
      case Err => Err
      case Ok(threshold) =>
        if exists i :: 0 <= i < |BatchItems(raw)| && !BatchItems(raw)[i].Obj? then Err
        else Ok(Obj(CompactFields(report, threshold, CompactBatches(BatchItems(raw)))))
  }

  method CompactReport(doc: Option<Json>) returns (r: Result<Json>, nodeName: string)
    ensures r == Compacted(doc)
    ensures r.Ok? ==> nodeName == ParseReport(doc).value.nodeName
  {
    nodeName := "";
    var parsed := ParseReport(doc);
    if parsed.Err? { return Err, nodeName; }
    var report, raw := parsed.value, doc.value.fields;
    var threshold := CompactBusBWThreshold(raw);
    if threshold.Err? { return Err, nodeName; }
    var items := BatchItems(raw);
    var batches: seq<Json> := [];
    for i := 0 to |items|
      invariant |batches| == i
      invariant forall j :: 0 <= j < i ==> items[j].Obj? && batches[j] == Obj(CompactBatch(items[j].fields))
    {
      if !items[i].Obj? { return Err, nodeName; }
      var compacted := CopyKeptFields(items[i].fields);
      batches := batches + [Obj(compacted)];
    }
    assert batches == CompactBatches(items);
    return Ok(Obj(CompactFields(report, threshold.value, batches))), report.nodeName;
  }

  method CopyKeptFields(batch: map<string, Json>) returns (compacted: map<string, Json>)
    ensures compacted == CompactBatch(batch)
  {
    compacted := map[];
    for i := 0 to |KEPT_FIELDS|
      invariant compacted == map k | k in KEPT_FIELDS[..i] && k in batch :: Reencode(batch[k])
    {
      assert KEPT_FIELDS[..i + 1] == KEPT_FIELDS[..i] + [KEPT_FIELDS[i]];
      if KEPT_FIELDS[i] in batch {
        compacted := compacted[KEPT_FIELDS[i] := Reencode(batch[KEPT_FIELDS[i]])];
      }
    }
    assert KEPT_FIELDS[..|KEPT_FIELDS|] == KEPT_FIELDS;
  }

  // ---- Compaction preserves meaning ----

  function ReencodeField(v: Option<Json>): Option<Json> {
    if v.Some? then Some(Reencode(v.value)) else None
  }

  function ReencodeFields(f: BatchFields): BatchFields {
    BatchFields(ReencodeField(f.batchIdx), ReencodeField(f.pair), ReencodeField(f.selfIP), ReencodeField(f.status),
                ReencodeField(f.allreduceMS), ReencodeField(f.worldSize), ReencodeField(f.allreduceShape),
                    ReencodeField(f.dtypeBytes))
  }

  lemma CompactBatchFields(batch: map<string, Json>)
    ensures FieldsOf(CompactBatch(batch)) == ReencodeFields(FieldsOf(batch))
  {
    assert KEPT_FIELDS[0] == "batch_idx" && KEPT_FIELDS[1] == "pair" && KEPT_FIELDS[2] == "self_ip";
    assert KEPT_FIELDS[4] == "status" && KEPT_FIELDS[5] == "allreduce_ms" && KEPT_FIELDS[6] == "world_size";
    assert KEPT_FIELDS[7] == "allreduce_shape" && KEPT_FIELDS[8] == "dtype_bytes";
  }

  lemma ReencodedNumbers(lib: Lib, v: Option<Json>)
    ensures FloatField(lib, ReencodeField(v)) == FloatField(lib, v)
    ensures IntField(lib, ReencodeField(v)) == IntField(lib, v)
  {
  }

  lemma ReencodedPair(lib: Lib, v: Option<Json>)
    ensures PairField(lib, ReencodeField(v)) == PairField(lib, v)
  {
    if v.Some? && v.value.Arr? && |v.value.items| == 2 {
      forall i | 0 <= i < 2
        ensures Reencode(v.value).items[i].Str? <==> v.value.items[i].Str?
        ensures v.value.items[i].Str? ==> Reencode(v.value).items[i] == v.value.items[i]
      {
      }
    }
  }

  lemma ReencodedFailure(lib: Lib, f: BatchFields, threshold: real)
    ensures BatchFailed(lib, ReencodeFields(f), threshold) == BatchFailed(lib, f, threshold)
  {
    ReencodedNumbers(lib, f.allreduceMS);
    ReencodedNumbers(lib, f.allreduceShape);
    ReencodedNumbers(lib, f.dtypeBytes);
    ReencodedNumbers(lib, f.worldSize);
  }

  lemma ReencodedResult(lib: Lib, f: BatchFields, ip: string, n: int, threshold: real)
    ensures ExtractBatchResult(lib, ReencodeFields(f), ip, n, threshold) == ExtractBatchResult(lib, f, ip, n, threshold)
  {
    ReencodedNumbers(lib, f.batchIdx);
    ReencodedPair(lib, f.pair);
    ReencodedFailure(lib, f, threshold);
    assert Status(ReencodeFields(f)) == Status(f);
    var pair := PairField(lib, f.pair);
    if pair.Some? {
      assert BatchSelfIP(ReencodeFields(f), ip, pair.value) == BatchSelfIP(f, ip, pair.value);
    }
    assert SkippedBatchIdentity(lib, ReencodeFields(f), ip) == SkippedBatchIdentity(lib, f, ip);
  }

  lemma CompactItemReadsAlike(lib: Lib, item: Json, ip: string, n: int, threshold: real)
    requires item.Obj?
    ensures ViewItem(lib, Obj(CompactBatch(item.fields)), ip, n, threshold) == ViewItem(lib, item, ip, n, threshold)
  {
    CompactBatchFields(item.fields);
    ReencodedNumbers(lib, FieldsOf(item.fields).batchIdx);
    ReencodedResult(lib, FieldsOf(item.fields), ip, n, threshold);
  }

  predicate IsInt64(i: int) { -Preflight.MAX_INT64 - 1 <= i <= Preflight.MAX_INT64 }

  lemma DecodedIntsFit(m: ReportMembers)
    ensures DecodeReport(m).Ok? ==> var r := DecodeReport(m).value;
      IsInt64(r.workloadSize) && IsInt64(r.rank) && IsInt64(r.gpuCheck) && IsInt64(r.storageCheck)
  {
  }

  lemma IntJsonReads(i: int)
    requires IsInt64(i)
    ensures IntMember(Some(IntJson(i))) == Ok(i)
  {
  }

  /** What is left of a report's fields. */
  function Essential(report: Preflight.Report): Preflight.Report {
    report.(version := 0, workload := "")
  }

  lemma CompactFieldsRead(report: Preflight.Report, threshold: Option<string>, batches: seq<Json>)
    requires report.nodeName != ""
    requires IsInt64(report.workloadSize) && IsInt64(report.rank) && IsInt64(report.gpuCheck)
        && IsInt64(report.storageCheck)
    ensures var f := CompactFields(report, threshold, batches);
      && ParseReport(Some(Obj(f))) == Ok(Essential(report))
      && Field(f, THRESHOLD) == (if threshold.Some? then Some(Str(threshold.value)) else None)
      && BatchItems(f) == batches
  {
    var f := CompactFields(report, threshold, batches);
    IntJsonReads(report.workloadSize);
    IntJsonReads(report.rank);
    IntJsonReads(report.gpuCheck);
    IntJsonReads(report.storageCheck);
    assert MembersOf(f) == ReportMembers(None, None, Some(IntJson(report.workloadSize)), Some(IntJson(report.rank)),
      Some(Str(report.nodeName)), Some(Str(report.nodeIP)), Some(IntJson(report.gpuCheck)),
          Some(IntJson(report.storageCheck)));
  }

  lemma CompactThresholdReads(lib: Lib, raw: map<string, Json>, f: map<string, Json>)
    requires CompactBusBWThreshold(raw).Ok?
    requires var t := CompactBusBWThreshold(raw).value;
             Field(f, THRESHOLD) == if t.Some? then Some(Str(t.value)) else None
    ensures ExtractBusBWThreshold(lib, f) == ExtractBusBWThreshold(lib, raw)
    ensures CompactBusBWThreshold(f) == CompactBusBWThreshold(raw)
  {
    match Field(raw, THRESHOLD)
    case Some(Str(s)) => TrimSpaceIdempotent(s);
    case _ =>
  }

  lemma CompactViews(lib: Lib, items: seq<Json>, ip: string, n: int, threshold: real)
    requires forall i :: 0 <= i < |items| ==> items[i].Obj?
    ensures Views(lib, CompactBatches(items), ip, n, threshold) == Views(lib, items, ip, n, threshold)
  {
    forall i | 0 <= i < |items|
      ensures Views(lib, CompactBatches(items), ip, n, threshold)[i] == Views(lib, items, ip, n, threshold)[i]
    {
      CompactItemReadsAlike(lib, items[i], ip, n, threshold);
    }
  }

  /** The manager reads from the compacted document what it would have read from the original. */
  lemma CompactionPreservesMeaning(lib: Lib, doc: Option<Json>)
    requires Compacted(doc).Ok?
    ensures ParseReport(Some(Compacted(doc).value)) == Ok(Essential(ParseReport(doc).value))
    ensures ExtractedFrom(lib, Some(Compacted(doc).value)).Ok? <==> ExtractedFrom(lib, doc).Ok?
    ensures ExtractedFrom(lib, Some(Compacted(doc).value)) ==
            match ExtractedFrom(lib, doc)
            case Ok(e) => Ok(e.(report := Essential(e.report)))
            case Err => Err
  {
    var report, raw := ParseReport(doc).value, doc.value.fields;
    var f := Compacted(doc).value.fields;
    DecodedIntsFit(MembersOf(raw));
    CompactFieldsRead(report, CompactBusBWThreshold(raw).value, CompactBatches(BatchItems(raw)));
    CompactThresholdReads(lib, raw, f);
    forall n: nat ensures ReadBatches(lib, f, report.nodeIP, n) == ReadBatches(lib, raw, report.nodeIP, n) {
      if ExtractBusBWThreshold(lib, raw).Ok? {
        CompactViews(lib, BatchItems(raw), report.nodeIP, n, ExtractBusBWThreshold(lib, raw).value);
      }
    }
  }

  /** So the aggregator stores the same node report. */
  lemma SameNodeReport(lib: Lib, doc: Option<Json>)
    requires Compacted(doc).Ok? && ExtractedFrom(lib, doc).Ok?
    ensures ExtractedFrom(lib, Some(Compacted(doc).value)).Ok?
    ensures var e, f := ExtractedFrom(lib, doc).value, ExtractedFrom(lib, Some(Compacted(doc).value)).value;
            Preflight.NodeReportOf(f.report, f.results) == Preflight.NodeReportOf(e.report, e.results)
                && f.plan == e.plan
  {
    CompactionPreservesMeaning(lib, doc);
  }

  lemma CompactBatchIdempotent(batch: map<string, Json>)
    ensures CompactBatch(CompactBatch(batch)) == CompactBatch(batch)
  {
    forall k | k in CompactBatch(batch) ensures Reencode(CompactBatch(batch)[k]) == CompactBatch(batch)[k] {
      ReencodeIdempotent(batch[k]);
    }
  }

  /** Compacting again changes nothing. */
  lemma CompactionIsIdempotent(doc: Option<Json>)
    requires Compacted(doc).Ok?
    ensures Compacted(Some(Compacted(doc).value)) == Ok(Compacted(doc).value)
  {
    var report, raw := ParseReport(doc).value, doc.value.fields;
    var f := Compacted(doc).value.fields;
    var items := BatchItems(raw);
    var lib := Lib(_ => None, _ => None);
    DecodedIntsFit(MembersOf(raw));
    CompactFieldsRead(report, CompactBusBWThreshold(raw).value, CompactBatches(items));
    CompactThresholdReads(lib, raw, f);
    forall i | 0 <= i < |items| ensures CompactBatches(CompactBatches(items))[i] == CompactBatches(items)[i] {
      CompactBatchIdempotent(items[i].fields);
    }
    assert CompactBatches(CompactBatches(items)) == CompactBatches(items);
  }

  // ---- Which reports can be compacted, and what is kept ----

  /** A document is compacted if it has legible top-level members, a textual threshold and only objects as entries. */
  lemma CompactedIff(doc: Option<Json>)
    ensures Compacted(doc).Ok? <==>
            && doc.Some? && doc.value.Obj? && (exists r :: DocumentLaws.HoldsReport(doc.value.fields, r))
            && (THRESHOLD in doc.value.fields ==> doc.value.fields[THRESHOLD].Str?)
            && forall i :: 0 <= i < |DocumentLaws.Entries(doc.value.fields)| ==>
                 DocumentLaws.Entries(doc.value.fields)[i].Obj?
  {
    forall r
      ensures ParseReport(doc) == Ok(r) <==>
              doc.Some? && doc.value.Obj? && DocumentLaws.HoldsReport(doc.value.fields, r)
    {
      DocumentLaws.ParsedMeans(doc, r);
    }
    if ParseReport(doc).Ok? {
      assert DocumentLaws.HoldsReport(doc.value.fields, ParseReport(doc).value);
      assert DocumentLaws.Entries(doc.value.fields) == BatchItems(doc.value.fields);
    }
  }

  /** small is the stored form of an entry: at most these nine members, as they read after encoding. */
  ghost predicate KeepsOfEntry(small: map<string, Json>, entry: map<string, Json>) {
    && small.Keys == entry.Keys * {
         "batch_idx", "pair", "self_ip", "local_rank", "status", "allreduce_ms", "world_size", "allreduce_shape",
         "dtype_bytes"}
    && forall k :: k in small ==> small[k] == Reencode(entry[k])
  }

  lemma CompactBatchKeeps(entry: map<string, Json>)
    ensures KeepsOfEntry(CompactBatch(entry), entry)
  {
    var nine := {
      "batch_idx", "pair", "self_ip", "local_rank", "status", "allreduce_ms", "world_size", "allreduce_shape",
      "dtype_bytes"};
    forall k ensures k in KEPT_FIELDS <==> k in nine {
      assert KEPT_FIELDS[0] == "batch_idx" && KEPT_FIELDS[1] == "pair" && KEPT_FIELDS[2] == "self_ip";
      assert KEPT_FIELDS[3] == "local_rank" && KEPT_FIELDS[4] == "status" && KEPT_FIELDS[5] == "allreduce_ms";
      assert KEPT_FIELDS[6] == "world_size" && KEPT_FIELDS[7] == "allreduce_shape" && KEPT_FIELDS[8] == "dtype_bytes";
    }
  }

  /** A threshold is kept without its outer white space, and left out when it is blank. */
  ghost predicate KeepsThreshold(small: map<string, Json>, raw: map<string, Json>) {
    if "node_check_busbw_threshold_gbps" in small then
      && "node_check_busbw_threshold_gbps" in raw && raw["node_check_busbw_threshold_gbps"].Str?
      && small["node_check_busbw_threshold_gbps"].Str? && small["node_check_busbw_threshold_gbps"].text != ""
      && DocumentLaws.Trimmed(
        raw["node_check_busbw_threshold_gbps"].text, small["node_check_busbw_threshold_gbps"].text)
    else
      "node_check_busbw_threshold_gbps" in raw ==>
        raw["node_check_busbw_threshold_gbps"].Str?
        && DocumentLaws.Trimmed(raw["node_check_busbw_threshold_gbps"].text, "")
  }

  ghost predicate KeepsEntries(small: seq<Json>, entries: seq<Json>) {
    && |small| == |entries|
    && forall i :: 0 <= i < |entries| ==>
      entries[i].Obj? && small[i].Obj? && KeepsOfEntry(small[i].fields, entries[i].fields)
  }

  /** The stored document has these members and no others, and every entry in its place. */
  lemma CompactedKeeps(doc: Option<Json>)
    requires Compacted(doc).Ok?
    ensures var raw, small := doc.value.fields, Compacted(doc).value.fields;
      && small.Keys - {"node_check_busbw_threshold_gbps"}
         == {"workload_size", "rank", "node_name", "node_ip", "gpu_check", "storage_check", "batches"}
      && KeepsThreshold(small, raw)
      && KeepsEntries(DocumentLaws.Entries(small), DocumentLaws.Entries(raw))
  {
    var raw := doc.value.fields;
    var report, threshold, items := ParseReport(doc).value, CompactBusBWThreshold(raw).value, BatchItems(raw);
    assert DocumentLaws.Entries(raw) == items;
    CompactBatchesKeep(items);
    CompactFieldsKeep(report, threshold, CompactBatches(items));
    CompactThresholdKeeps(raw, CompactFields(report, threshold, CompactBatches(items)));
  }

  lemma CompactFieldsKeep(report: Preflight.Report, threshold: Option<string>, batches: seq<Json>)
    ensures var small := CompactFields(report, threshold, batches);
      && small.Keys - {"node_check_busbw_threshold_gbps"}
         == {"workload_size", "rank", "node_name", "node_ip", "gpu_check", "storage_check", "batches"}
      && Field(small, THRESHOLD) == (if threshold.Some? then Some(Str(threshold.value)) else None)
      && DocumentLaws.Entries(small) == batches
  {
  }

  lemma CompactThresholdKeeps(raw: map<string, Json>, small: map<string, Json>)
    requires CompactBusBWThreshold(raw).Ok?
    requires var t := CompactBusBWThreshold(raw).value;
             Field(small, THRESHOLD) == if t.Some? then Some(Str(t.value)) else None
    ensures KeepsThreshold(small, raw)
  {
    if THRESHOLD in raw && raw[THRESHOLD].Str? {
      DocumentLaws.TrimSpaceTrims(raw[THRESHOLD].text);
    }
  }

  lemma CompactBatchesKeep(items: seq<Json>)
    requires forall i :: 0 <= i < |items| ==> items[i].Obj?
    ensures KeepsEntries(CompactBatches(items), items)
  {
    forall i | 0 <= i < |items| ensures KeepsOfEntry(CompactBatches(items)[i].fields, items[i].fields) {
      CompactBatchKeeps(items[i].fields);
    }
  }

  lemma {:induction false} CollectNeedsObjects(lib: Lib, items: seq<Json>, ip: string, n: int, threshold: real, i: nat)
    requires i < |items| && Collect(Views(lib, items, ip, n, threshold)).Ok?
    ensures items[i].Obj?
    decreases |items|
  {
    var k := |items| - 1;
    assert Views(lib, items, ip, n, threshold)[..k] == Views(lib, items[..k], ip, n, threshold);
    if i < k {
      CollectNeedsObjects(lib, items[..k], ip, n, threshold, i);
    }
  }

  /**
   * A report the manager accepts can be compacted, except that a fail-fast report is refused when its
   * threshold is not text or a batch entry is not an object: the manager never looks at those.
   */
  lemma CompactableIff(lib: Lib, doc: Option<Json>)
    requires ExtractedFrom(lib, doc).Ok?
    ensures var raw := doc.value.fields;
      Compacted(doc).Ok? <==>
        !ParseReport(doc).value.FailsFast()
        || ((Field(raw, THRESHOLD).Some? ==> Field(raw, THRESHOLD).value.Str?)
            && forall i :: 0 <= i < |BatchItems(raw)| ==> BatchItems(raw)[i].Obj?)
  {
    var raw := doc.value.fields;
    var e := ExtractedFrom(lib, doc).value;
    if !e.report.FailsFast() {
      var threshold := ExtractBusBWThreshold(lib, raw).value;
      forall i | 0 <= i < |BatchItems(raw)| ensures BatchItems(raw)[i].Obj? {
        CollectNeedsObjects(lib, BatchItems(raw), e.report.nodeIP, e.plan.batchCount, threshold, i);
      }
    }
  }

  function FailFastWithNumericThreshold(): Option<Json> {
    Some(Obj(map["workload_size" := IntJson(2), "node_name" := Str("n"), "gpu_check" := IntJson(2),
        THRESHOLD := IntJson(12)]))
  }

  /** A failed node that writes its threshold as a number is abnormal to the manager, but cannot be stored. */
  lemma SomeAcceptedReportsCannotBeStored(lib: Lib)
    ensures ExtractedFrom(lib, FailFastWithNumericThreshold()).Ok?
    ensures ExtractedFrom(lib, FailFastWithNumericThreshold()).value.report.FailsFast()
    ensures Compacted(FailFastWithNumericThreshold()).Err?
  {
    var doc := FailFastWithNumericThreshold();
    var f := doc.value.fields;
    IntJsonReads(2);
    assert MembersOf(f) == ReportMembers(None, None, Some(IntJson(2)), None, Some(Str("n")), None, Some(IntJson(2)),
        None);
    assert ParseReport(doc) == Ok(Preflight.Report(0, "", 2, 0, "n", "", 2, 0));
    assert Field(f, THRESHOLD) == Some(IntJson(12));
  }
}

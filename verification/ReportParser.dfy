/** Reading one node's report document: pkg/preflight/report_parser.go and preflight.go. */
module ReportParser {
  import opened Base
  import opened Json
  import opened Preflight

  /** A parsed IP address, ordered as Go's netip.Addr.Compare orders it. */
  datatype Addr = Addr(bits: nat, value: nat, zone: string)

  predicate AddrLess(a: Addr, b: Addr) {
    || a.bits < b.bits
    || (a.bits == b.bits && a.value < b.value)
    || (a.bits == b.bits && a.value == b.value && a.zone != b.zone && StrLe(a.zone, b.zone))
  }

  /** Library calls whose code is not part of this repository: any functions will do. */
  datatype Lib = Lib(parseFloat: string -> Option<real>, parseAddr: string -> Option<Addr>)

  // ---- Top-level fields ----

  /** The members of a report document that the struct decoder looks at. */
  datatype ReportMembers = ReportMembers(
    version: Option<Json>, workload: Option<Json>, workloadSize: Option<Json>, rank: Option<Json>,
    nodeName: Option<Json>, nodeIP: Option<Json>, gpuCheck: Option<Json>, storageCheck: Option<Json>)

  function MembersOf(f: map<string, Json>): ReportMembers {
    ReportMembers(Field(f, "version"), Field(f, "workload"), Field(f, "workload_size"), Field(f, "rank"),
                  Field(f, "node_name"), Field(f, "node_ip"), Field(f, "gpu_check"), Field(f, "storage_check"))
  }

  /** Decoding a member into a Go int: absent or null leaves zero. */
  function IntMember(v: Option<Json>): Result<int> {
    match v
    case None => Ok(0)
    case Some(Null) => Ok(0)
    case Some(Num(r, true)) =>
      if IsIntegral(r) && -MAX_INT64 - 1 <= r.Floor <= MAX_INT64 then Ok(r.Floor) else Err
    case Some(_) => Err
  }

  /** Decoding a member into a Go string: absent or null leaves the empty string. */
  function StrMember(v: Option<Json>): Result<string> {
    match v
    case None => Ok("")
    case Some(Null) => Ok("")
    case Some(Str(s)) => Ok(s)
    case Some(_) => Err
  }

  function DecodeReport(m: ReportMembers): (r: Result<Report>)
    ensures r.Ok? ==> r.value.nodeName != ""
  {
    var version, workload := IntMember(m.version), StrMember(m.workload);
    var size, rank := IntMember(m.workloadSize), IntMember(m.rank);
    var name, ip := StrMember(m.nodeName), StrMember(m.nodeIP);
    var gpu, storage := IntMember(m.gpuCheck), IntMember(m.storageCheck);
    if version.Ok? && workload.Ok? && size.Ok? && rank.Ok? && name.Ok? && ip.Ok? && gpu.Ok? && storage.Ok?
       && name.value != ""
    then Ok(Report(version.value, workload.value, size.value, rank.value, name.value, ip.value,
                   gpu.value, storage.value))
    else Err
  }

  /** No document (malformed text) and a document that is not an object are rejected alike. */
  function ParseReport(doc: Option<Json>): (r: Result<Report>)
    ensures r.Ok? ==> doc.Some? && doc.value.Obj? && r.value.nodeName != ""
  {
    if doc.Some? && doc.value.Obj? then DecodeReport(MembersOf(doc.value.fields)) else Err
  }

  // ---- Loosely typed batch fields ----

  /** The fields of a batch entry that are read; the map lookups of Go, taken at once. */
  datatype BatchFields = BatchFields(
    batchIdx: Option<Json>, pair: Option<Json>, selfIP: Option<Json>, status: Option<Json>,
    allreduceMS: Option<Json>, worldSize: Option<Json>, allreduceShape: Option<Json>, dtypeBytes: Option<Json>)

  function FieldsOf(b: map<string, Json>): BatchFields {
    BatchFields(Field(b, "batch_idx"), Field(b, "pair"), Field(b, "self_ip"), Field(b, "status"),
                Field(b, "allreduce_ms"), Field(b, "world_size"), Field(b, "allreduce_shape"), Field(b, "dtype_bytes"))
  }

  function FloatField(lib: Lib, v: Option<Json>): Result<real> {
    match v
    case Some(Num(r, _)) => Ok(r)
    case Some(Str(s)) =>
      if s == "" then Err else
        (match lib.parseFloat(s) case Some(r) => Ok(r) case None => Err)
    case _ => Err
  }

  function IntField(lib: Lib, v: Option<Json>): Result<int> {
    match FloatField(lib, v)
    case Ok(r) => if IsIntegral(r) then Ok(r.Floor) else Err
    case Err => Err
  }

  predicate ShouldSwapPair(lib: Lib, left: string, right: string) {
    var l, r := lib.parseAddr(left), lib.parseAddr(right);
    if l.Some? && r.Some? then AddrLess(r.value, l.value) else !StrLe(left, right)
  }

  function PairField(lib: Lib, v: Option<Json>): Option<(string, string)> {
    if !(v.Some? && v.value.Arr? && |v.value.items| == 2) then None else
      var a, b := v.value.items[0], v.value.items[1];
      if !(a.Str? && b.Str? && a.text != "" && b.text != "") then None
      else if ShouldSwapPair(lib, a.text, b.text) then Some((b.text, a.text))
      else Some((a.text, b.text))
  }

  function BatchSelfIP(batch: BatchFields, reporterIP: string, pair: (string, string)): (r: Result<string>)
    ensures r.Ok? ==> r.value == pair.0 || r.value == pair.1
  {
    match batch.selfIP
    case Some(Str(ip)) => if ip != "" && (pair.0 == ip || pair.1 == ip) then Ok(ip) else Err
    case Some(_) => Err
    case None => if pair.0 == reporterIP || pair.1 == reporterIP then Ok(reporterIP) else Err
  }

  /** A skipped batch may omit its pair; it then stands for the node paired with itself. */
  function SkippedBatchIdentity(lib: Lib, batch: BatchFields, reporterIP: string):
    (r: Result<((string, string), string)>)
  {
    match PairField(lib, batch.pair)
    case Some(pair) =>
      (match BatchSelfIP(batch, reporterIP, pair) case Ok(ip) => Ok((pair, ip)) case Err => Err)
    case None =>
      match batch.selfIP
      case Some(Str(ip)) => if ip != "" then Ok(((ip, ip), ip)) else Err
      case _ => Err
  }

  function Status(batch: BatchFields): string {
    match batch.status case Some(Str(s)) => s case _ => ""
  }

  /** Bus bandwidth in GB/s over the reals, from milliseconds and a byte count. */
  function AlgorithmBW(ms: real, shape: int, bytes: int): real
    requires ms > 0.0
  {
    (shape * bytes) as real / 1073741824.0 / (ms / 1000.0)
  }

  function CalculateBusBW(ms: real, shape: int, bytes: int, worldSize: int): real
    requires ms > 0.0 && worldSize > 1
  {
    AlgorithmBW(ms, shape, bytes) * 2.0 * (worldSize - 1) as real / worldSize as real
  }

  function BatchFailed(lib: Lib, batch: BatchFields, threshold: real): Result<bool> {
    if EqualFold(Status(batch), "fail") || EqualFold(Status(batch), "skip") then Ok(true)
    else if threshold == 0.0 then Ok(false)
    else
      var ms := FloatField(lib, batch.allreduceMS);
      var shape := IntField(lib, batch.allreduceShape);
      var bytes := IntField(lib, batch.dtypeBytes);
      var world := IntField(lib, batch.worldSize);
      if ms.Err? || shape.Err? || bytes.Err? || world.Err? then Err
      else if ms.value <= 0.0 || shape.value <= 0 || bytes.value <= 0 || world.value <= 1 then Ok(true)
      else Ok(CalculateBusBW(ms.value, shape.value, bytes.value, world.value) < threshold)
  }

  function ExtractBatchResult(lib: Lib, batch: BatchFields, reporterIP: string, batchCount: int, threshold: real):
    (r: Result<BatchResult>)
    ensures r.Ok? ==> 0 <= r.value.batchIdx < batchCount
    ensures r.Ok? ==> r.value.selfIP == r.value.pairFirst || r.value.selfIP == r.value.pairSecond
  {
    var idx := IntField(lib, batch.batchIdx);
    if idx.Err? || idx.value < 0 || idx.value >= batchCount then Err else
      var identity :=
        if EqualFold(Status(batch), "skip") then SkippedBatchIdentity(lib, batch, reporterIP)
        else match PairField(lib, batch.pair)
          case None => Err
          case Some(pair) =>
            (match BatchSelfIP(batch, reporterIP, pair) case Ok(ip) => Ok((pair, ip)) case Err => Err);
      var failed := BatchFailed(lib, batch, threshold);
      if identity.Err? || failed.Err? then Err
      else
        var ((first, second), self) := identity.value;
        Ok(BatchResult(idx.value, first, second, self, failed.value))
  }

  // ---- The batch list ----

  /** How one entry of the batch list is taken. */
  datatype ItemView = Malformed | Ignored | Batch(result: BatchResult)

  function ViewItem(lib: Lib, item: Json, reporterIP: string, batchCount: int, threshold: real): (v: ItemView)
    ensures v.Batch? ==> 0 <= v.result.batchIdx < batchCount
    ensures v.Batch? ==> v.result.selfIP == v.result.pairFirst || v.result.selfIP == v.result.pairSecond
  {
    if !item.Obj? then Malformed else
      var idx := IntField(lib, FieldsOf(item.fields).batchIdx);
      if idx.Err? || idx.value < 0 then Malformed
      else if idx.value >= batchCount then Ignored
      else match ExtractBatchResult(lib, FieldsOf(item.fields), reporterIP, batchCount, threshold)
        case Ok(result) => Batch(result)
        case Err => Malformed
  }

  function Views(lib: Lib, items: seq<Json>, reporterIP: string, batchCount: int, threshold: real): seq<ItemView> {
    seq(|items|, i requires 0 <= i < |items| => ViewItem(lib, items[i], reporterIP, batchCount, threshold))
  }

  /** The results by index, or failure on a malformed entry or a second entry for one index. */
  function Collect(views: seq<ItemView>): (r: Result<map<int, BatchResult>>)
    ensures r.Ok? ==> forall b :: b in r.value ==> r.value[b].batchIdx == b
  {
    if views == [] then Ok(map[]) else
      var n := |views| - 1;
      match Collect(views[..n])
      case Err => Err
      case Ok(m) =>
        match views[n]
        case Malformed => Err
        case Ignored => Ok(m)
        case Batch(result) => if result.batchIdx in m then Err else Ok(m[result.batchIdx := result])
  }

  /** The entries of m with an index below n, in ascending order. */
  function OrderedBelow(m: map<int, BatchResult>, n: nat): seq<BatchResult> {
    if n == 0 then []
    else OrderedBelow(m, n - 1) + (if n - 1 in m then [m[n - 1]] else [])
  }

  function BatchItems(payload: map<string, Json>): seq<Json> {
    match Field(payload, "batches") case Some(Arr(items)) => items case _ => []
  }

  function ExtractBusBWThreshold(lib: Lib, payload: map<string, Json>): (r: Result<real>)
    ensures r.Ok? ==> r.value >= 0.0
  {
    match Field(payload, "node_check_busbw_threshold_gbps")
    case None => Ok(0.0)
    case Some(Str(raw)) =>
      var text := TrimSpace(raw);
      if text == "" then Ok(0.0) else
        (match lib.parseFloat(text)
         case Some(value) => if value < 0.0 then Err else Ok(value)
         case None => Err)
    case Some(_) => Err
  }

  /** The batch results of a report that did not fail fast. */
  function ReadBatches(lib: Lib, payload: map<string, Json>, reporterIP: string,
      batchCount: nat): Result<seq<BatchResult>> {
    match ExtractBusBWThreshold(lib, payload)
    case Err => Err
    case Ok(threshold) => CollectOrdered(Views(lib, BatchItems(payload), reporterIP, batchCount, threshold), batchCount)
  }

  function CollectOrdered(views: seq<ItemView>, batchCount: nat): Result<seq<BatchResult>> {
    match Collect(views)
    case Err => Err
    case Ok(m) => Ok(OrderedBelow(m, batchCount))
  }

  datatype Extracted = Extracted(report: Report, plan: Plan, results: seq<BatchResult>)

  /** What the manager reads from one report document. */
  function ExtractedFrom(lib: Lib, doc: Option<Json>): Result<Extracted> {
    match ParseReport(doc)
    case Err => Err
    case Ok(report) => ExtractedFor(lib, report, doc.value.fields)
  }

  function ExtractedFor(lib: Lib, report: Report, payload: map<string, Json>): Result<Extracted> {
    match BuildWorkloadPlan(report.workloadSize)
    case Err => Err
    case Ok(plan) =>
      if report.FailsFast() then Ok(Extracted(report, plan, [])) else
        match ReadBatches(lib, payload, report.nodeIP, plan.batchCount)
        case Err => Err
        case Ok(results) => Ok(Extracted(report, plan, results))
  }

  // ---- The loops ----

  method ExtractBatchResults(lib: Lib, payload: map<string, Json>, report: Report, plan: Plan, threshold: real)
    returns (r: Result<map<int, BatchResult>>)
    ensures r == Collect(Views(lib, BatchItems(payload), report.nodeIP, plan.batchCount, threshold))
  {
    var items := BatchItems(payload);
    ghost var views := Views(lib, items, report.nodeIP, plan.batchCount, threshold);
    var m: map<int, BatchResult> := map[];
    for i := 0 to |items|
      invariant Collect(views[..i]) == Ok(m)
    {
      var view := ViewItem(lib, items[i], report.nodeIP, plan.batchCount, threshold);
      assert views[..i + 1] == views[..i] + [view];
      CollectLast(views[..i], view);
      var duplicate := view.Batch? && view.result.batchIdx in m;
      if view.Malformed? || duplicate {
        CollectFailurePersists(views, i + 1);
        return Err;
      }
      if view.Batch? {
        m := m[view.result.batchIdx := view.result];
      }
    }
    assert views[..|items|] == views;
    return Ok(m);
  }

  function AddView(r: Result<map<int, BatchResult>>, view: ItemView): Result<map<int, BatchResult>> {
    match r
    case Err => Err
    case Ok(m) =>
      match view
      case Malformed => Err
      case Ignored => r
      case Batch(result) => if result.batchIdx in m then Err else Ok(m[result.batchIdx := result])
  }

  lemma CollectLast(front: seq<ItemView>, view: ItemView)
    ensures Collect(front + [view]) == AddView(Collect(front), view)
  {
  }

  lemma {:induction false} CollectFailurePersists(views: seq<ItemView>, k: nat)
    requires k <= |views| && Collect(views[..k]).Err?
    ensures Collect(views).Err?
    decreases |views|
  {
    if k < |views| {
      var n := |views| - 1;
      assert views[..n][..k] == views[..k];
      CollectFailurePersists(views[..n], k);
    } else {
      assert views[..k] == views;
    }
  }

  method OrderedBatchResults(m: map<int, BatchResult>, n: nat) returns (results: seq<BatchResult>)
    requires forall b :: b in m ==> 0 <= b < n && m[b].batchIdx == b
    ensures results == OrderedBelow(m, n)
  {
    var indexes := SortedInts(m.Keys);
    results := [];
    ghost var hi: nat := 0;
    for i := 0 to |indexes|
      invariant hi == (if i == 0 then 0 else indexes[i - 1] + 1) <= n
      invariant results == OrderedBelow(m, hi)
    {
      var b := indexes[i];
      forall k | hi <= k < b ensures k !in m {
        if k in m {
          NothingBetween(indexes, m.Keys, i, k);
        }
      }
      OrderedSkipsGap(m, hi, b);
      results := results + [m[b]];
      hi := b + 1;
    }
    forall k | hi <= k < n ensures k !in m {
      if k in m {
        NothingBetween(indexes, m.Keys, |indexes|, k);
      }
    }
    OrderedSkipsGap(m, hi, n);
  }

  lemma {:induction false} OrderedSkipsGap(m: map<int, BatchResult>, lo: nat, hi: nat)
    requires lo <= hi
    requires forall k :: lo <= k < hi ==> k !in m
    ensures OrderedBelow(m, hi) == OrderedBelow(m, lo)
    decreases hi - lo
  {
    if lo < hi {
      OrderedSkipsGap(m, lo, hi - 1);
    }
  }

  lemma {:induction false} CollectInRange(views: seq<ItemView>, n: int)
    requires forall i :: 0 <= i < |views| && views[i].Batch? ==> 0 <= views[i].result.batchIdx < n
    ensures Collect(views).Ok? ==> forall b :: b in Collect(views).value ==> 0 <= b < n
  {
    if views == [] {
    } else {
      CollectInRange(views[..|views| - 1], n);
    }
  }

  method ExtractNodeReport(lib: Lib, doc: Option<Json>) returns (r: Result<Extracted>)
    ensures r == ExtractedFrom(lib, doc)
  {
    var parsed := ParseReport(doc);
    if parsed.Err? { return Err; }
    var report := parsed.value;
    var planned := BuildWorkloadPlan(report.workloadSize);
    if planned.Err? { return Err; }
    var plan := planned.value;
    if report.FailsFast() { return Ok(Extracted(report, plan, [])); }
    var payload := doc.value.fields;
    var threshold := ExtractBusBWThreshold(lib, payload);
    if threshold.Err? { return Err; }
    var m := ExtractBatchResults(lib, payload, report, plan, threshold.value);
    if m.Err? { return Err; }
    CollectInRange(Views(lib, BatchItems(payload), report.nodeIP, plan.batchCount, threshold.value), plan.batchCount);
    var results := OrderedBatchResults(m.value, plan.batchCount);
    return Ok(Extracted(report, plan, results));
  }
}

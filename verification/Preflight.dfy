/** The values the preflight code passes around. */
module Preflight {
  import Base

  const MAX_BATCH_COUNT := 5
  const MAX_WORKLOAD_SIZE := 10_000
  const CHECK_RESULT_FAIL := 2
  const MAX_INT64 := 0x7FFF_FFFF_FFFF_FFFF

  datatype BatchResult = BatchResult(
    batchIdx: int, pairFirst: string, pairSecond: string, selfIP: string, failed: bool)

  datatype NodeReport = NodeReport(
    nodeName: string, selfIP: string, failFast: bool, batchResults: seq<BatchResult>)

  datatype Plan = Plan(reportCount: int, batchCount: int)

  /** The top-level fields of a report document. */
  datatype Report = Report(
    version: int, workload: string, workloadSize: int, rank: int,
    nodeName: string, nodeIP: string, gpuCheck: int, storageCheck: int)
  {
    predicate FailsFast() {
      gpuCheck == CHECK_RESULT_FAIL || storageCheck == CHECK_RESULT_FAIL
    }
  }

  /** How the aggregator stores a report; one without batch results counts as failing fast. */
  function NodeReportOf(report: Report, results: seq<BatchResult>): (r: NodeReport)
    ensures r.failFast <==> report.gpuCheck == 2 || report.storageCheck == 2 || results == []
  {
    NodeReport(report.nodeName, report.nodeIP, report.FailsFast() || |results| == 0, results)
  }

  predicate ValidWorkloadSize(size: int) {
    0 < size <= MAX_WORKLOAD_SIZE && size % 2 == 0
  }

  function BuildWorkloadPlan(size: int): (p: Base.Result<Plan>)
    ensures p.Ok? <==> 0 < size <= 10_000 && size % 2 == 0
    ensures p.Ok? ==> ValidPlan(p.value) && p.value.reportCount == size
    ensures p.Ok? ==> p.value.batchCount == if size < 6 then size - 1 else 5
  {
    if ValidWorkloadSize(size) then Base.Ok(Plan(size, Base.Min(size - 1, MAX_BATCH_COUNT))) else Base.Err
  }

  /** The plans that can reach the aggregator: an even size of at least two. */
  predicate ValidPlan(p: Plan) {
    && 2 <= p.reportCount <= MAX_WORKLOAD_SIZE && p.reportCount % 2 == 0
    && 1 <= p.batchCount <= MAX_BATCH_COUNT
    && (p.batchCount == p.reportCount - 1 || (p.batchCount == MAX_BATCH_COUNT && p.batchCount < p.reportCount))
  }

  /** The two results agree except that `high` may have failed where `low` did not. */
  predicate FailsMore(low: BatchResult, high: BatchResult) {
    low == high.(failed := low.failed) && (low.failed ==> high.failed)
  }

  predicate AllFailMore(low: seq<BatchResult>, high: seq<BatchResult>) {
    |low| == |high| && forall i :: 0 <= i < |low| ==> FailsMore(low[i], high[i])
  }
}

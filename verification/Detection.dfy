/** The slow-node rule: pkg/preflight/slow_node_detection.go. The loops visit Go maps in any order. */
module Detection {
  import Base
  import opened Preflight

  // ---- What the loops compute, as sets ----

  ghost predicate HasFailFast(reports: map<string, NodeReport>) {
    exists n :: n in reports && reports[n].failFast
  }

  ghost function FailFastNames(reports: map<string, NodeReport>): set<string> {
    set n | n in reports && reports[n].failFast :: reports[n].nodeName
  }

  ghost function PairwiseReports(reports: map<string, NodeReport>): map<string, NodeReport> {
    map n | n in reports && !reports[n].failFast :: reports[n]
  }

  ghost function SetOf<T>(xs: seq<T>): set<T> {
    set x | x in xs
  }

  lemma SetOfAppend<T>(xs: seq<T>, i: nat)
    requires i < |xs|
    ensures SetOf(xs[..i + 1]) == SetOf(xs[..i]) + {xs[i]}
  {
  }

  /** Every batch result of the given reports. */
  ghost function Results(reports: map<string, NodeReport>): set<BatchResult> {
    ResultsFrom(reports, reports.Keys)
  }

  ghost function ResultsFrom(reports: map<string, NodeReport>, from: set<string>): set<BatchResult> {
    set n, r | n in from && n in reports && r in reports[n].batchResults :: r
  }

  lemma ResultsFromOneMore(reports: map<string, NodeReport>, from: set<string>, n: string)
    requires n in reports
    ensures ResultsFrom(reports, from + {n}) == ResultsFrom(reports, from) + SetOf(reports[n].batchResults)
  {
  }

  /** The batches with at least one failed pair. */
  ghost function FailedBatches(results: set<BatchResult>): set<int> {
    set r | r in results && r.failed :: r.batchIdx
  }

  /** The IPs at either end of a failed pair of batch b. */
  ghost predicate FailsIn(results: set<BatchResult>, b: int, ip: string) {
    exists r :: r in results && r.failed && r.batchIdx == b && (r.pairFirst == ip || r.pairSecond == ip)
  }

  ghost function FailedIPs(results: set<BatchResult>, b: int): (s: set<string>)
    ensures forall ip :: ip in s <==> FailsIn(results, b, ip)
  {
    (set r | r in results && r.failed && r.batchIdx == b :: r.pairFirst)
    + (set r | r in results && r.failed && r.batchIdx == b :: r.pairSecond)
  }

  /** The IPs that fail in every batch that has a failure; none when there is no failure. */
  ghost function CommonIPs(results: set<BatchResult>): (s: set<string>)
    ensures forall ip :: ip in s <==>
      FailedBatches(results) != {} && forall b :: b in FailedBatches(results) ==> FailsIn(results, b, ip)
  {
    if FailedBatches(results) == {} then {} else
      var b0 :| b0 in FailedBatches(results);
      set ip | ip in FailedIPs(results, b0) && forall b :: b in FailedBatches(results) ==> FailsIn(results, b, ip)
  }

  /** A possible outcome of filling the IP-to-name table: any reporter of an IP may win. */
  ghost predicate IsResolver(reports: map<string, NodeReport>, names: map<string, string>) {
    && (forall ip :: ip in names <==> ip != "" && exists n :: n in reports && reports[n].selfIP == ip)
    && (forall ip :: ip in names ==> exists n ::
        n in reports && reports[n].selfIP == ip && reports[n].nodeName == names[ip])
  }

  function ResolveNodeName(names: map<string, string>, ip: string): string {
    if ip in names then names[ip] else ip
  }

  ghost function Resolved(names: map<string, string>, ips: set<string>): set<string> {
    set ip | ip in ips :: ResolveNodeName(names, ip)
  }

  /** The IPs named by the pairwise rule. */
  ghost function NamedIPs(reports: map<string, NodeReport>, expected: int): set<string> {
    var results := Results(PairwiseReports(reports));
    if !HasFailFast(reports) && expected > 0 && |FailedBatches(results)| < expected then {}
    else CommonIPs(results)
  }

  ghost function Verdict(reports: map<string, NodeReport>, expected: int, names: map<string, string>): set<string> {
    FailFastNames(reports) + Resolved(names, NamedIPs(reports, expected))
  }

  /** slow is a verdict the manager may give on these reports. */
  ghost predicate IsVerdict(reports: map<string, NodeReport>, expected: int, slow: seq<string>) {
    exists names :: IsResolver(reports, names) && Base.IsSortedListOf(slow, Verdict(reports, expected, names))
  }

  // ---- The loops ----

  datatype PairKey = PairKey(batch: int, first: string, second: string)

  function KeyOf(r: BatchResult): PairKey { PairKey(r.batchIdx, r.pairFirst, r.pairSecond) }

  method ClassifyNodeReports(reports: map<string, NodeReport>)
    returns (abnormal: set<string>, preflight: map<string, NodeReport>, hasFailFast: bool)
    ensures abnormal == FailFastNames(reports)
    ensures preflight == PairwiseReports(reports)
    ensures hasFailFast == HasFailFast(reports)
  {
    abnormal, preflight, hasFailFast := {}, map[], false;
    var todo := reports.Keys;
    while todo != {}
      invariant todo <= reports.Keys
      invariant abnormal == set n | n in reports && n !in todo && reports[n].failFast :: reports[n].nodeName
      invariant preflight == map n | n in reports && n !in todo && !reports[n].failFast :: reports[n]
      invariant hasFailFast == exists n :: n in reports && n !in todo && reports[n].failFast
      decreases |todo|
    {
      var n :| n in todo;
      todo := todo - {n};
      var report := reports[n];
      if !report.failFast {
        preflight := preflight[n := report];
      } else {
        hasFailFast := true;
        abnormal := abnormal + {report.nodeName};
      }
    }
  }

  /** dedup holds each pair among the results seen, marked failed when either end reported a failure. */
  ghost predicate Folds(dedup: map<PairKey, bool>, seen: set<BatchResult>) {
    && (forall r :: r in seen ==> KeyOf(r) in dedup && (r.failed ==> dedup[KeyOf(r)]))
    && (forall k :: k in dedup ==> exists r :: r in seen && KeyOf(r) == k && (dedup[k] ==> r.failed))
  }

  method FoldPairs(reports: map<string, NodeReport>) returns (dedup: map<PairKey, bool>)
    ensures Folds(dedup, Results(reports))
  {
    dedup := map[];
    ghost var done: set<string> := {};
    var todo := reports.Keys;
    while todo != {}
      invariant todo <= reports.Keys && done == reports.Keys - todo
      invariant Folds(dedup, ResultsFrom(reports, done))
      decreases |todo|
    {
      var n :| n in todo;
      todo := todo - {n};
      dedup := FoldReport(dedup, reports[n].batchResults, ResultsFrom(reports, done));
      ResultsFromOneMore(reports, done, n);
      done := done + {n};
    }
    assert done == reports.Keys;
  }

  method FoldReport(before: map<PairKey, bool>, results: seq<BatchResult>, ghost seen: set<BatchResult>)
    returns (dedup: map<PairKey, bool>)
    requires Folds(before, seen)
    ensures Folds(dedup, seen + SetOf(results))
  {
    dedup := before;
    assert seen + SetOf(results[..0]) == seen;
    for i := 0 to |results|
      invariant Folds(dedup, seen + SetOf(results[..i]))
    {
      dedup := FoldOne(dedup, results[i], seen + SetOf(results[..i]));
      SetOfAppend(results, i);
      assert seen + SetOf(results[..i]) + {results[i]} == seen + SetOf(results[..i + 1]);
    }
    assert results[..|results|] == results;
  }

  method FoldOne(dedup: map<PairKey, bool>, r: BatchResult, ghost seen: set<BatchResult>)
    returns (dedup': map<PairKey, bool>)
    requires Folds(dedup, seen)
    ensures Folds(dedup', seen + {r})
  {
    var k := KeyOf(r);
    if r.failed {
      dedup' := dedup[k := true];
    } else if k !in dedup {
      dedup' := dedup[k := false];
    } else {
      dedup' := dedup;
    }
    ghost var seen' := seen + {r};
    assert r in seen';
    forall j | j in dedup' ensures exists s :: s in seen' && KeyOf(s) == j && (dedup'[j] ==> s.failed) {
      if j != k || (!r.failed && k in dedup) {
        var s :| s in seen && KeyOf(s) == j && (dedup[j] ==> s.failed);
        assert s in seen';
      }
    }
  }

  /** table lists, per batch, the endpoints of the given failed pairs. */
  ghost predicate Tabulates(table: map<int, set<string>>, pairs: set<PairKey>) {
    && (forall k :: k in pairs ==> k.batch in table && k.first in table[k.batch] && k.second in table[k.batch])
    && (forall b :: b in table ==> exists k :: k in pairs && k.batch == b)
    && (forall b, ip :: b in table && ip in table[b] ==>
          exists k :: k in pairs && k.batch == b && (k.first == ip || k.second == ip))
  }

  method TabulatePair(table: map<int, set<string>>, k: PairKey, ghost pairs: set<PairKey>)
    returns (table': map<int, set<string>>)
    requires Tabulates(table, pairs)
    ensures Tabulates(table', pairs + {k})
  {
    var nodeIPs := if k.batch in table then table[k.batch] else {};
    table' := table[k.batch := nodeIPs + {k.first, k.second}];
    ghost var pairs' := pairs + {k};
    assert k in pairs';
    forall b, ip | b in table' && ip in table'[b]
      ensures exists j :: j in pairs' && j.batch == b && (j.first == ip || j.second == ip)
    {
      if b in table && ip in table[b] {
        var j :| j in pairs && j.batch == b && (j.first == ip || j.second == ip);
        assert j in pairs';
      }
    }
    forall b | b in table' ensures exists j :: j in pairs' && j.batch == b {
      if b != k.batch {
        var j :| j in pairs && j.batch == b;
        assert j in pairs';
      }
    }
  }

  /** Batch b is in the table exactly when it has a failure, with exactly the IPs that fail in it. */
  ghost predicate RowMeans(results: set<BatchResult>, table: map<int, set<string>>, b: int) {
    && (b in table <==> b in FailedBatches(results))
    && (b in table ==> forall ip :: ip in table[b] <==> FailsIn(results, b, ip))
  }

  method FailedNodeIPsByBatch(reports: map<string, NodeReport>) returns (failedByBatch: map<int, set<string>>)
    ensures forall b :: RowMeans(Results(reports), failedByBatch, b)
  {
    var dedup := FoldPairs(reports);
    failedByBatch := map[];
    ghost var pairs: set<PairKey> := {};
    var todo := dedup.Keys;
    while todo != {}
      invariant todo <= dedup.Keys
      invariant forall k :: k in pairs <==> k in dedup && k !in todo && dedup[k]
      invariant Tabulates(failedByBatch, pairs)
      decreases |todo|
    {
      var k :| k in todo;
      todo := todo - {k};
      if dedup[k] {
        failedByBatch := TabulatePair(failedByBatch, k, pairs);
        pairs := pairs + {k};
      }
    }
    FailedPairs(dedup, Results(reports), pairs);
    forall b ensures RowMeans(Results(reports), failedByBatch, b) {
      TabulatedBatch(Results(reports), failedByBatch, pairs, b);
    }
  }

  ghost predicate FailedPairsOf(pairs: set<PairKey>, results: set<BatchResult>) {
    && (forall k :: k in pairs ==> exists r :: r in results && r.failed && KeyOf(r) == k)
    && (forall r :: r in results && r.failed ==> KeyOf(r) in pairs)
  }

  lemma FailedPairs(dedup: map<PairKey, bool>, results: set<BatchResult>, pairs: set<PairKey>)
    requires Folds(dedup, results)
    requires forall k :: k in pairs <==> k in dedup && dedup[k]
    ensures FailedPairsOf(pairs, results)
  {
  }

  lemma TabulatedBatch(results: set<BatchResult>, table: map<int, set<string>>, pairs: set<PairKey>, b: int)
    requires FailedPairsOf(pairs, results) && Tabulates(table, pairs)
    ensures RowMeans(results, table, b)
  {
    if b in table {
      var k :| k in pairs && k.batch == b;
      forall ip ensures ip in table[b] <==> FailsIn(results, b, ip) {
        TabulatedIP(results, table, pairs, b, ip);
      }
    }
  }

  lemma TabulatedIP(results: set<BatchResult>, table: map<int, set<string>>, pairs: set<PairKey>, b: int, ip: string)
    requires FailedPairsOf(pairs, results) && Tabulates(table, pairs) && b in table
    ensures ip in table[b] <==> FailsIn(results, b, ip)
  {
    if ip in table[b] {
      var j :| j in pairs && j.batch == b && (j.first == ip || j.second == ip);
      var r :| r in results && r.failed && KeyOf(r) == j;
    }
    if FailsIn(results, b, ip) {
      var r :| r in results && r.failed && r.batchIdx == b && (r.pairFirst == ip || r.pairSecond == ip);
      assert KeyOf(r) in pairs;
    }
  }

  ghost predicate InEveryBatch(failedByBatch: map<int, set<string>>, ip: string) {
    failedByBatch != map[] && forall b :: b in failedByBatch ==> ip in failedByBatch[b]
  }

  /** The names of the IPs that occur in every batch of the table. */
  ghost predicate NamesACommonIP(failedByBatch: map<int, set<string>>, names: map<string, string>, x: string) {
    exists ip :: ResolveNodeName(names, ip) == x && InEveryBatch(failedByBatch, ip)
  }

  /** The intersection over the sorted batches, shrunk in place and left early once empty. */
  method IntersectFailedNodeIPs(failedByBatch: map<int, set<string>>, names: map<string, string>)
    returns (result: seq<string>)
    ensures forall x :: x in result <==> NamesACommonIP(failedByBatch, names, x)
  {
    if |failedByBatch| == 0 {
      return [];
    }
    var batches := Base.SortedInts(failedByBatch.Keys);
    var intersection := failedByBatch[batches[0]];
    for i := 1 to |batches|
      invariant forall ip :: ip in intersection <==> InFirst(failedByBatch, batches, i, ip)
    {
      intersection := Retain(intersection, failedByBatch[batches[i]]);
      if |intersection| == 0 {
        forall ip ensures !InEveryBatch(failedByBatch, ip) {
          assert ip !in intersection;
          assert !InFirst(failedByBatch, batches, i + 1, ip);
        }
        return [];
      }
    }
    var ips := Base.Elements(intersection);
    result := [];
    for i := 0 to |ips|
      invariant forall x :: x in result <==> exists j :: 0 <= j < i && ResolveNodeName(names, ips[j]) == x
    {
      result := result + [ResolveNodeName(names, ips[i])];
    }
    forall ip ensures ip in ips <==> InEveryBatch(failedByBatch, ip) {
      assert ip in ips <==> ip in intersection;
      if ip in intersection {
        forall b | b in failedByBatch ensures ip in failedByBatch[b] {
          var j :| 0 <= j < |batches| && batches[j] == b;
        }
      }
    }
  }

  ghost predicate InFirst(failedByBatch: map<int, set<string>>, batches: seq<int>, i: nat, ip: string)
    requires i <= |batches| && forall j :: 0 <= j < |batches| ==> batches[j] in failedByBatch
  {
    forall j :: 0 <= j < i ==> ip in failedByBatch[batches[j]]
  }

  /** Deletes from s whatever is not in keep, element by element. */
  method Retain(s: set<string>, keep: set<string>) returns (r: set<string>)
    ensures r == s * keep
  {
    r := s;
    var todo := s;
    while todo != {}
      invariant todo <= s
      invariant r == set x | x in s && (x in todo || x in keep)
      decreases |todo|
    {
      var x :| x in todo;
      todo := todo - {x};
      if x !in keep {
        r := r - {x};
      }
    }
  }

  method NodeIPToName(reports: map<string, NodeReport>) returns (names: map<string, string>)
    ensures IsResolver(reports, names)
  {
    names := map[];
    var todo := reports.Keys;
    while todo != {}
      invariant todo <= reports.Keys
      invariant forall ip :: ip in names <==> ip != "" && exists n ::
          n in reports && n !in todo && reports[n].selfIP == ip
      invariant forall ip :: ip in names ==>
        exists n :: n in reports && n !in todo && reports[n].selfIP == ip && reports[n].nodeName == names[ip]
      decreases |todo|
    {
      var n :| n in todo;
      var todo' := todo - {n};
      var names' := if reports[n].selfIP == "" then names else names[reports[n].selfIP := reports[n].nodeName];
      forall ip | ip in names'
        ensures exists m :: m in reports && m !in todo' && reports[m].selfIP == ip && reports[m].nodeName == names'[ip]
      {
        if ip == reports[n].selfIP {
          assert n !in todo';
        } else {
          var m :| m in reports && m !in todo && reports[m].selfIP == ip && reports[m].nodeName == names[ip];
          assert m !in todo';
        }
      }
      todo, names := todo', names';
    }
  }

  ghost function BatchesOf(results: set<BatchResult>): set<int> {
    set r | r in results :: r.batchIdx
  }

  method ObservedBatchCount(reports: map<string, NodeReport>) returns (count: nat)
    ensures count == |BatchesOf(Results(reports))|
  {
    var observed: set<int> := {};
    ghost var done: set<string> := {};
    var todo := reports.Keys;
    while todo != {}
      invariant todo <= reports.Keys && done == reports.Keys - todo
      invariant observed == BatchesOf(ResultsFrom(reports, done))
      decreases |todo|
    {
      var n :| n in todo;
      todo := todo - {n};
      observed := ObserveReport(observed, reports[n].batchResults, ResultsFrom(reports, done));
      ResultsFromOneMore(reports, done, n);
      done := done + {n};
    }
    assert done == reports.Keys;
    count := |observed|;
  }

  method ObserveReport(before: set<int>, results: seq<BatchResult>, ghost seen: set<BatchResult>)
    returns (observed: set<int>)
    requires before == BatchesOf(seen)
    ensures observed == BatchesOf(seen + SetOf(results))
  {
    observed := before;
    for i := 0 to |results|
      invariant observed == before + BatchesOf(SetOf(results[..i]))
    {
      observed := observed + {results[i].batchIdx};
      SetOfAppend(results, i);
    }
    assert results[..|results|] == results;
  }

  predicate ShouldReturnNoSlowNodes(expected: int, observed: int, failed: int, hasFailFast: bool) {
    if hasFailFast || expected <= 0 then false
    else if observed >= expected && failed == 0 then true
    else failed < expected
  }

  /** merged adds to abnormal the names of the common IPs, under some possible table. */
  ghost predicate MergedUnder(
    merged: set<string>, abnormal: set<string>, failedByBatch: map<int, set<string>>, names: map<string, string>)
  {
    forall x :: x in merged <==> x in abnormal || NamesACommonIP(failedByBatch, names, x)
  }

  method MergePairwiseSlowNodes(abnormal: set<string>, reports: map<string, NodeReport>, failedByBatch: map<int,
      set<string>>)
    returns (merged: set<string>)
    ensures exists names :: IsResolver(reports, names) && MergedUnder(merged, abnormal, failedByBatch, names)
  {
    var names := NodeIPToName(reports);
    merged := abnormal;
    if |failedByBatch| == 0 {
      assert MergedUnder(merged, abnormal, failedByBatch, names);
      return;
    }
    var slow := IntersectFailedNodeIPs(failedByBatch, names);
    for i := 0 to |slow|
      invariant merged == abnormal + set x | x in slow[..i]
    {
      merged := merged + {slow[i]};
      assert slow[..i + 1] == slow[..i] + [slow[i]];
    }
    assert slow[..|slow|] == slow;
    assert MergedUnder(merged, abnormal, failedByBatch, names);
  }

  method DetectSlowNodes(reports: map<string, NodeReport>, expected: int) returns (slow: seq<string>)
    ensures IsVerdict(reports, expected, slow) && Base.InDictionaryOrder(slow)
  {
    var abnormal, preflight, hasFailFast := ClassifyNodeReports(reports);
    var failedByBatch := FailedNodeIPsByBatch(preflight);
    var observed := ObservedBatchCount(preflight);
    assert failedByBatch.Keys == FailedBatches(Results(preflight)) by {
      forall b ensures b in failedByBatch <==> b in FailedBatches(Results(preflight)) {
        assert RowMeans(Results(preflight), failedByBatch, b);
      }
    }
    assert |failedByBatch| == |failedByBatch.Keys|;
    if ShouldReturnNoSlowNodes(expected, observed, |failedByBatch|, hasFailFast) {
      ghost var names := NodeIPToName(reports);
      NoFailFastNoNames(reports);
      assert Verdict(reports, expected, names) == {};
      assert Base.IsSortedListOf([], {});
      return [];
    }
    ghost var failFast := abnormal;
    abnormal := MergePairwiseSlowNodes(abnormal, reports, failedByBatch);
    ghost var names :| IsResolver(reports, names) && MergedUnder(abnormal, failFast, failedByBatch, names);
    TableMeansCommon(Results(preflight), failedByBatch, names);
    assert abnormal == Verdict(reports, expected, names);
    slow := Base.SortedNames(abnormal);
  }

  lemma NoFailFastNoNames(reports: map<string, NodeReport>)
    ensures !HasFailFast(reports) ==> FailFastNames(reports) == {}
  {
  }

  lemma TableMeansCommon(results: set<BatchResult>, failedByBatch: map<int, set<string>>, names: map<string, string>)
    requires forall b :: RowMeans(results, failedByBatch, b)
    ensures forall x :: x in Resolved(names, CommonIPs(results)) <==> NamesACommonIP(failedByBatch, names, x)
  {
    assert failedByBatch.Keys == FailedBatches(results) by {
      forall b ensures b in failedByBatch <==> b in FailedBatches(results) {
        assert RowMeans(results, failedByBatch, b);
      }
    }
    assert failedByBatch == map[] <==> failedByBatch.Keys == {};
    forall ip ensures ip in CommonIPs(results) <==> InEveryBatch(failedByBatch, ip) {
      if InEveryBatch(failedByBatch, ip) {
        forall b | b in FailedBatches(results) ensures FailsIn(results, b, ip) {
          assert RowMeans(results, failedByBatch, b) && ip in failedByBatch[b];
        }
      } else if failedByBatch != map[] {
        var b :| b in failedByBatch && ip !in failedByBatch[b];
        assert RowMeans(results, failedByBatch, b);
      }
    }
  }
}

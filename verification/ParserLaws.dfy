/** What reading a report guarantees. */
module ParserLaws {
  import opened Base
  import opened Json
  import opened Preflight
  import opened ReportParser
  import Detection
  import VerdictLaws

  // ---- Which batch lists are accepted, and what they mean ----

  ghost predicate NoTwoFor(views: seq<ItemView>) {
    forall i, j :: 0 <= i < j < |views| && views[i].Batch? && views[j].Batch?
      ==> views[i].result.batchIdx != views[j].result.batchIdx
  }

  /** Accepted exactly when no entry is malformed and no index is taken twice; then each batch is under its index. */
  lemma {:induction false} CollectMeaning(views: seq<ItemView>)
    ensures Collect(views).Ok? <==> Malformed !in views && NoTwoFor(views)
    ensures Collect(views).Ok? ==>
      forall b, r :: b in Collect(views).value && Collect(views).value[b] == r <==> r.batchIdx == b && Batch(r) in views
  {
    if views == [] {
    } else {
      var n := |views| - 1;
      var front, last := views[..n], views[n];
      CollectMeaning(front);
      assert views == front + [last];
      if Collect(front).Ok? && last.Batch? {
        var m, b := Collect(front).value, last.result.batchIdx;
        if b in m {
          assert Batch(m[b]) in front;
          var i :| 0 <= i < n && front[i] == Batch(m[b]);
          assert views[i].Batch? && views[n].Batch?;
        } else {
          forall i | 0 <= i < n && front[i].Batch? ensures front[i].result.batchIdx != b {
            assert front[i] in front;
            assert Batch(front[i].result) in front;
          }
        }
      }
      if !NoTwoFor(front) {
        var i, j :| 0 <= i < j < n && front[i].Batch? && front[j].Batch?
            && front[i].result.batchIdx == front[j].result.batchIdx;
        assert views[i] == front[i] && views[j] == front[j];
      }
    }
  }

  // ---- Order of the entries ----

  lemma AddViewCommutes(r: Result<map<int, BatchResult>>, x: ItemView, y: ItemView)
    ensures AddView(AddView(r, x), y) == AddView(AddView(r, y), x)
  {
    if r.Ok? && x.Batch? && y.Batch? && x.result.batchIdx != y.result.batchIdx {
      assert r.value[x.result.batchIdx := x.result][y.result.batchIdx := y.result]
          == r.value[y.result.batchIdx := y.result][x.result.batchIdx := x.result];
    }
  }

  lemma {:induction false} CollectAppendPermutes(a: seq<ItemView>, x: ItemView, b: seq<ItemView>)
    ensures Collect(a + [x] + b) == Collect(a + b + [x])
    decreases |b|
  {
    if b == [] {
      assert a + [x] + b == a + b + [x];
    } else {
      var n := |b| - 1;
      var b', y := b[..n], b[n];
      CollectAppendPermutes(a, x, b');
      assert a + [x] + b == (a + [x] + b') + [y];
      assert a + b == (a + b') + [y];
      CollectLast(a + [x] + b', y);
      CollectLast(a + b', x);
      CollectLast(a + b', y);
      CollectLast(a + b, x);
      AddViewCommutes(Collect(a + b'), x, y);
    }
  }

  lemma {:induction false} CollectPermutes(s: seq<ItemView>, t: seq<ItemView>)
    requires multiset(s) == multiset(t)
    ensures Collect(s) == Collect(t)
    decreases |s|
  {
    assert |s| == |multiset(s)| && |t| == |multiset(t)|;
    if s == [] {
    } else {
      var n := |s| - 1;
      var x := s[n];
      assert s == s[..n] + [x];
      assert x in multiset(t);
      var i :| 0 <= i < |t| && t[i] == x;
      var a, b := t[..i], t[i + 1..];
      assert t == a + [x] + b;
      assert multiset(a + b) == multiset(t) - multiset{x};
      assert multiset(s[..n]) == multiset(s) - multiset{x};
      CollectPermutes(s[..n], a + b);
      CollectLast(s[..n], x);
      CollectLast(a + b, x);
      CollectAppendPermutes(a, x, b);
    }
  }

  lemma ViewsAround(lib: Lib, a: seq<Json>, x: Json, b: seq<Json>, ip: string, n: int, threshold: real)
    ensures Views(lib, a + [x] + b, ip, n, threshold)
         == Views(lib, a, ip, n, threshold) + [ViewItem(lib, x, ip, n, threshold)] + Views(lib, b, ip, n, threshold)
    ensures Views(lib, a + b, ip, n, threshold) == Views(lib, a, ip, n, threshold) + Views(lib, b, ip, n, threshold)
  {
  }

  lemma MultisetAround<T>(a: seq<T>, x: T, b: seq<T>)
    ensures multiset(a + [x] + b) == multiset(a + b) + multiset{x}
  {
  }

  lemma ViewsMultiset(lib: Lib, a: seq<Json>, x: Json, b: seq<Json>, ip: string, n: int, threshold: real)
    ensures multiset(Views(lib, a + [x] + b, ip, n, threshold))
         == multiset(Views(lib, a + b, ip, n, threshold)) + multiset{ViewItem(lib, x, ip, n, threshold)}
  {
    ViewsAround(lib, a, x, b, ip, n, threshold);
    MultisetAround(Views(lib, a, ip, n, threshold), ViewItem(lib, x, ip, n, threshold),
        Views(lib, b, ip, n, threshold));
  }

  /** Where the first element of s sits in a permutation of s. */
  lemma FindFirst<T>(s: seq<T>, t: seq<T>) returns (before: seq<T>, after: seq<T>)
    requires s != [] && multiset(s) == multiset(t)
    ensures t == before + [s[0]] + after
    ensures multiset(s[1..]) == multiset(before + after)
  {
    assert s == [] + [s[0]] + s[1..];
    assert s[0] in multiset(t);
    var i :| 0 <= i < |t| && t[i] == s[0];
    before, after := t[..i], t[i + 1..];
    assert t == before + [s[0]] + after;
    MultisetAround([], s[0], s[1..]);
    MultisetAround(before, s[0], after);
    assert [] + s[1..] == s[1..];
    assert multiset(s[1..]) == multiset(s) - multiset{s[0]};
    assert multiset(before + after) == multiset(t) - multiset{s[0]};
  }

  lemma {:induction false} ViewsPermute(lib: Lib, s: seq<Json>, t: seq<Json>, ip: string, n: int, threshold: real)
    requires multiset(s) == multiset(t)
    ensures multiset(Views(lib, s, ip, n, threshold)) == multiset(Views(lib, t, ip, n, threshold))
    decreases |s|
  {
    if s == [] {
      assert |multiset(t)| == |t|;
    } else {
      var before, after := FindFirst(s, t);
      ViewsPermute(lib, s[1..], before + after, ip, n, threshold);
      ViewsMultiset(lib, before, s[0], after, ip, n, threshold);
      ViewsMultiset(lib, [], s[0], s[1..], ip, n, threshold);
      assert [] + [s[0]] + s[1..] == s && [] + s[1..] == s[1..];
    }
  }

  /** The document with its batch list replaced. */
  function WithBatches(fields: map<string, Json>, items: seq<Json>): Option<Json> {
    Some(Obj(fields["batches" := Arr(items)]))
  }

  /** How many batches the document's plan has; zero when there is no plan. */
  function PlannedBatches(doc: Option<Json>): nat {
    match ParseReport(doc)
    case Err => 0
    case Ok(report) => match BuildWorkloadPlan(report.workloadSize) case Err => 0 case Ok(plan) => plan.batchCount
  }

  ghost predicate CollectAlikeFor(lib: Lib, s: seq<Json>, t: seq<Json>, n: nat) {
    forall ip, threshold ::
      CollectOrdered(Views(lib, s, ip, n, threshold), n) == CollectOrdered(Views(lib, t, ip, n, threshold), n)
  }

  /** The batch list only enters through its collected views. */
  lemma SameOutsideBatches(lib: Lib, fields: map<string, Json>, s: seq<Json>, t: seq<Json>)
    requires CollectAlikeFor(lib, s, t, PlannedBatches(WithBatches(fields, s)))
    ensures ExtractedFrom(lib, WithBatches(fields, s)) == ExtractedFrom(lib, WithBatches(fields, t))
  {
    SameMembers(fields, s, t);
    var a, b := WithBatches(fields, s).value.fields, WithBatches(fields, t).value.fields;
    var parsed := ParseReport(WithBatches(fields, s));
    if parsed.Ok? && BuildWorkloadPlan(parsed.value.workloadSize).Ok? {
      var ip, n := parsed.value.nodeIP, BuildWorkloadPlan(parsed.value.workloadSize).value.batchCount;
      assert ReadBatches(lib, a, ip, n) == ReadBatches(lib, b, ip, n) by {
        assert BatchItems(a) == s && BatchItems(b) == t;
        assert ExtractBusBWThreshold(lib, a) == ExtractBusBWThreshold(lib, b);
      }
    }
  }

  lemma SameMembers(fields: map<string, Json>, s: seq<Json>, t: seq<Json>)
    ensures ParseReport(WithBatches(fields, s)) == ParseReport(WithBatches(fields, t))
    ensures Field(WithBatches(fields, s).value.fields, "node_check_busbw_threshold_gbps")
         == Field(WithBatches(fields, t).value.fields, "node_check_busbw_threshold_gbps")
  {
  }

  /** Reordering the batch list of a document changes nothing, not even whether it is accepted. */
  lemma BatchOrderIsIrrelevant(lib: Lib, fields: map<string, Json>, s: seq<Json>, t: seq<Json>)
    requires multiset(s) == multiset(t)
    ensures ExtractedFrom(lib, WithBatches(fields, s)) == ExtractedFrom(lib, WithBatches(fields, t))
  {
    var n := PlannedBatches(WithBatches(fields, s));
    forall ip, threshold
      ensures CollectOrdered(Views(lib, s, ip, n, threshold), n) == CollectOrdered(Views(lib, t, ip, n, threshold), n)
    {
      ViewsPermute(lib, s, t, ip, n, threshold);
      CollectPermutes(Views(lib, s, ip, n, threshold), Views(lib, t, ip, n, threshold));
    }
    SameOutsideBatches(lib, fields, s, t);
  }

  /** An entry for a batch past the plan may be inserted anywhere, whatever else it holds. */
  lemma BatchesPastThePlanAreIgnored(lib: Lib, fields: map<string, Json>, a: seq<Json>, extra: map<string, Json>,
      b: seq<Json>)
    requires var idx := IntField(lib, FieldsOf(extra).batchIdx);
             idx.Ok? && idx.value >= PlannedBatches(WithBatches(fields, a + b))
    ensures ExtractedFrom(lib, WithBatches(fields, a + b))
        == ExtractedFrom(lib, WithBatches(fields, a + [Obj(extra)] + b))
  {
    var n := PlannedBatches(WithBatches(fields, a + b));
    forall ip, threshold
      ensures CollectOrdered(Views(lib, a + b, ip, n, threshold), n)
           == CollectOrdered(Views(lib, a + [Obj(extra)] + b, ip, n, threshold), n)
    {
      var before, after := Views(lib, a, ip, n, threshold), Views(lib, b, ip, n, threshold);
      assert ViewItem(lib, Obj(extra), ip, n, threshold) == Ignored;
      ViewsAround(lib, a, Obj(extra), b, ip, n, threshold);
      CollectAppendPermutes(before, Ignored, after);
      CollectLast(before + after, Ignored);
    }
    SameOutsideBatches(lib, fields, a + b, a + [Obj(extra)] + b);
  }

  // ---- What an accepted report looks like ----

  /** Indices strictly ascend within the plan, and the reporter is one end of each pair. */
  ghost predicate WellFormedResults(results: seq<BatchResult>, n: int) {
    && (forall i :: 0 <= i < |results| ==> 0 <= results[i].batchIdx < n)
    && (forall i, j :: 0 <= i < j < |results| ==> results[i].batchIdx < results[j].batchIdx)
    && (forall i :: 0 <= i < |results| ==>
        results[i].selfIP == results[i].pairFirst || results[i].selfIP == results[i].pairSecond)
  }

  lemma {:induction false} OrderedHolds(m: map<int, BatchResult>, n: nat)
    ensures forall r :: r in OrderedBelow(m, n) <==> exists b :: 0 <= b < n && b in m && m[b] == r
  {
    if n == 0 {
    } else {
      OrderedHolds(m, n - 1);
      assert OrderedBelow(m, n) == OrderedBelow(m, n - 1) + (if n - 1 in m then [m[n - 1]] else []);
    }
  }

  lemma {:induction false} OrderedIsWellFormed(m: map<int, BatchResult>, n: nat)
    requires forall b :: b in m ==>
        m[b].batchIdx == b && (m[b].selfIP == m[b].pairFirst || m[b].selfIP == m[b].pairSecond)
    ensures WellFormedResults(OrderedBelow(m, n), n)
  {
    if n == 0 {
    } else {
      OrderedIsWellFormed(m, n - 1);
      assert OrderedBelow(m, n) == OrderedBelow(m, n - 1) + (if n - 1 in m then [m[n - 1]] else []);
    }
  }

  lemma {:induction false} CollectKeeps(views: seq<ItemView>)
    requires forall i :: 0 <= i < |views| && views[i].Batch? ==>
               views[i].result.selfIP == views[i].result.pairFirst
                   || views[i].result.selfIP == views[i].result.pairSecond
    ensures Collect(views).Ok? ==> forall b :: b in Collect(views).value ==>
               var r := Collect(views).value[b]; r.selfIP == r.pairFirst || r.selfIP == r.pairSecond
  {
    if views == [] {
    } else {
      CollectKeeps(views[..|views| - 1]);
    }
  }

  lemma ExtractedIsWellFormed(lib: Lib, doc: Option<Json>)
    requires ExtractedFrom(lib, doc).Ok?
    ensures var e := ExtractedFrom(lib, doc).value;
      && ValidPlan(e.plan) && e.plan.reportCount == e.report.workloadSize && e.report.nodeName != ""
      && WellFormedResults(e.results, e.plan.batchCount)
  {
    var e := ExtractedFrom(lib, doc).value;
    if !e.report.FailsFast() {
      var payload := doc.value.fields;
      var threshold := ExtractBusBWThreshold(lib, payload).value;
      var views := Views(lib, BatchItems(payload), e.report.nodeIP, e.plan.batchCount, threshold);
      CollectKeeps(views);
      OrderedIsWellFormed(Collect(views).value, e.plan.batchCount);
    }
  }

  // ---- Reports with missing batches ----

  predicate EntryFor(lib: Lib, item: Json, b: int) {
    item.Obj? && IntField(lib, FieldsOf(item.fields).batchIdx) == Ok(b)
  }

  /** The list holds an entry for batch b. */
  ghost predicate Covers(lib: Lib, items: seq<Json>, b: int) {
    exists j :: 0 <= j < |items| && EntryFor(lib, items[j], b)
  }

  lemma KeptIffCovered(lib: Lib, items: seq<Json>, ip: string, n: int, threshold: real, b: int)
    requires Collect(Views(lib, items, ip, n, threshold)).Ok? && 0 <= b < n
    ensures b in Collect(Views(lib, items, ip, n, threshold)).value <==> Covers(lib, items, b)
  {
    var views := Views(lib, items, ip, n, threshold);
    var m := Collect(views).value;
    CollectMeaning(views);
    if b in m {
      assert Batch(m[b]) in views;
      var j :| 0 <= j < |views| && views[j] == Batch(m[b]);
      ViewIndex(lib, items[j], ip, n, threshold);
      assert EntryFor(lib, items[j], b);
    }
    if Covers(lib, items, b) {
      var j :| 0 <= j < |items| && EntryFor(lib, items[j], b);
      ViewIndex(lib, items[j], ip, n, threshold);
      assert views[j] in views;
      assert views[j].Batch? && Batch(views[j].result) in views;
    }
  }

  lemma ViewIndex(lib: Lib, item: Json, ip: string, n: int, threshold: real)
    ensures var v := ViewItem(lib, item, ip, n, threshold);
      && (v.Batch? ==> EntryFor(lib, item, v.result.batchIdx))
      && (v == Ignored ==> forall b :: b < n ==> !EntryFor(lib, item, b))
  {
  }

  lemma {:induction false} OrderedLength(m: map<int, BatchResult>, n: nat)
    ensures |OrderedBelow(m, n)| <= n
    ensures |OrderedBelow(m, n)| == n <==> forall b :: 0 <= b < n ==> b in m
  {
    if n == 0 {
    } else {
      OrderedLength(m, n - 1);
    }
  }

  /** An accepted report has all planned results exactly when its list has an entry for every planned batch. */
  lemma CompleteIffCovered(lib: Lib, doc: Option<Json>)
    requires ExtractedFrom(lib, doc).Ok? && !ExtractedFrom(lib, doc).value.report.FailsFast()
    ensures var e := ExtractedFrom(lib, doc).value;
      |e.results| == e.plan.batchCount <==>
      forall b :: 0 <= b < e.plan.batchCount ==> Covers(lib, BatchItems(doc.value.fields), b)
  {
    var e, items := ExtractedFrom(lib, doc).value, BatchItems(doc.value.fields);
    var n, threshold := e.plan.batchCount, ExtractBusBWThreshold(lib, doc.value.fields).value;
    var m := Collect(Views(lib, items, e.report.nodeIP, n, threshold)).value;
    OrderedLength(m, n);
    forall b | 0 <= b < n ensures b in m <==> Covers(lib, items, b) {
      KeptIffCovered(lib, items, e.report.nodeIP, n, threshold, b);
    }
  }

  lemma ResultsAreCovered(lib: Lib, doc: Option<Json>, r: BatchResult)
    requires ExtractedFrom(lib, doc).Ok? && r in ExtractedFrom(lib, doc).value.results
    ensures Covers(lib, BatchItems(doc.value.fields), r.batchIdx)
  {
    var e, items := ExtractedFrom(lib, doc).value, BatchItems(doc.value.fields);
    var n, threshold := e.plan.batchCount, ExtractBusBWThreshold(lib, doc.value.fields).value;
    var m := Collect(Views(lib, items, e.report.nodeIP, n, threshold)).value;
    OrderedHolds(m, n);
    var b :| 0 <= b < n && b in m && m[b] == r;
    KeptIffCovered(lib, items, e.report.nodeIP, n, threshold, b);
  }

  /** If no report has an entry for some planned batch, and none fails fast, nobody is named. */
  lemma MissingBatchNamesNobody(
    lib: Lib, docs: map<string, Option<Json>>, expected: nat, b: int, slow: seq<string>)
    requires forall n :: n in docs ==>
        ExtractedFrom(lib, docs[n]).Ok? && ExtractedFrom(lib, docs[n]).value.plan.batchCount == expected
    requires !Detection.HasFailFast(ReportsRead(lib, docs)) && 0 <= b < expected
    requires forall n :: n in docs ==> !Covers(lib, BatchItems(docs[n].value.fields), b)
    requires Detection.IsVerdict(ReportsRead(lib, docs), expected, slow)
    ensures slow == []
  {
    var reports := ReportsRead(lib, docs);
    forall r | r in VerdictLaws.PairResults(reports) ensures r.batchIdx != b {
      var n :| n in Detection.PairwiseReports(reports) && r in reports[n].batchResults;
      ResultsAreCovered(lib, docs[n], r);
    }
    ReadIndexesBelow(lib, docs, expected);
    VerdictLaws.UncoveredBatchNamesNobody(reports, expected, b, slow);
  }

  // ---- Comparing two readings entry by entry ----

  ghost predicate Alike(a: ItemView, b: ItemView, rel: (BatchResult, BatchResult) -> bool) {
    match (a, b)
    case (Batch(r), Batch(s)) => r.batchIdx == s.batchIdx && rel(r, s)
    case _ => a == b
  }

  lemma {:induction false} CollectAlike(s: seq<ItemView>, t: seq<ItemView>, rel: (BatchResult, BatchResult) -> bool)
    requires |s| == |t| && forall i :: 0 <= i < |s| ==> Alike(s[i], t[i], rel)
    ensures Collect(s).Ok? <==> Collect(t).Ok?
    ensures Collect(s).Ok? ==> Collect(s).value.Keys == Collect(t).value.Keys
    ensures Collect(s).Ok? ==> forall b :: b in Collect(s).value ==> rel(Collect(s).value[b], Collect(t).value[b])
  {
    if s == [] {
    } else {
      var n := |s| - 1;
      assert Alike(s[n], t[n], rel);
      CollectAlike(s[..n], t[..n], rel);
    }
  }

  lemma {:induction false} OrderedAlike(a: map<int, BatchResult>, b: map<int, BatchResult>, n: nat,
      rel: (BatchResult, BatchResult) -> bool)
    requires a.Keys == b.Keys && forall k :: k in a ==> rel(a[k], b[k])
    ensures |OrderedBelow(a, n)| == |OrderedBelow(b, n)|
    ensures forall i :: 0 <= i < |OrderedBelow(a, n)| ==> rel(OrderedBelow(a, n)[i], OrderedBelow(b, n)[i])
  {
    if n == 0 {
    } else {
      OrderedAlike(a, b, n - 1, rel);
      assert n - 1 in a.Keys <==> n - 1 in b.Keys;
    }
  }

  // ---- Swapping the two ends of a pair ----

  /** The entry with the two ends of its pair exchanged, when it has a pair. */
  function SwapEnds(item: Json): Json {
    if item.Obj? && "pair" in item.fields && item.fields["pair"].Arr? && |item.fields["pair"].items| == 2
    then
      var ends := item.fields["pair"].items;
      Obj(item.fields["pair" := Arr([ends[1], ends[0]])])
    else item
  }

  lemma SwapView(lib: Lib, item: Json, ip: string, n: int, threshold: real)
    ensures Alike(ViewItem(lib, item, ip, n, threshold), ViewItem(lib, SwapEnds(item), ip, n, threshold),
        VerdictLaws.SameUpToSwap)
  {
    if SwapEnds(item) != item {
      var f, g := FieldsOf(item.fields), FieldsOf(SwapEnds(item).fields);
      assert g == f.(pair := g.pair);
      SwapResult(lib, f, g, ip, n, threshold);
    }
  }

  predicate SwappedPair(p: (string, string), q: (string, string)) {
    q == p || q == (p.1, p.0)
  }

  lemma SwappedIdentity(lib: Lib, f: BatchFields, g: BatchFields, ip: string)
    requires f.pair.Some? && f.pair.value.Arr? && |f.pair.value.items| == 2
    requires g == f.(pair := Some(Arr([f.pair.value.items[1], f.pair.value.items[0]])))
    ensures var p, q := PairField(lib, f.pair), PairField(lib, g.pair);
      && (p.Some? <==> q.Some?)
      && (p.Some? ==> SwappedPair(p.value, q.value) && BatchSelfIP(f, ip, p.value) == BatchSelfIP(g, ip, q.value))
  {
  }

  lemma SwapResult(lib: Lib, f: BatchFields, g: BatchFields, ip: string, n: int, threshold: real)
    requires f.pair.Some? && f.pair.value.Arr? && |f.pair.value.items| == 2
    requires g == f.(pair := Some(Arr([f.pair.value.items[1], f.pair.value.items[0]])))
    ensures var a, b := ExtractBatchResult(lib, f, ip, n, threshold), ExtractBatchResult(lib, g, ip, n, threshold);
            (a.Ok? <==> b.Ok?) && (a.Ok? ==> VerdictLaws.SameUpToSwap(a.value, b.value))
  {
    assert BatchFailed(lib, f, threshold) == BatchFailed(lib, g, threshold);
    SwappedIdentity(lib, f, g, ip);
  }

  function PairOf(a: string, b: string): Option<Json> {
    Some(Arr([Str(a), Str(b)]))
  }

  /**
   * The two ends report their pair in the same order, and so fold into one pair, unless the texts are
   * two spellings of one address: those are kept in the order given.
   */
  lemma PairReadsAlikeIff(lib: Lib, a: string, b: string)
    requires a != "" && b != ""
    ensures PairField(lib, PairOf(a, b)) == PairField(lib, PairOf(b, a))
            <==> a == b || lib.parseAddr(a) != lib.parseAddr(b) || lib.parseAddr(a).None?
  {
    StrLeTotal(a, b);
    var x, y := lib.parseAddr(a), lib.parseAddr(b);
    if x.Some? && y.Some? {
      StrLeTotal(x.value.zone, y.value.zone);
    }
  }

  ghost predicate ResultsUpToSwap(s: seq<BatchResult>, t: seq<BatchResult>) {
    |s| == |t| && forall i :: 0 <= i < |s| ==> VerdictLaws.SameUpToSwap(s[i], t[i])
  }

  /** Exchanging pair ends keeps acceptance, and the results up to the order of the two ends. */
  lemma SwappedPairsReadAlike(lib: Lib, fields: map<string, Json>, s: seq<Json>, t: seq<Json>)
    requires |s| == |t| && forall i :: 0 <= i < |s| ==> t[i] == s[i] || t[i] == SwapEnds(s[i])
    ensures var a, b := ExtractedFrom(lib, WithBatches(fields, s)), ExtractedFrom(lib, WithBatches(fields, t));
      && (a.Ok? <==> b.Ok?)
      && (a.Ok? ==>
          a.value.report == b.value.report && a.value.plan == b.value.plan
          && ResultsUpToSwap(a.value.results, b.value.results))
  {
    SameMembers(fields, s, t);
    var a, b := WithBatches(fields, s).value.fields, WithBatches(fields, t).value.fields;
    var parsed := ParseReport(WithBatches(fields, s));
    if parsed.Ok? && BuildWorkloadPlan(parsed.value.workloadSize).Ok? {
      var ip, n := parsed.value.nodeIP, BuildWorkloadPlan(parsed.value.workloadSize).value.batchCount;
      assert BatchItems(a) == s && BatchItems(b) == t;
      assert ExtractBusBWThreshold(lib, a) == ExtractBusBWThreshold(lib, b);
      if ExtractBusBWThreshold(lib, a).Ok? {
        SwappedViews(lib, s, t, ip, n, ExtractBusBWThreshold(lib, a).value);
      }
    }
  }

  lemma SwappedViews(lib: Lib, s: seq<Json>, t: seq<Json>, ip: string, n: nat, threshold: real)
    requires |s| == |t| && forall i :: 0 <= i < |s| ==> t[i] == s[i] || t[i] == SwapEnds(s[i])
    ensures var a, b := CollectOrdered(Views(lib, s, ip, n, threshold), n),
        CollectOrdered(Views(lib, t, ip, n, threshold), n);
            (a.Ok? <==> b.Ok?) && (a.Ok? ==> ResultsUpToSwap(a.value, b.value))
  {
    var u, v := Views(lib, s, ip, n, threshold), Views(lib, t, ip, n, threshold);
    forall i | 0 <= i < |u| ensures Alike(u[i], v[i], VerdictLaws.SameUpToSwap) {
      SwapView(lib, s[i], ip, n, threshold);
    }
    CollectAlike(u, v, VerdictLaws.SameUpToSwap);
    if Collect(u).Ok? {
      OrderedAlike(Collect(u).value, Collect(v).value, n, VerdictLaws.SameUpToSwap);
    }
  }

  lemma ReplacedUpToSwap(others: map<string, NodeReport>, n: string, x: NodeReport, y: NodeReport)
    requires x == y.(batchResults := x.batchResults) && ResultsUpToSwap(x.batchResults, y.batchResults)
    ensures VerdictLaws.SameReportsUpToSwap(others[n := x], others[n := y])
  {
  }

  /** Hence the verdict is the same when the exchanged report is used among others. */
  lemma SwappedPairsGiveSameVerdict(
    lib: Lib, fields: map<string, Json>, s: seq<Json>, t: seq<Json>,
    others: map<string, NodeReport>, n: string, expected: int, slow: seq<string>)
    requires |s| == |t| && forall i :: 0 <= i < |s| ==> t[i] == s[i] || t[i] == SwapEnds(s[i])
    requires ExtractedFrom(lib, WithBatches(fields, s)).Ok?
    ensures ExtractedFrom(lib, WithBatches(fields, t)).Ok?
    ensures var e, f := ExtractedFrom(lib, WithBatches(fields, s)).value,
        ExtractedFrom(lib, WithBatches(fields, t)).value;
            Detection.IsVerdict(others[n := NodeReportOf(e.report, e.results)], expected, slow)
            <==> Detection.IsVerdict(others[n := NodeReportOf(f.report, f.results)], expected, slow)
  {
    SwappedPairsReadAlike(lib, fields, s, t);
    var e, f := ExtractedFrom(lib, WithBatches(fields, s)).value, ExtractedFrom(lib, WithBatches(fields, t)).value;
    var x, y := NodeReportOf(e.report, e.results), NodeReportOf(f.report, f.results);
    ReplacedUpToSwap(others, n, x, y);
    VerdictLaws.SwapKeepsVerdict(others[n := x], others[n := y], expected, slow);
  }

  // ---- Bus bandwidth and its threshold ----

  /** Bus bandwidth is at least the algorithm bandwidth but below twice it, and falls as time grows. */
  lemma BusBWBounds(ms: real, later: real, shape: int, bytes: int, world: int)
    requires 0.0 < ms && shape > 0 && bytes > 0 && world >= 2
    ensures AlgorithmBW(ms, shape, bytes) <= CalculateBusBW(ms, shape, bytes, world)
    ensures CalculateBusBW(ms, shape, bytes, world) < 2.0 * AlgorithmBW(ms, shape, bytes)
    ensures later > ms ==> CalculateBusBW(later, shape, bytes, world) < CalculateBusBW(ms, shape, bytes, world)
  {
    AlgorithmBWFalls(ms, ms, shape, bytes);
    BusFactor(AlgorithmBW(ms, shape, bytes), world);
    if later > ms {
      AlgorithmBWFalls(ms, later, shape, bytes);
      BusFactorGrows(AlgorithmBW(later, shape, bytes), AlgorithmBW(ms, shape, bytes), (world - 1) as real,
          world as real);
    }
  }

  lemma BusFactorGrows(slow: real, fast: real, v: real, w: real)
    requires slow < fast && 0.0 < v && 0.0 < w
    ensures slow * 2.0 * v / w < fast * 2.0 * v / w
  {
  }

  lemma AlgorithmBWFalls(ms: real, later: real, shape: int, bytes: int)
    requires 0.0 < ms <= later && shape > 0 && bytes > 0
    ensures AlgorithmBW(ms, shape, bytes) > 0.0
    ensures ms < later ==> AlgorithmBW(later, shape, bytes) < AlgorithmBW(ms, shape, bytes)
  {
  }

  lemma BusFactor(algo: real, world: int)
    requires algo > 0.0 && world >= 2
    ensures algo <= algo * 2.0 * (world - 1) as real / world as real < 2.0 * algo
    ensures algo * 2.0 * (world - 1) as real / world as real > 0.0
  {
  }

  /** The fields a bandwidth check reads are all there and positive, for at least two processes. */
  predicate Measured(lib: Lib, batch: BatchFields, ms: real, shape: int, bytes: int, world: int) {
    && FloatField(lib, batch.allreduceMS) == Ok(ms) && ms > 0.0
    && IntField(lib, batch.allreduceShape) == Ok(shape) && shape > 0
    && IntField(lib, batch.dtypeBytes) == Ok(bytes) && bytes > 0
    && IntField(lib, batch.worldSize) == Ok(world) && world >= 2
  }

  /** A measured batch with no bad status fails exactly when it took longer than the threshold allows. */
  lemma FailsWhenTooSlow(lib: Lib, batch: BatchFields, threshold: real, ms: real, shape: int, bytes: int, world: int)
    requires threshold >= 0.0 && Measured(lib, batch, ms, shape, bytes, world)
    requires !EqualFold(Status(batch), "fail") && !EqualFold(Status(batch), "skip")
    ensures BatchFailed(lib, batch, threshold)
         == Ok(ms * threshold * world as real > (shape * bytes) as real / 1073741824.0 * 2000.0 * (world - 1) as real)
  {
  }

  lemma HigherThresholdFailsMore(lib: Lib, item: Json, ip: string, n: int, low: real, high: real)
    requires 0.0 <= low <= high
    ensures var a, b := ViewItem(lib, item, ip, n, low), ViewItem(lib, item, ip, n, high);
            a != Malformed && b != Malformed ==> Alike(a, b, FailsMore)
  {
  }

  /** The same report read with a threshold that is at least as high. */
  ghost predicate RaisesThreshold(lib: Lib, low: Option<Json>, high: Option<Json>) {
    && ExtractedFrom(lib, low).Ok? && ExtractedFrom(lib, high).Ok?
    && low.value.fields - {"node_check_busbw_threshold_gbps"} == high.value.fields - {"node_check_busbw_threshold_gbps"}
    && (ExtractBusBWThreshold(lib, low.value.fields).Ok? && ExtractBusBWThreshold(lib, high.value.fields).Ok? ==>
          ExtractBusBWThreshold(lib, low.value.fields).value <= ExtractBusBWThreshold(lib, high.value.fields).value)
  }

  lemma {:induction false} CollectOkNoMalformed(views: seq<ItemView>, i: nat)
    requires Collect(views).Ok? && i < |views|
    ensures views[i] != Malformed
  {
    if i < |views| - 1 {
      CollectOkNoMalformed(views[..|views| - 1], i);
    }
  }

  lemma RaisedThresholdFailsMore(lib: Lib, low: Option<Json>, high: Option<Json>)
    requires RaisesThreshold(lib, low, high)
    ensures var e, f := ExtractedFrom(lib, low).value, ExtractedFrom(lib, high).value;
            e.report == f.report && e.plan == f.plan && AllFailMore(e.results, f.results)
  {
    var a, b := low.value.fields, high.value.fields;
    SameOutsideThreshold(a, b);
    var e, f := ExtractedFrom(lib, low).value, ExtractedFrom(lib, high).value;
    assert e.report == f.report;
    if !e.report.FailsFast() {
      var x, y := ExtractBusBWThreshold(lib, a).value, ExtractBusBWThreshold(lib, b).value;
      RaisedBatches(lib, BatchItems(a), e.report.nodeIP, e.plan.batchCount, x, y);
    }
  }

  lemma SameOutsideThreshold(a: map<string, Json>, b: map<string, Json>)
    requires a - {"node_check_busbw_threshold_gbps"} == b - {"node_check_busbw_threshold_gbps"}
    ensures MembersOf(a) == MembersOf(b) && BatchItems(a) == BatchItems(b)
  {
    forall name | name != "node_check_busbw_threshold_gbps" ensures Field(a, name) == Field(b, name) {
      assert name in a <==> name in a - {"node_check_busbw_threshold_gbps"};
      assert name in b <==> name in b - {"node_check_busbw_threshold_gbps"};
      if name in a {
        assert (a - {"node_check_busbw_threshold_gbps"})[name] == a[name];
      }
    }
  }

  lemma RaisedBatches(lib: Lib, items: seq<Json>, ip: string, n: nat, low: real, high: real)
    requires 0.0 <= low <= high
    requires CollectOrdered(Views(lib, items, ip, n, low), n).Ok?
        && CollectOrdered(Views(lib, items, ip, n, high), n).Ok?
    ensures AllFailMore(CollectOrdered(Views(lib, items, ip, n, low), n).value,
        CollectOrdered(Views(lib, items, ip, n, high), n).value)
  {
    var u, v := Views(lib, items, ip, n, low), Views(lib, items, ip, n, high);
    forall i | 0 <= i < |u| ensures Alike(u[i], v[i], FailsMore) {
      CollectOkNoMalformed(u, i);
      CollectOkNoMalformed(v, i);
      HigherThresholdFailsMore(lib, items[i], ip, n, low, high);
    }
    CollectAlike(u, v, FailsMore);
    OrderedAlike(Collect(u).value, Collect(v).value, n, FailsMore);
  }

  /** The reports the aggregator holds after reading one document per node. */
  ghost function ReportsRead(lib: Lib, docs: map<string, Option<Json>>): map<string, NodeReport>
    requires forall n :: n in docs ==> ExtractedFrom(lib, docs[n]).Ok?
  {
    map n | n in docs :: NodeReportOf(ExtractedFrom(lib, docs[n]).value.report,
        ExtractedFrom(lib, docs[n]).value.results)
  }

  /** Raising thresholds never removes a node from the verdict, when no node fails fast. */
  lemma HigherThresholdsNameMore(
    lib: Lib, low: map<string, Option<Json>>, high: map<string, Option<Json>>, expected: nat,
    names: map<string, string>)
    requires low.Keys == high.Keys
    requires forall n :: n in low ==> ExtractedFrom(lib, low[n]).Ok? && ExtractedFrom(lib, high[n]).Ok?
    requires forall n :: n in low ==> RaisesThreshold(lib, low[n], high[n])
    requires expected > 0 && forall n :: n in low ==> ExtractedFrom(lib, low[n]).value.plan.batchCount == expected
    requires !Detection.HasFailFast(ReportsRead(lib, low))
    ensures Detection.Verdict(ReportsRead(lib, low), expected, names)
         <= Detection.Verdict(ReportsRead(lib, high), expected, names)
    ensures Detection.IsResolver(ReportsRead(lib, low), names) <==> Detection.IsResolver(ReportsRead(lib, high), names)
  {
    var a, b := ReportsRead(lib, low), ReportsRead(lib, high);
    forall n | n in low
      ensures a[n] == b[n].(batchResults := a[n].batchResults) && AllFailMore(a[n].batchResults, b[n].batchResults)
    {
      RaisedThresholdFailsMore(lib, low[n], high[n]);
    }
    ReadIndexesBelow(lib, low, expected);
    forall n | n in high ensures ExtractedFrom(lib, high[n]).value.plan.batchCount == expected {
      RaisedThresholdFailsMore(lib, low[n], high[n]);
    }
    ReadIndexesBelow(lib, high, expected);
    VerdictLaws.MoreFailuresNameMore(a, b, expected, names);
  }

  lemma ReadIndexesBelow(lib: Lib, docs: map<string, Option<Json>>, expected: int)
    requires forall n :: n in docs ==>
        ExtractedFrom(lib, docs[n]).Ok? && ExtractedFrom(lib, docs[n]).value.plan.batchCount == expected
    ensures VerdictLaws.IndexesBelow(ReportsRead(lib, docs), expected)
  {
    var reports := ReportsRead(lib, docs);
    forall r | r in VerdictLaws.PairResults(reports) ensures 0 <= r.batchIdx < expected {
      var n :| n in Detection.PairwiseReports(reports) && r in reports[n].batchResults;
      ExtractedIsWellFormed(lib, docs[n]);
    }
  }
}

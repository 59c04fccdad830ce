/** Collecting the reports of a workload: pkg/preflight/slow_node_aggregator.go. */
module Aggregator {
  import opened Base
  import Json
  import opened Preflight
  import opened ReportParser
  import opened Detection

  const DEFAULT_TIMEOUT := 10 * 60 * 1_000_000_000  // ten minutes in nanoseconds

  datatype Key = Key(namespace: string, uid: string, name: string)

  /** The reports collected so far for one key, with the two clocks that bound the collection. */
  datatype Window = Window(
    plan: Plan, reports: map<string, NodeReport>, lastReportAt: int, firstObservedAt: int, lastObservedAt: int)

  datatype TimeoutError = TimeoutError(
    key: Key, reportedNodes: seq<string>, receivedReports: int, expectedReports: int, timeout: int)
  {
    function FirstReportedNode(): string {
      if |reportedNodes| == 0 then "" else reportedNodes[0]
    }
  }

  // ---- What one report does to its key's window ----

  function Fresh(plan: Plan, now: int, observedAt: int): Window {
    Window(plan, map[], now, observedAt, observedAt)
  }

  function Touch(w: Window, now: int, observedAt: int): Window {
    w.(lastReportAt := now, firstObservedAt := Min(w.firstObservedAt, observedAt),
       lastObservedAt := Max(w.lastObservedAt, observedAt))
  }

  function Store(w: Window, report: NodeReport): Window {
    w.(reports := w.reports[report.nodeName := report])
  }

  /** Nothing has arrived for at least the timeout. */
  predicate Idle(w: Window, now: int, timeout: int) {
    |w.reports| < w.plan.reportCount && w.lastReportAt + timeout <= now
  }

  datatype Outcome =
    | Waiting
    | TimedOut(window: Window)
    | Ready(reports: map<string, NodeReport>, batchCount: int)

  function AddTo(o: Option<Window>, timeout: int, report: NodeReport, plan: Plan, now: int, observedAt: int):
    (Option<Window>, Outcome)
  {
    if o.Some? && Idle(o.value, now, timeout) then (None, TimedOut(o.value))
    else AddToTouched(Touch(Joined(o, plan, now, observedAt), now, observedAt), timeout, report, plan, now, observedAt)
  }

  /** The window the report joins: the current one if it has the same plan, else a new one. */
  function Joined(o: Option<Window>, plan: Plan, now: int, observedAt: int): Window {
    if o.Some? && o.value.plan == plan then o.value else Fresh(plan, now, observedAt)
  }

  function AddToTouched(w: Window, timeout: int, report: NodeReport, plan: Plan, now: int, observedAt: int):
    (Option<Window>, Outcome)
  {
    if w.lastObservedAt - w.firstObservedAt > timeout then
      (Some(Store(Fresh(plan, now, observedAt), report)), TimedOut(w))
    else if |Store(w, report).reports| < w.plan.reportCount then (Some(Store(w, report)), Waiting)
    else (None, Ready(Store(w, report).reports, w.plan.batchCount))
  }

  function Lookup(state: map<Key, Window>, key: Key): Option<Window> {
    if key in state then Some(state[key]) else None
  }

  function Put(state: map<Key, Window>, key: Key, o: Option<Window>): map<Key, Window> {
    if o.Some? then state[key := o.value] else state - {key}
  }

  function Swept(state: map<Key, Window>, now: int, timeout: int): map<Key, Window> {
    map k | k in state && !Idle(state[k], now, timeout) :: state[k]
  }

  /** Holds of every window between calls. */
  ghost predicate Stored(w: Window, timeout: int) {
    && ValidPlan(w.plan)
    && 1 <= |w.reports| < w.plan.reportCount
    && 0 <= w.lastObservedAt - w.firstObservedAt <= timeout
    && (forall n :: n in w.reports ==> n != "" && w.reports[n].nodeName == n)
  }

  ghost predicate AllStored(state: map<Key, Window>, timeout: int) {
    forall k :: k in state ==> Stored(state[k], timeout)
  }

  lemma StoreSize(w: Window, report: NodeReport)
    ensures |w.reports| <= |Store(w, report).reports| <= |w.reports| + 1
    ensures |Store(w, report).reports| >= 1
  {
  }

  lemma StoreKeepsNames(w: Window, report: NodeReport)
    requires report.nodeName != ""
    requires forall n :: n in w.reports ==> n != "" && w.reports[n].nodeName == n
    ensures forall n :: n in Store(w, report).reports ==> n != "" && Store(w, report).reports[n].nodeName == n
  {
  }

  /** What a step of one key guarantees. */
  ghost predicate StepKeeps(
    o: Option<Window>, timeout: int, report: NodeReport, plan: Plan, now: int, observedAt: int, o': Option<Window>,
        outcome: Outcome)
  {
    && (o'.Some? ==> Stored(o'.value, timeout))
    && (outcome.Ready? ==> o' == None && |outcome.reports| == plan.reportCount && outcome.batchCount == plan.batchCount)
    && (outcome.TimedOut? ==>
        o.Some? && outcome.window.reports == o.value.reports && outcome.window.plan == o.value.plan)
    && (outcome.TimedOut? && o'.Some? ==> o'.value == Store(Fresh(plan, now, observedAt), report))
    && (outcome.Waiting? ==> o'.Some?)
  }

  /**
   * A window stays within its bounds whatever arrives; a verdict is only reached with the expected
   * number of nodes; a timeout always has some but not all reports. That the plan is for an even
   * number of nodes, so for at least two, is what lets a report seed a window without completing it.
   */
  lemma AddToKeepsStored(o: Option<Window>, timeout: int, report: NodeReport, plan: Plan, now: int, observedAt: int)
    requires timeout > 0 && ValidPlan(plan) && report.nodeName != ""
    requires o.Some? ==> Stored(o.value, timeout)
    ensures var (o', outcome) := AddTo(o, timeout, report, plan, now, observedAt);
            StepKeeps(o, timeout, report, plan, now, observedAt, o', outcome)
  {
    if !(o.Some? && Idle(o.value, now, timeout)) {
      var w := Touch(Joined(o, plan, now, observedAt), now, observedAt);
      StoreSize(w, report);
      StoreKeepsNames(w, report);
      StoreSize(Fresh(plan, now, observedAt), report);
      StoreKeepsNames(Fresh(plan, now, observedAt), report);
    }
  }

  /** err describes the reports of window w: the sorted names of those that arrived. */
  ghost predicate Describes(err: TimeoutError, key: Key, w: Window, timeout: int) {
    && err.key == key && err.timeout == timeout
    && err.receivedReports == |w.reports| && err.expectedReports == w.plan.reportCount
    && IsSortedListOf(err.reportedNodes, w.reports.Keys)
  }

  lemma DescriptionUnique(a: TimeoutError, b: TimeoutError, key: Key, w: Window, timeout: int)
    requires Describes(a, key, w, timeout) && Describes(b, key, w, timeout)
    ensures a == b
  {
    SortedListUnique(a.reportedNodes, b.reportedNodes, w.reports.Keys);
  }

  /** What the recovery controller may rely on: some reports, not all, and a first node to name, the least one. */
  ghost predicate NamesANode(err: TimeoutError) {
    && 1 <= err.receivedReports < err.expectedReports
    && |err.reportedNodes| == err.receivedReports
    && InDictionaryOrder(err.reportedNodes)
    && err.FirstReportedNode() != "" && err.FirstReportedNode() in err.reportedNodes
    && forall n :: n in err.reportedNodes && n != err.FirstReportedNode() ==> Precedes(err.FirstReportedNode(), n)
  }

  ghost predicate AllNameANode(errs: seq<TimeoutError>) {
    forall e :: e in errs ==> NamesANode(e)
  }

  lemma TimeoutsNameANode(err: TimeoutError, key: Key, w: Window, timeout: int)
    requires Describes(err, key, w, timeout)
    requires 1 <= |w.reports| < w.plan.reportCount && "" !in w.reports
    ensures NamesANode(err)
  {
    SortedListLength(err.reportedNodes, w.reports.Keys);
    SortedListIsInOrder(err.reportedNodes, w.reports.Keys);
    FirstIsLeast(err.reportedNodes, w.reports.Keys);
  }

  /** What the parser guarantees of every report that reaches the collection. */
  predicate Usable(e: Extracted) {
    ValidPlan(e.plan) && e.report.nodeName != ""
  }

  lemma ExtractedIsUsable(lib: Lib, doc: Option<Json.Json>)
    requires ExtractedFrom(lib, doc).Ok?
    ensures Usable(ExtractedFrom(lib, doc).value)
  {
  }

  // ---- Runs ----

  datatype Call =
    | AddCall(key: Key, report: NodeReport, plan: Plan, now: int, observedAt: int)
    | SweepCall(now: int)

  function RunOne(state: map<Key, Window>, c: Call, timeout: int): map<Key, Window> {
    match c
    case AddCall(key, report, plan, now, observedAt) =>
      Put(state, key, AddTo(Lookup(state, key), timeout, report, plan, now, observedAt).0)
    case SweepCall(now) => Swept(state, now, timeout)
  }

  /** The state of the aggregator after a run of accepted calls and sweeps. */
  function Run(calls: seq<Call>, timeout: int): map<Key, Window> {
    if calls == [] then map[] else RunOne(Run(calls[..|calls| - 1], timeout), calls[|calls| - 1], timeout)
  }

  ghost predicate AllUsable(calls: seq<Call>) {
    forall i :: 0 <= i < |calls| && calls[i].AddCall? ==> ValidPlan(calls[i].plan) && calls[i].report.nodeName != ""
  }

  /** The workloads are what the calls so far make of them. */
  ghost predicate Records(calls: seq<Call>, content: map<Key, Window>, timeout: int) {
    content == Run(calls, timeout) && AllUsable(calls)
  }

  lemma CallIsRecorded(calls: seq<Call>, before: map<Key, Window>, after: map<Key, Window>, c: Call, timeout: int)
    requires Records(calls, before, timeout) && after == RunOne(before, c, timeout) && AllUsable([c])
    ensures Records(calls + [c], after, timeout)
  {
  }

  /** An accepted report as a call. */
  function AddOf(key: Key, e: Extracted, observedAt: int, now: int): Call {
    AddCall(key, NodeReportOf(e.report, e.results), e.plan, now, observedAt)
  }

  // ---- The aggregator object ----

  datatype AddResult =
    | Rejected
    | Expired(err: TimeoutError)
    | Pending
    | Finished(slowNodes: seq<string>)

  /** The answer to the caller for an outcome. */
  ghost predicate Matches(result: AddResult, key: Key, outcome: Outcome, timeout: int) {
    match outcome
    case Waiting => result == Pending
    case TimedOut(w) => result.Expired? && Describes(result.err, key, w, timeout)
    case Ready(reports, batchCount) => result.Finished? && IsVerdict(reports, batchCount, result.slowNodes)
  }

  /** One accepted call: the key's window steps, other keys keep theirs, and the answer fits. */
  ghost predicate Adds(
    before: map<Key, Window>, after: map<Key, Window>, timeout: int,
    key: Key, e: Extracted, observedAt: int, now: int, result: AddResult)
  {
    var (o, outcome) := AddTo(Lookup(before, key), timeout, NodeReportOf(e.report, e.results), e.plan, now, observedAt);
    && after == Put(before, key, o)
    && Matches(result, key, outcome, timeout)
    && (result.Expired? ==> NamesANode(result.err))
  }

  lemma AddIsRecorded(
    calls: seq<Call>, before: map<Key, Window>, after: map<Key, Window>, timeout: int,
    key: Key, e: Extracted, observedAt: int, now: int, result: AddResult)
    requires Records(calls, before, timeout) && Usable(e)
    requires Adds(before, after, timeout, key, e, observedAt, now, result)
    ensures Records(calls + [AddOf(key, e, observedAt, now)], after, timeout)
  {
  }

  lemma CallIsSound(
    before: map<Key, Window>, after: map<Key, Window>, timeout: int,
    key: Key, e: Extracted, observedAt: int, now: int, result: AddResult, outcome: Outcome)
    requires timeout > 0 && Usable(e) && AllStored(before, timeout)
    requires var (o, out) := AddTo(Lookup(before, key), timeout, NodeReportOf(e.report, e.results), e.plan, now,
        observedAt);
             outcome == out && after == Put(before, key, o)
    requires Matches(result, key, outcome, timeout)
    ensures Adds(before, after, timeout, key, e, observedAt, now, result) && !result.Rejected?
    ensures AllStored(after, timeout)
  {
    var o := Lookup(before, key);
    AddToKeepsStored(o, timeout, NodeReportOf(e.report, e.results), e.plan, now, observedAt);
    if outcome.TimedOut? {
      TimeoutsNameANode(result.err, key, outcome.window, timeout);
    }
  }

  class Workload {
    const key: Key
    var plan: Plan
    var nodeReports: map<string, NodeReport>
    var lastReportAt: int
    var firstObservedAt: int
    var lastObservedAt: int

    ghost function Abs(): Window
      reads this
    {
      Window(plan, nodeReports, lastReportAt, firstObservedAt, lastObservedAt)
    }

    constructor (key: Key, plan: Plan, now: int, observedAt: int)
      ensures this.key == key && Abs() == Fresh(plan, now, observedAt)
    {
      this.key := key;
      this.plan := plan;
      nodeReports := map[];
      lastReportAt := now;
      firstObservedAt, lastObservedAt := observedAt, observedAt;
    }
  }

  class SlowNodeAggregator {
    const timeout: int
    var workloads: map<Key, Workload>
    ghost var content: map<Key, Window>  // what the workload objects hold
    ghost var repr: set<Workload>  // the workload objects made so far
    ghost var calls: seq<Call>  // accepted reports and sweeps so far

    constructor (timeout: int)
      ensures Valid() && content == map[] && repr == {} && calls == []
      ensures this.timeout == if timeout <= 0 then 600_000_000_000 else timeout
    {
      this.timeout := if timeout <= 0 then DEFAULT_TIMEOUT else timeout;
      workloads := map[];
      content, repr, calls := map[], {}, [];
    }

    /** Each key has its own workload object, and content tells what it holds. */
    ghost predicate Owned()
      reads `workloads, `content, `repr, repr
    {
      && timeout > 0
      && content.Keys == workloads.Keys
      && forall k :: k in workloads ==>
          workloads[k] in repr && workloads[k].key == k && workloads[k].Abs() == content[k]
    }

    ghost predicate Sound()
      reads `workloads, `content, `repr, repr
    {
      Owned() && AllStored(content, timeout)
    }

    ghost predicate Valid()
      reads this, repr
    {
      Sound() && Records(calls, content, timeout)
    }

    method Forget(key: Key)
      requires Owned()
      modifies this`workloads, this`content
      ensures Owned() && workloads == old(workloads) - {key} && content == old(content) - {key}
    {
      workloads := workloads - {key};
      content := content - {key};
      forall k | k in workloads
        ensures workloads[k] in repr && workloads[k].key == k && workloads[k].Abs() == content[k]
      {
        assert k in old(workloads);
      }
    }

    method BuildTimeoutError(key: Key, workload: Workload) returns (err: TimeoutError)
      ensures Describes(err, key, workload.Abs(), timeout) && InDictionaryOrder(err.reportedNodes)
    {
      var nodes := SortedNames(workload.nodeReports.Keys);
      err := TimeoutError(key, nodes, |workload.nodeReports|, workload.plan.reportCount, timeout);
    }

    method EnsureWorkload(key: Key, plan: Plan, now: int, observedAt: int) returns (w: Workload)
      requires Owned()
      modifies this`workloads, this`content, this`repr
      ensures Owned() && fresh(w) && w.key == key
      ensures workloads == old(workloads)[key := w] && repr == old(repr) + {w}
      ensures content == old(content)[key := Fresh(plan, now, observedAt)]
    {
      w := new Workload(key, plan, now, observedAt);
      workloads := workloads[key := w];
      content, repr := content[key := w.Abs()], repr + {w};
    }

    method WorkloadForReport(key: Key, plan: Plan, now: int, observedAt: int) returns (w: Workload)
      requires Owned()
      modifies this`workloads, this`content, this`repr
      ensures Owned() && key in workloads && workloads[key] == w && w.key == key
      ensures fresh(repr - old(repr))
      ensures content == old(content)[key := Joined(Lookup(old(content), key), plan, now, observedAt)]
    {
      if key in workloads {
        w := workloads[key];
        if w.plan == plan {
          return;
        }
      }
      w := EnsureWorkload(key, plan, now, observedAt);
    }

    /** Changing one workload object and its entry in content keeps the two in step. */
    twostate lemma StillOwned(w: Workload)
      requires old(Owned()) && old(w.key in workloads && workloads[w.key] == w)
      requires workloads == old(workloads) && repr == old(repr)
      requires content == old(content)[w.key := w.Abs()]
      requires forall v :: v in repr && v != w ==> unchanged(v)
      ensures Owned()
    {
      forall k | k in workloads
        ensures workloads[k] in repr && workloads[k].key == k && workloads[k].Abs() == content[k]
      {
        assert old(workloads[k].Abs()) == old(content)[k];
      }
    }

    method Touched(w: Workload, now: int, observedAt: int)
      requires Owned() && w.key in workloads && workloads[w.key] == w
      modifies this`content, w
      ensures Owned() && content == old(content)[w.key := Touch(old(content)[w.key], now, observedAt)]
    {
      w.lastReportAt := now;
      if observedAt < w.firstObservedAt { w.firstObservedAt := observedAt; }
      if observedAt > w.lastObservedAt { w.lastObservedAt := observedAt; }
      assert w.Abs() == Touch(old(w.Abs()), now, observedAt);
      content := content[w.key := w.Abs()];
      StillOwned(w);
    }

    method AddNodeReport(w: Workload, report: Report, results: seq<BatchResult>)
      requires Owned() && w.key in workloads && workloads[w.key] == w
      modifies this`content, w
      ensures Owned() && content == old(content)[w.key := Store(old(content)[w.key], NodeReportOf(report, results))]
    {
      var failFast := report.gpuCheck == CHECK_RESULT_FAIL || report.storageCheck == CHECK_RESULT_FAIL;
      if !failFast && |results| == 0 {
        failFast := true;
      }
      w.nodeReports := w.nodeReports[report.nodeName := NodeReport(report.nodeName, report.nodeIP, failFast, results)];
      assert w.Abs() == Store(old(w.Abs()), NodeReportOf(report, results));
      content := content[w.key := w.Abs()];
      StillOwned(w);
    }

    method ExpireWorkloadIfTimedOut(key: Key, now: int) returns (expired: Option<TimeoutError>)
      requires Owned()
      modifies this`workloads, this`content, this`repr
      ensures Owned() && repr == old(repr)
      ensures expired.Some? <==> key in old(content) && Idle(old(content)[key], now, timeout)
      ensures expired.Some? ==>
          content == old(content) - {key} && Describes(expired.value, key, old(content)[key], timeout)
      ensures expired.None? ==> content == old(content)
    {
      if key !in workloads { return None; }
      var w := workloads[key];
      if |w.nodeReports| >= w.plan.reportCount { return None; }
      if w.lastReportAt + timeout > now { return None; }
      var err := Drop(key);
      return Some(err);
    }

    /** Removes the workload of the key and describes what it held. */
    method Drop(key: Key) returns (err: TimeoutError)
      requires Owned() && key in workloads
      modifies this`workloads, this`content
      ensures Owned() && content == old(content) - {key} && Describes(err, key, old(content)[key], timeout)
    {
      var w := workloads[key];
      Forget(key);
      err := BuildTimeoutError(key, w);
    }

    method AddReportForWorkload(
      lib: Lib, ns: string, uid: string, name: string, doc: Option<Json.Json>, observedAt: Option<int>, now: int)
      returns (result: AddResult)
      requires Valid()
      modifies this, repr
      ensures Valid() && fresh(repr - old(repr))
      ensures result.Rejected? <==>
        ns == "" || name == "" || uid == "" || observedAt.None? || ExtractedFrom(lib, doc).Err?
      ensures result.Rejected? ==> content == old(content) && calls == old(calls)
      ensures !result.Rejected? ==>
        && Adds(old(content), content, timeout, Key(ns, uid, name), ExtractedFrom(lib, doc).value, observedAt.value,
            now, result)
        && calls == old(calls) + [AddOf(Key(ns, uid, name), ExtractedFrom(lib, doc).value, observedAt.value, now)]
    {
      if ns == "" || name == "" || uid == "" || observedAt.None? { return Rejected; }
      var extracted := ExtractNodeReport(lib, doc);
      if extracted.Err? { return Rejected; }
      ExtractedIsUsable(lib, doc);
      result := AddRecorded(Key(ns, uid, name), extracted.value, observedAt.value, now);
    }

    /** Adds the report and notes the call. */
    method AddRecorded(key: Key, e: Extracted, observedAt: int, now: int) returns (result: AddResult)
      requires Valid() && Usable(e)
      modifies this, repr
      ensures Valid() && fresh(repr - old(repr)) && !result.Rejected?
      ensures Adds(old(content), content, timeout, key, e, observedAt, now, result)
      ensures calls == old(calls) + [AddOf(key, e, observedAt, now)]
    {
      ghost var before := content;
      result := AddExtracted(key, e, observedAt, now);
      AddIsRecorded(calls, before, content, timeout, key, e, observedAt, now, result);
      calls := calls + [AddOf(key, e, observedAt, now)];
    }

    method AddExtracted(key: Key, e: Extracted, observedAt: int, now: int) returns (result: AddResult)
      requires Sound() && Usable(e)
      modifies this`workloads, this`content, this`repr, repr
      ensures Sound() && fresh(repr - old(repr)) && !result.Rejected?
      ensures Adds(old(content), content, timeout, key, e, observedAt, now, result)
    {
      ghost var before := content;
      var expired := ExpireWorkloadIfTimedOut(key, now);
      if expired.Some? {
        result := Expired(expired.value);
        CallIsSound(before, content, timeout, key, e, observedAt, now, result, TimedOut(before[key]));
        return;
      }
      ghost var outcome: Outcome;
      result, outcome := AddToLive(key, e, observedAt, now);
      CallIsSound(before, content, timeout, key, e, observedAt, now, result, outcome);
    }

    /** The part after the idle check. */
    method AddToLive(key: Key, e: Extracted, observedAt: int, now: int)
        returns (result: AddResult, ghost outcome: Outcome)
      requires Owned()
      requires key in content ==> !Idle(content[key], now, timeout)
      modifies this`workloads, this`content, this`repr, repr
      ensures Owned() && fresh(repr - old(repr))
      ensures var (o, out) :=
                AddTo(Lookup(old(content), key), timeout, NodeReportOf(e.report, e.results), e.plan, now, observedAt);
              outcome == out && content == Put(old(content), key, o)
      ensures Matches(result, key, outcome, timeout)
    {
      var w := WorkloadForReport(key, e.plan, now, observedAt);
      ghost var before, base := old(content), content[key];
      Touched(w, now, observedAt);
      ghost var touched := content[key];
      UpdateTwice(before, key, base, touched);
      result, outcome := AddToTouchedWorkload(w, e, observedAt, now);
      ghost var o :=
        AddToTouched(touched, timeout, NodeReportOf(e.report, e.results), e.plan, now, observedAt).0;
      UpdateTwice(before, key, touched, if o.Some? then o.value else touched);
    }

    method AddToTouchedWorkload(w: Workload, e: Extracted, observedAt: int, now: int)
      returns (result: AddResult, ghost outcome: Outcome)
      requires Owned() && w.key in workloads && workloads[w.key] == w
      modifies this`workloads, this`content, this`repr, w
      ensures Owned() && fresh(repr - old(repr))
      ensures var (o, out) :=
                AddToTouched(old(content)[w.key], timeout, NodeReportOf(e.report, e.results), e.plan, now, observedAt);
              outcome == out && content == Put(old(content), w.key, o)
      ensures Matches(result, w.key, outcome, timeout)
    {
      ghost var key, before := w.key, content;
      if w.lastObservedAt - w.firstObservedAt > timeout {
        outcome := TimedOut(w.Abs());
        var err := Restart(w, e, observedAt, now);
        return Expired(err), outcome;
      }
      AddNodeReport(w, e.report, e.results);
      if |w.nodeReports| < w.plan.reportCount {
        return Pending, Waiting;
      }
      result, outcome := Conclude(w);
      UpdateTwice(before, key, Store(before[key], NodeReportOf(e.report, e.results)), before[key]);
    }

    /** The observation window is exceeded: report it, and let this report open a new one. */
    method Restart(w: Workload, e: Extracted, observedAt: int, now: int) returns (err: TimeoutError)
      requires Owned() && w.key in workloads && workloads[w.key] == w
      modifies this`workloads, this`content, this`repr, w
      ensures Owned() && fresh(repr - old(repr))
      ensures Describes(err, w.key, old(content)[w.key], timeout)
      ensures content == old(content)[w.key := Store(Fresh(e.plan, now, observedAt), NodeReportOf(e.report, e.results))]
    {
      err := BuildTimeoutError(w.key, w);
      Seed(w.key, e, observedAt, now);
    }

    /** A new workload for the key, with this report in it. */
    method Seed(key: Key, e: Extracted, observedAt: int, now: int)
      requires Owned()
      modifies this`workloads, this`content, this`repr
      ensures Owned() && fresh(repr - old(repr))
      ensures content == old(content)[key := Store(Fresh(e.plan, now, observedAt), NodeReportOf(e.report, e.results))]
    {
      ghost var before, empty := content, Fresh(e.plan, now, observedAt);
      var w := EnsureWorkload(key, e.plan, now, observedAt);
      AddNodeReport(w, e.report, e.results);
      UpdateTwice(before, key, empty, Store(empty, NodeReportOf(e.report, e.results)));
    }

    /** All reports are in: give the verdict and forget the workload. */
    method Conclude(w: Workload) returns (result: AddResult, ghost outcome: Outcome)
      requires Owned() && w.key in workloads && workloads[w.key] == w
      modifies this`workloads, this`content, this`repr
      ensures Owned() && repr == old(repr)
      ensures content == old(content) - {w.key}
      ensures outcome == Ready(old(content)[w.key].reports, old(content)[w.key].plan.batchCount)
      ensures Matches(result, w.key, outcome, timeout)
    {
      var slow := DetectSlowNodes(w.nodeReports, w.plan.batchCount);
      outcome := Ready(w.nodeReports, w.plan.batchCount);
      Forget(w.key);
      result := Finished(slow);
    }

    /** Removes one timed-out workload, whichever the map yields first. */
    method ExpireOneTimedOutWorkload(now: int) returns (expired: Option<TimeoutError>, ghost key: Key)
      requires Owned()
      modifies this`workloads, this`content, this`repr
      ensures Owned() && repr == old(repr)
      ensures expired.Some? ==>
        && key in old(content) && Idle(old(content)[key], now, timeout)
        && content == old(content) - {key}
        && Describes(expired.value, key, old(content)[key], timeout)
      ensures expired.None? ==> content == old(content)
      ensures expired.None? ==> forall k :: k in content ==> !Idle(content[k], now, timeout)
    {
      key := Key("", "", "");
      var todo := workloads.Keys;
      while todo != {}
        invariant todo <= workloads.Keys
        invariant forall k :: k in content && k !in todo ==> !Idle(content[k], now, timeout)
        decreases |todo|
      {
        var k :| k in todo;
        todo := todo - {k};
        var w := workloads[k];
        if |w.nodeReports| < w.plan.reportCount && w.lastReportAt + timeout <= now {
          key := k;
          var err := Drop(k);
          return Some(err), k;
        }
      }
      return None, key;
    }

    /** Drops every timed-out workload and reports each of them once. */
    method ExpireTimedOutWorkloads(now: int) returns (errs: seq<TimeoutError>, ghost keys: seq<Key>)
      requires Valid()
      modifies this
      ensures Valid() && repr == old(repr) && calls == old(calls) + [SweepCall(now)]
      ensures content == Swept(old(content), now, timeout)
      ensures SweepReports(errs, keys, old(content), now, timeout)
      ensures AllNameANode(errs)
    {
      ghost var before := content;
      errs, keys := ExpireAll(now);
      CallIsRecorded(calls, before, content, SweepCall(now), timeout);
      calls := calls + [SweepCall(now)];
    }

    method ExpireAll(now: int) returns (errs: seq<TimeoutError>, ghost keys: seq<Key>)
      requires Sound()
      modifies this`workloads, this`content, this`repr
      ensures Sound() && repr == old(repr)
      ensures content == Swept(old(content), now, timeout)
      ensures SweepReports(errs, keys, old(content), now, timeout)
      ensures AllNameANode(errs)
    {
      errs, keys := [], [];
      ghost var before := content;
      NothingSweptYet(before, now, timeout);
      while true
        invariant Owned() && repr == old(repr)
        invariant SweptSoFar(before, content, errs, keys, now, timeout)
        decreases |content|
      {
        var more;
        more, errs, keys := ExpireNext(before, errs, keys, now);
        if !more {
          SweepIsDone(before, content, errs, keys, now, timeout);
          return;
        }
      }
    }

    method ExpireNext(ghost before: map<Key, Window>, errs: seq<TimeoutError>, ghost keys: seq<Key>, now: int)
      returns (more: bool, errs': seq<TimeoutError>, ghost keys': seq<Key>)
      requires Owned() && SweptSoFar(before, content, errs, keys, now, timeout)
      modifies this`workloads, this`content, this`repr
      ensures Owned() && repr == old(repr) && SweptSoFar(before, content, errs', keys', now, timeout)
      ensures more ==> |content| < old(|content|)
      ensures !more ==> forall k :: k in content ==> !Idle(content[k], now, timeout)
    {
      var expired;
      ghost var key;
      expired, key := ExpireOneTimedOutWorkload(now);
      if expired.None? {
        return false, errs, keys;
      }
      OneMoreExpired(before, old(content), errs, keys, expired.value, key, now, timeout);
      return true, errs + [expired.value], keys + [key];
    }
  }

  /** What remains of the workloads after the errors so far. */
  ghost predicate SweptSoFar(
    before: map<Key, Window>, content: map<Key, Window>, errs: seq<TimeoutError>, keys: seq<Key>, now: int,
        timeout: int)
  {
    ReportsKeys(errs, keys, before, now, timeout) && content == before - SetOf(keys)
  }

  lemma NothingSweptYet(before: map<Key, Window>, now: int, timeout: int)
    ensures SweptSoFar(before, before, [], [], now, timeout)
  {
  }

  lemma OneMoreExpired(
    before: map<Key, Window>, content: map<Key, Window>, errs: seq<TimeoutError>, keys: seq<Key>,
    err: TimeoutError, key: Key, now: int, timeout: int)
    requires SweptSoFar(before, content, errs, keys, now, timeout) && key in content
    requires Idle(content[key], now, timeout) && Describes(err, key, content[key], timeout)
    ensures SweptSoFar(before, content - {key}, errs + [err], keys + [key], now, timeout)
    ensures |content - {key}| < |content|
  {
    OneMoreKeyReported(before, content, errs, keys, err, key, now, timeout);
    assert SetOf(keys + [key]) == SetOf(keys) + {key};
    RemoveTwice(before, SetOf(keys), key);
    RemovedIsSmaller(content, key);
  }

  lemma OneMoreKeyReported(
    before: map<Key, Window>, content: map<Key, Window>, errs: seq<TimeoutError>, keys: seq<Key>,
    err: TimeoutError, key: Key, now: int, timeout: int)
    requires ReportsKeys(errs, keys, before, now, timeout)
    requires key in before && key !in keys && Idle(before[key], now, timeout)
        && Describes(err, key, before[key], timeout)
    ensures ReportsKeys(errs + [err], keys + [key], before, now, timeout)
  {
    forall i | 0 <= i < |keys| ensures (keys + [key])[i] != key {
      assert keys[i] in keys;
    }
  }

  lemma RemovedIsSmaller<K, V>(m: map<K, V>, k: K)
    requires k in m
    ensures |m - {k}| < |m|
  {
    assert m.Keys == (m - {k}).Keys + {k};
  }

  lemma SweepIsDone(
    before: map<Key, Window>, content: map<Key, Window>, errs: seq<TimeoutError>, keys: seq<Key>, now: int,
        timeout: int)
    requires SweptSoFar(before, content, errs, keys, now, timeout)
    requires forall k :: k in content ==> !Idle(content[k], now, timeout)
    requires AllStored(before, timeout)
    ensures content == Swept(before, now, timeout)
    ensures SweepReports(errs, keys, before, now, timeout)
    ensures AllNameANode(errs)
    ensures AllStored(content, timeout)
  {
    ErrorsNameNodes(before, errs, keys, now, timeout);
    forall k | k in before && Idle(before[k], now, timeout) ensures k in keys {
      assert k !in content;
    }
    assert content.Keys == Swept(before, now, timeout).Keys;
  }

  lemma ErrorsNameNodes(before: map<Key, Window>, errs: seq<TimeoutError>, keys: seq<Key>, now: int, timeout: int)
    requires ReportsKeys(errs, keys, before, now, timeout)
    requires AllStored(before, timeout)
    ensures AllNameANode(errs)
  {
    forall e | e in errs ensures NamesANode(e) {
      var i :| 0 <= i < |errs| && errs[i] == e;
      TimeoutsNameANode(e, keys[i], before[keys[i]], timeout);
    }
  }

  ghost predicate ReportsKeys(errs: seq<TimeoutError>, keys: seq<Key>, state: map<Key, Window>, now: int,
      timeout: int) {
    && |errs| == |keys| && Distinct(keys)
    && forall i :: 0 <= i < |keys| ==>
         keys[i] in state && Idle(state[keys[i]], now, timeout) && Describes(errs[i], keys[i], state[keys[i]], timeout)
  }

  /** errs holds one error for each timed-out workload of the state, and nothing else. */
  ghost predicate SweepReports(errs: seq<TimeoutError>, keys: seq<Key>, state: map<Key, Window>, now: int,
      timeout: int) {
    && ReportsKeys(errs, keys, state, now, timeout)
    && forall k :: k in state && Idle(state[k], now, timeout) ==> k in keys
  }

  /** Whatever order the map is visited in, a sweep returns the same errors. */
  lemma SweepOrderIsIrrelevant(
    a: seq<TimeoutError>, ka: seq<Key>, b: seq<TimeoutError>, kb: seq<Key>, state: map<Key, Window>, now: int,
        timeout: int)
    requires SweepReports(a, ka, state, now, timeout) && SweepReports(b, kb, state, now, timeout)
    ensures |a| == |b| && forall e :: e in a <==> e in b
  {
    SweepCovers(a, ka, b, kb, state, now, timeout);
    SweepCovers(b, kb, a, ka, state, now, timeout);
    forall k ensures k in ka <==> k in kb {
    }
    SameElementsSameLength(ka, kb);
  }

  lemma SweepCovers(
    a: seq<TimeoutError>, ka: seq<Key>, b: seq<TimeoutError>, kb: seq<Key>, state: map<Key, Window>, now: int,
        timeout: int)
    requires SweepReports(a, ka, state, now, timeout) && SweepReports(b, kb, state, now, timeout)
    ensures forall e :: e in a ==> e in b
  {
    forall e | e in a ensures e in b {
      var i :| 0 <= i < |a| && a[i] == e;
      assert ka[i] in kb;
      var j :| 0 <= j < |kb| && kb[j] == ka[i];
      DescriptionUnique(a[i], b[j], ka[i], state[ka[i]], timeout);
    }
  }

  lemma SameElementsSameLength<T>(a: seq<T>, b: seq<T>)
    requires Distinct(a) && Distinct(b)
    requires forall x :: x in a <==> x in b
    ensures |a| == |b|
  {
    DistinctSize(a);
    DistinctSize(b);
    assert SetOf(a) == SetOf(b);
  }

  lemma {:induction false} DistinctSize<T>(a: seq<T>)
    requires Distinct(a)
    ensures |SetOf(a)| == |a|
  {
    if a == [] {
    } else {
      DistinctSize(a[1..]);
      assert a == [a[0]] + a[1..];
      assert SetOf(a) == {a[0]} + SetOf(a[1..]);
    }
  }
}

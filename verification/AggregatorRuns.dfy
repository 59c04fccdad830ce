/** Whole runs of the aggregator, told through the reports that arrived. */
module AggregatorRuns {
  import opened Base
  import opened Preflight
  import ReportParser
  import Detection
  import VerdictLaws
  import opened Aggregator

  /** What can happen to one key. */
  datatype Input =
    | Add(report: NodeReport, plan: Plan, now: int, observedAt: int)
    | Sweep(now: int)

  ghost predicate ValidInput(i: Input) {
    i.Add? ==> ValidPlan(i.plan) && i.report.nodeName != ""
  }

  /** What became of the reports of one collection. */
  datatype Fate = InVerdict | IdleTimeout | LateOnArrival | LayoutChange | OutsideWindow | SweptAway

  /** A collection that ended, and the report or sweep that ended it. */
  datatype Segment = Segment(adds: seq<Input>, fate: Fate, closer: Input)

  /** The window of a key, the reports it was made from, and all earlier collections with their fates. */
  datatype Log = Log(window: Option<Window>, open: seq<Input>, closed: seq<Segment>)

  function Outcomes(window: Option<Window>, i: Input, timeout: int): (Option<Window>, Outcome)
    requires i.Add?
  {
    AddTo(window, timeout, i.report, i.plan, i.now, i.observedAt)
  }

  /** The collection made of the given reports ends. */
  function Close(log: Log, adds: seq<Input>, fate: Fate, closer: Input): Log {
    Log(None, [], log.closed + [Segment(adds, fate, closer)])
  }

  /** A report with another plan ends the current collection. */
  function Relaid(log: Log, i: Input): Log
    requires i.Add?
  {
    if log.window.Some? && log.window.value.plan != i.plan then Close(log, log.open, LayoutChange, i) else log
  }

  function Take(log: Log, i: Input, window: Option<Window>, outcome: Outcome): Log {
    match outcome
    case Waiting => Log(window, log.open + [i], log.closed)
    case TimedOut(_) => Log(window, [i], log.closed + [Segment(log.open, OutsideWindow, i)])
    case Ready(_, _) => Close(log, log.open + [i], InVerdict, i)
  }

  function Step(log: Log, i: Input, timeout: int): Log {
    if log.window.Some? && Idle(log.window.value, i.now, timeout) then
      if i.Sweep? then Close(log, log.open, SweptAway, i)
      else Close(Close(log, log.open, IdleTimeout, i), [i], LateOnArrival, i)
    else if i.Sweep? then log
    else
      var (window, outcome) := Outcomes(log.window, i, timeout);
      Take(Relaid(log, i), i, window, outcome)
  }

  function After(h: seq<Input>, timeout: int): Log {
    if h == [] then Log(None, [], []) else Step(After(h[..|h| - 1], timeout), h[|h| - 1], timeout)
  }

  // ---- Independent description of a collection ----

  function OnlyAdds(h: seq<Input>): (r: seq<Input>)
    ensures forall a :: a in r ==> a.Add?
  {
    if h == [] then [] else
      OnlyAdds(h[..|h| - 1]) + if h[|h| - 1].Add? then [h[|h| - 1]] else []
  }

  function Flatten(segments: seq<Segment>): seq<Input> {
    if segments == [] then [] else Flatten(segments[..|segments| - 1]) + segments[|segments| - 1].adds
  }

  /** The last report of each node. */
  function LastWriter(adds: seq<Input>): map<string, NodeReport>
    requires forall a :: a in adds ==> a.Add?
  {
    if adds == [] then map[] else
      var n := |adds| - 1;
      LastWriter(adds[..n])[adds[n].report.nodeName := adds[n].report]
  }

  /**
   * Reports that make one collection: one plan, each arriving less than the timeout after the one
   * before, all observed within the timeout of each other.
   */
  ghost predicate Collection(adds: seq<Input>, timeout: int) {
    && adds != []
    && (forall i :: 0 <= i < |adds| ==> adds[i].Add?)
    && (forall i :: 0 <= i < |adds| ==> adds[i].plan == adds[0].plan && ValidPlan(adds[i].plan))
    && (forall i :: 0 < i < |adds| ==> adds[i].now < adds[i - 1].now + timeout)
    && (forall i, j :: 0 <= i < |adds| && 0 <= j < |adds| ==> adds[i].observedAt - adds[j].observedAt <= timeout)
  }

  ghost predicate Incomplete(adds: seq<Input>, timeout: int) {
    Collection(adds, timeout) && 1 <= |LastWriter(adds)| < adds[0].plan.reportCount
  }

  ghost predicate Complete(adds: seq<Input>, timeout: int) {
    Collection(adds, timeout) && |LastWriter(adds)| == adds[0].plan.reportCount
  }

  /** i comes at least the timeout after the last of the reports. */
  predicate Overdue(adds: seq<Input>, i: Input, timeout: int)
    requires adds != []
  {
    adds[|adds| - 1].now + timeout <= i.now
  }

  /** i was observed more than the timeout before or after one of the reports. */
  ghost predicate TooFar(adds: seq<Input>, i: Input, timeout: int)
    requires i.Add? && forall a :: a in adds ==> a.Add?
  {
    exists k :: 0 <= k < |adds| && !(-timeout <= i.observedAt - adds[k].observedAt <= timeout)
  }

  /** The fate of a collection tells what ended it. */
  ghost predicate FateFits(s: Segment, timeout: int) {
    match s.fate
    case InVerdict => Complete(s.adds, timeout) && s.adds[|s.adds| - 1] == s.closer
    case LateOnArrival => s.closer.Add? && s.adds == [s.closer]
    case IdleTimeout => Incomplete(s.adds, timeout) && s.closer.Add? && Overdue(s.adds, s.closer, timeout)
    case SweptAway => Incomplete(s.adds, timeout) && s.closer.Sweep? && Overdue(s.adds, s.closer, timeout)
    case LayoutChange =>
      && Incomplete(s.adds, timeout) && s.closer.Add? && !Overdue(s.adds, s.closer, timeout)
      && s.closer.plan != s.adds[0].plan
    case OutsideWindow =>
      && Incomplete(s.adds, timeout) && s.closer.Add? && !Overdue(s.adds, s.closer, timeout)
      && s.closer.plan == s.adds[0].plan && TooFar(s.adds, s.closer, timeout)
  }

  predicate EndedByNextReport(fate: Fate) {
    fate.IdleTimeout? || fate.LayoutChange? || fate.OutsideWindow?
  }

  /** The reports that come after closed collection k. */
  function Following(log: Log, k: nat): seq<Input>
    requires k < |log.closed|
  {
    if k + 1 < |log.closed| then log.closed[k + 1].adds else log.open
  }

  ghost predicate Linked(log: Log, k: nat)
    requires k < |log.closed|
  {
    var s := log.closed[k];
    && (EndedByNextReport(s.fate) ==> Following(log, k) != [] && Following(log, k)[0] == s.closer)
    && (s.fate.LateOnArrival? ==> k > 0 && log.closed[k - 1].fate.IdleTimeout? && log.closed[k - 1].closer == s.closer)
  }

  /** A report that ends a collection is the very next one, and one that is dropped has just ended a collection. */
  ghost predicate Chained(log: Log) {
    forall k :: 0 <= k < |log.closed| ==> Linked(log, k)
  }

  /** How many inputs of a run had come in when the collection s, ended by the input at p, was over. */
  function EndOf(s: Segment, p: nat): nat {
    if s.fate.InVerdict? || s.fate.LateOnArrival? then p + 1 else p
  }

  /** Closed collection k was ended by the input at p of the run, with all reports until then filed up to k. */
  ghost predicate EndedAt(h: seq<Input>, closed: seq<Segment>, k: nat, p: nat)
    requires k < |closed|
  {
    p < |h| && h[p] == closed[k].closer && Flatten(closed[..k + 1]) == OnlyAdds(h[..EndOf(closed[k], p)])
  }

  ghost predicate Ended(h: seq<Input>, closed: seq<Segment>, k: nat)
    requires k < |closed|
  {
    exists p :: EndedAt(h, closed, k, p)
  }

  /** What ended each closed collection did occur in the run, right after the last of its reports. */
  ghost predicate Dated(h: seq<Input>, closed: seq<Segment>) {
    forall k :: 0 <= k < |closed| ==> Ended(h, closed, k)
  }

  /** w is what the reports say: their plan, the last report of each node, and the extreme times. */
  ghost predicate Summarizes(w: Window, adds: seq<Input>, timeout: int) {
    && Incomplete(adds, timeout)
    && w.plan == adds[0].plan && w.reports == LastWriter(adds) && w.lastReportAt == adds[|adds| - 1].now
    && Extremes(w, adds)
  }

  ghost predicate LogFits(log: Log, timeout: int) {
    && (log.window.Some? <==> log.open != [])
    && (log.window.Some? ==> Summarizes(log.window.value, log.open, timeout))
    && (forall i :: 0 <= i < |log.closed| ==> FateFits(log.closed[i], timeout))
  }

  lemma OneReport(i: Input, timeout: int)
    requires i.Add? && ValidInput(i) && timeout > 0
    ensures Summarizes(Store(Fresh(i.plan, i.now, i.observedAt), i.report), [i], timeout)
  {
  }

  lemma OneMoreReport(w: Window, adds: seq<Input>, i: Input, timeout: int)
    requires Summarizes(w, adds, timeout) && i.Add? && ValidInput(i) && i.plan == w.plan
    requires i.now < w.lastReportAt + timeout
    requires var t := Touch(w, i.now, i.observedAt); t.lastObservedAt - t.firstObservedAt <= timeout
    ensures var t, more := Store(Touch(w, i.now, i.observedAt), i.report), adds + [i];
      && Collection(more, timeout) && t.reports == LastWriter(more)
      && (|t.reports| < t.plan.reportCount ==> Summarizes(t, more, timeout))
  {
    var t, more := Store(Touch(w, i.now, i.observedAt), i.report), adds + [i];
    assert more[..|adds|] == adds;
    ObservationsStayClose(w, adds, i, timeout);
    assert Collection(more, timeout);
    assert t.reports == LastWriter(more);
    StoreSize(Touch(w, i.now, i.observedAt), i.report);
    ExtremesStay(w, adds, i);
  }

  ghost predicate Extremes(w: Window, adds: seq<Input>)
    requires forall a :: a in adds ==> a.Add?
  {
    && (forall i :: 0 <= i < |adds| ==> w.firstObservedAt <= adds[i].observedAt <= w.lastObservedAt)
    && (exists i :: 0 <= i < |adds| && w.firstObservedAt == adds[i].observedAt)
    && (exists i :: 0 <= i < |adds| && w.lastObservedAt == adds[i].observedAt)
  }

  lemma ExtremesStay(w: Window, adds: seq<Input>, i: Input)
    requires i.Add? && (forall a :: a in adds ==> a.Add?) && Extremes(w, adds)
    ensures Extremes(Store(Touch(w, i.now, i.observedAt), i.report), adds + [i])
  {
    var t, more := Touch(w, i.now, i.observedAt), adds + [i];
    var f :| 0 <= f < |adds| && w.firstObservedAt == adds[f].observedAt;
    var l :| 0 <= l < |adds| && w.lastObservedAt == adds[l].observedAt;
    assert more[f] == adds[f] && more[l] == adds[l] && more[|adds|] == i;
  }

  lemma ObservationsStayClose(w: Window, adds: seq<Input>, i: Input, timeout: int)
    requires Summarizes(w, adds, timeout) && i.Add?
    requires var t := Touch(w, i.now, i.observedAt); t.lastObservedAt - t.firstObservedAt <= timeout
    ensures forall j, k :: 0 <= j < |adds + [i]| && 0 <= k < |adds + [i]|
              ==> (adds + [i])[j].observedAt - (adds + [i])[k].observedAt <= timeout
  {
  }

  lemma CloseFits(log: Log, adds: seq<Input>, fate: Fate, closer: Input, timeout: int)
    requires LogFits(log, timeout) && FateFits(Segment(adds, fate, closer), timeout)
    ensures LogFits(Close(log, adds, fate, closer), timeout)
  {
  }

  lemma StepFits(log: Log, i: Input, timeout: int)
    requires LogFits(log, timeout) && ValidInput(i) && timeout > 0
    ensures LogFits(Step(log, i, timeout), timeout)
  {
    if log.window.Some? && Idle(log.window.value, i.now, timeout) {
      CloseFits(log, log.open, if i.Sweep? then SweptAway else IdleTimeout, i, timeout);
      if i.Add? {
        CloseFits(Close(log, log.open, IdleTimeout, i), [i], LateOnArrival, i, timeout);
      }
    } else if i.Add? {
      if log.window.Some? && log.window.value.plan == i.plan {
        SamePlanFits(log, i, timeout);
      } else {
        FreshPlanFits(log, i, timeout);
      }
    }
  }

  lemma FreshPlanFits(log: Log, i: Input, timeout: int)
    requires LogFits(log, timeout) && ValidInput(i) && timeout > 0 && i.Add?
    requires log.window.Some? ==> log.window.value.plan != i.plan && !Idle(log.window.value, i.now, timeout)
    ensures LogFits(Step(log, i, timeout), timeout)
  {
    FreshStep(log, i, timeout);
    OneReport(i, timeout);
    if log.window.Some? {
      CloseFits(log, log.open, LayoutChange, i, timeout);
    }
    assert [] + [i] == [i];
  }

  lemma SamePlanFits(log: Log, i: Input, timeout: int)
    requires LogFits(log, timeout) && ValidInput(i) && timeout > 0 && i.Add?
    requires log.window.Some? && log.window.value.plan == i.plan && !Idle(log.window.value, i.now, timeout)
    ensures var (window, outcome) := Outcomes(log.window, i, timeout);
            LogFits(Take(log, i, window, outcome), timeout)
  {
    var w := log.window.value;
    var touched := Touch(w, i.now, i.observedAt);
    if touched.lastObservedAt - touched.firstObservedAt <= timeout {
      InWindowFits(log, i, timeout);
    } else {
      OneReport(i, timeout);
      SpanExceeded(w, log.open, i, timeout);
      CloseFits(log, log.open, OutsideWindow, i, timeout);
      OpenFits(Close(log, log.open, OutsideWindow, i), Store(Fresh(i.plan, i.now, i.observedAt), i.report), [i],
          timeout);
    }
  }

  lemma SpanExceeded(w: Window, adds: seq<Input>, i: Input, timeout: int)
    requires Summarizes(w, adds, timeout) && i.Add?
    requires var t := Touch(w, i.now, i.observedAt); t.lastObservedAt - t.firstObservedAt > timeout
    ensures TooFar(adds, i, timeout)
  {
    var f :| 0 <= f < |adds| && w.firstObservedAt == adds[f].observedAt;
    var l :| 0 <= l < |adds| && w.lastObservedAt == adds[l].observedAt;
    assert adds[l].observedAt - adds[f].observedAt <= timeout;
  }

  lemma OpenFits(log: Log, w: Window, adds: seq<Input>, timeout: int)
    requires LogFits(log, timeout) && Summarizes(w, adds, timeout)
    ensures LogFits(Log(Some(w), adds, log.closed), timeout)
  {
  }

  lemma InWindowFits(log: Log, i: Input, timeout: int)
    requires LogFits(log, timeout) && ValidInput(i) && timeout > 0 && i.Add?
    requires log.window.Some? && log.window.value.plan == i.plan && !Idle(log.window.value, i.now, timeout)
    requires var t := Touch(log.window.value, i.now, i.observedAt); t.lastObservedAt - t.firstObservedAt <= timeout
    ensures var (window, outcome) := Outcomes(log.window, i, timeout);
            LogFits(Take(log, i, window, outcome), timeout)
  {
    var w := log.window.value;
    OneMoreReport(w, log.open, i, timeout);
    var t := Store(Touch(w, i.now, i.observedAt), i.report);
    StoreSize(Touch(w, i.now, i.observedAt), i.report);
    if |t.reports| < t.plan.reportCount {
      OpenFits(log, t, log.open + [i], timeout);
    } else {
      CloseFits(log, log.open + [i], InVerdict, i, timeout);
    }
  }

  lemma FreshStep(log: Log, i: Input, timeout: int)
    requires i.Add? && ValidInput(i) && timeout > 0
    requires log.window.Some? ==> log.window.value.plan != i.plan && !Idle(log.window.value, i.now, timeout)
    ensures Outcomes(log.window, i, timeout) == (Some(Store(Fresh(i.plan, i.now, i.observedAt), i.report)), Waiting)
  {
  }

  lemma CloseChains(log: Log, adds: seq<Input>, fate: Fate, closer: Input, open: seq<Input>, window: Option<Window>)
    requires Chained(log)
    requires adds != [] && (log.open != [] ==> adds[0] == log.open[0])
    requires EndedByNextReport(fate) ==> open != [] && open[0] == closer
    requires !fate.LateOnArrival?
    ensures Chained(Log(window, open, log.closed + [Segment(adds, fate, closer)]))
  {
    var t := Log(window, open, log.closed + [Segment(adds, fate, closer)]);
    forall k | 0 <= k < |t.closed| ensures Linked(t, k) {
      if k < |log.closed| {
        assert Linked(log, k);
      }
    }
  }

  lemma LateChains(log: Log, i: Input)
    requires Chained(log) && log.open != []
    ensures Chained(Close(Close(log, log.open, IdleTimeout, i), [i], LateOnArrival, i))
  {
    var t := Close(Close(log, log.open, IdleTimeout, i), [i], LateOnArrival, i);
    forall k | 0 <= k < |t.closed| ensures Linked(t, k) {
      if k < |log.closed| {
        assert Linked(log, k);
      }
    }
  }

  lemma OpenChains(log: Log, i: Input, window: Option<Window>)
    requires Chained(log)
    ensures Chained(Log(window, log.open + [i], log.closed))
  {
    forall k | 0 <= k < |log.closed| ensures Linked(Log(window, log.open + [i], log.closed), k) {
      assert Linked(log, k);
    }
  }

  lemma StepChains(log: Log, i: Input, timeout: int)
    requires Chained(log) && LogFits(log, timeout) && ValidInput(i) && timeout > 0
    ensures Chained(Step(log, i, timeout))
  {
    if log.window.Some? && Idle(log.window.value, i.now, timeout) {
      if i.Sweep? {
        CloseChains(log, log.open, SweptAway, i, [], None);
      } else {
        LateChains(log, i);
      }
    } else if i.Add? {
      var (window, outcome) := Outcomes(log.window, i, timeout);
      if log.window.Some? && log.window.value.plan != i.plan {
        FreshStep(log, i, timeout);
        CloseChains(log, log.open, LayoutChange, i, [i], window);
        assert [] + [i] == [i];
      } else {
        TakeChains(log, i, window, outcome);
      }
    }
  }

  lemma TakeChains(log: Log, i: Input, window: Option<Window>, outcome: Outcome)
    requires Chained(log) && (outcome.TimedOut? ==> log.open != [])
    ensures Chained(Take(log, i, window, outcome))
  {
    match outcome
    case Waiting => OpenChains(log, i, window);
    case TimedOut(_) => CloseChains(log, log.open, OutsideWindow, i, [i], window);
    case Ready(_, _) => CloseChains(log, log.open + [i], InVerdict, i, [], None);
  }

  /** All reports a log accounts for. */
  function Total(log: Log): seq<Input> {
    Flatten(log.closed) + log.open
  }

  lemma CloseTotal(log: Log, adds: seq<Input>, fate: Fate, closer: Input)
    ensures Total(Close(log, adds, fate, closer)) == Flatten(log.closed) + adds
  {
  }

  lemma StepConserves(log: Log, i: Input, timeout: int)
    requires log.window.None? ==> log.open == []
    ensures Total(Step(log, i, timeout)) == Total(log) + if i.Add? then [i] else []
  {
    if log.window.Some? && Idle(log.window.value, i.now, timeout) {
      CloseTotal(log, log.open, SweptAway, i);
      CloseTotal(log, log.open, IdleTimeout, i);
      CloseTotal(Close(log, log.open, IdleTimeout, i), [i], LateOnArrival, i);
    } else if i.Add? {
      CloseTotal(log, log.open, LayoutChange, i);
      var l := Relaid(log, i);
      assert Total(l) == Total(log);
      TakeConserves(l, i, Outcomes(log.window, i, timeout).0, Outcomes(log.window, i, timeout).1);
    }
  }

  lemma TakeConserves(log: Log, i: Input, window: Option<Window>, outcome: Outcome)
    ensures Total(Take(log, i, window, outcome)) == Total(log) + [i]
  {
  }

  lemma LongerRunDates(h: seq<Input>, i: Input, closed: seq<Segment>)
    requires Dated(h, closed)
    ensures Dated(h + [i], closed)
  {
    forall k | 0 <= k < |closed| ensures Ended(h + [i], closed, k) {
      assert Ended(h, closed, k);
      var p :| EndedAt(h, closed, k, p);
      assert (h + [i])[..EndOf(closed[k], p)] == h[..EndOf(closed[k], p)];
      assert EndedAt(h + [i], closed, k, p);
    }
  }

  lemma OneMoreDates(h: seq<Input>, closed: seq<Segment>, s: Segment, p: nat)
    requires Dated(h, closed) && p < |h| && h[p] == s.closer
    requires Flatten(closed) + s.adds == OnlyAdds(h[..EndOf(s, p)])
    ensures Dated(h, closed + [s])
  {
    var more := closed + [s];
    forall k | 0 <= k < |more| ensures Ended(h, more, k) {
      if k < |closed| {
        assert Ended(h, closed, k);
        var q :| EndedAt(h, closed, k, q);
        assert more[..k + 1] == closed[..k + 1];
        assert EndedAt(h, more, k, q);
      } else {
        assert more[..k + 1] == more && more[..|closed|] == closed;
        assert EndedAt(h, more, k, p);
      }
    }
  }

  /** The last input of a run ends a collection. */
  lemma LastDates(h: seq<Input>, i: Input, closed: seq<Segment>, s: Segment)
    requires Dated(h + [i], closed) && s.closer == i
    requires Flatten(closed) + s.adds == if EndOf(s, 0) == 1 then OnlyAdds(h + [i]) else OnlyAdds(h)
    ensures Dated(h + [i], closed + [s])
  {
    assert (h + [i])[..|h|] == h && (h + [i])[..|h| + 1] == h + [i];
    OneMoreDates(h + [i], closed, s, |h|);
  }

  lemma StepDates(h: seq<Input>, log: Log, i: Input, timeout: int)
    requires Dated(h, log.closed) && Total(log) == OnlyAdds(h) && (log.window.None? ==> log.open == [])
    ensures Dated(h + [i], Step(log, i, timeout).closed)
  {
    assert (h + [i])[..|h|] == h;
    LongerRunDates(h, i, log.closed);
    if log.window.Some? && Idle(log.window.value, i.now, timeout) {
      if i.Sweep? {
        LastDates(h, i, log.closed, Segment(log.open, SweptAway, i));
      } else {
        LastDates(h, i, log.closed, Segment(log.open, IdleTimeout, i));
        CloseTotal(log, log.open, IdleTimeout, i);
        LastDates(h, i, Close(log, log.open, IdleTimeout, i).closed, Segment([i], LateOnArrival, i));
      }
    } else if i.Add? {
      var (window, outcome) := Outcomes(log.window, i, timeout);
      if log.window.Some? && log.window.value.plan != i.plan {
        LastDates(h, i, log.closed, Segment(log.open, LayoutChange, i));
        CloseTotal(log, log.open, LayoutChange, i);
      }
      TakeDates(h, Relaid(log, i), i, window, outcome);
    }
  }

  lemma TakeDates(h: seq<Input>, log: Log, i: Input, window: Option<Window>, outcome: Outcome)
    requires i.Add? && Dated(h + [i], log.closed) && Total(log) == OnlyAdds(h)
    ensures Dated(h + [i], Take(log, i, window, outcome).closed)
  {
    assert (h + [i])[..|h|] == h;
    match outcome
    case Waiting =>
    case TimedOut(_) => LastDates(h, i, log.closed, Segment(log.open, OutsideWindow, i));
    case Ready(_, _) =>
      assert Flatten(log.closed) + (log.open + [i]) == Total(log) + [i];
      LastDates(h, i, log.closed, Segment(log.open + [i], InVerdict, i));
  }

  /** i is what ends the collection made of adds. */
  ghost predicate Ends(adds: seq<Input>, i: Input, timeout: int)
    requires Incomplete(adds, timeout)
  {
    || Overdue(adds, i, timeout)
    || (i.Add? && (
          || i.plan != adds[0].plan
          || TooFar(adds, i, timeout)
          || |LastWriter(adds + [i])| == adds[0].plan.reportCount))
  }

  /** An open collection goes on exactly as long as nothing comes that ends it. */
  lemma CollectionEndsIff(log: Log, i: Input, timeout: int)
    requires LogFits(log, timeout) && ValidInput(i) && timeout > 0 && log.window.Some?
    ensures Step(log, i, timeout).closed != log.closed <==> Ends(log.open, i, timeout)
    ensures !Ends(log.open, i, timeout) ==>
      Step(log, i, timeout).open == log.open + if i.Add? then [i] else []
  {
    var w := log.window.value;
    if !Idle(w, i.now, timeout) && i.Add? {
      if w.plan == i.plan {
        SamePlanEndsIff(log, i, timeout);
      } else {
        assert Step(log, i, timeout).closed[|log.closed|] == Segment(log.open, LayoutChange, i);
      }
    }
  }

  lemma SamePlanEndsIff(log: Log, i: Input, timeout: int)
    requires LogFits(log, timeout) && ValidInput(i) && timeout > 0 && i.Add?
    requires log.window.Some? && log.window.value.plan == i.plan && !Idle(log.window.value, i.now, timeout)
    ensures var (window, outcome) := Outcomes(log.window, i, timeout);
      && (outcome.Waiting? <==> !Ends(log.open, i, timeout))
      && (outcome.TimedOut? ==> TooFar(log.open, i, timeout))
  {
    var w := log.window.value;
    if TooFar(log.open, i, timeout) {
      TooFarExceeds(w, log.open, i, timeout);
    } else {
      if Touch(w, i.now, i.observedAt).lastObservedAt - Touch(w, i.now, i.observedAt).firstObservedAt > timeout {
        SpanExceeded(w, log.open, i, timeout);
      }
      OneMoreReport(w, log.open, i, timeout);
      StoreSize(Touch(w, i.now, i.observedAt), i.report);
    }
  }

  lemma TooFarExceeds(w: Window, adds: seq<Input>, i: Input, timeout: int)
    requires Summarizes(w, adds, timeout) && i.Add? && TooFar(adds, i, timeout)
    ensures var t := Touch(w, i.now, i.observedAt); t.lastObservedAt - t.firstObservedAt > timeout
  {
  }

  /**
   * In every run every report is in exactly one place, in order of arrival: in the open collection, or
   * in a closed one with a fate and the cause that the fate names, which occurred in the run right then.
   * The window is determined by the open reports alone, so within a collection a report counts exactly
   * when no later one came from its node.
   */
  lemma {:induction false} EveryReportIsAccountedFor(h: seq<Input>, timeout: int)
    requires timeout > 0 && forall i :: 0 <= i < |h| ==> ValidInput(h[i])
    ensures LogFits(After(h, timeout), timeout)
    ensures Chained(After(h, timeout))
    ensures Dated(h, After(h, timeout).closed)
    ensures Total(After(h, timeout)) == OnlyAdds(h)
  {
    if h == [] {
    } else {
      var front, last := h[..|h| - 1], h[|h| - 1];
      EveryReportIsAccountedFor(front, timeout);
      StepChains(After(front, timeout), last, timeout);
      StepFits(After(front, timeout), last, timeout);
      StepConserves(After(front, timeout), last, timeout);
      assert h == front + [last];
      StepDates(front, After(front, timeout), last, timeout);
    }
  }

  ghost predicate IsSuffixOf<T>(s: seq<T>, t: seq<T>) {
    |s| <= |t| && s == t[|t| - |s|..]
  }

  ghost predicate CompletedBy(s: seq<Input>, i: Input, timeout: int) {
    Complete(s, timeout) && s[|s| - 1] == i
  }

  /**
   * Whenever a verdict is given, it is computed from the last reports of exactly the expected number of
   * distinct nodes, all from one collection that ends with this report.
   */
  lemma VerdictIsSafe(h: seq<Input>, i: Input, timeout: int)
    requires timeout > 0 && i.Add? && ValidInput(i) && forall j :: 0 <= j < |h| ==> ValidInput(h[j])
    requires Outcomes(After(h, timeout).window, i, timeout).1.Ready?
    ensures exists s ::
      && IsSuffixOf(s, OnlyAdds(h + [i])) && CompletedBy(s, i, timeout)
      && Outcomes(After(h, timeout).window, i, timeout).1 == Ready(LastWriter(s), i.plan.batchCount)
  {
    var log := After(h, timeout);
    EveryReportIsAccountedFor(h, timeout);
    if log.window.Some? && log.window.value.plan == i.plan {
      ReadyClosesOpen(log, i, timeout);
      var s := log.open + [i];
      OpenIsSuffix(h, i, timeout);
      assert IsSuffixOf(s, OnlyAdds(h + [i]));
    } else {
      FreshStep(log, i, timeout);
    }
  }

  lemma ReadyClosesOpen(log: Log, i: Input, timeout: int)
    requires LogFits(log, timeout) && ValidInput(i) && timeout > 0 && i.Add?
    requires log.window.Some? && log.window.value.plan == i.plan && Outcomes(log.window, i, timeout).1.Ready?
    ensures CompletedBy(log.open + [i], i, timeout)
    ensures Outcomes(log.window, i, timeout).1 == Ready(LastWriter(log.open + [i]), i.plan.batchCount)
  {
    var w := log.window.value;
    OneMoreReport(w, log.open, i, timeout);
    StoreSize(Touch(w, i.now, i.observedAt), i.report);
  }

  lemma OpenIsSuffix(h: seq<Input>, i: Input, timeout: int)
    requires i.Add? && Total(After(h, timeout)) == OnlyAdds(h)
    ensures IsSuffixOf(After(h, timeout).open + [i], OnlyAdds(h + [i]))
  {
    assert (h + [i])[..|h|] == h;
    assert OnlyAdds(h + [i]) == Flatten(After(h, timeout).closed) + (After(h, timeout).open + [i]);
  }

  // ---- The other keys ----

  /** The calls that concern one key. */
  function History(calls: seq<Call>, key: Key): seq<Input> {
    if calls == [] then [] else
      var c := calls[|calls| - 1];
      History(calls[..|calls| - 1], key) +
        match c
        case AddCall(k, report, plan, now, observedAt) => if k == key then [Add(report, plan, now, observedAt)] else []
        case SweepCall(now) => [Sweep(now)]
  }

  /** Each key evolves by its own reports and the sweeps, as if there were no other key. */
  lemma {:induction false} KeysAreIndependent(calls: seq<Call>, key: Key, timeout: int)
    ensures Lookup(Run(calls, timeout), key) == After(History(calls, key), timeout).window
  {
    if calls == [] {
    } else {
      var front, c := calls[..|calls| - 1], calls[|calls| - 1];
      KeysAreIndependent(front, key, timeout);
      var h, state := History(front, key), Run(front, timeout);
      if c.SweepCall? {
        WindowAfter(h, Sweep(c.now), timeout);
      } else if c.key == key {
        WindowAfter(h, Add(c.report, c.plan, c.now, c.observedAt), timeout);
      } else {
        assert h + [] == h;
      }
    }
  }

  lemma WindowAfter(h: seq<Input>, i: Input, timeout: int)
    ensures After(h + [i], timeout) == Step(After(h, timeout), i, timeout)
    ensures i.Add? ==> After(h + [i], timeout).window == Outcomes(After(h, timeout).window, i, timeout).0
    ensures i.Sweep? ==> var w := After(h, timeout).window;
      After(h + [i], timeout).window == if w.Some? && Idle(w.value, i.now, timeout) then None else w
  {
  }

  lemma {:induction false} HistoryIsValid(calls: seq<Call>, key: Key)
    requires AllUsable(calls)
    ensures forall i :: 0 <= i < |History(calls, key)| ==> ValidInput(History(calls, key)[i])
  {
    if calls == [] {
    } else {
      HistoryIsValid(calls[..|calls| - 1], key);
    }
  }

  function InputOf(e: ReportParser.Extracted, observedAt: int, now: int): (i: Input)
    ensures i.Add?
  {
    Add(NodeReportOf(e.report, e.results), e.plan, now, observedAt)
  }

  /** s, the latest reports for a key, is one complete collection whose verdict may be slow. */
  ghost predicate Justifies(s: seq<Input>, h: seq<Input>, last: Input, timeout: int, slow: seq<string>) {
    IsSuffixOf(s, OnlyAdds(h)) && CompletedBy(s, last, timeout)
        && Detection.IsVerdict(LastWriter(s), last.plan.batchCount, slow)
  }

  /**
   * In every run, a call that answers with a verdict computed it from one complete collection of its own
   * key, ending with its own report.
   */
  lemma FinishedCallIsSafe(
    calls: seq<Call>, before: map<Key, Window>, after: map<Key, Window>, timeout: int,
    key: Key, e: ReportParser.Extracted, observedAt: int, now: int, result: AddResult)
    requires timeout > 0 && Usable(e) && Records(calls, before, timeout)
    requires Adds(before, after, timeout, key, e, observedAt, now, result) && result.Finished?
    ensures exists s :: Justifies(s, History(calls, key) + [InputOf(e, observedAt, now)], InputOf(e, observedAt, now),
        timeout, result.slowNodes)
  {
    var h, i := History(calls, key), InputOf(e, observedAt, now);
    KeysAreIndependent(calls, key, timeout);
    HistoryIsValid(calls, key);
    VerdictIsSafe(h, i, timeout);
    var s :|
      && IsSuffixOf(s, OnlyAdds(h + [i])) && CompletedBy(s, i, timeout)
      && Outcomes(After(h, timeout).window, i, timeout).1 == Ready(LastWriter(s), i.plan.batchCount);
    assert Justifies(s, h + [i], i, timeout, result.slowNodes);
  }

  /** err names the nodes of s, the latest reports for a key, which are one incomplete collection. */
  ghost predicate Excuses(s: seq<Input>, h: seq<Input>, timeout: int, err: TimeoutError) {
    && IsSuffixOf(s, OnlyAdds(h)) && Incomplete(s, timeout)
    && IsSortedListOf(err.reportedNodes, LastWriter(s).Keys)
    && err.expectedReports == s[0].plan.reportCount && err.timeout == timeout
  }

  /** A call that answers with a timeout names exactly the nodes that had reported for its own key before it. */
  lemma ExpiredCallIsSafe(
    calls: seq<Call>, before: map<Key, Window>, after: map<Key, Window>, timeout: int,
    key: Key, e: ReportParser.Extracted, observedAt: int, now: int, result: AddResult)
    requires timeout > 0 && Usable(e) && Records(calls, before, timeout)
    requires Adds(before, after, timeout, key, e, observedAt, now, result) && result.Expired?
    ensures result.err.key == key && exists s :: Excuses(s, History(calls, key), timeout, result.err)
  {
    var h, i := History(calls, key), InputOf(e, observedAt, now);
    KeysAreIndependent(calls, key, timeout);
    HistoryIsValid(calls, key);
    EveryReportIsAccountedFor(h, timeout);
    var log := After(h, timeout);
    TimeoutIsOfTheWindow(log.window, i, timeout);
    var s := log.open;
    assert OnlyAdds(h) == Flatten(log.closed) + s;
    assert Excuses(s, h, timeout, result.err);
  }

  lemma TimeoutIsOfTheWindow(window: Option<Window>, i: Input, timeout: int)
    requires i.Add? && timeout > 0 && Outcomes(window, i, timeout).1.TimedOut?
    ensures window.Some?
    ensures var w := Outcomes(window, i, timeout).1.window;
        w.reports == window.value.reports && w.plan == window.value.plan
  {
  }

  // ---- The order of arrival ----

  function LastAddAt(h: seq<Input>): Option<int> {
    if h == [] then None else if h[|h| - 1].Add? then Some(h[|h| - 1].now) else LastAddAt(h[..|h| - 1])
  }

  /** Nothing in h, report or sweep, comes so long after the report before it that the collection expires. */
  ghost predicate Timely(h: seq<Input>, timeout: int) {
    h == [] || (
      var front, last := h[..|h| - 1], h[|h| - 1];
      Timely(front, timeout) && (LastAddAt(front).Some? ==> last.now < LastAddAt(front).value + timeout))
  }

  /** Timely reports of distinct nodes for one plan, observed within the timeout of each other. */
  ghost predicate Arrivals(h: seq<Input>, plan: Plan, timeout: int) {
    Timely(h, timeout) && ValidPlan(plan) && Compatible(OnlyAdds(h), plan, timeout)
  }

  ghost predicate Compatible(adds: seq<Input>, plan: Plan, timeout: int)
    requires forall a :: a in adds ==> a.Add?
  {
    && (forall i :: 0 <= i < |adds| ==> adds[i].plan == plan && adds[i].report.nodeName != "")
    && DistinctNodes(adds)
    && (forall i, j :: 0 <= i < |adds| && 0 <= j < |adds| ==> adds[i].observedAt - adds[j].observedAt <= timeout)
  }

  lemma CompatibleFront(adds: seq<Input>, i: Input, plan: Plan, timeout: int)
    requires i.Add? && (forall a :: a in adds ==> a.Add?) && Compatible(adds + [i], plan, timeout)
    ensures Compatible(adds, plan, timeout)
    ensures i.plan == plan && i.report.nodeName != ""
  {
    var all := adds + [i];
    assert all[|adds|] == i;
    forall j | 0 <= j < |adds| ensures adds[j] == all[j] {
    }
  }

  /** Exactly one report of each node named in adds. */
  ghost predicate DistinctNodes(adds: seq<Input>)
    requires forall a :: a in adds ==> a.Add?
  {
    forall i, j :: 0 <= i < j < |adds| ==> adds[i].report.nodeName != adds[j].report.nodeName
  }

  /** m holds the reports of adds under the names of their nodes. */
  ghost predicate HoldsReports(m: map<string, NodeReport>, adds: seq<Input>)
    requires forall a :: a in adds ==> a.Add?
  {
    forall i :: 0 <= i < |adds| ==> adds[i].report.nodeName in m && m[adds[i].report.nodeName] == adds[i].report
  }

  lemma {:induction false} LastWriterOfDistinct(adds: seq<Input>)
    requires (forall a :: a in adds ==> a.Add?) && DistinctNodes(adds)
    ensures |LastWriter(adds)| == |adds|
    ensures HoldsReports(LastWriter(adds), adds)
  {
    if adds == [] {
    } else {
      var front, last := adds[..|adds| - 1], adds[|adds| - 1];
      assert adds == front + [last];
      LastWriterOfDistinct(front);
      LastWriterNames(front);
      OneMoreKey(LastWriter(front), last.report.nodeName, last.report);
      OneMoreHeld(LastWriter(front), front, last);
    }
  }

  lemma OneMoreHeld(m: map<string, NodeReport>, front: seq<Input>, last: Input)
    requires (forall a :: a in front ==> a.Add?) && last.Add? && HoldsReports(m, front) && last.report.nodeName !in m
    ensures HoldsReports(m[last.report.nodeName := last.report], front + [last])
  {
  }

  lemma OneMoreKey<K, V>(m: map<K, V>, k: K, v: V)
    requires k !in m
    ensures |m[k := v]| == |m| + 1
  {
  }

  lemma {:induction false} LastWriterNames(adds: seq<Input>)
    requires forall a :: a in adds ==> a.Add?
    ensures forall n :: n in LastWriter(adds) ==> exists i :: 0 <= i < |adds| && adds[i].report.nodeName == n
  {
    if adds == [] {
    } else {
      var k := |adds| - 1;
      LastWriterNames(adds[..k]);
      forall n | n in LastWriter(adds) ensures exists i :: 0 <= i < |adds| && adds[i].report.nodeName == n {
        if n != adds[k].report.nodeName {
          var front := adds[..k];
          assert n in LastWriter(front);
          var i :| 0 <= i < |front| && front[i].report.nodeName == n;
          assert adds[i].report.nodeName == n;
        }
      }
    }
  }

  lemma ArrivalsFront(h: seq<Input>, plan: Plan, timeout: int)
    requires Arrivals(h, plan, timeout) && h != []
    ensures Arrivals(h[..|h| - 1], plan, timeout)
  {
    var front, last := OnlyAdds(h[..|h| - 1]), h[|h| - 1];
    if last.Add? {
      CompatibleFront(front, last, plan, timeout);
    } else {
      assert OnlyAdds(h) == front;
    }
  }

  lemma {:induction false} LastAddIsLast(h: seq<Input>)
    ensures LastAddAt(h).Some? <==> OnlyAdds(h) != []
    ensures LastAddAt(h).Some? ==> LastAddAt(h).value == OnlyAdds(h)[|OnlyAdds(h)| - 1].now
  {
    if h == [] {
    } else {
      LastAddIsLast(h[..|h| - 1]);
    }
  }

  /** The log of a key whose reports so far all wait in one open collection. */
  ghost predicate AllOpen(log: Log, adds: seq<Input>, timeout: int) {
    LogFits(log, timeout) && log.open == adds && log.closed == []
  }

  /** While reports are missing, all that arrived are in the open collection. */
  lemma {:induction false} ArrivalsWait(h: seq<Input>, plan: Plan, timeout: int)
    requires Arrivals(h, plan, timeout) && timeout > 0 && |OnlyAdds(h)| < plan.reportCount
    ensures AllOpen(After(h, timeout), OnlyAdds(h), timeout)
  {
    if h == [] {
    } else {
      var front, last := h[..|h| - 1], h[|h| - 1];
      ArrivalsFront(h, plan, timeout);
      ArrivalsWait(front, plan, timeout);
      LastAddIsLast(front);
      if last.Add? {
        OneMoreWaits(OnlyAdds(front), After(front, timeout), last, plan, timeout);
      } else {
        SweepChangesNothing(OnlyAdds(front), After(front, timeout), last, timeout);
      }
    }
  }

  lemma OneMoreWaits(adds: seq<Input>, log: Log, i: Input, plan: Plan, timeout: int)
    requires (forall a :: a in adds ==> a.Add?) && AllOpen(log, adds, timeout)
    requires timeout > 0 && i.Add? && ValidPlan(plan) && Compatible(adds + [i], plan, timeout)
        && |adds| + 1 < plan.reportCount
    requires adds != [] ==> i.now < adds[|adds| - 1].now + timeout
    ensures AllOpen(Step(log, i, timeout), adds + [i], timeout)
  {
    NextArrival(adds, log, i, plan, timeout);
    StepFits(log, i, timeout);
  }

  lemma SweepChangesNothing(adds: seq<Input>, log: Log, i: Input, timeout: int)
    requires (forall a :: a in adds ==> a.Add?) && AllOpen(log, adds, timeout) && i.Sweep?
    requires adds != [] ==> i.now < adds[|adds| - 1].now + timeout
    ensures Step(log, i, timeout) == log
  {
  }

  /** One more arrival waits, unless it is the last one missing: then it completes the collection. */
  lemma NextArrival(adds: seq<Input>, log: Log, i: Input, plan: Plan, timeout: int)
    requires (forall a :: a in adds ==> a.Add?) && AllOpen(log, adds, timeout)
    requires timeout > 0 && i.Add? && ValidPlan(plan) && Compatible(adds + [i], plan, timeout)
        && |adds| < plan.reportCount
    requires adds != [] ==> i.now < adds[|adds| - 1].now + timeout
    ensures ValidInput(i)
    ensures log.window.Some? ==> !Idle(log.window.value, i.now, timeout) && log.window.value.plan == i.plan
    ensures var outcome := Outcomes(log.window, i, timeout).1;
      if |adds| + 1 < plan.reportCount then outcome == Waiting
      else outcome == Ready(LastWriter(adds + [i]), plan.batchCount)
  {
    CompatibleFront(adds, i, plan, timeout);
    LastWriterOfDistinct(adds + [i]);
    if log.window.Some? {
      var w := log.window.value;
      TouchedWithinWindow(w, adds, i, timeout);
      OneMoreReport(w, adds, i, timeout);
    } else {
      FreshStep(log, i, timeout);
    }
  }

  lemma TouchedWithinWindow(w: Window, adds: seq<Input>, i: Input, timeout: int)
    requires Summarizes(w, adds, timeout) && i.Add?
    requires forall j, k :: 0 <= j < |adds + [i]| && 0 <= k < |adds + [i]|
               ==> (adds + [i])[j].observedAt - (adds + [i])[k].observedAt <= timeout
    ensures var t := Touch(w, i.now, i.observedAt); t.lastObservedAt - t.firstObservedAt <= timeout
  {
    var f :| 0 <= f < |adds| && w.firstObservedAt == adds[f].observedAt;
    var l :| 0 <= l < |adds| && w.lastObservedAt == adds[l].observedAt;
    var all := adds + [i];
    assert all[f] == adds[f] && all[l] == adds[l] && all[|adds|] == i;
    assert all[l].observedAt - all[f].observedAt <= timeout;
    assert all[|adds|].observedAt - all[f].observedAt <= timeout;
    assert all[l].observedAt - all[|adds|].observedAt <= timeout;
  }

  /** h ends with the report that makes the collection complete. */
  ghost predicate LastOneIn(h: seq<Input>, plan: Plan, timeout: int) {
    && h != [] && h[|h| - 1].Add? && Arrivals(h, plan, timeout)
    && |OnlyAdds(h)| == plan.reportCount
  }

  function LastOutcome(h: seq<Input>, timeout: int): Outcome
    requires h != [] && h[|h| - 1].Add?
  {
    Outcomes(After(h[..|h| - 1], timeout).window, h[|h| - 1], timeout).1
  }

  ghost predicate SameReports(h: seq<Input>, k: seq<Input>) {
    forall r :: Reported(OnlyAdds(h), r) <==> Reported(OnlyAdds(k), r)
  }

  ghost predicate Reported(adds: seq<Input>, r: NodeReport)
    requires forall a :: a in adds ==> a.Add?
  {
    exists i :: 0 <= i < |adds| && adds[i].report == r
  }

  /** Every report but the last waits, and the last is answered with all reports. */
  lemma LastArrivalIsReady(h: seq<Input>, plan: Plan, timeout: int)
    requires timeout > 0 && LastOneIn(h, plan, timeout)
    ensures After(h[..|h| - 1], timeout).closed == []
    ensures LastOutcome(h, timeout) == Ready(LastWriter(OnlyAdds(h)), plan.batchCount)
  {
    var front, last := h[..|h| - 1], h[|h| - 1];
    ArrivalsFront(h, plan, timeout);
    ArrivalsWait(front, plan, timeout);
    LastAddIsLast(front);
    NextArrival(OnlyAdds(front), After(front, timeout), last, plan, timeout);
  }

  lemma SameReportsSubmap(s: seq<Input>, t: seq<Input>, n: string)
    requires (forall a :: a in s ==> a.Add?) && (forall a :: a in t ==> a.Add?) && DistinctNodes(s) && DistinctNodes(t)
    requires forall r :: Reported(s, r) ==> Reported(t, r)
    ensures n in LastWriter(s) ==> n in LastWriter(t) && LastWriter(t)[n] == LastWriter(s)[n]
  {
    LastWriterOfDistinct(s);
    LastWriterOfDistinct(t);
    LastWriterNames(s);
    if n in LastWriter(s) {
      var i :| 0 <= i < |s| && s[i].report.nodeName == n;
      assert Reported(s, s[i].report);
      var j :| 0 <= j < |t| && t[j].report == s[i].report;
    }
  }

  lemma SameReportsSameMap(s: seq<Input>, t: seq<Input>)
    requires (forall a :: a in s ==> a.Add?) && (forall a :: a in t ==> a.Add?) && DistinctNodes(s) && DistinctNodes(t)
    requires forall r :: Reported(s, r) <==> Reported(t, r)
    ensures LastWriter(s) == LastWriter(t)
  {
    forall n
      ensures n in LastWriter(s) ==> n in LastWriter(t) && LastWriter(t)[n] == LastWriter(s)[n]
      ensures n in LastWriter(t) ==> n in LastWriter(s)
    {
      SameReportsSubmap(s, t, n);
      SameReportsSubmap(t, s, n);
    }
  }

  /** The same reports in any order, at any timely moments and between any sweeps, end in the same verdict. */
  lemma ArrivalOrderIsIrrelevant(
    h: seq<Input>, k: seq<Input>, plan: Plan, timeout: int, s: seq<string>, t: seq<string>)
    requires timeout > 0 && LastOneIn(h, plan, timeout) && LastOneIn(k, plan, timeout) && SameReports(h, k)
    ensures LastOutcome(h, timeout) == LastOutcome(k, timeout) && LastOutcome(h, timeout).Ready?
    ensures var all := LastOutcome(h, timeout).reports;
      && VerdictLaws.IPsIdentifyNodes(all)
      && Detection.IsVerdict(all, plan.batchCount, s) && Detection.IsVerdict(all, plan.batchCount, t)
      ==> s == t
  {
    LastArrivalIsReady(h, plan, timeout);
    LastArrivalIsReady(k, plan, timeout);
    SameReportsSameMap(OnlyAdds(h), OnlyAdds(k));
    var all := LastOutcome(h, timeout).reports;
    if VerdictLaws.IPsIdentifyNodes(all) && Detection.IsVerdict(all, plan.batchCount, s)
        && Detection.IsVerdict(all, plan.batchCount, t) {
      VerdictLaws.VerdictUnique(all, plan.batchCount, s, t);
    }
  }

  /** End to end: in whatever order the reports of a scheduled check arrive, the last call names the faulty nodes. */
  lemma FaultyNodesAreFound(
    h: seq<Input>, plan: Plan, timeout: int, partner: (int, string) -> string, faulty: set<string>, slow: seq<string>)
    requires timeout > 0 && LastOneIn(h, plan, timeout)
    requires VerdictLaws.FollowsSchedule(LastWriter(OnlyAdds(h)), plan.batchCount, partner, faulty)
    requires |faulty| < plan.batchCount
    ensures LastOutcome(h, timeout).Ready?
    ensures var (all, n) := (LastOutcome(h, timeout).reports, LastOutcome(h, timeout).batchCount);
            Detection.IsVerdict(all, n, slow) ==> IsSortedListOf(slow, VerdictLaws.NodesAt(all, faulty))
  {
    LastArrivalIsReady(h, plan, timeout);
    var all := LastOutcome(h, timeout).reports;
    if Detection.IsVerdict(all, plan.batchCount, slow) {
      VerdictLaws.FewFaultsAreIdentified(all, plan.batchCount, partner, faulty, slow);
    }
  }
}

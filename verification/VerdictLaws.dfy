/** What the slow-node rule guarantees. */
module VerdictLaws {
  import opened Base
  import opened Preflight
  import opened Detection

  ghost function PairResults(reports: map<string, NodeReport>): set<BatchResult> {
    Results(PairwiseReports(reports))
  }

  ghost predicate IndexesBelow(reports: map<string, NodeReport>, n: int) {
    forall r :: r in PairResults(reports) ==> 0 <= r.batchIdx < n
  }

  /**
   * The code compares only the number of failing batches with the expected number. Since
   * indices are in range, that comparison means: an IP is named when it fails in every batch.
   */
  lemma NamedIffFailsEverywhere(reports: map<string, NodeReport>, expected: nat, ip: string)
    requires !HasFailFast(reports) && expected > 0 && IndexesBelow(reports, expected)
    ensures ip in NamedIPs(reports, expected) <==>
            forall b :: 0 <= b < expected ==> FailsIn(PairResults(reports), b, ip)
  {
    var results := PairResults(reports);
    var failed := FailedBatches(results);
    assert failed <= Below(expected);
    SubsetSize(failed, Below(expected));
    if forall b :: 0 <= b < expected ==> FailsIn(results, b, ip) {
      forall b | b in Below(expected) ensures b in failed {
        assert FailsIn(results, b, ip);
      }
      assert failed == Below(expected);
      assert 0 in failed;
    }
  }

  /** The node itself reports a failure of batch b. */
  ghost predicate FailsBatch(r: NodeReport, b: int) {
    exists x :: x in r.batchResults && x.batchIdx == b && x.failed
      && (x.pairFirst == r.selfIP || x.pairSecond == r.selfIP)
  }

  ghost predicate FailsAllBatches(r: NodeReport, n: int) {
    forall b :: 0 <= b < n ==> FailsBatch(r, b)
  }

  /** What may be listed for a named IP: the node of one of its reporters, or else the IP itself. */
  ghost predicate StandsFor(reports: map<string, NodeReport>, ip: string, x: string) {
    if ip != "" && exists n :: n in reports && reports[n].selfIP == ip
    then exists n :: n in reports && reports[n].selfIP == ip && reports[n].nodeName == x
    else x == ip
  }

  /** The list holds the fail-fast nodes and one entry for each named IP, and nothing else. */
  lemma ListedMeans(reports: map<string, NodeReport>, expected: int, slow: seq<string>)
    requires IsVerdict(reports, expected, slow)
    ensures forall n :: n in reports && reports[n].failFast ==> reports[n].nodeName in slow
    ensures forall ip :: ip in NamedIPs(reports, expected) ==> exists x :: x in slow && StandsFor(reports, ip, x)
    ensures forall x :: x in slow ==>
      (exists n :: n in reports && reports[n].failFast && reports[n].nodeName == x)
      || exists ip :: ip in NamedIPs(reports, expected) && StandsFor(reports, ip, x)
  {
    var names :| IsResolver(reports, names) && IsSortedListOf(slow, Verdict(reports, expected, names));
    var named := NamedIPs(reports, expected);
    forall ip ensures StandsFor(reports, ip, ResolveNodeName(names, ip)) {
      ResolvedStandsFor(reports, names, ip);
    }
    forall ip | ip in named ensures exists x :: x in slow && StandsFor(reports, ip, x) {
      assert ResolveNodeName(names, ip) in slow;
    }
    forall n | n in reports && reports[n].failFast ensures reports[n].nodeName in slow {
      assert reports[n].nodeName in FailFastNames(reports);
    }
  }

  lemma ResolvedStandsFor(reports: map<string, NodeReport>, names: map<string, string>, ip: string)
    requires IsResolver(reports, names)
    ensures StandsFor(reports, ip, ResolveNodeName(names, ip))
  {
  }

  /** A node that alone has its IP and reports a failure of every batch is listed, when nobody fails fast. */
  lemma FailingEverywhereIsNamed(reports: map<string, NodeReport>, expected: nat, n: string, slow: seq<string>)
    requires !HasFailFast(reports) && expected > 0 && IndexesBelow(reports, expected) && n in reports
    requires forall m :: m in reports && reports[m].selfIP == reports[n].selfIP ==> m == n
    requires reports[n].nodeName == n && reports[n].selfIP != "" && FailsAllBatches(reports[n], expected)
    requires IsVerdict(reports, expected, slow)
    ensures n in slow
  {
    var ip := reports[n].selfIP;
    assert n in PairwiseReports(reports);
    forall b | 0 <= b < expected ensures FailsIn(PairResults(reports), b, ip) {
      assert FailsBatch(reports[n], b);
    }
    NamedIffFailsEverywhere(reports, expected, ip);
    ListedMeans(reports, expected, slow);
  }

  predicate EndsIn(r: BatchResult, ips: set<string>) {
    r.pairFirst in ips && r.pairSecond in ips
  }

  /** Nobody fails fast, but every node reports a failure of every batch. */
  ghost predicate NobodyPasses(reports: map<string, NodeReport>, expected: nat) {
    && OwnNames(reports) && IndexesBelow(reports, expected) && !HasFailFast(reports)
    && (reports != map[] ==> expected > 0)
    && forall n :: n in reports ==> FailsAllBatches(reports[n], expected)
  }

  lemma NobodyPassesListsAll(reports: map<string, NodeReport>, expected: nat, slow: seq<string>)
    requires NobodyPasses(reports, expected) && IsVerdict(reports, expected, slow)
    ensures forall n :: n in reports ==> n in slow
  {
    forall n | n in reports ensures n in slow {
      FailingEverywhereIsNamed(reports, expected, n, slow);
    }
  }

  /** Then all nodes are listed, and nobody else when the pairs join their addresses. */
  lemma NobodyPassesListsNodes(reports: map<string, NodeReport>, expected: nat, slow: seq<string>)
    requires NobodyPasses(reports, expected) && IsVerdict(reports, expected, slow)
    requires forall n, r :: n in reports && r in reports[n].batchResults ==> EndsIn(r, IPs(reports))
    ensures IsSortedListOf(slow, reports.Keys)
  {
    NobodyPassesListsAll(reports, expected, slow);
    forall x | x in slow ensures x in reports {
      var ip := NamedFor(reports, expected, slow, x);
      NamedEndsIn(reports, IPs(reports), expected, ip);
      ReporterAt(reports, ip, x);
    }
  }

  lemma NamedFor(reports: map<string, NodeReport>, expected: int, slow: seq<string>, x: string) returns (ip: string)
    requires !HasFailFast(reports) && IsVerdict(reports, expected, slow) && x in slow
    ensures ip in NamedIPs(reports, expected) && StandsFor(reports, ip, x)
  {
    ListedMeans(reports, expected, slow);
    ip :| ip in NamedIPs(reports, expected) && StandsFor(reports, ip, x);
  }

  lemma ReporterAt(reports: map<string, NodeReport>, ip: string, x: string)
    requires OwnNames(reports) && ip in IPs(reports) && StandsFor(reports, ip, x)
    ensures x in reports
  {
  }

  lemma NamedEndsIn(reports: map<string, NodeReport>, ips: set<string>, expected: int, ip: string)
    requires forall n, r :: n in reports && r in reports[n].batchResults ==> EndsIn(r, ips)
    requires ip in NamedIPs(reports, expected)
    ensures ip in ips
  {
    var b :| b in FailedBatches(PairResults(reports));
    assert FailsIn(PairResults(reports), b, ip);
    var r :| r in PairResults(reports) && r.failed && r.batchIdx == b && (r.pairFirst == ip || r.pairSecond == ip);
    var n :| n in PairwiseReports(reports) && r in reports[n].batchResults;
    assert EndsIn(r, ips);
  }

  /** Without fail-fast reports, a planned batch that no report covers leaves the verdict empty. */
  lemma UncoveredBatchNamesNobody(reports: map<string, NodeReport>, expected: nat, b: int, slow: seq<string>)
    requires !HasFailFast(reports) && IndexesBelow(reports, expected) && 0 <= b < expected
    requires forall r :: r in PairResults(reports) ==> r.batchIdx != b
    requires IsVerdict(reports, expected, slow)
    ensures slow == []
  {
    var names :| IsResolver(reports, names) && IsSortedListOf(slow, Verdict(reports, expected, names));
    forall ip ensures ip !in NamedIPs(reports, expected) {
      NamedIffFailsEverywhere(reports, expected, ip);
      assert !FailsIn(PairResults(reports), b, ip);
    }
    NoFailFastNoNames(reports);
    SortedListLength(slow, {});
  }

  // ---- The verdict does not depend on the order in which the maps are visited ----

  /** Reports that share a non-empty IP come from one node. */
  ghost predicate IPsIdentifyNodes(reports: map<string, NodeReport>) {
    forall m, n :: m in reports && n in reports && reports[m].selfIP == reports[n].selfIP != ""
      ==> reports[m].nodeName == reports[n].nodeName
  }

  lemma ResolverUnique(reports: map<string, NodeReport>, a: map<string, string>, b: map<string, string>)
    requires IPsIdentifyNodes(reports) && IsResolver(reports, a) && IsResolver(reports, b)
    ensures a == b
  {
  }

  lemma VerdictUnique(reports: map<string, NodeReport>, expected: int, s: seq<string>, t: seq<string>)
    requires IPsIdentifyNodes(reports) && IsVerdict(reports, expected, s) && IsVerdict(reports, expected, t)
    ensures s == t
  {
    var a :| IsResolver(reports, a) && IsSortedListOf(s, Verdict(reports, expected, a));
    var b :| IsResolver(reports, b) && IsSortedListOf(t, Verdict(reports, expected, b));
    ResolverUnique(reports, a, b);
    SortedListUnique(s, t, Verdict(reports, expected, a));
  }

  // ---- Exact fault identification ----

  ghost function IPs(reports: map<string, NodeReport>): set<string> {
    set n | n in reports :: reports[n].selfIP
  }

  ghost function NodesAt(reports: map<string, NodeReport>, ips: set<string>): set<string> {
    set n | n in reports && reports[n].selfIP in ips :: n
  }

  /** Each reporter appears under its own name, with its own non-empty IP, and did not fail fast. */
  ghost predicate PlainReporters(reports: map<string, NodeReport>) {
    && (forall n :: n in reports ==> reports[n].nodeName == n && reports[n].selfIP != "" && !reports[n].failFast)
    && (forall m, n :: m in reports && n in reports && reports[m].selfIP == reports[n].selfIP ==> m == n)
  }

  /** In each of the batches every node has one partner, never the same one twice. */
  ghost predicate Pairing(ips: set<string>, batches: nat, partner: (int, string) -> string) {
    && (forall b, x :: 0 <= b < batches && x in ips ==> partner(b, x) in ips)
    && (forall b, x, y :: 0 <= b < batches && x in ips && y in ips ==> (partner(b, x) == y <==> partner(b, y) == x))
    && (forall b, c, x :: 0 <= b < c < batches && x in ips ==> partner(b, x) != partner(c, x))
  }

  predicate Joins(r: BatchResult, x: string, y: string) {
    (r.pairFirst == x && r.pairSecond == y) || (r.pairFirst == y && r.pairSecond == x)
  }

  /** What the node at x reports: only pairs with its partners, and failures only where a faulty node takes part. */
  ghost predicate Reports(results: seq<BatchResult>, x: string, batches: nat, partner: (int, string) -> string,
      faulty: set<string>) {
    forall r :: r in results ==>
      && 0 <= r.batchIdx < batches && Joins(r, x, partner(r.batchIdx, x))
      && (r.failed ==> x in faulty || partner(r.batchIdx, x) in faulty)
  }

  /** At least one end reports that the pair of x and y failed in batch b. */
  ghost predicate PairFails(reports: map<string, NodeReport>, b: int, x: string, y: string) {
    exists n, r :: n in reports && r in reports[n].batchResults && r.failed && r.batchIdx == b && Joins(r, x, y)
  }

  /** A pair fails exactly when it touches a faulty node; it is enough that one end notices. */
  ghost predicate FollowsSchedule(
    reports: map<string, NodeReport>, batches: nat, partner: (int, string) -> string, faulty: set<string>)
  {
    && PlainReporters(reports)
    && Pairing(IPs(reports), batches, partner)
    && faulty <= IPs(reports)
    && (forall n :: n in reports ==> Reports(reports[n].batchResults, reports[n].selfIP, batches, partner, faulty))
    && (forall b, x :: 0 <= b < batches && x in faulty ==> PairFails(reports, b, x, partner(b, x)))
  }

  lemma FailsInSchedule(
    reports: map<string, NodeReport>, batches: nat, partner: (int, string) -> string, faulty: set<string>, b: int,
        x: string)
    requires FollowsSchedule(reports, batches, partner, faulty) && 0 <= b < batches
    ensures FailsIn(PairResults(reports), b, x) <==> x in IPs(reports) && (x in faulty || partner(b, x) in faulty)
  {
    if FailsIn(PairResults(reports), b, x) {
      var r :| r in PairResults(reports) && r.failed && r.batchIdx == b && (r.pairFirst == x || r.pairSecond == x);
      var n :| n in reports && r in reports[n].batchResults;
      var self := reports[n].selfIP;
      assert self in IPs(reports);
      assert Reports(reports[n].batchResults, self, batches, partner, faulty);
      assert x == self || (x == partner(b, self) && partner(b, x) == self);
    }
    if x in IPs(reports) && (x in faulty || partner(b, x) in faulty) {
      var y := partner(b, x);
      assert partner(b, y) == x;
      if x in faulty {
        FailedPairFails(reports, b, x, y);
      } else {
        FailedPairFails(reports, b, y, x);
      }
    }
  }

  lemma FailedPairFails(reports: map<string, NodeReport>, b: int, x: string, y: string)
    requires PlainReporters(reports) && PairFails(reports, b, x, y)
    ensures FailsIn(PairResults(reports), b, x) && FailsIn(PairResults(reports), b, y)
  {
    var n, r :| n in reports && r in reports[n].batchResults && r.failed && r.batchIdx == b && Joins(r, x, y);
    assert n in PairwiseReports(reports);
    assert r in PairResults(reports);
  }

  /** x is healthy, yet all its partners are faulty. */
  ghost predicate Surrounded(x: string, batches: nat, partner: (int, string) -> string, faulty: set<string>) {
    x !in faulty && forall b :: 0 <= b < batches ==> partner(b, x) in faulty
  }

  ghost function Blamed(ips: set<string>, batches: nat, partner: (int, string) -> string,
      faulty: set<string>): set<string> {
    set x | x in ips && (x in faulty || Surrounded(x, batches, partner, faulty))
  }

  /** On any schedule and any faults, the verdict lists the faulty nodes and the surrounded healthy ones. */
  lemma VerdictOnSchedule(
    reports: map<string, NodeReport>, batches: nat, partner: (int, string) -> string, faulty: set<string>,
        slow: seq<string>)
    requires FollowsSchedule(reports, batches, partner, faulty) && batches > 0
    requires IsVerdict(reports, batches, slow)
    ensures IsSortedListOf(slow, NodesAt(reports, Blamed(IPs(reports), batches, partner, faulty)))
  {
    var names :| IsResolver(reports, names) && IsSortedListOf(slow, Verdict(reports, batches, names));
    var blamed := Blamed(IPs(reports), batches, partner, faulty);
    NamedOnSchedule(reports, batches, partner, faulty);
    NamesOfIPs(reports, names, blamed);
    ScheduleIndexes(reports, batches, partner, faulty);
    NoFailFastNoNames(reports);
    OnlyNamedIPs(reports, batches, names);
  }

  lemma OnlyNamedIPs(reports: map<string, NodeReport>, expected: int, names: map<string, string>)
    requires FailFastNames(reports) == {}
    ensures Verdict(reports, expected, names) == Resolved(names, NamedIPs(reports, expected))
  {
  }

  lemma NamedOnSchedule(
    reports: map<string, NodeReport>, batches: nat, partner: (int, string) -> string, faulty: set<string>)
    requires FollowsSchedule(reports, batches, partner, faulty) && batches > 0
    ensures NamedIPs(reports, batches) == Blamed(IPs(reports), batches, partner, faulty)
  {
    ScheduleIndexes(reports, batches, partner, faulty);
    forall x ensures x in NamedIPs(reports, batches) <==> x in Blamed(IPs(reports), batches, partner, faulty) {
      NamedIffFailsEverywhere(reports, batches, x);
      forall b | 0 <= b < batches
        ensures FailsIn(PairResults(reports), b, x) <==> x in IPs(reports) && (x in faulty || partner(b, x) in faulty)
      {
        FailsInSchedule(reports, batches, partner, faulty, b, x);
      }
      if x in NamedIPs(reports, batches) {
        assert FailsIn(PairResults(reports), 0, x);
      }
    }
  }

  lemma ScheduleIndexes(
    reports: map<string, NodeReport>, batches: nat, partner: (int, string) -> string, faulty: set<string>)
    requires FollowsSchedule(reports, batches, partner, faulty)
    ensures IndexesBelow(reports, batches)
    ensures !HasFailFast(reports)
  {
  }

  lemma NamesOfIPs(reports: map<string, NodeReport>, names: map<string, string>, ips: set<string>)
    requires PlainReporters(reports) && IsResolver(reports, names) && ips <= IPs(reports)
    ensures Resolved(names, ips) == NodesAt(reports, ips)
  {
  }

  /** The verdict is exactly the faulty nodes if and only if no healthy node is surrounded by faulty partners. */
  lemma ExactIffNobodySurrounded(
    reports: map<string, NodeReport>, batches: nat, partner: (int, string) -> string, faulty: set<string>,
        slow: seq<string>)
    requires FollowsSchedule(reports, batches, partner, faulty) && batches > 0
    requires IsVerdict(reports, batches, slow)
    ensures IsSortedListOf(slow, NodesAt(reports, faulty)) <==>
            forall x :: x in IPs(reports) ==> !Surrounded(x, batches, partner, faulty)
  {
    var blamed := Blamed(IPs(reports), batches, partner, faulty);
    VerdictOnSchedule(reports, batches, partner, faulty, slow);
    if forall x :: x in IPs(reports) ==> !Surrounded(x, batches, partner, faulty) {
      assert blamed == faulty;
    } else {
      var x :| x in IPs(reports) && Surrounded(x, batches, partner, faulty);
      var n :| n in reports && reports[n].selfIP == x;
      assert n in NodesAt(reports, blamed);
      assert n in slow;
      assert n !in NodesAt(reports, faulty);
    }
  }

  lemma {:induction false} PartnersAreDistinct(
    ips: set<string>, batches: nat, partner: (int, string) -> string, x: string, k: nat) returns (met: set<string>)
    requires Pairing(ips, batches, partner) && x in ips && k <= batches
    ensures |met| == k
    ensures forall y :: y in met ==> exists b :: 0 <= b < k && y == partner(b, x)
  {
    if k == 0 {
      met := {};
    } else {
      met := PartnersAreDistinct(ips, batches, partner, x, k - 1);
      met := met + {partner(k - 1, x)};
    }
  }

  /** With fewer faulty nodes than batches, the verdict is exactly the faulty nodes. */
  lemma FewFaultsAreIdentified(
    reports: map<string, NodeReport>, batches: nat, partner: (int, string) -> string, faulty: set<string>,
        slow: seq<string>)
    requires FollowsSchedule(reports, batches, partner, faulty) && |faulty| < batches
    requires IsVerdict(reports, batches, slow)
    ensures IsSortedListOf(slow, NodesAt(reports, faulty))
  {
    forall x | x in IPs(reports) ensures !Surrounded(x, batches, partner, faulty) {
      if Surrounded(x, batches, partner, faulty) {
        var met := PartnersAreDistinct(IPs(reports), batches, partner, x, batches);
        assert met <= faulty;
        SubsetSize(met, faulty);
      }
    }
    ExactIffNobodySurrounded(reports, batches, partner, faulty, slow);
  }

  /** In a two-node workload one faulty node makes both be named. */
  lemma TwoNodesAreBothNamed(
    reports: map<string, NodeReport>, partner: (int, string) -> string, a: string, b: string, slow: seq<string>)
    requires reports.Keys == {a, b} && a != b
    requires partner(0, reports[a].selfIP) == reports[b].selfIP
    requires FollowsSchedule(reports, 1, partner, {reports[a].selfIP})
    requires IsVerdict(reports, 1, slow)
    ensures IsSortedListOf(slow, {a, b})
  {
    var faulty := {reports[a].selfIP};
    VerdictOnSchedule(reports, 1, partner, faulty, slow);
    assert reports[a].selfIP in IPs(reports) && reports[b].selfIP in IPs(reports);
    assert reports[b].selfIP != reports[a].selfIP;
    assert Surrounded(reports[b].selfIP, 1, partner, faulty);
    assert NodesAt(reports, Blamed(IPs(reports), 1, partner, faulty)) == {a, b};
  }

  // ---- More failures never clear a node, unless some node failed fast ----

  /** The same reports, except that batches which passed in low may have failed in high. */
  ghost predicate FailsMoreThan(low: map<string, NodeReport>, high: map<string, NodeReport>) {
    && low.Keys == high.Keys
    && forall n :: n in low ==>
         low[n] == high[n].(batchResults := low[n].batchResults)
             && AllFailMore(low[n].batchResults, high[n].batchResults)
  }

  lemma FailuresGrow(low: map<string, NodeReport>, high: map<string, NodeReport>, b: int, ip: string)
    requires FailsMoreThan(low, high)
    ensures FailsIn(PairResults(low), b, ip) ==> FailsIn(PairResults(high), b, ip)
    ensures b in FailedBatches(PairResults(low)) ==> b in FailedBatches(PairResults(high))
  {
    forall r | r in PairResults(low) && r.failed
      ensures r in PairResults(high)
    {
      var n :| n in PairwiseReports(low) && r in low[n].batchResults;
      var i :| 0 <= i < |low[n].batchResults| && low[n].batchResults[i] == r;
      assert high[n].batchResults[i] == r;
      assert n in PairwiseReports(high) && r in PairwiseReports(high)[n].batchResults;
    }
  }

  lemma MoreFailuresNameMore(low: map<string, NodeReport>, high: map<string, NodeReport>, expected: nat,
      names: map<string, string>)
    requires FailsMoreThan(low, high) && !HasFailFast(low) && expected > 0
    requires IndexesBelow(low, expected) && IndexesBelow(high, expected)
    ensures Verdict(low, expected, names) <= Verdict(high, expected, names)
    ensures IsResolver(low, names) <==> IsResolver(high, names)
  {
    forall ip | ip in NamedIPs(low, expected) ensures ip in NamedIPs(high, expected) {
      NamedIffFailsEverywhere(low, expected, ip);
      NamedIffFailsEverywhere(high, expected, ip);
      forall b | 0 <= b < expected ensures FailsIn(PairResults(high), b, ip) {
        FailuresGrow(low, high, b, ip);
      }
    }
    ResolversAgree(low, high, names);
    assert FailFastNames(low) == {};
  }

  lemma ResolversAgree(low: map<string, NodeReport>, high: map<string, NodeReport>, names: map<string, string>)
    requires low.Keys == high.Keys
    requires forall n :: n in low ==> low[n].selfIP == high[n].selfIP && low[n].nodeName == high[n].nodeName
    ensures IsResolver(low, names) <==> IsResolver(high, names)
  {
  }

  /**
   * After a fail-fast report the named IPs survive more failures exactly when every batch
   * that newly fails names all of them too.
   */
  lemma FailFastKeepsNamesIff(low: map<string, NodeReport>, high: map<string, NodeReport>, expected: int)
    requires FailsMoreThan(low, high) && HasFailFast(low)
    ensures NamedIPs(low, expected) <= NamedIPs(high, expected) <==>
            forall b, ip :: b in FailedBatches(PairResults(high)) - FailedBatches(PairResults(low))
                && ip in NamedIPs(low, expected)
              ==> FailsIn(PairResults(high), b, ip)
  {
    var n :| n in low && low[n].failFast;
    assert n in high && high[n].failFast;
    var l, h := PairResults(low), PairResults(high);
    assert NamedIPs(low, expected) == CommonIPs(l) && NamedIPs(high, expected) == CommonIPs(h);
    if forall b, ip :: b in FailedBatches(h) - FailedBatches(l) && ip in CommonIPs(l) ==> FailsIn(h, b, ip) {
      forall ip | ip in CommonIPs(l) ensures ip in CommonIPs(h) {
        forall b | b in FailedBatches(h) ensures FailsIn(h, b, ip) {
          FailuresGrow(low, high, b, ip);
        }
        var b :| b in FailedBatches(l);
        FailuresGrow(low, high, b, ip);
      }
    }
  }

  /** Every node reports under its own name, with an IP of its own. */
  ghost predicate OwnNames(reports: map<string, NodeReport>) {
    && (forall n :: n in reports ==> reports[n].nodeName == n && reports[n].selfIP != "")
    && (forall m, n :: m in reports && n in reports && reports[m].selfIP == reports[n].selfIP ==> m == n)
  }

  /** A node is in the verdict exactly when it failed fast or its IP is named. */
  lemma InVerdictIff(reports: map<string, NodeReport>, expected: int, n: string, slow: seq<string>)
    requires OwnNames(reports) && n in reports && IsVerdict(reports, expected, slow)
    requires n !in NamedIPs(reports, expected)
    ensures n in slow <==> reports[n].failFast || reports[n].selfIP in NamedIPs(reports, expected)
  {
    var names :| IsResolver(reports, names) && IsSortedListOf(slow, Verdict(reports, expected, names));
    ResolvedIff(reports, names, NamedIPs(reports, expected), n);
    assert n in FailFastNames(reports) <==> reports[n].failFast;
  }

  lemma ResolvedIff(reports: map<string, NodeReport>, names: map<string, string>, named: set<string>, n: string)
    requires OwnNames(reports) && IsResolver(reports, names) && n in reports && n !in named
    ensures n in Resolved(names, named) <==> reports[n].selfIP in named
  {
    var ip := reports[n].selfIP;
    assert ResolveNodeName(names, ip) == n;
    forall x | x in named && ResolveNodeName(names, x) == n ensures x == ip {
    }
  }

  /** Batch b, which newly fails, contains the IP of every named node that did not fail fast itself. */
  ghost predicate NamesAllAgain(low: map<string, NodeReport>, high: map<string, NodeReport>, expected: int, b: int) {
    forall n :: n in low && !low[n].failFast && low[n].selfIP in NamedIPs(low, expected)
      ==> FailsIn(PairResults(high), b, low[n].selfIP)
  }

  ghost predicate NodesStay(low: map<string, NodeReport>, before: seq<string>, after: seq<string>) {
    forall n :: n in low && n in before ==> n in after
  }

  /**
   * After a fail-fast report every node of the verdict list survives more failures exactly when every batch
   * that newly fails contains all named nodes that did not fail fast themselves.
   */
  lemma FailFastKeepsNodesIff(
    low: map<string, NodeReport>, high: map<string, NodeReport>, expected: int, before: seq<string>, after: seq<string>)
    requires FailsMoreThan(low, high) && HasFailFast(low) && OwnNames(low)
    requires forall ip :: ip in NamedIPs(low, expected) + NamedIPs(high, expected) ==> ip !in low
    requires IsVerdict(low, expected, before) && IsVerdict(high, expected, after)
    ensures NodesStay(low, before, after) <==>
            forall b :: b in FailedBatches(PairResults(high)) - FailedBatches(PairResults(low))
              ==> NamesAllAgain(low, high, expected, b)
  {
    HighHasFailFast(low, high);
    forall n | n in low ensures InBoth(low, high, expected, before, after, n) {
      assert n !in NamedIPs(low, expected) && n !in NamedIPs(high, expected);
      InVerdictIff(low, expected, n, before);
      InVerdictIff(high, expected, n, after);
    }
    StayingIsNamedStay(low, high, expected, before, after);
    NamedNodesStayIff(low, high, expected);
  }

  ghost predicate InBoth(
    low: map<string, NodeReport>, high: map<string, NodeReport>, expected: int, before: seq<string>, after: seq<string>,
    n: string)
    requires n in low
  {
    && (n in before <==> low[n].failFast || low[n].selfIP in NamedIPs(low, expected))
    && (n in after <==> low[n].failFast || low[n].selfIP in NamedIPs(high, expected))
  }

  lemma StayingIsNamedStay(
    low: map<string, NodeReport>, high: map<string, NodeReport>, expected: int, before: seq<string>, after: seq<string>)
    requires forall n :: n in low ==> InBoth(low, high, expected, before, after, n)
    ensures NodesStay(low, before, after) <==> NamedStay(low, high, expected)
  {
    forall n | n in low
      ensures (n in before ==> n in after) <==>
              (!low[n].failFast && low[n].selfIP in NamedIPs(low, expected) ==>
                low[n].selfIP in NamedIPs(high, expected))
    {
      assert InBoth(low, high, expected, before, after, n);
    }
  }

  lemma HighHasFailFast(low: map<string, NodeReport>, high: map<string, NodeReport>)
    requires FailsMoreThan(low, high)
    ensures HasFailFast(low) ==> HasFailFast(high)
    ensures OwnNames(low) ==> OwnNames(high)
  {
    if n :| n in low && low[n].failFast {
      assert high[n].failFast;
    }
  }

  /** Named IPs of nodes that did not fail fast stay named. */
  ghost predicate NamedStay(low: map<string, NodeReport>, high: map<string, NodeReport>, expected: int) {
    forall n :: n in low && !low[n].failFast && low[n].selfIP in NamedIPs(low, expected) ==>
      low[n].selfIP in NamedIPs(high, expected)
  }

  lemma NamedNodesStayIff(low: map<string, NodeReport>, high: map<string, NodeReport>, expected: int)
    requires FailsMoreThan(low, high) && HasFailFast(low) && HasFailFast(high)
    ensures NamedStay(low, high, expected) <==>
            forall b :: b in FailedBatches(PairResults(high)) - FailedBatches(PairResults(low))
              ==> NamesAllAgain(low, high, expected, b)
  {
    var newly := FailedBatches(PairResults(high)) - FailedBatches(PairResults(low));
    if forall b :: b in newly ==> NamesAllAgain(low, high, expected, b) {
      forall n | n in low && !low[n].failFast && low[n].selfIP in NamedIPs(low, expected)
        ensures low[n].selfIP in NamedIPs(high, expected)
      {
        NamedStays(low, high, expected, n);
      }
    } else {
      var b :| b in newly && !NamesAllAgain(low, high, expected, b);
      var n :| n in low && !low[n].failFast && low[n].selfIP in NamedIPs(low, expected)
        && !FailsIn(PairResults(high), b, low[n].selfIP);
      NamedBesideFailFast(high, expected, low[n].selfIP);
    }
  }

  lemma NamedBesideFailFast(reports: map<string, NodeReport>, expected: int, ip: string)
    requires HasFailFast(reports)
    ensures ip in NamedIPs(reports, expected) <==>
            FailedBatches(PairResults(reports)) != {}
            && forall b :: b in FailedBatches(PairResults(reports)) ==> FailsIn(PairResults(reports), b, ip)
  {
  }

  lemma NamedStays(low: map<string, NodeReport>, high: map<string, NodeReport>, expected: int, n: string)
    requires FailsMoreThan(low, high) && HasFailFast(low) && n in low && !low[n].failFast
    requires low[n].selfIP in NamedIPs(low, expected)
    requires forall b :: b in FailedBatches(PairResults(high)) - FailedBatches(PairResults(low))
               ==> NamesAllAgain(low, high, expected, b)
    ensures low[n].selfIP in NamedIPs(high, expected)
  {
    var ip := low[n].selfIP;
    var f :| f in low && low[f].failFast;
    assert high[f].failFast;
    NamedBesideFailFast(low, expected, ip);
    NamedBesideFailFast(high, expected, ip);
    forall b | b in FailedBatches(PairResults(high)) ensures FailsIn(PairResults(high), b, ip) {
      FailuresGrow(low, high, b, ip);
      assert b !in FailedBatches(PairResults(low)) ==> NamesAllAgain(low, high, expected, b);
    }
    var b :| b in FailedBatches(PairResults(low));
    FailuresGrow(low, high, b, ip);
  }

  /**
   * Four nodes, so three batches. Node f fails fast; a and b fail together in batch 0; again tells whether
   * b and c fail together in batch 2.
   */
  function FailFastExample(again: bool): map<string, NodeReport> {
    map[
      "f" := NodeReport("f", "4", true, []),
      "a" := NodeReport("a", "1", false, [BatchResult(0, "1", "2", "1", true)]),
      "b" := NodeReport("b", "2", false, [BatchResult(0, "1", "2", "2", true), BatchResult(2, "2", "3", "2", again)]),
      "c" := NodeReport("c", "3", false, [BatchResult(2, "2", "3", "3", again)])
    ]
  }

  ghost function ExampleResults(again: bool): set<BatchResult> {
    {
      BatchResult(0, "1", "2", "1", true), BatchResult(0, "1", "2", "2", true),
      BatchResult(2, "2", "3", "2", again), BatchResult(2, "2", "3", "3", again)
    }
  }

  lemma FailFastExampleResults(again: bool)
    ensures PairResults(FailFastExample(again)) == ExampleResults(again)
  {
    var reports := FailFastExample(again);
    forall r | r in PairResults(reports) ensures r in ExampleResults(again) {
      var n :| n in PairwiseReports(reports) && r in reports[n].batchResults;
      assert n == "a" || n == "b" || n == "c";
    }
    forall r | r in ExampleResults(again) ensures r in PairResults(reports) {
      var n := if r.selfIP == "1" then "a" else if r.selfIP == "2" then "b" else "c";
      assert n in PairwiseReports(reports);
      assert reports["b"].batchResults[0] in reports["b"].batchResults
          && reports["b"].batchResults[1] in reports["b"].batchResults;
      assert reports["a"].batchResults[0] in reports["a"].batchResults;
      assert reports["c"].batchResults[0] in reports["c"].batchResults;
      assert r in reports[n].batchResults;
    }
  }

  lemma FailFastExampleGrows()
    ensures FailsMoreThan(FailFastExample(false), FailFastExample(true))
    ensures FailFastExample(false).Keys == {"f", "a", "b", "c"}
  {
  }

  lemma FailFastExampleOwner(again: bool)
    ensures var reports := FailFastExample(again);
      && HasFailFast(reports) && OwnNames(reports)
      && "a" in reports && reports["a"].selfIP == "1" && !reports["a"].failFast
  {
    assert FailFastExample(again)["f"].failFast;
  }

  lemma ExampleBatch0(results: set<BatchResult>, again: bool)
    requires results == ExampleResults(again)
    ensures 0 in FailedBatches(results)
    ensures FailsIn(results, 0, "1") && !FailsIn(results, 0, "a")
  {
    assert BatchResult(0, "1", "2", "1", true) in results;
  }

  lemma ExampleBatch2(results: set<BatchResult>, again: bool)
    requires results == ExampleResults(again)
    ensures !FailsIn(results, 2, "1")
    ensures 2 in FailedBatches(results) <==> again
    ensures FailedBatches(results) <= {0, 2}
  {
    assert BatchResult(2, "2", "3", "2", again) in results;
  }

  lemma ExampleNamed(reports: map<string, NodeReport>, again: bool)
    requires HasFailFast(reports) && PairResults(reports) == ExampleResults(again)
    ensures "1" in NamedIPs(reports, 3) <==> !again
    ensures "a" !in NamedIPs(reports, 3)
  {
    ExampleBatch0(PairResults(reports), again);
    ExampleBatch2(PairResults(reports), again);
    NamedInTwoBatches(reports, "1", again);
    NamedInTwoBatches(reports, "a", again);
  }

  /** Naming when batch 0 fails, and batch 2 fails or not. */
  lemma NamedInTwoBatches(reports: map<string, NodeReport>, ip: string, again: bool)
    requires HasFailFast(reports) && FailedBatches(PairResults(reports)) <= {0, 2}
    requires 0 in FailedBatches(PairResults(reports)) && (2 in FailedBatches(PairResults(reports)) <==> again)
    ensures ip in NamedIPs(reports, 3) <==>
            FailsIn(PairResults(reports), 0, ip) && (again ==> FailsIn(PairResults(reports), 2, ip))
  {
    NamedBesideFailFast(reports, 3, ip);
  }

  lemma ExampleIndexes(reports: map<string, NodeReport>, again: bool)
    requires PairResults(reports) == ExampleResults(again)
    ensures IndexesBelow(reports, 3)
  {
  }

  /** Beside a fail-fast report, a further failure can clear a node named before. */
  lemma FailFastBreaksMonotonicity(before: seq<string>, after: seq<string>)
    requires IsVerdict(FailFastExample(false), 3, before) && IsVerdict(FailFastExample(true), 3, after)
    ensures FailsMoreThan(FailFastExample(false), FailFastExample(true))
    ensures BuildWorkloadPlan(|FailFastExample(false)|) == Ok(Plan(4, 3))
    ensures IndexesBelow(FailFastExample(false), 3) && IndexesBelow(FailFastExample(true), 3)
    ensures "a" in before && "a" !in after
  {
    FailFastExampleGrows();
    ExampleSize(FailFastExample(false));
    FailFastExampleAnswer(false, before);
    FailFastExampleAnswer(true, after);
  }

  lemma ExampleSize(reports: map<string, NodeReport>)
    requires reports.Keys == {"f", "a", "b", "c"}
    ensures BuildWorkloadPlan(|reports|) == Ok(Plan(4, 3))
  {
    assert |reports| == |reports.Keys| == 4;
  }

  lemma FailFastExampleAnswer(again: bool, slow: seq<string>)
    requires IsVerdict(FailFastExample(again), 3, slow)
    ensures IndexesBelow(FailFastExample(again), 3)
    ensures "a" in slow <==> !again
  {
    FailFastExampleResults(again);
    FailFastExampleOwner(again);
    ExampleNamed(FailFastExample(again), again);
    ExampleIndexes(FailFastExample(again), again);
    InVerdictIff(FailFastExample(again), 3, "a", slow);
  }

  // ---- The order of the two ends of a pair does not matter ----

  predicate SameUpToSwap(r: BatchResult, s: BatchResult) {
    r == s || r == s.(pairFirst := s.pairSecond, pairSecond := s.pairFirst)
  }

  ghost predicate SameReportsUpToSwap(a: map<string, NodeReport>, b: map<string, NodeReport>) {
    && a.Keys == b.Keys
    && forall n :: n in a ==>
         && a[n] == b[n].(batchResults := a[n].batchResults) && |a[n].batchResults| == |b[n].batchResults|
         && forall i :: 0 <= i < |a[n].batchResults| ==> SameUpToSwap(a[n].batchResults[i], b[n].batchResults[i])
  }

  lemma SwapHalf(a: map<string, NodeReport>, b: map<string, NodeReport>, batch: int, ip: string)
    requires SameReportsUpToSwap(a, b)
    ensures FailsIn(PairResults(a), batch, ip) ==> FailsIn(PairResults(b), batch, ip)
    ensures batch in FailedBatches(PairResults(a)) ==> batch in FailedBatches(PairResults(b))
  {
    forall r | r in PairResults(a) && r.failed
      ensures exists s :: s in PairResults(b) && SameUpToSwap(r, s)
    {
      var n :| n in PairwiseReports(a) && r in a[n].batchResults;
      var i :| 0 <= i < |a[n].batchResults| && a[n].batchResults[i] == r;
      var s := b[n].batchResults[i];
      assert n in PairwiseReports(b) && s in PairwiseReports(b)[n].batchResults;
      assert s in PairResults(b);
    }
  }

  lemma SwapKeepsVerdict(a: map<string, NodeReport>, b: map<string, NodeReport>, expected: int, slow: seq<string>)
    requires SameReportsUpToSwap(a, b)
    ensures IsVerdict(a, expected, slow) <==> IsVerdict(b, expected, slow)
  {
    if IsVerdict(a, expected, slow) {
      SwapCarriesVerdict(a, b, expected, slow);
    }
    if IsVerdict(b, expected, slow) {
      assert SameReportsUpToSwap(b, a);
      SwapCarriesVerdict(b, a, expected, slow);
    }
  }

  lemma SwapCarriesVerdict(a: map<string, NodeReport>, b: map<string, NodeReport>, expected: int, slow: seq<string>)
    requires SameReportsUpToSwap(a, b) && SameReportsUpToSwap(b, a)
    requires IsVerdict(a, expected, slow)
    ensures IsVerdict(b, expected, slow)
  {
    var names :| IsResolver(a, names) && IsSortedListOf(slow, Verdict(a, expected, names));
    ResolversAgree(a, b, names);
    SwapKeepsCommonIPs(a, b);
    SwapKeepsFailFast(a, b);
    assert Verdict(a, expected, names) == Verdict(b, expected, names);
  }

  lemma SwapKeepsFailFast(a: map<string, NodeReport>, b: map<string, NodeReport>)
    requires SameReportsUpToSwap(a, b)
    ensures HasFailFast(a) <==> HasFailFast(b)
    ensures FailFastNames(a) == FailFastNames(b)
  {
  }

  lemma SwapKeepsCommonIPs(a: map<string, NodeReport>, b: map<string, NodeReport>)
    requires SameReportsUpToSwap(a, b) && SameReportsUpToSwap(b, a)
    ensures FailedBatches(PairResults(a)) == FailedBatches(PairResults(b))
    ensures CommonIPs(PairResults(a)) == CommonIPs(PairResults(b))
  {
    forall batch ensures batch in FailedBatches(PairResults(a)) <==> batch in FailedBatches(PairResults(b)) {
      SwapHalf(a, b, batch, "");
      SwapHalf(b, a, batch, "");
    }
    forall ip ensures ip in CommonIPs(PairResults(a)) <==> ip in CommonIPs(PairResults(b)) {
      forall batch ensures FailsIn(PairResults(a), batch, ip) <==> FailsIn(PairResults(b), batch, ip) {
        SwapHalf(a, b, batch, ip);
        SwapHalf(b, a, batch, ip);
      }
    }
  }
}

/** The round-robin schedule that pairs the nodes, as pkg/preflight/slow_node_aggregator_test.go builds it. */
module RoundRobin {
  import opened Base
  import opened Preflight
  import opened Detection
  import opened VerdictLaws

  // ---- The rotating row ----

  /** Who sits at position p of a row of n in batch b: position 0 keeps its seat, the others move on by one. */
  function Seat(n: nat, b: nat, p: nat): (i: nat)
    requires p < n && b < n
    ensures i < n
  {
    if p == 0 then 0 else if p > b then p - b else p - b + n - 1
  }

  /** Where node i sits in batch b. */
  function Place(n: nat, b: nat, i: nat): (p: nat)
    requires i < n && b < n
    ensures p < n && Seat(n, b, p) == i
  {
    if i == 0 then 0 else if i + b < n then i + b else i + b - (n - 1)
  }

  /** Who sits opposite node i in batch b. */
  function Opposite(n: nat, b: nat, i: nat): (j: nat)
    requires i < n && b < n
    ensures j < n
  {
    Seat(n, b, n - 1 - Place(n, b, i))
  }

  /** Sitting opposite is mutual, and over the n - 1 batches of an even row nobody meets anyone twice. */
  lemma OppositeMeetsOnce(n: nat, b: nat, c: nat, i: nat)
    requires i < n && b < n - 1 && c < n - 1 && n % 2 == 0
    ensures Opposite(n, b, Opposite(n, b, i)) == i != Opposite(n, b, i)
    ensures Opposite(n, b, i) == Opposite(n, c, i) ==> b == c
  {
  }

  function Ordered(x: string, y: string): (string, string) {
    if StrLe(x, y) then (x, y) else (y, x)
  }

  /** Batch b pairs those who sit opposite each other. */
  ghost predicate PairsBatch(names: seq<string>, b: nat, pairs: seq<(string, string)>)
    requires b < |names|
  {
    var n := |names|;
    |pairs| == n / 2 && forall k ::
        0 <= k < n / 2 ==> pairs[k] == Ordered(names[Seat(n, b, k)], names[Seat(n, b, n - 1 - k)])
  }

  ghost predicate SeatedAs(working: seq<string>, names: seq<string>, b: nat)
    requires b < |names|
  {
    |working| == |names| && forall p :: 0 <= p < |names| ==> working[p] == names[Seat(|names|, b, p)]
  }

  /** Pairs the row from both ends. */
  method PairUp(working: seq<string>) returns (pairs: seq<(string, string)>)
    ensures |pairs| == |working| / 2
    ensures forall k :: 0 <= k < |pairs| ==> pairs[k] == Ordered(working[k], working[|working| - 1 - k])
  {
    pairs := [];
    for left := 0 to |working| / 2
      invariant |pairs| == left
      invariant forall k :: 0 <= k < left ==> pairs[k] == Ordered(working[k], working[|working| - 1 - k])
    {
      pairs := pairs + [Ordered(working[left], working[|working| - 1 - left])];
    }
  }

  lemma SeatedPairs(working: seq<string>, names: seq<string>, b: nat, pairs: seq<(string, string)>)
    requires b < |names| && SeatedAs(working, names, b) && |pairs| == |working| / 2
    requires forall k :: 0 <= k < |pairs| ==> pairs[k] == Ordered(working[k], working[|working| - 1 - k])
    ensures PairsBatch(names, b, pairs)
  {
    forall k | 0 <= k < |pairs|
      ensures pairs[k] == Ordered(names[Seat(|names|, b, k)], names[Seat(|names|, b, |names| - 1 - k)])
    {
      assert working[k] == names[Seat(|names|, b, k)];
    }
  }

  method RoundRobinPairs(names: seq<string>) returns (batches: seq<seq<(string, string)>>)
    requires names != []
    ensures |batches| == |names| - 1
    ensures forall b :: 0 <= b < |batches| ==> PairsBatch(names, b, batches[b])
  {
    batches := [];
    var working := names;
    for b := 0 to |names| - 1
      invariant |batches| == b && SeatedAs(working, names, b)
      invariant forall c :: 0 <= c < b ==> PairsBatch(names, c, batches[c])
    {
      var pairs := PairUp(working);
      SeatedPairs(working, names, b, pairs);
      batches := batches + [pairs];
      var last := |working| - 1;
      working := [working[0], working[last]] + working[1..last];
    }
  }

  // ---- It is a pairing in the sense of the verdict laws ----

  ghost function IndexOf(names: seq<string>, x: string): (i: nat)
    requires x in names
    ensures i < |names| && names[i] == x
  {
    var i :| 0 <= i < |names| && names[i] == x;
    i
  }

  ghost function PartnerOf(names: seq<string>): (int, string) -> string {
    (b: int, x: string) =>
      if x in names && 0 <= b < |names| then names[Opposite(|names|, b, IndexOf(names, x))] else x
  }

  lemma PartnerAt(names: seq<string>, b: nat, i: nat)
    requires Distinct(names) && i < |names| && b < |names|
    ensures PartnerOf(names)(b, names[i]) == names[Opposite(|names|, b, i)]
  {
  }

  /** Each pair of a batch consists of partners, and each node is in one. */
  lemma PairsArePartners(names: seq<string>, b: nat, pairs: seq<(string, string)>, i: nat) returns (k: nat)
    requires Distinct(names) && |names| % 2 == 0 && i < |names| && b < |names| - 1 && PairsBatch(names, b, pairs)
    ensures k < |pairs| && pairs[k] == Ordered(names[i], PartnerOf(names)(b, names[i]))
  {
    var n, p := |names|, Place(|names|, b, i);
    PartnerAt(names, b, i);
    k := Min(p, n - 1 - p);
    StrLeTotal(names[i], names[Opposite(n, b, i)]);
  }

  lemma RoundRobinIsPairing(names: seq<string>, batches: nat)
    requires Distinct(names) && |names| % 2 == 0 && batches < |names|
    ensures Pairing(SetOf(names), batches, PartnerOf(names))
  {
    var n, partner := |names|, PartnerOf(names);
    forall b, x | 0 <= b < batches && x in SetOf(names)
      ensures partner(b, x) in SetOf(names) && partner(b, partner(b, x)) == x
    {
      var i := IndexOf(names, x);
      PartnerAt(names, b, i);
      PartnerAt(names, b, Opposite(n, b, i));
      OppositeMeetsOnce(n, b, b, i);
    }
    forall b, c, x | 0 <= b < c < batches && x in SetOf(names) ensures partner(b, x) != partner(c, x) {
      var i := IndexOf(names, x);
      PartnerAt(names, b, i);
      PartnerAt(names, c, i);
      OppositeMeetsOnce(n, b, c, i);
    }
  }

  // ---- A check in which only the failing nodes themselves notice ----

  function OwnResults(ips: seq<string>, i: nat, batches: nat, fails: bool): seq<BatchResult>
    requires i < |ips| && batches < |ips|
  {
    seq(batches, b requires 0 <= b < batches =>
      var (first, second) := Ordered(ips[i], ips[Opposite(|ips|, b, i)]);
      BatchResult(b, first, second, ips[i], fails))
  }

  /** What the manager collects: each node reports its pairs, failed if and only if it is failing itself. */
  ghost function CheckReports(
    names: seq<string>, ips: seq<string>, batches: nat, failing: set<string>): map<string, NodeReport>
    requires Distinct(names) && |ips| == |names| && batches < |ips|
  {
    map i | 0 <= i < |names| :: names[i] := NodeReport(names[i], ips[i], false,
        OwnResults(ips, i, batches, names[i] in failing))
  }

  ghost predicate Cluster(names: seq<string>, ips: seq<string>) {
    && Distinct(names) && Distinct(ips) && "" !in ips
    && |ips| == |names| && |names| % 2 == 0 && 0 < |names| <= MAX_WORKLOAD_SIZE
  }

  /** The addresses of the given nodes. */
  ghost function IPsOf(names: seq<string>, ips: seq<string>, nodes: set<string>): set<string>
    requires |ips| == |names|
  {
    set i | 0 <= i < |names| && names[i] in nodes :: ips[i]
  }

  lemma CheckedNode(names: seq<string>, ips: seq<string>, batches: nat, failing: set<string>, i: nat)
    requires Cluster(names, ips) && batches < |ips| && i < |names|
    ensures var reports := CheckReports(names, ips, batches, failing);
      names[i] in reports && reports[names[i]]
          == NodeReport(names[i], ips[i], false, OwnResults(ips, i, batches, names[i] in failing))
  {
  }

  lemma OwnResultsAreReports(names: seq<string>, ips: seq<string>, batches: nat, failing: set<string>, i: nat)
    requires Cluster(names, ips) && batches < |ips| && i < |names|
    ensures Reports(OwnResults(ips, i, batches, names[i] in failing), ips[i], batches, PartnerOf(ips),
        IPsOf(names, ips, failing))
  {
    var results := OwnResults(ips, i, batches, names[i] in failing);
    forall r | r in results
      ensures 0 <= r.batchIdx < batches && Joins(r, ips[i], PartnerOf(ips)(r.batchIdx, ips[i]))
      ensures r.failed ==> ips[i] in IPsOf(names, ips, failing)
    {
      var b :| 0 <= b < batches && results[b] == r;
      PartnerAt(ips, b, i);
    }
  }

  lemma FailingNodeShows(names: seq<string>, ips: seq<string>, batches: nat, failing: set<string>, b: nat, i: nat)
    requires Cluster(names, ips) && b < batches < |ips| && i < |names| && names[i] in failing
    ensures PairFails(CheckReports(names, ips, batches, failing), b, ips[i], PartnerOf(ips)(b, ips[i]))
  {
    var results := OwnResults(ips, i, batches, true);
    CheckedNode(names, ips, batches, failing, i);
    PartnerAt(ips, b, i);
    assert results[b] in results;
    ShownBy(CheckReports(names, ips, batches, failing), names[i], results[b], ips[i], PartnerOf(ips)(b, ips[i]));
  }

  lemma ShownBy(reports: map<string, NodeReport>, n: string, r: BatchResult, x: string, y: string)
    requires n in reports && r in reports[n].batchResults && r.failed && Joins(r, x, y)
    ensures PairFails(reports, r.batchIdx, x, y)
  {
  }

  lemma CheckFollowsSchedule(names: seq<string>, ips: seq<string>, batches: nat, failing: set<string>)
    requires Cluster(names, ips) && batches < |ips|
    ensures FollowsSchedule(CheckReports(names, ips, batches, failing), batches, PartnerOf(ips),
        IPsOf(names, ips, failing))
  {
    CheckedIPs(names, ips, batches, failing);
    RoundRobinIsPairing(ips, batches);
    CheckIsPlain(names, ips, batches, failing);
    CheckReportsPairs(names, ips, batches, failing);
    CheckShowsFaults(names, ips, batches, failing);
  }

  lemma CheckIsPlain(names: seq<string>, ips: seq<string>, batches: nat, failing: set<string>)
    requires Cluster(names, ips) && batches < |ips|
    ensures PlainReporters(CheckReports(names, ips, batches, failing))
  {
  }

  lemma NodeBehind(names: seq<string>, ips: seq<string>, batches: nat, failing: set<string>, x: string) returns (i: nat)
    requires Cluster(names, ips) && batches < |ips|
    requires x in CheckReports(names, ips, batches, failing)
    ensures i < |names| && names[i] == x
    ensures CheckReports(names, ips, batches, failing)[x]
         == NodeReport(x, ips[i], false, OwnResults(ips, i, batches, x in failing))
  {
    i :| 0 <= i < |names| && names[i] == x;
  }

  ghost predicate NodeFollows(
    report: NodeReport, batches: nat, partner: (int, string) -> string, faulty: set<string>)
  {
    Reports(report.batchResults, report.selfIP, batches, partner, faulty)
  }

  lemma CheckedNodeFollows(names: seq<string>, ips: seq<string>, batches: nat, failing: set<string>, x: string)
    requires Cluster(names, ips) && batches < |ips|
    requires x in CheckReports(names, ips, batches, failing)
    ensures NodeFollows(CheckReports(names, ips, batches, failing)[x], batches, PartnerOf(ips),
        IPsOf(names, ips, failing))
  {
    var i := NodeBehind(names, ips, batches, failing, x);
    OwnResultsAreReports(names, ips, batches, failing, i);
  }

  lemma CheckReportsPairs(names: seq<string>, ips: seq<string>, batches: nat, failing: set<string>)
    requires Cluster(names, ips) && batches < |ips|
    ensures var reports := CheckReports(names, ips, batches, failing);
      forall x :: x in reports ==> NodeFollows(reports[x], batches, PartnerOf(ips), IPsOf(names, ips, failing))
  {
    var reports := CheckReports(names, ips, batches, failing);
    forall x | x in reports ensures NodeFollows(reports[x], batches, PartnerOf(ips), IPsOf(names, ips, failing)) {
      CheckedNodeFollows(names, ips, batches, failing, x);
    }
  }

  lemma CheckShowsFaults(names: seq<string>, ips: seq<string>, batches: nat, failing: set<string>)
    requires Cluster(names, ips) && batches < |ips|
    ensures forall b, x :: 0 <= b < batches && x in IPsOf(names, ips, failing) ==>
      PairFails(CheckReports(names, ips, batches, failing), b, x, PartnerOf(ips)(b, x))
  {
    forall b, x | 0 <= b < batches && x in IPsOf(names, ips, failing)
      ensures PairFails(CheckReports(names, ips, batches, failing), b, x, PartnerOf(ips)(b, x))
    {
      var i :| 0 <= i < |names| && names[i] in failing && ips[i] == x;
      FailingNodeShows(names, ips, batches, failing, b, i);
    }
  }

  lemma CheckedIPs(names: seq<string>, ips: seq<string>, batches: nat, failing: set<string>)
    requires Cluster(names, ips) && batches < |ips|
    ensures IPs(CheckReports(names, ips, batches, failing)) == SetOf(ips)
  {
    var reports := CheckReports(names, ips, batches, failing);
    forall x ensures x in IPs(reports) <==> x in SetOf(ips) {
      if x in ips {
        CheckedNode(names, ips, batches, failing, IndexOf(ips, x));
      }
    }
  }

  lemma {:induction false} ImageSize<A, B>(s: set<A>, f: A -> B, t: set<B>)
    requires forall y :: y in t ==> exists x :: x in s && f(x) == y
    ensures |t| <= |s|
  {
    if t == {} {
    } else {
      var y :| y in t;
      var x :| x in s && f(x) == y;
      forall z | z in t - {y} ensures exists w :: w in s - {x} && f(w) == z {
        var w :| w in s && f(w) == z;
        assert w in s - {x};
      }
      ImageSize(s - {x}, f, t - {y});
    }
  }

  /**
   * For every even number of nodes and every set of fewer failing nodes than batches, the verdict on a
   * round-robin check lists exactly the failing nodes.
   */
  lemma RoundRobinFaultsAreFound(names: seq<string>, ips: seq<string>, failing: set<string>, slow: seq<string>)
    requires Cluster(names, ips) && failing <= SetOf(names)
    requires var batches := BuildWorkloadPlan(|names|).value.batchCount;
      |failing| < batches && IsVerdict(CheckReports(names, ips, batches, failing), batches, slow)
    ensures IsSortedListOf(slow, failing)
  {
    var batches := BuildWorkloadPlan(|names|).value.batchCount;
    var reports, faulty := CheckReports(names, ips, batches, failing), IPsOf(names, ips, failing);
    CheckFollowsSchedule(names, ips, batches, failing);
    ImageSize(failing, (x: string) => if x in names then ips[IndexOf(names, x)] else "", faulty);
    FewFaultsAreIdentified(reports, batches, PartnerOf(ips), faulty, slow);
    NodesOfFailing(names, ips, batches, failing);
  }

  lemma NodesOfFailing(names: seq<string>, ips: seq<string>, batches: nat, failing: set<string>)
    requires Cluster(names, ips) && batches < |ips| && failing <= SetOf(names)
    ensures NodesAt(CheckReports(names, ips, batches, failing), IPsOf(names, ips, failing)) == failing
  {
    var reports, faulty := CheckReports(names, ips, batches, failing), IPsOf(names, ips, failing);
    forall x ensures x in NodesAt(reports, faulty) <==> x in failing {
      if x in failing {
        var i := IndexOf(names, x);
        CheckedNode(names, ips, batches, failing, i);
      }
    }
  }

  // ---- The bound cannot be improved ----

  /** Whom node i meets in the first k batches. */
  ghost function Met(names: seq<string>, i: nat, k: nat): set<string>
    requires i < |names| && k < |names|
  {
    if k == 0 then {} else Met(names, i, k - 1) + {names[Opposite(|names|, k - 1, i)]}
  }

  lemma {:induction false} MetIsMeant(names: seq<string>, i: nat, k: nat, x: string)
    requires i < |names| && k < |names|
    ensures x in Met(names, i, k) <==> exists b :: 0 <= b < k && x == names[Opposite(|names|, b, i)]
  {
    if k == 0 {
    } else {
      MetIsMeant(names, i, k - 1, x);
    }
  }

  lemma {:induction false} MetAreDistinct(names: seq<string>, i: nat, k: nat)
    requires Distinct(names) && |names| % 2 == 0 && i < |names| && k < |names|
    ensures NewTo(Met(names, i, k), k, names[i])
  {
    if k == 0 {
    } else {
      MetAreDistinct(names, i, k - 1);
      NextIsNew(names, i, k - 1);
      OneMoreMet(Met(names, i, k - 1), k - 1, names[Opposite(|names|, k - 1, i)], names[i]);
    }
  }

  /** s has n elements, and y is none of them. */
  ghost predicate NewTo(s: set<string>, n: nat, y: string) {
    |s| == n && y !in s
  }

  lemma OneMoreMet(s: set<string>, n: nat, x: string, y: string)
    requires NewTo(s, n, y) && x !in s && x != y
    ensures NewTo(s + {x}, n + 1, y)
  {
  }

  lemma NextIsNew(names: seq<string>, i: nat, k: nat)
    requires Distinct(names) && |names| % 2 == 0 && i < |names| && k < |names| - 1
    ensures names[Opposite(|names|, k, i)] !in Met(names, i, k) && names[Opposite(|names|, k, i)] != names[i]
  {
    var x := names[Opposite(|names|, k, i)];
    OppositeMeetsOnce(|names|, k, k, i);
    if x in Met(names, i, k) {
      MetIsMeant(names, i, k, x);
      var b :| 0 <= b < k && x == names[Opposite(|names|, b, i)];
      OppositeMeetsOnce(|names|, b, k, i);
    }
  }

  /** For every even number of nodes, as many failing nodes as batches can make a healthy one be named. */
  lemma BoundIsTight(names: seq<string>, ips: seq<string>, i: nat, slow: seq<string>)
    requires Cluster(names, ips) && i < |names|
    requires var batches := BuildWorkloadPlan(|names|).value.batchCount;
      IsVerdict(CheckReports(names, ips, batches, Met(names, i, batches)), batches, slow)
    ensures var batches := BuildWorkloadPlan(|names|).value.batchCount;
      && |Met(names, i, batches)| == batches
      && names[i] in slow && names[i] !in Met(names, i, batches)
  {
    var batches := BuildWorkloadPlan(|names|).value.batchCount;
    MetAreDistinct(names, i, batches);
    SurroundedIsNamed(names, ips, i, batches, slow);
  }

  lemma SurroundedIsNamed(names: seq<string>, ips: seq<string>, i: nat, batches: nat, slow: seq<string>)
    requires Cluster(names, ips) && i < |names| && 0 < batches < |names|
    requires IsVerdict(CheckReports(names, ips, batches, Met(names, i, batches)), batches, slow)
    ensures names[i] in slow
  {
    var failing := Met(names, i, batches);
    CheckFollowsSchedule(names, ips, batches, failing);
    HealthyIsSurrounded(names, ips, i, batches);
    CheckedNode(names, ips, batches, failing, i);
    SurroundedInVerdict(
      CheckReports(names, ips, batches, failing), batches, PartnerOf(ips), IPsOf(names, ips, failing), names[i], slow);
  }

  lemma SurroundedInVerdict(
    reports: map<string, NodeReport>, batches: nat, partner: (int, string) -> string, faulty: set<string>,
    n: string, slow: seq<string>)
    requires FollowsSchedule(reports, batches, partner, faulty) && batches > 0 && IsVerdict(reports, batches, slow)
    requires n in reports && Surrounded(reports[n].selfIP, batches, partner, faulty)
    ensures n in slow
  {
    VerdictOnSchedule(reports, batches, partner, faulty, slow);
    assert reports[n].selfIP in IPs(reports);
    assert n in NodesAt(reports, Blamed(IPs(reports), batches, partner, faulty));
  }

  lemma HealthyIsSurrounded(names: seq<string>, ips: seq<string>, i: nat, batches: nat)
    requires Cluster(names, ips) && i < |names| && batches < |names|
    ensures Surrounded(ips[i], batches, PartnerOf(ips), IPsOf(names, ips, Met(names, i, batches)))
  {
    var failing := Met(names, i, batches);
    MetAreDistinct(names, i, batches);
    forall b | 0 <= b < batches ensures PartnerOf(ips)(b, ips[i]) in IPsOf(names, ips, failing) {
      PartnerAt(ips, b, i);
      MetIsMeant(names, i, batches, names[Opposite(|names|, b, i)]);
    }
  }
}

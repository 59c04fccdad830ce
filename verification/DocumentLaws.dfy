/** What the manager reads from a report, told by the members of the document alone. */
module DocumentLaws {
  import opened Base
  import opened Json
  import opened Preflight
  import opened ReportParser
  import ParserLaws
  import Detection
  import VerdictLaws

  // ---- Members ----

  /** An int64 written as an integer literal; a member that is absent or null counts as zero. */
  predicate HoldsInt(f: map<string, Json>, name: string, i: int) {
    if name !in f || f[name].Null? then i == 0
    else f[name] == Num(i as real, true) && -0x8000_0000_0000_0000 <= i < 0x8000_0000_0000_0000
  }

  /** A text; a member that is absent or null counts as empty. */
  predicate HoldsText(f: map<string, Json>, name: string, s: string) {
    if name !in f || f[name].Null? then s == "" else f[name] == Str(s)
  }

  /** The top-level members of the document are those of r, and it names its node. */
  predicate HoldsReport(f: map<string, Json>, r: Report) {
    && HoldsInt(f, "version", r.version) && HoldsText(f, "workload", r.workload)
    && HoldsInt(f, "workload_size", r.workloadSize) && HoldsInt(f, "rank", r.rank)
    && HoldsText(f, "node_name", r.nodeName) && HoldsText(f, "node_ip", r.nodeIP)
    && HoldsInt(f, "gpu_check", r.gpuCheck) && HoldsInt(f, "storage_check", r.storageCheck)
    && r.nodeName != ""
  }

  lemma IntMemberMeans(f: map<string, Json>, name: string, i: int)
    ensures IntMember(Field(f, name)) == Ok(i) <==> HoldsInt(f, name, i)
  {
  }

  lemma TextMemberMeans(f: map<string, Json>, name: string, s: string)
    ensures StrMember(Field(f, name)) == Ok(s) <==> HoldsText(f, name, s)
  {
  }

  lemma ParsedMeans(doc: Option<Json>, r: Report)
    ensures ParseReport(doc) == Ok(r) <==> doc.Some? && doc.value.Obj? && HoldsReport(doc.value.fields, r)
  {
    if doc.Some? && doc.value.Obj? {
      var f := doc.value.fields;
      IntMemberMeans(f, "version", r.version);
      TextMemberMeans(f, "workload", r.workload);
      IntMemberMeans(f, "workload_size", r.workloadSize);
      IntMemberMeans(f, "rank", r.rank);
      TextMemberMeans(f, "node_name", r.nodeName);
      TextMemberMeans(f, "node_ip", r.nodeIP);
      IntMemberMeans(f, "gpu_check", r.gpuCheck);
      IntMemberMeans(f, "storage_check", r.storageCheck);
    }
  }

  /** A number, or a text that reads as one. */
  predicate HoldsNumber(lib: Lib, f: map<string, Json>, name: string, x: real) {
    name in f &&
    match f[name]
    case Num(v, _) => v == x
    case Str(s) => s != "" && lib.parseFloat(s) == Some(x)
    case _ => false
  }

  lemma NumberMeans(lib: Lib, f: map<string, Json>, name: string)
    ensures forall x :: FloatField(lib, Field(f, name)) == Ok(x) <==> HoldsNumber(lib, f, name, x)
    ensures forall i: int :: IntField(lib, Field(f, name)) == Ok(i) <==> HoldsNumber(lib, f, name, i as real)
  {
  }

  // ---- Status ----

  /** Lower case; the Kelvin sign and the long s are spellings of k and s. */
  function Plain(c: char): char {
    if 'A' <= c <= 'Z' then 'a' + (c - 'A') else if c == '\U{212A}' then 'k' else if c == '\U{17F}' then 's' else c
  }

  predicate SpellsAs(s: string, word: string) {
    |s| == |word| && forall i :: 0 <= i < |s| ==> Plain(s[i]) == word[i]
  }

  lemma EqualFoldMeans(s: string, word: string)
    requires forall i :: 0 <= i < |word| ==> 'a' <= word[i] <= 'z'
    ensures EqualFold(s, word) <==> SpellsAs(s, word)
  {
    if |s| == |word| {
      forall i | 0 <= i < |s| ensures FoldsTo(s[i], word[i]) <==> Plain(s[i]) == word[i] {
        FoldsToMeans(s[i], word[i]);
      }
    }
  }

  lemma FoldsToMeans(c: char, l: char)
    requires 'a' <= l <= 'z'
    ensures FoldsTo(c, l) <==> Plain(c) == l
  {
  }

  predicate HasStatus(f: map<string, Json>, word: string) {
    "status" in f && f["status"].Str? && SpellsAs(f["status"].text, word)
  }

  lemma StatusMeans(f: map<string, Json>)
    ensures EqualFold(Status(FieldsOf(f)), "fail") <==> HasStatus(f, "fail")
    ensures EqualFold(Status(FieldsOf(f)), "skip") <==> HasStatus(f, "skip")
  {
    EqualFoldMeans(Status(FieldsOf(f)), "fail");
    EqualFoldMeans(Status(FieldsOf(f)), "skip");
  }

  // ---- Threshold ----

  predicate Blank(s: string) {
    forall i :: 0 <= i < |s| ==> IsSpace(s[i])
  }

  /** t is s without its outer white space. */
  ghost predicate Trimmed(s: string, t: string) {
    && (exists a, b :: Blank(a) && Blank(b) && s == a + t + b)
    && (t != "" ==> !IsSpace(t[0]) && !IsSpace(t[|t| - 1]))
  }

  lemma {:induction false} TrimLeftDrops(s: string) returns (n: nat)
    ensures n <= |s| && TrimLeft(s) == s[n..] && Blank(s[..n])
  {
    if s != "" && IsSpace(s[0]) {
      var k := TrimLeftDrops(s[1..]);
      n := k + 1;
      assert s[1..][k..] == s[n..];
      assert s[..n] == [s[0]] + s[1..][..k];
    } else {
      n := 0;
    }
  }

  lemma {:induction false} TrimRightDrops(s: string) returns (n: nat)
    ensures n <= |s| && TrimRight(s) == s[..n] && Blank(s[n..])
  {
    var k := |s| - 1;
    if s != "" && IsSpace(s[k]) {
      n := TrimRightDrops(s[..k]);
      assert s[..k][..n] == s[..n];
      assert s[n..] == s[..k][n..] + [s[k]];
    } else {
      n := |s|;
    }
  }

  lemma TrimSpaceTrims(s: string)
    ensures Trimmed(s, TrimSpace(s))
  {
    var n := TrimLeftDrops(s);
    var left := TrimLeft(s);
    var m := TrimRightDrops(left);
    TrimLeftClean(s);
    TrimRightClean(left);
    assert s == s[..n] + TrimSpace(s) + left[m..];
  }

  /** Where white space and text are in a split. */
  lemma SplitAt(s: string, a: string, t: string, b: string)
    requires Blank(a) && Blank(b) && s == a + t + b
    ensures forall i :: 0 <= i < |a| || |s| - |b| <= i < |s| ==> IsSpace(s[i])
    ensures t != "" ==> s[|a|] == t[0] && s[|s| - |b| - 1] == t[|t| - 1]
  {
    forall i | 0 <= i < |a| || |s| - |b| <= i < |s| ensures IsSpace(s[i]) {
      assert s[i] == if i < |a| then a[i] else b[i - |a| - |t|];
    }
  }

  lemma TrimmedUnique(s: string, t: string, u: string)
    requires Trimmed(s, t) && Trimmed(s, u)
    ensures t == u
  {
    var a, b :| Blank(a) && Blank(b) && s == a + t + b;
    var c, d :| Blank(c) && Blank(d) && s == c + u + d;
    SplitAt(s, a, t, b);
    SplitAt(s, c, u, d);
    if t != "" && u != "" {
      assert t == s[|a|..|s| - |b|] && u == s[|c|..|s| - |d|];
    }
  }

  /** No threshold is zero; else it is given as text, blank for zero, or for a number that is not negative. */
  ghost predicate HoldsThreshold(lib: Lib, f: map<string, Json>, x: real) {
    if "node_check_busbw_threshold_gbps" !in f then x == 0.0
    else
      f["node_check_busbw_threshold_gbps"].Str?
      && exists t :: Trimmed(f["node_check_busbw_threshold_gbps"].text, t)
          && if t == "" then x == 0.0 else lib.parseFloat(t) == Some(x) && x >= 0.0
  }

  lemma ThresholdMeans(lib: Lib, f: map<string, Json>, x: real)
    ensures ExtractBusBWThreshold(lib, f) == Ok(x) <==> HoldsThreshold(lib, f, x)
  {
    if "node_check_busbw_threshold_gbps" in f && f["node_check_busbw_threshold_gbps"].Str? {
      var s := f["node_check_busbw_threshold_gbps"].text;
      TrimSpaceTrims(s);
      forall t | Trimmed(s, t) ensures t == TrimSpace(s) {
        TrimmedUnique(s, t, TrimSpace(s));
      }
    }
  }

  // ---- Whether a batch failed ----

  predicate HoldsMeasurement(lib: Lib, f: map<string, Json>, ms: real, shape: int, bytes: int, world: int) {
    && HoldsNumber(lib, f, "allreduce_ms", ms) && HoldsNumber(lib, f, "allreduce_shape", shape as real)
    && HoldsNumber(lib, f, "dtype_bytes", bytes as real) && HoldsNumber(lib, f, "world_size", world as real)
  }

  /** The measurement makes no sense, or moving shape * bytes of data took longer than the threshold allows. */
  predicate TooSlow(threshold: real, ms: real, shape: int, bytes: int, world: int) {
    || ms <= 0.0 || shape <= 0 || bytes <= 0 || world <= 1
    || ms * threshold * world as real > (shape * bytes) as real / 1073741824.0 * 2000.0 * (world - 1) as real
  }

  /** What the entry says about failure, with its status and its measurement. */
  ghost predicate SaysFailed(lib: Lib, f: map<string, Json>, threshold: real, failed: bool) {
    if HasStatus(f, "fail") || HasStatus(f, "skip") then failed
    else if threshold == 0.0 then !failed
    else exists ms, shape, bytes, world ::
      HoldsMeasurement(lib, f, ms, shape, bytes, world) && failed == TooSlow(threshold, ms, shape, bytes, world)
  }

  lemma MeasurementMeans(lib: Lib, f: map<string, Json>, ms: real, shape: int, bytes: int, world: int)
    ensures HoldsMeasurement(lib, f, ms, shape, bytes, world) <==>
            FloatField(lib, FieldsOf(f).allreduceMS) == Ok(ms) && IntField(lib, FieldsOf(f).allreduceShape) == Ok(shape)
            && IntField(lib, FieldsOf(f).dtypeBytes) == Ok(bytes) && IntField(lib, FieldsOf(f).worldSize) == Ok(world)
  {
    NumberMeans(lib, f, "allreduce_ms");
    NumberMeans(lib, f, "allreduce_shape");
    NumberMeans(lib, f, "dtype_bytes");
    NumberMeans(lib, f, "world_size");
  }

  /** The measurement decides when the status does not. */
  lemma MeasuredMeans(lib: Lib, f: map<string, Json>, threshold: real, ms: real, shape: int, bytes: int, world: int)
    requires threshold > 0.0 && !HasStatus(f, "fail") && !HasStatus(f, "skip")
    requires HoldsMeasurement(lib, f, ms, shape, bytes, world)
    ensures BatchFailed(lib, FieldsOf(f), threshold) == Ok(TooSlow(threshold, ms, shape, bytes, world))
  {
    StatusMeans(f);
    MeasurementMeans(lib, f, ms, shape, bytes, world);
    if ms > 0.0 && shape > 0 && bytes > 0 && world > 1 {
      ParserLaws.FailsWhenTooSlow(lib, FieldsOf(f), threshold, ms, shape, bytes, world);
    }
  }

  lemma MeasurementNeeded(lib: Lib, f: map<string, Json>, threshold: real)
    returns (ms: real, shape: int, bytes: int, world: int)
    requires threshold > 0.0 && !HasStatus(f, "fail") && !HasStatus(f, "skip")
    requires BatchFailed(lib, FieldsOf(f), threshold).Ok?
    ensures HoldsMeasurement(lib, f, ms, shape, bytes, world)
  {
    StatusMeans(f);
    var b := FieldsOf(f);
    ms, shape := FloatField(lib, b.allreduceMS).value, IntField(lib, b.allreduceShape).value;
    bytes, world := IntField(lib, b.dtypeBytes).value, IntField(lib, b.worldSize).value;
    MeasurementMeans(lib, f, ms, shape, bytes, world);
  }

  /** The full law of failure; a batch whose entry says nothing about it is malformed. */
  lemma FailureMeans(lib: Lib, f: map<string, Json>, threshold: real, failed: bool)
    requires threshold >= 0.0
    ensures BatchFailed(lib, FieldsOf(f), threshold) == Ok(failed) <==> SaysFailed(lib, f, threshold, failed)
  {
    StatusMeans(f);
    if threshold > 0.0 && !HasStatus(f, "fail") && !HasStatus(f, "skip") {
      if BatchFailed(lib, FieldsOf(f), threshold).Ok? {
        var ms, shape, bytes, world := MeasurementNeeded(lib, f, threshold);
        MeasuredMeans(lib, f, threshold, ms, shape, bytes, world);
      }
      if SaysFailed(lib, f, threshold, failed) {
        var ms, shape, bytes, world :| HoldsMeasurement(lib, f, ms, shape, bytes, world)
            && failed == TooSlow(threshold, ms, shape, bytes, world);
        MeasuredMeans(lib, f, threshold, ms, shape, bytes, world);
      }
    }
  }

  // ---- Who is meant ----

  predicate HasPair(f: map<string, Json>, a: string, b: string) {
    a != "" && b != "" && "pair" in f && f["pair"] == Arr([Str(a), Str(b)])
  }

  /** b comes first: as the smaller address if both are addresses, as the smaller text otherwise. */
  ghost predicate ComesBefore(lib: Lib, b: string, a: string) {
    match (lib.parseAddr(b), lib.parseAddr(a))
    case (Some(y), Some(x)) =>
      || y.bits < x.bits
      || (y.bits == x.bits && y.value < x.value)
      || (y.bits == x.bits && y.value == x.value && Precedes(y.zone, x.zone))
    case _ => Precedes(b, a)
  }

  lemma SwapMeans(lib: Lib, a: string, b: string)
    ensures ShouldSwapPair(lib, a, b) <==> ComesBefore(lib, b, a)
  {
    StrLeIff(a, b);
    StrLeTotal(a, b);
    StrLeIff(b, a);
    var x, y := lib.parseAddr(a), lib.parseAddr(b);
    if x.Some? && y.Some? {
      StrLeIff(y.value.zone, x.value.zone);
    }
  }

  lemma PairMeans(lib: Lib, f: map<string, Json>)
    ensures forall a, b :: HasPair(f, a, b) ==>
      PairField(lib, Field(f, "pair")) == Some(if ComesBefore(lib, b, a) then (b, a) else (a, b))
    ensures (exists a, b :: HasPair(f, a, b)) <==> PairField(lib, Field(f, "pair")).Some?
  {
    forall a, b | HasPair(f, a, b)
      ensures PairField(lib, Field(f, "pair")) == Some(if ComesBefore(lib, b, a) then (b, a) else (a, b))
    {
      SwapMeans(lib, a, b);
    }
    if PairField(lib, Field(f, "pair")).Some? {
      var items := f["pair"].items;
      assert items == [Str(items[0].text), Str(items[1].text)];
      assert HasPair(f, items[0].text, items[1].text);
    }
  }

  /** The reporter named in the entry, or else the one of the whole report. */
  predicate IsReporter(f: map<string, Json>, reporterIP: string, self: string) {
    if "self_ip" in f then f["self_ip"] == Str(self) && self != "" else self == reporterIP
  }

  /**
   * The entry is about its pair, in the order of the addresses, and reported by one end of it; a skipped
   * entry without a pair is about its reporter alone, who is then paired with itself.
   */
  ghost predicate Identifies(
    lib: Lib, f: map<string, Json>, reporterIP: string, first: string, second: string, self: string)
  {
    if exists a, b :: HasPair(f, a, b) then
      && (exists a, b ::
        HasPair(f, a, b) && first == (if ComesBefore(lib, b, a) then b else a)
        && second == if ComesBefore(lib, b, a) then a else b)
      && IsReporter(f, reporterIP, self) && (self == first || self == second)
    else
      HasStatus(f, "skip") && "self_ip" in f && f["self_ip"] == Str(self) && self != "" && first == second == self
  }

  /** What one entry of the batch list says. */
  ghost predicate Says(lib: Lib, f: map<string, Json>, reporterIP: string, threshold: real, r: BatchResult) {
    && HoldsNumber(lib, f, "batch_idx", r.batchIdx as real)
    && Identifies(lib, f, reporterIP, r.pairFirst, r.pairSecond, r.selfIP)
    && SaysFailed(lib, f, threshold, r.failed)
  }

  /** How ExtractBatchResult identifies the pair and the reporter. */
  function IdentityOf(lib: Lib, b: BatchFields, reporterIP: string): Result<((string, string), string)> {
    if EqualFold(Status(b), "skip") then SkippedBatchIdentity(lib, b, reporterIP)
    else match PairField(lib, b.pair)
      case None => Err
      case Some(pair) => (match BatchSelfIP(b, reporterIP, pair) case Ok(ip) => Ok((pair, ip)) case Err => Err)
  }

  lemma ReporterMeans(f: map<string, Json>, reporterIP: string, pair: (string, string), self: string)
    requires pair.0 != "" && pair.1 != ""
    ensures BatchSelfIP(FieldsOf(f), reporterIP, pair) == Ok(self)
            <==> IsReporter(f, reporterIP, self) && (self == pair.0 || self == pair.1)
  {
  }

  lemma IdentityMeans(lib: Lib, f: map<string, Json>, ip: string, first: string, second: string, self: string)
    ensures IdentityOf(lib, FieldsOf(f), ip) == Ok(((first, second), self))
            <==> Identifies(lib, f, ip, first, second, self)
  {
    StatusMeans(f);
    PairMeans(lib, f);
    if a, b :| HasPair(f, a, b) {
      var pair := if ComesBefore(lib, b, a) then (b, a) else (a, b);
      ReporterMeans(f, ip, pair, self);
      forall c, d | HasPair(f, c, d) ensures c == a && d == b {
        assert f["pair"].items[0] == Str(a) && f["pair"].items[1] == Str(b);
        assert f["pair"].items[0] == Str(c) && f["pair"].items[1] == Str(d);
      }
    }
  }

  lemma EntryMeans(lib: Lib, f: map<string, Json>, ip: string, n: int, threshold: real, r: BatchResult)
    requires threshold >= 0.0
    ensures ExtractBatchResult(lib, FieldsOf(f), ip, n, threshold) == Ok(r)
            <==> 0 <= r.batchIdx < n && Says(lib, f, ip, threshold, r)
  {
    NumberMeans(lib, f, "batch_idx");
    FailureMeans(lib, f, threshold, r.failed);
    IdentityMeans(lib, f, ip, r.pairFirst, r.pairSecond, r.selfIP);
    EntryInParts(lib, FieldsOf(f), ip, n, threshold, r);
  }

  lemma EntryInParts(lib: Lib, b: BatchFields, ip: string, n: int, threshold: real, r: BatchResult)
    ensures ExtractBatchResult(lib, b, ip, n, threshold) == Ok(r) <==>
            && IntField(lib, b.batchIdx) == Ok(r.batchIdx) && 0 <= r.batchIdx < n
            && IdentityOf(lib, b, ip) == Ok(((r.pairFirst, r.pairSecond), r.selfIP))
            && BatchFailed(lib, b, threshold) == Ok(r.failed)
  {
  }

  // ---- The batch list ----

  /** The item is an entry for a planned batch, and says r. */
  ghost predicate ItemSays(lib: Lib, item: Json, ip: string, n: int, threshold: real, r: BatchResult) {
    item.Obj? && 0 <= r.batchIdx < n && Says(lib, item.fields, ip, threshold, r)
  }

  /** The item is an entry for batch b. */
  predicate IsFor(lib: Lib, item: Json, b: int) {
    item.Obj? && HoldsNumber(lib, item.fields, "batch_idx", b as real)
  }

  /** The item is an entry for a batch past the plan, whatever else it says. */
  ghost predicate PastThePlan(lib: Lib, item: Json, n: int) {
    exists b :: n <= b && IsFor(lib, item, b)
  }

  ghost predicate Legible(lib: Lib, item: Json, ip: string, n: int, threshold: real) {
    PastThePlan(lib, item, n) || exists r :: ItemSays(lib, item, ip, n, threshold, r)
  }

  lemma ItemMeans(lib: Lib, item: Json, ip: string, n: nat, threshold: real)
    requires threshold >= 0.0
    ensures forall r :: ViewItem(lib, item, ip, n, threshold) == Batch(r) <==> ItemSays(lib, item, ip, n, threshold, r)
    ensures ViewItem(lib, item, ip, n, threshold) == Ignored <==> PastThePlan(lib, item, n)
    ensures ViewItem(lib, item, ip, n, threshold) == Malformed <==> !Legible(lib, item, ip, n, threshold)
  {
    if item.Obj? {
      NumberMeans(lib, item.fields, "batch_idx");
      forall r
        ensures ExtractBatchResult(lib, FieldsOf(item.fields), ip, n, threshold) == Ok(r) <==>
                ItemSays(lib, item, ip, n, threshold, r)
      {
        EntryMeans(lib, item.fields, ip, n, threshold, r);
      }
      PastMeans(lib, item, n);
    }
    forall r ensures ViewItem(lib, item, ip, n, threshold) == Batch(r) <==> ItemSays(lib, item, ip, n, threshold, r) {
      ViewSays(lib, item, ip, n, threshold, r);
    }
  }

  lemma PastMeans(lib: Lib, item: Json, n: int)
    requires item.Obj?
    ensures var idx := IntField(lib, FieldsOf(item.fields).batchIdx);
      PastThePlan(lib, item, n) <==> idx.Ok? && n <= idx.value
  {
    NumberMeans(lib, item.fields, "batch_idx");
    var idx := IntField(lib, FieldsOf(item.fields).batchIdx);
    if idx.Ok? {
      assert IsFor(lib, item, idx.value);
    }
  }

  lemma ViewSays(lib: Lib, item: Json, ip: string, n: nat, threshold: real, r: BatchResult)
    requires threshold >= 0.0
    ensures ViewItem(lib, item, ip, n, threshold) == Batch(r) <==> ItemSays(lib, item, ip, n, threshold, r)
  {
    if item.Obj? {
      EntryMeans(lib, item.fields, ip, n, threshold, r);
      EntryInParts(lib, FieldsOf(item.fields), ip, n, threshold, r);
    }
  }

  /** No two items are for the same planned batch. */
  ghost predicate NoBatchTwice(lib: Lib, items: seq<Json>, n: int) {
    forall i, j, b :: 0 <= i < j < |items| && 0 <= b < n && IsFor(lib, items[i], b) ==> !IsFor(lib, items[j], b)
  }

  ghost predicate AllLegible(lib: Lib, items: seq<Json>, ip: string, n: int, threshold: real) {
    forall i :: 0 <= i < |items| ==> Legible(lib, items[i], ip, n, threshold)
  }

  /** The results are what the items say, in ascending order. */
  ghost predicate ResultsSaid(
    lib: Lib, items: seq<Json>, ip: string, n: int, threshold: real, results: seq<BatchResult>)
  {
    && Ascending(results)
    && forall r :: r in results <==> exists i :: 0 <= i < |items| && ItemSays(lib, items[i], ip, n, threshold, r)
  }

  ghost predicate Ascending(results: seq<BatchResult>) {
    forall i, j :: 0 <= i < j < |results| ==> results[i].batchIdx < results[j].batchIdx
  }

  lemma {:induction false} AscendingUnique(s: seq<BatchResult>, t: seq<BatchResult>)
    requires Ascending(s) && Ascending(t) && forall r :: r in s <==> r in t
    ensures s == t
    decreases |s|
  {
    if s == [] {
      if t != [] {
        HoldsSome(t);
      }
    } else {
      assert s[0] in t && t != [];
      assert t[0] in s;
      assert s[0] == t[0] by {
        var i :| 0 <= i < |t| && t[i] == s[0];
        var j :| 0 <= j < |s| && s[j] == t[0];
      }
      forall r ensures r in s[1..] <==> r in t[1..] {
        TailOf(s, r);
        TailOf(t, r);
      }
      AscendingUnique(s[1..], t[1..]);
      assert s == [s[0]] + s[1..] && t == [t[0]] + t[1..];
    }
  }

  lemma HoldsSome<T>(t: seq<T>)
    requires t != []
    ensures exists r :: r in t
  {
    assert t[0] in t;
  }

  lemma TailOf(s: seq<BatchResult>, r: BatchResult)
    requires Ascending(s) && s != []
    ensures r in s[1..] <==> r in s && r != s[0]
  {
    assert s == [s[0]] + s[1..];
  }

  lemma ViewsMean(lib: Lib, items: seq<Json>, ip: string, n: nat, threshold: real)
    requires threshold >= 0.0
    ensures var views := Views(lib, items, ip, n, threshold);
      && (Malformed !in views <==> AllLegible(lib, items, ip, n, threshold))
      && forall r :: Batch(r) in views <==> exists i :: 0 <= i < |items| && ItemSays(lib, items[i], ip, n, threshold, r)
  {
    var views := Views(lib, items, ip, n, threshold);
    forall i | 0 <= i < |items|
      ensures views[i] == Malformed <==> !Legible(lib, items[i], ip, n, threshold)
      ensures forall r :: views[i] == Batch(r) <==> ItemSays(lib, items[i], ip, n, threshold, r)
    {
      ItemMeans(lib, items[i], ip, n, threshold);
    }
    if Malformed in views {
      var i :| 0 <= i < |items| && views[i] == Malformed;
      assert !Legible(lib, items[i], ip, n, threshold);
    }
    if !AllLegible(lib, items, ip, n, threshold) {
      var i :| 0 <= i < |items| && !Legible(lib, items[i], ip, n, threshold);
      assert views[i] == Malformed;
    }
    forall r ensures Batch(r) in views <==> exists i :: 0 <= i < |items| && ItemSays(lib, items[i], ip, n, threshold, r)
    {
      if Batch(r) in views {
        var i :| 0 <= i < |items| && views[i] == Batch(r);
        assert ItemSays(lib, items[i], ip, n, threshold, r);
      }
      if i :| 0 <= i < |items| && ItemSays(lib, items[i], ip, n, threshold, r) {
        assert views[i] == Batch(r);
      }
    }
  }

  /** A legible item for a planned batch is read as a result for it, and only such an item is. */
  lemma ForMeans(lib: Lib, item: Json, ip: string, n: nat, threshold: real, b: int)
    requires threshold >= 0.0 && Legible(lib, item, ip, n, threshold) && 0 <= b < n
    ensures var v := ViewItem(lib, item, ip, n, threshold);
      IsFor(lib, item, b) <==> v.Batch? && v.result.batchIdx == b
  {
    ItemMeans(lib, item, ip, n, threshold);
    assert item.Obj?;
    NumberMeans(lib, item.fields, "batch_idx");
  }

  lemma NoneTwiceMeans(lib: Lib, items: seq<Json>, ip: string, n: nat, threshold: real)
    requires threshold >= 0.0 && AllLegible(lib, items, ip, n, threshold)
    ensures ParserLaws.NoTwoFor(Views(lib, items, ip, n, threshold)) <==> NoBatchTwice(lib, items, n)
  {
    var views := Views(lib, items, ip, n, threshold);
    forall i, b | 0 <= i < |items| && 0 <= b < n
      ensures IsFor(lib, items[i], b) <==> views[i].Batch? && views[i].result.batchIdx == b
    {
      assert Legible(lib, items[i], ip, n, threshold) && views[i] == ViewItem(lib, items[i], ip, n, threshold);
      ForMeans(lib, items[i], ip, n, threshold, b);
    }
    TwiceAlike(lib, items, views, n);
  }

  lemma TwiceAlike(lib: Lib, items: seq<Json>, views: seq<ItemView>, n: nat)
    requires |items| == |views|
    requires forall i :: 0 <= i < |views| && views[i].Batch? ==> 0 <= views[i].result.batchIdx < n
    requires forall i, b :: 0 <= i < |items| && 0 <= b < n ==>
        (IsFor(lib, items[i], b) <==> views[i].Batch? && views[i].result.batchIdx == b)
    ensures ParserLaws.NoTwoFor(views) <==> NoBatchTwice(lib, items, n)
  {
    if NoBatchTwice(lib, items, n) {
      forall i, j | 0 <= i < j < |views| && views[i].Batch? && views[j].Batch?
        ensures views[i].result.batchIdx != views[j].result.batchIdx
      {
        assert IsFor(lib, items[i], views[i].result.batchIdx);
        assert IsFor(lib, items[j], views[j].result.batchIdx);
      }
    }
  }

  /** The batch list is read exactly when every item is legible and no batch is there twice. */
  lemma ListMeans(lib: Lib, items: seq<Json>, ip: string, n: nat, threshold: real, results: seq<BatchResult>)
    requires threshold >= 0.0
    ensures CollectOrdered(Views(lib, items, ip, n, threshold), n) == Ok(results) <==>
            && AllLegible(lib, items, ip, n, threshold) && NoBatchTwice(lib, items, n)
            && ResultsSaid(lib, items, ip, n, threshold, results)
  {
    var views := Views(lib, items, ip, n, threshold);
    ViewsMean(lib, items, ip, n, threshold);
    ParserLaws.CollectMeaning(views);
    if AllLegible(lib, items, ip, n, threshold) {
      NoneTwiceMeans(lib, items, ip, n, threshold);
    }
    if Collect(views).Ok? {
      var read := OrderedBelow(Collect(views).value, n);
      ReadIsSaid(lib, items, ip, n, threshold);
      if ResultsSaid(lib, items, ip, n, threshold, results) {
        forall r ensures r in results <==> r in read {
          assert r in results <==> exists i :: 0 <= i < |items| && ItemSays(lib, items[i], ip, n, threshold, r);
        }
        AscendingUnique(results, read);
      }
    }
  }

  lemma ReadIsSaid(lib: Lib, items: seq<Json>, ip: string, n: nat, threshold: real)
    requires threshold >= 0.0 && Collect(Views(lib, items, ip, n, threshold)).Ok?
    ensures ResultsSaid(lib, items, ip, n, threshold,
        OrderedBelow(Collect(Views(lib, items, ip, n, threshold)).value, n))
  {
    var views := Views(lib, items, ip, n, threshold);
    ViewsMean(lib, items, ip, n, threshold);
    CollectedIsAscending(views, n);
    forall r ensures r in OrderedBelow(Collect(views).value, n) <==> Batch(r) in views {
      KeptMeans(views, n, r);
    }
  }

  /** Results within the plan, each reported by one end of its pair. */
  ghost predicate WithinPlan(views: seq<ItemView>, n: nat) {
    forall i :: 0 <= i < |views| && views[i].Batch? ==>
      && 0 <= views[i].result.batchIdx < n
      && (views[i].result.selfIP == views[i].result.pairFirst || views[i].result.selfIP == views[i].result.pairSecond)
  }

  lemma CollectedIsAscending(views: seq<ItemView>, n: nat)
    requires WithinPlan(views, n) && Collect(views).Ok?
    ensures Ascending(OrderedBelow(Collect(views).value, n))
  {
    ParserLaws.CollectKeeps(views);
    ParserLaws.OrderedIsWellFormed(Collect(views).value, n);
  }

  lemma KeptMeans(views: seq<ItemView>, n: nat, r: BatchResult)
    requires WithinPlan(views, n) && Collect(views).Ok?
    ensures r in OrderedBelow(Collect(views).value, n) <==> Batch(r) in views
  {
    var m := Collect(views).value;
    ParserLaws.CollectMeaning(views);
    ParserLaws.OrderedHolds(m, n);
    CollectInRange(views, n);
    if Batch(r) in views {
      assert m[r.batchIdx] == r;
    }
  }

  // ---- The whole document ----

  /** The batch list; none is an empty one. */
  function Entries(f: map<string, Json>): seq<Json> {
    if "batches" in f && f["batches"].Arr? then f["batches"].items else []
  }

  /** What a document must say so that the manager reads e from it. */
  ghost predicate DocumentSays(lib: Lib, f: map<string, Json>, e: Extracted) {
    && HoldsReport(f, e.report)
    && 2 <= e.report.workloadSize <= 10_000 && e.report.workloadSize % 2 == 0
    && e.plan == Plan(e.report.workloadSize, if e.report.workloadSize < 6 then e.report.workloadSize - 1 else 5)
    && if e.report.gpuCheck == 2 || e.report.storageCheck == 2 then e.results == []
      else BatchesSaid(lib, f, e.report.nodeIP, e.plan.batchCount, e.results)
  }

  ghost predicate BatchesSaid(lib: Lib, f: map<string, Json>, ip: string, n: int, results: seq<BatchResult>) {
    exists threshold ::
      && HoldsThreshold(lib, f, threshold)
      && AllLegible(lib, Entries(f), ip, n, threshold) && NoBatchTwice(lib, Entries(f), n)
      && ResultsSaid(lib, Entries(f), ip, n, threshold, results)
  }

  lemma BatchesMean(lib: Lib, f: map<string, Json>, ip: string, n: nat, results: seq<BatchResult>)
    ensures ReadBatches(lib, f, ip, n) == Ok(results) <==> BatchesSaid(lib, f, ip, n, results)
  {
    forall x ensures ExtractBusBWThreshold(lib, f) == Ok(x) <==> HoldsThreshold(lib, f, x) {
      ThresholdMeans(lib, f, x);
    }
    assert Entries(f) == BatchItems(f);
    if ExtractBusBWThreshold(lib, f).Ok? {
      var threshold := ExtractBusBWThreshold(lib, f).value;
      ListMeans(lib, Entries(f), ip, n, threshold, results);
      assert HoldsThreshold(lib, f, threshold);
    }
  }

  /** The manager reads e from a document if and only if the members of the document say e. */
  lemma DocumentMeans(lib: Lib, doc: Option<Json>, e: Extracted)
    ensures ExtractedFrom(lib, doc) == Ok(e) <==>
            doc.Some? && doc.value.Obj? && DocumentSays(lib, doc.value.fields, e)
  {
    ParsedMeans(doc, e.report);
    if ParseReport(doc) == Ok(e.report) {
      BodyMeans(lib, doc.value.fields, e);
    }
  }

  lemma BodyMeans(lib: Lib, f: map<string, Json>, e: Extracted)
    requires HoldsReport(f, e.report)
    ensures ExtractedFor(lib, e.report, f) == Ok(e) <==> DocumentSays(lib, f, e)
  {
    var planned := BuildWorkloadPlan(e.report.workloadSize);
    if planned.Ok? {
      BatchesMean(lib, f, e.report.nodeIP, planned.value.batchCount, e.results);
    }
  }

  // ---- Nodes that fail fast ----

  ghost predicate HasEntryFor(lib: Lib, f: map<string, Json>, b: int) {
    exists i :: 0 <= i < |Entries(f)| && IsFor(lib, Entries(f)[i], b)
  }

  /** One of the two checks of the node itself failed. */
  predicate ChecksFailed(f: map<string, Json>) {
    HoldsInt(f, "gpu_check", 2) || HoldsInt(f, "storage_check", 2)
  }

  lemma ChecksMean(f: map<string, Json>, r: Report)
    requires HoldsReport(f, r)
    ensures ChecksFailed(f) <==> r.gpuCheck == 2 || r.storageCheck == 2
  {
  }

  /** An accepted report has a result exactly for each planned batch with an entry. */
  lemma ResultsMean(lib: Lib, f: map<string, Json>, ip: string, n: nat, results: seq<BatchResult>)
    requires BatchesSaid(lib, f, ip, n, results)
    ensures results == [] <==> forall b :: 0 <= b < n ==> !HasEntryFor(lib, f, b)
  {
    var items := Entries(f);
    var threshold :| HoldsThreshold(lib, f, threshold) && AllLegible(lib, items, ip, n, threshold)
      && NoBatchTwice(lib, items, n) && ResultsSaid(lib, items, ip, n, threshold, results);
    if results != [] {
      assert results[0] in results;
      var i :| 0 <= i < |items| && ItemSays(lib, items[i], ip, n, threshold, results[0]);
      assert IsFor(lib, items[i], results[0].batchIdx);
      assert HasEntryFor(lib, f, results[0].batchIdx);
    }
    if b :| 0 <= b < n && HasEntryFor(lib, f, b) {
      var i :| 0 <= i < |items| && IsFor(lib, items[i], b);
      EntryGivesResult(lib, items[i], ip, n, threshold, b);
      var r: BatchResult :| r.batchIdx == b && ItemSays(lib, items[i], ip, n, threshold, r);
      assert r in results;
    }
  }

  lemma EntryGivesResult(lib: Lib, item: Json, ip: string, n: nat, threshold: real, b: int)
    requires Legible(lib, item, ip, n, threshold) && IsFor(lib, item, b) && 0 <= b < n
    ensures exists r: BatchResult :: r.batchIdx == b && ItemSays(lib, item, ip, n, threshold, r)
  {
    ForOneOnly(lib, item, b);
    var r :| ItemSays(lib, item, ip, n, threshold, r);
    assert IsFor(lib, item, r.batchIdx);
  }

  lemma ForOneOnly(lib: Lib, item: Json, b: int)
    requires IsFor(lib, item, b)
    ensures forall c :: IsFor(lib, item, c) ==> c == b
  {
    forall c | IsFor(lib, item, c) ensures c == b {
      assert (c as real).Floor == (b as real).Floor;
    }
  }

  /** A node fails fast if a check of its own failed, or if its list has nothing for any planned batch. */
  lemma FailFastIff(lib: Lib, doc: Option<Json>)
    requires ExtractedFrom(lib, doc).Ok?
    ensures var e, f := ExtractedFrom(lib, doc).value, doc.value.fields;
      NodeReportOf(e.report, e.results).failFast <==>
        ChecksFailed(f) || forall b :: 0 <= b < e.plan.batchCount ==> !HasEntryFor(lib, f, b)
  {
    var e := ExtractedFrom(lib, doc).value;
    DocumentMeans(lib, doc, e);
    ChecksMean(doc.value.fields, e.report);
    if !ChecksFailed(doc.value.fields) {
      ResultsMean(lib, doc.value.fields, e.report.nodeIP, e.plan.batchCount, e.results);
    }
  }

  /** With a failed check of its own the node needs a name and a size, but no legible batches or threshold. */
  lemma FailedChecksAreAccepted(lib: Lib, f: map<string, Json>, r: Report)
    requires HoldsReport(f, r) && 2 <= r.workloadSize <= 10_000 && r.workloadSize % 2 == 0 && ChecksFailed(f)
    ensures ExtractedFrom(lib, Some(Obj(f)))
         == Ok(Extracted(r, Plan(r.workloadSize, if r.workloadSize < 6 then r.workloadSize - 1 else 5), []))
  {
    ChecksMean(f, r);
    var plan := Plan(r.workloadSize, if r.workloadSize < 6 then r.workloadSize - 1 else 5);
    DocumentMeans(lib, Some(Obj(f)), Extracted(r, plan, []));
  }

  /** And it is in the list, whatever the others report. */
  lemma FailedChecksAreNamed(
    lib: Lib, f: map<string, Json>, others: map<string, NodeReport>, expected: int, slow: seq<string>)
    requires ExtractedFrom(lib, Some(Obj(f))).Ok? && ChecksFailed(f)
    requires var e := ExtractedFrom(lib, Some(Obj(f))).value;
      Detection.IsVerdict(others[e.report.nodeName := NodeReportOf(e.report, e.results)], expected, slow)
    ensures f["node_name"].Str? && f["node_name"].text in slow
  {
    var e := ExtractedFrom(lib, Some(Obj(f))).value;
    var n, reports := e.report.nodeName, others[e.report.nodeName := NodeReportOf(e.report, e.results)];
    DocumentMeans(lib, Some(Obj(f)), e);
    ChecksMean(f, e.report);
    assert reports[n].failFast && reports[n].nodeName == n;
    VerdictLaws.ListedMeans(reports, expected, slow);
  }

  // ---- Skipped batches ----

  /** A skipped entry without a pair stands for its reporter paired with itself, and has failed. */
  lemma SkippedAlone(
    lib: Lib, f: map<string, Json>, reporterIP: string, n: int, threshold: real, b: int, self: string)
    requires threshold >= 0.0 && 0 <= b < n && HoldsNumber(lib, f, "batch_idx", b as real)
    requires HasStatus(f, "skip") && "self_ip" in f && f["self_ip"] == Str(self) && self != ""
    requires forall x, y :: !HasPair(f, x, y)
    ensures ExtractBatchResult(lib, FieldsOf(f), reporterIP, n, threshold) == Ok(BatchResult(b, self, self, self, true))
  {
    EntryMeans(lib, f, reporterIP, n, threshold, BatchResult(b, self, self, self, true));
  }

  /** The entry is marked as failed or skipped, and is about the given reporter. */
  predicate Condemns(item: Json, ip: string) {
    item.Obj? && (HasStatus(item.fields, "fail") || HasStatus(item.fields, "skip")) && IsReporter(item.fields, ip, ip)
  }

  /** The report of one node, in which each planned batch has an entry and all of those are failed or skipped. */
  ghost predicate CondemnsAll(lib: Lib, f: map<string, Json>, name: string, ip: string, n: int) {
    && HoldsText(f, "node_name", name) && HoldsText(f, "node_ip", ip) && ip != "" && !ChecksFailed(f)
    && (forall b :: 0 <= b < n ==> HasEntryFor(lib, f, b))
    && (forall i, b :: 0 <= i < |Entries(f)| && 0 <= b < n && IsFor(lib, Entries(f)[i], b) ==>
        Condemns(Entries(f)[i], ip))
  }

  lemma CondemnedResult(lib: Lib, item: Json, ip: string, n: int, threshold: real, r: BatchResult)
    requires ItemSays(lib, item, ip, n, threshold, r) && Condemns(item, ip) && ip != ""
    ensures r.failed && r.selfIP == ip && (r.pairFirst == ip || r.pairSecond == ip)
  {
  }

  lemma CondemnedReport(lib: Lib, doc: Option<Json>, name: string, ip: string)
    requires ExtractedFrom(lib, doc).Ok?
    requires CondemnsAll(lib, doc.value.fields, name, ip, ExtractedFrom(lib, doc).value.plan.batchCount)
    ensures var e := ExtractedFrom(lib, doc).value;
      var r := NodeReportOf(e.report, e.results);
      r.nodeName == name && r.selfIP == ip && !r.failFast && VerdictLaws.FailsAllBatches(r, e.plan.batchCount)
  {
    var e, f := ExtractedFrom(lib, doc).value, doc.value.fields;
    var n, items := e.plan.batchCount, Entries(f);
    DocumentMeans(lib, doc, e);
    ChecksMean(f, e.report);
    FailFastIff(lib, doc);
    assert HasEntryFor(lib, f, 0);
    var threshold :| HoldsThreshold(lib, f, threshold) && AllLegible(lib, items, ip, n, threshold)
      && NoBatchTwice(lib, items, n) && ResultsSaid(lib, items, ip, n, threshold, e.results);
    forall b | 0 <= b < n ensures VerdictLaws.FailsBatch(NodeReportOf(e.report, e.results), b) {
      assert HasEntryFor(lib, f, b);
      var i :| 0 <= i < |items| && IsFor(lib, items[i], b);
      EntryGivesResult(lib, items[i], ip, n, threshold, b);
      var r: BatchResult :| r.batchIdx == b && ItemSays(lib, items[i], ip, n, threshold, r);
      CondemnedResult(lib, items[i], ip, n, threshold, r);
      assert r in e.results;
    }
  }

  /** One accepted report per node, with an address of its own, in which no planned batch passed. */
  ghost predicate NothingPassed(
    lib: Lib, docs: map<string, Option<Json>>, ips: map<string, string>, expected: nat)
  {
    && docs.Keys == ips.Keys
    && (forall m, n :: m in ips && n in ips && ips[m] == ips[n] ==> m == n)
    && (forall n :: n in docs ==> ReportOfNone(lib, docs[n], n, ips[n], expected))
  }

  ghost predicate ReportOfNone(lib: Lib, doc: Option<Json>, name: string, ip: string, expected: nat) {
    && ExtractedFrom(lib, doc).Ok? && ExtractedFrom(lib, doc).value.plan.batchCount == expected
    && CondemnsAll(lib, doc.value.fields, name, ip, expected)
  }

  lemma CondemnedReports(lib: Lib, docs: map<string, Option<Json>>, ips: map<string, string>, expected: nat)
    requires NothingPassed(lib, docs, ips, expected)
    ensures VerdictLaws.NobodyPasses(ParserLaws.ReportsRead(lib, docs), expected)
    ensures VerdictLaws.IPs(ParserLaws.ReportsRead(lib, docs)) == ips.Values
  {
    forall n | n in docs
      ensures ReportOfNone(lib, docs[n], n, ips[n], expected) && expected > 0
    {
      ParserLaws.ExtractedIsWellFormed(lib, docs[n]);
    }
    var reports := ParserLaws.ReportsRead(lib, docs);
    forall n | n in docs
      ensures reports[n].nodeName == n && reports[n].selfIP == ips[n] != "" && !reports[n].failFast
      ensures VerdictLaws.FailsAllBatches(reports[n], expected)
    {
      CondemnedReport(lib, docs[n], n, ips[n]);
    }
    ParserLaws.ReadIndexesBelow(lib, docs, expected);
  }

  /** A check in which every batch was skipped or failed puts every node into the list. */
  lemma SkippedCheckNamesEveryone(
    lib: Lib, docs: map<string, Option<Json>>, ips: map<string, string>, expected: nat, slow: seq<string>)
    requires NothingPassed(lib, docs, ips, expected)
    requires Detection.IsVerdict(ParserLaws.ReportsRead(lib, docs), expected, slow)
    ensures forall n :: n in docs ==> n in slow
  {
    CondemnedReports(lib, docs, ips, expected);
    VerdictLaws.NobodyPassesListsAll(ParserLaws.ReportsRead(lib, docs), expected, slow);
  }

  /** The pair of the entry, if it has one, joins two of the given addresses. */
  ghost predicate PairAmong(item: Json, ips: set<string>) {
    item.Obj? ==> forall a, b :: HasPair(item.fields, a, b) ==> a in ips && b in ips
  }

  ghost predicate PairsAmong(f: map<string, Json>, ips: set<string>) {
    forall i :: 0 <= i < |Entries(f)| ==> PairAmong(Entries(f)[i], ips)
  }

  /** The entry a result was read from. */
  lemma SaidBy(lib: Lib, doc: Option<Json>, r: BatchResult) returns (i: nat, threshold: real)
    requires ExtractedFrom(lib, doc).Ok? && r in ExtractedFrom(lib, doc).value.results
    ensures var (e, items) := (ExtractedFrom(lib, doc).value, Entries(doc.value.fields));
      i < |items| && ItemSays(lib, items[i], e.report.nodeIP, e.plan.batchCount, threshold, r)
  {
    var e, f := ExtractedFrom(lib, doc).value, doc.value.fields;
    var n, ip, items := e.plan.batchCount, e.report.nodeIP, Entries(f);
    DocumentMeans(lib, doc, e);
    threshold :| HoldsThreshold(lib, f, threshold) && AllLegible(lib, items, ip, n, threshold)
      && NoBatchTwice(lib, items, n) && ResultsSaid(lib, items, ip, n, threshold, e.results);
    i :| 0 <= i < |items| && ItemSays(lib, items[i], ip, n, threshold, r);
  }

  lemma CondemnedEnds(lib: Lib, item: Json, ip: string, n: int, threshold: real, r: BatchResult, ips: set<string>)
    requires ItemSays(lib, item, ip, n, threshold, r) && Condemns(item, ip) && ip != "" && ip in ips
    requires PairAmong(item, ips)
    ensures VerdictLaws.EndsIn(r, ips)
  {
  }

  lemma EndsAmong(lib: Lib, doc: Option<Json>, name: string, ip: string, n: nat, ips: set<string>, r: BatchResult)
    requires ReportOfNone(lib, doc, name, ip, n) && r in ExtractedFrom(lib, doc).value.results && ip in ips
    requires PairsAmong(doc.value.fields, ips)
    ensures VerdictLaws.EndsIn(r, ips)
  {
    var i, threshold := SaidBy(lib, doc, r);
    var item := Entries(doc.value.fields)[i];
    CondemnedReport(lib, doc, name, ip);
    assert IsFor(lib, item, r.batchIdx);
    assert Condemns(item, ip);
    CondemnedEnds(lib, item, ip, n, threshold, r, ips);
  }

  lemma NodeEndsAmong(
    lib: Lib, docs: map<string, Option<Json>>, ips: map<string, string>, expected: nat, n: string, r: BatchResult)
    requires NothingPassed(lib, docs, ips, expected) && n in docs
    requires PairsAmong(docs[n].value.fields, ips.Values) && r in ExtractedFrom(lib, docs[n]).value.results
    ensures VerdictLaws.EndsIn(r, ips.Values)
  {
    assert ReportOfNone(lib, docs[n], n, ips[n], expected);
    EndsAmong(lib, docs[n], n, ips[n], expected, ips.Values, r);
  }

  lemma AllEndsAmong(lib: Lib, docs: map<string, Option<Json>>, ips: map<string, string>, expected: nat)
    requires NothingPassed(lib, docs, ips, expected)
    requires forall n :: n in docs ==> PairsAmong(docs[n].value.fields, ips.Values)
    ensures forall n, r :: n in docs && r in ExtractedFrom(lib, docs[n]).value.results ==>
      VerdictLaws.EndsIn(r, ips.Values)
  {
    forall n, r | n in docs && r in ExtractedFrom(lib, docs[n]).value.results
      ensures VerdictLaws.EndsIn(r, ips.Values)
    {
      NodeEndsAmong(lib, docs, ips, expected, n, r);
    }
  }

  /** And nobody else, when the pairs join addresses of nodes. */
  lemma SkippedCheckNamesOnlyNodes(
    lib: Lib, docs: map<string, Option<Json>>, ips: map<string, string>, expected: nat, slow: seq<string>)
    requires NothingPassed(lib, docs, ips, expected)
    requires forall n :: n in docs ==> PairsAmong(docs[n].value.fields, ips.Values)
    requires Detection.IsVerdict(ParserLaws.ReportsRead(lib, docs), expected, slow)
    ensures IsSortedListOf(slow, docs.Keys)
  {
    CondemnedReports(lib, docs, ips, expected);
    AllEndsAmong(lib, docs, ips, expected);
    ReadEndsAmong(lib, docs, ips.Values);
    VerdictLaws.NobodyPassesListsNodes(ParserLaws.ReportsRead(lib, docs), expected, slow);
  }

  lemma ReadEndsAmong(lib: Lib, docs: map<string, Option<Json>>, all: set<string>)
    requires forall n :: n in docs ==> ExtractedFrom(lib, docs[n]).Ok?
    requires forall n, r :: n in docs && r in ExtractedFrom(lib, docs[n]).value.results ==> VerdictLaws.EndsIn(r, all)
    ensures var reports := ParserLaws.ReportsRead(lib, docs);
      forall n, r :: n in reports && r in reports[n].batchResults ==> VerdictLaws.EndsIn(r, all)
  {
  }
}

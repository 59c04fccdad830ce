/** Building, naming and validating stored reports: pkg/preflight/report_transport.go. */
module Transport {
  import opened Base
  import Json
  import Preflight
  import ReportParser
  import Compaction
  import DocumentLaws

  const MAX_NAME_LENGTH := 253
  const MAX_INT32 := 0x7FFF_FFFF

  // ---- The name of a stored report ----

  predicate IsLower(c: char) { 'a' <= c <= 'z' }
  predicate IsDigit(c: char) { '0' <= c <= '9' }
  predicate IsAlnum(c: char) { IsLower(c) || IsDigit(c) }
  predicate IsNameChar(c: char) { IsAlnum(c) || c == '-' || c == '.' }
  predicate IsEdge(c: char) { c == '-' || c == '.' }

  function TrimEdgesRight(s: string): (r: string)
    ensures r <= s
    ensures forall i :: |r| <= i < |s| ==> IsEdge(s[i])
    ensures r != "" ==> !IsEdge(r[|r| - 1])
    ensures s != "" && !IsEdge(s[0]) ==> r != ""
  {
    if s != "" && IsEdge(s[|s| - 1]) then TrimEdgesRight(s[..|s| - 1]) else s
  }

  function TrimEdgesLeft(s: string): (r: string)
    ensures r != "" ==> !IsEdge(r[0])
    ensures forall c :: c in r ==> c in s
  {
    if s != "" && IsEdge(s[0]) then TrimEdgesLeft(s[1..]) else s
  }

  /** lower stands for unicode.ToLower. */
  function Sanitize(lower: char -> char, s: string): string {
    seq(|s|, i requires 0 <= i < |s| => if IsNameChar(lower(s[i])) then lower(s[i]) else '-')
  }

  function NamePart(lower: char -> char, value: string): string {
    var part := TrimEdgesRight(TrimEdgesLeft(Sanitize(lower, value)));
    if part == "" then "unknown" else part
  }

  method BuildNamePart(lower: char -> char, value: string) returns (part: string)
    ensures part == NamePart(lower, value)
  {
    var b := "";
    for i := 0 to |value|
      invariant b == Sanitize(lower, value)[..i]
    {
      var c := lower(value[i]);
      b := b + [if IsNameChar(c) then c else '-'];
    }
    assert b == Sanitize(lower, value);
    part := TrimEdgesRight(TrimEdgesLeft(b));
    if part == "" { part := "unknown"; }
  }

  /** The readable part of the name, cut so that a hash of the given length still fits. */
  function Prefix(lower: char -> char, workload: string, hashLength: nat): string
    requires hashLength < MAX_NAME_LENGTH - 1
  {
    var part := NamePart(lower, workload);
    var max := MAX_NAME_LENGTH - hashLength - 1;
    if |part| > max then TrimEdgesRight(part[..max]) else part
  }

  /** The cleaned form of c: its lower case if that may stand in a name, a hyphen otherwise. */
  predicate CleansTo(lower: char -> char, c: char, d: char) {
    var l := lower(c);
    d == if 'a' <= l <= 'z' || '0' <= l <= '9' || l == '-' || l == '.' then l else '-'
  }

  /** The name part is the cleaned text without the hyphens and dots around it, or a placeholder. */
  lemma NamePartMeans(lower: char -> char, value: string) returns (lo: nat, hi: nat)
    ensures lo <= hi <= |value|
    ensures forall i :: 0 <= i < lo || hi <= i < |value| ==>
      CleansTo(lower, value[i], '-') || CleansTo(lower, value[i], '.')
    ensures var part := NamePart(lower, value);
      if lo == hi then part == "unknown"
      else
        && |part| == hi - lo && part[0] !in ['-', '.'] && part[|part| - 1] !in ['-', '.']
        && forall i :: lo <= i < hi ==> CleansTo(lower, value[i], part[i - lo])
  {
    var s, part;
    s, lo, part := NamePartInside(lower, value);
    hi := lo + |part|;
    CleanedParts(lower, value, s, lo, part);
  }

  lemma NamePartInside(lower: char -> char, value: string) returns (s: string, lo: nat, part: string)
    ensures NamePart(lower, value) == if part == "" then "unknown" else part
    ensures |s| == |value| && forall i :: 0 <= i < |value| ==> CleansTo(lower, value[i], s[i])
    ensures lo + |part| <= |s| && forall i :: lo <= i < lo + |part| ==> s[i] == part[i - lo]
    ensures forall i :: 0 <= i < lo || lo + |part| <= i < |s| ==> IsEdge(s[i])
    ensures part != "" ==> !IsEdge(part[0]) && !IsEdge(part[|part| - 1])
  {
    s := Sanitize(lower, value);
    TrimLeftStarts(s);
    lo := FirstAlnum(s);
    part := TrimEdgesRight(s[lo..]);
    TrimmedInside(s, lo, part);
    SanitizeCleans(lower, value);
  }

  lemma CleanedParts(lower: char -> char, value: string, s: string, lo: nat, part: string)
    requires |s| == |value| && forall i :: 0 <= i < |value| ==> CleansTo(lower, value[i], s[i])
    requires lo + |part| <= |s| && forall i :: lo <= i < lo + |part| ==> s[i] == part[i - lo]
    requires forall i :: 0 <= i < lo || lo + |part| <= i < |s| ==> IsEdge(s[i])
    ensures forall i :: 0 <= i < lo || lo + |part| <= i < |value| ==>
      CleansTo(lower, value[i], '-') || CleansTo(lower, value[i], '.')
    ensures forall i :: lo <= i < lo + |part| ==> CleansTo(lower, value[i], part[i - lo])
  {
  }

  lemma SanitizeCleans(lower: char -> char, value: string)
    ensures forall i :: 0 <= i < |value| ==> CleansTo(lower, value[i], Sanitize(lower, value)[i])
  {
  }

  lemma TrimmedInside(s: string, lo: nat, part: string)
    requires lo <= |s| && (forall j :: 0 <= j < lo ==> !IsAlnum(s[j])) && (lo < |s| ==> IsAlnum(s[lo]))
    requires part == TrimEdgesRight(s[lo..]) && forall i :: 0 <= i < |s| ==> IsNameChar(s[i])
    ensures forall i :: 0 <= i < lo || lo + |part| <= i < |s| ==> IsEdge(s[i])
    ensures lo + |part| <= |s| && forall i :: lo <= i < lo + |part| ==> s[i] == part[i - lo]
    ensures part != "" ==> !IsEdge(part[0]) && !IsEdge(part[|part| - 1])
  {
    var left := s[lo..];
    forall i | lo + |part| <= i < |s| ensures IsEdge(s[i]) {
      assert left[i - lo] == s[i];
    }
    forall i | lo <= i < lo + |part| ensures s[i] == part[i - lo] {
      assert left[i - lo] == s[i];
    }
  }

  function HexDigit(n: int): char
    requires 0 <= n < 16
  {
    if n < 10 then '0' + n as char else 'a' + (n - 10) as char
  }

  /** hex.EncodeToString */
  function Hex(bytes: seq<bv8>): (h: string)
    ensures |h| == 2 * |bytes|
    ensures forall c :: c in h ==> IsAlnum(c)
  {
    if bytes == [] then "" else
      [HexDigit(bytes[0] as int / 16), HexDigit(bytes[0] as int % 16)] + Hex(bytes[1..])
  }

  function Nibble(c: char): int {
    if '0' <= c <= '9' then c as int - '0' as int else c as int - 'a' as int + 10
  }

  /** Two digits for each byte, the high one first. */
  lemma {:induction false} HexMeans(bytes: seq<bv8>, i: nat)
    requires i < |bytes|
    ensures 16 * Nibble(Hex(bytes)[2 * i]) + Nibble(Hex(bytes)[2 * i + 1]) == bytes[i] as int
  {
    NibbleMeans(bytes[0] as int);
    if i > 0 {
      HexMeans(bytes[1..], i - 1);
    }
  }

  lemma NibbleMeans(b: int)
    requires 0 <= b < 256
    ensures 16 * Nibble(HexDigit(b / 16)) + Nibble(HexDigit(b % 16)) == b
  {
  }

  function PreflightReportName(lower: char -> char, workload: string, sum: seq<bv8>): string
    requires |sum| == 32
  {
    var hash := Hex(sum[..5]);
    Prefix(lower, workload, |hash|) + "-" + hash
  }

  /** Characters, first and last character of every name and name part. */
  ghost predicate TidyName(s: string) {
    s != "" && IsAlnum(s[0]) && IsAlnum(s[|s| - 1]) && forall i :: 0 <= i < |s| ==> IsNameChar(s[i])
  }

  lemma NamePartIsTidy(lower: char -> char, value: string)
    ensures TidyName(NamePart(lower, value))
  {
    var s := Sanitize(lower, value);
    var left := TrimEdgesLeft(s);
    var part := TrimEdgesRight(left);
    if part != "" {
      assert part[0] == left[0];
      forall i | 0 <= i < |part| ensures IsNameChar(part[i]) {
        assert part[i] == left[i] && left[i] in left && left[i] in s;
      }
    }
  }

  lemma PrefixIsTidy(lower: char -> char, workload: string, hashLength: nat)
    requires hashLength < MAX_NAME_LENGTH - 1
    ensures TidyName(Prefix(lower, workload, hashLength))
    ensures |Prefix(lower, workload, hashLength)| <= MAX_NAME_LENGTH - hashLength - 1
  {
    NamePartIsTidy(lower, workload);
  }

  /** For any workload name at all, the report name is short enough, tidy, and ends in the hash. */
  lemma ReportNameIsTidy(lower: char -> char, workload: string, sum: seq<bv8>)
    requires |sum| == 32
    ensures var name := PreflightReportName(lower, workload, sum);
            TidyName(name) && |name| <= 253 && name[|name| - 10..] == Hex(sum[..5])
  {
    var hash := Hex(sum[..5]);
    PrefixIsTidy(lower, workload, |hash|);
    var prefix := Prefix(lower, workload, |hash|);
    var name := PreflightReportName(lower, workload, sum);
    forall i | 0 <= i < |name| ensures IsNameChar(name[i]) {
      if i > |prefix| {
        assert name[i] == hash[i - |prefix| - 1] && hash[i - |prefix| - 1] in hash;
      }
    }
    assert name[|name| - 1] == hash[|hash| - 1] && hash[|hash| - 1] in hash;
  }

  // ---- DNS subdomains ----

  /** One dot-separated label: letters, digits and inner hyphens (RFC 1123 section 2.1). */
  predicate IsLabel(s: string) {
    && s != "" && IsAlnum(s[0]) && IsAlnum(s[|s| - 1])
    && forall i :: 0 <= i < |s| ==> IsAlnum(s[i]) || s[i] == '-'
  }

  function FirstDot(s: string): (i: nat)
    ensures i <= |s| && (i < |s| ==> s[i] == '.')
    ensures forall j :: 0 <= j < i ==> s[j] != '.'
  {
    if s == "" || s[0] == '.' then 0 else 1 + FirstDot(s[1..])
  }

  predicate AllLabels(s: string)
    decreases |s|
  {
    var i := FirstDot(s);
    IsLabel(s[..i]) && (i < |s| ==> AllLabels(s[i + 1..]))
  }

  /** What Kubernetes accepts as an object name. */
  predicate IsSubdomain(s: string) {
    |s| <= MAX_NAME_LENGTH && AllLabels(s)
  }

  /** No dot touches another dot or a hyphen. */
  predicate DotsStandAlone(s: string) {
    forall i :: 0 <= i < |s| ==> StandsApart(s, i)
  }

  predicate StandsApart(s: string, i: nat)
    requires i < |s|
  {
    i > 0 ==> (s[i - 1] == '.' ==> !IsEdge(s[i])) && (s[i] == '.' ==> !IsEdge(s[i - 1]))
  }

  lemma {:induction false} LabelsIffDotsStandAlone(s: string)
    requires forall i :: 0 <= i < |s| ==> IsNameChar(s[i])
    ensures AllLabels(s) <==> TidyName(s) && DotsStandAlone(s)
    decreases |s|
  {
    var i := FirstDot(s);
    if i < |s| {
      LabelsIffDotsStandAlone(s[i + 1..]);
      FirstLabelSplits(s, i);
    } else {
      assert s[..i] == s;
    }
  }

  lemma FirstLabelSplits(s: string, i: nat)
    requires i < |s| && s[i] == '.' && (forall j :: 0 <= j < i ==> s[j] != '.')
    requires forall j :: 0 <= j < |s| ==> IsNameChar(s[j])
    ensures TidyName(s) && DotsStandAlone(s) <==>
            IsLabel(s[..i]) && TidyName(s[i + 1..]) && DotsStandAlone(s[i + 1..])
  {
    var head, tail := s[..i], s[i + 1..];
    if TidyName(s) && DotsStandAlone(s) {
      assert i > 0 && i + 1 < |s|;
      assert StandsApart(s, i) && StandsApart(s, i + 1);
      forall j | 0 <= j < |tail| ensures StandsApart(tail, j) {
        assert StandsApart(s, i + 1 + j);
      }
    }
    if IsLabel(head) && TidyName(tail) && DotsStandAlone(tail) {
      assert s[0] == head[0] && s[|s| - 1] == tail[|tail| - 1];
      assert s[i - 1] == head[i - 1] && s[i + 1] == tail[0];
      forall k | 0 <= k < |s| ensures StandsApart(s, k) {
        if k > i + 1 {
          assert StandsApart(tail, k - i - 1);
        }
      }
    }
  }

  /** A part without dots that starts with a hyphen may follow a tidy part. */
  lemma DotlessTail(prefix: string, tail: string)
    requires TidyName(prefix) && '.' !in tail
    ensures DotsStandAlone(prefix + tail) <==> DotsStandAlone(prefix)
  {
    var name := prefix + tail;
    forall i | 0 <= i < |prefix| ensures StandsApart(name, i) <==> StandsApart(prefix, i) {
    }
    forall i | |prefix| <= i < |name| ensures StandsApart(name, i) {
      assert name[i] == tail[i - |prefix|] && tail[i - |prefix|] in tail;
      if i > |prefix| {
        assert name[i - 1] == tail[i - 1 - |prefix|] && tail[i - 1 - |prefix|] in tail;
      }
    }
    if DotsStandAlone(name) {
      forall i | 0 <= i < |prefix| ensures StandsApart(prefix, i) {
        assert StandsApart(name, i);
      }
    }
  }

  lemma HashedNameValidIff(prefix: string, hash: string)
    requires TidyName(prefix) && TidyName(prefix + "-" + hash) && '.' !in hash
    ensures AllLabels(prefix + "-" + hash) <==> DotsStandAlone(prefix)
  {
    LabelsIffDotsStandAlone(prefix + "-" + hash);
    assert prefix + "-" + hash == prefix + ("-" + hash);
    DotlessTail(prefix, "-" + hash);
  }

  lemma NameValidIffPrefix(lower: char -> char, workload: string, sum: seq<bv8>)
    requires |sum| == 32
    ensures IsSubdomain(PreflightReportName(lower, workload, sum)) <==> DotsStandAlone(Prefix(lower, workload, 10))
  {
    var hash := Hex(sum[..5]);
    ReportNameIsTidy(lower, workload, sum);
    PrefixIsTidy(lower, workload, |hash|);
    HashedNameValidIff(Prefix(lower, workload, |hash|), hash);
  }

  /** How many characters of the workload name are looked at, from its first letter or digit on. */
  const MAX_PREFIX := 242

  function FirstAlnum(s: string): (i: nat)
    ensures i <= |s| && (i < |s| ==> IsAlnum(s[i]))
    ensures forall j :: 0 <= j < i ==> !IsAlnum(s[j])
  {
    if s == "" || IsAlnum(s[0]) then 0 else 1 + FirstAlnum(s[1..])
  }

  /** A dot stands beside another dot or a hyphen at p. */
  predicate Crowded(s: string, p: nat)
    requires p + 1 < |s|
  {
    IsEdge(s[p]) && IsEdge(s[p + 1]) && (s[p] == '.' || s[p + 1] == '.')
  }

  /** Position p + 1 is followed by a letter or digit that still fits into a name that starts at f. */
  predicate Kept(s: string, f: nat, p: nat) {
    exists j :: p + 1 < j < |s| && j < f + MAX_PREFIX && IsAlnum(s[j])
  }

  predicate InnerDotsStandAloneFrom(s: string, f: nat) {
    forall p :: f < p < |s| - 1 && Crowded(s, p) ==> !Kept(s, f, p)
  }

  /** No crowded dot lies between the first and the last letter or digit that fit. */
  predicate InnerDotsStandAlone(s: string) {
    InnerDotsStandAloneFrom(s, FirstAlnum(s))
  }

  lemma {:induction false} TrimLeftStarts(s: string)
    requires forall i :: 0 <= i < |s| ==> IsNameChar(s[i])
    ensures TrimEdgesLeft(s) == s[FirstAlnum(s)..]
  {
    if s == "" || !IsEdge(s[0]) {
    } else {
      TrimLeftStarts(s[1..]);
    }
  }

  /** p starts at f in s, ends in a letter or digit, and leaves out only edges that would fit. */
  ghost predicate CutsTo(s: string, f: nat, p: string) {
    && 0 < |p| <= MAX_PREFIX && f + |p| <= |s| && IsAlnum(p[|p| - 1])
    && (forall i :: 0 <= i < |p| ==> p[i] == s[f + i])
    && forall q :: f + |p| <= q < |s| && q < f + MAX_PREFIX ==> IsEdge(s[q])
  }

  /** The cut and the two trimmings on the right, together. */
  function CutRight(left: string): string {
    var part := TrimEdgesRight(left);
    if |part| > MAX_PREFIX then TrimEdgesRight(part[..MAX_PREFIX]) else part
  }

  lemma CutRightCuts(left: string)
    requires left != "" && IsAlnum(left[0]) && forall i :: 0 <= i < |left| ==> IsNameChar(left[i])
    ensures var p := CutRight(left);
      && 0 < |p| <= MAX_PREFIX && p <= left && IsAlnum(p[|p| - 1])
      && forall i :: |p| <= i < |left| && i < MAX_PREFIX ==> IsEdge(left[i])
  {
    var part := TrimEdgesRight(left);
    assert part != "" && part[0] == left[0];
    var p := CutRight(left);
    if |part| > MAX_PREFIX {
      assert part[..MAX_PREFIX][0] == left[0];
      forall i | |p| <= i < MAX_PREFIX ensures IsEdge(left[i]) {
        assert part[..MAX_PREFIX][i] == left[i];
      }
    }
    assert p[|p| - 1] == left[|p| - 1];
  }

  lemma PrefixIsCutRight(lower: char -> char, workload: string)
    ensures var left := TrimEdgesLeft(Sanitize(lower, workload));
      Prefix(lower, workload, 10) == if left == "" then "unknown" else CutRight(left)
  {
  }

  lemma CutOfRestCuts(s: string, f: nat, p: string)
    requires f < |s| && 0 < |p| <= MAX_PREFIX && p <= s[f..] && IsAlnum(p[|p| - 1])
    requires forall i :: |p| <= i < |s| - f && i < MAX_PREFIX ==> IsEdge(s[f..][i])
    ensures CutsTo(s, f, p)
  {
    var left := s[f..];
    forall i | 0 <= i < |p| ensures p[i] == s[f + i] {
      assert p[i] == left[i];
    }
    forall q | f + |p| <= q < |s| && q < f + MAX_PREFIX ensures IsEdge(s[q]) {
      assert left[q - f] == s[q];
    }
  }

  lemma CutRightCutsTo(s: string, f: nat)
    requires f < |s| && IsAlnum(s[f]) && forall i :: 0 <= i < |s| ==> IsNameChar(s[i])
    ensures CutsTo(s, f, CutRight(s[f..]))
  {
    CutRightCuts(s[f..]);
    CutOfRestCuts(s, f, CutRight(s[f..]));
  }

  lemma PrefixCuts(lower: char -> char, workload: string)
    ensures var s, p := Sanitize(lower, workload), Prefix(lower, workload, 10);
      if FirstAlnum(s) == |s| then p == "unknown" else CutsTo(s, FirstAlnum(s), p)
  {
    var s := Sanitize(lower, workload);
    TrimLeftStarts(s);
    PrefixIsCutRight(lower, workload);
    if FirstAlnum(s) < |s| {
      CutRightCutsTo(s, FirstAlnum(s));
    }
  }

  /** A crowded dot that is kept would be crowded in the readable part, too. */
  lemma KeptIsInside(s: string, f: nat, p: string, q: nat)
    requires CutsTo(s, f, p) && f < q < |s| - 1 && Crowded(s, q) && Kept(s, f, q)
    ensures !DotsStandAlone(p)
  {
    var x := q - f;
    assert x + 1 < |p|;
    assert p[x] == s[q] && p[x + 1] == s[q + 1];
    assert !StandsApart(p, x + 1);
  }

  /** And a crowded dot of the readable part is one of the workload name that is kept. */
  lemma InsideIsKept(s: string, f: nat, p: string, i: nat)
    requires CutsTo(s, f, p) && f < |s| && IsAlnum(s[f]) && i < |p| && !StandsApart(p, i)
    ensures !InnerDotsStandAloneFrom(s, f)
  {
    var q, last := f + i - 1, f + |p| - 1;
    assert p[i - 1] == s[q] && p[i] == s[q + 1] && p[|p| - 1] == s[last] && p[0] == s[f];
    assert Crowded(s, q);
    assert IsAlnum(s[last]) && q + 1 < last;
    assert Kept(s, f, q);
  }

  lemma CutDots(s: string, f: nat, p: string)
    requires CutsTo(s, f, p) && f < |s| && IsAlnum(s[f])
    ensures DotsStandAlone(p) <==> InnerDotsStandAloneFrom(s, f)
  {
    if !InnerDotsStandAloneFrom(s, f) {
      var q :| f < q < |s| - 1 && Crowded(s, q) && Kept(s, f, q);
      KeptIsInside(s, f, p, q);
    }
    if !DotsStandAlone(p) {
      var i :| 0 <= i < |p| && !StandsApart(p, i);
      InsideIsKept(s, f, p, i);
    }
  }

  lemma PlaceholderStandsAlone()
    ensures DotsStandAlone("unknown")
  {
    var s := "unknown";
    forall i | 0 <= i < |s| ensures StandsApart(s, i) {
      assert '.' !in s;
    }
  }

  /**
   * The report name is a valid object name exactly when, in the sanitized workload name, no dot between the
   * first and the last letter or digit that fit touches another dot or a hyphen; trimming does not prevent that.
   */
  lemma ReportNameValidIff(lower: char -> char, workload: string, sum: seq<bv8>)
    requires |sum| == 32
    ensures IsSubdomain(PreflightReportName(lower, workload, sum)) <==> InnerDotsStandAlone(Sanitize(lower, workload))
  {
    var s := Sanitize(lower, workload);
    NameValidIffPrefix(lower, workload, sum);
    PrefixCuts(lower, workload);
    if FirstAlnum(s) == |s| {
      PlaceholderStandsAlone();
    } else {
      CutDots(s, FirstAlnum(s), Prefix(lower, workload, 10));
    }
  }

  lemma {:induction false} LabelsAreNameChars(s: string)
    requires AllLabels(s)
    ensures forall i :: 0 <= i < |s| ==> IsNameChar(s[i])
    decreases |s|
  {
    var i := FirstDot(s);
    forall k | 0 <= k < i ensures IsNameChar(s[k]) {
      assert s[..i][k] == s[k];
    }
    if i == |s| {
    } else {
      LabelsAreNameChars(s[i + 1..]);
      forall k | i < k < |s| ensures IsNameChar(s[k]) {
        assert s[i + 1..][k - i - 1] == s[k];
      }
    }
  }

  /** Workload names that are themselves valid object names, as Kubernetes requires, give valid report names. */
  lemma ValidWorkloadsGiveValidNames(lower: char -> char, workload: string, sum: seq<bv8>)
    requires |sum| == 32 && IsSubdomain(workload)
    requires forall c :: IsNameChar(c) ==> lower(c) == c
    ensures IsSubdomain(PreflightReportName(lower, workload, sum))
  {
    LabelsAreNameChars(workload);
    LabelsIffDotsStandAlone(workload);
    assert Sanitize(lower, workload) == workload;
    forall p | FirstAlnum(workload) < p < |workload| - 1 ensures !Crowded(workload, p) {
      assert StandsApart(workload, p + 1);
    }
    ReportNameValidIff(lower, workload, sum);
  }

  /** Not every workload name does: the label after the dot of "a.-b" starts with a hyphen. */
  lemma SomeWorkloadsGiveInvalidNames(lower: char -> char, sum: seq<bv8>)
    requires |sum| == 32 && forall c :: IsNameChar(c) ==> lower(c) == c
    ensures !IsSubdomain(PreflightReportName(lower, "a.-b", sum))
  {
    var workload := "a.-b";
    assert Sanitize(lower, workload) == workload;
    assert FirstAlnum(workload) == 0;
    assert Crowded(workload, 1) && IsAlnum(workload[3]);
    assert Kept(workload, 0, 1);
    ReportNameValidIff(lower, workload, sum);
  }

  // ---- The identity that is hashed ----

  function Decimal(n: nat): (s: string)
    ensures s != "" && forall c :: c in s ==> IsDigit(c)
  {
    if n < 10 then [HexDigit(n)] else Decimal(n / 10) + [HexDigit(n % 10)]
  }

  lemma {:induction false} DecimalInjective(m: nat, n: nat)
    ensures Decimal(m) == Decimal(n) ==> m == n
  {
    if Decimal(m) == Decimal(n) {
      DecimalLength(m);
      DecimalLength(n);
      var k := |Decimal(m)| - 1;
      assert Decimal(m)[k] == HexDigit(m % 10) && Decimal(n)[k] == HexDigit(n % 10);
      if m >= 10 && n >= 10 {
        assert Decimal(m)[..k] == Decimal(m / 10) && Decimal(n)[..k] == Decimal(n / 10);
        DecimalInjective(m / 10, n / 10);
      }
    }
  }

  lemma DecimalLength(n: nat)
    ensures |Decimal(n)| == 1 <==> n < 10
    ensures Decimal(n)[|Decimal(n)| - 1] == HexDigit(n % 10)
  {
  }

  /** The number that a text of digits stands for. */
  function NumberOf(s: string): int {
    if s == "" then 0 else 10 * NumberOf(s[..|s| - 1]) + (s[|s| - 1] as int - '0' as int)
  }

  /** A number is written in digits, without a leading zero, and reads back as itself. */
  lemma {:induction false} DecimalMeans(n: nat)
    ensures NumberOf(Decimal(n)) == n && Decimal(n) != ""
    ensures forall i :: 0 <= i < |Decimal(n)| ==> '0' <= Decimal(n)[i] <= '9'
    ensures Decimal(n)[0] == '0' ==> n == 0
  {
    if n >= 10 {
      DecimalMeans(n / 10);
      assert Decimal(n)[..|Decimal(n)| - 1] == Decimal(n / 10);
    }
  }

  function ReportIdentity(namespace: string, uid: string, node: string, rank: nat, digest: string): string {
    namespace + ['/'] + (uid + ['/'] + (node + ['/'] + (Decimal(rank) + ['/'] + digest)))
  }

  /** Different reports have different identities, as namespace, UID and node name contain no slash. */
  lemma IdentityIsInjective(
    ns: string, uid: string, node: string, rank: nat, digest: string,
    ns': string, uid': string, node': string, rank': nat, digest': string)
    requires '/' !in ns && '/' !in uid && '/' !in node && '/' !in ns' && '/' !in uid' && '/' !in node'
    ensures ReportIdentity(ns, uid, node, rank, digest) == ReportIdentity(ns', uid', node', rank', digest')
            <==> ns == ns' && uid == uid' && node == node' && rank == rank' && digest == digest'
  {
    var r, r' := Decimal(rank), Decimal(rank');
    SplitOnce(r, digest, r', digest', '/');
    SplitOnce(node, r + ['/'] + digest, node', r' + ['/'] + digest', '/');
    var t, t' := node + ['/'] + (r + ['/'] + digest), node' + ['/'] + (r' + ['/'] + digest');
    SplitOnce(uid, t, uid', t', '/');
    SplitOnce(ns, uid + ['/'] + t, ns', uid' + ['/'] + t', '/');
    DecimalInjective(rank, rank');
  }

  // ---- Producer and consumer ----

  datatype PreflightReport = PreflightReport(
    name: string, namespace: string, workloadName: string, workloadUID: string, nodeName: string, rank: int,
    report: Option<Json.Json>, observedAt: Option<int>)

  /** Go's conversion to int32 wraps around. */
  function ToInt32(i: int): int {
    (i + 0x8000_0000) % 0x1_0000_0000 - 0x8000_0000
  }

  /** SHA-256, as 32 bytes; textDigest gives the hexadecimal digest of the report text. */
  datatype Hashing = Hashing(sha256: string -> seq<bv8>, textDigest: Option<Json.Json> -> string)

  function BuildPreflightReport(
    h: Hashing, lower: char -> char, namespace: string, nodeName: string, workloadName: string, workloadUID: string,
    text: Option<Json.Json>, observedAt: Option<int>): Result<PreflightReport>
    requires forall s :: |h.sha256(s)| == 32
  {
    if namespace == "" || workloadName == "" || workloadUID == "" || nodeName == "" then Err else
      match ReportParser.ParseReport(text)
      case Err => Err
      case Ok(report) =>
        if report.nodeName != nodeName || !(0 <= report.rank <= MAX_INT32)
            || !Preflight.ValidWorkloadSize(report.workloadSize)
           || observedAt.None?
        then Err
        else
          var identity := ReportIdentity(namespace, workloadUID, nodeName, report.rank, h.textDigest(text));
          Ok(PreflightReport(PreflightReportName(lower, workloadName, h.sha256(identity)), namespace, workloadName,
                             workloadUID, nodeName, ToInt32(report.rank), text, observedAt))
  }

  predicate ValidateReport(r: PreflightReport) {
    && r.name != "" && r.namespace != "" && r.workloadName != "" && r.workloadUID != "" && r.nodeName != ""
    && r.observedAt.Some?
    && var payload := ReportParser.ParseReport(r.report);
       && payload.Ok? && Preflight.ValidWorkloadSize(payload.value.workloadSize)
       && payload.value.nodeName == r.nodeName && payload.value.rank == r.rank
       && (payload.value.workload == "" || payload.value.workload == r.workloadName)
  }

  /** The text carries the given fields, for a workload of a valid size. */
  predicate Carries(text: Option<Json.Json>, payload: Preflight.Report) {
    && text.Some? && text.value.Obj? && DocumentLaws.HoldsReport(text.value.fields, payload)
    && 2 <= payload.workloadSize <= 10_000 && payload.workloadSize % 2 == 0
  }

  lemma CarriesMeans(text: Option<Json.Json>, payload: Preflight.Report)
    ensures Carries(text, payload) <==>
            ReportParser.ParseReport(text) == Ok(payload) && Preflight.ValidWorkloadSize(payload.workloadSize)
  {
    DocumentLaws.ParsedMeans(text, payload);
  }

  /** The name ends in five bytes of a hash over namespace, UID, node, rank and text. */
  ghost predicate IsNamedAfterItself(h: Hashing, lower: char -> char, r: PreflightReport)
    requires 0 <= r.rank && forall s :: |h.sha256(s)| == 32
  {
    var identity :=
      r.namespace + "/" + r.workloadUID + "/" + r.nodeName + "/" + Decimal(r.rank) + "/" + h.textDigest(r.report);
    r.name == Prefix(lower, r.workloadName, 10) + "-" + Hex(h.sha256(identity)[..5])
  }

  /** The text is about the node and the rank of the resource. */
  ghost predicate TextFits(r: PreflightReport) {
    exists payload :: Carries(r.report, payload) && payload.nodeName == r.nodeName && payload.rank == r.rank
  }

  lemma TextFitsMeans(r: PreflightReport)
    ensures TextFits(r) <==>
            && ReportParser.ParseReport(r.report).Ok?
            && var payload := ReportParser.ParseReport(r.report).value;
               Preflight.ValidWorkloadSize(payload.workloadSize)
               && payload.nodeName == r.nodeName && payload.rank == r.rank
  {
    if ReportParser.ParseReport(r.report).Ok? {
      CarriesMeans(r.report, ReportParser.ParseReport(r.report).value);
    }
    forall payload
      ensures Carries(r.report, payload) <==>
              ReportParser.ParseReport(r.report) == Ok(payload) && Preflight.ValidWorkloadSize(payload.workloadSize)
    {
      CarriesMeans(r.report, payload);
    }
  }

  /** A report is built exactly from text that fits; it carries what it was given, under a name of its own. */
  lemma BuiltMeans(
    h: Hashing, lower: char -> char, namespace: string, nodeName: string, workloadName: string, workloadUID: string,
    text: Option<Json.Json>, observedAt: Option<int>, r: PreflightReport)
    requires forall s :: |h.sha256(s)| == 32
    ensures BuildPreflightReport(h, lower, namespace, nodeName, workloadName, workloadUID, text, observedAt) == Ok(r)
            <==>
            && r == PreflightReport(r.name, namespace, workloadName, workloadUID, nodeName, r.rank, text, observedAt)
            && namespace != "" && workloadName != "" && workloadUID != "" && nodeName != "" && observedAt.Some?
            && TextFits(r) && 0 <= r.rank < 0x8000_0000 && IsNamedAfterItself(h, lower, r)
  {
    TextFitsMeans(r);
    if 0 <= r.rank < 0x8000_0000 {
      RankFits(r.rank);
      IdentityInOrder(namespace, workloadUID, nodeName, r.rank, h.textDigest(text));
    }
  }

  lemma IdentityInOrder(namespace: string, uid: string, node: string, rank: nat, digest: string)
    ensures ReportIdentity(namespace, uid, node, rank, digest)
         == namespace + "/" + uid + "/" + node + "/" + Decimal(rank) + "/" + digest
  {
  }

  /** The watcher passes a resource exactly when it is complete and its text fits and names no other workload. */
  lemma ValidMeans(r: PreflightReport)
    ensures ValidateReport(r) <==>
            && r.name != "" && r.namespace != "" && r.workloadName != "" && r.workloadUID != "" && r.observedAt.Some?
            && TextFits(r) && exists workload ::
              DocumentLaws.HoldsText(r.report.value.fields, "workload", workload)
              && (workload == "" || workload == r.workloadName)
  {
    TextFitsMeans(r);
    if ReportParser.ParseReport(r.report).Ok? {
      var payload := ReportParser.ParseReport(r.report).value;
      DocumentLaws.ParsedMeans(r.report, payload);
      assert DocumentLaws.HoldsText(r.report.value.fields, "workload", payload.workload);
    }
  }

  lemma RankFits(i: int)
    requires 0 <= i <= MAX_INT32
    ensures ToInt32(i) == i
  {
  }

  /** The watcher accepts a built report exactly when its text does not name another workload. */
  lemma BuiltReportValidIff(
    h: Hashing, lower: char -> char, namespace: string, nodeName: string, workloadName: string, workloadUID: string,
    text: Option<Json.Json>, observedAt: Option<int>)
    requires forall s :: |h.sha256(s)| == 32
    requires BuildPreflightReport(h, lower, namespace, nodeName, workloadName, workloadUID, text, observedAt).Ok?
    ensures var r := BuildPreflightReport(h, lower, namespace, nodeName, workloadName, workloadUID, text,
        observedAt).value;
            ValidateReport(r) <==>
            (ReportParser.ParseReport(text).value.workload == ""
                || ReportParser.ParseReport(text).value.workload == workloadName)
  {
    RankFits(ReportParser.ParseReport(text).value.rank);
  }

  /** So whatever the agent compacts and builds, the manager's watcher accepts. */
  lemma ProducerAndConsumerAgree(
    h: Hashing, lower: char -> char, namespace: string, nodeName: string, workloadName: string, workloadUID: string,
    doc: Option<Json.Json>, observedAt: Option<int>)
    requires forall s :: |h.sha256(s)| == 32
    requires Compaction.Compacted(doc).Ok?
    requires BuildPreflightReport(h, lower, namespace, nodeName, workloadName, workloadUID,
        Some(Compaction.Compacted(doc).value), observedAt).Ok?
    ensures ValidateReport(
      BuildPreflightReport(h, lower, namespace, nodeName, workloadName, workloadUID,
          Some(Compaction.Compacted(doc).value), observedAt).value)
  {
    Compaction.CompactionPreservesMeaning(ReportParser.Lib(_ => None, _ => None), doc);
    BuiltReportValidIff(h, lower, namespace, nodeName, workloadName, workloadUID,
        Some(Compaction.Compacted(doc).value), observedAt);
  }
}

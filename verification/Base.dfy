/** Failure-compatible results, Go's string order, and the sorting the report code relies on. */
module Base {

  datatype Option<+T> = None | Some(value: T)

  /** A computation that may fail; the text of the error is not modelled. */
  datatype Result<+T> = Ok(value: T) | Err

  function Min(a: int, b: int): int { if a <= b then a else b }

  function Max(a: int, b: int): int { if a <= b then b else a }

  /** Go compares strings byte by byte, which for UTF-8 text is code point by code point. */
  predicate StrLe(a: string, b: string) {
    a == "" || (b != "" && (a[0] < b[0] || (a[0] == b[0] && StrLe(a[1..], b[1..]))))
  }

  /** a comes before b in a dictionary: as a proper prefix, or by a smaller character where they first differ. */
  ghost predicate Precedes(a: string, b: string) {
    a < b || exists k :: DifferAt(a, b, k) && a[k] < b[k]
  }

  ghost predicate DifferAt(a: string, b: string, k: int) {
    0 <= k < |a| && k < |b| && (forall i :: 0 <= i < k ==> a[i] == b[i]) && a[k] != b[k]
  }

  /** xs is in strict dictionary order. */
  ghost predicate InDictionaryOrder(xs: seq<string>) {
    forall i, j :: 0 <= i < j < |xs| ==> Precedes(xs[i], xs[j])
  }

  lemma {:induction false} StrLePrecedes(a: string, b: string)
    requires StrLe(a, b)
    ensures a == b || Precedes(a, b)
  {
    if a == "" {
    } else if a[0] < b[0] {
      assert DifferAt(a, b, 0);
    } else {
      StrLePrecedes(a[1..], b[1..]);
      assert a == [a[0]] + a[1..] && b == [b[0]] + b[1..];
      if k :| DifferAt(a[1..], b[1..], k) && a[1..][k] < b[1..][k] {
        OneMoreInFront(a, b, k);
      }
    }
  }

  lemma OneMoreInFront(a: string, b: string, k: int)
    requires a != "" && b != "" && a[0] == b[0] && DifferAt(a[1..], b[1..], k)
    ensures DifferAt(a, b, k + 1) && a[k + 1] == a[1..][k] && b[k + 1] == b[1..][k]
  {
    forall i | 0 <= i < k + 1 ensures a[i] == b[i] {
      if i > 0 {
        assert a[1..][i - 1] == b[1..][i - 1];
      }
    }
  }

  lemma PrecedesIsStrict(a: string, b: string)
    requires Precedes(a, b)
    ensures a != b && !Precedes(b, a)
  {
  }

  /** Go's comparison of strings is dictionary order. */
  lemma StrLeIff(a: string, b: string)
    ensures StrLe(a, b) <==> a == b || Precedes(a, b)
  {
    StrLeTotal(a, b);
    if StrLe(a, b) {
      StrLePrecedes(a, b);
    } else {
      StrLePrecedes(b, a);
      if Precedes(a, b) {
        PrecedesIsStrict(a, b);
      }
    }
  }

  predicate IntLe(a: int, b: int) { a <= b }

  ghost predicate TotalOrder<T(!new)>(le: (T, T) -> bool) {
    && (forall x, y :: le(x, y) || le(y, x))
    && (forall x, y :: le(x, y) && le(y, x) ==> x == y)
    && (forall x, y, z :: le(x, y) && le(y, z) ==> le(x, z))
  }

  lemma {:induction false} StrLeTotal(a: string, b: string)
    ensures StrLe(a, b) || StrLe(b, a)
    ensures StrLe(a, b) && StrLe(b, a) ==> a == b
  {
    if a == "" || b == "" {
    } else {
      StrLeTotal(a[1..], b[1..]);
      assert a == [a[0]] + a[1..] && b == [b[0]] + b[1..];
    }
  }

  lemma {:induction false} StrLeTransitive(a: string, b: string, c: string)
    requires StrLe(a, b) && StrLe(b, c)
    ensures StrLe(a, c)
  {
    if a == "" || !(a[0] == b[0] == c[0]) {
    } else {
      StrLeTransitive(a[1..], b[1..], c[1..]);
    }
  }

  lemma StrLeIsTotalOrder()
    ensures TotalOrder(StrLe)
  {
    forall x, y ensures (StrLe(x, y) || StrLe(y, x)) && (StrLe(x, y) && StrLe(y, x) ==> x == y) {
      StrLeTotal(x, y);
    }
    forall x, y, z | StrLe(x, y) && StrLe(y, z) ensures StrLe(x, z) {
      StrLeTransitive(x, y, z);
    }
  }

  ghost predicate SortedBy<T(!new)>(xs: seq<T>, le: (T, T) -> bool) {
    forall i, j :: 0 <= i < j < |xs| ==> le(xs[i], xs[j])
  }

  function InsertBy<T(!new)>(x: T, xs: seq<T>, le: (T, T) -> bool): (r: seq<T>)
    requires TotalOrder(le) && SortedBy(xs, le)
    ensures forall y :: y in r <==> y == x || y in xs
    ensures SortedBy(r, le)
    ensures multiset(r) == multiset(xs) + multiset{x}
  {
    if xs == [] || le(x, xs[0]) then [x] + xs
    else
      var rest := InsertBy(x, xs[1..], le);
      assert xs == [xs[0]] + xs[1..];
      assert forall y :: y in rest ==> le(xs[0], y);
      [xs[0]] + rest
  }

  function SortBy<T(!new)>(xs: seq<T>, le: (T, T) -> bool): (r: seq<T>)
    requires TotalOrder(le)
    ensures SortedBy(r, le)
    ensures multiset(r) == multiset(xs)
  {
    if xs == [] then [] else
      assert xs == [xs[0]] + xs[1..];
      InsertBy(xs[0], SortBy(xs[1..], le), le)
  }

  ghost predicate Distinct<T>(xs: seq<T>) {
    forall i, j :: 0 <= i < j < |xs| ==> xs[i] != xs[j]
  }

  lemma CountAcrossSplit<T>(xs: seq<T>, k: nat, x: T)
    requires k <= |xs|
    ensures multiset(xs)[x] == multiset(xs[..k])[x] + multiset(xs[k..])[x]
  {
    assert xs == xs[..k] + xs[k..];
  }

  lemma {:induction false} DistinctCountsOnce<T>(xs: seq<T>, x: T)
    requires Distinct(xs)
    ensures multiset(xs)[x] <= 1
  {
    if xs == [] {
    } else {
      DistinctCountsOnce(xs[1..], x);
      CountAcrossSplit(xs, 1, x);
      assert xs[..1] == [xs[0]];
      assert xs[0] !in xs[1..];
    }
  }

  lemma CountedOnceIsDistinct<T>(xs: seq<T>)
    requires forall x :: multiset(xs)[x] <= 1
    ensures Distinct(xs)
  {
    forall i, j | 0 <= i < j < |xs| ensures xs[i] != xs[j] {
      CountAcrossSplit(xs, j, xs[j]);
      assert xs[j] == xs[j..][0];
      assert xs[j] in multiset(xs[j..]);
      assert xs[j] !in multiset(xs[..j]);
      assert xs[i] in multiset(xs[..j]);
    }
  }

  lemma SortKeepsDistinct<T(!new)>(xs: seq<T>, le: (T, T) -> bool)
    requires TotalOrder(le) && Distinct(xs)
    ensures Distinct(SortBy(xs, le))
    ensures |SortBy(xs, le)| == |xs|
    ensures forall x :: x in SortBy(xs, le) <==> x in xs
  {
    forall x ensures multiset(SortBy(xs, le))[x] <= 1 {
      DistinctCountsOnce(xs, x);
    }
    CountedOnceIsDistinct(SortBy(xs, le));
    assert |multiset(xs)| == |xs|;
    assert |multiset(SortBy(xs, le))| == |SortBy(xs, le)|;
    forall x ensures x in SortBy(xs, le) <==> x in xs {
      assert x in SortBy(xs, le) <==> x in multiset(SortBy(xs, le));
      assert x in xs <==> x in multiset(xs);
    }
  }

  /** xs lists the elements of s in ascending order, each once. */
  ghost predicate IsSortedListOf(xs: seq<string>, s: set<string>) {
    && SortedBy(xs, StrLe)
    && Distinct(xs)
    && (forall x :: x in xs <==> x in s)
  }

  lemma SortedListTail(xs: seq<string>, s: set<string>)
    requires IsSortedListOf(xs, s) && xs != []
    ensures IsSortedListOf(xs[1..], s - {xs[0]})
    ensures forall x :: x in s ==> StrLe(xs[0], x)
  {
    StrLeIsTotalOrder();
    assert xs == [xs[0]] + xs[1..];
    forall x ensures x in xs[1..] <==> x in s - {xs[0]} {
      assert x in xs <==> x == xs[0] || x in xs[1..];
    }
  }

  lemma SortedListIsInOrder(xs: seq<string>, s: set<string>)
    requires IsSortedListOf(xs, s)
    ensures InDictionaryOrder(xs)
  {
    forall i, j | 0 <= i < j < |xs| ensures Precedes(xs[i], xs[j]) {
      StrLeIff(xs[i], xs[j]);
    }
  }

  /** The first element of a sorted list is the least. */
  lemma FirstIsLeast(xs: seq<string>, s: set<string>)
    requires IsSortedListOf(xs, s) && xs != []
    ensures xs[0] in s && forall x :: x in s && x != xs[0] ==> Precedes(xs[0], x)
  {
    SortedListIsInOrder(xs, s);
    assert xs[0] in xs;
    forall x | x in s && x != xs[0] ensures Precedes(xs[0], x) {
      assert x in xs;
      var i :| 0 <= i < |xs| && xs[i] == x;
    }
  }

  lemma {:induction false} SortedListLength(xs: seq<string>, s: set<string>)
    requires IsSortedListOf(xs, s)
    ensures |xs| == |s|
  {
    if xs == [] {
      assert s == {};
    } else {
      SortedListTail(xs, s);
      SortedListLength(xs[1..], s - {xs[0]});
    }
  }

  lemma {:induction false} SortedListUnique(xs: seq<string>, ys: seq<string>, s: set<string>)
    requires IsSortedListOf(xs, s) && IsSortedListOf(ys, s)
    ensures xs == ys
    decreases |xs|
  {
    SortedListLength(xs, s);
    SortedListLength(ys, s);
    if xs == [] {
    } else {
      SortedListTail(xs, s);
      SortedListTail(ys, s);
      StrLeTotal(xs[0], ys[0]);
      SortedListUnique(xs[1..], ys[1..], s - {xs[0]});
      assert xs == [xs[0]] + xs[1..] && ys == [ys[0]] + ys[1..];
    }
  }

  lemma OnlyElement<T>(xs: seq<T>, x: T)
    requires Distinct(xs) && x in xs && forall y :: y in xs ==> y == x
    ensures xs == [x]
  {
    DistinctCountsOnce(xs, x);
    forall y ensures multiset(xs)[y] == multiset{x}[y] {
      assert y in multiset(xs) <==> y in xs;
    }
    assert multiset(xs) == multiset{x};
    assert |xs| == |multiset(xs)| == 1;
    assert xs[0] in xs;
  }

  /** The elements of a set in whatever order the runtime visits them. */
  method Elements<T(==)>(s: set<T>) returns (xs: seq<T>)
    ensures Distinct(xs) && |xs| == |s|
    ensures forall x :: x in xs <==> x in s
  {
    xs := [];
    var todo := s;
    while todo != {}
      invariant todo <= s
      invariant Distinct(xs) && |xs| + |todo| == |s|
      invariant forall x :: x in xs <==> x in s && x !in todo
      decreases |todo|
    {
      var x :| x in todo;
      todo := todo - {x};
      xs := xs + [x];
    }
  }

  method SortedNames(s: set<string>) returns (xs: seq<string>)
    ensures IsSortedListOf(xs, s) && |xs| == |s| && InDictionaryOrder(xs)
  {
    var raw := Elements(s);
    StrLeIsTotalOrder();
    SortKeepsDistinct(raw, StrLe);
    xs := SortBy(raw, StrLe);
    SortedListIsInOrder(xs, s);
  }

  /** xs lists the elements of s in strictly ascending order. */
  ghost predicate AscendingListOf(xs: seq<int>, s: set<int>) {
    && (forall i, j :: 0 <= i < j < |xs| ==> xs[i] < xs[j])
    && (forall i :: 0 <= i < |xs| ==> xs[i] in s)
    && (forall x :: x in s ==> x in xs)
  }

  method SortedInts(s: set<int>) returns (xs: seq<int>)
    ensures AscendingListOf(xs, s) && |xs| == |s|
  {
    var raw := Elements(s);
    SortKeepsDistinct(raw, IntLe);
    xs := SortBy(raw, IntLe);
    forall i | 0 <= i < |xs| ensures xs[i] in s {
      assert xs[i] in xs;
    }
  }

  /** Nothing in s lies strictly between two neighbours of its ascending list. */
  lemma NothingBetween(xs: seq<int>, s: set<int>, i: nat, k: int)
    requires AscendingListOf(xs, s) && i <= |xs|
    requires k in s && (i > 0 ==> xs[i - 1] < k)
    ensures i < |xs| && xs[i] <= k
  {
  }

  lemma SubsetSize<T>(a: set<T>, b: set<T>)
    requires a <= b
    ensures |a| <= |b|
    ensures |a| == |b| ==> a == b
  {
    assert b == a + (b - a);
    assert |b| == |a| + |b - a|;
    if |a| == |b| {
      assert b - a == {};
    }
  }

  function Below(n: nat): (s: set<int>)
    ensures |s| == n
    ensures forall i :: i in s <==> 0 <= i < n
  {
    if n == 0 then {} else Below(n - 1) + {n - 1}
  }

  lemma UpdateTwice<K, V>(m: map<K, V>, k: K, a: V, b: V)
    ensures m[k := a][k := b] == m[k := b]
    ensures m[k := a] - {k} == m - {k}
  {
  }

  lemma RemoveTwice<K, V>(m: map<K, V>, s: set<K>, k: K)
    ensures m - s - {k} == m - (s + {k})
  {
  }

  /** A separator that occurs in neither left part splits a text in only one way. */
  lemma SplitOnce<T>(a: seq<T>, x: seq<T>, b: seq<T>, y: seq<T>, sep: T)
    requires sep !in a && sep !in b
    ensures a + [sep] + x == b + [sep] + y <==> a == b && x == y
  {
    var s, t := a + [sep] + x, b + [sep] + y;
    if s == t {
      assert s[|a|] == sep && t[|b|] == sep;
      assert forall i :: 0 <= i < |a| ==> s[i] == a[i] && a[i] in a;
      assert forall i :: 0 <= i < |b| ==> t[i] == b[i] && b[i] in b;
      assert |a| == |b|;
      assert a == s[..|a|] && x == s[|a| + 1..];
      assert b == t[..|a|] && y == t[|a| + 1..];
    }
  }
}

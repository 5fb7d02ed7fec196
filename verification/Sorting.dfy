/** What the passes need of qsort: an ordered rearrangement. */
module Sorting {

  ghost predicate TotalOrder<T(!new)>(le: (T, T) -> bool) {
    && (forall x, y :: le(x, y) || le(y, x))
    && (forall x, y, z :: le(x, y) && le(y, z) ==> le(x, z))
  }

  ghost predicate SortedBy<T(!new)>(le: (T, T) -> bool, s: seq<T>) {
    forall i, j :: 0 <= i < j < |s| ==> le(s[i], s[j])
  }

  function Insert<T>(le: (T, T) -> bool, x: T, s: seq<T>): (r: seq<T>)
    ensures multiset(r) == multiset(s) + multiset{x}
  {
    if s == [] then [x]
    else if le(x, s[0]) then [x] + s
    else
      assert s == [s[0]] + s[1..];
      [s[0]] + Insert(le, x, s[1..])
  }

  lemma PrependSorted<T(!new)>(le: (T, T) -> bool, x: T, s: seq<T>)
    requires SortedBy(le, s) && forall y :: y in s ==> le(x, y)
    ensures SortedBy(le, [x] + s)
  {
    var r := [x] + s;
    forall i, j | 0 <= i < j < |r| ensures le(r[i], r[j]) {
      assert r[j] == s[j - 1] && s[j - 1] in s;
      if i != 0 { assert r[i] == s[i - 1]; }
    }
  }

  lemma {:induction false} InsertSorted<T(!new)>(le: (T, T) -> bool, x: T, s: seq<T>)
    requires TotalOrder(le) && SortedBy(le, s)
    ensures SortedBy(le, Insert(le, x, s))
  {
    hide SortedBy;
    if s == [] {
      OneSorted(le, x);
    } else {
      HeadFirst(le, s);
      if le(x, s[0]) {
        forall y | y in s ensures le(x, y) { assert le(x, s[0]) && le(s[0], y); }
        PrependSorted(le, x, s);
      } else {
        var rest := Insert(le, x, s[1..]);
        InsertSorted(le, x, s[1..]);
        SameElements(rest, s[1..] + [x]);
        forall y | y in rest ensures le(s[0], y) { assert y in s[1..] + [x]; }
        PrependSorted(le, s[0], rest);
      }
    }
  }

  lemma OneSorted<T(!new)>(le: (T, T) -> bool, x: T)
    ensures SortedBy(le, [x])
  {
  }

  lemma HeadFirst<T(!new)>(le: (T, T) -> bool, s: seq<T>)
    requires TotalOrder(le) && SortedBy(le, s) && s != []
    ensures SortedBy(le, s[1..]) && forall y :: y in s ==> le(s[0], y)
  {
    forall y | y in s ensures le(s[0], y) {
      var i :| 0 <= i < |s| && s[i] == y;
      if i == 0 { assert le(y, y) || le(y, y); }
    }
  }

  /** The entries of s in the order of le. */
  function Sort<T(!new)>(le: (T, T) -> bool, s: seq<T>): (r: seq<T>)
    requires TotalOrder(le)
    ensures SortedBy(le, r) && multiset(r) == multiset(s)
    ensures |r| == |s| && forall x :: x in r <==> x in s
  {
    if s == [] then [] else
    assert s == [s[0]] + s[1..];
    var r := Insert(le, s[0], Sort(le, s[1..]));
    InsertSorted(le, s[0], Sort(le, s[1..]));
    SameElements(r, s);
    r
  }

  lemma SameElements<T>(r: seq<T>, s: seq<T>)
    requires multiset(r) == multiset(s)
    ensures |r| == |s| && forall x :: x in r <==> x in s
  {
    assert |r| == |multiset(r)| && |s| == |multiset(s)|;
    forall x ensures x in r <==> x in s {
      assert x in r <==> x in multiset(r);
      assert x in s <==> x in multiset(s);
    }
  }

  ghost predicate Distinct<T>(s: seq<T>) {
    forall i, j :: 0 <= i < j < |s| ==> s[i] != s[j]
  }

  lemma {:induction false} DistinctCountsOnce<T>(s: seq<T>, x: T)
    requires Distinct(s)
    ensures multiset(s)[x] <= 1
  {
    if s != [] {
      assert s == [s[0]] + s[1..];
      DistinctCountsOnce(s[1..], x);
      assert s[0] !in s[1..];
    }
  }

  lemma TwiceCountsTwo<T>(s: seq<T>, i: nat, j: nat)
    requires i < j < |s| && s[i] == s[j]
    ensures 2 <= multiset(s)[s[i]]
  {
    assert s == s[..j] + [s[j]] + s[j + 1..];
    assert s[..j][i] == s[i] && s[i] in s[..j];
  }

  /** Rearranging distinct entries leaves them distinct. */
  lemma SortKeepsDistinct<T(!new)>(le: (T, T) -> bool, s: seq<T>)
    requires TotalOrder(le) && Distinct(s)
    ensures Distinct(Sort(le, s))
  {
    var r := Sort(le, s);
    forall i, j | 0 <= i < j < |r| ensures r[i] != r[j] {
      DistinctCountsOnce(s, r[i]);
      if r[i] == r[j] { TwiceCountsTwo(r, i, j); }
    }
  }

  // ----- counting

  lemma {:induction false} SubsetSize(a: set<nat>, b: set<nat>)
    requires a <= b
    ensures |a| <= |b|
    decreases b
  {
    if x :| x in a { SubsetSize(a - {x}, b - {x}); }
  }

  lemma {:induction false} AtMost(v: set<nat>, n: nat)
    requires forall k :: k in v ==> k < n
    ensures |v| <= n
  {
    if v != {} {
      var k :| k in v;
      if n - 1 in v { AtMost(v - {n - 1}, n - 1); } else { AtMost(v, n - 1); }
    }
  }

  lemma {:induction false} AtLeast(v: set<nat>, n: nat)
    requires forall k: nat :: k < n ==> k in v
    ensures n <= |v|
  {
    if n > 0 { AtLeast(v - {n - 1}, n - 1); }
  }
}

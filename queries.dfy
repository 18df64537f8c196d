/**
 * The three list operations the store queries are built from: `where`
 * (a filter), `orderBy: { createdAt: 'desc' }` (a sort, newest first) and
 * `take` (a prefix).
 */
module Queries {
  import opened Common

  function Filter<T>(s: seq<T>, keep: T -> bool): (r: seq<T>)
    ensures |r| <= |s|
  {
    if |s| == 0 then []
    else if keep(s[0]) then [s[0]] + Filter(s[1..], keep)
    else Filter(s[1..], keep)
  }

  /** The filter keeps exactly the elements that satisfy the condition. */
  lemma {:induction false} FilterMembers<T>(s: seq<T>, keep: T -> bool)
    ensures forall x :: x in Filter(s, keep) <==> x in s && keep(x)
  {
    if |s| > 0 {
      FilterMembers(s[1..], keep);
      assert s == [s[0]] + s[1..];
    }
  }

  predicate SortedDesc<T>(s: seq<T>, key: T -> int) {
    forall i, j :: 0 <= i < j < |s| ==> key(s[i]) >= key(s[j])
  }

  /** Inserts `x` before the first element that is strictly older. */
  function Insert<T>(x: T, s: seq<T>, key: T -> int): seq<T> {
    if |s| == 0 then [x]
    else if key(x) >= key(s[0]) then [x] + s
    else [s[0]] + Insert(x, s[1..], key)
  }

  lemma {:induction false} InsertPermutes<T>(x: T, s: seq<T>, key: T -> int)
    ensures multiset(Insert(x, s, key)) == multiset(s) + multiset{x}
  {
    if |s| > 0 && key(x) < key(s[0]) {
      InsertPermutes(x, s[1..], key);
      assert s == [s[0]] + s[1..];
    }
  }

  lemma {:induction false} InsertSorted<T>(x: T, s: seq<T>, key: T -> int)
    requires SortedDesc(s, key)
    ensures SortedDesc(Insert(x, s, key), key)
  {
    if |s| > 0 && key(x) < key(s[0]) {
      InsertSorted(x, s[1..], key);
      InsertPermutes(x, s[1..], key);
      var t := Insert(x, s[1..], key);
      forall j | 0 <= j < |t| ensures key(s[0]) >= key(t[j]) {
        assert t[j] in multiset(t);
        if t[j] != x {
          assert t[j] in multiset(s[1..]);
          var k :| 0 <= k < |s[1..]| && s[1..][k] == t[j];
          assert s[k + 1] == t[j];
        }
      }
    }
  }

  /** The whole list, newest first. */
  function SortDesc<T>(s: seq<T>, key: T -> int): seq<T> {
    if |s| == 0 then [] else Insert(s[0], SortDesc(s[1..], key), key)
  }

  /** Sorting yields a list ordered newest first that holds the same elements as many times. */
  lemma SortDescCorrect<T>(s: seq<T>, key: T -> int)
    ensures SortedDesc(SortDesc(s, key), key)
    ensures multiset(SortDesc(s, key)) == multiset(s)
  {
    SortDescSorted(s, key);
    SortDescPermutes(s, key);
  }

  lemma {:induction false} SortDescSorted<T>(s: seq<T>, key: T -> int)
    ensures SortedDesc(SortDesc(s, key), key)
  {
    if |s| > 0 {
      SortDescSorted(s[1..], key);
      InsertSorted(s[0], SortDesc(s[1..], key), key);
    }
  }

  lemma {:induction false} SortDescPermutes<T>(s: seq<T>, key: T -> int)
    ensures multiset(SortDesc(s, key)) == multiset(s)
  {
    if |s| > 0 {
      SortDescPermutes(s[1..], key);
      InsertPermutes(s[0], SortDesc(s[1..], key), key);
      assert s == [s[0]] + s[1..];
    }
  }

  /** `take: n`. */
  function Take<T>(s: seq<T>, n: nat): (r: seq<T>)
    ensures |r| == Min(n, |s|)
  {
    s[..Min(n, |s|)]
  }

  /**
   * Taking the first n of a sorted list keeps it sorted, and whatever is left
   * out is no newer than anything kept; when the list is short, nothing is
   * left out.
   */
  lemma TakeOfSorted<T>(s: seq<T>, n: nat, key: T -> int)
    requires SortedDesc(s, key)
    ensures SortedDesc(Take(s, n), key)
    ensures forall i, j :: 0 <= i < |Take(s, n)| <= j < |s| ==> key(Take(s, n)[i]) >= key(s[j])
    ensures |s| <= n ==> Take(s, n) == s
  {
  }

  /** The first n of the newest-first order of a list. */
  function Latest<T>(s: seq<T>, n: nat, key: T -> int): (r: seq<T>)
    ensures |r| == Min(n, |s|)
    ensures SortedDesc(r, key)
    ensures forall x :: x in r ==> x in s
    ensures multiset(r) <= multiset(s)
    ensures |s| <= n ==> multiset(r) == multiset(s)
    ensures forall x, y :: x in r && y in multiset(s) - multiset(r) ==> key(x) >= key(y)
  {
    var sorted := SortDesc(s, key);
    SortDescCorrect(s, key);
    TakeOfSorted(sorted, n, key);
    LeftOutIsOlder(sorted, n, key);
    assert forall x :: x in Take(sorted, n) ==> x in multiset(sorted);
    assert |sorted| == |multiset(sorted)| == |multiset(s)| == |s|;
    assert sorted == Take(sorted, n) + sorted[Min(n, |s|)..];
    assert multiset(sorted) == multiset(Take(sorted, n)) + multiset(sorted[Min(n, |s|)..]);
    Take(sorted, n)
  }

  /** An element of the list is either kept or outranked by everything kept, and kept whenever the list fits. */
  lemma LatestKeepsOrOutranks<T>(s: seq<T>, n: nat, key: T -> int, x: T)
    requires x in s
    ensures x !in Latest(s, n, key) ==> forall y :: y in Latest(s, n, key) ==> key(y) >= key(x)
    ensures |s| <= n ==> x in Latest(s, n, key)
  {
    var r := Latest(s, n, key);
    if x !in r {
      assert x in multiset(s) - multiset(r);
    }
    if |s| <= n {
      assert x in multiset(r);
    }
  }

  /** Everything left out is no newer than anything kept. */
  lemma LatestLeavesOutOlder<T>(s: seq<T>, n: nat, key: T -> int)
    ensures forall x, y :: x in s && x !in Latest(s, n, key) && y in Latest(s, n, key) ==> key(y) >= key(x)
  {
    forall x | x in s && x !in Latest(s, n, key) {
      LatestKeepsOrOutranks(s, n, key, x);
    }
  }

  /** What the prefix leaves out, counted with multiplicity, is no newer than anything in it. */
  lemma LeftOutIsOlder<T>(s: seq<T>, n: nat, key: T -> int)
    requires SortedDesc(s, key)
    ensures forall x, y :: x in Take(s, n) && y in multiset(s) - multiset(Take(s, n)) ==> key(x) >= key(y)
  {
    var t := Take(s, n);
    var m := Min(n, |s|);
    assert s == t + s[m..];
    assert multiset(s) - multiset(t) == multiset(s[m..]);
    forall x, y | x in t && y in multiset(s[m..]) ensures key(x) >= key(y) {
      var i :| 0 <= i < |t| && t[i] == x;
      var j :| 0 <= j < |s[m..]| && s[m..][j] == y;
      assert s[m + j] == y;
    }
  }
}

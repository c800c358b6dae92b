/** Stable descending sort by a numeric key: Python's
    `sorted(xs, key=k, reverse=True)` (stable, so equal keys keep their
    input order) and a database `sort({ field: -1 })`. */
module Sorting {

  ghost predicate SortedDesc<T>(s: seq<T>, key: T -> real) {
    forall i, j | 0 <= i < j < |s| :: key(s[i]) >= key(s[j])
  }

  /** Puts `x` in front of the first element whose key does not exceed its own. */
  function InsertDesc<T>(x: T, s: seq<T>, key: T -> real): (r: seq<T>)
    ensures |r| == |s| + 1
    ensures multiset(r) == multiset(s) + multiset{x}
    ensures r[0] == x || (|s| > 0 && r[0] == s[0])
  {
    if |s| == 0 || key(x) >= key(s[0]) then
      [x] + s
    else
      var rest := InsertDesc(x, s[1..], key);
      assert s == [s[0]] + s[1..];
      assert multiset([s[0]] + rest) == multiset{s[0]} + multiset(rest);
      [s[0]] + rest
  }

  /** Inserting into a sorted sequence keeps it sorted. */
  lemma {:induction false} InsertDescSorted<T>(x: T, s: seq<T>, key: T -> real)
    requires SortedDesc(s, key)
    ensures SortedDesc(InsertDesc(x, s, key), key)
    decreases |s|
  {
    if |s| > 0 && key(x) < key(s[0]) {
      var rest := InsertDesc(x, s[1..], key);
      InsertDescSorted(x, s[1..], key);
      var r := [s[0]] + rest;
      assert InsertDesc(x, s, key) == r;
      forall j | 1 <= j < |r| ensures key(r[0]) >= key(r[j]) {
        if rest[j - 1] != x {
          assert rest[j - 1] in multiset(s[1..]) by {
            assert rest[j - 1] in multiset(rest);
          }
          var k :| 0 <= k < |s[1..]| && s[1..][k] == rest[j - 1];
          assert s[k + 1] == rest[j - 1];
        }
      }
    }
  }

  /** Insertion sort: the first element goes in front of every later element
      with the same key, so the order of equal keys is kept. */
  function SortDesc<T>(s: seq<T>, key: T -> real): (r: seq<T>)
    ensures multiset(r) == multiset(s)
    ensures |r| == |s|
    ensures SortedDesc(r, key)
  {
    if |s| == 0 then []
    else
      assert s == [s[0]] + s[1..];
      var rest := SortDesc(s[1..], key);
      InsertDescSorted(s[0], rest, key);
      InsertDesc(s[0], rest, key)
  }

  /** The head of a non-empty sorted result carries the largest key of the input. */
  lemma SortDescHeadIsMax<T>(s: seq<T>, key: T -> real)
    requires |s| > 0
    ensures SortDesc(s, key)[0] in s
    ensures forall x | x in s :: key(x) <= key(SortDesc(s, key)[0])
  {
    var r := SortDesc(s, key);
    assert r[0] in multiset(r);
    forall x | x in s ensures key(x) <= key(r[0]) {
      assert x in multiset(s);
      assert x in multiset(r);
      var k :| 0 <= k < |r| && r[k] == x;
    }
  }
}

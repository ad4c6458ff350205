/** The `.sort({field: 1})` / `.sort({field: -1})` and `.limit(n)` of the
    queries. MongoDB leaves the order of equal keys unspecified; the model
    keeps store order among them, and its contracts promise only what any
    correct sort gives: the result is ordered and is a permutation. */
module Sorting {

  ghost predicate Ascending<T>(s: seq<T>, key: T -> int)
  {
    forall i, j :: 0 <= i < j < |s| ==> key(s[i]) <= key(s[j])
  }

  ghost predicate Descending<T>(s: seq<T>, key: T -> int)
  {
    forall i, j :: 0 <= i < j < |s| ==> key(s[i]) >= key(s[j])
  }

  function Insert<T(==)>(x: T, s: seq<T>, key: T -> int): (r: seq<T>)
    requires Ascending(s, key)
    ensures |r| == |s| + 1
    ensures r[0] == x || (s != [] && r[0] == s[0])
    ensures Ascending(r, key)
    ensures multiset(r) == multiset(s) + multiset{x}
  {
    if s == [] || key(x) <= key(s[0]) then [x] + s
    else
      assert s == [s[0]] + s[1..];
      [s[0]] + Insert(x, s[1..], key)
  }

  /** Ascending order of `key`. */
  function SortBy<T(==)>(s: seq<T>, key: T -> int): (r: seq<T>)
    ensures Ascending(r, key)
    ensures multiset(r) == multiset(s)
  {
    if s == [] then []
    else
      assert s == [s[0]] + s[1..];
      Insert(s[0], SortBy(s[1..], key), key)
  }

  /** Descending order of `key`: ascending order of its negation. */
  function SortByDesc<T(==)>(s: seq<T>, key: T -> int): (r: seq<T>)
    ensures Descending(r, key)
    ensures multiset(r) == multiset(s)
  {
    var r := SortBy(s, (x: T) => -key(x));
    assert forall i, j :: 0 <= i < j < |r| ==> -key(r[i]) <= -key(r[j]);
    r
  }

  /** The first `n` elements of a sorted result: `.limit(n)`. When the
      sequence is in descending order, nothing left out is greater than
      anything kept. */
  function Limit<T(==,!new)>(s: seq<T>, n: nat, key: T -> int): (r: seq<T>)
    requires Descending(s, key)
    ensures |r| == if |s| < n then |s| else n
    ensures Descending(r, key)
    ensures multiset(r) <= multiset(s)
    ensures forall x, y :: x in multiset(r) && y in multiset(s) - multiset(r) ==> key(y) <= key(x)
  {
    var k := if |s| < n then |s| else n;
    assert s == s[..k] + s[k..];
    LimitSplit(s, k, key);
    s[..k]
  }

  lemma LimitSplit<T>(s: seq<T>, k: nat, key: T -> int)
    requires Descending(s, key) && k <= |s|
    ensures multiset(s) - multiset(s[..k]) == multiset(s[k..])
    ensures forall x, y :: x in multiset(s[..k]) && y in multiset(s[k..]) ==> key(y) <= key(x)
  {
    assert s == s[..k] + s[k..];
    forall x, y | x in multiset(s[..k]) && y in multiset(s[k..])
      ensures key(y) <= key(x)
    {
      assert x in s[..k] && y in s[k..];
      var i :| 0 <= i < k && s[..k][i] == x;
      var j :| 0 <= j < |s| - k && s[k..][j] == y;
      assert s[i] == x && s[k + j] == y;
    }
  }
}

/** Small generic vocabulary shared by the whole model: optional values, handler
    replies, and the collection queries the handlers run against their stores
    (`findOne`/`findById`, `find({field: value})`). */
module Base {

  datatype Option<+T> = None | Some(value: T)

  /** What a route handler sends back: a JSON body, an error status with its
      `msg`, or the 400 list of validation errors. */
  datatype Reply<+T> = Ok(body: T) | Fail(code: nat, msg: string) | Invalid(errors: seq<string>)

  /** The body every handler's `catch` sends with status 500. */
  const ServerError := "Server error"

  /** A persistence failure injected at the `k`-th write of a handler
      (writes are numbered from 0 in the order the handler issues them). */
  predicate FailsAt(fault: Option<nat>, k: nat)
  {
    fault == Some(k)
  }

  /** Index of the first element whose key is `k` (a `findOne` on one field). */
  function FindBy<T, K(==)>(s: seq<T>, key: T -> K, k: K): (r: Option<nat>)
    ensures r.Some? ==> r.value < |s| && key(s[r.value]) == k
    ensures r.Some? ==> forall j :: 0 <= j < r.value ==> key(s[j]) != k
    ensures r.None? <==> forall j :: 0 <= j < |s| ==> key(s[j]) != k
  {
    if s == [] then None
    else if key(s[0]) == k then Some(0)
    else match FindBy(s[1..], key, k)
      case None => None
      case Some(i) => Some(i + 1)
  }

  /** The elements whose key is `k`, in store order (a `find({field: k})`). */
  function FilterBy<T(==,!new), K(==)>(s: seq<T>, key: T -> K, k: K): (r: seq<T>)
    ensures |r| <= |s|
    ensures forall j :: 0 <= j < |r| ==> key(r[j]) == k
    ensures forall x :: multiset(r)[x] == if key(x) == k then multiset(s)[x] else 0
  {
    if s == [] then []
    else
      assert s == [s[0]] + s[1..];
      if key(s[0]) == k then [s[0]] + FilterBy(s[1..], key, k) else FilterBy(s[1..], key, k)
  }

  /** No two elements share a key (a unique index). */
  ghost predicate UniqueBy<T, K>(s: seq<T>, key: T -> K)
  {
    forall i, j :: 0 <= i < j < |s| ==> key(s[i]) != key(s[j])
  }

  /** Replacing an element by one with the same key keeps the keys unique. */
  lemma UpdateUnique<T, K>(s: seq<T>, key: T -> K, i: nat, x: T)
    requires UniqueBy(s, key)
    requires i < |s| && key(x) == key(s[i])
    ensures UniqueBy(s[i := x], key)
  {
    var t := s[i := x];
    forall k, l | 0 <= k < l < |t|
      ensures key(t[k]) != key(t[l])
    {
      assert key(t[k]) == key(s[k]);
      assert key(t[l]) == key(s[l]);
    }
  }

  /** Appending an element whose key is new keeps the keys unique. */
  lemma AppendUnique<T, K>(s: seq<T>, key: T -> K, x: T)
    requires UniqueBy(s, key)
    requires FindBy(s, key, key(x)).None?
    ensures UniqueBy(s + [x], key)
  {
  }
}

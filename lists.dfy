/** The array methods the program leans on, over sequences: `filter`,
    `findIndex`, `find`, the last-wins lookup of a `Map` built from pairs,
    and a descending sort by a numeric key. */
module Lists {
  import opened Common

  /** `a` is `b` with some elements left out, the rest in their order. */
  ghost predicate IsSubsequence<X>(a: seq<X>, b: seq<X>)
    decreases |b|
  {
    if a == [] then true
    else if b == [] then false
    else if a[0] == b[0] then IsSubsequence(a[1..], b[1..])
    else IsSubsequence(a, b[1..])
  }

  lemma {:induction false} SubsequencePrefix<X>(a: seq<X>, b: seq<X>, k: nat)
    requires IsSubsequence(a, b) && k <= |a|
    ensures IsSubsequence(a[..k], b)
    decreases |b|
  {
    if k > 0 {
      if a[0] == b[0] {
        assert a[..k][1..] == a[1..][..k - 1];
        SubsequencePrefix(a[1..], b[1..], k - 1);
      } else {
        SubsequencePrefix(a, b[1..], k);
      }
    }
  }

  /** `s.filter(p)`. */
  function Filter<X(!new)>(s: seq<X>, p: X -> bool): (r: seq<X>)
    ensures forall x :: x in r <==> x in s && p(x)
    ensures IsSubsequence(r, s)
    ensures |r| <= |s|
  {
    if s == [] then []
    else if p(s[0]) then
      var r := [s[0]] + Filter(s[1..], p);
      assert r[1..] == Filter(s[1..], p);
      r
    else Filter(s[1..], p)
  }

  /** `filter` keeps each passing element as often as it occurs. */
  lemma {:induction false} FilterCounts<X(!new)>(s: seq<X>, p: X -> bool)
    ensures forall x :: multiset(Filter(s, p))[x] == if p(x) then multiset(s)[x] else 0
  {
    if s != [] {
      assert s == [s[0]] + s[1..];
      FilterCounts(s[1..], p);
    }
  }

  /** `filter` keeps its order when an element is added at the end. */
  lemma {:induction false} FilterSnoc<X(!new)>(s: seq<X>, x: X, p: X -> bool)
    ensures Filter(s + [x], p) == Filter(s, p) + (if p(x) then [x] else [])
  {
    if s == [] {
      assert s + [x] == [x];
      assert [x][1..] == [];
    } else {
      assert (s + [x])[0] == s[0];
      assert (s + [x])[1..] == s[1..] + [x];
      FilterSnoc(s[1..], x, p);
    }
  }

  /** `s.findIndex(p)`: the first index whose element satisfies `p`, or -1. */
  function FindIndex<X>(s: seq<X>, p: X -> bool): (i: int)
    ensures -1 <= i < |s|
    ensures i == -1 <==> forall k :: 0 <= k < |s| ==> !p(s[k])
    ensures i >= 0 ==> p(s[i]) && forall k :: 0 <= k < i ==> !p(s[k])
  {
    if s == [] then -1
    else if p(s[0]) then 0
    else
      var j := FindIndex(s[1..], p);
      if j == -1 then -1 else j + 1
  }

  /** `s.find(p)`: the first element satisfying `p`. */
  function Find<X>(s: seq<X>, p: X -> bool): (r: Option<X>)
    ensures r.None? <==> forall k :: 0 <= k < |s| ==> !p(s[k])
    ensures r.Some? ==> r.value == s[FindIndex(s, p)]
  {
    var i := FindIndex(s, p);
    if i == -1 then None else Some(s[i])
  }

  /** The last index whose element has key `k`, or -1. */
  function LastIndex<X>(s: seq<X>, key: X -> int, k: int): (i: int)
    ensures -1 <= i < |s|
    ensures i == -1 <==> forall j :: 0 <= j < |s| ==> key(s[j]) != k
    ensures i >= 0 ==> key(s[i]) == k && forall j :: i < j < |s| ==> key(s[j]) != k
  {
    if s == [] then -1
    else if key(s[|s| - 1]) == k then |s| - 1
    else LastIndex(s[..|s| - 1], key, k)
  }

  /** `new Map(s.map(x => [key(x), x])).get(k)`: later pairs overwrite
      earlier ones, so the last element with the key is found. */
  function MapGet<X>(s: seq<X>, key: X -> int, k: int): (r: Option<X>)
    ensures r.None? <==> forall j :: 0 <= j < |s| ==> key(s[j]) != k
    ensures r.Some? ==> r.value == s[LastIndex(s, key, k)] && key(r.value) == k
  {
    var i := LastIndex(s, key, k);
    if i == -1 then None else Some(s[i])
  }

  /** `s.slice(0, n)`: a negative `n` counts from the end. */
  function SliceTo<X>(s: seq<X>, n: int): (r: seq<X>)
    ensures n >= 0 ==> |r| == (if n < |s| then n else |s|)
    ensures n < 0 ==> |r| == (if -n < |s| then |s| + n else 0)
    ensures r == s[..|r|]
  {
    if n >= 0 then s[..if n < |s| then n else |s|]
    else s[..if -n < |s| then |s| + n else 0]
  }

  /** Sorted by `key`, largest first. */
  predicate NonIncreasing<X>(s: seq<X>, key: X -> int) {
    forall i, j :: 0 <= i < j < |s| ==> key(s[i]) >= key(s[j])
  }

  /** An element no smaller than every element of a sorted list can go in
      front of it. */
  lemma {:induction false} NonIncreasingCons<X>(y: X, t: seq<X>, key: X -> int)
    requires NonIncreasing(t, key)
    requires forall k :: 0 <= k < |t| ==> key(y) >= key(t[k])
    ensures NonIncreasing([y] + t, key)
  {
    var r := [y] + t;
    forall i, j | 0 <= i < j < |r|
      ensures key(r[i]) >= key(r[j])
    {
      assert r[j] == t[j - 1];
      if i > 0 {
        assert r[i] == t[i - 1];
      }
    }
  }

  function InsertByKey<X(!new)>(x: X, s: seq<X>, key: X -> int): (r: seq<X>)
    requires NonIncreasing(s, key)
    ensures NonIncreasing(r, key)
    ensures multiset(r) == multiset(s) + multiset{x}
  {
    if s == [] then [x]
    else if key(x) >= key(s[0]) then
      NonIncreasingCons(x, s, key);
      [x] + s
    else
      var tail := s[1..];
      assert NonIncreasing(tail, key) by {
        forall i, j | 0 <= i < j < |tail| ensures key(tail[i]) >= key(tail[j]) {
          assert tail[i] == s[i + 1] && tail[j] == s[j + 1];
        }
      }
      var t := InsertByKey(x, tail, key);
      assert s == [s[0]] + tail;
      assert forall k :: 0 <= k < |t| ==> key(s[0]) >= key(t[k]) by {
        forall k | 0 <= k < |t| ensures key(s[0]) >= key(t[k]) {
          assert t[k] in multiset(tail) + multiset{x};
        }
      }
      NonIncreasingCons(s[0], t, key);
      [s[0]] + t
  }

  /** `s.sort((a, b) => key(b) - key(a))`: a permutation of `s`, largest key
      first. */
  function SortByKeyDescending<X(!new)>(s: seq<X>, key: X -> int): (r: seq<X>)
    ensures NonIncreasing(r, key)
    ensures multiset(r) == multiset(s)
  {
    if s == [] then []
    else
      assert s == [s[0]] + s[1..];
      InsertByKey(s[0], SortByKeyDescending(s[1..], key), key)
  }
}

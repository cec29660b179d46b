/** The two array operations the preference layer relies on: `find` and `filter`. */
module Sequences {
  import opened Wrappers

  /** The first element of `s` that satisfies `p`, as `Array.prototype.find` returns it. */
  function Find<T>(s: seq<T>, p: T -> bool): (r: Option<T>)
    ensures r.None? <==> forall i :: 0 <= i < |s| ==> !p(s[i])
    ensures r.Some? ==> p(r.value) && r.value in s
    ensures r.Some? ==> exists i :: 0 <= i < |s| && s[i] == r.value && NoneBefore(s, p, i)
  {
    if s == [] then None
    else if p(s[0]) then (assert NoneBefore(s, p, 0); Some(s[0]))
    else
      var r := Find(s[1..], p);
      if r.Some? then
        ghost var i :| 0 <= i < |s[1..]| && s[1..][i] == r.value && NoneBefore(s[1..], p, i);
        assert s[i + 1] == r.value && NoneBefore(s, p, i + 1);
        r
      else r
  }

  /** No element of `s` before index `i` satisfies `p`. */
  predicate NoneBefore<T>(s: seq<T>, p: T -> bool, i: int)
    requires 0 <= i <= |s|
  {
    forall j :: 0 <= j < i ==> !p(s[j])
  }

  /** If `s[i]` is the first element satisfying `p`, `Find` returns exactly it. */
  lemma FindFirstMatch<T>(s: seq<T>, p: T -> bool, i: nat)
    requires i < |s| && p(s[i]) && NoneBefore(s, p, i)
    ensures Find(s, p) == Some(s[i])
  {
  }

  /** The elements of `s` that satisfy `p`, in their original order (`Array.prototype.filter`). */
  function Filter<T(!new)>(s: seq<T>, p: T -> bool): (r: seq<T>)
    ensures |r| <= |s|
    ensures forall i :: 0 <= i < |r| ==> p(r[i])
    ensures forall x :: multiset(r)[x] == if p(x) then multiset(s)[x] else 0
  {
    if s == [] then []
    else
      assert s == [s[0]] + s[1..];
      if p(s[0]) then [s[0]] + Filter(s[1..], p) else Filter(s[1..], p)
  }

  /** Filtering distributes over concatenation: the relative order of kept elements is preserved. */
  lemma {:induction false} FilterConcat<T(!new)>(a: seq<T>, b: seq<T>, p: T -> bool)
    ensures Filter(a + b, p) == Filter(a, p) + Filter(b, p)
  {
    if a == [] {
      assert a + b == b;
    } else {
      assert (a + b)[0] == a[0];
      assert (a + b)[1..] == a[1..] + b;
      FilterConcat(a[1..], b, p);
    }
  }
}

/** The array operations the components use on lists of records: `filter`
    and `map`, and what "in original order" means. */
module Lists {

  /** `a` is `b` with some elements left out, the rest kept in order. */
  predicate IsSubsequence<T(==,!new)>(a: seq<T>, b: seq<T>)
    decreases |b|
  {
    if a == [] then true
    else if b == [] then false
    else if a[0] == b[0] then IsSubsequence(a[1..], b[1..])
    else IsSubsequence(a, b[1..])
  }

  /** `s.filter(keep)`: the kept elements of `s`; when every element is kept,
      `s` itself. */
  function Filter<T(==,!new)>(s: seq<T>, keep: T -> bool): (r: seq<T>)
    ensures |r| <= |s|
    ensures forall x :: x in r <==> x in s && keep(x)
    ensures (forall k :: 0 <= k < |s| ==> keep(s[k])) ==> r == s
    decreases |s|
  {
    if s == [] then []
    else
      var rest := Filter(s[1..], keep);
      assert s == [s[0]] + s[1..];
      if keep(s[0]) then [s[0]] + rest else rest
  }

  /** Filtering depends only on which elements are kept. */
  lemma {:induction false} FilterCongruent<T(!new)>(s: seq<T>, keep: T -> bool, keep': T -> bool)
    requires forall x :: keep(x) == keep'(x)
    ensures Filter(s, keep) == Filter(s, keep')
    decreases |s|
  {
    if s != [] {
      FilterCongruent(s[1..], keep, keep');
    }
  }

  /** Nothing kept, nothing left. */
  lemma {:induction false} FilterNone<T(!new)>(s: seq<T>, keep: T -> bool)
    requires forall k :: 0 <= k < |s| ==> !keep(s[k])
    ensures Filter(s, keep) == []
    decreases |s|
  {
    if s != [] {
      FilterNone(s[1..], keep);
    }
  }

  /** The result of `Filter` is exactly the kept elements: each as often as in
      `s`, none of the others, in their original order. */
  lemma {:induction false} FilterExact<T(!new)>(s: seq<T>, keep: T -> bool)
    ensures forall x :: multiset(Filter(s, keep))[x] == if keep(x) then multiset(s)[x] else 0
    ensures IsSubsequence(Filter(s, keep), s)
    decreases |s|
  {
    if s != [] {
      FilterExact(s[1..], keep);
      assert s == [s[0]] + s[1..];
      var rest := Filter(s[1..], keep);
      if keep(s[0]) {
        assert ([s[0]] + rest)[1..] == rest;
      } else if rest != [] {
        assert rest[0] in rest;
      }
    }
  }

  /** Filtering twice with the same test is filtering once. */
  lemma FilterIdempotent<T(!new)>(s: seq<T>, keep: T -> bool)
    ensures Filter(Filter(s, keep), keep) == Filter(s, keep)
  {
    var r := Filter(s, keep);
    assert forall k :: 0 <= k < |r| ==> keep(r[k]) by {
      forall k | 0 <= k < |r| ensures keep(r[k]) { assert r[k] in r; }
    }
  }

  /** Appending a dropped element does not change the filtered result. */
  lemma {:induction false} FilterSnocDropped<T(!new)>(s: seq<T>, y: T, keep: T -> bool)
    requires !keep(y)
    ensures Filter(s + [y], keep) == Filter(s, keep)
    decreases |s|
  {
    FilterCons(s + [y], keep);
    if s == [] {
      assert (s + [y])[1..] == [];
    } else {
      assert (s + [y])[0] == s[0] && (s + [y])[1..] == s[1..] + [y];
      FilterSnocDropped(s[1..], y, keep);
      FilterCons(s, keep);
    }
  }

  lemma FilterCons<T(!new)>(s: seq<T>, keep: T -> bool)
    requires s != []
    ensures Filter(s, keep) == (if keep(s[0]) then [s[0]] else []) + Filter(s[1..], keep)
  {
  }

  lemma SliceAt<T>(s: seq<T>, a: nat, b: nat)
    requires a <= b <= |s|
    ensures s[a..] == s[a..b] + s[b..]
  {
  }

  lemma ConcatAssoc<T>(a: seq<T>, b: seq<T>, c: seq<T>)
    ensures a + (b + c) == (a + b) + c
  {
  }

  /** Replacing a dropped element by another dropped one does not change the result. */
  lemma {:induction false} FilterReplaceDropped<T(!new)>(s: seq<T>, i: nat, y: T, keep: T -> bool)
    requires i < |s| && !keep(s[i]) && !keep(y)
    ensures Filter(s[i := y], keep) == Filter(s, keep)
    decreases |s|
  {
    if i > 0 {
      FilterReplaceDropped(s[1..], i - 1, y, keep);
      assert s[i := y][1..] == s[1..][i - 1 := y];
    } else {
      assert s[i := y][1..] == s[1..];
    }
  }

  /** `s.filter(x => keyOf(x) !== key)`: exactly the elements with another
      key, each as often as in `s`, in their original order; when no element
      has the key, `s` itself. */
  function WithoutKey<T(==,!new)>(s: seq<T>, key: string, keyOf: T -> string): (r: seq<T>)
    ensures forall x :: x in r <==> x in s && keyOf(x) != key
    ensures forall x :: multiset(r)[x] == if keyOf(x) != key then multiset(s)[x] else 0
    ensures IsSubsequence(r, s)
    ensures (forall k :: 0 <= k < |s| ==> keyOf(s[k]) != key) ==> r == s
  {
    FilterExact(s, x => keyOf(x) != key);
    Filter(s, x => keyOf(x) != key)
  }

  /** Removing by key twice is removing once. */
  lemma WithoutKeyIdempotent<T(!new)>(s: seq<T>, key: string, keyOf: T -> string)
    ensures WithoutKey(WithoutKey(s, key, keyOf), key, keyOf) == WithoutKey(s, key, keyOf)
  {
    var r := WithoutKey(s, key, keyOf);
    assert forall k :: 0 <= k < |r| ==> keyOf(r[k]) != key by {
      forall k | 0 <= k < |r| ensures keyOf(r[k]) != key { assert r[k] in r; }
    }
  }

  /** An element with the removed key may be overwritten by another with the same key. */
  lemma WithoutKeyReplace<T(!new)>(s: seq<T>, i: nat, y: T, key: string, keyOf: T -> string)
    requires i < |s| && keyOf(s[i]) == key && keyOf(y) == key
    ensures WithoutKey(s[i := y], key, keyOf) == WithoutKey(s, key, keyOf)
  {
    FilterReplaceDropped(s, i, y, x => keyOf(x) != key);
  }

  /** Appending an element with the removed key does not change the result. */
  lemma WithoutKeyAppend<T(!new)>(s: seq<T>, y: T, key: string, keyOf: T -> string)
    requires keyOf(y) == key
    ensures WithoutKey(s + [y], key, keyOf) == WithoutKey(s, key, keyOf)
  {
    FilterSnocDropped(s, y, x => keyOf(x) != key);
  }

  /** `s.map(x => keyOf(x) === key ? f(x) : x)`. */
  function UpdateWhereKey<T>(s: seq<T>, key: string, keyOf: T -> string, f: T -> T): (r: seq<T>)
    ensures |r| == |s|
    ensures forall k :: 0 <= k < |s| ==> r[k] == if keyOf(s[k]) == key then f(s[k]) else s[k]
  {
    seq(|s|, k requires 0 <= k < |s| => if keyOf(s[k]) == key then f(s[k]) else s[k])
  }
}

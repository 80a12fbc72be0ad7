/**
 * `Array.prototype.filter`, `map` and `slice(1)` over Dafny sequences, with
 * the facts the rest of the model uses about them.
 */
module Seqs {

  /** `s.filter(p)`: the elements satisfying `p`, in order, each as often as in `s`. */
  function Filter<T(!new)>(s: seq<T>, p: T -> bool): (r: seq<T>)
    ensures |r| <= |s|
    ensures forall x :: x in r <==> x in s && p(x)
  {
    if s == [] then []
    else
      var rest := Filter(s[1..], p);
      assert s == [s[0]] + s[1..];
      if p(s[0]) then [s[0]] + rest else rest
  }

  /** Filter keeps every kept element exactly as many times as it occurs. */
  lemma {:induction false} FilterCounts<T(!new)>(s: seq<T>, p: T -> bool)
    ensures forall x :: multiset(Filter(s, p))[x] == if p(x) then multiset(s)[x] else 0
  {
    if s != [] {
      FilterCounts(s[1..], p);
      assert s == [s[0]] + s[1..];
    }
  }

  /** `s.map(f)`. */
  function Map<T, U>(s: seq<T>, f: T -> U): (r: seq<U>)
    ensures |r| == |s|
    ensures forall i :: 0 <= i < |s| ==> r[i] == f(s[i])
  {
    if s == [] then [] else [f(s[0])] + Map(s[1..], f)
  }

  /** Mapping a sequence with one more element at its end. */
  lemma MapSnoc<T, U>(s: seq<T>, x: T, f: T -> U)
    ensures Map(s + [x], f) == Map(s, f) + [f(x)]
  {
    MapAppend(s, [x], f);
    assert Map([x], f) == [f(x)];
  }

  /** Filtering then mapping a sequence with one more element at its end. */
  lemma FilterMapSnoc<T(!new), U>(s: seq<T>, x: T, p: T -> bool, f: T -> U)
    ensures Map(Filter(s + [x], p), f) == Map(Filter(s, p), f) + (if p(x) then [f(x)] else [])
  {
    FilterAppend(s, [x], p);
    assert [x][1..] == [];
    if p(x) {
      assert Filter([x], p) == [x];
      MapSnoc(Filter(s, p), x, f);
    } else {
      assert Filter([x], p) == [];
      assert Filter(s, p) + [] == Filter(s, p);
    }
  }

  /** `s.slice(1)`: everything but the first element; nothing from an empty sequence. */
  function DropFirst<T>(s: seq<T>): (r: seq<T>)
    ensures |r| == if s == [] then 0 else |s| - 1
    ensures forall i :: 0 <= i < |r| ==> r[i] == s[i + 1]
  {
    if s == [] then [] else s[1..]
  }

  /** `a` can be obtained from `b` by deleting elements. */
  ghost predicate IsSubsequence<T>(a: seq<T>, b: seq<T>)
    decreases |b|
  {
    if a == [] then true
    else if b == [] then false
    else (a[0] == b[0] && IsSubsequence(a[1..], b[1..])) || IsSubsequence(a, b[1..])
  }

  /** Filtering keeps the kept elements in their original order. */
  lemma {:induction false} FilterIsSubsequence<T(!new)>(s: seq<T>, p: T -> bool)
    ensures IsSubsequence(Filter(s, p), s)
  {
    if s != [] {
      FilterIsSubsequence(s[1..], p);
      if p(s[0]) {
        assert Filter(s, p)[1..] == Filter(s[1..], p);
      }
    }
  }

  /** Filter distributes over concatenation. */
  lemma {:induction false} FilterAppend<T(!new)>(a: seq<T>, b: seq<T>, p: T -> bool)
    ensures Filter(a + b, p) == Filter(a, p) + Filter(b, p)
  {
    if a == [] {
      assert a + b == b;
    } else {
      assert (a + b)[0] == a[0];
      assert (a + b)[1..] == a[1..] + b;
      FilterAppend(a[1..], b, p);
    }
  }

  /** Map distributes over concatenation. */
  lemma MapAppend<T, U>(a: seq<T>, b: seq<T>, f: T -> U)
    ensures Map(a + b, f) == Map(a, f) + Map(b, f)
  {
  }

  /** Filtering a sequence whose elements all satisfy `p` keeps all of it. */
  lemma {:induction false} FilterKeepsAll<T(!new)>(s: seq<T>, p: T -> bool)
    requires forall i :: 0 <= i < |s| ==> p(s[i])
    ensures Filter(s, p) == s
  {
    if s != [] {
      FilterKeepsAll(s[1..], p);
    }
  }

  /** Filtering twice by the same predicate is filtering once. */
  lemma FilterIdempotent<T(!new)>(s: seq<T>, p: T -> bool)
    ensures Filter(Filter(s, p), p) == Filter(s, p)
  {
    var r := Filter(s, p);
    assert forall i :: 0 <= i < |r| ==> r[i] in r;
    FilterKeepsAll(r, p);
  }

  /** When `q` implies `p`, filtering by `p` first does not change what `q` keeps. */
  lemma {:induction false} FilterFilterImplied<T(!new)>(s: seq<T>, p: T -> bool, q: T -> bool)
    requires forall x :: q(x) ==> p(x)
    ensures Filter(Filter(s, p), q) == Filter(s, q)
  {
    if s != [] {
      FilterFilterImplied(s[1..], p, q);
      if p(s[0]) {
        assert Filter(s, p)[1..] == Filter(s[1..], p);
      }
    }
  }

  /**
   * Dropping the first survivor of a filter: when `s[k]` is the first element
   * that `p` keeps, `Filter(s, p).slice(1)` is what `p` keeps after index `k`.
   */
  lemma {:induction false} DropFirstOfFilter<T(!new)>(s: seq<T>, p: T -> bool, k: nat)
    requires k < |s| && p(s[k])
    requires forall i :: 0 <= i < k ==> !p(s[i])
    ensures DropFirst(Filter(s, p)) == Filter(s[k + 1..], p)
    decreases k
  {
    if k == 0 {
      assert s[1..] == s[k + 1..];
    } else {
      assert s[1..][k - 1 + 1..] == s[k + 1..];
      DropFirstOfFilter(s[1..], p, k - 1);
    }
  }

  /** Filtering a sequence none of whose elements satisfy `p` keeps nothing. */
  lemma {:induction false} FilterKeepsNone<T(!new)>(s: seq<T>, p: T -> bool)
    requires forall i :: 0 <= i < |s| ==> !p(s[i])
    ensures Filter(s, p) == []
  {
    if s != [] {
      FilterKeepsNone(s[1..], p);
    }
  }

  /** A filter keeps nothing exactly when no element satisfies `p`. */
  lemma FilterEmptyIff<T(!new)>(s: seq<T>, p: T -> bool)
    ensures Filter(s, p) == [] <==> forall i :: 0 <= i < |s| ==> !p(s[i])
  {
    if forall i :: 0 <= i < |s| ==> !p(s[i]) {
      FilterKeepsNone(s, p);
    } else {
      var i :| 0 <= i < |s| && p(s[i]);
      assert s[i] in Filter(s, p);
    }
  }

  /** A slice is the concatenation of its two halves. */
  lemma SliceSplit<T>(s: seq<T>, a: nat, b: nat, c: nat)
    requires a <= b <= c <= |s|
    ensures s[a..c] == s[a..b] + s[b..c]
  {
  }
}

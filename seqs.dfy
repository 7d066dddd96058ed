/** Sequence operations that the core applies to its lists: JavaScript's
    `filter`, `slice(0, n)` and `filter(...).length`. */
module Seqs {

  /** `a` is obtained from `b` by deleting elements, keeping the order. */
  predicate IsSubsequence<T(==)>(a: seq<T>, b: seq<T>)
    decreases |b|
  {
    if a == [] then true
    else if b == [] then false
    else if a[0] == b[0] then IsSubsequence(a[1..], b[1..])
    else IsSubsequence(a, b[1..])
  }

  /** `xs.filter(keep)`. */
  function Filter<T>(xs: seq<T>, keep: T -> bool): (r: seq<T>)
    ensures |r| <= |xs|
    ensures forall i :: 0 <= i < |r| ==> r[i] in xs && keep(r[i])
    ensures forall i :: 0 <= i < |xs| && keep(xs[i]) ==> xs[i] in r
  {
    if xs == [] then []
    else if keep(xs[0]) then [xs[0]] + Filter(xs[1..], keep)
    else Filter(xs[1..], keep)
  }

  /** `xs.filter(keep).length`. */
  function Count<T>(xs: seq<T>, keep: T -> bool): nat
  {
    if xs == [] then 0
    else (if keep(xs[0]) then 1 else 0) + Count(xs[1..], keep)
  }

  /** `xs.slice(0, n)`. */
  function Take<T>(xs: seq<T>, n: nat): (r: seq<T>)
  {
    if n <= |xs| then xs[..n] else xs
  }

  lemma {:induction false} FilterIsSubsequence<T>(xs: seq<T>, keep: T -> bool)
    ensures IsSubsequence(Filter(xs, keep), xs)
  {
    if xs != [] {
      FilterIsSubsequence(xs[1..], keep);
      if !keep(xs[0]) {
        SkipHead(Filter(xs[1..], keep), xs);
      }
    }
  }

  /** A subsequence of the tail is a subsequence of the whole. */
  lemma {:induction false} SkipHead<T>(a: seq<T>, b: seq<T>)
    requires b != [] && IsSubsequence(a, b[1..])
    ensures IsSubsequence(a, b)
    decreases |b|, |a|
  {
    if a != [] && a[0] == b[0] {
      SubsequenceOfTail(a, b[1..]);
    }
  }

  /** Dropping the first element of a subsequence keeps it a subsequence. */
  lemma {:induction false} SubsequenceOfTail<T>(a: seq<T>, b: seq<T>)
    requires a != [] && IsSubsequence(a, b)
    ensures IsSubsequence(a[1..], b)
    decreases |b|, |a|
  {
    if a[0] == b[0] {
      if a[1..] != [] {
        SkipHead(a[1..], b);
      }
    } else {
      SubsequenceOfTail(a, b[1..]);
      if a[1..] != [] {
        SkipHead(a[1..], b);
      }
    }
  }

  lemma {:induction false} FilterAll<T>(xs: seq<T>, keep: T -> bool)
    requires forall i :: 0 <= i < |xs| ==> keep(xs[i])
    ensures Filter(xs, keep) == xs
  {
    if xs != [] {
      assert keep(xs[0]);
      FilterAll(xs[1..], keep);
    }
  }

  lemma {:induction false} FilterAppend<T>(a: seq<T>, b: seq<T>, keep: T -> bool)
    ensures Filter(a + b, keep) == Filter(a, keep) + Filter(b, keep)
  {
    if a == [] {
      assert a + b == b;
    } else {
      assert (a + b)[1..] == a[1..] + b;
      FilterAppend(a[1..], b, keep);
    }
  }

  lemma {:induction false} CountIsFilterLength<T>(xs: seq<T>, keep: T -> bool)
    ensures Count(xs, keep) == |Filter(xs, keep)|
  {
    if xs != [] {
      CountIsFilterLength(xs[1..], keep);
    }
  }

  lemma {:induction false} CountAppend<T>(a: seq<T>, b: seq<T>, keep: T -> bool)
    ensures Count(a + b, keep) == Count(a, keep) + Count(b, keep)
  {
    if a == [] {
      assert a + b == b;
    } else {
      assert (a + b)[1..] == a[1..] + b;
      CountAppend(a[1..], b, keep);
    }
  }

  lemma CountAtMostLength<T>(xs: seq<T>, keep: T -> bool)
    ensures Count(xs, keep) <= |xs|
  {
    CountIsFilterLength(xs, keep);
  }

  /** Counting does not depend on the order of the elements. */
  lemma {:induction false} CountPermutation<T>(a: seq<T>, b: seq<T>, keep: T -> bool)
    requires multiset(a) == multiset(b)
    ensures Count(a, keep) == Count(b, keep)
    decreases |a|
  {
    if a == [] {
      assert |b| == |multiset(b)| == 0;
    } else {
      assert a[0] in multiset(b);
      var k :| 0 <= k < |b| && b[k] == a[0];
      var rest := b[..k] + b[k + 1..];
      RemoveOne(b, k);
      CountRemoveOne(b, k, keep);
      assert a == [a[0]] + a[1..];
      assert multiset(a[1..]) + multiset{a[0]} == multiset(rest) + multiset{a[0]};
      assert multiset(a[1..]) == multiset(a[1..]) + multiset{a[0]} - multiset{a[0]};
      assert multiset(a[1..]) == multiset(rest);
      CountPermutation(a[1..], rest, keep);
    }
  }

  /** Taking out the element at `k` takes it out of the multiset. */
  lemma RemoveOne<T>(b: seq<T>, k: nat)
    requires k < |b|
    ensures multiset(b) == multiset(b[..k] + b[k + 1..]) + multiset{b[k]}
  {
    assert b == b[..k] + [b[k]] + b[k + 1..];
  }

  /** Taking out the element at `k` takes it out of the count. */
  lemma CountRemoveOne<T>(b: seq<T>, k: nat, keep: T -> bool)
    requires k < |b|
    ensures Count(b, keep) == Count(b[..k] + b[k + 1..], keep) + (if keep(b[k]) then 1 else 0)
  {
    var front, back := b[..k], b[k + 1..];
    assert Count(b, keep) == Count((front + [b[k]]) + back, keep) by {
      assert b == (front + [b[k]]) + back;
    }
    CountMiddle(front, b[k], back, keep);
  }

  lemma CountMiddle<T>(front: seq<T>, x: T, back: seq<T>, keep: T -> bool)
    ensures Count((front + [x]) + back, keep) == Count(front + back, keep) + (if keep(x) then 1 else 0)
  {
    CountAppend(front + [x], back, keep);
    CountAppend(front, [x], keep);
    CountAppend(front, back, keep);
    assert Count([x], keep) == (if keep(x) then 1 else 0) by {
      assert [x][1..] == [];
    }
  }

  lemma {:induction false} CountNone<T>(xs: seq<T>, keep: T -> bool)
    requires forall i :: 0 <= i < |xs| ==> !keep(xs[i])
    ensures Count(xs, keep) == 0
  {
    if xs != [] {
      assert !keep(xs[0]);
      CountNone(xs[1..], keep);
    }
  }

  /** When the first `n` elements are kept, at least `n` are counted. */
  lemma {:induction false} CountPrefix<T>(xs: seq<T>, keep: T -> bool, n: nat)
    requires n <= |xs|
    requires forall i :: 0 <= i < n ==> keep(xs[i])
    ensures Count(xs, keep) >= n
  {
    if n > 0 {
      assert keep(xs[0]);
      forall i | 0 <= i < n - 1 ensures keep(xs[1..][i]) {
        assert xs[1..][i] == xs[i + 1];
      }
      CountPrefix(xs[1..], keep, n - 1);
    }
  }

  lemma CountAll<T>(xs: seq<T>, keep: T -> bool)
    requires forall i :: 0 <= i < |xs| ==> keep(xs[i])
    ensures Count(xs, keep) == |xs|
  {
    FilterAll(xs, keep);
    CountIsFilterLength(xs, keep);
  }

  /** A prefix holds no more of any element than the whole list. */
  lemma TakeMultiset<T>(xs: seq<T>, n: nat)
    ensures multiset(Take(xs, n)) <= multiset(xs)
  {
    if n <= |xs| {
      assert xs == xs[..n] + xs[n..];
    }
  }

  lemma TakeSpec<T>(xs: seq<T>, n: nat)
    ensures |Take(xs, n)| == if n <= |xs| then n else |xs|
    ensures Take(xs, n) <= xs
  {
  }
}

/** Shared building blocks: an optional value, and the order-preserving
    `filter` and left-to-right `reduce` that the dashboard and the record store
    are built from. */
module Common {

  /** A value that may be absent (`null`/`undefined` in the application). */
  datatype Option<+T> = None | Some(value: T)

  /** `xs.filter(p)`: the elements satisfying `p`, in their original order,
      each kept as often as it occurs. */
  function Keep<T>(xs: seq<T>, p: T -> bool): (r: seq<T>)
    ensures |r| <= |xs|
    ensures forall i :: 0 <= i < |r| ==> p(r[i])
  {
    if |xs| == 0 then []
    else
      var init, last := xs[..|xs| - 1], xs[|xs| - 1];
      Keep(init, p) + (if p(last) then [last] else [])
  }

  /** Each element is kept exactly as often as it occurs when it satisfies
      `p`, and never otherwise. */
  lemma {:induction false} KeepCount<T>(xs: seq<T>, p: T -> bool, x: T)
    ensures multiset(Keep(xs, p))[x] == if p(x) then multiset(xs)[x] else 0
    decreases |xs|
  {
    if |xs| > 0 {
      var init, last := xs[..|xs| - 1], xs[|xs| - 1];
      assert xs == init + [last];
      KeepCount(init, p, x);
    }
  }

  /** Filtering a sequence extended by one element. */
  lemma KeepSnoc<T>(xs: seq<T>, x: T, p: T -> bool)
    ensures Keep(xs + [x], p) == Keep(xs, p) + (if p(x) then [x] else [])
  {
    assert (xs + [x])[..|xs + [x]| - 1] == xs;
  }

  /** Nothing is dropped when every element satisfies `p`. */
  lemma {:induction false} KeepAll<T>(xs: seq<T>, p: T -> bool)
    requires forall i :: 0 <= i < |xs| ==> p(xs[i])
    ensures Keep(xs, p) == xs
    decreases |xs|
  {
    if |xs| > 0 {
      KeepAll(xs[..|xs| - 1], p);
      assert xs == xs[..|xs| - 1] + [xs[|xs| - 1]];
    }
  }

  /** Replacing one element by another that `p` rejects, where `p` rejected the
      original too, leaves the filtered sequence as it was. */
  lemma KeepUpdateRejected<T>(xs: seq<T>, i: nat, x: T, p: T -> bool)
    requires i < |xs|
    requires !p(xs[i]) && !p(x)
    ensures Keep(xs[i := x], p) == Keep(xs, p)
  {
    assert xs[i := x] == xs[..i] + [x] + xs[i + 1..];
    assert xs == xs[..i] + [xs[i]] + xs[i + 1..];
    KeepAppend(xs[..i] + [x], xs[i + 1..], p);
    KeepAppend(xs[..i] + [xs[i]], xs[i + 1..], p);
    KeepSnoc(xs[..i], x, p);
    KeepSnoc(xs[..i], xs[i], p);
  }

  /** Replacing one accepted element by another accepted one replaces it at
      its own place in the filtered sequence, which is after the accepted
      elements of `xs[..i]`; everything else is kept. */
  lemma KeepUpdateAccepted<T>(xs: seq<T>, i: nat, x: T, p: T -> bool)
    requires i < |xs|
    requires p(xs[i]) && p(x)
    ensures |Keep(xs[..i], p)| < |Keep(xs, p)|
    ensures Keep(xs, p)[|Keep(xs[..i], p)|] == xs[i]
    ensures Keep(xs[i := x], p) == Keep(xs, p)[|Keep(xs[..i], p)| := x]
  {
    assert xs[i := x] == xs[..i] + [x] + xs[i + 1..];
    assert xs == xs[..i] + [xs[i]] + xs[i + 1..];
    KeepAppend(xs[..i] + [x], xs[i + 1..], p);
    KeepAppend(xs[..i] + [xs[i]], xs[i + 1..], p);
    KeepSnoc(xs[..i], x, p);
    KeepSnoc(xs[..i], xs[i], p);
    var before, after := Keep(xs[..i], p), Keep(xs[i + 1..], p);
    assert Keep(xs, p) == before + [xs[i]] + after;
    assert Keep(xs[i := x], p) == before + [x] + after;
    assert (before + [xs[i]] + after)[|before| := x] == before + [x] + after;
  }

  /** Filtering two orderings of the same elements keeps the same elements,
      each as often. */
  lemma KeepPermutation<T>(xs: seq<T>, ys: seq<T>, p: T -> bool)
    requires multiset(xs) == multiset(ys)
    ensures multiset(Keep(xs, p)) == multiset(Keep(ys, p))
  {
    forall x ensures multiset(Keep(xs, p))[x] == multiset(Keep(ys, p))[x] {
      KeepCount(xs, p, x);
      KeepCount(ys, p, x);
    }
    MultisetExtensional(multiset(Keep(xs, p)), multiset(Keep(ys, p)));
  }

  /** Multisets with the same count for every element are equal. */
  lemma MultisetExtensional<T>(a: multiset<T>, b: multiset<T>)
    requires forall x :: a[x] == b[x]
    ensures a == b
  {
  }

  /** An element is kept iff it occurs and satisfies `p`. */
  lemma KeepMembership<T>(xs: seq<T>, p: T -> bool, x: T)
    ensures x in Keep(xs, p) <==> x in xs && p(x)
  {
    KeepCount(xs, p, x);
    assert x in Keep(xs, p) <==> multiset(Keep(xs, p))[x] > 0;
    assert x in xs <==> multiset(xs)[x] > 0;
  }

  /** Filtering distributes over concatenation. */
  lemma {:induction false} KeepAppend<T>(xs: seq<T>, ys: seq<T>, p: T -> bool)
    ensures Keep(xs + ys, p) == Keep(xs, p) + Keep(ys, p)
    decreases |ys|
  {
    if |ys| == 0 {
      assert xs + ys == xs;
    } else {
      var init, last := ys[..|ys| - 1], ys[|ys| - 1];
      var tail := if p(last) then [last] else [];
      assert (xs + ys)[..|xs + ys| - 1] == xs + init;
      assert (xs + ys)[|xs + ys| - 1] == last;
      assert Keep(xs + ys, p) == Keep(xs + init, p) + tail;
      KeepAppend(xs, init, p);
      assert Keep(ys, p) == Keep(init, p) + tail;
    }
  }

  /** When every element `q` accepts is also accepted by `p`, filtering by `p`
      first does not change what `q` selects. */
  lemma {:induction false} KeepAbsorb<T>(xs: seq<T>, p: T -> bool, q: T -> bool)
    requires forall x :: q(x) ==> p(x)
    ensures Keep(Keep(xs, p), q) == Keep(xs, q)
    decreases |xs|
  {
    if |xs| > 0 {
      var init, last := xs[..|xs| - 1], xs[|xs| - 1];
      KeepAbsorb(init, p, q);
      KeepAppend(Keep(init, p), if p(last) then [last] else [], q);
      assert Keep([last], q) == Keep([], q) + (if q(last) then [last] else []);
    }
  }

  /** `xs.reduce((sum, x) => sum + f(x), 0)`, folded left to right. */
  function SumBy<T>(xs: seq<T>, f: T -> real): real
  {
    if |xs| == 0 then 0.0 else SumBy(xs[..|xs| - 1], f) + f(xs[|xs| - 1])
  }

  /** The sum over a concatenation is the sum of the sums. */
  lemma {:induction false} SumByAppend<T>(xs: seq<T>, ys: seq<T>, f: T -> real)
    ensures SumBy(xs + ys, f) == SumBy(xs, f) + SumBy(ys, f)
    decreases |ys|
  {
    if |ys| == 0 {
      assert xs + ys == xs;
    } else {
      var init := ys[..|ys| - 1];
      assert (xs + ys)[..|xs + ys| - 1] == xs + init;
      SumByAppend(xs, init, f);
    }
  }

  /** Splitting a sum around one term. */
  lemma SumByMiddle<T>(xs: seq<T>, x: T, ys: seq<T>, f: T -> real)
    ensures SumBy(xs + [x] + ys, f) == SumBy(xs, f) + f(x) + SumBy(ys, f)
  {
    SumByAppend(xs + [x], ys, f);
    assert (xs + [x])[..|xs + [x]| - 1] == xs;
  }

  /** One more term adds exactly its value. */
  lemma SumBySnoc<T>(xs: seq<T>, x: T, f: T -> real)
    ensures SumBy(xs + [x], f) == SumBy(xs, f) + f(x)
  {
    assert (xs + [x])[..|xs|] == xs;
  }

  /** Replacing one term changes the sum by the difference of the two terms. */
  lemma SumByUpdate<T>(xs: seq<T>, i: nat, x: T, f: T -> real)
    requires i < |xs|
    ensures SumBy(xs[i := x], f) == SumBy(xs, f) - f(xs[i]) + f(x)
  {
    assert xs[i := x] == xs[..i] + [x] + xs[i + 1..];
    assert xs == xs[..i] + [xs[i]] + xs[i + 1..];
    SumByMiddle(xs[..i], x, xs[i + 1..], f);
    SumByMiddle(xs[..i], xs[i], xs[i + 1..], f);
  }

  /** A sum of non-negative terms is non-negative. */
  lemma {:induction false} SumByNonNegative<T>(xs: seq<T>, f: T -> real)
    requires forall i :: 0 <= i < |xs| ==> f(xs[i]) >= 0.0
    ensures SumBy(xs, f) >= 0.0
    decreases |xs|
  {
    if |xs| > 0 {
      SumByNonNegative(xs[..|xs| - 1], f);
    }
  }

  /** The sum does not depend on the order of the terms: any rearrangement of
      the same elements has the same sum. */
  lemma {:induction false} SumByPermutation<T>(xs: seq<T>, ys: seq<T>, f: T -> real)
    requires multiset(xs) == multiset(ys)
    ensures SumBy(xs, f) == SumBy(ys, f)
    decreases |xs|
  {
    if |xs| == 0 {
      assert |ys| == |multiset(ys)| == 0;
    } else {
      var init, last := xs[..|xs| - 1], xs[|xs| - 1];
      assert xs == init + [last];
      assert last in multiset(ys);
      var i :| 0 <= i < |ys| && ys[i] == last;
      var rest := ys[..i] + ys[i + 1..];
      assert ys == ys[..i] + [last] + ys[i + 1..];
      assert multiset(ys) == multiset(ys[..i]) + multiset{last} + multiset(ys[i + 1..]);
      assert multiset(rest) == multiset(ys[..i]) + multiset(ys[i + 1..]);
      assert multiset(xs) == multiset(init) + multiset{last};
      calc {
        multiset(init);
        multiset(xs) - multiset{last};
        multiset(ys) - multiset{last};
        multiset(rest);
      }
      SumByPermutation(init, rest, f);
      SumByAppend(ys[..i] + [last], ys[i + 1..], f);
      SumByAppend(ys[..i], [last], f);
      SumByAppend(ys[..i], ys[i + 1..], f);
      assert SumBy([last], f) == f(last) by {
        assert [last][..0] == [];
      }
    }
  }

  /** Dropping non-negative terms can only lower a sum. */
  lemma {:induction false} SumByKeepAtMost<T>(xs: seq<T>, p: T -> bool, f: T -> real)
    requires forall i :: 0 <= i < |xs| ==> f(xs[i]) >= 0.0
    ensures SumBy(Keep(xs, p), f) <= SumBy(xs, f)
    decreases |xs|
  {
    if |xs| > 0 {
      var init, last := xs[..|xs| - 1], xs[|xs| - 1];
      SumByKeepAtMost(init, p, f);
      SumByAppend(Keep(init, p), if p(last) then [last] else [], f);
      if p(last) {
        assert SumBy([last], f) == f(last) by {
          assert [last][..0] == [];
        }
      }
    }
  }

  /** The sum over the kept elements, split at the last element. */
  lemma SumByKeepLast<T>(xs: seq<T>, p: T -> bool, f: T -> real)
    requires |xs| > 0
    ensures SumBy(Keep(xs, p), f) ==
      SumBy(Keep(xs[..|xs| - 1], p), f) + (if p(xs[|xs| - 1]) then f(xs[|xs| - 1]) else 0.0)
  {
    var k, last := Keep(xs[..|xs| - 1], p), xs[|xs| - 1];
    if p(last) {
      assert (k + [last])[..|k|] == k;
    } else {
      assert k + [] == k;
    }
  }

  /** The sum over the kept elements of a sequence extended by one element. */
  lemma SumByKeepSnoc<T>(xs: seq<T>, x: T, p: T -> bool, f: T -> real)
    ensures SumBy(Keep(xs + [x], p), f) ==
      SumBy(Keep(xs, p), f) + (if p(x) then f(x) else 0.0)
  {
    SumByKeepLast(xs + [x], p, f);
    assert (xs + [x])[..|xs|] == xs;
  }

  /** A sum of zero terms is zero. */
  lemma {:induction false} SumByZero<T>(xs: seq<T>, f: T -> real)
    requires forall i :: 0 <= i < |xs| ==> f(xs[i]) == 0.0
    ensures SumBy(xs, f) == 0.0
    decreases |xs|
  {
    if |xs| > 0 {
      SumByZero(xs[..|xs| - 1], f);
    }
  }
}

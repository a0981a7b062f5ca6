/** Sums, means and the sequence filters that the statistics are built from. */
module Numbers {
  import opened Wrappers

  /** `reduce(0, +)` over exact reals. */
  function Sum(xs: seq<real>): real
  {
    if xs == [] then 0.0 else Sum(xs[..|xs| - 1]) + xs[|xs| - 1]
  }

  /** `sum / Double(count)`; the callers all guard against the empty case. */
  function Mean(xs: seq<real>): real
    requires |xs| > 0
  {
    Sum(xs) / (|xs| as real)
  }

  /**
   * `filter`, keeping the order of the survivors. `FilterCounts` shows each
   * element that passes occurs as often as in the input and every other
   * element not at all; `FilterConcat` shows filtering distributes over
   * concatenation, which fixes the order.
   */
  function Filter<T(!new)>(s: seq<T>, p: T -> bool): (r: seq<T>)
    ensures |r| <= |s|
    ensures forall x :: x in r <==> x in s && p(x)
    ensures forall i :: 0 <= i < |r| ==> p(r[i])
  {
    if s == [] then []
    else
      var init := Filter(s[..|s| - 1], p);
      assert forall x :: x in s <==> x in s[..|s| - 1] || x == s[|s| - 1];
      init + (if p(s[|s| - 1]) then [s[|s| - 1]] else [])
  }

  /** Filtering keeps the multiplicity of every element that passes and drops the others entirely. */
  lemma {:induction false} FilterCounts<T(!new)>(s: seq<T>, p: T -> bool)
    ensures forall x :: multiset(Filter(s, p))[x] == (if p(x) then multiset(s)[x] else 0)
  {
    if s != [] {
      var init, last := s[..|s| - 1], s[|s| - 1];
      FilterCounts(init, p);
      assert s == init + [last];
      assert Filter(s, p) == Filter(init, p) + (if p(last) then [last] else []);
    }
  }

  /** Filtering a concatenation filters each part and keeps them in order. */
  lemma {:induction false} FilterConcat<T(!new)>(a: seq<T>, b: seq<T>, p: T -> bool)
    ensures Filter(a + b, p) == Filter(a, p) + Filter(b, p)
  {
    if b != [] {
      var b0 := b[..|b| - 1];
      assert (a + b)[..|a + b| - 1] == a + b0;
      assert (a + b)[|a + b| - 1] == b[|b| - 1];
      FilterConcat(a, b0, p);
    } else {
      assert a + b == a;
    }
  }

  /** Filtering with a predicate every element satisfies returns the sequence itself. */
  lemma {:induction false} FilterAll<T(!new)>(s: seq<T>, p: T -> bool)
    requires forall i :: 0 <= i < |s| ==> p(s[i])
    ensures Filter(s, p) == s
  {
    if s != [] {
      var init, last := s[..|s| - 1], s[|s| - 1];
      assert p(last);
      FilterAll(init, p);
      assert s == init + [last];
    }
  }

  /** `compactMap`: the present values of `f`, in order. */
  function CompactMap<T(!new)>(s: seq<T>, f: T -> Option<real>): (r: seq<real>)
    ensures |r| <= |s|
    ensures forall v :: v in r <==> exists x :: x in s && f(x) == Some(v)
    ensures (forall i :: 0 <= i < |s| ==> f(s[i]).Some?) ==> |r| == |s|
  {
    if s == [] then []
    else
      var init := CompactMap(s[..|s| - 1], f);
      var last := s[|s| - 1];
      assert forall x :: x in s <==> x in s[..|s| - 1] || x == last;
      init + (match f(last) case Some(v) => [v] case None => [])
  }

  /** `map`, for the real-valued projections. */
  function MapReal<T>(s: seq<T>, f: T -> real): (r: seq<real>)
    ensures |r| == |s|
    ensures forall i :: 0 <= i < |s| ==> r[i] == f(s[i])
  {
    if s == [] then [] else MapReal(s[..|s| - 1], f) + [f(s[|s| - 1])]
  }

  /** The values that are strictly positive (`filter { $0 > 0 }`). */
  function Positives(xs: seq<real>): (r: seq<real>)
    ensures forall v :: v in r <==> v in xs && v > 0.0
    ensures forall i :: 0 <= i < |r| ==> r[i] > 0.0
  {
    Filter(xs, (x: real) => x > 0.0)
  }

  lemma {:induction false} SumAppend(xs: seq<real>, x: real)
    ensures Sum(xs + [x]) == Sum(xs) + x
  {
    assert (xs + [x])[..|xs + [x]| - 1] == xs;
  }

  lemma {:induction false} SumConcat(xs: seq<real>, ys: seq<real>)
    ensures Sum(xs + ys) == Sum(xs) + Sum(ys)
    decreases |ys|
  {
    if ys == [] {
      assert xs + ys == xs;
    } else {
      var init := ys[..|ys| - 1];
      var last := ys[|ys| - 1];
      assert ys == init + [last];
      assert xs + ys == (xs + init) + [last];
      SumAppend(xs + init, last);
      SumConcat(xs, init);
      SumAppend(init, last);
    }
  }

  /** A sum of non-negative values is non-negative. */
  lemma {:induction false} SumNonNegative(xs: seq<real>)
    requires forall i :: 0 <= i < |xs| ==> xs[i] >= 0.0
    ensures Sum(xs) >= 0.0
  {
    if xs != [] {
      SumNonNegative(xs[..|xs| - 1]);
    }
  }

  /** A non-empty sum of positive values is positive, so is its mean. */
  lemma {:induction false} SumPositive(xs: seq<real>)
    requires |xs| > 0
    requires forall i :: 0 <= i < |xs| ==> xs[i] > 0.0
    ensures Sum(xs) > 0.0
    ensures Mean(xs) > 0.0
  {
    var init := xs[..|xs| - 1];
    if init != [] {
      SumPositive(init);
    }
  }

  /** A sum is positive only when some term is. */
  lemma {:induction false} SumPositiveHasPositiveTerm(xs: seq<real>)
    requires Sum(xs) > 0.0
    ensures exists i :: 0 <= i < |xs| && xs[i] > 0.0
  {
    var init := xs[..|xs| - 1];
    if Sum(init) > 0.0 {
      SumPositiveHasPositiveTerm(init);
      var i :| 0 <= i < |init| && init[i] > 0.0;
      assert xs[i] == init[i];
    }
  }

  /** A sum of non-negative values with one positive term is positive. */
  lemma {:induction false} SumWithPositiveTerm(xs: seq<real>, k: int)
    requires forall i :: 0 <= i < |xs| ==> xs[i] >= 0.0
    requires 0 <= k < |xs| && xs[k] > 0.0
    ensures Sum(xs) > 0.0
  {
    var init := xs[..|xs| - 1];
    SumNonNegative(init);
    if k < |xs| - 1 {
      SumWithPositiveTerm(init, k);
    }
  }

  /** A sum of all-zero terms is zero. */
  lemma {:induction false} SumZeros(xs: seq<real>)
    requires forall i :: 0 <= i < |xs| ==> xs[i] == 0.0
    ensures Sum(xs) == 0.0
  {
    if xs != [] {
      SumZeros(xs[..|xs| - 1]);
    }
  }

  /** Scaling every term scales the sum (used for `/ 1000` applied per run or to the total). */
  lemma {:induction false} SumScale(xs: seq<real>, ys: seq<real>, c: real)
    requires |xs| == |ys|
    requires forall i :: 0 <= i < |xs| ==> ys[i] == xs[i] * c
    ensures Sum(ys) == Sum(xs) * c
  {
    if xs != [] {
      SumScale(xs[..|xs| - 1], ys[..|ys| - 1], c);
    }
  }

  /** The sum of two terms. */
  lemma SumOfTwo(x: real, y: real)
    ensures Sum([x, y]) == x + y
  {
    SumAppend([], x);
    SumAppend([x], y);
    assert [] + [x] == [x];
    assert [x] + [y] == [x, y];
  }

  /** A sum of equal terms is the count times the term. */
  lemma {:induction false} SumConstant(xs: seq<real>, c: real)
    requires forall i :: 0 <= i < |xs| ==> xs[i] == c
    ensures Sum(xs) == |xs| as real * c
  {
    if xs != [] {
      SumConstant(xs[..|xs| - 1], c);
    }
  }

  /** The mean of equal terms is that term. */
  lemma MeanOfConstant(xs: seq<real>, c: real)
    requires |xs| > 0
    requires forall i :: 0 <= i < |xs| ==> xs[i] == c
    ensures Mean(xs) == c
  {
    SumConstant(xs, c);
  }

  /** The mean of non-negative terms is non-negative. */
  lemma MeanNonNegative(xs: seq<real>)
    requires |xs| > 0
    requires forall i :: 0 <= i < |xs| ==> xs[i] >= 0.0
    ensures Mean(xs) >= 0.0
  {
    SumNonNegative(xs);
  }

  /** A sum of terms each at most `c` is at most `c` times their number. */
  lemma {:induction false} SumAtMost(xs: seq<real>, c: real)
    requires forall i :: 0 <= i < |xs| ==> xs[i] <= c
    ensures Sum(xs) <= c * (|xs| as real)
  {
    if xs != [] {
      SumAtMost(xs[..|xs| - 1], c);
    }
  }

  /** The mean of terms each at most `c` is at most `c`. */
  lemma MeanAtMost(xs: seq<real>, c: real)
    requires |xs| > 0
    requires forall i :: 0 <= i < |xs| ==> xs[i] <= c
    ensures Mean(xs) <= c
  {
    SumAtMost(xs, c);
    QuotientAtMost(Sum(xs), c, |xs| as real);
  }

  lemma QuotientAtMost(s: real, c: real, n: real)
    requires n > 0.0 && s <= c * n
    ensures s / n <= c
  {
  }

  /** A sum of terms each at least `c` is at least `c` times their number. */
  lemma {:induction false} SumAtLeast(xs: seq<real>, c: real)
    requires forall i :: 0 <= i < |xs| ==> c <= xs[i]
    ensures c * (|xs| as real) <= Sum(xs)
  {
    if xs != [] {
      SumAtLeast(xs[..|xs| - 1], c);
    }
  }

  /** The mean of terms each at least `c` is at least `c`. */
  lemma MeanAtLeast(xs: seq<real>, c: real)
    requires |xs| > 0
    requires forall i :: 0 <= i < |xs| ==> c <= xs[i]
    ensures c <= Mean(xs)
  {
    SumAtLeast(xs, c);
    QuotientAtLeast(Sum(xs), c, |xs| as real);
  }

  /** A mean lies between any lower and upper bound of its terms. */
  lemma MeanBetween(xs: seq<real>, lo: real, hi: real)
    requires |xs| > 0
    requires forall i :: 0 <= i < |xs| ==> lo <= xs[i] <= hi
    ensures lo <= Mean(xs) <= hi
  {
    MeanAtMost(xs, hi);
    MeanAtLeast(xs, lo);
  }

  /** A mean `a` taken once per term (`n` times) gives back the sum. */
  lemma MeanTimesCount(xs: seq<real>, a: real, n: real)
    requires |xs| > 0 && a == Mean(xs) && n == |xs| as real
    ensures Sum(xs) == a * n
  {
    assert a == Sum(xs) / n;
    QuotientTimesDivisor(Sum(xs), n);
  }

  lemma QuotientTimesDivisor(s: real, n: real)
    requires n != 0.0
    ensures (s / n) * n == s
  {
  }

  lemma QuotientAtLeast(s: real, c: real, n: real)
    requires n > 0.0 && c * n <= s
    ensures c <= s / n
  {
  }

  /** Every term of a sum of non-negative values is at most the sum. */
  lemma {:induction false} TermAtMostSum(xs: seq<real>, k: int)
    requires forall i :: 0 <= i < |xs| ==> xs[i] >= 0.0
    requires 0 <= k < |xs|
    ensures xs[k] <= Sum(xs)
  {
    var init := xs[..|xs| - 1];
    if k < |xs| - 1 {
      TermAtMostSum(init, k);
    } else {
      SumNonNegative(init);
    }
  }
}

/** Failure-carrying wrappers and small facts about counting and summing
    over sequences, shared by every other module. */
module Util {

  datatype Option<+T> = None | Some(value: T) {
    function GetOr(default: T): T {
      match this
      case Some(v) => v
      case None => default
    }
  }

  /** The outcome of an operation that may raise: `Err` stands for the
      exception the source raises. */
  datatype Result<+R, +E> = Ok(value: R) | Err(error: E)

  /** The outcome of a check that either passes or fails with a reason. */
  datatype Outcome<+E> = Pass | Fail(error: E)

  /** Number of elements of `xs` satisfying `p` (Python's `sum(1 for x in xs if p(x))`). */
  function Count<T>(xs: seq<T>, p: T -> bool): (n: nat)
    ensures n <= |xs|
  {
    if xs == [] then 0 else Count(xs[..|xs| - 1], p) + (if p(xs[|xs| - 1]) then 1 else 0)
  }

  /** Counting with a stronger predicate gives a smaller count. */
  lemma {:induction false} CountMonotone<T>(xs: seq<T>, p: T -> bool, q: T -> bool)
    requires forall x :: x in xs && p(x) ==> q(x)
    ensures Count(xs, p) <= Count(xs, q)
  {
    if xs != [] {
      CountMonotone(xs[..|xs| - 1], p, q);
    }
  }

  /** A predicate no element satisfies counts zero. */
  lemma {:induction false} CountNone<T>(xs: seq<T>, p: T -> bool)
    requires forall x :: x in xs ==> !p(x)
    ensures Count(xs, p) == 0
  {
    if xs != [] {
      CountNone(xs[..|xs| - 1], p);
    }
  }

  lemma {:induction false} CountAppend<T>(xs: seq<T>, ys: seq<T>, p: T -> bool)
    ensures Count(xs + ys, p) == Count(xs, p) + Count(ys, p)
  {
    if ys == [] {
      assert xs + ys == xs;
    } else {
      assert (xs + ys)[..|xs + ys| - 1] == xs + ys[..|ys| - 1];
      CountAppend(xs, ys[..|ys| - 1], p);
    }
  }

  /** A predicate every element satisfies counts every element. */
  lemma {:induction false} CountAll<T>(xs: seq<T>, p: T -> bool)
    requires forall x :: x in xs ==> p(x)
    ensures Count(xs, p) == |xs|
  {
    if xs != [] {
      CountAll(xs[..|xs| - 1], p);
    }
  }

  /** Two predicates that never hold together and each imply a third
      count no more together than the third does. */
  lemma {:induction false} CountDisjoint<T>(xs: seq<T>, p: T -> bool, q: T -> bool, r: T -> bool)
    requires forall x :: x in xs ==> (p(x) ==> r(x)) && (q(x) ==> r(x)) && !(p(x) && q(x))
    ensures Count(xs, p) + Count(xs, q) <= Count(xs, r)
  {
    if xs != [] {
      CountDisjoint(xs[..|xs| - 1], p, q, r);
    }
  }

  /** Sum of `f` over `xs` (Python's `sum(f(x) for x in xs)`). */
  function Sum<T>(xs: seq<T>, f: T -> real): real {
    if xs == [] then 0.0 else Sum(xs[..|xs| - 1], f) + f(xs[|xs| - 1])
  }

  /** If every value lies in [lo, hi], the sum lies between
      |xs| * lo and |xs| * hi. */
  lemma {:induction false} SumBounds<T>(xs: seq<T>, f: T -> real, lo: real, hi: real)
    requires forall x :: x in xs ==> lo <= f(x) <= hi
    ensures |xs| as real * lo <= Sum(xs, f) <= |xs| as real * hi
  {
    if xs != [] {
      SumBounds(xs[..|xs| - 1], f, lo, hi);
    }
  }

  /** `total / n if n else 0.0`: the mean the evaluation code reports,
      with an empty group reported as 0. */
  function Mean(total: real, n: nat): (m: real)
    ensures n == 0 ==> m == 0.0
    ensures n > 0 ==> m * n as real == total
  {
    if n == 0 then 0.0 else total / n as real
  }

  lemma PositiveProduct(a: real, b: real)
    requires a > 0.0 && b > 0.0
    ensures a * b > 0.0
  {
  }

  /** Dividing bounds by a positive count. */
  lemma DivideBounds(total: real, n: real, lo: real, hi: real)
    requires n > 0.0 && n * lo <= total <= n * hi
    ensures lo <= total / n <= hi
  {
    var m := total / n;
    assert m * n == total;
    if m < lo {
      PositiveProduct(lo - m, n);
    }
    if m > hi {
      PositiveProduct(m - hi, n);
    }
  }

  /** The mean of values in [lo, hi] lies in [lo, hi]. */
  lemma MeanOfSumBounds<T>(xs: seq<T>, f: T -> real, lo: real, hi: real)
    requires xs != []
    requires forall x :: x in xs ==> lo <= f(x) <= hi
    ensures lo <= Mean(Sum(xs, f), |xs|) <= hi
  {
    SumBounds(xs, f, lo, hi);
    DivideBounds(Sum(xs, f), |xs| as real, lo, hi);
  }

  /** A subset has at most as many elements as its superset. */
  lemma {:induction false} SubsetCard<T>(a: set<T>, b: set<T>)
    requires a <= b
    ensures |a| <= |b|
    decreases |b|
  {
    if a != {} {
      var x :| x in a;
      SubsetCard(a - {x}, b - {x});
    }
  }

  /** A subset as large as its superset is the superset. */
  lemma SubsetSameCard<T>(a: set<T>, b: set<T>)
    requires a <= b && |a| == |b|
    ensures a == b
  {
    if a != b {
      var x :| x in b && x !in a;
      SubsetCard(a, b - {x});
    }
  }
}

/**
 * Statistics helpers of the engine (`sum`, `average`, `calculateIqm` in the
 * CommonJS build's utils/tests.js). Numbers are exact reals; the optional
 * rounding to `decimalPoints` decimals is not modelled (see README).
 */
module Stats {
  import opened Wrappers
  import opened Sorting

  /** `values.reduce((acc, v) => acc + v, 0)`: a left fold that starts from 0. */
  function Sum(values: seq<real>): real
    decreases |values|
  {
    if values == [] then 0.0 else Sum(values[..|values| - 1]) + values[|values| - 1]
  }

  lemma {:induction false} SumConcat(a: seq<real>, b: seq<real>)
    ensures Sum(a + b) == Sum(a) + Sum(b)
    decreases |b|
  {
    if b == [] {
      assert a + b == a;
    } else {
      var n := |b| - 1;
      assert (a + b)[..|a + b| - 1] == a + b[..n];
      SumConcat(a, b[..n]);
    }
  }

  /** `sum` applied to integer counts (chunk lengths, byte counters): the same left fold. */
  function SumInts(values: seq<int>): int
    decreases |values|
  {
    if values == [] then 0 else SumInts(values[..|values| - 1]) + values[|values| - 1]
  }

  lemma {:induction false} SumIntsConcat(a: seq<int>, b: seq<int>)
    ensures SumInts(a + b) == SumInts(a) + SumInts(b)
    decreases |b|
  {
    if b == [] {
      assert a + b == a;
    } else {
      var n := |b| - 1;
      assert (a + b)[..|a + b| - 1] == a + b[..n];
      SumIntsConcat(a, b[..n]);
    }
  }

  /** Every value in [lo, hi] puts the sum in [n * lo, n * hi]. */
  lemma {:induction false} SumBounds(values: seq<real>, lo: real, hi: real)
    requires forall i :: 0 <= i < |values| ==> lo <= values[i] <= hi
    ensures (|values| as real) * lo <= Sum(values) <= (|values| as real) * hi
    decreases |values|
  {
    if values != [] {
      var n := |values| - 1;
      SumBounds(values[..n], lo, hi);
      assert values[n] == values[|values| - 1];
    }
  }

  /** The sum of non-negative values is non-negative. */
  lemma {:induction false} SumNonNegative(values: seq<real>)
    requires forall i :: 0 <= i < |values| ==> 0.0 <= values[i]
    ensures 0.0 <= Sum(values)
    decreases |values|
  {
    if values != [] {
      SumNonNegative(values[..|values| - 1]);
    }
  }

  /** `average(values)`: the sum divided by the length; an empty list gives 0/0, i.e. NaN. */
  function Average(values: seq<real>): (r: Number)
    ensures r == NaN <==> values == []
  {
    if values == [] then NaN else Num(Sum(values) / (|values| as real))
  }

  /** Dividing both sides of `a <= b` by a positive count keeps the order. */
  lemma DivideMonotone(a: real, b: real, n: real)
    requires n > 0.0 && a <= b
    ensures a / n <= b / n
  {
    assert b / n - a / n == (b - a) / n;
  }

  /** A mean lies between any lower and upper bound of its values. */
  lemma AverageBounds(values: seq<real>, lo: real, hi: real)
    requires values != []
    requires forall i :: 0 <= i < |values| ==> lo <= values[i] <= hi
    ensures Average(values).Num? && lo <= Average(values).v <= hi
  {
    SumBounds(values, lo, hi);
    var n := |values| as real;
    DivideMonotone(n * lo, Sum(values), n);
    DivideMonotone(Sum(values), n * hi, n);
    assert (n * lo) / n == lo && (n * hi) / n == hi;
  }

  /** `Math.floor(n * 0.25)` */
  function LowerQuartileIndex(n: nat): nat { n / 4 }

  /** `Math.ceil(n * 0.75)` */
  function UpperQuartileIndex(n: nat): (r: nat)
    ensures LowerQuartileIndex(n) <= r <= n
  {
    (3 * n + 3) / 4
  }

  /** The retained middle of a sorted list: indices floor(n/4) up to, excluding, ceil(3n/4). */
  function MiddleHalf(sorted: seq<real>): seq<real> {
    sorted[LowerQuartileIndex(|sorted|)..UpperQuartileIndex(|sorted|)]
  }

  /** `calculateIqm(values)` on a value: the mean of the middle half of the ascending sort. */
  function InterquartileMean(values: seq<real>): Number {
    Average(MiddleHalf(SortAscending(values)))
  }

  /**
   * `calculateIqm(values, decimalPoints)`: sorts the caller's array ascending in place,
   * then averages the middle half.
   */
  method CalculateIqm(values: array<real>) returns (iqm: Number)
    modifies values
    ensures values[..] == SortAscending(old(values[..]))
    ensures iqm == InterquartileMean(old(values[..]))
  {
    var sorted := SortAscending(values[..]);
    forall i | 0 <= i < values.Length {
      values[i] := sorted[i];
    }
    assert values[..] == sorted;
    assert |sorted| == values.Length;
    var lowerQuartileIndex := LowerQuartileIndex(values.Length);
    var upperQuartileIndex := UpperQuartileIndex(values.Length);
    iqm := Average(values[lowerQuartileIndex..upperQuartileIndex]);
  }

  /** The retained window has ceil(3n/4) - floor(n/4) elements: at least one for n >= 1. */
  lemma IqmWindowNonEmpty(n: nat)
    requires n >= 1
    ensures UpperQuartileIndex(n) - LowerQuartileIndex(n) >= 1
  {
    assert 4 * (n / 4) <= n;
  }

  /** For n >= 4 neither the smallest nor the largest sorted value is retained. */
  lemma IqmWindowExcludesExtremes(n: nat)
    requires n >= 4
    ensures 1 <= LowerQuartileIndex(n) && UpperQuartileIndex(n) <= n - 1
  {
  }

  /** The IQM lies between any lower and upper bound of the input, e.g. its minimum and maximum. */
  lemma IqmWithinBounds(values: seq<real>, lo: real, hi: real)
    requires values != []
    requires forall i :: 0 <= i < |values| ==> lo <= values[i] <= hi
    ensures InterquartileMean(values).Num?
    ensures lo <= InterquartileMean(values).v <= hi
  {
    var n := |values|;
    var sorted := SortAscending(values);
    IqmWindowNonEmpty(n);
    var window := sorted[LowerQuartileIndex(n)..UpperQuartileIndex(n)];
    forall i | 0 <= i < |window|
      ensures lo <= window[i] <= hi
    {
      assert window[i] in multiset(values) by {
        assert window[i] == sorted[LowerQuartileIndex(n) + i];
        assert sorted[LowerQuartileIndex(n) + i] in multiset(sorted);
      }
    }
    AverageBounds(window, lo, hi);
  }

  /** The IQM depends only on the multiset of the input. */
  lemma IqmPermutationInvariant(values: seq<real>, reordered: seq<real>)
    requires multiset(values) == multiset(reordered)
    ensures InterquartileMean(values) == InterquartileMean(reordered)
  {
    SortAscendingPermutation(values, reordered);
    assert |values| == |reordered| by {
      assert |multiset(values)| == |values| && |multiset(reordered)| == |reordered|;
    }
  }

  /**
   * With at least four values, the largest one does not influence the IQM:
   * replacing an extreme high outlier by any other value that is still the largest
   * leaves the result unchanged.
   */
  lemma IqmIgnoresLargest(rest: seq<real>, outlier: real, other: real)
    requires |rest| >= 3
    requires forall i :: 0 <= i < |rest| ==> rest[i] <= outlier && rest[i] <= other
    ensures InterquartileMean(rest + [outlier]) == InterquartileMean(rest + [other])
  {
    SortedPlusLargest(rest, outlier);
    SortedPlusLargest(rest, other);
    MiddleHalfIgnoresLast(SortAscending(rest), outlier, other);
  }

  lemma MiddleHalfIgnoresLast(s: seq<real>, x: real, y: real)
    requires |s| >= 3
    ensures MiddleHalf(s + [x]) == MiddleHalf(s + [y])
  {
    var n := |s| + 1;
    IqmWindowExcludesExtremes(n);
    var lo, hi := LowerQuartileIndex(n), UpperQuartileIndex(n);
    assert (s + [x])[lo..hi] == s[lo..hi];
    assert (s + [y])[lo..hi] == s[lo..hi];
  }

  /** Sorting a list that ends with its maximum sorts the rest and keeps the maximum last. */
  lemma SortedPlusLargest(rest: seq<real>, top: real)
    requires forall i :: 0 <= i < |rest| ==> rest[i] <= top
    ensures SortAscending(rest + [top]) == SortAscending(rest) + [top]
  {
    var sorted := SortAscending(rest);
    var t := sorted + [top];
    forall i | 0 <= i < |sorted| ensures sorted[i] <= top {
      assert sorted[i] in multiset(rest);
    }
    assert multiset(t) == multiset(rest + [top]);
    SortAscendingUnique(rest + [top], t);
  }

  /** The example series: a single slow probe (500 ms) barely moves the IQM (12) but drags the mean to 109.2. */
  lemma IqmSuppressesOutlierExample(values: seq<real>)
    requires values == [10.0, 12.0, 11.0, 13.0, 500.0]
    ensures InterquartileMean(values) == Num(12.0)
    ensures Average(values) == Num(109.2)
  {
    var middle := [11.0, 12.0, 13.0];
    ExampleMiddle(values, middle);
    SumPrefix(middle, 1);
    SumPrefix(middle, 2);
    SumPrefix(middle, 3);
    assert middle[..0] == [] && middle[..3] == middle;
    ExampleSum(values);
  }

  lemma ExampleMiddle(values: seq<real>, middle: seq<real>)
    requires values == [10.0, 12.0, 11.0, 13.0, 500.0]
    requires middle == [11.0, 12.0, 13.0]
    ensures MiddleHalf(SortAscending(values)) == middle
  {
    var sorted := [10.0, 11.0, 12.0, 13.0, 500.0];
    ExampleSorted(values, sorted);
    ExampleSortedMiddle(sorted, middle);
  }

  lemma ExampleSortedMiddle(sorted: seq<real>, middle: seq<real>)
    requires sorted == [10.0, 11.0, 12.0, 13.0, 500.0]
    requires middle == [11.0, 12.0, 13.0]
    ensures MiddleHalf(sorted) == middle
  {
    assert LowerQuartileIndex(5) == 1 && UpperQuartileIndex(5) == 4;
    assert sorted[1..4] == middle;
  }

  lemma ExampleSorted(values: seq<real>, sorted: seq<real>)
    requires values == [10.0, 12.0, 11.0, 13.0, 500.0]
    requires sorted == [10.0, 11.0, 12.0, 13.0, 500.0]
    ensures SortAscending(values) == sorted
  {
    assert multiset(sorted) == multiset(values);
    SortAscendingUnique(values, sorted);
  }

  lemma ExampleSum(values: seq<real>)
    requires values == [10.0, 12.0, 11.0, 13.0, 500.0]
    ensures Sum(values) == 546.0
  {
    assert Sum(values[..1]) == 10.0 by { SumSnoc([], 10.0); assert values[..1] == [] + [10.0]; }
    SumPrefix(values, 2);
    SumPrefix(values, 3);
    SumPrefix(values, 4);
    SumPrefix(values, 5);
    assert values[..5] == values;
  }

  lemma SumPrefix(values: seq<real>, k: nat)
    requires 1 <= k <= |values|
    ensures Sum(values[..k]) == Sum(values[..k - 1]) + values[k - 1]
  {
    assert values[..k][..k - 1] == values[..k - 1];
  }

  lemma SumSnoc(s: seq<real>, x: real)
    ensures Sum(s + [x]) == Sum(s) + x
  {
    assert (s + [x])[..|s|] == s;
  }
}

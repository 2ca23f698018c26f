/**
 * The statistics helpers of the TypeScript sources (src/utils/tests.ts): `avg`, which
 * divides by six on top of the length, the consecutive-difference `jitter`, and the
 * interpolated percentile `getQuartile`. `sum` is the same left fold as `Stats.Sum`.
 */
module TestUtils {
  import opened Wrappers
  import opened Sorting
  import opened Stats

  /**
   * `values.reduce((a, b) => a + b)`: a left fold seeded with the first element.
   * Without a seed `reduce` throws on an empty array; the throw is `None`.
   */
  function ReduceFirst(values: seq<real>): (r: Option<real>)
    ensures r.None? <==> values == []
    decreases |values|
  {
    if values == [] then None
    else if |values| == 1 then Some(values[0])
    else Some(ReduceFirst(values[..|values| - 1]).value + values[|values| - 1])
  }

  /** On a non-empty list the unseeded fold agrees with the fold seeded with 0. */
  lemma {:induction false} ReduceFirstIsSum(values: seq<real>)
    requires values != []
    ensures ReduceFirst(values) == Some(Sum(values))
    decreases |values|
  {
    if |values| == 1 {
      assert values[..0] == [];
    } else {
      ReduceFirstIsSum(values[..|values| - 1]);
    }
  }

  /** `avg(values)`: the fold divided by the length and then by 6; throws (`None`) on []. */
  function Avg(values: seq<real>): (r: Option<real>)
    ensures r.None? <==> values == []
  {
    match ReduceFirst(values)
    case None => None
    case Some(total) => Some(total / (|values| as real) / 6.0)
  }

  /** `avg` is one sixth of the plain mean of `Stats.Average`. */
  lemma AvgIsSixthOfMean(values: seq<real>)
    requires values != []
    ensures Avg(values).Some? && Average(values).Num?
    ensures Avg(values).value * 6.0 == Average(values).v
  {
    ReduceFirstIsSum(values);
  }

  function Abs(x: real): real {
    if x < 0.0 then -x else x
  }

  /** The |values.length - 1| absolute differences of neighbouring values (none for fewer than 2). */
  function ConsecutiveDiffs(values: seq<real>): seq<real> {
    if |values| < 2 then []
    else seq(|values| - 1, i requires 0 <= i < |values| - 1 => Abs(values[i] - values[i + 1]))
  }

  /** `jitter(values)`: collects the neighbour differences in an index loop, then `avg`. */
  method Jitter(values: seq<real>) returns (r: Option<real>)
    ensures r == Avg(ConsecutiveDiffs(values))
  {
    var jitters: seq<real> := [];
    var i := 0;
    while i < |values| - 1
      invariant 0 <= i && (|values| >= 1 ==> i <= |values| - 1)
      invariant |values| == 0 ==> i == 0
      invariant |jitters| == i
      invariant forall k :: 0 <= k < i ==> jitters[k] == Abs(values[k] - values[k + 1])
    {
      jitters := jitters + [Abs(values[i] - values[i + 1])];
      i := i + 1;
    }
    DiffsExtensional(values, jitters);
    r := Avg(jitters);
  }

  lemma DiffsExtensional(values: seq<real>, jitters: seq<real>)
    requires |jitters| == if |values| < 2 then 0 else |values| - 1
    requires forall k :: 0 <= k < |jitters| ==> jitters[k] == Abs(values[k] - values[k + 1])
    ensures jitters == ConsecutiveDiffs(values)
  {
  }

  /** The jitter is defined exactly when there are two values, and is then non-negative. */
  lemma JitterNonNegative(values: seq<real>)
    ensures |ConsecutiveDiffs(values)| == if |values| < 2 then 0 else |values| - 1
    ensures Avg(ConsecutiveDiffs(values)).Some? <==> |values| >= 2
    ensures |values| >= 2 ==> Avg(ConsecutiveDiffs(values)).value >= 0.0
  {
    var diffs := ConsecutiveDiffs(values);
    if |values| >= 2 {
      SumNonNegative(diffs);
      AvgIsSixthOfMean(diffs);
      ReduceFirstIsSum(diffs);
    }
  }

  /**
   * `getQuartile` after its sort: the value at position (n - 1)·p, interpolated between
   * the neighbouring entries. Reading outside the list yields `undefined`, or NaN once it
   * takes part in arithmetic; both are `None`.
   */
  function QuartileOfSorted(tests: seq<real>, percentile: real): Option<real> {
    ValueAt(tests, (|tests| - 1) as real * percentile)
  }

  /** The entry at a fractional position: `tests[base] + rest * (tests[base + 1] - tests[base])`. */
  function ValueAt(tests: seq<real>, pos: real): Option<real> {
    var base := pos.Floor;
    var rest := pos - base as real;
    if 0 <= base + 1 < |tests| then
      if 0 <= base then Some(tests[base] + rest * (tests[base + 1] - tests[base])) else None
    else if 0 <= base < |tests| then Some(tests[base])
    else None
  }

  /** `getQuartile(tests, percentile)` on a value. */
  function Quartile(tests: seq<real>, percentile: real): Option<real> {
    QuartileOfSorted(SortAscending(tests), percentile)
  }

  /** `getQuartile`: sorts the caller's array ascending in place, then interpolates. */
  method GetQuartile(tests: array<real>, percentile: real) returns (q: Option<real>)
    modifies tests
    ensures tests[..] == SortAscending(old(tests[..]))
    ensures q == Quartile(old(tests[..]), percentile)
  {
    var sorted := SortAscending(tests[..]);
    forall i | 0 <= i < tests.Length {
      tests[i] := sorted[i];
    }
    assert tests[..] == sorted;
    q := QuartileOfSorted(tests[..], percentile);
  }

  /** Scaling by a factor in [0, 1] keeps a non-negative value in [0, value]. */
  lemma ScaleDown(t: real, d: real)
    requires 0.0 <= t <= 1.0 && 0.0 <= d
    ensures 0.0 <= t * d <= d
  {
    assert d - t * d == (1.0 - t) * d;
  }

  /** A point on the segment between `a` and `b` lies between them. */
  lemma InterpolateBetween(a: real, b: real, t: real, lo: real, hi: real)
    requires 0.0 <= t <= 1.0
    requires lo <= a <= hi && lo <= b <= hi
    ensures lo <= a + t * (b - a) <= hi
  {
    var d := b - a;
    if a <= b {
      ScaleDown(t, d);
      assert a <= a + t * d <= b;
    } else {
      ScaleDown(t, -d);
      assert t * d == -(t * (-d));
      assert b <= a + t * d <= a;
    }
  }

  /** (n - 1)·p for 0 <= p <= 1 lies in [0, n - 1], so its floor is a valid index. */
  lemma PositionInRange(n: nat, p: real)
    requires n >= 1 && 0.0 <= p <= 1.0
    ensures 0.0 <= (n - 1) as real * p <= (n - 1) as real
    ensures 0 <= ((n - 1) as real * p).Floor <= n - 1
  {
    ScaleDown(p, (n - 1) as real);
    assert p * (n - 1) as real == (n - 1) as real * p;
  }

  /** For 0 <= p <= 1 and a non-empty list the percentile lies between any bounds of the list. */
  lemma QuartileWithinBounds(tests: seq<real>, percentile: real, lo: real, hi: real)
    requires tests != [] && 0.0 <= percentile <= 1.0
    requires forall i :: 0 <= i < |tests| ==> lo <= tests[i] <= hi
    ensures Quartile(tests, percentile).Some?
    ensures lo <= Quartile(tests, percentile).value <= hi
  {
    var sorted := SortAscending(tests);
    forall i | 0 <= i < |sorted| ensures lo <= sorted[i] <= hi {
      assert sorted[i] in multiset(tests);
    }
    InterpolationWithinBounds(sorted, percentile, lo, hi);
  }

  /** The interpolation stays within any bounds of the entries, sorted or not. */
  lemma InterpolationWithinBounds(sorted: seq<real>, percentile: real, lo: real, hi: real)
    requires sorted != [] && 0.0 <= percentile <= 1.0
    requires forall i :: 0 <= i < |sorted| ==> lo <= sorted[i] <= hi
    ensures QuartileOfSorted(sorted, percentile).Some?
    ensures lo <= QuartileOfSorted(sorted, percentile).value <= hi
  {
    PositionInRange(|sorted|, percentile);
    ValueAtWithinBounds(sorted, (|sorted| - 1) as real * percentile, lo, hi);
  }

  lemma ValueAtWithinBounds(sorted: seq<real>, pos: real, lo: real, hi: real)
    requires 0.0 <= pos <= (|sorted| - 1) as real
    requires forall i :: 0 <= i < |sorted| ==> lo <= sorted[i] <= hi
    ensures ValueAt(sorted, pos).Some?
    ensures lo <= ValueAt(sorted, pos).value <= hi
  {
    var base := pos.Floor;
    if base + 1 < |sorted| {
      InterpolateBetween(sorted[base], sorted[base + 1], pos - base as real, lo, hi);
    }
  }

  /** `getQuartile(t, 0)` is the minimum of a non-empty list. */
  lemma QuartileZeroIsMinimum(tests: seq<real>)
    requires tests != []
    ensures Quartile(tests, 0.0).Some?
    ensures Quartile(tests, 0.0).value in multiset(tests)
    ensures forall i :: 0 <= i < |tests| ==> Quartile(tests, 0.0).value <= tests[i]
  {
    var sorted := SortAscending(tests);
    assert (|tests| - 1) as real * 0.0 == 0.0;
    assert Quartile(tests, 0.0) == Some(sorted[0]);
    assert sorted[0] in multiset(sorted);
    forall i | 0 <= i < |tests| ensures sorted[0] <= tests[i] {
      assert tests[i] in multiset(sorted);
      SortedHeadLeast(sorted, Ascending, tests[i]);
    }
  }

  /** `getQuartile(t, 1)` is the maximum of a non-empty list. */
  lemma QuartileOneIsMaximum(tests: seq<real>)
    requires tests != []
    ensures Quartile(tests, 1.0).Some?
    ensures Quartile(tests, 1.0).value in multiset(tests)
    ensures forall i :: 0 <= i < |tests| ==> tests[i] <= Quartile(tests, 1.0).value
  {
    var sorted := SortAscending(tests);
    var n := |tests|;
    assert (n - 1) as real * 1.0 == (n - 1) as real;
    ValueAtLast(sorted);
    assert sorted[n - 1] in multiset(sorted);
    forall i | 0 <= i < n ensures tests[i] <= sorted[n - 1] {
      assert tests[i] in multiset(sorted);
      SortedLastGreatest(sorted, tests[i]);
    }
  }

  /** At the last whole position the entry is the last one. */
  lemma ValueAtLast(tests: seq<real>)
    requires tests != []
    ensures ValueAt(tests, (|tests| - 1) as real) == Some(tests[|tests| - 1])
  {
    assert ((|tests| - 1) as real).Floor == |tests| - 1;
  }

  /** The last entry of an ascending list is its largest. */
  lemma SortedLastGreatest(sorted: seq<real>, y: real)
    requires forall i, j :: 0 <= i < j < |sorted| ==> sorted[i] <= sorted[j]
    requires y in multiset(sorted)
    ensures y <= sorted[|sorted| - 1]
  {
    var j :| 0 <= j < |sorted| && sorted[j] == y;
  }
}

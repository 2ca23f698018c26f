/**
 * `calculateSpeedFromSamples`: the final speed of a transfer test is the mean of the top
 * two thirds of the bandwidth samples once the two largest are dropped.
 */
module OoklaSpeed {
  import opened Wrappers
  import opened Sorting
  import opened Stats

  /** `Math.floor(n * 2 / 3)` */
  function TopTwoThirds(n: nat): (k: nat)
    ensures k <= n
  {
    n * 2 / 3
  }

  /** `samplesBySize.slice(2)`: everything after the two largest (nothing when there are fewer). */
  function WithoutTwoHighest(sorted: seq<real>): (r: seq<real>)
    ensures |r| == if |sorted| < 2 then 0 else |sorted| - 2
  {
    if |sorted| < 2 then [] else sorted[2..]
  }

  /** The samples that are averaged, from the descending sort. */
  function SpeedWindow(sorted: seq<real>): seq<real> {
    var rest := WithoutTwoHighest(sorted);
    rest[..TopTwoThirds(|rest|)]
  }

  /**
   * The final speed in bytes per second: the window's sum divided by its length; an empty
   * window gives 0 / 0, i.e. NaN (as `average`).
   */
  function SpeedFromSamples(samples: seq<real>): Number {
    Average(SpeedWindow(SortDescending(samples)))
  }

  /**
   * `calculateSpeedFromSamples(samples)`: sorts the caller's array descending in place, then
   * averages the top two thirds of what follows the two largest.
   */
  method CalculateSpeedFromSamples(samples: array<real>) returns (speed: Number)
    modifies samples
    ensures samples[..] == SortDescending(old(samples[..]))
    ensures speed == SpeedFromSamples(old(samples[..]))
  {
    var samplesBySize := SortDescending(samples[..]);
    forall i | 0 <= i < samples.Length {
      samples[i] := samplesBySize[i];
    }
    assert samples[..] == samplesBySize;
    var samplesWithoutTwoHighest := WithoutTwoHighest(samples[..]);
    var topTwoThirdsIndex := TopTwoThirds(|samplesWithoutTwoHighest|);
    speed := Average(samplesWithoutTwoHighest[..topTwoThirdsIndex]);
  }

  /** The window has floor(2(n - 2)/3) samples: at least one exactly when there are four samples. */
  lemma SpeedDefinedIff(samples: seq<real>)
    ensures |SpeedWindow(SortDescending(samples))| == TopTwoThirds(if |samples| < 2 then 0 else |samples| - 2)
    ensures SpeedFromSamples(samples).Num? <==> |samples| >= 4
  {
  }

  /** The speed depends only on the multiset of samples. */
  lemma SpeedPermutationInvariant(samples: seq<real>, reordered: seq<real>)
    requires multiset(samples) == multiset(reordered)
    ensures SpeedFromSamples(samples) == SpeedFromSamples(reordered)
  {
    SortDescendingPermutation(samples, reordered);
  }

  /** Sorting a list that ends with two values at least as large as the rest puts them first. */
  lemma SortedWithTwoLargest(rest: seq<real>, a: real, b: real)
    requires forall i :: 0 <= i < |rest| ==> rest[i] <= a && rest[i] <= b
    ensures SortDescending(rest + [a, b]) == (if a >= b then [a, b] else [b, a]) + SortDescending(rest)
  {
    var sorted := SortDescending(rest);
    var top := if a >= b then [a, b] else [b, a];
    forall i | 0 <= i < |sorted| ensures sorted[i] <= a && sorted[i] <= b {
      assert sorted[i] in multiset(rest);
    }
    DescendingBehindTop(top, sorted);
    assert multiset(top) == multiset([a, b]);
    assert multiset(top + sorted) == multiset(rest + [a, b]);
    SortDescendingUnique(rest + [a, b], top + sorted);
  }

  /** A descending list stays descending behind a descending pair that bounds it. */
  lemma DescendingBehindTop(top: seq<real>, sorted: seq<real>)
    requires |top| == 2 && top[0] >= top[1]
    requires forall i, j :: 0 <= i < j < |sorted| ==> sorted[i] >= sorted[j]
    requires forall i :: 0 <= i < |sorted| ==> sorted[i] <= top[0] && sorted[i] <= top[1]
    ensures forall i, j :: 0 <= i < j < |top + sorted| ==> (top + sorted)[i] >= (top + sorted)[j]
  {
    var t := top + sorted;
    forall i, j | 0 <= i < j < |t| ensures t[i] >= t[j] {
      if j >= 2 {
        assert t[j] == sorted[j - 2];
        if i >= 2 {
          assert t[i] == sorted[i - 2];
        }
      }
    }
  }

  /**
   * The two largest samples never count: raising or lowering them, as long as they stay
   * the two largest, leaves the speed unchanged.
   */
  lemma SpeedIgnoresTwoLargest(rest: seq<real>, a: real, b: real, a2: real, b2: real)
    requires forall i :: 0 <= i < |rest| ==> rest[i] <= a && rest[i] <= b && rest[i] <= a2 && rest[i] <= b2
    ensures SpeedFromSamples(rest + [a, b]) == SpeedFromSamples(rest + [a2, b2])
  {
    SortedWithTwoLargest(rest, a, b);
    SortedWithTwoLargest(rest, a2, b2);
    var s1 := SortDescending(rest + [a, b]);
    var s2 := SortDescending(rest + [a2, b2]);
    assert WithoutTwoHighest(s1) == SortDescending(rest);
    assert WithoutTwoHighest(s2) == SortDescending(rest);
  }

  /**
   * With at least four samples the speed lies between the (k + 2)-th largest sample and
   * the third largest, where k is the window length.
   */
  lemma SpeedWithinSamples(samples: seq<real>)
    requires |samples| >= 4
    ensures var sorted := SortDescending(samples);
            var k := TopTwoThirds(|samples| - 2);
            && 1 <= k && k + 1 < |sorted|
            && SpeedFromSamples(samples).Num?
            && sorted[k + 1] <= SpeedFromSamples(samples).v <= sorted[2]
  {
    var sorted := SortDescending(samples);
    var k := TopTwoThirds(|samples| - 2);
    var window := SpeedWindow(sorted);
    assert |window| == k;
    forall i | 0 <= i < k ensures sorted[k + 1] <= window[i] <= sorted[2] {
      assert window[i] == sorted[i + 2];
    }
    AverageBounds(window, sorted[k + 1], sorted[2]);
  }
}

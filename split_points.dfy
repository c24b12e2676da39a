/**
 * The split-point representation of a strategy: nine cut points in [0, 100], sorted
 * ascending, whose gaps (with 0 before the first and 100 after the last) are the ten
 * troop counts.
 */
module SplitPoints {

  const Troops := 100
  const NumSplits := 9

  function Sum(s: seq<int>): int
  {
    if s == [] then 0 else Sum(s[..|s| - 1]) + s[|s| - 1]
  }

  predicate Ascending(s: seq<int>)
  {
    forall i, j :: 0 <= i < j < |s| ==> s[i] <= s[j]
  }

  /** The gaps between 0, the nine split points and 100. */
  function Distances(splits: seq<int>): (d: seq<int>)
    requires |splits| == NumSplits
    ensures |d| == NumSplits + 1
  {
    seq(NumSplits + 1, i requires 0 <= i <= NumSplits =>
      if i == 0 then splits[0]
      else if i == NumSplits then Troops - splits[NumSplits - 1]
      else splits[i] - splits[i - 1])
  }

  /**
   * The split points read back from ten distances, as `_array_to_split_points` computes
   * them: running sums for the first eight, and the ninth overwritten by 100 - d[9].
   */
  function SplitsOf(d: seq<int>): (splits: seq<int>)
    requires |d| == NumSplits + 1
    ensures |splits| == NumSplits
  {
    seq(NumSplits, k requires 0 <= k < NumSplits =>
      if k < NumSplits - 1 then Sum(d[..k + 1]) else Troops - d[NumSplits])
  }

  /** The distances telescope: the first k+1 of them add up to the k-th split point. */
  lemma {:induction false} DistancesPrefixSum(splits: seq<int>, k: nat)
    requires |splits| == NumSplits && k < NumSplits
    ensures Sum(Distances(splits)[..k + 1]) == splits[k]
  {
    var d := Distances(splits);
    if k > 0 {
      DistancesPrefixSum(splits, k - 1);
      assert d[..k + 1][..k] == d[..k];
    }
  }

  /** Whatever the split points, the ten distances add up to 100. */
  lemma DistancesSumTo100(splits: seq<int>)
    requires |splits| == NumSplits
    ensures Sum(Distances(splits)) == Troops
  {
    var d := Distances(splits);
    DistancesPrefixSum(splits, NumSplits - 1);
    assert d[..NumSplits + 1][..NumSplits] == d[..NumSplits];
    assert d[..NumSplits + 1] == d;
  }

  /** No distance is negative exactly when the split points are sorted and lie in [0, 100]. */
  lemma DistancesNonNegative(splits: seq<int>)
    requires |splits| == NumSplits
    ensures (forall i :: 0 <= i < |Distances(splits)| ==> Distances(splits)[i] >= 0)
        <==> (Ascending(splits) && 0 <= splits[0] && splits[NumSplits - 1] <= Troops)
  {
    var d := Distances(splits);
    assert forall k :: 0 < k < NumSplits ==> d[k] == splits[k] - splits[k - 1];
    if forall i :: 0 <= i < |d| ==> d[i] >= 0 {
      assert d[0] >= 0 && d[NumSplits] >= 0;
      forall i, j | 0 <= i < j < |splits| ensures splits[i] <= splits[j] {
        AdjacentToAscending(splits, i, j);
      }
    }
  }

  lemma {:induction false} AdjacentToAscending(s: seq<int>, i: nat, j: nat)
    requires |s| == NumSplits
    requires forall k :: 0 < k < NumSplits ==> s[k] - s[k - 1] >= 0
    requires i <= j < |s|
    ensures s[i] <= s[j]
  {
    if i < j {
      AdjacentToAscending(s, i, j - 1);
    }
  }

  /** Sorted split points in [0, 100] give a valid strategy: ten non-negative counts summing to 100. */
  lemma SortedSplitsGiveStrategy(splits: seq<int>)
    requires |splits| == NumSplits && Ascending(splits)
    requires forall k :: 0 <= k < NumSplits ==> 0 <= splits[k] <= Troops
    ensures forall i :: 0 <= i < |Distances(splits)| ==> Distances(splits)[i] >= 0
    ensures Sum(Distances(splits)) == Troops
  {
    DistancesNonNegative(splits);
    DistancesSumTo100(splits);
  }

  /** Round trip: reading the split points back from their distances gives them back exactly. */
  lemma SplitsRoundTrip(splits: seq<int>)
    requires |splits| == NumSplits
    ensures SplitsOf(Distances(splits)) == splits
  {
    forall k | 0 <= k < NumSplits - 1 ensures SplitsOf(Distances(splits))[k] == splits[k] {
      DistancesPrefixSum(splits, k);
    }
  }

  /** Distances of the split points read back: every gap but the eighth is the old distance. */
  lemma RoundTripGaps(d: seq<int>)
    requires |d| == NumSplits + 1
    ensures forall i :: 0 <= i <= NumSplits && i != NumSplits - 1 ==> Distances(SplitsOf(d))[i] == d[i]
    ensures Distances(SplitsOf(d))[NumSplits - 1] == Troops - Sum(d) + d[NumSplits - 1]
  {
    var s := SplitsOf(d);
    var e := Distances(s);
    assert e[0] == d[0] by {
      assert d[..0] == [];
      SumPrefixStep(d, 0);
    }
    forall i | 0 < i < NumSplits - 1 ensures e[i] == d[i] {
      assert s[i] == Sum(d[..i + 1]) && s[i - 1] == Sum(d[..i]);
      SumPrefixStep(d, i);
    }
    assert e[NumSplits] == d[NumSplits];
    // The eighth gap is (100 - d[9]) - (d[0] + ... + d[7]), which is d[8] iff the sum is 100.
    assert s[NumSplits - 2] == Sum(d[..NumSplits - 1]);
    SumPrefixStep(d, NumSplits - 1);
    SumPrefixStep(d, NumSplits);
    assert d[..NumSplits + 1] == d;
  }

  /**
   * Converse round trip: ten distances come back from their split points exactly when they
   * add up to 100 (the ninth split point is taken from the last distance, not summed).
   */
  lemma DistancesRoundTrip(d: seq<int>)
    requires |d| == NumSplits + 1
    ensures Distances(SplitsOf(d)) == d <==> Sum(d) == Troops
  {
    RoundTripGaps(d);
    var e := Distances(SplitsOf(d));
    if Sum(d) == Troops {
      assert forall i :: 0 <= i < |d| ==> e[i] == d[i];
    } else {
      assert e[NumSplits - 1] != d[NumSplits - 1];
    }
  }

  lemma SumPrefixStep(d: seq<int>, k: nat)
    requires k < |d|
    ensures Sum(d[..k + 1]) == Sum(d[..k]) + d[k]
  {
    assert d[..k + 1][..k] == d[..k];
  }

  /** `split_points_to_array`: fills a 10-element buffer with the first, last and middle gaps. */
  method SplitPointsToArray(splits: seq<int>) returns (d: seq<int>)
    requires |splits| == NumSplits
    ensures d == Distances(splits)
  {
    var result := new int[NumSplits + 1](_ => 0);
    result[0] := splits[0];
    result[NumSplits] := Troops - splits[NumSplits - 1];
    for i := 0 to NumSplits - 1
      invariant result[0] == splits[0] && result[NumSplits] == Troops - splits[NumSplits - 1]
      invariant forall m :: 1 <= m <= i ==> result[m] == splits[m] - splits[m - 1]
    {
      result[i + 1] := splits[i + 1] - splits[i];
    }
    d := result[..];
  }

  /** `_array_to_split_points`: running sums, each read back from the previous split point. */
  method ArrayToSplitPoints(distribution: seq<int>) returns (splits: seq<int>)
    requires |distribution| == NumSplits + 1
    ensures splits == SplitsOf(distribution)
  {
    var sp := new int[NumSplits](_ => 0);
    for idx := 0 to NumSplits + 1
      invariant forall k :: 0 <= k < idx && k < NumSplits - 1 ==> sp[k] == Sum(distribution[..k + 1])
      invariant idx == NumSplits + 1 ==> sp[NumSplits - 1] == Troops - distribution[NumSplits]
      invariant idx == NumSplits ==> sp[NumSplits - 1] == Sum(distribution[..NumSplits])
    {
      if idx == 0 {
        sp[idx] := distribution[idx];
        assert distribution[..1] == [distribution[0]];
      } else if idx == NumSplits {
        sp[idx - 1] := Troops - distribution[idx];
      } else {
        assert distribution[..idx + 1][..idx] == distribution[..idx];
        sp[idx] := sp[idx - 1] + distribution[idx];
      }
    }
    splits := sp[..];
  }
}

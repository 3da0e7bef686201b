/**
 * Choosing between the two strategies: the year-on-year CO2 changes over the
 * last n years, and the rule that picks related rates when their mean change
 * is large and the weighted moving average otherwise.
 */
module Selector {
  import opened Data

  /** A mean yearly change of at least this much, either way, selects related rates. */
  const RrThreshold: real := 20.0

  /** The two strategies, the strings 'RR' and 'WMA' of the source. */
  datatype Algorithm = RR | WMA

  /** The consecutive differences of a list: entry i is `s[i + 1] - s[i]`. */
  function Differences(s: seq<real>): (d: seq<real>)
    ensures |d| == if |s| == 0 then 0 else |s| - 1
  {
    if |s| == 0 then [] else seq(|s| - 1, i requires 0 <= i < |s| - 1 => s[i + 1] - s[i])
  }

  /**
   * co2_increase_rate: the differences of `value_list[T - n - 1:T]` over the
   * country's CO2 values. The slice follows Python: a start below zero counts
   * from the end, and a start past the end leaves nothing. `None` is the
   * KeyError of an unknown country.
   */
  method Co2IncreaseRate(store: Store, country: string, n: int) returns (roc: Option<seq<real>>)
    ensures roc.None? <==> Lookup(store, country).None?
    ensures roc.Some? ==>
      var values := Values(Lookup(store, country).value.co2Yearly);
      roc.value == Differences(values[SliceStart(|values|, |values| - n - 1)..])
  {
    var countryStats := Lookup(store, country);
    if countryStats.None? {
      return None;
    }
    var valueList := Values(countryStats.value.co2Yearly);
    var valueListLen := |valueList|;
    var usableList := valueList[SliceStart(valueListLen, valueListLen - n - 1)..];
    ghost var changes := Differences(usableList);
    var rocSoFar: seq<real> := [];
    var i := 0;
    while i < |usableList| - 1
      invariant 0 <= i <= |changes|
      invariant rocSoFar == changes[..i]
    {
      assert changes[..i + 1] == changes[..i] + [usableList[i + 1] - usableList[i]];
      rocSoFar := rocSoFar + [usableList[i + 1] - usableList[i]];
      i := i + 1;
    }
    assert rocSoFar == changes;
    return Some(rocSoFar);
  }

  /**
   * What co2_increase_rate promises for 0 <= n < T: the slice holds the last
   * n + 1 values, and the result is their n year-on-year changes.
   */
  lemma RecentDifferences(co2: seq<YearValue>, n: int)
    requires 0 <= n < |co2|
    ensures var values := Values(co2);
      var roc := Differences(values[SliceStart(|values|, |values| - n - 1)..]);
      |roc| == n &&
      forall i :: 0 <= i < n ==> roc[i] == co2[|co2| - n + i].1 - co2[|co2| - n - 1 + i].1
  {
    var values := Values(co2);
    var start := SliceStart(|values|, |values| - n - 1);
    assert start == |co2| - n - 1;
    var usable := values[start..];
    var roc := Differences(usable);
    forall i | 0 <= i < n
      ensures roc[i] == co2[|co2| - n + i].1 - co2[|co2| - n - 1 + i].1
    {
      assert roc[i] == usable[i + 1] - usable[i];
      assert usable[i + 1] == values[start + i + 1] && usable[i] == values[start + i];
    }
  }

  /** The changes sum to the last value minus the first: the sum telescopes. */
  lemma {:induction false} DifferencesTelescope(s: seq<real>)
    requires |s| > 0
    ensures Sum(Differences(s)) == s[|s| - 1] - s[0]
  {
    if |s| > 1 {
      var d := Differences(s);
      var shorter := s[..|s| - 1];
      DifferencesTelescope(shorter);
      assert d[..|d| - 1] == Differences(shorter);
    }
  }

  /**
   * determine_algorithm: related rates when the mean change is at least the
   * threshold in size, the weighted moving average otherwise. `None` is the
   * ZeroDivisionError of an empty list.
   */
  function DetermineAlgorithm(roc: seq<real>): (algorithm: Option<Algorithm>)
    ensures algorithm.None? <==> |roc| == 0
  {
    if |roc| == 0 then None
    else
      var averageRoc := Sum(roc) / |roc| as real;
      if Abs(averageRoc) >= RrThreshold then Some(RR) else Some(WMA)
  }

  /** The mean is large exactly when the total is large against the count; the boundary selects related rates. */
  lemma MeanAtLeast(total: real, count: nat)
    requires count > 0
    ensures Abs(total / count as real) >= RrThreshold <==> Abs(total) >= RrThreshold * count as real
  {
    var c := count as real;
    assert Abs(total / c) == Abs(total) / c by {
      if total < 0.0 {
        assert total / c == -((-total) / c);
      }
    }
    if Abs(total) >= RrThreshold * c {
      DivAtLeast(Abs(total), c, RrThreshold);
    } else {
      assert Abs(total) / c < RrThreshold;
    }
  }

  /** Related rates is chosen exactly when the total change reaches the threshold times the count. */
  lemma {:induction false} DetermineAlgorithmByTotal(roc: seq<real>)
    requires |roc| > 0
    ensures DetermineAlgorithm(roc) == Some(RR) <==> Abs(Sum(roc)) >= RrThreshold * |roc| as real
    ensures DetermineAlgorithm(roc) == Some(WMA) <==> Abs(Sum(roc)) < RrThreshold * |roc| as real
  {
    MeanAtLeast(Sum(roc), |roc|);
  }

  /** Every change rising by at least the threshold selects related rates. */
  lemma {:induction false} SteadyRiseSelectsRelatedRates(roc: seq<real>)
    requires |roc| > 0
    requires forall i :: 0 <= i < |roc| ==> roc[i] >= RrThreshold
    ensures DetermineAlgorithm(roc) == Some(RR)
  {
    SumWithin(roc, RrThreshold, Maximum(roc));
    DetermineAlgorithmByTotal(roc);
  }

  /** Every change smaller than the threshold in size selects the weighted moving average. */
  lemma {:induction false} SmallChangesSelectWeightedAverage(roc: seq<real>)
    requires |roc| > 0
    requires forall i :: 0 <= i < |roc| ==> Abs(roc[i]) < RrThreshold
    ensures DetermineAlgorithm(roc) == Some(WMA)
  {
    SumStrictlyWithin(roc, -RrThreshold, RrThreshold);
    DetermineAlgorithmByTotal(roc);
  }

  /**
   * The choice made from the changes of a list of levels depends only on its
   * first and last level: related rates when they lie at least the threshold
   * times the number of changes apart.
   */
  lemma {:induction false} SelectionByEndpoints(s: seq<real>)
    requires |s| > 1
    ensures DetermineAlgorithm(Differences(s)) == Some(RR) <==>
      Abs(s[|s| - 1] - s[0]) >= RrThreshold * (|s| - 1) as real
  {
    DifferencesTelescope(s);
    DetermineAlgorithmByTotal(Differences(s));
  }
}

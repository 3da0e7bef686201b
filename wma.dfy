/**
 * The weighted-moving-average (WMA) strategy: choose the window length whose
 * moving averages track the CO2 history best, then extend the history five
 * years by feeding each forecast back into the window.
 */
module Wma {
  import opened Data

  /** Window lengths at or beyond this bound are never tried. */
  const MaxPeriodBound: int := 9

  /** Number of years appended by a forecast. */
  const ForecastYears: int := 5

  /** Weight of the value `k` places after the oldest one of a window: 0.1, 0.2, ... */
  function Weight(k: nat): real
  {
    0.1 * (k + 1) as real
  }

  /** Total weight of a window of `n` values. */
  function TotalWeight(n: nat): (t: real)
    ensures n > 0 ==> t > 0.0
  {
    if n == 0 then 0.0 else TotalWeight(n - 1) + Weight(n - 1)
  }

  /** Weighted sum of a window, oldest value first, accumulated left to right. */
  function WeightedSum(window: seq<real>): real
  {
    if |window| == 0 then 0.0
    else WeightedSum(window[..|window| - 1]) + window[|window| - 1] * Weight(|window| - 1)
  }

  /** The recency-weighted average of a window, normalised by the total weight. */
  function WeightedAverage(window: seq<real>): real
    requires |window| > 0
  {
    WeightedSum(window) / TotalWeight(|window|)
  }

  /** Bounds on every value of a window bound its weighted sum by the total weight. */
  lemma {:induction false} WeightedSumWithin(window: seq<real>, lo: real, hi: real)
    requires forall i :: 0 <= i < |window| ==> lo <= window[i] <= hi
    ensures lo * TotalWeight(|window|) <= WeightedSum(window) <= hi * TotalWeight(|window|)
  {
    if |window| > 0 {
      var n := |window| - 1;
      var older := window[..n];
      assert forall i :: 0 <= i < n ==> older[i] == window[i];
      WeightedSumWithin(older, lo, hi);
      WeightedStepWithin(WeightedSum(older), TotalWeight(n), window[n], Weight(n), lo, hi);
    }
  }

  /** Adding one weighted value within the bounds keeps a weighted sum within the bounds. */
  lemma WeightedStepWithin(sum: real, total: real, v: real, w: real, lo: real, hi: real)
    requires lo * total <= sum <= hi * total
    requires lo <= v <= hi && 0.0 <= w
    ensures lo * (total + w) <= sum + v * w <= hi * (total + w)
  {
    MulMonotone(lo, v, w);
    MulMonotone(v, hi, w);
  }

  /** Bounds on every value of a window bound its weighted average. */
  lemma WeightedAverageBetween(window: seq<real>, lo: real, hi: real)
    requires |window| > 0
    requires forall i :: 0 <= i < |window| ==> lo <= window[i] <= hi
    ensures lo <= WeightedAverage(window) <= hi
  {
    WeightedSumWithin(window, lo, hi);
    DivAtLeast(WeightedSum(window), TotalWeight(|window|), lo);
    DivAtMost(WeightedSum(window), TotalWeight(|window|), hi);
  }

  /** The weighted average is a convex combination: it lies between the window's least and greatest value. */
  lemma WeightedAverageWithin(window: seq<real>)
    requires |window| > 0
    ensures Minimum(window) <= WeightedAverage(window) <= Maximum(window)
  {
    WeightedAverageBetween(window, Minimum(window), Maximum(window));
  }

  /**
   * The inner weighting loop of w_average_n_values_cls and wma_prediction_cls:
   * weigh the window's values 0.1, 0.2, ... from oldest to newest, then divide
   * the weighted sum by the total weight.
   */
  method WeightedWindowAverage(window: seq<real>) returns (average: real)
    requires |window| > 0
    ensures average == WeightedAverage(window)
  {
    var n := |window|;
    var weighted: seq<real> := [];
    var weight := 0.1;
    var k := 0;
    var totalWeight := 0.0;
    while weight * 10.0 < (n + 1) as real
      invariant 0 <= k <= n
      invariant weight == Weight(k)
      invariant totalWeight == TotalWeight(k)
      invariant Sum(weighted) == WeightedSum(window[..k])
      decreases n - k
    {
      SumAppend(weighted, window[k] * weight);
      assert window[..k + 1][..k] == window[..k];
      weighted := weighted + [window[k] * weight];
      totalWeight := totalWeight + weight;
      weight := weight + 0.1;
      k := k + 1;
    }
    assert window[..k] == window;
    average := Sum(weighted) / totalWeight;
  }

  /** The moving averages of every n-wide window, each dated n years after the window's first year. */
  function MovingAverages(n: nat, values: seq<YearValue>): (averages: seq<YearValue>)
    requires n > 0
    ensures |averages| == if |values| > n then |values| - n else 0
  {
    seq(if |values| > n then |values| - n else 0,
        i requires 0 <= i < |values| - n => (values[i].0 + n, WeightedAverage(Values(values[i..i + n]))))
  }

  /**
   * w_average_n_values_cls yields len(values) - n entries (none when the series
   * is not longer than the window); entry i is dated n years after values[i]
   * and lies between the least and greatest value of its window values[i..i+n].
   */
  lemma MovingAveragesWithin(n: nat, values: seq<YearValue>)
    requires n > 0
    ensures forall i :: 0 <= i < |MovingAverages(n, values)| ==>
      MovingAverages(n, values)[i].0 == values[i].0 + n &&
      Minimum(Values(values[i..i + n])) <= MovingAverages(n, values)[i].1 <= Maximum(Values(values[i..i + n]))
  {
    var averages := MovingAverages(n, values);
    forall i | 0 <= i < |averages|
      ensures Minimum(Values(values[i..i + n])) <= averages[i].1 <= Maximum(Values(values[i..i + n]))
    {
      assert averages[i].1 == WeightedAverage(Values(values[i..i + n]));
      WeightedAverageWithin(Values(values[i..i + n]));
    }
  }

  /**
   * w_average_n_values_cls: slide an n-wide window over the series and record
   * the weighted average of each window.
   */
  method WeightedAverages(n: int, values: seq<YearValue>) returns (averages: Option<seq<YearValue>>)
    ensures averages.None? <==> n <= 0 && |values| - n > 0
    ensures averages.Some? && n > 0 ==> averages.value == MovingAverages(n, values)
    ensures averages.Some? && n <= 0 ==> averages.value == []
  {
    if n <= 0 {
      // no weight is ever added, so the first window divides by a zero total weight
      if |values| - n > 0 {
        return None;
      }
      return Some([]);
    }
    var yearToMaCo2SoFar: seq<YearValue> := [];
    var i := 0;
    ghost var spec := MovingAverages(n, values);
    while i < |values| - n
      invariant 0 <= i <= |spec|
      invariant yearToMaCo2SoFar == spec[..i]
    {
      var average := WeightedWindowAverage(Values(values[i..i + n]));
      assert spec[i] == (values[i].0 + n, average);
      assert spec[..i + 1] == spec[..i] + [spec[i]];
      yearToMaCo2SoFar := yearToMaCo2SoFar + [(values[i].0 + n, average)];
      i := i + 1;
    }
    assert yearToMaCo2SoFar == spec;
    return Some(yearToMaCo2SoFar);
  }

  /** The absolute error of each moving average against the actual value it stands for. */
  function AbsoluteErrors(n: nat, values: seq<YearValue>, averages: seq<YearValue>): seq<real>
    requires |averages| + n <= |values|
  {
    seq(|averages|, i requires 0 <= i < |averages| => Abs(values[i + n].1 - averages[i].1))
  }

  /** Mean absolute deviation of the moving averages from the actual values. */
  function Mad(n: nat, values: seq<YearValue>, averages: seq<YearValue>): real
    requires |averages| + n <= |values| && |averages| > 0
  {
    Sum(AbsoluteErrors(n, values, averages)) / |averages| as real
  }

  /**
   * mean_absolute_deviation_cls: the average absolute error of the moving
   * averages, paired with the window length it scores.
   */
  method MeanAbsoluteDeviation(n: nat, values: seq<YearValue>, averages: seq<YearValue>)
    returns (result: Option<(real, int)>)
    ensures result.None? <==> |averages| == 0 || |averages| + n > |values|
    ensures result.Some? ==> result.value == (Mad(n, values, averages), n)
    ensures result.Some? ==> result.value.0 >= 0.0
  {
    var differencesSoFar: seq<real> := [];
    var i := 0;
    while i < |averages|
      invariant 0 <= i <= |averages|
      invariant i > 0 ==> i - 1 + n < |values|
      invariant i + n <= |values| ==> differencesSoFar == AbsoluteErrors(n, values, averages[..i])
    {
      if i + n >= |values| {
        // value_list[i + n] is out of range: IndexError
        return None;
      }
      assert averages[..i + 1][..i] == averages[..i];
      differencesSoFar := differencesSoFar + [Abs(values[i + n].1 - averages[i].1)];
      i := i + 1;
    }
    if |averages| == 0 {
      // mean of no errors: ZeroDivisionError
      return None;
    }
    assert averages[..i] == averages;
    var mad := Sum(differencesSoFar) / |averages| as real;
    MadNonNegative(n, values, averages);
    return Some((mad, n));
  }

  /** Absolute errors are never negative, so neither is their mean. */
  lemma MadNonNegative(n: nat, values: seq<YearValue>, averages: seq<YearValue>)
    requires |averages| + n <= |values| && |averages| > 0
    ensures Mad(n, values, averages) >= 0.0
  {
    var errors := AbsoluteErrors(n, values, averages);
    SumWithin(errors, 0.0, Maximum(errors));
    DivAtLeast(Sum(errors), |averages| as real, 0.0);
  }

  /** The exclusive upper bound of the window lengths tried for a series of length t. */
  function PeriodLimit(t: nat): (u: nat)
    ensures u <= t && u <= MaxPeriodBound
  {
    if t < MaxPeriodBound then t else MaxPeriodBound
  }

  /** The error of window length n on a series: the MAD of its moving averages. */
  function PeriodError(values: seq<YearValue>, n: nat): real
    requires 1 < n < |values|
  {
    Mad(n, values, MovingAverages(n, values))
  }

  /**
   * n is a tried window length whose error is least, and every smaller tried
   * length has a strictly greater error (ties go to the smallest length).
   */
  predicate IsBestPeriod(values: seq<YearValue>, n: int)
  {
    2 <= n < PeriodLimit(|values|) &&
    (forall m :: 2 <= m < PeriodLimit(|values|) ==> PeriodError(values, n) <= PeriodError(values, m)) &&
    (forall m :: 2 <= m < n ==> PeriodError(values, n) < PeriodError(values, m))
  }

  /** The best window length, when there is one, is unique. */
  lemma BestPeriodUnique(values: seq<YearValue>, a: int, b: int)
    requires IsBestPeriod(values, a) && IsBestPeriod(values, b)
    ensures a == b
  {
    assert PeriodError(values, a) == PeriodError(values, b);
  }

  /** The first least error among the tried lengths, in ascending order, marks the best length. */
  lemma BestPeriodOfErrors(values: seq<YearValue>, errors: seq<real>, k: int)
    requires |errors| + 2 == PeriodLimit(|values|)
    requires forall j :: 0 <= j < |errors| ==> errors[j] == PeriodError(values, j + 2)
    requires IsFirstMinimum(errors, k)
    ensures IsBestPeriod(values, k + 2)
  {
    forall m | 2 <= m < PeriodLimit(|values|)
      ensures PeriodError(values, k + 2) <= PeriodError(values, m)
      ensures m < k + 2 ==> PeriodError(values, k + 2) < PeriodError(values, m)
    {
      assert errors[m - 2] == PeriodError(values, m);
    }
  }

  /** The first loop of ma_period_cls: the moving averages of the lengths 2, 3, ..., count + 1. */
  method AveragesByPeriod(values: seq<YearValue>, count: nat) returns (averagesByPeriod: seq<seq<YearValue>>)
    ensures |averagesByPeriod| == count
    ensures forall j :: 0 <= j < count ==> averagesByPeriod[j] == MovingAverages(j + 2, values)
  {
    averagesByPeriod := [];
    var i := 0;
    while i < count
      invariant 0 <= i <= count
      invariant |averagesByPeriod| == i
      invariant forall j :: 0 <= j < i ==> averagesByPeriod[j] == MovingAverages(j + 2, values)
    {
      var averages := WeightedAverages(i + 2, values);
      averagesByPeriod := averagesByPeriod + [averages.value];
      i := i + 1;
    }
  }

  /** The second loop of ma_period_cls: each length's (error, length) pair, in ascending order of length. */
  method ErrorsByPeriod(values: seq<YearValue>, averagesByPeriod: seq<seq<YearValue>>) returns (madPeriods: seq<(real, int)>)
    requires |averagesByPeriod| == 0 || |averagesByPeriod| + 2 <= |values|
    requires forall j :: 0 <= j < |averagesByPeriod| ==> averagesByPeriod[j] == MovingAverages(j + 2, values)
    ensures |madPeriods| == |averagesByPeriod|
    ensures forall j :: 0 <= j < |madPeriods| ==> madPeriods[j] == (PeriodError(values, j + 2), j + 2)
  {
    madPeriods := [];
    var i := 0;
    while i < |averagesByPeriod|
      invariant 0 <= i <= |averagesByPeriod|
      invariant |madPeriods| == i
      invariant forall j :: 0 <= j < i ==> madPeriods[j] == (PeriodError(values, j + 2), j + 2)
    {
      var madPeriod := MeanAbsoluteDeviation(i + 2, values, averagesByPeriod[i]);
      madPeriods := madPeriods + [madPeriod.value];
      i := i + 1;
    }
  }

  /**
   * ma_period_cls: try every window length 2 <= n < min(T, 9) on the country's
   * CO2 series and return the first one with the least mean absolute deviation.
   * `None` is the ValueError `min` raises when no length can be tried (T <= 2).
   */
  method MaPeriod(country: Country) returns (period: Option<int>)
    ensures period.None? <==> |country.co2Yearly| <= 2
    ensures period.Some? ==> IsBestPeriod(country.co2Yearly, period.value)
  {
    var values := country.co2Yearly;
    var t := |values|;
    var upper := PeriodLimit(t);
    var possibleN := seq(if upper > 2 then upper - 2 else 0, i => i + 2);

    var averagesByPeriod := AveragesByPeriod(values, |possibleN|);
    var madPeriods := ErrorsByPeriod(values, averagesByPeriod);

    if |madPeriods| == 0 {
      return None;
    }
    var errors := seq(|madPeriods|, j requires 0 <= j < |madPeriods| => madPeriods[j].0);
    var k := FirstMinimumIndex(errors);
    period := Some(madPeriods[k].1);
    BestPeriodOfErrors(values, errors, k);
  }

  /**
   * The next forecast entry of a series: the weighted average of its last n
   * entries, dated one year after its last entry.
   */
  function NextForecast(s: seq<YearValue>, n: nat): YearValue
    requires 0 < n <= |s|
  {
    (s[|s| - 1].0 + 1, WeightedAverage(Values(s[|s| - n..])))
  }

  /** A series extended by `steps` forecast entries, each computed from the n entries before it. */
  function Extended(s: seq<YearValue>, n: nat, steps: nat): seq<YearValue>
    requires 0 < n <= |s|
    decreases steps
  {
    if steps == 0 then s else Extended(s + [NextForecast(s, n)], n, steps - 1)
  }

  /**
   * Extending a series adds `steps` entries dated one year apart after the
   * series' last year, each of them the weighted average of the n entries
   * before it.
   */
  lemma {:induction false} ExtendedForecasts(s: seq<YearValue>, n: nat, steps: nat)
    requires 0 < n <= |s|
    ensures |Extended(s, n, steps)| == |s| + steps
    ensures Extended(s, n, steps)[..|s|] == s
    ensures forall k :: |s| <= k < |s| + steps ==>
      Extended(s, n, steps)[k].0 == s[|s| - 1].0 + (k - |s|) + 1 &&
      Extended(s, n, steps)[k].1 == WeightedAverage(Values(Extended(s, n, steps)[k - n..k]))
    decreases steps
  {
    if steps > 0 {
      var s' := s + [NextForecast(s, n)];
      ExtendedForecasts(s', n, steps - 1);
      var r := Extended(s, n, steps);
      assert r == Extended(s', n, steps - 1);
      assert r[..|s'|] == s';
      assert r[|s| - n..|s|] == s[|s| - n..];
    }
  }

  /**
   * Each forecast value lies between the least and the greatest of the n
   * entries it is computed from.
   */
  lemma ExtendedWithin(s: seq<YearValue>, n: nat, steps: nat)
    requires 0 < n <= |s|
    ensures forall k :: |s| <= k < |Extended(s, n, steps)| ==>
      Minimum(Values(Extended(s, n, steps)[k - n..k])) <= Extended(s, n, steps)[k].1
        <= Maximum(Values(Extended(s, n, steps)[k - n..k]))
  {
    ExtendedForecasts(s, n, steps);
    var r := Extended(s, n, steps);
    forall k | |s| <= k < |r|
      ensures Minimum(Values(r[k - n..k])) <= r[k].1 <= Maximum(Values(r[k - n..k]))
    {
      WeightedAverageWithin(Values(r[k - n..k]));
    }
  }

  /** Appending to a series and dropping the oldest of its last n entries gives the new last n entries. */
  lemma SlideWindow(s: seq<YearValue>, x: YearValue, n: nat)
    requires 0 < n <= |s|
    ensures (s[|s| - n..] + [x])[1..] == (s + [x])[|s| + 1 - n..]
  {
  }

  /**
   * wma_prediction_cls: append five forecast years to the series. A buffer
   * holds the last n entries; each step appends the buffer's weighted average,
   * dated one year after the buffer's last year, to both the result and the
   * buffer, and drops the buffer's oldest entry.
   */
  method WmaPrediction(n: int, co2: seq<YearValue>) returns (result: Option<seq<YearValue>>)
    ensures result.None? <==> n <= 0 || n > |co2|
    ensures result.Some? ==> result.value == Extended(co2, n, ForecastYears)
  {
    if n <= 0 {
      // no weight is added: the first forecast divides by a zero total weight
      return None;
    }
    if n > |co2| {
      // the buffer holds fewer than n entries: the weighting loop reads past it (IndexError)
      return None;
    }
    var buffer := co2[|co2| - n..];
    var forecast := co2;
    while |forecast| <= |co2| + 4
      invariant |co2| <= |forecast| <= |co2| + ForecastYears
      invariant |buffer| == n && buffer == forecast[|forecast| - n..]
      invariant Extended(forecast, n, |co2| + ForecastYears - |forecast|) == Extended(co2, n, ForecastYears)
      decreases |co2| + ForecastYears - |forecast|
    {
      var average := WeightedWindowAverage(Values(buffer));
      var next := (buffer[|buffer| - 1].0 + 1, average);
      assert next == NextForecast(forecast, n);
      SlideWindow(forecast, next, n);
      forecast := forecast + [next];
      buffer := buffer + [next];
      buffer := buffer[|buffer| - n..];
    }
    assert forecast == Extended(forecast, n, 0);
    return Some(forecast);
  }

  /**
   * run_wma: look the country up, choose its window length, and forecast.
   * `None` is the KeyError of an unknown country or the failure of the
   * window-length search on a series of at most two years.
   */
  method RunWma(store: Store, country: string) returns (result: Option<seq<YearValue>>)
    ensures result.Some? <==> Lookup(store, country).Some? && |Lookup(store, country).value.co2Yearly| > 2
    ensures result.Some? ==>
      var co2 := Lookup(store, country).value.co2Yearly;
      exists n :: IsBestPeriod(co2, n) && result.value == Extended(co2, n, ForecastYears)
  {
    var record := Lookup(store, country);
    if record.None? {
      return None;
    }
    var period := MaPeriod(record.value);
    if period.None? {
      return None;
    }
    result := WmaPrediction(period.value, record.value.co2Yearly);
  }

  /** The CO2 series of the ma_period_cls doctest, 2015 to 2020. */
  const DoctestSeries: seq<YearValue> :=
    [(2015, 1020.50), (2016, 1067.50), (2017, 1004.75), (2018, 1020.00), (2019, 1040.0), (2020, 1018.0)]

  lemma WeightedSumOfTwo(a: real, b: real)
    ensures WeightedSum([a, b]) == 0.1 * a + 0.2 * b
  {
    assert WeightedSum([a]) == 0.1 * a by {
      assert [a][..0] == [];
    }
    assert [a, b][..1] == [a];
  }

  lemma WeightedSumOfFour(a: real, b: real, c: real, d: real)
    ensures WeightedSum([a, b, c, d]) == 0.1 * a + 0.2 * b + 0.3 * c + 0.4 * d
  {
    WeightedSumOfTwo(a, b);
    assert [a, b, c][..2] == [a, b];
    assert [a, b, c, d][..3] == [a, b, c];
  }

  lemma WeightedAverageOfTwo(a: real, b: real)
    ensures WeightedAverage([a, b]) == (a + 2.0 * b) / 3.0
  {
    WeightedSumOfTwo(a, b);
    assert TotalWeight(2) == 0.3;
  }

  lemma WeightedAverageOfThree(a: real, b: real, c: real)
    ensures WeightedAverage([a, b, c]) == (a + 2.0 * b + 3.0 * c) / 6.0
  {
    WeightedSumOfTwo(a, b);
    assert [a, b, c][..2] == [a, b];
    assert TotalWeight(3) == 0.6;
  }

  lemma WeightedAverageOfFour(a: real, b: real, c: real, d: real)
    ensures WeightedAverage([a, b, c, d]) == (a + 2.0 * b + 3.0 * c + 4.0 * d) / 10.0
  {
    WeightedSumOfFour(a, b, c, d);
    assert TotalWeight(4) == 1.0;
  }

  lemma WeightedAverageOfFive(a: real, b: real, c: real, d: real, e: real)
    ensures WeightedAverage([a, b, c, d, e]) == (a + 2.0 * b + 3.0 * c + 4.0 * d + 5.0 * e) / 15.0
  {
    WeightedSumOfFour(a, b, c, d);
    assert [a, b, c, d, e][..4] == [a, b, c, d];
    assert TotalWeight(5) == 1.5;
  }

  lemma SumOfTwo(a: real, b: real)
    ensures Sum([a, b]) == a + b
  {
    assert Sum([a]) == a by {
      assert [a][..0] == [];
    }
    assert [a, b][..1] == [a];
  }

  lemma SumOfThree(a: real, b: real, c: real)
    ensures Sum([a, b, c]) == a + b + c
  {
    SumOfTwo(a, b);
    assert [a, b, c][..2] == [a, b];
  }

  lemma SumOfFour(a: real, b: real, c: real, d: real)
    ensures Sum([a, b, c, d]) == a + b + c + d
  {
    SumOfThree(a, b, c);
    assert [a, b, c, d][..3] == [a, b, c];
  }

  lemma DoctestErrorOfTwo()
    ensures PeriodError(DoctestSeries, 2) == 559.0 / 24.0
  {
    var v := DoctestSeries;
    var ma := MovingAverages(2, v);
    assert Values(v[0..2]) == [1020.50, 1067.50];
    assert Values(v[1..3]) == [1067.50, 1004.75];
    assert Values(v[2..4]) == [1004.75, 1020.00];
    assert Values(v[3..5]) == [1020.00, 1040.0];
    WeightedAverageOfTwo(1020.50, 1067.50);
    WeightedAverageOfTwo(1067.50, 1004.75);
    WeightedAverageOfTwo(1004.75, 1020.00);
    WeightedAverageOfTwo(1020.00, 1040.0);
    var errors := AbsoluteErrors(2, v, ma);
    assert errors == [Abs(1004.75 - ma[0].1), Abs(1020.00 - ma[1].1), Abs(1040.0 - ma[2].1), Abs(1018.0 - ma[3].1)];
    SumOfFour(errors[0], errors[1], errors[2], errors[3]);
  }

  lemma DoctestErrorOfThree()
    ensures PeriodError(DoctestSeries, 3) == 419.0 / 36.0
  {
    var v := DoctestSeries;
    var ma := MovingAverages(3, v);
    assert Values(v[0..3]) == [1020.50, 1067.50, 1004.75];
    assert Values(v[1..4]) == [1067.50, 1004.75, 1020.00];
    assert Values(v[2..5]) == [1004.75, 1020.00, 1040.0];
    WeightedAverageOfThree(1020.50, 1067.50, 1004.75);
    WeightedAverageOfThree(1067.50, 1004.75, 1020.00);
    WeightedAverageOfThree(1004.75, 1020.00, 1040.0);
    var errors := AbsoluteErrors(3, v, ma);
    assert errors == [Abs(1020.00 - ma[0].1), Abs(1040.0 - ma[1].1), Abs(1018.0 - ma[2].1)];
    SumOfThree(errors[0], errors[1], errors[2]);
  }

  lemma DoctestErrorOfFour()
    ensures PeriodError(DoctestSeries, 4) == 1069.0 / 80.0
  {
    var v := DoctestSeries;
    var ma := MovingAverages(4, v);
    assert Values(v[0..4]) == [1020.50, 1067.50, 1004.75, 1020.00];
    assert Values(v[1..5]) == [1067.50, 1004.75, 1020.00, 1040.0];
    WeightedAverageOfFour(1020.50, 1067.50, 1004.75, 1020.00);
    WeightedAverageOfFour(1067.50, 1004.75, 1020.00, 1040.0);
    var errors := AbsoluteErrors(4, v, ma);
    assert errors == [Abs(1040.0 - ma[0].1), Abs(1018.0 - ma[1].1)];
    SumOfTwo(errors[0], errors[1]);
  }

  lemma DoctestErrorOfFive()
    ensures PeriodError(DoctestSeries, 5) == 719.0 / 60.0
  {
    var v := DoctestSeries;
    var ma := MovingAverages(5, v);
    assert Values(v[0..5]) == [1020.50, 1067.50, 1004.75, 1020.00, 1040.0];
    WeightedAverageOfFive(1020.50, 1067.50, 1004.75, 1020.00, 1040.0);
    var errors := AbsoluteErrors(5, v, ma);
    assert errors == [Abs(1018.0 - ma[0].1)];
    assert errors[..0] == [];
  }

  /**
   * The ma_period_cls doctest: on the six-year series the best window length
   * is 3, so MaPeriod on a record holding it returns 3 (by BestPeriodUnique).
   */
  lemma DoctestBestPeriod()
    ensures IsBestPeriod(DoctestSeries, 3)
  {
    DoctestErrorOfTwo();
    DoctestErrorOfThree();
    DoctestErrorOfFour();
    DoctestErrorOfFive();
    assert PeriodLimit(|DoctestSeries|) == 6;
    var best := PeriodError(DoctestSeries, 3);
    forall m | 2 <= m < 6
      ensures best <= PeriodError(DoctestSeries, m)
    {
      assert m == 2 || m == 3 || m == 4 || m == 5;
    }
    assert best < PeriodError(DoctestSeries, 2);
  }
}

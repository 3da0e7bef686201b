# CO2 forecasting core, modelled in Dafny

This project models the forecasting engine of a CO2-emissions predictor, the
functions of `compute_results.py`. Given a country, the engine forecasts
its CO2 emissions in one of two ways:

- **Weighted moving average (WMA).** It chooses the window length n,
  2 ≤ n < min(T, 9), whose recency-weighted moving averages have the least
  mean absolute deviation (MAD) from the country's CO2 history. It then
  extends the history five years by feeding each forecast back into an
  n-wide window.
- **Related rates (RR).** It looks for other countries whose GDP per capita,
  in some year from 1991 to 2012, came within 100 of the target's latest GDP
  per capita. Two of them are picked, one by the closest population and one
  by the closest GDP growth. Each pick's CO2 growth over the four years after
  its matched year is then compounded onto the target's latest CO2 level.

A selector takes the last n year-on-year CO2 changes and chooses RR when
their mean is at least 20 in size, and WMA otherwise.

The files:

- `data.dfy` (module `Data`): the country record, the record store, and
  dicts as sequences of (key, value) pairs in insertion order. It also holds
  `d[key]` lookup, Python's `sum`, `min`, `max` and slice-start rules, and
  the "first position of the minimum" tie-break both filters use.
- `wma.dfy` (module `Wma`): the weighted moving average path, and the
  `ma_period_cls` doctest worked out exactly.
- `related_rates.dfy` (module `RelatedRates`): the related-rates path.
- `selector.dfy` (module `Selector`): `co2_increase_rate` and
  `determine_algorithm`.

Every Python exception a core entry point can raise becomes `None` of an
`Option` result. Two inner helpers, `RelatedRates.CalcGrowthRate` and
`Wma.WeightedWindowAverage`, instead require a non-zero divisor, which each of
their callers checks first. That covers a `KeyError` for a missing country or year, an
`IndexError`, a `ZeroDivisionError`, and a `ValueError` from `min` of an
empty list. Apart from growth_rate_filter's candidate loop
(compute_results.py:421-425), which becomes the comprehension
`RelatedRates.GrowthGaps` inside the function `RelatedRates.GrowthRateFilter`,
the Python loops are Dafny loops, each proved against a specification
function. The promised properties are proved as lemmas about
those functions.

## Model

| member | source | states |
|---|---|---|
| Data.SliceStart | compute_results.py:602 | the start index Python uses for `l[start:]`: a start in range is kept, a negative one counts from the end, and anything outside is clamped to the list |
| Data.FirstMinimumIndex | compute_results.py:67-71 | "take the minimum, then the first entry equal to it" returns a position holding a least element, and no earlier position holds one |
| Data.FirstMinimumUnique | compute_results.py:389-392 | only one position can be the first minimum, so the tie-break is deterministic |
| Wma.WeightedWindowAverage | compute_results.py:107-117 | the weighting loop, with weights 0.1, 0.2, … up to 0.1·n from oldest to newest, yields the weighted sum divided by the total weight |
| Wma.WeightedAverageWithin | compute_results.py:100-117 | a recency-weighted window average lies between the window's least and greatest value |
| Wma.WeightedAverages | compute_results.py:74-119 | w_average_n_values_cls returns the moving averages of every n-wide window; a window length n ≤ 0 fails (zero total weight) unless no window is formed, which gives `[]` |
| Wma.MovingAveragesWithin | compute_results.py:100-117 | each of the len − n averages (none when the series is no longer than n): entry i is dated values[i].year + n and lies between the min and max of window values[i..i+n) |
| Wma.MeanAbsoluteDeviation | compute_results.py:122-149 | returns (MAD, n), where MAD is the mean of \|actual[i+n] − average[i]\| and is never negative; it fails when an actual value is missing (IndexError) or there are no averages (ZeroDivisionError) |
| Wma.MadNonNegative | compute_results.py:144-147 | the mean absolute deviation is at least 0 |
| Wma.AveragesByPeriod | compute_results.py:56-58 | the first loop of ma_period_cls gives, for each candidate length in ascending order, its moving averages |
| Wma.ErrorsByPeriod | compute_results.py:60-65 | the second loop of ma_period_cls gives, for each candidate length in ascending order, the pair (its MAD, the length) |
| Wma.BestPeriodOfErrors | compute_results.py:67-71 | the first least error in the list of candidate errors marks the best period |
| Wma.MaPeriod | compute_results.py:28-71 | fails exactly when T ≤ 2 (there is no candidate); otherwise returns an n with 2 ≤ n < min(T, 9) whose MAD is ≤ every candidate's and < every smaller candidate's |
| Wma.BestPeriodUnique | compute_results.py:67-71 | at most one length satisfies that description |
| Wma.DoctestBestPeriod | compute_results.py:33-38 | on the doctest series (1020.50, 1067.50, 1004.75, 1020.00, 1040.0, 1018.0) the best period is 3, from the exact MADs 559/24, 419/36, 1069/80 and 719/60 for n = 2…5 that the lemmas Wma.DoctestErrorOfTwo, Wma.DoctestErrorOfThree, Wma.DoctestErrorOfFour and Wma.DoctestErrorOfFive establish |
| Wma.ExtendedForecasts | compute_results.py:182-212 | extending by k forecasts gives length T + k and leaves the first T entries unchanged; forecast entry j is dated last_year + j + 1 and is the weighted average of the n entries before it |
| Wma.ExtendedWithin | compute_results.py:198-210 | each forecast lies between the least and greatest value of the n entries it is computed from |
| Wma.SlideWindow | compute_results.py:206-210 | appending a forecast to the buffer and keeping its last n entries gives the last n entries of the extended series |
| Wma.WmaPrediction | compute_results.py:157-212 | fails for n ≤ 0 (zero total weight) or n > T (the weighting loop reads past the buffer); otherwise returns the series extended by 5 forecasts, and its loop invariant keeps the buffer equal to the last n entries of the extended series |
| Wma.RunWma | compute_results.py:215-237 | fails exactly for an unknown country or a series of at most 2 years; otherwise returns the series extended by 5 forecasts with the best period |
| RelatedRates.CalcGrowthRate | compute_results.py:300-311 | the rate times the old value is the new value, and the rate is positive for positive values |
| RelatedRates.AnalysingInputCountry | compute_results.py:251-297 | succeeds exactly when the country is known, its GDP series is non-empty, and it has a CO2 value for the last GDP year and a non-zero GDP the year before. The result gives the population; the latest year (the last GDP key); the GDP and CO2 that year; the GDP growth into it; and the 5 years latest_year … latest_year+4 |
| RelatedRates.AnalyseRecord | compute_results.py:268-297 | the same, for a record already found |
| RelatedRates.FirstQualifying | compute_results.py:349-356 | returns nothing exactly when no (year, GDP) entry qualifies (a GDP within strictly less than 100 of the target's, and 1991 ≤ year ≤ 2012); otherwise the first qualifying entry in key order |
| RelatedRates.MatchIsStoredGdp | compute_results.py:356 | the GDP stored with a match is the candidate's GDP for the matched year |
| RelatedRates.Comparisons | compute_results.py:346-361 | every key of the comparison map is a country of the store |
| RelatedRates.FindPossibleComparisons | compute_results.py:319-361 | the nested scan, skipping the target, yields exactly the comparison map; it fails exactly when the target's analysis fails |
| RelatedRates.ComparisonsSound | compute_results.py:346-356 | every entry is another country, matched in a year in [1991, 2012], at a GDP within strictly less than 100 of the target's, and that year is its first qualifying one |
| RelatedRates.ComparisonsComplete | compute_results.py:348-356 | every other country with a qualifying year appears, with its first qualifying year |
| RelatedRates.ComparisonsEmpty | compute_results.py:330-331 | the map is empty exactly when no other country has a qualifying year |
| RelatedRates.ComparisonsDistinct | compute_results.py:355-356 | no candidate is entered twice |
| RelatedRates.PopulationFilter | compute_results.py:364-396 | returns a key of the map paired with its matched year; its population gap is ≤ every candidate's and it is the first such in insertion order; it fails on an empty map, an unknown candidate, or a failed analysis |
| RelatedRates.CandidateGrowthRate | compute_results.py:421-425 | succeeds exactly when the candidate is known, both gdp[year−1] and gdp[year] exist, and gdp[year−1] is non-zero (otherwise KeyError or ZeroDivisionError); the rate times gdp[year−1] is then gdp[year] |
| RelatedRates.GrowthRateFilter | compute_results.py:399-438 | the same as PopulationFilter, with the gap being the difference between a candidate's gdp[year]/gdp[year−1] and the target's GDP growth |
| RelatedRates.CandidateCo2Levels | compute_results.py:467-473 | the candidate's CO2 values in its matched year and the 4 years after; none if one of them is missing |
| RelatedRates.Ratios | compute_results.py:477-480 | 4 rates from 5 levels, each rate times its level being the next level |
| RelatedRates.ComparisonCountryAnalysis | compute_results.py:447-482 | fails exactly when a year is missing or one of the first four levels is zero; otherwise returns the 4 year-on-year ratios co2[y+i+1]/co2[y+i] |
| RelatedRates.CompoundStep | compute_results.py:510-511 | predicted[i] = predicted[i−1] · rate[i−1] |
| RelatedRates.PredictCo2Levels | compute_results.py:485-516 | fails exactly when the analysis fails or fewer than 4 rates are given; otherwise returns 5 pairs for years latest_year … latest_year+4, with predicted[0] the latest CO2 and predicted[i] that value compounded by the first i rates |
| RelatedRates.ProductTelescopes | compute_results.py:479-480 | compounding a level series' own ratios onto its first level gives back the series |
| RelatedRates.CompoundingFollowsLevels | compute_results.py:508-514 | a prediction compounded from a candidate's ratios follows that candidate's levels: predicted[i] / latest_co2 = level[i] / level[0] |
| RelatedRates.LastFive | compute_results.py:566 | `l[-5:len(l)]` gives the last five entries, or all of a shorter list |
| RelatedRates.FollowsCandidateUnique | compute_results.py:508-514 | a prediction that follows a pick whose first four CO2 levels are non-zero is unique: value i is the latest CO2 times level[i] / level[0] |
| RelatedRates.BuildsForecastMap | compute_results.py:570 | the dict literal, built from the last five CO2 pairs and two following predictions, has the keys {'dataset', a, b} with those values |
| RelatedRates.ForecastMapSize | compute_results.py:568-570 | the map has 2 keys when both filters pick the same country and 3 otherwise |
| RelatedRates.RunRelatedRates | compute_results.py:524-570 | fails when the analysis fails. Otherwise it returns the empty map exactly when there are no comparisons. With comparisons, it succeeds exactly when both filters succeed and each pick has CO2 values for its matched year and the 4 years after, the first four non-zero. The keys are then {'dataset', a, b}, where a and b are the two filters' picks. 'dataset' holds the last 5 CO2 pairs, and each pick's prediction follows that pick's CO2 growth (which fixes it) |
| Selector.Co2IncreaseRate | compute_results.py:580-611 | fails for an unknown country; otherwise returns the consecutive differences of `values[T − n − 1:T]` under Python's slice rules |
| Selector.RecentDifferences | compute_results.py:602-609 | for 0 ≤ n < T the result has n entries, entry i being co2[T−n+i] − co2[T−n−1+i] |
| Selector.DifferencesTelescope | compute_results.py:608-609 | the changes sum to the last value minus the first |
| Selector.DetermineAlgorithm | compute_results.py:614-625 | fails (ZeroDivisionError) exactly on an empty list |
| Selector.MeanAtLeast | compute_results.py:620-622 | \|mean\| ≥ 20 exactly when \|sum\| ≥ 20 · count |
| Selector.DetermineAlgorithmByTotal | compute_results.py:620-625 | RR exactly when \|sum\| ≥ 20 · count, the boundary included; WMA exactly when it is below |
| Selector.SteadyRiseSelectsRelatedRates | compute_results.py:622-623 | if every change is at least 20, RR is chosen |
| Selector.SmallChangesSelectWeightedAverage | compute_results.py:625 | if every change is below 20 in size, WMA is chosen |
| Selector.SelectionByEndpoints | compute_results.py:580-625 | over a list of levels, RR is chosen exactly when the first and last levels lie at least 20 × (number of changes) apart |

## Left out

- The tkinter GUI (main.py), the plotly rendering (display_results.py) and the WHO web scraper are not part of this model. They are I/O and presentation.
- CSV loading (`get_all_data`, `read_data`) is not part of this model. The record store is an explicit parameter. A Python dict is a sequence of (key, value) pairs in insertion order, and `d[key]` is the first matching pair; for a dict, whose keys are distinct, that is the stored value.
- Floating point: all values are exact reals. The isclose tolerances of the doctests have no counterpart.
- Wma.WmaPrediction: the forecast loop compares the unrounded float `user_n * 10` at compute_results.py:198, where the averaging loop compares `round(user_n * 10)` at compute_results.py:111. With IEEE arithmetic, n = 7 takes an eighth weighting step and indexes past the n-entry buffer, raising IndexError; n = 9 and n = 10 over-run the same way, though `ma_period_cls` never returns them, so `run_wma` fails whenever the best period is 7. With exact reals that step never happens; the model takes exactly n weights.
- The doctests that need the real data set ('Canada', 'India', 'Russia', 'China', 'United States') are not modelled. The `ma_period_cls` doctest, which carries its own data, is (Wma.DoctestBestPeriod).
- RelatedRates.FindPossibleComparisons: the `data.pop(country)` / re-insert at compute_results.py:346 and 359 is modelled as skipping the target in the scan. The target's move to the end of the global dict's order, visible to later calls, is not modelled, since the store is an immutable parameter.
- RelatedRates.FindPossibleComparisons takes a scanned entry's value, where the source looks the year up again. The two agree when the years of a series are distinct, as they are in a dict (RelatedRates.MatchIsStoredGdp).
- RelatedRates.FindPossibleComparisons and RelatedRates.RunRelatedRates require a store with distinct names, as the global dict has.
- Wma.MaPeriod and Wma.WmaPrediction take the country record or its CO2 series itself. The source takes a one-entry dict and uses its first value.
- Wma.MeanAbsoluteDeviation: the window length is a natural number. Negative lengths, which Python would turn into negative indices, are not modelled.
- RelatedRates.PopulationFilter: populations are integers, compared by the real size of their difference.
- RelatedRates.RunRelatedRates: the result is a Dafny map, so the key order of the Python dict is not modelled. Overwriting a key follows the dict literal's order.
- RelatedRates.PredictCo2Levels: its contract gives each predicted level as the latest CO2 compounded by the first i rates. The recurrence predicted[i] = predicted[i−1] · rate[i−1] is stated as RelatedRates.CompoundStep.
- Selector.DetermineAlgorithm: the strings 'RR' and 'WMA' are the two constructors of a datatype.

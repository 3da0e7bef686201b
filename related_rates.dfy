/**
 * The related-rates strategy: find countries whose GDP per capita once stood
 * where the target's stands now, pick one by population and one by GDP growth,
 * and compound each one's CO2 growth from its matched year onto the target's
 * latest CO2 level.
 */
module RelatedRates {
  import opened Data

  /** A candidate's GDP per capita must come within this distance of the target's. */
  const GdpTolerance: real := 100.0
  /** The matched year must leave at least four later years of CO2 data. */
  const FirstMatchYear: int := 1991
  const LastMatchYear: int := 2012
  /** The result key holding the target's own recent CO2 values. */
  const DatasetKey: string := "dataset"
  /** Number of predicted (year, CO2) pairs, the latest known year included. */
  const PredictedYears: int := 5

  /** What analysing_input_country extracts from the target's record. */
  datatype InputAnalysis = InputAnalysis(
    population: int,
    latestYear: int,
    latestGdp: real,
    latestCo2: real,
    gdpGrowthRate: real,
    predictionYears: seq<int>)

  /** The year-on-year growth of a value: the ratio of the new value to the old. */
  function CalcGrowthRate(value1: real, value2: real): (rate: real)
    requires value1 != 0.0
    ensures rate * value1 == value2
    ensures value1 > 0.0 && value2 > 0.0 ==> rate > 0.0
  {
    value2 / value1
  }

  /**
   * The target's population, latest GDP year (the last key of its GDP
   * series), GDP and CO2 that year, GDP growth into that year, and the five
   * years a prediction covers. `None` is the KeyError of an unknown country or
   * a missing year, the IndexError of an empty GDP series, or the
   * ZeroDivisionError of a zero penultimate GDP.
   */
  function AnalysingInputCountry(store: Store, country: string): (r: Option<InputAnalysis>)
    ensures r.Some? <==> Lookup(store, country).Some? && Analysable(Lookup(store, country).value)
    ensures r.Some? ==> IsAnalysisOf(r.value, Lookup(store, country).value)
  {
    match Lookup(store, country)
    case None => None
    case Some(record) => AnalyseRecord(record)
  }

  /** The record has the latest-year GDP and CO2 values and a non-zero GDP the year before. */
  predicate Analysable(record: Country)
  {
    |record.gdpYearly| > 0 &&
    var latestYear := record.gdpYearly[|record.gdpYearly| - 1].0;
    Lookup(record.co2Yearly, latestYear).Some? &&
    Lookup(record.gdpYearly, latestYear - 1).Some? &&
    Lookup(record.gdpYearly, latestYear - 1).value != 0.0
  }

  /** What the analysis of a record states about it. */
  predicate IsAnalysisOf(a: InputAnalysis, record: Country)
  {
    |record.gdpYearly| > 0 &&
    a.population == record.population &&
    a.latestYear == record.gdpYearly[|record.gdpYearly| - 1].0 &&
    Lookup(record.gdpYearly, a.latestYear) == Some(a.latestGdp) &&
    Lookup(record.co2Yearly, a.latestYear) == Some(a.latestCo2) &&
    Lookup(record.gdpYearly, a.latestYear - 1).Some? &&
    a.gdpGrowthRate * Lookup(record.gdpYearly, a.latestYear - 1).value == a.latestGdp &&
    |a.predictionYears| == PredictedYears &&
    forall i :: 0 <= i < PredictedYears ==> a.predictionYears[i] == a.latestYear + i
  }

  /** analysing_input_country once the record is found. */
  function AnalyseRecord(record: Country): (r: Option<InputAnalysis>)
    ensures r.Some? <==> Analysable(record)
    ensures r.Some? ==> IsAnalysisOf(r.value, record)
  {
    if |record.gdpYearly| == 0 then None
    else
      var latestYear := record.gdpYearly[|record.gdpYearly| - 1].0;
      LookupFinds(record.gdpYearly, latestYear);
      var latestGdp := Lookup(record.gdpYearly, latestYear).value;
      match Lookup(record.co2Yearly, latestYear)
      case None => None
      case Some(latestCo2) =>
        match Lookup(record.gdpYearly, latestYear - 1)
        case None => None
        case Some(penultimateGdp) =>
          if penultimateGdp == 0.0 then None
          else
            Some(InputAnalysis(
              record.population,
              latestYear,
              latestGdp,
              latestCo2,
              CalcGrowthRate(penultimateGdp, latestGdp),
              seq(PredictedYears, n => latestYear + n)))
  }

  /** A candidate's matched year and its GDP per capita that year. */
  datatype Match = Match(year: int, gdp: real)

  /** A (year, GDP) entry close enough to the target's latest GDP, in the allowed years. */
  predicate Qualifies(entry: YearValue, latestGdp: real)
  {
    Abs(entry.1 - latestGdp) < GdpTolerance && FirstMatchYear <= entry.0 <= LastMatchYear
  }

  /** The first qualifying entry of a GDP series, in key order. */
  function FirstQualifying(gdp: seq<YearValue>, latestGdp: real): (r: Option<Match>)
    ensures r.None? <==> forall i :: 0 <= i < |gdp| ==> !Qualifies(gdp[i], latestGdp)
    ensures r.Some? ==>
      exists i :: 0 <= i < |gdp| && Qualifies(gdp[i], latestGdp) && r.value == Match(gdp[i].0, gdp[i].1) &&
        forall j :: 0 <= j < i ==> !Qualifies(gdp[j], latestGdp)
  {
    if |gdp| == 0 then None
    else
      var earlier := FirstQualifying(gdp[..|gdp| - 1], latestGdp);
      assert forall i :: 0 <= i < |gdp| - 1 ==> gdp[..|gdp| - 1][i] == gdp[i];
      if earlier.Some? then earlier
      else if Qualifies(gdp[|gdp| - 1], latestGdp) then Some(Match(gdp[|gdp| - 1].0, gdp[|gdp| - 1].1))
      else None
  }

  /** The GDP stored with a match is the candidate's GDP for the matched year. */
  lemma MatchIsStoredGdp(gdp: seq<YearValue>, latestGdp: real)
    requires DistinctKeys(gdp) && FirstQualifying(gdp, latestGdp).Some?
    ensures Lookup(gdp, FirstQualifying(gdp, latestGdp).value.year) == Some(FirstQualifying(gdp, latestGdp).value.gdp)
  {
    var m := FirstQualifying(gdp, latestGdp).value;
    var i :| 0 <= i < |gdp| && Qualifies(gdp[i], latestGdp) && m == Match(gdp[i].0, gdp[i].1);
    LookupDistinct(gdp, m.year, i);
  }

  /** The entry a candidate contributes: none, or its first match. */
  function Found(candidate: string, m: Option<Match>): seq<(string, Match)>
  {
    if m.None? then [] else [(candidate, m.value)]
  }

  /**
   * The comparison map find_possible_comparisons builds, in insertion order:
   * every country of the store other than the target that has a qualifying
   * year, with its first one.
   */
  function Comparisons(store: Store, country: string, latestGdp: real): (r: seq<(string, Match)>)
    ensures forall k :: 0 <= k < |r| ==> exists i :: 0 <= i < |store| && store[i].0 == r[k].0
  {
    if |store| == 0 then []
    else
      var rest := Comparisons(store[..|store| - 1], country, latestGdp);
      assert forall i :: 0 <= i < |store| - 1 ==> store[..|store| - 1][i] == store[i];
      var last := store[|store| - 1];
      if last.0 == country then rest
      else rest + Found(last.0, FirstQualifying(last.1.gdpYearly, latestGdp))
  }

  /** One more GDP entry: the first match so far, or this entry if it is the first to qualify. */
  lemma FirstQualifyingStep(gdp: seq<YearValue>, j: int, latestGdp: real)
    requires 0 <= j < |gdp|
    ensures FirstQualifying(gdp[..j + 1], latestGdp) ==
      if FirstQualifying(gdp[..j], latestGdp).Some? then FirstQualifying(gdp[..j], latestGdp)
      else if Qualifies(gdp[j], latestGdp) then Some(Match(gdp[j].0, gdp[j].1))
      else None
  {
    assert gdp[..j + 1][..j] == gdp[..j];
  }

  /**
   * One step of the scan of a candidate's GDP series: the entry is added
   * exactly when it qualifies and the candidate is not yet a key, which keeps
   * the map equal to the earlier countries' entries plus the first match so far.
   */
  lemma ScanStep(before: seq<(string, Match)>, possible: seq<(string, Match)>, candidate: string,
                 gdp: seq<YearValue>, j: int, latestGdp: real)
    requires 0 <= j < |gdp|
    requires forall k :: 0 <= k < |before| ==> before[k].0 != candidate
    requires possible == before + Found(candidate, FirstQualifying(gdp[..j], latestGdp))
    ensures Qualifies(gdp[j], latestGdp) && Lookup(possible, candidate).None? ==>
      possible + [(candidate, Match(gdp[j].0, gdp[j].1))] == before + Found(candidate, FirstQualifying(gdp[..j + 1], latestGdp))
    ensures !(Qualifies(gdp[j], latestGdp) && Lookup(possible, candidate).None?) ==>
      possible == before + Found(candidate, FirstQualifying(gdp[..j + 1], latestGdp))
  {
    FirstQualifyingStep(gdp, j, latestGdp);
    var sofar := FirstQualifying(gdp[..j], latestGdp);
    if sofar.Some? {
      assert possible[|before|].0 == candidate;
      LookupFinds(possible, candidate);
    } else {
      assert possible == before;
      LookupFinds(possible, candidate);
    }
  }

  /** One more store entry: the comparisons grow by what that entry contributes. */
  lemma ComparisonsStep(store: Store, i: int, country: string, latestGdp: real)
    requires 0 <= i < |store|
    ensures Comparisons(store[..i + 1], country, latestGdp) ==
      Comparisons(store[..i], country, latestGdp) +
      (if store[i].0 == country then [] else Found(store[i].0, FirstQualifying(store[i].1.gdpYearly, latestGdp)))
  {
    assert store[..i + 1][..i] == store[..i];
  }

  /** A later store entry's name is not yet a key of the comparisons. */
  lemma ComparisonsOmitLater(store: Store, i: int, country: string, latestGdp: real)
    requires DistinctKeys(store) && 0 <= i < |store|
    ensures forall k :: 0 <= k < |Comparisons(store[..i], country, latestGdp)| ==>
      Comparisons(store[..i], country, latestGdp)[k].0 != store[i].0
  {
    var r := Comparisons(store[..i], country, latestGdp);
    forall k | 0 <= k < |r|
      ensures r[k].0 != store[i].0
    {
      var idx :| 0 <= idx < i && store[..i][idx].0 == r[k].0;
      assert store[idx].0 == r[k].0;
    }
  }

  /**
   * find_possible_comparisons: every other country of the store, scanned in
   * order, gets an entry at its first GDP year within tolerance in the allowed
   * range; the target itself is skipped. `None` when the target's analysis fails.
   */
  method FindPossibleComparisons(store: Store, country: string) returns (comparisons: Option<seq<(string, Match)>>)
    requires DistinctKeys(store)
    ensures comparisons.Some? <==> AnalysingInputCountry(store, country).Some?
    ensures comparisons.Some? ==>
      comparisons.value == Comparisons(store, country, AnalysingInputCountry(store, country).value.latestGdp)
  {
    var analysis := AnalysingInputCountry(store, country);
    if analysis.None? {
      return None;
    }
    var latestGdp := analysis.value.latestGdp;
    var possible: seq<(string, Match)> := [];
    var i := 0;
    while i < |store|
      invariant 0 <= i <= |store|
      invariant possible == Comparisons(store[..i], country, latestGdp)
    {
      var candidate := store[i].0;
      var gdpYearly := store[i].1.gdpYearly;
      if candidate != country {
        ComparisonsOmitLater(store, i, country, latestGdp);
        ghost var before := possible;
        var j := 0;
        while j < |gdpYearly|
          invariant 0 <= j <= |gdpYearly|
          invariant possible == before + Found(candidate, FirstQualifying(gdpYearly[..j], latestGdp))
        {
          ScanStep(before, possible, candidate, gdpYearly, j, latestGdp);
          if Qualifies(gdpYearly[j], latestGdp) && Lookup(possible, candidate).None? {
            possible := possible + [(candidate, Match(gdpYearly[j].0, gdpYearly[j].1))];
          }
          j := j + 1;
        }
        assert gdpYearly[..j] == gdpYearly;
      }
      ComparisonsStep(store, i, country, latestGdp);
      i := i + 1;
    }
    assert store[..i] == store;
    return Some(possible);
  }

  /**
   * A comparison entry is another country of the store, matched in an allowed
   * year at a GDP within tolerance, and the match is its first qualifying entry.
   */
  predicate SoundEntry(store: Store, country: string, latestGdp: real, entry: (string, Match))
  {
    entry.0 != country &&
    FirstMatchYear <= entry.1.year <= LastMatchYear &&
    Abs(entry.1.gdp - latestGdp) < GdpTolerance &&
    exists i :: 0 <= i < |store| && store[i].0 == entry.0 &&
      FirstQualifying(store[i].1.gdpYearly, latestGdp) == Some(entry.1)
  }

  /** Every comparison is a sound entry. */
  lemma {:induction false} ComparisonsSound(store: Store, country: string, latestGdp: real)
    ensures forall k :: 0 <= k < |Comparisons(store, country, latestGdp)| ==>
      SoundEntry(store, country, latestGdp, Comparisons(store, country, latestGdp)[k])
  {
    if |store| > 0 {
      var prefix := store[..|store| - 1];
      ComparisonsSound(prefix, country, latestGdp);
      var rest := Comparisons(prefix, country, latestGdp);
      var last := store[|store| - 1];
      var r := Comparisons(store, country, latestGdp);
      assert r == if last.0 == country then rest else rest + Found(last.0, FirstQualifying(last.1.gdpYearly, latestGdp));
      forall k | 0 <= k < |r|
        ensures SoundEntry(store, country, latestGdp, r[k])
      {
        if k < |rest| {
          assert r[k] == rest[k];
          assert SoundEntry(prefix, country, latestGdp, rest[k]);
          var i :| 0 <= i < |prefix| && prefix[i].0 == rest[k].0 &&
            FirstQualifying(prefix[i].1.gdpYearly, latestGdp) == Some(rest[k].1);
          assert store[i] == prefix[i];
        } else {
          var m := FirstQualifying(last.1.gdpYearly, latestGdp);
          assert r[k] == (last.0, m.value);
          var y :| 0 <= y < |last.1.gdpYearly| && Qualifies(last.1.gdpYearly[y], latestGdp) &&
            m.value == Match(last.1.gdpYearly[y].0, last.1.gdpYearly[y].1);
          assert store[|store| - 1].0 == r[k].0;
        }
      }
    }
  }

  /** Every other country of the store with a qualifying year is among the comparisons. */
  lemma {:induction false} ComparisonsComplete(store: Store, country: string, latestGdp: real)
    ensures forall i :: (0 <= i < |store| && store[i].0 != country &&
                         FirstQualifying(store[i].1.gdpYearly, latestGdp).Some?) ==>
      (store[i].0, FirstQualifying(store[i].1.gdpYearly, latestGdp).value) in Comparisons(store, country, latestGdp)
  {
    if |store| > 0 {
      var prefix := store[..|store| - 1];
      ComparisonsComplete(prefix, country, latestGdp);
      forall i | 0 <= i < |store| - 1
        ensures store[i] == prefix[i]
      {
      }
    }
  }

  /**
   * No comparisons exactly when no other country of the store has a GDP year
   * that qualifies, as for the richest country of the data set.
   */
  lemma ComparisonsEmpty(store: Store, country: string, latestGdp: real)
    ensures Comparisons(store, country, latestGdp) == [] <==>
      forall i, y :: 0 <= i < |store| && store[i].0 != country && 0 <= y < |store[i].1.gdpYearly| ==>
        !Qualifies(store[i].1.gdpYearly[y], latestGdp)
  {
    ComparisonsSound(store, country, latestGdp);
    ComparisonsComplete(store, country, latestGdp);
  }

  /** Distinct store names give distinct comparison keys: the comparisons form a dict. */
  lemma {:induction false} ComparisonsDistinct(store: Store, country: string, latestGdp: real)
    requires DistinctKeys(store)
    ensures DistinctKeys(Comparisons(store, country, latestGdp))
  {
    if |store| > 0 {
      var prefix := store[..|store| - 1];
      assert DistinctKeys(prefix) by {
        forall i, j | 0 <= i < j < |prefix|
          ensures prefix[i].0 != prefix[j].0
        {
          assert prefix[i] == store[i] && prefix[j] == store[j];
        }
      }
      ComparisonsDistinct(prefix, country, latestGdp);
      ComparisonsOmitLater(store, |store| - 1, country, latestGdp);
      assert store[..|store| - 1] == prefix;
    }
  }

  /** Every candidate of the map is a country of the store: `data[candidate]` succeeds. */
  predicate Known(store: Store, comparisons: seq<(string, Match)>)
  {
    forall k :: 0 <= k < |comparisons| ==> Lookup(store, comparisons[k].0).Some?
  }

  /** The population gaps between each candidate and the target, in insertion order. */
  function PopulationGaps(store: Store, comparisons: seq<(string, Match)>, population: int): (gaps: seq<real>)
    requires Known(store, comparisons)
    ensures |gaps| == |comparisons|
  {
    seq(|comparisons|, k requires 0 <= k < |comparisons| =>
      Abs((Lookup(store, comparisons[k].0).value.population - population) as real))
  }

  /**
   * population_filter: the candidate whose population is closest to the
   * target's, the first such in insertion order, with its matched year.
   * `None` when the analysis fails, a candidate is unknown, or the map is
   * empty (`min` of an empty list).
   */
  function PopulationFilter(store: Store, country: string, comparisons: seq<(string, Match)>): (r: Option<(string, int)>)
    ensures r.Some? <==>
      AnalysingInputCountry(store, country).Some? && |comparisons| > 0 && Known(store, comparisons)
    ensures r.Some? ==>
      exists k :: IsFirstMinimum(PopulationGaps(store, comparisons, AnalysingInputCountry(store, country).value.population), k) &&
        r.value.0 == comparisons[k].0
    ensures r.Some? ==>
      Lookup(comparisons, r.value.0).Some? && Lookup(comparisons, r.value.0).value.year == r.value.1
    ensures r.Some? && DistinctKeys(comparisons) ==>
      exists k :: IsFirstMinimum(PopulationGaps(store, comparisons, AnalysingInputCountry(store, country).value.population), k) &&
        r.value == (comparisons[k].0, comparisons[k].1.year)
  {
    match AnalysingInputCountry(store, country)
    case None => None
    case Some(analysis) =>
      if |comparisons| == 0 || !Known(store, comparisons) then None
      else
        var gaps := PopulationGaps(store, comparisons, analysis.population);
        var identified := comparisons[FirstMinimumIndex(gaps)].0;
        LookupFinds(comparisons, identified);
        Some((identified, Lookup(comparisons, identified).value.year))
  }

  /**
   * A candidate's GDP growth into its matched year, gdp[year] / gdp[year - 1];
   * `None` for an unknown candidate, a missing year or a zero divisor.
   */
  function CandidateGrowthRate(store: Store, candidate: string, year: int): (r: Option<real>)
    ensures r.Some? <==>
      Lookup(store, candidate).Some? &&
      var gdp := Lookup(store, candidate).value.gdpYearly;
      Lookup(gdp, year - 1).Some? && Lookup(gdp, year).Some? && Lookup(gdp, year - 1).value != 0.0
    ensures r.Some? ==>
      Lookup(store, candidate).Some? &&
      var gdp := Lookup(store, candidate).value.gdpYearly;
      Lookup(gdp, year - 1).Some? && Lookup(gdp, year).Some? &&
      r.value * Lookup(gdp, year - 1).value == Lookup(gdp, year).value
  {
    match Lookup(store, candidate)
    case None => None
    case Some(record) =>
      match Lookup(record.gdpYearly, year - 1)
      case None => None
      case Some(previous) =>
        match Lookup(record.gdpYearly, year)
        case None => None
        case Some(current) =>
          if previous == 0.0 then None else Some(CalcGrowthRate(previous, current))
  }

  /** Every candidate's growth rate can be computed. */
  predicate GrowthKnown(store: Store, comparisons: seq<(string, Match)>)
  {
    forall k :: 0 <= k < |comparisons| ==>
      CandidateGrowthRate(store, comparisons[k].0, comparisons[k].1.year).Some?
  }

  /** The gaps between each candidate's growth rate and the target's, in insertion order. */
  function GrowthGaps(store: Store, comparisons: seq<(string, Match)>, growthRate: real): (gaps: seq<real>)
    requires GrowthKnown(store, comparisons)
    ensures |gaps| == |comparisons|
  {
    seq(|comparisons|, k requires 0 <= k < |comparisons| =>
      Abs(growthRate - CandidateGrowthRate(store, comparisons[k].0, comparisons[k].1.year).value))
  }

  /**
   * growth_rate_filter: the candidate whose GDP growth into its matched year
   * is closest to the target's latest GDP growth, the first such in insertion
   * order, with its matched year.
   */
  function GrowthRateFilter(store: Store, country: string, comparisons: seq<(string, Match)>): (r: Option<(string, int)>)
    ensures r.Some? <==>
      AnalysingInputCountry(store, country).Some? && |comparisons| > 0 && GrowthKnown(store, comparisons)
    ensures r.Some? ==>
      exists k :: IsFirstMinimum(GrowthGaps(store, comparisons, AnalysingInputCountry(store, country).value.gdpGrowthRate), k) &&
        r.value.0 == comparisons[k].0
    ensures r.Some? ==>
      Lookup(comparisons, r.value.0).Some? && Lookup(comparisons, r.value.0).value.year == r.value.1
    ensures r.Some? && DistinctKeys(comparisons) ==>
      exists k :: IsFirstMinimum(GrowthGaps(store, comparisons, AnalysingInputCountry(store, country).value.gdpGrowthRate), k) &&
        r.value == (comparisons[k].0, comparisons[k].1.year)
  {
    match AnalysingInputCountry(store, country)
    case None => None
    case Some(analysis) =>
      if |comparisons| == 0 || !GrowthKnown(store, comparisons) then None
      else
        var gaps := GrowthGaps(store, comparisons, analysis.gdpGrowthRate);
        var identified := comparisons[FirstMinimumIndex(gaps)].0;
        LookupFinds(comparisons, identified);
        Some((identified, Lookup(comparisons, identified).value.year))
  }

  /** `co2_yearly[year + n]`. */
  function Co2After(co2Yearly: seq<YearValue>, year: int, n: int): Option<real>
  {
    Lookup(co2Yearly, year + n)
  }

  /**
   * The candidate's CO2 levels in its matched year and the four years after;
   * `None` for an unknown candidate or a missing year.
   */
  function CandidateCo2Levels(store: Store, info: (string, int)): (r: Option<seq<real>>)
    ensures r.Some? <==>
      Lookup(store, info.0).Some? &&
      forall n :: 0 <= n < PredictedYears ==> Co2After(Lookup(store, info.0).value.co2Yearly, info.1, n).Some?
    ensures r.Some? ==>
      |r.value| == PredictedYears &&
      forall n :: 0 <= n < PredictedYears ==>
        Co2After(Lookup(store, info.0).value.co2Yearly, info.1, n) == Some(r.value[n])
  {
    match Lookup(store, info.0)
    case None => None
    case Some(record) =>
      if forall n :: 0 <= n < PredictedYears ==> Co2After(record.co2Yearly, info.1, n).Some? then
        Some(seq(PredictedYears, n requires 0 <= n < PredictedYears => Co2After(record.co2Yearly, info.1, n).value))
      else None
  }

  /** Each level times its rate is the next level: `rates` are the year-on-year ratios of `levels`. */
  predicate GrowsBy(levels: seq<real>, rates: seq<real>)
  {
    |levels| == |rates| + 1 &&
    forall i :: 0 <= i < |rates| ==> rates[i] * levels[i] == levels[i + 1]
  }

  /** The year-on-year ratios of a list of levels, none of which but the last is zero. */
  function Ratios(levels: seq<real>): (rates: seq<real>)
    requires |levels| > 0
    requires forall i :: 0 <= i < |levels| - 1 ==> levels[i] != 0.0
    ensures GrowsBy(levels, rates)
  {
    seq(|levels| - 1, i requires 0 <= i < |levels| - 1 => CalcGrowthRate(levels[i], levels[i + 1]))
  }

  /**
   * The candidate's CO2 levels from its matched year exist and none of the
   * first four is zero: comparison_country_analysis can divide by each.
   */
  predicate Forecastable(store: Store, info: (string, int))
  {
    CandidateCo2Levels(store, info).Some? &&
    forall i :: 0 <= i < PredictedYears - 1 ==> CandidateCo2Levels(store, info).value[i] != 0.0
  }

  /**
   * comparison_country_analysis: the four year-on-year CO2 ratios of the
   * candidate from its matched year. `None` for a missing country or year,
   * or a zero level before the last (ZeroDivisionError).
   */
  method ComparisonCountryAnalysis(store: Store, info: (string, int)) returns (rates: Option<seq<real>>)
    ensures rates.Some? <==> Forecastable(store, info)
    ensures rates.Some? ==> rates.value == Ratios(CandidateCo2Levels(store, info).value)
  {
    var candidate := Lookup(store, info.0);
    if candidate.None? {
      return None;
    }
    var co2Yearly := candidate.value.co2Yearly;
    var comparativeYears := seq(PredictedYears, n => info.1 + n);
    var co2Levels: seq<real> := [];
    for i := 0 to PredictedYears
      invariant |co2Levels| == i
      invariant forall n :: 0 <= n < i ==> Co2After(co2Yearly, info.1, n) == Some(co2Levels[n])
    {
      var level := Lookup(co2Yearly, comparativeYears[i]);
      assert level == Co2After(co2Yearly, info.1, i);
      if level.None? {
        return None;
      }
      co2Levels := co2Levels + [level.value];
    }
    assert CandidateCo2Levels(store, info) == Some(co2Levels) by {
      assert forall n :: 0 <= n < PredictedYears ==> Co2After(co2Yearly, info.1, n).Some?;
      var expected := CandidateCo2Levels(store, info);
      assert expected.Some?;
      assert expected.value == co2Levels;
    }
    var growthRates := new real[PredictedYears - 1](_ => 0.0);
    for i := 0 to PredictedYears - 1
      invariant forall j :: 0 <= j < i ==> co2Levels[j] != 0.0
      invariant forall j :: 0 <= j < i ==> growthRates[j] == CalcGrowthRate(co2Levels[j], co2Levels[j + 1])
    {
      if co2Levels[i] == 0.0 {
        return None;
      }
      growthRates[i] := CalcGrowthRate(co2Levels[i], co2Levels[i + 1]);
    }
    assert growthRates[..] == Ratios(co2Levels);
    return Some(growthRates[..]);
  }

  /** The product of a list of ratios, left to right, starting from 1. */
  function Product(s: seq<real>): real
  {
    if |s| == 0 then 1.0 else Product(s[..|s| - 1]) * s[|s| - 1]
  }

  /** A start value after compounding the first `count` ratios onto it. */
  function Compound(start: real, rates: seq<real>, count: nat): real
    requires count <= |rates|
  {
    start * Product(rates[..count])
  }

  /** Compounding one more ratio multiplies by it: each predicted level is the previous one times a ratio. */
  lemma CompoundStep(start: real, rates: seq<real>, count: nat)
    requires 0 < count <= |rates|
    ensures Compound(start, rates, count) == Compound(start, rates, count - 1) * rates[count - 1]
  {
    assert rates[..count][..count - 1] == rates[..count - 1];
    assert Product(rates[..count]) == Product(rates[..count - 1]) * rates[count - 1];
  }

  /**
   * predict_co2_levels: five (year, CO2) pairs from the target's latest year,
   * starting at its latest CO2 level and multiplying by one ratio per year.
   * `None` when the analysis fails or fewer than four ratios are given
   * (IndexError).
   */
  method PredictCo2Levels(store: Store, country: string, growthRates: seq<real>) returns (prediction: Option<seq<YearValue>>)
    ensures prediction.Some? <==> AnalysingInputCountry(store, country).Some? && |growthRates| >= PredictedYears - 1
    ensures prediction.Some? ==>
      var analysis := AnalysingInputCountry(store, country).value;
      var p := prediction.value;
      |p| == PredictedYears &&
      p[0].1 == analysis.latestCo2 &&
      (forall i :: 0 <= i < PredictedYears ==> p[i].0 == analysis.latestYear + i) &&
      forall i :: 0 <= i < PredictedYears ==> p[i].1 == Compound(analysis.latestCo2, growthRates, i)
  {
    var analysis := AnalysingInputCountry(store, country);
    if analysis.None? {
      return None;
    }
    var latestCo2 := analysis.value.latestCo2;
    var predictiveYears := analysis.value.predictionYears;
    var predicted := new real[PredictedYears](_ => 0.0);
    predicted[0] := latestCo2;
    assert Compound(latestCo2, growthRates, 0) == latestCo2 by {
      assert growthRates[..0] == [];
    }
    for i := 1 to PredictedYears
      invariant i - 1 <= |growthRates|
      invariant forall j :: 0 <= j < i ==> predicted[j] == Compound(latestCo2, growthRates, j)
    {
      if i - 1 >= |growthRates| {
        return None;
      }
      CompoundStep(latestCo2, growthRates, i);
      var previous := predicted[i - 1];
      assert previous == Compound(latestCo2, growthRates, i - 1);
      var next := previous * growthRates[i - 1];
      assert next == Compound(latestCo2, growthRates, i);
      predicted[i] := next;
    }
    var predictedLevels := predicted[..];
    prediction := Some(seq(PredictedYears, i requires 0 <= i < PredictedYears => (predictiveYears[i], predictedLevels[i])));
  }

  /**
   * Compounding the ratios of a level series onto its first level gives back
   * the series: what makes a prediction follow the candidate's own CO2 path.
   */
  lemma {:induction false} ProductTelescopes(levels: seq<real>, rates: seq<real>, i: nat)
    requires GrowsBy(levels, rates) && i <= |rates|
    ensures levels[0] * Product(rates[..i]) == levels[i]
  {
    if i > 0 {
      ProductTelescopes(levels, rates, i - 1);
      assert rates[..i][..i - 1] == rates[..i - 1];
      calc {
        levels[0] * Product(rates[..i]);
        (levels[0] * Product(rates[..i - 1])) * rates[i - 1];
        levels[i - 1] * rates[i - 1];
      }
    }
  }

  /** Python's `l[-5:len(l)]`: the last five entries, or all of a shorter list. */
  function LastFive(s: seq<YearValue>): (r: seq<YearValue>)
    ensures |r| == if |s| < PredictedYears then |s| else PredictedYears
    ensures forall i :: 0 <= i < |r| ==> r[i] == s[|s| - |r| + i]
  {
    s[SliceStart(|s|, -PredictedYears)..]
  }

  /**
   * Five (year, CO2) pairs from `latestYear` whose values grow, relative to
   * `latestCo2`, as `levels` grew from its first entry.
   */
  predicate FollowsLevels(latestYear: int, latestCo2: real, levels: seq<real>, prediction: seq<YearValue>)
  {
    |levels| == PredictedYears && |prediction| == PredictedYears &&
    forall i :: 0 <= i < PredictedYears ==>
      prediction[i].0 == latestYear + i &&
      prediction[i].1 * levels[0] == latestCo2 * levels[i]
  }

  /**
   * A prediction for the target from a chosen candidate: it follows the
   * candidate's CO2 levels from its matched year, scaled to the target's
   * latest year and CO2 level.
   */
  predicate FollowsCandidate(store: Store, country: string, info: (string, int), prediction: seq<YearValue>)
  {
    AnalysingInputCountry(store, country).Some? &&
    Forecastable(store, info) &&
    FollowsLevels(
      AnalysingInputCountry(store, country).value.latestYear,
      AnalysingInputCountry(store, country).value.latestCo2,
      CandidateCo2Levels(store, info).value,
      prediction)
  }

  /**
   * A candidate whose first level is non-zero fixes the prediction that
   * follows it: value i is the latest CO2 scaled by level i over level 0.
   */
  lemma FollowsCandidateUnique(store: Store, country: string, info: (string, int), p: seq<YearValue>, q: seq<YearValue>)
    requires FollowsCandidate(store, country, info, p) && FollowsCandidate(store, country, info, q)
    ensures p == q
  {
    var levels := CandidateCo2Levels(store, info).value;
    assert levels[0] != 0.0;
    forall i | 0 <= i < PredictedYears
      ensures p[i] == q[i]
    {
      CancelNonZero(p[i].1, q[i].1, levels[0]);
    }
  }

  /** Equal products with the same non-zero factor have equal other factors. */
  lemma CancelNonZero(x: real, y: real, c: real)
    requires c != 0.0 && x * c == y * c
    ensures x == y
  {
    assert (x - y) * c == 0.0;
  }

  /**
   * Compounding the ratios of a level series onto the latest CO2 value
   * follows that series.
   */
  lemma CompoundingFollowsLevels(latestYear: int, latestCo2: real, levels: seq<real>, rates: seq<real>, prediction: seq<YearValue>)
    requires |levels| == PredictedYears && GrowsBy(levels, rates)
    requires |prediction| == PredictedYears
    requires forall i :: 0 <= i < PredictedYears ==>
      prediction[i].0 == latestYear + i && prediction[i].1 == Compound(latestCo2, rates, i)
    ensures FollowsLevels(latestYear, latestCo2, levels, prediction)
  {
    forall i | 0 <= i < PredictedYears
      ensures prediction[i].1 * levels[0] == latestCo2 * levels[i]
    {
      ProductTelescopes(levels, rates, i);
      ScaledByFirst(prediction[i].1, latestCo2, Product(rates[..i]), levels[0], levels[i]);
    }
  }

  /** If x is a scaled by p, and the first level scaled by p is the i-th, then x over a is level i over level 0. */
  lemma ScaledByFirst(x: real, a: real, p: real, first: real, level: real)
    requires x == a * p && first * p == level
    ensures x * first == a * level
  {
    calc {
      x * first;
      (a * p) * first;
      a * (first * p);
      a * level;
    }
  }

  /**
   * A non-empty result of run_related_rates for the two picks `a` and `b`:
   * its keys are "dataset" and the two names, "dataset" holds the target's
   * last five CO2 pairs unless a pick shares its name, and each pick's name
   * holds a prediction that follows that pick.
   */
  predicate IsForecastMap(store: Store, country: string, a: (string, int), b: (string, int), m: map<string, seq<YearValue>>)
  {
    Lookup(store, country).Some? &&
    m.Keys == {DatasetKey, a.0, b.0} &&
    (DatasetKey != a.0 && DatasetKey != b.0 ==> m[DatasetKey] == LastFive(Lookup(store, country).value.co2Yearly)) &&
    FollowsCandidate(store, country, a, m[a.0]) &&
    FollowsCandidate(store, country, b, m[b.0])
  }

  /**
   * The dict literal of run_related_rates, built from the target's last five
   * CO2 pairs and a prediction that follows each pick, is a forecast map.
   */
  lemma BuildsForecastMap(store: Store, country: string, a: (string, int), b: (string, int),
                          predictionA: seq<YearValue>, predictionB: seq<YearValue>)
    requires Lookup(store, country).Some?
    requires FollowsCandidate(store, country, a, predictionA)
    requires FollowsCandidate(store, country, b, predictionB)
    requires a.0 == b.0 ==> a == b
    ensures IsForecastMap(store, country, a, b,
      map[DatasetKey := LastFive(Lookup(store, country).value.co2Yearly)][a.0 := predictionA][b.0 := predictionB])
  {
    var dataset := LastFive(Lookup(store, country).value.co2Yearly);
    var m := map[DatasetKey := dataset][a.0 := predictionA][b.0 := predictionB];
    assert m.Keys == {DatasetKey, a.0, b.0};
    assert m[b.0] == predictionB;
    if a.0 == b.0 {
      assert m[a.0] == predictionB;
    } else {
      assert m[a.0] == predictionA;
    }
    assert DatasetKey != a.0 && DatasetKey != b.0 ==> m[DatasetKey] == dataset;
  }

  /** Two keys when both picks name the same country, three when they differ. */
  lemma ForecastMapSize(store: Store, country: string, a: (string, int), b: (string, int), m: map<string, seq<YearValue>>)
    requires IsForecastMap(store, country, a, b, m)
    requires a.0 != DatasetKey && b.0 != DatasetKey
    ensures |m| == if a.0 == b.0 then 2 else 3
  {
    var first := {DatasetKey};
    var both := first + {a.0};
    assert a.0 !in first && |first| == 1;
    assert |both| == 2;
    if a.0 == b.0 {
      assert m.Keys == both;
    } else {
      assert b.0 !in both;
      assert m.Keys == both + {b.0};
    }
  }

  /**
   * run_related_rates: an empty map when no country matches; otherwise the
   * target's last five CO2 pairs under "dataset" and one prediction under
   * each chosen candidate's name (a later key of the dict literal overwrites
   * an earlier equal one). `None` is any exception on the way.
   */
  method RunRelatedRates(store: Store, country: string) returns (result: Option<map<string, seq<YearValue>>>)
    requires DistinctKeys(store)
    ensures AnalysingInputCountry(store, country).None? ==> result.None?
    ensures AnalysingInputCountry(store, country).Some? ==>
      var comparisons := Comparisons(store, country, AnalysingInputCountry(store, country).value.latestGdp);
      (result == Some(map[]) <==> comparisons == [])
    ensures AnalysingInputCountry(store, country).Some? ==>
      var comparisons := Comparisons(store, country, AnalysingInputCountry(store, country).value.latestGdp);
      var a := PopulationFilter(store, country, comparisons);
      var b := GrowthRateFilter(store, country, comparisons);
      (result.Some? <==>
        comparisons == [] ||
        (a.Some? && b.Some? && Forecastable(store, a.value) && Forecastable(store, b.value)))
    ensures result.Some? && result.value != map[] ==>
      var comparisons := Comparisons(store, country, AnalysingInputCountry(store, country).value.latestGdp);
      PopulationFilter(store, country, comparisons).Some? && GrowthRateFilter(store, country, comparisons).Some? &&
      IsForecastMap(store, country,
        PopulationFilter(store, country, comparisons).value, GrowthRateFilter(store, country, comparisons).value,
        result.value)
  {
    var comparisons := FindPossibleComparisons(store, country);
    if comparisons.None? {
      return None;
    }
    if comparisons.value == [] {
      return Some(map[]);
    }
    var candidateAInfo := PopulationFilter(store, country, comparisons.value);
    var candidateBInfo := GrowthRateFilter(store, country, comparisons.value);
    if candidateAInfo.None? || candidateBInfo.None? {
      return None;
    }
    var candidateA := candidateAInfo.value.0;
    var candidateB := candidateBInfo.value.0;
    var growthA := ComparisonCountryAnalysis(store, candidateAInfo.value);
    var growthB := ComparisonCountryAnalysis(store, candidateBInfo.value);
    if growthA.None? || growthB.None? {
      return None;
    }
    var predictionA := PredictCo2Levels(store, country, growthA.value);
    var predictionB := PredictCo2Levels(store, country, growthB.value);
    var previousCo2ToShow := LastFive(Lookup(store, country).value.co2Yearly);
    var m := map[DatasetKey := previousCo2ToShow][candidateA := predictionA.value][candidateB := predictionB.value];
    ghost var analysis := AnalysingInputCountry(store, country).value;
    ghost var levelsA := CandidateCo2Levels(store, candidateAInfo.value).value;
    ghost var levelsB := CandidateCo2Levels(store, candidateBInfo.value).value;
    CompoundingFollowsLevels(analysis.latestYear, analysis.latestCo2, levelsA, growthA.value, predictionA.value);
    CompoundingFollowsLevels(analysis.latestYear, analysis.latestCo2, levelsB, growthB.value, predictionB.value);
    assert FollowsCandidate(store, country, candidateAInfo.value, predictionA.value);
    assert FollowsCandidate(store, country, candidateBInfo.value, predictionB.value);
    assert candidateA == candidateB ==> candidateAInfo == candidateBInfo;
    BuildsForecastMap(store, country, candidateAInfo.value, candidateBInfo.value, predictionA.value, predictionB.value);
    assert DatasetKey in m;
    return Some(m);
  }
}

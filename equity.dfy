/** The "Slicing Pie" equity calculation of the startup equity calculator page.

    Every cofounder's cash, time and idea contributions are converted to a
    unitless slice count, scaled by a risk multiplier, and the slices are then
    normalised into percentages and dollar values against a company valuation.
    Arithmetic is over `real`: the page computes with IEEE doubles, whose
    rounding is not modelled. */
module Equity {

  /** One cofounder's contribution record. */
  datatype Cofounder = Cofounder(
    id: string,
    name: string,
    cashContribution: real,
    timeContribution: real,  // hours per week
    marketSalary: real,      // annual salary given up
    ideaValue: real,
    riskMultiplier: real)

  /** The calculated share of one cofounder. */
  datatype EquityResult = EquityResult(
    cofounder: Cofounder,
    slices: real,
    percentage: real,
    dollarValue: real)

  const WeeksPerYear: real := 52.0
  const HoursPerWeek: real := 40.0
  const MonthsPerYear: real := 12.0

  // ---------------------------------------------------------------------
  // The per-cofounder slice count, as the `map` pass computes it
  // ---------------------------------------------------------------------

  /** Market salary turned into an hourly rate, assuming 52 weeks of 40 hours. */
  function HourlyRate(cf: Cofounder): real
  {
    cf.marketSalary / (WeeksPerYear * HoursPerWeek)
  }

  /** Weekly hours annualised, scaled to the horizon and priced at the hourly rate. */
  function TimeSlices(cf: Cofounder, timeHorizon: real): real
  {
    (cf.timeContribution * WeeksPerYear * (timeHorizon / MonthsPerYear)) * HourlyRate(cf)
  }

  /** Cash and idea value count one to one; the risk multiplier scales the whole sum. */
  function Slices(cf: Cofounder, timeHorizon: real): real
  {
    (cf.cashContribution + TimeSlices(cf, timeHorizon) + cf.ideaValue) * cf.riskMultiplier
  }

  // ---------------------------------------------------------------------
  // The `reduce` pass that totals the slices
  // ---------------------------------------------------------------------

  /** The reducer callback: it recomputes the slice expression on its own
      and adds it to the running total. */
  function AddSlices(total: real, cf: Cofounder, timeHorizon: real): real
  {
    var cashSlices := cf.cashContribution;
    var hourlyRate := cf.marketSalary / (52.0 * 40.0);
    var timeSlices := (cf.timeContribution * 52.0 * (timeHorizon / 12.0)) * hourlyRate;
    var ideaSlices := cf.ideaValue;
    total + (cashSlices + timeSlices + ideaSlices) * cf.riskMultiplier
  }

  /** `Array.prototype.reduce`: a left fold from the initial total. */
  function Reduce(cofounders: seq<Cofounder>, timeHorizon: real, total: real): real
  {
    if cofounders == [] then total
    else Reduce(cofounders[1..], timeHorizon, AddSlices(total, cofounders[0], timeHorizon))
  }

  /** The total number of slices, folded from 0. */
  function TotalSlices(cofounders: seq<Cofounder>, timeHorizon: real): real
  {
    Reduce(cofounders, timeHorizon, 0.0)
  }

  /** Reference definition of the total: the plain sum of every cofounder's `Slices`. */
  function SumOfSlices(cofounders: seq<Cofounder>, timeHorizon: real): real
  {
    if cofounders == [] then 0.0
    else Slices(cofounders[0], timeHorizon) + SumOfSlices(cofounders[1..], timeHorizon)
  }

  // ---------------------------------------------------------------------
  // The `map` pass that builds the results
  // ---------------------------------------------------------------------

  /** Share of a total in percent, guarded against a total that is not positive. */
  function Percentage(slices: real, totalSlices: real): real
  {
    if totalSlices > 0.0 then (slices / totalSlices) * 100.0 else 0.0
  }

  /** A percentage of the company valuation in dollars. */
  function DollarValue(percentage: real, companyValuation: real): real
  {
    (percentage / 100.0) * companyValuation
  }

  /** The map callback for one cofounder, given the total of the first pass. */
  function ResultFor(cf: Cofounder, totalSlices: real, companyValuation: real, timeHorizon: real): EquityResult
  {
    var slices := Slices(cf, timeHorizon);
    var percentage := Percentage(slices, totalSlices);
    EquityResult(cf, slices, percentage, DollarValue(percentage, companyValuation))
  }

  /** `Array.prototype.map` of the callback over the cofounders. */
  function MapResults(cofounders: seq<Cofounder>, totalSlices: real, companyValuation: real, timeHorizon: real)
    : (results: seq<EquityResult>)
    ensures |results| == |cofounders|
    ensures forall i :: 0 <= i < |cofounders| ==>
              results[i] == ResultFor(cofounders[i], totalSlices, companyValuation, timeHorizon)
  {
    if cofounders == [] then []
    else [ResultFor(cofounders[0], totalSlices, companyValuation, timeHorizon)]
         + MapResults(cofounders[1..], totalSlices, companyValuation, timeHorizon)
  }

  /** The whole calculation: total the slices, then give every cofounder its
      share. Exactly one result per cofounder, in the same order, each carrying
      its cofounder record unchanged. */
  function CalculateEquity(cofounders: seq<Cofounder>, companyValuation: real, timeHorizon: real)
    : (results: seq<EquityResult>)
    ensures |results| == |cofounders|
    ensures forall i :: 0 <= i < |results| ==>
              results[i].cofounder == cofounders[i] &&
              results[i].slices == Slices(cofounders[i], timeHorizon)
    ensures forall i :: 0 <= i < |results| ==>
              results[i].dollarValue == (results[i].percentage / 100.0) * companyValuation
  {
    MapResults(cofounders, TotalSlices(cofounders, timeHorizon), companyValuation, timeHorizon)
  }

  /** Sums over a result list. */
  function SumResultSlices(results: seq<EquityResult>): real
  {
    if results == [] then 0.0 else results[0].slices + SumResultSlices(results[1..])
  }

  function SumPercentages(results: seq<EquityResult>): real
  {
    if results == [] then 0.0 else results[0].percentage + SumPercentages(results[1..])
  }

  function SumDollarValues(results: seq<EquityResult>): real
  {
    if results == [] then 0.0 else results[0].dollarValue + SumDollarValues(results[1..])
  }

  // ---------------------------------------------------------------------
  // Agreement of the two passes
  // ---------------------------------------------------------------------

  /** The reducer's own copy of the slice expression equals `Slices`. */
  lemma AddSlicesAgrees(total: real, cf: Cofounder, timeHorizon: real)
    ensures AddSlices(total, cf, timeHorizon) == total + Slices(cf, timeHorizon)
  {
  }

  /** The left fold from any start adds the plain sum of the slices to it. */
  lemma {:induction false} ReduceIsSum(cofounders: seq<Cofounder>, timeHorizon: real, total: real)
    ensures Reduce(cofounders, timeHorizon, total) == total + SumOfSlices(cofounders, timeHorizon)
  {
    if cofounders != [] {
      AddSlicesAgrees(total, cofounders[0], timeHorizon);
      ReduceIsSum(cofounders[1..], timeHorizon, AddSlices(total, cofounders[0], timeHorizon));
    }
  }

  /** The slices of the mapped results sum to the reduce pass's total. */
  lemma {:induction false} MapSlicesSum(cofounders: seq<Cofounder>, totalSlices: real, companyValuation: real, timeHorizon: real)
    ensures SumResultSlices(MapResults(cofounders, totalSlices, companyValuation, timeHorizon))
            == SumOfSlices(cofounders, timeHorizon)
  {
    if cofounders != [] {
      var results := MapResults(cofounders, totalSlices, companyValuation, timeHorizon);
      assert results[1..] == MapResults(cofounders[1..], totalSlices, companyValuation, timeHorizon);
      MapSlicesSum(cofounders[1..], totalSlices, companyValuation, timeHorizon);
    }
  }

  /** The `reduce` pass and the `map` pass compute the same slices: the
      results' slices sum to `TotalSlices`. */
  lemma ResultSlicesSumToTotal(cofounders: seq<Cofounder>, companyValuation: real, timeHorizon: real)
    ensures SumResultSlices(CalculateEquity(cofounders, companyValuation, timeHorizon))
            == TotalSlices(cofounders, timeHorizon)
  {
    MapSlicesSum(cofounders, TotalSlices(cofounders, timeHorizon), companyValuation, timeHorizon);
    ReduceIsSum(cofounders, timeHorizon, 0.0);
  }

  // ---------------------------------------------------------------------
  // Normalisation
  // ---------------------------------------------------------------------

  /** Summing shares of one positive total is summing the slices first. */
  lemma {:induction false} SumOfShares(results: seq<EquityResult>, totalSlices: real)
    requires totalSlices > 0.0
    requires forall i :: 0 <= i < |results| ==>
               results[i].percentage == (results[i].slices / totalSlices) * 100.0
    ensures SumPercentages(results) == (SumResultSlices(results) / totalSlices) * 100.0
  {
    if results != [] {
      SumOfShares(results[1..], totalSlices);
      var a, b := results[0].slices, SumResultSlices(results[1..]);
      assert (a / totalSlices) * 100.0 + (b / totalSlices) * 100.0 == ((a + b) / totalSlices) * 100.0;
    }
  }

  /** With a positive total the percentages add up to exactly 100. */
  lemma PercentagesSumTo100(cofounders: seq<Cofounder>, companyValuation: real, timeHorizon: real)
    requires TotalSlices(cofounders, timeHorizon) > 0.0
    ensures SumPercentages(CalculateEquity(cofounders, companyValuation, timeHorizon)) == 100.0
  {
    var total := TotalSlices(cofounders, timeHorizon);
    var results := CalculateEquity(cofounders, companyValuation, timeHorizon);
    assert results == MapResults(cofounders, total, companyValuation, timeHorizon);
    forall i | 0 <= i < |results|
      ensures results[i].percentage == (results[i].slices / total) * 100.0
    {
      assert results[i] == ResultFor(cofounders[i], total, companyValuation, timeHorizon);
    }
    SumOfShares(results, total);
    ResultSlicesSumToTotal(cofounders, companyValuation, timeHorizon);
    assert SumResultSlices(results) / total == 1.0;
  }

  /** Dollar values sum to the valuation scaled by the percentages' sum over 100. */
  lemma {:induction false} SumOfDollarValues(results: seq<EquityResult>, companyValuation: real)
    requires forall i :: 0 <= i < |results| ==>
               results[i].dollarValue == (results[i].percentage / 100.0) * companyValuation
    ensures SumDollarValues(results) == (SumPercentages(results) / 100.0) * companyValuation
  {
    if results != [] {
      SumOfDollarValues(results[1..], companyValuation);
      var a, b := results[0].percentage, SumPercentages(results[1..]);
      assert (a / 100.0) * companyValuation + (b / 100.0) * companyValuation
          == ((a + b) / 100.0) * companyValuation;
    }
  }

  /** With a positive total the whole valuation is handed out. */
  lemma DollarValuesSumToValuation(cofounders: seq<Cofounder>, companyValuation: real, timeHorizon: real)
    requires TotalSlices(cofounders, timeHorizon) > 0.0
    ensures SumDollarValues(CalculateEquity(cofounders, companyValuation, timeHorizon)) == companyValuation
  {
    PercentagesSumTo100(cofounders, companyValuation, timeHorizon);
    SumOfDollarValues(CalculateEquity(cofounders, companyValuation, timeHorizon), companyValuation);
  }

  /** With a positive total each percentage is that cofounder's share of it. */
  lemma PercentageIsShare(cofounders: seq<Cofounder>, companyValuation: real, timeHorizon: real, i: int)
    requires 0 <= i < |cofounders|
    requires TotalSlices(cofounders, timeHorizon) > 0.0
    ensures CalculateEquity(cofounders, companyValuation, timeHorizon)[i].percentage
              * TotalSlices(cofounders, timeHorizon)
            == Slices(cofounders[i], timeHorizon) * 100.0
  {
  }

  /** The zero guard: when the total is zero or negative every percentage and
      every dollar value is 0. */
  lemma ZeroGuard(cofounders: seq<Cofounder>, companyValuation: real, timeHorizon: real)
    requires TotalSlices(cofounders, timeHorizon) <= 0.0
    ensures forall r :: r in CalculateEquity(cofounders, companyValuation, timeHorizon) ==>
              r.percentage == 0.0 && r.dollarValue == 0.0
  {
  }

  /** Contributions that are all zero give a zero total, whatever the risk. */
  lemma {:induction false} AllZeroContributions(cofounders: seq<Cofounder>, timeHorizon: real)
    requires forall cf :: cf in cofounders ==>
               cf.cashContribution == 0.0 && cf.timeContribution == 0.0 && cf.ideaValue == 0.0
    ensures TotalSlices(cofounders, timeHorizon) == 0.0
  {
    ReduceIsSum(cofounders, timeHorizon, 0.0);
    AllZeroSum(cofounders, timeHorizon);
  }

  lemma {:induction false} AllZeroSum(cofounders: seq<Cofounder>, timeHorizon: real)
    requires forall cf :: cf in cofounders ==>
               cf.cashContribution == 0.0 && cf.timeContribution == 0.0 && cf.ideaValue == 0.0
    ensures SumOfSlices(cofounders, timeHorizon) == 0.0
  {
    if cofounders != [] {
      assert cofounders[0] in cofounders;
      AllZeroSum(cofounders[1..], timeHorizon);
    }
  }

  // ---------------------------------------------------------------------
  // Valuation and time
  // ---------------------------------------------------------------------

  /** Scaling the valuation by k scales every dollar value by k and leaves
      every percentage and slice count as it was. */
  lemma ValuationScaling(cofounders: seq<Cofounder>, companyValuation: real, k: real, timeHorizon: real, i: int)
    requires 0 <= i < |cofounders|
    ensures var before := CalculateEquity(cofounders, companyValuation, timeHorizon)[i];
            var after := CalculateEquity(cofounders, k * companyValuation, timeHorizon)[i];
            after.slices == before.slices &&
            after.percentage == before.percentage &&
            after.dollarValue == k * before.dollarValue
  {
    var total := TotalSlices(cofounders, timeHorizon);
    var before := CalculateEquity(cofounders, companyValuation, timeHorizon)[i];
    var after := CalculateEquity(cofounders, k * companyValuation, timeHorizon)[i];
    assert before == ResultFor(cofounders[i], total, companyValuation, timeHorizon);
    assert after == ResultFor(cofounders[i], total, k * companyValuation, timeHorizon);
    DollarValueScales(before.percentage, companyValuation, k);
  }

  lemma DollarValueScales(percentage: real, companyValuation: real, k: real)
    ensures DollarValue(percentage, k * companyValuation) == k * DollarValue(percentage, companyValuation)
  {
  }

  /** Forty hours a week for twelve months is worth exactly the market salary. */
  lemma FullTimeYearIsSalary(cf: Cofounder)
    requires cf.timeContribution == HoursPerWeek
    ensures TimeSlices(cf, MonthsPerYear) == cf.marketSalary
  {
  }

  /** Time slices are linear in the horizon. */
  lemma TimeSlicesLinearInHorizon(cf: Cofounder, timeHorizon: real)
    ensures TimeSlices(cf, timeHorizon) == TimeSlices(cf, MonthsPerYear) * (timeHorizon / MonthsPerYear)
  {
    var t, r := cf.timeContribution * WeeksPerYear, HourlyRate(cf);
    assert (t * (timeHorizon / MonthsPerYear)) * r == (t * 1.0 * r) * (timeHorizon / MonthsPerYear);
  }

  /** Six months give half the time slices of twelve. */
  lemma HalfHorizonHalvesTime(cf: Cofounder)
    ensures 2.0 * TimeSlices(cf, 6.0) == TimeSlices(cf, MonthsPerYear)
  {
    TimeSlicesLinearInHorizon(cf, 6.0);
  }

  // ---------------------------------------------------------------------
  // Raising one cofounder's risk multiplier
  // ---------------------------------------------------------------------

  /** Replacing one record changes the total by the difference of their slices. */
  lemma {:induction false} SumAfterReplace(cofounders: seq<Cofounder>, i: int, cf: Cofounder, timeHorizon: real)
    requires 0 <= i < |cofounders|
    ensures SumOfSlices(cofounders[i := cf], timeHorizon)
            == SumOfSlices(cofounders, timeHorizon) - Slices(cofounders[i], timeHorizon) + Slices(cf, timeHorizon)
  {
    if i > 0 {
      assert cofounders[i := cf][1..] == cofounders[1..][i - 1 := cf];
      SumAfterReplace(cofounders[1..], i - 1, cf, timeHorizon);
    } else {
      assert cofounders[i := cf][1..] == cofounders[1..];
    }
  }

  /** Cofounder i's record with its risk multiplier multiplied by k. */
  function RaiseRisk(cofounders: seq<Cofounder>, i: int, k: real): seq<Cofounder>
    requires 0 <= i < |cofounders|
  {
    cofounders[i := cofounders[i].(riskMultiplier := k * cofounders[i].riskMultiplier)]
  }

  /** Multiplying one risk multiplier by k multiplies that cofounder's slices
      by k and adds the difference to the total. */
  lemma RaiseRiskTotal(cofounders: seq<Cofounder>, timeHorizon: real, i: int, k: real)
    requires 0 <= i < |cofounders|
    ensures Slices(RaiseRisk(cofounders, i, k)[i], timeHorizon) == k * Slices(cofounders[i], timeHorizon)
    ensures TotalSlices(RaiseRisk(cofounders, i, k), timeHorizon)
            == TotalSlices(cofounders, timeHorizon) + (k - 1.0) * Slices(cofounders[i], timeHorizon)
  {
    var cf := cofounders[i];
    var raised := RaiseRisk(cofounders, i, k);
    var base := cf.cashContribution + TimeSlices(cf, timeHorizon) + cf.ideaValue;
    assert Slices(raised[i], timeHorizon) == base * (k * cf.riskMultiplier);
    assert base * (k * cf.riskMultiplier) == k * (base * cf.riskMultiplier);
    ReduceIsSum(cofounders, timeHorizon, 0.0);
    ReduceIsSum(raised, timeHorizon, 0.0);
    SumAfterReplace(cofounders, i, raised[i], timeHorizon);
  }

  /** Multiplying cofounder i's risk multiplier by k > 1, when i's slices are
      positive and below the total, strictly raises i's percentage. */
  lemma RaisingRiskRaisesShare(cofounders: seq<Cofounder>, companyValuation: real, timeHorizon: real,
                               i: int, k: real)
    requires 0 <= i < |cofounders|
    requires k > 1.0
    requires 0.0 < Slices(cofounders[i], timeHorizon) < TotalSlices(cofounders, timeHorizon)
    ensures CalculateEquity(RaiseRisk(cofounders, i, k), companyValuation, timeHorizon)[i].percentage
            > CalculateEquity(cofounders, companyValuation, timeHorizon)[i].percentage
  {
    var raised := RaiseRisk(cofounders, i, k);
    var s, t := Slices(cofounders[i], timeHorizon), TotalSlices(cofounders, timeHorizon);
    var s', t' := Slices(raised[i], timeHorizon), TotalSlices(raised, timeHorizon);
    assert CalculateEquity(cofounders, companyValuation, timeHorizon)[i]
        == ResultFor(cofounders[i], t, companyValuation, timeHorizon);
    assert CalculateEquity(raised, companyValuation, timeHorizon)[i]
        == ResultFor(raised[i], t', companyValuation, timeHorizon);
    RaiseRiskTotal(cofounders, timeHorizon, i, k);
    RaisedShareGrows(s, t, k, s', t');
  }

  /** A cofounder that holds all of a positive total stays at exactly 100
      percent when its risk multiplier is multiplied by any k > 0: the total
      grows by the same factor as its slices. */
  lemma RaisingRiskSoleHolderStays(cofounders: seq<Cofounder>, companyValuation: real, timeHorizon: real,
                                   i: int, k: real)
    requires 0 <= i < |cofounders|
    requires k > 0.0
    requires 0.0 < Slices(cofounders[i], timeHorizon) == TotalSlices(cofounders, timeHorizon)
    ensures CalculateEquity(RaiseRisk(cofounders, i, k), companyValuation, timeHorizon)[i].percentage
            == CalculateEquity(cofounders, companyValuation, timeHorizon)[i].percentage
            == 100.0
  {
    var raised := RaiseRisk(cofounders, i, k);
    var t := TotalSlices(cofounders, timeHorizon);
    var s', t' := Slices(raised[i], timeHorizon), TotalSlices(raised, timeHorizon);
    assert CalculateEquity(cofounders, companyValuation, timeHorizon)[i]
        == ResultFor(cofounders[i], t, companyValuation, timeHorizon);
    assert CalculateEquity(raised, companyValuation, timeHorizon)[i]
        == ResultFor(raised[i], t', companyValuation, timeHorizon);
    RaiseRiskTotal(cofounders, timeHorizon, i, k);
    WholeIsHundred(t);
    PositiveProduct(k, t);
    assert t' == s' == k * t;
    WholeIsHundred(t');
  }

  /** A positive total is 100 percent of itself. */
  lemma WholeIsHundred(t: real)
    requires t > 0.0
    ensures Percentage(t, t) == 100.0
  {
    assert t / t == 1.0;
  }

  /** Under the same conditions every other cofounder with a positive
      percentage sees it strictly lowered. */
  lemma RaisingRiskLowersOthers(cofounders: seq<Cofounder>, companyValuation: real, timeHorizon: real,
                                i: int, k: real, j: int)
    requires 0 <= i < |cofounders| && 0 <= j < |cofounders| && j != i
    requires k > 1.0
    requires 0.0 < Slices(cofounders[i], timeHorizon)
    requires CalculateEquity(cofounders, companyValuation, timeHorizon)[j].percentage > 0.0
    ensures CalculateEquity(RaiseRisk(cofounders, i, k), companyValuation, timeHorizon)[j].percentage
            < CalculateEquity(cofounders, companyValuation, timeHorizon)[j].percentage
  {
    var raised := RaiseRisk(cofounders, i, k);
    var t := TotalSlices(cofounders, timeHorizon);
    var t' := TotalSlices(raised, timeHorizon);
    RaiseRiskTotal(cofounders, timeHorizon, i, k);
    PositiveProduct(k - 1.0, Slices(cofounders[i], timeHorizon));
    assert CalculateEquity(cofounders, companyValuation, timeHorizon)[j]
        == ResultFor(cofounders[j], t, companyValuation, timeHorizon);
    assert CalculateEquity(raised, companyValuation, timeHorizon)[j]
        == ResultFor(cofounders[j], t', companyValuation, timeHorizon);
    ShareShrinks(Slices(cofounders[j], timeHorizon), t, t');
  }

  /** k * s is a larger share of t + (k - 1) * s than s is of t. */
  lemma RaisedShareGrows(s: real, t: real, k: real, s': real, t': real)
    requires 0.0 < s < t && k > 1.0
    requires s' == k * s && t' == t + (k - 1.0) * s
    ensures Percentage(s', t') > Percentage(s, t)
  {
    var d := (k - 1.0) * (t - s);
    PositiveProduct(k - 1.0, t - s);
    PositiveProduct(k - 1.0, s);
    assert d > 0.0 && t' > 0.0;
    PositiveProduct(s, d);
    assert s' * t - s * t' == s * d;
    ShareGrows(s, t, s', t');
  }

  lemma PositiveProduct(a: real, b: real)
    requires a > 0.0 && b > 0.0
    ensures a * b > 0.0
  {
  }

  /** a/b < c/d for positive denominators when a*d < c*b. */
  lemma ShareGrows(a: real, b: real, c: real, d: real)
    requires b > 0.0 && d > 0.0
    requires c * b > a * d
    ensures Percentage(c, d) > Percentage(a, b)
  {
    assert c / d - a / b == (c * b - a * d) / (b * d);
  }

  /** The same positive slices make a smaller share of a larger total. */
  lemma ShareShrinks(a: real, b: real, d: real)
    requires 0.0 < b < d
    requires Percentage(a, b) > 0.0
    ensures Percentage(a, d) < Percentage(a, b)
  {
    assert a > 0.0;
    assert a / b - a / d == a * (d - b) / (b * d);
  }

  // ---------------------------------------------------------------------
  // Worked examples
  // ---------------------------------------------------------------------

  /** Two cofounders where only the first contributes (cash, say 100000) and
      the second contributes nothing: the first holds 100 percent, the second 0. */
  lemma ContributorTakesAll(a: Cofounder, b: Cofounder, companyValuation: real, timeHorizon: real)
    requires Slices(a, timeHorizon) > 0.0
    requires b.cashContribution == 0.0 && b.timeContribution == 0.0 && b.ideaValue == 0.0
    ensures var results := CalculateEquity([a, b], companyValuation, timeHorizon);
            results[0].percentage == 100.0 && results[1].percentage == 0.0
  {
    var s := Slices(a, timeHorizon);
    assert Slices(b, timeHorizon) == 0.0;
    ReduceIsSum([a, b], timeHorizon, 0.0);
    assert [a, b][1..] == [b];
    assert [b][1..] == [];
    assert SumOfSlices([b], timeHorizon) == 0.0;
    assert SumOfSlices([a, b], timeHorizon) == s;
    assert TotalSlices([a, b], timeHorizon) == s;
    var results := CalculateEquity([a, b], companyValuation, timeHorizon);
    assert results[0] == ResultFor(a, s, companyValuation, timeHorizon);
    assert results[1] == ResultFor(b, s, companyValuation, timeHorizon);
    assert Percentage(s, s) == (s / s) * 100.0;
    assert s / s == 1.0;
  }

  /** Cash (100000, say) against nothing at all: the contributor holds 100
      percent and the other cofounder 0. */
  lemma CashOnlyPair(cash: real, companyValuation: real, timeHorizon: real)
    requires cash > 0.0
    ensures var a := Cofounder("1", "A", cash, 0.0, 0.0, 0.0, 1.0);
            var b := Cofounder("2", "B", 0.0, 0.0, 0.0, 0.0, 1.0);
            var results := CalculateEquity([a, b], companyValuation, timeHorizon);
            results[0].percentage == 100.0 && results[1].percentage == 0.0
  {
    var a := Cofounder("1", "A", cash, 0.0, 0.0, 0.0, 1.0);
    var b := Cofounder("2", "B", 0.0, 0.0, 0.0, 0.0, 1.0);
    assert TimeSlices(a, timeHorizon) == 0.0;
    ContributorTakesAll(a, b, companyValuation, timeHorizon);
  }
}

/** The rule-based risk classifier. Three fixed threshold rules read the
    portfolio statistics; each rule that fires contributes one risk factor
    message, and the number of factors decides the risk level. */
module Risk {
  import opened Seqs
  import opened Strings
  import opened PortfolioTypes
  import opened ExplainTypes
  import Stats

  const StatsMissing := "Stats missing"
  const TopOneFactor := "Top position is more than 20% of the portfolio."
  const TopThreeFactor := "Top 3 positions make up more than 50% of the portfolio."
  const EquityFactor := "More than 80% is in stocks (little bonds/cash)."

  /** An asset class counts as equity when its name contains "STOCK". */
  predicate IsEquity(c: ClassRow) {
    Contains(c.assetClass, "STOCK")
  }

  predicate IsNonEquity(c: ClassRow) {
    !IsEquity(c)
  }

  /** The summed weight of the equity asset classes. */
  function EquityWeight(s: PortfolioStats): real {
    SumBy(Filter(s.byAssetClass, IsEquity), Stats.ClassWeight)
  }

  // The three rules, each a strict comparison.
  predicate TopOneRule(s: PortfolioStats) { s.concentrationTop1 > 0.2 }
  predicate TopThreeRule(s: PortfolioStats) { s.concentrationTop3 > 0.5 }
  predicate EquityRule(s: PortfolioStats) { EquityWeight(s) > 0.8 }

  /** The factor messages of the rules that fire, in rule order. */
  function FactorsOf(s: PortfolioStats): seq<string> {
    (if TopOneRule(s) then [TopOneFactor] else [])
    + (if TopThreeRule(s) then [TopThreeFactor] else [])
    + (if EquityRule(s) then [EquityFactor] else [])
  }

  /** Two or more factors make the portfolio HIGH risk, one MEDIUM, none LOW. */
  function LevelFor(factorCount: nat): RiskLevel {
    if factorCount >= 2 then High else if factorCount == 1 then Medium else Low
  }

  /** Position of a factor message in the fixed rule order; 3 for any other text. */
  function FactorRank(f: string): nat {
    if f == TopOneFactor then 0
    else if f == TopThreeFactor then 1
    else if f == EquityFactor then 2
    else 3
  }

  /** `riskAgent(state)`: the state with `riskLevel` and `riskFactors` set,
      or the error thrown when the statistics are missing. */
  method RiskAgent(state: ExplainState) returns (r: Result<ExplainState>)
    ensures r.Failure? <==> state.stats.None?
    ensures r.Failure? ==> r.error == StatsMissing
    ensures r.Success? ==>
      var factors := FactorsOf(state.stats.value);
      r.value == state.(riskLevel := Some(LevelFor(|factors|)), riskFactors := Some(factors))
  {
    if state.stats.None? {
      return Failure(StatsMissing);
    }
    var s := state.stats.value;
    var equityWeight := EquityWeight(s);

    var factors: seq<string> := [];
    if s.concentrationTop1 > 0.2 {
      factors := factors + [TopOneFactor];
    }
    if s.concentrationTop3 > 0.5 {
      factors := factors + [TopThreeFactor];
    }
    assert factors == (if TopOneRule(s) then [TopOneFactor] else []) + (if TopThreeRule(s) then [TopThreeFactor] else []);
    if equityWeight > 0.8 {
      factors := factors + [EquityFactor];
    }
    assert factors == FactorsOf(s);

    var riskLevel := Low;
    if |factors| >= 2 {
      riskLevel := High;
    } else if |factors| == 1 {
      riskLevel := Medium;
    }
    r := Success(state.(riskLevel := Some(riskLevel), riskFactors := Some(factors)));
  }

  /** Each factor is present exactly when its rule fires; the factors come
      in rule order without repeats, so there are at most three. */
  lemma FactorsSpec(s: PortfolioStats)
    ensures var f := FactorsOf(s);
      && (TopOneFactor in f <==> TopOneRule(s))
      && (TopThreeFactor in f <==> TopThreeRule(s))
      && (EquityFactor in f <==> EquityRule(s))
      && (forall i :: 0 <= i < |f| ==> FactorRank(f[i]) < 3)
      && (forall i, j :: 0 <= i < j < |f| ==> FactorRank(f[i]) < FactorRank(f[j]))
      && |f| <= 3
  {
    assert TopOneFactor != TopThreeFactor && TopOneFactor != EquityFactor && TopThreeFactor != EquityFactor;
    FactorsInRuleOrder(s);
  }

  /** The factors, ranked: each is one of the three rule messages, and
      they come in rule order. */
  lemma FactorsInRuleOrder(s: PortfolioStats)
    ensures var f := FactorsOf(s);
      && (forall i :: 0 <= i < |f| ==> FactorRank(f[i]) < 3)
      && (forall i, j :: 0 <= i < j < |f| ==> FactorRank(f[i]) < FactorRank(f[j]))
  {
    assert FactorRank(TopOneFactor) == 0 && FactorRank(TopThreeFactor) == 1 && FactorRank(EquityFactor) == 2;
    var a, b := (if TopOneRule(s) then [TopOneFactor] else []), (if TopThreeRule(s) then [TopThreeFactor] else []);
    var c := if EquityRule(s) then [EquityFactor] else [];
    var f := FactorsOf(s);
    assert f == a + b + c;
    forall i | 0 <= i < |f|
      ensures FactorRank(f[i]) == if i < |a| then 0 else if i < |a| + |b| then 1 else 2
    {
    }
  }

  /** The level in terms of the rules: HIGH when at least two rules fire,
      MEDIUM when exactly one does, LOW when none does. */
  lemma LevelSpec(s: PortfolioStats)
    ensures var level := LevelFor(|FactorsOf(s)|);
      var a, b, c := TopOneRule(s), TopThreeRule(s), EquityRule(s);
      && (level == High <==> (a && b) || (a && c) || (b && c))
      && (level == Medium <==> (a && !b && !c) || (!a && b && !c) || (!a && !b && c))
      && (level == Low <==> !a && !b && !c)
  {
  }

  /** With a non-zero total, the equity and non-equity class weights of
      computed statistics add up to 1. */
  lemma EquitySplit(hs: seq<Holding>)
    requires hs != []
    ensures var s := Stats.StatsOf(hs).value;
      s.totalValue != 0.0 ==>
        EquityWeight(s) + SumBy(Filter(s.byAssetClass, IsNonEquity), Stats.ClassWeight) == 1.0
  {
    var s := Stats.StatsOf(hs).value;
    Stats.ByAssetClassSums(hs);
    SumBySplitBy(s.byAssetClass, IsEquity, IsNonEquity, Stats.ClassWeight);
  }

  /** With no negative holding values and a positive total, the equity
      weight of computed statistics lies in [0, 1]. */
  lemma EquityWeightBounds(hs: seq<Holding>)
    requires hs != []
    requires forall h :: h in hs ==> Stats.HoldingValue(h) >= 0.0
    requires Stats.TotalValue(hs) > 0.0
    ensures var s := Stats.StatsOf(hs).value;
      0.0 <= EquityWeight(s) <= 1.0
  {
    var s := Stats.StatsOf(hs).value;
    assert s.byAssetClass == Stats.ByAssetClass(hs);
    Stats.ByAssetClassNonNegative(hs);
    Stats.ByAssetClassSums(hs);
    FilterSumBound(s.byAssetClass, IsEquity, Stats.ClassWeight);
    Stats.SumNonNegative(Filter(s.byAssetClass, IsEquity), Stats.ClassWeight);
  }

  /** A single position worth more than half of a portfolio with no
      negative values fires both concentration rules, so the portfolio is
      classified HIGH risk. */
  lemma DominantPositionIsHigh(hs: seq<Holding>)
    requires hs != []
    requires forall h :: h in hs ==> Stats.HoldingValue(h) >= 0.0
    requires Stats.TotalValue(hs) > 0.0
    requires Stats.StatsOf(hs).value.concentrationTop1 > 0.5
    ensures LevelFor(|FactorsOf(Stats.StatsOf(hs).value)|) == High
  {
    Stats.ConcentrationBounds(hs);
    LevelSpec(Stats.StatsOf(hs).value);
  }
}

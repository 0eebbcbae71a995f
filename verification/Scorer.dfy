/** The weighted fundamental score (app/fundamentals/scorer.py), over exact numbers. */
module Scorer {
  import opened Prelude

  datatype Category = Growth | Profitability | FinancialStrength | CashFlow | Valuation | Ownership

  datatype Factor =
    | RevenueGrowth | EpsGrowth | ProfitGrowth | Roe | Roce | OperatingMargin | NetMargin | DebtToEquity
    | InterestCoverage | OperatingCashFlow | FreeCashFlow | Pe | PromoterHolding | PromoterPledge

  const FACTORS := [
    RevenueGrowth, EpsGrowth, ProfitGrowth, Roe, Roce, OperatingMargin, NetMargin, DebtToEquity,
    InterestCoverage, OperatingCashFlow, FreeCashFlow, Pe, PromoterHolding, PromoterPledge]

  function CategoryOf(f: Factor): Category {
    match f
    case RevenueGrowth | EpsGrowth | ProfitGrowth => Growth
    case Roe | Roce | OperatingMargin | NetMargin => Profitability
    case DebtToEquity | InterestCoverage => FinancialStrength
    case OperatingCashFlow | FreeCashFlow => CashFlow
    case Pe => Valuation
    case PromoterHolding | PromoterPledge => Ownership
  }

  // ----- bands

  datatype Band = Band(threshold: real, score: real)

  /** The score of the first band reached; the last band's when none is. */
  function HigherIsBetter(value: real, bands: seq<Band>): real
    requires bands != []
  {
    if value >= bands[0].threshold || |bands| == 1 then bands[0].score else HigherIsBetter(value, bands[1..])
  }

  function LowerIsBetter(value: real, bands: seq<Band>): real
    requires bands != []
  {
    if value <= bands[0].threshold || |bands| == 1 then bands[0].score else LowerIsBetter(value, bands[1..])
  }

  /** The scores do not rise from band to band. */
  ghost predicate Falling(bands: seq<Band>) {
    forall i, j :: 0 <= i < j < |bands| ==> bands[i].score >= bands[j].score
  }

  lemma {:induction false} ScoreAtMostFirst(value: real, bands: seq<Band>)
    requires bands != [] && Falling(bands)
    ensures HigherIsBetter(value, bands) <= bands[0].score && LowerIsBetter(value, bands) <= bands[0].score
  {
    if |bands| > 1 {
      ScoreAtMostFirst(value, bands[1..]);
    }
  }

  lemma {:induction false} BandsAreMonotone(low: real, high: real, bands: seq<Band>)
    requires low <= high && bands != [] && Falling(bands)
    ensures HigherIsBetter(low, bands) <= HigherIsBetter(high, bands)
    ensures LowerIsBetter(high, bands) <= LowerIsBetter(low, bands)
  {
    ScoreAtMostFirst(low, bands);
    ScoreAtMostFirst(high, bands);
    if |bands| > 1 {
      BandsAreMonotone(low, high, bands[1..]);
    }
  }

  /** The thresholds fall and so do the scores, as where a higher figure is better. */
  ghost predicate Descending(bands: seq<Band>) {
    forall i, j ::
      0 <= i < j < |bands| ==> bands[i].score > bands[j].score && bands[i].threshold > bands[j].threshold
  }

  /** The thresholds rise and the scores fall, as where a lower figure is better. */
  ghost predicate Ascending(bands: seq<Band>) {
    forall i, j ::
      0 <= i < j < |bands| ==> bands[i].score > bands[j].score && bands[i].threshold < bands[j].threshold
  }

  /** A figure scores as much as a band if and only if it reaches the band's threshold, or the band is the last. */
  lemma {:induction false} HigherReachesBandExactlyWhen(value: real, bands: seq<Band>, i: nat)
    requires i < |bands| && Descending(bands)
    ensures HigherIsBetter(value, bands) >= bands[i].score <==> i == |bands| - 1 || value >= bands[i].threshold
  {
    if |bands| > 1 {
      ScoreAtMostFirst(value, bands[1..]);
      if i > 0 { HigherReachesBandExactlyWhen(value, bands[1..], i - 1); }
    }
  }

  lemma {:induction false} LowerReachesBandExactlyWhen(value: real, bands: seq<Band>, i: nat)
    requires i < |bands| && Ascending(bands)
    ensures LowerIsBetter(value, bands) >= bands[i].score <==> i == |bands| - 1 || value <= bands[i].threshold
  {
    if |bands| > 1 {
      ScoreAtMostFirst(value, bands[1..]);
      if i > 0 { LowerReachesBandExactlyWhen(value, bands[1..], i - 1); }
    }
  }

  const GROWTH_BANDS := [Band(20.0, 100.0), Band(12.0, 80.0), Band(6.0, 60.0), Band(0.0, 40.0), Band(-999.0, 20.0)]
  const RETURN_BANDS := [Band(20.0, 100.0), Band(15.0, 80.0), Band(10.0, 60.0), Band(5.0, 40.0), Band(-999.0, 20.0)]
  const MARGIN_BANDS := [Band(25.0, 100.0), Band(15.0, 80.0), Band(8.0, 60.0), Band(3.0, 40.0), Band(-999.0, 20.0)]
  const DEBT_BANDS := [Band(0.3, 100.0), Band(0.5, 80.0), Band(1.0, 60.0), Band(2.0, 40.0), Band(999.0, 20.0)]
  const COVERAGE_BANDS := [Band(10.0, 100.0), Band(5.0, 80.0), Band(2.0, 60.0), Band(1.0, 40.0), Band(-999.0, 20.0)]
  const PE_BANDS := [Band(15.0, 90.0), Band(25.0, 70.0), Band(40.0, 50.0), Band(999.0, 30.0)]
  const HOLDING_BANDS := [Band(50.0, 90.0), Band(30.0, 70.0), Band(15.0, 50.0), Band(-999.0, 30.0)]
  const PLEDGE_BANDS := [Band(0.0, 100.0), Band(5.0, 70.0), Band(20.0, 40.0), Band(999.0, 10.0)]

  /** The sub-score of a raw figure. */
  function Normalize(f: Factor, value: real): real {
    match f
    case RevenueGrowth | EpsGrowth | ProfitGrowth => HigherIsBetter(value, GROWTH_BANDS)
    case Roe | Roce => HigherIsBetter(value, RETURN_BANDS)
    case OperatingMargin | NetMargin => HigherIsBetter(value, MARGIN_BANDS)
    case DebtToEquity => LowerIsBetter(value, DEBT_BANDS)
    case InterestCoverage => HigherIsBetter(value, COVERAGE_BANDS)
    case OperatingCashFlow | FreeCashFlow => if value > 0.0 then 80.0 else 20.0
    case Pe => if value <= 0.0 then 50.0 else LowerIsBetter(value, PE_BANDS)
    case PromoterHolding => HigherIsBetter(value, HOLDING_BANDS)
    case PromoterPledge => LowerIsBetter(value, PLEDGE_BANDS)
  }

  function One(reached: bool): real { if reached then 1.0 else 0.0 }

  /** The sub-scores of the factors in which more is better, counted by the limits that a figure reaches. */
  lemma {:induction false} HigherFiguresCountLimits(x: real)
    ensures Normalize(RevenueGrowth, x) == Normalize(EpsGrowth, x) == Normalize(ProfitGrowth, x)
    ensures Normalize(RevenueGrowth, x)
            == 20.0 + 20.0 * (One(x >= 20.0) + One(x >= 12.0) + One(x >= 6.0) + One(x >= 0.0))
    ensures Normalize(Roe, x) == Normalize(Roce, x)
            == 20.0 + 20.0 * (One(x >= 20.0) + One(x >= 15.0) + One(x >= 10.0) + One(x >= 5.0))
    ensures Normalize(OperatingMargin, x) == Normalize(NetMargin, x)
            == 20.0 + 20.0 * (One(x >= 25.0) + One(x >= 15.0) + One(x >= 8.0) + One(x >= 3.0))
    ensures Normalize(InterestCoverage, x)
            == 20.0 + 20.0 * (One(x >= 10.0) + One(x >= 5.0) + One(x >= 2.0) + One(x >= 1.0))
    ensures Normalize(OperatingCashFlow, x) == Normalize(FreeCashFlow, x) == 20.0 + 60.0 * One(x > 0.0)
    ensures Normalize(PromoterHolding, x) == 30.0 + 20.0 * (One(x >= 50.0) + One(x >= 30.0) + One(x >= 15.0))
  {
    GrowthLimits(x);
    ReturnLimits(x);
    MarginLimits(x);
    CoverageLimits(x);
    HoldingLimits(x);
  }

  lemma {:induction false} GrowthLimits(x: real)
    ensures HigherIsBetter(x, GROWTH_BANDS)
            == 20.0 + 20.0 * (One(x >= 20.0) + One(x >= 12.0) + One(x >= 6.0) + One(x >= 0.0))
  {
    HigherCounts(x, GROWTH_BANDS, 20.0, 12.0, 6.0, 0.0);
  }

  lemma {:induction false} ReturnLimits(x: real)
    ensures HigherIsBetter(x, RETURN_BANDS)
            == 20.0 + 20.0 * (One(x >= 20.0) + One(x >= 15.0) + One(x >= 10.0) + One(x >= 5.0))
  {
    HigherCounts(x, RETURN_BANDS, 20.0, 15.0, 10.0, 5.0);
  }

  lemma {:induction false} MarginLimits(x: real)
    ensures HigherIsBetter(x, MARGIN_BANDS)
            == 20.0 + 20.0 * (One(x >= 25.0) + One(x >= 15.0) + One(x >= 8.0) + One(x >= 3.0))
  {
    HigherCounts(x, MARGIN_BANDS, 25.0, 15.0, 8.0, 3.0);
  }

  lemma {:induction false} CoverageLimits(x: real)
    ensures HigherIsBetter(x, COVERAGE_BANDS)
            == 20.0 + 20.0 * (One(x >= 10.0) + One(x >= 5.0) + One(x >= 2.0) + One(x >= 1.0))
  {
    HigherCounts(x, COVERAGE_BANDS, 10.0, 5.0, 2.0, 1.0);
  }

  lemma {:induction false} HoldingLimits(x: real)
    ensures HigherIsBetter(x, HOLDING_BANDS) == 30.0 + 20.0 * (One(x >= 50.0) + One(x >= 30.0) + One(x >= 15.0))
  {
    FourHigher(x, HOLDING_BANDS);
  }

  /** And of those in which less is better; a P/E of zero or less says nothing and scores in the middle. */
  lemma {:induction false} LowerFiguresCountLimits(x: real)
    ensures Normalize(DebtToEquity, x)
            == 20.0 + 20.0 * (One(x <= 0.3) + One(x <= 0.5) + One(x <= 1.0) + One(x <= 2.0))
    ensures Normalize(Pe, x)
            == if x <= 0.0 then 50.0 else 30.0 + 20.0 * (One(x <= 15.0) + One(x <= 25.0) + One(x <= 40.0))
    ensures Normalize(PromoterPledge, x) == 10.0 + 30.0 * (One(x <= 0.0) + One(x <= 5.0) + One(x <= 20.0))
  {
    FiveLower(x, DEBT_BANDS);
    FourLower(x, PE_BANDS);
    FourLower(x, PLEDGE_BANDS);
  }

  lemma {:induction false} HigherCounts(x: real, b: seq<Band>, t0: real, t1: real, t2: real, t3: real)
    requires |b| == 5 && t0 > t1 > t2 > t3
    requires b[..4] == [Band(t0, 100.0), Band(t1, 80.0), Band(t2, 60.0), Band(t3, 40.0)] && b[4].score == 20.0
    ensures HigherIsBetter(x, b) == 20.0 + 20.0 * (One(x >= t0) + One(x >= t1) + One(x >= t2) + One(x >= t3))
  {
    FiveHigher(x, b);
    var first := b[..4];
    assert b[0] == first[0] && b[1] == first[1] && b[2] == first[2] && b[3] == first[3];
  }

  lemma {:induction false} FiveHigher(x: real, b: seq<Band>)
    requires |b| == 5
    ensures HigherIsBetter(x, b) ==
            if x >= b[0].threshold then b[0].score else if x >= b[1].threshold then b[1].score
            else if x >= b[2].threshold then b[2].score else if x >= b[3].threshold then b[3].score else b[4].score
  {
    FourHigher(x, b[1..]);
  }

  lemma {:induction false} FourHigher(x: real, b: seq<Band>)
    requires |b| == 4
    ensures HigherIsBetter(x, b) ==
            if x >= b[0].threshold then b[0].score else if x >= b[1].threshold then b[1].score
            else if x >= b[2].threshold then b[2].score else b[3].score
  {
    var c, d := b[1..], b[1..][1..];
    assert d[1..][0] == b[3] && |d[1..]| == 1;
    assert HigherIsBetter(x, c) == if x >= c[0].threshold then c[0].score else HigherIsBetter(x, d);
    assert HigherIsBetter(x, d) == if x >= d[0].threshold then d[0].score else HigherIsBetter(x, d[1..]);
  }

  lemma {:induction false} FiveLower(x: real, b: seq<Band>)
    requires |b| == 5
    ensures LowerIsBetter(x, b) ==
            if x <= b[0].threshold then b[0].score else if x <= b[1].threshold then b[1].score
            else if x <= b[2].threshold then b[2].score else if x <= b[3].threshold then b[3].score else b[4].score
  {
    FourLower(x, b[1..]);
  }

  lemma {:induction false} FourLower(x: real, b: seq<Band>)
    requires |b| == 4
    ensures LowerIsBetter(x, b) ==
            if x <= b[0].threshold then b[0].score else if x <= b[1].threshold then b[1].score
            else if x <= b[2].threshold then b[2].score else b[3].score
  {
    var c, d := b[1..], b[1..][1..];
    assert d[1..][0] == b[3] && |d[1..]| == 1;
    assert LowerIsBetter(x, c) == if x <= c[0].threshold then c[0].score else LowerIsBetter(x, d);
    assert LowerIsBetter(x, d) == if x <= d[0].threshold then d[0].score else LowerIsBetter(x, d[1..]);
  }

  /** Whether a figure is better, by the direction of its factor; the P/E has none. */
  predicate NoWorse(f: Factor, value: real, other: real) {
    match f
    case DebtToEquity | PromoterPledge => value <= other
    case Pe => false
    case _ => value >= other
  }

  lemma {:induction false} BetterFiguresScoreNoLess(f: Factor, value: real, other: real)
    requires NoWorse(f, value, other)
    ensures Normalize(f, value) >= Normalize(f, other)
  {
    match f
    case DebtToEquity => BandsAreMonotone(value, other, DEBT_BANDS);
    case PromoterPledge => BandsAreMonotone(value, other, PLEDGE_BANDS);
    case RevenueGrowth | EpsGrowth | ProfitGrowth => BandsAreMonotone(other, value, GROWTH_BANDS);
    case Roe | Roce => BandsAreMonotone(other, value, RETURN_BANDS);
    case OperatingMargin | NetMargin => BandsAreMonotone(other, value, MARGIN_BANDS);
    case InterestCoverage => BandsAreMonotone(other, value, COVERAGE_BANDS);
    case PromoterHolding => BandsAreMonotone(other, value, HOLDING_BANDS);
    case OperatingCashFlow | FreeCashFlow =>
  }

  /** The P/E is not one-directional: a loss scores less than a cheap profit and more than an expensive one. */
  lemma {:induction false} PeIsNotMonotone()
    ensures Normalize(Pe, -1.0) < Normalize(Pe, 10.0) && Normalize(Pe, 10.0) > Normalize(Pe, 50.0)
    ensures Normalize(Pe, -1.0) > Normalize(Pe, 50.0)
  {
    var pe := 50.0;
    assert PE_BANDS[1..][0] == PE_BANDS[1] && PE_BANDS[1..][1..][0] == PE_BANDS[2]
      && PE_BANDS[1..][1..][1..][0] == PE_BANDS[3];
    assert LowerIsBetter(pe, PE_BANDS) == LowerIsBetter(pe, PE_BANDS[1..]) == LowerIsBetter(pe, PE_BANDS[1..][1..]);
    assert LowerIsBetter(pe, PE_BANDS[1..][1..]) == LowerIsBetter(pe, PE_BANDS[1..][1..][1..]);
  }

  // ----- the score

  /** The known figures. */
  type Figures = map<Factor, real>

  datatype Weights = Weights(growth: real, profitability: real, financialStrength: real, cashFlow: real,
                             valuation: real, ownership: real)

  /** A category's weight is shared equally by its factors. */
  function Weight(w: Weights, f: Factor): real {
    match CategoryOf(f)
    case Growth => w.growth / 3.0
    case Profitability => w.profitability / 4.0
    case FinancialStrength => w.financialStrength / 2.0
    case CashFlow => w.cashFlow / 2.0
    case Valuation => w.valuation
    case Ownership => w.ownership / 2.0
  }

  /** The shares of a category's factors are equal and add up to its weight. */
  lemma {:induction false} WeightsAreShared(w: Weights)
    ensures Weight(w, RevenueGrowth) + Weight(w, EpsGrowth) + Weight(w, ProfitGrowth) == w.growth
    ensures Weight(w, RevenueGrowth) == Weight(w, EpsGrowth) == Weight(w, ProfitGrowth)
    ensures Weight(w, Roe) + Weight(w, Roce) + Weight(w, OperatingMargin) + Weight(w, NetMargin) == w.profitability
    ensures Weight(w, Roe) == Weight(w, Roce) == Weight(w, OperatingMargin) == Weight(w, NetMargin)
    ensures Weight(w, DebtToEquity) + Weight(w, InterestCoverage) == w.financialStrength
    ensures Weight(w, DebtToEquity) == Weight(w, InterestCoverage)
    ensures Weight(w, OperatingCashFlow) + Weight(w, FreeCashFlow) == w.cashFlow
    ensures Weight(w, OperatingCashFlow) == Weight(w, FreeCashFlow)
    ensures Weight(w, Pe) == w.valuation
    ensures Weight(w, PromoterHolding) + Weight(w, PromoterPledge) == w.ownership
    ensures Weight(w, PromoterHolding) == Weight(w, PromoterPledge)
  {
  }

  /** The sub-scores of the known factors, and the weights of all of them. */
  type Scores = map<Factor, real>

  function Scored(figures: Figures): (r: Scores)
    ensures r.Keys == figures.Keys
  {
    map f | f in figures :: Normalize(f, figures[f])
  }

  function Shares(w: Weights): Scores {
    map f | f in FACTORS :: Weight(w, f)
  }

  ghost predicate Weighted(factors: seq<Factor>, shares: Scores) {
    && (forall i :: 0 <= i < |factors| ==> factors[i] in shares && shares[factors[i]] >= 0.0)
    && forall i, j :: 0 <= i < j < |factors| ==> factors[i] != factors[j]
  }

  function ShareOf(shares: Scores, f: Factor): real { if f in shares then shares[f] else 0.0 }

  /** The total weight, the total contribution and the number of the known factors. */
  function WeightSum(factors: seq<Factor>, scores: Scores, shares: Scores): real {
    if factors == [] then 0.0 else
      var f := factors[|factors| - 1];
      WeightSum(factors[..|factors| - 1], scores, shares) + if f in scores then ShareOf(shares, f) else 0.0
  }

  function ContributionSum(factors: seq<Factor>, scores: Scores, shares: Scores): real {
    if factors == [] then 0.0 else
      var f := factors[|factors| - 1];
      ContributionSum(factors[..|factors| - 1], scores, shares) + Contribution(f, scores, shares)
  }

  function Contribution(f: Factor, scores: Scores, shares: Scores): real {
    if f in scores then scores[f] * ShareOf(shares, f) else 0.0
  }

  function Known(factors: seq<Factor>, scores: Scores): nat {
    if factors == [] then 0 else
      Known(factors[..|factors| - 1], scores) + if factors[|factors| - 1] in scores then 1 else 0
  }

  function Mean(factors: seq<Factor>, scores: Scores, shares: Scores): Option<real> {
    if WeightSum(factors, scores, shares) > 0.0
    then Some(ContributionSum(factors, scores, shares) / WeightSum(factors, scores, shares))
    else None
  }

  /** The weighted mean of the known sub-scores. */
  function Overall(figures: Figures, w: Weights): Option<real> {
    Mean(FACTORS, Scored(figures), Shares(w))
  }

  /** The weights of the known ones among the factors. */
  function KnownWeight(factors: seq<Factor>, figures: Figures, w: Weights): real {
    if factors == [] then 0.0 else
      var f := factors[|factors| - 1];
      KnownWeight(factors[..|factors| - 1], figures, w) + if f in figures then Weight(w, f) else 0.0
  }

  /** Their sub-scores, each times its weight. */
  function KnownScore(factors: seq<Factor>, figures: Figures, w: Weights): real {
    if factors == [] then 0.0 else
      var f := factors[|factors| - 1];
      KnownScore(factors[..|factors| - 1], figures, w)
      + if f in figures then Normalize(f, figures[f]) * Weight(w, f) else 0.0
  }

  lemma {:induction false} SumsAreKnown(factors: seq<Factor>, figures: Figures, w: Weights)
    ensures WeightSum(factors, Scored(figures), Shares(w)) == KnownWeight(factors, figures, w)
    ensures ContributionSum(factors, Scored(figures), Shares(w)) == KnownScore(factors, figures, w)
  {
    if factors != [] {
      SumsAreKnown(factors[..|factors| - 1], figures, w);
      EveryFactorCounts(factors[|factors| - 1]);
    }
  }

  /** A mean times the weight makes the total; there is one if the weight is positive. */
  predicate IsMeanOf(mean: Option<real>, total: real, weight: real) {
    (mean.Some? <==> weight > 0.0) && (mean.Some? ==> mean.value * weight == total)
  }

  /** The score is the mean of the known sub-scores, weighted by their factors. */
  lemma {:induction false} OverallIsWeightedMean(figures: Figures, w: Weights)
    ensures IsMeanOf(Overall(figures, w), KnownScore(FACTORS, figures, w), KnownWeight(FACTORS, figures, w))
  {
    SumsAreKnown(FACTORS, figures, w);
    MeanTimesWeight(FACTORS, Scored(figures), Shares(w));
  }

  lemma {:induction false} MeanTimesWeight(factors: seq<Factor>, scores: Scores, shares: Scores)
    ensures IsMeanOf(Mean(factors, scores, shares), ContributionSum(factors, scores, shares),
                     WeightSum(factors, scores, shares))
  {
    if Mean(factors, scores, shares).Some? {
      DivisionBounds(ContributionSum(factors, scores, shares), WeightSum(factors, scores, shares), 0.0);
    }
  }

  datatype Tier = Unknown | Good | Weak

  const GOOD_TIER_THRESHOLD := 55.0

  /** The three totals over the factors. */
  method Totals(factors: seq<Factor>, scores: Scores, shares: Scores)
    returns (weights: real, contributions: real, known: nat)
    ensures weights == WeightSum(factors, scores, shares) && contributions == ContributionSum(factors, scores, shares)
    ensures known == Known(factors, scores)
  {
    weights, contributions, known := 0.0, 0.0, 0;
    for i := 0 to |factors|
      invariant weights == WeightSum(factors[..i], scores, shares)
      invariant contributions == ContributionSum(factors[..i], scores, shares)
      invariant known == Known(factors[..i], scores)
    {
      assert factors[..i + 1][..i] == factors[..i];
      var f := factors[i];
      if f in scores {
        weights := weights + ShareOf(shares, f);
        contributions := contributions + scores[f] * ShareOf(shares, f);
        known := known + 1;
      }
    }
    assert factors[..|factors|] == factors;
  }

  method Score(data: Option<Figures>, w: Weights, minCompleteness: real)
    returns (tier: Tier, score: Option<real>, completeness: real)
    ensures completeness == if data.None? then 0.0 else 100.0 * |data.value| as real / 14.0
    ensures score == if data.Some? && completeness >= minCompleteness then Overall(data.value, w) else None
    ensures tier == if score.None? then Unknown else if score.value >= 55.0 then Good else Weak
  {
    if data.None? { return Unknown, None, 0.0; }
    var weights, contributions, known := Totals(FACTORS, Scored(data.value), Shares(w));
    KnownCountsFigures(data.value);
    completeness := 100.0 * known as real / |FACTORS| as real;
    var overall := if weights > 0.0 then Some(contributions / weights) else None;
    if overall.None? || completeness < minCompleteness { return Unknown, None, completeness; }
    return if overall.value >= GOOD_TIER_THRESHOLD then Good else Weak, overall, completeness;
  }

  lemma {:induction false} KnownCountsFigures(figures: Figures)
    ensures Known(FACTORS, Scored(figures)) == |figures|
  {
    FactorsAreDistinct(FACTORS);
    forall f ensures f in FACTORS { EveryFactorCounts(f); }
    KnownIsSize(FACTORS, Scored(figures), figures.Keys);
  }

  lemma {:induction false} KnownIsSize(factors: seq<Factor>, scores: Scores, known: set<Factor>)
    requires forall i, j :: 0 <= i < j < |factors| ==> factors[i] != factors[j]
    requires forall f :: f in known <==> f in factors && f in scores
    ensures Known(factors, scores) == |known|
  {
    if factors != [] {
      var front, last := factors[..|factors| - 1], factors[|factors| - 1];
      assert factors == front + [last] && last !in front;
      KnownIsSize(front, scores, known - {last});
    } else {
      assert known == {};
    }
  }

  // ----- what the score promises

  lemma {:induction false} DivisionBounds(c: real, w: real, x: real)
    requires w > 0.0
    ensures (c / w) * w == c
    ensures x * w <= c ==> x <= c / w
    ensures c <= x * w ==> c / w <= x
  {
    var q := c / w;
    assert q * w == c;
    assert q < x ==> (x - q) * w > 0.0;
    assert x < q ==> (q - x) * w > 0.0;
  }

  ghost predicate Bounds(scores: Scores, lo: real, hi: real) {
    forall f <- scores :: lo <= scores[f] <= hi
  }

  ghost predicate WithinBounds(c: real, sum: real, lo: real, hi: real) {
    lo * sum <= c <= hi * sum
  }

  lemma {:induction false} ContributionBounds(factors: seq<Factor>, scores: Scores, shares: Scores, lo: real, hi: real)
    requires Weighted(factors, shares) && Bounds(scores, lo, hi)
    ensures WithinBounds(ContributionSum(factors, scores, shares), WeightSum(factors, scores, shares), lo, hi)
  {
    if factors != [] {
      var front, f := factors[..|factors| - 1], factors[|factors| - 1];
      ContributionBounds(front, scores, shares, lo, hi);
      if f in scores {
        BoundedStep(lo, scores[f], hi,
                    ContributionSum(front, scores, shares), WeightSum(front, scores, shares), ShareOf(shares, f),
                    ContributionSum(factors, scores, shares), WeightSum(factors, scores, shares));
      } else {
        assert ContributionSum(factors, scores, shares) == ContributionSum(front, scores, shares);
        assert WeightSum(factors, scores, shares) == WeightSum(front, scores, shares);
      }
    } else {
      EmptyBounds(lo, hi);
    }
  }

  lemma {:induction false} EmptyBounds(lo: real, hi: real)
    ensures WithinBounds(0.0, 0.0, lo, hi)
  {
  }

  lemma {:induction false} BoundedStep(lo: real, sub: real, hi: real, c: real, sum: real, weight: real, c': real,
                                       sum': real)
    requires lo <= sub <= hi && 0.0 <= weight && WithinBounds(c, sum, lo, hi)
    requires c' == c + sub * weight && sum' == sum + weight
    ensures WithinBounds(c', sum', lo, hi)
  {
    AddTerm(lo, sub, hi, c, sum, weight);
  }

  lemma {:induction false} AddTerm(lo: real, sub: real, hi: real, c: real, sum: real, weight: real)
    requires lo <= sub <= hi && 0.0 <= weight && lo * sum <= c <= hi * sum
    ensures lo * (sum + weight) <= c + sub * weight <= hi * (sum + weight)
  {
    MulMonotone(weight, lo, sub);
    MulMonotone(weight, sub, hi);
    assert lo * (sum + weight) == lo * sum + lo * weight && hi * (sum + weight) == hi * sum + hi * weight;
  }

  lemma {:induction false} MeanIsBetween(factors: seq<Factor>, scores: Scores, shares: Scores, lo: real, hi: real)
    requires Weighted(factors, shares) && Bounds(scores, lo, hi) && Mean(factors, scores, shares).Some?
    ensures lo <= Mean(factors, scores, shares).value <= hi
  {
    ContributionBounds(factors, scores, shares, lo, hi);
    DivisionBounds(ContributionSum(factors, scores, shares), WeightSum(factors, scores, shares), lo);
    DivisionBounds(ContributionSum(factors, scores, shares), WeightSum(factors, scores, shares), hi);
  }

  ghost predicate NonNegative(w: Weights) { forall f :: Weight(w, f) >= 0.0 }

  lemma {:induction false} FactorsAreWeighted(w: Weights)
    requires NonNegative(w)
    ensures Weighted(FACTORS, Shares(w))
  {
    forall i | 0 <= i < |FACTORS| ensures FACTORS[i] in Shares(w) && Shares(w)[FACTORS[i]] >= 0.0 {
      assert Weight(w, FACTORS[i]) >= 0.0;
    }
    FactorsAreDistinct(FACTORS);
  }

  function IndexOf(f: Factor): nat {
    match f
    case RevenueGrowth => 0 case EpsGrowth => 1 case ProfitGrowth => 2 case Roe => 3 case Roce => 4
    case OperatingMargin => 5 case NetMargin => 6 case DebtToEquity => 7 case InterestCoverage => 8
    case OperatingCashFlow => 9 case FreeCashFlow => 10 case Pe => 11
    case PromoterHolding => 12 case PromoterPledge => 13
  }

  lemma {:induction false} FactorsAreDistinct(factors: seq<Factor>)
    requires factors == FACTORS
    ensures forall i, j :: 0 <= i < j < |factors| ==> factors[i] != factors[j]
  {
    forall i | 0 <= i < |factors| ensures IndexOf(factors[i]) == i { }
  }

  lemma {:induction false} EveryFactorCounts(f: Factor)
    ensures f in FACTORS
  {
    assert FACTORS[IndexOf(f)] == f;
  }

  /** The score lies between any bounds of the known sub-scores, so between the least and the greatest. */
  lemma {:induction false} ScoreIsBetween(figures: Figures, w: Weights, lo: real, hi: real)
    requires NonNegative(w) && Bounds(Scored(figures), lo, hi) && Overall(figures, w).Some?
    ensures lo <= Overall(figures, w).value <= hi
  {
    FactorsAreWeighted(w);
    MeanIsBetween(FACTORS, Scored(figures), Shares(w), lo, hi);
  }

  lemma {:induction false} LastIsNew(factors: seq<Factor>, shares: Scores, f: Factor)
    requires Weighted(factors, shares) && factors != []
    ensures var front, last := factors[..|factors| - 1], factors[|factors| - 1];
            Weighted(front, shares) && last !in front && (f in factors <==> f in front || f == last)
  {
    var front, last := factors[..|factors| - 1], factors[|factors| - 1];
    assert factors == front + [last];
    forall i | 0 <= i < |front| ensures front[i] != last { assert factors[i] != factors[|factors| - 1]; }
  }

  /** Changing or adding one sub-score changes the sums by that factor's share alone. */
  lemma {:induction false} WeightChanges(factors: seq<Factor>, scores: Scores, shares: Scores, f: Factor, value: real)
    requires Weighted(factors, shares)
    ensures WeightSum(factors, scores[f := value], shares) ==
            WeightSum(factors, scores, shares) + if f in factors && f !in scores then ShareOf(shares, f) else 0.0
  {
    if factors != [] {
      LastIsNew(factors, shares, f);
      WeightChanges(factors[..|factors| - 1], scores, shares, f, value);
    }
  }

  lemma {:induction false} ContributionChanges(factors: seq<Factor>, scores: Scores, shares: Scores, f: Factor,
                                               value: real)
    requires Weighted(factors, shares)
    ensures ContributionSum(factors, scores[f := value], shares) ==
            ContributionSum(factors, scores, shares)
            + if f in factors then Contribution(f, scores[f := value], shares) - Contribution(f, scores, shares)
              else 0.0
  {
    if factors != [] {
      var front, last := factors[..|factors| - 1], factors[|factors| - 1];
      LastIsNew(factors, shares, f);
      ContributionChanges(front, scores, shares, f, value);
      if last != f { SameContribution(last, scores, shares, f, value); }
    }
  }

  lemma {:induction false} SameContribution(g: Factor, scores: Scores, shares: Scores, f: Factor, value: real)
    requires g != f
    ensures Contribution(g, scores[f := value], shares) == Contribution(g, scores, shares)
  {
  }

  lemma {:induction false} ContributionIsMonotone(f: Factor, scores: Scores, shares: Scores, value: real)
    requires f in scores && scores[f] <= value && ShareOf(shares, f) >= 0.0
    ensures Contribution(f, scores, shares) <= Contribution(f, scores[f := value], shares)
  {
    MulMonotone(ShareOf(shares, f), scores[f], value);
  }

  lemma {:induction false} ScoredWith(figures: Figures, f: Factor, value: real)
    ensures Scored(figures[f := value]) == Scored(figures)[f := Normalize(f, value)]
  {
  }

  /** A better figure never lowers the score. */
  lemma {:induction false} ScoreIsMonotone(figures: Figures, w: Weights, f: Factor, value: real)
    requires NonNegative(w) && f in figures && NoWorse(f, value, figures[f]) && Overall(figures, w).Some?
    ensures Overall(figures[f := value], w).Some? && Overall(figures[f := value], w).value >= Overall(figures, w).value
  {
    BetterFiguresScoreNoLess(f, value, figures[f]);
    ScoredWith(figures, f, value);
    FactorsAreWeighted(w);
    MeanIsMonotone(FACTORS, Scored(figures), Shares(w), f, Normalize(f, value));
  }

  lemma {:induction false} LargerQuotient(c: real, larger: real, w: real)
    requires w > 0.0 && c <= larger
    ensures c / w <= larger / w
  {
    DivisionBounds(c, w, 0.0);
    DivisionBounds(larger, w, c / w);
  }

  lemma {:induction false} MeanIsMonotone(factors: seq<Factor>, scores: Scores, shares: Scores, f: Factor, sub: real)
    requires Weighted(factors, shares) && f in scores && sub >= scores[f] && Mean(factors, scores, shares).Some?
    ensures Mean(factors, scores[f := sub], shares).Some?
    ensures Mean(factors, scores[f := sub], shares).value >= Mean(factors, scores, shares).value
  {
    WeightChanges(factors, scores, shares, f, sub);
    ContributionChanges(factors, scores, shares, f, sub);
    if f in factors { ContributionIsMonotone(f, scores, shares, sub); }
    LargerQuotient(ContributionSum(factors, scores, shares), ContributionSum(factors, scores[f := sub], shares),
                   WeightSum(factors, scores, shares));
  }

  /** A newly known factor moves the score toward its sub-score, never past it. */
  lemma {:induction false} NewFactorAttracts(figures: Figures, w: Weights, f: Factor, value: real)
    requires NonNegative(w) && f !in figures && Overall(figures, w).Some?
    ensures Overall(figures[f := value], w).Some?
    ensures Between(Overall(figures, w).value, Overall(figures[f := value], w).value, Normalize(f, value))
  {
    ScoredWith(figures, f, value);
    FactorsAreWeighted(w);
    EveryFactorCounts(f);
    MeanMoves(FACTORS, Scored(figures), Shares(w), f, Normalize(f, value));
  }

  predicate Between(a: real, b: real, c: real) { a <= b <= c || c <= b <= a }

  lemma {:induction false} MeanMoves(factors: seq<Factor>, scores: Scores, shares: Scores, f: Factor, sub: real)
    requires Weighted(factors, shares) && f in factors && f !in scores && Mean(factors, scores, shares).Some?
    ensures Mean(factors, scores[f := sub], shares).Some?
    ensures Between(Mean(factors, scores, shares).value, Mean(factors, scores[f := sub], shares).value, sub)
  {
    WeightChanges(factors, scores, shares, f, sub);
    ContributionChanges(factors, scores, shares, f, sub);
    var c, sum := ContributionSum(factors, scores, shares), WeightSum(factors, scores, shares);
    var share := ShareOf(shares, f);
    WeightedMeanMoves(c, sum, sub, share, ContributionSum(factors, scores[f := sub], shares),
                      WeightSum(factors, scores[f := sub], shares));
  }

  lemma {:induction false} WeightedMeanMoves(c: real, sum: real, sub: real, weight: real, moved: real, total: real)
    requires sum > 0.0 && weight >= 0.0 && moved == c + sub * weight && total == sum + weight
    ensures Between(c / sum, moved / total, sub)
  {
    var mean := c / sum;
    DivisionBounds(c, sum, 0.0);
    DivisionBounds(moved, total, mean);
    DivisionBounds(moved, total, sub);
    if mean <= sub {
      MulMonotone(sum, mean, sub);
      AddTerm(mean, sub, sub, c, sum, weight);
    } else {
      MulMonotone(sum, sub, mean);
      AddTerm(sub, sub, mean, c, sum, weight);
    }
  }
}

/**
 * The futures-math engine: year fractions, cost-of-carry pricing, basis and
 * its annualization, funding cash flows, cash-and-carry PnL and the USD-M
 * funding-rate prediction from a premium index. Every operation is a pure
 * function over exact reals. The two transcendental operations of the engine,
 * the exponential and the real power, are parameters (`exp`, `pow`); the
 * lemmas that need a fact about them take it as a hypothesis.
 */
module FuturesMath {
  import opened Wrappers
  import opened RateSum

  // ---------------------------------------------------------------------------
  // Small real-number helpers

  function Max(a: real, b: real): real { if a >= b then a else b }
  function Min(a: real, b: real): real { if a <= b then a else b }
  function Dist(a: real, b: real): real { if a >= b then a - b else b - a }

  // ---------------------------------------------------------------------------
  // Time utility

  /** ACT/365-Fixed: a year is exactly 365 days of 86400 seconds. */
  const SecondsPerYear: real := 365.0 * 24.0 * 3600.0

  /** The floor below which a year fraction is never returned (1e-12). */
  const YearFractionFloor: real := 0.000000000001

  /**
   * Year fraction between two POSIX timestamps in seconds. An interval that is
   * empty, inverted or shorter than the floor silently yields the floor.
   */
  function YearFraction(startTs: real, endTs: real): (t: real)
    ensures t >= YearFractionFloor
    ensures t == (endTs - startTs) / SecondsPerYear
            <==> (endTs - startTs) / SecondsPerYear >= YearFractionFloor
    ensures (endTs - startTs) / SecondsPerYear < YearFractionFloor ==> t == YearFractionFloor
  {
    Max(YearFractionFloor, (endTs - startTs) / SecondsPerYear)
  }

  /** A full 365-day year is one year. */
  lemma YearFractionOfYear(startTs: real)
    ensures YearFraction(startTs, startTs + 31536000.0) == 1.0
  {
  }

  /** One day is 1/365 of a year. */
  lemma YearFractionOfDay(startTs: real)
    ensures YearFraction(startTs, startTs + 86400.0) == 1.0 / 365.0
  {
  }

  /** An empty or inverted interval is not an error: it gives the floor. */
  lemma YearFractionInverted(startTs: real, endTs: real)
    requires endTs <= startTs
    ensures YearFraction(startTs, endTs) == YearFractionFloor
  {
  }

  /** Later end, larger (or equal) year fraction. */
  lemma YearFractionMonotone(startTs: real, endTs: real, endTs': real)
    requires endTs <= endTs'
    ensures YearFraction(startTs, endTs) <= YearFraction(startTs, endTs')
  {
  }

  /** Year fractions of adjacent intervals add up, as long as neither piece is floored. */
  lemma YearFractionAdditive(t0: real, t1: real, t2: real)
    requires (t1 - t0) / SecondsPerYear >= YearFractionFloor
    requires (t2 - t1) / SecondsPerYear >= YearFractionFloor
    ensures YearFraction(t0, t1) + YearFraction(t1, t2) == YearFraction(t0, t2)
  {
  }

  // ---------------------------------------------------------------------------
  // Cost-of-carry pricing

  /**
   * Forward price F = S * exp((r - c) * T), with r the annual financing rate
   * and c the annual carry yield. No input is rejected.
   */
  function CostOfCarryFairPrice(exp: real -> real, spot: real, rAnnual: real, cAnnual: real,
                                tYears: real): (f: real)
    ensures exp(0.0) == 1.0 && (tYears == 0.0 || rAnnual == cAnnual) ==> f == spot
  {
    var growth := (rAnnual - cAnnual) * tYears;
    assert tYears == 0.0 || rAnnual == cAnnual ==> growth == 0.0;
    spot * exp(growth)
  }

  /** A product of two non-negative reals is non-negative. */
  lemma MulNonNeg(x: real, y: real)
    requires x >= 0.0 && y >= 0.0
    ensures x * y >= 0.0
  {
  }

  /**
   * For a positive spot, a non-negative net carry and an increasing exponential,
   * the forward price does not decrease with time to expiry.
   */
  lemma CostOfCarryMonotoneInTime(exp: real -> real, spot: real, rAnnual: real, cAnnual: real,
                                  t: real, t': real)
    requires forall x, y :: x <= y ==> exp(x) <= exp(y)
    requires spot > 0.0 && rAnnual >= cAnnual && t <= t'
    ensures CostOfCarryFairPrice(exp, spot, rAnnual, cAnnual, t)
            <= CostOfCarryFairPrice(exp, spot, rAnnual, cAnnual, t')
  {
    var k := rAnnual - cAnnual;
    MulNonNeg(k, t' - t);
    assert k * t <= k * t';
    MulNonNeg(spot, exp(k * t') - exp(k * t));
  }

  /**
   * For a positive spot, a non-positive net carry and an increasing exponential,
   * the forward price does not increase with time to expiry.
   */
  lemma CostOfCarryAntitoneInTime(exp: real -> real, spot: real, rAnnual: real, cAnnual: real,
                                  t: real, t': real)
    requires forall x, y :: x <= y ==> exp(x) <= exp(y)
    requires spot > 0.0 && rAnnual <= cAnnual && t <= t'
    ensures CostOfCarryFairPrice(exp, spot, rAnnual, cAnnual, t')
            <= CostOfCarryFairPrice(exp, spot, rAnnual, cAnnual, t)
  {
    var k := rAnnual - cAnnual;
    MulNonNeg(cAnnual - rAnnual, t' - t);
    assert k * t' <= k * t;
    MulNonNeg(spot, exp(k * t) - exp(k * t'));
  }

  /** Errors the engine raises to its caller. */
  datatype MathError = ZeroDivisionError

  /**
   * Basis as a fraction, (F - S) / S. A zero spot is a division error; any
   * other spot gives the unique b with F == S * (1 + b).
   */
  function Basis(f: real, spot: real): (res: Result<real, MathError>)
    ensures res.Err? <==> spot == 0.0
    ensures res.Ok? ==> res.value * spot + spot == f
  {
    if spot == 0.0 then Err(ZeroDivisionError) else Ok((f - spot) / spot)
  }

  /** A futures price equal to spot has zero basis. */
  lemma BasisOfSpot(spot: real)
    requires spot != 0.0
    ensures Basis(spot, spot) == Ok(0.0)
  {
  }

  /** Basis inverts the scaling of spot by (1 + b). */
  lemma BasisRoundTrip(spot: real, b: real)
    requires spot != 0.0
    ensures Basis(spot * (1.0 + b), spot) == Ok(b)
  {
    var res := Basis(spot * (1.0 + b), spot);
    assert res.value * spot == b * spot;
    assert (res.value - b) * spot == 0.0;
  }

  /** A price g times spot has basis g - 1. */
  lemma BasisOfMultiple(f: real, spot: real, g: real)
    requires spot != 0.0 && f == spot * g
    ensures Basis(f, spot) == Ok(g - 1.0)
  {
    var h := g - 1.0;
    assert f - spot == spot * h;
    assert (spot * h) / spot == h;
  }

  /** For a positive spot, the basis is positive exactly when the future trades above spot. */
  lemma BasisSign(f: real, spot: real)
    requires spot > 0.0
    ensures Basis(f, spot).Ok?
    ensures Basis(f, spot).value > 0.0 <==> f > spot
    ensures Basis(f, spot).value < 0.0 <==> f < spot
  {
  }

  /** The basis of the cost-of-carry forward over its own spot is the growth factor less one. */
  lemma CostOfCarryBasis(exp: real -> real, spot: real, rAnnual: real, cAnnual: real, tYears: real)
    requires spot != 0.0
    ensures Basis(CostOfCarryFairPrice(exp, spot, rAnnual, cAnnual, tYears), spot)
            == Ok(exp((rAnnual - cAnnual) * tYears) - 1.0)
  {
    var g := exp((rAnnual - cAnnual) * tYears);
    BasisOfMultiple(CostOfCarryFairPrice(exp, spot, rAnnual, cAnnual, tYears), spot, g);
  }

  /**
   * Annualized basis (1 + b)^(1/T) - 1. A non-positive tenor gives the
   * not-a-number sentinel (None) instead of raising.
   */
  function AnnualizeBasis(pow: (real, real) -> real, b: real, tYears: real): (res: Option<real>)
    ensures res.None? <==> tYears <= 0.0
    ensures res.Some? ==> 1.0 + res.value == pow(1.0 + b, 1.0 / tYears)
  {
    if tYears <= 0.0 then None else Some(pow(1.0 + b, 1.0 / tYears) - 1.0)
  }

  /** Over a one-year tenor the annualized basis is the basis itself. */
  lemma AnnualizeBasisOverOneYear(pow: (real, real) -> real, b: real)
    requires forall x :: pow(x, 1.0) == x
    ensures AnnualizeBasis(pow, b, 1.0) == Some(b)
  {
  }

  /** A zero basis annualizes to zero over any positive tenor. */
  lemma AnnualizeZeroBasis(pow: (real, real) -> real, tYears: real)
    requires forall y :: pow(1.0, y) == 1.0
    requires tYears > 0.0
    ensures AnnualizeBasis(pow, 0.0, tYears) == Some(0.0)
  {
  }

  // ---------------------------------------------------------------------------
  // Funding accounting

  /** The side of a perpetual position. */
  datatype Side = Long | Short

  function Opposite(side: Side): Side
  {
    match side
    case Long => Short
    case Short => Long
  }

  /** A positive funding rate is paid by longs and received by shorts. */
  function Sign(side: Side): (sgn: real)
    ensures sgn == 1.0 || sgn == -1.0
    ensures sgn < 0.0 <==> side == Long
    ensures sgn > 0.0 <==> side == Short
  {
    match side
    case Long => -1.0
    case Short => 1.0
  }

  /**
   * Funding PnL of a position of the given notional over a series of
   * per-interval rates, from the position's own point of view (positive means
   * net receipt).
   */
  function FundingCashflows(notionalUsd: real, fundingRates: seq<real>, side: Side): (pnl: real)
    ensures notionalUsd > 0.0 && Sum(fundingRates) > 0.0 ==> (pnl < 0.0 <==> side == Long)
    ensures notionalUsd > 0.0 && Sum(fundingRates) > 0.0 ==> (pnl > 0.0 <==> side == Short)
  {
    var total := Sum(fundingRates);
    assert notionalUsd > 0.0 && total > 0.0 ==> notionalUsd * total > 0.0;
    notionalUsd * Sign(side) * total
  }

  /** An empty series yields no cash flow. */
  lemma FundingEmpty(notionalUsd: real, side: Side)
    ensures FundingCashflows(notionalUsd, [], side) == 0.0
  {
  }

  /** A single rate r: the long pays N * r and the short receives it. */
  lemma FundingSingleRate(notionalUsd: real, r: real)
    ensures FundingCashflows(notionalUsd, [r], Long) == -(notionalUsd * r)
    ensures FundingCashflows(notionalUsd, [r], Short) == notionalUsd * r
  {
    SumSingleton(r);
  }

  /**
   * When every rate is non-negative and the notional is non-negative, the short
   * never pays and the long never receives; with non-positive rates it is the
   * other way round.
   */
  lemma FundingDirection(notionalUsd: real, fundingRates: seq<real>)
    requires notionalUsd >= 0.0
    ensures (forall i :: 0 <= i < |fundingRates| ==> fundingRates[i] >= 0.0)
            ==> FundingCashflows(notionalUsd, fundingRates, Short) >= 0.0
                && FundingCashflows(notionalUsd, fundingRates, Long) <= 0.0
    ensures (forall i :: 0 <= i < |fundingRates| ==> fundingRates[i] <= 0.0)
            ==> FundingCashflows(notionalUsd, fundingRates, Short) <= 0.0
                && FundingCashflows(notionalUsd, fundingRates, Long) >= 0.0
  {
    if forall i :: 0 <= i < |fundingRates| ==> fundingRates[i] >= 0.0 {
      SumNonNeg(fundingRates);
      MulNonNeg(notionalUsd, Sum(fundingRates));
    }
    if forall i :: 0 <= i < |fundingRates| ==> fundingRates[i] <= 0.0 {
      SumNonPos(fundingRates);
      MulNonNeg(notionalUsd, -Sum(fundingRates));
    }
  }

  /** Funding is a transfer: what one side pays the other receives. */
  lemma FundingZeroSum(notionalUsd: real, fundingRates: seq<real>, side: Side)
    ensures FundingCashflows(notionalUsd, fundingRates, side)
            == -FundingCashflows(notionalUsd, fundingRates, Opposite(side))
  {
  }

  /** Only the multiset of rates matters: any reordering gives the same cash flow. */
  lemma FundingPermutation(notionalUsd: real, rates: seq<real>, rates': seq<real>, side: Side)
    requires multiset(rates) == multiset(rates')
    ensures FundingCashflows(notionalUsd, rates, side) == FundingCashflows(notionalUsd, rates', side)
  {
    SumPermutation(rates, rates');
  }

  /** A most-recent-first series gives the same cash flow as the chronological one. */
  lemma FundingReversed(notionalUsd: real, rates: seq<real>, side: Side)
    ensures FundingCashflows(notionalUsd, Reversed(rates), side)
            == FundingCashflows(notionalUsd, rates, side)
  {
    SumReversed(rates);
  }

  /** Cash flows over two consecutive windows add up to the cash flow over both. */
  lemma FundingConcat(notionalUsd: real, earlier: seq<real>, later: seq<real>, side: Side)
    ensures FundingCashflows(notionalUsd, earlier + later, side)
            == FundingCashflows(notionalUsd, earlier, side) + FundingCashflows(notionalUsd, later, side)
  {
    var k := notionalUsd * Sign(side);
    calc {
      FundingCashflows(notionalUsd, earlier + later, side);
      k * Sum(earlier + later);
      { SumConcat(earlier, later);
        ScaledSumsAdd(k, Sum(earlier), Sum(later), Sum(earlier + later)); }
      k * Sum(earlier) + k * Sum(later);
      FundingCashflows(notionalUsd, earlier, side) + FundingCashflows(notionalUsd, later, side);
    }
  }

  /** Scaling distributes over a sum of two parts. */
  lemma ScaledSumsAdd(k: real, a: real, b: real, total: real)
    requires total == a + b
    ensures k * total == k * a + k * b
  {
  }

  /** Basis points per unit fraction. */
  const BpsPerUnit: real := 10000.0

  /**
   * Cash-and-carry: long spotQty units of spot at entryPrice, short the same
   * notional of the perpetual. Net PnL is the short leg's funding less a fee of
   * feesBpsPerLeg basis points on each of the two legs, charged once.
   */
  function CashAndCarryPnl(spotQty: real, entryPrice: real, fundingRates: seq<real>,
                           feesBpsPerLeg: real := 0.0): (net: real)
    ensures net == spotQty * entryPrice * (Sum(fundingRates) - 2.0 * feesBpsPerLeg / BpsPerUnit)
  {
    var notional := spotQty * entryPrice;
    var fees := notional * (feesBpsPerLeg / BpsPerUnit) * 2.0;
    var fundingPnl := FundingCashflows(notional, fundingRates, Short);
    assert fundingPnl - fees
           == notional * (Sum(fundingRates) - 2.0 * feesBpsPerLeg / BpsPerUnit);
    fundingPnl - fees
  }

  /** The strategy's funding is exactly that of a short perpetual of the same notional, less the fee. */
  lemma CashAndCarryIsShortFunding(spotQty: real, entryPrice: real, fundingRates: seq<real>,
                                   feesBpsPerLeg: real)
    ensures CashAndCarryPnl(spotQty, entryPrice, fundingRates, feesBpsPerLeg)
            == FundingCashflows(spotQty * entryPrice, fundingRates, Short)
               - spotQty * entryPrice * (feesBpsPerLeg / BpsPerUnit) * 2.0
  {
  }

  /** Without fees the PnL is the notional times the summed rates. */
  lemma CashAndCarryNoFees(spotQty: real, entryPrice: real, fundingRates: seq<real>)
    ensures CashAndCarryPnl(spotQty, entryPrice, fundingRates) == spotQty * entryPrice * Sum(fundingRates)
  {
  }

  /** For a positive notional the trade breaks even exactly when the summed rates cover both legs' fees. */
  lemma CashAndCarryBreakEven(spotQty: real, entryPrice: real, fundingRates: seq<real>,
                              feesBpsPerLeg: real)
    requires spotQty * entryPrice > 0.0
    ensures CashAndCarryPnl(spotQty, entryPrice, fundingRates, feesBpsPerLeg) >= 0.0
            <==> Sum(fundingRates) >= 2.0 * feesBpsPerLeg / BpsPerUnit
  {
    var margin := Sum(fundingRates) - 2.0 * feesBpsPerLeg / BpsPerUnit;
    PositiveScaleKeepsSign(spotQty * entryPrice, margin);
  }

  /** Scaling by a positive factor keeps the sign of a real. */
  lemma PositiveScaleKeepsSign(n: real, x: real)
    requires n > 0.0
    ensures n * x >= 0.0 <==> x >= 0.0
  {
    if x < 0.0 {
      MulNonNeg(n, -x);
      assert n * -x > 0.0;
    }
  }

  /** Reordering the funding series does not change the PnL. */
  lemma CashAndCarryPermutation(spotQty: real, entryPrice: real, rates: seq<real>, rates': seq<real>,
                                feesBpsPerLeg: real)
    requires multiset(rates) == multiset(rates')
    ensures CashAndCarryPnl(spotQty, entryPrice, rates, feesBpsPerLeg)
            == CashAndCarryPnl(spotQty, entryPrice, rates', feesBpsPerLeg)
  {
    SumPermutation(rates, rates');
  }

  /** One unit at 100 with two 1 bp fundings and 1 bp per leg nets exactly zero. */
  lemma CashAndCarryExample()
    ensures CashAndCarryPnl(1.0, 100.0, [0.0001, 0.0001], 1.0) == 0.0
  {
  }

  // ---------------------------------------------------------------------------
  // Funding prediction

  /**
   * max(lo, min(hi, x)). For lo <= hi this is the point of [lo, hi] nearest
   * to x; for lo > hi it is lo.
   */
  function Clamp(x: real, lo: real, hi: real): (r: real)
    ensures lo <= hi ==> lo <= r <= hi
    ensures lo <= x <= hi ==> r == x
    ensures lo <= hi ==> forall y :: lo <= y <= hi ==> Dist(r, x) <= Dist(y, x)
    ensures hi < lo ==> r == lo
  {
    Max(lo, Min(hi, x))
  }

  /** Clamping twice is clamping once. */
  lemma ClampIdempotent(x: real, lo: real, hi: real)
    ensures Clamp(Clamp(x, lo, hi), lo, hi) == Clamp(x, lo, hi)
  {
  }

  /** Clamping preserves order. */
  lemma ClampMonotone(x: real, x': real, lo: real, hi: real)
    requires x <= x'
    ensures Clamp(x, lo, hi) <= Clamp(x', lo, hi)
  {
  }

  /** The USD-M clamp on the interest-minus-premium adjustment: 0.05% per interval. */
  const ClampBound: real := 0.0005

  /** The USD-M default interest rate per funding interval: 0.01%. */
  const DefaultInterestPerInterval: real := 0.0001

  /**
   * Predicted funding rate: premium + clamp(interest - premium, -0.0005, 0.0005).
   * The prediction never strays more than the clamp bound from the premium,
   * lies between premium and interest, and equals the interest rate exactly
   * when the premium is within the bound of it.
   */
  function PredictedFundingFromPremium(premiumIndex: real,
                                       interestPerInterval: real := DefaultInterestPerInterval): (rate: real)
    ensures premiumIndex - ClampBound <= rate <= premiumIndex + ClampBound
    ensures Min(premiumIndex, interestPerInterval) <= rate <= Max(premiumIndex, interestPerInterval)
    ensures rate == interestPerInterval
            <==> -ClampBound <= interestPerInterval - premiumIndex <= ClampBound
  {
    premiumIndex + Clamp(interestPerInterval - premiumIndex, -ClampBound, ClampBound)
  }

  /** Outside the bound, the prediction sits at the edge of the band nearest the interest rate. */
  lemma PredictedFundingSaturates(premiumIndex: real, interestPerInterval: real)
    ensures interestPerInterval - premiumIndex > ClampBound
            ==> PredictedFundingFromPremium(premiumIndex, interestPerInterval) == premiumIndex + ClampBound
    ensures interestPerInterval - premiumIndex < -ClampBound
            ==> PredictedFundingFromPremium(premiumIndex, interestPerInterval) == premiumIndex - ClampBound
  {
  }

  /** The prediction is the rate in the premium's band that is closest to the interest rate. */
  lemma PredictedFundingNearest(premiumIndex: real, interestPerInterval: real, y: real)
    requires premiumIndex - ClampBound <= y <= premiumIndex + ClampBound
    ensures Dist(PredictedFundingFromPremium(premiumIndex, interestPerInterval), interestPerInterval)
            <= Dist(y, interestPerInterval)
  {
  }

  /** A premium of 1% with the default interest clamps down to 0.95%. */
  lemma PredictedFundingExample()
    ensures PredictedFundingFromPremium(0.01) == 0.0095
  {
  }
}

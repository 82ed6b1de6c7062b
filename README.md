# Futures-math engine, modelled in Dafny

This project models the futures-math engine of a small perpetual-futures
toolkit (`src/futures_math.py`). The engine is a library of pure functions:

- an ACT/365-Fixed year fraction between two POSIX timestamps, floored at 1e-12;
- cost-of-carry forward pricing `F = S * exp((r - c) * T)`;
- the basis `(F - S) / S` and its annualization `(1 + b)^(1/T) - 1`;
- funding cash flows of a long or short perpetual position over a series of
  per-interval funding rates (a positive rate means longs pay and shorts receive);
- the net PnL of a cash-and-carry trade (long spot, short perpetual of equal
  notional) with a flat fee on both legs;
- the USD-M funding-rate prediction
  `premium + clamp(interest - premium, -0.0005, 0.0005)`.

Every operation is a Dafny `function` over exact `real`s, with lemmas
stating what the engine promises about it.

Files:

- `wrappers.dfy` (module `Wrappers`): `Option` and `Result`. `None` stands
  for the not-a-number sentinel. `Err` stands for a raised exception.
- `rate_sum.dfy` (module `RateSum`): the exact sum of a funding-rate series.
  It is additive over concatenation and invariant under permutation and
  reversal.
- `futures_math.dfy` (module `FuturesMath`): the engine.

Modelling decisions:

- Prices, rates and timestamps are exact reals. Floating-point rounding is not modelled.
- `math.exp` and the real power `**` are transcendental. In the model they are
  the function-valued parameters `exp` and `pow`. A lemma that needs a fact
  about them takes it as a hypothesis: `exp(0) == 1`, `exp` increasing,
  `pow(x, 1) == x` or `pow(1, y) == 1`.
- `basis` with a zero spot raises `ZeroDivisionError` in the source. The model
  returns `Err(ZeroDivisionError)`; it has no precondition.
- `annualize_basis` returns `nan` for a non-positive tenor. The model returns `None`.
- `Side` is a closed two-constructor datatype, for `Side = Literal["long", "short"]`
  (src/futures_math.py:12). The source compares the side
  with the string `"long"`, so any other string counts as short. The model has
  no such other value.
- The two optional parameters keep the source's default values as Dafny
  default parameters: `fees_bps_per_leg = 0.0` and `interest_per_interval = 0.0001`.
- The code hardcodes the clamp bounds at ±0.0005 (src/futures_math.py:76). The
  model follows it (`ClampBound`).
- The cash-and-carry docstring mentions entry and exit fees. The code charges
  the per-leg fee on two legs, once (factor 2). The model follows the code.
- The docstring of `predicted_funding_from_premium` writes the clamp bounds
  as `(+0.0005, -0.0005)`. The code passes `(-0.0005, 0.0005)`. The model
  follows the code. `Clamp`'s contract also covers inverted bounds: the
  result is then `lo`.

## Model

| member | source | states |
|---|---|---|
| `FuturesMath.YearFraction` | src/futures_math.py:14-16 | the result is never below 1e-12; it equals (end - start)/31536000 exactly when that quotient is at least 1e-12, and is 1e-12 otherwise |
| `FuturesMath.YearFractionOfYear` | src/futures_math.py:16 | a 365-day interval is exactly one year (ACT/365F) |
| `FuturesMath.YearFractionOfDay` | src/futures_math.py:16 | one day is 1/365 of a year |
| `FuturesMath.YearFractionInverted` | src/futures_math.py:16 | an empty or inverted interval is silently floored to 1e-12, not rejected |
| `FuturesMath.YearFractionMonotone` | src/futures_math.py:16 | a later end timestamp never gives a smaller year fraction |
| `FuturesMath.YearFractionAdditive` | src/futures_math.py:16 | year fractions of adjacent unfloored intervals add up to that of the whole interval |
| `FuturesMath.CostOfCarryFairPrice` | src/futures_math.py:18-25 | with exp(0) = 1, a zero tenor or a zero net carry (r = c) prices the forward at spot |
| `FuturesMath.CostOfCarryMonotoneInTime` | src/futures_math.py:25 | for positive spot, r >= c and an increasing exp, the forward price does not decrease with the tenor |
| `FuturesMath.CostOfCarryAntitoneInTime` | src/futures_math.py:25 | for positive spot, r <= c and an increasing exp, the forward price does not increase with the tenor |
| `FuturesMath.Basis` | src/futures_math.py:27-29 | a zero spot is a ZeroDivisionError and nothing else is; otherwise the basis b satisfies b*S + S = F |
| `FuturesMath.BasisOfSpot` | src/futures_math.py:29 | basis(S, S) = 0 for every non-zero S |
| `FuturesMath.BasisRoundTrip` | src/futures_math.py:29 | basis(S*(1+b), S) = b: basis inverts scaling spot by 1 + b |
| `FuturesMath.BasisOfMultiple` | src/futures_math.py:29 | a price g times spot has basis g - 1 |
| `FuturesMath.BasisSign` | src/futures_math.py:29 | for positive spot the basis is positive iff F > S and negative iff F < S |
| `FuturesMath.CostOfCarryBasis` | src/futures_math.py:18-29 | the basis of the cost-of-carry forward over its spot is exp((r - c)T) - 1 |
| `FuturesMath.AnnualizeBasis` | src/futures_math.py:31-38 | the sentinel (None) is returned exactly when T <= 0; otherwise 1 + result = (1 + b)^(1/T) |
| `FuturesMath.AnnualizeBasisOverOneYear` | src/futures_math.py:36-38 | over a one-year tenor (with x^1 = x) the annualized basis is the basis |
| `FuturesMath.AnnualizeZeroBasis` | src/futures_math.py:36-38 | a zero basis annualizes to zero over any positive tenor (with 1^y = 1) |
| `FuturesMath.Sign` | src/futures_math.py:48 | the side's sign is -1 for a long and +1 for a short, and nothing else |
| `FuturesMath.FundingCashflows` | src/futures_math.py:40-49 | with positive notional and positive summed rates, the result is negative iff the side is long and positive iff it is short (longs pay, shorts receive) |
| `FuturesMath.FundingEmpty` | src/futures_math.py:49 | an empty rate series gives zero cash flow |
| `FuturesMath.FundingSingleRate` | src/futures_math.py:48-49 | one rate r: long gets -N*r, short gets N*r |
| `FuturesMath.FundingDirection` | src/futures_math.py:43-49 | with non-negative notional, non-negative rates never make the short pay or the long receive, and non-positive rates the reverse |
| `FuturesMath.FundingZeroSum` | src/futures_math.py:48-49 | the result for a side is the negation of that for the opposite side |
| `FuturesMath.FundingPermutation` | src/futures_math.py:49 | any two series with the same multiset of rates give the same cash flow |
| `FuturesMath.FundingReversed` | src/futures_math.py:49 | a most-recent-first series gives the same cash flow as the chronological one |
| `FuturesMath.FundingConcat` | src/futures_math.py:49 | cash flow is additive over concatenated rate series |
| `RateSum.Sum` | src/futures_math.py:49 | the exact sum of the rate series, which `np.sum(list(funding_rates))` computes; its properties are the `RateSum` lemmas below |
| `RateSum.SumNonNeg` | src/futures_math.py:49 | non-negative rates have a non-negative sum |
| `RateSum.SumNonPos` | src/futures_math.py:49 | non-positive rates have a non-positive sum |
| `RateSum.SumConcat` | src/futures_math.py:49 | the sum of a concatenation is the sum of the sums |
| `RateSum.SumPermutation` | src/futures_math.py:49 | the sum depends only on the multiset of rates |
| `RateSum.SumReversed` | src/futures_math.py:49 | reversing the series leaves the sum unchanged |
| `RateSum.SumSingleton` | src/futures_math.py:49 | a one-rate series sums to that rate |
| `FuturesMath.CashAndCarryPnl` | src/futures_math.py:51-64 | net PnL = q*p*(sum of rates - 2*fee_bps/10000) |
| `FuturesMath.CashAndCarryIsShortFunding` | src/futures_math.py:61-64 | net PnL is the short-side funding cash flow on notional q*p less q*p*(fee/10000)*2 |
| `FuturesMath.CashAndCarryNoFees` | src/futures_math.py:52-64 | with the default zero fee the PnL is q*p times the summed rates |
| `FuturesMath.CashAndCarryBreakEven` | src/futures_math.py:61-64 | for positive notional the PnL is non-negative iff the summed rates reach 2*fee_bps/10000 |
| `FuturesMath.CashAndCarryPermutation` | src/futures_math.py:63 | reordering the funding series does not change the PnL |
| `FuturesMath.CashAndCarryExample` | src/futures_math.py:61-64 | qty 1 at 100, rates [0.0001, 0.0001], 1 bp per leg nets exactly 0 |
| `FuturesMath.Clamp` | src/futures_math.py:66-67 | for lo <= hi the result lies in [lo, hi], equals x when x is in range, and is the point of [lo, hi] nearest x; for lo > hi it is lo |
| `FuturesMath.ClampIdempotent` | src/futures_math.py:66-67 | clamping twice equals clamping once |
| `FuturesMath.ClampMonotone` | src/futures_math.py:66-67 | clamping preserves order |
| `FuturesMath.PredictedFundingFromPremium` | src/futures_math.py:69-77 | the prediction lies within ±0.0005 of the premium and between premium and interest, and equals the interest rate exactly when abs(interest - premium) <= 0.0005 |
| `FuturesMath.PredictedFundingSaturates` | src/futures_math.py:76-77 | beyond the bound the prediction is premium + 0.0005 or premium - 0.0005, on the side of the interest rate |
| `FuturesMath.PredictedFundingNearest` | src/futures_math.py:76-77 | the prediction is the rate within ±0.0005 of the premium that is closest to the interest rate |
| `FuturesMath.PredictedFundingExample` | src/futures_math.py:69-77 | premium 0.01 with the default interest 0.0001 predicts 0.0095 |

## Left out

- `src/binance_futures_adapter.py`: HTTP GET requests, status checks and JSON decoding against the exchange API. There is no engine logic in it.
- The numeric values of `math.exp` (line 25) and of `(1 + b) ** (1 / T)` (line 38). They are transcendental floating-point functions and are parameters of the model. The round trip "annualized basis of the cost-of-carry forward recovers r - c" needs their real definitions and is not stated.
- IEEE-754 behaviour: rounding, NaN inputs or propagation, and rounding that depends on the order of `np.sum`. The model computes with exact reals.
- Overflow: Python raises `OverflowError` from `math.exp` at line 25 (for an argument above about 709.78) and from the float `**` at line 38 (for example 1 + b > 1 with a huge 1/T). The model's `exp` and `pow` always return a real, so neither `CostOfCarryFairPrice` nor `AnnualizeBasis` models that exception.
- AnnualizeBasis: a negative `1 + b` with a fractional exponent gives a complex number in Python. The model's `pow` always returns a real.
- FundingCashflows: `funding_rates` may be any iterable that is consumed once. The model takes a finite sequence.
- Side values other than `"long"` and `"short"`: the source accepts them and treats them as short. The closed datatype cannot express them.

/** The prices the demand system is asked to bid against: the marginal cost
    read from the gas balance duals, the cost adder that spreads the
    exogenous pipeline cost over RC demand, the recoverable cost, the flat
    RC price with its revenue-neutrality condition, and the collection of
    bids at those prices. */
module Pricing {
  import opened Common
  import opened GasModel
  import opened BidStore
  import opened BidWeights
  import opened ElasticityDemand

  /** Duals of Zone_Gas_Balance[z, ts] from the last solve. */
  type Duals = map<(Zone, Timeseries), real>

  /** base_data_dict: (reference quantity, reference price) per coordinate. */
  type BaseData = map<Coord, (real, real)>

  /** One flat-pricing entry: the RC price of the period and the EI price of the timeseries. */
  datatype SectorPrices = SectorPrices(rc: real, ei: real)

  function PriceOf(sp: SectorPrices, s: Sector): real
  {
    match s
    case RC => sp.rc
    case EI => sp.ei
  }

  /** What get_prices returns: with flat pricing a table by (zone,
      timeseries) of per-sector prices, otherwise the recoverable cost per
      (zone, timeseries, sector). */
  datatype PriceTable =
    | Flat(byTs: map<(Zone, Timeseries), SectorPrices>)
    | Variable(byCoord: map<Coord, real>)

  datatype PriceError =
    | MissingDual(z: Zone, ts: Timeseries)    // KeyError on the dual suffix
    | MissingBasePoint(c: Coord)              // KeyError / no base_data_dict yet
    | ZeroRcDemand(z: Zone, p: Period)        // ZeroDivisionError in the price guess
    | NoRoot(z: Zone, p: Period)              // the root finder does not converge
    | BidFailed(e: BidError)                  // the demand system cannot bid
    | MissingPrice(z: Zone, ts: Timeseries)   // KeyError looking up prices[z, ts]

  /** gas_marginal_cost: the dual of the balance constraint, undiscounted
      and per unit of annual flow. */
  function MarginalCost(m: Model, duals: Duals, z: Zone, ts: Timeseries): (r: Result<real, PriceError>)
    requires Discountable(m, ts)
    ensures r.Ok? <==> (z, ts) in duals
    ensures r.Err? ==> r.error == MissingDual(z, ts)
  {
    if (z, ts) !in duals then Err(MissingDual(z, ts))
    else
      var d := Bring(m, PeriodOf(m, ts)) * Scale(m, ts);
      ProductPositive(Bring(m, PeriodOf(m, ts)), Scale(m, ts));
      Ok(duals[(z, ts)] / d)
  }

  /** The discount factor of ts's period and the scale of ts are positive,
      so the dual can be divided by them. */
  predicate Discountable(m: Model, ts: Timeseries)
  {
    Bring(m, PeriodOf(m, ts)) > 0.0 && Scale(m, ts) > 0.0
  }

  /** Every timeseries of a valid model is discountable. */
  lemma ValidDiscountable(m: Model)
    requires Valid(m)
    ensures forall ts :: ts in m.timeseries ==> Discountable(m, ts)
  {
  }

  /** Discounting the marginal cost back and scaling it to the timeseries
      gives the dual again. */
  lemma MarginalCostRestoresDual(m: Model, duals: Duals, z: Zone, ts: Timeseries)
    requires Discountable(m, ts) && (z, ts) in duals
    ensures MarginalCost(m, duals, z, ts).value * (Bring(m, PeriodOf(m, ts)) * Scale(m, ts)) == duals[(z, ts)]
  {
    var d := Bring(m, PeriodOf(m, ts)) * Scale(m, ts);
    ProductPositive(Bring(m, PeriodOf(m, ts)), Scale(m, ts));
    QuotientTimesDivisor(duals[(z, ts)], d);
  }

  lemma QuotientTimesDivisor(a: real, d: real)
    requires d != 0.0
    ensures (a / d) * d == a
  {
  }

  function RcDemandScaledOf(m: Model, bids: Bids, w: Weights, z: Zone): Timeseries -> real
  {
    ts => GasDemand(m, bids, w, Coord(z, ts, RC)) * Scale(m, ts)
  }

  function ZoneRcDemandOf(m: Model, bids: Bids, w: Weights, p: Period): Zone -> real
  {
    z => SumOf(TsInPeriod(m, p), RcDemandScaledOf(m, bids, w, z))
  }

  /** The annual RC demand of all cost-adder zones in period p. */
  function CostAdderDemand(m: Model, bids: Bids, w: Weights, p: Period): real
  {
    SumOf(m.costAdderZones, ZoneRcDemandOf(m, bids, w, p))
  }

  /** cost_adder[z, p] of get_prices: the period's exogenous pipeline cost per
      unit of RC demand in the cost-adder zones; zero outside them and when
      there is no such demand. */
  function CostAdder(m: Model, bids: Bids, w: Weights, z: Zone, p: Period): (r: real)
    ensures z !in m.costAdderZones ==> r == 0.0
    ensures z in m.costAdderZones && CostAdderDemand(m, bids, w, p) == 0.0 ==> r == 0.0
  {
    if z in m.costAdderZones then
      var total := CostAdderDemand(m, bids, w, p);
      if total != 0.0 then GlCostAdder(m, p) / total else 0.0
    else 0.0
  }

  /** What the adder charges a zone's RC demand in a period. */
  function AdderChargeOf(m: Model, bids: Bids, w: Weights, p: Period): Zone -> real
  {
    z => CostAdder(m, bids, w, z, p) * ZoneRcDemandOf(m, bids, w, p)(z)
  }

  /** Every cost-adder zone carries the same adder, and charging it on the
      RC demand of those zones recovers the exogenous pipeline cost exactly. */
  lemma CostAdderRecoversPipelineCost(m: Model, bids: Bids, w: Weights, z1: Zone, z2: Zone, p: Period)
    requires z1 in m.costAdderZones && z2 in m.costAdderZones
    requires CostAdderDemand(m, bids, w, p) != 0.0
    ensures CostAdder(m, bids, w, z1, p) == CostAdder(m, bids, w, z2, p)
    ensures SumOf(m.costAdderZones, AdderChargeOf(m, bids, w, p)) == GlCostAdder(m, p)
  {
    assert CostAdder(m, bids, w, z1, p) == CostAdder(m, bids, w, z2, p);
    AdderChargesRecover(m, bids, w, p);
  }

  lemma AdderChargesRecover(m: Model, bids: Bids, w: Weights, p: Period)
    requires CostAdderDemand(m, bids, w, p) != 0.0
    ensures SumOf(m.costAdderZones, AdderChargeOf(m, bids, w, p)) == GlCostAdder(m, p)
  {
    AdderChargeShares(m, bids, w, p);
    SharesRecoverTotal(m.costAdderZones, ZoneRcDemandOf(m, bids, w, p), AdderChargeOf(m, bids, w, p),
                       GlCostAdder(m, p), CostAdderDemand(m, bids, w, p));
  }

  /** Each cost-adder zone is charged its share of the pipeline cost. */
  lemma AdderChargeShares(m: Model, bids: Bids, w: Weights, p: Period)
    requires CostAdderDemand(m, bids, w, p) != 0.0
    ensures Proportional(m.costAdderZones, ZoneRcDemandOf(m, bids, w, p), AdderChargeOf(m, bids, w, p),
                         GlCostAdder(m, p) / CostAdderDemand(m, bids, w, p))
  {
  }

  /** h is c times f on every element of s. */
  predicate Proportional(s: seq<Zone>, f: Zone -> real, h: Zone -> real, c: real)
  {
    forall x :: x in s ==> h(x) == c * f(x)
  }

  /** Charging every element its share f(x) / Σ f of g recovers g. */
  lemma SharesRecoverTotal(s: seq<Zone>, f: Zone -> real, h: Zone -> real, g: real, total: real)
    requires total != 0.0 && SumOf(s, f) == total
    requires Proportional(s, f, h, g / total)
    ensures SumOf(s, h) == g
  {
    SumOfScale(s, g / total, f, h);
    QuotientTimesDivisor(g, total);
  }

  /** The cost adders of all zones and periods, by the source's two loops. */
  method ComputeCostAdders(m: Model, bids: Bids, w: Weights) returns (adders: map<(Zone, Period), real>)
    ensures forall z, p :: z in m.zones && p in m.periods ==>
              (z, p) in adders && adders[(z, p)] == CostAdder(m, bids, w, z, p)
    ensures forall k :: k in adders ==> k.0 in m.zones && k.1 in m.periods
  {
    adders := map[];
    for i := 0 to |m.zones|
      invariant forall z, p :: z in m.zones[..i] && p in m.periods ==>
                  (z, p) in adders && adders[(z, p)] == CostAdder(m, bids, w, z, p)
      invariant forall k :: k in adders ==> k.0 in m.zones[..i] && k.1 in m.periods
    {
      var z := m.zones[i];
      adders := AddZoneCostAdders(m, bids, w, z, adders);
      assert m.zones[..i + 1] == m.zones[..i] + [z];
    }
    assert m.zones[..|m.zones|] == m.zones;
  }

  /** The inner loop: the cost adders of zone z in every period, added to
      those already computed. */
  method AddZoneCostAdders(m: Model, bids: Bids, w: Weights, z: Zone, adders: map<(Zone, Period), real>)
    returns (out: map<(Zone, Period), real>)
    ensures forall p :: p in m.periods ==> (z, p) in out && out[(z, p)] == CostAdder(m, bids, w, z, p)
    ensures forall k :: k in adders && k.0 != z ==> k in out && out[k] == adders[k]
    ensures forall k :: k in out ==> k in adders || (k.0 == z && k.1 in m.periods)
  {
    out := adders;
    for j := 0 to |m.periods|
      invariant forall p :: p in m.periods[..j] ==> (z, p) in out && out[(z, p)] == CostAdder(m, bids, w, z, p)
      invariant forall k :: k in adders && k.0 != z ==> k in out && out[k] == adders[k]
      invariant forall k :: k in out ==> k in adders || (k.0 == z && k.1 in m.periods)
    {
      var p := m.periods[j];
      out := out[(z, p) := CostAdder(m, bids, w, z, p)];
      assert m.periods[..j + 1] == m.periods[..j] + [p];
    }
    assert m.periods[..|m.periods|] == m.periods;
  }

  /** The price a coordinate is charged before flat pricing: the base price
      at iteration 0, otherwise the marginal cost plus, for RC, the markup and
      the cost adder of the timeseries' period. */
  function RecoverableCost(m: Model, iteration: nat, base: BaseData, duals: Duals,
                           adders: map<(Zone, Period), real>, c: Coord): (r: Result<real, PriceError>)
    requires Discountable(m, c.ts)
    ensures iteration == 0 ==> (r.Ok? <==> c in base) && (r.Ok? ==> r.value == base[c].1)
    ensures iteration > 0 ==> (r.Ok? <==> (c.zone, c.ts) in duals)
    ensures iteration > 0 && r.Ok? && c.sector == EI ==> r == MarginalCost(m, duals, c.zone, c.ts)
    ensures iteration > 0 && r.Ok? && c.sector == RC ==>
              r.value == MarginalCost(m, duals, c.zone, c.ts).value + RcMarkup(m, c.zone) +
                         Val(adders, (c.zone, PeriodOf(m, c.ts)))
  {
    if iteration == 0 then
      if c in base then Ok(base[c].1) else Err(MissingBasePoint(c))
    else
      match MarginalCost(m, duals, c.zone, c.ts)
      case Err(e) => Err(e)
      case Ok(mc) =>
        Ok(mc + (if c.sector == RC then RcMarkup(m, c.zone) else 0.0)
              + (if c.sector == RC then Val(adders, (c.zone, PeriodOf(m, c.ts))) else 0.0))
  }

  /** The recoverable-cost table over the coordinates cs; the first failing
      coordinate decides the error. */
  function CostTable(m: Model, iteration: nat, base: BaseData, duals: Duals,
                     adders: map<(Zone, Period), real>, cs: seq<Coord>): Result<map<Coord, real>, PriceError>
    requires forall c :: c in cs ==> Discountable(m, c.ts)
    decreases |cs|
  {
    if cs == [] then Ok(map[])
    else
      var c := cs[|cs| - 1];
      match CostTable(m, iteration, base, duals, adders, cs[..|cs| - 1])
      case Err(e) => Err(e)
      case Ok(t) =>
        match RecoverableCost(m, iteration, base, duals, adders, c)
        case Err(e) => Err(e)
        case Ok(v) => Ok(t[c := v])
  }

  /** The table exists exactly when every coordinate has a recoverable
      cost, and then holds that cost. */
  lemma {:induction false} CostTableCorrect(m: Model, iteration: nat, base: BaseData, duals: Duals,
                                            adders: map<(Zone, Period), real>, cs: seq<Coord>)
    requires forall c :: c in cs ==> Discountable(m, c.ts)
    ensures CostTable(m, iteration, base, duals, adders, cs).Ok? <==>
            forall c :: c in cs ==> RecoverableCost(m, iteration, base, duals, adders, c).Ok?
    ensures CostTable(m, iteration, base, duals, adders, cs).Ok? ==>
            var t := CostTable(m, iteration, base, duals, adders, cs).value;
            forall c :: c in cs ==> c in t && t[c] == RecoverableCost(m, iteration, base, duals, adders, c).value
    decreases |cs|
  {
    if cs != [] {
      var init := cs[..|cs| - 1];
      CostTableCorrect(m, iteration, base, duals, adders, init);
      assert cs == init + [cs[|cs| - 1]];
    }
  }

  function RcRevenueOf(m: Model, bids: Bids, w: Weights, rc: map<Coord, real>, z: Zone): Timeseries -> real
  {
    ts => Val(rc, Coord(z, ts, RC)) * GasDemand(m, bids, w, Coord(z, ts, RC)) * Scale(m, ts)
  }

  /** rc_price_guess: the RC recoverable cost of the period averaged with
      the RC demand as weights. */
  function RcPriceGuess(m: Model, bids: Bids, w: Weights, rc: map<Coord, real>, z: Zone, p: Period): (r: Result<real, PriceError>)
    ensures r.Ok? <==> SumOf(TsInPeriod(m, p), RcDemandScaledOf(m, bids, w, z)) != 0.0
  {
    var weight := SumOf(TsInPeriod(m, p), RcDemandScaledOf(m, bids, w, z));
    if weight == 0.0 then Err(ZeroRcDemand(z, p))
    else Ok(SumOf(TsInPeriod(m, p), RcRevenueOf(m, bids, w, rc, z)) / weight)
  }

  /** With positive RC demand the guess lies between the smallest and the
      largest RC recoverable cost of the period. */
  lemma RcPriceGuessWithinCosts(m: Model, bids: Bids, w: Weights, rc: map<Coord, real>, z: Zone, p: Period, lo: real, hi: real)
    requires Valid(m) && p in m.periods && TsInPeriod(m, p) != []
    requires forall ts :: ts in TsInPeriod(m, p) ==> GasDemand(m, bids, w, Coord(z, ts, RC)) > 0.0
    requires forall ts :: ts in TsInPeriod(m, p) ==> lo <= Val(rc, Coord(z, ts, RC)) <= hi
    ensures RcPriceGuess(m, bids, w, rc, z, p).Ok?
    ensures lo <= RcPriceGuess(m, bids, w, rc, z, p).value <= hi
  {
    PeriodScalesPositive(m, p);
    WeightedCostAverage(m, bids, w, rc, z, TsInPeriod(m, p), lo, hi);
  }

  /** Every timeseries of a period of a valid model has a positive scale. */
  lemma PeriodScalesPositive(m: Model, p: Period)
    requires Valid(m) && p in m.periods
    ensures forall ts :: ts in TsInPeriod(m, p) ==> Scale(m, ts) > 0.0
  {
  }

  /** The RC-demand-weighted average of the RC costs over tss. */
  lemma WeightedCostAverage(m: Model, bids: Bids, w: Weights, rc: map<Coord, real>, z: Zone, tss: seq<Timeseries>, lo: real, hi: real)
    requires tss != []
    requires forall ts :: ts in tss ==> Scale(m, ts) > 0.0 && GasDemand(m, bids, w, Coord(z, ts, RC)) > 0.0
    requires forall ts :: ts in tss ==> lo <= Val(rc, Coord(z, ts, RC)) <= hi
    ensures SumOf(tss, RcDemandScaledOf(m, bids, w, z)) > 0.0
    ensures lo <= SumOf(tss, RcRevenueOf(m, bids, w, rc, z)) / SumOf(tss, RcDemandScaledOf(m, bids, w, z)) <= hi
  {
    var wt := RcDemandScaledOf(m, bids, w, z);
    var v := RcCostOf(rc, z);
    var vw := RcRevenueOf(m, bids, w, rc, z);
    forall ts | ts in tss ensures WeightedTerm(ts, v, wt, vw, lo, hi) {
      RcTermsAt(m, bids, w, rc, z, ts);
    }
    WeightedAverageWithin(tss, v, wt, vw, lo, hi);
  }

  /** The term at x has a positive weight, a value within [lo, hi] and
      weighted value weight * value. */
  predicate WeightedTerm(x: Timeseries, v: Timeseries -> real, w: Timeseries -> real, vw: Timeseries -> real, lo: real, hi: real)
  {
    w(x) > 0.0 && lo <= v(x) <= hi && vw(x) == w(x) * v(x)
  }

  /** A weighted average with positive weights lies within the bounds of
      the averaged values. */
  lemma WeightedAverageWithin(s: seq<Timeseries>, v: Timeseries -> real, w: Timeseries -> real, vw: Timeseries -> real, lo: real, hi: real)
    requires s != []
    requires forall x :: x in s ==> WeightedTerm(x, v, w, vw, lo, hi)
    ensures SumOf(s, w) > 0.0
    ensures lo <= SumOf(s, vw) / SumOf(s, w) <= hi
  {
    forall x | x in s ensures w(x) > 0.0 && lo <= v(x) <= hi && vw(x) == w(x) * v(x) {
      assert WeightedTerm(x, v, w, vw, lo, hi);
    }
    PositiveSum(s, w);
    WeightedSumBounds(s, v, w, vw, lo, hi);
    DivisionBounds(SumOf(s, vw), SumOf(s, w), lo, hi);
  }

  function RcCostOf(rc: map<Coord, real>, z: Zone): Timeseries -> real
  {
    ts => Val(rc, Coord(z, ts, RC))
  }

  /** One timeseries' terms: a positive weight, and revenue equal to weight
      times cost. */
  lemma RcTermsAt(m: Model, bids: Bids, w: Weights, rc: map<Coord, real>, z: Zone, ts: Timeseries)
    requires GasDemand(m, bids, w, Coord(z, ts, RC)) > 0.0 && Scale(m, ts) > 0.0
    ensures RcDemandScaledOf(m, bids, w, z)(ts) > 0.0
    ensures RcRevenueOf(m, bids, w, rc, z)(ts) == RcDemandScaledOf(m, bids, w, z)(ts) * RcCostOf(rc, z)(ts)
  {
    var g := GasDemand(m, bids, w, Coord(z, ts, RC));
    var sc := Scale(m, ts);
    var r := Val(rc, Coord(z, ts, RC));
    ProductPositive(g, sc);
    Reassociate(r, g, sc);
    assert RcDemandScaledOf(m, bids, w, z)(ts) == g * sc;
    assert RcRevenueOf(m, bids, w, rc, z)(ts) == r * g * sc;
  }

  lemma ProductPositive(a: real, b: real)
    requires a > 0.0 && b > 0.0
    ensures a * b > 0.0
  {
  }

  lemma Reassociate(r: real, g: real, s: real)
    ensures r * g * s == (g * s) * r
  {
  }

  lemma {:induction false} PositiveSum<T>(s: seq<T>, f: T -> real)
    requires s != [] && forall x :: x in s ==> f(x) > 0.0
    ensures SumOf(s, f) > 0.0
  {
    SumOfNonNegative(s[1..], f);
  }

  lemma DivisionBounds(a: real, t: real, lo: real, hi: real)
    requires t > 0.0 && lo * t <= a <= hi * t
    ensures lo <= a / t <= hi
  {
  }

  /** The demand `bid` returns, zero where it cannot bid. */
  function DemandAt(cal: Calibration, c: Coord, price: real, pow: (real, real) -> real): real
  {
    match BidWith(cal, c, price, pow)
    case Ok(b) => b.demand
    case Err(_) => 0.0
  }

  /** The four running sums of revenue_imbalance. */
  datatype Revenues = Revenues(flatRc: real, marginalEi: real, dynamicRc: real, dynamicEi: real)

  /** One timeseries' contribution: the RC bid at the flat price and the EI
      bid at the EI recoverable cost. */
  function AddRevenues(acc: Revenues, price: real, rcRc: real, rcEi: real, dRc: real, dEi: real, s: real): Revenues
  {
    Revenues(acc.flatRc + price * (dRc * s),
             acc.marginalEi + rcEi * dEi * s,
             acc.dynamicRc + rcRc * dRc * s,
             acc.dynamicEi + rcEi * dEi * s)
  }

  /** One timeseries of revenue_imbalance's loop: both bids, then their
      revenues added to the running sums. */
  function StepRevenues(m: Model, cal: Calibration, pow: (real, real) -> real, rc: map<Coord, real>,
                        z: Zone, price: real, acc: Revenues, ts: Timeseries): Result<Revenues, BidError>
  {
    match BidWith(cal, Coord(z, ts, RC), price, pow)
    case Err(e) => Err(e)
    case Ok(bidRc) =>
      var priceEi := Val(rc, Coord(z, ts, EI));
      match BidWith(cal, Coord(z, ts, EI), priceEi, pow)
      case Err(e) => Err(e)
      case Ok(bidEi) =>
        Ok(AddRevenues(acc, price, Val(rc, Coord(z, ts, RC)), priceEi, bidRc.demand, bidEi.demand, Scale(m, ts)))
  }

  /** The running sums after the timeseries tss, at flat RC price `price`. */
  function ImbalanceSums(m: Model, cal: Calibration, pow: (real, real) -> real, rc: map<Coord, real>,
                         z: Zone, price: real, tss: seq<Timeseries>): Result<Revenues, BidError>
    decreases |tss|
  {
    if tss == [] then Ok(Revenues(0.0, 0.0, 0.0, 0.0))
    else
      match ImbalanceSums(m, cal, pow, rc, z, price, tss[..|tss| - 1])
      case Err(e) => Err(e)
      case Ok(acc) => StepRevenues(m, cal, pow, rc, z, price, acc, tss[|tss| - 1])
  }

  /** What revenue_imbalance returns: dynamic revenue minus flat revenue. */
  function Imbalance(m: Model, cal: Calibration, pow: (real, real) -> real, rc: map<Coord, real>,
                     z: Zone, p: Period, price: real): Result<real, BidError>
  {
    match ImbalanceSums(m, cal, pow, rc, z, price, TsInPeriod(m, p))
    case Err(e) => Err(e)
    case Ok(v) => Ok(RevenueGap(v))
  }

  /** revenue_imbalance, by the source's loop over the period's timeseries. */
  method RevenueImbalance(m: Model, cal: Calibration, pow: (real, real) -> real, rc: map<Coord, real>,
                          z: Zone, p: Period, price: real) returns (r: Result<real, BidError>)
    ensures r == Imbalance(m, cal, pow, rc, z, p, price)
  {
    var tss := TsInPeriod(m, p);
    var acc := Revenues(0.0, 0.0, 0.0, 0.0);
    for i := 0 to |tss|
      invariant ImbalanceSums(m, cal, pow, rc, z, price, tss[..i]) == Ok(acc)
    {
      var ts := tss[i];
      assert tss[..i + 1][..i] == tss[..i];
      var bidRc := BidWith(cal, Coord(z, ts, RC), price, pow);
      if bidRc.Err? {
        ImbalanceSumsErrSticky(m, cal, pow, rc, z, price, tss, i + 1);
        assert tss[..|tss|] == tss;
        return Err(bidRc.error);
      }
      var priceEi := Val(rc, Coord(z, ts, EI));
      var bidEi := BidWith(cal, Coord(z, ts, EI), priceEi, pow);
      if bidEi.Err? {
        ImbalanceSumsErrSticky(m, cal, pow, rc, z, price, tss, i + 1);
        assert tss[..|tss|] == tss;
        return Err(bidEi.error);
      }
      acc := AddRevenues(acc, price, Val(rc, Coord(z, ts, RC)), priceEi, bidRc.value.demand, bidEi.value.demand, Scale(m, ts));
    }
    assert tss[..|tss|] == tss;
    r := Ok(RevenueGap(acc));
  }

  /** Once a bid fails, the running sums stay failed with that error. */
  lemma {:induction false} ImbalanceSumsErrSticky(m: Model, cal: Calibration, pow: (real, real) -> real, rc: map<Coord, real>,
                                                  z: Zone, price: real, tss: seq<Timeseries>, n: nat)
    requires n <= |tss|
    requires ImbalanceSums(m, cal, pow, rc, z, price, tss[..n]).Err?
    ensures ImbalanceSums(m, cal, pow, rc, z, price, tss) == ImbalanceSums(m, cal, pow, rc, z, price, tss[..n])
    decreases |tss| - n
  {
    if n < |tss| {
      assert tss[..n + 1][..n] == tss[..n];
      ImbalanceSumsErrSticky(m, cal, pow, rc, z, price, tss, n + 1);
    } else {
      assert tss[..n] == tss;
    }
  }

  /** The RC shortfall of one timeseries: (cost - price) × demand × scale. */
  function ImbalanceTerm(m: Model, cal: Calibration, pow: (real, real) -> real, rc: map<Coord, real>,
                         z: Zone, price: real, ts: Timeseries): real
  {
    (Val(rc, Coord(z, ts, RC)) - price) * DemandAt(cal, Coord(z, ts, RC), price, pow) * Scale(m, ts)
  }

  function ImbalanceTermOf(m: Model, cal: Calibration, pow: (real, real) -> real, rc: map<Coord, real>,
                           z: Zone, price: real): Timeseries -> real
  {
    ts => ImbalanceTerm(m, cal, pow, rc, z, price, ts)
  }

  /** The running sums exist exactly when every bid of the timeseries can
      be made. */
  lemma {:induction false} ImbalanceSumsDefined(m: Model, cal: Calibration, pow: (real, real) -> real, rc: map<Coord, real>,
                                                z: Zone, price: real, tss: seq<Timeseries>)
    ensures ImbalanceSums(m, cal, pow, rc, z, price, tss).Ok? <==>
            forall ts :: ts in tss ==> BidWith(cal, Coord(z, ts, RC), price, pow).Ok? &&
                                       BidWith(cal, Coord(z, ts, EI), Val(rc, Coord(z, ts, EI)), pow).Ok?
    decreases |tss|
  {
    if tss != [] {
      var init := tss[..|tss| - 1];
      ImbalanceSumsDefined(m, cal, pow, rc, z, price, init);
      assert tss == init + [tss[|tss| - 1]];
    }
  }

  /** The EI revenues cancel: the imbalance is the over- or under-recovery of
      the RC recoverable cost at the flat price. */
  lemma {:induction false} ImbalanceIsRcShortfall(m: Model, cal: Calibration, pow: (real, real) -> real, rc: map<Coord, real>,
                                                  z: Zone, price: real, tss: seq<Timeseries>)
    requires ImbalanceSums(m, cal, pow, rc, z, price, tss).Ok?
    ensures RevenueGap(ImbalanceSums(m, cal, pow, rc, z, price, tss).value) == SumOf(tss, ImbalanceTermOf(m, cal, pow, rc, z, price))
    decreases |tss|
  {
    if tss != [] {
      ImbalanceGapStep(m, cal, pow, rc, z, price, tss);
      ImbalanceIsRcShortfall(m, cal, pow, rc, z, price, tss[..|tss| - 1]);
      ImbalanceShortfallStep(m, cal, pow, rc, z, price, tss);
    }
  }

  lemma ImbalanceShortfallStep(m: Model, cal: Calibration, pow: (real, real) -> real, rc: map<Coord, real>,
                               z: Zone, price: real, tss: seq<Timeseries>)
    requires tss != [] && ImbalanceSums(m, cal, pow, rc, z, price, tss).Ok?
    requires ImbalanceSums(m, cal, pow, rc, z, price, tss[..|tss| - 1]).Ok?
    requires RevenueGap(ImbalanceSums(m, cal, pow, rc, z, price, tss[..|tss| - 1]).value) ==
             SumOf(tss[..|tss| - 1], ImbalanceTermOf(m, cal, pow, rc, z, price))
    ensures RevenueGap(ImbalanceSums(m, cal, pow, rc, z, price, tss).value) == SumOf(tss, ImbalanceTermOf(m, cal, pow, rc, z, price))
  {
    ImbalanceGapStep(m, cal, pow, rc, z, price, tss);
    ImbalanceTermsSnoc(m, cal, pow, rc, z, price, tss);
  }

  /** The gap grows by the last timeseries' RC shortfall term. */
  lemma ImbalanceGapStep(m: Model, cal: Calibration, pow: (real, real) -> real, rc: map<Coord, real>,
                         z: Zone, price: real, tss: seq<Timeseries>)
    requires tss != [] && ImbalanceSums(m, cal, pow, rc, z, price, tss).Ok?
    ensures ImbalanceSums(m, cal, pow, rc, z, price, tss[..|tss| - 1]).Ok?
    ensures RevenueGap(ImbalanceSums(m, cal, pow, rc, z, price, tss).value) ==
            RevenueGap(ImbalanceSums(m, cal, pow, rc, z, price, tss[..|tss| - 1]).value) +
            ImbalanceTermOf(m, cal, pow, rc, z, price)(tss[|tss| - 1])
  {
    var acc := ImbalanceSums(m, cal, pow, rc, z, price, tss[..|tss| - 1]).value;
    StepRevenuesGap(m, cal, pow, rc, z, price, acc, tss[|tss| - 1]);
  }

  /** One step adds the timeseries' RC shortfall term to the gap. */
  lemma StepRevenuesGap(m: Model, cal: Calibration, pow: (real, real) -> real, rc: map<Coord, real>,
                        z: Zone, price: real, acc: Revenues, ts: Timeseries)
    requires StepRevenues(m, cal, pow, rc, z, price, acc, ts).Ok?
    ensures RevenueGap(StepRevenues(m, cal, pow, rc, z, price, acc, ts).value) ==
            RevenueGap(acc) + ImbalanceTerm(m, cal, pow, rc, z, price, ts)
  {
    var rcRc, rcEi, sc := Val(rc, Coord(z, ts, RC)), Val(rc, Coord(z, ts, EI)), Scale(m, ts);
    var bidRc, bidEi := BidWith(cal, Coord(z, ts, RC), price, pow), BidWith(cal, Coord(z, ts, EI), rcEi, pow);
    assert bidRc.Ok? && bidEi.Ok?;
    var dRc, dEi := bidRc.value.demand, bidEi.value.demand;
    assert StepRevenues(m, cal, pow, rc, z, price, acc, ts) == Ok(AddRevenues(acc, price, rcRc, rcEi, dRc, dEi, sc));
    assert ImbalanceTerm(m, cal, pow, rc, z, price, ts) == (rcRc - price) * dRc * sc;
    StepShortfall(acc, price, rcRc, rcEi, dRc, dEi, sc, ImbalanceTerm(m, cal, pow, rc, z, price, ts));
  }

  lemma ImbalanceTermsSnoc(m: Model, cal: Calibration, pow: (real, real) -> real, rc: map<Coord, real>,
                           z: Zone, price: real, tss: seq<Timeseries>)
    requires tss != []
    ensures SumOf(tss, ImbalanceTermOf(m, cal, pow, rc, z, price)) ==
            SumOf(tss[..|tss| - 1], ImbalanceTermOf(m, cal, pow, rc, z, price)) +
            ImbalanceTermOf(m, cal, pow, rc, z, price)(tss[|tss| - 1])
  {
    SumOfSnoc(tss, |tss| - 1, ImbalanceTermOf(m, cal, pow, rc, z, price));
    assert tss[..|tss|] == tss;
  }

  /** Dynamic revenue minus flat revenue. */
  function RevenueGap(v: Revenues): real
  {
    (v.dynamicRc + v.dynamicEi) - (v.flatRc + v.marginalEi)
  }

  /** The EI terms of one step cancel and the RC terms leave
      t = (cost - price) * demand * scale. */
  lemma StepShortfall(acc: Revenues, price: real, rcRc: real, rcEi: real, dRc: real, dEi: real, s: real, t: real)
    requires t == (rcRc - price) * dRc * s
    ensures RevenueGap(AddRevenues(acc, price, rcRc, rcEi, dRc, dEi, s)) == RevenueGap(acc) + t
  {
    assert rcRc * dRc * s - price * (dRc * s) == (rcRc - price) * dRc * s;
  }

  /** The RC price of a period: the root of the imbalance started from the
      guess in revenue-neutral mode, the guess itself otherwise. */
  function FlatPrice(m: Model, bids: Bids, w: Weights, rc: map<Coord, real>, z: Zone, p: Period,
                     revenueNeutral: bool, newton: (Zone, Period, real) -> Option<real>): (r: Result<real, PriceError>)
    ensures !revenueNeutral ==> r == RcPriceGuess(m, bids, w, rc, z, p)
    ensures revenueNeutral && r.Ok? ==> RcPriceGuess(m, bids, w, rc, z, p).Ok? &&
                                        newton(z, p, RcPriceGuess(m, bids, w, rc, z, p).value) == Some(r.value)
  {
    match RcPriceGuess(m, bids, w, rc, z, p)
    case Err(e) => Err(e)
    case Ok(guess) =>
      if !revenueNeutral then Ok(guess)
      else match newton(z, p, guess)
        case None => Err(NoRoot(z, p))
        case Some(x) => Ok(x)
  }

  /** When the root finder returns only roots of revenue_imbalance, the flat
      RC price recovers the RC recoverable cost of the period exactly. */
  lemma FlatPriceRevenueNeutral(m: Model, bids: Bids, w: Weights, cal: Calibration, pow: (real, real) -> real,
                                rc: map<Coord, real>, z: Zone, p: Period, newton: (Zone, Period, real) -> Option<real>)
    requires forall g :: newton(z, p, g).Some? ==> Imbalance(m, cal, pow, rc, z, p, newton(z, p, g).value) == Ok(0.0)
    requires FlatPrice(m, bids, w, rc, z, p, true, newton).Ok?
    ensures SumOf(TsInPeriod(m, p), ImbalanceTermOf(m, cal, pow, rc, z, FlatPrice(m, bids, w, rc, z, p, true, newton).value)) == 0.0
  {
    var x := FlatPrice(m, bids, w, rc, z, p, true, newton).value;
    var g := RcPriceGuess(m, bids, w, rc, z, p).value;
    assert newton(z, p, g) == Some(x);
    ImbalanceIsRcShortfall(m, cal, pow, rc, z, x, TsInPeriod(m, p));
  }

  /** The flat RC price of each zone and period, as find_flat_prices computes it. */
  function FlatPriceOf(m: Model, bids: Bids, w: Weights, rc: map<Coord, real>, revenueNeutral: bool,
                       newton: (Zone, Period, real) -> Option<real>): (Zone, Period) -> Result<real, PriceError>
  {
    (z, p) => FlatPrice(m, bids, w, rc, z, p, revenueNeutral, newton)
  }

  /** find_flat_prices: the flat RC price of every zone and period and the
      EI recoverable cost of every timeseries. Every timeseries belongs to
      exactly one period, so each (zone, timeseries) takes its period's RC
      price. `price` is the per-(zone, period) computation, FlatPriceOf. */
  method FindFlatPrices(m: Model, rc: map<Coord, real>, price: (Zone, Period) -> Result<real, PriceError>)
    returns (r: Result<map<(Zone, Timeseries), SectorPrices>, PriceError>)
    requires forall ts :: ts in m.timeseries ==> PeriodOf(m, ts) in m.periods
    ensures r.Ok? <==> forall z, p :: z in m.zones && p in m.periods ==> price(z, p).Ok?
    ensures r.Err? ==> exists z, p :: z in m.zones && p in m.periods && price(z, p) == Err(r.error)
    ensures r.Ok? ==> forall k :: k in r.value ==> k.0 in m.zones && k.1 in m.timeseries
    ensures r.Ok? ==> forall z, ts :: z in m.zones && ts in m.timeseries ==>
              (z, ts) in r.value &&
              r.value[(z, ts)] == SectorPrices(price(z, PeriodOf(m, ts)).value, Val(rc, Coord(z, ts, EI)))
  {
    var flat: map<(Zone, Period), real> := map[];
    for i := 0 to |m.zones|
      invariant forall z, p :: z in m.zones[..i] && p in m.periods ==> (z, p) in flat && price(z, p) == Ok(flat[(z, p)])
    {
      var z := m.zones[i];
      var row := FindZoneFlatPrices(m, price, z, flat);
      if row.Err? {
        ghost var p :| p in m.periods && price(z, p) == Err(row.error);
        assert z in m.zones && !price(z, p).Ok?;
        return Err(row.error);
      }
      flat := row.value;
      assert m.zones[..i + 1] == m.zones[..i] + [z];
    }
    assert m.zones[..|m.zones|] == m.zones;
    r := Ok(map z, ts | z in m.zones && ts in m.timeseries :: (z, ts) := SectorPrices(flat[(z, PeriodOf(m, ts))], Val(rc, Coord(z, ts, EI))));
  }

  /** The inner loop of find_flat_prices: the flat RC prices of one zone,
      added to those already found. */
  method FindZoneFlatPrices(m: Model, price: (Zone, Period) -> Result<real, PriceError>, z: Zone, flat: map<(Zone, Period), real>)
    returns (r: Result<map<(Zone, Period), real>, PriceError>)
    ensures r.Ok? ==> forall p :: p in m.periods ==> (z, p) in r.value && price(z, p) == Ok(r.value[(z, p)])
    ensures r.Ok? ==> forall k :: k in flat && k.0 != z ==> k in r.value && r.value[k] == flat[k]
    ensures r.Err? ==> exists p :: p in m.periods && price(z, p) == Err(r.error)
  {
    var out := flat;
    for j := 0 to |m.periods|
      invariant forall p :: p in m.periods[..j] ==> (z, p) in out && price(z, p) == Ok(out[(z, p)])
      invariant forall k :: k in flat && k.0 != z ==> k in out && out[k] == flat[k]
    {
      var p := m.periods[j];
      var x := price(z, p);
      if x.Err? {
        return Err(x.error);
      }
      out := out[(z, p) := x.value];
      assert m.periods[..j + 1] == m.periods[..j] + [p];
    }
    assert m.periods[..|m.periods|] == m.periods;
    r := Ok(out);
  }

  /** prices[z, ts][sector]: only a flat-pricing table is indexed by (zone,
      timeseries); the recoverable-cost table raises a KeyError there. */
  function PriceFor(table: PriceTable, z: Zone, ts: Timeseries, s: Sector): (r: Result<real, PriceError>)
    ensures r.Ok? <==> table.Flat? && (z, ts) in table.byTs
    ensures r.Ok? ==> r.value == PriceOf(table.byTs[(z, ts)], s)
  {
    if table.Variable? || (z, ts) !in table.byTs then Err(MissingPrice(z, ts))
    else Ok(PriceOf(table.byTs[(z, ts)], s))
  }

  /** One coordinate of get_bids: look its price up, bid at it, append the bid. */
  function BidStep(cal: Calibration, pow: (real, real) -> real, table: PriceTable, done: seq<BidTuple>,
                   c: Coord): Result<seq<BidTuple>, PriceError>
  {
    match PriceFor(table, c.zone, c.ts, c.sector)
    case Err(e) => Err(e)
    case Ok(price) =>
      match BidWith(cal, c, price, pow)
      case Err(e) => Err(BidFailed(e))
      case Ok(b) => Ok(done + [BidTuple(c, price, b.demand, b.wtp)])
  }

  /** The bids get_bids collects for the coordinates cs, in order. */
  function BidsAt(cal: Calibration, pow: (real, real) -> real, table: PriceTable, cs: seq<Coord>): Result<seq<BidTuple>, PriceError>
    decreases |cs|
  {
    if cs == [] then Ok([])
    else
      match BidsAt(cal, pow, table, cs[..|cs| - 1])
      case Err(e) => Err(e)
      case Ok(done) => BidStep(cal, pow, table, done, cs[|cs| - 1])
  }

  /** The collected bids after one more coordinate. */
  lemma BidsAtPrefixStep(cal: Calibration, pow: (real, real) -> real, table: PriceTable, cs: seq<Coord>, i: nat)
    requires i < |cs|
    ensures BidsAt(cal, pow, table, cs[..i]).Err? ==> BidsAt(cal, pow, table, cs[..i + 1]) == BidsAt(cal, pow, table, cs[..i])
    ensures BidsAt(cal, pow, table, cs[..i]).Ok? ==>
              BidsAt(cal, pow, table, cs[..i + 1]) == BidStep(cal, pow, table, BidsAt(cal, pow, table, cs[..i]).value, cs[i])
  {
    assert cs[..i + 1][..i] == cs[..i];
  }

  /** The collected bids follow the coordinates one for one, each made at the
      table's price for its sector. */
  lemma {:induction false} BidsAtCorrect(cal: Calibration, pow: (real, real) -> real, table: PriceTable, cs: seq<Coord>)
    ensures BidsAt(cal, pow, table, cs).Ok? ==>
            var ts := BidsAt(cal, pow, table, cs).value;
            |ts| == |cs| &&
            forall i :: 0 <= i < |cs| ==>
              ts[i].coord == cs[i] &&
              PriceFor(table, cs[i].zone, cs[i].ts, cs[i].sector) == Ok(ts[i].price) &&
              BidWith(cal, cs[i], ts[i].price, pow) == Ok(Bid(ts[i].demand, ts[i].wtp))
    decreases |cs|
  {
    if cs != [] {
      BidsAtCorrect(cal, pow, table, cs[..|cs| - 1]);
    }
  }

  /** With a recoverable-cost table (no flat pricing) get_bids fails at the
      first lookup. */
  lemma VariablePricesFail(cal: Calibration, pow: (real, real) -> real, byCoord: map<Coord, real>, cs: seq<Coord>)
    requires cs != []
    ensures BidsAt(cal, pow, Variable(byCoord), cs).Err?
  {
    if |cs| > 1 {
      VariablePricesFail(cal, pow, byCoord, cs[..|cs| - 1]);
    }
  }

  /** get_bids, by the source's loops over zones, timeseries and sectors. */
  method GetBids(m: Model, cal: Calibration, pow: (real, real) -> real, table: PriceTable)
    returns (r: Result<seq<BidTuple>, PriceError>)
    ensures r == BidsAt(cal, pow, table, Coords(m))
  {
    var out: seq<BidTuple> := [];
    var cs := Coords(m);
    for i := 0 to |cs|
      invariant BidsAt(cal, pow, table, cs[..i]) == Ok(out)
    {
      var c := cs[i];
      BidsAtPrefixStep(cal, pow, table, cs, i);
      var price := PriceFor(table, c.zone, c.ts, c.sector);
      if price.Err? {
        BidsAtErrSticky(cal, pow, table, cs, i + 1);
        assert cs[..|cs|] == cs;
        return Err(price.error);
      }
      var b := BidWith(cal, c, price.value, pow);
      if b.Err? {
        BidsAtErrSticky(cal, pow, table, cs, i + 1);
        assert cs[..|cs|] == cs;
        return Err(BidFailed(b.error));
      }
      out := out + [BidTuple(c, price.value, b.value.demand, b.value.wtp)];
    }
    assert cs[..|cs|] == cs;
    r := Ok(out);
  }

  lemma {:induction false} BidsAtErrSticky(cal: Calibration, pow: (real, real) -> real, table: PriceTable, cs: seq<Coord>, n: nat)
    requires n <= |cs|
    requires BidsAt(cal, pow, table, cs[..n]).Err?
    ensures BidsAt(cal, pow, table, cs) == BidsAt(cal, pow, table, cs[..n])
    decreases |cs| - n
  {
    if n < |cs| {
      assert cs[..n + 1][..n] == cs[..n];
      BidsAtErrSticky(cal, pow, table, cs, n + 1);
    } else {
      assert cs[..n] == cs;
    }
  }
}

/** The demand-response iteration around each solve of the gas model:
    add_bids, calibrate_model, get_prices, update_demand and the
    convergence test of pre_iterate, as methods of the object that holds
    the iteration's state (the bid store, the base data and the previous
    solution's costs and demands). */
module DemandResponse {
  import opened Common
  import opened GasModel
  import opened ElasticityDemand
  import opened BidStore
  import opened BidWeights
  import opened Pricing

  /** The elasticity scenario calibrate() is called with (its default). */
  const ElasticityScenario: int := 3

  /** The tolerance of the stop test on the relative gap. */
  const GapTolerance: real := 0.0001

  /** What the model needs to be indexed consistently: every timeseries can
      be discounted and lies in a period of the model. */
  predicate Indexed(m: Model)
  {
    && (forall c :: c in Coords(m) ==> Discountable(m, c.ts))
    && (forall ts :: ts in m.timeseries ==> PeriodOf(m, ts) in m.periods)
  }

  lemma ValidIndexed(m: Model)
    requires Valid(m)
    ensures Indexed(m)
  {
    ValidDiscountable(m);
    forall c | c in Coords(m) ensures Discountable(m, c.ts) {
      CoordsOfMember(m.zones, m.timeseries, c);
    }
  }

  // ---------------------------------------------------------------- calibration

  function BaseRowAt(m: Model, c: Coord): BaseRow
  {
    BaseRow(c, RefQuantity(m, c), RefPrice(m, c))
  }

  /** base_data: one row per coordinate, in the loops' order. */
  function BaseRowsOf(m: Model): (rows: seq<BaseRow>)
    ensures |rows| == |Coords(m)|
    ensures forall i :: 0 <= i < |rows| ==> rows[i] == BaseRowAt(m, Coords(m)[i])
  {
    seq(|Coords(m)|, i requires 0 <= i < |Coords(m)| => BaseRowAt(m, Coords(m)[i]))
  }

  /** base_data_dict: the reference quantity and price of every coordinate. */
  function BaseDataOf(m: Model): BaseData
  {
    map c | c in Coords(m) :: (RefQuantity(m, c), RefPrice(m, c))
  }

  function BaseOf(base: Option<BaseData>): BaseData
  {
    if base.Some? then base.value else map[]
  }

  /** After calibrate_model the demand system holds, for every coordinate of
      the model, its reference quantity as base load and its reference price
      as base price. */
  lemma CalibratedAtReference(m: Model, c: Coord)
    requires Distinct(m.zones) && Distinct(m.timeseries)
    requires c.zone in m.zones && c.ts in m.timeseries
    ensures var cal := CalibrationOf(BaseRowsOf(m), ElasticityScenario);
            c in cal.baseLoad && cal.baseLoad[c] == RefQuantity(m, c) &&
            c in cal.basePrice && cal.basePrice[c] == RefPrice(m, c)
  {
    var rows := BaseRowsOf(m);
    var cs := Coords(m);
    CoordsOfMember(m.zones, m.timeseries, c);
    CoordsOfDistinct(m.zones, m.timeseries);
    var i :| 0 <= i < |cs| && cs[i] == c;
    assert rows[i].coord == c;
    CalibrationStoresRows(rows, ElasticityScenario, i);
  }

  // ---------------------------------------------------------------- prices

  /** The cost adders ComputeCostAdders fills in. */
  function AddersOf(m: Model, bids: Bids, w: Weights): map<(Zone, Period), real>
  {
    map z, p | z in m.zones && p in m.periods :: (z, p) := CostAdder(m, bids, w, z, p)
  }

  /** The recoverable cost of every coordinate, as get_prices builds it. */
  function RecoverableTable(m: Model, iteration: nat, base: Option<BaseData>, bids: Bids, w: Weights,
                            duals: Duals): Result<map<Coord, real>, PriceError>
    requires Indexed(m)
  {
    CostTable(m, iteration, BaseOf(base), duals, AddersOf(m, bids, w), Coords(m))
  }

  /** Every (zone, period) has a flat RC price. */
  predicate FlatPricesExist(m: Model, price: (Zone, Period) -> Result<real, PriceError>)
  {
    forall z, p :: z in m.zones && p in m.periods ==> price(z, p).Ok?
  }

  /** find_flat_prices' final table. */
  function FlatTable(m: Model, rc: map<Coord, real>, price: (Zone, Period) -> Result<real, PriceError>)
    : map<(Zone, Timeseries), SectorPrices>
    requires Indexed(m) && FlatPricesExist(m, price)
  {
    map z, ts | z in m.zones && ts in m.timeseries :: (z, ts) := SectorPrices(price(z, PeriodOf(m, ts)).value, Val(rc, Coord(z, ts, EI)))
  }

  /** The table get_prices returns whenever it returns one: the recoverable
      costs themselves, or with flat pricing the flat RC and variable EI
      prices; None where get_prices raises. */
  function PricesOf(m: Model, iteration: nat, base: Option<BaseData>, bids: Bids, w: Weights, duals: Duals,
                    revenueNeutral: bool, newton: (Zone, Period, real) -> Option<real>): (r: Option<PriceTable>)
    requires Indexed(m)
    ensures r.Some? && !m.flatPricing ==> r.value.Variable?
    ensures r.Some? && m.flatPricing ==> r.value.Flat?
  {
    match RecoverableTable(m, iteration, base, bids, w, duals)
    case Err(_) => None
    case Ok(rc) =>
      if !m.flatPricing then Some(Variable(rc))
      else
        var price := FlatPriceOf(m, bids, w, rc, revenueNeutral, newton);
        if FlatPricesExist(m, price) then Some(Flat(FlatTable(m, rc, price))) else None
  }

  /** The bids update_demand hands to add_bids, None where get_prices or
      get_bids raises. */
  function CollectedBids(m: Model, iteration: nat, base: Option<BaseData>, cal: Calibration, bids: Bids, w: Weights,
                         duals: Duals, pow: (real, real) -> real, newton: (Zone, Period, real) -> Option<real>)
    : Option<seq<BidTuple>>
    requires Indexed(m)
  {
    match PricesOf(m, iteration, base, bids, w, duals, true, newton)
    case None => None
    case Some(table) =>
      match BidsAt(cal, pow, table, Coords(m))
      case Err(_) => None
      case Ok(ts) => Some(ts)
  }

  /** The bid store after update_demand. */
  function AfterUpdate(m: Model, iteration: nat, base: Option<BaseData>, cal: Calibration, bids: Bids, w: Weights,
                       duals: Duals, pow: (real, real) -> real, newton: (Zone, Period, real) -> Option<real>): Bids
    requires Indexed(m)
  {
    match CollectedBids(m, iteration, base, cal, bids, w, duals, pow, newton)
    case None => bids
    case Some(ts) => AddBidsSpec(bids, ts).0
  }

  /** Without flat pricing no bid can be collected: get_bids looks the
      prices up by (zone, timeseries) in a table keyed by coordinate. */
  lemma VariablePricingCollectsNothing(m: Model, iteration: nat, base: Option<BaseData>, cal: Calibration, bids: Bids,
                                       w: Weights, duals: Duals, pow: (real, real) -> real,
                                       newton: (Zone, Period, real) -> Option<real>)
    requires Indexed(m) && !m.flatPricing && m.zones != [] && m.timeseries != []
    ensures CollectedBids(m, iteration, base, cal, bids, w, duals, pow, newton).None?
  {
    var prices := PricesOf(m, iteration, base, bids, w, duals, true, newton);
    if prices.Some? {
      assert |Coords(m)| == 2 * |m.zones| * |m.timeseries|;
      VariablePricesFail(cal, pow, prices.value.byCoord, Coords(m));
    }
  }

  /** get_prices: the cost adders, the recoverable costs and, with flat
      pricing, the flat RC prices. */
  method ComputePrices(m: Model, iteration: nat, base: Option<BaseData>, bids: Bids, w: Weights, duals: Duals,
                       revenueNeutral: bool, newton: (Zone, Period, real) -> Option<real>)
    returns (r: Result<PriceTable, PriceError>)
    requires Indexed(m)
    ensures r.Ok? <==> PricesOf(m, iteration, base, bids, w, duals, revenueNeutral, newton).Some?
    ensures r.Ok? ==> r.value == PricesOf(m, iteration, base, bids, w, duals, revenueNeutral, newton).value
    ensures r.Err? && RecoverableTable(m, iteration, base, bids, w, duals).Err? ==>
              r.error == RecoverableTable(m, iteration, base, bids, w, duals).error
  {
    var adders := ComputeCostAdders(m, bids, w);
    AddersExact(m, bids, w, adders);
    var rc := CostTable(m, iteration, BaseOf(base), duals, adders, Coords(m));
    if rc.Err? {
      return Err(rc.error);
    }
    if m.flatPricing {
      var price := FlatPriceOf(m, bids, w, rc.value, revenueNeutral, newton);
      var flat := FindFlatPrices(m, rc.value, price);
      if flat.Err? {
        return Err(flat.error);
      }
      FlatTableExact(m, rc.value, price, flat.value);
      r := Ok(Flat(flat.value));
    } else {
      r := Ok(Variable(rc.value));
    }
  }

  lemma AddersExact(m: Model, bids: Bids, w: Weights, adders: map<(Zone, Period), real>)
    requires forall z, p :: z in m.zones && p in m.periods ==>
               (z, p) in adders && adders[(z, p)] == CostAdder(m, bids, w, z, p)
    requires forall k :: k in adders ==> k.0 in m.zones && k.1 in m.periods
    ensures adders == AddersOf(m, bids, w)
  {
    var a := AddersOf(m, bids, w);
    forall k | k in adders ensures k in a && a[k] == adders[k] {
      var z, p := k.0, k.1;
      assert k == (z, p) && z in m.zones && p in m.periods;
      assert a[(z, p)] == CostAdder(m, bids, w, z, p);
    }
    forall k | k in a ensures k in adders {
      var z, p :| z in m.zones && p in m.periods && k == (z, p);
    }
  }

  lemma FlatTableExact(m: Model, rc: map<Coord, real>, price: (Zone, Period) -> Result<real, PriceError>,
                       t: map<(Zone, Timeseries), SectorPrices>)
    requires Indexed(m) && FlatPricesExist(m, price)
    requires forall k :: k in t ==> k.0 in m.zones && k.1 in m.timeseries
    requires forall z, ts :: z in m.zones && ts in m.timeseries ==>
               (z, ts) in t && t[(z, ts)] == SectorPrices(price(z, PeriodOf(m, ts)).value, Val(rc, Coord(z, ts, EI)))
    ensures t == FlatTable(m, rc, price)
  {
    var f := FlatTable(m, rc, price);
    forall k | k in t ensures k in f && f[k] == t[k] {
      var z, ts := k.0, k.1;
      assert k == (z, ts) && z in m.zones && ts in m.timeseries;
      assert f[(z, ts)] == SectorPrices(price(z, PeriodOf(m, ts)).value, Val(rc, Coord(z, ts, EI)));
    }
    forall k | k in f ensures k in t {
      var z, ts :| z in m.zones && ts in m.timeseries && k == (z, ts);
    }
  }

  /** get_bids after get_prices: the bids of the demand system at the
      current prices. */
  method CollectBids(m: Model, iteration: nat, base: Option<BaseData>, cal: Calibration, bids: Bids, w: Weights,
                     duals: Duals, pow: (real, real) -> real, newton: (Zone, Period, real) -> Option<real>)
    returns (r: Result<seq<BidTuple>, PriceError>)
    requires Indexed(m)
    ensures r.Ok? <==> CollectedBids(m, iteration, base, cal, bids, w, duals, pow, newton).Some?
    ensures r.Ok? ==> r.value == CollectedBids(m, iteration, base, cal, bids, w, duals, pow, newton).value
  {
    var prices := ComputePrices(m, iteration, base, bids, w, duals, true, newton);
    if prices.Err? {
      return Err(prices.error);
    }
    r := GetBids(m, cal, pow, prices.value);
  }

  /** What update_demand reports for the bids it collected: a pricing
      failure when there are none, otherwise add_bids' outcome. */
  predicate Reports(bids: Bids, collected: Option<seq<BidTuple>>, r: Result<int, IterationError>)
  {
    match collected
    case None => r.Err? && r.error.PricingFailed?
    case Some(ts) =>
      match AddBidsSpec(bids, ts).1
      case Ok(b) => r == Ok(b)
      case Err(e) => r == Err(BidsRejected(e))
  }

  /** An accepted update lists exactly one new bid, the reported one. */
  lemma AcceptedUpdateAppends(m: Model, iteration: nat, base: Option<BaseData>, cal: Calibration, bids: Bids, w: Weights,
                              duals: Duals, pow: (real, real) -> real, newton: (Zone, Period, real) -> Option<real>,
                              r: Result<int, IterationError>)
    requires Indexed(m)
    requires Reports(bids, CollectedBids(m, iteration, base, cal, bids, w, duals, pow, newton), r) && r.Ok?
    ensures AfterUpdate(m, iteration, base, cal, bids, w, duals, pow, newton).list == bids.list + [r.value]
    ensures forall b :: b in bids.list ==> b < r.value
  {
    var ts := CollectedBids(m, iteration, base, cal, bids, w, duals, pow, newton).value;
    assert AddBidsSpec(bids, ts).1 == Ok(r.value);
    assert r.value == NewBidId(bids.list);
  }

  // ---------------------------------------------------------------- pre_iterate's costs

  /** Σ over the cost-adder zones of one timeseries' RC demand, scaled to a year. */
  function TsAdderDemand(m: Model, bids: Bids, w: Weights, ts: Timeseries): real
  {
    SumOf(m.costAdderZones, TsRcDemandOf(m, bids, w, ts))
  }

  function TsRcDemandOf(m: Model, bids: Bids, w: Weights, ts: Timeseries): Zone -> real
  {
    z => GasDemand(m, bids, w, Coord(z, ts, RC)) * Scale(m, ts)
  }

  /** The cost adder of pre_iterate: the period's exogenous pipeline cost
      spread over the RC demand of the single timeseries, charged to RC in
      every zone. */
  function PreIterateAdder(m: Model, bids: Bids, w: Weights, c: Coord): (r: real)
    ensures c.sector == EI ==> r == 0.0
    ensures TsAdderDemand(m, bids, w, c.ts) == 0.0 ==> r == 0.0
    ensures c.sector == RC && TsAdderDemand(m, bids, w, c.ts) != 0.0 ==>
              r * TsAdderDemand(m, bids, w, c.ts) == GlCostAdder(m, PeriodOf(m, c.ts))
  {
    var total := TsAdderDemand(m, bids, w, c.ts);
    if c.sector == RC && total != 0.0 then
      QuotientTimesDivisor(GlCostAdder(m, PeriodOf(m, c.ts)), total);
      GlCostAdder(m, PeriodOf(m, c.ts)) / total
    else 0.0
  }

  /** The two cost adders differ: for an RC coordinate of a zone outside the
      cost-adder zones get_prices charges nothing, while pre_iterate charges
      the pipeline cost spread over the timeseries' demand. */
  lemma CostAddersDiffer(m: Model, bids: Bids, w: Weights, z: Zone, ts: Timeseries)
    requires z !in m.costAdderZones
    requires TsAdderDemand(m, bids, w, ts) != 0.0 && GlCostAdder(m, PeriodOf(m, ts)) != 0.0
    ensures CostAdder(m, bids, w, z, PeriodOf(m, ts)) == 0.0
    ensures PreIterateAdder(m, bids, w, Coord(z, ts, RC)) != 0.0
  {
  }

  /** prev_recoverable_cost of one coordinate. */
  function PrevCostAt(m: Model, bids: Bids, w: Weights, duals: Duals, c: Coord): (r: Result<real, PriceError>)
    requires Discountable(m, c.ts)
    ensures r.Ok? <==> (c.zone, c.ts) in duals
    ensures r.Ok? ==> r.value == PrevCostValue(m, bids, w, duals, c)
  {
    match MarginalCost(m, duals, c.zone, c.ts)
    case Err(e) => Err(e)
    case Ok(mc) => Ok(mc + (if c.sector == RC then RcMarkup(m, c.zone) else 0.0) + PreIterateAdder(m, bids, w, c))
  }

  /** The marginal cost, plus for RC the markup, plus pre_iterate's cost adder. */
  function PrevCostValue(m: Model, bids: Bids, w: Weights, duals: Duals, c: Coord): real
    requires Discountable(m, c.ts) && (c.zone, c.ts) in duals
  {
    MarginalCost(m, duals, c.zone, c.ts).value + (if c.sector == RC then RcMarkup(m, c.zone) else 0.0)
    + PreIterateAdder(m, bids, w, c)
  }

  /** prev_recoverable_cost over the coordinates cs; the first missing dual raises. */
  function PrevTable(m: Model, bids: Bids, w: Weights, duals: Duals, cs: seq<Coord>): Result<map<Coord, real>, PriceError>
    requires forall c :: c in cs ==> Discountable(m, c.ts)
    decreases |cs|
  {
    if cs == [] then Ok(map[])
    else
      var c := cs[|cs| - 1];
      match PrevTable(m, bids, w, duals, cs[..|cs| - 1])
      case Err(e) => Err(e)
      case Ok(t) =>
        match PrevCostAt(m, bids, w, duals, c)
        case Err(e) => Err(e)
        case Ok(v) => Ok(t[c := v])
  }

  /** The previous recoverable cost exists exactly when every coordinate has
      a dual, and is then the marginal cost, plus for RC the markup, plus
      pre_iterate's cost adder. */
  lemma {:induction false} PrevTableCorrect(m: Model, bids: Bids, w: Weights, duals: Duals, cs: seq<Coord>)
    requires forall c :: c in cs ==> Discountable(m, c.ts)
    ensures PrevTable(m, bids, w, duals, cs).Ok? <==> forall c :: c in cs ==> (c.zone, c.ts) in duals
    ensures PrevTable(m, bids, w, duals, cs).Ok? ==>
              forall c :: c in cs ==>
                c in PrevTable(m, bids, w, duals, cs).value &&
                PrevTable(m, bids, w, duals, cs).value[c] == PrevCostValue(m, bids, w, duals, c)
    decreases |cs|
  {
    if cs != [] {
      var init, last := cs[..|cs| - 1], cs[|cs| - 1];
      PrevTableCorrect(m, bids, w, duals, init);
      assert cs == init + [last];
      assert forall c :: c in cs <==> c in init || c == last;
    }
  }

  /** prev_demand: gas_demand of every coordinate. */
  function DemandTable(m: Model, bids: Bids, w: Weights): map<Coord, real>
  {
    map c | c in Coords(m) :: GasDemand(m, bids, w, c)
  }

  function Lookup(q: map<Coord, real>): Coord -> real
  {
    c => Val(q, c)
  }

  function BidQuantityOf(bids: Bids, b: int): Coord -> real
  {
    c => Quantity(bids, b, c)
  }

  /** One coordinate's discounted cost of quantity qty at price `price`. */
  function DirectTermOf(m: Model, price: map<Coord, real>, qty: Coord -> real): Coord -> real
  {
    c => Val(price, c) * qty(c) * Scale(m, c.ts) * Bring(m, PeriodOf(m, c.ts))
  }

  /** Σ over all coordinates of price · quantity, scaled and discounted:
      prev_direct_cost with the previous demand, best_direct_cost with the
      quantities of the newest bid. */
  function DirectCost(m: Model, price: map<Coord, real>, qty: Coord -> real): real
  {
    SumOf(Coords(m), DirectTermOf(m, price, qty))
  }

  /** A timepoint's welfare cost brought to the base year; under Valid every
      timepoint's timeseries has a positive duration. */
  function WelfareTermOf(m: Model, bids: Bids, w: Weights): Timepoint -> real
  {
    tp => if Duration(m, TpTs(m, tp)) > 0.0 then WelfareCost(m, bids, w, tp) * BringTp(m, tp) else 0.0
  }

  /** prev_welfare_cost. */
  function PrevWelfareCost(m: Model, bids: Bids, w: Weights): real
  {
    SumOf(m.timepoints, WelfareTermOf(m, bids, w))
  }

  function SectorBenefitOf(bids: Bids, b: int, ts: Timeseries, ds: Sector): Zone -> real
  {
    z => Benefit(bids, b, Coord(z, ts, ds))
  }

  function TsBenefitOf(m: Model, bids: Bids, b: int, ts: Timeseries): Sector -> real
  {
    ds => SumOf(m.zones, SectorBenefitOf(bids, b, ts, ds))
  }

  function BenefitTermOf(m: Model, bids: Bids, b: int): Timeseries -> real
  {
    ts => -SumOf(DemandSectors, TsBenefitOf(m, bids, b, ts)) * Scale(m, ts) * Bring(m, PeriodOf(m, ts))
  }

  /** best_bid_benefit: minus the benefit of bid b, scaled and discounted. */
  function BestBidBenefit(m: Model, bids: Bids, b: int): real
  {
    SumOf(m.timeseries, BenefitTermOf(m, bids, b))
  }

  /** When the previous solution consumed nothing the direct cost is zero,
      and the stop test cannot divide by it. */
  lemma NoDemandNoDirectCost(m: Model, price: map<Coord, real>, qty: Coord -> real)
    requires forall c :: c in Coords(m) ==> qty(c) == 0.0
    ensures DirectCost(m, price, qty) == 0.0
  {
    forall c | c in Coords(m) ensures DirectTermOf(m, price, qty)(c) == 0.0 {
      assert qty(c) == 0.0;
    }
    SumOfZero(Coords(m), DirectTermOf(m, price, qty));
  }

  // ---------------------------------------------------------------- stop test

  /** The stop test's verdict and whether it warns that the final cost is
      below the lower bound. */
  datatype StopOutcome = StopOutcome(converged: bool, warning: bool)

  datatype IterationError =
    | PricingFailed(e: PriceError)    // get_prices, get_bids or a missing dual raises
    | BidsRejected(r: AddBidsError)   // add_bids raises
    | ZeroDirectCost                  // the gap report divides by abs(prev_direct_cost) == 0

  function Abs(x: real): (r: real)
    ensures r >= 0.0 && (r == x || r == -x)
  {
    if x < 0.0 then -x else x
  }

  /** The end of pre_iterate: never converged at iteration 0; otherwise the
      gap between the previous cost and the lower bound, relative to the
      previous direct cost, is compared with the tolerance. */
  function StopTest(iteration: nat, prevCost: real, bestCost: real, prevDirect: real): (r: Result<StopOutcome, IterationError>)
    ensures iteration == 0 ==> r == Ok(StopOutcome(false, false))
    ensures iteration > 0 ==> (r.Err? <==> prevDirect == 0.0)
    ensures r.Err? ==> r.error == ZeroDirectCost
    ensures iteration > 0 && r.Ok? ==>
              (r.value.converged <==> Abs(prevCost - bestCost) <= GapTolerance * Abs(prevDirect)) &&
              (r.value.warning <==> prevCost < bestCost)
  {
    if iteration == 0 then Ok(StopOutcome(false, false))
    else if prevDirect == 0.0 then Err(ZeroDirectCost)
    else
      RelativeGap(Abs(prevCost - bestCost), Abs(prevDirect));
      Ok(StopOutcome(Abs(prevCost - bestCost) / Abs(prevDirect) <= GapTolerance, prevCost < bestCost))
  }

  lemma RelativeGap(a: real, d: real)
    requires d > 0.0
    ensures a / d <= GapTolerance <==> a <= GapTolerance * d
  {
    QuotientTimesDivisor(a, d);
    if a / d <= GapTolerance {
      assert a == (a / d) * d;
    } else {
      assert a == (a / d) * d;
    }
  }

  /** The stop test on pre_iterate's costs: prev_cost (direct cost of the
      previous demand plus its welfare cost) and prev_direct_cost against
      best_cost of the newest bid b, all at the previous recoverable costs. */
  function Verdict(m: Model, iteration: nat, prevRc: map<Coord, real>, prevDemand: map<Coord, real>, welfare: real,
                   bids: Bids, b: int): Result<StopOutcome, IterationError>
  {
    var prevDirect := DirectCost(m, prevRc, Lookup(prevDemand));
    StopTest(iteration, prevDirect + welfare, DirectCost(m, prevRc, BidQuantityOf(bids, b)) + BestBidBenefit(m, bids, b), prevDirect)
  }

  // ---------------------------------------------------------------- the iteration's state

  /** The state the demand-response iteration keeps on the model between solves. */
  class DemandResponseModel {
    const m: Model
    const demand: DemandSystem
    var iteration: nat                          // iteration_number, advanced by the caller between solves
    var bids: Bids                              // DR_BID_LIST, dr_bid, dr_price, dr_bid_benefit
    var baseData: Option<BaseData>              // base_data_dict; None before calibrate_model
    var prevRecoverable: Option<map<Coord, real>>
    var prevDemand: Option<map<Coord, real>>
    var prevSystemCost: Option<real>

    constructor (model: Model, system: DemandSystem)
      ensures m == model && demand == system
      ensures iteration == 0 && bids == NoBids && baseData == None
      ensures prevRecoverable == None && prevDemand == None && prevSystemCost == None
    {
      m := model;
      demand := system;
      iteration := 0;
      bids := NoBids;
      baseData := None;
      prevRecoverable := None;
      prevDemand := None;
      prevSystemCost := None;
    }

    /** add_bids: number the new bids, refuse them if a stored bid gives more
        net benefit at the new price, otherwise list the number and write the
        three parameters. */
    method AddBids(ts: seq<BidTuple>) returns (r: Result<int, AddBidsError>)
      modifies this
      ensures (bids, r) == AddBidsSpec(old(bids), ts)
      ensures iteration == old(iteration) && baseData == old(baseData)
      ensures prevRecoverable == old(prevRecoverable) && prevDemand == old(prevDemand)
      ensures prevSystemCost == old(prevSystemCost)
    {
      var b := if |bids.list| == 0 then 1 else MaxInt(bids.list) + 1;
      var pairs := CollectNonConvexPairs(bids, b, ts);
      if pairs != [] {
        return Err(NonConvex(pairs));
      }
      bids, r := WriteBids(bids, b, ts);
    }

    /** calibrate_model: the base data from the reference demand point, and
        the demand system calibrated on it. */
    method CalibrateModel()
      modifies this, demand
      ensures baseData == Some(BaseDataOf(m))
      ensures demand.cal == CalibrationOf(BaseRowsOf(m), ElasticityScenario)
      ensures iteration == old(iteration) && bids == old(bids)
      ensures prevRecoverable == old(prevRecoverable) && prevDemand == old(prevDemand)
      ensures prevSystemCost == old(prevSystemCost)
    {
      baseData := Some(BaseDataOf(m));
      demand.Calibrate(BaseRowsOf(m), ElasticityScenario);
    }

    /** get_prices, on the iteration's current state. */
    method GetPrices(w: Weights, duals: Duals, revenueNeutral: bool, newton: (Zone, Period, real) -> Option<real>)
      returns (r: Result<PriceTable, PriceError>)
      requires Indexed(m)
      ensures r.Ok? <==> PricesOf(m, iteration, baseData, bids, w, duals, revenueNeutral, newton).Some?
      ensures r.Ok? ==> r.value == PricesOf(m, iteration, baseData, bids, w, duals, revenueNeutral, newton).value
      ensures r.Err? && RecoverableTable(m, iteration, baseData, bids, w, duals).Err? ==>
                r.error == RecoverableTable(m, iteration, baseData, bids, w, duals).error
    {
      r := ComputePrices(m, iteration, baseData, bids, w, duals, revenueNeutral, newton);
    }

    /** update_demand: calibrate on the first call, then collect bids at the
        current prices and add them. */
    method UpdateDemand(w: Weights, duals: Duals, pow: (real, real) -> real, newton: (Zone, Period, real) -> Option<real>)
      returns (r: Result<int, IterationError>)
      requires Indexed(m)
      modifies this, demand
      ensures old(baseData).None? ==>
                baseData == Some(BaseDataOf(m)) && demand.cal == CalibrationOf(BaseRowsOf(m), ElasticityScenario)
      ensures old(baseData).Some? ==> baseData == old(baseData) && demand.cal == old(demand.cal)
      ensures iteration == old(iteration) && prevSystemCost == old(prevSystemCost)
      ensures prevRecoverable == old(prevRecoverable) && prevDemand == old(prevDemand)
      ensures bids == AfterUpdate(m, iteration, baseData, demand.cal, old(bids), w, duals, pow, newton)
      ensures Reports(old(bids), CollectedBids(m, iteration, baseData, demand.cal, old(bids), w, duals, pow, newton), r)
    {
      if baseData.None? {
        CalibrateModel();
      }
      var tuples := CollectBids(m, iteration, baseData, demand.cal, bids, w, duals, pow, newton);
      if tuples.Err? {
        return Err(PricingFailed(tuples.error));
      }
      var added := AddBids(tuples.value);
      if added.Err? {
        return Err(BidsRejected(added.error));
      }
      r := Ok(added.value);
    }

    /** The first half of pre_iterate: forget the previous solution at
        iteration 0, otherwise record its recoverable costs, demands and
        system cost; a missing dual raises. */
    method RecordPrevious(w: Weights, duals: Duals, systemCost: real) returns (failed: Option<PriceError>)
      requires Indexed(m)
      modifies this
      ensures iteration == old(iteration) && bids == old(bids) && baseData == old(baseData)
      ensures iteration == 0 ==>
                failed == None && prevRecoverable == None && prevDemand == None && prevSystemCost == None
      ensures iteration > 0 ==> var t := PrevTable(m, bids, w, duals, Coords(m));
                && (t.Err? ==> failed == Some(t.error))
                && (t.Ok? ==> failed == None && prevRecoverable == Some(t.value) &&
                              prevDemand == Some(DemandTable(m, bids, w)) && prevSystemCost == Some(systemCost))
    {
      failed := None;
      if iteration == 0 {
        prevRecoverable := None;
        prevDemand := None;
        prevSystemCost := None;
      } else {
        var t := PrevTable(m, bids, w, duals, Coords(m));
        if t.Err? {
          return Some(t.error);
        }
        prevRecoverable := Some(t.value);
        prevDemand := Some(DemandTable(m, bids, w));
        prevSystemCost := Some(systemCost);
      }
    }

    /** pre_iterate: record the previous solution, update the demand, and
        test convergence against the newest bid. */
    method PreIterate(w: Weights, duals: Duals, systemCost: real, pow: (real, real) -> real,
                      newton: (Zone, Period, real) -> Option<real>)
      returns (r: Result<StopOutcome, IterationError>)
      requires Indexed(m)
      modifies this, demand
      ensures iteration == old(iteration)
      ensures iteration == 0 ==> prevRecoverable == None && prevDemand == None && prevSystemCost == None
      ensures iteration == 0 && r.Ok? ==> r.value == StopOutcome(false, false)
      ensures iteration > 0 && PrevTable(m, old(bids), w, duals, Coords(m)).Err? ==>
                r == Err(PricingFailed(PrevTable(m, old(bids), w, duals, Coords(m)).error)) && bids == old(bids)
      ensures iteration > 0 && PrevTable(m, old(bids), w, duals, Coords(m)).Ok? ==>
                && prevRecoverable == Some(PrevTable(m, old(bids), w, duals, Coords(m)).value)
                && prevDemand == Some(DemandTable(m, old(bids), w))
                && prevSystemCost == Some(systemCost)
      ensures (iteration == 0 || PrevTable(m, old(bids), w, duals, Coords(m)).Ok?) ==>
                bids == AfterUpdate(m, iteration, baseData, demand.cal, old(bids), w, duals, pow, newton)
      ensures r.Err? && r.error.BidsRejected? ==>
                var collected := CollectedBids(m, iteration, baseData, demand.cal, old(bids), w, duals, pow, newton);
                collected.Some? && AddBidsSpec(old(bids), collected.value).1 == Err(r.error.r)
      ensures iteration > 0 && r.Ok? ==>
                && prevRecoverable.Some? && prevDemand.Some? && bids.list != []
                && r == Verdict(m, iteration, prevRecoverable.value, prevDemand.value, PrevWelfareCost(m, old(bids), w),
                                bids, bids.list[|bids.list| - 1])
    {
      var failed := RecordPrevious(w, duals, systemCost);
      if failed.Some? {
        return Err(PricingFailed(failed.value));
      }
      var welfare := PrevWelfareCost(m, bids, w);
      r := UpdateAndTest(w, duals, pow, newton, welfare);
    }

    /** The second half of pre_iterate: update the demand, then at a later
        iteration test the newest bid against the recorded previous solution. */
    method UpdateAndTest(w: Weights, duals: Duals, pow: (real, real) -> real,
                         newton: (Zone, Period, real) -> Option<real>, welfare: real)
      returns (r: Result<StopOutcome, IterationError>)
      requires Indexed(m)
      requires iteration > 0 ==> prevRecoverable.Some? && prevDemand.Some?
      modifies this, demand
      ensures iteration == old(iteration) && prevSystemCost == old(prevSystemCost)
      ensures prevRecoverable == old(prevRecoverable) && prevDemand == old(prevDemand)
      ensures iteration == 0 && r.Ok? ==> r.value == StopOutcome(false, false)
      ensures bids == AfterUpdate(m, iteration, baseData, demand.cal, old(bids), w, duals, pow, newton)
      ensures r.Err? && r.error.BidsRejected? ==>
                var collected := CollectedBids(m, iteration, baseData, demand.cal, old(bids), w, duals, pow, newton);
                collected.Some? && AddBidsSpec(old(bids), collected.value).1 == Err(r.error.r)
      ensures iteration > 0 && r.Ok? ==>
                && bids.list != []
                && r == Verdict(m, iteration, prevRecoverable.value, prevDemand.value, welfare,
                                bids, bids.list[|bids.list| - 1])
    {
      ghost var before := bids;
      var updated := UpdateDemand(w, duals, pow, newton);
      if updated.Err? {
        return Err(updated.error);
      }
      if iteration == 0 {
        return Ok(StopOutcome(false, false));
      }
      AcceptedUpdateAppends(m, iteration, baseData, demand.cal, before, w, duals, pow, newton, updated);
      r := Verdict(m, iteration, prevRecoverable.value, prevDemand.value, welfare, bids, bids.list[|bids.list| - 1]);
    }
  }
}

/** How the solved model combines the stored bids: the bid weights, the
    convex-combination and flat-pricing constraints on them, the flexible
    demand they select, gas_demand, and the welfare term in the objective. */
module BidWeights {
  import opened Common
  import opened GasModel
  import opened BidStore

  /** DRBidWeight as read from a solution, indexed by (bid, coordinate). */
  type Weights = map<BidKey, real>

  function Weight(w: Weights, b: int, c: Coord): real { Val(w, (b, c)) }

  function WeightOf(w: Weights, c: Coord): int -> real
  {
    b => Weight(w, b, c)
  }

  function WeightedQuantityOf(bids: Bids, w: Weights, c: Coord): int -> real
  {
    b => Weight(w, b, c) * Quantity(bids, b, c)
  }

  /** DR_Convex_Bid_Weight: skipped while there are no bids, otherwise the
      weights of a coordinate sum to one. */
  function ConvexBidWeight(bids: Bids, w: Weights, c: Coord): (r: Constraint)
    ensures bids.list == [] <==> r == Skip
    ensures Satisfied(r) <==> bids.list == [] || SumOf(bids.list, WeightOf(w, c)) == 1.0
  {
    if bids.list == [] then Skip else Eq(SumOf(bids.list, WeightOf(w, c)), 1.0)
  }

  /** DR_Flat_Bid_Weight: skipped for EI; an RC weight equals the weight of
      the same bid in the first timeseries of the period. */
  function FlatBidWeight(m: Model, w: Weights, b: int, c: Coord): (r: Constraint)
    ensures c.sector == EI ==> r == Skip
    ensures c.sector == RC ==> (Satisfied(r) <==>
              Weight(w, b, c) == Weight(w, b, Coord(c.zone, FirstTsOfPeriod(m, c.ts), RC)))
  {
    if c.sector == EI then Skip
    else Eq(Weight(w, b, c), Weight(w, b, Coord(c.zone, FirstTsOfPeriod(m, c.ts), c.sector)))
  }

  /** FlexibleDemand: the weighted combination of the stored bid quantities. */
  function FlexibleDemand(bids: Bids, w: Weights, c: Coord): real
  {
    SumOf(bids.list, WeightedQuantityOf(bids, w, c))
  }

  /** FlexibleDemandTotal: both sectors of a zone and timeseries. */
  function FlexibleDemandTotal(bids: Bids, w: Weights, z: Zone, ts: Timeseries): (r: real)
    ensures r == FlexibleDemand(bids, w, Coord(z, ts, EI)) + FlexibleDemand(bids, w, Coord(z, ts, RC))
  {
    SumOf(DemandSectors, ds => FlexibleDemand(bids, w, Coord(z, ts, ds)))
  }

  /** gas_demand: the reference quantity before any bid exists, the flexible
      demand afterwards. */
  function GasDemand(m: Model, bids: Bids, w: Weights, c: Coord): (r: real)
    ensures bids.list == [] ==> r == RefQuantity(m, c)
    ensures bids.list != [] ==> r == FlexibleDemand(bids, w, c)
  {
    if bids.list == [] then RefQuantity(m, c) else FlexibleDemand(bids, w, c)
  }

  function SelectedTermOf(bids: Bids, w: Weights, c: Coord): int -> real
  {
    b => Weight(w, b, c) * Benefit(bids, b, c)
  }

  /** Σ_b weight·benefit of one coordinate: the willingness to pay of the
      selected demand. */
  function SelectedBenefit(bids: Bids, w: Weights, c: Coord): real
  {
    SumOf(bids.list, SelectedTermOf(bids, w, c))
  }

  /** The summands of DR_Welfare_Cost for one bid, grouped by zone and sector. */
  function SectorWelfareOf(bids: Bids, w: Weights, ts: Timeseries, b: int, z: Zone): Sector -> real
  {
    ds => SelectedTermOf(bids, w, Coord(z, ts, ds))(b)
  }

  function ZoneWelfareOf(bids: Bids, w: Weights, ts: Timeseries, b: int): Zone -> real
  {
    z => SumOf(DemandSectors, SectorWelfareOf(bids, w, ts, b, z))
  }

  function BidWelfareOf(m: Model, bids: Bids, w: Weights, ts: Timeseries): int -> real
  {
    b => SumOf(m.zones, ZoneWelfareOf(bids, w, ts, b))
  }

  /** DR_Welfare_Cost[tp]: minus the benefit of all bids, zones and sectors
      (bid outermost, as the source sums), per hour of tp's timeseries. */
  function WelfareCost(m: Model, bids: Bids, w: Weights, tp: Timepoint): real
    requires Duration(m, TpTs(m, tp)) > 0.0
  {
    var ts := TpTs(m, tp);
    (-1.0) * SumOf(bids.list, BidWelfareOf(m, bids, w, ts)) / Duration(m, ts)
  }

  /** The selected benefit of a zone, both sectors. */
  function ZoneBenefitOf(bids: Bids, w: Weights, ts: Timeseries): Zone -> real
  {
    z => SelectedBenefit(bids, w, Coord(z, ts, EI)) + SelectedBenefit(bids, w, Coord(z, ts, RC))
  }

  /** A convex combination of bids lies between the smallest and the largest
      stored quantity. */
  lemma FlexibleDemandWithinBids(bids: Bids, w: Weights, c: Coord, lo: real, hi: real)
    requires Satisfied(ConvexBidWeight(bids, w, c)) && bids.list != []
    requires forall b :: b in bids.list ==> Weight(w, b, c) >= 0.0
    requires forall b :: b in bids.list ==> lo <= Quantity(bids, b, c) <= hi
    ensures lo <= FlexibleDemand(bids, w, c) <= hi
  {
    WeightedSumBounds(bids.list, b => Quantity(bids, b, c), WeightOf(w, c), WeightedQuantityOf(bids, w, c), lo, hi);
  }

  /** In particular gas_demand is never negative once bids exist, and is the
      reference quantity before. */
  lemma GasDemandNonNegative(m: Model, bids: Bids, w: Weights, c: Coord)
    requires bids.list == [] ==> RefQuantity(m, c) >= 0.0
    requires forall b :: b in bids.list ==> Weight(w, b, c) >= 0.0 && Quantity(bids, b, c) >= 0.0
    ensures GasDemand(m, bids, w, c) >= 0.0
  {
    if bids.list != [] {
      SumOfNonNegative(bids.list, WeightedQuantityOf(bids, w, c));
    }
  }

  /** One stored bid with weight one selects exactly that bid's quantity. */
  lemma SingleBidSelected(bids: Bids, w: Weights, c: Coord)
    requires |bids.list| == 1 && Satisfied(ConvexBidWeight(bids, w, c))
    ensures FlexibleDemand(bids, w, c) == Quantity(bids, bids.list[0], c)
  {
    var b0 := bids.list[0];
    assert bids.list[1..] == [];
    assert SumOf(bids.list, WeightOf(w, c)) == WeightOf(w, c)(b0) + SumOf(bids.list[1..], WeightOf(w, c));
    assert Weight(w, b0, c) == 1.0;
    assert FlexibleDemand(bids, w, c) == WeightedQuantityOf(bids, w, c)(b0) + SumOf(bids.list[1..], WeightedQuantityOf(bids, w, c));
  }

  /** Under the flat-pricing constraints, an RC bid weight is the same in
      every timeseries of a period. */
  lemma FlatWeightsEqualInPeriod(m: Model, w: Weights, b: int, z: Zone, ts1: Timeseries, ts2: Timeseries)
    requires forall ts :: ts in m.timeseries ==> Satisfied(FlatBidWeight(m, w, b, Coord(z, ts, RC)))
    requires ts1 in m.timeseries && ts2 in m.timeseries
    requires PeriodOf(m, ts1) == PeriodOf(m, ts2)
    ensures Weight(w, b, Coord(z, ts1, RC)) == Weight(w, b, Coord(z, ts2, RC))
  {
    assert Satisfied(FlatBidWeight(m, w, b, Coord(z, ts1, RC)));
    assert Satisfied(FlatBidWeight(m, w, b, Coord(z, ts2, RC)));
    assert FirstTsOfPeriod(m, ts1) == FirstTsOfPeriod(m, ts2);
  }

  /** ... and so, with a period-independent quantity per bid, the RC demand
      selected is the same in every timeseries of the period. */
  lemma FlatDemandEqualInPeriod(m: Model, bids: Bids, w: Weights, z: Zone, ts1: Timeseries, ts2: Timeseries)
    requires forall b, ts :: b in bids.list && ts in m.timeseries ==> Satisfied(FlatBidWeight(m, w, b, Coord(z, ts, RC)))
    requires ts1 in m.timeseries && ts2 in m.timeseries
    requires PeriodOf(m, ts1) == PeriodOf(m, ts2)
    requires forall b :: b in bids.list ==> Quantity(bids, b, Coord(z, ts1, RC)) == Quantity(bids, b, Coord(z, ts2, RC))
    ensures FlexibleDemand(bids, w, Coord(z, ts1, RC)) == FlexibleDemand(bids, w, Coord(z, ts2, RC))
  {
    forall b | b in bids.list
      ensures WeightedQuantityOf(bids, w, Coord(z, ts1, RC))(b) == WeightedQuantityOf(bids, w, Coord(z, ts2, RC))(b)
    {
      FlatWeightsEqualInPeriod(m, w, b, z, ts1, ts2);
    }
    SumOfCongruent(bids.list, WeightedQuantityOf(bids, w, Coord(z, ts1, RC)), WeightedQuantityOf(bids, w, Coord(z, ts2, RC)));
  }

  /** For one zone, summing bids outermost or innermost gives the same benefit. */
  function ZoneColumnOf(bids: Bids, w: Weights, ts: Timeseries, z: Zone): int -> real
  {
    b => ZoneWelfareOf(bids, w, ts, b)(z)
  }

  lemma ZoneWelfareSwap(bids: Bids, w: Weights, ts: Timeseries, z: Zone)
    ensures SumOf(bids.list, ZoneColumnOf(bids, w, ts, z)) == ZoneBenefitOf(bids, w, ts)(z)
  {
    var fe := SelectedTermOf(bids, w, Coord(z, ts, EI));
    var fr := SelectedTermOf(bids, w, Coord(z, ts, RC));
    forall b ensures ZoneWelfareOf(bids, w, ts, b)(z) == fe(b) + fr(b) {
      assert DemandSectors[1..][1..] == [];
    }
    SumOfAdd(bids.list, fe, fr, ZoneColumnOf(bids, w, ts, z));
  }

  /** The welfare term regrouped by coordinate: minus the benefit of the
      demand selected in each zone (both sectors), per hour. The source sums
      bids outermost; summing them innermost gives the same value. */
  lemma WelfareCostByZone(m: Model, bids: Bids, w: Weights, tp: Timepoint)
    requires Duration(m, TpTs(m, tp)) > 0.0
    ensures WelfareCost(m, bids, w, tp) ==
              (-1.0) * SumOf(m.zones, ZoneBenefitOf(bids, w, TpTs(m, tp))) / Duration(m, TpTs(m, tp))
  {
    BidsZonesExchange(m, bids, w, TpTs(m, tp));
  }

  lemma BidsZonesExchange(m: Model, bids: Bids, w: Weights, ts: Timeseries)
    ensures SumOf(bids.list, BidWelfareOf(m, bids, w, ts)) == SumOf(m.zones, ZoneBenefitOf(bids, w, ts))
  {
    var g: int -> Zone -> real := b => ZoneWelfareOf(bids, w, ts, b);
    var h: Zone -> int -> real := z => ZoneColumnOf(bids, w, ts, z);
    forall y ensures ZoneBenefitOf(bids, w, ts)(y) == SumOf(bids.list, h(y)) {
      ZoneWelfareSwap(bids, w, ts, y);
    }
    assert forall x :: BidWelfareOf(m, bids, w, ts)(x) == SumOf(m.zones, g(x));
    assert forall x, y :: g(x)(y) == h(y)(x);
    SumOfExchange(bids.list, m.zones, g, h, BidWelfareOf(m, bids, w, ts), ZoneBenefitOf(bids, w, ts));
  }

}

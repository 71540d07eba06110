/** The sets and parameters of the gas model that the demand-response
    iteration reads: zones, the timescale structure (periods, timeseries,
    timepoints), the discounting factors, the exogenous pipeline cost adder,
    the RC markup and the reference demand point. */
module GasModel {
  import opened Common

  datatype Model = Model(
    zones: seq<Zone>,                             // GAS_ZONES
    timeseries: seq<Timeseries>,                  // TIMESERIES
    periods: seq<Period>,                         // PERIODS
    timepoints: seq<Timepoint>,                   // TIMEPOINTS
    tsInPeriod: map<Period, seq<Timeseries>>,     // TS_IN_PERIOD
    tsPeriod: map<Timeseries, Period>,            // ts_period
    tsScaleToYear: map<Timeseries, real>,         // ts_scale_to_year
    tsScaleToPeriod: map<Timeseries, real>,       // ts_scale_to_period
    periodLengthYears: map<Period, real>,         // period_length_years
    tsDurationHrs: map<Timeseries, real>,         // ts_duration_hrs
    tpTs: map<Timepoint, Timeseries>,             // tp_ts
    tpsInPeriod: map<Period, seq<Timepoint>>,     // TPS_IN_PERIOD
    bringAnnual: map<Period, real>,               // bring_annual_costs_to_base_year
    bringTp: map<Timepoint, real>,                // bring_timepoint_costs_to_base_year
    costAdderZones: seq<Zone>,                    // GAS_ZONE_COST_ADDER
    glCostAdder: map<Period, real>,               // gl_cost_adder
    rcMarkup: map<Zone, real>,                    // rc_markup (default 0)
    refQuantity: map<Coord, real>,                // gas_demand_ref_quantity (default 0.001)
    refPrice: map<Coord, real>,                   // gas_ref_price (default 6.96)
    flatPricing: bool)                            // --dr-flat-pricing

  /** Lookups; under Valid every key that is read is present. */
  function PeriodOf(m: Model, ts: Timeseries): Period
  {
    if ts in m.tsPeriod then m.tsPeriod[ts] else 0
  }

  function Scale(m: Model, ts: Timeseries): real { Val(m.tsScaleToYear, ts) }
  function Duration(m: Model, ts: Timeseries): real { Val(m.tsDurationHrs, ts) }
  function ScaleToPeriod(m: Model, ts: Timeseries): real { Val(m.tsScaleToPeriod, ts) }
  function PeriodLength(m: Model, p: Period): real { Val(m.periodLengthYears, p) }
  function Bring(m: Model, p: Period): real { Val(m.bringAnnual, p) }
  function BringTp(m: Model, tp: Timepoint): real { Val(m.bringTp, tp) }
  function GlCostAdder(m: Model, p: Period): real { Val(m.glCostAdder, p) }
  function RcMarkup(m: Model, z: Zone): real { Val(m.rcMarkup, z) }

  function TsInPeriod(m: Model, p: Period): seq<Timeseries>
  {
    if p in m.tsInPeriod then m.tsInPeriod[p] else []
  }

  function TpTs(m: Model, tp: Timepoint): Timeseries
  {
    if tp in m.tpTs then m.tpTs[tp] else 0
  }

  /** gas_demand_ref_quantity, whose default is 0.001. */
  function RefQuantity(m: Model, c: Coord): (q: real)
    ensures c !in m.refQuantity ==> q == 0.001
  {
    ValOr(m.refQuantity, c, 0.001)
  }

  /** gas_ref_price, whose default is 6.96. */
  function RefPrice(m: Model, c: Coord): (p: real)
    ensures c !in m.refPrice ==> p == 6.96
  {
    ValOr(m.refPrice, c, 6.96)
  }

  /** The timeseries of the first timepoint of ts's period: the anchor of the
      flat-pricing weight constraint. */
  function FirstTsOfPeriod(m: Model, ts: Timeseries): Timeseries
  {
    var p := PeriodOf(m, ts);
    if p in m.tpsInPeriod && m.tpsInPeriod[p] != [] then TpTs(m, m.tpsInPeriod[p][0]) else 0
  }

  /** What the timescale and financial modules of the host model guarantee:
      distinct index sets, every timeseries in exactly the period it names,
      positive durations, scales and discount factors, non-empty periods. */
  predicate Valid(m: Model)
  {
    && Distinct(m.zones) && Distinct(m.timeseries) && Distinct(m.periods) && Distinct(m.timepoints)
    && (forall ts :: ts in m.timeseries ==>
          && ts in m.tsPeriod && m.tsPeriod[ts] in m.periods
          && ts in m.tsScaleToYear && m.tsScaleToYear[ts] > 0.0
          && ts in m.tsDurationHrs && m.tsDurationHrs[ts] > 0.0)
    && (forall p :: p in m.periods ==>
          && p in m.tsInPeriod && Distinct(m.tsInPeriod[p])
          && (forall ts :: ts in m.tsInPeriod[p] ==> ts in m.timeseries && PeriodOf(m, ts) == p)
          && p in m.tpsInPeriod && m.tpsInPeriod[p] != []
          && (forall tp :: tp in m.tpsInPeriod[p] ==> tp in m.timepoints)
          && p in m.bringAnnual && m.bringAnnual[p] > 0.0)
    && (forall ts :: ts in m.timeseries ==> ts in TsInPeriod(m, PeriodOf(m, ts)))
    && (forall tp :: tp in m.timepoints ==> tp in m.tpTs && m.tpTs[tp] in m.timeseries)
    && (forall z :: z in m.costAdderZones ==> z in m.zones)
  }

  /** Under Valid the anchor timeseries is a timeseries of the model and lies
      in the same period. */
  lemma FirstTsOfPeriodValid(m: Model, ts: Timeseries)
    requires Valid(m) && ts in m.timeseries
    ensures FirstTsOfPeriod(m, ts) in m.timeseries
  {
    var p := PeriodOf(m, ts);
    assert m.tpsInPeriod[p][0] in m.tpsInPeriod[p];
  }

  /** The coordinates of one zone, in the order the source's nested loops
      visit them (timeseries outer, sector inner). */
  function ZoneCoords(z: Zone, tss: seq<Timeseries>): (r: seq<Coord>)
    ensures |r| == 2 * |tss|
    decreases |tss|
  {
    if tss == [] then [] else [Coord(z, tss[0], EI), Coord(z, tss[0], RC)] + ZoneCoords(z, tss[1..])
  }

  /** `for z in zones for ts in tss for ds in DEMAND_SECTORS`, flattened. */
  function CoordsOf(zs: seq<Zone>, tss: seq<Timeseries>): (r: seq<Coord>)
    ensures |r| == 2 * |zs| * |tss|
    decreases |zs|
  {
    if zs == [] then [] else ZoneCoords(zs[0], tss) + CoordsOf(zs[1..], tss)
  }

  function Coords(m: Model): seq<Coord>
  {
    CoordsOf(m.zones, m.timeseries)
  }

  lemma {:induction false} ZoneCoordsMember(z: Zone, tss: seq<Timeseries>, c: Coord)
    ensures c in ZoneCoords(z, tss) <==> c.zone == z && c.ts in tss
    decreases |tss|
  {
    if tss != [] {
      ZoneCoordsMember(z, tss[1..], c);
      assert tss == [tss[0]] + tss[1..];
      if c.zone == z && c.ts == tss[0] {
        if c.sector == EI {
          assert c == Coord(z, tss[0], EI);
        } else {
          assert c == Coord(z, tss[0], RC);
        }
      }
    }
  }

  /** The flattened loops visit exactly the zone / timeseries combinations. */
  lemma {:induction false} CoordsOfMember(zs: seq<Zone>, tss: seq<Timeseries>, c: Coord)
    ensures c in CoordsOf(zs, tss) <==> c.zone in zs && c.ts in tss
    decreases |zs|
  {
    if zs != [] {
      ZoneCoordsMember(zs[0], tss, c);
      CoordsOfMember(zs[1..], tss, c);
      assert zs == [zs[0]] + zs[1..];
    }
  }

  lemma {:induction false} DistinctAppend<T>(a: seq<T>, b: seq<T>)
    requires Distinct(a) && Distinct(b)
    requires forall x :: x in a ==> x !in b
    ensures Distinct(a + b)
  {
    forall i, j | 0 <= i < j < |a + b| ensures (a + b)[i] != (a + b)[j] {
      if j < |a| {
      } else if i >= |a| {
        assert (a + b)[i] == b[i - |a|] && (a + b)[j] == b[j - |a|];
      } else {
        assert (a + b)[i] == a[i] && (a + b)[j] == b[j - |a|];
        assert a[i] in a;
      }
    }
  }

  lemma {:induction false} ZoneCoordsDistinct(z: Zone, tss: seq<Timeseries>)
    requires Distinct(tss)
    ensures Distinct(ZoneCoords(z, tss))
    decreases |tss|
  {
    if tss != [] {
      var rest := tss[1..];
      assert Distinct(rest) by {
        forall i, j | 0 <= i < j < |rest| ensures rest[i] != rest[j] {
          assert rest[i] == tss[i + 1] && rest[j] == tss[j + 1];
        }
      }
      ZoneCoordsDistinct(z, rest);
      forall c | c in [Coord(z, tss[0], EI), Coord(z, tss[0], RC)] ensures c !in ZoneCoords(z, rest) {
        ZoneCoordsMember(z, rest, c);
        forall k | 0 <= k < |rest| ensures rest[k] != tss[0] {
          assert rest[k] == tss[k + 1];
        }
      }
      DistinctAppend([Coord(z, tss[0], EI), Coord(z, tss[0], RC)], ZoneCoords(z, rest));
    }
  }

  /** Distinct zones and timeseries give distinct coordinates. */
  lemma {:induction false} CoordsOfDistinct(zs: seq<Zone>, tss: seq<Timeseries>)
    requires Distinct(zs) && Distinct(tss)
    ensures Distinct(CoordsOf(zs, tss))
    decreases |zs|
  {
    if zs != [] {
      var rest := zs[1..];
      assert Distinct(rest) by {
        forall i, j | 0 <= i < j < |rest| ensures rest[i] != rest[j] {
          assert rest[i] == zs[i + 1] && rest[j] == zs[j + 1];
        }
      }
      ZoneCoordsDistinct(zs[0], tss);
      CoordsOfDistinct(rest, tss);
      forall c | c in ZoneCoords(zs[0], tss) ensures c !in CoordsOf(rest, tss) {
        ZoneCoordsMember(zs[0], tss, c);
        CoordsOfMember(rest, tss, c);
        forall k | 0 <= k < |rest| ensures rest[k] != zs[0] {
          assert rest[k] == zs[k + 1];
        }
      }
      DistinctAppend(ZoneCoords(zs[0], tss), CoordsOf(rest, tss));
    }
  }
}

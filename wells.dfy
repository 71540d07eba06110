/** Gas wells by zone and drill type: when a build can produce, which
    builds are online in a period, how many wells of each production year a
    period has, the supply they deliver in a timeseries, the bounds and
    default values of the build variables, and the annual build limit. */
module Wells {
  import opened Common
  import opened GasModel
  import opened Capacity

  type DrillType = string

  /** GAS_WELL_IN_ZONE: a (gas zone, drill type) pair. */
  type Well = (Zone, DrillType)

  /** BLD_YRS_FOR_GAS_WELL: a well with its build year (a period or an earlier year). */
  type WellBuild = (Well, int)

  /** The year a build comes online: the start of its period, or the build
      year itself for builds before the study. */
  function OnlineYear(periods: seq<Period>, periodStart: map<Period, real>, bld: int): real
  {
    if bld in periods then Val(periodStart, bld) else bld as real
  }

  /** gas_well_max_age (default 30). */
  function MaxAge(maxAge: map<DrillType, real>, dt: DrillType): real
  {
    ValOr(maxAge, dt, 30.0)
  }

  /** well_build_can_operate_in_period: the period starts within the build's
      service life, [online, online + max age). */
  function CanOperate(periods: seq<Period>, periodStart: map<Period, real>, maxAge: map<DrillType, real>,
                      dt: DrillType, bld: int, period: Period): (r: bool)
    ensures r <==> OnlineYear(periods, periodStart, bld) <= Val(periodStart, period)
                   < OnlineYear(periods, periodStart, bld) + MaxAge(maxAge, dt)
  {
    var online := OnlineYear(periods, periodStart, bld);
    online <= Val(periodStart, period) < online + MaxAge(maxAge, dt)
  }

  /** A build built in a study period operates in that period (max ages are positive). */
  lemma BuildOperatesInOwnPeriod(periods: seq<Period>, periodStart: map<Period, real>, maxAge: map<DrillType, real>,
                                 dt: DrillType, p: Period)
    requires p in periods
    requires MaxAge(maxAge, dt) > 0.0
    ensures CanOperate(periods, periodStart, maxAge, dt, p, p)
  {
  }

  /** The periods a build operates in form an unbroken run: a period that
      starts between two operating periods is an operating period too, and
      two operating periods start less than one service life apart. */
  lemma OperatingWindowConvex(periods: seq<Period>, periodStart: map<Period, real>, maxAge: map<DrillType, real>,
                              dt: DrillType, bld: int, p1: Period, p2: Period, p3: Period)
    requires CanOperate(periods, periodStart, maxAge, dt, bld, p1)
    requires CanOperate(periods, periodStart, maxAge, dt, bld, p3)
    requires Val(periodStart, p1) <= Val(periodStart, p2) <= Val(periodStart, p3)
    ensures CanOperate(periods, periodStart, maxAge, dt, bld, p2)
    ensures Val(periodStart, p3) - Val(periodStart, p1) < MaxAge(maxAge, dt)
  {
  }

  /** BLD_YRS_FOR_WELL_PERIOD[z, dt, period]. */
  function BldYrsForWellPeriod(builds: seq<WellBuild>, periods: seq<Period>, periodStart: map<Period, real>,
                               maxAge: map<DrillType, real>, w: Well, period: Period): (r: set<int>)
    ensures forall y :: y in r <==> (w, y) in builds && CanOperate(periods, periodStart, maxAge, w.1, y, period)
  {
    set b | b in builds && b.0 == w && CanOperate(periods, periodStart, maxAge, w.1, b.1, period) :: b.1
  }

  /** The build year whose wells are in production year prodYr during period. */
  function VintageOf(period: Period, prodYr: int): int
  {
    period - prodYr + 1
  }

  function WellNumTerm(periods: seq<Period>, periodStart: map<Period, real>, maxAge: map<DrillType, real>,
                       num: map<WellBuild, real>, w: Well, prodYr: int, period: Period): WellBuild -> real
  {
    (b: WellBuild) => if b.0 == w && CanOperate(periods, periodStart, maxAge, w.1, b.1, period) && b.1 == VintageOf(period, prodYr)
         then Val(num, b) else 0.0
  }

  /** WellNumInProdYear[z, dt, prod_yr, period]: Σ BuildWellNum over the
      online build years equal to period - prod_yr + 1. */
  function WellNumInProdYear(builds: seq<WellBuild>, periods: seq<Period>, periodStart: map<Period, real>,
                             maxAge: map<DrillType, real>, num: map<WellBuild, real>,
                             w: Well, prodYr: int, period: Period): real
  {
    SumOf(builds, WellNumTerm(periods, periodStart, maxAge, num, w, prodYr, period))
  }

  /** A sum over a duplicate-free sequence of a function that is zero away
      from one element is that element's value. */
  lemma {:induction false} SumOfIndicator(s: seq<WellBuild>, k: WellBuild, f: WellBuild -> real)
    requires Distinct(s)
    requires forall x :: x != k ==> f(x) == 0.0
    ensures SumOf(s, f) == if k in s then f(k) else 0.0
    decreases |s|
  {
    if s != [] {
      assert Distinct(s[1..]) by {
        forall i, j | 0 <= i < j < |s[1..]| ensures s[1..][i] != s[1..][j] {
          assert s[1..][i] == s[i + 1] && s[1..][j] == s[j + 1];
        }
      }
      SumOfIndicator(s[1..], k, f);
      if s[0] == k {
        assert k !in s[1..] by {
          forall j | 0 <= j < |s[1..]| ensures s[1..][j] != k {
            assert s[1..][j] == s[j + 1];
          }
        }
      }
    }
  }

  /** There is one build year per vintage, so the count of wells in a
      production year is that vintage's build, when it exists and is online,
      and nothing otherwise. */
  lemma WellNumIsVintage(builds: seq<WellBuild>, periods: seq<Period>, periodStart: map<Period, real>,
                         maxAge: map<DrillType, real>, num: map<WellBuild, real>,
                         w: Well, prodYr: int, period: Period)
    requires Distinct(builds)
    ensures var y := VintageOf(period, prodYr);
            WellNumInProdYear(builds, periods, periodStart, maxAge, num, w, prodYr, period)
            == if y in BldYrsForWellPeriod(builds, periods, periodStart, maxAge, w, period) then Val(num, (w, y)) else 0.0
  {
    var k := (w, VintageOf(period, prodYr));
    SumOfIndicator(builds, k, WellNumTerm(periods, periodStart, maxAge, num, w, prodYr, period));
  }

  /** Dividing a daily quantity by 24 / ts_duration_hrs converts it to a
      quantity for the timeseries; a zero duration is a division by zero. */
  function DailyToTimeseries(daily: real, durationHrs: real): (r: real)
    requires durationHrs != 0.0
    ensures r == daily * durationHrs / 24.0
  {
    daily / (24.0 / durationHrs)
  }

  function ProdYearSupply(m: Model, builds: seq<WellBuild>, periodStart: map<Period, real>,
                          maxAge: map<DrillType, real>, num: map<WellBuild, real>,
                          rate: map<(Well, int), real>, w: Well, ts: Timeseries): int -> real
    requires Duration(m, ts) != 0.0
  {
    (prodYr: int) => DailyToTimeseries(ProdYearDaily(m, builds, periodStart, maxAge, num, rate, w, ts, prodYr), Duration(m, ts))
  }

  /** The daily production of the wells of one production year. */
  function ProdYearDaily(m: Model, builds: seq<WellBuild>, periodStart: map<Period, real>,
                         maxAge: map<DrillType, real>, num: map<WellBuild, real>,
                         rate: map<(Well, int), real>, w: Well, ts: Timeseries, prodYr: int): real
  {
    WellNumInProdYear(builds, m.periods, periodStart, maxAge, num, w, prodYr, PeriodOf(m, ts)) * Val(rate, (w, prodYr))
  }

  /** GasSupplyQuantityByType[z, dt, ts]: the wells of every production year
      times their daily production rate (default 0), converted to the timeseries. */
  function SupplyByType(m: Model, prodYears: seq<int>, builds: seq<WellBuild>, periodStart: map<Period, real>,
                        maxAge: map<DrillType, real>, num: map<WellBuild, real>,
                        rate: map<(Well, int), real>, w: Well, ts: Timeseries): real
    requires Duration(m, ts) != 0.0
  {
    SumOf(prodYears, ProdYearSupply(m, builds, periodStart, maxAge, num, rate, w, ts))
  }

  function SupplyByTypeFn(m: Model, prodYears: seq<int>, builds: seq<WellBuild>, periodStart: map<Period, real>,
                          maxAge: map<DrillType, real>, num: map<WellBuild, real>,
                          rate: map<(Well, int), real>, z: Zone, ts: Timeseries): DrillType -> real
    requires Duration(m, ts) != 0.0
  {
    dt => SupplyByType(m, prodYears, builds, periodStart, maxAge, num, rate, (z, dt), ts)
  }

  /** GasSupplyQuantity[z, ts]: the supply of every drill type in the zone. */
  function GasSupplyQuantity(m: Model, drillTypes: seq<DrillType>, prodYears: seq<int>, builds: seq<WellBuild>,
                             periodStart: map<Period, real>, maxAge: map<DrillType, real>,
                             num: map<WellBuild, real>, rate: map<(Well, int), real>,
                             z: Zone, ts: Timeseries): real
    requires Duration(m, ts) != 0.0
  {
    SumOf(drillTypes, SupplyByTypeFn(m, prodYears, builds, periodStart, maxAge, num, rate, z, ts))
  }

  predicate NonNegativeValues<K>(x: map<K, real>)
  {
    forall k :: k in x ==> x[k] >= 0.0
  }

  lemma WellNumNonNegative(builds: seq<WellBuild>, periods: seq<Period>, periodStart: map<Period, real>,
                           maxAge: map<DrillType, real>, num: map<WellBuild, real>,
                           w: Well, prodYr: int, period: Period)
    requires NonNegativeValues(num)
    ensures WellNumInProdYear(builds, periods, periodStart, maxAge, num, w, prodYr, period) >= 0.0
  {
    SumOfNonNegative(builds, WellNumTerm(periods, periodStart, maxAge, num, w, prodYr, period));
  }

  lemma SupplyTermNonNegative(n: real, r: real, d: real)
    requires n >= 0.0 && r >= 0.0 && d > 0.0
    ensures DailyToTimeseries(n * r, d) >= 0.0
  {
    assert n * r >= 0.0;
    assert n * r * d >= 0.0;
  }

  /** With non-negative well counts (NonNegativeIntegers) and production
      rates (NonNegativeReals), the wells of every drill type supply a
      non-negative quantity. */
  lemma SupplyNonNegative(m: Model, drillTypes: seq<DrillType>, prodYears: seq<int>, builds: seq<WellBuild>,
                          periodStart: map<Period, real>, maxAge: map<DrillType, real>,
                          num: map<WellBuild, real>, rate: map<(Well, int), real>,
                          z: Zone, ts: Timeseries)
    requires Duration(m, ts) > 0.0
    requires NonNegativeValues(num) && NonNegativeValues(rate)
    ensures forall dt :: SupplyByType(m, prodYears, builds, periodStart, maxAge, num, rate, (z, dt), ts) >= 0.0
    ensures GasSupplyQuantity(m, drillTypes, prodYears, builds, periodStart, maxAge, num, rate, z, ts) >= 0.0
  {
    forall dt ensures SupplyByType(m, prodYears, builds, periodStart, maxAge, num, rate, (z, dt), ts) >= 0.0 {
      var f := ProdYearSupply(m, builds, periodStart, maxAge, num, rate, (z, dt), ts);
      forall y | y in prodYears ensures f(y) >= 0.0 {
        var n := WellNumInProdYear(builds, m.periods, periodStart, maxAge, num, (z, dt), y, PeriodOf(m, ts));
        WellNumNonNegative(builds, m.periods, periodStart, maxAge, num, (z, dt), y, PeriodOf(m, ts));
        SupplyTermNonNegative(n, Val(rate, ((z, dt), y)), Duration(m, ts));
        assert f(y) == DailyToTimeseries(ProdYearDaily(m, builds, periodStart, maxAge, num, rate, (z, dt), ts, y), Duration(m, ts));
      }
      SumOfNonNegative(prodYears, f);
    }
    SumOfNonNegative(drillTypes, SupplyByTypeFn(m, prodYears, builds, periodStart, maxAge, num, rate, z, ts));
  }

  // ---------------------------------------------------------------- builds

  /** NEW_GAS_WELL_BLD_YRS: every well of a zone allowed to build, with every
      period; gas_well_new_build_allowed has no default. */
  function NewWellBuildYears(wells: seq<Well>, periods: seq<Period>, allowed: map<Zone, bool>): (r: seq<(Well, Period)>)
    requires forall w :: w in wells ==> w.0 in allowed
    ensures forall w, p :: (w, p) in r <==> w in wells && p in periods && allowed[w.0]
  {
    NewBuildYears(wells, periods, ZoneAllowedFn(allowed))
  }

  function ZoneAllowedFn(allowed: map<Zone, bool>): Well -> bool
  {
    (w: Well) => w.0 in allowed && allowed[w.0]
  }

  /** The build variables of the wells; Pyomo leaves unassigned values out. */
  class WellBuilds {
    var buildWellNum: map<WellBuild, real>

    constructor()
      ensures buildWellNum == map[]
    {
      buildWellNum := map[];
    }

    /** BuildWell_assign_default_value: every existing build's variable
        starts at its predetermined count (default 0); other variables keep
        their values. */
    method AssignDefaultValues(existing: seq<WellBuild>, predet: map<WellBuild, real>)
      modifies this
      ensures forall b :: b in existing ==> b in buildWellNum && buildWellNum[b] == Val(predet, b)
      ensures forall b :: b !in existing ==> (b in buildWellNum <==> b in old(buildWellNum))
      ensures forall b :: b !in existing && b in old(buildWellNum) ==> buildWellNum[b] == old(buildWellNum)[b]
    {
      for i := 0 to |existing|
        invariant forall j :: 0 <= j < i ==> existing[j] in buildWellNum && buildWellNum[existing[j]] == Val(predet, existing[j])
        invariant forall b :: b !in existing[..i] ==> (b in buildWellNum <==> b in old(buildWellNum))
        invariant forall b :: b !in existing[..i] && b in old(buildWellNum) ==> buildWellNum[b] == old(buildWellNum)[b]
      {
        assert existing[..i + 1] == existing[..i] + [existing[i]];
        buildWellNum := buildWellNum[existing[i] := Val(predet, existing[i])];
      }
      assert existing[..|existing|] == existing;
    }
  }

  /** The default values lie within bounds_BuildWell: an existing build's
      default is the only value its bounds allow. */
  lemma DefaultWithinBounds(existing: seq<WellBuild>, predet: map<WellBuild, real>, b: WellBuild, x: real)
    requires b in existing
    ensures Within(BuildBounds((set e | e in existing), predet, b), x) <==> x == Val(predet, b)
  {
  }

  function BuildNumFn(num: map<WellBuild, real>, z: Zone, p: Period): DrillType -> real
  {
    dt => Val(num, ((z, dt), p))
  }

  /** Gas_Well_Upper_Limit[z, p]: skipped for a zone that may not build new
      wells; otherwise the wells built in p over all drill types are at most
      max_gas_well_build_year[z] (default 0). */
  function GasWellUpperLimit(drillTypes: seq<DrillType>, allowed: map<Zone, bool>, maxBuild: map<Zone, real>,
                             num: map<WellBuild, real>, z: Zone, p: Period): (c: Constraint)
    requires z in allowed
    ensures c.Skip? <==> !allowed[z]
    ensures c.Le? ==> (Satisfied(c) <==> SumOf(drillTypes, BuildNumFn(num, z, p)) <= Val(maxBuild, z))
  {
    if !allowed[z] then Skip else Le(SumOf(drillTypes, BuildNumFn(num, z, p)), Val(maxBuild, z))
  }

  /** The limit is skipped exactly for the zones that have no new build years. */
  lemma UpperLimitSkippedWithoutNewBuilds(drillTypes: seq<DrillType>, zones: seq<Zone>, periods: seq<Period>,
                                          allowed: map<Zone, bool>, maxBuild: map<Zone, real>,
                                          num: map<WellBuild, real>, z: Zone, p: Period)
    requires z in zones && p in periods && drillTypes != []
    requires forall zz :: zz in zones ==> zz in allowed
    ensures var wells := WellsInZones(zones, drillTypes);
            GasWellUpperLimit(drillTypes, allowed, maxBuild, num, z, p).Skip?
            <==> forall dt :: ((z, dt), p) !in NewWellBuildYears(wells, periods, allowed)
  {
    var wells := WellsInZones(zones, drillTypes);
    assert (z, drillTypes[0]) in wells;
  }

  /** GAS_WELL_IN_ZONE = GAS_ZONES × DRILL_TYPE. */
  function WellsInZones(zones: seq<Zone>, drillTypes: seq<DrillType>): (r: seq<Well>)
    ensures forall w :: w in r <==> w.0 in zones && w.1 in drillTypes
    decreases |zones|
  {
    if zones == [] then [] else WellsOfZone(zones[0], drillTypes) + WellsInZones(zones[1..], drillTypes)
  }

  function WellsOfZone(z: Zone, drillTypes: seq<DrillType>): (r: seq<Well>)
    ensures forall w :: w in r <==> w.0 == z && w.1 in drillTypes
    decreases |drillTypes|
  {
    if drillTypes == [] then [] else [(z, drillTypes[0])] + WellsOfZone(z, drillTypes[1..])
  }
}

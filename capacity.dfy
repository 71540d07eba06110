/** Build-year bookkeeping shared by gas lines, directional gas lines,
    underground storage, LNG storage, liquefaction and vaporization, and
    wells: the bounds that lock existing builds, the new-build index sets,
    cumulative nameplate capacity, and the annual cost adder of exogenous
    pipelines. */
module Capacity {
  import opened Common
  import opened Corridors

  /** A build year: "Legacy" marks existing capacity whose year is unknown. */
  datatype BuildYear = Legacy | Year(year: int)

  /** A variable's bounds; an upper bound of None is Pyomo's unbounded side. */
  datatype Bounds = Bounds(lower: real, upper: Option<real>)

  predicate Within(b: Bounds, x: real)
  {
    b.lower <= x && (b.upper.Some? ==> x <= b.upper.value)
  }

  /** bounds_BuildGl, bounds_BuildDirectionalGl, bounds_BuildStorage,
      bounds_BuildLNG*, bounds_BuildWell: an existing build is locked to its
      predetermined amount (default 0), any other build is only non-negative. */
  function BuildBounds<K>(existing: set<K>, predet: map<K, real>, k: K): (b: Bounds)
    ensures forall x :: Within(b, x) <==> if k in existing then x == Val(predet, k) else x >= 0.0
  {
    if k in existing then Bounds(Val(predet, k), Some(Val(predet, k))) else Bounds(0.0, None)
  }

  // ---------------------------------------------------------------- new-build index sets

  function PairsWith<K(!new)>(k: K, periods: seq<Period>): (r: seq<(K, Period)>)
    ensures forall x, p :: (x, p) in r <==> x == k && p in periods
    decreases |periods|
  {
    if periods == [] then [] else [(k, periods[0])] + PairsWith(k, periods[1..])
  }

  /** NEW_GAS_LINE_BLD_YRS and the like: every item allowed to build, with every period. */
  function NewBuildYears<K(==,!new)>(items: seq<K>, periods: seq<Period>, allowed: K -> bool): (r: seq<(K, Period)>)
    ensures forall k, p :: (k, p) in r <==> k in items && p in periods && allowed(k)
    decreases |items|
  {
    if items == [] then []
    else (if allowed(items[0]) then PairsWith(items[0], periods) else []) + NewBuildYears(items[1..], periods, allowed)
  }

  /** gas_line_new_build_allowed (default True) of the line a directional pair maps to. */
  function LineAllowed(links: seq<Link>, allowed: map<string, bool>, d: (Zone, Zone)): bool
  {
    match CorridorOf(links, d.0, d.1)
    case None => false
    case Some(gl) => if gl in allowed then allowed[gl] else true
  }

  function LineAllowedFn(links: seq<Link>, allowed: map<string, bool>): ((Zone, Zone)) -> bool
  {
    d => LineAllowed(links, allowed, d)
  }

  /** NEW_GAS_D_LINE_BLD_YRS over DIRECTIONAL_GL (listed in any order): a
      direction may get new capacity exactly when its line may, so the two
      directions of a line are treated alike. */
  lemma DirectionalNewBuildSymmetric(links: seq<Link>, dirs: seq<(Zone, Zone)>, allowed: map<string, bool>,
                                     periods: seq<Period>, a: Zone, b: Zone, p: Period)
    requires forall d :: d in dirs <==> d in Directional(links)
    ensures var r := NewBuildYears(dirs, periods, LineAllowedFn(links, allowed));
            ((a, b), p) in r <==> ((b, a), p) in r
  {
    CorridorOfSymmetric(links, a, b);
    DirectionalSymmetric(links, a, b);
  }

  // ---------------------------------------------------------------- nameplate capacity

  /** A build entry: the built thing (line, directional pair, zone, ...) and its build year. */
  type Build<K> = (K, BuildYear)

  /** Capacity of year y is in service in the period: Legacy always, a year once reached. */
  predicate InService(y: BuildYear, period: Period)
  {
    y.Legacy? || y.year <= period
  }

  function InServiceTerm<K(==)>(k: K, period: Period, amount: Build<K> -> real): Build<K> -> real
  {
    (b: Build<K>) => if b.0 == k && InService(b.1, period) then amount(b) else 0.0
  }

  /** LNGStorageCapacity, LNGLiqefactionCapacity, LNGVaporizationCapacity, and
      the gas-line and storage nameplates as evidently intended: the net
      added capacity (build + exogenous - removed) of k's builds in service in
      the period. */
  function Nameplate<K(==)>(builds: seq<Build<K>>, k: K, period: Period, amount: Build<K> -> real): real
  {
    SumOf(builds, InServiceTerm(k, period, amount))
  }

  function LegacyTerm<K(==)>(k: K, amount: Build<K> -> real): Build<K> -> real
  {
    (b: Build<K>) => if b.0 == k && b.1.Legacy? then amount(b) else 0.0
  }

  function DatedTerm<K(==)>(k: K, period: Period, amount: Build<K> -> real): Build<K> -> real
  {
    (b: Build<K>) => if b.0 == k && b.1.Year? && b.1.year <= period then amount(b) else 0.0
  }

  /** Legacy capacity counts in every period: the nameplate is the Legacy
      capacity, which does not depend on the period, plus the dated builds
      up to the period. */
  lemma NameplateSplit<K>(builds: seq<Build<K>>, k: K, period: Period, amount: Build<K> -> real)
    ensures Nameplate(builds, k, period, amount)
         == SumOf(builds, LegacyTerm(k, amount)) + SumOf(builds, DatedTerm(k, period, amount))
  {
    SumOfAdd(builds, LegacyTerm(k, amount), DatedTerm(k, period, amount), InServiceTerm(k, period, amount));
  }

  function IncrementTerm<K(==)>(k: K, p1: Period, p2: Period, amount: Build<K> -> real): Build<K> -> real
  {
    (b: Build<K>) => if b.0 == k && b.1.Year? && p1 < b.1.year <= p2 then amount(b) else 0.0
  }

  /** Between two periods the nameplate grows by exactly the builds dated
      after the first and up to the second. */
  lemma NameplateIncrement<K>(builds: seq<Build<K>>, k: K, p1: Period, p2: Period, amount: Build<K> -> real)
    requires p1 <= p2
    ensures Nameplate(builds, k, p2, amount) - Nameplate(builds, k, p1, amount)
         == SumOf(builds, IncrementTerm(k, p1, p2, amount))
  {
    forall b | b in builds
      ensures InServiceTerm(k, p2, amount)(b) == InServiceTerm(k, p1, amount)(b) + IncrementTerm(k, p1, p2, amount)(b)
    {
    }
    SumOfAdd(builds, InServiceTerm(k, p1, amount), IncrementTerm(k, p1, p2, amount), InServiceTerm(k, p2, amount));
  }

  /** With non-negative net additions the nameplate never falls from one period to a later one. */
  lemma NameplateMonotone<K>(builds: seq<Build<K>>, k: K, p1: Period, p2: Period, amount: Build<K> -> real)
    requires p1 <= p2
    requires forall b :: b in builds ==> amount(b) >= 0.0
    ensures Nameplate(builds, k, p1, amount) <= Nameplate(builds, k, p2, amount)
  {
    NameplateIncrement(builds, k, p1, p2, amount);
    SumOfNonNegative(builds, IncrementTerm(k, p1, p2, amount));
  }

  /** Python 3 refuses `"Legacy" <= period` (a str against an int) with a TypeError. */
  datatype CapacityError = LegacyComparedWithPeriod

  /** GlCapacityNameplate, DirectionalGlCapacityNameplate and
      GasStorageCapacity as written: the filter `k2 == k and bld_yr <= period`
      compares the build year only for k's own entries, and a Legacy one
      among them raises. */
  function NameplateAsWritten<K(==)>(builds: seq<Build<K>>, k: K, period: Period, amount: Build<K> -> real)
    : Result<real, CapacityError>
    decreases |builds|
  {
    if builds == [] then Ok(0.0)
    else
      var b := builds[0];
      if b.0 != k then NameplateAsWritten(builds[1..], k, period, amount)
      else if b.1.Legacy? then Err(LegacyComparedWithPeriod)
      else
        match NameplateAsWritten(builds[1..], k, period, amount)
        case Err(e) => Err(e)
        case Ok(rest) => Ok((if b.1.year <= period then amount(b) else 0.0) + rest)
  }

  /** The sum as written fails exactly when k has a Legacy build, and
      otherwise it is the nameplate. */
  lemma {:induction false} NameplateAsWrittenAgrees<K>(builds: seq<Build<K>>, k: K, period: Period,
                                                           amount: Build<K> -> real)
    ensures NameplateAsWritten(builds, k, period, amount).Err? <==> (k, Legacy) in builds
    ensures NameplateAsWritten(builds, k, period, amount).Ok? ==>
              NameplateAsWritten(builds, k, period, amount).value == Nameplate(builds, k, period, amount)
    decreases |builds|
  {
    if builds != [] {
      NameplateAsWrittenAgrees(builds[1..], k, period, amount);
      assert builds == [builds[0]] + builds[1..];
    }
  }

  function Constant(cap: real): Build<string> -> real
  {
    (b: Build<string>) => cap
  }

  /** The input that shows it: one existing line whose build year is Legacy.
      The as-written sum raises, where the line's capacity was meant. */
  lemma LegacyLineRaises(gl: string, cap: real)
    ensures NameplateAsWritten([(gl, Legacy)], gl, 2030, Constant(cap)).Err?
    ensures Nameplate([(gl, Legacy)], gl, 2030, Constant(cap)) == cap
  {
    var s := [(gl, Legacy)];
    assert s[1..] == [];
    assert s[0].0 == gl && InService(s[0].1, 2030);
    assert Constant(cap)(s[0]) == cap;
    var t := InServiceTerm(gl, 2030, Constant(cap));
    assert t(s[0]) == cap;
    assert SumOf(s[1..], t) == 0.0;
    assert SumOf(s, t) == t(s[0]) + SumOf(s[1..], t);
  }

  // ---------------------------------------------------------------- gl_cost_adder

  /** One exogenous directional build's annualised cost in the period p. */
  function AdderTerm(p: Period, cost: map<Build<(Zone, Zone)>, real>, life: map<Build<(Zone, Zone)>, int>,
                     crf: int -> real): Build<(Zone, Zone)> -> real
  {
    (b: Build<(Zone, Zone)>) => if b.1 == Year(p) then Val(cost, b) * crf(if b in life then life[b] else 50) else 0.0
  }

  /** gl_cost_adder[p]: directional_gl_exogenous_cost (default 0) times
      crf(interest_rate, gas_line_operating_life) (life default 50, the rate
      folded into crf), over the directional builds dated p. */
  function GlCostAdderOf(builds: seq<Build<(Zone, Zone)>>, p: Period, cost: map<Build<(Zone, Zone)>, real>,
                         life: map<Build<(Zone, Zone)>, int>, crf: int -> real): real
  {
    SumOf(builds, AdderTerm(p, cost, life, crf))
  }

  /** A build dated in another year, or Legacy, adds nothing to p's adder. */
  lemma GlCostAdderOtherYear(builds: seq<Build<(Zone, Zone)>>, b: Build<(Zone, Zone)>, p: Period,
                             cost: map<Build<(Zone, Zone)>, real>, life: map<Build<(Zone, Zone)>, int>,
                             crf: int -> real)
    requires b.1 != Year(p)
    ensures GlCostAdderOf(builds + [b], p, cost, life, crf) == GlCostAdderOf(builds, p, cost, life, crf)
  {
    SumOfAppend(builds, [b], AdderTerm(p, cost, life, crf));
  }

  /** With non-negative costs and recovery factors the adder is non-negative. */
  lemma GlCostAdderNonNegative(builds: seq<Build<(Zone, Zone)>>, p: Period, cost: map<Build<(Zone, Zone)>, real>,
                               life: map<Build<(Zone, Zone)>, int>, crf: int -> real)
    requires forall b :: b in cost ==> cost[b] >= 0.0
    requires forall n :: crf(n) >= 0.0
    ensures GlCostAdderOf(builds, p, cost, life, crf) >= 0.0
  {
    var t := AdderTerm(p, cost, life, crf);
    forall b | b in builds ensures t(b) >= 0.0 {
      var c := if b in life then life[b] else 50;
      assert Val(cost, b) >= 0.0 && crf(c) >= 0.0;
      assert Val(cost, b) * crf(c) >= 0.0;
    }
    SumOfNonNegative(builds, t);
  }

  function PeriodTotal(builds: seq<Build<(Zone, Zone)>>, cost: map<Build<(Zone, Zone)>, real>,
                       life: map<Build<(Zone, Zone)>, int>, crf: int -> real): Period -> real
  {
    (p: Period) => GlCostAdderOf(builds, p, cost, life, crf)
  }

  function ChargedTerm(periods: seq<Period>, cost: map<Build<(Zone, Zone)>, real>,
                       life: map<Build<(Zone, Zone)>, int>, crf: int -> real): Build<(Zone, Zone)> -> real
  {
    (b: Build<(Zone, Zone)>) => if b.1.Year? && b.1.year in periods then Val(cost, b) * crf(if b in life then life[b] else 50) else 0.0
  }

  function AdderByPeriod(cost: map<Build<(Zone, Zone)>, real>, life: map<Build<(Zone, Zone)>, int>,
                         crf: int -> real): Period -> Build<(Zone, Zone)> -> real
  {
    (p: Period) => AdderTerm(p, cost, life, crf)
  }

  function AdderByBuild(cost: map<Build<(Zone, Zone)>, real>, life: map<Build<(Zone, Zone)>, int>,
                        crf: int -> real): Build<(Zone, Zone)> -> Period -> real
  {
    (b: Build<(Zone, Zone)>) => (p: Period) => AdderTerm(p, cost, life, crf)(b)
  }

  function BuildColumn(periods: seq<Period>, cost: map<Build<(Zone, Zone)>, real>,
                       life: map<Build<(Zone, Zone)>, int>, crf: int -> real): Build<(Zone, Zone)> -> real
  {
    (b: Build<(Zone, Zone)>) => SumOf(periods, AdderByBuild(cost, life, crf)(b))
  }

  /** One build's charges, summed over distinct periods. */
  lemma BuildChargedOnce(periods: seq<Period>, cost: map<Build<(Zone, Zone)>, real>,
                         life: map<Build<(Zone, Zone)>, int>, crf: int -> real, b: Build<(Zone, Zone)>)
    requires Distinct(periods)
    ensures BuildColumn(periods, cost, life, crf)(b) == ChargedTerm(periods, cost, life, crf)(b)
  {
    var c := if b in life then life[b] else 50;
    var row := AdderByBuild(cost, life, crf)(b);
    forall p ensures row(p) == if b.1 == Year(p) then Val(cost, b) * crf(c) else 0.0 {
      assert row(p) == AdderTerm(p, cost, life, crf)(b);
    }
    IndicatorSum(periods, b.1, Val(cost, b) * crf(c), row);
  }

  /** Over distinct periods, every exogenous build is charged once, in its
      build year, and builds dated outside the periods are never charged. */
  lemma GlCostAdderChargesOnce(builds: seq<Build<(Zone, Zone)>>, periods: seq<Period>,
                               cost: map<Build<(Zone, Zone)>, real>, life: map<Build<(Zone, Zone)>, int>,
                               crf: int -> real)
    requires Distinct(periods)
    ensures SumOf(periods, PeriodTotal(builds, cost, life, crf)) == SumOf(builds, ChargedTerm(periods, cost, life, crf))
  {
    var cols := BuildColumn(periods, cost, life, crf);
    SumOfExchange(periods, builds, AdderByPeriod(cost, life, crf), AdderByBuild(cost, life, crf),
                  PeriodTotal(builds, cost, life, crf), cols);
    forall b | b in builds ensures cols(b) == ChargedTerm(periods, cost, life, crf)(b) {
      BuildChargedOnce(periods, cost, life, crf, b);
    }
    SumOfCongruent(builds, cols, ChargedTerm(periods, cost, life, crf));
  }

  /** Σ over distinct periods of a term present only at the build's own year. */
  lemma {:induction false} IndicatorSum(periods: seq<Period>, y: BuildYear, t: real, f: Period -> real)
    requires Distinct(periods)
    requires forall p :: f(p) == if y == Year(p) then t else 0.0
    ensures SumOf(periods, f) == if y.Year? && y.year in periods then t else 0.0
    decreases |periods|
  {
    if periods != [] {
      assert Distinct(periods[1..]) by {
        forall i, j | 0 <= i < j < |periods[1..]| ensures periods[1..][i] != periods[1..][j] {
          assert periods[1..][i] == periods[i + 1] && periods[1..][j] == periods[j + 1];
        }
      }
      IndicatorSum(periods[1..], y, t, f);
      if y == Year(periods[0]) {
        assert periods[0] !in periods[1..] by {
          forall k | 0 <= k < |periods[1..]| ensures periods[1..][k] != periods[0] {
            assert periods[1..][k] == periods[k + 1];
          }
        }
      }
      assert periods == [periods[0]] + periods[1..];
    }
  }
}

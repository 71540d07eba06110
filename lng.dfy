/** LNG: storage that wraps around within each period, the additions and
    withdrawals that move it, the fuel lost in liquefaction and
    regasification, the storage cycle limit, and the components LNG
    registers with the zonal gas balance. */
module Lng {
  import opened Common
  import opened GasModel
  import opened Corridors
  import opened Flows

  // ---------------------------------------------------------------- ts_previous

  function IndexOf(s: seq<Timeseries>, x: Timeseries): (i: nat)
    requires x in s
    ensures i < |s| && s[i] == x
    ensures forall j :: 0 <= j < i ==> s[j] != x
  {
    if s[0] == x then 0 else 1 + IndexOf(s[1..], x)
  }

  /** Pyomo's prevw on an ordered set: the element before x, the last one before the first. */
  function PrevW(s: seq<Timeseries>, x: Timeseries): (r: Timeseries)
    requires x in s
    ensures IndexOf(s, x) == 0 ==> r == s[|s| - 1]
    ensures IndexOf(s, x) > 0 ==> r == s[IndexOf(s, x) - 1]
  {
    var i := IndexOf(s, x);
    if i == 0 then s[|s| - 1] else s[i - 1]
  }

  /** nextw: the element after x, the first one after the last. */
  function NextW(s: seq<Timeseries>, x: Timeseries): (r: Timeseries)
    requires x in s
    ensures IndexOf(s, x) == |s| - 1 ==> r == s[0]
    ensures IndexOf(s, x) < |s| - 1 ==> r == s[IndexOf(s, x) + 1]
  {
    var i := IndexOf(s, x);
    if i == |s| - 1 then s[0] else s[i + 1]
  }

  /** Both neighbours are members of the ordered set. */
  lemma NeighboursIn(s: seq<Timeseries>, x: Timeseries)
    requires x in s
    ensures PrevW(s, x) in s && NextW(s, x) in s
  {
  }

  lemma IndexOfDistinct(s: seq<Timeseries>, i: nat)
    requires Distinct(s) && i < |s|
    ensures IndexOf(s, s[i]) == i
  {
  }

  /** In a duplicate-free ordered set the cyclic predecessor and successor undo each other. */
  lemma PrevNextInverse(s: seq<Timeseries>, x: Timeseries)
    requires Distinct(s) && x in s
    ensures PrevW(s, x) in s && NextW(s, PrevW(s, x)) == x
    ensures NextW(s, x) in s && PrevW(s, NextW(s, x)) == x
  {
    NeighboursIn(s, x);
    var i := IndexOf(s, x);
    var ip := if i == 0 then |s| - 1 else i - 1;
    var iN := if i == |s| - 1 then 0 else i + 1;
    IndexOfDistinct(s, ip);
    IndexOfDistinct(s, iN);
  }

  /** ts_previous[ts]: the cyclic predecessor of ts among its own period's timeseries. */
  function TsPrevious(m: Model, ts: Timeseries): (r: Timeseries)
    requires ts in TsInPeriod(m, PeriodOf(m, ts))
  {
    PrevW(TsInPeriod(m, PeriodOf(m, ts)), ts)
  }

  /** The predecessor lies in the same period, and the first timeseries of a
      period wraps to the last. */
  lemma TsPreviousInPeriod(m: Model, ts: Timeseries)
    requires Valid(m) && ts in m.timeseries
    ensures ts in TsInPeriod(m, PeriodOf(m, ts))
    ensures TsPrevious(m, ts) in TsInPeriod(m, PeriodOf(m, ts)) && TsPrevious(m, ts) in m.timeseries
    ensures PeriodOf(m, TsPrevious(m, ts)) == PeriodOf(m, ts)
    ensures var s := TsInPeriod(m, PeriodOf(m, ts)); ts == s[0] ==> TsPrevious(m, ts) == s[|s| - 1]
  {
    NeighboursIn(TsInPeriod(m, PeriodOf(m, ts)), ts);
  }

  // ---------------------------------------------------------------- the storage state rule

  function Rotated(s: seq<Timeseries>): seq<Timeseries>
    requires s != []
  {
    [s[|s| - 1]] + s[..|s| - 1]
  }

  lemma {:induction false} SumAligned(s: seq<Timeseries>, t: seq<Timeseries>, f: Timeseries -> real, g: Timeseries -> real)
    requires |s| == |t|
    requires forall i :: 0 <= i < |s| ==> f(s[i]) == g(t[i])
    ensures SumOf(s, f) == SumOf(t, g)
    decreases |s|
  {
    if s != [] {
      assert f(s[0]) == g(t[0]);
      forall i | 0 <= i < |s[1..]| ensures f(s[1..][i]) == g(t[1..][i]) {
        assert s[1..][i] == s[i + 1] && t[1..][i] == t[i + 1];
      }
      SumAligned(s[1..], t[1..], f, g);
    }
  }

  function PrevOfFn(s: seq<Timeseries>, q: Timeseries -> real): Timeseries -> real
  {
    ts => if ts in s then q(PrevW(s, ts)) else 0.0
  }

  /** In a duplicate-free s, position i's predecessor is position i of s rotated right by one. */
  lemma PrevWAt(s: seq<Timeseries>, i: nat)
    requires Distinct(s) && i < |s|
    ensures PrevW(s, s[i]) == Rotated(s)[i]
  {
    IndexOfDistinct(s, i);
    if i > 0 {
      assert Rotated(s)[i] == s[..|s| - 1][i - 1];
    }
  }

  lemma SumRotated(s: seq<Timeseries>, q: Timeseries -> real)
    requires s != []
    ensures SumOf(Rotated(s), q) == SumOf(s, q)
  {
    var n := |s| - 1;
    SumOfAppend([s[n]], s[..n], q);
    SumOfAppend(s[..n], [s[n]], q);
    assert s[..n] + [s[n]] == s;
  }

  /** Taking every timeseries' predecessor only reorders the period, so a
      sum over predecessors is the sum itself. */
  lemma CyclicSumInvariant(s: seq<Timeseries>, q: Timeseries -> real)
    requires Distinct(s)
    ensures SumOf(s, PrevOfFn(s, q)) == SumOf(s, q)
  {
    if s != [] {
      var r := Rotated(s);
      forall i | 0 <= i < |s| ensures PrevOfFn(s, q)(s[i]) == q(r[i]) {
        PrevWAt(s, i);
      }
      SumAligned(s, r, PrevOfFn(s, q), q);
      SumRotated(s, q);
    }
  }

  /** The state rule `q[ts] == q[prev(ts)] + (addition - withdrawal)` for every ts of s. */
  predicate CyclicStateRule(s: seq<Timeseries>, q: Timeseries -> real, add: Timeseries -> real, wd: Timeseries -> real)
  {
    forall ts :: ts in s ==> q(ts) == q(PrevW(s, ts)) + (add(ts) - wd(ts))
  }

  function NetChangeFn(add: Timeseries -> real, wd: Timeseries -> real): Timeseries -> real
  {
    ts => add(ts) - wd(ts)
  }

  /** A storage that satisfies the wrap-around state rule returns to where it
      started, so over the period it withdraws exactly what it takes in. */
  lemma CyclicStorageBalance(s: seq<Timeseries>, q: Timeseries -> real, add: Timeseries -> real, wd: Timeseries -> real)
    requires Distinct(s)
    requires CyclicStateRule(s, q, add, wd)
    ensures SumOf(s, add) == SumOf(s, wd)
  {
    CyclicSumInvariant(s, q);
    SumOfAdd(s, PrevOfFn(s, q), NetChangeFn(add, wd), q);
    SumOfSub(s, add, wd, NetChangeFn(add, wd));
  }

  // ---------------------------------------------------------------- LNG quantities

  /** The solver's LNG variables. */
  datatype LngSolution = LngSolution(
    shipped: Flow,                                // LNGShipped[zone_from, zone_to, ts]
    liquefied: map<(Zone, Timeseries), real>,     // LNGLiquefiedFromNG
    regasified: map<(Zone, Timeseries), real>,    // LNGRegasifiedToNG
    stored: map<(Zone, Timeseries), real>)        // LNGStorageQuantity

  /** The LNG routes of the network and their data. */
  datatype LngNetwork = LngNetwork(
    zones: seq<Zone>,                             // GAS_ZONES
    routes: seq<Link>,                            // LNG_ROUTE with LNG_route_gz1/gz2
    shipEfficiency: map<string, real>,            // LNG_ship_efficiency (default 1)
    imports: map<(Zone, Timeseries), real>)       // LNG_import_ref_quantity (default 0)

  /** LNGStorageAdditionQuantity: imports, LNG received from other zones and LNG liquefied here. */
  function Addition(net: LngNetwork, sol: LngSolution, z: Zone, ts: Timeseries): real
  {
    Val(net.imports, (z, ts)) + ReceivedInto(net.zones, net.routes, sol.shipped, net.shipEfficiency, z, ts)
      + Val(sol.liquefied, (z, ts))
  }

  /** LNGStorageWithdrawalQuantity: LNG shipped to other zones and LNG regasified here. */
  function Withdrawal(net: LngNetwork, sol: LngSolution, z: Zone, ts: Timeseries): real
  {
    SentFrom(net.zones, net.routes, sol.shipped, z, ts) + Val(sol.regasified, (z, ts))
  }

  function AdditionFn(net: LngNetwork, sol: LngSolution, z: Zone): Timeseries -> real
  {
    ts => Addition(net, sol, z, ts)
  }

  function WithdrawalFn(net: LngNetwork, sol: LngSolution, z: Zone): Timeseries -> real
  {
    ts => Withdrawal(net, sol, z, ts)
  }

  function StoredFn(sol: LngSolution, z: Zone): Timeseries -> real
  {
    ts => Val(sol.stored, (z, ts))
  }

  /** Track_State_Of_LNG_Storage[z, ts]. */
  function LngStateRule(m: Model, net: LngNetwork, sol: LngSolution, z: Zone, ts: Timeseries): (c: Constraint)
    requires ts in TsInPeriod(m, PeriodOf(m, ts))
    ensures c.Eq? && c.lhs == Val(sol.stored, (z, ts))
    ensures Satisfied(c) <==> Val(sol.stored, (z, ts)) - Val(sol.stored, (z, TsPrevious(m, ts)))
                              == Addition(net, sol, z, ts) - Withdrawal(net, sol, z, ts)
  {
    Eq(Val(sol.stored, (z, ts)),
       Val(sol.stored, (z, TsPrevious(m, ts))) + (Addition(net, sol, z, ts) - Withdrawal(net, sol, z, ts)))
  }

  /** The cyclic balance stated over a period of the model: when
      q[ts] = q[ts_previous[ts]] + (add - withdraw) holds for every timeseries
      of the period, the period's additions equal its withdrawals. */
  lemma StateRulePeriodBalance(m: Model, p: Period, q: Timeseries -> real, add: Timeseries -> real, wd: Timeseries -> real)
    requires Distinct(TsInPeriod(m, p))
    requires forall ts :: ts in TsInPeriod(m, p) ==> PeriodOf(m, ts) == p && q(ts) == q(TsPrevious(m, ts)) + (add(ts) - wd(ts))
    ensures SumOf(TsInPeriod(m, p), add) == SumOf(TsInPeriod(m, p), wd)
  {
    var s := TsInPeriod(m, p);
    forall ts | ts in s ensures q(ts) == q(PrevW(s, ts)) + (add(ts) - wd(ts)) {
      assert TsPrevious(m, ts) == PrevW(s, ts);
    }
    CyclicStorageBalance(s, q, add, wd);
  }

  lemma LngStateStep(m: Model, net: LngNetwork, sol: LngSolution, z: Zone, ts: Timeseries)
    requires ts in TsInPeriod(m, PeriodOf(m, ts))
    requires Satisfied(LngStateRule(m, net, sol, z, ts))
    ensures StoredFn(sol, z)(ts)
         == StoredFn(sol, z)(TsPrevious(m, ts)) + (AdditionFn(net, sol, z)(ts) - WithdrawalFn(net, sol, z)(ts))
  {
  }

  /** When the LNG storage rule holds for every timeseries of a period, the
      zone's LNG additions over the period equal its withdrawals. */
  lemma LngPeriodBalance(m: Model, net: LngNetwork, sol: LngSolution, z: Zone, p: Period)
    requires Distinct(TsInPeriod(m, p))
    requires forall ts :: ts in TsInPeriod(m, p) ==> PeriodOf(m, ts) == p && Satisfied(LngStateRule(m, net, sol, z, ts))
    ensures SumOf(TsInPeriod(m, p), AdditionFn(net, sol, z)) == SumOf(TsInPeriod(m, p), WithdrawalFn(net, sol, z))
  {
    forall ts | ts in TsInPeriod(m, p)
      ensures PeriodOf(m, ts) == p
      ensures StoredFn(sol, z)(ts) == StoredFn(sol, z)(TsPrevious(m, ts)) + (AdditionFn(net, sol, z)(ts) - WithdrawalFn(net, sol, z)(ts))
    {
      LngStateStep(m, net, sol, z, ts);
    }
    StateRulePeriodBalance(m, p, StoredFn(sol, z), AdditionFn(net, sol, z), WithdrawalFn(net, sol, z));
  }

  /** A quantity per timeseries weighted by a per-timeseries scale. */
  function ScaledBy(f: Timeseries -> real, scale: Timeseries -> real): Timeseries -> real
  {
    ts => f(ts) * scale(ts)
  }

  function ScaleToPeriodFn(m: Model): Timeseries -> real
  {
    ts => ScaleToPeriod(m, ts)
  }

  function ScaleToYearFn(m: Model): Timeseries -> real
  {
    ts => Scale(m, ts)
  }

  /** Σ over the period's timeseries of the zone's LNG withdrawals, each
      weighted by ts_scale_to_period. */
  function PeriodWithdrawal(m: Model, net: LngNetwork, sol: LngSolution, g: Zone, p: Period): real
  {
    SumOf(TsInPeriod(m, p), ScaledBy(WithdrawalFn(net, sol, g), ScaleToPeriodFn(m)))
  }

  /** LNG_Storage_Cycle_Limit[g, p]: skipped for an unlimited number of
      cycles (LNG_storage_max_cycles_per_year, default unlimited), otherwise
      the period's withdrawals scaled to the period are at most cycles ×
      capacity × period length. */
  function LngCycleLimit(m: Model, net: LngNetwork, sol: LngSolution, maxCycles: Limit, capacity: real,
                         g: Zone, p: Period): (c: Constraint)
    ensures maxCycles.Infinite? <==> c.Skip?
    ensures maxCycles.Finite? ==>
              (Satisfied(c) <==> PeriodWithdrawal(m, net, sol, g, p) <= CycleBound(maxCycles.bound, capacity, PeriodLength(m, p)))
  {
    match maxCycles
    case Infinite => Skip
    case Finite(cycles) => Le(PeriodWithdrawal(m, net, sol, g, p), CycleBound(cycles, capacity, PeriodLength(m, p)))
  }

  /** The right-hand side of the cycle limit: cycles × capacity × period length. */
  function CycleBound(cycles: real, capacity: real, years: real): real
  {
    cycles * capacity * years
  }

  lemma Regroup(w: real, sp: real, sy: real, l: real)
    requires sp == sy * l
    ensures w * sp == l * (w * sy)
  {
  }

  /** A sum weighted by sp is l times the sum weighted by sy when sp = sy × l
      on every element. */
  lemma {:induction false} ScaledSum(s: seq<Timeseries>, w: Timeseries -> real, sp: Timeseries -> real,
                                     sy: Timeseries -> real, l: real)
    requires forall ts :: ts in s ==> sp(ts) == sy(ts) * l
    ensures SumOf(s, ScaledBy(w, sp)) == l * SumOf(s, ScaledBy(w, sy))
  {
    var annual, scaled := ScaledBy(w, sy), ScaledBy(w, sp);
    forall ts | ts in s ensures scaled(ts) == l * annual(ts) {
      Regroup(w(ts), sp(ts), sy(ts), l);
    }
    SumOfScale(s, l, annual, scaled);
  }

  /** Dividing both sides of x ≤ cycles × capacity × l by a positive l. */
  lemma DivideOutPositive(x: real, annual: real, cycles: real, capacity: real, l: real)
    requires l > 0.0 && x == l * annual
    ensures x <= CycleBound(cycles, capacity, l) <==> annual <= cycles * capacity
  {
    var y := cycles * capacity;
    assert CycleBound(cycles, capacity, l) == y * l;
    if annual <= y {
      assert l * (y - annual) >= 0.0;
    } else {
      assert l * (annual - y) > 0.0;
    }
  }

  /** A limit on the sum weighted by sp = sy × l, with l > 0, is the limit
      divided by l on the sum weighted by sy. */
  lemma ScaledLimit(s: seq<Timeseries>, w: Timeseries -> real, sp: Timeseries -> real, sy: Timeseries -> real,
                    l: real, cycles: real, capacity: real)
    requires forall ts :: ts in s ==> sp(ts) == sy(ts) * l
    requires l > 0.0
    ensures SumOf(s, ScaledBy(w, sp)) <= CycleBound(cycles, capacity, l) <==> SumOf(s, ScaledBy(w, sy)) <= cycles * capacity
  {
    ScaledSum(s, w, sp, sy, l);
    DivideOutPositive(SumOf(s, ScaledBy(w, sp)), SumOf(s, ScaledBy(w, sy)), cycles, capacity, l);
  }

  /** With ts_scale_to_period = ts_scale_to_year × period_length_years (the
      timescales' definition) and a positive period length, the LNG limit is
      the per-year limit the underground storage states: withdrawals scaled
      to a year at most cycles × capacity. */
  lemma LngCycleLimitPerYear(m: Model, net: LngNetwork, sol: LngSolution, cycles: real, capacity: real,
                             g: Zone, p: Period)
    requires forall ts :: ts in TsInPeriod(m, p) ==> ScaleToPeriod(m, ts) == Scale(m, ts) * PeriodLength(m, p)
    requires PeriodLength(m, p) > 0.0
    ensures Satisfied(LngCycleLimit(m, net, sol, Finite(cycles), capacity, g, p))
            <==> SumOf(TsInPeriod(m, p), ScaledBy(WithdrawalFn(net, sol, g), ScaleToYearFn(m))) <= cycles * capacity
  {
    var sp, sy := ScaleToPeriodFn(m), ScaleToYearFn(m);
    forall ts | ts in TsInPeriod(m, p) ensures sp(ts) == sy(ts) * PeriodLength(m, p) {
    }
    ScaledLimit(TsInPeriod(m, p), WithdrawalFn(net, sol, g), sp, sy, PeriodLength(m, p), cycles, capacity);
  }

  // ---------------------------------------------------------------- processing losses

  /** GasQuantityLiquefiedToLNG: the gas fed to liquefaction, liquefied / (1 - loss);
      a loss ratio of 1 divides by zero. */
  function FeedGas(liquefied: real, loss: real): (r: Option<real>)
    ensures r.None? <==> loss == 1.0
  {
    if loss == 1.0 then None else Some(liquefied / (1.0 - loss))
  }

  /** LNGLiquefactionLoss: the feed gas times the loss ratio. */
  function LiquefactionLoss(liquefied: real, loss: real): (r: Option<real>)
    ensures r.None? <==> loss == 1.0
  {
    match FeedGas(liquefied, loss)
    case None => None
    case Some(feed) => Some(feed * loss)
  }

  /** The feed gas is the LNG produced plus the liquefaction loss, and never
      less than the LNG produced. */
  lemma LiquefactionBalance(liquefied: real, loss: real)
    requires loss != 1.0
    ensures FeedGas(liquefied, loss).value == liquefied + LiquefactionLoss(liquefied, loss).value
    ensures liquefied >= 0.0 && 0.0 <= loss < 1.0 ==> FeedGas(liquefied, loss).value >= liquefied
  {
    var f := liquefied / (1.0 - loss);
    assert f * (1.0 - loss) == liquefied;
    assert f == liquefied + f * loss;
    if liquefied >= 0.0 && 0.0 <= loss < 1.0 {
      if f < 0.0 {  // f times the positive 1 - loss is the non-negative liquefied
        assert false;
      }
      assert f * loss >= 0.0;
    }
  }

  /** GasQuantityFromLNG: the gas a regasification delivers. */
  function GasFromLng(regasified: real, loss: real): real
  {
    regasified * (1.0 - loss)
  }

  /** LNGRegasificationLoss. */
  function RegasificationLoss(regasified: real, loss: real): real
  {
    regasified * loss
  }

  /** Regasified LNG splits into the gas delivered and the regasification loss. */
  lemma RegasificationBalance(regasified: real, loss: real)
    ensures GasFromLng(regasified, loss) + RegasificationLoss(regasified, loss) == regasified
    ensures regasified >= 0.0 && 0.0 <= loss <= 1.0 ==> 0.0 <= GasFromLng(regasified, loss) <= regasified
  {
    if regasified >= 0.0 && 0.0 <= loss <= 1.0 {
      assert regasified * loss >= 0.0;
      assert regasified * (1.0 - loss) >= 0.0;
    }
  }

  // ---------------------------------------------------------------- the zonal balance registry

  /** The component lists the zonal gas balance sums: Zone_Gas_Injections,
      Zone_Gas_Withdrawals, Cost_Components_Per_Period, Cost_Components_Per_TP. */
  class Registry {
    var injections: seq<string>
    var withdrawals: seq<string>
    var costsPerPeriod: seq<string>
    var costsPerTp: seq<string>

    constructor(periodCosts: seq<string>, tpCosts: seq<string>)
      ensures injections == [] && withdrawals == []
      ensures costsPerPeriod == periodCosts && costsPerTp == tpCosts
    {
      injections := [];
      withdrawals := [];
      costsPerPeriod := periodCosts;
      costsPerTp := tpCosts;
    }

    /** The registrations of the LNG module's define_components: it starts
        both balance lists afresh, then adds its components in order. */
    method DefineLngComponents()
      modifies this
      ensures injections == ["GasQuantityFromLNG"]
      ensures withdrawals == ["GasQuantityLiquefiedToLNG", "LNGLiquefactionLoss", "LNGRegasificationLoss"]
      ensures costsPerPeriod == old(costsPerPeriod) + ["LNGStorageFixedCosts", "LNGLiquefactionFixedCosts", "LNGVaporizationFixedCosts"]
      ensures costsPerTp == old(costsPerTp) + ["LNGShippingCostsPerTP"]
    {
      injections := [];
      withdrawals := [];
      costsPerPeriod := costsPerPeriod + ["LNGStorageFixedCosts"];
      costsPerPeriod := costsPerPeriod + ["LNGLiquefactionFixedCosts"];
      costsPerPeriod := costsPerPeriod + ["LNGVaporizationFixedCosts"];
      withdrawals := withdrawals + ["GasQuantityLiquefiedToLNG"];
      withdrawals := withdrawals + ["LNGLiquefactionLoss"];
      injections := injections + ["GasQuantityFromLNG"];
      withdrawals := withdrawals + ["LNGRegasificationLoss"];
      costsPerTp := costsPerTp + ["LNGShippingCostsPerTP"];
    }
  }

  /** The value of a registered LNG component in one zone and timeseries. */
  function ComponentValue(name: string, liquefied: real, regasified: real, liqLoss: real, regasLoss: real): real
    requires liqLoss != 1.0
  {
    if name == "GasQuantityLiquefiedToLNG" then FeedGas(liquefied, liqLoss).value
    else if name == "LNGLiquefactionLoss" then LiquefactionLoss(liquefied, liqLoss).value
    else if name == "GasQuantityFromLNG" then GasFromLng(regasified, regasLoss)
    else if name == "LNGRegasificationLoss" then RegasificationLoss(regasified, regasLoss)
    else 0.0
  }

  function ComponentTotal(names: seq<string>, liquefied: real, regasified: real, liqLoss: real, regasLoss: real): real
    requires liqLoss != 1.0
    decreases |names|
  {
    if names == [] then 0.0
    else ComponentValue(names[0], liquefied, regasified, liqLoss, regasLoss)
         + ComponentTotal(names[1..], liquefied, regasified, liqLoss, regasLoss)
  }

  /** What LNG processing takes out of a zone's gas balance as registered:
      withdrawals minus injections. */
  function LngNetWithdrawalAsWritten(liquefied: real, regasified: real, liqLoss: real, regasLoss: real): real
    requires liqLoss != 1.0
  {
    ComponentTotal(["GasQuantityLiquefiedToLNG", "LNGLiquefactionLoss", "LNGRegasificationLoss"],
                   liquefied, regasified, liqLoss, regasLoss)
    - ComponentTotal(["GasQuantityFromLNG"], liquefied, regasified, liqLoss, regasLoss)
  }

  /** As registered, each loss is taken from the zone twice: once inside the
      feed gas (or net of the delivered gas) and once more on its own. */
  lemma LossesCountedTwice(liquefied: real, regasified: real, liqLoss: real, regasLoss: real)
    requires liqLoss != 1.0
    ensures LngNetWithdrawalAsWritten(liquefied, regasified, liqLoss, regasLoss)
         == LngNetWithdrawal(liquefied, regasified, liqLoss, regasLoss).value
            + LiquefactionLoss(liquefied, liqLoss).value + RegasificationLoss(regasified, regasLoss)
  {
    var f := liquefied / (1.0 - liqLoss);
    assert ComponentTotal(["GasQuantityFromLNG"], liquefied, regasified, liqLoss, regasLoss)
        == GasFromLng(regasified, regasLoss);
    assert ComponentTotal(["LNGRegasificationLoss"], liquefied, regasified, liqLoss, regasLoss)
        == RegasificationLoss(regasified, regasLoss);
    assert ComponentTotal(["LNGLiquefactionLoss", "LNGRegasificationLoss"], liquefied, regasified, liqLoss, regasLoss)
        == f * liqLoss + RegasificationLoss(regasified, regasLoss);
  }

  /** The input that shows it: 91 units of LNG at the default 9% loss need
      100 units of feed gas, of which 9 are lost; the balance as registered
      takes 109 units from the zone. */
  lemma LiquefactionOvercharged()
    ensures FeedGas(91.0, 0.09) == Some(100.0)
    ensures LngNetWithdrawalAsWritten(91.0, 0.0, 0.09, 0.025) == 109.0
  {
    LossesCountedTwice(91.0, 0.0, 0.09, 0.025);
    LiquefactionBalance(91.0, 0.09);
  }

  /** What LNG processing evidently should take from the zone: the feed gas
      drawn into liquefaction minus the gas regasification delivers. */
  function LngNetWithdrawal(liquefied: real, regasified: real, liqLoss: real, regasLoss: real): (r: Option<real>)
    ensures r.None? <==> liqLoss == 1.0
  {
    match FeedGas(liquefied, liqLoss)
    case None => None
    case Some(feed) => Some(feed - GasFromLng(regasified, regasLoss))
  }

  /** Each unit of gas is accounted once: the zone gives up the net LNG it
      stores (liquefied minus regasified) plus each processing loss once. */
  lemma LngNetWithdrawalAccounts(liquefied: real, regasified: real, liqLoss: real, regasLoss: real)
    requires liqLoss != 1.0
    ensures LngNetWithdrawal(liquefied, regasified, liqLoss, regasLoss).value
         == (liquefied - regasified) + LiquefactionLoss(liquefied, liqLoss).value + RegasificationLoss(regasified, regasLoss)
  {
    LiquefactionBalance(liquefied, liqLoss);
    RegasificationBalance(regasified, regasLoss);
  }
}

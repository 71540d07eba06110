/** The zonal gas balance terms of the network: the reference demand of a
    zone, underground storage (its net withdrawal, state rule and cycle
    limit) and the operating cost of gas wells. Pipeline flows are in
    Flows, the cyclic state rule's period balance in Lng. */
module NetworkBalance {
  import opened Common
  import opened GasModel
  import opened Lng
  import opened Wells

  function DemandFn(m: Model, z: Zone, ts: Timeseries): Sector -> real
  {
    ds => RefQuantity(m, Coord(z, ts, ds))
  }

  /** gas_demand_total[z, ts]: the reference demand summed over DEMAND_SECTORS,
      that is the EI demand plus the RC demand, each 0.001 when not given. */
  function GasDemandTotal(m: Model, z: Zone, ts: Timeseries): (r: real)
    ensures r == RefQuantity(m, Coord(z, ts, EI)) + RefQuantity(m, Coord(z, ts, RC))
    ensures (forall c :: c in m.refQuantity ==> m.refQuantity[c] >= 0.0) ==> r >= 0.0
  {
    var f := DemandFn(m, z, ts);
    assert DemandSectors[1..][1..] == [];
    assert SumOf(DemandSectors[1..], f) == f(RC) + SumOf(DemandSectors[1..][1..], f);
    SumOf(DemandSectors, f)
  }

  // ---------------------------------------------------------------- underground storage

  type StorageType = string

  /** The solver's storage variables, keyed (zone, storage type, ts). */
  datatype StorageSolution = StorageSolution(
    quantity: map<(Zone, StorageType, Timeseries), real>,     // GasStorageQuantity
    injection: map<(Zone, StorageType, Timeseries), real>,    // GasStorageInjectionQuantity
    withdrawal: map<(Zone, StorageType, Timeseries), real>)   // GasStorageWithdrawalQuantity

  function Injected(sol: StorageSolution, z: Zone, ty: StorageType, ts: Timeseries): real
  {
    Val(sol.injection, (z, ty, ts))
  }

  function Withdrawn(sol: StorageSolution, z: Zone, ty: StorageType, ts: Timeseries): real
  {
    Val(sol.withdrawal, (z, ty, ts))
  }

  /** GasStorageNetWithdrawal[z, ty, ts]. */
  function NetWithdrawal(sol: StorageSolution, z: Zone, ty: StorageType, ts: Timeseries): real
  {
    Withdrawn(sol, z, ty, ts) - Injected(sol, z, ty, ts)
  }

  function NetWithdrawalFn(sol: StorageSolution, z: Zone, ts: Timeseries): StorageType -> real
  {
    ty => NetWithdrawal(sol, z, ty, ts)
  }

  function InjectedFn(sol: StorageSolution, z: Zone, ts: Timeseries): StorageType -> real
  {
    ty => Injected(sol, z, ty, ts)
  }

  function WithdrawnFn(sol: StorageSolution, z: Zone, ts: Timeseries): StorageType -> real
  {
    ty => Withdrawn(sol, z, ty, ts)
  }

  /** GasStorageNetWithdrawalSum[z, ts]: what the zone's storages release on
      balance, injected into the zonal gas balance. */
  function NetWithdrawalSum(types: seq<StorageType>, sol: StorageSolution, z: Zone, ts: Timeseries): real
  {
    SumOf(types, NetWithdrawalFn(sol, z, ts))
  }

  /** The net withdrawal over all storage types is the total withdrawn minus the total injected. */
  lemma NetWithdrawalSumSplits(types: seq<StorageType>, sol: StorageSolution, z: Zone, ts: Timeseries)
    ensures NetWithdrawalSum(types, sol, z, ts) == SumOf(types, WithdrawnFn(sol, z, ts)) - SumOf(types, InjectedFn(sol, z, ts))
  {
    SumOfSub(types, WithdrawnFn(sol, z, ts), InjectedFn(sol, z, ts), NetWithdrawalFn(sol, z, ts));
  }

  /** The storage parameters of one (zone, type): gas_storage_efficiency and
      gas_store_to_release_ratio, both PercentFraction with default 1. */
  function StorageEfficiency(eff: map<(Zone, StorageType), real>, z: Zone, ty: StorageType): real
  {
    ValOr(eff, (z, ty), 1.0)
  }

  function ReleaseRatio(ratio: map<(Zone, StorageType), real>, z: Zone, ty: StorageType): real
  {
    ValOr(ratio, (z, ty), 1.0)
  }

  /** What an injection adds to the stored gas: the injection times the
      efficiency, less the share (1 - release ratio) that never returns. */
  function StoredFromInjection(inj: real, eff: real, ratio: real): real
  {
    inj * eff - inj * (1.0 - ratio)
  }

  /** Track_State_Of_Storage[z, ty, ts]. */
  function StorageStateRule(m: Model, eff: map<(Zone, StorageType), real>, ratio: map<(Zone, StorageType), real>,
                            sol: StorageSolution, z: Zone, ty: StorageType, ts: Timeseries): (c: Constraint)
    requires ts in TsInPeriod(m, PeriodOf(m, ts))
    ensures c.Eq? && c.lhs == Val(sol.quantity, (z, ty, ts))
    ensures Satisfied(c) <==>
              Val(sol.quantity, (z, ty, ts)) - Val(sol.quantity, (z, ty, TsPrevious(m, ts)))
              == StoredFromInjection(Injected(sol, z, ty, ts), StorageEfficiency(eff, z, ty), ReleaseRatio(ratio, z, ty))
                 - Withdrawn(sol, z, ty, ts)
  {
    var inj := Injected(sol, z, ty, ts);
    Eq(Val(sol.quantity, (z, ty, ts)),
       Val(sol.quantity, (z, ty, TsPrevious(m, ts)))
       + (inj * StorageEfficiency(eff, z, ty) - Withdrawn(sol, z, ty, ts))
       - inj * (1.0 - ReleaseRatio(ratio, z, ty)))
  }

  /** With the default efficiency and release ratio of 1 the state rule is
      q[ts] = q[prev(ts)] + injection - withdrawal. */
  lemma StateRuleAtDefaults(m: Model, sol: StorageSolution, z: Zone, ty: StorageType, ts: Timeseries)
    requires ts in TsInPeriod(m, PeriodOf(m, ts))
    ensures Satisfied(StorageStateRule(m, map[], map[], sol, z, ty, ts)) <==>
              Val(sol.quantity, (z, ty, ts))
              == Val(sol.quantity, (z, ty, TsPrevious(m, ts))) + Injected(sol, z, ty, ts) - Withdrawn(sol, z, ty, ts)
  {
  }

  function StorageQuantityFn(sol: StorageSolution, z: Zone, ty: StorageType): Timeseries -> real
  {
    ts => Val(sol.quantity, (z, ty, ts))
  }

  function StorageAddFn(eff: map<(Zone, StorageType), real>, ratio: map<(Zone, StorageType), real>,
                        sol: StorageSolution, z: Zone, ty: StorageType): Timeseries -> real
  {
    ts => StoredFromInjection(Injected(sol, z, ty, ts), StorageEfficiency(eff, z, ty), ReleaseRatio(ratio, z, ty))
  }

  function StorageWithdrawFn(sol: StorageSolution, z: Zone, ty: StorageType): Timeseries -> real
  {
    ts => Withdrawn(sol, z, ty, ts)
  }

  function StorageInjectFn(sol: StorageSolution, z: Zone, ty: StorageType): Timeseries -> real
  {
    ts => Injected(sol, z, ty, ts)
  }

  lemma StorageStateStep(m: Model, eff: map<(Zone, StorageType), real>, ratio: map<(Zone, StorageType), real>,
                          sol: StorageSolution, z: Zone, ty: StorageType, ts: Timeseries)
    requires ts in TsInPeriod(m, PeriodOf(m, ts))
    requires Satisfied(StorageStateRule(m, eff, ratio, sol, z, ty, ts))
    ensures StorageQuantityFn(sol, z, ty)(ts) == StorageQuantityFn(sol, z, ty)(TsPrevious(m, ts))
              + (StorageAddFn(eff, ratio, sol, z, ty)(ts) - StorageWithdrawFn(sol, z, ty)(ts))
  {
  }

  /** When the state rule holds in every timeseries of a period, a storage
      withdraws over the period exactly what its injections add to it. */
  lemma StoragePeriodBalance(m: Model, eff: map<(Zone, StorageType), real>, ratio: map<(Zone, StorageType), real>,
                             sol: StorageSolution, z: Zone, ty: StorageType, p: Period)
    requires Distinct(TsInPeriod(m, p))
    requires forall ts :: ts in TsInPeriod(m, p) ==>
               PeriodOf(m, ts) == p && Satisfied(StorageStateRule(m, eff, ratio, sol, z, ty, ts))
    ensures SumOf(TsInPeriod(m, p), StorageWithdrawFn(sol, z, ty)) == SumOf(TsInPeriod(m, p), StorageAddFn(eff, ratio, sol, z, ty))
  {
    var q, add, wd := StorageQuantityFn(sol, z, ty), StorageAddFn(eff, ratio, sol, z, ty), StorageWithdrawFn(sol, z, ty);
    forall ts | ts in TsInPeriod(m, p)
      ensures PeriodOf(m, ts) == p
      ensures q(ts) == q(TsPrevious(m, ts)) + (add(ts) - wd(ts))
    {
      StorageStateStep(m, eff, ratio, sol, z, ty, ts);
    }
    StateRulePeriodBalance(m, p, q, add, wd);
  }

  lemma StoredAtMostInjected(inj: real, eff: real, ratio: real)
    requires inj >= 0.0 && 0.0 <= eff <= 1.0 && 0.0 <= ratio <= 1.0
    ensures StoredFromInjection(inj, eff, ratio) <= inj
    ensures eff == 1.0 && ratio == 1.0 ==> StoredFromInjection(inj, eff, ratio) == inj
  {
    assert inj * eff <= inj;
    assert inj * (1.0 - ratio) >= 0.0;
  }

  /** Over a period a storage never releases more gas than is injected into
      it, and with the default efficiency and ratio it releases exactly that:
      its net withdrawals over the period sum to zero. */
  lemma StorageReleasesAtMostInjected(m: Model, eff: map<(Zone, StorageType), real>, ratio: map<(Zone, StorageType), real>,
                                      sol: StorageSolution, z: Zone, ty: StorageType, p: Period)
    requires Distinct(TsInPeriod(m, p))
    requires forall ts :: ts in TsInPeriod(m, p) ==>
               PeriodOf(m, ts) == p && Satisfied(StorageStateRule(m, eff, ratio, sol, z, ty, ts))
    requires forall k :: k in sol.injection ==> sol.injection[k] >= 0.0
    requires forall k :: k in eff ==> 0.0 <= eff[k] <= 1.0
    requires forall k :: k in ratio ==> 0.0 <= ratio[k] <= 1.0
    ensures SumOf(TsInPeriod(m, p), StorageWithdrawFn(sol, z, ty)) <= SumOf(TsInPeriod(m, p), StorageInjectFn(sol, z, ty))
    ensures StorageEfficiency(eff, z, ty) == 1.0 && ReleaseRatio(ratio, z, ty) == 1.0 ==>
              SumOf(TsInPeriod(m, p), StorageWithdrawFn(sol, z, ty)) == SumOf(TsInPeriod(m, p), StorageInjectFn(sol, z, ty))
  {
    var s := TsInPeriod(m, p);
    StoragePeriodBalance(m, eff, ratio, sol, z, ty, p);
    var add, inj := StorageAddFn(eff, ratio, sol, z, ty), StorageInjectFn(sol, z, ty);
    var e, r := StorageEfficiency(eff, z, ty), ReleaseRatio(ratio, z, ty);
    forall ts | ts in s ensures add(ts) <= inj(ts) && (e == 1.0 && r == 1.0 ==> add(ts) == inj(ts)) {
      StoredAtMostInjected(Injected(sol, z, ty, ts), e, r);
    }
    SumOfMonotone(s, add, inj);
    if e == 1.0 && r == 1.0 {
      SumOfCongruent(s, add, inj);
    }
  }

  /** Storage_Cycle_Limit[z, ty, p]: skipped for an unlimited number of
      cycles (gas_storage_max_cycles_per_year, default unlimited); otherwise
      the withdrawals scaled to a year are at most capacity × cycles. */
  function StorageCycleLimit(m: Model, maxCycles: Limit, capacity: real, sol: StorageSolution,
                             z: Zone, ty: StorageType, p: Period): (c: Constraint)
    ensures maxCycles.Infinite? <==> c.Skip?
    ensures maxCycles.Finite? ==>
              (Satisfied(c) <==> SumOf(TsInPeriod(m, p), ScaledBy(StorageWithdrawFn(sol, z, ty), ScaleToYearFn(m))) <= capacity * maxCycles.bound)
  {
    match maxCycles
    case Infinite => Skip
    case Finite(cycles) => Le(SumOf(TsInPeriod(m, p), ScaledBy(StorageWithdrawFn(sol, z, ty), ScaleToYearFn(m))), capacity * cycles)
  }

  /** A storage that withdraws nothing in a period meets any finite cycle
      limit on non-negative capacity. */
  lemma IdleStorageMeetsCycleLimit(m: Model, cycles: real, capacity: real, sol: StorageSolution,
                                   z: Zone, ty: StorageType, p: Period)
    requires cycles >= 0.0 && capacity >= 0.0
    requires forall ts :: ts in TsInPeriod(m, p) ==> Withdrawn(sol, z, ty, ts) == 0.0
    ensures Satisfied(StorageCycleLimit(m, Finite(cycles), capacity, sol, z, ty, p))
  {
    var s := TsInPeriod(m, p);
    var f := ScaledBy(StorageWithdrawFn(sol, z, ty), ScaleToYearFn(m));
    forall ts | ts in s ensures f(ts) == 0.0 {
      assert Withdrawn(sol, z, ty, ts) == 0.0;
    }
    SumOfZero(s, f);
    assert capacity * cycles >= 0.0;
  }

  // ---------------------------------------------------------------- wells

  /** gas_well_operating_cost[z, ts]: the cost per MMBtu/day (default 0.1)
      divided by 24 / ts_duration_hrs, that is the cost for the timeseries. */
  function WellOperatingCost(m: Model, costPerDay: map<(Zone, Timeseries), real>, z: Zone, ts: Timeseries): (r: real)
    requires Duration(m, ts) != 0.0
    ensures r == ValOr(costPerDay, (z, ts), 0.1) * Duration(m, ts) / 24.0
    ensures Duration(m, ts) == 24.0 ==> r == ValOr(costPerDay, (z, ts), 0.1)
  {
    DailyToTimeseries(ValOr(costPerDay, (z, ts), 0.1), Duration(m, ts))
  }

  /** Under Valid every timeseries has a positive duration, so the cost is
      defined, and a non-negative daily cost gives a non-negative cost. */
  lemma WellOperatingCostNonNegative(m: Model, costPerDay: map<(Zone, Timeseries), real>, z: Zone, ts: Timeseries)
    requires Valid(m) && ts in m.timeseries
    requires forall k :: k in costPerDay ==> costPerDay[k] >= 0.0
    ensures Duration(m, ts) > 0.0
    ensures WellOperatingCost(m, costPerDay, z, ts) >= 0.0
  {
    var c, d := ValOr(costPerDay, (z, ts), 0.1), Duration(m, ts);
    assert c >= 0.0 && d > 0.0;
    assert c * d >= 0.0;
  }
}

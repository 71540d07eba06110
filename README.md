# Gas network with iterative demand response — a Dafny model

This project models the core of a gas-network extension of the Switch
capacity-expansion model. The core has two parts.

The first part is the bid-based **demand-response iteration**. Between two
solves of the optimisation model it turns the solver's duals into prices per
zone, timeseries and sector (EI, the electricity/industry sector, and RC, the
residential/commercial sector). It asks a constant-elasticity demand system
for a bid (demand and willingness to pay) at those prices. It stores the bid
after a convexity check. It then tests whether the welfare-adjusted system
cost has converged.

The second part covers the **network build and balance helpers**:

- directional gas lines and LNG routes, and their corridor lookup;
- build bounds and new-build filters;
- nameplate capacity counted over build years, including the `Legacy` year;
- the pipeline cost adder;
- the cyclic previous-timeseries relation;
- the gas and LNG storage state rules and cycle limits;
- liquefaction and regasification losses;
- well operating windows, well counts and supply;
- line flows and their conservation.

The modules follow the program's files:

| module | file(s) | flavour |
|---|---|---|
| `Common` | — | sums over sequences, constraint values, results, number-to-text |
| `GasModel` | timescale and zone parameters the iteration reads | data |
| `ElasticityDemand` | `gas_constant_elasticity_demand_system_2sectors.py` | class `DemandSystem` holding the calibration globals; `bid` as a function |
| `BidStore` | `add_bids` | loops as methods (`CollectNonConvexPairs`, `WriteBids`) proved against `AddBidsSpec` |
| `BidWeights` | weight constraints, `FlexibleDemand`, `gas_demand`, `DR_Welfare_Cost` | functions and lemmas |
| `Pricing` | `gas_marginal_cost`, `get_prices`, `find_flat_prices`, `revenue_imbalance`, `get_bids` | loop methods proved against specification functions |
| `DemandResponse` | `calibrate_model`, `update_demand`, `pre_iterate` | class `DemandResponseModel` whose methods update the iteration state |
| `Corridors`, `Flows`, `Capacity` | `gas_network_build_2sectors.py`, flow expressions | functions, search and set-building methods |
| `Wells` | `gas_wells_build.py` | functions; class `WellBuilds` for the default-value assignment |
| `NetworkBalance` | `gas_network_balance_2sectors.py` | functions and lemmas |
| `Lng` | `LNG_build_balance.py` | functions and lemmas; class `Registry` for the component lists |
| `Reporting` | `filename_tag`, `add_dual` and its sort key, `summary_headers` | functions and loop methods |

The solver's values are inputs to the model: bid weights, duals, dispatch,
storage quantities and well counts. Arithmetic is exact `real` arithmetic.
Three things the source takes from libraries are parameters of the model:

- real exponentiation (`pow`, used in `bid`);
- the root finder (`newton`, returning `Option<real>`);
- the capital recovery factor (`crf`).

A missing key in a map of parameter values reads as 0, or as the source's
declared default where it has one: 0.001 for the reference quantity, 6.96
for the reference price, 1 for efficiencies and 0.1 for the well operating
cost. A failure of the source (a `KeyError`, a `ZeroDivisionError`, a
`ValueError` raised on a non-convex or negative bid, a failed root search)
is an `Err` or `None` value.

Two places where parts of the source compute the same kind of quantity
differently are kept apart:

- `pre_iterate` computes its cost adder per timeseries from the current
  sector's demand and charges it to every zone's RC sector. `get_prices`
  computes it per period from RC demand and only for cost-adder zones. The
  two are different functions here (`DemandResponse.PreIterateAdder`,
  `Pricing.CostAdder`), and `DemandResponse.CostAddersDiffer` shows that they
  disagree.
- The storage cycle limit of the gas network scales withdrawals by
  `ts_scale_to_year`. The LNG cycle limit scales them by `ts_scale_to_period`
  and divides by the period length. `Lng.LngCycleLimitPerYear` proves that
  the two forms agree when the timescales are consistent.

## Model

| member | source | states |
|---|---|---|
| ElasticityDemand.Elasticity | gas_constant_elasticity_demand_system_2sectors.py:32-35 | EI elasticity is 0.05 and RC elasticity is 0.01, both strictly between 0 and 1 |
| ElasticityDemand.PriceFloor | gas_constant_elasticity_demand_system_2sectors.py:40 | the effective price is at least 1 and at least the offered price, and equals the offered price when that is at least 1 |
| ElasticityDemand.BidWith | gas_constant_elasticity_demand_system_2sectors.py:25-63 | a bid exists exactly when the system is calibrated, the coordinate has a base load and a base price, and the base price is positive; otherwise the error says which of these is missing (not calibrated, no base data, undefined curve) |
| ElasticityDemand.BidBelowFloor | gas_constant_elasticity_demand_system_2sectors.py:40 | any two offered prices at or below 1 give the identical bid |
| ElasticityDemand.BidAtBasePoint | gas_constant_elasticity_demand_system_2sectors.py:47-60 | at the base price (at least 1) the demand is the base load and the willingness to pay is 0, for any power function with `pow(1, y) == 1` |
| ElasticityDemand.BidDemandNonNegative | gas_constant_elasticity_demand_system_2sectors.py:47 | with a non-negative base load and a power function with non-negative values, the bid's demand is non-negative |
| ElasticityDemand.CalibrationStoresRows | gas_constant_elasticity_demand_system_2sectors.py:15-22 | every base-data row with a distinct key is stored under its key with its own base load and base price |
| ElasticityDemand.CalibrationMissing | gas_constant_elasticity_demand_system_2sectors.py:43-44 | a coordinate without a base-data row gets the missing-base-data error whatever the price |
| ElasticityDemand.DemandSystem.constructor | gas_constant_elasticity_demand_system_2sectors.py:12 | the module starts uncalibrated |
| ElasticityDemand.DemandSystem.Calibrate | gas_constant_elasticity_demand_system_2sectors.py:4-23 | the stored calibration becomes the maps built from the rows and the scenario |
| ElasticityDemand.DemandSystem.Bid | gas_constant_elasticity_demand_system_2sectors.py:25-63 | reads the calibration and changes nothing; succeeds under the same conditions as `BidWith` |
| BidStore.MaxInt | gas_iterative_demand_response_2sectors.py:726 | the result is an element of the list and no element exceeds it |
| BidStore.NewBidId | gas_iterative_demand_response_2sectors.py:723-726 | the new id is 1 for an empty list, otherwise one more than a listed id, and it exceeds every listed id |
| BidStore.FirstNegative | gas_iterative_demand_response_2sectors.py:110-117 | finds the first bid tuple with negative demand (which the non-negative `dr_bid` domain refuses), or none when all demands are non-negative |
| BidStore.CollectNonConvexPairs | gas_iterative_demand_response_2sectors.py:729-744 | the loop collects exactly the violations of the specification, for all tuples in order |
| BidStore.CollectPairsFor | gas_iterative_demand_response_2sectors.py:731-744 | the inner loop collects exactly the prior bids that one tuple violates against |
| BidStore.WriteBids | gas_iterative_demand_response_2sectors.py:755-761 | appends the id and writes benefit, quantity and price for every tuple; on a negative demand it stops after writing that tuple's benefit and reports its index |
| BidStore.PairsForSound | gas_iterative_demand_response_2sectors.py:735-744 | every reported pair names a prior bid whose net benefit at the new price exceeds the new bid's by more than 0.000001 |
| BidStore.PairsForEmpty | gas_iterative_demand_response_2sectors.py:731-738 | no pair is reported for a tuple exactly when no prior bid violates against it |
| BidStore.NonConvexPairsEmpty | gas_iterative_demand_response_2sectors.py:729-746 | the collected list is empty exactly when no prior bid violates against any tuple |
| BidStore.AddBidsRejectUnchanged | gas_iterative_demand_response_2sectors.py:746-752 | a rejection for non-convexity leaves the bid store unchanged |
| BidStore.AddBidsPreservesWellFormed | gas_iterative_demand_response_2sectors.py:723-761 | adding bids keeps the list strictly increasing and every stored key's bid id listed |
| BidStore.WrittenWellFormed | gas_iterative_demand_response_2sectors.py:755-761 | any prefix of the writes under the new id keeps the store well-formed |
| BidStore.AddBidsKeepsOtherBids | gas_iterative_demand_response_2sectors.py:757-761 | entries of every other bid id are neither added, removed nor changed |
| BidStore.AddBidsStoresTuples | gas_iterative_demand_response_2sectors.py:754-761 | on acceptance the new id is appended and each tuple's demand, price and willingness to pay are stored under the new id and its coordinate |
| BidStore.RejectsDominatedBid | gas_iterative_demand_response_2sectors.py:735-747 | a concrete prior bid dominating a new bid at the new price is rejected with exactly that pair |
| BidWeights.ConvexBidWeight | gas_iterative_demand_response_2sectors.py:143-150 | the constraint is skipped exactly when there are no bids; otherwise it holds exactly when the weights over all bids sum to 1 |
| BidWeights.FlatBidWeight | gas_iterative_demand_response_2sectors.py:157-167 | EI weights are unconstrained; an RC weight must equal the same bid's RC weight at the first timeseries of its period |
| BidWeights.FlexibleDemandTotal | gas_iterative_demand_response_2sectors.py:180-187 | the zone's flexible demand is the sum over the EI and RC sectors |
| BidWeights.GasDemand | gas_iterative_demand_response_2sectors.py:491-499 | the reference quantity when there are no bids, the flexible demand otherwise |
| BidWeights.FlexibleDemandWithinBids | gas_iterative_demand_response_2sectors.py:170-178 | non-negative weights summing to 1 place the flexible demand between any lower and upper bound of the bid quantities |
| BidWeights.GasDemandNonNegative | gas_iterative_demand_response_2sectors.py:491-499 | non-negative weights and quantities (or reference quantity) give non-negative demand |
| BidWeights.SingleBidSelected | gas_iterative_demand_response_2sectors.py:143-178 | with one bid the simplex constraint forces its weight to 1, so the flexible demand is that bid's quantity |
| BidWeights.FlatWeightsEqualInPeriod | gas_iterative_demand_response_2sectors.py:157-167 | under flat pricing a bid's RC weight is the same in every timeseries of a period |
| BidWeights.FlatDemandEqualInPeriod | gas_iterative_demand_response_2sectors.py:157-178 | under flat pricing, bids with equal RC quantities in two timeseries of a period give equal RC flexible demand there |
| BidWeights.ZoneWelfareSwap | gas_iterative_demand_response_2sectors.py:198-208 | the selected benefit of one zone is the weighted benefit summed over bids |
| BidWeights.BidsZonesExchange | gas_iterative_demand_response_2sectors.py:198-208 | summing welfare by bid then zone equals summing it by zone then bid |
| BidWeights.WelfareCostByZone | gas_iterative_demand_response_2sectors.py:198-208 | the welfare cost of a timepoint is minus the sum over zones of the weighted bid benefit, per hour of the timeseries |
| Pricing.MarginalCost | gas_iterative_demand_response_2sectors.py:484-489 | defined exactly when the balance dual of the zone and timeseries exists; otherwise a missing-dual error for that key |
| Pricing.MarginalCostRestoresDual | gas_iterative_demand_response_2sectors.py:484-489 | the marginal cost times the discount factor and the timeseries scale gives back the dual |
| Pricing.CostAdder | gas_iterative_demand_response_2sectors.py:533-551 | zero outside the cost-adder zones and zero when the period's RC demand over those zones is zero |
| Pricing.CostAdderRecoversPipelineCost | gas_iterative_demand_response_2sectors.py:535-551 | every cost-adder zone gets the same adder, and the adder charged on each zone's RC demand adds up to the period's pipeline cost |
| Pricing.AdderChargesRecover | gas_iterative_demand_response_2sectors.py:539-548 | the charges over the cost-adder zones sum to `gl_cost_adder[p]` |
| Pricing.AdderChargeShares | gas_iterative_demand_response_2sectors.py:539-548 | each zone's charge is its RC demand times the common rate |
| Pricing.ComputeCostAdders | gas_iterative_demand_response_2sectors.py:533-551 | the nested loops fill the adder of every zone and period, and no other key |
| Pricing.AddZoneCostAdders | gas_iterative_demand_response_2sectors.py:535-551 | the inner loop sets one zone's adders for all periods and leaves other zones' entries unchanged |
| Pricing.RecoverableCost | gas_iterative_demand_response_2sectors.py:553-570 | at iteration 0 the base price, if present; later the marginal cost for EI and marginal cost plus RC markup plus the zone's adder for RC, defined exactly when the dual exists |
| Pricing.CostTableCorrect | gas_iterative_demand_response_2sectors.py:553-570 | the table succeeds exactly when every coordinate's recoverable cost does, and then holds that cost at every coordinate |
| Pricing.RcPriceGuess | gas_iterative_demand_response_2sectors.py:603-612 | defined exactly when the period's scaled RC demand is non-zero |
| Pricing.RcPriceGuessWithinCosts | gas_iterative_demand_response_2sectors.py:603-612 | with positive RC demands the demand-weighted guess exists and lies between any lower and upper bound of the RC recoverable costs |
| Pricing.RevenueImbalance | gas_iterative_demand_response_2sectors.py:649-702 | the accumulating loop computes the imbalance of the specification, including its failure when a bid fails |
| Pricing.ImbalanceSumsErrSticky | gas_iterative_demand_response_2sectors.py:654-684 | once a bid fails in a prefix of the timeseries, the whole sum fails with the same error |
| Pricing.ImbalanceSumsDefined | gas_iterative_demand_response_2sectors.py:654-684 | the sums exist exactly when the RC bid at the candidate price and the EI bid at its own cost exist in every timeseries |
| Pricing.ImbalanceIsRcShortfall | gas_iterative_demand_response_2sectors.py:654-694 | the EI revenue terms cancel: the imbalance is the sum over timeseries of (RC cost − price) × RC demand × scale |
| Pricing.FlatPrice | gas_iterative_demand_response_2sectors.py:603-630 | without revenue neutrality the price is the guess; with it, a price exists only as the root finder's answer started from the guess |
| Pricing.FlatPriceRevenueNeutral | gas_iterative_demand_response_2sectors.py:615-635 | when the root finder returns roots of the imbalance, the revenue-neutral RC price recovers RC costs exactly |
| Pricing.FindFlatPrices | gas_iterative_demand_response_2sectors.py:596-647 | succeeds exactly when every zone and period has a price; then every timeseries gets its period's RC price and EI its own recoverable cost, and the table has no other key; a failure reports some zone and period's error |
| Pricing.FindZoneFlatPrices | gas_iterative_demand_response_2sectors.py:626-635 | the inner loop fills one zone's periods and keeps other entries |
| Pricing.PriceFor | gas_iterative_demand_response_2sectors.py:591 | a sector price exists exactly for a flat table holding the zone and timeseries |
| Pricing.BidsAtCorrect | gas_iterative_demand_response_2sectors.py:578-593 | a successful collection has one tuple per coordinate, in order, each holding its table price and the demand system's bid at that price |
| Pricing.VariablePricesFail | gas_iterative_demand_response_2sectors.py:563-591 | with variable (per-sector) prices, collecting bids over any non-empty set of coordinates fails |
| Pricing.GetBids | gas_iterative_demand_response_2sectors.py:578-593 | the loop computes the specification's collection over all coordinates |
| Pricing.BidsAtErrSticky | gas_iterative_demand_response_2sectors.py:578-593 | once a prefix fails, the whole collection fails with the same error |
| DemandResponse.BaseRowsOf | gas_iterative_demand_response_2sectors.py:506-517 | one base row per zone, timeseries and sector, in loop order, each carrying the reference quantity and the reference price |
| DemandResponse.CalibratedAtReference | gas_iterative_demand_response_2sectors.py:501-528 | after calibration every coordinate's base load is its reference quantity and its base price is its reference price |
| DemandResponse.PricesOf | gas_iterative_demand_response_2sectors.py:572-576 | flat pricing yields a flat table and variable pricing a per-sector one |
| DemandResponse.VariablePricingCollectsNothing | gas_iterative_demand_response_2sectors.py:563-591 | without flat pricing no bid can be collected once there is a zone and a timeseries |
| DemandResponse.ComputePrices | gas_iterative_demand_response_2sectors.py:531-576 | returns the specification's price table, and on failure the recoverable-cost error when that is what failed |
| DemandResponse.CollectBids | gas_iterative_demand_response_2sectors.py:445-451 | returns the specification's bids at the computed prices, or fails when they do not exist |
| DemandResponse.AcceptedUpdateAppends | gas_iterative_demand_response_2sectors.py:451-459 | an accepted update appends exactly one new id, larger than all earlier ids |
| DemandResponse.PreIterateAdder | gas_iterative_demand_response_2sectors.py:228-239 | zero for EI and for zero demand; otherwise the RC adder times the timeseries' cost-adder demand is the period's pipeline cost |
| DemandResponse.CostAddersDiffer | gas_iterative_demand_response_2sectors.py:228-239 | for a zone outside the cost-adder zones the pricing adder is 0 while the adder used for the previous recoverable cost is not |
| DemandResponse.PrevCostAt | gas_iterative_demand_response_2sectors.py:228-239 | the previous recoverable cost exists exactly when the dual does |
| DemandResponse.PrevTableCorrect | gas_iterative_demand_response_2sectors.py:228-239 | the table exists exactly when every coordinate's dual exists and then holds each coordinate's previous cost |
| DemandResponse.NoDemandNoDirectCost | gas_iterative_demand_response_2sectors.py:258-267 | zero quantities give zero direct cost |
| DemandResponse.StopTest | gas_iterative_demand_response_2sectors.py:318-329 | never converged and no warning at iteration 0; later, a zero previous direct cost is an error, convergence holds exactly when the relative gap is at most 0.0001, and the warning is raised exactly when the previous cost is below the best cost |
| DemandResponse.DemandResponseModel.constructor | gas_iterative_demand_response_2sectors.py:106-214 | starts at iteration 0 without bids, base data or previous values |
| DemandResponse.DemandResponseModel.AddBids | gas_iterative_demand_response_2sectors.py:712-761 | the store and the result are those of the bid-store specification; nothing else changes |
| DemandResponse.DemandResponseModel.CalibrateModel | gas_iterative_demand_response_2sectors.py:501-528 | stores the base data and calibrates the demand system from reference quantities and prices with scenario 3 |
| DemandResponse.DemandResponseModel.GetPrices | gas_iterative_demand_response_2sectors.py:531-576 | returns the specification's prices for the current state |
| DemandResponse.DemandResponseModel.UpdateDemand | gas_iterative_demand_response_2sectors.py:421-461 | calibrates on the first run only, collects bids at the current prices and adds them; the new store and the result are those of the specification |
| DemandResponse.DemandResponseModel.RecordPrevious | gas_iterative_demand_response_2sectors.py:217-247 | resets the previous values at iteration 0; later records previous recoverable costs, demands and system cost, or reports the missing dual |
| DemandResponse.DemandResponseModel.PreIterate | gas_iterative_demand_response_2sectors.py:217-329 | records the previous state, updates demand and returns the stop test's verdict on the newest bid; fails without changing bids when a dual is missing |
| DemandResponse.DemandResponseModel.UpdateAndTest | gas_iterative_demand_response_2sectors.py:282-329 | updates demand and applies the stop test to the newest bid, keeping the recorded previous values |
| Corridors.DirectionalMembers | gas_network_build_2sectors.py:64-71 | a pair is directional exactly when some line joins its two zones in either orientation |
| Corridors.DirectionalSymmetric | gas_network_build_2sectors.py:64-71 | the directional set is symmetric |
| Corridors.BuildDirectional | gas_network_build_2sectors.py:64-69 | the loop builds exactly the directional set |
| Corridors.ConnectionsTo | gas_network_build_2sectors.py:72-77 | exactly the zones with a directional pair into the given zone, without repeats |
| Corridors.ConnectionsMutual | gas_network_build_2sectors.py:72-77 | a is connected to b exactly when b is connected to a |
| Corridors.FirstJoining | gas_network_build_2sectors.py:79-84 | the index of the first line joining the two zones, or none when no line does |
| Corridors.FindCorridor | gas_network_build_2sectors.py:79-88 | the search loop returns the first joining line's name |
| Corridors.CorridorOfSymmetric | gas_network_build_2sectors.py:79-88 | the line found for (a, b) is the one found for (b, a) |
| Corridors.DirectionalHasCorridor | gas_network_build_2sectors.py:64-88 | every directional pair has a line, and that line joins the pair |
| Flows.ReceivedAtMostSent | gas_network_balance_2sectors.py:31-47 | gas received over a corridor is non-negative and at most the gas sent |
| Flows.ColumnBelowSent | gas_network_balance_2sectors.py:31-56 | what one zone's corridors deliver is at most what it sends, and equal when lossless |
| Flows.NetworkConserves | gas_network_balance_2sectors.py:48-56 | total received is at most total sent; with efficiency 1 the net injections of all zones sum to zero |
| Capacity.BuildBounds | gas_network_build_2sectors.py:109-116 | existing builds are fixed to their predetermined amount; others range over the non-negative numbers |
| Capacity.NewBuildYears | gas_network_build_2sectors.py:37-41 | exactly the permitted items paired with every period |
| Capacity.DirectionalNewBuildSymmetric | gas_network_build_2sectors.py:128-134 | a directional new build exists for (a, b) exactly when it exists for (b, a) |
| Capacity.NameplateSplit | LNG_build_balance.py:68-76 | capacity is the legacy builds counted in every period plus the dated builds up to the period |
| Capacity.NameplateIncrement | gas_network_build_2sectors.py:205-213 | the capacity gained from one period to a later one is exactly the builds dated in between |
| Capacity.NameplateMonotone | gas_network_build_2sectors.py:205-213 | with non-negative build amounts capacity never falls in later periods |
| Capacity.NameplateAsWrittenAgrees | gas_network_build_2sectors.py:205-213 | the line capacity as written fails exactly when a legacy build is present, and otherwise equals the corrected capacity |
| Capacity.LegacyLineRaises | gas_network_build_2sectors.py:211 | a single legacy line makes the as-written capacity fail, while the corrected capacity is its amount |
| Capacity.GlCostAdderOtherYear | gas_network_build_2sectors.py:194-201 | a build dated in another year adds nothing to a period's adder |
| Capacity.GlCostAdderNonNegative | gas_network_build_2sectors.py:194-201 | non-negative costs and capital recovery factors give a non-negative adder |
| Capacity.GlCostAdderChargesOnce | gas_network_build_2sectors.py:194-201 | over distinct periods, each build is charged once, in its own build year if that is a period |
| Wells.CanOperate | gas_wells_build.py:104-112 | a build operates in a period exactly when the period start lies within its online year and online year plus maximum age |
| Wells.BuildOperatesInOwnPeriod | gas_wells_build.py:104-112 | a build in a period operates in that period when the maximum age is positive |
| Wells.OperatingWindowConvex | gas_wells_build.py:104-112 | the periods a build operates in are contiguous and span less than the maximum age |
| Wells.BldYrsForWellPeriod | gas_wells_build.py:123-129 | exactly the build years of the well that can operate in the period |
| Wells.WellNumIsVintage | gas_wells_build.py:143-148 | the count for a production year is the count of the one vintage `period − prod_yr + 1` if it is online, otherwise 0 |
| Wells.WellNumNonNegative | gas_wells_build.py:143-148 | non-negative well counts give non-negative counts per production year |
| Wells.DailyToTimeseries | gas_wells_build.py:156 | dividing a daily rate by 24 / duration is the rate times the duration in days |
| Wells.SupplyNonNegative | gas_wells_build.py:151-166 | non-negative counts and rates give non-negative supply by drill type and in total |
| Wells.NewWellBuildYears | gas_wells_build.py:47-51 | exactly the wells of permitted zones paired with every period |
| Wells.WellBuilds.AssignDefaultValues | gas_wells_build.py:98-102 | every existing build is set to its predetermined count; other entries are unchanged |
| Wells.DefaultWithinBounds | gas_wells_build.py:58-67 | for an existing build, the admissible values under its bounds are exactly its predetermined count |
| Wells.GasWellUpperLimit | gas_wells_build.py:81-88 | skipped exactly for zones without new-build permission; otherwise the builds over drill types are at most the zone's yearly maximum |
| Wells.UpperLimitSkippedWithoutNewBuilds | gas_wells_build.py:47-88 | the limit is skipped exactly when the zone has no new-build years in the period |
| NetworkBalance.GasDemandTotal | gas_network_balance_2sectors.py:165-173 | the sum of the EI and RC reference quantities, non-negative when they are |
| NetworkBalance.NetWithdrawalSumSplits | gas_network_balance_2sectors.py:75-85 | the net withdrawal over storage types is total withdrawals minus total injections |
| NetworkBalance.StorageStateRule | gas_network_balance_2sectors.py:96-104 | the rule holds exactly when the change from the previous timeseries is the stored part of injection minus withdrawal |
| NetworkBalance.StateRuleAtDefaults | gas_network_balance_2sectors.py:96-104 | with efficiency 1 and store/release ratio 1 the rule is `q = q_prev + inj − wd` |
| NetworkBalance.StoragePeriodBalance | gas_network_balance_2sectors.py:96-104 | over a period, storage withdrawals equal the stored part of injections |
| NetworkBalance.StorageReleasesAtMostInjected | gas_network_balance_2sectors.py:96-104 | with fractional efficiencies storage cannot release more than was injected over a period, and exactly that at efficiency 1 |
| NetworkBalance.StorageCycleLimit | gas_network_balance_2sectors.py:115-124 | skipped exactly for infinite cycles; otherwise the year-scaled withdrawals are at most capacity × cycles |
| NetworkBalance.IdleStorageMeetsCycleLimit | gas_network_balance_2sectors.py:115-124 | storage that withdraws nothing meets its cycle limit |
| NetworkBalance.WellOperatingCost | gas_network_balance_2sectors.py:193-208 | the per-day cost (default 0.1) times the duration in days, so for a one-day timeseries the per-day cost |
| NetworkBalance.WellOperatingCostNonNegative | gas_network_balance_2sectors.py:193-208 | non-negative per-day costs give non-negative costs |
| Lng.PrevW | LNG_build_balance.py:316-320 | the predecessor in the period's order, the first wrapping to the last |
| Lng.NextW | LNG_build_balance.py:316-320 | the successor in the period's order, the last wrapping to the first |
| Lng.PrevNextInverse | LNG_build_balance.py:316-320 | for distinct timeseries, predecessor and successor undo each other |
| Lng.TsPreviousInPeriod | LNG_build_balance.py:316-320 | the previous timeseries lies in the same period, and the period's first wraps to its last |
| Lng.CyclicStorageBalance | LNG_build_balance.py:323-332 | if the cyclic state rule holds throughout, total additions equal total withdrawals |
| Lng.LngStateRule | LNG_build_balance.py:323-332 | the rule holds exactly when the change from the previous timeseries is addition minus withdrawal |
| Lng.LngPeriodBalance | LNG_build_balance.py:323-332 | over a period satisfying the rule, LNG additions equal withdrawals |
| Lng.LngCycleLimit | LNG_build_balance.py:345-360 | skipped exactly for infinite cycles; otherwise the period-scaled withdrawals are at most cycles × capacity × period length |
| Lng.LngCycleLimitPerYear | LNG_build_balance.py:345-360 | with consistent timescales the LNG limit is the per-year limit used for gas storage |
| Lng.FeedGas | LNG_build_balance.py:404-409 | defined exactly when the loss is not 1 |
| Lng.LiquefactionLoss | LNG_build_balance.py:412-417 | defined exactly when the loss is not 1 |
| Lng.LiquefactionBalance | LNG_build_balance.py:404-417 | feed gas equals liquefied LNG plus liquefaction loss, and is at least the liquefied amount |
| Lng.RegasificationBalance | LNG_build_balance.py:430-442 | gas from LNG plus regasification loss equals the regasified LNG, and lies between 0 and that amount |
| Lng.Registry.constructor | LNG_build_balance.py:12-13 | empty injection and withdrawal lists; the cost lists are kept |
| Lng.Registry.DefineLngComponents | LNG_build_balance.py:404-465 | registers the injection, the three withdrawals, the three fixed-cost components (lines 86, 139, 192) and the shipping cost |
| Lng.LossesCountedTwice | LNG_build_balance.py:404-442 | the registered withdrawals exceed the true net withdrawal by both losses |
| Lng.LiquefactionOvercharged | LNG_build_balance.py:404-417 | liquefying 91 at a 9% loss needs 100 of feed gas, but 109 is withdrawn |
| Lng.LngNetWithdrawal | LNG_build_balance.py:404-442 | defined exactly when the liquefaction loss is not 1 |
| Lng.LngNetWithdrawalAccounts | LNG_build_balance.py:404-442 | the corrected net withdrawal is liquefied minus regasified plus each loss once |
| Reporting.NatToStringValue | gas_iterative_demand_response_2sectors.py:1099-1100 | the decimal text of a number reads back as that number |
| Reporting.IntToStringInjective | gas_iterative_demand_response_2sectors.py:810-817 | distinct integers have distinct texts |
| Reporting.Padded | gas_iterative_demand_response_2sectors.py:1100 | zero-padded to the width (never cut) and reads back as the number |
| Reporting.TagWidth | gas_iterative_demand_response_2sectors.py:1096-1099 | at least 1, and 4 without a maximum iteration count |
| Reporting.TagSegments | gas_iterative_demand_response_2sectors.py:1100 | the loop builds the specification's segments |
| Reporting.FilenameTag | gas_iterative_demand_response_2sectors.py:1091-1101 | the loop builds the specification's tag |
| Reporting.SegmentsRoundTrip | gas_iterative_demand_response_2sectors.py:1100 | numbers within the width are recovered from their segments |
| Reporting.FilenameTagInjective | gas_iterative_demand_response_2sectors.py:1091-1101 | with iteration numbers up to the maximum, distinct nodes get distinct tags |
| Reporting.AddDual | gas_iterative_demand_response_2sectors.py:1024-1052 | no dual adds nothing; a dual without the matching bound fails unless it is within tolerance; otherwise at most one row is appended, with direction, bound plus offset and total cost, and only when that cost is non-zero |
| Reporting.ZeroDualAddsNothing | gas_iterative_demand_response_2sectors.py:1024-1052 | a zero dual adds no row |
| Reporting.KeyLessIrreflexive | gas_iterative_demand_response_2sectors.py:1081 | the sort key is a strict order: no row precedes itself |
| Reporting.SortedTableOrder | gas_iterative_demand_response_2sectors.py:1081 | in a sorted table the convex-weight rows come first, then, within each group, negative duals before non-negative ones |
| Reporting.PeriodTexts | gas_iterative_demand_response_2sectors.py:810-817 | one text per period, the period's decimal text |
| Reporting.SummaryHeadersShape | gas_iterative_demand_response_2sectors.py:810-817 | three fixed headers, then one header per cost family and period, all distinct when the periods are |
| GasModel.RefQuantity | gas_network_balance_2sectors.py:159-163 | the reference quantity defaults to 0.001 |
| GasModel.RefPrice | gas_network_balance_2sectors.py:146-153 | the reference price defaults to 6.96 |
| GasModel.FirstTsOfPeriodValid | gas_iterative_demand_response_2sectors.py:157-167 | the flat-pricing anchor is a timeseries of the model |
| GasModel.CoordsOfMember | gas_iterative_demand_response_2sectors.py:506-517 | the nested loops visit exactly the zone and timeseries combinations, in both sectors |
| GasModel.CoordsOfDistinct | gas_iterative_demand_response_2sectors.py:506-517 | distinct zones and timeseries give distinct coordinates |

## Left out

- Pyomo itself is not modelled: components, the solve, reconstruction of components after bids change (`reconstruct`, `reconstruct_gas_balance`) and the dual suffix. Solver values enter as input maps.
- File output and input are not modelled: `post_iterate`, `post_solve`, `write_results`, `write_batch_results`, `summary_values`, the table writes of `write_dual_costs`, every `load_inputs`, and printing. Argument parsing and the demand-module lookup are left out too.
- `total_direct_costs_per_year` and `log_infeasible_constraints` are not part of this model; they only report.
- The power function is a parameter, since real exponentiation is not available in exact arithmetic. The root finder and the capital recovery factor are parameters too.
- ElasticityDemand.BidWith: the elastic demand and willingness-to-pay formulas are stated through the abstract power function, so only structural properties are proved: the price floor, the base point and sign.
- Pricing.FlatPriceRevenueNeutral: assumes that the root finder's answers are roots, because the root finder is foreign code.
- The iteration counter `iteration_number` is advanced by the caller between solves. The model reads it but does not advance it.
- The variable-pricing path of `get_bids` raises a `KeyError` in the source. It is modelled as a failure (`Pricing.VariablePricesFail`) rather than with a repaired price table.
- `pre_iterate` divides by the previous direct cost. When that is 0 the source raises `ZeroDivisionError`; the model returns the `ZeroDirectCost` error.
- The base loads and prices are one-element lists in the source; they are scalars here.
- Costs that only feed the objective are not modelled: the storage, liquefaction and vaporization fixed costs, LNG shipping cost, `GasWellFixedCosts`, `GasProdCostsPerTP` and the transmission and storage fuel costs. The capacity upper limits on dispatch, storage levels, liquefaction and vaporization are left out for the same reason, as are `Maximum_DirectionalGlCapacity`, `DRILL_TYPE_OF_WELL_PERIOD` and `gas_balance_constraint.py`.
- `gas_balance_constraint.py` is not part of this model beyond the injection and withdrawal lists that `Lng.Registry` models.
- ElasticityDemand.BidWith: a base price of 0 or below is an `UndefinedCurve` error. The source does not raise there: its numpy division gives an infinite or not-a-number ratio, so the bid holds a demand of 0 or NaN and a NaN willingness to pay. Floating-point infinities and NaN are not modelled.
- BidStore.Quantity, BidStore.Price, BidStore.Benefit: an entry that was never written reads as 0. The source's `dr_bid`, `dr_price` and `dr_bid_benefit` have no default, so such a read would raise `ValueError`. The source never makes that read, because `get_bids` writes every bid at every zone, timeseries and sector. `BidStore.WellFormed` does not record this coverage.
- Reporting.TagOf, Reporting.FilenameTag: the iteration-node entries are natural numbers. Iteration counters are never negative. A negative entry, whose `-` sign `%0*d` would also print, is not modelled.
- Capacity.Nameplate: the builds are a list that is assumed to hold each `(line, build year)` pair once, as the Pyomo set `GAS_LINE_BLD_YRS` does. A repeated pair would be counted twice; no precondition excludes this.
- Lng.TsPrevious: modelled only for a timeseries listed in its own period, which is where the source defines it.

## Findings

| source | as written | input that shows it | evidently intended | confidence | as-written member | corrected member |
|---|---|---|---|---|---|---|
| gas_network_build_2sectors.py:211 | line, directional-line and storage nameplate capacity compare the build year with the period by `bld_yr <= period`; for the build year `"Legacy"` this compares a string with an integer, which raises `TypeError` (also lines 223 and 343) | one line built in `"Legacy"`, any period (2030) | count a legacy build in every period, as the LNG module does at LNG_build_balance.py:74 | not executed | Capacity.NameplateAsWritten (Capacity.LegacyLineRaises) | Capacity.Nameplate (Capacity.NameplateAsWrittenAgrees, Capacity.NameplateSplit) |
| LNG_build_balance.py:404-442 | `GasQuantityLiquefiedToLNG` is the feed gas `liquefied/(1−loss)`, which already includes the loss, and `LNGLiquefactionLoss` is registered as a further withdrawal; `GasQuantityFromLNG` is already net of the regasification loss, and `LNGRegasificationLoss` is registered as a withdrawal too | liquefy 91 at loss 0.09 with no regasification: the feed gas is 100, but 109 is withdrawn | withdraw each loss once: the net withdrawal is liquefied minus regasified plus the two losses | not executed | Lng.LngNetWithdrawalAsWritten (Lng.LossesCountedTwice, Lng.LiquefactionOvercharged) | Lng.LngNetWithdrawal (Lng.LngNetWithdrawalAccounts) |

/** The constant-elasticity demand system: calibration against a base
    load/price point and the bid (demand, willingness to pay) it returns for
    a price. */
module ElasticityDemand {
  import opened Common

  /** One row of the calibration data: base load and base price of a
      (zone, timeseries, sector). The source carries one-element lists. */
  datatype BaseRow = BaseRow(coord: Coord, baseLoad: real, basePrice: real)

  /** The module-level state `calibrate` sets up; `Uncalibrated` is the state
      before its first call, when `bid` has no tables to read. */
  datatype Calibration =
    | Uncalibrated
    | Calibrated(baseLoad: map<Coord, real>, basePrice: map<Coord, real>, scenario: int)

  /** What `bid` returns: the demand at the price and the willingness to pay
      for it relative to the base point. */
  datatype Bid = Bid(demand: real, wtp: real)

  datatype BidError =
    | NotCalibrated             // bid() before calibrate(): the tables do not exist
    | MissingBaseData(c: Coord) // KeyError on base_load_dict / base_price_dict
    | UndefinedCurve(c: Coord)  // base price <= 0: the power terms are not real numbers

  /** The elasticity of each sector. */
  function Elasticity(s: Sector): (e: real)
    ensures 0.0 < e < 1.0
    ensures s == EI ==> e == 0.05
    ensures s == RC ==> e == 0.01
  {
    match s
    case EI => 0.05
    case RC => 0.01
  }

  /** Prices below 1.0 are raised to 1.0 before the curve is evaluated. */
  function PriceFloor(price: real): (p: real)
    ensures p >= 1.0 && p >= price
    ensures price >= 1.0 ==> p == price
  {
    if price < 1.0 then 1.0 else price
  }

  function RowCoord(r: BaseRow): Coord { r.coord }
  function RowLoad(r: BaseRow): real { r.baseLoad }
  function RowPrice(r: BaseRow): real { r.basePrice }

  /** The calibration `calibrate` builds from its rows (a later row for the
      same coordinate overwrites an earlier one). */
  function CalibrationOf(rows: seq<BaseRow>, scenario: int): Calibration
  {
    Calibrated(FoldWrite(map[], rows, RowCoord, RowLoad), FoldWrite(map[], rows, RowCoord, RowPrice), scenario)
  }

  /** bid() as a function of the calibration: `pow(x, y)` is x raised to y. */
  function BidWith(cal: Calibration, c: Coord, price: real, pow: (real, real) -> real): (r: Result<Bid, BidError>)
    ensures r.Ok? <==> cal.Calibrated? && c in cal.baseLoad && c in cal.basePrice && cal.basePrice[c] > 0.0
    ensures r.Err? && !cal.Calibrated? ==> r.error == NotCalibrated
    ensures r.Err? && cal.Calibrated? && c in cal.baseLoad && c in cal.basePrice ==> r.error == UndefinedCurve(c)
  {
    var e := Elasticity(c.sector);
    var p := PriceFloor(price);
    if cal.Uncalibrated? then Err(NotCalibrated)
    else if c !in cal.baseLoad || c !in cal.basePrice then Err(MissingBaseData(c))
    else
      var bl := cal.baseLoad[c];
      var bp := cal.basePrice[c];
      if bp <= 0.0 then Err(UndefinedCurve(c))
      else
        var load := bl * pow(p / bp, -e);
        var csDiff := (1.0 - pow(p / bp, 1.0 - e)) * bp * bl / (1.0 - e);
        var paidDiff := p * load - bp * bl;
        Ok(Bid(load, csDiff + paidDiff))
  }

  /** All prices at or below 1.0 get the same bid. */
  lemma BidBelowFloor(cal: Calibration, c: Coord, price1: real, price2: real, pow: (real, real) -> real)
    requires price1 <= 1.0 && price2 <= 1.0
    ensures BidWith(cal, c, price1, pow) == BidWith(cal, c, price2, pow)
  {
    var r1 := BidWith(cal, c, price1, pow);
    var r2 := BidWith(cal, c, price2, pow);
    if r1.Ok? {
      assert r1.value.demand == r2.value.demand;
      assert r1.value.wtp == r2.value.wtp;
    }
  }

  /** At the base point the curve returns the base load and no change in
      willingness to pay. */
  lemma BidAtBasePoint(cal: Calibration, c: Coord, pow: (real, real) -> real)
    requires cal.Calibrated? && c in cal.baseLoad && c in cal.basePrice
    requires cal.basePrice[c] >= 1.0
    requires forall y :: pow(1.0, y) == 1.0
    ensures BidWith(cal, c, cal.basePrice[c], pow) == Ok(Bid(cal.baseLoad[c], 0.0))
  {
    var bp := cal.basePrice[c];
    var bl := cal.baseLoad[c];
    var e := Elasticity(c.sector);
    assert PriceFloor(bp) == bp;
    assert bp / bp == 1.0;
    assert pow(bp / bp, -e) == 1.0 && pow(bp / bp, 1.0 - e) == 1.0;
    var r := BidWith(cal, c, bp, pow);
    assert r.value.demand == bl;
    assert r.value.wtp == 0.0;
  }

  /** With a non-negative power function, a non-negative base load never
      leads to a negative demand. */
  lemma BidDemandNonNegative(cal: Calibration, c: Coord, price: real, pow: (real, real) -> real)
    requires BidWith(cal, c, price, pow).Ok?
    requires cal.baseLoad[c] >= 0.0
    requires forall x, y :: x > 0.0 ==> pow(x, y) >= 0.0
    ensures BidWith(cal, c, price, pow).value.demand >= 0.0
  {
    var p := PriceFloor(price);
    var bp := cal.basePrice[c];
    assert p / bp > 0.0;
    var e := Elasticity(c.sector);
    assert pow(p / bp, -e) >= 0.0;
  }

  /** Calibration from rows with distinct coordinates stores each row's base
      point under its coordinate. */
  lemma {:induction false} CalibrationStoresRows(rows: seq<BaseRow>, scenario: int, i: nat)
    requires i < |rows|
    requires forall a, b :: 0 <= a < b < |rows| ==> rows[a].coord != rows[b].coord
    ensures var cal := CalibrationOf(rows, scenario);
            rows[i].coord in cal.baseLoad && cal.baseLoad[rows[i].coord] == rows[i].baseLoad &&
            rows[i].coord in cal.basePrice && cal.basePrice[rows[i].coord] == rows[i].basePrice
  {
    FoldWriteAt(map[], rows, RowCoord, RowLoad, i);
    FoldWriteAt(map[], rows, RowCoord, RowPrice, i);
  }

  /** A coordinate no row names has no calibration data, so bidding for it fails. */
  lemma CalibrationMissing(rows: seq<BaseRow>, scenario: int, c: Coord, price: real, pow: (real, real) -> real)
    requires forall r :: r in rows ==> r.coord != c
    ensures BidWith(CalibrationOf(rows, scenario), c, price, pow) == Err(MissingBaseData(c))
  {
    FoldWriteOther(map[], rows, RowCoord, RowLoad, c);
  }

  /** The demand module's global state. */
  class DemandSystem {
    var cal: Calibration

    constructor ()
      ensures cal == Uncalibrated
    {
      cal := Uncalibrated;
    }

    /** calibrate(): build the base-load and base-price tables from the rows. */
    method Calibrate(rows: seq<BaseRow>, scenario: int)
      modifies this
      ensures cal == CalibrationOf(rows, scenario)
    {
      var loads: map<Coord, real> := map[];
      var prices: map<Coord, real> := map[];
      var i := 0;
      while i < |rows|
        invariant 0 <= i <= |rows|
        invariant loads == FoldWrite(map[], rows[..i], RowCoord, RowLoad)
        invariant prices == FoldWrite(map[], rows[..i], RowCoord, RowPrice)
      {
        assert rows[..i + 1][..i] == rows[..i];
        loads := loads[rows[i].coord := rows[i].baseLoad];
        prices := prices[rows[i].coord := rows[i].basePrice];
        i := i + 1;
      }
      assert rows[..i] == rows;
      cal := Calibrated(loads, prices, scenario);
    }

    /** bid(): the demand and willingness to pay at `price`. */
    function Bid(c: Coord, price: real, pow: (real, real) -> real): (r: Result<Bid, BidError>)
      reads this
      ensures r.Ok? <==> cal.Calibrated? && c in cal.baseLoad && c in cal.basePrice && cal.basePrice[c] > 0.0
    {
      BidWith(cal, c, price, pow)
    }
  }
}

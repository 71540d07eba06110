/** The demand bids the iteration has collected so far — DR_BID_LIST with
    the dr_bid, dr_price and dr_bid_benefit parameters indexed by bid and
    (zone, timeseries, sector) — and `add_bids`, which checks a new set of
    bids for non-convexity and stores it under a fresh bid number. */
module BidStore {
  import opened Common

  type BidKey = (int, Coord)

  /** DR_BID_LIST and the three bid parameters. */
  datatype Bids = Bids(
    list: seq<int>,
    quantity: map<BidKey, real>,  // dr_bid
    price: map<BidKey, real>,     // dr_price
    benefit: map<BidKey, real>)   // dr_bid_benefit

  const NoBids: Bids := Bids([], map[], map[], map[])

  /** One bid from the demand system: (z, ts, sector, price, demand, wtp). */
  datatype BidTuple = BidTuple(coord: Coord, price: real, demand: real, wtp: real)

  /** A stored bid that gives more net benefit at the new price than the new bid. */
  datatype NonConvexPair = NonConvexPair(
    coord: Coord, priorBid: int, priorPrice: real, priorDemand: real, priorWtp: real,
    newBid: int, price: real, demand: real, wtp: real)

  datatype AddBidsError =
    | NonConvex(pairs: seq<NonConvexPair>)  // the ValueError listing the non-convex pairs
    | NegativeQuantity(index: nat)          // dr_bid is NonNegativeReals: the write at `index` is refused

  predicate StrictlyIncreasing(s: seq<int>)
  {
    forall i, j :: 0 <= i < j < |s| ==> s[i] < s[j]
  }

  /** Bid numbers are positive and increasing, and the parameters hold
      entries only for listed bids. */
  predicate WellFormed(bids: Bids)
  {
    && StrictlyIncreasing(bids.list)
    && (forall b :: b in bids.list ==> b >= 1)
    && (forall k :: k in bids.quantity ==> k.0 in bids.list)
    && (forall k :: k in bids.price ==> k.0 in bids.list)
    && (forall k :: k in bids.benefit ==> k.0 in bids.list)
  }

  function MaxInt(s: seq<int>): (r: int)
    requires s != []
    ensures r in s && forall x :: x in s ==> x <= r
  {
    if |s| == 1 then s[0]
    else
      var rest := MaxInt(s[1..]);
      assert s == [s[0]] + s[1..];
      if s[0] >= rest then s[0] else rest
  }

  /** The number of the next bid: 1 for the first, one past the largest otherwise. */
  function NewBidId(list: seq<int>): (b: int)
    ensures list == [] ==> b == 1
    ensures list != [] ==> b - 1 in list
    ensures forall x :: x in list ==> x < b
  {
    if list == [] then 1 else MaxInt(list) + 1
  }

  function Quantity(bids: Bids, b: int, c: Coord): real { Val(bids.quantity, (b, c)) }
  function Price(bids: Bids, b: int, c: Coord): real { Val(bids.price, (b, c)) }
  function Benefit(bids: Bids, b: int, c: Coord): real { Val(bids.benefit, (b, c)) }

  /** Stored bid `prior` beats the new bid `t` at the new bid's price by more
      than the tolerance 0.000001. */
  predicate Violates(bids: Bids, prior: int, t: BidTuple)
  {
    Benefit(bids, prior, t.coord) - Quantity(bids, prior, t.coord) * t.price
      > t.wtp - t.demand * t.price + 0.000001
  }

  function PairOf(bids: Bids, prior: int, b: int, t: BidTuple): NonConvexPair
  {
    NonConvexPair(t.coord, prior, Price(bids, prior, t.coord), Quantity(bids, prior, t.coord),
                  Benefit(bids, prior, t.coord), b, t.price, t.demand, t.wtp)
  }

  /** The pairs the inner loop over stored bids reports for one new bid. */
  function PairsFor(bids: Bids, priors: seq<int>, b: int, t: BidTuple): seq<NonConvexPair>
    decreases |priors|
  {
    if priors == [] then []
    else
      var prior := priors[|priors| - 1];
      PairsFor(bids, priors[..|priors| - 1], b, t) + (if Violates(bids, prior, t) then [PairOf(bids, prior, b, t)] else [])
  }

  /** All pairs reported, new bids in order outer, stored bids in order inner. */
  function NonConvexPairs(bids: Bids, b: int, ts: seq<BidTuple>): seq<NonConvexPair>
    decreases |ts|
  {
    if ts == [] then []
    else NonConvexPairs(bids, b, ts[..|ts| - 1]) + PairsFor(bids, bids.list, b, ts[|ts| - 1])
  }

  /** The index of the first bid with a negative quantity, if any. */
  function FirstNegative(ts: seq<BidTuple>): (r: Option<nat>)
    ensures r.None? <==> forall i :: 0 <= i < |ts| ==> ts[i].demand >= 0.0
    ensures r.Some? ==> r.value < |ts| && ts[r.value].demand < 0.0 &&
                        forall i :: 0 <= i < r.value ==> ts[i].demand >= 0.0
    decreases |ts|
  {
    if ts == [] then None
    else if ts[0].demand < 0.0 then Some(0)
    else
      match FirstNegative(ts[1..])
      case None => None
      case Some(k) => Some(k + 1)
  }

  function KeyFor(b: int): BidTuple -> BidKey { (t: BidTuple) => (b, t.coord) }
  function TupleDemand(t: BidTuple): real { t.demand }
  function TuplePrice(t: BidTuple): real { t.price }
  function TupleWtp(t: BidTuple): real { t.wtp }

  /** The store after the write loop has finished the benefit entries of
      ts[..nb] and the quantity and price entries of ts[..nq]. */
  function Written(bids: Bids, b: int, ts: seq<BidTuple>, nb: nat, nq: nat): Bids
    requires nq <= nb <= |ts|
  {
    Bids(bids.list + [b],
         FoldWrite(bids.quantity, ts[..nq], KeyFor(b), TupleDemand),
         FoldWrite(bids.price, ts[..nq], KeyFor(b), TuplePrice),
         FoldWrite(bids.benefit, ts[..nb], KeyFor(b), TupleWtp))
  }

  /** add_bids: the new store and the outcome. A non-convex set of bids is
      refused before anything changes; a negative quantity is refused by the
      parameter's domain after the bid number and the earlier entries are in. */
  function AddBidsSpec(bids: Bids, ts: seq<BidTuple>): (Bids, Result<int, AddBidsError>)
  {
    var b := NewBidId(bids.list);
    var pairs := NonConvexPairs(bids, b, ts);
    if pairs != [] then (bids, Err(NonConvex(pairs)))
    else match FirstNegative(ts)
      case Some(k) => (Written(bids, b, ts, k + 1, k), Err(NegativeQuantity(k)))
      case None => (Written(bids, b, ts, |ts|, |ts|), Ok(b))
  }

  /** The non-convexity check of add_bids: every new bid against every
      stored bid, the violations appended in that order. */
  method CollectNonConvexPairs(bids: Bids, b: int, ts: seq<BidTuple>) returns (pairs: seq<NonConvexPair>)
    ensures pairs == NonConvexPairs(bids, b, ts)
  {
    pairs := [];
    for i := 0 to |ts|
      invariant pairs == NonConvexPairs(bids, b, ts[..i])
    {
      assert ts[..i + 1][..i] == ts[..i];
      var found := CollectPairsFor(bids, b, ts[i]);
      pairs := pairs + found;
    }
    assert ts[..|ts|] == ts;
  }

  /** The inner loop: the stored bids that beat one new bid. */
  method CollectPairsFor(bids: Bids, b: int, t: BidTuple) returns (pairs: seq<NonConvexPair>)
    ensures pairs == PairsFor(bids, bids.list, b, t)
  {
    pairs := [];
    for j := 0 to |bids.list|
      invariant pairs == PairsFor(bids, bids.list[..j], b, t)
    {
      var prior := bids.list[j];
      assert bids.list[..j + 1][..j] == bids.list[..j];
      if Violates(bids, prior, t) {
        pairs := pairs + [PairOf(bids, prior, b, t)];
      }
    }
    assert bids.list[..|bids.list|] == bids.list;
  }

  /** The write loop of add_bids, once the bids are accepted: list the new
      number, then per bid its benefit, quantity and price; a negative
      quantity is refused by dr_bid's domain. */
  method WriteBids(bids: Bids, b: int, ts: seq<BidTuple>) returns (out: Bids, r: Result<int, AddBidsError>)
    ensures FirstNegative(ts).None? ==> out == Written(bids, b, ts, |ts|, |ts|) && r == Ok(b)
    ensures FirstNegative(ts).Some? ==>
              var k := FirstNegative(ts).value;
              out == Written(bids, b, ts, k + 1, k) && r == Err(NegativeQuantity(k))
  {
    assert ts[..0] == [];
    out := bids.(list := bids.list + [b]);
    for i := 0 to |ts|
      invariant out == Written(bids, b, ts, i, i)
      invariant forall j :: 0 <= j < i ==> ts[j].demand >= 0.0
    {
      var t := ts[i];
      assert ts[..i + 1][..i] == ts[..i];
      out := out.(benefit := out.benefit[(b, t.coord) := t.wtp]);
      if t.demand < 0.0 {
        assert out == Written(bids, b, ts, i + 1, i);
        return out, Err(NegativeQuantity(i));
      }
      out := out.(quantity := out.quantity[(b, t.coord) := t.demand],
                  price := out.price[(b, t.coord) := t.price]);
    }
    r := Ok(b);
  }

  /** Every reported pair is a genuine violation of the tolerance. */
  lemma {:induction false} PairsForSound(bids: Bids, priors: seq<int>, b: int, t: BidTuple, x: NonConvexPair)
    requires x in PairsFor(bids, priors, b, t)
    ensures x.priorBid in priors && x.coord == t.coord && x.newBid == b
    ensures x.priorWtp - x.priorDemand * x.price > x.wtp - x.demand * x.price + 0.000001
    decreases |priors|
  {
    var last := priors[|priors| - 1];
    var init := priors[..|priors| - 1];
    if x in PairsFor(bids, init, b, t) {
      PairsForSound(bids, init, b, t, x);
      assert init[..] <= priors;
    } else {
      assert x == PairOf(bids, last, b, t);
    }
  }

  /** No pair is reported for a bid exactly when no stored bid beats it. */
  lemma {:induction false} PairsForEmpty(bids: Bids, priors: seq<int>, b: int, t: BidTuple)
    ensures PairsFor(bids, priors, b, t) == [] <==> forall p :: p in priors ==> !Violates(bids, p, t)
    decreases |priors|
  {
    if priors != [] {
      var init := priors[..|priors| - 1];
      PairsForEmpty(bids, init, b, t);
      assert priors == init + [priors[|priors| - 1]];
    }
  }

  /** add_bids refuses the new bids exactly when some stored bid beats one of them. */
  lemma {:induction false} NonConvexPairsEmpty(bids: Bids, b: int, ts: seq<BidTuple>)
    ensures NonConvexPairs(bids, b, ts) == [] <==>
            forall t, p :: t in ts && p in bids.list ==> !Violates(bids, p, t)
    decreases |ts|
  {
    if ts != [] {
      var init := ts[..|ts| - 1];
      var last := ts[|ts| - 1];
      NonConvexPairsEmpty(bids, b, init);
      PairsForEmpty(bids, bids.list, b, last);
      assert ts == init + [last];
    }
  }

  /** A refused set of bids leaves the store as it was. */
  lemma AddBidsRejectUnchanged(bids: Bids, ts: seq<BidTuple>)
    requires AddBidsSpec(bids, ts).1.Err? && AddBidsSpec(bids, ts).1.error.NonConvex?
    ensures AddBidsSpec(bids, ts).0 == bids
  {
  }

  /** An accepted set of bids is stored under a fresh, larger number and keeps
      the store well formed. */
  lemma AddBidsPreservesWellFormed(bids: Bids, ts: seq<BidTuple>)
    requires WellFormed(bids)
    ensures WellFormed(AddBidsSpec(bids, ts).0)
  {
    var b := NewBidId(bids.list);
    if NonConvexPairs(bids, b, ts) == [] {
      match FirstNegative(ts)
      case Some(k) => WrittenWellFormed(bids, ts, k + 1, k);
      case None => WrittenWellFormed(bids, ts, |ts|, |ts|);
    }
  }

  /** Listing the new number and writing entries under it keeps the store well formed. */
  lemma WrittenWellFormed(bids: Bids, ts: seq<BidTuple>, nb: nat, nq: nat)
    requires WellFormed(bids) && nq <= nb <= |ts|
    ensures WellFormed(Written(bids, NewBidId(bids.list), ts, nb, nq))
  {
    var b := NewBidId(bids.list);
    var list := bids.list + [b];
    forall i, j | 0 <= i < j < |list| ensures list[i] < list[j] {
      if j == |bids.list| {
        assert bids.list[i] in bids.list;
      }
    }
    WrittenKeysListed(bids.quantity, list, b, ts, nq, TupleDemand);
    WrittenKeysListed(bids.price, list, b, ts, nq, TuplePrice);
    WrittenKeysListed(bids.benefit, list, b, ts, nb, TupleWtp);
  }

  lemma WrittenKeysListed(m: map<BidKey, real>, list: seq<int>, b: int, ts: seq<BidTuple>, n: nat, val: BidTuple -> real)
    requires n <= |ts|
    requires b in list
    requires forall k :: k in m ==> k.0 in list
    ensures forall k :: k in FoldWrite(m, ts[..n], KeyFor(b), val) ==> k.0 in list
  {
    forall k | k in FoldWrite(m, ts[..n], KeyFor(b), val) ensures k.0 in list {
      if k.0 != b {
        FoldWriteOther(m, ts[..n], KeyFor(b), val, k);
      }
    }
  }

  /** Storing a new bid leaves every entry of every other bid as it was. */
  lemma AddBidsKeepsOtherBids(bids: Bids, ts: seq<BidTuple>, k: BidKey)
    requires k.0 != NewBidId(bids.list)
    ensures var after := AddBidsSpec(bids, ts).0;
            (k in after.quantity <==> k in bids.quantity) && (k in bids.quantity ==> after.quantity[k] == bids.quantity[k]) &&
            (k in after.price <==> k in bids.price) && (k in bids.price ==> after.price[k] == bids.price[k]) &&
            (k in after.benefit <==> k in bids.benefit) && (k in bids.benefit ==> after.benefit[k] == bids.benefit[k])
  {
    var b := NewBidId(bids.list);
    forall n: nat | n <= |ts|
      ensures (k in FoldWrite(bids.quantity, ts[..n], KeyFor(b), TupleDemand) <==> k in bids.quantity)
      ensures k in bids.quantity ==> FoldWrite(bids.quantity, ts[..n], KeyFor(b), TupleDemand)[k] == bids.quantity[k]
      ensures (k in FoldWrite(bids.price, ts[..n], KeyFor(b), TuplePrice) <==> k in bids.price)
      ensures k in bids.price ==> FoldWrite(bids.price, ts[..n], KeyFor(b), TuplePrice)[k] == bids.price[k]
      ensures (k in FoldWrite(bids.benefit, ts[..n], KeyFor(b), TupleWtp) <==> k in bids.benefit)
      ensures k in bids.benefit ==> FoldWrite(bids.benefit, ts[..n], KeyFor(b), TupleWtp)[k] == bids.benefit[k]
    {
      FoldWriteOther(bids.quantity, ts[..n], KeyFor(b), TupleDemand, k);
      FoldWriteOther(bids.price, ts[..n], KeyFor(b), TuplePrice, k);
      FoldWriteOther(bids.benefit, ts[..n], KeyFor(b), TupleWtp, k);
    }
  }

  /** When the bids are accepted and name distinct coordinates, the new bid's
      entries are exactly the bids' demand, price and willingness to pay. */
  lemma AddBidsStoresTuples(bids: Bids, ts: seq<BidTuple>, i: nat)
    requires AddBidsSpec(bids, ts).1.Ok?
    requires i < |ts|
    requires forall a, c :: 0 <= a < c < |ts| ==> ts[a].coord != ts[c].coord
    ensures var after := AddBidsSpec(bids, ts).0;
            var b := AddBidsSpec(bids, ts).1.value;
            b == NewBidId(bids.list) && after.list == bids.list + [b] &&
            Quantity(after, b, ts[i].coord) == ts[i].demand &&
            Price(after, b, ts[i].coord) == ts[i].price &&
            Benefit(after, b, ts[i].coord) == ts[i].wtp
  {
    var b := NewBidId(bids.list);
    assert ts[..|ts|] == ts;
    FoldWriteAt(bids.quantity, ts, KeyFor(b), TupleDemand, i);
    FoldWriteAt(bids.price, ts, KeyFor(b), TuplePrice, i);
    FoldWriteAt(bids.benefit, ts, KeyFor(b), TupleWtp, i);
  }

  /** A stored bid of 5 units at price 10 worth 0, and a new bid of 5 units at
      price 10 worth -1: the new bid is worse and add_bids refuses it. */
  lemma RejectsDominatedBid()
    ensures var c := Coord("z", 1, RC);
            var stored := Bids([1], map[(1, c) := 5.0], map[(1, c) := 10.0], map[(1, c) := 0.0]);
            AddBidsSpec(stored, [BidTuple(c, 10.0, 5.0, -1.0)]).1 ==
              Err(NonConvex([NonConvexPair(c, 1, 10.0, 5.0, 0.0, 2, 10.0, 5.0, -1.0)]))
  {
    var c := Coord("z", 1, RC);
    var stored := Bids([1], map[(1, c) := 5.0], map[(1, c) := 10.0], map[(1, c) := 0.0]);
    var t := BidTuple(c, 10.0, 5.0, -1.0);
    assert [1][..0] == [];
    assert Violates(stored, 1, t);
    assert PairsFor(stored, [1], 2, t) == [PairOf(stored, 1, 2, t)];
    assert [t][..0] == [];
  }
}

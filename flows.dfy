/** Flows along directional corridors in one timeseries: what a zone sends
    out along its connections and what it receives, after the corridor's
    efficiency. Gas lines (GlGasSent, GlGasReceived, GLGasNet) and LNG
    shipments (LNGShipped, LNGReceived, SumLNGShipped, SumLNGReceived) are
    both of this form. */
module Flows {
  import opened Common
  import opened Corridors

  /** DispatchGl or LNGShipped: solver values keyed (zone_from, zone_to, ts). */
  type Flow = map<(Zone, Zone, Timeseries), real>

  /** gl_efficiency / LNG_ship_efficiency (default 1) of the corridor a
      directional pair maps to. */
  function Efficiency(links: seq<Link>, eff: map<string, real>, a: Zone, b: Zone): real
  {
    match CorridorOf(links, a, b)
    case None => 1.0
    case Some(l) => ValOr(eff, l, 1.0)
  }

  function ReceivedTerm(links: seq<Link>, flow: Flow, eff: map<string, real>, z: Zone, ts: Timeseries): Zone -> real
  {
    zf => Val(flow, (zf, z, ts)) * Efficiency(links, eff, zf, z)
  }

  function SentTerm(flow: Flow, z: Zone, ts: Timeseries): Zone -> real
  {
    zt => Val(flow, (z, zt, ts))
  }

  /** Gas received into z: Σ over the zones connected to z of the flow from
      them times the corridor's efficiency. */
  function ReceivedInto(zones: seq<Zone>, links: seq<Link>, flow: Flow, eff: map<string, real>,
                        z: Zone, ts: Timeseries): real
  {
    SumOf(ConnectionsTo(zones, Directional(links), z), ReceivedTerm(links, flow, eff, z, ts))
  }

  /** Gas sent out of z: Σ over the zones connected to z of the flow towards them. */
  function SentFrom(zones: seq<Zone>, links: seq<Link>, flow: Flow, z: Zone, ts: Timeseries): real
  {
    SumOf(ConnectionsTo(zones, Directional(links), z), SentTerm(flow, z, ts))
  }

  /** GLGasNet[z, ts]: received minus sent. */
  function NetInto(zones: seq<Zone>, links: seq<Link>, flow: Flow, eff: map<string, real>,
                   z: Zone, ts: Timeseries): real
  {
    ReceivedInto(zones, links, flow, eff, z, ts) - SentFrom(zones, links, flow, z, ts)
  }

  /** The flows of a solution are non-negative (NonNegativeReals) and the
      efficiencies are fractions (PercentFraction). */
  predicate Physical(flow: Flow, eff: map<string, real>)
  {
    && (forall k :: k in flow ==> flow[k] >= 0.0)
    && (forall l :: l in eff ==> 0.0 <= eff[l] <= 1.0)
  }

  predicate Lossless(eff: map<string, real>)
  {
    forall l :: l in eff ==> eff[l] == 1.0
  }

  lemma EfficiencyFraction(links: seq<Link>, eff: map<string, real>, a: Zone, b: Zone)
    requires forall l :: l in eff ==> 0.0 <= eff[l] <= 1.0
    ensures 0.0 <= Efficiency(links, eff, a, b) <= 1.0
    ensures Lossless(eff) ==> Efficiency(links, eff, a, b) == 1.0
  {
  }

  lemma ScaledBelow(x: real, e: real)
    requires x >= 0.0 && 0.0 <= e <= 1.0
    ensures 0.0 <= x * e <= x
  {
  }

  /** GlGasSent is the dispatch, GlGasReceived the dispatch times the
      efficiency: a corridor never delivers more than it carries. */
  lemma ReceivedAtMostSent(links: seq<Link>, flow: Flow, eff: map<string, real>, zf: Zone, z: Zone, ts: Timeseries)
    requires Physical(flow, eff)
    ensures 0.0 <= ReceivedTerm(links, flow, eff, z, ts)(zf) <= SentTerm(flow, zf, ts)(z)
  {
    EfficiencyFraction(links, eff, zf, z);
    var x, e := Val(flow, (zf, z, ts)), Efficiency(links, eff, zf, z);
    assert x >= 0.0;
    ScaledBelow(x, e);
    assert ReceivedTerm(links, flow, eff, z, ts)(zf) == x * e;
    assert SentTerm(flow, zf, ts)(z) == x;
  }

  function GuardedReceived(links: seq<Link>, flow: Flow, eff: map<string, real>, ts: Timeseries): Zone -> Zone -> real
  {
    z => zf => if (zf, z) in Directional(links) then ReceivedTerm(links, flow, eff, z, ts)(zf) else 0.0
  }

  function GuardedReceivedT(links: seq<Link>, flow: Flow, eff: map<string, real>, ts: Timeseries): Zone -> Zone -> real
  {
    zf => z => if (zf, z) in Directional(links) then ReceivedTerm(links, flow, eff, z, ts)(zf) else 0.0
  }

  function GuardedSent(links: seq<Link>, flow: Flow, ts: Timeseries, zf: Zone): Zone -> real
  {
    z => if (z, zf) in Directional(links) then SentTerm(flow, zf, ts)(z) else 0.0
  }

  function ReceivedFn(zones: seq<Zone>, links: seq<Link>, flow: Flow, eff: map<string, real>, ts: Timeseries): Zone -> real
  {
    z => ReceivedInto(zones, links, flow, eff, z, ts)
  }

  function SentFn(zones: seq<Zone>, links: seq<Link>, flow: Flow, ts: Timeseries): Zone -> real
  {
    z => SentFrom(zones, links, flow, z, ts)
  }

  function NetFn(zones: seq<Zone>, links: seq<Link>, flow: Flow, eff: map<string, real>, ts: Timeseries): Zone -> real
  {
    z => NetInto(zones, links, flow, eff, z, ts)
  }

  function ColumnFn(zones: seq<Zone>, links: seq<Link>, flow: Flow, eff: map<string, real>, ts: Timeseries): Zone -> real
  {
    zf => SumOf(zones, GuardedReceivedT(links, flow, eff, ts)(zf))
  }

  /** The received total written as a double sum over zone pairs. */
  lemma ReceivedAsPairs(zones: seq<Zone>, links: seq<Link>, flow: Flow, eff: map<string, real>, ts: Timeseries)
    ensures SumOf(zones, ReceivedFn(zones, links, flow, eff, ts)) == SumOf(zones, ColumnFn(zones, links, flow, eff, ts))
  {
    var g := GuardedReceived(links, flow, eff, ts);
    var h := GuardedReceivedT(links, flow, eff, ts);
    var rows := ReceivedFn(zones, links, flow, eff, ts);
    forall z | true ensures rows(z) == SumOf(zones, g(z)) {
      var into := zf => (zf, z) in Directional(links);
      assert ConnectionsTo(zones, Directional(links), z) == Filter(zones, into);
      SumOfFilter(zones, into, ReceivedTerm(links, flow, eff, z, ts), g(z));
    }
    SumOfExchange(zones, zones, g, h, rows, ColumnFn(zones, links, flow, eff, ts));
  }

  lemma SentAsGuarded(zones: seq<Zone>, links: seq<Link>, flow: Flow, ts: Timeseries, zf: Zone)
    ensures SentFrom(zones, links, flow, zf, ts) == SumOf(zones, GuardedSent(links, flow, ts, zf))
  {
    var into := z => (z, zf) in Directional(links);
    assert ConnectionsTo(zones, Directional(links), zf) == Filter(zones, into);
    SumOfFilter(zones, into, SentTerm(flow, zf, ts), GuardedSent(links, flow, ts, zf));
  }

  /** What zf's corridors deliver at the other end is at most what zf sends. */
  lemma ColumnBelowSent(zones: seq<Zone>, links: seq<Link>, flow: Flow, eff: map<string, real>, ts: Timeseries, zf: Zone)
    requires Physical(flow, eff)
    ensures ColumnFn(zones, links, flow, eff, ts)(zf) <= SentFn(zones, links, flow, ts)(zf)
    ensures Lossless(eff) ==> ColumnFn(zones, links, flow, eff, ts)(zf) == SentFn(zones, links, flow, ts)(zf)
  {
    SentAsGuarded(zones, links, flow, ts, zf);
    var a := GuardedReceivedT(links, flow, eff, ts)(zf);
    var b := GuardedSent(links, flow, ts, zf);
    forall z | z in zones ensures a(z) <= b(z) && (Lossless(eff) ==> a(z) == b(z)) {
      DirectionalSymmetric(links, zf, z);
      ReceivedAtMostSent(links, flow, eff, zf, z, ts);
      EfficiencyFraction(links, eff, zf, z);
    }
    SumOfMonotone(zones, a, b);
    if Lossless(eff) {
      SumOfCongruent(zones, a, b);
    }
  }

  /** Over all zones, corridors deliver at most what they carry, and exactly
      that when they are lossless: with gl_efficiency 1 the GLGasNet
      injections of all zones sum to zero. */
  lemma NetworkConserves(zones: seq<Zone>, links: seq<Link>, flow: Flow, eff: map<string, real>, ts: Timeseries)
    requires Physical(flow, eff)
    ensures SumOf(zones, ReceivedFn(zones, links, flow, eff, ts)) <= SumOf(zones, SentFn(zones, links, flow, ts))
    ensures Lossless(eff) ==>
              SumOf(zones, ReceivedFn(zones, links, flow, eff, ts)) == SumOf(zones, SentFn(zones, links, flow, ts))
    ensures Lossless(eff) ==> SumOf(zones, NetFn(zones, links, flow, eff, ts)) == 0.0
  {
    ReceivedAsPairs(zones, links, flow, eff, ts);
    var col := ColumnFn(zones, links, flow, eff, ts);
    var sent := SentFn(zones, links, flow, ts);
    forall zf | zf in zones ensures col(zf) <= sent(zf) && (Lossless(eff) ==> col(zf) == sent(zf)) {
      ColumnBelowSent(zones, links, flow, eff, ts, zf);
    }
    SumOfMonotone(zones, col, sent);
    if Lossless(eff) {
      SumOfCongruent(zones, col, sent);
    }
    SumOfSub(zones, ReceivedFn(zones, links, flow, eff, ts), sent, NetFn(zones, links, flow, eff, ts));
  }
}

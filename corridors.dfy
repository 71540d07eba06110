/** The corridors of the gas network: gas lines between two gas zones, and
    LNG routes, which are built the same way. Each corridor gives two
    directional pairs, a zone's connections are the zones with a pair into
    it, and a directional pair is mapped back to the first corridor that
    joins its two zones. */
module Corridors {
  import opened Common

  /** A gas line (GAS_LINES with gas_line_gz1/gz2) or an LNG route
      (LNG_ROUTE with LNG_route_gz1/gz2). */
  datatype Link = Link(name: string, gz1: Zone, gz2: Zone)

  /** The corridor joins a and b, in either orientation. */
  predicate Joins(l: Link, a: Zone, b: Zone)
  {
    (l.gz1 == a && l.gz2 == b) || (l.gz2 == a && l.gz1 == b)
  }

  /** The set the initialiser builds: both orientations of every corridor. */
  function Directional(links: seq<Link>): set<(Zone, Zone)>
    decreases |links|
  {
    if links == [] then {}
    else
      var l := links[|links| - 1];
      Directional(links[..|links| - 1]) + {(l.gz1, l.gz2), (l.gz2, l.gz1)}
  }

  /** A pair is directional exactly when some corridor joins its zones. */
  lemma {:induction false} DirectionalMembers(links: seq<Link>, a: Zone, b: Zone)
    ensures (a, b) in Directional(links) <==> exists i :: 0 <= i < |links| && Joins(links[i], a, b)
    decreases |links|
  {
    if links != [] {
      var n := |links| - 1;
      var front := links[..n];
      DirectionalMembers(front, a, b);
      if (a, b) in Directional(front) {
        var i :| 0 <= i < |front| && Joins(front[i], a, b);
        assert links[i] == front[i];
      }
      if exists i :: 0 <= i < |links| && Joins(links[i], a, b) {
        var i :| 0 <= i < |links| && Joins(links[i], a, b);
        if i < n {
          assert front[i] == links[i];
        }
      }
    }
  }

  /** DIRECTIONAL_GL and DIRECTIONAL_ROUTE are symmetric. */
  lemma DirectionalSymmetric(links: seq<Link>, a: Zone, b: Zone)
    ensures (a, b) in Directional(links) <==> (b, a) in Directional(links)
  {
    DirectionalMembers(links, a, b);
    DirectionalMembers(links, b, a);
    if exists i :: 0 <= i < |links| && Joins(links[i], a, b) {
      var i :| 0 <= i < |links| && Joins(links[i], a, b);
      assert Joins(links[i], b, a);
    }
    if exists i :: 0 <= i < |links| && Joins(links[i], b, a) {
      var i :| 0 <= i < |links| && Joins(links[i], b, a);
      assert Joins(links[i], a, b);
    }
  }

  /** init_DIRECTIONAL_GL / init_DIRECTIONAL_ROUTE: add both orientations of
      each corridor to a set. */
  method BuildDirectional(links: seq<Link>) returns (dirs: set<(Zone, Zone)>)
    ensures dirs == Directional(links)
  {
    dirs := {};
    for i := 0 to |links|
      invariant dirs == Directional(links[..i])
    {
      assert links[..i + 1][..i] == links[..i];
      dirs := dirs + {(links[i].gz1, links[i].gz2)};
      dirs := dirs + {(links[i].gz2, links[i].gz1)};
    }
    assert links[..|links|] == links;
  }

  /** GL_CONNECTIONS_TO_ZONE[gz] / LNG_TRANSPORTIONS_TO_ZONE[gz]: the zones,
      in zone order, with a directional pair into gz. */
  function ConnectionsTo(zones: seq<Zone>, dirs: set<(Zone, Zone)>, gz: Zone): (r: seq<Zone>)
    ensures forall z :: z in r <==> z in zones && (z, gz) in dirs
    ensures Distinct(zones) ==> Distinct(r)
  {
    var into := z => (z, gz) in dirs;
    if Distinct(zones) then FilterDistinct(zones, into); Filter(zones, into)
    else Filter(zones, into)
  }

  /** Connection is mutual: a is connected to b exactly when b is connected to a. */
  lemma ConnectionsMutual(links: seq<Link>, zones: seq<Zone>, a: Zone, b: Zone)
    requires a in zones && b in zones
    ensures a in ConnectionsTo(zones, Directional(links), b) <==> b in ConnectionsTo(zones, Directional(links), a)
  {
    DirectionalSymmetric(links, a, b);
  }

  /** The position of the first corridor that joins a and b. */
  function FirstJoining(links: seq<Link>, a: Zone, b: Zone): (r: Option<nat>)
    ensures r.Some? ==> r.value < |links| && Joins(links[r.value], a, b)
    ensures r.Some? ==> forall j :: 0 <= j < r.value ==> !Joins(links[j], a, b)
    ensures r.None? <==> forall i :: 0 <= i < |links| ==> !Joins(links[i], a, b)
    decreases |links|
  {
    if links == [] then None
    else if Joins(links[0], a, b) then Some(0)
    else
      match FirstJoining(links[1..], a, b)
      case None => None
      case Some(k) => Some(k + 1)
  }

  /** init_gas_d_line / init_LNG_d_route: the name of the first corridor in
      declared order joining the two zones (None, Python's implicit return,
      when there is none). */
  function CorridorOf(links: seq<Link>, zoneFrom: Zone, zoneTo: Zone): Option<string>
  {
    match FirstJoining(links, zoneFrom, zoneTo)
    case None => None
    case Some(i) => Some(links[i].name)
  }

  /** The search loop of init_gas_d_line, returning at the first match. */
  method FindCorridor(links: seq<Link>, zoneFrom: Zone, zoneTo: Zone) returns (r: Option<string>)
    ensures r == CorridorOf(links, zoneFrom, zoneTo)
  {
    for i := 0 to |links|
      invariant forall j :: 0 <= j < i ==> !Joins(links[j], zoneFrom, zoneTo)
    {
      var l := links[i];
      if (l.gz1 == zoneFrom && l.gz2 == zoneTo) || (l.gz2 == zoneFrom && l.gz1 == zoneTo) {
        return Some(l.name);
      }
    }
    return None;
  }

  lemma {:induction false} FirstJoiningSymmetric(links: seq<Link>, a: Zone, b: Zone)
    ensures FirstJoining(links, a, b) == FirstJoining(links, b, a)
    decreases |links|
  {
    if links != [] {
      FirstJoiningSymmetric(links[1..], a, b);
    }
  }

  /** gas_d_line[a, b] == gas_d_line[b, a]: both directions of a pair map to
      the same corridor. */
  lemma CorridorOfSymmetric(links: seq<Link>, a: Zone, b: Zone)
    ensures CorridorOf(links, a, b) == CorridorOf(links, b, a)
  {
    FirstJoiningSymmetric(links, a, b);
  }

  /** Every directional pair has a corridor, and that corridor joins the pair's zones. */
  lemma DirectionalHasCorridor(links: seq<Link>, a: Zone, b: Zone)
    requires (a, b) in Directional(links)
    ensures CorridorOf(links, a, b).Some?
    ensures exists i :: 0 <= i < |links| && links[i].name == CorridorOf(links, a, b).value && Joins(links[i], a, b)
  {
    DirectionalMembers(links, a, b);
    var i := FirstJoining(links, a, b).value;
    assert links[i].name == CorridorOf(links, a, b).value;
  }
}

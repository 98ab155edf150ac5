/**
 The stop ledger of `src/components/Map.jsx`: the user's chosen stops, appended one at
 a time by `addStop` and deduplicated by `place_id`, and the recalculated route request
 that `recalculateRoute` builds from them (one stopover waypoint per stop, in ledger order).
 */
module StopLedger {
  import opened Common
  import opened Discovery

  /** Some stop in the ledger has this place id (`stops.some(stop => stop.place_id === id)`). */
  predicate HasStop(stops: seq<Charger>, placeId: string) {
    exists s :: s in stops && s.placeId == placeId
  }

  /** No two stops share a place id. */
  predicate DistinctIds(stops: seq<Charger>) {
    forall i, j :: 0 <= i < j < |stops| ==> stops[i].placeId != stops[j].placeId
  }

  function IdsOf(stops: seq<Charger>): set<string> {
    set s | s in stops :: s.placeId
  }

  /** Adds a charger as a stop: appended at the end exactly when no stop has its
      place id, otherwise the ledger is left as it was. Existing stops are never
      reordered or removed, and place ids stay distinct. */
  function AddStop(stops: seq<Charger>, charger: Charger): (r: seq<Charger>)
    ensures |stops| <= |r| <= |stops| + 1 && r[..|stops|] == stops
    ensures |r| == |stops| + 1 <==> !HasStop(stops, charger.placeId)
    ensures |r| == |stops| + 1 ==> r[|stops|] == charger
    ensures HasStop(r, charger.placeId)
    ensures DistinctIds(stops) ==> DistinctIds(r)
  {
    if HasStop(stops, charger.placeId) then stops
    else
      var r := stops + [charger];
      assert r[|stops|] in r;
      assert DistinctIds(stops) ==> DistinctIds(r) by {
        if DistinctIds(stops) {
          forall i, j | 0 <= i < j < |r|
            ensures r[i].placeId != r[j].placeId
          {
            if j == |stops| {
              assert stops[i] in stops;
            }
          }
        }
      }
      r
  }

  /** Adding the same charger twice is adding it once. */
  lemma AddStopIdempotent(stops: seq<Charger>, charger: Charger)
    ensures AddStop(AddStop(stops, charger), charger) == AddStop(stops, charger)
  {
  }

  /** The ledger after a series of "Add as Stop" clicks, in click order. */
  function AddStops(stops: seq<Charger>, clicked: seq<Charger>): seq<Charger>
    decreases |clicked|
  {
    if |clicked| == 0 then stops else AddStops(AddStop(stops, clicked[0]), clicked[1..])
  }

  /** After any series of clicks the ledger holds each clicked place id exactly once,
      keeps the stops it had as a prefix, and holds nothing else. */
  lemma {:induction false} AddStopsLedger(stops: seq<Charger>, clicked: seq<Charger>)
    requires DistinctIds(stops)
    ensures DistinctIds(AddStops(stops, clicked))
    ensures IdsOf(AddStops(stops, clicked)) == IdsOf(stops) + IdsOf(clicked)
    ensures |stops| <= |AddStops(stops, clicked)| && AddStops(stops, clicked)[..|stops|] == stops
    decreases |clicked|
  {
    if |clicked| > 0 {
      var next := AddStop(stops, clicked[0]);
      AddStopsLedger(next, clicked[1..]);
      assert IdsOf(next) == IdsOf(stops) + {clicked[0].placeId} by {
        if HasStop(stops, clicked[0].placeId) {
          var s :| s in stops && s.placeId == clicked[0].placeId;
        } else {
          assert next == stops + [clicked[0]];
          assert forall s :: s in next <==> s in stops || s == clicked[0];
        }
      }
      assert IdsOf(clicked) == {clicked[0].placeId} + IdsOf(clicked[1..]) by {
        assert forall s :: s in clicked <==> s == clicked[0] || s in clicked[1..];
      }
      var r := AddStops(next, clicked[1..]);
      assert r[..|stops|] == r[..|next|][..|stops|];
    }
  }

  /** A waypoint of the recalculated route. */
  datatype Waypoint = Waypoint(location: LatLng, stopover: bool)

  /** A driving-directions request from `origin` to `destination` through `waypoints`, in order. */
  datatype RouteRequest = RouteRequest(origin: LatLng, destination: LatLng, waypoints: seq<Waypoint>)

  /** One stopover waypoint per stop, in ledger order, at the stop's coordinates. */
  function Waypoints(stops: seq<Charger>): (w: seq<Waypoint>)
    ensures |w| == |stops|
    ensures forall i :: 0 <= i < |stops| ==> w[i].location == LatLng(stops[i].lat, stops[i].lng) && w[i].stopover
  {
    seq(|stops|, i requires 0 <= i < |stops| => Waypoint(LatLng(stops[i].lat, stops[i].lng), true))
  }

  /** Adding a new stop adds exactly its waypoint at the end of the route; a stop
      already present changes nothing. */
  lemma WaypointsOfAddStop(stops: seq<Charger>, charger: Charger)
    ensures !HasStop(stops, charger.placeId) ==>
              Waypoints(AddStop(stops, charger)) == Waypoints(stops) + [Waypoint(LatLng(charger.lat, charger.lng), true)]
    ensures HasStop(stops, charger.placeId) ==> Waypoints(AddStop(stops, charger)) == Waypoints(stops)
  {
  }

  /** `recalculateRoute`: no request at all when the start or the end is missing;
      otherwise a request from start to end through the stops' waypoints. */
  function RecalculateRoute(start: Option<LatLng>, end: Option<LatLng>, stops: seq<Charger>): (r: Option<RouteRequest>)
    ensures r.None? <==> start.None? || end.None?
    ensures r.Some? ==> r.value.origin == start.value && r.value.destination == end.value
    ensures r.Some? ==> |r.value.waypoints| == |stops|
    ensures r.Some? ==> forall i :: 0 <= i < |stops| ==>
              r.value.waypoints[i] == Waypoint(LatLng(stops[i].lat, stops[i].lng), true)
  {
    if start.None? || end.None? then None
    else Some(RouteRequest(start.value, end.value, Waypoints(stops)))
  }
}

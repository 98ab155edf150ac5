/**
 The state of the map component of `src/components/Map.jsx` that the planner logic
 touches (the candidate list, the stop ledger and the route totals), and its two
 transitions: a discovery run (`fetchRouteAndChargers`) and committing the stops
 (`setFinalRoute`).
 */
module MapView {
  import opened Common
  import opened Discovery
  import opened Annotation
  import opened StopLedger

  /** The callback of the main directions query: the overview path and the first
      leg's distance and duration texts, or a failure status. */
  datatype RouteResult =
    | RouteOk(overviewPath: seq<LatLng>, distanceText: string, durationText: string)
    | RouteFailed(status: string)

  datatype MapState = MapState(
    chargers: seq<Charger>,
    stops: seq<Charger>,
    totalDistance: string,
    totalTime: string)

  /** The state as the map first renders: no candidates, no stops, no totals. */
  const InitialMapState: MapState := MapState([], [], "", "")

  /** A discovery run, once every callback has fired. On a failed route nothing is
      queried and the state is kept. On OK the totals come from the first leg, one
      nearby search is issued per sample point, the candidate list is replaced by the
      merged and annotated candidates (distinct addresses, exactly the keys of the OK
      searches), and the stops are kept. */
  method FetchRouteAndChargers(
    s: MapState,
    start: LatLng,
    route: RouteResult,
    searches: seq<SearchResponse>,
    searchOrder: seq<nat>,
    legs: seq<LegOutcome>,
    legOrder: seq<nat>)
    returns (r: MapState, searchRequests: seq<NearbyRequest>, legRequests: seq<LegRequest>)
    requires route.RouteOk? ==>
               && |searches| == SampleCount(|route.overviewPath|)
               && IsArrivalOrder(searchOrder, |searches|)
               && |legs| == |DiscoverChargers(searches, searchOrder)|
               && IsArrivalOrder(legOrder, |legs|)
    ensures route.RouteFailed? ==> r == s && searchRequests == [] && legRequests == []
    ensures route.RouteOk? ==>
              && r.stops == s.stops
              && r.totalDistance == route.distanceText
              && r.totalTime == route.durationText
              && |searchRequests| == SampleCount(|route.overviewPath|)
              && (forall k :: 0 <= k < |searchRequests| ==>
                    && SampleStride * k < |route.overviewPath|
                    && searchRequests[k] == NearbyRequest(route.overviewPath[SampleStride * k], SearchRadiusMeters, SearchKeyword))
              && legRequests == LegRequests(start, DiscoverChargers(searches, searchOrder))
              && r.chargers == AnnotateAll(DiscoverChargers(searches, searchOrder), legs)
              && DistinctAddresses(r.chargers)
              && AddressesOf(r.chargers) == OkKeys(searches)
  {
    if route.RouteFailed? {
      return s, [], [];
    }
    searchRequests := SearchRequests(route.overviewPath);
    var found := DiscoverChargers(searches, searchOrder);
    legRequests := LegRequests(start, found);
    var annotated := AnnotateAsLegsArrive(found, legs, legOrder);
    AnnotateKeepsAddresses(found, legs);
    r := s.(chargers := annotated, totalDistance := route.distanceText, totalTime := route.durationText);
  }

  /** "Set Final Route": the candidate list is emptied, the stops and totals are
      kept, and the route is re-requested through the stops when start and end are
      both known. */
  function SetFinalRoute(s: MapState, start: Option<LatLng>, end: Option<LatLng>): (r: (MapState, Option<RouteRequest>))
    ensures r.0.chargers == [] && r.0.stops == s.stops
    ensures r.0.totalDistance == s.totalDistance && r.0.totalTime == s.totalTime
    ensures r.1.Some? <==> start.Some? && end.Some?
    ensures r.1.Some? ==> r.1.value.origin == start.value && r.1.value.destination == end.value
    ensures r.1.Some? ==> r.1.value.waypoints == Waypoints(s.stops)
  {
    (s.(chargers := []), RecalculateRoute(start, end, s.stops))
  }

  /** The final route depends only on the stops, never on the candidates on show,
      and committing twice is committing once. */
  lemma SetFinalRouteIgnoresCandidates(s1: MapState, s2: MapState, start: Option<LatLng>, end: Option<LatLng>)
    requires s1.stops == s2.stops && s1.totalDistance == s2.totalDistance && s1.totalTime == s2.totalTime
    ensures SetFinalRoute(s1, start, end) == SetFinalRoute(s2, start, end)
    ensures SetFinalRoute(SetFinalRoute(s1, start, end).0, start, end) == SetFinalRoute(s1, start, end)
  {
  }

  /** The "Set Final Route" button is rendered only while the ledger holds a stop,
      so `SetFinalRoute` is only ever called from such a state. */
  predicate FinalRouteOffered(s: MapState) {
    |s.stops| > 0
  }

  /** The first reachable commit: the button is hidden in the initial state, appears
      once the first stop is added, and committing then keeps exactly that stop and
      requests the route from start to end through its one stopover waypoint. */
  lemma SetFinalRouteAfterFirstStop(c: Charger, start: LatLng, end: LatLng)
    ensures !FinalRouteOffered(InitialMapState)
    ensures FinalRouteOffered(InitialMapState.(stops := AddStop([], c)))
    ensures SetFinalRoute(InitialMapState.(stops := AddStop([], c)), Some(start), Some(end))
              == (InitialMapState.(stops := [c]),
                  Some(RouteRequest(start, end, [Waypoint(LatLng(c.lat, c.lng), true)])))
  {
    assert AddStop([], c) == [c];
    assert Waypoints([c]) == [Waypoint(LatLng(c.lat, c.lng), true)];
  }
}

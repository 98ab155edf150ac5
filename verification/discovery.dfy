/**
 Charger discovery along a driving route (the first half of `fetchRouteAndChargers`
 in `src/components/Map.jsx`).

 The route's overview path is sampled at every fifth point; each sample point issues
 one nearby search for charging stations. The searches answer asynchronously, in an
 order the model takes as a parameter, and every answer with an OK status is merged
 into one candidate list that is deduplicated by address: the first place seen with
 an address wins and later places with that address are dropped.
 */
module Discovery {
  import opened Common

  /** Every `SampleStride`-th point of the route (indices 0, 5, 10, ...) is searched around. */
  const SampleStride: nat := 5
  /** Radius of each nearby search, in metres. */
  const SearchRadiusMeters: nat := 10000
  const SearchKeyword: string := "EV Charging Station"
  /** The address key given to a place whose `vicinity` is missing or empty. */
  const UnknownAddress: string := "Unknown Address"
  /** Placeholder shown for distance and time until the annotation stage has run. */
  const Calculating: string := "Calculating..."

  /** One nearby-search request: where, how far around, and what to look for. */
  datatype NearbyRequest = NearbyRequest(location: LatLng, radiusMeters: nat, keyword: string)

  /** A place as the nearby-search service reports it. */
  datatype Place = Place(
    location: LatLng,
    name: string,
    placeId: string,
    vicinity: Option<string>,
    rating: Option<real>)

  /** The callback of one nearby search: its status and, on OK, the places found. */
  datatype SearchResponse = SearchOk(results: seq<Place>) | SearchFailed(status: string)

  /** A candidate's rating: the place's stars, or the text "No rating". */
  datatype Rating = Stars(value: real) | NoRating

  /** A charging-station candidate as kept in the `chargers` list. */
  datatype Charger = Charger(
    lat: real,
    lng: real,
    name: string,
    placeId: string,
    address: string,
    rating: Rating,
    distanceFromStart: string,
    timeFromStart: string)

  /** The number of sample points of a path of `n` points: the indices below `n` that are multiples of the stride. */
  function SampleCount(n: nat): nat {
    (n + SampleStride - 1) / SampleStride
  }

  /** The nearby searches issued for a route path. Request `k` is centred on point
      `SampleStride * k`, so a point is searched around exactly when its index is a
      multiple of the stride (index 0 included), and no other point is. */
  method SearchRequests(path: seq<LatLng>) returns (requests: seq<NearbyRequest>)
    ensures |requests| == SampleCount(|path|)
    ensures forall k :: 0 <= k < |requests| ==>
              && SampleStride * k < |path|
              && requests[k] == NearbyRequest(path[SampleStride * k], SearchRadiusMeters, SearchKeyword)
    ensures forall i :: 0 <= i < |path| && i % SampleStride == 0 ==>
              i / SampleStride < |requests| && requests[i / SampleStride].location == path[i]
  {
    requests := [];
    var index := 0;
    while index < |path|
      invariant 0 <= index <= |path|
      invariant |requests| == SampleCount(index)
      invariant forall k :: 0 <= k < |requests| ==>
                  && SampleStride * k < index
                  && requests[k] == NearbyRequest(path[SampleStride * k], SearchRadiusMeters, SearchKeyword)
    {
      if index % SampleStride == 0 {
        requests := requests + [NearbyRequest(path[index], SearchRadiusMeters, SearchKeyword)];
      }
      index := index + 1;
    }
  }

  /** The dedup key of a place: its `vicinity`, or "Unknown Address" when that is
      missing or empty. The key is never empty. */
  function AddressKey(p: Place): (key: string)
    ensures Truthy(key)
    ensures p.vicinity.Some? && Truthy(p.vicinity.value) ==> key == p.vicinity.value
    ensures key != UnknownAddress ==> p.vicinity == Some(key)
    ensures p.vicinity.None? || p.vicinity == Some("") ==> key == UnknownAddress
  {
    if p.vicinity.Some? && Truthy(p.vicinity.value) then p.vicinity.value else UnknownAddress
  }

  /** The rating shown for a place: its stars when present and non-zero (zero is falsy), otherwise "No rating". */
  function RatingOf(p: Place): (r: Rating)
    ensures r.Stars? ==> p.rating == Some(r.value) && r.value != 0.0
    ensures r == NoRating ==> p.rating.None? || p.rating == Some(0.0)
  {
    if p.rating.Some? && p.rating.value != 0.0 then Stars(p.rating.value) else NoRating
  }

  /** Distance and time still show the "Calculating..." placeholder. */
  predicate IsPending(c: Charger) {
    c.distanceFromStart == Calculating && c.timeFromStart == Calculating
  }

  /** The candidate record created for a newly seen place. */
  function NewCharger(p: Place): (c: Charger)
    ensures IsPending(c)
    ensures c.placeId == p.placeId && c.name == p.name && LatLng(c.lat, c.lng) == p.location
    ensures c.address == AddressKey(p)
    ensures c.rating == RatingOf(p)
  {
    Charger(p.location.lat, p.location.lng, p.name, p.placeId, AddressKey(p), RatingOf(p), Calculating, Calculating)
  }

  function AddressesOf(cs: seq<Charger>): set<string> {
    set c | c in cs :: c.address
  }

  predicate DistinctAddresses(cs: seq<Charger>) {
    forall i, j :: 0 <= i < j < |cs| ==> cs[i].address != cs[j].address
  }

  function KeysOf(places: seq<Place>): set<string> {
    set p | p in places :: AddressKey(p)
  }

  /** The address keys of every place in every OK response; failed responses contribute none. */
  function OkKeys(responses: seq<SearchResponse>): set<string> {
    set r, p | r in responses && r.SearchOk? && p in r.results :: AddressKey(p)
  }

  /** The state shared by all search callbacks: the set of addresses seen so far
      (`uniqueAddresses`) and the candidate list (`allChargers`). */
  datatype Discovered = Discovered(seen: set<string>, chargers: seq<Charger>)

  const NothingDiscovered: Discovered := Discovered({}, [])

  /** The fold invariant: `seen` is exactly the set of candidate addresses, and no two candidates share one. */
  predicate Valid(d: Discovered) {
    d.seen == AddressesOf(d.chargers) && DistinctAddresses(d.chargers)
  }

  /** One place of one OK response: kept as a new candidate unless its address was seen already. */
  function MergePlace(d: Discovered, p: Place): (r: Discovered)
    ensures Valid(d) ==> Valid(r)
    ensures r.seen == d.seen + {AddressKey(p)}
    ensures AddressKey(p) in d.seen ==> r == d
    ensures AddressKey(p) !in d.seen ==> r.chargers == d.chargers + [NewCharger(p)]
  {
    var address := AddressKey(p);
    if address in d.seen then d
    else
      var r := Discovered(d.seen + {address}, d.chargers + [NewCharger(p)]);
      assert AddressesOf(r.chargers) == AddressesOf(d.chargers) + {address};
      assert Valid(d) ==> DistinctAddresses(r.chargers) by {
        if Valid(d) {
          forall i, j | 0 <= i < j < |r.chargers|
            ensures r.chargers[i].address != r.chargers[j].address
          {
            if j == |d.chargers| {
              assert r.chargers[i] == d.chargers[i];
              assert d.chargers[i] in d.chargers;
            }
          }
        }
      }
      r
  }

  /** The places of one OK response, merged in the order the service listed them. */
  function MergePlaces(d: Discovered, places: seq<Place>): (r: Discovered)
    decreases |places|
    ensures Valid(d) ==> Valid(r)
    ensures r.seen == d.seen + KeysOf(places)
    ensures GrowsByPending(d.chargers, r.chargers)
  {
    if |places| == 0 then d
    else
      KeysOfFirstAndRest(places);
      var next := MergePlace(d, places[0]);
      var r := MergePlaces(next, places[1..]);
      GrowsByPendingTransitive(d.chargers, next.chargers, r.chargers);
      r
  }

  lemma KeysOfFirstAndRest(places: seq<Place>)
    requires |places| > 0
    ensures KeysOf(places) == {AddressKey(places[0])} + KeysOf(places[1..])
  {
    assert forall p :: p in places <==> p == places[0] || p in places[1..];
  }

  lemma OkKeysOfFirstAndRest(arrived: seq<SearchResponse>)
    requires |arrived| > 0
    ensures OkKeys(arrived) == (if arrived[0].SearchOk? then KeysOf(arrived[0].results) else {}) + OkKeys(arrived[1..])
  {
    assert forall r :: r in arrived <==> r == arrived[0] || r in arrived[1..];
  }

  /** `after` keeps `before` as a prefix, and every candidate it adds still shows "Calculating...". */
  predicate GrowsByPending(before: seq<Charger>, after: seq<Charger>) {
    && |before| <= |after|
    && after[..|before|] == before
    && forall i :: |before| <= i < |after| ==> IsPending(after[i])
  }

  lemma GrowsByPendingTransitive(a: seq<Charger>, b: seq<Charger>, c: seq<Charger>)
    requires GrowsByPending(a, b) && GrowsByPending(b, c)
    ensures GrowsByPending(a, c)
  {
    assert c[..|a|] == c[..|b|][..|a|];
    forall i | |a| <= i < |c|
      ensures IsPending(c[i])
    {
      if i < |b| {
        assert c[i] == c[..|b|][i];
      }
    }
  }

  /** One search callback: an OK status merges its places, any other status leaves the state as it was. */
  function MergeResponse(d: Discovered, response: SearchResponse): (r: Discovered)
    ensures Valid(d) ==> Valid(r)
    ensures response.SearchFailed? ==> r == d
    ensures response.SearchOk? ==> r.seen == d.seen + KeysOf(response.results)
    ensures GrowsByPending(d.chargers, r.chargers)
  {
    match response
    case SearchOk(results) => MergePlaces(d, results)
    case SearchFailed(_) => d
  }

  /** All search callbacks, merged in the order they fire. */
  function MergeArrivals(d: Discovered, arrived: seq<SearchResponse>): (r: Discovered)
    decreases |arrived|
    ensures Valid(d) ==> Valid(r)
    ensures r.seen == d.seen + OkKeys(arrived)
    ensures GrowsByPending(d.chargers, r.chargers)
  {
    if |arrived| == 0 then d
    else
      OkKeysOfFirstAndRest(arrived);
      var next := MergeResponse(d, arrived[0]);
      var r := MergeArrivals(next, arrived[1..]);
      GrowsByPendingTransitive(d.chargers, next.chargers, r.chargers);
      r
  }

  /** The address keys found do not depend on the order in which the callbacks fire. */
  lemma {:induction false} OkKeysOfArrival(responses: seq<SearchResponse>, order: seq<nat>)
    requires IsArrivalOrder(order, |responses|)
    ensures OkKeys(Arrive(responses, order)) == OkKeys(responses)
  {
    var arrived := Arrive(responses, order);
    forall r | r in arrived
      ensures r in responses
    {
      var k :| 0 <= k < |arrived| && arrived[k] == r;
    }
    forall r | r in responses
      ensures r in arrived
    {
      var i :| 0 <= i < |responses| && responses[i] == r;
    }
  }

  /** The candidate list of a discovery run: the search responses, indexed by sample
      point, merged in the order given by `order`. No two candidates share an
      address (so at most one is "Unknown Address"), their addresses are exactly
      the keys of the OK responses whatever the arrival order, and every candidate
      still shows "Calculating..." for distance and time. */
  function DiscoverChargers(responses: seq<SearchResponse>, order: seq<nat>): (cs: seq<Charger>)
    requires IsArrivalOrder(order, |responses|)
    ensures DistinctAddresses(cs)
    ensures AddressesOf(cs) == OkKeys(responses)
    ensures forall i :: 0 <= i < |cs| ==> IsPending(cs[i])
  {
    OkKeysOfArrival(responses, order);
    MergeArrivals(NothingDiscovered, Arrive(responses, order)).chargers
  }

  // ---------------------------------------------------------------------------
  // Independent description of the merge: the concatenated OK results, filtered
  // to the places whose address key has not appeared earlier.

  /** The places of every OK response, concatenated in arrival order. */
  function OkPlaces(arrived: seq<SearchResponse>): seq<Place>
    decreases |arrived|
  {
    if |arrived| == 0 then []
    else (if arrived[0].SearchOk? then arrived[0].results else []) + OkPlaces(arrived[1..])
  }

  /** Place `j` is the first place of the list with its address key. */
  predicate FirstOfKey(places: seq<Place>, j: int)
    requires 0 <= j < |places|
  {
    forall i :: 0 <= i < j ==> AddressKey(places[i]) != AddressKey(places[j])
  }

  /** The list filtered to first occurrences of each address key, each turned into a new candidate. */
  function FirstByAddress(places: seq<Place>): seq<Charger>
    decreases |places|
  {
    if |places| == 0 then []
    else
      var earlier := places[..|places| - 1];
      var last := places[|places| - 1];
      FirstByAddress(earlier) + (if AddressKey(last) in KeysOf(earlier) then [] else [NewCharger(last)])
  }

  /** Merging two lists one after the other is merging their concatenation. */
  lemma {:induction false} MergePlacesAppend(d: Discovered, a: seq<Place>, b: seq<Place>)
    ensures MergePlaces(d, a + b) == MergePlaces(MergePlaces(d, a), b)
    decreases |a|
  {
    if |a| == 0 {
      assert a + b == b;
    } else {
      assert (a + b)[0] == a[0];
      assert (a + b)[1..] == a[1..] + b;
      MergePlacesAppend(MergePlace(d, a[0]), a[1..], b);
    }
  }

  /** A failed search contributes nothing and the others are merged as one list:
      folding the callbacks is folding the concatenation of the OK results. */
  lemma {:induction false} MergeArrivalsIsMergeOfOkPlaces(d: Discovered, arrived: seq<SearchResponse>)
    ensures MergeArrivals(d, arrived) == MergePlaces(d, OkPlaces(arrived))
    decreases |arrived|
  {
    if |arrived| > 0 {
      var first := if arrived[0].SearchOk? then arrived[0].results else [];
      MergePlacesAppend(d, first, OkPlaces(arrived[1..]));
      MergeArrivalsIsMergeOfOkPlaces(MergeResponse(d, arrived[0]), arrived[1..]);
    }
  }

  /** The seen-set fold computes the first-occurrence filter. */
  lemma {:induction false} MergeIsFirstByAddress(places: seq<Place>)
    ensures MergePlaces(NothingDiscovered, places) == Discovered(KeysOf(places), FirstByAddress(places))
    decreases |places|
  {
    if |places| > 0 {
      var earlier := places[..|places| - 1];
      var last := places[|places| - 1];
      assert places == earlier + [last];
      MergePlacesAppend(NothingDiscovered, earlier, [last]);
      MergeIsFirstByAddress(earlier);
      assert MergePlaces(Discovered(KeysOf(earlier), FirstByAddress(earlier)), [last])
          == MergePlace(Discovered(KeysOf(earlier), FirstByAddress(earlier)), last);
      assert KeysOf(places) == KeysOf(earlier) + {AddressKey(last)} by {
        assert forall p :: p in places <==> p in earlier || p == last;
      }
    }
  }

  /** The last place is the first of its key exactly when no earlier place has that key. */
  lemma LastFirstOfKey(places: seq<Place>)
    requires |places| > 0
    ensures FirstOfKey(places, |places| - 1) <==> AddressKey(places[|places| - 1]) !in KeysOf(places[..|places| - 1])
  {
    var n := |places| - 1;
    var earlier := places[..n];
    if AddressKey(places[n]) in KeysOf(earlier) {
      var p :| p in earlier && AddressKey(p) == AddressKey(places[n]);
      var i :| 0 <= i < n && earlier[i] == p;
      assert AddressKey(places[i]) == AddressKey(places[n]);
    } else {
      forall i | 0 <= i < n
        ensures AddressKey(places[i]) != AddressKey(places[n])
      {
        assert earlier[i] in earlier;
      }
    }
  }

  /** Every first occurrence of an address key is kept. */
  lemma {:induction false} FirstOccurrenceKept(places: seq<Place>, j: nat)
    requires j < |places| && FirstOfKey(places, j)
    ensures NewCharger(places[j]) in FirstByAddress(places)
    decreases |places|
  {
    var n := |places| - 1;
    var earlier := places[..n];
    if j == n {
      LastFirstOfKey(places);
    } else {
      assert FirstOfKey(earlier, j) by {
        forall i | 0 <= i < j
          ensures AddressKey(earlier[i]) != AddressKey(earlier[j])
        {
          assert earlier[i] == places[i] && earlier[j] == places[j];
        }
      }
      FirstOccurrenceKept(earlier, j);
      assert places[j] == earlier[j];
    }
  }

  /** Every kept candidate comes from the first occurrence of its address key. */
  lemma {:induction false} KeptAreFirstOccurrences(places: seq<Place>, c: Charger)
    requires c in FirstByAddress(places)
    ensures exists j :: 0 <= j < |places| && FirstOfKey(places, j) && c == NewCharger(places[j])
    decreases |places|
  {
    var n := |places| - 1;
    var earlier := places[..n];
    if c in FirstByAddress(earlier) {
      KeptAreFirstOccurrences(earlier, c);
      var j :| 0 <= j < n && FirstOfKey(earlier, j) && c == NewCharger(earlier[j]);
      assert places[j] == earlier[j];
      assert FirstOfKey(places, j) by {
        forall i | 0 <= i < j
          ensures AddressKey(places[i]) != AddressKey(places[j])
        {
          assert earlier[i] == places[i];
        }
      }
    } else {
      LastFirstOfKey(places);
      assert FirstOfKey(places, n) && c == NewCharger(places[n]);
    }
  }

  /** A candidate is in the filtered list exactly when it was created from the
      first place carrying its address: later places with a seen address are dropped. */
  lemma FirstByAddressMembers(places: seq<Place>, c: Charger)
    ensures c in FirstByAddress(places) <==>
              exists j :: 0 <= j < |places| && FirstOfKey(places, j) && c == NewCharger(places[j])
  {
    if c in FirstByAddress(places) {
      KeptAreFirstOccurrences(places, c);
    }
    if exists j :: 0 <= j < |places| && FirstOfKey(places, j) && c == NewCharger(places[j]) {
      var j :| 0 <= j < |places| && FirstOfKey(places, j) && c == NewCharger(places[j]);
      FirstOccurrenceKept(places, j);
    }
  }

  /** With distinct addresses, there are as many candidates as addresses. */
  lemma {:induction false} DistinctAddressCount(cs: seq<Charger>)
    requires DistinctAddresses(cs)
    ensures |AddressesOf(cs)| == |cs|
    decreases |cs|
  {
    if |cs| > 0 {
      var earlier := cs[..|cs| - 1];
      var last := cs[|cs| - 1];
      assert cs == earlier + [last];
      DistinctAddressCount(earlier);
      assert AddressesOf(cs) == AddressesOf(earlier) + {last.address};
      assert last.address !in AddressesOf(earlier) by {
        forall c | c in earlier
          ensures c.address != last.address
        {
          var i :| 0 <= i < |earlier| && earlier[i] == c;
        }
      }
    }
  }

  /** Whatever order the search callbacks fire in, the run finds the same set of
      addresses and the same number of candidates; only which place represents a
      shared address can differ. */
  lemma ArrivalOrderKeepsAddressesAndCount(responses: seq<SearchResponse>, order1: seq<nat>, order2: seq<nat>)
    requires IsArrivalOrder(order1, |responses|) && IsArrivalOrder(order2, |responses|)
    ensures AddressesOf(DiscoverChargers(responses, order1)) == AddressesOf(DiscoverChargers(responses, order2))
    ensures |DiscoverChargers(responses, order1)| == |DiscoverChargers(responses, order2)|
  {
    DistinctAddressCount(DiscoverChargers(responses, order1));
    DistinctAddressCount(DiscoverChargers(responses, order2));
  }

  /** Two sample points each report a place, and the two share an address key: in
      whichever order the searches answer, exactly one candidate carries that key.
      Two places without a vicinity share the key "Unknown Address" and so collapse
      into one candidate as well. */
  lemma SharedAddressKeptOnce(p1: Place, p2: Place, order: seq<nat>)
    requires AddressKey(p1) == AddressKey(p2)
    requires IsArrivalOrder(order, 2)
    ensures |DiscoverChargers([SearchOk([p1]), SearchOk([p2])], order)| == 1
    ensures DiscoverChargers([SearchOk([p1]), SearchOk([p2])], order)[0].address == AddressKey(p1)
  {
    var responses := [SearchOk([p1]), SearchOk([p2])];
    var cs := DiscoverChargers(responses, order);
    assert OkKeys(responses) == {AddressKey(p1)} by {
      assert responses[0] in responses && p1 in responses[0].results;
    }
    DistinctAddressCount(cs);
    assert cs[0] in cs;
  }

  /** The discovered list is exactly the OK results, concatenated in arrival order and
      filtered to the first place of each address. */
  lemma DiscoverIsFirstByAddress(responses: seq<SearchResponse>, order: seq<nat>)
    requires IsArrivalOrder(order, |responses|)
    ensures DiscoverChargers(responses, order) == FirstByAddress(OkPlaces(Arrive(responses, order)))
  {
    var arrived := Arrive(responses, order);
    MergeArrivalsIsMergeOfOkPlaces(NothingDiscovered, arrived);
    MergeIsFirstByAddress(OkPlaces(arrived));
  }
}

# EV charger route planner — Dafny model

This project models the planning logic of a small React application that shows a
driving route between two addresses and the electric-vehicle charging stations near
it. The logic lives inside three components and is pulled out here as pure functions
over immutable records and sequences:

- **Charger discovery** (`Discovery`, `src/components/Map.jsx`). The route's overview
  path is sampled at every fifth point. Each sample point issues one 10 km nearby
  search for "EV Charging Station". The answers are merged into one candidate list,
  deduplicated by address. The first place seen with an address wins. A missing or
  empty `vicinity` becomes the key "Unknown Address". A search whose status is not OK
  adds nothing. New candidates show "Calculating..." for distance and time, and their
  rating is the place's rating or "No rating".
- **Distance annotation** (`Annotation`, `Map.jsx`). Each candidate gets one
  directions query from the trip start. Its callback writes the leg's distance and
  duration texts on OK, or "N/A" twice otherwise.
- **Stop ledger and final route** (`StopLedger`, `MapView`, `Map.jsx`). `addStop`
  appends a candidate unless a stop with its `place_id` exists. "Set Final Route"
  empties the candidate list, keeps the stops, and re-requests the route with one
  stopover waypoint per stop, in ledger order, when start and end are both known.
- **Car selection form** (`CarSelection`, `src/components/CarSelection.jsx`).
  Changing the brand clears the model. The model options are the chosen brand's
  models. Saving emits `{brand, model, range}` only when all three are non-empty.
- **Search form** (`SearchBox`, `src/components/SearchBox.jsx`). An autocomplete
  event sets its own field only when it supplies a non-empty formatted address.
  Typing sets the typed field. Searching calls `onSearch(start, end)` only when both
  are non-empty.

The Google services are not modelled; their answers are inputs. The nearby searches
answer in some order, so the model takes a response per sample point plus an arrival
order (each sample point answers exactly once). Each directions query for a candidate
has an outcome `LegOk(distance, duration) | LegFailed`, also with an arrival order.
JavaScript truthiness is written out: the empty string is falsy, a rating of 0 is
falsy, and so is a missing value (`Option.None`).

Files: `common.dfy` (Option, coordinates, arrival orders), `discovery.dfy`,
`annotation.dfy`, `ledger.dfy`, `map_view.dfy`, `car_selection.dfy`, `search_box.dfy`.

Two points about the code worth stating plainly:

- A place with a missing or empty vicinity is not an always-unique entry: the literal
  "Unknown Address" is a dedup key like any other, so at most one candidate carries
  it (`Discovery.DiscoverChargers`, `Discovery.SharedAddressKeptOnce`).
- No code compares a distance with the vehicle range, so no range-constrained stop
  selector and no deep-link finaliser is modelled.

## Model

| member | source | states |
|---|---|---|
| `Discovery.SearchRequests` | src/components/Map.jsx:58-66 | one 10 km "EV Charging Station" search per path point whose index is a multiple of 5, index 0 included; request `k` is centred on point `5k`, so no other point is searched |
| `Discovery.AddressKey` | src/components/Map.jsx:71 | the dedup key is never empty; it is the vicinity when that is present and non-empty, otherwise "Unknown Address" |
| `Discovery.RatingOf` | src/components/Map.jsx:80 | the shown rating is the place's rating when present and non-zero, otherwise "No rating" |
| `Discovery.NewCharger` | src/components/Map.jsx:74-83 | a new candidate copies the place's id, name and coordinates, is keyed by address, shows "Calculating..." for distance and time, and has exactly the rating `RatingOf` gives: the place's rating when present and non-zero, otherwise "No rating" |
| `Discovery.MergePlace` | src/components/Map.jsx:71-84 | a place whose address was seen leaves the state unchanged (first occurrence wins); otherwise it is appended; the seen set equals the candidates' addresses and addresses stay distinct |
| `Discovery.MergePlaces` | src/components/Map.jsx:70-85 | merging one response's places keeps the fold invariant, adds exactly their keys to the seen set, keeps earlier candidates as a prefix, and every added candidate is pending |
| `Discovery.MergeResponse` | src/components/Map.jsx:68-88 | a non-OK status contributes nothing; an OK status adds the keys of its places and keeps the invariant and the earlier candidates |
| `Discovery.MergeArrivals` | src/components/Map.jsx:52-92 | folding the callbacks in arrival order keeps the invariant and earlier entries, and the seen set gains exactly the keys of the OK responses |
| `Discovery.OkKeysOfArrival` | src/components/Map.jsx:58-92 | the keys of the OK responses are the same whatever order the callbacks fire in |
| `Discovery.DiscoverChargers` | src/components/Map.jsx:51-92 | the discovered candidates have distinct addresses (so at most one "Unknown Address"), their addresses are exactly the keys of the OK responses, and all are pending |
| `Discovery.MergePlacesAppend` | src/components/Map.jsx:52-53 | the seen set and list are shared across callbacks, so merging two lists in turn is merging their concatenation |
| `Discovery.MergeArrivalsIsMergeOfOkPlaces` | src/components/Map.jsx:68-88 | failed searches contribute nothing and the other points are still merged: the fold equals merging the concatenated OK results |
| `Discovery.MergeIsFirstByAddress` | src/components/Map.jsx:70-84 | the seen-set fold equals the independent first-occurrence filter of the input list, in input order |
| `Discovery.LastFirstOfKey` | src/components/Map.jsx:72 | the last place is new exactly when its key is not among the earlier places' keys |
| `Discovery.FirstOccurrenceKept` | src/components/Map.jsx:72-74 | the first place with each address key yields a candidate |
| `Discovery.KeptAreFirstOccurrences` | src/components/Map.jsx:72-74 | every candidate comes from the first place with its address key |
| `Discovery.FirstByAddressMembers` | src/components/Map.jsx:72-74 | a candidate is kept iff it was created from the first place with its address; later duplicates are dropped |
| `Discovery.DistinctAddressCount` | src/components/Map.jsx:52-53 | with distinct addresses there are as many candidates as addresses |
| `Discovery.ArrivalOrderKeepsAddressesAndCount` | src/components/Map.jsx:58-92 | any two arrival orders give the same address set and the same number of candidates |
| `Discovery.SharedAddressKeptOnce` | src/components/Map.jsx:71-73 | two sample points reporting places with the same address key (two missing vicinities included) yield exactly one candidate with that key, in either arrival order |
| `Discovery.DiscoverIsFirstByAddress` | src/components/Map.jsx:52-92 | the candidate list is the OK results in arrival order, filtered to the first place of each address |
| `Annotation.LegRequests` | src/components/Map.jsx:98-105 | one directions query per candidate, in list order, from the trip start to the candidate's coordinates |
| `Annotation.Annotate` | src/components/Map.jsx:106-115 | only distance and time change: both become the leg's texts on OK, both "N/A" otherwise |
| `Annotation.AnnotateAll` | src/components/Map.jsx:97-120 | length and order are kept and candidate `i` is annotated with outcome `i` |
| `Annotation.AnnotateAsLegsArrive` | src/components/Map.jsx:97-120 | applying the callbacks in any arrival order gives the same list as annotating each candidate with its own outcome |
| `Annotation.AnnotateKeepsAddresses` | src/components/Map.jsx:108-113 | annotation keeps the address set, so distinct addresses stay distinct |
| `Annotation.NothingLeftCalculating` | src/components/Map.jsx:106-114 | after annotation no candidate shows "Calculating..." (unless a leg text reads so), and each shows its leg's two texts or "N/A" twice |
| `StopLedger.AddStop` | src/components/Map.jsx:132-136 | the charger is appended iff no stop has its place id, otherwise the ledger is unchanged; existing stops stay a prefix, its id is present afterwards, ids stay distinct |
| `StopLedger.AddStopIdempotent` | src/components/Map.jsx:132-136 | adding the same charger twice is adding it once |
| `StopLedger.AddStopsLedger` | src/components/Map.jsx:132-136 | after any series of clicks the ledger holds each clicked place id once, keeps its earlier stops as a prefix, and holds nothing else |
| `StopLedger.Waypoints` | src/components/Map.jsx:148-151 | one waypoint per stop, in ledger order, at the stop's lat/lng, with stopover set |
| `StopLedger.WaypointsOfAddStop` | src/components/Map.jsx:132-151 | adding a new stop adds exactly its waypoint at the end; a repeated stop changes nothing |
| `StopLedger.RecalculateRoute` | src/components/Map.jsx:145-160 | no request when start or end is missing; otherwise start to end through the stops' waypoints |
| `MapView.FetchRouteAndChargers` | src/components/Map.jsx:37-128 | a failed route leaves the state alone; on OK the totals come from the first leg, one 10 km "EV Charging Station" search is issued at every fifth path point, the candidates are replaced by the merged, annotated list with distinct addresses equal to the OK keys, and the stops are kept |
| `MapView.SetFinalRoute` | src/components/Map.jsx:139-158 | the candidate list is emptied, stops and totals kept, and the route is re-requested from start to end through the stops iff start and end are known |
| `MapView.SetFinalRouteAfterFirstStop` | src/components/Map.jsx:132-225 | the button is hidden in the initial state and shown once the first stop is added; committing then keeps exactly that stop, empties the candidates and requests the route from start to end through that stop's one stopover waypoint |
| `MapView.SetFinalRouteIgnoresCandidates` | src/components/Map.jsx:139-151 | the final route depends only on the stops, and committing twice is committing once |
| `CarSelection.BrandOptionsAreCarDataKeys` | src/components/CarSelection.jsx:41-45 | the brand select lists exactly the brands of `carData`, each once |
| `CarSelection.ModelOptions` | src/components/CarSelection.jsx:59-64 | the model options are exactly the chosen brand's models, in `carData` order and each once, and there are none while no brand is chosen |
| `CarSelection.ModelDeterminesBrand` | src/components/CarSelection.jsx:3-9 | no model name appears under two brands |
| `CarSelection.ModelSelectEnabledOnlyWithBrand` | src/components/CarSelection.jsx:56 | the model select is disabled exactly while the brand is empty and then delivers nothing; a chosen brand offers at least one model |
| `CarSelection.HandleBrandChange` | src/components/CarSelection.jsx:16-19 | the brand becomes the new value, the model is always reset to "", the range is kept |
| `CarSelection.HandleModelChange` | src/components/CarSelection.jsx:53 | only the model changes, and a consistent form stays consistent |
| `CarSelection.HandleRangeChange` | src/components/CarSelection.jsx:73 | only the range changes, with no numeric check |
| `CarSelection.HandleSubmit` | src/components/CarSelection.jsx:21-26 | a profile is emitted iff brand, model and range are all non-empty, and it carries exactly those three values |
| `CarSelection.SubmitAfterBrandChangeIsNoOp` | src/components/CarSelection.jsx:16-25 | right after any brand change, submit is a no-op |
| `CarSelection.ZeroRangeIsSaved` | src/components/CarSelection.jsx:23-24 | a range of "0" is saved, as there is no numeric check |
| `CarSelection.SavedProfilesFromEmptyForm` | src/components/CarSelection.jsx:12-64 | from the empty form the component starts with, saving does nothing at first, and after any series of user actions a saved profile names a brand of `carData` and one of its models |
| `CarSelection.SavedProfilesAreConsistent` | src/components/CarSelection.jsx:34-64 | whatever the user does, every saved profile names a brand of `carData` and one of that brand's models |
| `SearchBox.SuppliedAddress` | src/components/SearchBox.jsx:19-20 | an autocomplete supplies an address only when the place and a non-empty formatted address are present |
| `SearchBox.OnStartPlaceChanged` | src/components/SearchBox.jsx:18-23 | start becomes the supplied address when there is one and is unchanged otherwise; end is never touched |
| `SearchBox.OnEndPlaceChanged` | src/components/SearchBox.jsx:25-30 | end becomes the supplied address when there is one and is unchanged otherwise; start is never touched |
| `SearchBox.TypeStart` | src/components/SearchBox.jsx:42 | typing sets start to the typed text and keeps end |
| `SearchBox.TypeEnd` | src/components/SearchBox.jsx:43 | typing sets end to the typed text and keeps start |
| `SearchBox.HandleSearch` | src/components/SearchBox.jsx:34-38 | `onSearch` is called iff both fields are non-empty, with `(start, end)` in that order, unchanged |
| `SearchBox.AutocompletesCommute` | src/components/SearchBox.jsx:18-30 | the two autocompletes are independent: their events commute |
| `SearchBox.SearchAfterBothAutocompletes` | src/components/SearchBox.jsx:18-37 | after both autocompletes supply addresses, search hands exactly those two addresses over |
| `SearchBox.UnusableAutocompleteKeepsSearch` | src/components/SearchBox.jsx:18-37 | an autocomplete event without a usable address does not change what search does |
| `SearchBox.OneFieldFromEmptyFormSearchesNothing` | src/components/SearchBox.jsx:4-38 | from the empty form the component starts with, setting only one field, by typing or by autocomplete, never calls `onSearch` |

## Left out

- Google Maps services (`DirectionsService.route`, `PlacesService.nearbySearch`, `Autocomplete`, `Geocoder`): foreign code, so their answers are inputs. The outgoing nearby searches (`Discovery.SearchRequests`), the per-candidate directions queries (`Annotation.LegRequests`) and the recalculated route (`StopLedger.RecalculateRoute`) are modelled as request values. The main start-to-end directions request (`Map.jsx` lines 37-42) is not; only its answer (`MapView.RouteResult`) is an input. `travelMode: DRIVING` is dropped from every directions request, since it is the same constant everywhere.
- Promise and callback concurrency, and the `Promise.all` barriers: each batch is modelled as complete, with its arrival order as a parameter.
- MapView.SetFinalRoute: defined for every state, while the button that calls it is rendered only once a stop exists (`Map.jsx` line 221); `FinalRouteOffered` names that guard, and the model does not restrict the function to it.
- React state hooks, rendering, markers, the info window, the selected charger, the loading overlay and styling: UI plumbing with no planning logic.
- The effect that starts discovery only when start, end and the map instance exist (`Map.jsx` lines 25-29): it depends on the DOM map reference.
- The result of the recalculated route request (`Map.jsx` lines 161-167): it only replaces the rendered directions.
- `src/pages/Home.jsx` (geocoding effect and render gating), `src/main.jsx` (script loader), `src/App.jsx` (router) and `tailwind.config.js`: plumbing, DOM I/O and build configuration.
- Coordinates are copied, never computed with; a NaN rating (also falsy in JavaScript) is not modelled, since ratings are reals here.
- The greedy range-based stop selector and the deep-link finaliser: not implemented in the code.
- The browser's sanitising of the range number input: the range is modelled as any string, which is also what the submit check sees.

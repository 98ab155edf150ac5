/**
 The distance annotation stage of `fetchRouteAndChargers` in `src/components/Map.jsx`:
 one driving-directions query per candidate, from the trip start to the candidate.
 Each callback overwrites that candidate's distance and time with the first leg's
 texts on OK, or with "N/A" otherwise. The callbacks fire in any order; the model
 takes that order as a parameter and shows it does not matter.
 */
module Annotation {
  import opened Common
  import opened Discovery

  /** Text shown when the directions query for a candidate failed. */
  const NotAvailable: string := "N/A"

  /** The outcome of the directions query for one candidate: the first leg's distance and duration texts, or a failure. */
  datatype LegOutcome = LegOk(distanceText: string, durationText: string) | LegFailed

  /** A directions query from the trip start to a candidate. */
  datatype LegRequest = LegRequest(origin: LatLng, destination: LatLng)

  /** The directions queries of the annotation stage: one per candidate, in list order. */
  function LegRequests(start: LatLng, cs: seq<Charger>): (requests: seq<LegRequest>)
    ensures |requests| == |cs|
    ensures forall i :: 0 <= i < |cs| ==>
              requests[i].origin == start && requests[i].destination == LatLng(cs[i].lat, cs[i].lng)
  {
    seq(|cs|, i requires 0 <= i < |cs| => LegRequest(start, LatLng(cs[i].lat, cs[i].lng)))
  }

  /** One directions callback: only the distance and time of the candidate change,
      to the leg's texts on OK and to "N/A" on failure. */
  function Annotate(c: Charger, leg: LegOutcome): (r: Charger)
    ensures r.(distanceFromStart := c.distanceFromStart, timeFromStart := c.timeFromStart) == c
    ensures leg.LegOk? ==> r.distanceFromStart == leg.distanceText && r.timeFromStart == leg.durationText
    ensures leg.LegFailed? ==> r.distanceFromStart == NotAvailable && r.timeFromStart == NotAvailable
  {
    match leg
    case LegOk(distance, duration) => c.(distanceFromStart := distance, timeFromStart := duration)
    case LegFailed => c.(distanceFromStart := NotAvailable, timeFromStart := NotAvailable)
  }

  /** The candidate list once every directions callback has fired: candidate `i` annotated with outcome `i`. */
  function AnnotateAll(cs: seq<Charger>, legs: seq<LegOutcome>): (r: seq<Charger>)
    requires |legs| == |cs|
    ensures |r| == |cs|
    ensures forall i :: 0 <= i < |cs| ==> r[i] == Annotate(cs[i], legs[i])
  {
    seq(|cs|, i requires 0 <= i < |cs| => Annotate(cs[i], legs[i]))
  }

  /** The callbacks applied one at a time in the order they fire, each to its own
      candidate: the list ends up the same as annotating every candidate with its
      own outcome, whatever the order. */
  method AnnotateAsLegsArrive(cs: seq<Charger>, legs: seq<LegOutcome>, order: seq<nat>) returns (r: seq<Charger>)
    requires |legs| == |cs| && IsArrivalOrder(order, |cs|)
    ensures r == AnnotateAll(cs, legs)
  {
    r := cs;
    var k := 0;
    while k < |order|
      invariant 0 <= k <= |order|
      invariant |r| == |cs|
      invariant forall i :: 0 <= i < |cs| && i in order[..k] ==> r[i] == Annotate(cs[i], legs[i])
      invariant forall i :: 0 <= i < |cs| && i !in order[..k] ==> r[i] == cs[i]
    {
      var i := order[k];
      r := r[i := Annotate(r[i], legs[i])];
      assert order[..k + 1] == order[..k] + [i];
      k := k + 1;
    }
    assert order[..k] == order;
  }

  /** Annotation keeps every candidate's address, so distinct addresses stay distinct. */
  lemma AnnotateKeepsAddresses(cs: seq<Charger>, legs: seq<LegOutcome>)
    requires |legs| == |cs|
    ensures AddressesOf(AnnotateAll(cs, legs)) == AddressesOf(cs)
    ensures DistinctAddresses(cs) ==> DistinctAddresses(AnnotateAll(cs, legs))
  {
    var r := AnnotateAll(cs, legs);
    forall a | a in AddressesOf(cs)
      ensures a in AddressesOf(r)
    {
      var c :| c in cs && c.address == a;
      var i :| 0 <= i < |cs| && cs[i] == c;
      assert r[i] in r;
    }
    forall a | a in AddressesOf(r)
      ensures a in AddressesOf(cs)
    {
      var c :| c in r && c.address == a;
      var i :| 0 <= i < |r| && r[i] == c;
      assert cs[i] in cs;
    }
  }

  /** After annotation no candidate keeps the "Calculating..." placeholder (unless a
      leg text itself reads "Calculating..."), and every candidate shows either both
      texts of its leg or "N/A" twice. */
  lemma NothingLeftCalculating(cs: seq<Charger>, legs: seq<LegOutcome>)
    requires |legs| == |cs|
    requires forall i :: 0 <= i < |legs| && legs[i].LegOk? ==>
               legs[i].distanceText != Calculating && legs[i].durationText != Calculating
    ensures forall i :: 0 <= i < |cs| ==>
              AnnotateAll(cs, legs)[i].distanceFromStart != Calculating
              && AnnotateAll(cs, legs)[i].timeFromStart != Calculating
    ensures forall i :: 0 <= i < |cs| ==>
              || (AnnotateAll(cs, legs)[i].distanceFromStart == NotAvailable
                  && AnnotateAll(cs, legs)[i].timeFromStart == NotAvailable)
              || (legs[i].LegOk?
                  && AnnotateAll(cs, legs)[i].distanceFromStart == legs[i].distanceText
                  && AnnotateAll(cs, legs)[i].timeFromStart == legs[i].durationText)
  {
  }
}

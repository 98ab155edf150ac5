/**
 Values shared by every part of the EV-charger route planner model: an optional
 value (for the JavaScript `null`/`undefined` cases), a coordinate, and the shape
 of the order in which a batch of asynchronous callbacks fires.
 */
module Common {

  /** A value that may be absent (`null` or `undefined` in the source; an empty string or a zero stays `Some`). */
  datatype Option<+T> = None | Some(value: T)

  /** A latitude/longitude pair. The planner only copies coordinates, never computes with them. */
  datatype LatLng = LatLng(lat: real, lng: real)

  /** JavaScript truthiness of a string: only the empty string is falsy. */
  predicate Truthy(s: string) {
    s != ""
  }

  /** `order` lists the callbacks of a batch of `n` requests in the order they fire:
      there are exactly `n` arrivals, each names one of the requests, and every
      request answers. (Together these make `order` a permutation of 0..n-1.) */
  predicate IsArrivalOrder(order: seq<nat>, n: nat) {
    && |order| == n
    && (forall k :: 0 <= k < |order| ==> order[k] < n)
    && (forall i: nat :: i < n ==> i in order)
  }

  /** The responses of a batch, reordered by the order in which their callbacks fire. */
  function Arrive<T>(responses: seq<T>, order: seq<nat>): (arrived: seq<T>)
    requires IsArrivalOrder(order, |responses|)
    ensures |arrived| == |responses|
    ensures forall k :: 0 <= k < |arrived| ==> arrived[k] in responses
    ensures forall i :: 0 <= i < |responses| ==> responses[i] in arrived
  {
    var arrived := seq(|order|, k requires 0 <= k < |order| => responses[order[k]]);
    assert forall i :: 0 <= i < |responses| ==> responses[i] in arrived by {
      forall i | 0 <= i < |responses|
        ensures responses[i] in arrived
      {
        assert (i as nat) in order;
        var k :| 0 <= k < |order| && order[k] == i;
        assert arrived[k] == responses[i];
      }
    }
    arrived
  }
}

/**
 The matcher as code (internal/driverlocation/matching.go): the pending map of one-slot channels, one offer, the loop.

 What happens while an offer is open is an input: the responses handled in that time and whether the select gives up.
 */
module MatcherCode {
  import opened Prelude
  import opened Matching

  /** One offer's surroundings; `stop` is the branch the select takes when it does not receive. */
  datatype Offering = Offering(offerId: string, reachable: bool, arrivals: seq<RideResponse>, givesUp: bool,
      stop: Answer)

  /** The first response to an offer among those handled. */
  function FirstFor(offerId: string, arrivals: seq<RideResponse>): (r: Option<RideResponse>)
    ensures r.Some? ==> r.value in arrivals && r.value.offerId == offerId
    ensures r.None? ==> forall a <- arrivals :: a.offerId != offerId
  {
    if arrivals == [] then None
    else if FirstFor(offerId, arrivals[..|arrivals| - 1]).Some? then FirstFor(offerId, arrivals[..|arrivals| - 1])
    else if arrivals[|arrivals| - 1].offerId == offerId then Some(arrivals[|arrivals| - 1])
    else None
  }

  function Received(o: Offering): Option<RideResponse> {
    if o.reachable && !o.givesUp then FirstFor(o.offerId, o.arrivals) else None
  }

  /** The i-th response handled is the first to this offer. */
  predicate FirstAt(offerId: string, arrivals: seq<RideResponse>, i: nat) {
    && i < |arrivals| && arrivals[i].offerId == offerId
    && forall j :: 0 <= j < i ==> arrivals[j].offerId != offerId
  }

  /** The offer reached the driver, was not given up on, and the first response to it, by position, is a yes. */
  ghost predicate SaysYes(o: Offering) {
    && o.reachable && !o.givesUp
    && exists i: nat :: FirstAt(o.offerId, o.arrivals, i) && o.arrivals[i].accepted
  }

  lemma {:induction false} FirstForIsFirst(offerId: string, arrivals: seq<RideResponse>) returns (i: nat)
    ensures FirstFor(offerId, arrivals).Some? ==>
              FirstAt(offerId, arrivals, i) && arrivals[i] == FirstFor(offerId, arrivals).value
    decreases |arrivals|
  {
    i := 0;
    if arrivals != [] {
      var n := |arrivals| - 1;
      if FirstFor(offerId, arrivals[..n]).Some? {
        i := FirstForIsFirst(offerId, arrivals[..n]);
        assert forall j :: 0 <= j < i ==> arrivals[j] == arrivals[..n][j];
      } else {
        i := n;
        assert forall j :: 0 <= j < n ==> arrivals[j] == arrivals[..n][j];
      }
    }
  }

  /** The first response, as the code finds it, is a yes exactly if the one at the first position is. */
  lemma YesIsFirst(o: Offering)
    ensures SaysYes(o) <==> Received(o).Some? && Received(o).value.accepted
  {
    var i := FirstForIsFirst(o.offerId, o.arrivals);
    if FirstFor(o.offerId, o.arrivals).Some? {
      forall j: nat | FirstAt(o.offerId, o.arrivals, j) ensures j == i { assert !(j < i) && !(i < j); }
    } else {
      forall j: nat | j < |o.arrivals|
          ensures !FirstAt(o.offerId, o.arrivals, j) { assert o.arrivals[j] in o.arrivals; }
    }
  }

  /** What a one-slot buffer holds after these responses were sent to its offer. */
  function Slot(buffer: seq<RideResponse>, offerId: string, arrivals: seq<RideResponse>): seq<RideResponse> {
    if buffer != [] then buffer
    else match FirstFor(offerId, arrivals) case None => [] case Some(r) => [r]
  }

  class OneSlot {
    var buffer: seq<RideResponse>

    constructor ()
      ensures buffer == []
    {
      buffer := [];
    }

    /** The non-blocking send: a full channel drops the response. */
    method TrySend(response: RideResponse)
      modifies this
      ensures buffer == if old(buffer) == [] then [response] else old(buffer)
    {
      if buffer == [] {
        buffer := [response];
      }
    }
  }

  class Matcher {
    var pending: map<string, OneSlot>
    var published: seq<(string, string)>

    constructor ()
      ensures pending == map[] && published == []
    {
      pending, published := map[], [];
    }

    /** Every open offer has a channel of its own. */
    ghost predicate Valid()
      reads this
    {
      forall o, p :: o in pending && p in pending && pending[o] == pending[p] ==> o == p
    }

    method HandleDriverResponse(response: RideResponse)
      requires Valid()
      modifies pending.Values
      ensures forall o <- pending ::
                pending[o].buffer == if o == response.offerId && old(pending[o].buffer) == [] then [response]
                    else old(pending[o].buffer)
    {
      if response.offerId in pending {
        var ch := pending[response.offerId];
        ch.TrySend(response);
      }
    }

    /** Handles the responses that come in while an offer is waiting. */
    method HandleAll(arrivals: seq<RideResponse>)
      requires Valid()
      modifies pending.Values
      ensures forall o <- pending :: pending[o].buffer == Slot(old(pending[o].buffer), o, arrivals)
    {
      for i := 0 to |arrivals|
        invariant forall o <- pending :: pending[o].buffer == Slot(old(pending[o].buffer), o, arrivals[..i])
      {
        assert arrivals[..i + 1][..i] == arrivals[..i];
        HandleDriverResponse(arrivals[i]);
      }
      assert arrivals[..|arrivals|] == arrivals;
    }

    /** On every exit path the offer's key is gone, other offers keep theirs, and only the first own response counts. */
    method OfferToDriver(o: Offering) returns (accepted: bool, response: Option<RideResponse>)
      requires Valid() && o.offerId !in pending
      modifies this`pending, pending.Values
      ensures Valid() && pending == old(pending)
      ensures accepted <==> SaysYes(o)
      ensures response == if accepted then Received(o) else None
      ensures accepted ==> response.Some? && response.value.accepted && response.value.offerId == o.offerId
      ensures forall p <- pending ::
                pending[p].buffer == if o.reachable then Slot(old(pending[p].buffer), p, o.arrivals)
                    else old(pending[p].buffer)
    {
      YesIsFirst(o);
      var ch := new OneSlot();
      var before := pending;
      pending := pending[o.offerId := ch];
      if !o.reachable {
        pending := pending - {o.offerId};
        assert pending == before;
        return false, None;
      }
      HandleAll(o.arrivals);
      assert pending[o.offerId] == ch && ch.buffer == Slot([], o.offerId, o.arrivals);
      pending := pending - {o.offerId};
      assert pending == before;
      if !o.givesUp && ch.buffer != [] {
        if ch.buffer[0].accepted {
          return true, Some(ch.buffer[0]);
        }
        return false, None;
      }
      return false, None;
    }

    /**
     The candidate loop publishes at most one match, for the first candidate that accepts, and leaves no offer behind.
     */
    method MatchRide(rideId: string, candidates: seq<string>, offerings: seq<Offering>, sent: bool)
      returns (winner: Option<nat>)
      requires Valid() && |offerings| == |candidates|
      requires forall o <- offerings :: o.offerId !in pending
      modifies this, pending.Values
      ensures Valid() && pending == old(pending)
      ensures winner.Some? ==> winner.value < |candidates| && SaysYes(offerings[winner.value])
      ensures forall i :: 0 <= i < (if winner.Some? then winner.value else |candidates|) ==> !SaysYes(offerings[i])
      ensures published == if winner.Some? && sent then old(published) + [(rideId, candidates[winner.value])]
                else old(published)
    {
      for i := 0 to |candidates|
        invariant Valid() && pending == old(pending) && published == old(published)
        invariant forall j :: 0 <= j < i ==> !SaysYes(offerings[j])
      {
        var accepted, _ := OfferToDriver(offerings[i]);
        if accepted {
          if sent {
            published := published + [(rideId, candidates[i])];
          }
          return Some(i);
        }
      }
      return None;
    }
  }
}

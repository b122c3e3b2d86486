/**
 The flight registry: listing, updating, deleting and querying flights in the
 `flightsStorage` table. The stable map's iteration order is an input: the
 queries take the sequence of keys in the order the store enumerates them.
 */
module Registry {
  import opened Types

  /** The payload fields of a flight record. */
  function PayloadOf(f: Flight): FlightPayload {
    FlightPayload(f.name, f.imageUrl, f.description, f.pricePerPerson,
                  f.departureFrom, f.arriveTo, f.departureTime, f.seats)
  }

  /** The fields of a flight record that an update payload can carry. */
  function UpdatePayloadOf(f: Flight): UpdateFlightPayload {
    UpdateFlightPayload(f.id, f.name, f.imageUrl, f.description, f.pricePerPerson,
                        f.departureFrom, f.arriveTo, f.departureTime, f.seats)
  }

  /**
   Lists a new flight under a fresh identifier (a uuid, given here as `freshId`),
   owned by the caller, available and not reserved. A key collision overwrites,
   as the store's insert does.
   */
  function AddFlight(s: Canister, caller: Principal, freshId: string, payload: FlightPayload): (r: Step<Flight>)
    ensures r.reply.Ok?
    ensures PayloadOf(r.reply.value) == payload
    ensures r.reply.value.id == freshId && r.reply.value.creator == caller
    ensures r.reply.value.isAvailable && !r.reply.value.isReserved
    ensures r.reply.value.currentReservedTo.None? && r.reply.value.currentReservationEnds.None?
    ensures ReservationConsistent(r.reply.value)
    ensures r.state == s.(flights := s.flights[freshId := r.reply.value])
  {
    var flight := Flight(freshId, payload.name, payload.imageUrl, payload.description,
                         payload.pricePerPerson, payload.departureFrom, payload.arriveTo,
                         payload.departureTime, payload.seats,
                         false, true, None, None, caller);
    Step(s.(flights := s.flights[freshId := flight]), Ok(flight))
  }

  /**
   Overwrites the payload fields of an existing flight. Anyone may update; the
   reservation fields, the creator and the availability flag are kept.
   */
  function UpdateFlight(s: Canister, payload: UpdateFlightPayload): (r: Step<Flight>)
    ensures payload.id !in s.flights <==> r.reply.Err?
    ensures payload.id !in s.flights ==> r == Step(s, Err(NotFound))
    ensures payload.id in s.flights ==>
      var stored := s.flights[payload.id];
      && r.reply.Ok?
      && UpdatePayloadOf(r.reply.value) == payload
      && SameReservation(r.reply.value, stored)
      && r.reply.value.creator == stored.creator
      && r.reply.value.isAvailable == stored.isAvailable
      && r.state == s.(flights := s.flights[stored.id := r.reply.value])
  {
    if payload.id !in s.flights then
      Step(s, Err(NotFound))
    else
      var flight := s.flights[payload.id];
      var updated := flight.(id := payload.id, name := payload.name, imageUrl := payload.imageUrl,
                             description := payload.description, pricePerPerson := payload.pricePerPerson,
                             departureFrom := payload.departureFrom, arriveTo := payload.arriveTo,
                             departureTime := payload.departureTime, seats := payload.seats);
      Step(s.(flights := s.flights[flight.id := updated]), Ok(updated))
  }

  /**
   Removes a flight; only its creator may, and only while it is not reserved.
   Errors come in the order NotFound, NotOwner, Booked.
   */
  function DeleteFlight(s: Canister, caller: Principal, id: string): (r: Step<string>)
    ensures id !in s.flights ==> r == Step(s, Err(NotFound))
    ensures id in s.flights && s.flights[id].creator != caller ==> r == Step(s, Err(NotOwner))
    ensures id in s.flights && s.flights[id].creator == caller && s.flights[id].isReserved ==>
              r == Step(s, Err(Booked))
    ensures r.reply.Ok? <==> id in s.flights && s.flights[id].creator == caller && !s.flights[id].isReserved
    ensures r.reply.Ok? ==> r.reply.value == s.flights[id].id
    ensures r.reply.Ok? ==> r.state.flights.Keys == s.flights.Keys - {id}
    ensures forall k :: k in r.state.flights ==> k in s.flights && r.state.flights[k] == s.flights[k]
    ensures r.state.pending == s.pending && r.state.persisted == s.persisted
    ensures r.state.fee == s.fee && r.state.timers == s.timers
  {
    if id !in s.flights then
      Step(s, Err(NotFound))
    else if s.flights[id].creator.text != caller.text then
      Step(s, Err(NotOwner))
    else if s.flights[id].isReserved then
      Step(s, Err(Booked))
    else
      Step(s.(flights := s.flights - {id}), Ok(s.flights[id].id))
  }

  /** Looks up one flight. */
  function GetFlight(s: Canister, id: string): (r: Reply<Flight>)
    ensures r.Ok? <==> id in s.flights
    ensures r.Ok? ==> r.value == s.flights[id]
    ensures !r.Ok? ==> r == Err(NotFound)
  {
    if id in s.flights then Ok(s.flights[id]) else Err(NotFound)
  }

  /** `order` enumerates every key of `flights` exactly once. */
  predicate IsListing(order: seq<string>, flights: map<string, Flight>) {
    && (forall i :: 0 <= i < |order| ==> order[i] in flights)
    && (forall k :: k in flights ==> k in order)
    && (forall i, j :: 0 <= i < j < |order| ==> order[i] != order[j])
  }

  /**
   The reference filter: the flights of `order`, in that order, that satisfy
   `keep`, one entry per key.
   */
  function Selected(flights: map<string, Flight>, order: seq<string>, keep: Flight -> bool): seq<Flight>
    requires forall i :: 0 <= i < |order| ==> order[i] in flights
  {
    if |order| == 0 then []
    else
      var last := flights[order[|order| - 1]];
      Selected(flights, order[..|order| - 1], keep) + (if keep(last) then [last] else [])
  }

  /** A flight is selected iff some listed key holds it and it passes `keep`. */
  lemma {:induction false} SelectedMembers(flights: map<string, Flight>, order: seq<string>, keep: Flight -> bool)
    requires forall i :: 0 <= i < |order| ==> order[i] in flights
    ensures forall f :: f in Selected(flights, order, keep) <==>
      keep(f) && exists i :: 0 <= i < |order| && flights[order[i]] == f
  {
    if |order| > 0 {
      var init := order[..|order| - 1];
      SelectedMembers(flights, init, keep);
      forall f | keep(f) && exists i :: 0 <= i < |order| && flights[order[i]] == f
        ensures f in Selected(flights, order, keep)
      {
        var i :| 0 <= i < |order| && flights[order[i]] == f;
        if i < |order| - 1 {
          assert init[i] == order[i];
        }
      }
      forall f | f in Selected(flights, order, keep)
        ensures keep(f) && exists i :: 0 <= i < |order| && flights[order[i]] == f
      {
        if f in Selected(flights, init, keep) {
          var i :| 0 <= i < |init| && flights[init[i]] == f;
          assert order[i] == init[i];
        } else {
          assert flights[order[|order| - 1]] == f;
        }
      }
    }
  }

  /** Over a full enumeration of the table, the selected flights are exactly the stored flights that pass. */
  lemma SelectedFromListing(flights: map<string, Flight>, order: seq<string>, keep: Flight -> bool)
    requires IsListing(order, flights)
    ensures forall f :: f in Selected(flights, order, keep) <==> f in flights.Values && keep(f)
  {
    SelectedMembers(flights, order, keep);
    forall f | f in flights.Values && keep(f)
      ensures exists i :: 0 <= i < |order| && flights[order[i]] == f
    {
      var k :| k in flights && flights[k] == f;
      var i :| 0 <= i < |order| && order[i] == k;
    }
  }

  /** The table's `values().filter(keep)`: walks the enumeration, keeping the flights that pass. */
  method Filter(flights: map<string, Flight>, order: seq<string>, keep: Flight -> bool) returns (r: seq<Flight>)
    requires forall i :: 0 <= i < |order| ==> order[i] in flights
    ensures r == Selected(flights, order, keep)
  {
    r := [];
    var n := 0;
    while n < |order|
      invariant n <= |order|
      invariant r == Selected(flights, order[..n], keep)
    {
      var f := flights[order[n]];
      assert order[..n + 1][..n] == order[..n];
      if keep(f) {
        r := r + [f];
      }
      n := n + 1;
    }
    assert order[..n] == order;
  }

  /** The price filter: a flight passes when its per-person price is at most `maxPrice`. */
  function PriceAtMost(maxPrice: nat): Flight -> bool {
    (f: Flight) => f.pricePerPerson <= maxPrice
  }

  /** The route filter: departure and arrival equal the queried places after normalisation by `lower`. */
  function OnRoute(lower: string -> string, departurePlace: string, arrivalPlace: string): Flight -> bool {
    (f: Flight) => lower(f.departureFrom) == lower(departurePlace) && lower(f.arriveTo) == lower(arrivalPlace)
  }

  /**
   The flights whose per-person price is at most `maxPrice`, in enumeration
   order, each stored flight that passes listed once per key holding it.
   */
  method GetFlightByPrice(s: Canister, order: seq<string>, maxPrice: nat) returns (r: seq<Flight>)
    requires IsListing(order, s.flights)
    ensures r == Selected(s.flights, order, PriceAtMost(maxPrice))
    ensures forall f :: f in r <==> f in s.flights.Values && f.pricePerPerson <= maxPrice
  {
    r := Filter(s.flights, order, PriceAtMost(maxPrice));
    SelectedFromListing(s.flights, order, PriceAtMost(maxPrice));
  }

  /**
   The flights on a route, in enumeration order, comparing places after the
   normalisation `lower` (the runtime's lower-casing, left abstract).
   */
  method GetFlightByPlace(s: Canister, order: seq<string>, lower: string -> string,
                          departurePlace: string, arrivalPlace: string) returns (r: seq<Flight>)
    requires IsListing(order, s.flights)
    ensures r == Selected(s.flights, order, OnRoute(lower, departurePlace, arrivalPlace))
    ensures forall f :: f in r <==>
      && f in s.flights.Values
      && lower(f.departureFrom) == lower(departurePlace)
      && lower(f.arriveTo) == lower(arrivalPlace)
  {
    r := Filter(s.flights, order, OnRoute(lower, departurePlace, arrivalPlace));
    SelectedFromListing(s.flights, order, OnRoute(lower, departurePlace, arrivalPlace));
  }
}

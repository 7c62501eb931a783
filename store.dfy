/** The reservation engine of the ticket backend: the handlers of the HTTP API
    as methods of one in-memory store that holds the `trips` and `tickets`
    tables. Each BEGIN ... COMMIT block is one atomic method body; the clock
    and the generator of ticket refs are parameters. */
module Reservation {
  import opened Inventory

  class Store {
    /** The `trips` table, keyed by trip id. */
    var trips: map<int, Trip>
    /** The `tickets` table, keyed by ref (the store keeps refs unique). */
    var tickets: map<string, Ticket>
    /** The id the next inserted trip row receives. */
    var nextTripId: int
    /** The id the next inserted ticket row receives. */
    var nextTicketId: int

    /** Row integrity: keys agree with the rows, ids are below the next id to
        hand out, and every ticket refers to an existing trip (the foreign key). */
    ghost predicate Valid()
      reads this
    {
      && 1 <= nextTripId
      && 1 <= nextTicketId
      && (forall id :: id in trips ==> trips[id].id == id && 1 <= id < nextTripId)
      && (forall r :: r in tickets ==>
            tickets[r].ref == r && tickets[r].tripId in trips && 1 <= tickets[r].id < nextTicketId)
    }

    /** The WHERE clause of the conditional decrement: the row exists and still has a seat. */
    predicate CanReserve(id: int)
      reads this
    {
      id in trips && trips[id].seatsAvailable > 0
    }

    /** A fresh database: both tables empty. */
    constructor ()
      ensures Valid() && SeatsNonNegative(trips) && SeatsConserved(trips, tickets)
      ensures trips == map[] && tickets == map[]
    {
      trips := map[];
      tickets := map[];
      nextTripId := 1;
      nextTicketId := 1;
    }

    /** GET /trips/:id */
    function GetTrip(id: int): (r: Result<Trip>)
      requires Valid()
      reads this
      ensures r.Ok? <==> id in trips
      ensures r.Ok? ==> r.value == trips[id] && r.value.id == id
      ensures r.Err? ==> r.failure == NotFound
    {
      if id in trips then Ok(trips[id]) else Err(NotFound)
    }

    /** The lookup by ref that the pay and cancel handlers start with. */
    function GetTicketByRef(ref: string): (r: Result<Ticket>)
      requires Valid()
      reads this
      ensures r.Ok? <==> ref in tickets
      ensures r.Ok? ==> r.value == tickets[ref] && r.value.ref == ref && r.value.tripId in trips
      ensures r.Err? ==> r.failure == NotFound
    {
      if ref in tickets then Ok(tickets[ref]) else Err(NotFound)
    }

    /** GET /trips: every trip exactly once, ascending by departure. The loop
        stands for the database's ORDER BY: a scan of the rows in id order,
        each placed into the sorted answer. */
    method ListTrips() returns (r: seq<Trip>)
      requires Valid()
      ensures ByDeparture(r)
      ensures |r| == |trips|
      ensures forall t :: t in r ==> t.id in trips && trips[t.id] == t
      ensures forall id :: id in trips ==> trips[id] in r
      ensures DistinctIds(r)
    {
      r := [];
      ghost var scanned: set<int> := {};
      for k := 1 to nextTripId
        invariant ByDeparture(r)
        invariant scanned == set id | id in trips && id < k
        invariant |r| == |scanned|
        invariant forall t :: t in r ==> t.id in scanned && trips[t.id] == t
        invariant forall id :: id in scanned ==> trips[id] in r
        invariant DistinctIds(r)
      {
        if k in trips {
          assert trips[k].id == k && k !in scanned;
          InsertKeepsIdsDistinct(trips[k], r);
          r := InsertByDeparture(trips[k], r);
          scanned := scanned + {k};
        }
        assert scanned == set id | id in trips && id < k + 1;
      }
      assert scanned == trips.Keys;
    }

    /** POST /trips/create */
    method CreateTrip(origin: Option<string>, destination: Option<string>,
                      departAt: Option<string>, capacity: Option<int>)
      returns (r: Result<Trip>)
      requires Valid()
      modifies this
      ensures Valid()
      ensures tickets == old(tickets) && nextTicketId == old(nextTicketId)
      ensures r.Ok? <==>
        TruthyText(origin) && TruthyText(destination) && TruthyText(departAt) && TruthyNumber(capacity)
      ensures r.Err? ==> r.failure == InvalidInput && unchanged(this)
      ensures r.Ok? ==>
        && r.value == Trip(old(nextTripId), origin.value, destination.value, departAt.value,
                           capacity.value, capacity.value)
        && old(nextTripId) !in old(trips)
        && trips == old(trips)[r.value.id := r.value]
        && nextTripId == old(nextTripId) + 1
      ensures old(SeatsConserved(trips, tickets)) ==> SeatsConserved(trips, tickets)
      ensures r.Ok? ==> (SeatsNonNegative(trips) <==> old(SeatsNonNegative(trips)) && capacity.value >= 0)
    {
      if !TruthyText(origin) || !TruthyText(destination) || !TruthyText(departAt) || !TruthyNumber(capacity) {
        return Err(InvalidInput);
      }
      // server.js:142-149: the new row starts with as many seats available as its capacity.
      var trip := Trip(nextTripId, origin.value, destination.value, departAt.value, capacity.value, capacity.value);
      trips := trips[trip.id := trip];
      nextTripId := nextTripId + 1;
      if SeatsConserved(old(trips), tickets) {
        NewTripConserved(old(trips), tickets, trip);
      }
      assert trips[trip.id] == trip;
      assert forall id :: id in old(trips) ==> id in trips && trips[id] == old(trips)[id];
      r := Ok(trip);
    }

    /** POST /tickets: reserve one seat of trip `tripId` and issue a pending
        ticket under `ref`, both in one transaction. `driverFault` stands for
        any failure of the INSERT other than a duplicate ref. */
    method CreateTicket(tripId: Option<int>, passengerName: Option<string>, priceCents: Option<int>,
                        ref: string, now: string, driverFault: bool)
      returns (r: Result<Ticket>)
      requires Valid()
      modifies this
      ensures Valid()
      ensures nextTripId == old(nextTripId)
      ensures !TruthyNumber(tripId) ==> r == Err(InvalidInput)
      ensures TruthyNumber(tripId) && !old(CanReserve(tripId.value)) ==> r == Err(NoCapacity)
      ensures TruthyNumber(tripId) && old(CanReserve(tripId.value)) && (ref in old(tickets) || driverFault) ==>
        r == Err(InternalError)
      ensures r.Err? ==> unchanged(this)
      ensures r.Ok? <==>
        TruthyNumber(tripId) && old(CanReserve(tripId.value)) && ref !in old(tickets) && !driverFault
      ensures r.Ok? ==>
        && r.value == Ticket(old(nextTicketId), ref, tripId.value, StoredName(passengerName), Pending,
                             PriceOrDefault(priceCents), now, None)
        && tickets == old(tickets)[ref := r.value]
        && |tickets| == |old(tickets)| + 1
        && trips == AdjustSeats(old(trips), tripId.value, -1)
        && nextTicketId == old(nextTicketId) + 1
      ensures r.Ok? && priceCents.None? ==> r.value.priceCents == DefaultPriceCents
      ensures r.Ok? && priceCents.Some? ==> r.value.priceCents == priceCents.value
      ensures r.Ok? ==>
        && (r.value.passengerName.Some? <==> TruthyText(passengerName))
        && (r.value.passengerName.Some? ==> r.value.passengerName == passengerName)
      ensures old(SeatsNonNegative(trips)) ==> SeatsNonNegative(trips)
      ensures old(SeatsConserved(trips, tickets)) ==> SeatsConserved(trips, tickets)
    {
      if !TruthyNumber(tripId) {
        return Err(InvalidInput);
      }
      var id := tripId.value;
      // BEGIN: the state a ROLLBACK restores.
      var savedTrips := trips;
      // server.js:59-62: conditional decrement, only of a stored trip with a seat left.
      var changes := if id in trips && trips[id].seatsAvailable > 0 then 1 else 0;
      if changes != 1 {
        // ROLLBACK: the UPDATE matched no row, so there is nothing to undo.
        return Err(NoCapacity);
      }
      trips := AdjustSeats(trips, id, -1);
      // server.js:71-79: the ticket insert fails on a duplicate ref or a driver error, then ROLLBACK.
      if ref in tickets || driverFault {
        trips := savedTrips;
        return Err(InternalError);
      }
      var ticket := Ticket(nextTicketId, ref, id, StoredName(passengerName), Pending,
                           PriceOrDefault(priceCents), now, None);
      tickets := tickets[ref := ticket];
      nextTicketId := nextTicketId + 1;
      // COMMIT
      if SeatsConserved(savedTrips, old(tickets)) {
        ReserveConserved(savedTrips, old(tickets), id, ref, ticket);
      }
      r := Ok(ticket);
    }

    /** POST /tickets/:ref/pay: idempotent on a paid ticket; any other status,
        cancelled included, is overwritten with `paid`. */
    method PayTicket(ref: string, now: string) returns (r: Result<Ticket>)
      requires Valid()
      modifies this
      ensures Valid()
      ensures trips == old(trips) && nextTripId == old(nextTripId) && nextTicketId == old(nextTicketId)
      ensures ref !in old(tickets) ==> r == Err(NotFound) && tickets == old(tickets)
      ensures ref in old(tickets) && old(tickets)[ref].status == Paid ==>
        r == Ok(old(tickets)[ref]) && tickets == old(tickets)
      ensures ref in old(tickets) && old(tickets)[ref].status != Paid ==>
        && r == Ok(AsPaid(old(tickets)[ref], now))
        && tickets == old(tickets)[ref := r.value]
      ensures r.Ok? ==> r.value.status == Paid && ref in tickets && tickets[ref] == r.value
      ensures old(SeatsConserved(trips, tickets)) && (ref in old(tickets) ==> old(tickets)[ref].status != Cancelled) ==>
        SeatsConserved(trips, tickets)
      ensures old(SeatsConserved(trips, tickets)) && ref in old(tickets) && old(tickets)[ref].status == Cancelled ==>
        var id := old(tickets)[ref].tripId;
        trips[id].seatsAvailable + ActiveCount(tickets, id) == trips[id].capacity + 1
    {
      var found := GetTicketByRef(ref);
      if found.Err? {
        return found;
      }
      var ticket := found.value;
      if ticket.status == Paid {
        return Ok(ticket);
      }
      // server.js:103: the status becomes paid and the payment time is recorded.
      tickets := tickets[ref := AsPaid(ticket, now)];
      if SeatsConserved(trips, old(tickets)) {
        if ticket.status == Cancelled {
          PayAfterCancelOverfills(trips, old(tickets), ref, now);
        } else {
          PayConserved(trips, old(tickets), ref, now);
        }
      }
      r := Ok(AsPaid(ticket, now));
    }

    /** POST /tickets/:ref/cancel: marks the ticket cancelled and returns one
        seat to its trip in one transaction, whatever the ticket's status was. */
    method CancelTicket(ref: string) returns (r: Result<Ticket>)
      requires Valid()
      modifies this
      ensures Valid()
      ensures nextTripId == old(nextTripId) && nextTicketId == old(nextTicketId)
      ensures ref !in old(tickets) ==> r == Err(NotFound) && unchanged(this)
      ensures ref in old(tickets) ==>
        && r == Ok(AsCancelled(old(tickets)[ref]))
        && tickets == old(tickets)[ref := r.value]
        && trips == AdjustSeats(old(trips), old(tickets)[ref].tripId, 1)
      ensures old(SeatsNonNegative(trips)) ==> SeatsNonNegative(trips)
      ensures old(SeatsConserved(trips, tickets)) && ref in old(tickets) && old(tickets)[ref].status != Cancelled ==>
        SeatsConserved(trips, tickets)
      ensures old(SeatsConserved(trips, tickets)) && ref in old(tickets) && old(tickets)[ref].status == Cancelled ==>
        var id := old(tickets)[ref].tripId;
        trips[id].seatsAvailable + ActiveCount(tickets, id) == trips[id].capacity + 1
    {
      var found := GetTicketByRef(ref);
      if found.Err? {
        return found;
      }
      var ticket := found.value;
      // BEGIN
      // server.js:124: the ticket is marked cancelled, whatever its status.
      tickets := tickets[ref := AsCancelled(ticket)];
      // server.js:125: its trip gets one seat back, with no upper bound.
      trips := AdjustSeats(trips, ticket.tripId, 1);
      // COMMIT
      if SeatsConserved(old(trips), old(tickets)) {
        if ticket.status == Cancelled {
          CancelTwiceOverfills(old(trips), old(tickets), ref);
        } else {
          CancelConserved(old(trips), old(tickets), ref);
        }
      }
      r := Ok(AsCancelled(ticket));
    }
  }
}

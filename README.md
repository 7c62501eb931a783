# Seat reservation in the ticket backend, modelled in Dafny

The ticket backend sells seats on trips. It keeps two tables:

- `trips`: each row has an id, origin, destination, departure time, a
  `capacity` and a `seats_available` count.
- `tickets`: each row has a ref, its trip, an optional passenger name, a
  status (`pending`, `paid` or `cancelled`), a price in cents, a creation
  time and a payment time.

Its HTTP handlers hold four state transitions:

- reserve a seat and issue a pending ticket, in one transaction;
- pay a ticket;
- cancel a ticket and give its seat back, in one transaction;
- create a trip.

There are two lookups beside them: one trip, and all trips by departure.

The model keeps the tables as the two map fields of a class,
`Reservation.Store`. It has one method per handler. Each BEGIN … COMMIT
block is one atomic method body, and a ROLLBACK restores the saved table.
The ticket ref (a random UUID prefix in the source) and the current time
are method parameters. A failure of the ticket INSERT is modelled in two
ways: as a `driverFault` parameter, and as the store refusing a duplicate
ref.

Files:

- `inventory.dfy` (module `Inventory`): the rows as datatypes and the
  conventions for reading request fields (JavaScript truthiness, the price
  default, `|| null`). It also holds text ordering for `depart_at`, one
  step of the ORDER BY sort, and seat accounting on plain maps. The central
  predicate is `SeatsConserved`: every trip's available seats plus its
  non-cancelled tickets equal its capacity. The lemmas say which writes
  preserve it and which break it.
- `store.dfy` (module `Reservation`): the `Store` class and its handlers.
- `scenarios.dfy` (module `Scenarios`): client methods that replay
  usage scenarios from the handlers' contracts alone. Reservations
  taken one after another stand in for concurrent ones.

The model follows the code, including where a stricter rule might be expected:

- Capacity: `createTrip` rejects only a missing or zero capacity. A
  negative capacity is accepted and gives a negative seat count
  (`Scenarios.NegativeCapacity`).
- Pay after cancel: paying a cancelled ticket is not refused. It makes the
  ticket hold a seat again although its seat was already returned
  (`Inventory.PayAfterCancelOverfills`, `Scenarios.PayAfterCancel`).
- Cancel twice: cancelling is not guarded either. A second cancel returns
  a second seat, so `seats_available` can exceed `capacity`
  (`Inventory.CancelTwiceOverfills`, `Scenarios.CancelTwice`).

## Model

| member | source | states |
|---|---|---|
| `Inventory.TextLeTotal` | server.js:35 | Departure times compare like text, and any two are ordered one way or the other. |
| `Inventory.TextLeTransitive` | server.js:35 | The departure-time order is transitive. |
| `Inventory.InsertByDeparture` | server.js:35 | Putting a trip into a list sorted by departure gives a sorted list that holds the same trips plus the new one. |
| `Inventory.InsertKeepsIdsDistinct` | server.js:35 | Putting a trip whose id the sorted list does not hold yet into it keeps every id in the list distinct. |
| `Inventory.ActiveCountAfterWrite` | server.js:71-79 | Writing one ticket row changes each trip's count of non-cancelled tickets only by what the old row and the new row held. |
| `Inventory.AdjustSeats` | server.js:59-62 | The seat UPDATE changes only that trip's `seats_available`, by exactly the given amount, and keeps the other trips. It keeps counts non-negative if the new count is not negative. |
| `Inventory.ConservedBounds` | server.js:60 | Under conservation a trip never shows more seats than its capacity. With non-negative counts, a trip never has more non-cancelled tickets than seats. |
| `Inventory.NewTripConserved` | server.js:142-149 | A new trip with `seats_available = capacity` and no tickets keeps every trip's seats conserved. |
| `Inventory.ReserveConserved` | server.js:59-79 | Taking one seat and adding one pending ticket under a new ref keeps the seats conserved. |
| `Inventory.CancelConserved` | server.js:124-125 | Cancelling a ticket that is not yet cancelled, and giving its trip one seat back, keeps the seats conserved. |
| `Inventory.CancelTwiceOverfills` | server.js:124-125 | Cancelling an already cancelled ticket leaves its trip's seats plus non-cancelled tickets one above capacity. |
| `Inventory.PayConserved` | server.js:102-107 | Paying a ticket that is not cancelled keeps the seats conserved. |
| `Inventory.PayAfterCancelOverfills` | server.js:100-107 | Paying a cancelled ticket leaves its trip's seats plus non-cancelled tickets one above capacity. |
| `Reservation.Store.GetTrip` | server.js:42-45 | Returns the stored trip with the requested id when there is one, and NotFound otherwise. |
| `Reservation.Store.GetTicketByRef` | server.js:98-99 | Returns the ticket with the given ref (its trip exists) when there is one, and NotFound otherwise. |
| `Reservation.Store.ListTrips` | server.js:34-36 | Returns every stored trip and only stored trips, in ascending order of departure, with no id twice. |
| `Reservation.Store.CreateTrip` | server.js:136-153 | A missing or falsy field gives InvalidInput and no change. Otherwise one trip is added under the next id with `seats_available = capacity`. Conservation is kept. Counts stay non-negative exactly when the capacity is not negative. |
| `Reservation.Store.CreateTicket` | server.js:51-90 | A falsy `trip_id` gives InvalidInput. A missing trip or zero seats gives NoCapacity. A failed insert gives InternalError after the rollback. Every failure leaves the store unchanged. On success exactly that trip loses one seat and exactly one pending, unpaid ticket is added. Its price is the request's `price_cents`, or 10000 cents when that is absent. Its passenger name is the request's name, or NULL when that is missing or empty. Non-negative counts and conservation are preserved. |
| `Reservation.Store.PayTicket` | server.js:95-111 | An unknown ref gives NotFound. A paid ticket is answered unchanged. Otherwise the status becomes paid and `paid_at` becomes now, with no other field, ticket or trip touched. Conservation is kept unless the ticket was cancelled, and then it is overshot by one. |
| `Reservation.Store.CancelTicket` | server.js:116-131 | An unknown ref gives NotFound and no change. Otherwise the ticket becomes cancelled, whatever its status, and its trip gains exactly one seat, with no cap. Conservation is kept for a ticket not yet cancelled and overshot by one for a cancelled one. |
| `Scenarios.SellOut` | server.js:59-67 | On a trip of capacity 2 the seat count goes 2, 1, 0, 0. The first ticket is pending and unpaid at the default price. The third reservation gets NoCapacity. |
| `Scenarios.CancelFreesSeat` | server.js:116-131 | On a sold-out trip a cancellation takes the count from 0 to 1, and the next reservation succeeds and takes it back to 0. |
| `Scenarios.PayTwice` | server.js:100-107 | Paying twice gives the same ticket both times, with the first `paid_at`, and the seat count stays the same. |
| `Scenarios.CancelTwice` | server.js:124-125 | Cancelling one ticket twice on a trip of capacity 1 leaves 2 seats available. |
| `Scenarios.PayAfterCancel` | server.js:100-107 | Cancelling and then paying a ticket on a trip of capacity 1 leaves 1 seat available and 1 ticket holding a seat. |
| `Scenarios.NegativeCapacity` | server.js:139-149 | Capacity 0 is rejected with InvalidInput. Capacity -1 creates a trip with `seats_available = -1`. |
| `Scenarios.ReserveRepeatedly` | server.js:59-67 | Reservation attempts with fresh refs against a trip with `k` seats: exactly the first `k` succeed, the rest get NoCapacity, and the count stops at 0. |

## Left out

- HTTP plumbing (Express routing, CORS, body parsing, status codes, `app.listen`, server.js:3-9, 20-23, 158-162). `Failure` carries the status code only as a comment.
- Opening the database and `PRAGMA foreign_keys` (server.js:11-18). The tables are maps. The foreign key becomes part of `Store.Valid`.
- The table schema, which is not in the source. The model assumes three things: ids are assigned in increasing order from 1, a ticket's ref is unique (a duplicate is refused by the INSERT), and a ticket must refer to an existing trip.
- `uuidv4().slice(0, 8)` and `nowISO()` (server.js:27-29, 69): randomness and the clock. Both are parameters. A colliding ref is not excluded by a precondition; it leads to the INSERT-failure path.
- Concurrency (server.js:57-81, 122-127). The interleaving of awaited statements on one shared connection is not modelled, and neither is SQLite's transaction isolation. Each handler is one atomic step, and `Scenarios.ReserveRepeatedly` runs competing reservations one after another.
- Driver failures other than the ticket INSERT. A failing BEGIN, UPDATE or COMMIT in the create-ticket handler also ends in ROLLBACK and a 500 answer. The model's `driverFault` is only one such failure, checked after a successful decrement. The pay, cancel and create-trip handlers have no error handling of their own, so their driver failures are not modelled.
- The `SELECT` after each write (server.js:83, 109, 129), and `console.error` (server.js:86). The handlers return the row they wrote, which is what the SELECT reads back.
- JSON values outside the modelled types. Request fields are `Option<int>` or `Option<string>`, with `None` for undefined or null. Numbers sent as strings, an explicit `null` price and non-integer numbers are not modelled. The trip id in `GET /trips/:id` is an `int`, not the URL's text.
- Ties in `ORDER BY depart_at`: the database leaves their order open, and so does `Store.ListTrips`. Departure times are compared as text, character by character. Departure times sent as numbers are not modelled.

/** The two tables of the ticket backend (trips and tickets) as values, the
    request-field conventions of its handlers, and the facts about the tables
    that the reservation protocol relies on. */
module Inventory {

  datatype Option<T> = None | Some(value: T)

  /** Lifecycle of a ticket: created `pending`, then `paid` and/or `cancelled`. */
  datatype Status = Pending | Paid | Cancelled

  /** A row of the `trips` table. */
  datatype Trip = Trip(
    id: int,
    origin: string,
    destination: string,
    departAt: string,
    capacity: int,
    seatsAvailable: int)

  /** A row of the `tickets` table. */
  datatype Ticket = Ticket(
    id: int,
    ref: string,
    tripId: int,
    passengerName: Option<string>,
    status: Status,
    priceCents: int,
    createdAt: string,
    paidAt: Option<string>)

  /** How a handler fails; the comment gives the HTTP status it answers with. */
  datatype Failure =
    | InvalidInput   // 400
    | NotFound       // 404
    | NoCapacity     // 409
    | InternalError  // 500, after a rolled-back transaction

  datatype Result<T> = Ok(value: T) | Err(failure: Failure)

  /** The price a new ticket gets when the request names none. */
  const DefaultPriceCents: int := 10000

  /** JavaScript truthiness of a numeric request field: absent (or null) and 0 are falsy. */
  predicate TruthyNumber(field: Option<int>)
  {
    field.Some? && field.value != 0
  }

  /** JavaScript truthiness of a text request field: absent (or null) and "" are falsy. */
  predicate TruthyText(field: Option<string>)
  {
    field.Some? && field.value != ""
  }

  /** `price_cents = 10000` as a destructuring default: it applies only when the field is absent. */
  function PriceOrDefault(field: Option<int>): int
  {
    match field
    case None => DefaultPriceCents
    case Some(p) => p
  }

  /** `passenger_name || null`: a falsy name is stored as NULL. */
  function StoredName(field: Option<string>): Option<string>
  {
    if TruthyText(field) then field else None
  }

  // ---------------------------------------------------------------------
  // Ordering of `depart_at` values: text compared character by character,
  // as the database's default collation compares text.
  // ---------------------------------------------------------------------

  predicate TextLe(a: string, b: string)
  {
    if a == [] then true
    else if b == [] then false
    else if a[0] != b[0] then a[0] < b[0]
    else TextLe(a[1..], b[1..])
  }

  lemma {:induction false} TextLeTotal(a: string, b: string)
    ensures TextLe(a, b) || TextLe(b, a)
  {
    if a != [] && b != [] && a[0] == b[0] {
      TextLeTotal(a[1..], b[1..]);
    }
  }

  lemma {:induction false} TextLeTransitive(a: string, b: string, c: string)
    requires TextLe(a, b) && TextLe(b, c)
    ensures TextLe(a, c)
  {
    if a != [] && b != [] && c != [] && a[0] == b[0] && b[0] == c[0] {
      TextLeTransitive(a[1..], b[1..], c[1..]);
    }
  }

  /** Trips in ascending order of departure. */
  predicate ByDeparture(s: seq<Trip>)
  {
    forall i, j :: 0 <= i < j < |s| ==> TextLe(s[i].departAt, s[j].departAt)
  }

  /** One step of the query engine's sort: `t` placed after every trip that
      does not depart later than it. */
  function InsertByDeparture(t: Trip, s: seq<Trip>): (r: seq<Trip>)
    requires ByDeparture(s)
    ensures ByDeparture(r)
    ensures multiset(r) == multiset(s) + multiset{t}
    ensures forall x :: x in r <==> x == t || x in s
    ensures |r| == |s| + 1
    decreases |s|
  {
    if s == [] then [t]
    else if !TextLe(s[0].departAt, t.departAt) then
      TextLeTotal(s[0].departAt, t.departAt);
      forall j | 0 <= j < |s| ensures TextLe(t.departAt, s[j].departAt) {
        if j > 0 { TextLeTransitive(t.departAt, s[0].departAt, s[j].departAt); }
      }
      [t] + s
    else
      var rest := InsertByDeparture(t, s[1..]);
      assert s == [s[0]] + s[1..];
      forall j | 0 <= j < |rest| ensures TextLe(s[0].departAt, rest[j].departAt) {
        assert rest[j] in multiset(rest);
        assert rest[j] == t || rest[j] in multiset(s[1..]);
        if rest[j] != t {
          var k :| 0 <= k < |s[1..]| && s[1..][k] == rest[j];
          assert s[k + 1] == rest[j];
        }
      }
      [s[0]] + rest
  }

  /** No two trips of the list share an id. */
  predicate DistinctIds(s: seq<Trip>)
  {
    forall i, j :: 0 <= i < j < |s| ==> s[i].id != s[j].id
  }

  /** Inserting a trip whose id the list does not hold yet keeps the ids distinct. */
  lemma {:induction false} InsertKeepsIdsDistinct(t: Trip, s: seq<Trip>)
    requires ByDeparture(s) && DistinctIds(s)
    requires forall x :: x in s ==> x.id != t.id
    ensures DistinctIds(InsertByDeparture(t, s))
    decreases |s|
  {
    var r := InsertByDeparture(t, s);
    if s == [] {
    } else if !TextLe(s[0].departAt, t.departAt) {
      assert r == [t] + s;
      forall i, j | 0 <= i < j < |r| ensures r[i].id != r[j].id {
        assert r[j] == s[j - 1] && s[j - 1] in s;
        if i > 0 {
          assert r[i] == s[i - 1];
        }
      }
    } else {
      var tail := s[1..];
      assert forall x :: x in tail ==> x in s;
      InsertKeepsIdsDistinct(t, tail);
      var rest := InsertByDeparture(t, tail);
      assert r == [s[0]] + rest;
      forall i, j | 0 <= i < j < |r| ensures r[i].id != r[j].id {
        assert r[j] == rest[j - 1];
        if i == 0 {
          assert rest[j - 1] in rest;
          if rest[j - 1] == t {
            assert s[0] in s;
          } else {
            var k :| 0 <= k < |tail| && tail[k] == rest[j - 1];
            assert s[k + 1] == rest[j - 1];
          }
        } else {
          assert r[i] == rest[i - 1];
        }
      }
    }
  }

  // ---------------------------------------------------------------------
  // Seat accounting: a ticket holds a seat of its trip unless cancelled.
  // ---------------------------------------------------------------------

  predicate HoldsSeat(t: Ticket, tripId: int)
  {
    t.tripId == tripId && t.status != Cancelled
  }

  /** The refs of the tickets that hold a seat of trip `tripId`. */
  function SeatHolders(tickets: map<string, Ticket>, tripId: int): set<string>
  {
    set r | r in tickets && HoldsSeat(tickets[r], tripId)
  }

  /** The number of non-cancelled tickets of trip `tripId`. */
  function ActiveCount(tickets: map<string, Ticket>, tripId: int): nat
  {
    |SeatHolders(tickets, tripId)|
  }

  /** Writing one ticket row changes a trip's count of seat holders by what
      the old row held and what the new row holds, and nothing else. */
  lemma ActiveCountAfterWrite(tickets: map<string, Ticket>, ref: string, t: Ticket, tripId: int)
    ensures ActiveCount(tickets[ref := t], tripId) ==
      ActiveCount(tickets, tripId)
      - (if ref in tickets && HoldsSeat(tickets[ref], tripId) then 1 else 0)
      + (if HoldsSeat(t, tripId) then 1 else 0)
  {
    var before := SeatHolders(tickets, tripId);
    var kept := before - {ref};
    var after := SeatHolders(tickets[ref := t], tripId);
    assert after == if HoldsSeat(t, tripId) then kept + {ref} else kept;
    if ref in before {
      assert before == kept + {ref};
    } else {
      assert before == kept;
    }
  }

  /** No trip has a negative seat count. */
  predicate SeatsNonNegative(trips: map<int, Trip>)
  {
    forall id :: id in trips ==> trips[id].seatsAvailable >= 0
  }

  /** The trips table with trip `id`'s seat count moved by `delta`; no other
      trip and no other column changes. */
  function AdjustSeats(trips: map<int, Trip>, id: int, delta: int): (r: map<int, Trip>)
    requires id in trips
    ensures r.Keys == trips.Keys
    ensures r[id] == trips[id].(seatsAvailable := trips[id].seatsAvailable + delta)
    ensures forall k :: k in trips && k != id ==> r[k] == trips[k]
    ensures SeatsNonNegative(trips) && trips[id].seatsAvailable + delta >= 0 ==> SeatsNonNegative(r)
  {
    trips[id := trips[id].(seatsAvailable := trips[id].seatsAvailable + delta)]
  }

  /** Every seat of every trip is either available or held by exactly one
      non-cancelled ticket of that trip. */
  predicate SeatsConserved(trips: map<int, Trip>, tickets: map<string, Ticket>)
  {
    forall id {:trigger ActiveCount(tickets, id)} ::
      id in trips ==> trips[id].seatsAvailable + ActiveCount(tickets, id) == trips[id].capacity
  }

  /** Conservation bounds the seat count by the capacity, and together with
      non-negative counts it rules out overselling. */
  lemma ConservedBounds(trips: map<int, Trip>, tickets: map<string, Ticket>, id: int)
    requires SeatsConserved(trips, tickets) && id in trips
    ensures trips[id].seatsAvailable <= trips[id].capacity
    ensures trips[id].seatsAvailable >= 0 ==> ActiveCount(tickets, id) <= trips[id].capacity
  {
    assert trips[id].seatsAvailable + ActiveCount(tickets, id) == trips[id].capacity;
  }

  /** A new trip whose seats are all available, and which no ticket refers
      to, keeps the seats conserved. */
  lemma NewTripConserved(trips: map<int, Trip>, tickets: map<string, Ticket>, trip: Trip)
    requires SeatsConserved(trips, tickets)
    requires trip.seatsAvailable == trip.capacity
    requires forall r :: r in tickets ==> tickets[r].tripId != trip.id
    ensures SeatsConserved(trips[trip.id := trip], tickets)
  {
  }

  /** Taking a seat of trip `id` and issuing a pending ticket for it under a
      new ref keeps the seats conserved. */
  lemma ReserveConserved(trips: map<int, Trip>, tickets: map<string, Ticket>, id: int, ref: string, t: Ticket)
    requires SeatsConserved(trips, tickets) && id in trips
    requires ref !in tickets && t.tripId == id && t.status == Pending
    ensures SeatsConserved(AdjustSeats(trips, id, -1), tickets[ref := t])
  {
    var trips', tickets' := AdjustSeats(trips, id, -1), tickets[ref := t];
    forall k | k in trips'
      ensures trips'[k].seatsAvailable + ActiveCount(tickets', k) == trips'[k].capacity
    {
      ActiveCountAfterWrite(tickets, ref, t, k);
    }
  }

  /** The ticket row as the cancel handler rewrites it. */
  function AsCancelled(t: Ticket): Ticket { t.(status := Cancelled) }

  /** Cancelling a ticket that still holds a seat keeps the seats conserved. */
  lemma CancelConserved(trips: map<int, Trip>, tickets: map<string, Ticket>, ref: string)
    requires SeatsConserved(trips, tickets)
    requires ref in tickets && tickets[ref].tripId in trips && tickets[ref].status != Cancelled
    ensures SeatsConserved(AdjustSeats(trips, tickets[ref].tripId, 1), tickets[ref := AsCancelled(tickets[ref])])
  {
    var id := tickets[ref].tripId;
    var trips', tickets' := AdjustSeats(trips, id, 1), tickets[ref := AsCancelled(tickets[ref])];
    forall k | k in trips'
      ensures trips'[k].seatsAvailable + ActiveCount(tickets', k) == trips'[k].capacity
    {
      ActiveCountAfterWrite(tickets, ref, AsCancelled(tickets[ref]), k);
    }
  }

  /** Cancelling an already cancelled ticket gives its trip a second seat
      back: the trip then counts one seat more than it has. */
  lemma CancelTwiceOverfills(trips: map<int, Trip>, tickets: map<string, Ticket>, ref: string)
    requires SeatsConserved(trips, tickets)
    requires ref in tickets && tickets[ref].tripId in trips && tickets[ref].status == Cancelled
    ensures var id := tickets[ref].tripId;
            var trips', tickets' := AdjustSeats(trips, id, 1), tickets[ref := AsCancelled(tickets[ref])];
            trips'[id].seatsAvailable + ActiveCount(tickets', id) == trips'[id].capacity + 1
  {
    ActiveCountAfterWrite(tickets, ref, AsCancelled(tickets[ref]), tickets[ref].tripId);
  }

  /** The ticket row as the pay handler rewrites it at time `now`. */
  function AsPaid(t: Ticket, now: string): Ticket { t.(status := Paid, paidAt := Some(now)) }

  /** Paying a ticket that holds a seat leaves the seat accounting as it was. */
  lemma PayConserved(trips: map<int, Trip>, tickets: map<string, Ticket>, ref: string, now: string)
    requires SeatsConserved(trips, tickets)
    requires ref in tickets && tickets[ref].status != Cancelled
    ensures SeatsConserved(trips, tickets[ref := AsPaid(tickets[ref], now)])
  {
    forall k | k in trips
      ensures trips[k].seatsAvailable + ActiveCount(tickets[ref := AsPaid(tickets[ref], now)], k) == trips[k].capacity
    {
      ActiveCountAfterWrite(tickets, ref, AsPaid(tickets[ref], now), k);
    }
  }

  /** Paying a cancelled ticket makes it hold a seat again although its seat
      was already given back: the trip then counts one seat more than it has. */
  lemma PayAfterCancelOverfills(trips: map<int, Trip>, tickets: map<string, Ticket>, ref: string, now: string)
    requires SeatsConserved(trips, tickets)
    requires ref in tickets && tickets[ref].tripId in trips && tickets[ref].status == Cancelled
    ensures var id := tickets[ref].tripId;
            trips[id].seatsAvailable + ActiveCount(tickets[ref := AsPaid(tickets[ref], now)], id) ==
              trips[id].capacity + 1
  {
    ActiveCountAfterWrite(tickets, ref, AsPaid(tickets[ref], now), tickets[ref].tripId);
  }
}

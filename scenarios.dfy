/** Clients of the store: usage scenarios of the ticket
    backend, stated as what a caller can conclude from the handlers'
    contracts alone. */
module Scenarios {
  import opened Inventory
  import opened Reservation

  /** A trip of capacity 2: two reservations succeed and a third meets no
      capacity, leaving the count at zero. `s0` to `s3` are the trip's seat
      counts at the start and after each attempt. */
  method SellOut() returns (s0: int, s1: int, s2: int, s3: int, first: Result<Ticket>, third: Result<Ticket>)
    ensures s0 == 2 && s1 == 1 && s2 == 0 && s3 == 0
    ensures first.Ok? && first.value.status == Pending && first.value.priceCents == 10000
    ensures first.value.passengerName == Some("Ana") && first.value.paidAt == None
    ensures third == Err(NoCapacity)
  {
    var store := new Store();
    var trip := store.CreateTrip(Some("A"), Some("B"), Some("2025-01-01T08:00"), Some(2));
    var id := trip.value.id;
    s0 := store.trips[id].seatsAvailable;
    first := store.CreateTicket(Some(id), Some("Ana"), None, "ref1", "t1", false);
    s1 := store.trips[id].seatsAvailable;
    var second := store.CreateTicket(Some(id), None, None, "ref2", "t2", false);
    s2 := store.trips[id].seatsAvailable;
    third := store.CreateTicket(Some(id), None, None, "ref3", "t3", false);
    s3 := store.trips[id].seatsAvailable;
  }

  /** On a sold-out trip, cancelling a ticket frees its seat and the next
      reservation takes it. `s0` to `s2` are the seat counts when sold out,
      after the cancellation and after the next reservation. */
  method CancelFreesSeat() returns (s0: int, s1: int, s2: int, next: Result<Ticket>)
    ensures s0 == 0 && s1 == 1 && s2 == 0
    ensures next.Ok? && next.value.ref == "ref2" && next.value.status == Pending
  {
    var store := new Store();
    var trip := store.CreateTrip(Some("A"), Some("B"), Some("2025-01-01T08:00"), Some(1));
    var id := trip.value.id;
    var first := store.CreateTicket(Some(id), None, None, "ref1", "t1", false);
    assert store.tickets["ref1"].tripId == id;
    s0 := store.trips[id].seatsAvailable;
    var cancelled := store.CancelTicket("ref1");
    s1 := store.trips[id].seatsAvailable;
    next := store.CreateTicket(Some(id), None, None, "ref2", "t2", false);
    s2 := store.trips[id].seatsAvailable;
  }

  /** Paying twice answers the same ticket both times: the first payment's
      timestamp stays, and the seat count does not move. */
  method PayTwice() returns (first: Result<Ticket>, second: Result<Ticket>, seatsBefore: int, seatsAfter: int)
    ensures first.Ok? && first.value.status == Paid && first.value.paidAt == Some("t1")
    ensures second == first
    ensures seatsBefore == seatsAfter == 4
  {
    var store := new Store();
    var trip := store.CreateTrip(Some("A"), Some("B"), Some("2025-01-01T08:00"), Some(5));
    var id := trip.value.id;
    var ticket := store.CreateTicket(Some(id), None, Some(2500), "ref1", "t0", false);
    seatsBefore := store.trips[id].seatsAvailable;
    first := store.PayTicket("ref1", "t1");
    second := store.PayTicket("ref1", "t2");
    seatsAfter := store.trips[id].seatsAvailable;
  }

  /** Cancelling the same ticket twice returns two seats for one ticket: the
      trip then shows more seats available than it has. */
  method CancelTwice() returns (capacity: int, seatsAfter: int)
    ensures capacity == 1 && seatsAfter == 2
  {
    var store := new Store();
    var trip := store.CreateTrip(Some("A"), Some("B"), Some("2025-01-01T08:00"), Some(1));
    var id := trip.value.id;
    capacity := store.trips[id].capacity;
    var ticket := store.CreateTicket(Some(id), None, None, "ref1", "t0", false);
    var once := store.CancelTicket("ref1");
    var twice := store.CancelTicket("ref1");
    seatsAfter := store.trips[id].seatsAvailable;
  }

  /** Paying a cancelled ticket revives it while its seat stays released: a
      trip of capacity 1 then shows its seat available and a ticket holding it. */
  method PayAfterCancel() returns (capacity: int, seats: int, holders: nat)
    ensures capacity == 1 && seats == 1 && holders == 1
  {
    var store := new Store();
    var trip := store.CreateTrip(Some("A"), Some("B"), Some("2025-01-01T08:00"), Some(1));
    var id := trip.value.id;
    capacity := store.trips[id].capacity;
    var ticket := store.CreateTicket(Some(id), None, None, "ref1", "t0", false);
    var cancelled := store.CancelTicket("ref1");
    var paid := store.PayTicket("ref1", "t1");
    seats := store.trips[id].seatsAvailable;
    holders := ActiveCount(store.tickets, id);
  }

  /** Only a capacity of 0 is refused: a negative capacity creates a trip whose
      seat count starts below zero. */
  method NegativeCapacity() returns (zero: Result<Trip>, negative: Result<Trip>)
    ensures zero == Err(InvalidInput)
    ensures negative.Ok? && negative.value.seatsAvailable == -1
  {
    var store := new Store();
    zero := store.CreateTrip(Some("A"), Some("B"), Some("2025-01-01T08:00"), Some(0));
    negative := store.CreateTrip(Some("A"), Some("B"), Some("2025-01-01T08:00"), Some(-1));
  }

  /** Reservation attempts against one trip, one after another, as the
      store's transactions serialise them: exactly as many succeed as there
      were seats, the rest meet no capacity, and the count stops at zero. */
  method ReserveRepeatedly(store: Store, id: int, refs: seq<string>, now: string)
    returns (results: seq<Result<Ticket>>)
    requires store.Valid() && id in store.trips && store.trips[id].seatsAvailable >= 0
    requires forall i :: 0 <= i < |refs| ==> refs[i] !in store.tickets
    requires forall i, j :: 0 <= i < j < |refs| ==> refs[i] != refs[j]
    modifies store
    ensures store.Valid()
    ensures |results| == |refs|
    ensures forall i :: 0 <= i < |refs| ==>
      (results[i].Ok? <==> i < old(store.trips[id].seatsAvailable))
    ensures forall i :: 0 <= i < |refs| && !results[i].Ok? ==> results[i] == Err(NoCapacity)
    ensures id in store.trips
    ensures store.trips[id].seatsAvailable ==
      if |refs| <= old(store.trips[id].seatsAvailable) then old(store.trips[id].seatsAvailable) - |refs| else 0
  {
    ghost var seats := store.trips[id].seatsAvailable;
    results := [];
    for i := 0 to |refs|
      invariant store.Valid() && id in store.trips
      invariant store.trips[id].seatsAvailable == if i <= seats then seats - i else 0
      invariant forall j :: i <= j < |refs| ==> refs[j] !in store.tickets
      invariant |results| == i
      invariant forall j :: 0 <= j < i ==> (results[j].Ok? <==> j < seats)
      invariant forall j :: 0 <= j < i && !results[j].Ok? ==> results[j] == Err(NoCapacity)
    {
      var r := store.CreateTicket(Some(id), None, None, refs[i], now, false);
      results := results + [r];
    }
  }
}

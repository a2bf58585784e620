/** The server's booking rules: the per-day capacity check, the guarded
    create, the full-date scan over a range of days, the status update, the
    delete and the store range window. The repositories are maps from id to
    record; a booking time is a count of nanoseconds, so that a day is the
    half-open block of NanosPerDay consecutive instants. */
module BookingService {
  import opened Common

  const NanosPerDay := 86_400_000_000_000

  /** LocalDateTime.toLocalDate(). */
  function DayOf(at: int): int {
    at / NanosPerDay
  }

  /** LocalDate.atStartOfDay(). */
  function StartOfDay(day: int): int {
    day * NanosPerDay
  }

  /** LocalDate.atTime(LocalTime.MAX): the last nanosecond of the day. */
  function EndOfDay(day: int): int {
    day * NanosPerDay + NanosPerDay - 1
  }

  /** The closed window [start of day, end of day] holds exactly the instants
      of that day. */
  lemma DayWindow(at: int, day: int)
    ensures StartOfDay(day) <= at <= EndOfDay(day) <==> DayOf(at) == day
  {
  }

  /** A stored booking: its service, its customer, its time and its status. */
  datatype Booking = Booking(serviceId: int, userId: int, at: int, status: BookingStatus)

  /** A stored service: the business offering it and its bookings per day. */
  datatype PetService = PetService(businessId: int, capacity: int)

  const ServiceNotFound := "Service not found"
  const ServiceFull := "Service is full for the selected date"
  const BookingNotFound := "Booking not found"

  // ---------------------------------------------------------------------------
  // The day count

  /** The booking takes a place of `serviceId` on `day`: it is not cancelled
      and falls on that day. */
  predicate Active(b: Booking, serviceId: int, day: int) {
    b.serviceId == serviceId && DayOf(b.at) == day && b.status != CANCELLED
  }

  function ActiveIds(bookings: map<int, Booking>, serviceId: int, day: int): set<int> {
    set id | id in bookings && Active(bookings[id], serviceId, day)
  }

  /** The number of places taken of `serviceId` on `day`. */
  function ActiveCount(bookings: map<int, Booking>, serviceId: int, day: int): nat {
    |ActiveIds(bookings, serviceId, day)|
  }

  /** The repository query as written: start <= time < end, with `end` the
      last nanosecond of the day. */
  function CountAsWritten(bookings: map<int, Booking>, serviceId: int, day: int): (r: nat)
    ensures r <= ActiveCount(bookings, serviceId, day)
    ensures r < ActiveCount(bookings, serviceId, day) <==>
      exists id :: id in bookings && Active(bookings[id], serviceId, day) && bookings[id].at == EndOfDay(day)
  {
    var counted := set id | id in bookings && bookings[id].serviceId == serviceId && bookings[id].status != CANCELLED
                && StartOfDay(day) <= bookings[id].at < EndOfDay(day);
    var active := ActiveIds(bookings, serviceId, day);
    var missed := set id | id in bookings && Active(bookings[id], serviceId, day) && bookings[id].at == EndOfDay(day);
    assert counted <= active && active - counted == missed by {
      forall id | id in bookings ensures id in counted ==> id in active
        ensures id in active - counted <==> id in missed {
        DayWindow(bookings[id].at, day);
      }
    }
    assert active == counted + missed;
    assert (exists id :: id in bookings && Active(bookings[id], serviceId, day) && bookings[id].at == EndOfDay(day))
      <==> missed != {} by {
      if !exists id :: id in bookings && Active(bookings[id], serviceId, day) && bookings[id].at == EndOfDay(day) {
        assert missed == {};
      }
      if exists id :: id in bookings && Active(bookings[id], serviceId, day) && bookings[id].at == EndOfDay(day) {
        var x :| x in bookings && Active(bookings[x], serviceId, day) && bookings[x].at == EndOfDay(day);
        assert x in missed;
      }
    }
    |counted|
  }

  /** A booking at the last nanosecond of a day takes a place on that day
      but the query as written does not count it. */
  lemma {:induction false} LastNanosecondNotCounted(serviceId: int, userId: int, day: int)
    ensures var bookings := map[1 := Booking(serviceId, userId, EndOfDay(day), PENDING)];
      CountAsWritten(bookings, serviceId, day) == 0 && ActiveCount(bookings, serviceId, day) == 1
  {
    var bookings := map[1 := Booking(serviceId, userId, EndOfDay(day), PENDING)];
    DayWindow(EndOfDay(day), day);
    assert ActiveIds(bookings, serviceId, day) == {1};
    assert (set id | id in bookings && bookings[id].serviceId == serviceId && bookings[id].status != CANCELLED
                && StartOfDay(day) <= bookings[id].at < EndOfDay(day)) == {};
  }

  /** isAvailable: Err for an unknown service, otherwise whether a place is
      left on that day. */
  function IsAvailable(bookings: map<int, Booking>, services: map<int, PetService>, serviceId: int, day: int)
    : (r: Result<bool>)
    ensures r.Err? <==> serviceId !in services
    ensures r.Err? ==> r.error == ServiceNotFound
    ensures r == Ok(true) <==> serviceId in services && ActiveCount(bookings, serviceId, day) < services[serviceId].capacity
  {
    if serviceId !in services then Err(ServiceNotFound)
    else Ok(ActiveCount(bookings, serviceId, day) < services[serviceId].capacity)
  }

  /** No service has more places taken on any day than its capacity. */
  ghost predicate NotOverbooked(bookings: map<int, Booking>, services: map<int, PetService>) {
    forall s, d :: s in services ==> WithinCapacity(bookings, services, s, d)
  }

  /** Service `s` has no more places taken on day `d` than its capacity. */
  predicate WithinCapacity(bookings: map<int, Booking>, services: map<int, PetService>, s: int, d: int)
    requires s in services
  {
    ActiveCount(bookings, s, d) <= services[s].capacity
  }

  lemma ActiveIdsInsert(bookings: map<int, Booking>, id: int, b: Booking, s: int, d: int)
    requires id !in bookings
    ensures ActiveIds(bookings[id := b], s, d) == ActiveIds(bookings, s, d) + (if Active(b, s, d) then {id} else {})
  {
  }

  /** A booking stored only while its day has a place left keeps every
      service within capacity. */
  lemma {:induction false} CreateKeepsCapacity(bookings: map<int, Booking>, services: map<int, PetService>, id: int, b: Booking)
    requires NotOverbooked(bookings, services)
    requires id !in bookings
    requires IsAvailable(bookings, services, b.serviceId, DayOf(b.at)) == Ok(true)
    ensures NotOverbooked(bookings[id := b], services)
  {
    var after := bookings[id := b];
    forall s, d | s in services ensures WithinCapacity(after, services, s, d) {
      assert WithinCapacity(bookings, services, s, d);
      ActiveIdsInsert(bookings, id, b, s, d);
    }
  }

  /** Removing a booking never takes a service over capacity. */
  lemma {:induction false} DeleteKeepsCapacity(bookings: map<int, Booking>, services: map<int, PetService>, id: int)
    requires NotOverbooked(bookings, services)
    ensures NotOverbooked(bookings - {id}, services)
  {
    var after := bookings - {id};
    forall s, d | s in services ensures WithinCapacity(after, services, s, d) {
      assert WithinCapacity(bookings, services, s, d);
      assert ActiveIds(bookings - {id}, s, d) <= ActiveIds(bookings, s, d);
      SubsetCard(ActiveIds(bookings - {id}, s, d), ActiveIds(bookings, s, d));
    }
  }

  lemma SubsetCard(a: set<int>, b: set<int>)
    requires a <= b
    ensures |a| <= |b|
  {
    assert b == a + (b - a);
  }

  /** A status change that cancels a booking, or that moves it between two
      active statuses, never takes a service over capacity. */
  lemma {:induction false} StatusChangeKeepsCapacity(
    bookings: map<int, Booking>, services: map<int, PetService>, id: int, status: BookingStatus)
    requires NotOverbooked(bookings, services)
    requires id in bookings && (status == CANCELLED || bookings[id].status != CANCELLED)
    ensures NotOverbooked(bookings[id := bookings[id].(status := status)], services)
  {
    var after := bookings[id := bookings[id].(status := status)];
    forall s, d | s in services ensures WithinCapacity(after, services, s, d) {
      assert WithinCapacity(bookings, services, s, d);
      assert ActiveIds(after, s, d) <= ActiveIds(bookings, s, d);
      SubsetCard(ActiveIds(after, s, d), ActiveIds(bookings, s, d));
    }
  }

  /** Capacity is checked only when a booking is created: setting a cancelled
      booking back to PENDING on a day that has filled up since takes the
      service over capacity. */
  lemma ReviveCanOverbook()
    ensures var services := map[7 := PetService(1, 1)];
      var bookings := map[1 := Booking(7, 1, 0, CANCELLED), 2 := Booking(7, 2, 0, PENDING)];
      NotOverbooked(bookings, services)
      && !NotOverbooked(bookings[1 := bookings[1].(status := PENDING)], services)
  {
    var services := map[7 := PetService(1, 1)];
    var bookings := map[1 := Booking(7, 1, 0, CANCELLED), 2 := Booking(7, 2, 0, PENDING)];
    forall s, d | s in services ensures WithinCapacity(bookings, services, s, d) {
      assert ActiveIds(bookings, s, d) <= {2};
      SubsetCard(ActiveIds(bookings, s, d), {2});
    }
    var after := bookings[1 := bookings[1].(status := PENDING)];
    assert Active(after[1], 7, 0) && Active(after[2], 7, 0);
    assert ActiveIds(after, 7, 0) == {1, 2};
    assert !WithinCapacity(after, services, 7, 0);
  }

  // ---------------------------------------------------------------------------
  // getBookingsByStoreInRange

  /** The bookings of a business's services from the start of `startDate`
      to the end of `endDate` (the query's Between is inclusive). */
  function BookingsInRange(bookings: map<int, Booking>, services: map<int, PetService>,
                           businessId: int, startDate: int, endDate: int): (ids: set<int>)
    ensures forall id :: id in ids <==>
      id in bookings && bookings[id].serviceId in services && services[bookings[id].serviceId].businessId == businessId
      && startDate <= DayOf(bookings[id].at) <= endDate
  {
    var ids := set id | id in bookings && bookings[id].serviceId in services
                        && services[bookings[id].serviceId].businessId == businessId
                        && StartOfDay(startDate) <= bookings[id].at <= EndOfDay(endDate);
    assert forall id :: id in bookings ==>
      (StartOfDay(startDate) <= bookings[id].at <= EndOfDay(endDate) <==> startDate <= DayOf(bookings[id].at) <= endDate) by {
      forall id | id in bookings
        ensures StartOfDay(startDate) <= bookings[id].at <= EndOfDay(endDate) <==> startDate <= DayOf(bookings[id].at) <= endDate {
        DayWindow(bookings[id].at, DayOf(bookings[id].at));
      }
    }
    ids
  }

  // ---------------------------------------------------------------------------
  // The service

  class Bookings {
    var bookings: map<int, Booking>
    var services: map<int, PetService>
    /** The next id the repository hands out. */
    var nextId: int

    ghost predicate Valid()
      reads this
    {
      forall id :: id in bookings ==> id < nextId
    }

    constructor(services: map<int, PetService>)
      ensures Valid() && bookings == map[] && this.services == services
    {
      bookings := map[];
      this.services := services;
      nextId := 1;
    }

    /** createBooking: store the booking under a fresh id when its day has a
        place left; otherwise fail and store nothing. */
    method CreateBooking(b: Booking) returns (r: Result<int>)
      requires Valid()
      modifies this`bookings, this`nextId
      ensures Valid()
      ensures IsAvailable(old(bookings), services, b.serviceId, DayOf(b.at)) == Err(ServiceNotFound) ==>
        r == Err(ServiceNotFound) && bookings == old(bookings)
      ensures IsAvailable(old(bookings), services, b.serviceId, DayOf(b.at)) == Ok(false) ==>
        r == Err(ServiceFull) && bookings == old(bookings)
      ensures IsAvailable(old(bookings), services, b.serviceId, DayOf(b.at)) == Ok(true) ==>
        r.Ok? && r.value !in old(bookings) && bookings == old(bookings)[r.value := b]
      ensures NotOverbooked(old(bookings), services) ==> NotOverbooked(bookings, services)
    {
      var available := IsAvailable(bookings, services, b.serviceId, DayOf(b.at));
      if available.Err? {
        return Err(available.error);
      }
      if !available.value {
        return Err(ServiceFull);
      }
      var id := nextId;
      if NotOverbooked(bookings, services) {
        CreateKeepsCapacity(bookings, services, id, b);
      }
      bookings := bookings[id := b];
      nextId := nextId + 1;
      r := Ok(id);
    }

    /** getFullDates: the days from `start` to `end`, ascending, on which no
        place is left. The day loop asks isAvailable, so an unknown service
        fails as soon as the range holds a day, and an empty range gives []. */
    method GetFullDates(serviceId: int, start: int, end: int) returns (r: Result<seq<int>>)
      ensures start > end ==> r == Ok([])
      ensures start <= end && serviceId !in services ==> r == Err(ServiceNotFound)
      ensures serviceId in services ==> r.Ok?
      ensures r.Ok? ==> forall i, j :: 0 <= i < j < |r.value| ==> r.value[i] < r.value[j]
      ensures r.Ok? ==> forall d :: d in r.value <==>
        start <= d <= end && IsAvailable(bookings, services, serviceId, d) == Ok(false)
    {
      var fullDates: seq<int> := [];
      var date := start;
      while date <= end
        invariant start <= date || start > end
        invariant start <= end ==> date <= end + 1
        invariant start > end ==> date == start
        invariant serviceId !in services ==> date == start
        invariant start > end ==> fullDates == []
        invariant forall i :: 0 <= i < |fullDates| ==> fullDates[i] < date
        invariant forall i, j :: 0 <= i < j < |fullDates| ==> fullDates[i] < fullDates[j]
        invariant forall d :: d in fullDates <==>
          start <= d < date && IsAvailable(bookings, services, serviceId, d) == Ok(false)
      {
        var available := IsAvailable(bookings, services, serviceId, date);
        if available.Err? {
          return Err(available.error);
        }
        if !available.value {
          fullDates := fullDates + [date];
        }
        date := date + 1;
      }
      r := Ok(fullDates);
    }

    /** updateBookingStatus: an unknown id changes nothing; otherwise only
        that booking's status changes. A cancellation notice is requested
        exactly when the new status is CANCELLED. When that notice throws,
        the catch keeps the exception from the caller but not from the
        shared transaction: the status change is rolled back and the call
        fails with RolledBack. */
    method UpdateBookingStatus(id: int, status: BookingStatus, noticeFails: bool)
      returns (r: Result<()>, noticeRequested: bool)
      requires Valid()
      modifies this`bookings
      ensures Valid()
      ensures id !in old(bookings) ==> r == Ok(()) && bookings == old(bookings) && !noticeRequested
      ensures id in old(bookings) ==> noticeRequested == (status == CANCELLED)
      ensures id in old(bookings) && status == CANCELLED && noticeFails ==>
        r == Err(RolledBack) && bookings == old(bookings)
      ensures id in old(bookings) && !(status == CANCELLED && noticeFails) ==>
        r == Ok(()) && bookings == old(bookings)[id := old(bookings)[id].(status := status)]
    {
      noticeRequested := false;
      r := Ok(());
      if id in bookings {
        var before := bookings;
        bookings := bookings[id := bookings[id].(status := status)];
        if status == CANCELLED {
          noticeRequested := true;
          if noticeFails {
            bookings := before;
            r := Err(RolledBack);
          }
        }
      }
    }

    /** deleteBooking: fails for an unknown id; otherwise the user is notified
        and the booking removed. When the notice throws, the delete is rolled
        back with the rest of the transaction and the call fails with
        RolledBack. */
    method DeleteBooking(id: int, noticeFails: bool) returns (r: Result<()>)
      requires Valid()
      modifies this`bookings
      ensures Valid()
      ensures id !in old(bookings) ==> r == Err(BookingNotFound) && bookings == old(bookings)
      ensures id in old(bookings) && noticeFails ==> r == Err(RolledBack) && bookings == old(bookings)
      ensures id in old(bookings) && !noticeFails ==> r == Ok(()) && bookings == old(bookings) - {id}
      ensures NotOverbooked(old(bookings), services) ==> NotOverbooked(bookings, services)
    {
      if id !in bookings {
        return Err(BookingNotFound);
      }
      if noticeFails {
        return Err(RolledBack);
      }
      if NotOverbooked(bookings, services) {
        DeleteKeepsCapacity(bookings, services, id);
      }
      bookings := bookings - {id};
      r := Ok(());
    }
  }
}

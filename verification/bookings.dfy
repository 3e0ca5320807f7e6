/**
 * The booking engine (backend/controllers/booking-handler.js): booking
 * creation with its slot-conflict check, and the lifecycle
 * pending -> {confirmed, rejected, cancelled} driven by the customer
 * (cancel) and by the provider who owns the booking (accept, reject).
 */
module Bookings {
  import opened Lookup
  import opened Models
  import opened Store
  import Listing

  // ---------------------------------------------------------------------
  // Calendar days and slots

  const MsPerDay: int := 86_400_000

  /** The calendar day of a timestamp (UTC; the source uses server local time). */
  function DayOf(t: int): int {
    t / MsPerDay
  }

  /** `setHours(0, 0, 0, 0)` on the requested date. */
  function StartOfDay(t: int): int {
    DayOf(t) * MsPerDay
  }

  /** `setHours(23, 59, 59, 999)` on the requested date. */
  function EndOfDay(t: int): int {
    StartOfDay(t) + MsPerDay - 1
  }

  /** The inclusive window [00:00:00.000, 23:59:59.999] is exactly the calendar day. */
  lemma SameDayWindow(t: int, d: int)
    ensures StartOfDay(d) <= t <= EndOfDay(d) <==> DayOf(t) == DayOf(d)
  {
    var q := DayOf(d);
    var qt := DayOf(t);
    assert t == qt * MsPerDay + t % MsPerDay;
    if qt < q {
      assert qt * MsPerDay + MsPerDay <= q * MsPerDay;
    } else if qt > q {
      assert qt * MsPerDay >= q * MsPerDay + MsPerDay;
    }
  }

  /** What the conflict check keys on. */
  datatype Slot = Slot(providerId: Id, service: Id, day: int, time: string)

  function SlotOf(b: Booking): Slot {
    Slot(b.providerId, b.service, DayOf(b.date), b.time)
  }

  /** The conflict query: same provider, same service, a date within the requested day, same time string. */
  predicate Clashes(b: Booking, providerId: Id, service: Id, date: int, time: string) {
    && b.providerId == providerId
    && b.service == service
    && StartOfDay(date) <= b.date <= EndOfDay(date)
    && b.time == time
  }

  /** Some booking, whatever its customer or status, holds the slot. */
  predicate SlotTaken(bookings: map<Id, Booking>, providerId: Id, service: Id, date: int, time: string) {
    exists id :: id in bookings && Clashes(bookings[id], providerId, service, date, time)
  }

  lemma ClashIsSameSlot(b: Booking, providerId: Id, service: Id, date: int, time: string)
    ensures Clashes(b, providerId, service, date, time) <==> SlotOf(b) == Slot(providerId, service, DayOf(date), time)
  {
    SameDayWindow(b.date, date);
  }

  /** No two bookings share (provider, service, calendar day, time). */
  predicate SlotsDistinct(bookings: map<Id, Booking>) {
    forall a, b :: a in bookings && b in bookings && a != b ==> SlotOf(bookings[a]) != SlotOf(bookings[b])
  }

  // ---------------------------------------------------------------------
  // createBooking

  datatype BookingRequest = BookingRequest(
    providerId: Option<Id>,
    service: Option<Id>,
    date: Option<int>,
    time: string,
    location: string)

  /** All five fields present (and truthy). */
  predicate Complete(req: BookingRequest) {
    req.providerId.Some? && req.service.Some? && req.date.Some? && req.time != "" && req.location != ""
  }

  /** The request passes every guard before the conflict check. */
  predicate Bookable(s: Store, req: BookingRequest) {
    && Complete(req)
    && req.providerId.value in s.providers
    && req.service.value in s.services
    && Visible(s.services[req.service.value])
  }

  function NewBooking(customerId: Id, req: BookingRequest, now: int): Booking
    requires Complete(req)
  {
    Booking(customerId, req.providerId.value, req.service.value, req.date.value, req.time, req.location, Pending, now)
  }

  function CreateBooking(s: Store, customerId: Id, req: BookingRequest, now: int): (r: Step<Id>)
    ensures r.outcome.Fail? ==> r.store == s
    ensures !Complete(req) ==> r.outcome == Fail(BadRequest)
    ensures Complete(req) && req.providerId.value !in s.providers ==> r.outcome == Fail(NotFound)
    ensures (Complete(req) && req.providerId.value in s.providers && req.service.value !in s.services)
            ==> r.outcome == Fail(NotFound)
    ensures (Complete(req) && req.providerId.value in s.providers && req.service.value in s.services
             && !Visible(s.services[req.service.value]))
            ==> r.outcome == Fail(BadRequest)
    ensures (Bookable(s, req) && SlotTaken(s.bookings, req.providerId.value, req.service.value, req.date.value, req.time))
            ==> r.outcome == Fail(BadRequest)
    ensures r.outcome.Ok? <==>
            Bookable(s, req) && !SlotTaken(s.bookings, req.providerId.value, req.service.value, req.date.value, req.time)
    ensures r.outcome.Ok? ==>
            && r.outcome.value !in s.bookings
            && r.store == s.(bookings := s.bookings[r.outcome.value := NewBooking(customerId, req, now)])
  {
    if !Complete(req) then Step(s, Fail(BadRequest))
    else if req.providerId.value !in s.providers then Step(s, Fail(NotFound))
    else if req.service.value !in s.services then Step(s, Fail(NotFound))
    else if !Visible(s.services[req.service.value]) then Step(s, Fail(BadRequest))
    else if SlotTaken(s.bookings, req.providerId.value, req.service.value, req.date.value, req.time) then
      Step(s, Fail(BadRequest))
    else
      var id := FreshId(s.bookings);
      Step(s.(bookings := s.bookings[id := NewBooking(customerId, req, now)]), Ok(id))
  }

  /** A created booking is pending and carries the caller and the requested fields. */
  lemma CreatedBookingIsPending(s: Store, customerId: Id, req: BookingRequest, now: int)
    ensures var r := CreateBooking(s, customerId, req, now);
            r.outcome.Ok? ==>
              && r.outcome.value in r.store.bookings
              && r.store.bookings[r.outcome.value].status == Pending
              && r.store.bookings[r.outcome.value].customerId == customerId
              && |r.store.bookings| == |s.bookings| + 1
  {
  }

  lemma {:induction false} CreateBookingKeepsSlotsDistinct(s: Store, customerId: Id, req: BookingRequest, now: int)
    requires SlotsDistinct(s.bookings)
    ensures SlotsDistinct(CreateBooking(s, customerId, req, now).store.bookings)
  {
    var r := CreateBooking(s, customerId, req, now);
    if r.outcome.Ok? {
      var id := r.outcome.value;
      var nb := NewBooking(customerId, req, now);
      forall other | other in s.bookings
        ensures SlotOf(s.bookings[other]) != SlotOf(nb)
      {
        ClashIsSameSlot(s.bookings[other], req.providerId.value, req.service.value, req.date.value, req.time);
      }
      var bs := r.store.bookings;
      forall a, b | a in bs && b in bs && a != b
        ensures SlotOf(bs[a]) != SlotOf(bs[b])
      {
        if a == id {
          assert b in s.bookings;
        } else if b == id {
          assert a in s.bookings;
        } else {
          assert a in s.bookings && b in s.bookings;
        }
      }
    }
  }

  /**
   * Once a booking holds a slot, another complete request for the same
   * provider, service, calendar day and time fails with 400, whichever
   * customer makes it.
   */
  lemma {:induction false} SlotHeldBlocksRebooking(s: Store, customerId: Id, req: BookingRequest, now: int, held: Id)
    requires held in s.bookings
    requires Bookable(s, req)
    requires SlotOf(s.bookings[held]) == Slot(req.providerId.value, req.service.value, DayOf(req.date.value), req.time)
    ensures CreateBooking(s, customerId, req, now).outcome == Fail(BadRequest)
  {
    ClashIsSameSlot(s.bookings[held], req.providerId.value, req.service.value, req.date.value, req.time);
    assert Clashes(s.bookings[held], req.providerId.value, req.service.value, req.date.value, req.time);
  }

  lemma SecondBookingConflicts(s: Store, first: Id, second: Id, req: BookingRequest, req2: BookingRequest, now: int, now2: int)
    requires CreateBooking(s, first, req, now).outcome.Ok?
    requires Complete(req2)
    requires req2.providerId == req.providerId && req2.service == req.service && req2.time == req.time
    requires DayOf(req2.date.value) == DayOf(req.date.value)
    ensures CreateBooking(CreateBooking(s, first, req, now).store, second, req2, now2).outcome == Fail(BadRequest)
  {
    var r := CreateBooking(s, first, req, now);
    SlotHeldBlocksRebooking(r.store, second, req2, now2, r.outcome.value);
  }

  // ---------------------------------------------------------------------
  // The lifecycle

  /** The only transitions: from pending to one of the terminal statuses. */
  predicate Transition(from: BookingStatus, to: BookingStatus) {
    from == Pending && Terminal(to)
  }

  predicate OwnedByCustomer(s: Store, customerId: Id, bookingId: Id) {
    bookingId in s.bookings && s.bookings[bookingId].customerId == customerId
  }

  function WithStatus(s: Store, bookingId: Id, st: BookingStatus): Store
    requires bookingId in s.bookings
  {
    s.(bookings := s.bookings[bookingId := s.bookings[bookingId].(status := st)])
  }

  function CancelBooking(s: Store, customerId: Id, bookingId: Id): (r: Step<()>)
    ensures r.outcome.Fail? ==> r.store == s
    ensures !OwnedByCustomer(s, customerId, bookingId) ==> r.outcome == Fail(NotFound)
    ensures OwnedByCustomer(s, customerId, bookingId) && s.bookings[bookingId].status != Pending
            ==> r.outcome == Fail(BadRequest)
    ensures r.outcome.Ok? <==> OwnedByCustomer(s, customerId, bookingId) && s.bookings[bookingId].status == Pending
    ensures r.outcome.Ok? ==> r.store == WithStatus(s, bookingId, Cancelled)
  {
    if !OwnedByCustomer(s, customerId, bookingId) then Step(s, Fail(NotFound))
    else if s.bookings[bookingId].status != Pending then Step(s, Fail(BadRequest))
    else Step(WithStatus(s, bookingId, Cancelled), Ok(()))
  }

  datatype Verdict = Accept | Reject

  function VerdictStatus(v: Verdict): BookingStatus {
    match v
    case Accept => Confirmed
    case Reject => Rejected
  }

  /** The booking belongs to the caller's provider profile. */
  predicate OwnedByProvider(s: Store, userId: Id, bookingId: Id) {
    && ProfileOf(s, userId).Some?
    && bookingId in s.bookings
    && s.bookings[bookingId].providerId == ProfileOf(s, userId).value
  }

  /** The shared body of acceptBooking and rejectBooking. */
  function Decide(s: Store, userId: Id, bookingId: Id, v: Verdict): (r: Step<Booking>)
    ensures r.outcome.Fail? ==> r.store == s
    ensures ProfileOf(s, userId).None? ==> r.outcome == Fail(NotFound)
    ensures !OwnedByProvider(s, userId, bookingId) ==> r.outcome == Fail(NotFound)
    ensures OwnedByProvider(s, userId, bookingId) && s.bookings[bookingId].status != Pending
            ==> r.outcome == Fail(BadRequest)
    ensures r.outcome.Ok? <==> OwnedByProvider(s, userId, bookingId) && s.bookings[bookingId].status == Pending
    ensures r.outcome.Ok? ==>
            && r.store == WithStatus(s, bookingId, VerdictStatus(v))
            && r.outcome.value == r.store.bookings[bookingId]
  {
    match ProfileOf(s, userId)
    case None => Step(s, Fail(NotFound))
    case Some(profile) =>
      if !(bookingId in s.bookings && s.bookings[bookingId].providerId == profile) then Step(s, Fail(NotFound))
      else if s.bookings[bookingId].status != Pending then Step(s, Fail(BadRequest))
      else
        var s' := WithStatus(s, bookingId, VerdictStatus(v));
        Step(s', Ok(s'.bookings[bookingId]))
  }

  function AcceptBooking(s: Store, userId: Id, bookingId: Id): (r: Step<Booking>)
    ensures r.outcome.Ok? <==> OwnedByProvider(s, userId, bookingId) && s.bookings[bookingId].status == Pending
    ensures r.outcome.Ok? ==> r.outcome.value.status == Confirmed && r.store == WithStatus(s, bookingId, Confirmed)
    ensures r.outcome.Fail? ==> r.store == s
  {
    Decide(s, userId, bookingId, Accept)
  }

  function RejectBooking(s: Store, userId: Id, bookingId: Id): (r: Step<Booking>)
    ensures r.outcome.Ok? <==> OwnedByProvider(s, userId, bookingId) && s.bookings[bookingId].status == Pending
    ensures r.outcome.Ok? ==> r.outcome.value.status == Rejected && r.store == WithStatus(s, bookingId, Rejected)
    ensures r.outcome.Fail? ==> r.store == s
  {
    Decide(s, userId, bookingId, Reject)
  }

  /** The three lifecycle actions, by the customer or the owning provider. */
  datatype Action = CancelAction | AcceptAction | RejectAction

  function Perform(s: Store, callerId: Id, bookingId: Id, a: Action): Store {
    match a
    case CancelAction => CancelBooking(s, callerId, bookingId).store
    case AcceptAction => AcceptBooking(s, callerId, bookingId).store
    case RejectAction => RejectBooking(s, callerId, bookingId).store
  }

  predicate Succeeds(s: Store, callerId: Id, bookingId: Id, a: Action) {
    match a
    case CancelAction => CancelBooking(s, callerId, bookingId).outcome.Ok?
    case AcceptAction => AcceptBooking(s, callerId, bookingId).outcome.Ok?
    case RejectAction => RejectBooking(s, callerId, bookingId).outcome.Ok?
  }

  /**
   * Every successful action is a lifecycle transition of its booking and
   * leaves the other bookings, the slots and the rest of the store alone.
   */
  lemma ActionFollowsLifecycle(s: Store, callerId: Id, bookingId: Id, a: Action)
    ensures Succeeds(s, callerId, bookingId, a) ==>
            && bookingId in s.bookings
            && var s' := Perform(s, callerId, bookingId, a);
            && s'.bookings.Keys == s.bookings.Keys
            && Transition(s.bookings[bookingId].status, s'.bookings[bookingId].status)
            && SlotOf(s'.bookings[bookingId]) == SlotOf(s.bookings[bookingId])
            && (forall other :: other in s.bookings && other != bookingId ==> s'.bookings[other] == s.bookings[other])
            && s' == s.(bookings := s'.bookings)
    ensures !Succeeds(s, callerId, bookingId, a) ==> Perform(s, callerId, bookingId, a) == s
  {
  }

  /** A booking in a terminal status refuses cancel, accept and reject. */
  lemma TerminalRefusesActions(s: Store, callerId: Id, bookingId: Id, a: Action)
    requires bookingId in s.bookings && Terminal(s.bookings[bookingId].status)
    ensures !Succeeds(s, callerId, bookingId, a)
    ensures Perform(s, callerId, bookingId, a) == s
  {
  }

  // ---------------------------------------------------------------------
  // Listings

  function BookingDate(b: Booking): int {
    b.date
  }

  /** getCustomerBookings: the caller's bookings, latest date first. */
  method GetCustomerBookings(s: Store, customerId: Id) returns (r: seq<Id>)
    ensures forall b :: b in r <==> b in s.bookings && s.bookings[b].customerId == customerId
    ensures Listing.Distinct(r)
    ensures Listing.SortedDesc(s.bookings, BookingDate, r)
  {
    r := Listing.NewestFirst(s.bookings, (b: Booking) => b.customerId == customerId, BookingDate);
  }

  /** getProviderBookings: 404 without a provider profile, else the profile's bookings, latest date first. */
  method GetProviderBookings(s: Store, userId: Id) returns (r: Outcome<seq<Id>>)
    ensures ProfileOf(s, userId).None? <==> r == Fail(NotFound)
    ensures r.Ok? <==> ProfileOf(s, userId).Some?
    ensures r.Ok? ==> forall b :: b in r.value <==>
              b in s.bookings && s.bookings[b].providerId == ProfileOf(s, userId).value
    ensures r.Ok? ==> Listing.Distinct(r.value) && Listing.SortedDesc(s.bookings, BookingDate, r.value)
  {
    match ProfileOf(s, userId)
    case None =>
      r := Fail(NotFound);
    case Some(profile) =>
      var ids := Listing.NewestFirst(s.bookings, (b: Booking) => b.providerId == profile, BookingDate);
      r := Ok(ids);
  }
}

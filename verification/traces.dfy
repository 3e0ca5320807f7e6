/**
 * Sequences of requests against the booking engine and the service
 * lifecycle: what holds after any run of them. A run interleaves
 * bookings, the customer's and the provider's lifecycle actions, the
 * admin's status override and booking deletion, and the service
 * operations of both sides.
 */
module Traces {
  import opened Lookup
  import opened Models
  import opened Store
  import Bookings
  import Services
  import Admin

  datatype Op =
    | Book(customerId: Id, req: Bookings.BookingRequest, now: int)
    | Act(callerId: Id, bookingId: Id, action: Bookings.Action)
    | Override(bookingId: Id, status: BookingStatus)
    | RemoveBooking(bookingId: Id)
    | ToggleApproval(serviceId: Id)
    | ToggleActivation(serviceId: Id)
    | AddService(userId: Id, fields: Services.ServiceFields, now: int)
    | EditService(userId: Id, serviceId: Id, fields: Services.ServiceFields)
    | RemoveService(userId: Id, serviceId: Id)

  function Apply(s: Store, op: Op): Store {
    match op
    case Book(c, req, now) => Bookings.CreateBooking(s, c, req, now).store
    case Act(caller, b, a) => Bookings.Perform(s, caller, b, a)
    case Override(b, st) => Admin.UpdateBookingStatus(s, b, st).store
    case RemoveBooking(b) => Admin.DeleteBooking(s, b).store
    case ToggleApproval(id) => Admin.ToggleServiceApproval(s, id).store
    case ToggleActivation(id) => Admin.ToggleServiceActivation(s, id).store
    case AddService(u, f, now) => Services.CreateService(s, u, f, now).store
    case EditService(u, id, f) => Services.UpdateService(s, u, id, f).store
    case RemoveService(u, id) => Services.DeleteService(s, u, id).store
  }

  function Run(s: Store, ops: seq<Op>): Store
    decreases |ops|
  {
    if |ops| == 0 then s else Run(Apply(s, ops[0]), ops[1..])
  }

  /** The run holds no admin override. */
  predicate NoOverride(ops: seq<Op>) {
    forall i :: 0 <= i < |ops| ==> !ops[i].Override?
  }

  /** The run never deletes booking `b`. */
  predicate NoRemovalOf(ops: seq<Op>, b: Id) {
    forall i :: 0 <= i < |ops| ==> !(ops[i].RemoveBooking? && ops[i].bookingId == b)
  }

  /** Both restrictions carry over from a run to its tail. */
  lemma TailKeepsRestrictions(ops: seq<Op>, b: Id)
    requires |ops| > 0
    ensures NoOverride(ops) ==> NoOverride(ops[1..])
    ensures NoRemovalOf(ops, b) ==> NoRemovalOf(ops[1..], b) && !(ops[0].RemoveBooking? && ops[0].bookingId == b)
  {
    assert forall i :: 0 <= i < |ops[1..]| ==> ops[1..][i] == ops[i + 1];
  }

  /**
   * Apart from the admin's deletion of that very booking, one request never
   * removes a booking nor moves it to another slot; and unless it is the
   * admin override, it never changes a terminal status.
   */
  lemma ApplyKeepsBookings(s: Store, op: Op)
    ensures var s' := Apply(s, op);
            forall b :: b in s.bookings && !(op.RemoveBooking? && op.bookingId == b) ==>
              && b in s'.bookings
              && Bookings.SlotOf(s'.bookings[b]) == Bookings.SlotOf(s.bookings[b])
              && (!op.Override? && Terminal(s.bookings[b].status) ==> s'.bookings[b].status == s.bookings[b].status)
  {
    if op.Book? {
      BookKeepsBookings(s, op.customerId, op.req, op.now);
    } else if op.Act? {
      Bookings.ActionFollowsLifecycle(s, op.callerId, op.bookingId, op.action);
    } else if op.RemoveBooking? {
      RemoveKeepsOtherBookings(s, op.bookingId);
    } else if !op.Override? {
      ServiceOpKeepsBookings(s, op);
    }
  }

  /** The admin's deletion takes out the one booking and leaves the others as they were. */
  lemma RemoveKeepsOtherBookings(s: Store, bookingId: Id)
    ensures var s' := Admin.DeleteBooking(s, bookingId).store;
            && bookingId !in s'.bookings
            && (forall b :: b in s'.bookings <==> b in s.bookings && b != bookingId)
            && (forall b :: b in s'.bookings ==> s'.bookings[b] == s.bookings[b])
  {
  }

  /** A booking request only ever adds a booking. */
  lemma BookKeepsBookings(s: Store, customerId: Id, req: Bookings.BookingRequest, now: int)
    ensures var s' := Bookings.CreateBooking(s, customerId, req, now).store;
            forall b :: b in s.bookings ==> b in s'.bookings && s'.bookings[b] == s.bookings[b]
  {
  }

  /** Service requests leave the bookings alone. */
  lemma ServiceOpKeepsBookings(s: Store, op: Op)
    requires !op.Book? && !op.Act? && !op.Override? && !op.RemoveBooking?
    ensures Apply(s, op).bookings == s.bookings
  {
  }

  /**
   * A confirmed, cancelled or rejected booking keeps its status through any
   * run without the override and without the deletion of that booking.
   */
  lemma {:induction false} TerminalStaysTerminal(s: Store, ops: seq<Op>, b: Id)
    requires NoOverride(ops) && NoRemovalOf(ops, b)
    requires b in s.bookings && Terminal(s.bookings[b].status)
    ensures b in Run(s, ops).bookings
    ensures Run(s, ops).bookings[b].status == s.bookings[b].status
    decreases |ops|
  {
    if |ops| > 0 {
      TailKeepsRestrictions(ops, b);
      ApplyKeepsBookings(s, ops[0]);
      TerminalStaysTerminal(Apply(s, ops[0]), ops[1..], b);
    }
  }

  /** So after any such run, the lifecycle actions on that booking are all refused. */
  lemma {:induction false} TerminalRefusesAfterRun(s: Store, ops: seq<Op>, b: Id, caller: Id, a: Bookings.Action)
    requires NoOverride(ops) && NoRemovalOf(ops, b)
    requires b in s.bookings && Terminal(s.bookings[b].status)
    ensures !Bookings.Succeeds(Run(s, ops), caller, b, a)
  {
    TerminalStaysTerminal(s, ops, b);
    Bookings.TerminalRefusesActions(Run(s, ops), caller, b, a);
  }

  /** The admin override is the one way back: it reopens a terminal booking, which its customer can then cancel. */
  lemma {:induction false} OverrideReopens(s: Store, customerId: Id, b: Id)
    requires b in s.bookings && s.bookings[b].customerId == customerId && Terminal(s.bookings[b].status)
    ensures var s1 := Apply(s, Override(b, Pending));
            && Bookings.Succeeds(s1, customerId, b, Bookings.CancelAction)
            && var s2 := Run(s, [Override(b, Pending), Act(customerId, b, Bookings.CancelAction)]);
            && b in s2.bookings && s2.bookings[b].status == Cancelled
  {
    var s1 := Apply(s, Override(b, Pending));
    var s2 := Apply(s1, Act(customerId, b, Bookings.CancelAction));
    assert Run(s, [Override(b, Pending), Act(customerId, b, Bookings.CancelAction)]) == Run(s1, [Act(customerId, b, Bookings.CancelAction)]);
    assert Run(s1, [Act(customerId, b, Bookings.CancelAction)]) == Run(s2, []);
  }

  /**
   * A slot, once booked, stays booked until the admin deletes that booking:
   * no other request removes a booking or moves it.
   */
  lemma {:induction false} HeldSlotStaysHeld(s: Store, ops: seq<Op>, b: Id)
    requires NoRemovalOf(ops, b)
    requires b in s.bookings
    ensures b in Run(s, ops).bookings
    ensures Bookings.SlotOf(Run(s, ops).bookings[b]) == Bookings.SlotOf(s.bookings[b])
    decreases |ops|
  {
    if |ops| > 0 {
      TailKeepsRestrictions(ops, b);
      ApplyKeepsBookings(s, ops[0]);
      HeldSlotStaysHeld(Apply(s, ops[0]), ops[1..], b);
    }
  }

  /** Hence, after any run that does not delete the holder, a bookable request for that slot is refused. */
  lemma {:induction false} RebookingRefusedAfterRun(s: Store, ops: seq<Op>, b: Id, customerId: Id,
                                                    req: Bookings.BookingRequest, now: int)
    requires NoRemovalOf(ops, b)
    requires b in s.bookings
    requires Bookings.Bookable(Run(s, ops), req)
    requires Bookings.SlotOf(s.bookings[b]) ==
             Bookings.Slot(req.providerId.value, req.service.value, Bookings.DayOf(req.date.value), req.time)
    ensures Bookings.CreateBooking(Run(s, ops), customerId, req, now).outcome == Fail(BadRequest)
  {
    HeldSlotStaysHeld(s, ops, b);
    Bookings.SlotHeldBlocksRebooking(Run(s, ops), customerId, req, now, b);
  }

  /** Every step keeps slots distinct. */
  lemma ApplyKeepsSlotsDistinct(s: Store, op: Op)
    requires Bookings.SlotsDistinct(s.bookings)
    ensures Bookings.SlotsDistinct(Apply(s, op).bookings)
  {
    if op.Book? {
      Bookings.CreateBookingKeepsSlotsDistinct(s, op.customerId, op.req, op.now);
    } else {
      ApplyKeepsBookings(s, op);
      if op.Act? {
        Bookings.ActionFollowsLifecycle(s, op.callerId, op.bookingId, op.action);
        SameSlotsKeepDistinct(s.bookings, Apply(s, op).bookings);
      } else if op.RemoveBooking? {
        RemoveKeepsOtherBookings(s, op.bookingId);
      } else if op.Override? {
        SameSlotsKeepDistinct(s.bookings, Apply(s, op).bookings);
      } else {
        ServiceOpKeepsBookings(s, op);
      }
    }
  }

  /** Bookings that keep their identifiers and their slots keep slots distinct. */
  lemma SameSlotsKeepDistinct(a: map<Id, Booking>, b: map<Id, Booking>)
    requires Bookings.SlotsDistinct(a)
    requires a.Keys == b.Keys
    requires forall k :: k in a ==> Bookings.SlotOf(b[k]) == Bookings.SlotOf(a[k])
    ensures Bookings.SlotsDistinct(b)
  {
  }

  /** No run ever double-books a slot. */
  lemma {:induction false} RunKeepsSlotsDistinct(s: Store, ops: seq<Op>)
    requires Bookings.SlotsDistinct(s.bookings)
    ensures Bookings.SlotsDistinct(Run(s, ops).bookings)
    decreases |ops|
  {
    if |ops| > 0 {
      ApplyKeepsSlotsDistinct(s, ops[0]);
      RunKeepsSlotsDistinct(Apply(s, ops[0]), ops[1..]);
    }
  }

  /** Only the admin approves: provider-side service requests never make an unapproved service approved. */
  lemma ProviderOpsNeverApprove(s: Store, op: Op)
    requires op.AddService? || op.EditService? || op.RemoveService?
    ensures var s' := Apply(s, op);
            forall id :: id in s'.services && s'.services[id].isApproved ==> id in s.services && s.services[id].isApproved
  {
    if op.AddService? {
      Services.CreateServiceNeverApproves(s, op.userId, op.fields, op.now);
    } else if op.EditService? {
      Services.EditKeepsFlags(s, op.userId, op.serviceId, op.fields);
    } else {
      RemoveKeepsOthers(s, op.userId, op.serviceId);
    }
  }

  lemma RemoveKeepsOthers(s: Store, userId: Id, serviceId: Id)
    ensures var s' := Services.DeleteService(s, userId, serviceId).store;
            forall id :: id in s'.services ==> id in s.services && s'.services[id] == s.services[id]
  {
  }
}

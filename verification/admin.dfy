/**
 * The admin dashboard (backend/controllers/admin-handler.js): approval,
 * activation and account-status toggles, the booking override, the
 * filtered listings, the summary counts and the booking statistics.
 * `createCategory` lives with the other category logic (module Categories).
 */
module Admin {
  import opened Lookup
  import opened Models
  import opened Store
  import Listing
  import Bookings
  import Services
  import Reviews
  import Categories

  // ---------------------------------------------------------------------
  // Toggles

  /**
   * Flips `isApproved` and saves. The save re-validates the whole document,
   * so a service whose required fields were blanked earlier is refused (500).
   */
  function ToggleServiceApproval(s: Store, serviceId: Id): (r: Step<Service>)
    ensures serviceId !in s.services <==> r == Step(s, Fail(NotFound))
    ensures serviceId in s.services && !ServiceSchemaOk(s.services[serviceId]) ==> r == Step(s, Fail(ServerError))
    ensures r.outcome.Ok? <==> serviceId in s.services && ServiceSchemaOk(s.services[serviceId])
    ensures r.outcome.Ok? ==>
              && r.outcome.value.isApproved == !s.services[serviceId].isApproved
              && r.outcome.value == s.services[serviceId].(isApproved := r.outcome.value.isApproved)
              && r.store == s.(services := s.services[serviceId := r.outcome.value])
  {
    if serviceId !in s.services then Step(s, Fail(NotFound))
    else
      var sv := s.services[serviceId].(isApproved := !s.services[serviceId].isApproved);
      if !ServiceSchemaOk(sv) then Step(s, Fail(ServerError))
      else Step(s.(services := s.services[serviceId := sv]), Ok(sv))
  }

  /** Flips `isActive` and saves, with the same full-document validation. */
  function ToggleServiceActivation(s: Store, serviceId: Id): (r: Step<Service>)
    ensures serviceId !in s.services <==> r == Step(s, Fail(NotFound))
    ensures serviceId in s.services && !ServiceSchemaOk(s.services[serviceId]) ==> r == Step(s, Fail(ServerError))
    ensures r.outcome.Ok? <==> serviceId in s.services && ServiceSchemaOk(s.services[serviceId])
    ensures r.outcome.Ok? ==>
              && r.outcome.value.isActive == !s.services[serviceId].isActive
              && r.outcome.value == s.services[serviceId].(isActive := r.outcome.value.isActive)
              && r.store == s.(services := s.services[serviceId := r.outcome.value])
  {
    if serviceId !in s.services then Step(s, Fail(NotFound))
    else
      var sv := s.services[serviceId].(isActive := !s.services[serviceId].isActive);
      if !ServiceSchemaOk(sv) then Step(s, Fail(ServerError))
      else Step(s.(services := s.services[serviceId := sv]), Ok(sv))
  }

  /** Toggling twice restores the store, whether the first toggle was saved or refused. */
  lemma ToggleServiceApprovalInvolution(s: Store, serviceId: Id)
    ensures ToggleServiceApproval(ToggleServiceApproval(s, serviceId).store, serviceId).store == s
  {
    if serviceId in s.services && ServiceSchemaOk(s.services[serviceId]) {
      var s1 := ToggleServiceApproval(s, serviceId).store;
      assert s1.services[serviceId := s.services[serviceId]] == s.services;
    }
  }

  lemma ToggleServiceActivationInvolution(s: Store, serviceId: Id)
    ensures ToggleServiceActivation(ToggleServiceActivation(s, serviceId).store, serviceId).store == s
  {
    if serviceId in s.services && ServiceSchemaOk(s.services[serviceId]) {
      var s1 := ToggleServiceActivation(s, serviceId).store;
      assert s1.services[serviceId := s.services[serviceId]] == s.services;
    }
  }

  function Flip(st: AccountStatus): AccountStatus {
    if st == Active then Blocked else Active
  }

  /**
   * Blocks an active user and unblocks a blocked one; admins are refused as if
   * missing, and a user the schema no longer accepts cannot be saved (500).
   */
  function ToggleUserStatus(s: Store, userId: Id): (r: Step<AccountStatus>)
    ensures (userId !in s.users || s.users[userId].role == Admin) <==> r == Step(s, Fail(NotFound))
    ensures userId in s.users && s.users[userId].role != Admin && !UserSchemaOk(s.users[userId])
            ==> r == Step(s, Fail(ServerError))
    ensures r.outcome.Ok? <==> userId in s.users && s.users[userId].role != Admin && UserSchemaOk(s.users[userId])
    ensures r.outcome.Ok? ==>
              && r.outcome.value != s.users[userId].status
              && r.store == s.(users := s.users[userId := s.users[userId].(status := r.outcome.value)])
  {
    if userId !in s.users || s.users[userId].role == Admin then Step(s, Fail(NotFound))
    else
      var u := s.users[userId].(status := Flip(s.users[userId].status));
      if !UserSchemaOk(u) then Step(s, Fail(ServerError))
      else Step(s.(users := s.users[userId := u]), Ok(u.status))
  }

  lemma ToggleUserStatusInvolution(s: Store, userId: Id)
    ensures ToggleUserStatus(ToggleUserStatus(s, userId).store, userId).store == s
  {
    if userId in s.users && s.users[userId].role != Admin && UserSchemaOk(s.users[userId]) {
      var s1 := ToggleUserStatus(s, userId).store;
      assert s1.users[userId := s.users[userId]] == s.users;
    }
  }

  // ---------------------------------------------------------------------
  // Bookings

  /** Sets the requested status whatever the current one: the lifecycle is not consulted. */
  function UpdateBookingStatus(s: Store, bookingId: Id, st: BookingStatus): (r: Step<Booking>)
    ensures bookingId !in s.bookings <==> r == Step(s, Fail(NotFound))
    ensures r.outcome.Ok? <==> bookingId in s.bookings
    ensures r.outcome.Ok? ==>
              && r.outcome.value == s.bookings[bookingId].(status := st)
              && r.store == s.(bookings := s.bookings[bookingId := r.outcome.value])
  {
    if bookingId !in s.bookings then Step(s, Fail(NotFound))
    else
      var b := s.bookings[bookingId].(status := st);
      Step(s.(bookings := s.bookings[bookingId := b]), Ok(b))
  }

  /** The override leaves a terminal status for any other, pending included. */
  lemma OverrideLeavesTerminalStatus(s: Store, bookingId: Id, st: BookingStatus)
    requires bookingId in s.bookings && Terminal(s.bookings[bookingId].status)
    ensures UpdateBookingStatus(s, bookingId, st).outcome.Ok?
    ensures UpdateBookingStatus(s, bookingId, st).store.bookings[bookingId].status == st
  {
  }

  function GetBookingById(s: Store, bookingId: Id): (r: Outcome<Booking>)
    ensures bookingId !in s.bookings <==> r == Fail(NotFound)
    ensures r.Ok? <==> bookingId in s.bookings
    ensures r.Ok? ==> r.value == s.bookings[bookingId]
  {
    if bookingId in s.bookings then Ok(s.bookings[bookingId]) else Fail(NotFound)
  }

  function DeleteBooking(s: Store, bookingId: Id): (r: Step<()>)
    ensures bookingId !in s.bookings <==> r == Step(s, Fail(NotFound))
    ensures r.outcome.Ok? <==> bookingId in s.bookings
    ensures r.outcome.Ok? ==> r.store == s.(bookings := s.bookings - {bookingId})
  {
    if bookingId in s.bookings then Step(s.(bookings := s.bookings - {bookingId}), Ok(())) else Step(s, Fail(NotFound))
  }

  /** Reading a booking back after the override, and after the deletion. */
  lemma ReadBackAfterWrite(s: Store, bookingId: Id, st: BookingStatus)
    requires bookingId in s.bookings
    ensures GetBookingById(UpdateBookingStatus(s, bookingId, st).store, bookingId) == Ok(s.bookings[bookingId].(status := st))
    ensures GetBookingById(DeleteBooking(s, bookingId).store, bookingId) == Fail(NotFound)
    ensures forall other :: other != bookingId ==>
              GetBookingById(DeleteBooking(s, bookingId).store, other) == GetBookingById(s, other)
  {
  }

  /**
   * Deleting the booking that holds a slot frees it: the same request is
   * refused before the deletion and accepted after it.
   */
  lemma {:induction false} DeleteBookingFreesSlot(s: Store, bookingId: Id, customerId: Id, req: Bookings.BookingRequest, now: int)
    requires Bookings.SlotsDistinct(s.bookings)
    requires bookingId in s.bookings
    requires Bookings.Bookable(s, req)
    requires Bookings.SlotOf(s.bookings[bookingId])
             == Bookings.Slot(req.providerId.value, req.service.value, Bookings.DayOf(req.date.value), req.time)
    ensures Bookings.CreateBooking(s, customerId, req, now).outcome == Fail(BadRequest)
    ensures Bookings.CreateBooking(DeleteBooking(s, bookingId).store, customerId, req, now).outcome.Ok?
  {
    Bookings.SlotHeldBlocksRebooking(s, customerId, req, now, bookingId);
    var s' := DeleteBooking(s, bookingId).store;
    forall o | o in s'.bookings
      ensures !Bookings.Clashes(s'.bookings[o], req.providerId.value, req.service.value, req.date.value, req.time)
    {
      Bookings.ClashIsSameSlot(s'.bookings[o], req.providerId.value, req.service.value, req.date.value, req.time);
    }
    assert Bookings.Bookable(s', req);
  }

  function CreatedAtOfBooking(b: Booking): int {
    b.createdAt
  }

  /** getAllBookingsForAdmin: filtered by status name when one is given, newest first. */
  method GetAllBookingsForAdmin(s: Store, status: string) returns (r: seq<Id>)
    ensures status == "" ==> forall b :: b in r <==> b in s.bookings
    ensures status != "" ==> forall b :: b in r <==> b in s.bookings && StatusName(s.bookings[b].status) == status
    ensures Listing.Distinct(r) && Listing.SortedDesc(s.bookings, CreatedAtOfBooking, r)
  {
    r := Listing.NewestFirst(s.bookings, (b: Booking) => status == "" || StatusName(b.status) == status, CreatedAtOfBooking);
  }

  /** Status names outside the enum select nothing. */
  lemma UnknownStatusSelectsNothing(s: Store, status: string, b: Id)
    requires status != "" && status !in {"pending", "confirmed", "cancelled", "rejected"}
    requires b in s.bookings
    ensures StatusName(s.bookings[b].status) != status
  {
  }

  /** The bookings currently in status `st`. */
  function StatusGroup(s: Store, st: BookingStatus): set<Id> {
    set b | b in s.bookings && s.bookings[b].status == st
  }

  /** getBookingStats: one group per status present, with its count. */
  function GetBookingStats(s: Store): (r: map<BookingStatus, nat>)
    ensures forall st :: st in r <==> exists b :: b in s.bookings && s.bookings[b].status == st
    ensures forall st :: st in r ==> r[st] == |StatusGroup(s, st)|
  {
    var stats := map st | st in {Pending, Confirmed, Cancelled, Rejected} && |StatusGroup(s, st)| > 0 :: |StatusGroup(s, st)|;
    assert forall st :: st in stats <==> exists b :: b in s.bookings && s.bookings[b].status == st by {
      forall st
        ensures st in stats <==> exists b :: b in s.bookings && s.bookings[b].status == st
      {
        if exists b :: b in s.bookings && s.bookings[b].status == st {
          var b :| b in s.bookings && s.bookings[b].status == st;
          assert b in StatusGroup(s, st);
        }
      }
    }
    stats
  }

  /** The sum of the counts reported, a missing group counting zero. */
  function GroupTotal(stats: map<BookingStatus, nat>): nat {
    var count := (st: BookingStatus) => if st in stats then stats[st] else 0;
    count(Pending) + count(Confirmed) + count(Cancelled) + count(Rejected)
  }

  lemma {:induction false} DisjointUnionCard(a: set<Id>, b: set<Id>)
    requires a * b == {}
    ensures |a + b| == |a| + |b|
  {
    if a != {} {
      var x :| x in a;
      DisjointUnionCard(a - {x}, b);
      assert (a - {x}) + b == (a + b) - {x};
    }
  }

  lemma GroupTotalCountsGroups(s: Store)
    ensures GroupTotal(GetBookingStats(s)) ==
            |StatusGroup(s, Pending)| + |StatusGroup(s, Confirmed)| + |StatusGroup(s, Cancelled)| + |StatusGroup(s, Rejected)|
  {
    var stats := GetBookingStats(s);
    assert forall st :: st !in stats ==> StatusGroup(s, st) == {};
  }

  lemma GroupsCoverBookings(s: Store)
    ensures StatusGroup(s, Pending) + StatusGroup(s, Confirmed) + StatusGroup(s, Cancelled) + StatusGroup(s, Rejected)
            == s.bookings.Keys
  {
  }

  /** The groups partition the bookings: their counts sum to the number of bookings. */
  lemma StatsCoverEveryBooking(s: Store)
    ensures GroupTotal(GetBookingStats(s)) == |s.bookings|
  {
    var p, c, x, j := StatusGroup(s, Pending), StatusGroup(s, Confirmed), StatusGroup(s, Cancelled), StatusGroup(s, Rejected);
    DisjointUnionCard(p, c);
    DisjointUnionCard(p + c, x);
    DisjointUnionCard(p + c + x, j);
    GroupsCoverBookings(s);
    GroupTotalCountsGroups(s);
  }

  // ---------------------------------------------------------------------
  // Services

  function CreatedAtOfService(sv: Service): int {
    sv.createdAt
  }

  /** getAllServicesForAdmin: every service, whatever its flags, newest first. */
  method GetAllServicesForAdmin(s: Store) returns (r: seq<Id>)
    ensures forall id :: id in r <==> id in s.services
    ensures Listing.Distinct(r) && Listing.SortedDesc(s.services, CreatedAtOfService, r)
  {
    r := Listing.NewestFirst(s.services, (sv: Service) => true, CreatedAtOfService);
  }

  /** getUnapprovedServices: exactly the services awaiting approval, newest first. */
  method GetUnapprovedServices(s: Store) returns (r: seq<Id>)
    ensures forall id :: id in r <==> id in s.services && !s.services[id].isApproved
    ensures Listing.Distinct(r) && Listing.SortedDesc(s.services, CreatedAtOfService, r)
  {
    r := Listing.NewestFirst(s.services, (sv: Service) => !sv.isApproved, CreatedAtOfService);
  }

  /** An update body: absent keys leave their field alone; no schema validation runs. */
  datatype ServicePatch = ServicePatch(
    title: Option<string>,
    description: Option<string>,
    price: Option<int>,
    duration: Option<string>,
    location: Option<string>,
    isActive: Option<bool>,
    isApproved: Option<bool>,
    category: Option<Id>,
    providerId: Option<Id>)

  function PatchService(sv: Service, p: ServicePatch): Service {
    sv.(title := p.title.Or(sv.title), description := p.description.Or(sv.description),
        price := p.price.Or(sv.price), duration := p.duration.Or(sv.duration),
        location := p.location.Or(sv.location), isActive := p.isActive.Or(sv.isActive),
        isApproved := p.isApproved.Or(sv.isApproved), category := p.category.Or(sv.category),
        providerId := p.providerId.Or(sv.providerId))
  }

  /** updateServiceByAdmin: `findByIdAndUpdate` with the body, no validators. */
  function UpdateServiceByAdmin(s: Store, serviceId: Id, p: ServicePatch): (r: Step<Service>)
    ensures serviceId !in s.services <==> r == Step(s, Fail(NotFound))
    ensures r.outcome.Ok? <==> serviceId in s.services
    ensures r.outcome.Ok? ==>
              var was := s.services[serviceId];
              var sv := r.outcome.value;
              && r.store == s.(services := s.services[serviceId := sv])
              && sv.title == p.title.Or(was.title) && sv.description == p.description.Or(was.description)
              && sv.price == p.price.Or(was.price) && sv.duration == p.duration.Or(was.duration)
              && sv.location == p.location.Or(was.location)
              && sv.category == p.category.Or(was.category) && sv.providerId == p.providerId.Or(was.providerId)
              && (p.isApproved.Some? ==> sv.isApproved == p.isApproved.value)
              && (p.isApproved.None? ==> sv.isApproved == was.isApproved)
              && (p.isActive.Some? ==> sv.isActive == p.isActive.value)
              && (p.isActive.None? ==> sv.isActive == was.isActive)
              && sv.createdAt == was.createdAt
  {
    if serviceId !in s.services then Step(s, Fail(NotFound))
    else
      var sv := PatchService(s.services[serviceId], p);
      Step(s.(services := s.services[serviceId := sv]), Ok(sv))
  }

  /** Sending the same update twice stores what sending it once does; an empty body changes nothing. */
  lemma UpdateServiceByAdminIdempotent(s: Store, serviceId: Id, p: ServicePatch)
    ensures var once := UpdateServiceByAdmin(s, serviceId, p).store;
            UpdateServiceByAdmin(once, serviceId, p).store == once
    ensures UpdateServiceByAdmin(s, serviceId, ServicePatch(None, None, None, None, None, None, None, None, None)).store == s
  {
    if serviceId in s.services {
      var once := UpdateServiceByAdmin(s, serviceId, p).store;
      assert once.services[serviceId := once.services[serviceId]] == once.services;
      assert s.services[serviceId := s.services[serviceId]] == s.services;
    }
  }

  function DeleteServiceByAdmin(s: Store, serviceId: Id): (r: Step<()>)
    ensures serviceId !in s.services <==> r == Step(s, Fail(NotFound))
    ensures r.outcome.Ok? <==> serviceId in s.services
    ensures r.outcome.Ok? ==> r.store == s.(services := s.services - {serviceId})
  {
    if serviceId in s.services then Step(s.(services := s.services - {serviceId}), Ok(())) else Step(s, Fail(NotFound))
  }

  /**
   * On a service its owner may delete, the admin's deletion does the same;
   * afterwards no listing shows it.
   */
  lemma OwnerDeleteIsAdminDelete(s: Store, userId: Id, serviceId: Id)
    requires Services.OwnsService(s, userId, serviceId)
    ensures Services.DeleteService(s, userId, serviceId) == DeleteServiceByAdmin(s, serviceId)
    ensures serviceId !in Services.GetAllServices(DeleteServiceByAdmin(s, serviceId).store)
  {
  }

  // ---------------------------------------------------------------------
  // Reviews and categories

  /** getAllReviews: every review once, in natural (creation) order. */
  function GetAllReviews(s: Store): (r: seq<Id>)
    ensures forall v :: v in r <==> v in s.reviews
    ensures forall i, j :: 0 <= i < j < |r| ==> r[i] < r[j]
    ensures |r| == |s.reviews|
  {
    Listing.InOrder(s.reviews.Keys)
  }

  function DeleteReviewByAdmin(s: Store, reviewId: Id): (r: Step<()>)
    ensures reviewId !in s.reviews <==> r == Step(s, Fail(NotFound))
    ensures r.outcome.Ok? <==> reviewId in s.reviews
    ensures r.outcome.Ok? ==> r.store == s.(reviews := s.reviews - {reviewId})
  {
    if reviewId in s.reviews then Step(s.(reviews := s.reviews - {reviewId}), Ok(())) else Step(s, Fail(NotFound))
  }

  /** A customer removing their review and the admin removing that review do the same thing. */
  lemma AuthorDeleteIsAdminDelete(s: Store, customerId: Id, serviceId: Id)
    requires Reviews.ReviewBy(s, customerId, serviceId).Some?
    ensures Reviews.DeleteReview(s, customerId, serviceId)
            == DeleteReviewByAdmin(s, Reviews.ReviewBy(s, customerId, serviceId).value)
    ensures Reviews.ReviewBy(s, customerId, serviceId).value !in GetAllReviews(DeleteReviewByAdmin(s, Reviews.ReviewBy(s, customerId, serviceId).value).store)
  {
  }

  function CreatedAtOfCategory(c: Category): int {
    c.createdAt
  }

  method GetAllCategories(s: Store) returns (r: seq<Id>)
    ensures forall id :: id in r <==> id in s.categories
    ensures Listing.Distinct(r) && Listing.SortedDesc(s.categories, CreatedAtOfCategory, r)
  {
    r := Listing.NewestFirst(s.categories, (c: Category) => true, CreatedAtOfCategory);
  }

  datatype CategoryPatch = CategoryPatch(name: Option<string>, isActive: Option<bool>)

  /** updateCategory: a rename onto another category's name breaks the unique index (500). */
  function UpdateCategory(s: Store, categoryId: Id, p: CategoryPatch): (r: Step<Category>)
    ensures r.outcome.Fail? ==> r.store == s
    ensures categoryId !in s.categories ==> r.outcome == Fail(NotFound)
    ensures (categoryId in s.categories
             && exists c :: c in s.categories && c != categoryId && s.categories[c].name == p.name.Or(s.categories[categoryId].name))
            ==> r.outcome == Fail(ServerError)
    ensures r.outcome.Ok? <==>
              && categoryId in s.categories
              && forall c :: c in s.categories && c != categoryId ==> s.categories[c].name != p.name.Or(s.categories[categoryId].name)
    ensures r.outcome.Ok? ==>
              && r.outcome.value.name == p.name.Or(s.categories[categoryId].name)
              && r.outcome.value.isActive == p.isActive.Or(s.categories[categoryId].isActive)
              && r.outcome.value.createdAt == s.categories[categoryId].createdAt
              && r.store == s.(categories := s.categories[categoryId := r.outcome.value])
  {
    if categoryId !in s.categories then Step(s, Fail(NotFound))
    else
      var c := s.categories[categoryId];
      var c' := c.(name := p.name.Or(c.name), isActive := p.isActive.Or(c.isActive));
      if exists o :: o in s.categories && o != categoryId && s.categories[o].name == c'.name then Step(s, Fail(ServerError))
      else Step(s.(categories := s.categories[categoryId := c']), Ok(c'))
  }

  /** Updates, like creation, keep category names unique. */
  lemma UpdateCategoryKeepsNamesUnique(s: Store, categoryId: Id, p: CategoryPatch)
    requires CategoryNamesUnique(s.categories)
    ensures CategoryNamesUnique(UpdateCategory(s, categoryId, p).store.categories)
    ensures UpdateCategory(s, categoryId, p).store.categories.Keys == s.categories.Keys
  {
  }

  function DeleteCategory(s: Store, categoryId: Id): (r: Step<()>)
    ensures categoryId !in s.categories <==> r == Step(s, Fail(NotFound))
    ensures r.outcome.Ok? <==> categoryId in s.categories
    ensures r.outcome.Ok? ==> r.store == s.(categories := s.categories - {categoryId})
  {
    if categoryId in s.categories then Step(s.(categories := s.categories - {categoryId}), Ok(()))
    else Step(s, Fail(NotFound))
  }

  /**
   * Services keep the identifier of a deleted category, but a profile that
   * names it no longer resolves it, so its provider can create no service.
   */
  lemma DeletedCategoryBlocksCreation(s: Store, categoryId: Id, userId: Id, f: Services.ServiceFields, now: int)
    requires categoryId in s.categories
    requires ProfileOf(s, userId).Some? && s.providers[ProfileOf(s, userId).value].category == Some(ById(categoryId))
    ensures Categories.ResolveStored(DeleteCategory(s, categoryId).store, Some(ById(categoryId))).None?
    ensures Services.CreateService(DeleteCategory(s, categoryId).store, userId, f, now).outcome.Fail?
  {
  }

  // ---------------------------------------------------------------------
  // Summary

  function NonAdmins(s: Store): set<Id> {
    set u | u in s.users && s.users[u].role != Admin
  }

  function UsersInRole(s: Store, role: Role): set<Id> {
    set u | u in s.users && s.users[u].role == role
  }

  function ServicesApproved(s: Store, approved: bool): set<Id> {
    set id | id in s.services && s.services[id].isApproved == approved
  }

  /** Providers and customers split the non-admin users; approved and unapproved split the services. */
  lemma SummaryPartitions(s: Store)
    ensures |UsersInRole(s, Provider)| + |UsersInRole(s, Customer)| == |NonAdmins(s)|
    ensures |ServicesApproved(s, true)| + |ServicesApproved(s, false)| == |s.services|
  {
    DisjointUnionCard(UsersInRole(s, Provider), UsersInRole(s, Customer));
    assert UsersInRole(s, Provider) + UsersInRole(s, Customer) == NonAdmins(s);
    DisjointUnionCard(ServicesApproved(s, true), ServicesApproved(s, false));
    assert ServicesApproved(s, true) + ServicesApproved(s, false) == s.services.Keys;
  }

  datatype Summary = Summary(
    totalUsers: nat,
    totalProviders: nat,
    totalCustomers: nat,
    totalServices: nat,
    totalApprovedServices: nat,
    totalUnapprovedServices: nat,
    totalBookings: nat,
    recentUsers: seq<Id>,
    totalReviews: nat)

  function CreatedAtOfUser(u: User): int {
    u.createdAt
  }

  /** getAdminSummary, without the top-rated aggregation. */
  method GetAdminSummary(s: Store) returns (r: Summary)
    ensures r.totalUsers == |NonAdmins(s)|
    ensures r.totalProviders + r.totalCustomers == r.totalUsers
    ensures r.totalProviders == |UsersInRole(s, Provider)| && r.totalCustomers == |UsersInRole(s, Customer)|
    ensures r.totalApprovedServices + r.totalUnapprovedServices == r.totalServices == |s.services|
    ensures r.totalApprovedServices == |ServicesApproved(s, true)|
    ensures r.totalBookings == |s.bookings| && r.totalReviews == |s.reviews|
    // the five newest non-admin users
    ensures |r.recentUsers| == if |NonAdmins(s)| < 5 then |NonAdmins(s)| else 5
    ensures forall u :: u in r.recentUsers ==> u in NonAdmins(s)
    ensures Listing.Distinct(r.recentUsers) && Listing.SortedDesc(s.users, CreatedAtOfUser, r.recentUsers)
    ensures forall u, v :: u in NonAdmins(s) && u !in r.recentUsers && v in r.recentUsers ==>
              s.users[v].createdAt >= s.users[u].createdAt
  {
    SummaryPartitions(s);
    var all := Listing.NewestFirst(s.users, (u: User) => u.role != Admin, CreatedAtOfUser);
    assert forall u :: u in all <==> u in NonAdmins(s);
    Listing.DistinctLength(all, NonAdmins(s));
    var n := if |all| < 5 then |all| else 5;
    var recent := all[..n];
    Listing.PrefixIsTop(s.users, CreatedAtOfUser, all, n);
    assert forall u :: u in recent ==> u in all;
    r := Summary(|NonAdmins(s)|, |UsersInRole(s, Provider)|, |UsersInRole(s, Customer)|,
                 |s.services|, |ServicesApproved(s, true)|, |ServicesApproved(s, false)|,
                 |s.bookings|, recent, |s.reviews|);
  }
}

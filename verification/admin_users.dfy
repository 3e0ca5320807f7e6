/**
 * User administration (backend/controllers/admin-user-handler.js): the
 * filtered and paginated listing, lookup and update by an admin or the
 * user themself, deletion with the provider cascade, and the self-service
 * profile update. The patch and the cascade are shared with the provider
 * and customer administration.
 */
module AdminUsers {
  import opened Lookup
  import opened Models
  import opened Store
  import opened Text
  import Listing

  /** getAllUsers: every user, admins included, without the password. */
  function GetAllUsers(s: Store): (r: map<Id, UserView>)
    ensures r.Keys == s.users.Keys
    ensures forall u :: u in r ==> (r[u].email == s.users[u].email && r[u].role == s.users[u].role
                                   && r[u] == View(s.users[u]))
  {
    map u | u in s.users :: View(s.users[u])
  }

  // ---------------------------------------------------------------------
  // Filtered listing

  /** The query string: `page` defaults to 1 and `limit` to 10 when absent. */
  datatype UserQuery = UserQuery(role: string, name: string, email: string, page: Option<int>, limit: Option<int>)

  /**
   * Admins never; the role narrows only for "customer" and "provider" (any
   * other value is ignored); name and email match case-insensitively.
   */
  predicate Selected(q: UserQuery, u: User) {
    && u.role != Admin
    && (q.role == "customer" ==> u.role == Customer)
    && (q.role == "provider" ==> u.role == Provider)
    && (q.name != "" ==> MatchesCI(u.name, q.name))
    && (q.email != "" ==> MatchesCI(u.email, q.email))
  }

  /**
   * `Math.ceil(total / limit)`: absent (serialised as null) for a limit of 0,
   * the ceiling of the quotient otherwise, negative limits included.
   */
  function TotalPages(total: nat, limit: int): (r: Option<int>)
    ensures limit == 0 <==> r.None?
    ensures limit > 0 ==> (r.value - 1) * limit < total <= r.value * limit
    ensures limit < 0 ==> r.value * limit <= total < (r.value - 1) * limit
  {
    if limit == 0 then None
    else if limit > 0 then Some((total + limit - 1) / limit)
    else Some(-(total / -limit))
  }

  datatype UserPage = UserPage(total: nat, page: int, limit: int, totalPages: Option<int>, users: seq<Id>)

  function CreatedAtOfUser(u: User): int {
    u.createdAt
  }

  /** The users a query selects. */
  function SelectedUsers(s: Store, q: UserQuery): set<Id> {
    set u | u in s.users && Selected(q, s.users[u])
  }

  /**
   * getFilteredUsers; a negative skip is refused by the database (500).
   * `all` is the sorted selection the page is cut from: the selected users,
   * each once, newest first (the order among equal timestamps is the database's).
   */
  method GetFilteredUsers(s: Store, q: UserQuery) returns (r: Outcome<UserPage>, ghost all: seq<Id>)
    ensures (forall u :: u in all <==> u in SelectedUsers(s, q)) && |all| == |SelectedUsers(s, q)|
    ensures Listing.Distinct(all) && Listing.SortedDesc(s.users, CreatedAtOfUser, all)
    ensures r.Fail? <==> (q.page.Or(1) - 1) * q.limit.Or(10) < 0
    ensures r.Fail? ==> r.error == ServerError
    ensures r.Ok? ==>
              && r.value.total == |SelectedUsers(s, q)|
              && r.value.page == q.page.Or(1) && r.value.limit == q.limit.Or(10)
              && r.value.totalPages == TotalPages(r.value.total, r.value.limit)
              && r.value.users == Listing.Page(all, (r.value.page - 1) * r.value.limit, r.value.limit)
              && (forall u :: u in r.value.users ==> u in SelectedUsers(s, q))
              && Listing.Distinct(r.value.users)
              && Listing.SortedDesc(s.users, CreatedAtOfUser, r.value.users)
              && (r.value.limit != 0 ==> |r.value.users| <= if r.value.limit > 0 then r.value.limit else -r.value.limit)
    // with a positive limit, the page holds the selected users ranked skip+1 .. skip+limit
    ensures r.Ok? && r.value.limit > 0 ==>
              var skip := (r.value.page - 1) * r.value.limit;
              && |r.value.users| == (if skip >= r.value.total then 0
                                     else if skip + r.value.limit <= r.value.total then r.value.limit
                                     else r.value.total - skip)
              && forall i :: 0 <= i < |r.value.users| ==> r.value.users[i] == all[skip + i]
  {
    var page, limit := q.page.Or(1), q.limit.Or(10);
    var skip := (page - 1) * limit;
    var listing := Listing.NewestFirst(s.users, (u: User) => Selected(q, u), CreatedAtOfUser);
    all := listing;
    assert forall u :: u in listing <==> u in SelectedUsers(s, q);
    Listing.DistinctLength(listing, SelectedUsers(s, q));
    if skip < 0 {
      return Fail(ServerError), all;
    }
    var users := Listing.Page(listing, skip, limit);
    Listing.PageKeepsOrder(s.users, CreatedAtOfUser, listing, skip, limit);
    r := Ok(UserPage(|listing|, page, limit, TotalPages(|listing|, limit), users));
  }

  /**
   * With a positive limit, every entry of a listing (the `all` of
   * `GetFilteredUsers`) is on some page no later than the last one: the
   * pages cover the selection.
   */
  lemma {:induction false} EveryIndexOnSomePage(all: seq<Id>, limit: int, i: nat)
    requires limit > 0 && i < |all|
    ensures var page := i / limit + 1;
            && 1 <= page <= TotalPages(|all|, limit).value
            && var p := Listing.Page(all, (page - 1) * limit, limit);
            && i % limit < |p| && p[i % limit] == all[i]
  {
    var page := i / limit + 1;
    var skip := (page - 1) * limit;
    assert skip + i % limit == i;
    var pages := TotalPages(|all|, limit).value;
    assert (pages - 1) * limit < |all|;
    if pages < page {
      assert pages <= page - 1;
      assert pages * limit <= (page - 1) * limit by {
        MulMono(pages, page - 1, limit);
      }
      assert false;
    }
  }

  lemma MulMono(a: int, b: int, c: int)
    requires a <= b && c > 0
    ensures a * c <= b * c
  {
  }

  // ---------------------------------------------------------------------
  // Lookup and update

  /** An admin, or the user themself, after the existence check. */
  predicate AdminOrSelf(caller: Claims, userId: Id) {
    caller.role == Some(Admin) || caller.id == userId
  }

  function GetUserById(s: Store, caller: Claims, userId: Id): (r: Outcome<UserView>)
    ensures userId !in s.users <==> r == Fail(NotFound)
    ensures userId in s.users && !AdminOrSelf(caller, userId) <==> r == Fail(Forbidden)
    ensures r.Ok? <==> userId in s.users && AdminOrSelf(caller, userId)
    ensures r.Ok? ==> r.value == View(s.users[userId])
  {
    if userId !in s.users then Fail(NotFound)
    else if !AdminOrSelf(caller, userId) then Fail(Forbidden)
    else Ok(View(s.users[userId]))
  }

  /** An admin reading one user sees that user's entry of the full listing; a user reading themself, likewise. */
  lemma GetUserByIdAgreesWithListing(s: Store, caller: Claims, userId: Id)
    requires userId in s.users && AdminOrSelf(caller, userId)
    ensures GetUserById(s, caller, userId) == Ok(GetAllUsers(s)[userId])
  {
  }

  /** An update body: absent keys leave their field alone; no schema validation runs. */
  datatype UserPatch = UserPatch(
    name: Option<string>,
    email: Option<string>,
    password: Option<string>,
    role: Option<Role>,
    status: Option<AccountStatus>)

  function PatchUser(u: User, p: UserPatch): User {
    u.(name := p.name.Or(u.name), email := p.email.Or(u.email), password := p.password.Or(u.password),
       role := p.role.Or(u.role), status := p.status.Or(u.status))
  }

  /**
   * `findOneAndUpdate` on a user, optionally restricted to one role: 404 when
   * no user matches, 500 when the new email is another user's (unique index).
   */
  function PatchUserIn(s: Store, userId: Id, role: Option<Role>, p: UserPatch): (r: Step<UserView>)
    ensures r.outcome.Fail? ==> r.store == s
    ensures (userId !in s.users || (role.Some? && s.users[userId].role != role.value)) <==> r == Step(s, Fail(NotFound))
    ensures (userId in s.users && (role.Some? ==> s.users[userId].role == role.value)
             && EmailHeldByOther(s, p.email.Or(s.users[userId].email), userId))
            ==> r.outcome == Fail(ServerError)
    ensures r.outcome.Ok? <==>
              && userId in s.users && (role.Some? ==> s.users[userId].role == role.value)
              && !EmailHeldByOther(s, p.email.Or(s.users[userId].email), userId)
    ensures r.outcome.Ok? ==>
              var was := s.users[userId];
              && userId in r.store.users
              && var u := r.store.users[userId];
              && r.store == s.(users := s.users[userId := u])
              && u.name == p.name.Or(was.name) && u.email == p.email.Or(was.email)
              && u.password == p.password.Or(was.password)
              && u.role == p.role.Or(was.role) && u.status == p.status.Or(was.status)
              // keys absent from the body keep their values
              && u == was.(name := u.name, email := u.email, password := u.password, role := u.role, status := u.status)
              && r.outcome.value == View(u)
  {
    if userId !in s.users || (role.Some? && s.users[userId].role != role.value) then Step(s, Fail(NotFound))
    else
      var u := PatchUser(s.users[userId], p);
      if EmailHeldByOther(s, u.email, userId) then Step(s, Fail(ServerError))
      else Step(s.(users := s.users[userId := u]), Ok(View(u)))
  }

  lemma PatchKeepsEmailsUnique(s: Store, userId: Id, role: Option<Role>, p: UserPatch)
    requires EmailsUnique(s.users)
    ensures EmailsUnique(PatchUserIn(s, userId, role, p).store.users)
  {
  }

  /** updateUser: an admin or the user themself; the password key is dropped from the body. */
  function UpdateUser(s: Store, caller: Claims, userId: Id, p: UserPatch): (r: Step<UserView>)
    ensures !AdminOrSelf(caller, userId) <==> r == Step(s, Fail(Forbidden))
    ensures AdminOrSelf(caller, userId) ==> r == PatchUserIn(s, userId, None, p.(password := None))
    ensures userId in s.users ==> userId in r.store.users && r.store.users[userId].password == s.users[userId].password
  {
    if !AdminOrSelf(caller, userId) then Step(s, Fail(Forbidden))
    else PatchUserIn(s, userId, None, p.(password := None))
  }

  /**
   * The handler's own check lets a user change their own role, up to admin;
   * only the admin guard in front of the user routes keeps non-admins out.
   */
  lemma SelfPromotion(s: Store, caller: Claims)
    requires EmailsUnique(s.users)
    requires caller.id in s.users
    ensures var p := UserPatch(None, None, None, Some(Admin), None);
            var r := UpdateUser(s, caller, caller.id, p);
            r.outcome.Ok? && r.store.users[caller.id].role == Admin
  {
    assert !EmailHeldByOther(s, s.users[caller.id].email, caller.id);
  }

  // ---------------------------------------------------------------------
  // Deletion

  /**
   * The cascade after a provider user is deleted: the first profile with that
   * user id goes, with every service it offers. Bookings and reviews stay.
   */
  function RemoveProviderData(s: Store, userId: Id): (r: Store)
    ensures r.users == s.users && r.bookings == s.bookings && r.reviews == s.reviews && r.categories == s.categories
    ensures ProfileOf(s, userId).None? ==> r == s
    ensures ProfileOf(s, userId).Some? ==>
              var p := ProfileOf(s, userId).value;
              && r.providers == s.providers - {p}
              && forall id :: id in r.services <==> id in s.services && s.services[id].providerId != p
    ensures forall id :: id in r.services ==> r.services[id] == s.services[id]
  {
    match ProfileOf(s, userId)
    case None => s
    case Some(p) => s.(providers := s.providers - {p}, services := Where(s.services, (sv: Service) => sv.providerId != p))
  }

  /** deleteUser: admins only; a provider's profile and services go with them. */
  function DeleteUser(s: Store, caller: Claims, userId: Id): (r: Step<()>)
    ensures caller.role != Some(Admin) <==> r == Step(s, Fail(Forbidden))
    ensures caller.role == Some(Admin) && userId !in s.users ==> r == Step(s, Fail(NotFound))
    ensures r.outcome.Ok? <==> caller.role == Some(Admin) && userId in s.users
    ensures r.outcome.Ok? ==>
              && r.store.users == s.users - {userId}
              && r.store.bookings == s.bookings && r.store.reviews == s.reviews
              && (s.users[userId].role != Provider ==> r.store == s.(users := s.users - {userId}))
              && (s.users[userId].role == Provider ==>
                    r.store == RemoveProviderData(s.(users := s.users - {userId}), userId))
  {
    if caller.role != Some(Admin) then Step(s, Fail(Forbidden))
    else if userId !in s.users then Step(s, Fail(NotFound))
    else
      var s1 := s.(users := s.users - {userId});
      if s.users[userId].role == Provider then Step(RemoveProviderData(s1, userId), Ok(()))
      else Step(s1, Ok(()))
  }

  /**
   * With one profile per user, the cascade leaves the deleted provider with no
   * profile and no services, while the bookings made with that profile remain,
   * now pointing at a profile that no longer exists.
   */
  lemma {:induction false} CascadeLeavesBookings(s: Store, userId: Id, b: Id)
    requires (forall a, c :: a in s.providers && c in s.providers && a != c ==> s.providers[a].userId != s.providers[c].userId)
    requires ProfileOf(s, userId).Some?
    requires b in s.bookings && s.bookings[b].providerId == ProfileOf(s, userId).value
    ensures var s' := RemoveProviderData(s, userId);
            && ProfileOf(s', userId).None?
            && (forall id :: id in s'.services ==> s'.services[id].providerId != ProfileOf(s, userId).value)
            && b in s'.bookings && s'.bookings[b].providerId !in s'.providers
  {
    var p := ProfileOf(s, userId).value;
    var s' := RemoveProviderData(s, userId);
    forall q | q in s'.providers ensures s'.providers[q].userId != userId {
      assert q in s.providers && q != p;
    }
  }

  // ---------------------------------------------------------------------
  // Self-service profile update

  /**
   * updateUserProfile: only on one's own id; an email already held by another
   * user is refused (400). A caller whose account is gone gets an empty answer.
   */
  function UpdateUserProfile(s: Store, caller: Claims, pathId: Id, name: Option<string>, email: Option<string>)
    : (r: Step<Option<UserView>>)
    ensures r.outcome.Fail? ==> r.store == s
    ensures pathId != caller.id ==> r.outcome == Fail(Forbidden)
    ensures (pathId == caller.id && email.Some? && UserWithEmail(s, email.value).Some?
             && UserWithEmail(s, email.value).value != caller.id) ==> r.outcome == Fail(BadRequest)
    ensures (pathId == caller.id && !(email.Some? && UserWithEmail(s, email.value).Some?
                                       && UserWithEmail(s, email.value).value != caller.id)
             && caller.id in s.users && EmailHeldByOther(s, email.Or(s.users[caller.id].email), caller.id))
            ==> r.outcome == Fail(ServerError)
    ensures r.outcome.Ok? <==>
              && pathId == caller.id
              && !(email.Some? && UserWithEmail(s, email.value).Some? && UserWithEmail(s, email.value).value != caller.id)
              && (caller.id in s.users ==> !EmailHeldByOther(s, email.Or(s.users[caller.id].email), caller.id))
    ensures caller.id !in s.users && r.outcome.Ok? ==> r == Step(s, Ok(None))
    ensures r.outcome.Ok? && caller.id in s.users ==>
              && caller.id in r.store.users
              && var u := r.store.users[caller.id];
              && r.store == s.(users := s.users[caller.id := u])
              // only name and email are written
              && u == s.users[caller.id].(name := name.Or(s.users[caller.id].name),
                                          email := email.Or(s.users[caller.id].email))
              && r.outcome.value == Some(View(u))
  {
    if pathId != caller.id then Step(s, Fail(Forbidden))
    else if email.Some? && UserWithEmail(s, email.value).Some? && UserWithEmail(s, email.value).value != caller.id then
      Step(s, Fail(BadRequest))
    else if caller.id !in s.users then Step(s, Ok(None))
    else
      var r := PatchUserIn(s, caller.id, None, UserPatch(name, email, None, None, None));
      match r.outcome
      case Ok(v) => Step(r.store, Ok(Some(v)))
      case Fail(e) => Step(r.store, Fail(e))
  }

  /** Under the unique email index the profile update never reaches the index error. */
  lemma ProfileUpdateNeverCollides(s: Store, caller: Claims, name: Option<string>, email: Option<string>)
    requires EmailsUnique(s.users)
    requires caller.id in s.users
    ensures var r := UpdateUserProfile(s, caller, caller.id, name, email);
            r.outcome.Ok? || r.outcome == Fail(BadRequest)
    ensures EmailsUnique(UpdateUserProfile(s, caller, caller.id, name, email).store.users)
  {
    var r := UpdateUserProfile(s, caller, caller.id, name, email);
    var refused := email.Some? && UserWithEmail(s, email.value).Some? && UserWithEmail(s, email.value).value != caller.id;
    if !refused {
      var target := email.Or(s.users[caller.id].email);
      assert !EmailHeldByOther(s, target, caller.id) by {
        if email.Some? && UserWithEmail(s, email.value).Some? {
          assert UserWithEmail(s, email.value).value == caller.id;
        }
      }
      PatchKeepsEmailsUnique(s, caller.id, None, UserPatch(name, email, None, None, None));
    }
  }
}

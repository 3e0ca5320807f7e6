/**
 * Provider administration (backend/controllers/admin-provider-handler.js):
 * provider users, a profile with its owner and services, the two-part
 * update and the cascading delete.
 */
module AdminProviders {
  import opened Lookup
  import opened Models
  import opened Store
  import AdminUsers
  import Services

  /** getAllProviders: the users registered as providers, without the password. */
  function GetAllProviders(s: Store): (r: map<Id, UserView>)
    ensures forall u :: u in r <==> u in s.users && s.users[u].role == Provider
    ensures forall u :: u in r ==> r[u] == View(s.users[u])
  {
    map u | u in s.users && s.users[u].role == Provider :: View(s.users[u])
  }

  datatype ProviderDetail = ProviderDetail(user: UserView, profile: ProviderProfile, services: map<Id, Service>)

  /**
   * getProviderById, keyed by the profile's id: 404 for a missing profile and
   * for a profile whose user is gone or no longer a provider. Every service of
   * the profile is listed, approved or not.
   */
  function GetProviderById(s: Store, profileId: Id): (r: Outcome<ProviderDetail>)
    ensures profileId !in s.providers ==> r == Fail(NotFound)
    ensures r.Ok? <==>
              && profileId in s.providers
              && s.providers[profileId].userId in s.users
              && s.users[s.providers[profileId].userId].role == Provider
    ensures r.Fail? ==> r.error == NotFound
    ensures r.Ok? ==>
              && r.value.profile == s.providers[profileId]
              && r.value.user == View(s.users[s.providers[profileId].userId])
              && (forall id :: id in r.value.services <==> id in s.services && s.services[id].providerId == profileId)
              && (forall id :: id in r.value.services ==> r.value.services[id] == s.services[id])
  {
    if profileId !in s.providers then Fail(NotFound)
    else
      var profile := s.providers[profileId];
      if !(profile.userId in s.users && s.users[profile.userId].role == Provider) then Fail(NotFound)
      else Ok(ProviderDetail(View(s.users[profile.userId]), profile,
                             Where(s.services, (sv: Service) => sv.providerId == profileId)))
  }

  /**
   * The detail of a provider's own profile agrees with the provider listing
   * (the user) and with what the provider sees of their services.
   */
  lemma ProviderDetailAgreesWithListings(s: Store, userId: Id)
    requires userId in s.users && s.users[userId].role == Provider
    requires ProfileOf(s, userId).Some?
    ensures var d := GetProviderById(s, ProfileOf(s, userId).value);
            && d.Ok?
            && userId in GetAllProviders(s) && d.value.user == GetAllProviders(s)[userId]
            && d.value.services == Services.GetProviderServices(s, userId).value
  {
  }

  /** The profile half of an update body; absent keys leave their field alone. */
  datatype ProfilePatch = ProfilePatch(
    name: Option<string>,
    email: Option<string>,
    phone: Option<string>,
    experience: Option<int>,
    location: Option<string>,
    isActive: Option<bool>,
    category: Option<Id>)

  function PatchProfile(p: ProviderProfile, q: ProfilePatch): ProviderProfile {
    p.(name := q.name.Or(p.name), email := q.email.Or(p.email), phone := q.phone.Or(p.phone),
       experience := if q.experience.Some? then q.experience else p.experience,
       location := q.location.Or(p.location), isActive := q.isActive.Or(p.isActive),
       category := if q.category.Some? then Some(ById(q.category.value)) else p.category)
  }

  /**
   * updateProvider: the user is patched only if it is a provider (else 404);
   * then the user's first profile, if any, is patched. The user half is applied
   * as given, a plain-text password included.
   */
  function UpdateProvider(s: Store, userId: Id, up: AdminUsers.UserPatch, pp: ProfilePatch)
    : (r: Step<(UserView, Option<ProviderProfile>)>)
    ensures r.outcome.Fail? ==> r.store == s
    ensures (userId !in s.users || s.users[userId].role != Provider) ==> r == Step(s, Fail(NotFound))
    ensures r.outcome.Ok? <==> AdminUsers.PatchUserIn(s, userId, Some(Provider), up).outcome.Ok?
    // a failed user update answers with its own code (404, or 500 on an email collision)
    ensures r.outcome.Fail? ==> r.outcome.error == AdminUsers.PatchUserIn(s, userId, Some(Provider), up).outcome.error
    ensures userId in s.users && s.users[userId].role == Provider
            && EmailHeldByOther(s, up.email.Or(s.users[userId].email), userId)
            ==> r.outcome == Fail(ServerError)
    ensures r.outcome.Ok? ==>
              var s1 := AdminUsers.PatchUserIn(s, userId, Some(Provider), up).store;
              && r.outcome.value.0 == AdminUsers.PatchUserIn(s, userId, Some(Provider), up).outcome.value
              && r.store.users == s1.users
              && r.store.services == s.services && r.store.bookings == s.bookings
              && (ProfileOf(s, userId).None? ==> r.store == s1 && r.outcome.value.1.None?)
              && (ProfileOf(s, userId).Some? ==>
                    var p := ProfileOf(s, userId).value;
                    && r.store.providers == s.providers[p := PatchProfile(s.providers[p], pp)]
                    && r.outcome.value.1 == Some(PatchProfile(s.providers[p], pp)))
  {
    var step := AdminUsers.PatchUserIn(s, userId, Some(Provider), up);
    match step.outcome
    case Fail(e) => Step(s, Fail(e))
    case Ok(view) =>
      assert step.store.providers == s.providers;
      match ProfileOf(step.store, userId)
      case None => Step(step.store, Ok((view, None)))
      case Some(p) =>
        var profile := PatchProfile(step.store.providers[p], pp);
        Step(step.store.(providers := step.store.providers[p := profile]), Ok((view, Some(profile))))
  }

  /** Unlike updateUser, this path stores a password given in the body, unhashed. */
  lemma UpdateProviderStoresRawPassword(s: Store, userId: Id, up: AdminUsers.UserPatch, pp: ProfilePatch)
    requires UpdateProvider(s, userId, up, pp).outcome.Ok?
    requires up.password.Some?
    ensures UpdateProvider(s, userId, up, pp).store.users[userId].password == up.password.value
  {
  }

  /** deleteProvider: the provider user, their first profile and that profile's services. */
  function DeleteProvider(s: Store, userId: Id): (r: Step<()>)
    ensures (userId !in s.users || s.users[userId].role != Provider) <==> r == Step(s, Fail(NotFound))
    ensures r.outcome.Ok? <==> userId in s.users && s.users[userId].role == Provider
    ensures r.outcome.Ok? ==>
              && r.store.users == s.users - {userId}
              && r.store.bookings == s.bookings && r.store.reviews == s.reviews
              && r.store == AdminUsers.RemoveProviderData(s.(users := s.users - {userId}), userId)
  {
    if userId !in s.users || s.users[userId].role != Provider then Step(s, Fail(NotFound))
    else Step(AdminUsers.RemoveProviderData(s.(users := s.users - {userId}), userId), Ok(()))
  }

  /** On a provider user, deleteProvider and an admin's deleteUser do the same thing. */
  lemma DeleteProviderIsDeleteUser(s: Store, admin: Claims, userId: Id)
    requires admin.role == Some(Admin)
    requires userId in s.users && s.users[userId].role == Provider
    ensures DeleteProvider(s, userId) == AdminUsers.DeleteUser(s, admin, userId)
  {
  }
}

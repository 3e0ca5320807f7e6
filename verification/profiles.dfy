/**
 * Provider onboarding (backend/controllers/provider-handler.js): a user
 * registered as a provider creates the business profile that services
 * and bookings hang off.
 */
module Profiles {
  import opened Lookup
  import opened Models
  import opened Store
  import Categories
  import Text

  /** What the provider sends; `category` is an identifier or a name to look up. */
  datatype ProfileRequest = ProfileRequest(
    phone: string,
    category: Option<CategoryRef>,
    experience: Option<int>,
    location: string,
    services: seq<string>)

  /** Phone, category, experience and location are all truthy: 0 years of experience is not. */
  predicate RequestComplete(req: ProfileRequest) {
    req.phone != "" && Categories.Given(req.category) && Truthy(req.experience) && req.location != ""
  }

  /** No user owns two provider profiles. */
  predicate ProfilesUnique(providers: map<Id, ProviderProfile>) {
    forall a, b :: a in providers && b in providers && a != b ==> providers[a].userId != providers[b].userId
  }

  function CreateProviderProfile(s: Store, userId: Id, req: ProfileRequest): (r: Step<Id>)
    ensures r.outcome.Fail? ==> r.store == s
    ensures !RequestComplete(req) ==> r.outcome == Fail(BadRequest)
    ensures RequestComplete(req) && ProfileOf(s, userId).Some? ==> r.outcome == Fail(BadRequest)
    ensures (RequestComplete(req) && ProfileOf(s, userId).None? && userId !in s.users) ==> r.outcome == Fail(NotFound)
    ensures (RequestComplete(req) && ProfileOf(s, userId).None? && userId in s.users && s.users[userId].role != Provider)
            ==> r.outcome == Fail(Forbidden)
    ensures r.outcome.Ok? <==>
              && RequestComplete(req)
              && ProfileOf(s, userId).None?
              && userId in s.users && s.users[userId].role == Provider
              && Categories.ResolveRequested(s, req.category.value).Some?
              && s.users[userId].name != "" && s.users[userId].email != ""
    ensures r.outcome.Ok? ==>
              var id := r.outcome.value;
              var u := s.users[userId];
              && id !in s.providers
              && var category := Categories.ResolveRequested(s, req.category.value).value;
              && r.store == s.(providers := s.providers[id := ProviderProfile(userId, u.name, u.email, req.phone,
                                                                              req.experience, req.location, req.services,
                                                                              true, Some(ById(category)))])
              // the caller now has a profile: it is the one just created
              && ProfileOf(r.store, userId) == Some(id)
  {
    if !RequestComplete(req) then Step(s, Fail(BadRequest))
    else if ProfileOf(s, userId).Some? then Step(s, Fail(BadRequest))
    else if userId !in s.users then Step(s, Fail(NotFound))
    else if s.users[userId].role != Provider then Step(s, Fail(Forbidden))
    else
      match Categories.ResolveRequested(s, req.category.value)
      case None => Step(s, Fail(BadRequest))
      case Some(category) =>
        var u := s.users[userId];
        var profile := ProviderProfile(userId, u.name, u.email, req.phone, req.experience, req.location,
                                       req.services, true, Some(ById(category)));
        if !ProfileSchemaOk(profile) then Step(s, Fail(ServerError))
        else
          var id := FreshId(s.providers);
          var s' := s.(providers := s.providers[id := profile]);
          assert forall p :: p in s'.providers && s'.providers[p].userId == userId ==> p == id;
          assert s'.providers[id].userId == userId;
          assert ProfileOf(s', userId).Some?;
          Step(s', Ok(id))
  }

  lemma CreateProfileKeepsOnePerUser(s: Store, userId: Id, req: ProfileRequest)
    requires ProfilesUnique(s.providers)
    ensures ProfilesUnique(CreateProviderProfile(s, userId, req).store.providers)
  {
  }

  /** A profile exists for the caller after a successful creation, so a second one is refused. */
  lemma {:induction false} SecondProfileRefused(s: Store, userId: Id, req1: ProfileRequest, req2: ProfileRequest)
    requires CreateProviderProfile(s, userId, req1).outcome.Ok?
    ensures var s' := CreateProviderProfile(s, userId, req1).store;
            CreateProviderProfile(s', userId, req2).outcome == Fail(BadRequest)
  {
    var s' := CreateProviderProfile(s, userId, req1).store;
    assert ProfileOf(s', userId).Some?;
  }

  /** A name selects the first category whose name contains it, ignoring case. */
  lemma ProfileCategoryByName(s: Store, userId: Id, req: ProfileRequest)
    requires CreateProviderProfile(s, userId, req).outcome.Ok?
    requires req.category.value.ByName?
    ensures var r := CreateProviderProfile(s, userId, req);
            var c := r.store.providers[r.outcome.value].category.value.id;
            && c in s.categories
            && Text.MatchesCI(s.categories[c].name, req.category.value.name)
  {
  }
}

/**
 * The provider side of the service lifecycle
 * (backend/controllers/service-handler.js): creation with its defaults,
 * owner-scoped partial update and deletion, and the listings.
 */
module Services {
  import opened Lookup
  import opened Models
  import opened Store
  import Categories

  /** The fields a provider sends when creating or editing a service. */
  datatype ServiceFields = ServiceFields(title: string, description: string, price: Option<int>, duration: string)

  /** Title, price and duration are all truthy; a price of 0 is not. */
  predicate FieldsGiven(f: ServiceFields) {
    f.title != "" && Truthy(f.price) && f.duration != ""
  }

  function CreateService(s: Store, userId: Id, f: ServiceFields, now: int): (r: Step<Id>)
    ensures r.outcome.Fail? ==> r.store == s
    ensures ProfileOf(s, userId).None? ==> r.outcome == Fail(NotFound)
    ensures ProfileOf(s, userId).Some? && !FieldsGiven(f) ==> r.outcome == Fail(BadRequest)
    ensures (ProfileOf(s, userId).Some? && FieldsGiven(f)
             && Categories.ResolveStored(s, s.providers[ProfileOf(s, userId).value].category).None?)
            ==> r.outcome == Fail(BadRequest)
    // the schema requires a location, which the profile may lack
    ensures (ProfileOf(s, userId).Some? && FieldsGiven(f)
             && Categories.ResolveStored(s, s.providers[ProfileOf(s, userId).value].category).Some?
             && s.providers[ProfileOf(s, userId).value].location == "")
            ==> r.outcome == Fail(ServerError)
    ensures r.outcome.Ok? <==>
              && ProfileOf(s, userId).Some?
              && FieldsGiven(f)
              && Categories.ResolveStored(s, s.providers[ProfileOf(s, userId).value].category).Some?
              && s.providers[ProfileOf(s, userId).value].location != ""
    ensures r.outcome.Ok? ==>
              var id := r.outcome.value;
              var profile := ProfileOf(s, userId).value;
              && id !in s.services && id in r.store.services
              && r.store == s.(services := s.services[id := r.store.services[id]])
              && var sv := r.store.services[id];
              && sv.providerId == profile
              && sv.category == Categories.ResolveStored(s, s.providers[profile].category).value
              && sv.location == s.providers[profile].location
              && sv.isActive && !sv.isApproved
              && sv.title == f.title && sv.description == f.description
              && sv.price == f.price.value && sv.duration == f.duration
              && sv.createdAt == now
              && ServiceSchemaOk(sv)
  {
    match ProfileOf(s, userId)
    case None => Step(s, Fail(NotFound))
    case Some(profile) =>
      if !FieldsGiven(f) then Step(s, Fail(BadRequest))
      else
        match Categories.ResolveStored(s, s.providers[profile].category)
        case None => Step(s, Fail(BadRequest))
        case Some(category) =>
          var location := s.providers[profile].location;
          if location == "" then Step(s, Fail(ServerError))
          else
            var id := FreshId(s.services);
            var sv := Service(profile, f.title, f.description, f.price.value, f.duration, location,
                              true, false, category, now);
            Step(s.(services := s.services[id := sv]), Ok(id))
  }

  /** The service exists and belongs to the caller's provider profile. */
  predicate OwnsService(s: Store, userId: Id, serviceId: Id) {
    && ProfileOf(s, userId).Some?
    && serviceId in s.services
    && s.services[serviceId].providerId == ProfileOf(s, userId).value
  }

  /** Only the truthy fields of the edit overwrite the service. */
  function Edit(sv: Service, f: ServiceFields): Service {
    sv.(title := if f.title != "" then f.title else sv.title,
        description := if f.description != "" then f.description else sv.description,
        price := if Truthy(f.price) then f.price.value else sv.price,
        duration := if f.duration != "" then f.duration else sv.duration)
  }

  /**
   * updateService. The save re-validates the whole document: an owned service
   * whose title, duration or location was blanked earlier (by the admin's
   * unvalidated update) is refused with 500 unless the edit supplies them.
   */
  function UpdateService(s: Store, userId: Id, serviceId: Id, f: ServiceFields): (r: Step<Service>)
    ensures r.outcome.Fail? ==> r.store == s
    // the source reads the `_id` of a missing profile: the request fails with 500
    ensures ProfileOf(s, userId).None? ==> r.outcome == Fail(ServerError)
    ensures ProfileOf(s, userId).Some? && !OwnsService(s, userId, serviceId) ==> r.outcome == Fail(NotFound)
    ensures (OwnsService(s, userId, serviceId)
             && !((f.title != "" || s.services[serviceId].title != "")
                  && (f.duration != "" || s.services[serviceId].duration != "")
                  && s.services[serviceId].location != ""))
            ==> r.outcome == Fail(ServerError)
    ensures r.outcome.Ok? <==>
              && OwnsService(s, userId, serviceId)
              && (f.title != "" || s.services[serviceId].title != "")
              && (f.duration != "" || s.services[serviceId].duration != "")
              && s.services[serviceId].location != ""
    ensures r.outcome.Ok? ==>
              var was := s.services[serviceId];
              var sv := r.outcome.value;
              && r.store == s.(services := s.services[serviceId := sv])
              && sv.title == (if f.title != "" then f.title else was.title)
              && sv.description == (if f.description != "" then f.description else was.description)
              && sv.price == (if Truthy(f.price) then f.price.value else was.price)
              && sv.duration == (if f.duration != "" then f.duration else was.duration)
              && sv.isActive == was.isActive && sv.isApproved == was.isApproved
              && sv.providerId == was.providerId && sv.category == was.category
              && sv.location == was.location && sv.createdAt == was.createdAt
  {
    match ProfileOf(s, userId)
    case None => Step(s, Fail(ServerError))
    case Some(profile) =>
      if !(serviceId in s.services && s.services[serviceId].providerId == profile) then Step(s, Fail(NotFound))
      else
        var sv := Edit(s.services[serviceId], f);
        if !ServiceSchemaOk(sv) then Step(s, Fail(ServerError))
        else Step(s.(services := s.services[serviceId := sv]), Ok(sv))
  }

  function DeleteService(s: Store, userId: Id, serviceId: Id): (r: Step<()>)
    ensures r.outcome.Fail? ==> r.store == s
    ensures ProfileOf(s, userId).None? ==> r.outcome == Fail(ServerError)
    ensures ProfileOf(s, userId).Some? && !OwnsService(s, userId, serviceId) ==> r.outcome == Fail(NotFound)
    ensures r.outcome.Ok? <==> OwnsService(s, userId, serviceId)
    ensures r.outcome.Ok? ==>
              && r.store == s.(services := s.services - {serviceId})
              && |r.store.services| == |s.services| - 1
  {
    match ProfileOf(s, userId)
    case None => Step(s, Fail(ServerError))
    case Some(profile) =>
      if !(serviceId in s.services && s.services[serviceId].providerId == profile) then Step(s, Fail(NotFound))
      else Step(s.(services := s.services - {serviceId}), Ok(()))
  }

  /** No provider-side operation approves a service: approval is the admin's alone. */
  lemma CreateServiceNeverApproves(s: Store, userId: Id, f: ServiceFields, now: int)
    ensures var s' := CreateService(s, userId, f, now).store;
            forall id :: id in s'.services && s'.services[id].isApproved ==> id in s.services && s.services[id].isApproved
  {
    var r := CreateService(s, userId, f, now);
    if r.outcome.Ok? {
      forall id | id in r.store.services && r.store.services[id].isApproved
        ensures id in s.services && s.services[id].isApproved
      {
        assert id != r.outcome.value;
      }
    }
  }

  lemma EditKeepsFlags(s: Store, userId: Id, serviceId: Id, f: ServiceFields)
    ensures var s' := UpdateService(s, userId, serviceId, f).store;
            && s'.services.Keys == s.services.Keys
            && forall id :: id in s'.services ==>
                 && s'.services[id].isApproved == s.services[id].isApproved
                 && s'.services[id].isActive == s.services[id].isActive
  {
  }

  // ---------------------------------------------------------------------
  // Listings

  /** getProviderServices: all the caller's services, whatever their flags. */
  function GetProviderServices(s: Store, userId: Id): (r: Outcome<map<Id, Service>>)
    ensures ProfileOf(s, userId).None? <==> r == Fail(NotFound)
    ensures r.Ok? <==> ProfileOf(s, userId).Some?
    ensures r.Ok? ==> forall id :: id in r.value <==>
              id in s.services && s.services[id].providerId == ProfileOf(s, userId).value
    ensures r.Ok? ==> forall id :: id in r.value ==> r.value[id] == s.services[id]
  {
    match ProfileOf(s, userId)
    case None => Fail(NotFound)
    case Some(profile) => Ok(Where(s.services, (sv: Service) => sv.providerId == profile))
  }

  /** getAllServices: the services a customer may see. */
  function GetAllServices(s: Store): (r: map<Id, Service>)
    ensures forall id :: id in r <==> id in s.services && Visible(s.services[id])
    ensures forall id :: id in r ==> r[id] == s.services[id]
  {
    Where(s.services, Visible)
  }

  /** getServicesByProvider: the visible services of one provider profile. */
  function GetServicesByProvider(s: Store, providerId: Id): (r: map<Id, Service>)
    ensures forall id :: id in r <==> id in s.services && s.services[id].providerId == providerId && Visible(s.services[id])
    ensures forall id :: id in r ==> r[id] == s.services[id]
  {
    Where(s.services, (sv: Service) => sv.providerId == providerId && Visible(sv))
  }

  /**
   * What customers see of a provider is the visible part of what the
   * provider sees of their own services.
   */
  lemma CustomerViewIsVisiblePart(s: Store, userId: Id)
    requires ProfileOf(s, userId).Some?
    ensures var own := GetProviderServices(s, userId).value;
            var shown := GetServicesByProvider(s, ProfileOf(s, userId).value);
            && shown.Keys <= own.Keys
            && forall id :: id in own && Visible(own[id]) <==> id in shown
  {
  }
}

/**
 * The customer's provider directory (backend/controllers/customer-handler.js):
 * every active profile, each with the services it offers.
 */
module Customers {
  import opened Lookup
  import opened Models
  import opened Store
  import Services

  /** A service as the directory returns it: without the owning profile's id. */
  datatype ServiceView = ServiceView(
    title: string,
    description: string,
    price: int,
    duration: string,
    location: string,
    isActive: bool,
    isApproved: bool,
    category: Id,
    createdAt: int)

  function ViewService(sv: Service): ServiceView {
    ServiceView(sv.title, sv.description, sv.price, sv.duration, sv.location, sv.isActive, sv.isApproved,
                sv.category, sv.createdAt)
  }

  datatype DirectoryEntry = DirectoryEntry(profile: ProviderProfile, services: map<Id, ServiceView>)

  /** The services a profile offers, whatever their flags. */
  function OfferedBy(s: Store, profileId: Id): (r: map<Id, ServiceView>)
    ensures forall id :: id in r <==> id in s.services && s.services[id].providerId == profileId
    ensures forall id :: id in r ==> r[id] == ViewService(s.services[id])
  {
    map id | id in s.services && s.services[id].providerId == profileId :: ViewService(s.services[id])
  }

  /**
   * getAllProviders for customers: one entry per active profile, carrying all
   * of its services; the approval and activation flags are not consulted.
   */
  function GetAllProviders(s: Store): (r: map<Id, DirectoryEntry>)
    ensures forall p :: p in r <==> p in s.providers && s.providers[p].isActive
    ensures forall p :: p in r ==> r[p].profile == s.providers[p]
    ensures forall p, id :: p in r && id in s.services && s.services[id].providerId == p ==> id in r[p].services
    ensures forall p, id :: p in r && id in r[p].services ==>
              id in s.services && s.services[id].providerId == p && r[p].services[id] == ViewService(s.services[id])
  {
    map p | p in s.providers && s.providers[p].isActive :: DirectoryEntry(s.providers[p], OfferedBy(s, p))
  }

  /**
   * A service the customer listing of a provider hides (not approved, or
   * deactivated) still appears in the directory entry of an active provider.
   */
  lemma DirectoryShowsHiddenServices(s: Store, id: Id)
    requires id in s.services && !Visible(s.services[id])
    requires s.services[id].providerId in s.providers && s.providers[s.services[id].providerId].isActive
    ensures var p := s.services[id].providerId;
            id in GetAllProviders(s)[p].services && id !in Services.GetServicesByProvider(s, p)
  {
  }
}

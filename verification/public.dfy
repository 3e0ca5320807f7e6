/**
 * The unauthenticated endpoints (backend/controllers/public-handler.js).
 * `getAllPublicServices` and `getProviderServicesPublic` issue the same
 * queries as the customer listings `Services.GetAllServices` and
 * `Services.GetServicesByProvider`; this module adds the public provider
 * card and the filtered search.
 */
module Public {
  import opened Lookup
  import opened Models
  import opened Store
  import opened Text
  import Categories
  import Services
  import Customers

  /** The fields of a profile the public may see. */
  datatype PublicProfile = PublicProfile(
    name: string,
    email: string,
    phone: string,
    location: string,
    category: Option<CategoryRef>,
    experience: Option<int>)

  function GetPublicProviderProfile(s: Store, profileId: Id): (r: Outcome<PublicProfile>)
    ensures profileId !in s.providers <==> r == Fail(NotFound)
    ensures r.Ok? <==> profileId in s.providers
    ensures r.Ok? ==>
              var p := s.providers[profileId];
              r.value == PublicProfile(p.name, p.email, p.phone, p.location, p.category, p.experience)
  {
    if profileId !in s.providers then Fail(NotFound)
    else
      var p := s.providers[profileId];
      Ok(PublicProfile(p.name, p.email, p.phone, p.location, p.category, p.experience))
  }

  /**
   * The public card of a profile in the customers' directory shows the same
   * fields as the directory entry. The card does not consult `isActive`:
   * a deactivated profile, absent from the directory, still has one.
   */
  lemma PublicCardMatchesDirectory(s: Store, profileId: Id)
    requires profileId in s.providers
    ensures var card := GetPublicProviderProfile(s, profileId);
            && card.Ok?
            && (profileId in Customers.GetAllProviders(s) <==> s.providers[profileId].isActive)
            && (profileId in Customers.GetAllProviders(s) ==>
                  var p := Customers.GetAllProviders(s)[profileId].profile;
                  && card.value.name == p.name && card.value.email == p.email && card.value.phone == p.phone
                  && card.value.location == p.location && card.value.category == p.category
                  && card.value.experience == p.experience)
  {
  }

  /** The search query string; empty strings and absent numbers impose nothing. */
  datatype SearchQuery = SearchQuery(
    category: Option<CategoryRef>,
    location: string,
    keyword: string,
    minPrice: Option<int>,
    maxPrice: Option<int>)

  function NoFilters(): SearchQuery {
    SearchQuery(None, "", "", None, None)
  }

  /** The location, price and keyword filters; bounds are inclusive. */
  predicate PassesFilters(sv: Service, q: SearchQuery) {
    && (q.location != "" ==> sv.location == q.location)
    && (q.minPrice.Some? ==> sv.price >= q.minPrice.value)
    && (q.maxPrice.Some? ==> sv.price <= q.maxPrice.value)
    && (q.keyword != "" ==> MatchesCI(sv.title, q.keyword) || MatchesCI(sv.description, q.keyword))
  }

  /**
   * searchServices. A category name with no case-insensitive match answers
   * with an empty list at once; an identifier is used as given.
   */
  function SearchServices(s: Store, q: SearchQuery): (r: map<Id, Service>)
    ensures forall id :: id in r ==> id in s.services && r[id] == s.services[id]
    ensures forall id :: id in r ==> Visible(s.services[id]) && PassesFilters(s.services[id], q)
    ensures Categories.Given(q.category) ==>
              match Categories.ResolveRequested(s, q.category.value)
              case None => r == map[]
              case Some(c) => forall id :: id in r <==>
                                id in s.services && Visible(s.services[id]) && PassesFilters(s.services[id], q)
                                && s.services[id].category == c
    ensures !Categories.Given(q.category) ==>
              forall id :: id in r <==> id in s.services && Visible(s.services[id]) && PassesFilters(s.services[id], q)
  {
    if Categories.Given(q.category) then
      match Categories.ResolveRequested(s, q.category.value)
      case None => map[]
      case Some(c) => Where(s.services, (sv: Service) => Visible(sv) && PassesFilters(sv, q) && sv.category == c)
    else
      Where(s.services, (sv: Service) => Visible(sv) && PassesFilters(sv, q))
  }

  /** With no filter the search is the public listing. */
  lemma EmptySearchIsPublicListing(s: Store)
    ensures SearchServices(s, NoFilters()) == Services.GetAllServices(s)
  {
  }

  /** The search never reveals a service the public listing hides. */
  lemma SearchWithinPublicListing(s: Store, q: SearchQuery)
    ensures SearchServices(s, q).Keys <= Services.GetAllServices(s).Keys
  {
  }

  /** Adding a location, a bound or a keyword to a query never adds results. */
  lemma {:induction false} FiltersOnlyNarrow(s: Store, q: SearchQuery, q': SearchQuery)
    requires q'.category == q.category
    requires q.location != "" ==> q'.location == q.location
    requires q.keyword != "" ==> q'.keyword == q.keyword
    requires q.minPrice.Some? ==> q'.minPrice.Some? && q'.minPrice.value >= q.minPrice.value
    requires q.maxPrice.Some? ==> q'.maxPrice.Some? && q'.maxPrice.value <= q.maxPrice.value
    ensures SearchServices(s, q').Keys <= SearchServices(s, q).Keys
  {
    forall id | id in SearchServices(s, q') ensures id in SearchServices(s, q) {
      assert PassesFilters(s.services[id], q');
      assert PassesFilters(s.services[id], q);
    }
  }
}

/**
 * Category resolution, shared by service creation, provider profile
 * creation and the public search: by identifier, by exact name, or by
 * the first case-insensitive name match.
 */
module Categories {
  import opened Lookup
  import opened Models
  import opened Store
  import opened Text

  /** `Category.findOne({ name })`. */
  function WithName(s: Store, name: string): (r: Option<Id>)
    ensures r.Some? ==> r.value in s.categories && s.categories[r.value].name == name
    ensures r.None? <==> forall c :: c in s.categories ==> s.categories[c].name != name
  {
    FindFirst(s.categories, (c: Category) => c.name == name)
  }

  /** `Category.findOne({ name: { $regex: pattern, $options: "i" } })`: the first match wins. */
  function Matching(s: Store, pattern: string): (r: Option<Id>)
    ensures r.Some? ==> r.value in s.categories && MatchesCI(s.categories[r.value].name, pattern)
    ensures r.Some? ==> forall c :: c in s.categories && MatchesCI(s.categories[c].name, pattern) ==> r.value <= c
    ensures r.None? <==> forall c :: c in s.categories ==> !MatchesCI(s.categories[c].name, pattern)
  {
    FindFirst(s.categories, (c: Category) => MatchesCI(c.name, pattern))
  }

  /**
   * The category a provider profile names, as service creation resolves it:
   * a name by exact match, an identifier by `findById`; none when absent.
   */
  function ResolveStored(s: Store, ref: Option<CategoryRef>): (r: Option<Id>)
    ensures r.Some? ==> r.value in s.categories
    ensures ref.None? ==> r.None?
    ensures ref.Some? && ref.value.ById? ==> (r.Some? <==> ref.value.id in s.categories)
    ensures ref.Some? && ref.value.ById? && r.Some? ==> r.value == ref.value.id
    ensures ref.Some? && ref.value.ByName? ==>
              (r.Some? <==> exists c :: c in s.categories && s.categories[c].name == ref.value.name)
    ensures ref.Some? && ref.value.ByName? && r.Some? ==> s.categories[r.value].name == ref.value.name
  {
    match ref
    case None => None
    case Some(ById(id)) => if id in s.categories then Some(id) else None
    case Some(ByName(name)) => WithName(s, name)
  }

  /** A category parameter is present and truthy: absent and the empty name are not. */
  predicate Given(ref: Option<CategoryRef>) {
    ref.Some? && (ref.value.ByName? ==> ref.value.name != "")
  }

  /**
   * The category a request names, as profile creation and search resolve it:
   * an identifier is taken as given, a name by its first case-insensitive match.
   */
  function ResolveRequested(s: Store, ref: CategoryRef): (r: Option<Id>)
    ensures ref.ById? ==> r == Some(ref.id)
    ensures ref.ByName? ==> (r.Some? <==> exists c :: c in s.categories && MatchesCI(s.categories[c].name, ref.name))
    ensures ref.ByName? && r.Some? ==> r.value in s.categories && MatchesCI(s.categories[r.value].name, ref.name)
  {
    match ref
    case ById(id) => Some(id)
    case ByName(name) => Matching(s, name)
  }

  /** `createCategory`'s duplicate check and insert. */
  function CreateCategory(s: Store, name: string, now: int): (r: Step<Id>)
    ensures r.outcome.Fail? ==> r.store == s
    ensures (exists c :: c in s.categories && s.categories[c].name == name) ==> r.outcome == Fail(BadRequest)
    ensures (forall c :: c in s.categories ==> s.categories[c].name != name) && name == ""
            ==> r.outcome == Fail(ServerError)
    ensures r.outcome.Ok? <==> name != "" && forall c :: c in s.categories ==> s.categories[c].name != name
    ensures r.outcome.Ok? ==>
              && r.outcome.value !in s.categories
              && r.store == s.(categories := s.categories[r.outcome.value := Category(name, true, now)])
  {
    if WithName(s, name).Some? then Step(s, Fail(BadRequest))
    else if name == "" then Step(s, Fail(ServerError))
    else
      var id := FreshId(s.categories);
      Step(s.(categories := s.categories[id := Category(name, true, now)]), Ok(id))
  }

  /** Creating a category keeps names unique, and adds exactly one category. */
  lemma CreateCategoryKeepsNamesUnique(s: Store, name: string, now: int)
    requires CategoryNamesUnique(s.categories)
    ensures CategoryNamesUnique(CreateCategory(s, name, now).store.categories)
    ensures CreateCategory(s, name, now).outcome.Ok? ==>
              |CreateCategory(s, name, now).store.categories| == |s.categories| + 1
  {
  }
}

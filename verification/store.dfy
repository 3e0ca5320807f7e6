/**
 * The document store as one immutable value, the outcome of a request
 * handler, and the lookups several handlers share.
 *
 * A handler is a pure function from the store (and the request) to a
 * `Step`: the store after the request, and either a payload or the
 * error kind the HTTP status conveys.
 */
module Store {
  import opened Lookup
  import opened Models

  datatype Store = Store(
    users: map<Id, User>,
    providers: map<Id, ProviderProfile>,
    services: map<Id, Service>,
    bookings: map<Id, Booking>,
    reviews: map<Id, Review>,
    categories: map<Id, Category>)

  /** 400, 401, 403, 404 and 500. */
  datatype ErrorCode = BadRequest | Unauthorized | Forbidden | NotFound | ServerError

  function HttpStatus(e: ErrorCode): int {
    match e
    case BadRequest => 400
    case Unauthorized => 401
    case Forbidden => 403
    case NotFound => 404
    case ServerError => 500
  }

  datatype Outcome<+T> = Ok(value: T) | Fail(error: ErrorCode)

  datatype Step<+T> = Step(store: Store, outcome: Outcome<T>)

  /** `Provider.findOne({ userId })`: the caller's provider profile. */
  function ProfileOf(s: Store, userId: Id): (r: Option<Id>)
    ensures r.Some? ==> r.value in s.providers && s.providers[r.value].userId == userId
    ensures r.None? <==> forall p :: p in s.providers ==> s.providers[p].userId != userId
  {
    FindFirst(s.providers, (p: ProviderProfile) => p.userId == userId)
  }

  /** `User.findOne({ email })`. */
  function UserWithEmail(s: Store, email: string): (r: Option<Id>)
    ensures r.Some? ==> r.value in s.users && s.users[r.value].email == email
    ensures r.None? <==> forall u :: u in s.users ==> s.users[u].email != email
  {
    FindFirst(s.users, (u: User) => u.email == email)
  }

  /** Some user other than `self` already holds `email`. */
  predicate EmailHeldByOther(s: Store, email: string, self: Id) {
    exists u :: u in s.users && u != self && s.users[u].email == email
  }

  /** The unique index on `User.email`. */
  predicate EmailsUnique(users: map<Id, User>) {
    forall a, b :: a in users && b in users && a != b ==> users[a].email != users[b].email
  }

  /** The unique index on `Category.name`. */
  predicate CategoryNamesUnique(categories: map<Id, Category>) {
    forall a, b :: a in categories && b in categories && a != b ==> categories[a].name != categories[b].name
  }
}

/**
 * The records of the marketplace: users, provider profiles, services,
 * bookings, reviews and categories, with the enumerations and the
 * schema rules (required fields, enum values, bounds) the document
 * store checks when a record is saved.
 *
 * Strings that the source treats as optional are `""` when absent
 * (both are falsy in JavaScript); optional numbers are `Option<int>`.
 */
module Models {
  import opened Lookup

  datatype Role = Customer | Provider | Admin

  function RoleName(r: Role): string {
    match r
    case Customer => "customer"
    case Provider => "provider"
    case Admin => "admin"
  }

  /** The role enum check the store applies on save. */
  function ParseRole(s: string): (r: Option<Role>)
    ensures r.Some? <==> s == "customer" || s == "provider" || s == "admin"
    ensures r.Some? ==> RoleName(r.value) == s
  {
    if s == "customer" then Some(Customer)
    else if s == "provider" then Some(Provider)
    else if s == "admin" then Some(Admin)
    else None
  }

  datatype AccountStatus = Active | Blocked

  datatype BookingStatus = Pending | Confirmed | Cancelled | Rejected

  function StatusName(st: BookingStatus): string {
    match st
    case Pending => "pending"
    case Confirmed => "confirmed"
    case Cancelled => "cancelled"
    case Rejected => "rejected"
  }

  /** Confirmed, cancelled and rejected bookings admit no further transition. */
  predicate Terminal(st: BookingStatus) {
    st != Pending
  }

  /** A reference to a category: an ObjectId, or any other string taken as a name. */
  datatype CategoryRef = ById(id: Id) | ByName(name: string)

  datatype User = User(
    name: string,
    email: string,
    password: string,          // bcrypt hash
    role: Role,
    status: AccountStatus,
    resetToken: Option<string>,
    resetTokenExpiry: Option<int>,
    createdAt: int)

  /** The provider profile: the business-facing extension of a provider user. */
  datatype ProviderProfile = ProviderProfile(
    userId: Id,
    name: string,
    email: string,
    phone: string,
    experience: Option<int>,
    location: string,
    services: seq<string>,
    isActive: bool,
    category: Option<CategoryRef>)

  datatype Service = Service(
    providerId: Id,
    title: string,
    description: string,
    price: int,
    duration: string,
    location: string,
    isActive: bool,
    isApproved: bool,
    category: Id,
    createdAt: int)

  datatype Booking = Booking(
    customerId: Id,
    providerId: Id,
    service: Id,
    date: int,                 // milliseconds since the epoch
    time: string,
    location: string,
    status: BookingStatus,
    createdAt: int)

  datatype Review = Review(
    serviceId: Id,
    customerId: Id,
    rating: int,
    comment: string,
    createdAt: int)

  datatype Category = Category(name: string, isActive: bool, createdAt: int)

  /** The decoded bearer token: who is calling and in which role. */
  datatype Claims = Claims(id: Id, name: string, email: string, role: Option<Role>)

  /** A user as the listings return it: every field but the password hash. */
  datatype UserView = UserView(
    name: string,
    email: string,
    role: Role,
    status: AccountStatus,
    resetToken: Option<string>,
    resetTokenExpiry: Option<int>,
    createdAt: int)

  function View(u: User): UserView {
    UserView(u.name, u.email, u.role, u.status, u.resetToken, u.resetTokenExpiry, u.createdAt)
  }

  /** Customers and the public see a service only when it is active and approved. */
  predicate Visible(sv: Service) {
    sv.isActive && sv.isApproved
  }

  // Schema rules checked on save.

  predicate UserSchemaOk(u: User) {
    u.name != "" && u.password != ""
  }

  predicate ServiceSchemaOk(sv: Service) {
    sv.title != "" && sv.duration != "" && sv.location != ""
  }

  predicate ReviewRatingOk(rating: int) {
    1 <= rating <= 5
  }

  predicate ProfileSchemaOk(p: ProviderProfile) {
    p.name != "" && p.email != ""
  }
}

/**
 * Customer administration (backend/controllers/admin-customer-handler.js):
 * every operation is scoped to users whose role is customer.
 */
module AdminCustomers {
  import opened Lookup
  import opened Models
  import opened Store
  import AdminUsers

  /** getAllCustomers: the users registered as customers, without the password. */
  function GetAllCustomers(s: Store): (r: map<Id, UserView>)
    ensures forall u :: u in r <==> u in s.users && s.users[u].role == Customer
    ensures forall u :: u in r ==> r[u] == View(s.users[u])
  {
    map u | u in s.users && s.users[u].role == Customer :: View(s.users[u])
  }

  predicate IsCustomer(s: Store, userId: Id) {
    userId in s.users && s.users[userId].role == Customer
  }

  function GetCustomerById(s: Store, userId: Id): (r: Outcome<UserView>)
    ensures !IsCustomer(s, userId) <==> r == Fail(NotFound)
    ensures r.Ok? <==> IsCustomer(s, userId)
    ensures r.Ok? ==> r.value == View(s.users[userId])
  {
    if IsCustomer(s, userId) then Ok(View(s.users[userId])) else Fail(NotFound)
  }

  /** One customer read by id is that customer's entry in the listing; anyone else is not listed. */
  lemma GetCustomerByIdAgreesWithListing(s: Store, userId: Id)
    ensures userId in GetAllCustomers(s) <==> GetCustomerById(s, userId).Ok?
    ensures userId in GetAllCustomers(s) ==> GetCustomerById(s, userId) == Ok(GetAllCustomers(s)[userId])
  {
  }

  /**
   * updateCustomer: the body is applied as given, a plain-text password
   * included; the keys it does not give keep their values.
   */
  function UpdateCustomer(s: Store, userId: Id, p: AdminUsers.UserPatch): (r: Step<UserView>)
    ensures r.outcome.Fail? ==> r.store == s
    ensures !IsCustomer(s, userId) ==> r == Step(s, Fail(NotFound))
    ensures IsCustomer(s, userId) && EmailHeldByOther(s, p.email.Or(s.users[userId].email), userId)
            ==> r.outcome == Fail(ServerError)
    ensures r.outcome.Ok? <==> IsCustomer(s, userId) && !EmailHeldByOther(s, p.email.Or(s.users[userId].email), userId)
    ensures r.outcome.Ok? ==>
              var was := s.users[userId];
              && userId in r.store.users
              && var u := r.store.users[userId];
              && r.store == s.(users := s.users[userId := u])
              && u == was.(name := p.name.Or(was.name), email := p.email.Or(was.email),
                           password := p.password.Or(was.password), role := p.role.Or(was.role),
                           status := p.status.Or(was.status))
              && r.outcome.value == View(u)
  {
    AdminUsers.PatchUserIn(s, userId, Some(Customer), p)
  }

  /** An admin's updateUser never touches the password; updateCustomer overwrites it unhashed. */
  lemma PasswordPathsDiffer(s: Store, admin: Claims, userId: Id, p: AdminUsers.UserPatch)
    requires admin.role == Some(Admin)
    requires IsCustomer(s, userId) && p.password.Some?
    requires UpdateCustomer(s, userId, p).outcome.Ok?
    ensures AdminUsers.UpdateUser(s, admin, userId, p).outcome.Ok?
    ensures AdminUsers.UpdateUser(s, admin, userId, p).store.users[userId].password == s.users[userId].password
    ensures UpdateCustomer(s, userId, p).store.users[userId].password == p.password.value
  {
  }

  /** deleteCustomer: only the user; their bookings and reviews remain. */
  function DeleteCustomer(s: Store, userId: Id): (r: Step<()>)
    ensures !IsCustomer(s, userId) <==> r == Step(s, Fail(NotFound))
    ensures r.outcome.Ok? <==> IsCustomer(s, userId)
    ensures r.outcome.Ok? ==> r.store == s.(users := s.users - {userId})
  {
    if IsCustomer(s, userId) then Step(s.(users := s.users - {userId}), Ok(())) else Step(s, Fail(NotFound))
  }

  /** On a customer, deleteCustomer and an admin's deleteUser do the same thing: no cascade. */
  lemma DeleteCustomerIsDeleteUser(s: Store, admin: Claims, userId: Id)
    requires admin.role == Some(Admin)
    requires IsCustomer(s, userId)
    ensures DeleteCustomer(s, userId) == AdminUsers.DeleteUser(s, admin, userId)
  {
  }
}

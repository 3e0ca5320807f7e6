/**
 * Registration, login and the password-reset flow
 * (backend/controllers/auth-handler.js).
 *
 * Hashing, hash comparison, token signing and verification, the clock and
 * the mail transport are parameters: `hash` stands for bcrypt, `matches`
 * for its comparison, `decoded` for what the token verifier yields,
 * `now` for the clock and `mailSent` for the transport's result.
 */
module Auth {
  import opened Lookup
  import opened Models
  import opened Store

  /** Five minutes in milliseconds, as the constant is declared. */
  const ResetTokenExpiry: int := 5 * 60 * 1000

  /**
   * How long a reset token stays valid: the constant is multiplied by 1000
   * once more when the expiry date is set, so the window is 300 000 seconds
   * (83 hours 20 minutes), not five minutes.
   */
  const ResetWindow: int := ResetTokenExpiry * 1000

  datatype Registration = Registration(name: string, email: string, password: string, confirmPassword: string, role: string)

  predicate RegistrationComplete(req: Registration) {
    req.name != "" && req.email != "" && req.password != "" && req.confirmPassword != "" && req.role != ""
  }

  /**
   * registerUser: missing fields (400), the admin role (403), mismatched
   * passwords (400), an email in use (400); a role outside the enum or an
   * empty hash fails the schema (500).
   */
  function RegisterUser(s: Store, req: Registration, hash: string -> string, now: int): (r: Step<Id>)
    ensures r.outcome.Fail? ==> r.store == s
    ensures !RegistrationComplete(req) ==> r.outcome == Fail(BadRequest)
    ensures RegistrationComplete(req) && req.role == "admin" ==> r.outcome == Fail(Forbidden)
    ensures (RegistrationComplete(req) && req.role != "admin" && req.password != req.confirmPassword)
            ==> r.outcome == Fail(BadRequest)
    ensures (RegistrationComplete(req) && req.role != "admin" && req.password == req.confirmPassword
             && UserWithEmail(s, req.email).Some?) ==> r.outcome == Fail(BadRequest)
    ensures r.outcome.Ok? <==>
              && RegistrationComplete(req) && req.password == req.confirmPassword
              && (req.role == "customer" || req.role == "provider")
              && UserWithEmail(s, req.email).None?
              && hash(req.password) != ""
    ensures r.outcome.Ok? ==>
              var id := r.outcome.value;
              && id !in s.users
              && r.store == s.(users := s.users[id := User(req.name, req.email, hash(req.password),
                                                           ParseRole(req.role).value, Active, None, None, now)])
              && RoleName(r.store.users[id].role) == req.role
  {
    if !RegistrationComplete(req) then Step(s, Fail(BadRequest))
    else if req.role == "admin" then Step(s, Fail(Forbidden))
    else if req.password != req.confirmPassword then Step(s, Fail(BadRequest))
    else if UserWithEmail(s, req.email).Some? then Step(s, Fail(BadRequest))
    else
      match ParseRole(req.role)
      case None => Step(s, Fail(ServerError))
      case Some(role) =>
        var u := User(req.name, req.email, hash(req.password), role, Active, None, None, now);
        if !UserSchemaOk(u) then Step(s, Fail(ServerError))
        else
          var id := FreshId(s.users);
          Step(s.(users := s.users[id := u]), Ok(id))
  }

  /** Registration never creates an admin, and keeps emails unique. */
  lemma RegisterKeepsInvariants(s: Store, req: Registration, hash: string -> string, now: int)
    requires EmailsUnique(s.users)
    ensures var s' := RegisterUser(s, req, hash, now).store;
            && EmailsUnique(s'.users)
            && forall u :: u in s'.users && s'.users[u].role == Admin ==> u in s.users
  {
  }

  /** login: the caller's claims, or 400 / 403 without saying which check failed. */
  function LoginUser(s: Store, email: string, password: string, matches: (string, string) -> bool): (r: Outcome<Claims>)
    ensures email == "" || password == "" ==> r == Fail(BadRequest)
    ensures r == Fail(Forbidden) <==>
              email != "" && password != "" && UserWithEmail(s, email).Some?
              && s.users[UserWithEmail(s, email).value].status == Blocked
    ensures r.Ok? <==>
              && email != "" && password != ""
              && UserWithEmail(s, email).Some?
              && s.users[UserWithEmail(s, email).value].status == Active
              && matches(password, s.users[UserWithEmail(s, email).value].password)
    ensures r.Ok? ==>
              var id := UserWithEmail(s, email).value;
              r.value == Claims(id, s.users[id].name, s.users[id].email, Some(s.users[id].role))
    ensures r.Fail? ==> r.error == BadRequest || r.error == Forbidden
  {
    if email == "" || password == "" then Fail(BadRequest)
    else
      match UserWithEmail(s, email)
      case None => Fail(BadRequest)
      case Some(id) =>
        var u := s.users[id];
        if u.status == Blocked then Fail(Forbidden)
        else
          assert u.status == Active;
          if !matches(password, u.password) then Fail(BadRequest)
          else Ok(Claims(id, u.name, u.email, Some(u.role)))
  }

  /**
   * Registration then login round-trips, given that `matches` accepts a
   * password against its own hash: the claims carry the registered role.
   */
  lemma {:induction false} LoginAfterRegister(s: Store, req: Registration, hash: string -> string, now: int,
                                              matches: (string, string) -> bool)
    requires RegisterUser(s, req, hash, now).outcome.Ok?
    requires matches(req.password, hash(req.password))
    ensures var r := RegisterUser(s, req, hash, now);
            var login := LoginUser(r.store, req.email, req.password, matches);
            && login.Ok?
            && login.value.id == r.outcome.value
            && login.value.role == ParseRole(req.role)
  {
    var r := RegisterUser(s, req, hash, now);
    var id := r.outcome.value;
    assert r.store.users[id].email == req.email;
    var found := UserWithEmail(r.store, req.email);
    assert found.Some?;
    assert found.value == id by {
      assert forall u :: u in s.users ==> s.users[u].email != req.email;
    }
  }

  /**
   * forgotPassword: the token and its expiry are saved before the mail goes
   * out, so a failed send (500) leaves them in place. A record the schema
   * rejects is not saved (500).
   */
  function ForgotPassword(s: Store, email: string, now: int, token: string, mailSent: bool): (r: Step<()>)
    ensures UserWithEmail(s, email).None? <==> r == Step(s, Fail(NotFound))
    ensures UserWithEmail(s, email).Some? && !UserSchemaOk(s.users[UserWithEmail(s, email).value])
            ==> r == Step(s, Fail(ServerError))
    ensures UserWithEmail(s, email).Some? && UserSchemaOk(s.users[UserWithEmail(s, email).value]) ==>
              var id := UserWithEmail(s, email).value;
              && r.store == s.(users := s.users[id := s.users[id].(resetToken := Some(token),
                                                                    resetTokenExpiry := Some(now + ResetWindow))])
              && (r.outcome.Ok? <==> mailSent)
              && (r.outcome.Fail? ==> r.outcome.error == ServerError)
  {
    match UserWithEmail(s, email)
    case None => Step(s, Fail(NotFound))
    case Some(id) =>
      var u := s.users[id].(resetToken := Some(token), resetTokenExpiry := Some(now + ResetWindow));
      var s' := s.(users := s.users[id := u]);
      if !UserSchemaOk(u) then Step(s, Fail(ServerError))
      else if mailSent then Step(s', Ok(())) else Step(s', Fail(ServerError))
  }

  /**
   * resetPassword. Every refusal is 400, the catch-all included: a token the
   * verifier rejects (`decoded` is None), an unknown user, a token that is
   * not the one stored, an expiry in the past. An absent expiry does not
   * count as past. Success stores the new hash and clears token and expiry.
   */
  function ResetPassword(s: Store, token: string, newPassword: string, confirmPassword: string,
                         decoded: Option<Id>, now: int, hash: string -> string): (r: Step<()>)
    ensures r.outcome.Fail? ==> r.store == s && r.outcome.error == BadRequest
    ensures r.outcome.Ok? <==>
              && newPassword == confirmPassword
              && decoded.Some? && decoded.value in s.users
              && s.users[decoded.value].resetToken == Some(token)
              && !(s.users[decoded.value].resetTokenExpiry.Some? && s.users[decoded.value].resetTokenExpiry.value < now)
              && UserSchemaOk(s.users[decoded.value].(password := hash(newPassword)))
    ensures r.outcome.Ok? ==>
              var id := decoded.value;
              r.store == s.(users := s.users[id := s.users[id].(password := hash(newPassword), resetToken := None,
                                                                resetTokenExpiry := None)])
  {
    if newPassword != confirmPassword then Step(s, Fail(BadRequest))
    else
      match decoded
      case None => Step(s, Fail(BadRequest))
      case Some(id) =>
        if id !in s.users then Step(s, Fail(BadRequest))
        else
          var u := s.users[id];
          if u.resetToken != Some(token) || (u.resetTokenExpiry.Some? && u.resetTokenExpiry.value < now) then
            Step(s, Fail(BadRequest))
          else
            var u' := u.(password := hash(newPassword), resetToken := None, resetTokenExpiry := None);
            if !UserSchemaOk(u') then Step(s, Fail(BadRequest))
            else Step(s.(users := s.users[id := u']), Ok(()))
  }

  /** A reset token works once: replaying it after a successful reset is refused. */
  lemma ResetTokenSingleUse(s: Store, token: string, pw: string, decoded: Option<Id>, now: int, later: int,
                            hash: string -> string, pw2: string)
    requires ResetPassword(s, token, pw, pw, decoded, now, hash).outcome.Ok?
    ensures var s' := ResetPassword(s, token, pw, pw, decoded, now, hash).store;
            ResetPassword(s', token, pw2, pw2, decoded, later, hash).outcome.Fail?
  {
  }

  /**
   * After forgotPassword at time `t`, the token it stored is accepted up to
   * and including `t + ResetWindow` and refused after. The window is
   * 300 000 000 ms, so five minutes and one millisecond later
   * (t + 300 001) the token still works.
   */
  lemma {:induction false} ResetAcceptedWithinWindow(s: Store, email: string, t: int, token: string, mailSent: bool,
                                                     pw: string, now: int, hash: string -> string)
    requires UserWithEmail(s, email).Some? && UserSchemaOk(s.users[UserWithEmail(s, email).value])
    requires UserSchemaOk(s.users[UserWithEmail(s, email).value].(password := hash(pw)))
    ensures var id := UserWithEmail(s, email).value;
            var s' := ForgotPassword(s, email, t, token, mailSent).store;
            ResetPassword(s', token, pw, pw, Some(id), now, hash).outcome.Ok? <==> now <= t + ResetWindow
  {
    var id := UserWithEmail(s, email).value;
    var s' := ForgotPassword(s, email, t, token, mailSent).store;
    assert s'.users[id].resetToken == Some(token);
    assert s'.users[id].resetTokenExpiry == Some(t + ResetWindow);
  }
}

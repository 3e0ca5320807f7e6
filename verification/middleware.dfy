/**
 * Request authentication and role guards (backend/middleware/auth-middleware.js),
 * and how they are stacked in front of each route group (backend/index.js).
 *
 * Signature checking is the parameter `verify`: it yields the claims of a
 * token it accepts and None otherwise.
 */
module Middleware {
  import opened Lookup
  import opened Models
  import opened Store
  import opened Text

  const BearerPrefix: string := "Bearer "

  /**
   * The token in an Authorization header: after "Bearer " the second
   * space-separated piece (empty when two spaces follow the prefix);
   * without the prefix the whole header.
   */
  function ExtractToken(header: string): (r: string)
    ensures !StartsWith(header, BearerPrefix) ==> r == header
    ensures StartsWith(header, BearerPrefix) ==>
              var rest := header[|BearerPrefix|..];
              && StartsWith(rest, r) && ' ' !in r
              && (|r| == |rest| || rest[|r|] == ' ')
  {
    if StartsWith(header, BearerPrefix) then FirstPiece(header[|BearerPrefix|..]) else header
  }

  /** A token without spaces survives being wrapped in a Bearer header. */
  lemma BearerRoundTrip(token: string)
    requires ' ' !in token
    ensures ExtractToken(BearerPrefix + token) == token
  {
    var h := BearerPrefix + token;
    assert h[|BearerPrefix|..] == token;
    FirstPieceOfWord(token);
  }

  lemma {:induction false} FirstPieceOfWord(w: string)
    requires ' ' !in w
    ensures FirstPiece(w) == w
  {
    if |w| > 0 {
      assert ' ' !in w[1..];
      FirstPieceOfWord(w[1..]);
      assert w == [w[0]] + w[1..];
    }
  }

  /** verifyToken: 401 without a header or with a token `verify` rejects. */
  function VerifyToken(header: string, verify: string -> Option<Claims>): (r: Outcome<Claims>)
    ensures header == "" ==> r == Fail(Unauthorized)
    ensures r.Fail? ==> r.error == Unauthorized
    ensures r.Ok? <==> header != "" && verify(ExtractToken(header)).Some?
    ensures r.Ok? ==> r.value == verify(ExtractToken(header)).value
  {
    if header == "" then Fail(Unauthorized)
    else
      match verify(ExtractToken(header))
      case None => Fail(Unauthorized)
      case Some(claims) => Ok(claims)
  }

  /** isAdmin, isProvider, isCustomer: the decoded role must be exactly `role` (403 otherwise). */
  function Guard(user: Option<Claims>, role: Role): (r: Outcome<Claims>)
    ensures r.Ok? <==> user.Some? && user.value.role == Some(role)
    ensures r.Ok? ==> r.value == user.value
    ensures r.Fail? ==> r.error == Forbidden
  {
    if user.Some? && user.value.role == Some(role) then Ok(user.value) else Fail(Forbidden)
  }

  /** No caller passes two guards; a token without a role (a reset token) passes none. */
  lemma GuardsExclusive(user: Option<Claims>, a: Role, b: Role)
    requires a != b
    ensures !(Guard(user, a).Ok? && Guard(user, b).Ok?)
    ensures user.None? || user.value.role.None? ==> Guard(user, a).Fail?
  {
  }

  /** The route groups of the application and the role each one demands. */
  datatype RouteGroup = AdminRoutes | CustomerRoutes | ProviderRoutes | AuthRoutes | PublicRoutes

  function RequiredRole(g: RouteGroup): Option<Role> {
    match g
    case AdminRoutes => Some(Admin)
    case CustomerRoutes => Some(Customer)
    case ProviderRoutes => Some(Provider)
    case AuthRoutes => None
    case PublicRoutes => None
  }

  /**
   * The middleware stack in front of a group: token verification then the
   * role guard for the guarded groups; nothing for sign-in and public routes.
   */
  function Authorize(g: RouteGroup, header: string, verify: string -> Option<Claims>): (r: Outcome<Option<Claims>>)
    ensures RequiredRole(g).None? ==> r == Ok(None)
    ensures RequiredRole(g).Some? ==>
              (r.Ok? <==> VerifyToken(header, verify).Ok? && VerifyToken(header, verify).value.role == RequiredRole(g))
    ensures RequiredRole(g).Some? && r.Ok? ==> r.value.Some? && r.value.value.role == RequiredRole(g)
    ensures RequiredRole(g).Some? && header == "" ==> r == Fail(Unauthorized)
  {
    match RequiredRole(g)
    case None => Ok(None)
    case Some(role) =>
      match VerifyToken(header, verify)
      case Fail(e) => Fail(e)
      case Ok(claims) =>
        match Guard(Some(claims), role)
        case Fail(e) => Fail(e)
        case Ok(c) => Ok(Some(c))
  }
}

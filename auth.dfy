/** The authorization middleware (backend/src/middleware/auth.ts): bearer
    token extraction and verification, and the guards `adminCheck`,
    `requireRole` and `requireTenantFeature`. A middleware either passes
    (`next()`) or refuses with an `HttpError` (`next(err)`). JWT verification
    is a function given by the caller. */
module Auth {
  import opened Wrappers
  import Text
  import opened ErrorHandler

  /** `req.user`. */
  datatype AuthUser = AuthUser(userId: int, role: string, email: Option<string>, tenantId: Option<string>)

  /** `req.tenant`; only the feature flags matter here. */
  datatype Tenant = Tenant(featureFlags: Option<seq<string>>)

  /** The payload a valid token decodes to. */
  datatype Claims = Claims(userId: int, email: string, role: string)

  datatype Decision = Pass | Refuse(err: HttpError)

  // ---------------------------------------------------------------------
  // verifyToken
  // ---------------------------------------------------------------------

  /** `authHeader?.split(" ")[1]`, when it is a non-empty string. */
  function ExtractToken(header: Option<string>): (t: Option<string>)
    ensures t.Some? <==> header.Some? && |Text.Split(header.value, ' ')| >= 2 && Text.Split(header.value, ' ')[1] != ""
    ensures t.Some? ==> t.value == Text.Split(header.value, ' ')[1] && t.value != "" && ' ' !in t.value
  {
    if header.None? then None
    else
      var words := Text.Split(header.value, ' ');
      if |words| >= 2 && words[1] != "" then Some(words[1]) else None
  }

  /** "Bearer <token>", with anything after a further space: the token is the
      second word. */
  lemma TokenOfBearer(scheme: string, token: string, rest: Option<string>)
    requires ' ' !in scheme && ' ' !in token && token != ""
    ensures var h := if rest.Some? then scheme + " " + token + " " + rest.value else scheme + " " + token;
      ExtractToken(Some(h)) == Some(token)
  {
    var tail := if rest.Some? then " " + rest.value else "";
    var h := if rest.Some? then scheme + " " + token + " " + rest.value else scheme + " " + token;
    assert h == scheme + (" " + (token + tail));
    Text.SplitPrefix(scheme, " " + (token + tail), ' ');
    assert (" " + (token + tail))[1..] == token + tail;
    Text.SplitPrefix(token, tail, ' ');
    if rest.None? {
      assert token + tail == token;
      assert Text.Split(tail, ' ') == [""];
    } else {
      assert tail[1..] == rest.value;
      assert Text.Split(tail, ' ') == [""] + Text.Split(rest.value, ' ');
      assert token + "" == token;
    }
  }

  /** A header with no space in it carries no token. */
  lemma NoSpaceNoToken(h: string)
    requires ' ' !in h
    ensures ExtractToken(Some(h)) == None
  {
    Text.SplitPrefix(h, "", ' ');
    assert h + "" == h;
  }

  /** Two spaces after the scheme leave an empty second word: no token. */
  lemma DoubleSpaceNoToken(scheme: string, rest: string)
    requires ' ' !in scheme
    ensures ExtractToken(Some(scheme + "  " + rest)) == None
  {
    var h := scheme + "  " + rest;
    assert h == scheme + (" " + (" " + rest));
    Text.SplitPrefix(scheme, " " + (" " + rest), ' ');
    assert (" " + (" " + rest))[1..] == " " + rest;
    assert (" " + rest)[1..] == rest;
  }

  datatype AuthOutcome = Authenticated(user: AuthUser) | Rejected(err: HttpError)

  /** `verifyToken` as a decision: a missing token and a token the verifier
      rejects are both 401 (without details); a verified token yields the
      user built from exactly userId, email and role of its claims. */
  function Authenticate(header: Option<string>, verify: string -> Option<Claims>): (r: AuthOutcome)
    ensures ExtractToken(header).None? ==> r == Rejected(NewHttpError("Missing token", Some(401), None))
    ensures ExtractToken(header).Some? && verify(ExtractToken(header).value).None? ==>
              r == Rejected(NewHttpError("Invalid token", Some(401), None))
    ensures r.Authenticated? <==> ExtractToken(header).Some? && verify(ExtractToken(header).value).Some?
    ensures r.Authenticated? ==>
              var c := verify(ExtractToken(header).value).value;
              r.user == AuthUser(c.userId, c.role, Some(c.email), None)
    ensures r.Rejected? ==> r.err.statusCode == 401
  {
    match ExtractToken(header)
    case None => Rejected(NewHttpError("Missing token", Some(401), None))
    case Some(token) =>
      match verify(token)
      case None => Rejected(NewHttpError("Invalid token", Some(401), None))
      case Some(c) => Authenticated(AuthUser(c.userId, c.role, Some(c.email), None))
  }

  /** The parts of an Express request the middleware reads and writes. */
  class Request {
    var authorization: Option<string>
    var user: Option<AuthUser>
    var tenant: Option<Tenant>

    constructor (authorization: Option<string>, tenant: Option<Tenant>)
      ensures this.authorization == authorization && this.tenant == tenant && user.None?
    {
      this.authorization := authorization;
      this.tenant := tenant;
      user := None;
    }
  }

  /** `verifyToken`: sets `req.user` on success and leaves it untouched on a
      refusal. */
  method VerifyToken(req: Request, verify: string -> Option<Claims>) returns (d: Decision)
    modifies req`user
    ensures Authenticate(req.authorization, verify).Rejected? ==>
              d == Refuse(Authenticate(req.authorization, verify).err) && req.user == old(req.user)
    ensures Authenticate(req.authorization, verify).Authenticated? ==>
              d == Pass && req.user == Some(Authenticate(req.authorization, verify).user)
  {
    var token := ExtractToken(req.authorization);
    if token.None? {
      return Refuse(NewHttpError("Missing token", Some(401), None));
    }
    var decoded := verify(token.value);
    if decoded.None? {
      return Refuse(NewHttpError("Invalid token", Some(401), None));
    }
    req.user := Some(AuthUser(decoded.value.userId, decoded.value.role, Some(decoded.value.email), None));
    d := Pass;
  }

  // ---------------------------------------------------------------------
  // Guards
  // ---------------------------------------------------------------------

  const Unauthorized := NewHttpError("Missing token", Some(401), Some("UNAUTHORIZED"))

  /** `adminCheck`. */
  function AdminCheck(user: Option<AuthUser>): (d: Decision)
    ensures user.None? ==> d == Refuse(Unauthorized)
    ensures user.Some? ==> (d.Pass? <==> user.value.role == "admin" || user.value.role == "superadmin")
    ensures user.Some? && d.Refuse? ==> d.err == NewHttpError("Admin access required", Some(403), Some("FORBIDDEN"))
  {
    if user.None? then Refuse(Unauthorized)
    else if user.value.role != "admin" && user.value.role != "superadmin" then
      Refuse(NewHttpError("Admin access required", Some(403), Some("FORBIDDEN")))
    else Pass
  }

  /** `requireRole(roles)`: a missing user is refused before the role is
      looked at. */
  function RequireRole(roles: seq<string>, user: Option<AuthUser>): (d: Decision)
    ensures user.None? ==> d == Refuse(Unauthorized)
    ensures user.Some? ==> (d.Pass? <==> user.value.role in roles)
    ensures user.Some? && d.Refuse? ==> d.err == NewHttpError("Insufficient role permissions", Some(403), Some("FORBIDDEN"))
  {
    if user.None? then Refuse(Unauthorized)
    else if user.value.role !in roles then
      Refuse(NewHttpError("Insufficient role permissions", Some(403), Some("FORBIDDEN")))
    else Pass
  }

  /** `requireTenantFeature(feature)`: absent flags count as none. */
  function RequireTenantFeature(feature: string, tenant: Option<Tenant>): (d: Decision)
    ensures tenant.None? ==> d == Refuse(NewHttpError("Tenant context missing", Some(400), Some("TENANT_REQUIRED")))
    ensures tenant.Some? ==> (d.Pass? <==> tenant.value.featureFlags.Some? && feature in tenant.value.featureFlags.value)
    ensures tenant.Some? && d.Refuse? ==>
              d.err == NewHttpError("Feature not enabled for tenant", Some(403), Some("FEATURE_DISABLED"))
  {
    if tenant.None? then Refuse(NewHttpError("Tenant context missing", Some(400), Some("TENANT_REQUIRED")))
    else
      var flags := tenant.value.featureFlags.GetOr([]);
      if feature !in flags then Refuse(NewHttpError("Feature not enabled for tenant", Some(403), Some("FEATURE_DISABLED")))
      else Pass
  }

  /** `adminCheck` lets through and refuses exactly the requests that
      `requireRole(["admin", "superadmin"])` does, with the same status and
      details; only the 403 message differs. */
  lemma AdminCheckIsRequireRole(user: Option<AuthUser>)
    ensures AdminCheck(user).Pass? <==> RequireRole(["admin", "superadmin"], user).Pass?
    ensures AdminCheck(user).Refuse? ==>
              AdminCheck(user).err.statusCode == RequireRole(["admin", "superadmin"], user).err.statusCode
              && AdminCheck(user).err.details == RequireRole(["admin", "superadmin"], user).err.details
  {
  }

  /** Allowing more roles never refuses a request that fewer roles allow. */
  lemma RequireRoleMonotone(roles: seq<string>, more: seq<string>, user: Option<AuthUser>)
    requires forall r :: r in roles ==> r in more
    ensures RequireRole(roles, user).Pass? ==> RequireRole(more, user).Pass?
  {
  }

  /** A guard placed on a route. */
  datatype Guard = AdminOnly | RoleIn(roles: seq<string>) | Feature(name: string)

  function RunGuard(g: Guard, user: Option<AuthUser>, tenant: Option<Tenant>): Decision {
    match g
    case AdminOnly => AdminCheck(user)
    case RoleIn(roles) => RequireRole(roles, user)
    case Feature(name) => RequireTenantFeature(name, tenant)
  }

  /** A chain of guards: the first refusal, or pass. */
  function RunChain(gs: seq<Guard>, user: Option<AuthUser>, tenant: Option<Tenant>): (d: Decision)
    ensures d.Pass? <==> forall i :: 0 <= i < |gs| ==> RunGuard(gs[i], user, tenant).Pass?
  {
    if |gs| == 0 then Pass
    else
      match RunGuard(gs[0], user, tenant)
      case Refuse(e) => Refuse(e)
      case Pass => RunChain(gs[1..], user, tenant)
  }

  /** The guards write nothing to the request, so running a chain twice
      decides as running it once. */
  lemma {:induction false} ChainIdempotent(gs: seq<Guard>, user: Option<AuthUser>, tenant: Option<Tenant>)
    ensures RunChain(gs + gs, user, tenant) == RunChain(gs, user, tenant)
  {
    if RunChain(gs, user, tenant).Pass? {
      ChainAppend(gs, gs, user, tenant);
    } else {
      ChainStopsAtRefusal(gs, gs, user, tenant);
    }
  }

  /** After a chain that passes, the rest decides. */
  lemma {:induction false} ChainAppend(a: seq<Guard>, b: seq<Guard>, user: Option<AuthUser>, tenant: Option<Tenant>)
    requires RunChain(a, user, tenant).Pass?
    ensures RunChain(a + b, user, tenant) == RunChain(b, user, tenant)
    decreases |a|
  {
    if |a| > 0 {
      assert (a + b)[1..] == a[1..] + b;
      ChainAppend(a[1..], b, user, tenant);
    } else {
      assert a + b == b;
    }
  }

  /** A refusal in a chain is final: nothing appended after it is consulted. */
  lemma {:induction false} ChainStopsAtRefusal(a: seq<Guard>, b: seq<Guard>, user: Option<AuthUser>, tenant: Option<Tenant>)
    requires RunChain(a, user, tenant).Refuse?
    ensures RunChain(a + b, user, tenant) == RunChain(a, user, tenant)
    decreases |a|
  {
    assert |a| > 0;
    assert (a + b)[0] == a[0];
    if RunGuard(a[0], user, tenant).Pass? {
      assert (a + b)[1..] == a[1..] + b;
      ChainStopsAtRefusal(a[1..], b, user, tenant);
    }
  }
}

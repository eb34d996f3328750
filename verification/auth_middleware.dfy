/** The authorization gate (backend/middleware/auth.js): `authenticateToken`
    reads the bearer token, verifies it and loads the caller's row into the
    request; `requireRole` admits the caller when its role is allowed. */
module AuthMiddleware {
  import opened Common
  import opened Text
  import opened Schema
  import opened Tokens

  const TokenRequired := "Access token required"
  const InvalidToken := "Invalid token"
  const InvalidTokenType := "Invalid token type"
  const InsufficientPermissions := "Insufficient permissions"

  /** `req.userType`. */
  datatype Kind = UserKind | StoreKind

  /** `req.user`: the row the token named, from the table its type names. */
  datatype Principal = AsUser(user: User) | AsStore(store: Store)

  /** Either the handler chain goes on (`next()`), or the request is answered. */
  datatype Gate = Next | Deny(status: nat, error: string)

  /** `authHeader && authHeader.split(' ')[1]`: the second space-separated field. */
  function BearerToken(header: Option<string>): (token: Option<string>)
    ensures header.None? ==> token.None?
    ensures token.Some? ==> ' ' !in token.value
  {
    match header
    case None => None
    case Some(h) =>
      var fields := Split(h, ' ');
      if |fields| >= 2 then Some(fields[1]) else None
  }

  /** The header the client sends, `Bearer <token>`, yields the token back. */
  lemma BearerRoundTrip(token: string)
    requires ' ' !in token
    ensures BearerToken(Some("Bearer " + token)) == Some(token)
  {
    assert ' ' !in "Bearer";
    assert "Bearer " + token == "Bearer" + [' '] + token;
    SplitPrefix("Bearer", ' ', token);
    SplitNone(token, ' ');
  }

  /** A header without a space has no second field, and neither has a missing one. */
  lemma NoSpaceNoToken(header: string)
    requires ' ' !in header
    ensures BearerToken(Some(header)).None?
  {
    SplitNone(header, ' ');
  }

  /** The request object the middleware fills in. */
  class Request {
    const authorization: Option<string>
    var user: Option<Principal>
    var userType: Option<Kind>

    constructor (header: Option<string>)
      ensures authorization == header && user.None? && userType.None?
    {
      authorization := header;
      user, userType := None, None;
    }
  }

  /** `authenticateToken`. `verify` is `jwt.verify` with the server secret at the
      current time; `None` stands for every way it throws. On success the
      caller's row and kind are stored on the request; on failure the request
      is left as it was. */
  method AuthenticateToken(req: Request, users: seq<User>, stores: seq<Store>,
                           verify: string -> Option<Claims>) returns (g: Gate)
    modifies req
    ensures var token := BearerToken(req.authorization);
      && (token.None? || token.value == "" ==> g == Deny(401, TokenRequired))
      && (token.Some? && token.value != "" && verify(token.value).None? ==> g == Deny(403, InvalidToken))
      && (token.Some? && token.value != "" && verify(token.value).Some? ==>
            var claims := verify(token.value).value;
            && (claims.kind == "user" ==>
                  match UserIndex(users, claims.id)
                  case Some(i) => g == Next && req.user == Some(AsUser(users[i])) && req.userType == Some(UserKind)
                  case None => g == Deny(403, InvalidToken))
            && (claims.kind == "store" ==>
                  match StoreIndex(stores, claims.id)
                  case Some(i) => g == Next && req.user == Some(AsStore(stores[i])) && req.userType == Some(StoreKind)
                  case None => g == Deny(403, InvalidToken))
            && (claims.kind != "user" && claims.kind != "store" ==> g == Deny(403, InvalidTokenType)))
    ensures g.Deny? ==> req.user == old(req.user) && req.userType == old(req.userType)
  {
    var token := BearerToken(req.authorization);
    if token.None? || token.value == "" {
      return Deny(401, TokenRequired);
    }
    var decoded := verify(token.value);
    if decoded.None? {
      return Deny(403, InvalidToken);
    }
    var claims := decoded.value;
    if claims.kind == "user" {
      var found := UserIndex(users, claims.id);
      if found.None? {
        return Deny(403, InvalidToken);
      }
      req.user := Some(AsUser(users[found.value]));
      req.userType := Some(UserKind);
    } else if claims.kind == "store" {
      var found := StoreIndex(stores, claims.id);
      if found.None? {
        return Deny(403, InvalidToken);
      }
      req.user := Some(AsStore(stores[found.value]));
      req.userType := Some(StoreKind);
    } else {
      return Deny(403, InvalidTokenType);
    }
    g := Next;
  }

  /** The allow-lists the three routers install (backend/routes/admin.js:11,
      user.js:10, store.js:8). */
  const AdminRoles: set<Role> := {SystemAdmin}
  const UserRoles: set<Role> := {NormalUser}
  const StoreRoles: set<Role> := {StoreOwner}

  /** `req.user.role`: only user rows have one. */
  function RoleOf(p: Principal): Option<Role> {
    match p
    case AsUser(u) => Some(u.role)
    case AsStore(_) => None
  }

  /** `requireRole(roles)` on the fields `authenticateToken` set. */
  function RequireRole(userType: Option<Kind>, user: Option<Principal>, roles: set<Role>): (g: Gate)
    ensures g != Next ==> g == Deny(403, InsufficientPermissions)
    ensures userType.None? ==> g != Next
    ensures userType == Some(UserKind) && user.Some? && user.value.AsUser? ==> (g == Next <==> user.value.user.role in roles)
    ensures userType == Some(StoreKind) ==> (g == Next <==> StoreOwner in roles)
  {
    if userType == Some(UserKind) && user.Some? && RoleOf(user.value).Some? && RoleOf(user.value).value in roles then Next
    else if userType == Some(StoreKind) && StoreOwner in roles then Next
    else Deny(403, InsufficientPermissions)
  }

  /** The kind `authenticateToken` records with a row of that table. */
  function KindOf(p: Principal): Kind {
    if p.AsUser? then UserKind else StoreKind
  }

  /** The role a caller acts in: its own for a user row, `store_owner` for a store. */
  function EffectiveRole(p: Principal): Role {
    match p
    case AsUser(u) => u.role
    case AsStore(_) => StoreOwner
  }

  /** On a request `authenticateToken` admitted, the gate grants exactly the
      callers whose effective role is allowed, and denies everyone else with 403. */
  lemma RequireRoleIsMembership(p: Principal, roles: set<Role>)
    ensures RequireRole(Some(KindOf(p)), Some(p), roles) == Next <==> EffectiveRole(p) in roles
    ensures RequireRole(Some(KindOf(p)), Some(p), roles) != Next ==>
              RequireRole(Some(KindOf(p)), Some(p), roles) == Deny(403, InsufficientPermissions)
  {
  }

  /** There is no hierarchy: each router admits one role only, so an
      administrator is refused by the user and store routers, a store by the
      admin and user routers, and a normal user by the admin and store routers. */
  lemma GatesAreDisjoint(p: Principal)
    ensures |set g | g in [AdminRoles, UserRoles, StoreRoles] && EffectiveRole(p) in g| == 1
    ensures p.AsStore? ==> (RequireRole(Some(KindOf(p)), Some(p), AdminRoles).Deny?
                            && RequireRole(Some(KindOf(p)), Some(p), UserRoles).Deny?)
    ensures p.AsUser? && p.user.role == SystemAdmin ==>
              RequireRole(Some(KindOf(p)), Some(p), UserRoles).Deny?
    ensures p.AsUser? && p.user.role == NormalUser ==>
              RequireRole(Some(KindOf(p)), Some(p), AdminRoles).Deny?
  {
    var gs := [AdminRoles, UserRoles, StoreRoles];
    var matching := set g | g in gs && EffectiveRole(p) in g;
    match EffectiveRole(p)
    case SystemAdmin => assert matching == {AdminRoles};
    case NormalUser => assert matching == {UserRoles};
    case StoreOwner => assert matching == {StoreRoles};
  }
}

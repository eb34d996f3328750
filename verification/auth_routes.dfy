/** The account routes (backend/routes/auth.js): signup, login and the
    password change. Hashing and signing are the value models of `Credentials`
    and `Tokens`; their random salt, the server key and the clock are
    parameters. */
module AuthRoutes {
  import opened Common
  import opened Validation
  import opened Credentials
  import opened Schema
  import opened Tokens
  import opened Database
  import opened AuthMiddleware

  const EmailRegistered := "Email already registered"
  const LoginFieldsRequired := "Email, password, and user type are required"
  const InvalidCredentials := "Invalid credentials"
  const InvalidUserType := "Invalid user type"
  const PasswordsRequired := "Current password and new password are required"
  const InvalidCurrentPassword := "Invalid current password"
  const PasswordUpdated := "Password updated successfully"

  /** The account fields a session reply shows. */
  datatype Account = Account(id: nat, name: string, email: string, role: Role)

  /** The signup and login replies: the token and the account; login also
      echoes the user type it was asked for. */
  datatype Session = Session(token: Jwt, user: Account, userType: Option<string>)

  // ---------------------------------------------------------------- POST /signup

  /** POST /signup: the field checks in order, the unused email, then a
      `normal_user` row and a user session token, whatever else the body holds. */
  method Signup(db: Db, name: string, email: string, password: string, address: string,
                salt: nat, key: string, now: int) returns (r: Reply<Session>)
    requires db.Valid()
    modifies db
    ensures db.Valid()
    ensures db.stores == old(db.stores) && db.ratings == old(db.ratings)
    ensures db.nextStoreId == old(db.nextStoreId) && db.nextRatingId == old(db.nextRatingId)
    ensures var fieldError := AccountFieldsError(name, email, password, address);
            && (fieldError.Some? ==> r == Err(400, fieldError.value))
            && (fieldError.None? && UserEmailIndex(old(db.users), email).Some? ==> r == Err(400, EmailRegistered))
            && (r.Ok? <==> fieldError.None? && UserEmailIndex(old(db.users), email).None?)
    ensures r.Err? ==> db.users == old(db.users) && db.nextUserId == old(db.nextUserId)
    ensures r.Ok? ==>
              var u := User(old(db.nextUserId), name, email, Hash(password, salt), address, NormalUser);
              && db.users == old(db.users) + [u] && db.nextUserId == old(db.nextUserId) + 1
              && r == Ok(201, Session(Sign(UserClaims(u), key, now), Account(u.id, name, email, NormalUser), None))
  {
    var nameError := ValidateName(name);
    if nameError.Some? {
      return Err(400, nameError.value);
    }
    var emailError := ValidateEmail(email);
    if emailError.Some? {
      return Err(400, emailError.value);
    }
    var passwordError := ValidatePassword(password);
    if passwordError.Some? {
      return Err(400, passwordError.value);
    }
    var addressError := ValidateAddress(address);
    if addressError.Some? {
      return Err(400, addressError.value);
    }
    if UserEmailIndex(db.users, email).Some? {
      return Err(400, EmailRegistered);
    }
    var hashed := Hash(password, salt);
    var u := db.AddUser(name, email, hashed, address, NormalUser);
    var token := Sign(UserClaims(u), key, now);
    r := Ok(201, Session(token, Account(u.id, u.name, u.email, u.role), None));
  }

  // ---------------------------------------------------------------- POST /login

  /** POST /login. An unknown email and a wrong password get the same answer,
      in both tables. The reply's role is the user's, or `store_owner` for a
      store, which has none. */
  function Login(users: seq<User>, stores: seq<Store>, email: string, password: string,
                 userType: string, key: string, now: int): (r: Reply<Session>)
    ensures email == "" || password == "" || userType == "" ==> r == Err(400, LoginFieldsRequired)
    ensures email != "" && password != "" && userType == "user" ==>
              match UserEmailIndex(users, email)
              case None => r == Err(400, InvalidCredentials)
              case Some(i) =>
                if Compare(password, users[i].password) then
                  r == Ok(200, Session(Sign(UserClaims(users[i]), key, now),
                                       Account(users[i].id, users[i].name, email, users[i].role), Some("user")))
                else r == Err(400, InvalidCredentials)
    ensures email != "" && password != "" && userType == "store" ==>
              match StoreEmailIndex(stores, email)
              case None => r == Err(400, InvalidCredentials)
              case Some(i) =>
                if Compare(password, stores[i].password) then
                  r == Ok(200, Session(Sign(StoreClaims(stores[i]), key, now),
                                       Account(stores[i].id, stores[i].name, email, StoreOwner), Some("store")))
                else r == Err(400, InvalidCredentials)
    ensures email != "" && password != "" && userType != "" && userType != "user" && userType != "store" ==>
              r == Err(400, InvalidUserType)
  {
    if email == "" || password == "" || userType == "" then Err(400, LoginFieldsRequired)
    else if userType == "user" then
      match UserEmailIndex(users, email)
      case None => Err(400, InvalidCredentials)
      case Some(i) =>
        var u := users[i];
        if !Compare(password, u.password) then Err(400, InvalidCredentials)
        else Ok(200, Session(Sign(UserClaims(u), key, now), Account(u.id, u.name, u.email, u.role), Some(userType)))
    else if userType == "store" then
      match StoreEmailIndex(stores, email)
      case None => Err(400, InvalidCredentials)
      case Some(i) =>
        var s := stores[i];
        if !Compare(password, s.password) then Err(400, InvalidCredentials)
        else Ok(200, Session(Sign(StoreClaims(s), key, now), Account(s.id, s.name, s.email, StoreOwner), Some(userType)))
    else Err(400, InvalidUserType)
  }

  /** A login's token is honoured for 24 hours: it verifies to claims whose
      type names the table the login read, whose id finds the logged-in row
      there, and the role gates then decide by the role the reply showed. */
  lemma LoginTokenOpensGate(users: seq<User>, stores: seq<Store>, nu: nat, ns: nat,
                            email: string, password: string, userType: string,
                            key: string, now: int, t: int, roles: set<Role>)
    requires UserTable(users, nu) && StoreTable(stores, ns)
    requires Login(users, stores, email, password, userType, key, now).Ok?
    requires t < now + TokenLifetime
    ensures var s := Login(users, stores, email, password, userType, key, now).body;
            && Verify(s.token, key, t) == Some(s.token.claims)
            && s.token.claims.id == s.user.id
            && (userType == "user" ==>
                  && s.token.claims.kind == "user"
                  && UserIndex(users, s.user.id).Some?
                  && var u := users[UserIndex(users, s.user.id).value];
                     && u.email == email && u.role == s.user.role
                     && (RequireRole(Some(UserKind), Some(AsUser(u)), roles) == Next <==> s.user.role in roles))
            && (userType == "store" ==>
                  && s.token.claims.kind == "store"
                  && StoreIndex(stores, s.user.id).Some?
                  && var st := stores[StoreIndex(stores, s.user.id).value];
                     && st.email == email && s.user.role == StoreOwner
                     && (RequireRole(Some(StoreKind), Some(AsStore(st)), roles) == Next <==> s.user.role in roles))
  {
    if userType == "user" {
      var i := UserEmailIndex(users, email).value;
      UserIndexUnique(users, i);
      RequireRoleIsMembership(AsUser(users[i]), roles);
    } else if userType == "store" {
      var i := StoreEmailIndex(stores, email).value;
      StoreIndexUnique(stores, i);
      RequireRoleIsMembership(AsStore(stores[i]), roles);
    }
  }

  // ---------------------------------------------------------------- PUT /change-password

  function PrincipalId(p: Principal): (id: nat) {
    match p
    case AsUser(u) => u.id
    case AsStore(s) => s.id
  }

  function PrincipalHash(p: Principal): (hash: PasswordHash) {
    match p
    case AsUser(u) => u.password
    case AsStore(s) => s.password
  }

  /** PUT /change-password, after `authenticateToken` set `userType` and
      `caller`: both fields required, then the new password's policy, and only
      then the current password; the new hash goes to the table `userType`
      names, in the row with the caller's id. */
  method ChangePassword(db: Db, userType: Kind, caller: Principal, currentPassword: string,
                        newPassword: string, salt: nat) returns (r: Reply<string>)
    requires db.Valid()
    modifies db
    ensures db.Valid()
    ensures db.ratings == old(db.ratings) && db.nextUserId == old(db.nextUserId)
    ensures db.nextStoreId == old(db.nextStoreId) && db.nextRatingId == old(db.nextRatingId)
    ensures currentPassword == "" || newPassword == "" ==> r == Err(400, PasswordsRequired)
    ensures currentPassword != "" && newPassword != "" && ValidatePassword(newPassword).Some? ==>
              r == Err(400, ValidatePassword(newPassword).value)
    ensures (currentPassword != "" && newPassword != "" && ValidatePassword(newPassword).None?
             && !Compare(currentPassword, PrincipalHash(caller))) ==> r == Err(400, InvalidCurrentPassword)
    ensures r.Ok? <==> && currentPassword != "" && newPassword != "" && ValidatePassword(newPassword).None?
                       && Compare(currentPassword, PrincipalHash(caller))
    ensures r.Err? ==> db.users == old(db.users) && db.stores == old(db.stores)
    ensures r.Ok? ==>
              && r == Ok(200, PasswordUpdated)
              && (userType == UserKind ==>
                    db.users == WithUserPassword(old(db.users), PrincipalId(caller), Hash(newPassword, salt))
                    && db.stores == old(db.stores))
              && (userType == StoreKind ==>
                    db.stores == WithStorePassword(old(db.stores), PrincipalId(caller), Hash(newPassword, salt))
                    && db.users == old(db.users))
  {
    if currentPassword == "" || newPassword == "" {
      return Err(400, PasswordsRequired);
    }
    var passwordError := ValidatePassword(newPassword);
    if passwordError.Some? {
      return Err(400, passwordError.value);
    }
    if !Compare(currentPassword, PrincipalHash(caller)) {
      return Err(400, InvalidCurrentPassword);
    }
    var hashed := Hash(newPassword, salt);
    if userType == UserKind {
      db.SetUserPassword(PrincipalId(caller), hashed);
    } else {
      db.SetStorePassword(PrincipalId(caller), hashed);
    }
    r := Ok(200, PasswordUpdated);
  }

  /** After a user's password change, logging in with the new password
      succeeds and any other password is refused. */
  lemma NewPasswordLogsIn(users: seq<User>, stores: seq<Store>, nu: nat, i: nat,
                          newPassword: string, other: string, salt: nat, key: string, now: int)
    requires UserTable(users, nu) && i < |users| && newPassword != "" && other != ""
    ensures var after := WithUserPassword(users, users[i].id, Hash(newPassword, salt));
            && Login(after, stores, users[i].email, newPassword, "user", key, now).Ok?
            && (other != newPassword ==>
                  Login(after, stores, users[i].email, other, "user", key, now) == Err(400, InvalidCredentials))
  {
    var after := WithUserPassword(users, users[i].id, Hash(newPassword, salt));
    assert forall k | 0 <= k < |after| :: after[k].email == users[k].email && after[k].id == users[k].id;
    assert UserEmailIndex(after, users[i].email) == Some(i);
    assert after[i].password == Hash(newPassword, salt);
  }
}

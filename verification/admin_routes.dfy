/** The administrator's routes (backend/routes/admin.js), behind the
    `system_admin` gate: creating users and stores, the two listings and the
    lookups by id. No response carries a password: the view types have no
    field for one. */
module AdminRoutes {
  import opened Common
  import opened Validation
  import opened Credentials
  import opened Schema
  import opened Database
  import opened Listing

  const InvalidRole := "Invalid role"
  const EmailExists := "Email already exists"
  const UserNotFound := "User not found"
  const StoreNotFound := "Store not found"

  /** The request body of POST /users; POST /stores reads the same fields but
      the role. */
  datatype AccountBody = AccountBody(name: string, email: string, password: string,
                                     address: string, role: string)

  /** A user row as the routes show it. */
  datatype UserView = UserView(id: nat, name: string, email: string, address: string, role: Role)

  /** A store row as the routes show it. */
  datatype StoreView = StoreView(id: nat, name: string, email: string, address: string,
                                 averageTenths: int)

  function UserViewOf(u: User): UserView {
    UserView(u.id, u.name, u.email, u.address, u.role)
  }

  function StoreViewOf(s: Store): StoreView {
    StoreView(s.id, s.name, s.email, s.address, s.averageTenths)
  }

  /** The roles an administrator may give: `store_owner` is not one of them,
      and neither is anything else. */
  function AssignableRole(role: string): (r: Option<Role>)
    ensures r.Some? <==> role == "system_admin" || role == "normal_user"
    ensures r.Some? ==> RoleName(r.value) == role && r.value != StoreOwner
  {
    if role == "system_admin" then Some(SystemAdmin)
    else if role == "normal_user" then Some(NormalUser)
    else None
  }

  // ---------------------------------------------------------------- POST /users

  /** POST /users: the field checks in order, the role, the unused email; then
      the password is hashed (with the random `salt`) and the row created. */
  method CreateUser(db: Db, body: AccountBody, salt: nat) returns (r: Reply<UserView>)
    requires db.Valid()
    modifies db
    ensures db.Valid()
    ensures db.stores == old(db.stores) && db.ratings == old(db.ratings)
    ensures db.nextStoreId == old(db.nextStoreId) && db.nextRatingId == old(db.nextRatingId)
    ensures var fieldError := AccountFieldsError(body.name, body.email, body.password, body.address);
            && (fieldError.Some? ==> r == Err(400, fieldError.value))
            && (fieldError.None? && AssignableRole(body.role).None? ==> r == Err(400, InvalidRole))
            && ((fieldError.None? && AssignableRole(body.role).Some?
                 && UserEmailIndex(old(db.users), body.email).Some?) ==> r == Err(400, EmailExists))
            && (r.Ok? <==> fieldError.None? && AssignableRole(body.role).Some?
                           && UserEmailIndex(old(db.users), body.email).None?)
    ensures r.Err? ==> db.users == old(db.users) && db.nextUserId == old(db.nextUserId)
    ensures r.Ok? ==>
              var u := User(old(db.nextUserId), body.name, body.email, Hash(body.password, salt),
                            body.address, AssignableRole(body.role).value);
              && db.users == old(db.users) + [u] && db.nextUserId == old(db.nextUserId) + 1
              && r == Ok(201, UserViewOf(u))
  {
    var nameError := ValidateName(body.name);
    if nameError.Some? {
      return Err(400, nameError.value);
    }
    var emailError := ValidateEmail(body.email);
    if emailError.Some? {
      return Err(400, emailError.value);
    }
    var passwordError := ValidatePassword(body.password);
    if passwordError.Some? {
      return Err(400, passwordError.value);
    }
    var addressError := ValidateAddress(body.address);
    if addressError.Some? {
      return Err(400, addressError.value);
    }
    var role := AssignableRole(body.role);
    if role.None? {
      return Err(400, InvalidRole);
    }
    if UserEmailIndex(db.users, body.email).Some? {
      return Err(400, EmailExists);
    }
    var hashed := Hash(body.password, salt);
    var u := db.AddUser(body.name, body.email, hashed, body.address, role.value);
    r := Ok(201, UserViewOf(u));
  }

  // ---------------------------------------------------------------- POST /stores

  /** POST /stores: the same field checks and the unused store email; the new
      store starts with the average 0. */
  method CreateStore(db: Db, body: AccountBody, salt: nat) returns (r: Reply<StoreView>)
    requires db.Valid()
    modifies db
    ensures db.Valid()
    ensures db.users == old(db.users) && db.ratings == old(db.ratings)
    ensures db.nextUserId == old(db.nextUserId) && db.nextRatingId == old(db.nextRatingId)
    ensures var fieldError := AccountFieldsError(body.name, body.email, body.password, body.address);
            && (fieldError.Some? ==> r == Err(400, fieldError.value))
            && (fieldError.None? && StoreEmailIndex(old(db.stores), body.email).Some? ==>
                  r == Err(400, EmailExists))
            && (r.Ok? <==> fieldError.None? && StoreEmailIndex(old(db.stores), body.email).None?)
    ensures r.Err? ==> db.stores == old(db.stores) && db.nextStoreId == old(db.nextStoreId)
    ensures r.Ok? ==>
              var s := Store(old(db.nextStoreId), body.name, body.email, Hash(body.password, salt),
                             body.address, 0);
              && db.stores == old(db.stores) + [s] && db.nextStoreId == old(db.nextStoreId) + 1
              && r == Ok(201, StoreViewOf(s))
  {
    var nameError := ValidateName(body.name);
    if nameError.Some? {
      return Err(400, nameError.value);
    }
    var emailError := ValidateEmail(body.email);
    if emailError.Some? {
      return Err(400, emailError.value);
    }
    var passwordError := ValidatePassword(body.password);
    if passwordError.Some? {
      return Err(400, passwordError.value);
    }
    var addressError := ValidateAddress(body.address);
    if addressError.Some? {
      return Err(400, addressError.value);
    }
    if StoreEmailIndex(db.stores, body.email).Some? {
      return Err(400, EmailExists);
    }
    var hashed := Hash(body.password, salt);
    var s := db.AddStore(body.name, body.email, hashed, body.address);
    r := Ok(201, StoreViewOf(s));
  }

  // ---------------------------------------------------------------- GET /users, GET /stores

  /** The columns GET /users searches: name, email, address and role. */
  function UserSearchColumns(u: User): (columns: seq<string>) {
    [u.name, u.email, u.address, RoleName(u.role)]
  }

  /** The columns GET /stores searches: name, email and address. */
  function StoreSearchColumns(s: Store): seq<string> {
    [s.name, s.email, s.address]
  }

  function UserViews(rows: seq<User>): (r: seq<UserView>)
    ensures |r| == |rows| && forall i | 0 <= i < |rows| :: r[i] == UserViewOf(rows[i])
  {
    seq(|rows|, i requires 0 <= i < |rows| => UserViewOf(rows[i]))
  }

  function StoreViews(rows: seq<Store>): (r: seq<StoreView>)
    ensures |r| == |rows| && forall i | 0 <= i < |rows| :: r[i] == StoreViewOf(rows[i])
  {
    seq(|rows|, i requires 0 <= i < |rows| => StoreViewOf(rows[i]))
  }

  /** GET /users: the matching users, page `page` of `limit`, without passwords. */
  function ListUsers(users: seq<User>, search: string, page: nat, limit: nat): (r: Reply<Page<UserView>>)
    requires limit >= 1
    ensures page == 0 <==> r == Err(500, ServerError)
    ensures r.Ok? ==>
              var matching := Search(users, UserSearchColumns, search);
              && r.status == 200
              && r.body.totalCount == |matching| && r.body.currentPage == page
              && r.body.totalPages == CeilDiv(|matching|, limit)
              && |r.body.items| <= limit
              && (Offset(page, limit) < |matching| ==>
                    |r.body.items| == if |matching| - Offset(page, limit) < limit then |matching| - Offset(page, limit) else limit)
              && forall i | 0 <= i < |r.body.items| ::
                   Offset(page, limit) + i < |matching|
                   && r.body.items[i] == UserViewOf(matching[Offset(page, limit) + i])
  {
    match Paginate(Search(users, UserSearchColumns, search), page, limit)
    case Err(status, error) => Err(status, error)
    case Ok(status, p) => Ok(status, Page(UserViews(p.items), p.totalCount, p.currentPage, p.totalPages))
  }

  /** GET /users as the query is written: `iLike` on the role column, whose type is
      an enumeration, has no matching operator in PostgreSQL without a cast, so
      any non-empty search makes the query fail and the handler answer 500. */
  function ListUsersAsWritten(users: seq<User>, search: string, page: nat, limit: nat): (r: Reply<Page<UserView>>)
    requires limit >= 1
    ensures search != "" ==> r == Err(500, ServerError)
    ensures search == "" ==> r == ListUsers(users, search, page, limit)
  {
    if search != "" then Err(500, ServerError) else ListUsers(users, search, page, limit)
  }

  /** The two differ on every non-empty search of a valid page: as written the
      administrator gets an error where the intended search lists the matches. */
  lemma UserSearchAsWrittenFails(users: seq<User>, search: string, page: nat, limit: nat)
    requires limit >= 1 && page >= 1 && search != ""
    ensures ListUsersAsWritten(users, search, page, limit) == Err(500, ServerError)
    ensures ListUsers(users, search, page, limit).Ok?
  {
  }

  /** GET /stores (administrator): the matching stores, page `page` of `limit`. */
  function ListStores(stores: seq<Store>, search: string, page: nat, limit: nat): (r: Reply<Page<StoreView>>)
    requires limit >= 1
    ensures page == 0 <==> r == Err(500, ServerError)
    ensures r.Ok? ==>
              var matching := Search(stores, StoreSearchColumns, search);
              && r.status == 200
              && r.body.totalCount == |matching| && r.body.currentPage == page
              && r.body.totalPages == CeilDiv(|matching|, limit)
              && |r.body.items| <= limit
              && (Offset(page, limit) < |matching| ==>
                    |r.body.items| == if |matching| - Offset(page, limit) < limit then |matching| - Offset(page, limit) else limit)
              && forall i | 0 <= i < |r.body.items| ::
                   Offset(page, limit) + i < |matching|
                   && r.body.items[i] == StoreViewOf(matching[Offset(page, limit) + i])
  {
    match Paginate(Search(stores, StoreSearchColumns, search), page, limit)
    case Err(status, error) => Err(status, error)
    case Ok(status, p) => Ok(status, Page(StoreViews(p.items), p.totalCount, p.currentPage, p.totalPages))
  }

  /** Every user on a page of GET /users is a row of the table that matches
      the search, shown as its own view. */
  lemma ListedUsersMatch(users: seq<User>, search: string, page: nat, limit: nat, i: nat)
    requires limit >= 1 && ListUsers(users, search, page, limit).Ok?
    requires i < |ListUsers(users, search, page, limit).body.items|
    ensures exists u :: u in users && Matches(u, UserSearchColumns, search)
                        && ListUsers(users, search, page, limit).body.items[i] == UserViewOf(u)
  {
    var matching := Search(users, UserSearchColumns, search);
    var u := matching[Offset(page, limit) + i];
    SearchMembers(users, UserSearchColumns, search);
    assert u in matching;
  }

  /** Every matching user is listed: match `k` is item `k % limit` of page
      `RowPage(k, limit)`, which is within the reported page count. */
  lemma EveryUserListed(users: seq<User>, search: string, limit: nat, k: nat)
    requires limit >= 1 && k < |Search(users, UserSearchColumns, search)|
    ensures var matching := Search(users, UserSearchColumns, search);
            var r := ListUsers(users, search, RowPage(k, limit), limit);
            && r.Ok? && RowPage(k, limit) <= r.body.totalPages
            && k % limit < |r.body.items| && r.body.items[k % limit] == UserViewOf(matching[k])
  {
    var matching := Search(users, UserSearchColumns, search);
    RowOnItsPage(matching, limit, k);
    var p := RowPage(k, limit);
    var items := PageOf(matching, p, limit);
    assert Paginate(matching, p, limit) == Ok(200, Page(items, |matching|, p, CeilDiv(|matching|, limit)));
    assert ListUsers(users, search, p, limit).body.items == UserViews(items);
  }

  /** A user of the table that matches the search is on some page of GET /users;
      with no search, that is every user. */
  lemma MatchingUserListed(users: seq<User>, search: string, limit: nat, u: User)
    requires limit >= 1 && u in users && Matches(u, UserSearchColumns, search)
    ensures exists p: nat, i: nat | p >= 1 && ListUsers(users, search, p, limit).Ok? ::
              i < |ListUsers(users, search, p, limit).body.items|
              && ListUsers(users, search, p, limit).body.items[i] == UserViewOf(u)
  {
    var matching := Search(users, UserSearchColumns, search);
    SearchMembers(users, UserSearchColumns, search);
    var k :| 0 <= k < |matching| && matching[k] == u;
    EveryUserListed(users, search, limit, k);
  }

  // ---------------------------------------------------------------- GET /users/:id, GET /stores/:id

  /** GET /users/:id. */
  function GetUser(users: seq<User>, id: int): (r: Reply<UserView>)
    ensures r.Err? <==> forall i | 0 <= i < |users| :: users[i].id != id
    ensures r.Err? ==> r == Err(404, UserNotFound)
    ensures r.Ok? ==> r.status == 200 && exists i | 0 <= i < |users| ::
                        users[i].id == id && r.body == UserViewOf(users[i])
  {
    match UserIndex(users, id)
    case None => Err(404, UserNotFound)
    case Some(i) => Ok(200, UserViewOf(users[i]))
  }

  /** GET /stores/:id. */
  function GetStore(stores: seq<Store>, id: int): (r: Reply<StoreView>)
    ensures r.Err? <==> forall i | 0 <= i < |stores| :: stores[i].id != id
    ensures r.Err? ==> r == Err(404, StoreNotFound)
    ensures r.Ok? ==> r.status == 200 && exists i | 0 <= i < |stores| ::
                        stores[i].id == id && r.body == StoreViewOf(stores[i])
  {
    match StoreIndex(stores, id)
    case None => Err(404, StoreNotFound)
    case Some(i) => Ok(200, StoreViewOf(stores[i]))
  }

  /** A user the administrator just created is found by its id, as created. */
  lemma CreatedUserFound(users: seq<User>, u: User)
    requires forall i | 0 <= i < |users| :: users[i].id < u.id
    ensures GetUser(users + [u], u.id) == Ok(200, UserViewOf(u))
  {
    var after := users + [u];
    assert forall i | 0 <= i < |users| :: after[i].id != u.id;
    assert after[|users|] == u;
  }
}

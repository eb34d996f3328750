/** The three tables and their column rules (backend/models/User.js, Store.js,
    Rating.js), as datatypes with validity predicates, and the by-key lookups
    the handlers make (`findByPk`, `findOne`). */
module Schema {
  import opened Common
  import opened Validation
  import opened Credentials

  /** The `role` enumeration of the users table. */
  datatype Role = SystemAdmin | NormalUser | StoreOwner

  function RoleName(r: Role): string {
    match r
    case SystemAdmin => "system_admin"
    case NormalUser => "normal_user"
    case StoreOwner => "store_owner"
  }

  /** Reading a role name back: only the three enumeration names are roles. */
  function ParseRole(s: string): (r: Option<Role>)
    ensures r.Some? ==> RoleName(r.value) == s
    ensures r.None? ==> forall role: Role :: RoleName(role) != s
  {
    if s == "system_admin" then Some(SystemAdmin)
    else if s == "normal_user" then Some(NormalUser)
    else if s == "store_owner" then Some(StoreOwner)
    else None
  }

  /** The column default, used when a row is created without a role. */
  const DefaultRole: Role := NormalUser

  /** A row of `users`. Ids are positive: they come from an autoincrement counter. */
  datatype User = User(id: nat, name: string, email: string, password: PasswordHash,
                       address: string, role: Role)

  /** A row of `stores`; `averageTenths` is the DECIMAL(2,1) `averageRating`
      in tenths, so 45 stands for 4.5. */
  datatype Store = Store(id: nat, name: string, email: string, password: PasswordHash,
                         address: string, averageTenths: int)

  /** A row of `ratings`; `createdAt` is the creation timestamp. */
  datatype Rating = Rating(id: nat, userId: nat, storeId: nat, rating: int, createdAt: int)

  predicate NameFits(name: string) { 20 <= |name| <= 60 }
  predicate AddressFits(address: string) { 1 <= |address| <= 400 }

  /** Column rules of a user row: name length, email shape, address length (the
      role is an enumeration value by its type). */
  predicate ValidUser(u: User) {
    NameFits(u.name) && EmailShaped(u.email) && AddressFits(u.address)
  }

  /** Column rules of a store row, including the [0, 5] bound on the average. */
  predicate ValidStore(s: Store) {
    NameFits(s.name) && EmailShaped(s.email) && AddressFits(s.address)
    && 0 <= s.averageTenths <= 50
  }

  predicate ValidRating(r: Rating) {
    1 <= r.rating <= 5
  }

  // ---------------------------------------------------------------- tables

  /** The users table: valid rows, ids drawn below the counter, the primary key
      and the unique email. */
  predicate UserTable(users: seq<User>, nextId: nat) {
    && 1 <= nextId
    && (forall i | 0 <= i < |users| :: ValidUser(users[i]) && 1 <= users[i].id < nextId)
    && (forall i, j | 0 <= i < j < |users| :: users[i].id != users[j].id)
    && (forall i, j | 0 <= i < j < |users| :: users[i].email != users[j].email)
  }

  predicate StoreTable(stores: seq<Store>, nextId: nat) {
    && 1 <= nextId
    && (forall i | 0 <= i < |stores| :: ValidStore(stores[i]) && 1 <= stores[i].id < nextId)
    && (forall i, j | 0 <= i < j < |stores| :: stores[i].id != stores[j].id)
    && (forall i, j | 0 <= i < j < |stores| :: stores[i].email != stores[j].email)
  }

  predicate SamePair(a: Rating, b: Rating) {
    a.userId == b.userId && a.storeId == b.storeId
  }

  /** The unique index on (userId, storeId). */
  predicate UniquePairs(ratings: seq<Rating>) {
    forall i, j | 0 <= i < j < |ratings| :: !SamePair(ratings[i], ratings[j])
  }

  predicate HasUser(users: seq<User>, id: nat) {
    exists i | 0 <= i < |users| :: users[i].id == id
  }

  predicate HasStore(stores: seq<Store>, id: nat) {
    exists i | 0 <= i < |stores| :: stores[i].id == id
  }

  /** The ratings table: valid rows, the primary key, both foreign keys and the
      unique pair. */
  predicate RatingTable(ratings: seq<Rating>, users: seq<User>, stores: seq<Store>, nextId: nat) {
    && 1 <= nextId
    && (forall i | 0 <= i < |ratings| :: ValidRating(ratings[i]) && 1 <= ratings[i].id < nextId)
    && (forall i, j | 0 <= i < j < |ratings| :: ratings[i].id != ratings[j].id)
    && (forall i | 0 <= i < |ratings| :: HasUser(users, ratings[i].userId))
    && (forall i | 0 <= i < |ratings| :: HasStore(stores, ratings[i].storeId))
    && UniquePairs(ratings)
  }

  // ---------------------------------------------------------------- lookups

  /** `User.findByPk(id)`, as the row's position. */
  function UserIndex(users: seq<User>, id: int): (r: Option<nat>)
    ensures r.Some? ==> r.value < |users| && users[r.value].id == id
    ensures r.None? <==> forall i | 0 <= i < |users| :: users[i].id != id
  {
    IndexWhere(users, (u: User) => u.id == id)
  }

  /** `User.findOne({ where: { email } })`. */
  function UserEmailIndex(users: seq<User>, email: string): (r: Option<nat>)
    ensures r.Some? ==> r.value < |users| && users[r.value].email == email
    ensures r.None? <==> forall i | 0 <= i < |users| :: users[i].email != email
  {
    IndexWhere(users, (u: User) => u.email == email)
  }

  function StoreIndex(stores: seq<Store>, id: int): (r: Option<nat>)
    ensures r.Some? ==> r.value < |stores| && stores[r.value].id == id
    ensures r.None? <==> forall i | 0 <= i < |stores| :: stores[i].id != id
  {
    IndexWhere(stores, (s: Store) => s.id == id)
  }

  function StoreEmailIndex(stores: seq<Store>, email: string): (r: Option<nat>)
    ensures r.Some? ==> r.value < |stores| && stores[r.value].email == email
    ensures r.None? <==> forall i | 0 <= i < |stores| :: stores[i].email != email
  {
    IndexWhere(stores, (s: Store) => s.email == email)
  }

  /** `Rating.findOne({ where: { userId, storeId } })`. */
  function PairIndex(ratings: seq<Rating>, userId: int, storeId: int): (r: Option<nat>)
    ensures r.Some? ==> r.value < |ratings| && ratings[r.value].userId == userId
                        && ratings[r.value].storeId == storeId
    ensures r.None? <==> forall i | 0 <= i < |ratings| ::
                           !(ratings[i].userId == userId && ratings[i].storeId == storeId)
  {
    IndexWhere(ratings, (x: Rating) => x.userId == userId && x.storeId == storeId)
  }

  /** With the unique index there is at most one row per pair, so the row found
      is the only one. */
  lemma PairIndexUnique(ratings: seq<Rating>, userId: int, storeId: int, i: nat)
    requires UniquePairs(ratings)
    requires i < |ratings| && ratings[i].userId == userId && ratings[i].storeId == storeId
    ensures PairIndex(ratings, userId, storeId) == Some(i)
  {
    var r := PairIndex(ratings, userId, storeId);
    if r.value != i {
      if r.value < i {
        assert SamePair(ratings[r.value], ratings[i]);
      } else {
        assert SamePair(ratings[i], ratings[r.value]);
      }
    }
  }

  /** With unique ids, the row with a given id is found at its own position. */
  lemma UserIndexUnique(users: seq<User>, i: nat)
    requires forall a, b | 0 <= a < b < |users| :: users[a].id != users[b].id
    requires i < |users|
    ensures UserIndex(users, users[i].id) == Some(i)
  {
  }

  lemma StoreIndexUnique(stores: seq<Store>, i: nat)
    requires forall a, b | 0 <= a < b < |stores| :: stores[a].id != stores[b].id
    requires i < |stores|
    ensures StoreIndex(stores, stores[i].id) == Some(i)
  {
  }
}

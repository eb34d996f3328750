/** The database the handlers share: the three tables, the autoincrement
    counters, and the invariant every handler keeps, including the one the
    rating handlers exist for: each store's `averageRating` is the rounded
    mean of its ratings. */
module Database {
  import opened Validation
  import opened Credentials
  import opened Schema
  import opened Aggregate

  /** Every store shows the rounded mean of its ratings (0 with none). */
  predicate AveragesExact(stores: seq<Store>, ratings: seq<Rating>) {
    forall i | 0 <= i < |stores| :: stores[i].averageTenths == MeanTenths(ratings, stores[i].id)
  }

  /** Every table rule and the average rule, over the tables and counters. */
  predicate Consistent(users: seq<User>, stores: seq<Store>, ratings: seq<Rating>,
                       nextUserId: nat, nextStoreId: nat, nextRatingId: nat) {
    && UserTable(users, nextUserId)
    && StoreTable(stores, nextStoreId)
    && RatingTable(ratings, users, stores, nextRatingId)
    && AveragesExact(stores, ratings)
  }

  /** `users` with the password of the row `id` replaced (`User.update({ password },
      { where: { id } })`); no row matches an unknown id. */
  function WithUserPassword(users: seq<User>, id: nat, h: PasswordHash): (r: seq<User>)
    ensures |r| == |users|
    ensures forall i | 0 <= i < |users| ::
              r[i] == if users[i].id == id then users[i].(password := h) else users[i]
  {
    seq(|users|, i requires 0 <= i < |users| =>
      if users[i].id == id then users[i].(password := h) else users[i])
  }

  /** `Store.update({ password }, { where: { id } })`. */
  function WithStorePassword(stores: seq<Store>, id: nat, h: PasswordHash): (r: seq<Store>)
    ensures |r| == |stores|
    ensures forall i | 0 <= i < |stores| ::
              r[i] == if stores[i].id == id then stores[i].(password := h) else stores[i]
  {
    seq(|stores|, i requires 0 <= i < |stores| =>
      if stores[i].id == id then stores[i].(password := h) else stores[i])
  }

  /** The ratings rules see the other tables only through their ids: tables
      that still hold every id keep them. */
  lemma RatingTableWiderKeys(ratings: seq<Rating>, users: seq<User>, stores: seq<Store>,
                             users2: seq<User>, stores2: seq<Store>, nr: nat)
    requires RatingTable(ratings, users, stores, nr)
    requires forall i | 0 <= i < |users| :: HasUser(users2, users[i].id)
    requires forall i | 0 <= i < |stores| :: HasStore(stores2, stores[i].id)
    ensures RatingTable(ratings, users2, stores2, nr)
  {
    forall i | 0 <= i < |ratings|
      ensures HasUser(users2, ratings[i].userId) && HasStore(stores2, ratings[i].storeId)
    {
      var k :| 0 <= k < |users| && users[k].id == ratings[i].userId;
      var m :| 0 <= m < |stores| && stores[m].id == ratings[i].storeId;
      assert HasUser(users2, users[k].id);
      assert HasStore(stores2, stores[m].id);
    }
  }

  lemma UserTableAppend(users: seq<User>, nu: nat, u: User)
    requires UserTable(users, nu)
    requires u.id == nu && ValidUser(u) && UserEmailIndex(users, u.email).None?
    ensures UserTable(users + [u], nu + 1)
    ensures forall i | 0 <= i < |users| :: HasUser(users + [u], users[i].id)
  {
    var after := users + [u];
    forall i | 0 <= i < |users| ensures HasUser(after, users[i].id) {
      assert after[i] == users[i];
    }
  }

  lemma StoreTableAppend(stores: seq<Store>, ns: nat, s: Store)
    requires StoreTable(stores, ns)
    requires s.id == ns && ValidStore(s) && StoreEmailIndex(stores, s.email).None?
    ensures StoreTable(stores + [s], ns + 1)
    ensures forall i | 0 <= i < |stores| :: HasStore(stores + [s], stores[i].id)
  {
    var after := stores + [s];
    forall i | 0 <= i < |stores| ensures HasStore(after, stores[i].id) {
      assert after[i] == stores[i];
    }
  }

  /** A new user row with the next id, valid columns and an unused email keeps
      every rule. */
  lemma AddUserKeepsTables(users: seq<User>, stores: seq<Store>, ratings: seq<Rating>,
                           nu: nat, ns: nat, nr: nat, u: User)
    requires Consistent(users, stores, ratings, nu, ns, nr)
    requires u.id == nu && ValidUser(u) && UserEmailIndex(users, u.email).None?
    ensures Consistent(users + [u], stores, ratings, nu + 1, ns, nr)
  {
    UserTableAppend(users, nu, u);
    forall i | 0 <= i < |stores| ensures HasStore(stores, stores[i].id) {
    }
    RatingTableWiderKeys(ratings, users, stores, users + [u], stores, nr);
  }

  /** A store that no rating names, added with the default average 0, shows
      its mean: there are no rows, so the mean is 0. */
  lemma AveragesWithNewStore(stores: seq<Store>, ratings: seq<Rating>, s: Store)
    requires AveragesExact(stores, ratings) && s.averageTenths == 0
    requires forall i | 0 <= i < |ratings| :: ratings[i].storeId != s.id
    ensures AveragesExact(stores + [s], ratings)
  {
    RatingsOfAbsentStore(ratings, s.id);
    var after := stores + [s];
    forall i | 0 <= i < |after| ensures after[i].averageTenths == MeanTenths(ratings, after[i].id) {
      if i < |stores| {
        assert after[i] == stores[i];
      }
    }
  }

  /** A new store row with the next id, valid columns, an unused email and the
      default average 0 keeps every rule. */
  lemma AddStoreKeepsTables(users: seq<User>, stores: seq<Store>, ratings: seq<Rating>,
                            nu: nat, ns: nat, nr: nat, s: Store)
    requires Consistent(users, stores, ratings, nu, ns, nr)
    requires s.id == ns && ValidStore(s) && s.averageTenths == 0
    requires StoreEmailIndex(stores, s.email).None?
    ensures Consistent(users, stores + [s], ratings, nu, ns + 1, nr)
  {
    StoreTableAppend(stores, ns, s);
    forall i | 0 <= i < |users| ensures HasUser(users, users[i].id) {
    }
    RatingTableWiderKeys(ratings, users, stores, users, stores + [s], nr);
    forall i | 0 <= i < |ratings| ensures ratings[i].storeId != s.id {
      var k :| 0 <= k < |stores| && stores[k].id == ratings[i].storeId;
    }
    AveragesWithNewStore(stores, ratings, s);
  }

  lemma UserTableNewPassword(users: seq<User>, nu: nat, id: nat, h: PasswordHash)
    requires UserTable(users, nu)
    ensures UserTable(WithUserPassword(users, id, h), nu)
    ensures forall i | 0 <= i < |users| :: HasUser(WithUserPassword(users, id, h), users[i].id)
  {
    var us := WithUserPassword(users, id, h);
    forall i | 0 <= i < |users|
      ensures us[i].id == users[i].id && us[i].email == users[i].email && ValidUser(us[i])
      ensures HasUser(us, users[i].id)
    {
    }
  }

  lemma StoreTableNewPassword(stores: seq<Store>, ns: nat, id: nat, h: PasswordHash)
    requires StoreTable(stores, ns)
    ensures StoreTable(WithStorePassword(stores, id, h), ns)
    ensures forall i | 0 <= i < |stores| :: HasStore(WithStorePassword(stores, id, h), stores[i].id)
  {
    var ss := WithStorePassword(stores, id, h);
    forall i | 0 <= i < |stores|
      ensures ss[i].id == stores[i].id && ss[i].email == stores[i].email && ValidStore(ss[i])
      ensures HasStore(ss, stores[i].id)
    {
    }
  }

  /** A password is no part of any rule: replacing a user's keeps every rule. */
  lemma NewUserPasswordKeepsTables(users: seq<User>, stores: seq<Store>, ratings: seq<Rating>,
                                   nu: nat, ns: nat, nr: nat, id: nat, h: PasswordHash)
    requires Consistent(users, stores, ratings, nu, ns, nr)
    ensures Consistent(WithUserPassword(users, id, h), stores, ratings, nu, ns, nr)
  {
    UserTableNewPassword(users, nu, id, h);
    forall i | 0 <= i < |stores| ensures HasStore(stores, stores[i].id) {
    }
    RatingTableWiderKeys(ratings, users, stores, WithUserPassword(users, id, h), stores, nr);
  }

  /** Replacing a store's password keeps every rule; the averages stay. */
  lemma NewStorePasswordKeepsTables(users: seq<User>, stores: seq<Store>, ratings: seq<Rating>,
                                    nu: nat, ns: nat, nr: nat, id: nat, h: PasswordHash)
    requires Consistent(users, stores, ratings, nu, ns, nr)
    ensures Consistent(users, WithStorePassword(stores, id, h), ratings, nu, ns, nr)
  {
    StoreTableNewPassword(stores, ns, id, h);
    forall i | 0 <= i < |users| ensures HasUser(users, users[i].id) {
    }
    RatingTableWiderKeys(ratings, users, stores, users, WithStorePassword(stores, id, h), nr);
  }

  class Db {
    var users: seq<User>
    var stores: seq<Store>
    var ratings: seq<Rating>
    var nextUserId: nat
    var nextStoreId: nat
    var nextRatingId: nat

    ghost predicate Valid()
      reads this
    {
      Consistent(users, stores, ratings, nextUserId, nextStoreId, nextRatingId)
    }

    /** Empty tables, counters at 1. */
    constructor ()
      ensures Valid()
      ensures users == [] && stores == [] && ratings == []
      ensures nextUserId == 1 && nextStoreId == 1 && nextRatingId == 1
    {
      users, stores, ratings := [], [], [];
      nextUserId, nextStoreId, nextRatingId := 1, 1, 1;
    }

    /** `User.create`: the row gets the next id. The caller has checked the
        columns and that the email is unused. */
    method AddUser(name: string, email: string, password: PasswordHash, address: string, role: Role)
      returns (u: User)
      requires Valid() && NameFits(name) && EmailShaped(email) && AddressFits(address)
      requires UserEmailIndex(users, email).None?
      modifies this
      ensures Valid()
      ensures u == User(old(nextUserId), name, email, password, address, role)
      ensures users == old(users) + [u] && nextUserId == old(nextUserId) + 1
      ensures stores == old(stores) && ratings == old(ratings)
      ensures nextStoreId == old(nextStoreId) && nextRatingId == old(nextRatingId)
    {
      var us, ss, rs, nu, ns, nr := users, stores, ratings, nextUserId, nextStoreId, nextRatingId;
      u := User(nu, name, email, password, address, role);
      AddUserKeepsTables(us, ss, rs, nu, ns, nr, u);
      users, nextUserId := us + [u], nu + 1;
    }

    /** `Store.create`: the row gets the next id and the default average 0. */
    method AddStore(name: string, email: string, password: PasswordHash, address: string)
      returns (s: Store)
      requires Valid() && NameFits(name) && EmailShaped(email) && AddressFits(address)
      requires StoreEmailIndex(stores, email).None?
      modifies this
      ensures Valid()
      ensures s == Store(old(nextStoreId), name, email, password, address, 0)
      ensures stores == old(stores) + [s] && nextStoreId == old(nextStoreId) + 1
      ensures users == old(users) && ratings == old(ratings)
      ensures nextUserId == old(nextUserId) && nextRatingId == old(nextRatingId)
    {
      var us, ss, rs, nu, ns, nr := users, stores, ratings, nextUserId, nextStoreId, nextRatingId;
      s := Store(ns, name, email, password, address, 0);
      AddStoreKeepsTables(us, ss, rs, nu, ns, nr, s);
      stores, nextStoreId := ss + [s], ns + 1;
    }

    /** `User.update({ password }, { where: { id } })`. */
    method SetUserPassword(id: nat, h: PasswordHash)
      requires Valid()
      modifies this
      ensures Valid()
      ensures users == WithUserPassword(old(users), id, h)
      ensures stores == old(stores) && ratings == old(ratings)
      ensures nextUserId == old(nextUserId) && nextStoreId == old(nextStoreId)
      ensures nextRatingId == old(nextRatingId)
    {
      var us, ss, rs, nu, ns, nr := users, stores, ratings, nextUserId, nextStoreId, nextRatingId;
      NewUserPasswordKeepsTables(us, ss, rs, nu, ns, nr, id, h);
      users := WithUserPassword(us, id, h);
    }

    /** `Store.update({ password }, { where: { id } })`. */
    method SetStorePassword(id: nat, h: PasswordHash)
      requires Valid()
      modifies this
      ensures Valid()
      ensures stores == WithStorePassword(old(stores), id, h)
      ensures users == old(users) && ratings == old(ratings)
      ensures nextUserId == old(nextUserId) && nextStoreId == old(nextStoreId)
      ensures nextRatingId == old(nextRatingId)
    {
      var us, ss, rs, nu, ns, nr := users, stores, ratings, nextUserId, nextStoreId, nextRatingId;
      NewStorePasswordKeepsTables(us, ss, rs, nu, ns, nr, id, h);
      stores := WithStorePassword(ss, id, h);
    }
  }
}

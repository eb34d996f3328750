/** The normal user's routes (backend/routes/user.js): rating a store, changing
    a rating, and the store listing with the caller's own rating. Rating
    writes keep every store's `averageRating` equal to the rounded mean of its
    ratings. */
module UserRoutes {
  import opened Common
  import opened Validation
  import opened Schema
  import opened Aggregate
  import opened Database
  import opened Listing

  const FieldsRequired := "Store ID and rating are required"
  const RatingRequired := "Rating is required"
  const StoreNotFound := "Store not found"
  const RatingNotFound := "Rating not found"

  /** The answers of the two rating handlers. */
  datatype RatingReply = BadRequest(error: string) | NotFound(error: string) | Submitted | Updated

  function StatusOf(r: RatingReply): (status: nat)
    ensures status == 200 <==> r.Submitted? || r.Updated?
  {
    match r
    case BadRequest(_) => 400
    case NotFound(_) => 404
    case _ => 200
  }

  /** The `message` of a successful reply. */
  function MessageOf(r: RatingReply): string
    requires r.Submitted? || r.Updated?
  {
    if r.Updated? then "Rating updated successfully" else "Rating submitted successfully"
  }

  // ---------------------------------------------------------------- average

  /** The `reduce` over a store's rows. */
  method SumRatings(rows: seq<Rating>) returns (total: int)
    ensures total == Sum(rows)
  {
    total := 0;
    var i := 0;
    while i < |rows|
      invariant 0 <= i <= |rows|
      invariant total == Sum(rows[..i])
    {
      assert rows[..i + 1][..i] == rows[..i];
      total := total + rows[i].rating;
      i := i + 1;
    }
    assert rows[..|rows|] == rows;
  }

  /** `Store.update({ averageRating }, { where: { id } })`: every row with that
      id takes the new average, every other row is kept. */
  function Refreshed(stores: seq<Store>, id: int, t: int): (r: seq<Store>)
    ensures |r| == |stores|
    ensures forall i | 0 <= i < |r| ::
              r[i] == if stores[i].id == id then stores[i].(averageTenths := t) else stores[i]
  {
    seq(|stores|, i requires 0 <= i < |stores| =>
      if stores[i].id == id then stores[i].(averageTenths := t) else stores[i])
  }

  /** Refreshing a store whose rows changed, when no other store's rows did,
      restores "every average is the mean of its ratings". */
  lemma RefreshKeepsAverages(stores: seq<Store>, before: seq<Rating>, after: seq<Rating>, id: int)
    requires AveragesExact(stores, before)
    requires forall other | other != id :: RatingsOfStore(after, other) == RatingsOfStore(before, other)
    ensures AveragesExact(Refreshed(stores, id, MeanTenths(after, id)), after)
  {
    var r := Refreshed(stores, id, MeanTenths(after, id));
    forall i | 0 <= i < |r|
      ensures r[i].averageTenths == MeanTenths(after, r[i].id)
    {
      if stores[i].id != id {
        assert RatingsOfStore(after, stores[i].id) == RatingsOfStore(before, stores[i].id);
      }
    }
  }

  /** A refresh with an average in [0, 5] keeps the stores table valid and
      every store id in it. */
  lemma RefreshKeepsStoreTable(stores: seq<Store>, next: nat, id: int, t: int)
    requires StoreTable(stores, next) && 0 <= t <= 50
    ensures StoreTable(Refreshed(stores, id, t), next)
    ensures forall sid | HasStore(stores, sid) :: HasStore(Refreshed(stores, id, t), sid)
  {
    var r := Refreshed(stores, id, t);
    forall sid | HasStore(stores, sid) ensures HasStore(r, sid) {
      var j :| 0 <= j < |stores| && stores[j].id == sid;
      assert r[j].id == sid;
    }
  }

  /** Rows keep their ids and pairs, with valid values, and every store id
      survives: the ratings table rules still hold. */
  lemma RatingTableRekeyed(before: seq<Rating>, after: seq<Rating>, users: seq<User>,
                           stores: seq<Store>, refreshed: seq<Store>, nr: nat)
    requires RatingTable(before, users, stores, nr)
    requires |after| == |before|
    requires forall i | 0 <= i < |after| ::
               after[i].id == before[i].id && SamePair(after[i], before[i]) && ValidRating(after[i])
    requires forall id | HasStore(stores, id) :: HasStore(refreshed, id)
    ensures RatingTable(after, users, refreshed, nr)
  {
    forall a, b | 0 <= a < b < |after| ensures !SamePair(after[a], after[b]) {
      assert !SamePair(before[a], before[b]);
    }
  }

  /** A valid row with the next id, for a new pair of an existing user and
      store, extends the ratings table. */
  lemma RatingTableExtended(before: seq<Rating>, x: Rating, users: seq<User>,
                            stores: seq<Store>, refreshed: seq<Store>, nr: nat)
    requires RatingTable(before, users, stores, nr)
    requires x.id == nr && ValidRating(x) && HasUser(users, x.userId) && HasStore(refreshed, x.storeId)
    requires forall i | 0 <= i < |before| :: !SamePair(before[i], x)
    requires forall id | HasStore(stores, id) :: HasStore(refreshed, id)
    ensures RatingTable(before + [x], users, refreshed, nr + 1)
  {
    var after := before + [x];
    forall a, b | 0 <= a < b < |after| ensures !SamePair(after[a], after[b]) {
      if b == |before| {
        assert !SamePair(before[a], x);
      } else {
        assert !SamePair(before[a], before[b]);
      }
    }
    forall i | 0 <= i < |after| ensures HasStore(refreshed, after[i].storeId) {
      if i < |before| {
        assert HasStore(stores, before[i].storeId);
      }
    }
  }

  /** Changing the value of row `j` to a valid rating and refreshing its
      store keeps every table rule, and the refreshed average is in [1, 5]. */
  lemma UpdateKeepsTables(users: seq<User>, stores: seq<Store>, ratings: seq<Rating>,
                          nu: nat, ns: nat, nr: nat, j: nat, v: int, after: seq<Rating>, sid: nat)
    requires Consistent(users, stores, ratings, nu, ns, nr)
    requires j < |ratings| && 1 <= v <= 5 && ratings[j].storeId == sid
    requires after == ratings[j := ratings[j].(rating := v)]
    ensures |RatingsOfStore(after, sid)| > 0 && 10 <= MeanTenths(after, sid) <= 50
    ensures Consistent(users, Refreshed(stores, sid, MeanTenths(after, sid)), after, nu, ns, nr)
  {
    forall other | other != sid
      ensures RatingsOfStore(after, other) == RatingsOfStore(ratings, other)
    {
      RatingsOfStoreUpdateOther(ratings, j, v, other);
    }
    RatingsOfStoreMembers(after, sid);
    assert after[j] in RatingsOfStore(after, sid);
    var mean := MeanTenths(after, sid);
    MeanInRange(after, sid);
    RefreshKeepsAverages(stores, ratings, after, sid);
    RefreshKeepsStoreTable(stores, ns, sid, mean);
    RatingTableRekeyed(ratings, after, users, stores, Refreshed(stores, sid, mean), nr);
  }

  /** Appending the rating `v` of user `userId` for store `sid`, when that
      pair has no row yet, with the next id, and refreshing the store keeps
      every table rule; the refreshed average is in [1, 5]. */
  lemma InsertKeepsTables(users: seq<User>, stores: seq<Store>, ratings: seq<Rating>,
                          nu: nat, ns: nat, nr: nat, userId: nat, sid: nat, v: int, now: int)
    requires Consistent(users, stores, ratings, nu, ns, nr)
    requires HasUser(users, userId) && HasStore(stores, sid) && 1 <= v <= 5
    requires PairIndex(ratings, userId, sid).None?
    ensures var after := ratings + [Rating(nr, userId, sid, v, now)];
            && |RatingsOfStore(after, sid)| > 0 && 10 <= MeanTenths(after, sid) <= 50
            && Consistent(users, Refreshed(stores, sid, MeanTenths(after, sid)), after, nu, ns, nr + 1)
  {
    var x := Rating(nr, userId, sid, v, now);
    var after := ratings + [x];
    forall other | other != sid
      ensures RatingsOfStore(after, other) == RatingsOfStore(ratings, other)
    {
      RatingsOfStoreAppend(ratings, x, other);
      assert RatingsOfStore(ratings, other) + [] == RatingsOfStore(ratings, other);
    }
    RatingsOfStoreAppend(ratings, x, sid);
    assert forall i | 0 <= i < |after| :: ValidRating(after[i]) by {
      assert forall i | 0 <= i < |ratings| :: after[i] == ratings[i];
    }
    var mean := MeanTenths(after, sid);
    MeanInRange(after, sid);
    RefreshKeepsAverages(stores, ratings, after, sid);
    RefreshKeepsStoreTable(stores, ns, sid, mean);
    RatingTableExtended(ratings, x, users, stores, Refreshed(stores, sid, mean), nr);
  }

  /** `Rating.findAll({ where: { storeId } })`, the sum over the rows, and the
      mean rounded to tenths: the value written back as the store's average.
      Called after a write that left the store with a rating. */
  method AverageOf(ratings: seq<Rating>, storeId: nat) returns (t: int)
    requires |RatingsOfStore(ratings, storeId)| > 0
    ensures t == MeanTenths(ratings, storeId)
  {
    var rows := RatingsOfStore(ratings, storeId);
    var total := SumRatings(rows);
    t := RoundTenths(total, |rows|);
  }

  // ---------------------------------------------------------------- POST /ratings

  /** The request carries a store id and a rating (`!storeId || !rating`
      fails otherwise; a store id of 0 is falsy). */
  function FieldsPresent(storeId: Option<int>, rating: BodyValue): (present: bool)
    ensures present ==> storeId.Some? && storeId.value != 0
    ensures rating == Undefined || rating == Num(0.0) || rating == Str("") ==> !present
    ensures storeId.Some? && storeId.value != 0 && rating.Num? && rating.n != 0.0 ==> present
  {
    storeId.Some? && storeId.value != 0 && Truthy(rating)
  }

  /** `Rating.create` for a (user, store) pair without a row, then the
      store's average is recomputed and written with `Store.update`. */
  method CreateRating(db: Db, userId: nat, sid: nat, v: int, now: int)
    requires db.Valid() && HasUser(db.users, userId) && HasStore(db.stores, sid) && 1 <= v <= 5
    requires PairIndex(db.ratings, userId, sid).None?
    modifies db
    ensures db.Valid()
    ensures db.users == old(db.users) && db.nextUserId == old(db.nextUserId)
    ensures db.nextStoreId == old(db.nextStoreId)
    ensures db.ratings == old(db.ratings) + [Rating(old(db.nextRatingId), userId, sid, v, now)]
    ensures db.nextRatingId == old(db.nextRatingId) + 1
    ensures db.stores == Refreshed(old(db.stores), sid, MeanTenths(db.ratings, sid))
    ensures 10 <= MeanTenths(db.ratings, sid) <= 50
  {
    var users, stores, ratings := db.users, db.stores, db.ratings;
    var nu, ns, nr := db.nextUserId, db.nextStoreId, db.nextRatingId;
    var after := ratings + [Rating(nr, userId, sid, v, now)];
    var average := AverageOf(after, sid);
    InsertKeepsTables(users, stores, ratings, nu, ns, nr, userId, sid, v, now);
    db.ratings, db.nextRatingId, db.stores := after, nr + 1, Refreshed(stores, sid, average);
  }

  /** `existingRating.update({ rating })` on row `j`, then the store's average
      is recomputed and written with `Store.update`. */
  method ChangeRating(db: Db, j: nat, v: int)
    requires db.Valid() && j < |db.ratings| && 1 <= v <= 5
    modifies db
    ensures db.Valid()
    ensures db.users == old(db.users) && db.nextUserId == old(db.nextUserId)
    ensures db.nextStoreId == old(db.nextStoreId) && db.nextRatingId == old(db.nextRatingId)
    ensures db.ratings == old(db.ratings)[j := old(db.ratings)[j].(rating := v)]
    ensures db.stores == Refreshed(old(db.stores), old(db.ratings)[j].storeId,
                                   MeanTenths(db.ratings, old(db.ratings)[j].storeId))
    ensures 10 <= MeanTenths(db.ratings, old(db.ratings)[j].storeId) <= 50
  {
    var users, stores, ratings := db.users, db.stores, db.ratings;
    var nu, ns, nr := db.nextUserId, db.nextStoreId, db.nextRatingId;
    var sid := ratings[j].storeId;
    var after := ratings[j := ratings[j].(rating := v)];
    RatingsOfStoreMembers(after, sid);
    assert after[j] in RatingsOfStore(after, sid);
    var average := AverageOf(after, sid);
    UpdateKeepsTables(users, stores, ratings, nu, ns, nr, j, v, after, sid);
    db.ratings, db.stores := after, Refreshed(stores, sid, average);
  }

  /** The write half of POST /ratings, once the request has passed its checks:
      the caller's existing rating of store `sid` is changed, or a new one is
      created. */
  method UpsertRating(db: Db, userId: nat, sid: nat, v: int, now: int) returns (updated: bool)
    requires db.Valid() && HasUser(db.users, userId) && HasStore(db.stores, sid) && 1 <= v <= 5
    modifies db
    ensures db.Valid()
    ensures db.users == old(db.users) && db.nextUserId == old(db.nextUserId)
    ensures db.nextStoreId == old(db.nextStoreId)
    ensures updated <==> PairIndex(old(db.ratings), userId, sid).Some?
    ensures updated ==>
              var j := PairIndex(old(db.ratings), userId, sid).value;
              && db.ratings == old(db.ratings)[j := old(db.ratings)[j].(rating := v)]
              && db.nextRatingId == old(db.nextRatingId)
    ensures !updated ==>
              && db.ratings == old(db.ratings) + [Rating(old(db.nextRatingId), userId, sid, v, now)]
              && db.nextRatingId == old(db.nextRatingId) + 1
    ensures db.stores == Refreshed(old(db.stores), sid, MeanTenths(db.ratings, sid))
    ensures 10 <= MeanTenths(db.ratings, sid) <= 50
  {
    var existing := PairIndex(db.ratings, userId, sid);
    if existing.Some? {
      ChangeRating(db, existing.value, v);
      updated := true;
    } else {
      CreateRating(db, userId, sid, v, now);
      updated := false;
    }
  }

  /** POST /ratings: rate a store as user `userId`, or change the caller's
      existing rating of it, then recompute the store's average. */
  method SubmitRating(db: Db, userId: nat, storeId: Option<int>, rating: BodyValue, now: int)
    returns (r: RatingReply)
    requires db.Valid() && HasUser(db.users, userId)
    modifies db
    ensures db.Valid()
    ensures db.users == old(db.users) && db.nextUserId == old(db.nextUserId)
    ensures db.nextStoreId == old(db.nextStoreId)
    ensures !FieldsPresent(storeId, rating) ==> r == BadRequest(FieldsRequired)
    ensures FieldsPresent(storeId, rating) && ValidateRating(rating).Some? ==> r == BadRequest(RatingMessage)
    ensures FieldsPresent(storeId, rating) && ValidateRating(rating).None? ==>
              && (StoreIndex(old(db.stores), storeId.value).None? <==> r == NotFound(StoreNotFound))
              && (StoreIndex(old(db.stores), storeId.value).Some? ==>
                    (r == Updated <==> PairIndex(old(db.ratings), userId, storeId.value).Some?)
                    && (r == Submitted <==> PairIndex(old(db.ratings), userId, storeId.value).None?))
    ensures r.BadRequest? || r.NotFound? ==>
              db.stores == old(db.stores) && db.ratings == old(db.ratings) && db.nextRatingId == old(db.nextRatingId)
    ensures r.Updated? ==>
              var j := PairIndex(old(db.ratings), userId, storeId.value).value;
              && db.ratings == old(db.ratings)[j := old(db.ratings)[j].(rating := ParseInt(rating).value)]
              && db.nextRatingId == old(db.nextRatingId)
    ensures r.Submitted? ==>
              && db.nextRatingId == old(db.nextRatingId) + 1
              && |db.ratings| == |old(db.ratings)| + 1
              && db.ratings[..|old(db.ratings)|] == old(db.ratings)
              && (var x := db.ratings[|old(db.ratings)|];
                  && x.id == old(db.nextRatingId) && x.userId == userId && x.storeId == storeId.value
                  && x.rating == ParseInt(rating).value && x.createdAt == now)
    ensures r.Submitted? || r.Updated? ==>
              && db.stores == Refreshed(old(db.stores), storeId.value, MeanTenths(db.ratings, storeId.value))
              && 10 <= MeanTenths(db.ratings, storeId.value) <= 50
  {
    if !FieldsPresent(storeId, rating) {
      return BadRequest(FieldsRequired);
    }
    var ratingError := ValidateRating(rating);
    if ratingError.Some? {
      return BadRequest(ratingError.value);
    }
    var found := StoreIndex(db.stores, storeId.value);
    if found.None? {
      return NotFound(StoreNotFound);
    }
    var sid := db.stores[found.value].id;
    var updated := UpsertRating(db, userId, sid, ParseInt(rating).value, now);
    r := if updated then Updated else Submitted;
  }

  // ---------------------------------------------------------------- PUT /ratings/:storeId

  /** PUT /ratings/:storeId: change the caller's existing rating of a store,
      then recompute the store's average. There is no create branch. */
  method UpdateRating(db: Db, userId: nat, storeId: int, rating: BodyValue) returns (r: RatingReply)
    requires db.Valid()
    modifies db
    ensures db.Valid()
    ensures db.users == old(db.users) && db.nextUserId == old(db.nextUserId)
    ensures db.nextStoreId == old(db.nextStoreId) && db.nextRatingId == old(db.nextRatingId)
    ensures !r.Submitted?
    ensures !Truthy(rating) ==> r == BadRequest(RatingRequired)
    ensures Truthy(rating) && ValidateRating(rating).Some? ==> r == BadRequest(RatingMessage)
    ensures Truthy(rating) && ValidateRating(rating).None? ==>
              && (PairIndex(old(db.ratings), userId, storeId).None? <==> r == NotFound(RatingNotFound))
              && (PairIndex(old(db.ratings), userId, storeId).Some? <==> r == Updated)
    ensures !r.Updated? ==> db.stores == old(db.stores) && db.ratings == old(db.ratings)
    ensures r.Updated? ==>
              var j := PairIndex(old(db.ratings), userId, storeId).value;
              && db.ratings == old(db.ratings)[j := old(db.ratings)[j].(rating := ParseInt(rating).value)]
              && db.stores == Refreshed(old(db.stores), storeId, MeanTenths(db.ratings, storeId))
              && 10 <= MeanTenths(db.ratings, storeId) <= 50
  {
    if !Truthy(rating) {
      return BadRequest(RatingRequired);
    }
    var ratingError := ValidateRating(rating);
    if ratingError.Some? {
      return BadRequest(ratingError.value);
    }
    var existing := PairIndex(db.ratings, userId, storeId);
    if existing.None? {
      return NotFound(RatingNotFound);
    }
    ChangeRating(db, existing.value, ParseInt(rating).value);
    r := Updated;
  }

  // ---------------------------------------------------------------- GET /stores

  /** One entry of the store list: no email, no password, and the caller's own
      rating when there is one. */
  datatype StoreCard = StoreCard(id: nat, name: string, address: string, averageTenths: int,
                                 userRating: Option<int>)

  /** The columns the user's store search looks in: name and address only. */
  function StoreSearchColumns(s: Store): seq<string> {
    [s.name, s.address]
  }

  /** A store as the caller `userId` sees it. */
  function CardOf(s: Store, ratings: seq<Rating>, userId: nat): (c: StoreCard)
    ensures c.id == s.id && c.name == s.name && c.address == s.address
    ensures c.averageTenths == s.averageTenths
    ensures c.userRating.None? <==> forall i | 0 <= i < |ratings| :: !(ratings[i].userId == userId && ratings[i].storeId == s.id)
    ensures c.userRating.Some? ==> exists i | 0 <= i < |ratings| ::
              ratings[i].userId == userId && ratings[i].storeId == s.id && ratings[i].rating == c.userRating.value
  {
    var own := PairIndex(ratings, userId, s.id);
    StoreCard(s.id, s.name, s.address, s.averageTenths,
              if own.Some? then Some(ratings[own.value].rating) else None)
  }

  function CardsOf(rows: seq<Store>, ratings: seq<Rating>, userId: nat): (r: seq<StoreCard>)
    ensures |r| == |rows| && forall i | 0 <= i < |rows| :: r[i] == CardOf(rows[i], ratings, userId)
  {
    seq(|rows|, i requires 0 <= i < |rows| => CardOf(rows[i], ratings, userId))
  }

  /** GET /stores for the caller `userId`: the stores whose name or address
      contains `search`, page `page` of `limit`, each with the caller's rating. */
  function ListStoresForUser(stores: seq<Store>, ratings: seq<Rating>, userId: nat,
                             search: string, page: nat, limit: nat): (r: Reply<Page<StoreCard>>)
    requires limit >= 1
    ensures page == 0 <==> r.Err?
    ensures r.Ok? ==>
              var matching := Search(stores, StoreSearchColumns, search);
              && r.body.totalCount == |matching| && r.body.currentPage == page
              && r.body.totalPages == CeilDiv(|matching|, limit)
              && |r.body.items| <= limit
              && (Offset(page, limit) < |matching| ==>
                    |r.body.items| == if |matching| - Offset(page, limit) < limit then |matching| - Offset(page, limit) else limit)
              && forall i | 0 <= i < |r.body.items| ::
                   Offset(page, limit) + i < |matching|
                   && r.body.items[i] == CardOf(matching[Offset(page, limit) + i], ratings, userId)
  {
    var listed := Paginate(Search(stores, StoreSearchColumns, search), page, limit);
    match listed
    case Err(status, error) => Err(status, error)
    case Ok(status, p) => Ok(status, Page(CardsOf(p.items, ratings, userId), p.totalCount, p.currentPage, p.totalPages))
  }

  /** With the unique pair index, a listed store's `userRating` is the value of
      the caller's one rating of it. */
  lemma UserRatingIsOwnRating(s: Store, ratings: seq<Rating>, userId: nat, i: nat)
    requires UniquePairs(ratings)
    requires i < |ratings| && ratings[i].userId == userId && ratings[i].storeId == s.id
    ensures CardOf(s, ratings, userId).userRating == Some(ratings[i].rating)
  {
    PairIndexUnique(ratings, userId, s.id, i);
  }

  // ---------------------------------------------------------------- GET /my-ratings

  /** The store columns joined to a rating: id, name and address. */
  datatype RatedStore = RatedStore(id: nat, name: string, address: string)

  /** One of the caller's ratings with its store, `None` when the join finds none. */
  datatype OwnRating = OwnRating(rating: Rating, store: Option<RatedStore>)

  function RatedStoreOf(stores: seq<Store>, id: nat): (r: Option<RatedStore>)
    ensures r.Some? <==> HasStore(stores, id)
    ensures r.Some? ==> exists i | 0 <= i < |stores| ::
              stores[i].id == id && r.value == RatedStore(id, stores[i].name, stores[i].address)
  {
    var k := StoreIndex(stores, id);
    if k.Some? then Some(RatedStore(id, stores[k.value].name, stores[k.value].address)) else None
  }

  /** `Rating.findAll({ where: { userId } })`: the caller's ratings, in table order. */
  function OwnRatings(ratings: seq<Rating>, userId: nat): (rows: seq<Rating>)
    ensures |rows| <= |ratings|
    ensures forall k | 0 <= k < |rows| :: rows[k].userId == userId
  {
    if |ratings| == 0 then []
    else
      var rest := OwnRatings(ratings[..|ratings| - 1], userId);
      if ratings[|ratings| - 1].userId == userId then rest + [ratings[|ratings| - 1]] else rest
  }

  /** The filter keeps exactly the caller's ratings. */
  lemma {:induction false} OwnRatingsMembers(ratings: seq<Rating>, userId: nat)
    ensures forall x :: x in OwnRatings(ratings, userId) <==> x in ratings && x.userId == userId
  {
    if |ratings| > 0 {
      var n := |ratings|;
      OwnRatingsMembers(ratings[..n - 1], userId);
      assert ratings == ratings[..n - 1] + [ratings[n - 1]];
    }
  }

  /** GET /my-ratings: the caller's ratings, each joined with its store. */
  function MyRatings(stores: seq<Store>, ratings: seq<Rating>, userId: nat): (r: seq<OwnRating>)
    ensures |r| == |OwnRatings(ratings, userId)|
    ensures forall k | 0 <= k < |r| ::
              && r[k].rating == OwnRatings(ratings, userId)[k] && r[k].rating.userId == userId
              && r[k].store == RatedStoreOf(stores, r[k].rating.storeId)
  {
    var own := OwnRatings(ratings, userId);
    seq(|own|, k requires 0 <= k < |own| => OwnRating(own[k], RatedStoreOf(stores, own[k].storeId)))
  }

  /** Under the foreign key every listed rating comes with its store. */
  lemma MyRatingsJoined(stores: seq<Store>, ratings: seq<Rating>, userId: nat)
    requires forall i | 0 <= i < |ratings| :: HasStore(stores, ratings[i].storeId)
    ensures forall k | 0 <= k < |MyRatings(stores, ratings, userId)| :: MyRatings(stores, ratings, userId)[k].store.Some?
  {
    var own := OwnRatings(ratings, userId);
    OwnRatingsMembers(ratings, userId);
    forall k | 0 <= k < |own|
      ensures HasStore(stores, own[k].storeId)
    {
      assert own[k] in ratings;
    }
  }
}

/** The store owner's routes (backend/routes/store.js), behind the
    `store_owner` gate: the dashboard and the paged ratings of the caller's own
    store. Both only read. Each rating is joined with its rater's row; a rating
    whose rater is missing makes the handler fail reading the join, which the
    model answers with 500. */
module StoreRoutes {
  import opened Common
  import opened Schema
  import opened Aggregate
  import opened Database
  import opened Listing

  /** The rater as a store sees it: id, name and email. */
  datatype Rater = Rater(id: nat, name: string, email: string)

  /** One rating as a store sees it. */
  datatype RatingView = RatingView(id: nat, rating: int, createdAt: int, user: Rater)

  /** The dashboard body; `averageTenths` is `averageRating` in tenths. */
  datatype Dashboard = Dashboard(averageTenths: int, totalRatings: nat, ratings: seq<RatingView>)

  /** A rating joined with its rater (`include: [{ model: User }]`). */
  function ViewOf(users: seq<User>, x: Rating): (v: Option<RatingView>)
    ensures v.None? <==> !HasUser(users, x.userId)
    ensures v.Some? ==> && v.value.id == x.id && v.value.rating == x.rating
                        && v.value.createdAt == x.createdAt && v.value.user.id == x.userId
                        && exists i | 0 <= i < |users| ::
                             users[i].id == x.userId && v.value.user == Rater(users[i].id, users[i].name, users[i].email)
  {
    match UserIndex(users, x.userId)
    case None => None
    case Some(i) => Some(RatingView(x.id, x.rating, x.createdAt, Rater(users[i].id, users[i].name, users[i].email)))
  }

  /** The joined rows, or `None` when one of them has no rater. */
  function ViewsOf(users: seq<User>, rows: seq<Rating>): (r: Option<seq<RatingView>>)
    ensures r.Some? <==> forall i | 0 <= i < |rows| :: HasUser(users, rows[i].userId)
    ensures r.Some? ==> |r.value| == |rows| && forall i | 0 <= i < |rows| :: ViewOf(users, rows[i]) == Some(r.value[i])
  {
    if |rows| == 0 then Some([])
    else
      match ViewOf(users, rows[0])
      case None => None
      case Some(v) =>
        match ViewsOf(users, rows[1..])
        case None => None
        case Some(rest) => Some([v] + rest)
  }

  // ---------------------------------------------------------------- GET /dashboard

  /** GET /dashboard for the store `storeId`: the mean of its ratings rounded to
      one decimal, or 0 without ratings; their number; and the ratings with
      their raters. */
  function StoreDashboard(users: seq<User>, ratings: seq<Rating>, storeId: nat): (r: Reply<Dashboard>)
    ensures r.Err? <==> exists x | x in ratings :: x.storeId == storeId && !HasUser(users, x.userId)
    ensures r.Err? ==> r == Err(500, ServerError)
    ensures r.Ok? ==> && r.status == 200
                      && r.body.averageTenths == MeanTenths(ratings, storeId)
                      && (r.body.totalRatings == 0 ==> r.body.averageTenths == 0)
                      && r.body.totalRatings == |RatingsOfStore(ratings, storeId)|
                      && |r.body.ratings| == r.body.totalRatings
                      && forall j | 0 <= j < |r.body.ratings| ::
                           ViewOf(users, RatingsOfStore(ratings, storeId)[j]) == Some(r.body.ratings[j])
  {
    var rows := RatingsOfStore(ratings, storeId);
    RatingsOfStoreMembers(ratings, storeId);
    assert forall x | x in ratings && x.storeId == storeId :: exists j | 0 <= j < |rows| :: rows[j] == x;
    var average := if |rows| > 0 then RoundTenths(Sum(rows), |rows|) else 0;
    match ViewsOf(users, rows)
    case None => Err(500, ServerError)
    case Some(views) => Ok(200, Dashboard(average, |rows|, views))
  }

  /** `totalRatings` counts exactly the table's rows that name the caller's
      store, and every listed rating is such a row. */
  lemma DashboardCountsOwnRatings(users: seq<User>, ratings: seq<Rating>, storeId: nat, j: nat)
    requires StoreDashboard(users, ratings, storeId).Ok?
    ensures StoreDashboard(users, ratings, storeId).body.totalRatings == |RowsNaming(ratings, storeId)|
    ensures j < |StoreDashboard(users, ratings, storeId).body.ratings| ==>
              exists i | 0 <= i < |ratings| ::
                ratings[i].storeId == storeId
                && ratings[i].id == StoreDashboard(users, ratings, storeId).body.ratings[j].id
  {
    RatingsOfStoreCount(ratings, storeId);
    var rows := RatingsOfStore(ratings, storeId);
    if j < |rows| {
      RatingsOfStoreMembers(ratings, storeId);
      assert rows[j] in rows;
      var i :| 0 <= i < |ratings| && ratings[i] == rows[j];
    }
  }

  /** On a consistent database the dashboard never fails, and its average is
      the one the rating handlers keep in the store's row: between 1.0 and 5.0
      once there is a rating, 0 before. */
  lemma DashboardShowsStoredAverage(users: seq<User>, stores: seq<Store>, ratings: seq<Rating>,
                                    nu: nat, ns: nat, nr: nat, k: nat)
    requires Consistent(users, stores, ratings, nu, ns, nr) && k < |stores|
    ensures var d := StoreDashboard(users, ratings, stores[k].id);
            && d.Ok? && d.body.averageTenths == stores[k].averageTenths
            && (d.body.totalRatings == 0 ==> d.body.averageTenths == 0)
            && (d.body.totalRatings > 0 ==> 10 <= d.body.averageTenths <= 50)
  {
    var sid := stores[k].id;
    forall x | x in ratings ensures HasUser(users, x.userId) {
      var i :| 0 <= i < |ratings| && ratings[i] == x;
    }
    MeanInRange(ratings, sid);
  }

  // ---------------------------------------------------------------- GET /ratings

  /** The query of GET /ratings; absent parameters take their defaults. The
      sort is carried but not applied (the order is the table's). */
  datatype RatingsQuery = RatingsQuery(sortBy: string, sortOrder: string, page: nat, limit: nat)

  function RatingsQueryOf(sortBy: Option<string>, sortOrder: Option<string>,
                          page: Option<nat>, limit: Option<nat>): (q: RatingsQuery)
    ensures q.sortBy == (if sortBy.Some? then sortBy.value else "createdAt")
    ensures q.sortOrder == (if sortOrder.Some? then sortOrder.value else "DESC")
    ensures q.page == (if page.Some? then page.value else 1)
    ensures q.limit == (if limit.Some? then limit.value else 10)
  {
    RatingsQuery(if sortBy.Some? then sortBy.value else "createdAt",
                 if sortOrder.Some? then sortOrder.value else "DESC",
                 if page.Some? then page.value else 1,
                 if limit.Some? then limit.value else 10)
  }

  /** GET /ratings for the store `storeId`: page `q.page` of `q.limit` of its
      ratings, with their raters. */
  function RatingsPage(users: seq<User>, ratings: seq<Rating>, storeId: nat, q: RatingsQuery)
    : (r: Reply<Page<RatingView>>)
    requires q.limit >= 1
    ensures q.page == 0 ==> r == Err(500, ServerError)
    ensures r.Ok? ==>
              var own := RatingsOfStore(ratings, storeId);
              && r.status == 200 && q.page >= 1
              && r.body.totalCount == |own| && r.body.currentPage == q.page
              && r.body.totalPages == CeilDiv(|own|, q.limit)
              && |r.body.items| <= q.limit
              && (Offset(q.page, q.limit) < |own| ==>
                    |r.body.items| == if |own| - Offset(q.page, q.limit) < q.limit then |own| - Offset(q.page, q.limit) else q.limit)
              && forall i | 0 <= i < |r.body.items| ::
                   Offset(q.page, q.limit) + i < |own|
                   && ViewOf(users, own[Offset(q.page, q.limit) + i]) == Some(r.body.items[i])
  {
    match Paginate(RatingsOfStore(ratings, storeId), q.page, q.limit)
    case Err(status, error) => Err(status, error)
    case Ok(status, p) =>
      match ViewsOf(users, p.items)
      case None => Err(500, ServerError)
      case Some(views) => Ok(status, Page(views, p.totalCount, p.currentPage, p.totalPages))
  }

  /** With no parameters the listing is the first ten of the store's ratings. */
  lemma DefaultRatingsPage(users: seq<User>, ratings: seq<Rating>, storeId: nat)
    ensures var q := RatingsQueryOf(None, None, None, None);
            && q == RatingsQuery("createdAt", "DESC", 1, 10)
            && var r := RatingsPage(users, ratings, storeId, q);
               r.Ok? ==> r.body.currentPage == 1 && |r.body.items| <= 10
  {
  }

  /** On a consistent database every page from 1 on is answered, and it lists
      only ratings of the caller's store. */
  lemma RatingsPageOnlyOwn(users: seq<User>, stores: seq<Store>, ratings: seq<Rating>,
                           nu: nat, ns: nat, nr: nat, storeId: nat, q: RatingsQuery, i: nat)
    requires Consistent(users, stores, ratings, nu, ns, nr) && q.limit >= 1 && q.page >= 1
    ensures RatingsPage(users, ratings, storeId, q).Ok?
    ensures i < |RatingsPage(users, ratings, storeId, q).body.items| ==>
              exists k | 0 <= k < |ratings| ::
                ratings[k].storeId == storeId
                && ratings[k].id == RatingsPage(users, ratings, storeId, q).body.items[i].id
  {
    var own := RatingsOfStore(ratings, storeId);
    RatingsOfStoreMembers(ratings, storeId);
    var items := PageOf(own, q.page, q.limit);
    forall j | 0 <= j < |items| ensures HasUser(users, items[j].userId) {
      assert items[j] == own[Offset(q.page, q.limit) + j];
      assert items[j] in own;
      var k :| 0 <= k < |ratings| && ratings[k] == items[j];
    }
    if i < |items| {
      assert items[i] in own;
      var k :| 0 <= k < |ratings| && ratings[k] == items[i];
    }
  }
}

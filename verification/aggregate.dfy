/** The store average: the ratings of one store (`Rating.findAll({ where:
    { storeId } })`), their sum (the `reduce`), and the mean rounded to one
    decimal (`toFixed(1)`), kept in integer tenths. */
module Aggregate {
  import opened Common
  import opened Schema

  /** The rows of one store, in table order. */
  function RatingsOfStore(ratings: seq<Rating>, storeId: int): (rows: seq<Rating>)
    ensures |rows| <= |ratings|
    ensures forall i | 0 <= i < |rows| :: rows[i].storeId == storeId
  {
    if |ratings| == 0 then []
    else
      var rest := RatingsOfStore(ratings[..|ratings| - 1], storeId);
      var last := ratings[|ratings| - 1];
      if last.storeId == storeId then rest + [last] else rest
  }

  /** `rows.reduce((sum, r) => sum + r.rating, 0)`. */
  function Sum(rows: seq<Rating>): int {
    if |rows| == 0 then 0 else Sum(rows[..|rows| - 1]) + rows[|rows| - 1].rating
  }

  /** The rows of one store are exactly the table's rows with that store id. */
  lemma {:induction false} RatingsOfStoreMembers(ratings: seq<Rating>, storeId: int)
    ensures forall x :: x in RatingsOfStore(ratings, storeId) <==> x in ratings && x.storeId == storeId
  {
    if |ratings| > 0 {
      var n := |ratings|;
      RatingsOfStoreMembers(ratings[..n - 1], storeId);
      assert ratings == ratings[..n - 1] + [ratings[n - 1]];
    }
  }

  /** The positions of the table's rows that name the store. */
  function RowsNaming(ratings: seq<Rating>, storeId: int): set<nat> {
    set i: nat | i < |ratings| && ratings[i].storeId == storeId
  }

  /** The store's rows are as many as the table's rows naming it. */
  lemma {:induction false} RatingsOfStoreCount(ratings: seq<Rating>, storeId: int)
    ensures |RatingsOfStore(ratings, storeId)| == |RowsNaming(ratings, storeId)|
  {
    if |ratings| > 0 {
      var n := |ratings|;
      var prefix := ratings[..n - 1];
      RatingsOfStoreCount(prefix, storeId);
      var before := RowsNaming(prefix, storeId);
      if ratings[n - 1].storeId == storeId {
        assert RowsNaming(ratings, storeId) == before + {n - 1};
        assert n - 1 !in before;
      } else {
        assert RowsNaming(ratings, storeId) == before;
      }
    }
  }

  /** A store no rating names has no rows, so its mean is 0. */
  lemma {:induction false} RatingsOfAbsentStore(ratings: seq<Rating>, storeId: int)
    requires forall i | 0 <= i < |ratings| :: ratings[i].storeId != storeId
    ensures RatingsOfStore(ratings, storeId) == [] && MeanTenths(ratings, storeId) == 0
  {
    if |ratings| > 0 {
      RatingsOfAbsentStore(ratings[..|ratings| - 1], storeId);
    }
  }

  /** The rating sum lies between the count and five times the count. */
  lemma {:induction false} SumBounds(rows: seq<Rating>)
    requires forall i | 0 <= i < |rows| :: ValidRating(rows[i])
    ensures |rows| <= Sum(rows) <= 5 * |rows|
  {
    if |rows| > 0 {
      SumBounds(rows[..|rows| - 1]);
    }
  }

  /** `(sum / count).toFixed(1)` in tenths, on exact arithmetic: the nearest
      whole number of tenths, halves rounded up. */
  function RoundTenths(sum: int, count: nat): (t: int)
    requires count > 0
    ensures 2 * count * t <= 20 * sum + count < 2 * count * t + 2 * count
  {
    (20 * sum + count) / (2 * count)
  }

  /** The average a store must show: the rounded mean of its ratings, or 0 when
      it has none. */
  function MeanTenths(ratings: seq<Rating>, storeId: int): int {
    var rows := RatingsOfStore(ratings, storeId);
    if |rows| == 0 then 0 else RoundTenths(Sum(rows), |rows|)
  }

  /** Rounding a mean of ratings in [1, 5] gives tenths in [10, 50]. */
  lemma RoundedMeanInRange(sum: int, count: nat)
    requires count > 0 && count <= sum <= 5 * count
    ensures 10 <= RoundTenths(sum, count) <= 50
  {
    var t := RoundTenths(sum, count);
    var c := 2 * count;
    assert c * t < c * 51;
    assert c * 9 < c * t;
    CancelFactor(c, t, 51);
    CancelFactor(c, 9, t);
  }

  /** With valid ratings, every store's average stays within [0, 5]; it is at
      least 1 once the store has a rating. */
  lemma MeanInRange(ratings: seq<Rating>, storeId: int)
    requires forall i | 0 <= i < |ratings| :: ValidRating(ratings[i])
    ensures 0 <= MeanTenths(ratings, storeId) <= 50
    ensures |RatingsOfStore(ratings, storeId)| > 0 ==> 10 <= MeanTenths(ratings, storeId)
  {
    var rows := RatingsOfStore(ratings, storeId);
    if |rows| > 0 {
      RatingsOfStoreMembers(ratings, storeId);
      forall i | 0 <= i < |rows| ensures ValidRating(rows[i]) {
        assert rows[i] in rows;
      }
      SumBounds(rows);
      RoundedMeanInRange(Sum(rows), |rows|);
    }
  }

  /** Appending a row of another store leaves a store's rows as they were. */
  lemma RatingsOfStoreAppend(ratings: seq<Rating>, x: Rating, storeId: int)
    ensures RatingsOfStore(ratings + [x], storeId) ==
            RatingsOfStore(ratings, storeId) + (if x.storeId == storeId then [x] else [])
  {
    assert (ratings + [x])[..|ratings|] == ratings;
  }

  /** Changing the value of one row keeps the rows of every other store. */
  lemma {:induction false} RatingsOfStoreUpdateOther(ratings: seq<Rating>, i: nat, v: int, storeId: int)
    requires i < |ratings| && ratings[i].storeId != storeId
    ensures RatingsOfStore(ratings[i := ratings[i].(rating := v)], storeId) == RatingsOfStore(ratings, storeId)
  {
    var n := |ratings|;
    var updated := ratings[i := ratings[i].(rating := v)];
    if i < n - 1 {
      assert updated[..n - 1] == ratings[..n - 1][i := ratings[i].(rating := v)];
      RatingsOfStoreUpdateOther(ratings[..n - 1], i, v, storeId);
    } else {
      assert updated[..n - 1] == ratings[..n - 1];
    }
  }

  /** Changing the value of one row of a store changes that store's sum by the
      difference and nothing else about its rows' count. */
  lemma {:induction false} RatingsOfStoreUpdateSame(ratings: seq<Rating>, i: nat, v: int)
    requires i < |ratings|
    ensures var s := ratings[i].storeId;
            var after := RatingsOfStore(ratings[i := ratings[i].(rating := v)], s);
            |after| == |RatingsOfStore(ratings, s)|
            && Sum(after) == Sum(RatingsOfStore(ratings, s)) - ratings[i].rating + v
  {
    var n := |ratings|;
    var s := ratings[i].storeId;
    var updated := ratings[i := ratings[i].(rating := v)];
    assert updated[n - 1] == if i == n - 1 then ratings[i].(rating := v) else ratings[n - 1];
    if i < n - 1 {
      assert updated[..n - 1] == ratings[..n - 1][i := ratings[i].(rating := v)];
      RatingsOfStoreUpdateSame(ratings[..n - 1], i, v);
    } else {
      assert updated[..n - 1] == ratings[..n - 1];
    }
  }
}

/** What every listing handler does after the query: keep the rows that match
    the search, cut out page `page` of `limit` rows at offset
    `(page - 1) * limit`, and report the match count and `Math.ceil(count / limit)`
    pages. The `ORDER BY` on the caller's `sortBy` happens before this and is
    not modelled: rows arrive in the order the database returns them. */
module Listing {
  import opened Common
  import opened Text

  datatype Page<T> = Page(items: seq<T>, totalCount: nat, currentPage: nat, totalPages: nat)

  /** The `iLike '%search%'` test of one column. */
  predicate Like(column: string, search: string) {
    ContainsFolded(column, search)
  }

  /** The `WHERE` clause a listing builds from its `search` parameter: with no
      search every row qualifies, otherwise a row qualifies when any of the
      searched columns contains the search text, ignoring case. */
  predicate Matches<T>(row: T, columns: T -> seq<string>, search: string) {
    search == "" || exists i | 0 <= i < |columns(row)| :: Like(columns(row)[i], search)
  }

  /** The rows that qualify, in their order. */
  function Search<T>(rows: seq<T>, columns: T -> seq<string>, search: string): (r: seq<T>)
    ensures |r| <= |rows|
    ensures forall i | 0 <= i < |r| :: Matches(r[i], columns, search)
  {
    if |rows| == 0 then []
    else
      var rest := Search(rows[..|rows| - 1], columns, search);
      if Matches(rows[|rows| - 1], columns, search) then rest + [rows[|rows| - 1]] else rest
  }

  /** The search drops exactly the rows that do not qualify. */
  lemma {:induction false} SearchMembers<T>(rows: seq<T>, columns: T -> seq<string>, search: string)
    ensures forall x :: x in Search(rows, columns, search) <==> x in rows && Matches(x, columns, search)
  {
    if |rows| > 0 {
      var n := |rows|;
      SearchMembers(rows[..n - 1], columns, search);
      assert rows == rows[..n - 1] + [rows[n - 1]];
    }
  }

  /** An empty search applies no filter. */
  lemma {:induction false} EmptySearchKeepsAll<T>(rows: seq<T>, columns: T -> seq<string>)
    ensures Search(rows, columns, "") == rows
  {
    if |rows| > 0 {
      var n := |rows|;
      EmptySearchKeepsAll(rows[..n - 1], columns);
      assert rows == rows[..n - 1] + [rows[n - 1]];
    }
  }

  /** `Math.ceil(count / limit)`. */
  function CeilDiv(count: nat, limit: nat): (r: nat)
    requires limit >= 1
    ensures count <= r * limit
    ensures r == 0 || (r - 1) * limit < count
  {
    (count + limit - 1) / limit
  }

  function Offset(page: nat, limit: nat): nat
    requires page >= 1
  {
    (page - 1) * limit
  }

  /** `LIMIT limit OFFSET (page - 1) * limit`. */
  function PageOf<T>(rows: seq<T>, page: nat, limit: nat): (r: seq<T>)
    requires page >= 1 && limit >= 1
    ensures |r| <= limit
    ensures Offset(page, limit) >= |rows| ==> |r| == 0
    ensures Offset(page, limit) < |rows| ==>
              |r| == if |rows| - Offset(page, limit) < limit then |rows| - Offset(page, limit) else limit
    ensures forall i | 0 <= i < |r| :: Offset(page, limit) + i < |rows| && r[i] == rows[Offset(page, limit) + i]
  {
    var offset := Offset(page, limit);
    if offset >= |rows| then []
    else if |rows| - offset < limit then rows[offset..]
    else rows[offset..offset + limit]
  }

  /** The listing reply. A page below 1 makes the offset negative, which the
      database refuses, so the handler answers 500. */
  function Paginate<T>(rows: seq<T>, page: nat, limit: nat): (r: Reply<Page<T>>)
    requires limit >= 1
    ensures page == 0 <==> r == Err(500, ServerError)
    ensures r.Ok? ==> r.status == 200 && r.body.totalCount == |rows| && r.body.currentPage == page
                      && r.body.totalPages == CeilDiv(|rows|, limit)
                      && r.body.items == PageOf(rows, page, limit)
  {
    if page == 0 then Err(500, ServerError)
    else Ok(200, Page(PageOf(rows, page, limit), |rows|, page, CeilDiv(|rows|, limit)))
  }

  lemma MulAtLeast(x: int, d: int)
    requires x >= 1 && d >= 1
    ensures x * d >= d
  {
    assert x * d == (x - 1) * d + d;
  }

  /** Writing `k` as `a * d + b` with `0 <= b < d` is unique. */
  lemma DivModUnique(k: int, d: int, a: int, b: int)
    requires d > 0 && 0 <= b < d && k == a * d + b
    ensures k / d == a && k % d == b
  {
    var q, m := k / d, k % d;
    assert (a - q) * d == m - b by {
      assert a * d + b == q * d + m;
      assert (a - q) * d == a * d - q * d;
    }
    if a > q {
      MulAtLeast(a - q, d);
    } else if a < q {
      MulAtLeast(q - a, d);
    }
  }

  /** The page that holds row `k` (counting from 0). */
  function RowPage(k: nat, limit: nat): (p: nat)
    requires limit >= 1
    ensures p >= 1
  {
    k / limit + 1
  }

  /** Every row is on exactly one page: row `k` is item `k % limit` of page
      `k / limit + 1`, which is within the reported page count. */
  lemma RowOnItsPage<T>(rows: seq<T>, limit: nat, k: nat)
    requires limit >= 1 && k < |rows|
    ensures var p := RowPage(k, limit);
            && p <= CeilDiv(|rows|, limit)
            && k % limit < |PageOf(rows, p, limit)|
            && PageOf(rows, p, limit)[k % limit] == rows[k]
  {
    var p, i, c := RowPage(k, limit), k % limit, CeilDiv(|rows|, limit);
    assert k == (p - 1) * limit + i;
    assert limit * (p - 1) < limit * c;
    CancelFactor(limit, p - 1, c);
    assert Offset(p, limit) == k - i;
  }

  /** No other page holds row `k`: item `i` of page `q` is row `k` only for
      `q = k / limit + 1` and `i = k % limit`. */
  lemma RowOnOnePage<T>(rows: seq<T>, limit: nat, k: nat, q: nat, i: nat)
    requires limit >= 1 && q >= 1 && i < |PageOf(rows, q, limit)| && Offset(q, limit) + i == k
    ensures q == RowPage(k, limit) && i == k % limit
  {
    DivModUnique(k, limit, q - 1, i);
  }

  /** Pages past the reported count are empty. */
  lemma PastLastPageEmpty<T>(rows: seq<T>, limit: nat, page: nat)
    requires limit >= 1 && page > CeilDiv(|rows|, limit)
    ensures PageOf(rows, page, limit) == []
  {
    var c := CeilDiv(|rows|, limit);
    assert (page - 1) * limit >= c * limit by {
      assert page - 1 >= c;
    }
  }

  /** 25 matches at 10 per page: three pages, of 10, 10 and 5 rows; page 4 is empty. */
  lemma TwentyFiveRows<T>(rows: seq<T>)
    requires |rows| == 25
    ensures CeilDiv(|rows|, 10) == 3
    ensures |PageOf(rows, 1, 10)| == 10 && |PageOf(rows, 2, 10)| == 10
    ensures |PageOf(rows, 3, 10)| == 5 && |PageOf(rows, 4, 10)| == 0
  {
  }

}

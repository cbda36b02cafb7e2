/**
 * The order listing: an optional status filter, a skip/take window of
 * `limit` rows starting at `(page - 1) * limit`, and the page metadata whose
 * `last_page` is the ceiling of the filtered total over `limit`.
 */
module Pagination {
  import opened OrderTypes

  datatype Meta = Meta(total: nat, page: int, lastPage: nat)

  datatype PageOf = PageOf(data: seq<OrderRow>, meta: Meta)

  /** A row passes the filter when no status is given or its status is it. */
  predicate MatchesFilter(row: OrderRow, status: Option<Status>)
  {
    status.None? || row.status == status.value
  }

  /** The rows that pass the filter, in their original order. */
  function FilterByStatus(rows: seq<OrderRow>, status: Option<Status>): (r: seq<OrderRow>)
    ensures |r| <= |rows|
    ensures forall k :: 0 <= k < |r| ==> MatchesFilter(r[k], status)
    ensures forall x :: x in r <==> x in rows && MatchesFilter(x, status)
    ensures status.None? ==> r == rows
  {
    if rows == [] then []
    else if MatchesFilter(rows[0], status) then [rows[0]] + FilterByStatus(rows[1..], status)
    else FilterByStatus(rows[1..], status)
  }

  /** Filtering distributes over concatenation: it keeps the relative order. */
  lemma {:induction false} FilterAppend(a: seq<OrderRow>, b: seq<OrderRow>, status: Option<Status>)
    ensures FilterByStatus(a + b, status) == FilterByStatus(a, status) + FilterByStatus(b, status)
  {
    if a == [] {
      assert a + b == b;
    } else {
      assert (a + b)[0] == a[0];
      assert (a + b)[1..] == a[1..] + b;
      FilterAppend(a[1..], b, status);
    }
  }

  /** `Math.ceil(total / limit)`: the number of pages of `limit` rows. */
  function LastPage(total: nat, limit: int): (r: nat)
    requires limit >= 1
    ensures total <= r * limit
    ensures r == 0 || (r - 1) * limit < total
  {
    var q := total / limit;
    assert total == q * limit + total % limit;
    if total % limit == 0 then q else q + 1
  }

  lemma MulMonotone(a: int, b: int, c: int)
    requires a <= b && c >= 0
    ensures a * c <= b * c
  {
    assert b * c - a * c == (b - a) * c;
  }

  /** The number of rows before page `page`: `(page - 1) * limit`. */
  function Skip(page: int, limit: int): nat
    requires page >= 1 && limit >= 1
  {
    MulMonotone(0, page - 1, limit);
    (page - 1) * limit
  }

  /** `skip` rows dropped, then at most `take` rows kept. */
  function Window<T>(s: seq<T>, skip: nat, take: nat): (r: seq<T>)
    ensures |r| <= take
    ensures r == [] <==> skip >= |s| || take == 0
    ensures r != [] ==> |r| == take || skip + |r| == |s|
    ensures forall k :: 0 <= k < |r| ==> skip + k < |s| && r[k] == s[skip + k]
  {
    if skip >= |s| then []
    else if skip + take <= |s| then s[skip..skip + take]
    else s[skip..]
  }

  /** A page has rows exactly when it is at most the last page. */
  lemma PageInRange(total: nat, page: int, limit: int)
    requires page >= 1 && limit >= 1
    ensures Skip(page, limit) < total <==> page <= LastPage(total, limit)
  {
    var last := LastPage(total, limit);
    if page <= last {
      MulMonotone(page - 1, last - 1, limit);
    } else {
      MulMonotone(last, page - 1, limit);
    }
  }

  /** The rows of pages 1 to n, in page order. */
  function Pages<T>(s: seq<T>, limit: int, n: nat): seq<T>
    requires limit >= 1
  {
    if n == 0 then [] else Pages(s, limit, n - 1) + Window(s, Skip(n, limit), limit)
  }

  /** Page 1 starts at the first row, and each page starts `limit` rows
      after the one before it. */
  lemma SkipNext(page: int, limit: int)
    requires page >= 1 && limit >= 1
    ensures Skip(1, limit) == 0
    ensures Skip(page + 1, limit) == Skip(page, limit) + limit
  {
  }

  /** Pages 1 to n hold the first `n * limit` rows, or all of them. */
  lemma {:induction false} PagesArePrefix<T>(s: seq<T>, limit: int, n: nat)
    requires limit >= 1
    ensures Skip(n + 1, limit) <= |s| ==> Pages(s, limit, n) == s[..Skip(n + 1, limit)]
    ensures Skip(n + 1, limit) > |s| ==> Pages(s, limit, n) == s
  {
    if n > 0 {
      PagesArePrefix(s, limit, n - 1);
      var skip := Skip(n, limit);
      SkipNext(n, limit);
      var w := Window(s, skip, limit);
      var before := Pages(s, limit, n - 1);
      assert Pages(s, limit, n) == before + w;
      if skip >= |s| {
        assert before == s by {
          if skip == |s| { assert s[..skip] == s; }
        }
        assert w == [];
        assert Pages(s, limit, n) == s;
      } else if skip + limit <= |s| {
        assert before == s[..skip];
        assert w == s[skip..skip + limit];
        assert s[..skip] + s[skip..skip + limit] == s[..skip + limit];
      } else {
        assert before == s[..skip];
        assert w == s[skip..];
        assert s[..skip] + s[skip..] == s;
      }
    }
  }

  /** Pages 1 to `last_page` together list every row exactly once, in order. */
  lemma PagesCoverAll<T>(s: seq<T>, limit: int)
    requires limit >= 1
    ensures Pages(s, limit, LastPage(|s|, limit)) == s
  {
    var last := LastPage(|s|, limit);
    PagesArePrefix(s, limit, last);
    assert Skip(last + 1, limit) == last * limit;
    if last * limit <= |s| {
      assert s[..last * limit] == s;
    }
  }

  /** The listing of `rows` for one page request. */
  function Paginate(rows: seq<OrderRow>, status: Option<Status>, page: int, limit: int): (r: PageOf)
    requires page >= 1 && limit >= 1
    ensures r.meta.total == |FilterByStatus(rows, status)| && r.meta.page == page
    ensures r.meta.lastPage == LastPage(r.meta.total, limit)
    ensures |r.data| <= limit
    ensures r.data != [] ==> |r.data| == limit || Skip(page, limit) + |r.data| == r.meta.total
    ensures forall k :: 0 <= k < |r.data| ==> MatchesFilter(r.data[k], status)
    ensures r.data == [] <==> page > r.meta.lastPage
    ensures forall k :: 0 <= k < |r.data| ==>
      Skip(page, limit) + k < r.meta.total && r.data[k] == FilterByStatus(rows, status)[Skip(page, limit) + k]
  {
    var matching := FilterByStatus(rows, status);
    var data := Window(matching, Skip(page, limit), limit);
    PageInRange(|matching|, page, limit);
    PageOf(data, Meta(|matching|, page, LastPage(|matching|, limit)))
  }

  /** 25 matching rows, 10 per page: 3 pages, and page 4 is empty. */
  lemma TwentyFiveRowsExample(rows: seq<OrderRow>)
    requires |rows| == 25
    ensures Paginate(rows, None, 1, 10).meta.lastPage == 3
    ensures Paginate(rows, None, 3, 10).data == rows[20..]
    ensures Paginate(rows, None, 4, 10).data == [] && Paginate(rows, None, 4, 10).meta.total == 25
  {
    var last := Paginate(rows, None, 3, 10).data;
    assert |last| == 5;
    assert last == rows[20..];
  }
}

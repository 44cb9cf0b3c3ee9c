/** Listing transactions page by page, newest first, after a cursor. */
module Pagination {
  import opened Prelude
  import opened Chart
  import opened Rows
  import opened Database
  import opened Invariant
  import opened Runs
  import opened Evolution
  import opened Service

  const DEFAULT_LIMIT: nat := 20

  datatype Filters = Filters(merchant: Option<string>, status: Option<Status>, provider: Option<Provider>,
                             dateFrom: Option<int>, dateTo: Option<int>)

  datatype Cursor = Cursor(createdAt: int, uuid: nat)

  datatype Page = Page(data: seq<Txn>, next: Option<Cursor>)

  predicate Matches(f: Filters, t: Txn) {
    && (f.merchant.Some? ==> t.merchant == f.merchant.value)
    && (f.status.Some? ==> t.status == f.status.value)
    && (f.provider.Some? ==> t.provider == f.provider.value)
    && (f.dateFrom.Some? ==> t.createdAt >= f.dateFrom.value)
    && (f.dateTo.Some? ==> t.createdAt <= f.dateTo.value)
  }

  function CursorOf(t: Txn): Cursor {
    Cursor(t.createdAt, t.uuid)
  }

  /** Strictly after the cursor in the order (createdAt DESC, id DESC). */
  predicate After(c: Option<Cursor>, t: Txn) {
    c.None? || t.createdAt < c.value.createdAt || (t.createdAt == c.value.createdAt && t.uuid < c.value.uuid)
  }

  predicate Wanted(f: Filters, c: Option<Cursor>, t: Txn) {
    Matches(f, t) && After(c, t)
  }

  /** The first wanted row in listing order. */
  function Top(rows: seq<Txn>, f: Filters, c: Option<Cursor>): (r: Option<Txn>)
    ensures r.None? ==> forall k :: 0 <= k < |rows| ==> !Wanted(f, c, rows[k])
    ensures r.Some? ==> Wanted(f, c, r.value) && r.value in rows
    ensures r.Some? ==> forall k :: 0 <= k < |rows| && Wanted(f, c, rows[k]) ==> !After(Some(CursorOf(rows[k])), r.value)
  {
    if rows == [] then None
    else
      var last, rest := rows[|rows| - 1], Top(rows[..|rows| - 1], f, c);
      if Wanted(f, c, last) && (rest.None? || After(Some(CursorOf(last)), rest.value)) then Some(last) else rest
  }

  /** The query: WHERE wanted ORDER BY created_at DESC, id DESC LIMIT take. */
  function Query(rows: seq<Txn>, f: Filters, c: Option<Cursor>, take: nat): seq<Txn>
    decreases take
  {
    if take == 0 then []
    else match Top(rows, f, c)
      case None => []
      case Some(t) => [t] + Query(rows, f, Some(CursorOf(t)), take - 1)
  }

  /** One row more than the page is asked for: if it exists, there is a next page. */
  function PageOf(rows: seq<Txn>, f: Filters, c: Option<Cursor>, limit: nat): Page {
    var found := Query(rows, f, c, limit + 1);
    if |found| > limit && limit > 0 then Page(found[..limit], Some(CursorOf(found[limit - 1])))
    else Page(if |found| > limit then found[..limit] else found, None)
  }

  // ---------------------------------------------------------------------------------------------
  // What the query returns
  // ---------------------------------------------------------------------------------------------

  ghost predicate UniqueIds(rows: seq<Txn>) {
    forall j, k :: 0 <= j < k < |rows| ==> rows[j].uuid != rows[k].uuid
  }

  // The predicates below say, field by field, what a client asks for and the order it is promised; the query does not
  // use them.

  ghost predicate Requested(f: Filters, t: Txn) {
    && (f.merchant == None || f.merchant == Some(t.merchant))
    && (f.status == None || f.status == Some(t.status))
    && (f.provider == None || f.provider == Some(t.provider))
    && (f.dateFrom == None || f.dateFrom.value <= t.createdAt)
    && (f.dateTo == None || t.createdAt <= f.dateTo.value)
  }

  /** Older than the cursor, or as old with a smaller id. */
  ghost predicate IsPast(c: Option<Cursor>, t: Txn) {
    c == None || c.value.createdAt > t.createdAt || (c.value.createdAt == t.createdAt && c.value.uuid > t.uuid)
  }

  ghost predicate Asked(f: Filters, c: Option<Cursor>, t: Txn) {
    Requested(f, t) && IsPast(c, t)
  }

  /** Newest first; rows created at the same instant by decreasing id. */
  ghost predicate Descending(list: seq<Txn>) {
    forall j, k :: 0 <= j < k < |list| ==>
      list[j].createdAt > list[k].createdAt || (list[j].createdAt == list[k].createdAt && list[j].uuid > list[k].uuid)
  }

  function CursorAfter(c: Option<Cursor>, list: seq<Txn>): Option<Cursor> {
    if list == [] then c else Some(CursorOf(list[|list| - 1]))
  }

  lemma {:induction false} QueryIsSound(rows: seq<Txn>, f: Filters, c: Option<Cursor>, take: nat)
    ensures var found := Query(rows, f, c, take);
            && |found| <= take && Descending(found)
            && forall k :: 0 <= k < |found| ==> found[k] in rows && Asked(f, c, found[k])
    decreases take
  {
    if take > 0 && Top(rows, f, c).Some? {
      var t := Top(rows, f, c).value;
      QueryIsSound(rows, f, Some(CursorOf(t)), take - 1);
    }
  }

  /** A wanted row is returned, or the query is full and the row comes after everything it returns. */
  lemma {:induction false} QueryCovers(rows: seq<Txn>, f: Filters, c: Option<Cursor>, take: nat, k: nat)
    requires UniqueIds(rows) && k < |rows| && Asked(f, c, rows[k])
    ensures var found := Query(rows, f, c, take);
            rows[k] in found || (|found| == take && IsPast(CursorAfter(c, found), rows[k]))
    decreases take
  {
    if take > 0 {
      var t := Top(rows, f, c).value;
      if rows[k] != t {
        var j :| 0 <= j < |rows| && rows[j] == t;
        assert rows[j].uuid != rows[k].uuid by {
          assert j != k;
        }
        QueryCovers(rows, f, Some(CursorOf(t)), take - 1, k);
      }
    }
  }

  lemma AskedIsWanted(f: Filters, c: Option<Cursor>, t: Txn)
    ensures Asked(f, c, t) <==> Wanted(f, c, t)
  {
  }

  ghost function WantedRows(rows: seq<Txn>, f: Filters, c: Option<Cursor>): set<nat> {
    set k | 0 <= k < |rows| && Asked(f, c, rows[k])
  }

  lemma TopTakesOne(rows: seq<Txn>, f: Filters, c: Option<Cursor>)
    requires UniqueIds(rows) && Top(rows, f, c).Some?
    ensures |WantedRows(rows, f, c)| == |WantedRows(rows, f, Some(CursorOf(Top(rows, f, c).value)))| + 1
  {
    var t := Top(rows, f, c).value;
    var j: nat :| j < |rows| && rows[j] == t;
    var wanted, below := WantedRows(rows, f, c), WantedRows(rows, f, Some(CursorOf(t)));
    forall k: nat | k < |rows|
      ensures k in wanted <==> k in below || k == j
    {
      AskedIsWanted(f, c, rows[k]);
      AskedIsWanted(f, Some(CursorOf(t)), rows[k]);
      assert k != j ==> rows[k].uuid != rows[j].uuid;
    }
    assert wanted == below + {j} && j !in below;
  }

  lemma {:induction false} QuerySize(rows: seq<Txn>, f: Filters, c: Option<Cursor>, take: nat)
    requires UniqueIds(rows)
    ensures var n := |WantedRows(rows, f, c)|;
            |Query(rows, f, c, take)| == if take <= n then take else n
    decreases take
  {
    if Top(rows, f, c).None? {
      assert WantedRows(rows, f, c) == {};
    } else if take > 0 {
      TopTakesOne(rows, f, c);
      QuerySize(rows, f, Some(CursorOf(Top(rows, f, c).value)), take - 1);
    }
  }

  lemma {:induction false} QueryConcat(rows: seq<Txn>, f: Filters, c: Option<Cursor>, first: nat, second: nat)
    ensures var a := Query(rows, f, c, first);
            Query(rows, f, c, first + second) == a + Query(rows, f, CursorAfter(c, a), if |a| == first then second else 0)
    decreases first
  {
    var a := Query(rows, f, c, first);
    if first == 0 || Top(rows, f, c).None? {
      assert Query(rows, f, c, first + second) == [] + Query(rows, f, c, if first == 0 then second else 0);
    } else {
      var t := Top(rows, f, c).value;
      var c' := Some(CursorOf(t));
      QueryConcat(rows, f, c', first - 1, second);
      var rest := Query(rows, f, c', first - 1);
      assert a == [t] + rest && CursorAfter(c, a) == CursorAfter(c', rest);
      var more := Query(rows, f, CursorAfter(c', rest), if |rest| == first - 1 then second else 0);
      assert [t] + (rest + more) == a + more;
    }
  }

  // ---------------------------------------------------------------------------------------------
  // One page
  // ---------------------------------------------------------------------------------------------

  /** A page holds wanted rows only, newest first, at most `limit` of them; if there is a next page, its cursor is that of
      the last row. */
  lemma PageIsSound(rows: seq<Txn>, f: Filters, c: Option<Cursor>, limit: nat)
    requires limit > 0
    ensures var page := PageOf(rows, f, c, limit);
            && |page.data| <= limit && Descending(page.data)
            && (forall k :: 0 <= k < |page.data| ==> page.data[k] in rows && Asked(f, c, page.data[k]))
            && (page.next.Some? ==> |page.data| == limit && page.next == CursorAfter(c, page.data))
  {
    QueryIsSound(rows, f, c, limit + 1);
  }

  /** The extra row that is asked for is never on the page. */
  lemma PageData(rows: seq<Txn>, f: Filters, c: Option<Cursor>, limit: nat)
    requires limit > 0
    ensures PageOf(rows, f, c, limit).data == Query(rows, f, c, limit)
  {
    var a := Query(rows, f, c, limit);
    QueryIsSound(rows, f, c, limit);
    QueryConcat(rows, f, c, limit, 1);
    assert Query(rows, f, c, limit + 1)[..|a|] == a;
  }

  /** A page misses no wanted row: each is on the page or after its next cursor. */
  lemma PageCovers(rows: seq<Txn>, f: Filters, c: Option<Cursor>, limit: nat, k: nat)
    requires limit > 0 && UniqueIds(rows) && k < |rows| && Asked(f, c, rows[k])
    ensures var page := PageOf(rows, f, c, limit);
            rows[k] in page.data || (page.next.Some? && IsPast(page.next, rows[k]))
  {
    var data := Query(rows, f, c, limit);
    PageData(rows, f, c, limit);
    QueryCovers(rows, f, c, limit, k);
    if rows[k] !in data {
      AskedIsWanted(f, CursorAfter(c, data), rows[k]);
      assert |Query(rows, f, CursorAfter(c, data), 1)| == 1;
      QueryConcat(rows, f, c, limit, 1);
    }
  }

  /** There is a next page exactly when more wanted rows exist than the page holds. */
  lemma NextPageIff(rows: seq<Txn>, f: Filters, c: Option<Cursor>, limit: nat)
    requires limit > 0 && UniqueIds(rows)
    ensures PageOf(rows, f, c, limit).next.Some? <==> |WantedRows(rows, f, c)| > limit
    ensures PageOf(rows, f, c, limit).data == Query(rows, f, c, limit)
  {
    QuerySize(rows, f, c, limit + 1);
    PageData(rows, f, c, limit);
  }

  /** What a page is, field by field: requested rows after the cursor, newest first, no more than asked for; each such row
      is on the page or after the next cursor; there is a next cursor exactly when a row is missing, and it is that of the
      last row. */
  ghost predicate IsPageOf(rows: seq<Txn>, f: Filters, c: Option<Cursor>, limit: nat, page: Page) {
    && |page.data| <= limit && Descending(page.data)
    && (forall j :: 0 <= j < |page.data| ==> page.data[j] in rows && Asked(f, c, page.data[j]))
    && (forall k :: 0 <= k < |rows| && Asked(f, c, rows[k]) && rows[k] !in page.data ==> page.next.Some? && IsPast(page.next, rows[k]))
    && (page.next.Some? <==> exists k :: 0 <= k < |rows| && Asked(f, c, rows[k]) && rows[k] !in page.data)
    && (page.next.Some? ==>
          && limit > 0 && |page.data| == limit
          && page.next.value.createdAt == page.data[limit - 1].createdAt && page.next.value.uuid == page.data[limit - 1].uuid)
  }

  lemma PageIsAPage(rows: seq<Txn>, f: Filters, c: Option<Cursor>, limit: nat)
    requires limit > 0 && UniqueIds(rows)
    ensures IsPageOf(rows, f, c, limit, PageOf(rows, f, c, limit))
  {
    var page := PageOf(rows, f, c, limit);
    PageIsSound(rows, f, c, limit);
    forall k: nat | k < |rows| && Asked(f, c, rows[k]) && rows[k] !in page.data
      ensures page.next.Some? && IsPast(page.next, rows[k])
    {
      PageCovers(rows, f, c, limit, k);
    }
    if page.next.Some? {
      var found := Query(rows, f, c, limit + 1);
      QueryIsSound(rows, f, c, limit + 1);
      var k: nat :| k < |rows| && rows[k] == found[limit];
      assert Asked(f, c, rows[k]) && rows[k] !in page.data;
    }
  }

  /** The query and the slice of list. */
  method Fetch(ledger: Ledger, f: Filters, cursor: Option<Cursor>, size: nat) returns (page: Page)
    ensures page == PageOf(ledger.txns, f, cursor, size)
  {
    var rows := Query(ledger.txns, f, cursor, size + 1);
    var hasMore := |rows| > size;
    var data := if hasMore then rows[..size] else rows;
    var next := if hasMore && data != [] then Some(CursorOf(data[|data| - 1])) else None;
    page := Page(data, next);
  }

  /** TransactionsService.list. */
  method List(ledger: Ledger, f: Filters, cursor: Option<Cursor>, limit: Option<nat>) returns (page: Page)
    ensures page == PageOf(ledger.txns, f, cursor, if limit.Some? then limit.value else DEFAULT_LIMIT)
    ensures limit != Some(0) && UniqueIds(ledger.txns) ==>
              IsPageOf(ledger.txns, f, cursor, if limit.Some? then limit.value else 20, page)
    ensures limit == Some(0) ==> page == Page([], None)
  {
    var size := if limit.Some? then limit.value else DEFAULT_LIMIT;
    if limit != Some(0) && UniqueIds(ledger.txns) {
      PageIsAPage(ledger.txns, f, cursor, size);
    }
    page := Fetch(ledger, f, cursor, size);
  }

  // ---------------------------------------------------------------------------------------------
  // Following the cursor on a fixed table
  // ---------------------------------------------------------------------------------------------

  /** What is left after the first rows of the listing. */
  lemma RowsBelow(rows: seq<Txn>, f: Filters, done: nat)
    requires UniqueIds(rows) && 0 < done == |Query(rows, f, None, done)|
    ensures |WantedRows(rows, f, CursorAfter(None, Query(rows, f, None, done)))| == |WantedRows(rows, f, None)| - done
  {
    var n := |WantedRows(rows, f, None)|;
    var c := CursorAfter(None, Query(rows, f, None, done));
    var m := |WantedRows(rows, f, c)|;
    QuerySize(rows, f, None, done + n + m);
    QueryConcat(rows, f, None, done, n + m);
    QuerySize(rows, f, c, n + m);
    QuerySize(rows, f, None, done);
  }

  /** What one more page adds to the first `done` rows of the listing. */
  lemma OneMorePage(rows: seq<Txn>, f: Filters, done: nat, limit: nat)
    requires UniqueIds(rows) && limit > 0 && done < |WantedRows(rows, f, None)|
    ensures var n, all := |WantedRows(rows, f, None)|, Query(rows, f, None, done);
            var page := PageOf(rows, f, CursorAfter(None, all), limit);
            && |all| == done
            && all + page.data == Query(rows, f, None, done + limit)
            && (page.next.Some? <==> n > done + limit)
            && (page.next.Some? ==> page.next == CursorAfter(None, all + page.data))
  {
    var all := Query(rows, f, None, done);
    var c := CursorAfter(None, all);
    QuerySize(rows, f, None, done);
    if done > 0 {
      RowsBelow(rows, f, done);
    }
    NextPageIff(rows, f, c, limit);
    QueryConcat(rows, f, None, done, limit);
    PageIsSound(rows, f, c, limit);
  }

  lemma IdsAreUnique(db: Db)
    requires NoClashes(db)
    ensures UniqueIds(db.txns)
  {
  }

  lemma NothingIsCutOff(rows: seq<Txn>, f: Filters, take: nat, k: nat)
    requires UniqueIds(rows) && |WantedRows(rows, f, None)| <= take && k < |rows| && Requested(f, rows[k])
    ensures rows[k] in Query(rows, f, None, take)
  {
    var c := CursorAfter(None, Query(rows, f, None, take));
    QueryCovers(rows, f, None, take, k);
    QueryConcat(rows, f, None, take, 1);
    QuerySize(rows, f, None, take);
    QuerySize(rows, f, None, take + 1);
    QuerySize(rows, f, c, 1);
    assert IsPast(c, rows[k]) ==> k in WantedRows(rows, f, c);
  }

  /** A query that is not cut short returns exactly the matching rows, each once. */
  lemma AllIsComplete(rows: seq<Txn>, f: Filters, take: nat)
    requires UniqueIds(rows) && |WantedRows(rows, f, None)| <= take
    ensures var all := Query(rows, f, None, take);
            && Descending(all) && UniqueIds(all) && |all| == |WantedRows(rows, f, None)|
            && forall t :: t in all <==> t in rows && Requested(f, t)
  {
    var all := Query(rows, f, None, take);
    QueryIsSound(rows, f, None, take);
    QuerySize(rows, f, None, take);
    forall t | t in rows && Requested(f, t)
      ensures t in all
    {
      var k: nat :| k < |rows| && rows[k] == t;
      NothingIsCutOff(rows, f, take, k);
    }
    forall j, k | 0 <= j < k < |all|
      ensures all[j].uuid != all[k].uuid
    {
      assert all[j] in rows && all[k] in rows && IsPast(Some(CursorOf(all[j])), all[k]);
    }
  }

  /** The first page, and every next one, of a listing. */
  lemma FirstPage(rows: seq<Txn>, f: Filters, limit: nat)
    requires UniqueIds(rows) && limit > 0
    ensures var page := PageOf(rows, f, None, limit);
            && page.data == Query(rows, f, None, limit)
            && (page.next.Some? <==> |WantedRows(rows, f, None)| > limit)
            && (page.next.Some? ==> page.next == CursorAfter(None, page.data))
  {
    NextPageIff(rows, f, None, limit);
    PageIsSound(rows, f, None, limit);
  }

  lemma QuotientIs(x: nat, d: nat, q: nat)
    requires d > 0 && d * q <= x < d * q + d
    ensures x / d == q
  {
    var p := x / d;
    assert x == d * p + x % d;
    if p < q {
      Scale(d, p + 1, q);
    } else if q < p {
      Scale(d, q + 1, p);
    }
  }

  lemma Scale(d: nat, a: nat, b: nat)
    requires a <= b
    ensures d * a <= d * b
  {
  }

  lemma PagesNeeded(n: nat, limit: nat, pages: nat)
    requires limit > 0 && pages > 0 && n <= limit * pages && (limit * pages - limit < n || pages == 1)
    ensures pages == if n == 0 then 1 else (n + limit - 1) / limit
  {
    if n == 0 {
      if pages > 1 {
        Scale(limit, 1, pages);
      }
    } else {
      QuotientIs(n + limit - 1, limit, pages);
    }
  }

  /** After some pages: the rows listed so far, and the cursor that continues them. */
  ghost predicate Listed(rows: seq<Txn>, f: Filters, limit: nat, all: seq<Txn>, pages: nat, next: Option<Cursor>) {
    var n, done := |WantedRows(rows, f, None)|, limit * pages;
    && pages > 0
    && all == Query(rows, f, None, done)
    && (next.Some? <==> done < n)
    && (next.Some? ==> next == CursorAfter(None, all))
    && (done - limit < n || pages == 1)
  }

  lemma ListingStarts(db: Db, f: Filters, limit: nat)
    requires NoClashes(db) && limit > 0
    ensures var page := PageOf(db.txns, f, None, limit); Listed(db.txns, f, limit, page.data, 1, page.next)
  {
    IdsAreUnique(db);
    FirstPage(db.txns, f, limit);
    assert limit * 1 == limit;
  }

  lemma ListingAdvances(db: Db, f: Filters, limit: nat, all: seq<Txn>, pages: nat, next: Option<Cursor>)
    requires NoClashes(db) && limit > 0 && Listed(db.txns, f, limit, all, pages, next) && next.Some?
    ensures var page := PageOf(db.txns, f, next, limit); Listed(db.txns, f, limit, all + page.data, pages + 1, page.next)
    ensures limit * pages < limit * (pages + 1)
  {
    IdsAreUnique(db);
    OneMorePage(db.txns, f, limit * pages, limit);
    assert limit * (pages + 1) == limit * pages + limit;
  }

  lemma ListingEnds(db: Db, f: Filters, limit: nat, all: seq<Txn>, pages: nat)
    requires NoClashes(db) && limit > 0 && Listed(db.txns, f, limit, all, pages, None)
    ensures Descending(all) && UniqueIds(all)
    ensures forall t :: t in all <==> t in db.txns && Requested(f, t)
    ensures pages == if |all| == 0 then 1 else (|all| + limit - 1) / limit
  {
    IdsAreUnique(db);
    AllIsComplete(db.txns, f, limit * pages);
    PagesNeeded(|all|, limit, pages);
  }

  /** A client that follows nextCursor until it is null gets exactly the matching rows, newest first, each once, in
      max(1, ceil(n / limit)) pages. */
  method ListAll(ledger: Ledger, f: Filters, limit: nat) returns (all: seq<Txn>, pages: nat)
    requires limit > 0 && NoClashes(ledger.State())
    ensures Descending(all) && UniqueIds(all)
    ensures forall t :: t in all <==> t in ledger.txns && Requested(f, t)
    ensures pages == if |all| == 0 then 1 else (|all| + limit - 1) / limit
  {
    ghost var db := ledger.State();
    ListingStarts(db, f, limit);
    var page := List(ledger, f, None, Some(limit));
    all, pages := page.data, 1;
    while page.next.Some?
      invariant Listed(db.txns, f, limit, all, pages, page.next)
      decreases |WantedRows(db.txns, f, None)| - limit * pages
    {
      ListingAdvances(db, f, limit, all, pages, page.next);
      page := List(ledger, f, page.next, Some(limit));
      all := all + page.data;
      pages := pages + 1;
    }
    ListingEnds(db, f, limit, all, pages);
  }

  // ---------------------------------------------------------------------------------------------
  // Following the cursor while the table changes
  // ---------------------------------------------------------------------------------------------

  /** The committed tables at the moments the pages are read. */
  ghost predicate IsTimeline(dbs: seq<Db>) {
    && (forall p :: 0 <= p < |dbs| ==> NoClashes(dbs[p]))
    && forall p, q :: 0 <= p <= q < |dbs| ==> Evolves(dbs[p], dbs[q])
  }

  /** Any SQL transactions of the service may commit between two pages. */
  lemma {:induction false} RunsMakeATimeline(dbs: seq<Db>, runs: seq<seq<Event>>)
    requires dbs != [] && Inv(dbs[0]) && |runs| == |dbs| - 1
    requires forall p :: 0 <= p < |runs| ==> IsRun(dbs[p], runs[p]) && Run(dbs[p], runs[p]) == dbs[p + 1]
    ensures IsTimeline(dbs)
  {
    if |dbs| > 1 {
      RunKeepsInv(dbs[0], runs[0]);
      RunEvolves(dbs[0], runs[0]);
      RunsMakeATimeline(dbs[1..], runs[1..]);
      forall p, q | 0 <= p <= q < |dbs|
        ensures Evolves(dbs[p], dbs[q])
      {
        FromTheStart(dbs, p, q);
      }
      assert forall p :: 0 < p < |dbs| ==> dbs[p] == dbs[1..][p - 1];
    }
  }

  lemma FromTheStart(dbs: seq<Db>, p: nat, q: nat)
    requires p <= q < |dbs| && |dbs| > 1 && Evolves(dbs[0], dbs[1]) && IsTimeline(dbs[1..])
    ensures Evolves(dbs[p], dbs[q])
  {
    if p > 0 {
      assert dbs[p] == dbs[1..][p - 1] && dbs[q] == dbs[1..][q - 1];
    } else if q > 0 {
      assert dbs[1] == dbs[1..][0] && dbs[q] == dbs[1..][q - 1];
      EvolvesIsTransitive(dbs[0], dbs[1], dbs[q]);
    }
  }

  function CursorAt(pages: seq<Page>, p: nat): Option<Cursor>
    requires p <= |pages|
  {
    if p == 0 then None else pages[p - 1].next
  }

  /** Pages read one after the other, each at the next cursor of the one before, each on its own state of the table. */
  ghost predicate IsWalk(dbs: seq<Db>, f: Filters, limit: nat, pages: seq<Page>) {
    IsTimeline(dbs) && Follows(dbs, f, limit, pages)
  }

  ghost predicate Follows(dbs: seq<Db>, f: Filters, limit: nat, pages: seq<Page>) {
    && limit > 0 && |pages| == |dbs|
    && (forall p: nat :: p < |pages| ==> IsNextPage(dbs[p].txns, f, limit, pages, p))
  }

  /** Only the last page may have no next cursor. */
  ghost predicate IsNextPage(rows: seq<Txn>, f: Filters, limit: nat, pages: seq<Page>, p: nat)
    requires p < |pages|
  {
    pages[p] == PageOf(rows, f, CursorAt(pages, p), limit) && (p < |pages| - 1 ==> pages[p].next.Some?)
  }

  /** What comes after the next cursor of a page comes after the page's own cursor. */
  lemma CursorsDescend(rows: seq<Txn>, f: Filters, c: Option<Cursor>, limit: nat, t: Txn)
    requires limit > 0 && PageOf(rows, f, c, limit).next.Some? && IsPast(PageOf(rows, f, c, limit).next, t)
    ensures IsPast(c, t)
  {
    PageIsSound(rows, f, c, limit);
    assert Asked(f, c, PageOf(rows, f, c, limit).data[limit - 1]);
  }

  /** Every row of a later page comes after the cursor that ended an earlier one. */
  lemma {:induction false} LaterPagesComeAfter(dbs: seq<Db>, f: Filters, limit: nat, pages: seq<Page>, p: nat, q: nat, k: nat)
    requires Follows(dbs, f, limit, pages) && p < q < |pages| && k < |pages[q].data|
    ensures pages[p].next.Some? && IsPast(pages[p].next, pages[q].data[k])
    decreases q - p
  {
    assert IsNextPage(dbs[p].txns, f, limit, pages, p) && IsNextPage(dbs[q].txns, f, limit, pages, q);
    if p + 1 == q {
      PageIsSound(dbs[q].txns, f, CursorAt(pages, q), limit);
      assert Asked(f, CursorAt(pages, q), pages[q].data[k]);
    } else {
      LaterPagesComeAfter(dbs, f, limit, pages, p + 1, q, k);
      assert IsNextPage(dbs[p + 1].txns, f, limit, pages, p + 1);
      CursorsDescend(dbs[p + 1].txns, f, CursorAt(pages, p + 1), limit, pages[q].data[k]);
    }
  }

  /** Across all pages the listing keeps descending, whatever is inserted or updated between them. */
  lemma WalkDescends(dbs: seq<Db>, f: Filters, limit: nat, pages: seq<Page>, p: nat, j: nat, q: nat, k: nat)
    requires Follows(dbs, f, limit, pages) && p <= q < |pages| && j < |pages[p].data| && k < |pages[q].data|
    requires p < q || j < k
    ensures IsPast(Some(CursorOf(pages[p].data[j])), pages[q].data[k])
  {
    var data := pages[p].data;
    assert IsNextPage(dbs[p].txns, f, limit, pages, p);
    PageIsSound(dbs[p].txns, f, CursorAt(pages, p), limit);
    assert Descending(data);
    if p < q {
      LaterPagesComeAfter(dbs, f, limit, pages, p, q, k);
    }
  }

  lemma SameIdSameKey(earlier: Db, later: Db, a: Txn, b: Txn)
    requires NoClashes(later) && Evolves(earlier, later) && a in earlier.txns && b in later.txns && a.uuid == b.uuid
    ensures CursorOf(a) == CursorOf(b)
  {
  }

  /** No row is returned twice. */
  lemma NoRowTwice(dbs: seq<Db>, f: Filters, limit: nat, pages: seq<Page>, p: nat, j: nat, q: nat, k: nat)
    requires IsWalk(dbs, f, limit, pages) && p <= q < |pages| && j < |pages[p].data| && k < |pages[q].data|
    requires p < q || j < k
    ensures pages[p].data[j].uuid != pages[q].data[k].uuid
  {
    WalkDescends(dbs, f, limit, pages, p, j, q, k);
    assert IsNextPage(dbs[p].txns, f, limit, pages, p) && IsNextPage(dbs[q].txns, f, limit, pages, q);
    PageIsSound(dbs[p].txns, f, CursorAt(pages, p), limit);
    PageIsSound(dbs[q].txns, f, CursorAt(pages, q), limit);
    if pages[p].data[j].uuid == pages[q].data[k].uuid {
      SameIdSameKey(dbs[p], dbs[q], pages[p].data[j], pages[q].data[k]);
    }
  }

  ghost predicate MatchesThroughout(dbs: seq<Db>, f: Filters, i: nat) {
    forall p :: 0 <= p < |dbs| ==> i < |dbs[p].txns| && Requested(f, dbs[p].txns[i])
  }

  /** Searches the pages from p on for a row that is still to come. */
  lemma {:induction false} RowIsAhead(dbs: seq<Db>, f: Filters, limit: nat, pages: seq<Page>, i: nat, p: nat) returns (q: nat)
    requires IsWalk(dbs, f, limit, pages) && p < |pages| && pages[|pages| - 1].next.None?
    requires MatchesThroughout(dbs, f, i) && IsPast(CursorAt(pages, p), dbs[p].txns[i])
    ensures q < |pages| && dbs[q].txns[i] in pages[q].data
    decreases |pages| - p
  {
    IdsAreUnique(dbs[p]);
    assert IsNextPage(dbs[p].txns, f, limit, pages, p);
    PageCovers(dbs[p].txns, f, CursorAt(pages, p), limit, i);
    if dbs[p].txns[i] in pages[p].data {
      q := p;
    } else {
      assert p < |pages| - 1;
      assert Evolves(dbs[p], dbs[p + 1]);
      q := RowIsAhead(dbs, f, limit, pages, i, p + 1);
    }
  }

  /** Once the cursor is null, every row present at the start that matched the filters throughout has been returned; with
      filters on frozen fields only, matching at the start is enough. */
  lemma EveryRowIsReturned(dbs: seq<Db>, f: Filters, limit: nat, pages: seq<Page>, i: nat)
    requires IsWalk(dbs, f, limit, pages) && pages != [] && pages[|pages| - 1].next.None?
    requires i < |dbs[0].txns| && (MatchesThroughout(dbs, f, i) || (f.status.None? && Requested(f, dbs[0].txns[i])))
    ensures exists q :: 0 <= q < |pages| && dbs[q].txns[i] in pages[q].data
  {
    forall p | 0 <= p < |dbs|
      ensures i < |dbs[p].txns| && Requested(f, dbs[p].txns[i])
    {
      assert Evolves(dbs[0], dbs[p]);
    }
    var q := RowIsAhead(dbs, f, limit, pages, i, 0);
  }
}

/**
 Listing audit events page by page: the query that List builds, the page it returns, and
 walks that follow NextCursor, on a fixed table and on one that changes between requests.
 */
module ListWalk {
  import opened Prelude
  import opened Cursor

  datatype Row = Row(
    id: Bytes, createdAt: int, actor: string, action: string, targetType: string, targetID: string,
    scopeType: string, scopeID: string, body: Bytes)

  type Table = set<Row>

  datatype Filter = Filter(
    scopeType: string, scopeID: string, service: string, actor: string, action: string, targetType: string,
    targetID: string, requestID: string, since: Option<int>, until: Option<int>, limit: int)

  /** id is the primary key. */
  predicate Keyed(t: Table) {
    forall a, b :: a in t && b in t && a.id == b.id ==> a == b
  }

  /** The times of all rows can be written into a cursor. */
  predicate Dated(tt: TimeText, t: Table) {
    forall r :: r in t ==> Writable(tt, r.createdAt)
  }

  function Limit(f: Filter): (n: nat)
    ensures 1 <= n <= 100
    ensures n == if 1 <= f.limit <= 100 then f.limit else 50
  {
    if f.limit <= 0 || f.limit > 100 then 50 else f.limit
  }

  /** The WHERE clause without the cursor. The filter's Service and RequestID take no part in it. */
  predicate Matches(f: Filter, r: Row) {
    && (f.scopeType != "" ==> r.scopeType == f.scopeType)
    && (f.scopeID != "" ==> r.scopeID == f.scopeID)
    && (f.actor != "" ==> r.actor == f.actor)
    && (f.action != "" ==> r.action == f.action)
    && (f.targetType != "" ==> r.targetType == f.targetType)
    && (f.targetID != "" ==> r.targetID == f.targetID)
    && (f.since.Some? ==> r.createdAt >= f.since.value)
    && (f.until.Some? ==> r.createdAt <= f.until.value)
  }

  // ---------- Order ----------

  /** Byte-wise order of ids. */
  predicate Less(a: Bytes, b: Bytes) {
    b != [] && (a == [] || a[0] < b[0] || (a[0] == b[0] && Less(a[1..], b[1..])))
  }

  lemma {:induction false} LessIsTotal(a: Bytes, b: Bytes)
    ensures Less(a, b) || a == b || Less(b, a)
    ensures !(Less(a, b) && Less(b, a)) && !Less(a, a)
  {
    if a != [] && b != [] {
      LessIsTotal(a[1..], b[1..]);
      LessIsTotal(a[1..], a[1..]);
      assert a == [a[0]] + a[1..] && b == [b[0]] + b[1..];
    } else if a != [] {
      LessIsTotal(a[1..], a[1..]);
    }
  }

  /** The first byte where the two differ decides, and a proper prefix comes first. */
  predicate SmallerAt(a: Bytes, b: Bytes, n: int) {
    0 <= n <= |a| && n < |b| && a[..n] == b[..n] && (n == |a| || a[n] < b[n])
  }

  lemma {:induction false} LessIsLexicographic(a: Bytes, b: Bytes)
    ensures Less(a, b) <==> exists n :: SmallerAt(a, b, n)
  {
    if b != [] && (a == [] || a[0] < b[0]) {
      assert SmallerAt(a, b, 0);
    } else if b != [] && a[0] == b[0] {
      LessIsLexicographic(a[1..], b[1..]);
      if Less(a, b) {
        var n :| SmallerAt(a[1..], b[1..], n);
        assert a[..n + 1] == [a[0]] + a[1..][..n] && b[..n + 1] == [b[0]] + b[1..][..n];
        assert SmallerAt(a, b, n + 1);
      }
      if n :| SmallerAt(a, b, n) {
        assert n > 0 && a[1..][..n - 1] == a[..n][1..] && b[1..][..n - 1] == b[..n][1..];
        assert SmallerAt(a[1..], b[1..], n - 1);
      }
    } else {
      forall n ensures !SmallerAt(a, b, n) { LargerIsNotSmaller(a, b, n); }
    }
  }

  lemma LargerIsNotSmaller(a: Bytes, b: Bytes, n: int)
    requires b == [] || (a != [] && a[0] > b[0])
    ensures !SmallerAt(a, b, n)
  {
    if 0 < n <= |a| && n < |b| { assert a[..n][0] == a[0] && b[..n][0] == b[0]; }
  }

  lemma {:induction false} LessIsTransitive(a: Bytes, b: Bytes, c: Bytes)
    requires Less(a, b) && Less(b, c)
    ensures Less(a, c)
  {
    if a != [] && a[0] == b[0] == c[0] { LessIsTransitive(a[1..], b[1..], c[1..]); }
  }

  /** The row comes strictly after the position (t, id) in ORDER BY created_at DESC, id DESC. */
  predicate After(r: Row, t: int, id: Bytes) {
    r.createdAt < t || (r.createdAt == t && Less(r.id, id))
  }

  predicate Newer(a: Row, b: Row) {
    After(b, a.createdAt, a.id)
  }

  lemma AfterIsTransitive(r: Row, q: Row, t: int, id: Bytes)
    requires Newer(q, r) && After(q, t, id)
    ensures After(r, t, id)
  {
    if r.createdAt == q.createdAt == t { LessIsTransitive(r.id, q.id, id); }
  }

  lemma NewerIsTotal(a: Row, b: Row)
    ensures !(Newer(a, b) && Newer(b, a)) && !Newer(a, a)
    ensures Newer(a, b) || Newer(b, a) || (a.createdAt == b.createdAt && a.id == b.id)
  {
    LessIsTotal(a.id, b.id);
    LessIsTotal(a.id, a.id);
  }

  predicate IsNewest(s: Table, r: Row) {
    r in s && forall q :: q in s && q != r ==> Newer(r, q)
  }

  lemma {:induction false} NewestExists(s: Table)
    requires Keyed(s) && s != {}
    ensures exists r :: IsNewest(s, r)
    decreases |s|
  {
    var x :| x in s;
    if s == {x} {
      assert IsNewest(s, x);
    } else {
      var rest := s - {x};
      assert rest != {};
      NewestExists(rest);
      var y :| IsNewest(rest, y);
      NewerIsTotal(x, y);
      if Newer(y, x) {
        assert IsNewest(s, y);
      } else {
        forall q | q in s && q != x ensures Newer(x, q) {
          if q != y { AfterIsTransitive(q, y, x.createdAt, x.id); }
        }
        assert IsNewest(s, x);
      }
    }
  }

  lemma NewestIsUnique(s: Table, a: Row, b: Row)
    requires IsNewest(s, a) && IsNewest(s, b)
    ensures a == b
  {
    NewerIsTotal(a, b);
  }

  /** All rows of s in list order. */
  ghost function Listing(s: Table): seq<Row>
    requires Keyed(s)
  {
    if s == {} then []
    else
      NewestExists(s);
      var r :| IsNewest(s, r);
      [r] + Listing(s - {r})
  }

  ghost predicate Descending(rows: seq<Row>) {
    forall i, j :: 0 <= i < j < |rows| ==> Newer(rows[i], rows[j])
  }

  /** The listing is strictly ordered and holds exactly the rows of s. */
  lemma {:induction false} ListingIsSorted(s: Table)
    requires Keyed(s)
    ensures Descending(Listing(s)) && (forall r :: r in Listing(s) <==> r in s) && |Listing(s)| == |s|
    decreases |s|
  {
    if s != {} {
      var rows := Listing(s);
      var r := rows[0];
      assert IsNewest(s, r) && rows == [r] + Listing(s - {r});
      ListingIsSorted(s - {r});
    }
  }

  lemma TailMembers(rows: seq<Row>, r: Row)
    requires Descending(rows) && rows != []
    ensures r in rows[1..] <==> r in rows && r != rows[0]
  {
    NewerIsTotal(rows[0], rows[0]);
    if r in rows[1..] { var i :| 0 <= i < |rows| - 1 && rows[1..][i] == r; assert rows[i + 1] == r; }
    assert rows == [rows[0]] + rows[1..];
  }

  lemma FirstIsNewest(s: Table, rows: seq<Row>)
    requires Descending(rows) && rows != [] && forall r :: r in rows <==> r in s
    ensures IsNewest(s, rows[0])
  {
    assert rows[0] in rows;
    forall q | q in s && q != rows[0] ensures Newer(rows[0], q) { assert q in rows; }
  }

  lemma ListingStartsWithNewest(s: Table, r: Row)
    requires Keyed(s) && IsNewest(s, r)
    ensures Listing(s) == [r] + Listing(s - {r})
  {
    var head := Listing(s)[0];
    assert IsNewest(s, head) && Listing(s) == [head] + Listing(s - {head});
    NewestIsUnique(s, head, r);
  }

  /** There is only one such sequence. */
  lemma {:induction false} ListingIsUnique(s: Table, rows: seq<Row>)
    requires Keyed(s) && Descending(rows) && (forall r :: r in rows <==> r in s)
    ensures rows == Listing(s)
    decreases |s|
  {
    if rows == [] {
      assert forall r :: r in s ==> r in rows;
      assert s == {};
    } else {
      var first := rows[0];
      FirstIsNewest(s, rows);
      ListingStartsWithNewest(s, first);
      forall r ensures r in rows[1..] <==> r in s - {first} {
        TailMembers(rows, r);
        assert r in rows <==> r in s;
      }
      ListingIsUnique(s - {first}, rows[1..]);
    }
  }

  // ---------- One page ----------

  /** Where a cursor points; an absent or undecodable one points nowhere. */
  function Position(tt: TimeText, cursor: Bytes): Option<(int, Bytes)> {
    if cursor == [] then None else DecodeCursor(tt, cursor)
  }

  predicate Ahead(r: Row, at: Option<(int, Bytes)>) {
    at.None? || After(r, at.value.0, at.value.1)
  }

  /** The rows the query selects: filter and cursor predicate. */
  function Selected(table: Table, f: Filter, at: Option<(int, Bytes)>): Table {
    set r | r in table && Matches(f, r) && Ahead(r, at)
  }

  datatype Page = Page(events: seq<Row>, next: Bytes)

  /** The page cut from the selected rows in order. */
  function PageOf(tt: TimeText, rows: seq<Row>, limit: nat): Page
    requires limit > 0
  {
    if |rows| > limit then
      Page(rows[..limit], EncodeCursor(tt, rows[limit - 1].createdAt, rows[limit - 1].id))
    else Page(rows, [])
  }

  ghost function ListPage(tt: TimeText, table: Table, f: Filter, cursor: Bytes): Page
    requires Keyed(table)
  {
    PageOf(tt, Listing(Selected(table, f, Position(tt, cursor))), Limit(f))
  }

  /** The surplus row is enough to cut the right page. */
  lemma PageFromPrefix(tt: TimeText, all: seq<Row>, n: nat)
    requires n > 0
    ensures PageOf(tt, all[..Min(|all|, n + 1)], n) == PageOf(tt, all, n)
  {
    var rows := all[..Min(|all|, n + 1)];
    assert if |all| > n then rows[..n] == all[..n] else rows == all;
  }

  /**
   List: run the query for limit + 1 rows, scan them one by one, and use the surplus row only
   to learn that there is a next page. `result` is what the database returns for the query, or
   None if the query or the scan of a row fails, as it does for a cursor whose id is no UUID.
   */
  method List(tt: TimeText, table: Table, f: Filter, cursor: Bytes, result: Option<seq<Row>>) returns (page: Option<Page>)
    requires Keyed(table)
    requires result.Some? ==>
      var all := Listing(Selected(table, f, Position(tt, cursor))); result.value == all[..Min(|all|, Limit(f) + 1)]
    ensures page == if result.None? then None else Some(ListPage(tt, table, f, cursor))
  {
    if result.None? { return None; }
    PageFromPrefix(tt, Listing(Selected(table, f, Position(tt, cursor))), Limit(f));
    var limit := f.limit;
    if limit <= 0 || limit > 100 { limit := 50; }
    var scanned := Scan(tt, result.value, limit);
    return Some(scanned);
  }

  /** Scan the rows one by one and cut the surplus. */
  method Scan(tt: TimeText, rows: seq<Row>, limit: nat) returns (page: Page)
    requires limit > 0
    ensures page == PageOf(tt, rows, limit)
  {
    var events: seq<Row> := [];
    for i := 0 to |rows|
      invariant events == rows[..i]
    {
      events := events + [rows[i]];
    }
    if |events| <= limit { return Page(events, []); }
    events := events[..limit];
    var last := events[|events| - 1];
    return Page(events, EncodeCursor(tt, last.createdAt, last.id));
  }

  /** Service and RequestID are ignored, and a cursor that cannot be decoded silently restarts from the newest row. */
  lemma ListIgnores(tt: TimeText, table: Table, f: Filter, service: string, requestID: string, bad: Bytes)
    requires Keyed(table) && DecodeCursor(tt, bad).None?
    ensures ListPage(tt, table, f.(service := service, requestID := requestID), bad) == ListPage(tt, table, f, [])
  {
    assert Selected(table, f.(service := service, requestID := requestID), None) == Selected(table, f, None);
  }

  function PositionOf(r: Row): Option<(int, Bytes)> {
    Some((r.createdAt, r.id))
  }

  /** A page with a successor is full, and its cursor points at its last row. */
  lemma CutIsFull(tt: TimeText, rows: seq<Row>, n: nat)
    requires Lawful(tt) && n > 0 && forall r :: r in rows ==> Writable(tt, r.createdAt)
    ensures var p := PageOf(tt, rows, n);
      && (p.next == [] <==> |rows| <= n)
      && (p.next != [] ==> |p.events| == n && Position(tt, p.next) == PositionOf(p.events[n - 1]))
  {
    if |rows| > n { CursorRoundTrip(tt, rows[n - 1].createdAt, rows[n - 1].id); }
  }

  /** Every row is on the page or, if the page has a successor, ahead of its cursor. */
  lemma CutCovers(tt: TimeText, rows: seq<Row>, n: nat, r: Row)
    requires Descending(rows) && n > 0 && r in rows
    ensures var p := PageOf(tt, rows, n); r in p.events || (|rows| > n && Newer(p.events[n - 1], r))
  {
    var i :| 0 <= i < |rows| && rows[i] == r;
    if |rows| > n && i < n { assert rows[..n][i] == r; }
  }

  // ---------- Walking a table that changes between requests ----------

  function CursorAt(pages: seq<Page>, i: nat): Bytes
    requires i <= |pages|
  {
    if i == 0 then [] else pages[i - 1].next
  }

  /** Request i saw tables[i] and passed the cursor that request i - 1 returned. */
  ghost predicate IsRequest(tt: TimeText, tables: seq<Table>, f: Filter, pages: seq<Page>, i: nat)
    requires i < |pages| == |tables|
  {
    && Keyed(tables[i]) && Dated(tt, tables[i]) && pages[i] == ListPage(tt, tables[i], f, CursorAt(pages, i))
    && (i < |pages| - 1 ==> pages[i].next != [])
  }

  ghost predicate IsWalk(tt: TimeText, tables: seq<Table>, f: Filter, pages: seq<Page>) {
    && Lawful(tt) && |tables| == |pages|
    && forall i {:trigger IsRequest(tt, tables, f, pages, i)} :: 0 <= i < |tables| ==> IsRequest(tt, tables, f, pages, i)
  }

  predicate Finished(pages: seq<Page>) {
    pages != [] && pages[|pages| - 1].next == []
  }

  /** What request i returned, in terms of the rows it selected. */
  lemma PageFacts(tt: TimeText, tables: seq<Table>, f: Filter, pages: seq<Page>, i: nat)
    requires IsWalk(tt, tables, f, pages) && i < |pages|
    ensures Keyed(tables[i]) && Dated(tt, tables[i]) && (i < |pages| - 1 ==> pages[i].next != [])
    ensures var rows := Listing(Selected(tables[i], f, Position(tt, CursorAt(pages, i))));
      && pages[i] == PageOf(tt, rows, Limit(f)) && Descending(rows)
      && (forall r :: r in rows <==> r in tables[i] && Matches(f, r) && Ahead(r, Position(tt, CursorAt(pages, i))))
    ensures Descending(pages[i].events)
    ensures pages[i].next != [] ==>
      |pages[i].events| == Limit(f) && Position(tt, pages[i].next) == PositionOf(pages[i].events[Limit(f) - 1])
  {
    assert IsRequest(tt, tables, f, pages, i);
    var t := tables[i];
    var s := Selected(t, f, Position(tt, CursorAt(pages, i)));
    ListingIsSorted(s);
    CutIsFull(tt, Listing(s), Limit(f));
  }

  /** A request lists every row it selects, or leaves it ahead of the next cursor. */
  lemma RequestCovers(tt: TimeText, tables: seq<Table>, f: Filter, pages: seq<Page>, i: nat, r: Row)
    requires IsWalk(tt, tables, f, pages) && i < |pages|
    requires r in tables[i] && Matches(f, r) && Ahead(r, Position(tt, CursorAt(pages, i)))
    ensures r in pages[i].events || (pages[i].next != [] && Ahead(r, Position(tt, pages[i].next)))
  {
    PageFacts(tt, tables, f, pages, i);
    var rows := Listing(Selected(tables[i], f, Position(tt, CursorAt(pages, i))));
    CutCovers(tt, rows, Limit(f), r);
    CutIsFull(tt, rows, Limit(f));
  }

  predicate SeenBefore(pages: seq<Page>, i: nat, r: Row)
    requires i <= |pages|
  {
    exists k :: 0 <= k < i && r in pages[k].events
  }

  lemma SeenStays(pages: seq<Page>, i: nat, r: Row)
    requires i < |pages| && (SeenBefore(pages, i, r) || r in pages[i].events)
    ensures SeenBefore(pages, i + 1, r)
  {
  }

  /** Rows that every request could see are listed already, or the walk goes on and they are ahead of its cursor. */
  lemma {:induction false} SeenOrAhead(tt: TimeText, tables: seq<Table>, f: Filter, pages: seq<Page>, i: nat, r: Row)
    requires IsWalk(tt, tables, f, pages) && i <= |pages| && Matches(f, r)
    requires forall k :: 0 <= k < |tables| ==> r in tables[k]
    ensures SeenBefore(pages, i, r)
      || ((i == 0 || pages[i - 1].next != []) && Ahead(r, Position(tt, CursorAt(pages, i))))
  {
    if i > 0 {
      SeenOrAhead(tt, tables, f, pages, i - 1, r);
      if !SeenBefore(pages, i - 1, r) { RequestCovers(tt, tables, f, pages, i - 1, r); }
      if SeenBefore(pages, i - 1, r) || r in pages[i - 1].events { SeenStays(pages, i - 1, r); }
    }
  }

  lemma ListedRowsAreAhead(tt: TimeText, tables: seq<Table>, f: Filter, pages: seq<Page>, i: nat, r: Row)
    requires IsWalk(tt, tables, f, pages) && i < |pages| && r in pages[i].events
    ensures r in tables[i] && Matches(f, r) && Ahead(r, Position(tt, CursorAt(pages, i)))
  {
    PageFacts(tt, tables, f, pages, i);
    assert r in Listing(Selected(tables[i], f, Position(tt, CursorAt(pages, i))));
  }

  lemma PageIsDescending(tt: TimeText, tables: seq<Table>, f: Filter, pages: seq<Page>, i: nat)
    requires IsWalk(tt, tables, f, pages) && i < |pages|
    ensures Descending(pages[i].events)
  {
    PageFacts(tt, tables, f, pages, i);
  }

  lemma CursorPointsAtLast(tt: TimeText, tables: seq<Table>, f: Filter, pages: seq<Page>, i: nat)
    requires IsWalk(tt, tables, f, pages) && i < |pages| - 1
    ensures |pages[i].events| == Limit(f) && Position(tt, pages[i].next) == PositionOf(pages[i].events[Limit(f) - 1])
  {
    PageFacts(tt, tables, f, pages, i);
  }

  /** Later pages lie wholly behind the last row of every earlier page. */
  lemma {:induction false} LaterPagesAreOlder(tt: TimeText, tables: seq<Table>, f: Filter, pages: seq<Page>, i: nat, j: nat, r: Row)
    requires IsWalk(tt, tables, f, pages) && i < j < |pages| && r in pages[j].events
    ensures |pages[i].events| == Limit(f) && Newer(pages[i].events[Limit(f) - 1], r)
  {
    CursorPointsAtLast(tt, tables, f, pages, j - 1);
    ListedRowsAreAhead(tt, tables, f, pages, j, r);
    if i < j - 1 {
      var last := pages[j - 1].events[Limit(f) - 1];
      LaterPagesAreOlder(tt, tables, f, pages, i, j - 1, last);
      AfterIsTransitive(r, last, pages[i].events[Limit(f) - 1].createdAt, pages[i].events[Limit(f) - 1].id);
    }
  }

  lemma PagesAreOrdered(tt: TimeText, tables: seq<Table>, f: Filter, pages: seq<Page>, i: nat, j: nat, a: Row, b: Row)
    requires IsWalk(tt, tables, f, pages) && i < j < |pages| && a in pages[i].events && b in pages[j].events
    ensures Newer(a, b)
  {
    LaterPagesAreOlder(tt, tables, f, pages, i, j, b);
    PageIsDescending(tt, tables, f, pages, i);
    var last := pages[i].events[Limit(f) - 1];
    var k :| 0 <= k < |pages[i].events| && pages[i].events[k] == a;
    if k < Limit(f) - 1 { AfterIsTransitive(b, last, a.createdAt, a.id); }
  }

  function Flatten(pages: seq<Page>): seq<Row> {
    if pages == [] then [] else Flatten(pages[..|pages| - 1]) + pages[|pages| - 1].events
  }

  lemma {:induction false} FlattenMembers(pages: seq<Page>, r: Row)
    ensures r in Flatten(pages) <==> SeenBefore(pages, |pages|, r)
  {
    if pages != [] {
      var init := pages[..|pages| - 1];
      FlattenMembers(init, r);
      if SeenBefore(pages, |pages|, r) {
        var k :| 0 <= k < |pages| && r in pages[k].events;
        assert k < |init| ==> r in init[k].events;
      }
      if SeenBefore(init, |init|, r) {
        var k :| 0 <= k < |init| && r in init[k].events;
        assert r in pages[k].events;
      }
    }
  }

  lemma {:induction false} FlattenIsDescending(tt: TimeText, tables: seq<Table>, f: Filter, pages: seq<Page>, n: nat)
    requires IsWalk(tt, tables, f, pages) && n <= |pages|
    ensures Descending(Flatten(pages[..n]))
  {
    if n > 0 {
      FlattenIsDescending(tt, tables, f, pages, n - 1);
      assert pages[..n][..n - 1] == pages[..n - 1];
      PageIsDescending(tt, tables, f, pages, n - 1);
      var front, back := Flatten(pages[..n - 1]), pages[n - 1].events;
      forall a, b | a in front && b in back ensures Newer(a, b) {
        FlattenMembers(pages[..n - 1], a);
        var k :| 0 <= k < n - 1 && a in pages[..n - 1][k].events;
        PagesAreOrdered(tt, tables, f, pages, k, n - 1, a, b);
      }
      AppendDescending(front, back);
    }
  }

  lemma AppendDescending(a: seq<Row>, b: seq<Row>)
    requires Descending(a) && Descending(b) && forall x, y :: x in a && y in b ==> Newer(x, y)
    ensures Descending(a + b)
  {
    var c := a + b;
    forall i, j | 0 <= i < j < |c| ensures Newer(c[i], c[j]) {
      if i < |a| <= j { assert c[i] in a && c[j] in b; }
    }
  }

  /**
   A finished walk over a table that changes between requests: the pages together run strictly
   from newer to older, so nothing is listed twice, and every row that matches and is there for
   all requests is listed. Pages with a successor are exactly full.
   */
  lemma WalkListsTheStable(tt: TimeText, tables: seq<Table>, f: Filter, pages: seq<Page>)
    requires IsWalk(tt, tables, f, pages) && Finished(pages)
    ensures Descending(Flatten(pages))
    ensures forall r :: Matches(f, r) && (forall k :: 0 <= k < |tables| ==> r in tables[k]) ==> r in Flatten(pages)
    ensures forall r :: r in Flatten(pages) ==> Matches(f, r) && exists k :: 0 <= k < |tables| && r in tables[k]
    ensures forall i :: 0 <= i < |pages| - 1 ==> |pages[i].events| == Limit(f)
  {
    FlattenIsDescending(tt, tables, f, pages, |pages|);
    assert pages[..|pages|] == pages;
    forall r | Matches(f, r) && (forall k :: 0 <= k < |tables| ==> r in tables[k]) ensures r in Flatten(pages) {
      SeenOrAhead(tt, tables, f, pages, |pages|, r);
      FlattenMembers(pages, r);
    }
    forall r | r in Flatten(pages) ensures Matches(f, r) && exists k :: 0 <= k < |tables| && r in tables[k] {
      ListedRowsExist(tt, tables, f, pages, r);
    }
    forall i | 0 <= i < |pages| - 1 ensures |pages[i].events| == Limit(f) { CursorPointsAtLast(tt, tables, f, pages, i); }
  }

  lemma ListedRowsExist(tt: TimeText, tables: seq<Table>, f: Filter, pages: seq<Page>, r: Row)
    requires IsWalk(tt, tables, f, pages) && r in Flatten(pages)
    ensures Matches(f, r) && exists k :: 0 <= k < |tables| && r in tables[k]
  {
    FlattenMembers(pages, r);
    var k :| 0 <= k < |pages| && r in pages[k].events;
    ListedRowsAreAhead(tt, tables, f, pages, k, r);
  }

  // ---------- Walking a fixed table ----------

  function Same(table: Table, n: nat): seq<Table> {
    seq(n, _ => table)
  }

  function Matching(table: Table, f: Filter): Table {
    set r | r in table && Matches(f, r)
  }

  lemma FixedMembers(tt: TimeText, table: Table, f: Filter, pages: seq<Page>, r: Row)
    requires IsWalk(tt, Same(table, |pages|), f, pages) && Finished(pages)
    ensures r in Flatten(pages) <==> r in Matching(table, f)
  {
    var tables := Same(table, |pages|);
    WalkListsTheStable(tt, tables, f, pages);
    assert r in Matching(table, f) ==> forall k :: 0 <= k < |tables| ==> r in tables[k];
  }

  /** On a fixed table the pages of a finished walk are the sorted listing of the matching rows, cut up. */
  lemma WalkIsTheListing(tt: TimeText, table: Table, f: Filter, pages: seq<Page>)
    requires IsWalk(tt, Same(table, |pages|), f, pages) && Finished(pages) && Keyed(table)
    ensures Flatten(pages) == Listing(Matching(table, f))
  {
    WalkListsTheStable(tt, Same(table, |pages|), f, pages);
    forall r ensures r in Flatten(pages) <==> r in Matching(table, f) { FixedMembers(tt, table, f, pages, r); }
    ListingIsUnique(Matching(table, f), Flatten(pages));
  }

  /** A walk over a fixed table lists exactly the rows that agree with every given field of the filter. */
  lemma WalkFilters(tt: TimeText, table: Table, f: Filter, pages: seq<Page>, r: Row)
    requires IsWalk(tt, Same(table, |pages|), f, pages) && Finished(pages)
    ensures r in Flatten(pages) <==>
      && r in table
      && f.scopeType in {"", r.scopeType} && f.scopeID in {"", r.scopeID}
      && f.actor in {"", r.actor} && f.action in {"", r.action}
      && f.targetType in {"", r.targetType} && f.targetID in {"", r.targetID}
      && (f.since.None? || f.since.value <= r.createdAt) && (f.until.None? || r.createdAt <= f.until.value)
  {
    FixedMembers(tt, table, f, pages, r);
  }

  /** The pages run back in time, ties broken by falling id, and pages with a successor are exactly limit long. */
  lemma WalkRunsBackInTime(tt: TimeText, tables: seq<Table>, f: Filter, pages: seq<Page>, i: nat, j: nat)
    requires IsWalk(tt, tables, f, pages) && Finished(pages) && i < j < |Flatten(pages)|
    ensures var a, b := Flatten(pages)[i], Flatten(pages)[j];
      a.createdAt > b.createdAt || (a.createdAt == b.createdAt && exists n :: SmallerAt(b.id, a.id, n))
  {
    WalkListsTheStable(tt, tables, f, pages);
    LessIsLexicographic(Flatten(pages)[j].id, Flatten(pages)[i].id);
  }

  lemma {:induction false} DescendingCount(rows: seq<Row>, s: Table)
    requires Descending(rows) && forall r :: r in rows ==> r in s
    ensures |rows| <= |s|
  {
    if rows != [] {
      var n := |rows| - 1;
      var last := rows[n];
      forall r | r in rows[..n] ensures r in s - {last} {
        var i :| 0 <= i < n && rows[i] == r;
        NewerIsTotal(last, last);
      }
      DescendingCount(rows[..n], s - {last});
    }
  }

  /** No walk over a fixed table lists more rows than match, so following NextCursor must end. */
  lemma WalkIsBounded(tt: TimeText, table: Table, f: Filter, pages: seq<Page>)
    requires IsWalk(tt, Same(table, |pages|), f, pages)
    ensures |Flatten(pages)| <= |Matching(table, f)|
  {
    FlattenIsDescending(tt, Same(table, |pages|), f, pages, |pages|);
    assert pages[..|pages|] == pages;
    forall r | r in Flatten(pages) ensures r in Matching(table, f) {
      ListedRowsExist(tt, Same(table, |pages|), f, pages, r);
    }
    DescendingCount(Flatten(pages), Matching(table, f));
  }

  /** Every walk over a fixed table can be continued to its end. */
  lemma WalkTerminates(tt: TimeText, table: Table, f: Filter, pages: seq<Page>) returns (all: seq<Page>)
    requires IsWalk(tt, Same(table, |pages|), f, pages) && Keyed(table) && Dated(tt, table)
    ensures IsWalk(tt, Same(table, |all|), f, all) && Finished(all) && pages <= all
    decreases |Matching(table, f)| - |Flatten(pages)|, if Finished(pages) then 0 else 1
  {
    if Finished(pages) {
      all := pages;
    } else {
      var page := ListPage(tt, table, f, CursorAt(pages, |pages|));
      var more := pages + [page];
      ExtendWalk(tt, table, f, pages, page);
      WalkIsBounded(tt, table, f, more);
      assert more[..|pages|] == pages;
      all := WalkTerminates(tt, table, f, more);
    }
  }

  lemma ExtendWalk(tt: TimeText, table: Table, f: Filter, pages: seq<Page>, page: Page)
    requires IsWalk(tt, Same(table, |pages|), f, pages) && Keyed(table) && Dated(tt, table) && !Finished(pages)
    requires page == ListPage(tt, table, f, CursorAt(pages, |pages|))
    ensures IsWalk(tt, Same(table, |pages| + 1), f, pages + [page])
    ensures page.next != [] ==> page.events != []
  {
    var tables, more := Same(table, |pages| + 1), pages + [page];
    forall i | 0 <= i < |tables| ensures IsRequest(tt, tables, f, more, i) {
      if i < |pages| {
        assert IsRequest(tt, Same(table, |pages|), f, pages, i);
        assert CursorAt(more, i) == CursorAt(pages, i);
      } else {
        assert CursorAt(more, i) == CursorAt(pages, |pages|);
      }
    }
  }
}

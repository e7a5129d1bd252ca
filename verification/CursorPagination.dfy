/**
 Keyset pagination (backend/src/common/cursor-pagination.ts): following nextCursor reassembles
 the sorted table, also while rows come and go, exactly when sort values survive the cursor.
 */
module CursorPagination {
  import opened Collections
  import opened Options
  import opened Sorting

  /** A row as the pager sees it; sortValue is never null. */
  datatype Row = Row(id: int, sortValue: int)

  datatype Dir = Asc | Desc

  /** sortValue is None when the payload has no such property. */
  datatype Cursor = Cursor(id: int, sortValue: Option<int>)

  datatype CursorParam = NoCursor | Undecodable | Decoded(cursor: Cursor)

  datatype Page = Page(data: seq<Row>, hasMore: bool, nextCursor: Option<Cursor>)

  datatype PageRequest = PageRequest(limit: Option<int>, cursor: CursorParam, sortDir: Option<Dir>)

  function EffectiveLimit(limit: Option<int>): (r: int)
    ensures limit.None? ==> r == 20
    ensures limit.Some? ==> r <= 100 && (limit.value <= 100 ==> r == limit.value) && (limit.value > 100 ==> r == 100)
  {
    var l := if limit.Some? then limit.value else 20;
    if l < 100 then l else 100
  }

  function NormalizeLimit(limit: Option<int>): (l: int)
    ensures 1 <= l <= 100
    ensures EffectiveLimit(Some(l)) == l
    ensures limit.Some? && 1 <= limit.value <= 100 ==> l == limit.value
  {
    EffectiveLimit(if limit.Some? && limit.value > 0 then limit else Some(20))
  }

  // ---- The query builder ----

  /** Among stands for any condition put on the query before it is paged: the rows that meet it. */
  datatype Clause =
    | Among(rows: set<Row>)
    | AfterKey(dir: Dir, sortValue: int, cursorId: int)
    | AfterId(dir: Dir, cursorId: int)

  predicate Beyond(dir: Dir, a: int, b: int) {
    if dir == Desc then a < b else a > b
  }

  predicate Satisfies(c: Clause, r: Row) {
    match c
    case Among(rows) => r in rows
    case AfterKey(dir, v, id) => Beyond(dir, r.sortValue, v) || (r.sortValue == v && Beyond(dir, r.id, id))
    case AfterId(dir, id) => Beyond(dir, r.id, id)
  }

  predicate Meets(clauses: seq<Clause>, r: Row) {
    forall c :: c in clauses ==> Satisfies(c, r)
  }

  function Where(rows: seq<Row>, clauses: seq<Clause>): seq<Row> {
    if rows == [] then []
    else (if Meets(clauses, rows[0]) then [rows[0]] else []) + Where(rows[1..], clauses)
  }

  /** Conditions are joined by AND: those added later filter what the earlier ones let through. */
  lemma {:induction false} WhereAnd(rows: seq<Row>, a: seq<Clause>, b: seq<Clause>)
    ensures Where(rows, a + b) == Where(Where(rows, a), b)
  {
    hide Meets;
    if rows != [] {
      WhereAnd(rows[1..], a, b);
      MeetsBoth(rows[0], a, b);
      if Meets(a, rows[0]) {
        var kept := [rows[0]] + Where(rows[1..], a);
        assert Where(rows, a) == kept && kept[1..] == Where(rows[1..], a);
      } else {
        assert Where(rows, a) == Where(rows[1..], a);
      }
    }
  }

  lemma MeetsBoth(r: Row, a: seq<Clause>, b: seq<Clause>)
    ensures Meets(a + b, r) <==> Meets(a, r) && Meets(b, r)
  {
    assert forall c :: c in a + b <==> c in a || c in b;
  }

  /** ORDER BY sortField, id, both in the same direction. */
  function OrderBy(dir: Dir): (Row, Row) -> bool {
    (a: Row, b: Row) => a == b || Before(dir, a, b)
  }

  predicate Before(dir: Dir, a: Row, b: Row) {
    Satisfies(AfterKey(dir, a.sortValue, a.id), b)
  }

  function Take<T>(s: seq<T>, n: nat): seq<T> {
    if n <= |s| then s[..n] else s
  }

  function Matching(table: seq<Row>, clauses: seq<Clause>, dir: Dir): seq<Row> {
    Sort(Where(table, clauses), OrderBy(dir))
  }

  class SelectQueryBuilder {
    const table: seq<Row>
    var clauses: seq<Clause>
    var order: Dir
    var take: nat

    constructor (table: seq<Row>)
      ensures this.table == table && clauses == []
    {
      this.table := table;
      clauses, order, take := [], Asc, 0;
    }

    method AndWhere(c: Clause)
      modifies this`clauses
      ensures clauses == old(clauses) + [c]
    {
      clauses := clauses + [c];
    }

    function GetMany(): seq<Row>
      reads this
    {
      Take(Matching(table, clauses, order), take)
    }
  }

  // ---- One page ----

  function ClausesFor(dir: Dir, param: CursorParam): seq<Clause> {
    if !param.Decoded? then []
    else if param.cursor.sortValue.Some? then [AfterKey(dir, param.cursor.sortValue.value, param.cursor.id)]
    else [AfterId(dir, param.cursor.id)]
  }

  /** render is what becomes of a sort value that travels through a cursor. */
  function PageOf(table: seq<Row>, dir: Dir, limit: nat, param: CursorParam, render: int -> int): Page {
    PageFrom(Matching(table, ClausesFor(dir, param), dir), limit, render)
  }

  function PageFrom(all: seq<Row>, limit: nat, render: int -> int): Page {
    var hasMore := |all| > limit;
    var data := Take(all, limit);
    var last := if hasMore && |data| > 0 then
                  Some(Cursor(data[|data| - 1].id, Some(render(data[|data| - 1].sortValue)))) else None;
    Page(data, hasMore, last)
  }

  method ApplyCursorPagination(qb: SelectQueryBuilder, options: PageRequest, render: int -> int) returns (page: Page)
    requires options.limit.Some? ==> options.limit.value >= 0
    modifies qb
    ensures page ==
      PageOf(Where(qb.table, old(qb.clauses)), if options.sortDir.Some? then options.sortDir.value else Desc,
                           EffectiveLimit(options.limit), options.cursor, render)
  {
    hide Where, Sort, Satisfies, Meets, PageFrom, Take;
    var limit := EffectiveLimit(options.limit);
    var sortDir := if options.sortDir.Some? then options.sortDir.value else Desc;
    if options.cursor.Decoded? {
      var decoded := options.cursor.cursor;
      if decoded.sortValue.Some? {
        qb.AndWhere(AfterKey(sortDir, decoded.sortValue.value, decoded.id));
      } else {
        qb.AndWhere(AfterId(sortDir, decoded.id));
      }
    }
    assert qb.clauses == old(qb.clauses) + ClausesFor(sortDir, options.cursor);
    WhereAnd(qb.table, old(qb.clauses), ClausesFor(sortDir, options.cursor));
    qb.order := sortDir;
    qb.take := limit + 1;
    var rows := qb.GetMany();
    var hasMore := |rows| > limit;
    var data := if hasMore then rows[..limit] else rows;
    var nextCursor := None;
    if hasMore && |data| > 0 {
      var last := data[|data| - 1];
      nextCursor := Some(Cursor(last.id, Some(render(last.sortValue))));
    }
    page := Page(data, hasMore, nextCursor);
    ProbedPage(Matching(qb.table, qb.clauses, sortDir), limit, render, page);
  }

  /** Fetching one row too many tells whether there is more, and dropping it leaves the page. */
  lemma ProbedPage(all: seq<Row>, limit: nat, render: int -> int, page: Page)
    requires var rows := Take(all, limit + 1);
      && page.hasMore == (|rows| > limit) && page.data == (if page.hasMore then rows[..limit] else rows)
    requires page.nextCursor ==
      if page.hasMore && |page.data| > 0
      then Some(Cursor(page.data[|page.data| - 1].id, Some(render(page.data[|page.data| - 1].sortValue)))) else None
    ensures page == PageFrom(all, limit, render)
  {
  }

  // ---- What a page holds ----

  ghost predicate Increasing(dir: Dir, s: seq<Row>) {
    forall i, j :: 0 <= i < j < |s| ==> Before(dir, s[i], s[j])
  }

  /** Rows the cursor lets through: all of them without one. */
  predicate Passes(dir: Dir, param: CursorParam, r: Row) {
    Meets(ClausesFor(dir, param), r)
  }

  lemma {:induction false} WhereElements(rows: seq<Row>, clauses: seq<Clause>)
    ensures forall r :: r in Where(rows, clauses) <==> r in rows && Meets(clauses, r)
    ensures Distinct(rows) ==> Distinct(Where(rows, clauses))
  {
    if rows != [] {
      WhereElements(rows[1..], clauses);
      assert rows == [rows[0]] + rows[1..];
      assert Distinct(rows) ==> Distinct(rows[1..]) && rows[0] !in rows[1..];
    }
  }

  lemma OrderByIsOrder(dir: Dir)
    ensures TotalPreorder(OrderBy(dir)) && Antisymmetric(OrderBy(dir))
  {
  }

  lemma {:induction false} DistinctMultiset<T>(s: seq<T>)
    ensures Distinct(s) <==> forall x :: multiset(s)[x] <= 1
  {
    if s != [] {
      var rest := s[1..];
      DistinctMultiset(rest);
      assert s == [s[0]] + rest;
      if Distinct(s) {
        assert s[0] !in rest && Distinct(rest);
      } else {
        var i, j :| 0 <= i < j < |s| && s[i] == s[j];
        assert s[j] == rest[j - 1];
        if i == 0 {
          assert s[0] in multiset(rest);
          assert multiset(s)[s[0]] > 1;
        } else {
          assert rest[i - 1] == rest[j - 1];
          var x :| multiset(rest)[x] > 1;
          assert multiset(s)[x] > 1;
        }
      }
    }
  }

  lemma SortIncreases(dir: Dir, s: seq<Row>)
    requires Distinct(s)
    ensures Increasing(dir, Sort(s, OrderBy(dir)))
  {
    var r := Sort(s, OrderBy(dir));
    OrderByIsOrder(dir);
    SortSorted(s, OrderBy(dir));
    DistinctMultiset(s);
    DistinctMultiset(r);
    forall i, j | 0 <= i < j < |r| ensures Before(dir, r[i], r[j]) {
      assert OrderBy(dir)(r[i], r[j]) && r[i] != r[j];
    }
  }

  /** A page is increasing, made of rows beyond the cursor, and skips none before the next cursor. */
  ghost predicate PageIsRight(table: seq<Row>, dir: Dir, param: CursorParam, render: int -> int, page: Page) {
    && Increasing(dir, page.data)
    && (forall r :: r in page.data ==> r in table && Passes(dir, param, r))
    && (page.nextCursor.None? ==> forall r :: r in table && Passes(dir, param, r) ==> r in page.data)
    && (page.nextCursor.Some? ==> ContinuesAfter(table, dir, param, render, page))
  }

  ghost predicate ContinuesAfter(table: seq<Row>, dir: Dir, param: CursorParam, render: int -> int, page: Page) {
    && page.data != []
    && var last := page.data[|page.data| - 1];
    && page.nextCursor == Some(Cursor(last.id, Some(render(last.sortValue))))
    && forall r :: r in table && Passes(dir, param, r) && !Before(dir, last, r) ==> r in page.data
  }

  lemma PageContents(table: seq<Row>, dir: Dir, limit: nat, param: CursorParam, render: int -> int)
    requires Distinct(table) && limit >= 1
    ensures PageIsRight(table, dir, param, render, PageOf(table, dir, limit, param, render))
  {
    hide Where, Sort;
    var kept := Where(table, ClausesFor(dir, param));
    WhereElements(table, ClausesFor(dir, param));
    SortIncreases(dir, kept);
    var all := Sort(kept, OrderBy(dir));
    SameElements(kept, all);
    var page := PageOf(table, dir, limit, param, render);
    if page.nextCursor.Some? {
      var last := page.data[|page.data| - 1];
      forall r | r in all && !Before(dir, last, r) ensures r in page.data {
        var k :| 0 <= k < |all| && all[k] == r;
        assert k < limit;
      }
    }
  }

  // ---- Following nextCursor ----

  datatype Walk = Walk(rows: seq<Row>, done: bool)

  /** One request per snapshot of the table, each from the cursor of the page before. */
  function Follow(tables: seq<seq<Row>>, dir: Dir, limit: nat, param: CursorParam, render: int -> int): Walk
    decreases |tables|
  {
    if tables == [] then Walk([], false)
    else
      var page := PageOf(tables[0], dir, limit, param, render);
      if page.nextCursor.None? then Walk(page.data, true)
      else
        var rest := Follow(tables[1..], dir, limit, Decoded(page.nextCursor.value), render);
        Walk(page.data + rest.rows, rest.done)
  }

  ghost predicate RoundTrips(render: int -> int) {
    forall v :: render(v) == v
  }

  ghost predicate AllDistinct(tables: seq<seq<Row>>) {
    forall t :: t in tables ==> Distinct(t)
  }

  /** Whatever happens to the table between requests: no row twice, in order, none that stayed is missed. */
  lemma {:induction false} FollowUnderChange(
      tables: seq<seq<Row>>, dir: Dir, limit: nat, param: CursorParam, render: int -> int)
    requires RoundTrips(render) && AllDistinct(tables) && limit >= 1
    requires param.Decoded? ==> param.cursor.sortValue.Some?
    ensures var w := Follow(tables, dir, limit, param, render);
      && Increasing(dir, w.rows)
      && (forall r :: r in w.rows ==> Passes(dir, param, r) && exists t :: t in tables && r in t)
      && (w.done ==> forall r :: Passes(dir, param, r) && (forall t :: t in tables ==> r in t) ==> r in w.rows)
    decreases |tables|
  {
    hide PageOf;
    if tables != [] {
      var table := tables[0];
      var page := PageOf(table, dir, limit, param, render);
      assert table in tables;
      PageContents(table, dir, limit, param, render);
      if page.nextCursor.Some? {
        var last := page.data[|page.data| - 1];
        var next := Decoded(page.nextCursor.value);
        var rest := Follow(tables[1..], dir, limit, next, render);
        FollowUnderChange(tables[1..], dir, limit, next, render);
        forall r ensures Passes(dir, next, r) <==> Before(dir, last, r) {
          assert ClausesFor(dir, next) == [AfterKey(dir, last.sortValue, last.id)];
        }
        assert last in page.data;
        FollowJoins(dir, page.data, rest.rows, param);
        forall r | r in rest.rows ensures exists t :: t in tables && r in t {
          var t :| t in tables[1..] && r in t;
          assert t in tables;
        }
        forall r | rest.done && Passes(dir, param, r) && (forall t :: t in tables ==> r in t)
          ensures r in page.data || r in rest.rows
        {
          assert r in table;
          assert forall t :: t in tables[1..] ==> t in tables;
        }
      }
    }
  }

  /** Rows beyond the last row of a page are beyond all of it, and beyond its own cursor. */
  lemma FollowJoins(dir: Dir, a: seq<Row>, b: seq<Row>, param: CursorParam)
    requires Increasing(dir, a) && Increasing(dir, b) && a != []
    requires forall r :: r in b ==> Before(dir, a[|a| - 1], r)
    requires Passes(dir, param, a[|a| - 1])
    requires param.Decoded? ==> param.cursor.sortValue.Some?
    ensures Increasing(dir, a + b)
    ensures forall r :: r in b ==> Passes(dir, param, r)
  {
    var last := a[|a| - 1];
    forall i, j | 0 <= i < j < |a + b| ensures Before(dir, (a + b)[i], (a + b)[j]) {
      if i < |a| <= j {
        assert b[j - |a|] in b;
        assert i == |a| - 1 || Before(dir, a[i], last);
      }
    }
    forall r | r in b ensures Passes(dir, param, r) {
      if param.Decoded? {
        assert ClausesFor(dir, param) == [AfterKey(dir, param.cursor.sortValue.value, param.cursor.id)];
        assert Satisfies(ClausesFor(dir, param)[0], last);
      }
    }
  }

  // ---- The order, in terms of the fields ----

  /** Newest first: by sort value from the greatest down, and by id from the greatest down among equal ones. */
  ghost predicate Descends(s: seq<Row>) {
    forall i, j :: 0 <= i < j < |s| ==>
      s[i].sortValue > s[j].sortValue || (s[i].sortValue == s[j].sortValue && s[i].id > s[j].id)
  }

  ghost predicate Ascends(s: seq<Row>) {
    forall i, j :: 0 <= i < j < |s| ==>
      s[i].sortValue < s[j].sortValue || (s[i].sortValue == s[j].sortValue && s[i].id < s[j].id)
  }

  /** The rows a cursor asks for: those after its row in the order of the list. */
  ghost predicate After(dir: Dir, c: Cursor, r: Row) {
    match (dir, c.sortValue)
    case (Desc, Some(v)) => r.sortValue < v || (r.sortValue == v && r.id < c.id)
    case (Asc, Some(v)) => r.sortValue > v || (r.sortValue == v && r.id > c.id)
    case (Desc, None) => r.id < c.id
    case (Asc, None) => r.id > c.id
  }

  lemma OrderOfFields(dir: Dir, s: seq<Row>)
    requires Increasing(dir, s)
    ensures if dir == Desc then Descends(s) else Ascends(s)
  {
    assert forall i, j :: 0 <= i < j < |s| ==> Before(dir, s[i], s[j]);
  }

  lemma PassesMeans(dir: Dir, param: CursorParam, r: Row)
    ensures Passes(dir, param, r) <==> (param.Decoded? ==> After(dir, param.cursor, r))
  {
    if param.Decoded? {
      assert ClausesFor(dir, param)[0] in ClausesFor(dir, param);
    }
  }

  /** A page descends or ascends as asked, and holds the first rows after the cursor in that order. */
  lemma PageOrder(table: seq<Row>, dir: Dir, limit: nat, param: CursorParam, render: int -> int)
    requires Distinct(table) && limit >= 1
    ensures var page := PageOf(table, dir, limit, param, render);
      && (if dir == Desc then Descends(page.data) else Ascends(page.data))
      && |page.data| <= limit && (page.hasMore ==> |page.data| == limit)
      && (forall r :: r in page.data ==> r in table && (param.Decoded? ==> After(dir, param.cursor, r)))
      && (forall r, q ::
            (r in table && r !in page.data && (param.Decoded? ==> After(dir, param.cursor, r)) && q in page.data)
            ==> page.hasMore && After(dir, Cursor(q.id, Some(q.sortValue)), r))
  {
    hide Where, Sort;
    var page := PageOf(table, dir, limit, param, render);
    PageContents(table, dir, limit, param, render);
    OrderOfFields(dir, page.data);
    forall r ensures Passes(dir, param, r) <==> (param.Decoded? ==> After(dir, param.cursor, r)) {
      PassesMeans(dir, param, r);
    }
    forall r, q | r in table && r !in page.data && Passes(dir, param, r) && q in page.data
      ensures page.hasMore && After(dir, Cursor(q.id, Some(q.sortValue)), r)
    {
      var last := page.data[|page.data| - 1];
      var k :| 0 <= k < |page.data| && page.data[k] == q;
      assert k < |page.data| - 1 ==> Before(dir, q, last);
    }
  }

  /** The pages put together descend or ascend as asked, also while rows come and go. */
  lemma FollowOrder(tables: seq<seq<Row>>, dir: Dir, limit: nat, render: int -> int)
    requires RoundTrips(render) && AllDistinct(tables) && limit >= 1
    ensures var rows := Follow(tables, dir, limit, NoCursor, render).rows;
      if dir == Desc then Descends(rows) else Ascends(rows)
  {
    FollowUnderChange(tables, dir, limit, NoCursor, render);
    OrderOfFields(dir, Follow(tables, dir, limit, NoCursor, render).rows);
  }

  lemma IncreasingIsDistinct(dir: Dir, s: seq<Row>)
    requires Increasing(dir, s)
    ensures Distinct(s)
  {
    forall i, j | 0 <= i < j < |s| ensures s[i] != s[j] {
      assert Before(dir, s[i], s[j]);
    }
  }

  // ---- A table that stays put ----

  function Repeat<T>(x: T, n: nat): (s: seq<T>)
    ensures |s| == n && forall t :: t in s ==> t == x
  {
    seq(n, i => x)
  }

  /** Every page but the last brings at least one row. */
  lemma {:induction false} FollowProgress(
      tables: seq<seq<Row>>, dir: Dir, limit: nat, param: CursorParam, render: int -> int)
    requires AllDistinct(tables) && limit >= 1
    ensures var w := Follow(tables, dir, limit, param, render); w.done || |w.rows| >= |tables|
    decreases |tables|
  {
    if tables != [] {
      var page := PageOf(tables[0], dir, limit, param, render);
      assert tables[0] in tables;
      PageContents(tables[0], dir, limit, param, render);
      if page.nextCursor.Some? {
        FollowProgress(tables[1..], dir, limit, Decoded(page.nextCursor.value), render);
      }
    }
  }

  lemma {:induction false} DistinctSelection<T>(part: seq<T>, whole: seq<T>)
    requires Distinct(part) && Distinct(whole) && forall x :: x in part ==> x in whole
    ensures multiset(part) <= multiset(whole) && |part| <= |whole|
  {
    DistinctMultiset(part);
    forall x | x in multiset(part) ensures multiset(part)[x] <= multiset(whole)[x] {
      assert x in part && x in whole;
      assert x in multiset(whole);
    }
    assert multiset(whole) == multiset(part) + (multiset(whole) - multiset(part));
    assert |multiset(whole)| >= |multiset(part)|;
  }

  ghost predicate Exact(table: seq<Row>, dir: Dir, limit: nat, render: int -> int) {
    var w := Follow(Repeat(table, |table| + 1), dir, limit, NoCursor, render);
    w.done && w.rows == Sort(table, OrderBy(dir))
  }

  /** Enough requests reach the end, and the pages put together are the sorted table. */
  lemma FollowIsExact(table: seq<Row>, dir: Dir, limit: nat, render: int -> int)
    requires RoundTrips(render) && Distinct(table) && limit >= 1
    ensures Exact(table, dir, limit, render)
  {
    var tables := Repeat(table, |table| + 1);
    assert tables[0] in tables;
    var w := Follow(tables, dir, limit, NoCursor, render);
    FollowUnderChange(tables, dir, limit, NoCursor, render);
    FollowProgress(tables, dir, limit, NoCursor, render);
    IncreasingIsDistinct(dir, w.rows);
    DistinctSelection(w.rows, table);
    DistinctSelection(table, w.rows);
    OrderByIsOrder(dir);
    SortSorted(table, OrderBy(dir));
    assert Sorted(w.rows, OrderBy(dir)) by {
      forall i, j | 0 <= i < j < |w.rows| ensures OrderBy(dir)(w.rows[i], w.rows[j]) {
        assert Before(dir, w.rows[i], w.rows[j]);
      }
    }
    SortedUnique(w.rows, Sort(table, OrderBy(dir)), OrderBy(dir));
  }

  /** The same for a query that was filtered before it is paged. */
  lemma FilteredIsExact(table: seq<Row>, prior: seq<Clause>, dir: Dir, limit: nat, render: int -> int)
    requires RoundTrips(render) && Distinct(table) && limit >= 1
    ensures Exact(Where(table, prior), dir, limit, render)
  {
    WhereElements(table, prior);
    FollowIsExact(Where(table, prior), dir, limit, render);
  }

  ghost predicate AlwaysExact(render: int -> int) {
    forall table, dir, limit: nat :: Distinct(table) && limit >= 1 ==> Exact(table, dir, limit, render)
  }

  function Twins(v: int): seq<Row> {
    [Row(1, v), Row(2, v)]
  }

  lemma TwinsSorted(v: int)
    ensures Sort(Twins(v), OrderBy(Asc)) == Twins(v)
  {
    var t := Twins(v);
    forall i, j | 0 <= i < j < |t| ensures OrderBy(Asc)(t[i], t[j]) {
      assert Before(Asc, t[i], t[j]);
    }
    SortOfSorted(t, OrderBy(Asc));
  }

  lemma TwinsWhere(v: int, clauses: seq<Clause>, pass: bool)
    requires forall r :: r in Twins(v) ==> (Meets(clauses, r) <==> pass)
    ensures Where(Twins(v), clauses) == if pass then Twins(v) else []
  {
    var t := Twins(v);
    assert t[0] in t && t[1] in t && t[1..] == [t[1]];
    assert Where([t[1]], clauses) == if pass then [t[1]] else [];
  }

  /** The first page of one row, and the page its altered cursor leads to. */
  lemma TwinsPages(render: int -> int, v: int)
    requires render(v) != v
    ensures var next := Some(Cursor(1, Some(render(v))));
      && PageOf(Twins(v), Asc, 1, NoCursor, render) == Page([Row(1, v)], true, next)
      && PageOf(Twins(v), Asc, 1, Decoded(next.value), render) == if v > render(v) then Page([Row(1, v)], true, next)
         else Page([], false, None)
  {
    hide Where, Sort, Before;
    TwinsSorted(v);
    TwinsWhere(v, [], true);
    var clauses := ClausesFor(Asc, Decoded(Cursor(1, Some(render(v)))));
    assert clauses == [AfterKey(Asc, render(v), 1)];
    forall r | r in Twins(v) ensures Meets(clauses, r) <==> v > render(v) {
      assert clauses[0] in clauses;
    }
    TwinsWhere(v, clauses, v > render(v));
    assert Twins(v)[..1] == [Row(1, v)];
  }

  /** Two rows with the same sort value, one to a page: a cursor that alters the value repeats or loses a row. */
  lemma AlteredValueBreaksPaging(render: int -> int, v: int)
    requires render(v) != v
    ensures !Exact(Twins(v), Asc, 1, render)
  {
    var tables := Repeat(Twins(v), 3);
    var next := Decoded(Cursor(1, Some(render(v))));
    TwinsSorted(v);
    TwinsPages(render, v);
    assert tables[0] == Twins(v) && tables[1..][0] == Twins(v);
    var rest := Follow(tables[1..], Asc, 1, next, render);
    var w := Follow(tables, Asc, 1, NoCursor, render);
    assert w.rows == [Row(1, v)] + rest.rows;
    assert rest.rows == [] || rest.rows[0] == Row(1, v);
  }

  /** Paging is exact on every table exactly when every sort value survives its trip through a cursor. */
  lemma ExactIffRoundTrips(render: int -> int)
    ensures AlwaysExact(render) <==> RoundTrips(render)
  {
    if RoundTrips(render) {
      forall table, dir, limit: nat | Distinct(table) && limit >= 1 ensures Exact(table, dir, limit, render) {
        FollowIsExact(table, dir, limit, render);
      }
    } else {
      var v :| render(v) != v;
      AlteredValueBreaksPaging(render, v);
      assert Distinct(Twins(v));
    }
  }
}

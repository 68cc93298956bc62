// Keyset paging over full-text matches: following the cursor visits every match once, in order.
module EventPaging {
  import opened Text

  /** A durable index row matching the query; `score` is its fixed relevance. */
  datatype Row = Row(rowid: int, score: real, session: string, seqNo: int, kind: string, body: string)

  datatype Cursor = Cursor(lastScore: real, lastRowid: int)

  datatype Hit = Hit(session: string, seqNo: int, kind: string, body: string, score: real)

  /** Some results and, unless they are the last, the cursor to go on from. */
  datatype Page<T, C> = Page(hits: seq<T>, next: Option<C>)

  /** The order of the result: by score, then by row id. */
  predicate Before(a: Row, b: Row) { a.score < b.score || (a.score == b.score && a.rowid < b.rowid) }

  predicate Past(r: Row, c: Cursor) { r.score > c.lastScore || (r.score == c.lastScore && r.rowid > c.lastRowid) }

  predicate Selected(r: Row, session: Option<string>, cursor: Option<Cursor>) {
    && (session.Some? && session.value != "" ==> r.session == session.value)
    && (cursor.Some? ==> Past(r, cursor.value))
  }

  function Where(rows: seq<Row>, session: Option<string>, cursor: Option<Cursor>): seq<Row> {
    if rows == [] then []
    else (if Selected(rows[0], session, cursor) then [rows[0]] else []) + Where(rows[1..], session, cursor)
  }

  function Insert(x: Row, q: seq<Row>): seq<Row> {
    if q == [] || Before(x, q[0]) then [x] + q else [q[0]] + Insert(x, q[1..])
  }

  function OrderBy(rows: seq<Row>): seq<Row> { if rows == [] then [] else Insert(rows[0], OrderBy(rows[1..])) }

  /** SQLite reads a negative limit as none. */
  function Limited(rows: seq<Row>, n: int): seq<Row> { if n < 0 || n >= |rows| then rows else rows[..n] }

  function HitOf(r: Row): Hit { Hit(r.session, r.seqNo, r.kind, r.body, r.score) }

  function HitsOf(rows: seq<Row>): (hits: seq<Hit>)
    ensures |hits| == |rows|
  {
    seq(|rows|, i requires 0 <= i < |rows| => HitOf(rows[i]))
  }

  /** `hits.sort` by score: stable, so equal scores keep their order. */
  function InsertByScore(h: Hit, q: seq<Hit>): seq<Hit> {
    if q == [] || h.score <= q[0].score then [h] + q else [q[0]] + InsertByScore(h, q[1..])
  }

  function SortByScore(hits: seq<Hit>): seq<Hit> {
    if hits == [] then [] else InsertByScore(hits[0], SortByScore(hits[1..]))
  }

  /** `searchEvents` without a live shadow; none when reading the last row of the page throws. */
  function Search(rows: seq<Row>, session: Option<string>, cursor: Option<Cursor>, limit: int): Option<Page<Hit, Cursor>> {
    FirstPage(OrderBy(Where(rows, session, cursor)), session, limit)
  }

  function FirstPage(ordered: seq<Row>, session: Option<string>, limit: int): Option<Page<Hit, Cursor>> {
    var found := Limited(ordered, limit + 1);
    if |found| <= limit then Some(Page(Hits(found, session), None))
    else if limit < 1 then None
    else Some(Page(Hits(found[..limit], session), Some(KeyOf(found[limit - 1]))))
  }

  function Hits(rows: seq<Row>, session: Option<string>): seq<Hit> {
    if session.Some? && session.value != "" then HitsOf(rows) else SortByScore(HitsOf(rows))
  }

  // ---- order ----

  predicate Ordered(q: seq<Row>) { forall i, j :: 0 <= i < j < |q| ==> Before(q[i], q[j]) }

  predicate DistinctRowids(rows: seq<Row>) { forall i, j :: 0 <= i < j < |rows| ==> rows[i].rowid != rows[j].rowid }

  lemma {:induction false} InsertElems(x: Row, q: seq<Row>)
    ensures multiset(Insert(x, q)) == multiset(q) + multiset{x}
    decreases |q|
  {
    if q != [] && !Before(x, q[0]) {
      InsertElems(x, q[1..]);
      assert q == [q[0]] + q[1..];
    }
  }

  predicate AllAfter(r: Row, q: seq<Row>) { forall j :: 0 <= j < |q| ==> Before(r, q[j]) }

  lemma {:induction false} InsertAfter(r: Row, x: Row, q: seq<Row>)
    requires AllAfter(r, q) && Before(r, x)
    ensures AllAfter(r, Insert(x, q))
    decreases |q|
  {
    if q != [] && !Before(x, q[0]) {
      InsertAfter(r, x, q[1..]);
    }
  }

  lemma {:induction false} InsertKeeps(x: Row, q: seq<Row>)
    requires Ordered(q) && forall j :: 0 <= j < |q| ==> q[j].rowid != x.rowid
    ensures Ordered(Insert(x, q))
    decreases |q|
  {
    if q != [] && !Before(x, q[0]) {
      InsertKeeps(x, q[1..]);
      InsertAfter(q[0], x, q[1..]);
    }
  }

  /** Sorting keeps exactly the rows and puts them in strict order. */
  lemma {:induction false} OrderBySorts(rows: seq<Row>)
    requires DistinctRowids(rows)
    ensures Ordered(OrderBy(rows)) && multiset(OrderBy(rows)) == multiset(rows)
    ensures var q := OrderBy(rows);
            forall i, j :: 0 <= i < j < |q| ==> q[i].score < q[j].score || (q[i].score == q[j].score && q[i].rowid < q[j].rowid)
    decreases |rows|
  {
    if rows != [] {
      var rest := rows[1..];
      OrderBySorts(rest);
      assert rows == [rows[0]] + rest;
      var q := OrderBy(rest);
      forall i | 0 <= i < |q| ensures q[i].rowid != rows[0].rowid {
        assert q[i] in multiset(q);
        var j :| 0 <= j < |rest| && rest[j] == q[i];
        assert rest[j] == rows[j + 1];
      }
      InsertKeeps(rows[0], q);
      InsertElems(rows[0], q);
    }
  }

  lemma {:induction false} WhereElems(rows: seq<Row>, session: Option<string>, cursor: Option<Cursor>)
    ensures forall r :: r in Where(rows, session, cursor) <==> r in rows && Selected(r, session, cursor)
    ensures DistinctRowids(rows) ==> DistinctRowids(Where(rows, session, cursor))
    decreases |rows|
  {
    if rows != [] {
      var rest := rows[1..];
      WhereElems(rest, session, cursor);
      assert rows == [rows[0]] + rest;
      var kept := Where(rest, session, cursor);
      if DistinctRowids(rows) {
        forall r | r in kept ensures r.rowid != rows[0].rowid {
          var j :| 0 <= j < |rest| && rest[j] == r;
          assert rest[j] == rows[j + 1];
        }
      }
    }
  }

  // ---- the cursor cuts the sorted list ----

  function After(q: seq<Row>, c: Cursor): seq<Row> {
    if q == [] then [] else (if Past(q[0], c) then [q[0]] else []) + After(q[1..], c)
  }

  lemma {:induction false} AfterInsert(x: Row, q: seq<Row>, c: Cursor)
    requires Ordered(q)
    ensures After(Insert(x, q), c) == if Past(x, c) then Insert(x, After(q, c)) else After(q, c)
    decreases |q|
  {
    if q == [] || Before(x, q[0]) {
      assert ([x] + q)[1..] == q;
      if Past(x, c) && q != [] {
        AllPast(q, c);
      }
    } else {
      AfterInsert(x, q[1..], c);
      assert ([q[0]] + Insert(x, q[1..]))[1..] == Insert(x, q[1..]);
      if Past(q[0], c) {
        assert ([q[0]] + After(q[1..], c))[1..] == After(q[1..], c);
      } else if Past(x, c) {
        assert After(q, c) == After(q[1..], c);
      }
    }
  }

  lemma {:induction false} AllPast(q: seq<Row>, c: Cursor)
    requires Ordered(q) && q != [] && Past(q[0], c)
    ensures After(q, c) == q
    decreases |q|
  {
    if |q| > 1 {
      assert Before(q[0], q[1]);
      AllPast(q[1..], c);
    }
    assert q == [q[0]] + q[1..];
  }

  lemma OrderByCons(r: Row, q: seq<Row>)
    ensures OrderBy([r] + q) == Insert(r, OrderBy(q))
  {
    assert ([r] + q)[1..] == q;
  }

  lemma WhereFirst(rows: seq<Row>, session: Option<string>, c: Cursor)
    requires rows != []
    ensures var r, rest := rows[0], rows[1..];
            && Where(rows, session, None) == (if Selected(r, session, None) then [r] else []) + Where(rest, session, None)
            && Where(rows, session, Some(c)) ==
               (if Selected(r, session, None) && Past(r, c) then [r] else []) + Where(rest, session, Some(c))
  {
  }

  /** Filtering by the cursor before sorting is filtering the sorted list. */
  lemma {:induction false} WhereCursor(rows: seq<Row>, session: Option<string>, c: Cursor)
    requires DistinctRowids(rows)
    ensures OrderBy(Where(rows, session, Some(c))) == After(OrderBy(Where(rows, session, None)), c)
    decreases |rows|
  {
    if rows != [] {
      WhereCursor(rows[1..], session, c);
      WhereElems(rows[1..], session, None);
      OrderBySorts(Where(rows[1..], session, None));
      WhereFirst(rows, session, c);
      CursorStep(rows[0], Selected(rows[0], session, None), Where(rows[1..], session, None), Where(rows[1..], session, Some(c)), c);
    }
  }

  lemma CursorStep(r: Row, selected: bool, kept: seq<Row>, past: seq<Row>, c: Cursor)
    requires OrderBy(past) == After(OrderBy(kept), c) && Ordered(OrderBy(kept))
    ensures OrderBy((if selected && Past(r, c) then [r] else []) + past) == After(OrderBy((if selected then [r] else []) + kept), c)
  {
    OrderByCons(r, kept);
    OrderByCons(r, past);
    AfterInsert(r, OrderBy(kept), c);
    assert [] + past == past && [] + kept == kept;
  }

  function KeyOf(r: Row): Cursor { Cursor(r.score, r.rowid) }

  /** In a strictly ordered list, what lies past an element's key is what follows it. */
  lemma {:induction false} AfterKey(q: seq<Row>, k: nat)
    requires Ordered(q) && k < |q|
    ensures After(q, KeyOf(q[k])) == q[k + 1..]
    decreases k
  {
    var rest := q[1..];
    if k == 0 {
      if rest != [] {
        assert Before(q[0], q[1]);
        AllPast(rest, KeyOf(q[0]));
      }
    } else {
      assert Before(q[0], q[k]) && rest[k - 1] == q[k];
      AfterKey(rest, k - 1);
      assert rest[k..] == q[k + 1..];
    }
  }

  // ---- hits ----

  lemma {:induction false} SortedStays(rows: seq<Row>)
    requires Ordered(rows)
    ensures SortByScore(HitsOf(rows)) == HitsOf(rows)
    decreases |rows|
  {
    var hits := HitsOf(rows);
    if rows != [] {
      SortedStays(rows[1..]);
      assert hits[1..] == HitsOf(rows[1..]);
      if |rows| > 1 {
        assert Before(rows[0], rows[1]);
      }
      assert hits == [hits[0]] + hits[1..];
    }
  }

  lemma HitsAreRows(rows: seq<Row>, session: Option<string>)
    requires Ordered(rows)
    ensures Hits(rows, session) == HitsOf(rows)
  {
    SortedStays(rows);
  }

  // ---- following the cursor ----

  /** All matches of a query, in result order. */
  function Matches(rows: seq<Row>, session: Option<string>): seq<Row> { OrderBy(Where(rows, session, None)) }

  lemma MatchesOrdered(rows: seq<Row>, session: Option<string>)
    requires DistinctRowids(rows)
    ensures Ordered(Matches(rows, session))
    ensures forall r :: r in Matches(rows, session) <==> r in rows && Selected(r, session, None)
  {
    var kept := Where(rows, session, None);
    WhereElems(rows, session, None);
    OrderBySorts(kept);
    forall r ensures r in Matches(rows, session) <==> r in kept {
      assert r in multiset(Matches(rows, session)) <==> r in multiset(kept);
    }
  }

  /** The cursor handed out after the first `k` matches; none at the start. */
  function CursorAt(matches: seq<Row>, k: nat): Option<Cursor>
    requires k <= |matches|
  {
    if k == 0 then None else Some(KeyOf(matches[k - 1]))
  }

  function Min(a: nat, b: nat): nat { if a < b then a else b }

  lemma RestAt(rows: seq<Row>, session: Option<string>, k: nat)
    requires DistinctRowids(rows) && k <= |Matches(rows, session)|
    ensures OrderBy(Where(rows, session, CursorAt(Matches(rows, session), k))) == Matches(rows, session)[k..]
    ensures Ordered(Matches(rows, session))
  {
    MatchesOrdered(rows, session);
    if k > 0 {
      var all := Matches(rows, session);
      WhereCursor(rows, session, KeyOf(all[k - 1]));
      AfterKey(all, k - 1);
    }
  }

  /** From the cursor after `k` matches, a page holds the next `limit` of them, and hands out the cursor after those
      unless they were the last. */
  lemma PageAt(rows: seq<Row>, session: Option<string>, k: nat, limit: nat)
    requires DistinctRowids(rows) && limit >= 1 && k <= |Matches(rows, session)|
    ensures var all := Matches(rows, session);
            Search(rows, session, CursorAt(all, k), limit) == Some(PageOfMatches(all, k, limit))
  {
    RestAt(rows, session, k);
    PageOf(Matches(rows, session), k, limit, session);
  }

  lemma PageOf(all: seq<Row>, k: nat, limit: nat, session: Option<string>)
    requires Ordered(all) && limit >= 1 && k <= |all|
    ensures FirstPage(all[k..], session, limit) == Some(PageOfMatches(all, k, limit))
  {
    if k + limit < |all| {
      TakeOfDrop(all, k, limit);
      TakeOfDrop(all, k, limit + 1);
      HitsAreRows(all[k..k + limit], session);
      FullPage(all[k..], limit, session, all[k..k + limit]);
    } else {
      assert all[k..|all|] == all[k..];
      HitsAreRows(all[k..], session);
    }
  }

  lemma FullPage(rest: seq<Row>, limit: nat, session: Option<string>, page: seq<Row>)
    requires 1 <= limit < |rest| && page == rest[..limit]
    ensures FirstPage(rest, session, limit) == Some(Page(Hits(page, session), Some(KeyOf(rest[limit - 1]))))
  {
    assert rest[..limit + 1][..limit] == rest[..limit];
  }

  lemma TakeOfDrop<T>(s: seq<T>, k: nat, n: nat)
    requires 0 < n && k + n <= |s|
    ensures s[k..][..n] == s[k..k + n] && s[k..][n - 1] == s[k + n - 1]
    ensures s[k..k + n][..n - 1] == s[k..k + n - 1]
  {
  }

  /** The page of `limit` matches after the first `k`. */
  function PageOfMatches(all: seq<Row>, k: nat, limit: nat): Page<Hit, Cursor>
    requires k <= |all|
  {
    var end := Min(k + limit, |all|);
    Page(HitsOf(all[k..end]), if end < |all| then CursorAt(all, end) else None)
  }

  /** Fetching pages along `nextCursor` until there is none, at most `pages` of them. */
  function Collect<T, C>(fetch: Option<C> -> Option<Page<T, C>>, cursor: Option<C>, pages: nat): seq<T>
    decreases pages
  {
    if pages == 0 then []
    else match fetch(cursor)
      case None => []
      case Some(page) => page.hits + if page.next.None? then [] else Collect(fetch, page.next, pages - 1)
  }

  /** From the cursor after `k` results, the fetcher serves the next `limit` of them. */
  ghost predicate ServesAt<T(!new), C(!new)>(fetch: Option<C> -> Option<Page<T, C>>, all: seq<T>, at: seq<C>, limit: nat, k: nat)
    requires |at| == |all| && k <= |all|
  {
    var cursor := if k == 0 then None else Some(at[k - 1]);
    var end := Min(k + limit, |all|);
    fetch(cursor) == Some(Page(all[k..end], if 0 < end < |all| then Some(at[end - 1]) else None))
  }

  lemma {:induction false} CollectFrom<T(!new), C(!new)>(fetch: Option<C> -> Option<Page<T, C>>, all: seq<T>, at: seq<C>, limit: nat,
                                                         k: nat, pages: nat)
    requires |at| == |all| && limit >= 1 && k <= |all| < k + pages
    requires forall i :: k <= i <= |all| ==> ServesAt(fetch, all, at, limit, i)
    ensures Collect(fetch, if k == 0 then None else Some(at[k - 1]), pages) == all[k..]
    decreases pages
  {
    var end := Min(k + limit, |all|);
    assert ServesAt(fetch, all, at, limit, k);
    assert all[k..end] + all[end..] == all[k..];
    if end < |all| {
      CollectFrom(fetch, all, at, limit, end, pages - 1);
    }
  }

  function KeysOf(rows: seq<Row>): (keys: seq<Cursor>)
    ensures |keys| == |rows| && forall i :: 0 <= i < |rows| ==> keys[i] == KeyOf(rows[i])
  {
    seq(|rows|, i requires 0 <= i < |rows| => KeyOf(rows[i]))
  }

  lemma SearchServes(rows: seq<Row>, session: Option<string>, limit: nat, k: nat)
    requires DistinctRowids(rows) && limit >= 1 && k <= |Matches(rows, session)|
    ensures var all := Matches(rows, session);
            ServesAt(cursor => Search(rows, session, cursor, limit), HitsOf(all), KeysOf(all), limit, k)
  {
    var all := Matches(rows, session);
    PageAt(rows, session, k, limit);
    HitsSlice(all, k, Min(k + limit, |all|));
  }

  lemma HitsSlice(rows: seq<Row>, k: nat, end: nat)
    requires k <= end <= |rows|
    ensures HitsOf(rows)[k..end] == HitsOf(rows[k..end])
  {
  }

  /** Following the cursor from the start visits every match exactly once, in order, for any page size. */
  lemma PagesCoverMatches(rows: seq<Row>, session: Option<string>, limit: nat, pages: nat)
    requires DistinctRowids(rows) && limit >= 1 && pages > |Matches(rows, session)|
    ensures Collect(cursor => Search(rows, session, cursor, limit), None, pages) == HitsOf(Matches(rows, session))
    ensures forall k :: 0 <= k < |Matches(rows, session)| ==>
              var r := Matches(rows, session)[k];
              HitsOf(Matches(rows, session))[k] == Hit(r.session, r.seqNo, r.kind, r.body, r.score)
    ensures var all := Matches(rows, session);
            forall i, j :: 0 <= i < j < |all| ==>
              all[i].score < all[j].score || (all[i].score == all[j].score && all[i].rowid < all[j].rowid)
    ensures forall r :: r in Matches(rows, session) <==>
              r in rows && (session == None || session == Some("") || session == Some(r.session))
  {
    var all := Matches(rows, session);
    var fetch := cursor => Search(rows, session, cursor, limit);
    forall k | 0 <= k <= |all| ensures ServesAt(fetch, HitsOf(all), KeysOf(all), limit, k) {
      SearchServes(rows, session, limit, k);
    }
    CollectFrom(fetch, HitsOf(all), KeysOf(all), limit, 0, pages);
    MatchesOrdered(rows, session);
  }

  lemma {:induction false} OrderByLength(rows: seq<Row>)
    ensures |OrderBy(rows)| == |rows|
    decreases |rows|
  {
    if rows != [] {
      OrderByLength(rows[1..]);
      InsertLength(rows[0], OrderBy(rows[1..]));
    }
  }

  lemma {:induction false} InsertLength(x: Row, q: seq<Row>)
    ensures |Insert(x, q)| == |q| + 1
    decreases |q|
  {
    if q != [] && !Before(x, q[0]) {
      InsertLength(x, q[1..]);
    }
  }

  /** A search throws exactly for a negative limit, or for limit zero when something lies past the cursor. */
  lemma SearchThrowsIff(rows: seq<Row>, session: Option<string>, cursor: Option<Cursor>, limit: int)
    ensures Search(rows, session, cursor, limit).None? <==> limit < 0 || (limit == 0 && Where(rows, session, cursor) != [])
  {
    OrderByLength(Where(rows, session, cursor));
  }
}

/** Following `nextCursor` (`paginate` in packages/validation/src/pagination.ts): the call site
    fetches `limit + 1` rows behind the cursor, in the order of a sort key, and cuts them to a page. */
module Paging {
  import opened Options

  /** A listing: its rows, the sort key and its order, the cursor codec, and the limit. */
  datatype Listing<!Row(!new), !Key(!new)> = Listing(
    rows: seq<Row>, key: Row -> Key, less: (Key, Key) -> bool,
    encode: Key -> string, decode: string -> Option<Key>, limit: nat)

  datatype Page<Row> = Page(items: seq<Row>, nextCursor: Option<string>)

  /** `paginate` */
  function Paginate<Row(!new), Key(!new)>(fetched: seq<Row>, l: Listing<Row, Key>): Page<Row> {
    var hasMore := |fetched| > l.limit;
    var page := if hasMore then fetched[..l.limit] else fetched;
    var next := if hasMore && page != [] then Some(l.encode(l.key(page[|page| - 1]))) else None;
    Page(page, next)
  }

  /** The rows whose key comes after `k`, in order. */
  function Behind<Row(!new), Key(!new)>(l: Listing<Row, Key>, rows: seq<Row>, k: Key): seq<Row> {
    if rows == [] then []
    else (if l.less(k, l.key(rows[0])) then [rows[0]] else []) + Behind(l, rows[1..], k)
  }

  /** The rows behind a cursor, or all of them without one; a cursor that does not decode is
      refused before it gets here. */
  function Rest<Row(!new), Key(!new)>(l: Listing<Row, Key>, cursor: Option<string>): seq<Row> {
    if cursor.None? || l.decode(cursor.value).None? then l.rows
    else Behind(l, l.rows, l.decode(cursor.value).value)
  }

  /** One request: fetch `limit + 1` rows behind the cursor, and cut. */
  function Request<Row(!new), Key(!new)>(l: Listing<Row, Key>, cursor: Option<string>): Page<Row> {
    var rest := Rest(l, cursor);
    Paginate(if |rest| > l.limit + 1 then rest[..l.limit + 1] else rest, l)
  }

  /** Row `i` comes before row `j`, and not after it. */
  predicate Before<Row(!new), Key(!new)>(l: Listing<Row, Key>, i: nat, j: nat)
    requires i < |l.rows| && j < |l.rows|
  {
    l.less(l.key(l.rows[i]), l.key(l.rows[j])) && !l.less(l.key(l.rows[j]), l.key(l.rows[i]))
  }

  predicate Unordered<Row(!new), Key(!new)>(l: Listing<Row, Key>, k: Key) {
    !l.less(k, k)
  }

  ghost predicate RoundTrips<Row(!new), Key(!new)>(l: Listing<Row, Key>, k: Key) {
    l.decode(l.encode(k)) == Some(k)
  }

  /** The rows are sorted by distinct keys, and the codec reads its own cursors. */
  ghost predicate ListingOk<Row(!new), Key(!new)>(l: Listing<Row, Key>) {
    && l.limit >= 1
    && (forall i: nat, j: nat :: i < j < |l.rows| ==> Before(l, i, j))
    && (forall k :: Unordered(l, k))
    && (forall k :: RoundTrips(l, k))
  }

  lemma {:induction false} BehindSorted<Row(!new), Key(!new)>(l: Listing<Row, Key>, n: nat, k: Key, i: nat)
    requires ListingOk(l) && i < |l.rows| && n <= |l.rows| && k == l.key(l.rows[i])
    ensures Behind(l, l.rows[n..], k) == if n <= i then l.rows[i + 1..] else l.rows[n..]
    decreases |l.rows| - n
  {
    if n < |l.rows| {
      assert l.rows[n..][1..] == l.rows[n + 1..];
      BehindSorted(l, n + 1, k, i);
      assert Unordered(l, k);
      assert n < i ==> Before(l, n, i);
      assert n > i ==> Before(l, i, n);
    }
  }

  /** Behind the cursor of row `i` come exactly the rows after it. */
  lemma RestBehindRow<Row(!new), Key(!new)>(l: Listing<Row, Key>, i: nat)
    requires ListingOk(l) && i < |l.rows|
    ensures Rest(l, Some(l.encode(l.key(l.rows[i])))) == l.rows[i + 1..]
  {
    assert RoundTrips(l, l.key(l.rows[i]));
    assert l.rows[0..] == l.rows;
    BehindSorted(l, 0, l.key(l.rows[i]), i);
  }

  /** A cursor that some page of the listing gave out, or none; `n` rows are in front of it. */
  ghost predicate CursorAt<Row(!new), Key(!new)>(l: Listing<Row, Key>, cursor: Option<string>, n: nat) {
    n <= |l.rows| && cursor == if n == 0 then None else Some(l.encode(l.key(l.rows[n - 1])))
  }

  lemma RequestAt<Row(!new), Key(!new)>(l: Listing<Row, Key>, cursor: Option<string>, n: nat)
    requires ListingOk(l) && CursorAt(l, cursor, n)
    ensures var page := Request(l, cursor);
      if |l.rows| - n > l.limit
      then page.items == l.rows[n..n + l.limit] && page.nextCursor.Some? && CursorAt(l, page.nextCursor, n + l.limit)
      else page.items == l.rows[n..] && page.nextCursor.None?
  {
    if n > 0 { RestBehindRow(l, n - 1); }
    var rest := Rest(l, cursor);
    assert rest == l.rows[n..];
    if |rest| > l.limit {
      assert rest[..l.limit + 1][..l.limit] == l.rows[n..n + l.limit];
      assert |rest| == l.limit + 1 ==> rest[..l.limit + 1] == rest;
    }
  }

  /** All the pages a client sees that starts without a cursor and follows `nextCursor`. */
  ghost function Walk<Row(!new), Key(!new)>(l: Listing<Row, Key>, cursor: Option<string>, n: nat): seq<Page<Row>>
    requires ListingOk(l) && CursorAt(l, cursor, n)
    decreases |l.rows| - n
  {
    var page := Request(l, cursor);
    RequestAt(l, cursor, n);
    if page.nextCursor.None? then [page] else [page] + Walk(l, page.nextCursor, n + |page.items|)
  }

  function Items<Row>(pages: seq<Page<Row>>): seq<Row> {
    if pages == [] then [] else pages[0].items + Items(pages[1..])
  }

  lemma {:induction false} WalkItems<Row(!new), Key(!new)>(l: Listing<Row, Key>, cursor: Option<string>, n: nat)
    requires ListingOk(l) && CursorAt(l, cursor, n)
    ensures Items(Walk(l, cursor, n)) == l.rows[n..]
    decreases |l.rows| - n
  {
    var page := Request(l, cursor);
    RequestAt(l, cursor, n);
    if page.nextCursor.Some? {
      var rest := Walk(l, page.nextCursor, n + |page.items|);
      WalkItems(l, page.nextCursor, n + |page.items|);
      ItemsAfter(page, rest, l.rows, n, n + l.limit);
    } else {
      ItemsCons(page, []);
      assert [page] + [] == [page] && page.items + [] == page.items;
    }
  }

  lemma ItemsCons<Row>(page: Page<Row>, rest: seq<Page<Row>>)
    ensures Items([page] + rest) == page.items + Items(rest)
  {
    assert ([page] + rest)[1..] == rest;
  }

  lemma ItemsAfter<Row>(page: Page<Row>, rest: seq<Page<Row>>, rows: seq<Row>, n: nat, m: nat)
    requires n <= m <= |rows| && page.items == rows[n..m] && Items(rest) == rows[m..]
    ensures Items([page] + rest) == rows[n..]
  {
    ItemsCons(page, rest);
    Sliced(rows, n, m);
  }

  lemma Sliced<Row>(rows: seq<Row>, n: nat, m: nat)
    requires n <= m <= |rows|
    ensures rows[n..] == rows[n..m] + rows[m..]
  {}

  /** A page in the middle is full and names a next cursor; the last does not. */
  ghost predicate PageOk<Row(!new), Key(!new)>(l: Listing<Row, Key>, page: Page<Row>, last: bool) {
    && |page.items| <= l.limit && (l.rows != [] ==> page.items != [])
    && if last then page.nextCursor.None? else page.nextCursor.Some? && |page.items| == l.limit
  }

  lemma {:induction false} WalkShape<Row(!new), Key(!new)>(l: Listing<Row, Key>, cursor: Option<string>, n: nat)
    requires ListingOk(l) && CursorAt(l, cursor, n) && (l.rows != [] ==> n < |l.rows|)
    ensures var pages := Walk(l, cursor, n);
      pages != [] && forall i :: 0 <= i < |pages| ==> PageOk(l, pages[i], i == |pages| - 1)
    decreases |l.rows| - n
  {
    var page := Request(l, cursor);
    RequestAt(l, cursor, n);
    if page.nextCursor.Some? {
      var rest := Walk(l, page.nextCursor, n + |page.items|);
      WalkShape(l, page.nextCursor, n + |page.items|);
      OneMorePage(l, page, rest);
    }
  }

  lemma OneMorePage<Row(!new), Key(!new)>(l: Listing<Row, Key>, page: Page<Row>, rest: seq<Page<Row>>)
    requires PageOk(l, page, false) && rest != []
    requires forall i :: 0 <= i < |rest| ==> PageOk(l, rest[i], i == |rest| - 1)
    ensures var pages := [page] + rest; forall i :: 0 <= i < |pages| ==> PageOk(l, pages[i], i == |pages| - 1)
  {
    forall i | 0 <= i < |rest| + 1 ensures PageOk(l, ([page] + rest)[i], i == |rest|) {
      if i > 0 { assert PageOk(l, rest[i - 1], i - 1 == |rest| - 1); }
    }
  }

  /** The walk ends, and visits every row exactly once and in order, a full page at a time. */
  lemma EveryRowOnce<Row(!new), Key(!new)>(l: Listing<Row, Key>)
    requires ListingOk(l)
    ensures var pages := Walk(l, None, 0);
      && Items(pages) == l.rows
      && forall i :: 0 <= i < |pages| ==> PageOk(l, pages[i], i == |pages| - 1)
  {
    WalkItems(l, None, 0);
    WalkShape(l, None, 0);
    assert l.rows[0..] == l.rows;
  }
}

/**
  Lists read page by page, newest first: a page ends with a cursor naming its
  last row, and the next page starts after it, while rows come and go.
*/
module Paging {
  import opened Options
  import Texts

  /** What a list is ordered by. */
  datatype Key = Key(at: int, id: string)

  /** Newest first, then by falling id. */
  predicate Before(a: Key, b: Key) { a.at > b.at || (a.at == b.at && Texts.Less(b.id, a.id)) }

  lemma BeforeIsTransitive(a: Key, b: Key, c: Key)
    requires Before(a, b) && Before(b, c)
    ensures Before(a, c)
  {
    if a.at == b.at == c.at { Texts.LessIsTransitive(c.id, b.id, a.id); }
  }

  lemma BeforeIsTotal(a: Key, b: Key)
    ensures a == b || Before(a, b) || Before(b, a)
    ensures !(Before(a, b) && Before(b, a)) && !Before(a, a)
  {
    Texts.LessIsTotal(a.id, b.id);
    if Texts.Less(a.id, b.id) { Texts.LessIsAsymmetric(a.id, b.id); }
    if Texts.Less(b.id, a.id) { Texts.LessIsAsymmetric(b.id, a.id); }
    if Texts.Less(a.id, a.id) { Texts.LessIsAsymmetric(a.id, a.id); }
  }

  /** The matching rows at one moment, as the query orders them. */
  ghost predicate Ordered(rows: seq<Key>) { forall n, m :: 0 <= n < m < |rows| ==> Before(rows[n], rows[m]) }

  predicate Past(cursor: Option<Key>, k: Key) { cursor.None? || Before(cursor.value, k) }

  /** The rows the cursor has not passed. */
  function Rest(rows: seq<Key>, cursor: Option<Key>): seq<Key> {
    if rows == [] || Past(cursor, rows[0]) then rows else Rest(rows[1..], cursor)
  }

  lemma {:induction false} RestIs(rows: seq<Key>, cursor: Option<Key>, k: Key)
    requires Ordered(rows)
    ensures k in Rest(rows, cursor) <==> k in rows && Past(cursor, k)
    ensures Ordered(Rest(rows, cursor))
    decreases |rows|
  {
    if rows != [] {
      assert rows == [rows[0]] + rows[1..];
      if Past(cursor, rows[0]) {
        if cursor.Some? && k in rows && k != rows[0] { BeforeIsTransitive(cursor.value, rows[0], k); }
      } else {
        RestIs(rows[1..], cursor, k);
      }
    }
  }

  datatype Page = Page(items: seq<Key>, next: Option<Key>)

  /** The first rows, and a cursor when there are more. */
  function Cut(rest: seq<Key>, limit: nat): Page
    requires limit >= 1
  {
    if |rest| > limit then Page(rest[..limit], Some(rest[limit - 1])) else Page(rest, None)
  }

  function PageOf(rows: seq<Key>, cursor: Option<Key>, limit: nat): Page
    requires limit >= 1
  {
    Cut(Rest(rows, cursor), limit)
  }

  lemma CutIs(rest: seq<Key>, limit: nat)
    requires Ordered(rest) && limit >= 1
    ensures var page := Cut(rest, limit);
            && Ordered(page.items) && (forall k :: k in page.items ==> k in rest)
            && (page.next.None? ==> page.items == rest)
            && (page.next.Some? ==> page.next.value in rest && (forall k :: k in page.items ==> k == page.next.value || Before(k, page.next.value))
                                    && (forall k :: k in rest && k !in page.items ==> Before(page.next.value, k)))
  {
    hide Before;
    var page := Cut(rest, limit);
    if page.next.Some? {
      assert rest == rest[..limit] + rest[limit..];
      forall k | k in rest && k !in page.items ensures Before(page.next.value, k) {
        var n :| 0 <= n < |rest[limit..]| && rest[limit..][n] == k;
        assert rest[limit + n] == k;
      }
    }
  }

  // ---- following the cursors -----------------------------------------------------

  /** All rows read by a client that reads its pages one after the other, each from the list as it is then. */
  function Read(lists: seq<seq<Key>>, cursor: Option<Key>, limit: nat): seq<Key>
    requires limit >= 1
    decreases |lists|
  {
    if lists == [] then []
    else
      var page := PageOf(lists[0], cursor, limit);
      page.items + if page.next.None? then [] else Read(lists[1..], page.next, limit)
  }

  /** The client came to a page without a cursor. */
  predicate Ends(lists: seq<seq<Key>>, cursor: Option<Key>, limit: nat)
    requires limit >= 1
    decreases |lists|
  {
    lists != [] && (var page := PageOf(lists[0], cursor, limit); page.next.None? || Ends(lists[1..], page.next, limit))
  }

  ghost predicate AllOrdered(lists: seq<seq<Key>>) { forall n :: 0 <= n < |lists| ==> Ordered(lists[n]) }

  lemma PageInOrder(rows: seq<Key>, cursor: Option<Key>, limit: nat)
    requires Ordered(rows) && limit >= 1
    ensures var page := PageOf(rows, cursor, limit);
            && Ordered(page.items)
            && (forall k :: k in page.items ==> k in rows && Past(cursor, k))
            && (page.next.Some? ==> Past(cursor, page.next.value) && forall k :: k in page.items ==> k == page.next.value || Before(k, page.next.value))
            && (forall k :: k in rows && Past(cursor, k) && k !in page.items ==> page.next.Some? && Past(page.next, k))
  {
    hide Cut, Rest, Before, Ordered;
    var rest := Rest(rows, cursor);
    forall k ensures k in rest <==> k in rows && Past(cursor, k) { RestIs(rows, cursor, k); }
    RestIs(rows, cursor, Key(0, ""));
    CutIs(rest, limit);
  }

  lemma OrderedJoin(a: seq<Key>, b: seq<Key>, last: Key)
    requires Ordered(a) && Ordered(b)
    requires (forall k :: k in a ==> k == last || Before(k, last)) && (forall k :: k in b ==> Before(last, k))
    ensures Ordered(a + b)
  {
    forall n, m | 0 <= n < m < |a + b| ensures Before((a + b)[n], (a + b)[m]) {
      if n < |a| <= m {
        assert a[n] in a && b[m - |a|] in b;
        if a[n] != last { BeforeIsTransitive(a[n], last, b[m - |a|]); }
      }
    }
  }

  /** Of two rows read, the first is newer, or as old with the greater id. */
  predicate NewerFirst(a: Key, b: Key) { a.at > b.at || (a.at == b.at && a.id != b.id && Texts.Less(b.id, a.id)) }

  lemma BeforeIsNewer(a: Key, b: Key)
    requires Before(a, b)
    ensures NewerFirst(a, b)
  {
    if a.at == b.at { Texts.LessIsAsymmetric(b.id, a.id); }
  }

  /** However the list changes between pages, no row is read twice and all come newest first. */
  lemma {:induction false} ReadsInOrder(lists: seq<seq<Key>>, cursor: Option<Key>, limit: nat)
    requires limit >= 1 && AllOrdered(lists)
    ensures Ordered(Read(lists, cursor, limit))
    ensures forall n, m :: 0 <= n < m < |Read(lists, cursor, limit)| ==> NewerFirst(Read(lists, cursor, limit)[n], Read(lists, cursor, limit)[m])
    ensures forall k :: k in Read(lists, cursor, limit) ==> Past(cursor, k)
    decreases |lists|
  {
    hide PageOf, Before, NewerFirst;
    forall a, b | Before(a, b) ensures NewerFirst(a, b) { BeforeIsNewer(a, b); }
    if lists != [] {
      var page := PageOf(lists[0], cursor, limit);
      PageInOrder(lists[0], cursor, limit);
      if page.next.None? {
        assert Read(lists, cursor, limit) == page.items;
      } else {
        ReadsInOrder(lists[1..], page.next, limit);
        var others := Read(lists[1..], page.next, limit);
        OrderedJoin(page.items, others, page.next.value);
        forall k | k in others ensures Past(cursor, k) {
          if cursor.Some? { BeforeIsTransitive(cursor.value, page.next.value, k); }
        }
      }
    }
  }

  /** A row that stays in the list is read by every client that comes to the end. */
  lemma {:induction false} ReadsWhatStays(lists: seq<seq<Key>>, cursor: Option<Key>, limit: nat, k: Key)
    requires limit >= 1 && AllOrdered(lists) && Ends(lists, cursor, limit)
    requires Past(cursor, k) && forall n :: 0 <= n < |lists| ==> k in lists[n]
    ensures k in Read(lists, cursor, limit)
    decreases |lists|
  {
    hide PageOf, Before, Ordered;
    var page := PageOf(lists[0], cursor, limit);
    PageInOrder(lists[0], cursor, limit);
    if k !in page.items { ReadsWhatStays(lists[1..], page.next, limit, k); }
  }

  lemma {:induction false} SkipTo(rows: seq<Key>, n: nat)
    requires Ordered(rows) && n < |rows|
    ensures Rest(rows, Some(rows[n])) == rows[n + 1..]
    decreases n
  {
    BeforeIsTotal(rows[n], rows[0]);
    hide Before;
    assert n > 0 ==> Before(rows[0], rows[n]);
    if n > 0 {
      assert rows[1..][n - 1] == rows[n];
      SkipTo(rows[1..], n - 1);
      assert rows[1..][n..] == rows[n + 1..];
    } else if |rows| > 1 {
      assert Before(rows[0], rows[1]);
    }
  }

  /** The page after a row starts with the row behind it. */
  lemma {:induction false} RestAfter(rows: seq<Key>, cursor: Option<Key>, n: nat)
    requires Ordered(rows) && n < |Rest(rows, cursor)|
    ensures Rest(rows, Some(Rest(rows, cursor)[n])) == Rest(rows, cursor)[n + 1..]
    decreases |rows|
  {
    var rest := Rest(rows, cursor);
    if Past(cursor, rows[0]) {
      SkipTo(rows, n);
    } else {
      RestAfter(rows[1..], cursor, n);
      RestIsOfRows(rows[1..], cursor, rest[n]);
      var m :| 0 <= m < |rows[1..]| && rows[1..][m] == rest[n];
      assert Before(rows[0], rows[m + 1]);
      BeforeIsTotal(rest[n], rows[0]);
    }
  }

  /** Reading an unchanging list comes to an end: each page leaves a page's rows less. */
  lemma {:induction false} ReadingEnds(rows: seq<Key>, cursor: Option<Key>, pages: nat, limit: nat)
    requires limit >= 1 && Ordered(rows) && pages >= 1 && |Rest(rows, cursor)| <= pages * limit
    ensures Ends(seq(pages, n => rows), cursor, limit)
    decreases pages
  {
    hide Rest, Ordered;
    var lists := seq(pages, n => rows);
    var rest := Rest(rows, cursor);
    if |rest| > limit {
      RestAfter(rows, cursor, limit - 1);
      assert (pages - 1) * limit == pages * limit - limit;
      assert |rest[limit..]| <= (pages - 1) * limit;
      assert pages > 1;
      ReadingEnds(rows, Some(rest[limit - 1]), pages - 1, limit);
      assert lists[1..] == seq(pages - 1, n => rows);
    }
  }

  /** An unchanging list is read whole, each row once, in its own order. */
  lemma StillListIsReadWhole(rows: seq<Key>, pages: nat, limit: nat)
    requires limit >= 1 && Ordered(rows) && pages >= 1 && |rows| <= pages * limit
    ensures Ends(seq(pages, n => rows), None, limit)
    ensures Ordered(Read(seq(pages, n => rows), None, limit))
    ensures forall k :: k in Read(seq(pages, n => rows), None, limit) <==> k in rows
  {
    assert Rest(rows, None) == rows;
    hide Read, Ends, Ordered;
    ReadingEnds(rows, None, pages, limit);
    var lists := seq(pages, n => rows);
    ReadsInOrder(lists, None, limit);
    forall k | k in rows ensures k in Read(lists, None, limit) { ReadsWhatStays(lists, None, limit, k); }
    forall k | k in Read(lists, None, limit) ensures k in rows { ReadsOnlyRows(lists, None, limit, rows, k); }
  }

  lemma {:induction false} ReadsOnlyRows(lists: seq<seq<Key>>, cursor: Option<Key>, limit: nat, rows: seq<Key>, k: Key)
    requires limit >= 1 && (forall n :: 0 <= n < |lists| ==> lists[n] == rows) && k in Read(lists, cursor, limit)
    ensures k in rows
    decreases |lists|
  {
    hide Rest, Before;
    var page := PageOf(lists[0], cursor, limit);
    ItemsAreRows(rows, cursor, limit, k);
    if k !in page.items { ReadsOnlyRows(lists[1..], page.next, limit, rows, k); }
  }

  lemma {:induction false} ItemsAreRows(rows: seq<Key>, cursor: Option<Key>, limit: nat, k: Key)
    requires limit >= 1
    ensures k in PageOf(rows, cursor, limit).items ==> k in rows
  {
    hide Before;
    RestIsOfRows(rows, cursor, k);
  }

  lemma {:induction false} RestIsOfRows(rows: seq<Key>, cursor: Option<Key>, k: Key)
    ensures k in Rest(rows, cursor) ==> k in rows
  {
    if rows != [] && !Past(cursor, rows[0]) { RestIsOfRows(rows[1..], cursor, k); }
  }

  // ---- one page ------------------------------------------------------------------------

  datatype ListError = BadLimit

  /** Reads one row more than asked to know whether a page follows. */
  method List(rows: seq<Key>, cursor: Option<Key>, limit: int) returns (page: Result<Page, ListError>)
    ensures page.Err? <==> !(1 <= limit <= 100)
    ensures page.Ok? ==> page.value == PageOf(rows, cursor, limit)
  {
    if limit < 1 || limit > 100 {
      return Err(BadLimit);
    }
    hide Rest;
    var rest := Rest(rows, cursor);
    var items: seq<Key> := [];
    var n := 0;
    while n < limit + 1 && n < |rest|
      invariant n <= limit + 1 && n <= |rest| && items == rest[..n]
    {
      items := items + [rest[n]];
      n := n + 1;
    }
    if |items| > limit {
      items := items[..limit];
      return Ok(Page(items, Some(items[limit - 1])));
    }
    return Ok(Page(items, None));
  }
}

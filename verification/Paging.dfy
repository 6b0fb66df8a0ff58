/**
 Paging by id (internal/store/notes.go and internal/store/queries.go): a page is the first rows, in the
 order of the query, of those below the cursor; the last id of a full page is the next cursor.
 */
module Paging {

  const DEFAULT_LIMIT := 50
  const MAX_LIMIT := 200

  function ClampLimit(n: int): (limit: nat)
    ensures 1 <= limit <= MAX_LIMIT
    ensures 1 <= n <= MAX_LIMIT ==> limit == n
    ensures n <= 0 ==> limit == DEFAULT_LIMIT
    ensures n > MAX_LIMIT ==> limit == MAX_LIMIT
  {
    if n <= 0 then DEFAULT_LIMIT else if n > MAX_LIMIT then MAX_LIMIT else n
  }

  // ---------- the order of a listing ----------

  /** ORDER BY date DESC, id DESC. A listing by id alone has all dates equal. */
  predicate Precedes(date: int -> int, a: int, b: int) {
    date(a) > date(b) || (date(a) == date(b) && a > b)
  }

  ghost predicate IsFirst(ids: set<int>, date: int -> int, x: int) {
    x in ids && forall y :: y in ids && y != x ==> Precedes(date, x, y)
  }

  lemma {:induction false} SomeFirst(ids: set<int>, date: int -> int)
    requires ids != {}
    ensures exists x :: IsFirst(ids, date, x)
    decreases |ids|
  {
    assert exists x :: x in ids by {
      if forall x :: x !in ids {
        assert false;
      }
    }
    var x :| x in ids;
    var rest := ids - {x};
    if |rest| == 0 {
      assert rest == {} && forall y :: y in ids ==> y in rest || y == x;
      assert IsFirst(ids, date, x);
    } else {
      assert forall y :: y in ids ==> y in rest || y == x;
      SomeFirst(rest, date);
      var r :| IsFirst(rest, date, r);
      if Precedes(date, r, x) {
        assert IsFirst(ids, date, r);
      } else {
        assert IsFirst(ids, date, x);
      }
    }
  }

  ghost function First(ids: set<int>, date: int -> int): (x: int)
    requires ids != {}
    ensures x in ids && forall y :: y in ids && y != x ==> Precedes(date, x, y)
  {
    SomeFirst(ids, date);
    var x :| IsFirst(ids, date, x);
    x
  }

  /** The rows with these ids in the order of the query. */
  ghost function Ordered(ids: set<int>, date: int -> int): (rows: seq<int>)
    decreases |ids|
  {
    if ids == {} then [] else
      var x := First(ids, date);
      [x] + Ordered(ids - {x}, date)
  }

  ghost predicate Listing(rows: seq<int>, ids: set<int>, date: int -> int) {
    && (forall x :: x in rows <==> x in ids)
    && forall i, j :: 0 <= i < j < |rows| ==> Precedes(date, rows[i], rows[j])
  }

  lemma {:induction false} OrderedIsListing(ids: set<int>, date: int -> int)
    ensures Listing(Ordered(ids, date), ids, date)
    decreases |ids|
  {
    if ids != {} {
      var x := First(ids, date);
      var rest := Ordered(ids - {x}, date);
      OrderedIsListing(ids - {x}, date);
      forall j | 0 <= j < |rest|
        ensures Precedes(date, x, rest[j])
      {
        assert rest[j] in rest;
      }
    }
  }

  /** An order is all there is to a listing: two listings of the same rows in the same order are equal. */
  lemma {:induction false} OrderedUnique(rows: seq<int>, ids: set<int>, date: int -> int)
    requires Listing(rows, ids, date)
    ensures rows == Ordered(ids, date)
    decreases |rows|
  {
    if rows == [] {
      assert forall x :: x !in ids;
      assert ids == {};
    } else {
      var y := rows[0];
      assert y in rows && y in ids;
      assert ids != {};
      var x := First(ids, date);
      assert rows[0] in ids && x in rows;
      assert rows[0] == x;
      forall y
        ensures y in rows[1..] <==> y in ids - {x}
      {
        if y in rows[1..] {
          var i :| 0 <= i < |rows[1..]| && rows[1..][i] == y;
          assert Precedes(date, rows[0], rows[i + 1]);
        }
      }
      OrderedUnique(rows[1..], ids - {x}, date);
      assert rows == [x] + rows[1..];
    }
  }

  // ---------- pages ----------

  datatype Page = Page(rows: seq<int>, next: int)

  /** What the cursor leaves: everything at first, then the ids below it. */
  function Below(ids: set<int>, cursor: int): set<int> {
    set i | i in ids && (cursor > 0 ==> i < cursor)
  }

  /** LIMIT limit + 1: the extra row only tells that there is a next page. */
  function CutPage(rows: seq<int>, limit: nat): Page
    requires limit > 0
  {
    if |rows| > limit then Page(rows[..limit], rows[limit - 1]) else Page(rows, 0)
  }

  function Take(rows: seq<int>, n: nat): seq<int> {
    if n < |rows| then rows[..n] else rows
  }

  ghost function PageOf(ids: set<int>, date: int -> int, cursor: int, limit: nat): Page
    requires limit > 0
  {
    CutPage(Take(Ordered(Below(ids, cursor), date), limit + 1), limit)
  }

  ghost predicate Positive(ids: set<int>) {
    forall i :: i in ids ==> i > 0
  }

  lemma NextIsBelow(ids: set<int>, date: int -> int, cursor: int, limit: nat)
    requires limit > 0 && Positive(ids)
    ensures var next := PageOf(ids, date, cursor, limit).next;
            next != 0 ==> 0 < next && next in ids && (cursor > 0 ==> next < cursor)
  {
    var rows := Ordered(Below(ids, cursor), date);
    OrderedIsListing(Below(ids, cursor), date);
    if |rows| > limit {
      assert rows[limit - 1] in rows;
    }
  }

  /**
   What a client may expect of a page of these matches: as many as the limit allows, the first in the order of the
   query, in that order; and next is the last of them if any match is left out, and 0 if none is.
   */
  ghost predicate FirstOf(page: Page, matches: set<int>, date: int -> int, limit: nat) {
    && |page.rows| == (if |matches| < limit then |matches| else limit)
    && (forall i :: 0 <= i < |page.rows| ==> page.rows[i] in matches)
    && (forall i, j :: 0 <= i < j < |page.rows| ==> Precedes(date, page.rows[i], page.rows[j]))
    && (forall i, x :: 0 <= i < |page.rows| && x in matches && x !in page.rows ==> Precedes(date, page.rows[i], x))
    && ((forall x :: x in matches ==> x in page.rows) ==> page.next == 0)
    && forall x :: x in matches && x !in page.rows ==> page.rows != [] && page.next == page.rows[|page.rows| - 1]
  }

  /** And of a page of the rows below a cursor. */
  ghost predicate IsPage(page: Page, ids: set<int>, date: int -> int, cursor: int, limit: nat) {
    FirstOf(page, (set i | i in ids && (cursor <= 0 || i < cursor)), date, limit)
  }

  lemma {:induction false} OrderedLength(ids: set<int>, date: int -> int)
    ensures |Ordered(ids, date)| == |ids|
    decreases |ids|
  {
    if ids != {} {
      OrderedLength(ids - {First(ids, date)}, date);
    }
  }

  /** In a listing a row does not stand among those before it. */
  lemma NotBefore(rows: seq<int>, ids: set<int>, date: int -> int, n: nat)
    requires Listing(rows, ids, date) && n < |rows|
    ensures rows[n] !in rows[..n]
  {
    forall i | 0 <= i < n
      ensures rows[i] != rows[n]
    {
      assert Precedes(date, rows[i], rows[n]);
    }
  }

  lemma PrefixIsFirst(rows: seq<int>, matches: set<int>, date: int -> int, limit: nat)
    requires Listing(rows, matches, date) && |rows| == |matches| && 0 < limit < |rows|
    ensures FirstOf(Page(rows[..limit], rows[limit - 1]), matches, date, limit)
  {
    NotBefore(rows, matches, date, limit);
    var extra := rows[limit];
    assert extra in rows;
    assert extra in matches && extra !in rows[..limit];
    hide Precedes;
    assert forall j :: 0 <= j < limit ==> rows[j] in rows[..limit];
    forall i, x | 0 <= i < limit && x in matches && x !in rows[..limit]
      ensures Precedes(date, rows[..limit][i], x)
    {
      var j :| 0 <= j < |rows| && rows[j] == x;
    }
  }

  lemma WholeIsFirst(rows: seq<int>, matches: set<int>, date: int -> int, limit: nat)
    requires Listing(rows, matches, date) && |rows| == |matches| <= limit
    ensures FirstOf(Page(rows, 0), matches, date, limit)
  {
    hide Precedes;
    forall i | 0 <= i < |rows|
      ensures rows[i] in matches
    {
      assert rows[i] in rows;
    }
  }

  lemma PageIsPage(ids: set<int>, date: int -> int, cursor: int, limit: nat)
    requires limit > 0
    ensures IsPage(PageOf(ids, date, cursor, limit), ids, date, cursor, limit)
  {
    var matches := Below(ids, cursor);
    assert matches == set i | i in ids && (cursor <= 0 || i < cursor);
    var rows, page := Ordered(matches, date), PageOf(ids, date, cursor, limit);
    OrderedLength(matches, date);
    OrderedIsListing(matches, date);
    hide Ordered, Precedes, Below;
    if |rows| > limit {
      PrefixIsFirst(rows, matches, date, limit);
      hide FirstOf, Listing;
      assert page == Page(rows[..limit], rows[limit - 1]);
    } else {
      WholeIsFirst(rows, matches, date, limit);
      hide FirstOf, Listing;
    }
  }

  /** Where ids are positive, a next cursor of 0 means that nothing is left out. */
  lemma NoNextIff(page: Page, ids: set<int>, date: int -> int, cursor: int, limit: nat)
    requires IsPage(page, ids, date, cursor, limit) && Positive(ids)
    ensures page.next == 0 <==> forall x :: x in ids && (cursor <= 0 || x < cursor) ==> x in page.rows
  {
    var matches := set i | i in ids && (cursor <= 0 || i < cursor);
    if page.next == 0 {
      forall x | x in ids && (cursor <= 0 || x < cursor)
        ensures x in page.rows
      {
        assert x in matches;
        assert page.rows != [] ==> page.rows[|page.rows| - 1] in matches;
      }
    }
  }

  /**
   Everything a client gets by following next_cursor from the given cursor on, while the table changes:
   the k-th request sees the ids views(k). That this is a function is to say that it ends.
   */
  ghost function Follow(views: nat -> set<int>, date: int -> int, k: nat, cursor: int, limit: nat): seq<int>
    requires limit > 0 && cursor >= 0 && forall j :: Positive(views(j))
    decreases if cursor == 0 then 1 else 0, cursor
  {
    var page := PageOf(views(k), date, cursor, limit);
    NextIsBelow(views(k), date, cursor, limit);
    if page.next == 0 then page.rows else page.rows + Follow(views, date, k + 1, page.next, limit)
  }

  // ---------- running a listing ----------

  lemma FirstIsFirst(ids: set<int>, date: int -> int, x: int)
    requires x in ids && forall y :: y in ids && y != x ==> Precedes(date, x, y)
    ensures Ordered(ids, date) == [x] + Ordered(ids - {x}, date)
  {
    assert x == First(ids, date);
  }

  lemma NothingToOrder(date: int -> int)
    ensures Ordered({}, date) == []
  {
  }

  lemma OneIsFirst(ids: set<int>, date: int -> int)
    requires ids != {}
    ensures exists x :: x in ids && forall y :: y in ids && y != x ==> Precedes(date, x, y)
  {
    SomeFirst(ids, date);
    var x :| IsFirst(ids, date, x);
    assert x in ids;
  }

  /** ORDER BY … LIMIT, as the database does it. */
  method OrderAndLimit(ids: set<int>, date: int -> int, limit: nat) returns (rows: seq<int>)
    ensures rows == Take(Ordered(ids, date), limit)
  {
    hide Ordered, Precedes;
    var left := ids;
    rows := [];
    while |rows| < limit && left != {}
      invariant Ordered(ids, date) == rows + Ordered(left, date)
      invariant |rows| <= limit
      decreases |left|
    {
      OneIsFirst(left, date);
      var x :| x in left && forall y :: y in left && y != x ==> Precedes(date, x, y);
      FirstIsFirst(left, date, x);
      assert rows + ([x] + Ordered(left - {x}, date)) == (rows + [x]) + Ordered(left - {x}, date);
      rows := rows + [x];
      left := left - {x};
    }
    if left == {} {
      NothingToOrder(date);
    }
  }

  /** Scans the rows and cuts off the one that only tells of a next page. */
  method ScanPage(rows: seq<int>, limit: nat) returns (page: Page)
    requires limit > 0
    ensures page == CutPage(rows, limit)
  {
    var out, next := [], 0;
    for i := 0 to |rows|
      invariant out == rows[..i]
    {
      out := out + [rows[i]];
    }
    assert out == rows;
    if |out| > limit {
      next := out[limit - 1];
      out := out[..limit];
    }
    page := Page(out, next);
  }

  // ---------- when paging is exact ----------

  /** Older ids never have later dates. */
  ghost predicate DatesAgree(ids: set<int>, date: int -> int) {
    forall a, b :: a in ids && b in ids && a < b ==> date(a) <= date(b)
  }

  /** Later requests see the same rows as the first, and possibly rows with larger ids. */
  ghost predicate OnlyNewer(views: nat -> set<int>) {
    forall k, i, j :: i in views(0) && j in views(k) && j !in views(0) ==> j > i
  }

  ghost predicate NothingLost(views: nat -> set<int>) {
    forall k :: views(0) <= views(k)
  }

  lemma SameBelow(views: nat -> set<int>, k: nat, cursor: int)
    requires OnlyNewer(views) && NothingLost(views) && cursor > 0 && (cursor in views(0))
    ensures Below(views(k), cursor) == Below(views(0), cursor)
  {
    forall j | j in Below(views(k), cursor)
      ensures j in views(0)
    {
    }
  }

  /** Taking the first n rows leaves the rows below the n-th, when the order is that of the ids. */
  lemma RestIsBelow(ids: set<int>, date: int -> int, n: nat)
    requires DatesAgree(ids, date) && 0 < n <= |Ordered(ids, date)|
    requires forall i :: i in ids ==> i > 0
    ensures var rows := Ordered(ids, date);
            Ordered(Below(ids, rows[n - 1]), date) == rows[n..]
  {
    var rows := Ordered(ids, date);
    var c := rows[n - 1];
    OrderedIsListing(ids, date);
    forall x
      ensures x in rows[n..] <==> x in Below(ids, c)
    {
      if x in rows[n..] {
        var i :| 0 <= i < |rows[n..]| && rows[n..][i] == x;
        assert Precedes(date, rows[n - 1], rows[n + i]);
      }
      if x in Below(ids, c) {
        var i :| 0 <= i < |rows| && rows[i] == x;
        assert c in rows;
        assert Precedes(date, rows[i], rows[n - 1]) || n - 1 <= i;
        assert rows[n..][i - n] == x;
      }
    }
    OrderedUnique(rows[n..], Below(ids, c), date);
  }

  /** The first page, and then everything below its last row. */
  lemma PageSplits(ids: set<int>, date: int -> int, limit: nat)
    requires limit > 0 && Positive(ids) && DatesAgree(ids, date)
    ensures var page := PageOf(ids, date, 0, limit);
            Ordered(ids, date) == if page.next == 0 then page.rows else page.rows + Ordered(Below(ids, page.next), date)
  {
    var rows := Ordered(ids, date);
    assert Below(ids, 0) == ids;
    if |rows| > limit {
      RestIsBelow(ids, date, limit);
      assert rows == rows[..limit] + rows[limit..];
    }
  }

  /** The k-th request and the rest. */
  lemma FollowSplits(views: nat -> set<int>, date: int -> int, k: nat, cursor: int, limit: nat)
    requires limit > 0 && cursor >= 0 && forall j :: Positive(views(j))
    ensures var page := PageOf(views(k), date, cursor, limit);
            && (page.next != 0 ==> 0 < page.next && page.next in Below(views(k), cursor))
            && Follow(views, date, k, cursor, limit) ==
               if page.next == 0 then page.rows else page.rows + Follow(views, date, k + 1, page.next, limit)
  {
    NextIsBelow(views(k), date, cursor, limit);
  }

  /** The k-th request of a client sees what the first would have seen below its cursor. */
  lemma SamePage(views: nat -> set<int>, date: int -> int, k: nat, cursor: int, limit: nat)
    requires limit > 0 && OnlyNewer(views) && NothingLost(views)
    requires (cursor <= 0 && k == 0) || (cursor > 0 && cursor in views(0))
    ensures Below(views(k), cursor) == Below(views(0), cursor)
    ensures PageOf(views(k), date, cursor, limit) == PageOf(Below(views(0), cursor), date, 0, limit)
  {
    if cursor > 0 {
      SameBelow(views, k, cursor);
    }
    assert Below(Below(views(0), cursor), 0) == Below(views(0), cursor);
  }

  /** One request, on both sides: what it gives, and what is left to give. */
  lemma FollowOnce(views: nat -> set<int>, date: int -> int, k: nat, cursor: int, limit: nat)
      returns (rows: seq<int>, next: int)
    requires limit > 0 && cursor >= 0 && forall j :: Positive(views(j))
    requires OnlyNewer(views) && NothingLost(views) && DatesAgree(views(0), date)
    requires (cursor <= 0 && k == 0) || (cursor > 0 && cursor in views(0))
    ensures next == 0 ==>
      Follow(views, date, k, cursor, limit) == rows == Ordered(Below(views(0), cursor), date)
    ensures next != 0 ==>
      && 0 < next && next in views(0) && (cursor > 0 ==> next < cursor)
      && Follow(views, date, k, cursor, limit) == rows + Follow(views, date, k + 1, next, limit)
      && Ordered(Below(views(0), cursor), date) == rows + Ordered(Below(views(0), next), date)
  {
    var ids := Below(views(0), cursor);
    var page := PageOf(ids, date, 0, limit);
    FollowSplits(views, date, k, cursor, limit);
    SamePage(views, date, k, cursor, limit);
    PageSplits(ids, date, limit);
    rows, next := page.rows, page.next;
    assert next != 0 ==> Below(ids, next) == Below(views(0), next);
  }

  lemma {:induction false} FollowFrom(views: nat -> set<int>, date: int -> int, k: nat, cursor: int, limit: nat)
    requires limit > 0 && cursor >= 0 && forall j :: Positive(views(j))
    requires OnlyNewer(views) && NothingLost(views) && DatesAgree(views(0), date)
    requires (cursor <= 0 && k == 0) || (cursor > 0 && cursor in views(0))
    ensures Follow(views, date, k, cursor, limit) == Ordered(Below(views(0), cursor), date)
    decreases if cursor == 0 then 1 else 0, cursor
  {
    hide *;
    var _, next := FollowOnce(views, date, k, cursor, limit);
    if next != 0 {
      FollowFrom(views, date, k + 1, next, limit);
    }
  }

  /**
   Where dates agree with ids (as they do in a listing by id alone), following the cursor gives every row of
   the first request's view once, in order, even if rows with larger ids appear between requests.
   */
  lemma PagingIsExact(views: nat -> set<int>, date: int -> int, limit: nat)
    requires limit > 0 && forall j :: Positive(views(j))
    requires OnlyNewer(views) && NothingLost(views) && DatesAgree(views(0), date)
    ensures Follow(views, date, 0, 0, limit) == Ordered(views(0), date)
  {
    FollowFrom(views, date, 0, 0, limit);
    assert Below(views(0), 0) == views(0);
  }

  // ---------- and when it is not ----------

  /** A table that does not change while it is paged through. */
  function Still(ids: set<int>): nat -> set<int> {
    _ => ids
  }

  /** Every row, and none twice. */
  ghost predicate Exact(rows: seq<int>, ids: set<int>) {
    && (forall x :: x in rows <==> x in ids)
    && forall i, j :: 0 <= i < j < |rows| ==> rows[i] != rows[j]
  }

  /** With pages of one row, a row is never returned if a smaller id comes before it. */
  lemma {:induction false} OvertakenIsLost(ids: set<int>, date: int -> int, k: nat, cursor: int, a: int, b: int)
    requires Positive(ids) && cursor >= 0
    requires a in ids && b in ids && a < b && date(a) > date(b)
    ensures b !in Follow(Still(ids), date, k, cursor, 1)
    decreases if cursor == 0 then 1 else 0, cursor
  {
    var views := Still(ids);
    var page := PageOf(views(k), date, cursor, 1);
    var rows := Ordered(Below(ids, cursor), date);
    NextIsBelow(ids, date, cursor, 1);
    OrderedIsListing(Below(ids, cursor), date);
    assert a in Below(ids, cursor) || b !in Below(ids, cursor);
    assert b !in page.rows;
    if page.next != 0 {
      OvertakenIsLost(ids, date, k + 1, page.next, a, b);
    }
  }

  /** Paging through a listing by date is exact for every limit if and only if the dates agree with the ids. */
  lemma PagingByDateIsExactIff(ids: set<int>, date: int -> int)
    requires Positive(ids)
    ensures (forall n :: Exact(Follow(Still(ids), date, 0, 0, ClampLimit(n)), ids)) <==> DatesAgree(ids, date)
  {
    var views := Still(ids);
    if DatesAgree(ids, date) {
      forall n
        ensures Exact(Follow(views, date, 0, 0, ClampLimit(n)), ids)
      {
        PagingIsExact(views, date, ClampLimit(n));
        OrderedIsListing(ids, date);
      }
    } else {
      var a, b :| a in ids && b in ids && a < b && date(a) > date(b);
      OvertakenIsLost(ids, date, 0, 0, a, b);
      assert !Exact(Follow(views, date, 0, 0, ClampLimit(1)), ids);
    }
  }
}

/** The message listings of internal/store/queries.go, from the filters to the page. */
module MessageStore {
  import opened Wrappers
  import opened Queries
  import opened Paging
  import opened Search

  /** The date by which a listing is ordered. */
  function DateIn(table: map<int, MessageRow>): int -> int {
    (id: int) => if id in table then table[id].date else 0
  }

  /** Listing a grantee's messages is searching with no words. */
  lemma ListIsSearch(like: Like, q: Prepared, p: SearchParams)
    requires p.from == "" && p.subject == "" && p.body == ""
    requires Sound(like, MessageCells, q,
               (m: MessageRow) => GranteeIs(p.grantee, m) && Within(p.since, p.until, m.date)
                 && BelowCursor(p.cursor, m.id))
    ensures Sound(like, MessageCells, q, (m: MessageRow) => MessageWanted(like, p, m))
  {
    forall m: MessageRow
      ensures MessageWanted(like, p, m) <==>
              GranteeIs(p.grantee, m) && Within(p.since, p.until, m.date) && BelowCursor(p.cursor, m.id)
    {
    }
  }

  class Store {
    const like: Like
    var messages: map<int, MessageRow>

    constructor (like: Like, messages: map<int, MessageRow>)
      ensures this.like == like && this.messages == messages
    {
      this.like, this.messages := like, messages;
    }

    ghost predicate Valid()
      reads this
    {
      forall id :: id in messages ==> messages[id].id == id
    }

    /** The database runs the query as sent, and the rows are cut to a page. */
    method RunQuery(q: Prepared, limit: nat, ghost p: SearchParams) returns (page: Page)
      requires Valid() && limit > 0 && Sound(like, MessageCells, q, (m: MessageRow) => MessageWanted(like, p, m))
      requires LatestFirst(q.query)
      ensures page == PageOf(MatchingMessages(like, messages, p), DateIn(messages), p.cursor, limit)
      ensures IsPage(page, MatchingMessages(like, messages, p), DateIn(messages), p.cursor, limit)
    {
      var rows := OrderAndLimit(SelectedMessages(like, messages, q), DateIn(messages), limit + 1);
      SelectedIsBelowCursor(like, messages, p, q);
      page := ScanPage(rows, limit);
      hide IsPage;
      PageIsPage(MatchingMessages(like, messages, p), DateIn(messages), p.cursor, limit);
    }

    /** SearchMessages refuses exactly the search without filters; else it returns the page of the matches. */
    method SearchMessages(p: SearchParams) returns (page: Option<Page>)
      requires Valid()
      ensures page.None? <==> NoFilter(p)
      ensures page.Some? ==>
        && page.value == PageOf(MatchingMessages(like, messages, p), DateIn(messages), p.cursor, ClampLimit(p.limit))
        && IsPage(page.value, MatchingMessages(like, messages, p), DateIn(messages), p.cursor, ClampLimit(p.limit))
    {
      hide IsPage;
      var limit := ClampLimit(p.limit);
      var q := Search.SearchMessages(like, p);
      if q.None? {
        return None;
      }
      var found := RunQuery(q.value, limit, p);
      page := Some(found);
    }

    /** ListMessagesByGrantee, the page of the messages of a grantee, or of the unassigned ones. */
    method ListMessagesByGrantee(g: string, since: Option<int>, until: Option<int>, limit: int, cursor: int)
        returns (page: Option<Page>)
      requires Valid()
      ensures page.None? <==> g == ""
      ensures page.Some? ==>
        var p := SearchParams(g, "", "", "", since, until, cursor, limit);
        && page.value == PageOf(MatchingMessages(like, messages, p), DateIn(messages), cursor, ClampLimit(limit))
        && IsPage(page.value, MatchingMessages(like, messages, p), DateIn(messages), cursor, ClampLimit(limit))
    {
      hide IsPage;
      var q := ListMessages(like, g, since, until, cursor, limit);
      if q.None? {
        return None;
      }
      ghost var p := SearchParams(g, "", "", "", since, until, cursor, limit);
      hide Sound;
      ListIsSearch(like, q.value, p);
      var found := RunQuery(q.value, ClampLimit(limit), p);
      page := Some(found);
    }
  }

  lemma MatchesHaveDates(like: Like, table: map<int, MessageRow>, p: SearchParams)
    requires forall id :: id in table ==> id > 0 && table[id].id == id
    ensures var ids := MatchingMessages(like, table, p);
            && ids <= table.Keys && Positive(ids)
            && (DatesAgree(ids, DateIn(table)) <==> forall a, b :: a in ids && b in ids && a < b ==>
                    table[a].date <= table[b].date)
  {
    hide MessageWanted;
    var ids := MatchingMessages(like, table, p);
    if forall a, b :: a in ids && b in ids && a < b ==> table[a].date <= table[b].date {
      forall a, b | a in ids && b in ids && a < b
        ensures DateIn(table)(a) <= DateIn(table)(b)
      {
        assert table[a].date <= table[b].date;
      }
    }
    if DatesAgree(ids, DateIn(table)) {
      forall a, b | a in ids && b in ids && a < b
        ensures table[a].date <= table[b].date
      {
        assert DateIn(table)(a) <= DateIn(table)(b);
      }
    }
  }

  /**
   So a client that follows next_cursor through a search, or through a grantee's messages, gets every match
   exactly once, whatever limit it asks for, if and only if among the matches no smaller id has a later date.
   */
  lemma MessagePagingIsExactIff(like: Like, table: map<int, MessageRow>, p: SearchParams)
    requires !NoFilter(p.(cursor := 0)) && forall id :: id in table ==> id > 0 && table[id].id == id
    ensures var ids := MatchingMessages(like, table, p);
            && Positive(ids)
            && ((forall n :: Exact(Follow(Still(ids), DateIn(table), 0, 0, ClampLimit(n)), ids))
                <==> forall a, b :: a in ids && b in ids && a < b ==> table[a].date <= table[b].date)
  {
    hide Follow, Exact, Ordered, DatesAgree, MatchingMessages;
    var ids := MatchingMessages(like, table, p);
    MatchesHaveDates(like, table, p);
    PagingByDateIsExactIff(ids, DateIn(table));
  }
}

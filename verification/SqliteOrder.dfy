/** ORDER BY and WHERE on SQLite's TEXT timestamps agree with the order and comparison of the instants they hold. */
module SqliteOrder {
  import opened Basics
  import opened ExecutionTable
  import opened Lexicographic
  import opened TimeText
  import opened TimeTextRange

  // The created_at column holds each row's instant as text.
  ghost predicate Stored(rows: map<Id, Row>, texts: map<Id, string>) {
    forall id :: id in rows ==>
      id in texts && rows[id].createdAt >= 0
      && CivilOf(rows[id].createdAt).year <= 9999 && texts[id] == Format(rows[id].createdAt)
  }

  // ORDER BY created_at ASC, id ASC as SQLite evaluates it.
  predicate TextOlder(texts: map<Id, string>, a: Id, b: Id)
    requires a in texts && b in texts
  {
    Less(texts[a], texts[b]) || (texts[a] == texts[b] && a < b)
  }

  // The row that the claim's ORDER BY ... LIMIT 1 returns is the oldest pending row in time order.
  lemma ClaimOrderIsTimeOrder(rows: map<Id, Row>, texts: map<Id, string>, candidates: set<Id>, id: Id)
    requires Stored(rows, texts) && candidates <= rows.Keys && id in candidates
    ensures (forall c :: c in candidates && c != id ==> TextOlder(texts, id, c))
       <==> IsFirst(rows, candidates, Some(id))
  {
    forall c | c in candidates
      ensures TextOlder(texts, id, c) <==> Older(rows, id, c)
    {
      TextOrderIsTimeOrder(rows[id].createdAt, rows[c].createdAt);
    }
  }

  // Whether WHERE created_at >= ?, with the bound formatted by the same layout, is right about a row.
  predicate Judged(rows: map<Id, Row>, texts: map<Id, string>, since: int, id: Id)
    requires id in rows && id in texts && since + ERA >= 0
  {
    !Less(texts[id], FormatBound(since)) <==> rows[id].createdAt >= since
  }

  // The filter is right about all rows of a table exactly when the bound is before year 10000, or no row is of a year
  // greater than the bound's first four digits.
  lemma SinceIsTimeFilter(rows: map<Id, Row>, texts: map<Id, string>, since: int)
    requires Stored(rows, texts) && since + ERA >= 0
    ensures (forall id :: id in rows ==> Judged(rows, texts, since, id))
       <==> since < 0 || CivilOf(since).year <= 9999
            || forall id :: id in rows ==> CivilOf(rows[id].createdAt).year <= Lead(CivilOf(since).year, 4)
  {
    forall id | id in rows
      ensures Judged(rows, texts, since, id)
         <==> since < 0 || CivilOf(since).year <= 9999 || CivilOf(rows[id].createdAt).year <= Lead(CivilOf(since).year, 4)
    {
      FilterExact(rows[id].createdAt, since);
    }
  }
}

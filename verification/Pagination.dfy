/**
 Offset pagination: ListExecutions and ListAuditEntries of internal/handlers/api.go over the store's listing
 (internal/store/sqlite.go and postgres.go). Both have the same code with different limits.
 */
module Pagination {
  import opened Basics

  // ---------------------------------------------------------------- the listing

  datatype Entry = Entry(id: int, at: int)

  // ORDER BY created_at DESC, id ASC.
  predicate Before(a: Entry, b: Entry) {
    a.at > b.at || (a.at == b.at && a.id < b.id)
  }

  predicate Ordered(s: seq<Entry>) {
    forall i, j :: 0 <= i < j < |s| ==> Before(s[i], s[j])
  }

  // The result of the query without LIMIT and OFFSET.
  ghost predicate IsListing(listing: seq<Entry>, table: set<Entry>, where: Entry -> bool) {
    Ordered(listing) && forall e :: e in listing <==> e in table && where(e)
  }

  ghost predicate IdsUnique(table: set<Entry>) {
    forall a, b :: a in table && b in table && a.id == b.id ==> a == b
  }

  // A scan with an ordered insertion: what the database's sort amounts to.
  method Insert(sorted: seq<Entry>, e: Entry) returns (r: seq<Entry>)
    requires Ordered(sorted) && forall x :: x in sorted ==> x.id != e.id
    ensures Ordered(r) && forall x :: x in r <==> x in sorted || x == e
  {
    var i := 0;
    while i < |sorted| && Before(sorted[i], e)
      invariant 0 <= i <= |sorted|
      invariant forall j :: 0 <= j < i ==> Before(sorted[j], e)
    {
      i := i + 1;
    }
    InsertOrdered(sorted, e, i);
    r := sorted[..i] + [e] + sorted[i..];
  }

  lemma ConcatOrdered(a: seq<Entry>, b: seq<Entry>)
    requires Ordered(a) && Ordered(b)
    requires forall i, j :: 0 <= i < |a| && 0 <= j < |b| ==> Before(a[i], b[j])
    ensures Ordered(a + b) && forall e :: e in a + b <==> e in a || e in b
  {
  }

  lemma InsertOrdered(sorted: seq<Entry>, e: Entry, i: nat)
    requires Ordered(sorted) && i <= |sorted| && forall x :: x in sorted ==> x.id != e.id
    requires forall j :: 0 <= j < i ==> Before(sorted[j], e)
    requires i < |sorted| ==> !Before(sorted[i], e)
    ensures var r := sorted[..i] + [e] + sorted[i..]; Ordered(r) && forall x :: x in r <==> x in sorted || x == e
  {
    var before, after := sorted[..i], sorted[i..];
    assert sorted == before + after;
    ConcatOrdered(before, [e]);
    forall j | 0 <= j < |after|
      ensures Before(e, after[j])
    {
      assert after[0] in sorted && after[0] == sorted[i];
    }
    forall j, k | 0 <= j < |before + [e]| && 0 <= k < |after|
      ensures Before((before + [e])[j], after[k])
    {
      assert after[k] == sorted[i + k];
    }
    ConcatOrdered(before + [e], after);
    ConcatMembers(before, [e], after);
  }

  lemma ConcatMembers(a: seq<Entry>, b: seq<Entry>, c: seq<Entry>)
    ensures forall x :: x in a + b + c <==> x in a + c || x in b
  {
  }

  method Query(table: set<Entry>, where: Entry -> bool) returns (listing: seq<Entry>)
    requires IdsUnique(table)
    ensures IsListing(listing, table, where)
    ensures forall i, j :: 0 <= i < j < |listing| ==>
              listing[i].at > listing[j].at || (listing[i].at == listing[j].at && listing[i].id < listing[j].id)
  {
    listing := [];
    var rest := table;
    while rest != {}
      invariant rest <= table
      invariant IsListing(listing, table - rest, where)
      decreases |rest|
    {
      var e :| e in rest;
      if where(e) {
        listing := Insert(listing, e);
      }
      rest := rest - {e};
    }
    assert table - rest == table;
  }

  lemma {:induction false} OrderedUnique(a: seq<Entry>, b: seq<Entry>)
    requires Ordered(a) && Ordered(b) && forall e :: e in a <==> e in b
    ensures a == b
  {
    assert (a != [] ==> a[0] in b) && (b != [] ==> b[0] in a);
    if a != [] {
      forall e
        ensures e in a[1..] <==> e in b[1..]
      {
        Tail(a, e);
        Tail(b, e);
      }
      OrderedUnique(a[1..], b[1..]);
      assert a == [a[0]] + a[1..] && b == [b[0]] + b[1..];
    }
  }

  lemma Tail(s: seq<Entry>, e: Entry)
    requires Ordered(s) && s != []
    ensures e in s[1..] <==> e in s && e != s[0]
  {
    if e in s && e != s[0] {
      var i :| 0 <= i < |s| && s[i] == e;
      assert s[1..][i - 1] == e;
    }
  }

  // The table and the filter determine the listing: every page is cut from the same one.
  lemma ListingDetermined(a: seq<Entry>, b: seq<Entry>, table: set<Entry>, where: Entry -> bool)
    requires IsListing(a, table, where) && IsListing(b, table, where)
    ensures a == b
  {
    OrderedUnique(a, b);
  }

  // ---------------------------------------------------------------- the store

  datatype Limits = Limits(default_: int, max: int)

  const EXECUTIONS := Limits(20, 100)
  const AUDIT := Limits(50, 200)

  predicate ValidLimits(l: Limits) {
    1 <= l.default_ <= l.max
  }

  function ClampLimit(v: int, l: Limits): int {
    if v <= 0 then l.default_ else if v > l.max then l.max else v
  }

  function ClampOffset(v: int): int {
    if v < 0 then 0 else v
  }

  function Min(a: int, b: int): int {
    if a < b then a else b
  }

  // LIMIT ? OFFSET ?
  function Cut(listing: seq<Entry>, offset: nat, limit: nat): seq<Entry> {
    listing[Min(offset, |listing|)..Min(offset + limit, |listing|)]
  }

  datatype ListResult = ListResult(items: seq<Entry>, total: nat, limit: int, offset: int)

  // The loops that convert the rows of a page one by one, in the store and in the handler.
  method Converted(rows: seq<Entry>) returns (items: seq<Entry>)
    ensures items == rows
  {
    items := [];
    var i := 0;
    while i < |rows|
      invariant 0 <= i <= |rows| && items == rows[..i]
    {
      assert rows[..i + 1] == rows[..i] + [rows[i]];
      items := items + [rows[i]];
      i := i + 1;
    }
    assert rows[..|rows|] == rows;
  }

  method StoreList(listing: seq<Entry>, l: Limits, limit: int, offset: int) returns (r: ListResult)
    requires ValidLimits(l)
    ensures r == ListResult(Cut(listing, ClampOffset(offset), ClampLimit(limit, l)), |listing|,
                            ClampLimit(limit, l), ClampOffset(offset))
  {
    var lim, off := ClampLimit(limit, l), ClampOffset(offset);
    var items := Converted(Cut(listing, off, lim));
    r := ListResult(items, |listing|, lim, off);
  }

  // ---------------------------------------------------------------- the handler

  const MAX_OFFSET := 0x7FFF_FFFF

  datatype Response =
    | BadPage
    | PageTooLarge
    | Panic
    | Page(items: seq<Entry>, total: nat, page: int, limit: int, hasMore: bool)

  // Go's integer division of a non-negative number: it truncates toward zero.
  function Quotient(a: nat, b: int): int
    requires b != 0
  {
    if b > 0 then a / b else -(a / -b)
  }

  // What a page request answers; the offset is fixed before the store clamps the limit.
  function Respond(listing: seq<Entry>, l: Limits, page: int, limit: int): Response
    requires ValidLimits(l)
  {
    if page < 1 then BadPage
    else if page > 1 && limit == 0 then Panic
    else if page > 1 && page - 1 > Quotient(MAX_OFFSET, limit) then PageTooLarge
    else Served(listing, l, (page - 1) * limit, limit)
  }

  function Served(listing: seq<Entry>, l: Limits, start: int, limit: int): Response
    requires ValidLimits(l)
  {
    var offset, lim := ClampOffset(start), ClampLimit(limit, l);
    var items := Cut(listing, offset, lim);
    Page(items, |listing|, offset / lim + 1, lim, offset + |items| < |listing|)
  }

  method Serve(listing: seq<Entry>, l: Limits, start: int, limit: int) returns (r: Response)
    requires ValidLimits(l)
    ensures r == Served(listing, l, start, limit)
  {
    var result := StoreList(listing, l, limit, start);
    var items := Converted(result.items);
    r := Page(items, result.total, result.offset / result.limit + 1, result.limit,
              result.offset + |items| < result.total);
  }

  method List(listing: seq<Entry>, l: Limits, page: Option<int>, limit: Option<int>) returns (r: Response)
    requires ValidLimits(l)
    ensures r == Respond(listing, l, if page.Some? then page.value else 1, if limit.Some? then limit.value else l.default_)
  {
    var effectiveLimit := l.default_;
    if limit.Some? {
      effectiveLimit := limit.value;
    }
    var offset := 0;
    if page.Some? {
      if page.value < 1 {
        return BadPage;
      }
      if page.value > 1 {
        if effectiveLimit == 0 {
          return Panic;
        }
        if page.value - 1 > Quotient(MAX_OFFSET, effectiveLimit) {
          return PageTooLarge;
        }
        offset := (page.value - 1) * effectiveLimit;
      }
    }
    assert page.None? || page.value == 1 ==> offset == (1 - 1) * effectiveLimit;
    r := Serve(listing, l, offset, effectiveLimit);
  }

  // ---------------------------------------------------------------- what paging does

  lemma OffsetBound(page: int, limit: int)
    requires page >= 1 && limit >= 1
    ensures page - 1 <= MAX_OFFSET / limit <==> (page - 1) * limit <= MAX_OFFSET
    ensures (page - 1) * limit / limit == page - 1
    ensures (page - 1) * limit >= 0
  {
    var q, r := MAX_OFFSET / limit, MAX_OFFSET % limit;
    assert MAX_OFFSET == q * limit + r;
    if page - 1 <= q {
      MulMonotone(page - 1, q, limit);
    } else {
      MulMonotone(q + 1, page - 1, limit);
      assert (q + 1) * limit == q * limit + limit;
    }
    DivOfMul(page - 1, limit);
  }

  lemma MulMonotone(a: int, b: int, c: int)
    requires a <= b && c >= 0
    ensures a * c <= b * c
  {
  }

  lemma {:induction false} DivOfMul(a: nat, b: int)
    requires b >= 1
    ensures a * b / b == a && a * b >= 0
  {
    if a > 0 {
      DivOfMul(a - 1, b);
      assert a * b == (a - 1) * b + b;
      DivStep((a - 1) * b, b);
    }
  }

  lemma DivStep(x: nat, b: int)
    requires b >= 1
    ensures (x + b) / b == x / b + 1
  {
    var q, r := x / b, x % b;
    assert x == q * b + r;
    assert (x + b) == (q + 1) * b + r;
    QuotientUnique(x + b, q + 1, r, b);
  }

  lemma QuotientUnique(x: nat, q: nat, r: int, b: int)
    requires b >= 1 && 0 <= r < b && x == q * b + r
    ensures x / b == q
  {
    var d := x / b;
    assert x == d * b + x % b;
    assert (d + 1) * b == d * b + b && (q + 1) * b == q * b + b;
    if d < q {
      MulMonotone(d + 1, q, b);
    } else if d > q {
      MulMonotone(q + 1, d, b);
    }
  }

  // Within the store's range, a page is served exactly when its offset fits, and then it is the page that was asked
  // for; there is more exactly when the next page has something.
  lemma PageServed(listing: seq<Entry>, l: Limits, page: int, limit: int)
    requires ValidLimits(l) && 1 <= limit <= l.max
    ensures Respond(listing, l, page, limit).Page? <==> page >= 1 && (page - 1) * limit <= MAX_OFFSET
    ensures var r := Respond(listing, l, page, limit);
            r.Page? ==>
              && r.items == Cut(listing, (page - 1) * limit, limit) && r.total == |listing|
              && r.page == page && r.limit == limit
              && (r.hasMore <==> page * limit < |listing|)
              && (r.hasMore <==> Cut(listing, page * limit, limit) != [])
  {
    if page >= 1 {
      OffsetBound(page, limit);
      assert page * limit == (page - 1) * limit + limit;
    }
  }

  // The first page for any limit: the default number of rows for a limit of zero or less, and never more than the
  // maximum.
  lemma FirstPage(listing: seq<Entry>, l: Limits, limit: int)
    returns (n: nat)
    requires ValidLimits(l)
    ensures limit <= 0 ==> n == l.default_
    ensures limit > l.max ==> n == l.max
    ensures 1 <= limit <= l.max ==> n == limit
    ensures n < |listing| ==> Respond(listing, l, 1, limit) == Page(listing[..n], |listing|, 1, n, true)
    ensures n >= |listing| ==> Respond(listing, l, 1, limit) == Page(listing, |listing|, 1, n, false)
  {
    n := ClampLimit(limit, l);
    assert Respond(listing, l, 1, limit) == Served(listing, l, 0, limit);
    FirstCut(listing, n);
    assert 0 / n == 0;
  }

  lemma FirstCut(listing: seq<Entry>, n: nat)
    ensures Cut(listing, 0, n) == if n < |listing| then listing[..n] else listing
  {
  }

  // Whatever the limit, an accepted page starts where a 32-bit OFFSET can.
  lemma AcceptedOffsetFits(listing: seq<Entry>, l: Limits, page: int, limit: int)
    requires ValidLimits(l) && Respond(listing, l, page, limit).Page?
    ensures 0 <= ClampOffset((page - 1) * limit) <= MAX_OFFSET
  {
    if limit >= 1 {
      OffsetBound(page, limit);
    }
  }

  // The items of pages 1 to n, one after another.
  function Pages(listing: seq<Entry>, l: Limits, limit: int, n: nat): seq<Entry>
    requires ValidLimits(l)
  {
    if n == 0 then []
    else
      var r := Respond(listing, l, n, limit);
      Pages(listing, l, limit, n - 1) + if r.Page? then r.items else []
  }

  // No gap and no duplicate: the first n pages are the beginning of the listing, and enough pages are all of it.
  lemma {:induction false} PagesPartition(listing: seq<Entry>, l: Limits, limit: int, n: nat)
    requires ValidLimits(l) && 1 <= limit <= l.max
    requires n > 0 ==> (n - 1) * limit <= MAX_OFFSET
    ensures n * limit >= 0
    ensures Pages(listing, l, limit, n) == listing[..Min(n * limit, |listing|)]
    ensures n * limit >= |listing| ==> Pages(listing, l, limit, n) == listing
  {
    if n > 0 {
      var from := PageStart(n, limit);
      PagesPartition(listing, l, limit, n - 1);
      PageServed(listing, l, n, limit);
      CutExtends(listing, from, limit);
    }
  }

  lemma PageStart(n: nat, limit: int) returns (from: nat)
    requires n > 0 && limit >= 1
    ensures from == (n - 1) * limit && n * limit == from + limit
    ensures n > 1 ==> (n - 2) * limit <= from
  {
    OffsetBound(n, limit);
    from := (n - 1) * limit;
  }

  lemma CutExtends(listing: seq<Entry>, from: nat, limit: nat)
    ensures listing[..Min(from, |listing|)] + Cut(listing, from, limit) == listing[..Min(from + limit, |listing|)]
  {
  }

  // ---------------------------------------------------------------- and when it does not

  ghost predicate Reachable(listing: seq<Entry>, l: Limits, limit: int, k: nat)
    requires ValidLimits(l) && k < |listing|
  {
    exists page :: Serves(Respond(listing, l, page, limit), listing[k])
  }

  predicate Serves(r: Response, e: Entry) {
    r.Page? && e in r.items
  }

  // Every row of a listing can be paged to exactly when the limit is one the store leaves alone, or the first page
  // holds everything anyway. A larger limit skips rows between pages; a limit of zero or less never serves a second
  // page.
  lemma PagingComplete(listing: seq<Entry>, l: Limits, limit: int)
    requires ValidLimits(l) && Ordered(listing) && |listing| <= MAX_OFFSET + 1
    ensures (forall k: nat :: k < |listing| ==> Reachable(listing, l, limit, k))
            <==> 1 <= limit <= l.max || |listing| <= (if limit <= 0 then l.default_ else l.max)
  {
    if 1 <= limit <= l.max {
      forall k: nat | k < |listing|
        ensures Reachable(listing, l, limit, k)
      {
        RowOnItsPage(listing, l, limit, k);
      }
    } else if |listing| <= ClampLimit(limit, l) {
      forall k: nat | k < |listing|
        ensures Reachable(listing, l, limit, k)
      {
        var r := Respond(listing, l, 1, limit);
        assert r.items[k] == listing[k];
        assert Serves(r, listing[k]);
      }
    } else {
      assert !Reachable(listing, l, limit, ClampLimit(limit, l)) by {
        forall page
          ensures !Serves(Respond(listing, l, page, limit), listing[ClampLimit(limit, l)])
        {
          NextRowMissed(listing, l, limit, page);
        }
      }
    }
  }

  lemma RowOnItsPage(listing: seq<Entry>, l: Limits, limit: int, k: nat)
    requires ValidLimits(l) && 1 <= limit <= l.max && k < |listing| <= MAX_OFFSET + 1
    ensures Reachable(listing, l, limit, k)
  {
    var page, from := PageOf(k, limit);
    PageServed(listing, l, page, limit);
    assert Cut(listing, from, limit)[k - from] == listing[k];
    assert Serves(Respond(listing, l, page, limit), listing[k]);
  }

  lemma PageOf(k: nat, limit: int) returns (page: int, from: nat)
    requires limit >= 1
    ensures page >= 1 && from == (page - 1) * limit && from <= k < from + limit
  {
    page, from := k / limit + 1, k / limit * limit;
  }

  // A row before or after a cut is not in it.
  lemma CutMisses(listing: seq<Entry>, offset: nat, limit: nat, k: nat)
    requires Ordered(listing) && k < |listing| && (k < offset || offset + limit <= k)
    ensures listing[k] !in Cut(listing, offset, limit)
  {
    var cut, from := Cut(listing, offset, limit), Min(offset, |listing|);
    forall i | 0 <= i < |cut|
      ensures cut[i] != listing[k]
    {
      assert cut[i] == listing[from + i] && from + i != k;
    }
  }

  // Only page 1 is served outside the store's range, or a page that starts beyond the clamped limit.
  lemma OffsetBeyond(l: Limits, page: int, limit: int)
    requires ValidLimits(l) && !(1 <= limit <= l.max)
    ensures page < 1 || page == 1 || limit == 0 || page - 1 > Quotient(MAX_OFFSET, limit)
            || (page - 1) * limit > ClampLimit(limit, l)
  {
    if page > 1 && limit > 0 {
      MulMonotone(1, page - 1, limit);
    }
  }

  // The first row after the clamped first page is on no page.
  lemma NextRowMissed(listing: seq<Entry>, l: Limits, limit: int, page: int)
    requires ValidLimits(l) && Ordered(listing) && !(1 <= limit <= l.max) && ClampLimit(limit, l) < |listing|
    ensures !Serves(Respond(listing, l, page, limit), listing[ClampLimit(limit, l)])
  {
    var c := ClampLimit(limit, l);
    OffsetBeyond(l, page, limit);
    var offset := (page - 1) * limit;
    assert page == 1 ==> offset == 0;
    if page == 1 || offset > c {
      CutMisses(listing, offset, c, c);
    }
  }
}

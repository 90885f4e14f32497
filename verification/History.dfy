/** An owner's submission history, newest first, read page by page with a keyset cursor. */
module History {
  import opened Basics
  import opened Sorting
  import opened SubmissionStore
  import opened SubmissionQuotas

  /** What orders a history and what its cursor carries. */
  datatype Key = Key(created: Time, id: Id)

  // -------------------------------------------------------------------------- the query

  predicate Newer(a: Key, b: Key) { a.created > b.created || (a.created == b.created && a.id >= b.id) }

  predicate Older(a: Key, b: Key) { a.created < b.created || (a.created == b.created && a.id < b.id) }

  predicate Follows(a: Key, cursor: Option<Key>) { cursor.Some? ==> Older(a, cursor.value) }

  function KeyOf(r: Row): Key { Key(r.created, r.id) }

  predicate Wanted(r: Row, user: UserId, cursor: Option<Key>) { r.user == user && Follows(KeyOf(r), cursor) }

  /** The owner's rows beyond the cursor, in table order. */
  function Keys(rows: seq<Row>, user: UserId, cursor: Option<Key>): seq<Key>
  {
    if rows == [] then []
    else
      Keys(rows[..|rows| - 1], user, cursor)
      + if Wanted(rows[|rows| - 1], user, cursor) then [KeyOf(rows[|rows| - 1])] else []
  }

  function Listing(rows: seq<Row>, user: UserId, cursor: Option<Key>): seq<Key>
  {
    Sort(Keys(rows, user, cursor), Newer)
  }

  datatype Page = Page(items: seq<Key>, next: Option<Key>)

  /** One request: one row more is read than is shown, to learn whether a page follows. */
  function GetSubmissions(listing: seq<Key>, limit: nat): Page
    requires limit > 0
  {
    var records := if limit + 1 < |listing| then listing[..limit + 1] else listing;
    if |records| > limit then Page(records[..limit], Some(records[limit - 1])) else Page(records, None)
  }

  // ---------------------------------------------------------------- what a listing holds

  lemma {:induction false} KeysAre(rows: seq<Row>, user: UserId, cursor: Option<Key>)
    requires Keyed(rows)
    ensures Distinct(Keys(rows, user, cursor))
    ensures forall k :: k in Keys(rows, user, cursor) <==> exists i | 0 <= i < |rows| :: Wanted(rows[i], user, cursor) && KeyOf(rows[i]) == k
  {
    if rows != [] {
      var front, last := rows[..|rows| - 1], rows[|rows| - 1];
      var before := Keys(front, user, cursor);
      KeysAre(front, user, cursor);
      forall k ensures k in Keys(rows, user, cursor)
                 <==> exists i | 0 <= i < |rows| :: Wanted(rows[i], user, cursor) && KeyOf(rows[i]) == k
      {
        assert k in before <==> exists i | 0 <= i < |front| :: Wanted(front[i], user, cursor) && KeyOf(front[i]) == k;
        assert forall i | 0 <= i < |front| :: front[i] == rows[i];
        assert rows[|front|] == last;
      }
      forall j | 0 <= j < |before| ensures before[j] != KeyOf(last) {
        assert before[j] in before;
        var i :| 0 <= i < |front| && Wanted(front[i], user, cursor) && KeyOf(front[i]) == before[j];
        assert front[i] == rows[i];
      }
    }
  }

  lemma ListingIs(rows: seq<Row>, user: UserId, cursor: Option<Key>)
    requires Keyed(rows)
    ensures Ordered(Listing(rows, user, cursor), Newer) && Distinct(Listing(rows, user, cursor))
    ensures forall k :: k in Listing(rows, user, cursor)
              <==> exists i | 0 <= i < |rows| :: Wanted(rows[i], user, cursor) && KeyOf(rows[i]) == k
  {
    KeysAre(rows, user, cursor);
    var keys, listing := Keys(rows, user, cursor), Listing(rows, user, cursor);
    forall k ensures k in keys <==> k in listing {
      assert k in keys <==> k in multiset(keys);
      assert k in listing <==> k in multiset(listing);
    }
    DistinctSize(keys);
    DistinctSize(listing);
    assert Elems(keys) == Elems(listing);
  }

  /** The row is the user's and, with a cursor, was made before the cursor's, or at its time
      under a smaller identifier. */
  predicate Shown(r: Row, user: UserId, cursor: Option<Key>)
  {
    r.user == user
    && (cursor.None? || r.created < cursor.value.created || (r.created == cursor.value.created && r.id < cursor.value.id))
  }

  /** A listing in terms of the rows: one item for each row shown, latest first and, at one
      time, by identifier downwards. */
  lemma ListingShows(rows: seq<Row>, user: UserId, cursor: Option<Key>)
    requires Keyed(rows)
    ensures var listing := Listing(rows, user, cursor);
            && (forall i | 0 <= i < |rows| :: Shown(rows[i], user, cursor) <==> Key(rows[i].created, rows[i].id) in listing)
            && (forall k | k in listing :: exists i | 0 <= i < |rows| :: Shown(rows[i], user, cursor) && k == Key(rows[i].created, rows[i].id))
            && (forall j, k | 0 <= j < k < |listing| ::
                  listing[j].created > listing[k].created || (listing[j].created == listing[k].created && listing[j].id > listing[k].id))
  {
    ListingIs(rows, user, cursor);
    var listing := Listing(rows, user, cursor);
    forall i | 0 <= i < |rows| ensures Wanted(rows[i], user, cursor) <==> Shown(rows[i], user, cursor) { }
    forall i | 0 <= i < |rows| ensures Shown(rows[i], user, cursor) <==> KeyOf(rows[i]) in listing {
      if KeyOf(rows[i]) in listing {
        var m :| 0 <= m < |rows| && Wanted(rows[m], user, cursor) && KeyOf(rows[m]) == KeyOf(rows[i]);
        assert m == i;
      }
    }
    forall j, k | 0 <= j < k < |listing| ensures Newer(listing[j], listing[k]) && listing[j] != listing[k] { }
  }

  /** What lies beyond a listed key is the rest of the list. */
  lemma RestOfListing(rows: seq<Row>, user: UserId, n: nat)
    requires Keyed(rows) && 0 < n <= |Listing(rows, user, None)|
    ensures Listing(rows, user, Some(Listing(rows, user, None)[n - 1])) == Listing(rows, user, None)[n..]
  {
    var all := Listing(rows, user, None);
    var rest := Listing(rows, user, Some(all[n - 1]));
    ListingIs(rows, user, None);
    ListingIs(rows, user, Some(all[n - 1]));
    forall k ensures k in rest <==> k in all[n..] {
      BeyondTheCursor(rows, user, all[n - 1], k);
      BeyondIsLater(all, n, k);
    }
    SameElements(rest, all[n..]);
    OrderedUnique(rest, all[n..], Newer);
  }

  lemma BeyondTheCursor(rows: seq<Row>, user: UserId, cursor: Key, k: Key)
    requires Keyed(rows)
    ensures k in Listing(rows, user, Some(cursor)) <==> k in Listing(rows, user, None) && Older(k, cursor)
  {
    ListingIs(rows, user, None);
    ListingIs(rows, user, Some(cursor));
  }

  lemma BeyondIsLater(all: seq<Key>, n: nat, k: Key)
    requires Ordered(all, Newer) && Distinct(all) && 0 < n <= |all|
    ensures k in all && Older(k, all[n - 1]) <==> k in all[n..]
  {
    if k in all {
      var i := Position(all, k);
      assert i >= n ==> all[n..][i - n] == k;
    }
    if k in all[n..] {
      var i := Position(all[n..], k);
      assert all[n + i] == k;
    }
  }

  // ------------------------------------------------------------------- a growing table

  /** A table after more transactions: the same rows, then later ones. */
  ghost predicate Grows(a: seq<Row>, b: seq<Row>)
  {
    && |a| <= |b| && Keyed(b)
    && (forall i | 0 <= i < |a| :: SameOrigin(a[i], b[i]))
    && (forall i, j | 0 <= i < |a| && |a| <= j < |b| :: a[i].created <= b[j].created)
  }

  lemma StepGrows(s: Store, clock: Time, t: Timed, limits: Limits)
    requires Inv(s, clock, limits) && Enabled(s, clock, t)
    ensures Grows(s.rows, Next(s, t, limits).rows)
  {
    StepKeepsInv(s, clock, t, limits);
    if !t.event.Create? {
      UpdatesInPlace(s, t, limits);
    }
  }

  lemma GrowsOn(a: seq<Row>, b: seq<Row>, c: seq<Row>)
    requires Grows(a, b) && Grows(b, c)
    ensures Grows(a, c)
  {
    forall i, j | 0 <= i < |a| && |a| <= j < |c| ensures a[i].created <= c[j].created {
      assert SameOrigin(a[i], b[i]);
      if j < |b| { assert SameOrigin(b[j], c[j]); }
    }
  }

  lemma {:induction false} RunGrows(s: Store, clock: Time, ts: seq<Timed>, limits: Limits)
    requires Inv(s, clock, limits) && Possible(s, clock, ts, limits)
    ensures Grows(s.rows, After(s, ts, limits).rows)
    decreases |ts|
  {
    if ts != [] {
      var s' := Next(s, ts[0], limits);
      StepKeepsInv(s, clock, ts[0], limits);
      StepGrows(s, clock, ts[0], limits);
      RunGrows(s', ts[0].now, ts[1..], limits);
      GrowsOn(s.rows, s'.rows, After(s, ts, limits).rows);
    }
  }

  /** Some row added since is tied with the cursor's time and has a smaller identifier. */
  predicate Intruded(rows: seq<Row>, later: seq<Row>, user: UserId, cursor: Key)
  {
    exists i | |rows| <= i < |later| :: Intrudes(later[i], user, cursor)
  }

  predicate Intrudes(r: Row, user: UserId, cursor: Key)
  {
    r.user == user && r.created == cursor.created && r.id < cursor.id
  }

  lemma {:induction false} SameKeys(rows: seq<Row>, later: seq<Row>, user: UserId, cursor: Option<Key>)
    requires |rows| <= |later|
    requires forall i | 0 <= i < |rows| :: SameOrigin(rows[i], later[i])
    requires forall i | |rows| <= i < |later| :: !Wanted(later[i], user, cursor)
    ensures Keys(later, user, cursor) == Keys(rows, user, cursor)
  {
    if |rows| < |later| {
      SameKeys(rows, later[..|later| - 1], user, cursor);
    } else if rows != [] {
      SameKeys(rows[..|rows| - 1], later[..|rows| - 1], user, cursor);
    }
  }

  /** Beyond a listed key, a grown table lists the same unless it was intruded. */
  lemma SameListing(rows: seq<Row>, later: seq<Row>, user: UserId, cursor: Key)
    requires Grows(rows, later) && !Intruded(rows, later, user, cursor)
    requires exists i | 0 <= i < |rows| :: KeyOf(rows[i]) == cursor
    ensures Listing(later, user, Some(cursor)) == Listing(rows, user, Some(cursor))
  {
    var i :| 0 <= i < |rows| && KeyOf(rows[i]) == cursor;
    forall j | |rows| <= j < |later| ensures !Wanted(later[j], user, Some(cursor)) {
      assert rows[i].created <= later[j].created;
      assert !Intrudes(later[j], user, cursor);
    }
    SameKeys(rows, later, user, Some(cursor));
  }

  // ------------------------------------------------------------------ reading the pages

  /** The table a request finds. */
  datatype View = View(rows: seq<Row>, limit: nat)

  ghost function Views(s: Store, visits: seq<Visit>, limits: Limits): seq<View>
    decreases |visits|
  {
    if visits == [] then []
    else
      var s' := After(s, visits[0].before, limits);
      [View(s'.rows, visits[0].limit)] + Views(s', visits[1..], limits)
  }

  ghost predicate GrowingViews(views: seq<View>)
  {
    && (forall k | 0 <= k < |views| :: views[k].limit > 0 && Keyed(views[k].rows))
    && (forall k, m | 0 <= k <= m < |views| :: Grows(views[k].rows, views[m].rows))
  }

  lemma {:induction false} ViewsGrow(s: Store, clock: Time, visits: seq<Visit>, limits: Limits)
    requires Inv(s, clock, limits) && CanVisit(s, clock, visits, limits)
    ensures GrowingViews(Views(s, visits, limits)) && |Views(s, visits, limits)| == |visits|
    ensures forall k | 0 <= k < |visits| :: Grows(s.rows, Views(s, visits, limits)[k].rows)
    decreases |visits|
  {
    if visits != [] {
      var before, others := visits[0].before, visits[1..];
      var s' := After(s, before, limits);
      RunKeepsInv(s, clock, before, limits);
      RunGrows(s, clock, before, limits);
      ViewsGrow(s', Clock(clock, before), others, limits);
      GrowFromFirst(s.rows, View(s'.rows, visits[0].limit), Views(s', others, limits));
    }
  }

  lemma GrowFromFirst(rows: seq<Row>, first: View, others: seq<View>)
    requires first.limit > 0 && Grows(rows, first.rows) && GrowingViews(others)
    requires forall k | 0 <= k < |others| :: Grows(first.rows, others[k].rows)
    ensures GrowingViews([first] + others)
    ensures forall k | 0 <= k < |[first] + others| :: Grows(rows, ([first] + others)[k].rows)
  {
    var views := [first] + others;
    forall k | 0 <= k < |views| ensures Grows(rows, views[k].rows) && Grows(first.rows, views[k].rows) {
      if k > 0 {
        assert views[k] == others[k - 1];
        GrowsOn(rows, first.rows, views[k].rows);
      }
    }
    forall k, m | 0 <= k <= m < |views| ensures Grows(views[k].rows, views[m].rows) {
      if k > 0 { assert views[k] == others[k - 1] && views[m] == others[m - 1]; }
    }
  }

  /** Pages read one after the other, each with the cursor the one before it gave. */
  ghost predicate IsWalk(views: seq<View>, user: UserId, pages: seq<Page>)
  {
    |pages| <= |views| &&
    (pages != [] ==>
      var front, view := pages[..|pages| - 1], views[|pages| - 1];
      && IsWalk(views, user, front)
      && (front != [] ==> Cursor(front).Some?)
      && view.limit > 0
      && pages[|pages| - 1] == GetSubmissions(Listing(view.rows, user, Cursor(front)), view.limit))
  }

  function Cursor(pages: seq<Page>): Option<Key> { if pages == [] then None else pages[|pages| - 1].next }

  function Collected(pages: seq<Page>): seq<Key>
  {
    if pages == [] then [] else Collected(pages[..|pages| - 1]) + pages[|pages| - 1].items
  }

  /** The table was intruded before some page after the first. */
  ghost predicate Disturbed(views: seq<View>, user: UserId, pages: seq<Page>)
    requires |pages| <= |views|
  {
    exists k | 0 < k < |pages| :: DisturbedAt(views, user, pages, k)
  }

  ghost predicate DisturbedAt(views: seq<View>, user: UserId, pages: seq<Page>, k: nat)
    requires 0 < k < |pages| <= |views|
  {
    Cursor(pages[..k]).Some? && Intruded(views[0].rows, views[k].rows, user, Cursor(pages[..k]).value)
  }

  lemma PageShows(listing: seq<Key>, limit: nat)
    requires limit > 0
    ensures var page := GetSubmissions(listing, limit);
            if limit < |listing| then page.items == listing[..limit] && page.next == Some(listing[limit - 1])
            else page.items == listing && page.next == None
  {
  }

  /** After some pages: `shown` keys of the list were read, the cursor is the last of them,
      and the absence of a cursor means that was all. */
  predicate ReadSoFar(all: seq<Key>, shown: nat, cursor: Option<Key>, pages: nat)
  {
    && shown <= |all|
    && (cursor.None? ==> shown == |all|)
    && (cursor.Some? ==> 0 < pages <= shown < |all| && cursor.value == all[shown - 1])
  }

  ghost predicate WalkSoFar(views: seq<View>, user: UserId, pages: seq<Page>)
    requires views != []
  {
    var all, shown := Listing(views[0].rows, user, None), |Collected(pages)|;
    ReadSoFar(all, shown, Cursor(pages), |pages|) && Collected(pages) == all[..shown]
  }

  lemma {:induction false} WalkReadsOn(views: seq<View>, user: UserId, pages: seq<Page>)
    requires GrowingViews(views) && IsWalk(views, user, pages) && pages != [] && !Disturbed(views, user, pages)
    ensures WalkSoFar(views, user, pages)
  {
    if |pages| == 1 {
      FirstPage(views, user, pages);
    } else {
      FrontUndisturbed(views, user, pages);
      WalkReadsOn(views, user, pages[..|pages| - 1]);
      WalkReadsMore(views, user, pages);
    }
  }

  lemma FirstPage(views: seq<View>, user: UserId, pages: seq<Page>)
    requires IsWalk(views, user, pages) && |pages| == 1
    ensures WalkSoFar(views, user, pages)
  {
    var all := Listing(views[0].rows, user, None);
    PageReadsOn(all, 0, views[0].limit, 0, pages[0]);
    assert Collected(pages) == all[..0] + pages[0].items;
  }

  lemma WalkReadsMore(views: seq<View>, user: UserId, pages: seq<Page>)
    requires GrowingViews(views) && IsWalk(views, user, pages) && |pages| > 1 && !Disturbed(views, user, pages)
    requires WalkSoFar(views, user, pages[..|pages| - 1])
    ensures WalkSoFar(views, user, pages)
  {
    var front, page := pages[..|pages| - 1], pages[|pages| - 1];
    var all, n := Listing(views[0].rows, user, None), |Collected(front)|;
    NextPage(views, user, pages, n);
    PageReadsOn(all, n, views[|front|].limit, |front|, page);
    assert Collected(pages) == all[..n] + page.items;
    assert ReadSoFar(all, n + |page.items|, page.next, |pages|);
  }

  lemma NextPage(views: seq<View>, user: UserId, pages: seq<Page>, n: nat)
    requires GrowingViews(views) && IsWalk(views, user, pages) && |pages| > 1 && !Disturbed(views, user, pages)
    requires var all := Listing(views[0].rows, user, None);
             0 < n <= |all| && Cursor(pages[..|pages| - 1]) == Some(all[n - 1])
    ensures pages[|pages| - 1] == GetSubmissions(Listing(views[0].rows, user, None)[n..], views[|pages| - 1].limit)
  {
    assert !DisturbedAt(views, user, pages, |pages| - 1);
    RestOfGrown(views[0].rows, views[|pages| - 1].rows, user, n);
  }

  lemma RestOfGrown(rows: seq<Row>, later: seq<Row>, user: UserId, n: nat)
    requires Grows(rows, later) && Keyed(rows) && 0 < n <= |Listing(rows, user, None)|
    requires !Intruded(rows, later, user, Listing(rows, user, None)[n - 1])
    ensures Listing(later, user, Some(Listing(rows, user, None)[n - 1])) == Listing(rows, user, None)[n..]
  {
    var cursor := Listing(rows, user, None)[n - 1];
    ListedRow(rows, user, cursor);
    SameListing(rows, later, user, cursor);
    RestOfListing(rows, user, n);
  }

  lemma PageReadsOn(all: seq<Key>, n: nat, limit: nat, pages: nat, page: Page)
    requires pages <= n <= |all| && limit > 0 && page == GetSubmissions(all[n..], limit)
    ensures var shown := n + |page.items|;
            ReadSoFar(all, shown, page.next, pages + 1) && all[..n] + page.items == all[..shown]
  {
    PageShows(all[n..], limit);
    assert all == all[..n] + all[n..];
    if limit < |all| - n {
      assert all[..n] + all[n..][..limit] == all[..n + limit];
    }
  }

  lemma ListedRow(rows: seq<Row>, user: UserId, k: Key)
    requires Keyed(rows) && k in Listing(rows, user, None)
    ensures exists i | 0 <= i < |rows| :: KeyOf(rows[i]) == k
  {
    ListingIs(rows, user, None);
  }

  lemma FrontUndisturbed(views: seq<View>, user: UserId, pages: seq<Page>)
    requires 0 < |pages| <= |views| && !Disturbed(views, user, pages)
    ensures !Disturbed(views, user, pages[..|pages| - 1])
  {
    var front := pages[..|pages| - 1];
    forall k | 0 < k < |front| ensures !DisturbedAt(views, user, front, k) {
      assert front[..k] == pages[..k];
      assert !DisturbedAt(views, user, pages, k);
    }
  }

  /** A row beyond the cursor of page k is on that page or a later one, or still beyond. */
  lemma {:induction false} ShownOrBeyond(views: seq<View>, user: UserId, pages: seq<Page>, k: nat, i: nat)
    requires GrowingViews(views) && IsWalk(views, user, pages) && k < |pages|
    requires i < |views[k].rows| && Wanted(views[k].rows[i], user, Cursor(pages[..k]))
    ensures var x := KeyOf(views[k].rows[i]);
            x in Collected(pages) || (Cursor(pages).Some? && Older(x, Cursor(pages).value))
  {
    var front, view := pages[..|pages| - 1], views[|pages| - 1];
    var x := KeyOf(views[k].rows[i]);
    if k < |front| {
      assert front[..k] == pages[..k];
      ShownOrBeyond(views, user, front, k, i);
    } else {
      assert front == pages[..k];
    }
    if x !in Collected(front) {
      assert Grows(views[k].rows, view.rows);
      assert SameOrigin(views[k].rows[i], view.rows[i]);
      assert Wanted(view.rows[i], user, Cursor(front));
      ShownOrAfter(view.rows, user, Cursor(front), view.limit, i);
    }
  }

  lemma ShownOrAfter(rows: seq<Row>, user: UserId, cursor: Option<Key>, limit: nat, i: nat)
    requires Keyed(rows) && limit > 0 && i < |rows| && Wanted(rows[i], user, cursor)
    ensures var page := GetSubmissions(Listing(rows, user, cursor), limit);
            KeyOf(rows[i]) in page.items || (page.next.Some? && Older(KeyOf(rows[i]), page.next.value))
  {
    var listing, x := Listing(rows, user, cursor), KeyOf(rows[i]);
    ListingIs(rows, user, cursor);
    PageShows(listing, limit);
    assert x in listing;
    var p := Position(listing, x);
    if p < limit && limit < |listing| {
      assert listing[..limit][p] == x;
    }
  }

  lemma IntruderIsNotListed(views: seq<View>, user: UserId, k: nat, i: nat)
    requires GrowingViews(views) && 0 < k < |views| && |views[0].rows| <= i < |views[k].rows|
    ensures KeyOf(views[k].rows[i]) !in Listing(views[0].rows, user, None)
  {
    var first, rows := views[0].rows, views[k].rows;
    assert Grows(first, rows);
    ListingIs(first, user, None);
    forall j | 0 <= j < |first| ensures KeyOf(first[j]) != KeyOf(rows[i]) {
      assert SameOrigin(first[j], rows[j]);
    }
  }

  /** History paging shows the owner's list as of page one exactly when no row added before
      a later page shares the creation time of that page's cursor under a smaller
      identifier: such a row lies beyond the cursor, and any other new row before it. */
  lemma HistoryPagingIsLosslessIff(clock: Time, past: seq<Timed>, visits: seq<Visit>, limits: Limits, user: UserId, pages: seq<Page>)
    requires Possible(Empty, clock, past, limits)
    requires CanVisit(After(Empty, past, limits), Clock(clock, past), visits, limits)
    requires IsWalk(Views(After(Empty, past, limits), visits, limits), user, pages) && pages != [] && Cursor(pages).None?
    ensures var views := Views(After(Empty, past, limits), visits, limits);
            Collected(pages) == Listing(views[0].rows, user, None) <==> !Disturbed(views, user, pages)
  {
    var s := After(Empty, past, limits);
    RunKeepsInv(Empty, clock, past, limits);
    ViewsGrow(s, Clock(clock, past), visits, limits);
    WalkIff(Views(s, visits, limits), user, pages);
  }

  lemma WalkIff(views: seq<View>, user: UserId, pages: seq<Page>)
    requires GrowingViews(views) && IsWalk(views, user, pages) && pages != [] && Cursor(pages).None?
    ensures Collected(pages) == Listing(views[0].rows, user, None) <==> !Disturbed(views, user, pages)
  {
    if Disturbed(views, user, pages) {
      var k :| 0 < k < |pages| && DisturbedAt(views, user, pages, k);
      var cursor := Cursor(pages[..k]).value;
      var i :| |views[0].rows| <= i < |views[k].rows| && Intrudes(views[k].rows[i], user, cursor);
      ShownOrBeyond(views, user, pages, k, i);
      IntruderIsNotListed(views, user, k, i);
    } else {
      WalkReadsOn(views, user, pages);
    }
  }

  // --------------------------------------------------------------- a page can be intruded

  const Roomy := Limits(3, 3, 3, 3, 1)

  function CreateAtZero(id: Id, key: nat, c: Contract): Timed
  {
    At(0, Event.Create(id, 0, key, 0, c, true))
  }

  function RowsAtZero(ids: seq<Id>, c: Contract): seq<Row>
  {
    seq(|ids|, i requires 0 <= i < |ids| => NewRow(ids[i], 0, i, 0, c, 0))
  }

  lemma {:induction false} NewRowsCount(ids: seq<Id>, c: Contract, q: Query)
    ensures Count(RowsAtZero(ids, c), q) <= |ids|
  {
    if ids != [] {
      NewRowsCount(ids[..|ids| - 1], c, q);
      assert RowsAtZero(ids, c)[..|ids| - 1] == RowsAtZero(ids[..|ids| - 1], c);
    }
  }

  lemma OneMore(s: Store, ids: seq<Id>, id: Id, c: Contract)
    requires s.rows == RowsAtZero(ids, c) && |ids| < 3 && id !in ids
    ensures Enabled(s, 0, CreateAtZero(id, |ids|, c))
    ensures Next(s, CreateAtZero(id, |ids|, c), Roomy).rows == RowsAtZero(ids + [id], c)
  {
    forall q ensures Count(s.rows, q) <= |ids| { NewRowsCount(ids, c, q); }
    forall i | 0 <= i < |ids| ensures s.rows[i].id != id { assert ids[i] in ids; }
    var t := CreateAtZero(id, |ids|, c);
    assert AdmissionVerdict(s.rows, 0, 0, c, true, Roomy) == None;
    assert KeyIndex(s.rows, 0, |ids|) == |s.rows|;
    assert Next(s, t, Roomy).rows == s.rows + [NewRow(id, 0, |ids|, 0, c, 0)];
  }

  /** Three submissions in one microsecond: the third arrives between the pages and shows up
      on the second, though it was not there at page one. */
  lemma TieIntrudes(c: Contract)
    ensures var first, second, third := CreateAtZero(9, 0, c), CreateAtZero(5, 1, c), CreateAtZero(7, 2, c);
            var s := After(Empty, [first, second], Roomy);
            var s' := After(s, [third], Roomy);
            && Possible(Empty, 0, [first, second], Roomy) && Possible(s, 0, [third], Roomy)
            && Listing(s.rows, 0, None) == [Key(0, 9), Key(0, 5)]
            && GetSubmissions(Listing(s.rows, 0, None), 1).next == Some(Key(0, 9))
            && GetSubmissions(Listing(s'.rows, 0, Some(Key(0, 9))), 1).items == [Key(0, 7)]
  {
    TieReached(c);
    ThreeRows(c);
    PageShows([Key(0, 9), Key(0, 5)], 1);
    PageShows([Key(0, 7), Key(0, 5)], 1);
  }

  lemma TieReached(c: Contract)
    ensures var first, second, third := CreateAtZero(9, 0, c), CreateAtZero(5, 1, c), CreateAtZero(7, 2, c);
            var s := After(Empty, [first, second], Roomy);
            && Possible(Empty, 0, [first, second], Roomy) && Possible(s, 0, [third], Roomy)
            && s.rows == RowsAtZero([9, 5], c)
            && After(s, [third], Roomy).rows == RowsAtZero([9, 5, 7], c)
  {
    var first, second, third := CreateAtZero(9, 0, c), CreateAtZero(5, 1, c), CreateAtZero(7, 2, c);
    FirstTwo(c);
    TwoEvents(first, second);
    ThirdRow(After(Empty, [first, second], Roomy), c);
  }

  lemma ThirdRow(s: Store, c: Contract)
    requires s.rows == RowsAtZero([9, 5], c)
    ensures Possible(s, 0, [CreateAtZero(7, 2, c)], Roomy)
    ensures After(s, [CreateAtZero(7, 2, c)], Roomy).rows == RowsAtZero([9, 5, 7], c)
  {
    OneMore(s, [9, 5], 7, c);
    assert [9, 5] + [7] == [9, 5, 7];
    OneEvent(s, CreateAtZero(7, 2, c));
  }

  lemma FirstTwo(c: Contract)
    ensures var first, second := CreateAtZero(9, 0, c), CreateAtZero(5, 1, c);
            var s1 := Next(Empty, first, Roomy);
            && Enabled(Empty, 0, first) && Enabled(s1, 0, second)
            && Next(s1, second, Roomy).rows == RowsAtZero([9, 5], c)
  {
    OneMore(Empty, [], 9, c);
    assert [] + [9] == [9] && [9] + [5] == [9, 5];
    OneMore(Next(Empty, CreateAtZero(9, 0, c), Roomy), [9], 5, c);
  }

  lemma OneEvent(s: Store, t: Timed)
    ensures After(s, [t], Roomy) == Next(s, t, Roomy)
    ensures Enabled(s, 0, t) ==> Possible(s, 0, [t], Roomy)
  {
    assert [t][1..] == [];
    assert After(Next(s, t, Roomy), [], Roomy) == Next(s, t, Roomy);
  }

  lemma TwoEvents(a: Timed, b: Timed)
    requires a.now == 0 && Enabled(Empty, 0, a) && Enabled(Next(Empty, a, Roomy), 0, b)
    ensures After(Empty, [a, b], Roomy) == Next(Next(Empty, a, Roomy), b, Roomy)
    ensures Possible(Empty, 0, [a, b], Roomy)
  {
    assert [a, b][1..] == [b];
    OneEvent(Next(Empty, a, Roomy), b);
  }

  lemma ThreeRows(c: Contract)
    ensures Listing(RowsAtZero([9, 5], c), 0, None) == [Key(0, 9), Key(0, 5)]
    ensures Listing(RowsAtZero([9, 5, 7], c), 0, Some(Key(0, 9))) == [Key(0, 7), Key(0, 5)]
  {
    FirstKeys(c);
    LaterKeys(c);
    SortTwo(Key(0, 9), Key(0, 5));
    SortTwo(Key(0, 5), Key(0, 7));
  }

  lemma FirstKeys(c: Contract)
    ensures Keys(RowsAtZero([9, 5], c), 0, None) == [Key(0, 9), Key(0, 5)]
  {
    MoreKeys([], 9, c, None);
    assert [] + [9] == [9];
    MoreKeys([9], 5, c, None);
    assert [9] + [5] == [9, 5];
  }

  lemma LaterKeys(c: Contract)
    ensures Keys(RowsAtZero([9, 5, 7], c), 0, Some(Key(0, 9))) == [Key(0, 5), Key(0, 7)]
  {
    var cursor := Some(Key(0, 9));
    MoreKeys([], 9, c, cursor);
    assert [] + [9] == [9];
    MoreKeys([9], 5, c, cursor);
    assert [9] + [5] == [9, 5];
    MoreKeys([9, 5], 7, c, cursor);
    assert [9, 5] + [7] == [9, 5, 7];
  }

  lemma MoreKeys(ids: seq<Id>, id: Id, c: Contract, cursor: Option<Key>)
    ensures Keys(RowsAtZero(ids + [id], c), 0, cursor)
         == Keys(RowsAtZero(ids, c), 0, cursor) + if Follows(Key(0, id), cursor) then [Key(0, id)] else []
  {
    var rows := RowsAtZero(ids + [id], c);
    assert rows[..|ids|] == RowsAtZero(ids, c);
    assert KeyOf(rows[|ids|]) == Key(0, id);
  }

  lemma SortTwo(a: Key, b: Key)
    requires a != b
    ensures Sort([a, b], Newer) == if Newer(a, b) then [a, b] else [b, a]
  {
    assert [a, b][1..] == [b] && [b][1..] == [];
    assert Sort([b], Newer) == Insert(b, [], Newer) == [b];
    assert [b][1..] == [] && Insert(a, [], Newer) == [a];
    assert Sort([a, b], Newer) == Insert(a, [b], Newer);
  }
}

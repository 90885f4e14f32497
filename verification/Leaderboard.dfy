/** The ranked leaderboard of an evaluation as of an instant, and reading it page by page. */
module Leaderboard {
  import opened Basics
  import opened Sorting
  import opened SubmissionStore
  import opened SubmissionQuotas
  import opened LeaseFencing

  /** Handles and identifiers are only compared, so integers serve. */
  datatype Entry = Entry(id: Id, user: UserId, handle: int, score: real, succeeded: Time, snapshot: Digest)
  datatype Board = Board(identity: Digest, asOf: Time, handles: map<UserId, int>)

  // -------------------------------------------------------------------------- the query

  /** The joined row, when its submission has a result of this evaluation in time. */
  function EntryOf(r: Row, results: map<Id, ResultRow>, board: Board): Option<Entry>
  {
    if r.id in results && results[r.id].identity == board.identity && r.status == Succeeded
       && results[r.id].succeeded <= board.asOf && r.user in board.handles
    then Some(Entry(r.id, r.user, board.handles[r.user], results[r.id].scores.score, results[r.id].succeeded, r.snapshot))
    else None
  }

  function Candidates(rows: seq<Row>, results: map<Id, ResultRow>, board: Board): seq<Entry>
  {
    if rows == [] then []
    else
      Candidates(rows[..|rows| - 1], results, board)
      + match EntryOf(rows[|rows| - 1], results, board) case Some(e) => [e] case None => []
  }

  /** A user's choice: highest score, then earliest, then smallest identifier. */
  predicate Preferred(a: Entry, b: Entry)
  {
    a.score > b.score || (a.score == b.score && (a.succeeded < b.succeeded || (a.succeeded == b.succeeded && a.id <= b.id)))
  }

  predicate Chosen(e: Entry, all: seq<Entry>)
  {
    forall c | c in all && c.user == e.user :: Preferred(e, c)
  }

  function Choices(some: seq<Entry>, all: seq<Entry>): seq<Entry>
  {
    if some == [] then []
    else Choices(some[..|some| - 1], all) + if Chosen(some[|some| - 1], all) then [some[|some| - 1]] else []
  }

  /** Rank order: highest score, then earliest, then smallest handle. */
  predicate Above(a: Entry, b: Entry)
  {
    a.score > b.score || (a.score == b.score && (a.succeeded < b.succeeded || (a.succeeded == b.succeeded && a.handle <= b.handle)))
  }

  function Ranking(s: Store, board: Board): seq<Entry>
  {
    var all := Candidates(s.rows, s.results, board);
    Sort(Choices(all, all), Above)
  }

  // ---------------------------------------------------------- what the ranking is

  function Users(s: seq<Entry>): set<UserId> { set e | e in s :: e.user }

  ghost predicate AllChosen(ranking: seq<Entry>, all: seq<Entry>)
  {
    forall i | 0 <= i < |ranking| :: ranking[i] in all && Chosen(ranking[i], all)
  }

  ghost predicate OneEach(ranking: seq<Entry>)
  {
    forall i, j | 0 <= i < j < |ranking| :: ranking[i].user != ranking[j].user
  }

  predicate StrictlyAbove(a: Entry, b: Entry) { Above(a, b) && !Above(b, a) }

  ghost predicate Ranked(ranking: seq<Entry>)
  {
    forall i, j | 0 <= i < j < |ranking| :: StrictlyAbove(ranking[i], ranking[j])
  }

  /** The ranking of these candidates: each user that has any stands in it exactly once,
      with the preferred one, strictly ordered. */
  ghost predicate IsRanking(ranking: seq<Entry>, all: seq<Entry>)
  {
    AllChosen(ranking, all) && Users(ranking) == Users(all) && OneEach(ranking) && Ranked(ranking)
  }

  ghost predicate OneIdEach(all: seq<Entry>)
  {
    forall i, j | 0 <= i < j < |all| :: all[i].id != all[j].id
  }

  ghost predicate HandlesDiffer(all: seq<Entry>)
  {
    forall i, j | 0 <= i < |all| && 0 <= j < |all| && all[i].handle == all[j].handle :: all[i].user == all[j].user
  }

  lemma {:induction false} ChoicesAre(some: seq<Entry>, all: seq<Entry>)
    requires OneIdEach(some)
    ensures forall e :: e in Choices(some, all) <==> e in some && Chosen(e, all)
    ensures OneIdEach(Choices(some, all))
  {
    if some != [] {
      var front := some[..|some| - 1];
      ChoicesAre(front, all);
      assert some == front + [some[|some| - 1]];
      forall e | e in Choices(front, all) ensures e.id != some[|some| - 1].id {
        var i :| 0 <= i < |front| && front[i] == e;
        assert some[i] == front[i];
      }
    }
  }

  /** Some candidate of c's user is preferred to all of them. */
  lemma {:induction false} PreferredExists(all: seq<Entry>, c: Entry) returns (best: Entry)
    requires c in all
    ensures best in all && best.user == c.user && Chosen(best, all)
  {
    var front, last := all[..|all| - 1], all[|all| - 1];
    assert all == front + [last];
    if c in front {
      best := PreferredExists(front, c);
      if last.user == c.user && Preferred(last, best) {
        best := last;
      }
    } else if e :| e in front && e.user == c.user {
      best := PreferredExists(front, e);
      if Preferred(last, best) {
        best := last;
      }
    } else {
      best := last;
    }
  }

  lemma ChosenOnce(all: seq<Entry>, a: Entry, b: Entry)
    requires OneIdEach(all) && a in all && b in all && a.user == b.user && Chosen(a, all) && Chosen(b, all)
    ensures a == b
  {
    assert Preferred(a, b) && Preferred(b, a);
  }

  lemma SortedChoices(all: seq<Entry>)
    requires OneIdEach(all)
    ensures var r := Sort(Choices(all, all), Above);
            && (forall e :: e in r <==> e in all && Chosen(e, all))
            && Distinct(r)
  {
    ChoicesAre(all, all);
    var choices := Choices(all, all);
    var r := Sort(choices, Above);
    forall e ensures e in r <==> e in choices {
      assert e in r <==> e in multiset(r);
      assert e in choices <==> e in multiset(choices);
    }
    DistinctSize(choices);
    DistinctSize(r);
    assert Elems(r) == Elems(choices);
  }

  lemma SortedChoicesUsers(all: seq<Entry>, r: seq<Entry>)
    requires forall e :: e in r <==> e in all && Chosen(e, all)
    ensures Users(r) == Users(all)
  {
    forall u | u in Users(all) ensures u in Users(r) {
      var c :| c in all && c.user == u;
      var best := PreferredExists(all, c);
      assert best in r;
    }
  }

  lemma SortedChoicesRank(all: seq<Entry>)
    requires OneIdEach(all) && HandlesDiffer(all)
    ensures IsRanking(Sort(Choices(all, all), Above), all)
  {
    SortedChoices(all);
    var r := Sort(Choices(all, all), Above);
    SortedChoicesUsers(all, r);
    forall i, j | 0 <= i < j < |r|
      ensures r[i].user != r[j].user && StrictlyAbove(r[i], r[j])
    {
      TwoPlaces(all, r[i], r[j]);
    }
  }

  lemma TwoPlaces(all: seq<Entry>, a: Entry, b: Entry)
    requires OneIdEach(all) && HandlesDiffer(all) && a != b && Above(a, b)
    requires a in all && b in all && Chosen(a, all) && Chosen(b, all)
    ensures a.user != b.user && StrictlyAbove(a, b)
  {
    if a.user == b.user { ChosenOnce(all, a, b); }
    assert a.handle != b.handle;
  }

  /** Nothing else satisfies the query: a ranking of the same candidates is the same one. */
  lemma RankingIsUnique(a: seq<Entry>, b: seq<Entry>, all: seq<Entry>)
    requires OneIdEach(all) && IsRanking(a, all) && IsRanking(b, all)
    ensures a == b
  {
    forall x ensures x in a <==> x in b {
      if x in a { RankedTogether(a, b, all, x); }
      if x in b { RankedTogether(b, a, all, x); }
    }
    SameElements(a, b);
    OrderedUniqueOn(a, b, Above);
  }

  lemma RankedTogether(a: seq<Entry>, b: seq<Entry>, all: seq<Entry>, x: Entry)
    requires OneIdEach(all) && IsRanking(a, all) && IsRanking(b, all) && x in a
    ensures x in b
  {
    assert x.user in Users(b);
    var y :| y in b && y.user == x.user;
    ChosenOnce(all, x, y);
  }

  lemma {:induction false} CandidateRows(rows: seq<Row>, results: map<Id, ResultRow>, board: Board)
    requires Keyed(rows)
    ensures var all := Candidates(rows, results, board);
            && OneIdEach(all)
            && forall e | e in all :: exists i | 0 <= i < |rows| :: EntryOf(rows[i], results, board) == Some(e)
  {
    if rows != [] {
      var front := rows[..|rows| - 1];
      CandidateRows(front, results, board);
      var before, all := Candidates(front, results, board), Candidates(rows, results, board);
      forall e | e in all ensures exists i | 0 <= i < |rows| :: EntryOf(rows[i], results, board) == Some(e) {
        if e in before {
          var i :| 0 <= i < |front| && EntryOf(front[i], results, board) == Some(e);
          assert rows[i] == front[i];
        } else {
          assert EntryOf(rows[|rows| - 1], results, board) == Some(e);
        }
      }
      forall e | e in before ensures e.id != rows[|rows| - 1].id {
        var i :| 0 <= i < |front| && EntryOf(front[i], results, board) == Some(e);
        assert rows[i] == front[i];
      }
    }
  }

  ghost predicate UniqueHandles(handles: map<UserId, int>)
  {
    forall u, v | u in handles && v in handles && handles[u] == handles[v] :: u == v
  }

  /** Over every reachable store, the query yields the ranking of its candidates. */
  lemma RankingIsTheLeaderboard(clock: Time, ts: seq<Timed>, limits: Limits, board: Board)
    requires Possible(Empty, clock, ts, limits) && UniqueHandles(board.handles)
    ensures var s := After(Empty, ts, limits);
            IsRanking(Ranking(s, board), Candidates(s.rows, s.results, board))
  {
    RunKeepsInv(Empty, clock, ts, limits);
    var s := After(Empty, ts, limits);
    var all := Candidates(s.rows, s.results, board);
    CandidateRows(s.rows, s.results, board);
    forall i, j | 0 <= i < |all| && 0 <= j < |all| && all[i].handle == all[j].handle ensures all[i].user == all[j].user {
      assert all[i] in all && all[j] in all;
    }
    SortedChoicesRank(all);
  }

  /** Row i succeeded under the evaluation by the instant, and its user has a handle. */
  predicate Timely(s: Store, i: nat, board: Board)
    requires i < |s.rows|
  {
    && s.rows[i].status == Succeeded && s.rows[i].identity == board.identity && s.rows[i].user in board.handles
    && s.rows[i].id in s.results && s.results[s.rows[i].id].succeeded <= board.asOf
  }

  /** The entry shows row i with its result. */
  predicate Shows(e: Entry, s: Store, i: nat, board: Board)
    requires i < |s.rows| && Timely(s, i, board)
  {
    && e.id == s.rows[i].id && e.user == s.rows[i].user && e.snapshot == s.rows[i].snapshot && e.handle == board.handles[e.user]
    && e.score == s.results[e.id].scores.score && e.succeeded == s.results[e.id].succeeded
  }

  /** By score downwards, then by time, then by handle. */
  predicate Ahead(a: Entry, b: Entry)
  {
    || a.score > b.score
    || (a.score == b.score && a.succeeded < b.succeeded)
    || (a.score == b.score && a.succeeded == b.succeeded && a.handle < b.handle)
  }

  /** The entry is at least as good as row i's result: better, or as good and earlier, or as
      good at the same time and not of a greater identifier. */
  predicate NoWorse(e: Entry, s: Store, i: nat)
    requires i < |s.rows| && s.rows[i].id in s.results
  {
    var score, at := s.results[s.rows[i].id].scores.score, s.results[s.rows[i].id].succeeded;
    || e.score > score
    || (e.score == score && e.succeeded < at)
    || (e.score == score && e.succeeded == at && e.id <= s.rows[i].id)
  }

  lemma EntryShows(s: Store, limits: Limits, board: Board, i: nat)
    requires RowsInv(s, limits) && i < |s.rows|
    ensures EntryOf(s.rows[i], s.results, board).Some? <==> Timely(s, i, board)
    ensures Timely(s, i, board) ==> Shows(EntryOf(s.rows[i], s.results, board).value, s, i, board)
  {
    assert RowInv(s.rows[i], s.results, limits);
  }

  lemma {:induction false} EveryRowIsCandidate(rows: seq<Row>, results: map<Id, ResultRow>, board: Board, i: nat)
    requires i < |rows| && EntryOf(rows[i], results, board).Some?
    ensures EntryOf(rows[i], results, board).value in Candidates(rows, results, board)
  {
    if i < |rows| - 1 { EveryRowIsCandidate(rows[..|rows| - 1], results, board, i); }
  }

  ghost predicate ShowsSome(e: Entry, s: Store, board: Board)
  {
    exists i | 0 <= i < |s.rows| && Timely(s, i, board) :: Shows(e, s, i, board)
  }

  ghost predicate Beaten(ranking: seq<Entry>, s: Store, i: nat)
    requires i < |s.rows| && s.rows[i].id in s.results
  {
    exists k | 0 <= k < |ranking| :: ranking[k].user == s.rows[i].user && NoWorse(ranking[k], s, i)
  }

  /** Over every reachable store, the ranking in terms of its rows: each place shows a timely
      result, each timely result's user has a place with one no worse, and places of
      different users are ordered by score, time and handle. */
  lemma LeadersAre(clock: Time, ts: seq<Timed>, limits: Limits, board: Board)
    requires Possible(Empty, clock, ts, limits) && UniqueHandles(board.handles)
    ensures var s := After(Empty, ts, limits);
            var ranking := Ranking(s, board);
            && (forall k | 0 <= k < |ranking| :: ShowsSome(ranking[k], s, board))
            && (forall i | 0 <= i < |s.rows| && Timely(s, i, board) :: Beaten(ranking, s, i))
            && (forall j, k | 0 <= j < k < |ranking| :: ranking[j].user != ranking[k].user && Ahead(ranking[j], ranking[k]))
  {
    RunKeepsRowsInv(Empty, clock, ts, limits);
    RankingIsTheLeaderboard(clock, ts, limits, board);
    var s := After(Empty, ts, limits);
    var ranking, all := Ranking(s, board), Candidates(s.rows, s.results, board);
    forall k | 0 <= k < |ranking| ensures ShowsSome(ranking[k], s, board) { PlaceShows(s, limits, board, ranking[k]); }
    forall i | 0 <= i < |s.rows| && Timely(s, i, board) ensures Beaten(ranking, s, i) { RowIsBeaten(s, limits, board, i, ranking); }
    forall j, k | 0 <= j < k < |ranking| ensures Ahead(ranking[j], ranking[k]) { assert StrictlyAbove(ranking[j], ranking[k]); }
  }

  lemma PlaceShows(s: Store, limits: Limits, board: Board, e: Entry)
    requires RowsInv(s, limits) && e in Candidates(s.rows, s.results, board)
    ensures ShowsSome(e, s, board)
  {
    CandidateRows(s.rows, s.results, board);
    var i :| 0 <= i < |s.rows| && EntryOf(s.rows[i], s.results, board) == Some(e);
    EntryShows(s, limits, board, i);
  }

  lemma RowIsBeaten(s: Store, limits: Limits, board: Board, i: nat, ranking: seq<Entry>)
    requires RowsInv(s, limits) && i < |s.rows| && Timely(s, i, board)
    requires IsRanking(ranking, Candidates(s.rows, s.results, board))
    ensures Beaten(ranking, s, i)
  {
    var all := Candidates(s.rows, s.results, board);
    EntryShows(s, limits, board, i);
    EveryRowIsCandidate(s.rows, s.results, board, i);
    var e := EntryOf(s.rows[i], s.results, board).value;
    assert e.user in Users(ranking);
    var best :| best in ranking && best.user == e.user;
    var k :| 0 <= k < |ranking| && ranking[k] == best;
    assert Preferred(best, e);
  }

  // ------------------------------------------------------------------ a changing store

  lemma {:induction false} SameCandidates(rows: seq<Row>, results: map<Id, ResultRow>,
                                          rows': seq<Row>, results': map<Id, ResultRow>, board: Board)
    requires |rows| <= |rows'|
    requires forall i | 0 <= i < |rows| :: EntryOf(rows'[i], results', board) == EntryOf(rows[i], results, board)
    requires forall i | |rows| <= i < |rows'| :: EntryOf(rows'[i], results', board) == None
    ensures Candidates(rows', results', board) == Candidates(rows, results, board)
  {
    if |rows| < |rows'| {
      SameCandidates(rows, results, rows'[..|rows'| - 1], results', board);
    } else if rows != [] {
      SameCandidates(rows[..|rows| - 1], results, rows'[..|rows| - 1], results', board);
    }
  }

  predicate StampedAfter(ts: seq<Timed>, asOf: Time)
  {
    forall i | 0 <= i < |ts| && ts[i].event.Succeed? :: ts[i].now > asOf
  }

  lemma StepKeepsEntry(s: Store, clock: Time, t: Timed, limits: Limits, board: Board, i: nat)
    requires RowsInv(s, limits) && Enabled(s, clock, t) && StampedAfter([t], board.asOf)
    requires i < |s.rows| <= |Next(s, t, limits).rows|
    ensures EntryOf(Next(s, t, limits).rows[i], Next(s, t, limits).results, board) == EntryOf(s.rows[i], s.results, board)
  {
    var s' := Next(s, t, limits);
    assert RowInv(s.rows[i], s.results, limits);
    StepRespectsFinality(s, clock, t, limits);
    assert [t][0].event == t.event;
    if !t.event.Create? {
      UpdatesInPlace(s, t, limits);
    }
  }

  /** A row a step adds is queued, and so no entry. */
  lemma NewRowsAreNoEntries(s: Store, clock: Time, t: Timed, limits: Limits, board: Board)
    requires RowsInv(s, limits) && Enabled(s, clock, t)
    ensures |s.rows| <= |Next(s, t, limits).rows|
    ensures forall i | |s.rows| <= i < |Next(s, t, limits).rows| :: EntryOf(Next(s, t, limits).rows[i], Next(s, t, limits).results, board) == None
  {
    if !t.event.Create? { UpdatesInPlace(s, t, limits); }
  }

  lemma StepKeepsBoard(s: Store, clock: Time, t: Timed, limits: Limits, board: Board)
    requires RowsInv(s, limits) && Enabled(s, clock, t) && StampedAfter([t], board.asOf)
    ensures Candidates(Next(s, t, limits).rows, Next(s, t, limits).results, board) == Candidates(s.rows, s.results, board)
  {
    var s' := Next(s, t, limits);
    NewRowsAreNoEntries(s, clock, t, limits, board);
    forall i | 0 <= i < |s.rows|
      ensures EntryOf(s'.rows[i], s'.results, board) == EntryOf(s.rows[i], s.results, board)
    {
      StepKeepsEntry(s, clock, t, limits, board, i);
    }
    SameCandidates(s.rows, s.results, s'.rows, s'.results, board);
  }

  lemma StepKeepsRanking(s: Store, clock: Time, t: Timed, limits: Limits, board: Board)
    requires RowsInv(s, limits) && Enabled(s, clock, t) && StampedAfter([t], board.asOf)
    ensures Ranking(Next(s, t, limits), board) == Ranking(s, board)
    ensures RowsInv(Next(s, t, limits), limits)
  {
    StepKeepsBoard(s, clock, t, limits, board);
    StepKeepsRowsInv(s, clock, t, limits);
  }

  lemma StampedAfterSplits(ts: seq<Timed>, asOf: Time)
    requires ts != [] && StampedAfter(ts, asOf)
    ensures StampedAfter([ts[0]], asOf) && StampedAfter(ts[1..], asOf)
  {
  }

  lemma {:induction false} RunKeepsBoard(s: Store, clock: Time, ts: seq<Timed>, limits: Limits, board: Board)
    requires RowsInv(s, limits) && Possible(s, clock, ts, limits) && StampedAfter(ts, board.asOf)
    ensures Ranking(After(s, ts, limits), board) == Ranking(s, board)
    decreases |ts|
  {
    if ts != [] {
      StampedAfterSplits(ts, board.asOf);
      StepKeepsRanking(s, clock, ts[0], limits, board);
      RunKeepsBoard(Next(s, ts[0], limits), ts[0].now, ts[1..], limits, board);
    }
  }

  // ---------------------------------------------------------------------------- paging

  datatype Place = Place(rank: nat, entry: Entry)
  datatype Page = Page(items: seq<Place>, next: Option<nat>)

  function Places(ranking: seq<Entry>): seq<Place>
  {
    seq(|ranking|, i requires 0 <= i < |ranking| => Place(i + 1, ranking[i]))
  }

  /** The places ranked after `after`, at most `limit` of them. */
  function Leaders(places: seq<Place>, after: nat, limit: nat): seq<Place>
  {
    var rest := if after < |places| then places[after..] else [];
    if limit < |rest| then rest[..limit] else rest
  }

  /** One request: one place more is read than is shown, to learn whether a page follows. */
  function GetLeaderboard(places: seq<Place>, after: nat, limit: nat): Page
    requires limit > 0
  {
    var entries := Leaders(places, after, limit + 1);
    if |entries| > limit then Page(entries[..limit], Some(entries[limit - 1].rank)) else Page(entries, None)
  }

  predicate Numbered(places: seq<Place>) { forall i | 0 <= i < |places| :: places[i].rank == i + 1 }

  /** `some` stands in `places` right after the first `after`. */
  predicate StandsAt(some: seq<Place>, places: seq<Place>, after: nat)
  {
    after + |some| <= |places| && forall i | 0 <= i < |some| :: some[i] == places[after + i]
  }

  lemma PageShows(places: seq<Place>, after: nat, limit: nat)
    requires limit > 0 && after <= |places| && Numbered(places)
    ensures var page := GetLeaderboard(places, after, limit);
            && StandsAt(page.items, places, after)
            && |page.items| == (if after + limit < |places| then limit else |places| - after)
            && page.next == if after + limit < |places| then Some(after + limit) else None
  {
  }

  /** What a request has to read from: the ranking of that moment. */
  datatype View = View(places: seq<Place>, limit: nat)

  ghost function Views(s: Store, visits: seq<Visit>, limits: Limits, board: Board): seq<View>
    decreases |visits|
  {
    if visits == [] then []
    else
      var s' := After(s, visits[0].before, limits);
      [View(Places(Ranking(s', board)), visits[0].limit)] + Views(s', visits[1..], limits, board)
  }

  /** Pages read one after the other, each with the cursor the one before it gave. */
  ghost predicate IsWalk(views: seq<View>, pages: seq<Page>)
  {
    |pages| <= |views| &&
    (pages != [] ==>
      var front, view := pages[..|pages| - 1], views[|pages| - 1];
      && IsWalk(views, front)
      && (front != [] ==> front[|front| - 1].next.Some?)
      && view.limit > 0
      && pages[|pages| - 1] == GetLeaderboard(view.places, Cursor(front), view.limit))
  }

  /** Where the page after these starts. */
  function Cursor(pages: seq<Page>): nat
  {
    if pages == [] then 0 else match pages[|pages| - 1].next case Some(rank) => rank case None => 0
  }

  function Collected(pages: seq<Page>): seq<Place>
  {
    if pages == [] then [] else Collected(pages[..|pages| - 1]) + pages[|pages| - 1].items
  }

  predicate Ended(pages: seq<Page>) { pages != [] && pages[|pages| - 1].next == None }

  ghost predicate AllShow(views: seq<View>, all: seq<Place>)
  {
    forall i | 0 <= i < |views| :: views[i].places == all && views[i].limit > 0
  }

  lemma {:induction false} WalkReadsOn(views: seq<View>, pages: seq<Page>, all: seq<Place>)
    requires AllShow(views, all) && Numbered(all) && IsWalk(views, pages)
    ensures StandsAt(Collected(pages), all, 0)
    ensures Ended(pages) ==> |Collected(pages)| == |all|
    ensures pages != [] && !Ended(pages) ==> Cursor(pages) == |Collected(pages)| < |all| && |pages| <= |Collected(pages)|
  {
    if pages != [] {
      var front, page, view := pages[..|pages| - 1], pages[|pages| - 1], views[|pages| - 1];
      WalkReadsOn(views, front, all);
      PageShows(view.places, Cursor(front), view.limit);
    }
  }

  ghost predicate OnlyStampedAfter(visits: seq<Visit>, asOf: Time)
  {
    forall i | 0 <= i < |visits| :: StampedAfter(visits[i].before, asOf)
  }

  lemma {:induction false} ViewsAgree(s: Store, clock: Time, visits: seq<Visit>, limits: Limits, board: Board)
    requires RowsInv(s, limits) && CanVisit(s, clock, visits, limits) && OnlyStampedAfter(visits, board.asOf)
    ensures AllShow(Views(s, visits, limits, board), Places(Ranking(s, board)))
    ensures |Views(s, visits, limits, board)| == |visits|
    decreases |visits|
  {
    if visits != [] {
      var before, others := visits[0].before, visits[1..];
      var s' := After(s, before, limits);
      RunKeepsBoard(s, clock, before, limits, board);
      RunKeepsRowsInv(s, clock, before, limits);
      ViewsAgree(s', Clock(clock, before), others, limits, board);
      AgreeWithFirst(View(Places(Ranking(s', board)), visits[0].limit), Views(s', others, limits, board), Places(Ranking(s, board)));
    }
  }

  lemma AgreeWithFirst(view: View, views: seq<View>, all: seq<Place>)
    requires AllShow(views, all) && view.places == all && view.limit > 0
    ensures AllShow([view] + views, all)
  {
  }

  /** Paging is lossless: from a reachable store, whatever happens between the pages as long
      as results are stamped after `asOf`, the pages read so far are the top of the ranking
      as of then with ranks from 1, all of it once a page brings no cursor, which it does
      after at most n pages. */
  lemma LeaderboardPagingIsLossless(clock: Time, past: seq<Timed>, visits: seq<Visit>, limits: Limits, board: Board, pages: seq<Page>)
    requires Possible(Empty, clock, past, limits)
    requires CanVisit(After(Empty, past, limits), Clock(clock, past), visits, limits)
    requires OnlyStampedAfter(visits, board.asOf)
    requires IsWalk(Views(After(Empty, past, limits), visits, limits, board), pages)
    ensures var places, ranking := Collected(pages), Ranking(After(Empty, past, limits), board);
            && |places| <= |ranking|
            && (forall i | 0 <= i < |places| :: places[i] == Place(i + 1, ranking[i]))
            && (Ended(pages) ==> |places| == |ranking|)
            && (pages != [] && |pages| >= |ranking| ==> Ended(pages))
  {
    var s := After(Empty, past, limits);
    RunKeepsRowsInv(Empty, clock, past, limits);
    ViewsAgree(s, Clock(clock, past), visits, limits, board);
    WalkReadsOn(Views(s, visits, limits, board), pages, Places(Ranking(s, board)));
  }
}

/** Runs of the submission store under fixed limits, and the quotas every reachable state keeps. */
module SubmissionQuotas {
  import opened Basics
  import opened SubmissionStore

  datatype Event =
    | Create(id: Id, user: UserId, key: nat, request: Digest, contract: Contract, open: bool)
    | Claim(id: Id, identity: Digest, snapshot: Digest, leaseSeconds: int, token: Token)
    | Succeed(claim: SubmissionStore.Claim, scores: Scores)
    | Retry(claim: SubmissionStore.Claim)
    | Fail(claim: SubmissionStore.Claim, failureContract: nat, code: Code, retryable: bool)
    | Reject(claim: SubmissionStore.Claim)
    | ExpireLeases(identityFilter: Option<Digest>)
    | ExpireQueued(identityFilter: Option<Digest>)
    | Publish(id: Id)

  datatype Timed = At(now: Time, event: Event)

  function Next(s: Store, t: Timed, limits: Limits): Store
  {
    var now := t.now;
    match t.event
    case Create(id, user, key, request, c, open) => SubmissionStore.Create(s, now, id, user, key, request, c, open, limits).0
    case Claim(id, identity, snapshot, leaseSeconds, token) => ClaimRow(s, now, id, identity, snapshot, leaseSeconds, token, limits).0
    case Succeed(c, scores) => SubmissionStore.Succeed(s, now, c, scores).0
    case Retry(c) => SubmissionStore.Retry(s, now, c, limits).0
    case Fail(c, failureContract, code, retryable) => SubmissionStore.Fail(s, now, c, failureContract, code, retryable).0
    case Reject(c) => SubmissionStore.Reject(s, now, c).0
    case ExpireLeases(identity) => SubmissionStore.ExpireLeases(s, now, identity)
    case ExpireQueued(identity) => SubmissionStore.ExpireQueued(s, now, identity)
    case Publish(id) => SubmissionStore.Publish(s, now, id)
  }

  /** The clock never runs backwards, and a new submission gets a fresh identifier. */
  predicate Enabled(s: Store, clock: Time, t: Timed)
  {
    clock <= t.now && (t.event.Create? ==> Index(s.rows, t.event.id) == |s.rows|)
  }

  ghost predicate Possible(s: Store, clock: Time, ts: seq<Timed>, limits: Limits)
    decreases |ts|
  {
    ts == [] || (Enabled(s, clock, ts[0]) && Possible(Next(s, ts[0], limits), ts[0].now, ts[1..], limits))
  }

  ghost function After(s: Store, ts: seq<Timed>, limits: Limits): Store
    decreases |ts|
  {
    if ts == [] then s else After(Next(s, ts[0], limits), ts[1..], limits)
  }

  ghost function Clock(clock: Time, ts: seq<Timed>): Time
  {
    if ts == [] then clock else ts[|ts| - 1].now
  }

  /** A page is requested with its own limit, after whatever the store went through before. */
  datatype Visit = Visit(before: seq<Timed>, limit: nat)

  ghost predicate CanVisit(s: Store, clock: Time, visits: seq<Visit>, limits: Limits)
    decreases |visits|
  {
    visits != [] ==>
      && visits[0].limit > 0
      && Possible(s, clock, visits[0].before, limits)
      && CanVisit(After(s, visits[0].before, limits), Clock(clock, visits[0].before), visits[1..], limits)
  }

  const Empty := Store([], map[], [])

  // ------------------------------------------------------------------ counting lemmas

  lemma CountAppend(rows: seq<Row>, r: Row, q: Query)
    ensures Count(rows + [r], q) == Count(rows, q) + if Selects(q, r) then 1 else 0
  {
    assert (rows + [r])[..|rows|] == rows;
  }

  lemma {:induction false} CountUpdate(rows: seq<Row>, i: nat, r: Row, q: Query)
    requires i < |rows|
    ensures Count(rows[i := r], q) + (if Selects(q, rows[i]) then 1 else 0)
         == Count(rows, q) + if Selects(q, r) then 1 else 0
  {
    var front := rows[..|rows| - 1];
    if i < |rows| - 1 {
      CountUpdate(front, i, r, q);
      assert rows[i := r][..|rows| - 1] == front[i := r];
    } else {
      assert rows[i := r][..|rows| - 1] == front;
    }
  }

  /** Rows that select less, or under a narrower query, count less. */
  lemma {:induction false} CountMonotone(rows: seq<Row>, rows': seq<Row>, q: Query, q': Query)
    requires |rows'| == |rows|
    requires forall i | 0 <= i < |rows| :: Selects(q', rows'[i]) ==> Selects(q, rows[i])
    ensures Count(rows', q') <= Count(rows, q)
  {
    if rows != [] {
      CountMonotone(rows[..|rows| - 1], rows'[..|rows| - 1], q, q');
    }
  }

  // ---------------------------------------------------------------------- invariant

  ghost predicate Keyed(rows: seq<Row>)
  {
    forall i, j | 0 <= i < j < |rows| :: rows[i].id != rows[j].id && !(rows[i].user == rows[j].user && rows[i].key == rows[j].key)
  }

  ghost predicate WithinQuotas(rows: seq<Row>, limits: Limits)
  {
    && (forall user :: Count(rows, RunningOf(user)) <= OrZero(limits.runningPerUser))
    && (forall user :: Count(rows, OutstandingOf(user)) <= OrZero(limits.outstandingPerUser))
    && Count(rows, OutstandingAll) <= OrZero(limits.queueDepth)
    && (forall user, challenge, from :: Count(rows, Window(user, challenge, from)) <= OrZero(limits.perDay))
  }

  ghost predicate Inv(s: Store, clock: Time, limits: Limits)
  {
    && Keyed(s.rows)
    && (forall i | 0 <= i < |s.rows| :: s.rows[i].created <= clock)
    && WithinQuotas(s.rows, limits)
  }

  /** What never changes once a row is inserted. */
  predicate SameOrigin(r: Row, r': Row)
  {
    && r.id == r'.id && r.user == r'.user && r.key == r'.key && r.request == r'.request && r.challenge == r'.challenge
    && r.identity == r'.identity && r.snapshot == r'.snapshot && r.failureContract == r'.failureContract
    && r.created == r'.created && r.deadline == r'.deadline
  }

  predicate InPlace(r: Row, r': Row)
  {
    && SameOrigin(r, r') && (Outstanding(r'.status) ==> Outstanding(r.status))
    && (r'.status == Running ==> r.status == Running)
  }

  lemma CompletionInPlace(s: Store, t: Timed, limits: Limits)
    requires t.event.Succeed? || t.event.Retry? || t.event.Fail? || t.event.Reject?
    ensures |Next(s, t, limits).rows| == |s.rows|
    ensures forall i | 0 <= i < |s.rows| :: InPlace(s.rows[i], Next(s, t, limits).rows[i])
  {
    match t.event
    case Succeed(_, _) =>
    case Retry(_) =>
    case Fail(_, _, _, _) =>
    case Reject(_) =>
  }

  /** Every transaction but an insertion leaves the same rows, and outstanding ones can
      only be those that were. */
  lemma UpdatesInPlace(s: Store, t: Timed, limits: Limits)
    requires !t.event.Create?
    ensures |Next(s, t, limits).rows| == |s.rows|
    ensures forall i | 0 <= i < |s.rows| ::
              && SameOrigin(s.rows[i], Next(s, t, limits).rows[i])
              && (Outstanding(Next(s, t, limits).rows[i].status) ==> Outstanding(s.rows[i].status))
              && (Next(s, t, limits).rows[i].status == Running && s.rows[i].status != Running ==> t.event.Claim?)
  {
    if t.event.Succeed? || t.event.Retry? || t.event.Fail? || t.event.Reject? {
      CompletionInPlace(s, t, limits);
    }
  }

  lemma CreateKeepsQuotas(s: Store, t: Timed, clock: Time, limits: Limits)
    requires Inv(s, clock, limits) && Enabled(s, clock, t) && t.event.Create?
    requires Next(s, t, limits) != s
    ensures WithinQuotas(Next(s, t, limits).rows, limits)
  {
    var e := t.event;
    var row := NewRow(e.id, e.user, e.key, e.request, e.contract, t.now);
    forall q: Query ensures Count(s.rows + [row], q) == Count(s.rows, q) + if Selects(q, row) then 1 else 0 {
      CountAppend(s.rows, row, q);
    }
    forall user, challenge, from
      ensures Count(s.rows + [row], Window(user, challenge, from)) <= OrZero(limits.perDay)
    {
      if Selects(Window(user, challenge, from), row) {
        CountMonotone(s.rows, s.rows, Since(user, challenge, t.now - DAY), Window(user, challenge, from));
      }
    }
    forall user ensures Count(s.rows + [row], OutstandingOf(user)) <= OrZero(limits.outstandingPerUser) {
    }
    forall user ensures Count(s.rows + [row], RunningOf(user)) <= OrZero(limits.runningPerUser) {
    }
  }

  lemma UpdateKeepsQuotas(s: Store, t: Timed, clock: Time, limits: Limits)
    requires Inv(s, clock, limits) && Enabled(s, clock, t) && !t.event.Create? && !t.event.Claim?
    ensures WithinQuotas(Next(s, t, limits).rows, limits)
  {
    var rows' := Next(s, t, limits).rows;
    UpdatesInPlace(s, t, limits);
    forall q: Query ensures !q.Since? ==> Count(rows', q) <= Count(s.rows, q) {
      if !q.Since? {
        CountMonotone(s.rows, rows', q, q);
      }
    }
  }

  lemma ClaimKeepsQuotas(s: Store, t: Timed, clock: Time, limits: Limits)
    requires Inv(s, clock, limits) && Enabled(s, clock, t) && t.event.Claim?
    ensures WithinQuotas(Next(s, t, limits).rows, limits)
  {
    var rows', i := Next(s, t, limits).rows, Index(s.rows, t.event.id);
    if rows' != s.rows {
      OneClaimed(s.rows, i, rows'[i], limits);
    }
  }

  lemma OneClaimed(rows: seq<Row>, i: nat, r: Row, limits: Limits)
    requires WithinQuotas(rows, limits) && i < |rows| && SameOrigin(rows[i], r) && rows[i].status == Queued
    requires r.status == Failed || (r.status == Running && Count(rows, RunningOf(r.user)) < limits.runningPerUser)
    ensures WithinQuotas(rows[i := r], limits)
  {
    forall q: Query
      ensures Count(rows[i := r], q) + (if Selects(q, rows[i]) then 1 else 0) == Count(rows, q) + if Selects(q, r) then 1 else 0
    {
      CountUpdate(rows, i, r, q);
    }
  }

  lemma StepKeepsInv(s: Store, clock: Time, t: Timed, limits: Limits)
    requires Inv(s, clock, limits) && Enabled(s, clock, t)
    ensures Inv(Next(s, t, limits), t.now, limits)
  {
    if t.event.Create? {
      if Next(s, t, limits) != s {
        CreateKeepsQuotas(s, t, clock, limits);
      }
    } else {
      UpdatesInPlace(s, t, limits);
      if t.event.Claim? {
        ClaimKeepsQuotas(s, t, clock, limits);
      } else {
        UpdateKeepsQuotas(s, t, clock, limits);
      }
    }
  }

  lemma {:induction false} RunKeepsInv(s: Store, clock: Time, ts: seq<Timed>, limits: Limits)
    requires Inv(s, clock, limits) && Possible(s, clock, ts, limits)
    ensures Inv(After(s, ts, limits), Clock(clock, ts), limits)
    decreases |ts|
  {
    if ts != [] {
      StepKeepsInv(s, clock, ts[0], limits);
      RunKeepsInv(Next(s, ts[0], limits), ts[0].now, ts[1..], limits);
    }
  }

  // --------------------------------------------------------------------- main results

  /** Every reachable state: running and outstanding per user, outstanding in all, and every
      closed day's submissions per user and challenge stay within their limits, or at 0 under a negative one. */
  lemma QuotasHold(clock: Time, ts: seq<Timed>, limits: Limits)
    requires Possible(Empty, clock, ts, limits)
    ensures WithinQuotas(After(Empty, ts, limits).rows, limits)
    ensures Keyed(After(Empty, ts, limits).rows)
  {
    RunKeepsInv(Empty, clock, ts, limits);
  }

  /** Sending a key again adds nothing: it answers the first row, or reports the conflict,
      whatever quota, pause or clock has become of it. */
  lemma ReplayAddsNothing(s: Store, clock: Time, first: Timed, between: seq<Timed>, again: Timed, limits: Limits)
    requires Inv(s, clock, limits) && Possible(s, clock, [first] + between, limits)
    requires first.event.Create? && again.event.Create?
    requires again.event.user == first.event.user && again.event.key == first.event.key
    requires var e := first.event;
             SubmissionStore.Create(s, first.now, e.id, e.user, e.key, e.request, e.contract, e.open, limits).1.Created?
    ensures var s' := After(s, [first] + between, limits);
            var e := again.event;
            var (s2, result) := SubmissionStore.Create(s', again.now, e.id, e.user, e.key, e.request, e.contract, e.open, limits);
            && s2 == s'
            && (if e.request == first.event.request then result.Replayed? && result.row.id == first.event.id
                else result == IdempotencyConflict)
  {
    assert ([first] + between)[1..] == between;
    StepKeepsInv(s, clock, first, limits);
    var s1 := Next(s, first, limits);
    var i := |s.rows|;
    RunKeepsInv(s1, first.now, between, limits);
    OriginsStay(s1, first.now, between, limits, i);
  }

  lemma {:induction false} OriginsStay(s: Store, clock: Time, ts: seq<Timed>, limits: Limits, i: nat)
    requires Possible(s, clock, ts, limits) && i < |s.rows|
    ensures |s.rows| <= |After(s, ts, limits).rows|
    ensures SameOrigin(s.rows[i], After(s, ts, limits).rows[i])
    decreases |ts|
  {
    if ts != [] {
      if !ts[0].event.Create? {
        UpdatesInPlace(s, ts[0], limits);
      }
      OriginsStay(Next(s, ts[0], limits), ts[0].now, ts[1..], limits, i);
    }
  }

  /** The oldest counted submission leaves the day's window only once it is more than a day
      old: until then none of the counted ones does. */
  lemma FreedOnceOlder(rows: seq<Row>, now: Time, user: UserId, challenge: nat, later: Time)
    requires Count(rows, Since(user, challenge, now - DAY)) > 0 && later >= now
    ensures var q, q' := Since(user, challenge, now - DAY), Since(user, challenge, later - DAY);
            Count(rows, q') < Count(rows, q) <==> later > Oldest(rows, q) + DAY
  {
    var q, q' := Since(user, challenge, now - DAY), Since(user, challenge, later - DAY);
    var oldest := Oldest(rows, q);
    if later > oldest + DAY {
      var i :| 0 <= i < |rows| && Selects(q, rows[i]) && rows[i].created == oldest;
      CountStrict(rows, q, q', i);
    } else {
      CountMonotone(rows, rows, q', q);
    }
  }

  /** After the advertised wait, if none is added meanwhile, fewer are counted: always later
      than it, and at its very end exactly unless a whole number of seconds was left. */
  lemma RetryAfterFreesIff(rows: seq<Row>, now: Time, user: UserId, challenge: nat)
    requires Count(rows, Since(user, challenge, now - DAY)) > 0
    ensures var q := Since(user, challenge, now - DAY);
            var left := Oldest(rows, q) + DAY - now;
            var end := now + RetryAfter(Oldest(rows, q), now) * SECOND;
            && (Count(rows, Since(user, challenge, end - DAY)) < Count(rows, q) <==> left <= 0 || left % SECOND != 0)
            && forall from | from > end - DAY :: Count(rows, Since(user, challenge, from)) < Count(rows, q)
  {
    var q := Since(user, challenge, now - DAY);
    var end := now + RetryAfter(Oldest(rows, q), now) * SECOND;
    FreedOnceOlder(rows, now, user, challenge, end);
    forall from | from > end - DAY ensures Count(rows, Since(user, challenge, from)) < Count(rows, q) {
      FreedOnceOlder(rows, now, user, challenge, from + DAY);
    }
  }

  /** The case occurs: with one submission a day allowed, one second after the first the
      wait is 86399 seconds, and at its end the answer is to wait one second more. */
  lemma WholeSecondsStillRefused(c: Contract)
    ensures var limits := Limits(1, 2, 2, 1, 1);
            var first := At(0, Event.Create(0, 0, 0, 0, c, true));
            var s := After(Empty, [first], limits);
            && Possible(Empty, 0, [first], limits)
            && SubmissionStore.Create(s, SECOND, 1, 0, 1, 0, c, true, limits) == (s, RateLimited(1, 1, 86399))
            && SubmissionStore.Create(s, SECOND + 86399 * SECOND, 1, 0, 1, 0, c, true, limits) == (s, RateLimited(1, 1, 1))
  {
    var limits := Limits(1, 2, 2, 1, 1);
    var first := At(0, Event.Create(0, 0, 0, 0, c, true));
    var row := NewRow(0, 0, 0, 0, c, 0);
    assert [first][1..] == [];
    var s := Next(Empty, first, limits);
    assert s.rows == [row];
    OneRow(row, Since(0, c.challenge, SECOND - DAY));
    OneRow(row, Since(0, c.challenge, SECOND + 86399 * SECOND - DAY));
    assert KeyIndex(s.rows, 0, 1) == 1;
  }

  lemma OneRow(row: Row, q: Query)
    requires Selects(q, row)
    ensures Count([row], q) == 1 && Oldest([row], q) == row.created
  {
    assert [row][..0] == [];
  }

  /** The source raises TypeError exactly for a new key on an open task under a daily limit
      of 0 or less with nothing counted. */
  lemma CrashesIffNothingToDate(s: Store, now: Time, id: Id, user: UserId, key: nat, request: Digest, c: Contract, open: bool, limits: Limits)
    ensures SubmissionStore.Create(s, now, id, user, key, request, c, open, limits).1.Crashed?
       <==> KeyIndex(s.rows, user, key) == |s.rows| && open && limits.perDay <= 0 && Count(s.rows, Since(user, c.challenge, now - DAY)) == 0
  {
  }

  /** The first submission ever, to an open task that allows none a day, crashes. */
  lemma NoAllowanceCrashes(now: Time, id: Id, user: UserId, key: nat, request: Digest, c: Contract, limits: Limits)
    requires limits.perDay <= 0
    ensures SubmissionStore.Create(Empty, now, id, user, key, request, c, true, limits) == (Empty, Crashed)
  {
  }

  lemma {:induction false} CountStrict(rows: seq<Row>, q: Query, q': Query, i: nat)
    requires i < |rows| && Selects(q, rows[i]) && !Selects(q', rows[i])
    requires forall j | 0 <= j < |rows| :: Selects(q', rows[j]) ==> Selects(q, rows[j])
    ensures Count(rows, q') < Count(rows, q)
  {
    var front := rows[..|rows| - 1];
    if i < |rows| - 1 {
      CountStrict(front, q, q', i);
    } else {
      CountMonotone(front, front, q, q');
    }
  }
}

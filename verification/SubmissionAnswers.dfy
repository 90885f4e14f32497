/** What the submission store's transactions answer, in terms of the rows themselves: when a
    submission is taken, how long a claim lasts, and who may end it how. */
module SubmissionAnswers {
  import opened Basics
  import opened SubmissionStore
  import opened SubmissionQuotas
  import opened LeaseFencing

  // ------------------------------------------------------------------- counting by rows

  /** The user's submissions to the challenge of the last day. */
  function OfToday(rows: seq<Row>, user: UserId, challenge: nat, now: Time): set<int>
  {
    set i | 0 <= i < |rows| && rows[i].user == user && rows[i].challenge == challenge && rows[i].created >= now - 24 * 3600 * 1000000
  }

  function Unfinished(rows: seq<Row>): set<int> { set i | 0 <= i < |rows| && rows[i].status in {Queued, Running} }

  function UnfinishedOf(rows: seq<Row>, user: UserId): set<int>
  {
    set i | 0 <= i < |rows| && rows[i].user == user && rows[i].status in {Queued, Running}
  }

  function RunningNow(rows: seq<Row>, user: UserId): set<int>
  {
    set i | 0 <= i < |rows| && rows[i].user == user && rows[i].status == Running
  }

  function Selected(rows: seq<Row>, q: Query): set<int> { set i | 0 <= i < |rows| && Selects(q, rows[i]) }

  lemma SelectedStep(rows: seq<Row>, q: Query)
    requires rows != []
    ensures var n := |rows| - 1;
            n !in Selected(rows[..n], q) && Selected(rows, q) == Selected(rows[..n], q) + if Selects(q, rows[n]) then {n} else {}
  {
    var n := |rows| - 1;
    assert forall i | 0 <= i < n :: rows[..n][i] == rows[i];
  }

  lemma {:induction false} CountIsSize(rows: seq<Row>, q: Query)
    ensures |Selected(rows, q)| == Count(rows, q)
  {
    if rows != [] {
      CountIsSize(rows[..|rows| - 1], q);
      SelectedStep(rows, q);
    }
  }

  lemma CountsAre(rows: seq<Row>, user: UserId, challenge: nat, now: Time)
    ensures Count(rows, Since(user, challenge, now - DAY)) == |OfToday(rows, user, challenge, now)|
    ensures Count(rows, OutstandingOf(user)) == |UnfinishedOf(rows, user)|
    ensures Count(rows, OutstandingAll) == |Unfinished(rows)|
    ensures Count(rows, RunningOf(user)) == |RunningNow(rows, user)|
  {
    CountIsSize(rows, Since(user, challenge, now - DAY));
    CountIsSize(rows, OutstandingOf(user));
    CountIsSize(rows, OutstandingAll);
    CountIsSize(rows, RunningOf(user));
    assert Selected(rows, Since(user, challenge, now - DAY)) == OfToday(rows, user, challenge, now);
    assert Selected(rows, OutstandingOf(user)) == UnfinishedOf(rows, user);
    assert Selected(rows, OutstandingAll) == Unfinished(rows);
    assert Selected(rows, RunningOf(user)) == RunningNow(rows, user);
  }

  // --------------------------------------------------------------------------- creation

  /** Some row is the user's under this idempotency key. */
  predicate Known(rows: seq<Row>, user: UserId, key: nat) { exists i | 0 <= i < |rows| :: rows[i].user == user && rows[i].key == key }

  /** One of the counted submissions is a day old after k more seconds. */
  predicate FreesAfter(rows: seq<Row>, counted: set<int>, now: Time, k: int)
    requires forall i | i in counted :: 0 <= i < |rows|
  {
    exists i | i in counted :: rows[i].created + 24 * 3600 * 1000000 <= now + k * 1000000
  }

  /** The answer to a key not used before. */
  ghost predicate AnswersNewKey(rows: seq<Row>, now: Time, user: UserId, c: Contract, open: bool, limits: Limits, r: CreateResult)
  {
    var today := OfToday(rows, user, c.challenge, now);
    if !open then r == AdmissionsPaused
    else if |today| >= limits.perDay then
      if today == {} then r == Crashed
      else r.RateLimited? && r.limit == limits.perDay && r.current == |today| && r.retryAfterSeconds >= 1
           && FreesAfter(rows, today, now, r.retryAfterSeconds)
           && (r.retryAfterSeconds > 1 ==> !FreesAfter(rows, today, now, r.retryAfterSeconds - 1))
    else if |UnfinishedOf(rows, user)| >= limits.outstandingPerUser then
      r == OutstandingLimited(limits.outstandingPerUser, |UnfinishedOf(rows, user)|)
    else if |Unfinished(rows)| >= limits.queueDepth then r == QueueFull(limits.queueDepth, |Unfinished(rows)|)
    else r.Created?
  }

  /** Creating, for every input: a known key is answered from its row; a new one is taken
      exactly when the task is open and every quota has room, and is refused otherwise for
      the first reason, with the least wait in whole seconds. */
  lemma CreationAnswers(s: Store, now: Time, id: Id, user: UserId, key: nat, request: Digest, c: Contract, open: bool, limits: Limits)
    ensures var (s', r) := SubmissionStore.Create(s, now, id, user, key, request, c, open, limits);
            && (Known(s.rows, user, key) ==> r.Replayed? || r == IdempotencyConflict)
            && (!Known(s.rows, user, key) ==> AnswersNewKey(s.rows, now, user, c, open, limits, r))
            && (!r.Created? ==> s' == s)
  {
    CountsAre(s.rows, user, c.challenge, now);
    var today := OfToday(s.rows, user, c.challenge, now);
    var r := SubmissionStore.Create(s, now, id, user, key, request, c, open, limits).1;
    if !Known(s.rows, user, key) && open && today != {} && |today| >= limits.perDay { LeastWait(s.rows, now, user, c.challenge); }
  }

  /** A known key is answered with its row for the same request, and refused for another. */
  lemma KnownKeyAnswers(s: Store, now: Time, id: Id, user: UserId, key: nat, request: Digest, c: Contract, open: bool, limits: Limits, i: nat)
    requires Keyed(s.rows) && i < |s.rows| && s.rows[i].user == user && s.rows[i].key == key
    ensures SubmissionStore.Create(s, now, id, user, key, request, c, open, limits)
         == (s, if s.rows[i].request == request then Replayed(s.rows[i]) else IdempotencyConflict)
  {
    var j := KeyIndex(s.rows, user, key);
    assert j == i;
  }

  lemma LeastWait(rows: seq<Row>, now: Time, user: UserId, challenge: nat)
    requires Count(rows, Since(user, challenge, now - DAY)) > 0
    ensures var today := OfToday(rows, user, challenge, now);
            var k := RetryAfter(Oldest(rows, Since(user, challenge, now - DAY)), now);
            k >= 1 && FreesAfter(rows, today, now, k) && (k > 1 ==> !FreesAfter(rows, today, now, k - 1))
  {
    var q := Since(user, challenge, now - DAY);
    var oldest := Oldest(rows, q);
    var i :| 0 <= i < |rows| && Selects(q, rows[i]) && rows[i].created == oldest;
    assert i in OfToday(rows, user, challenge, now);
  }

  /** A new submission waits at the end of the table and of the outbox, with what the request
      and its contract gave it and nothing of a run yet. */
  lemma CreationAdds(s: Store, now: Time, id: Id, user: UserId, key: nat, request: Digest, c: Contract, open: bool, limits: Limits)
    requires SubmissionStore.Create(s, now, id, user, key, request, c, open, limits).1.Created?
    ensures var (s', result) := SubmissionStore.Create(s, now, id, user, key, request, c, open, limits);
            var r := result.row;
            && s' == Store(s.rows + [r], s.results, s.outbox + [OutboxRow(id, now, None)])
            && r.id == id && r.user == user && r.key == key && r.request == request
            && r.challenge == c.challenge && r.identity == c.identity && r.snapshot == c.snapshot && r.failureContract == c.failureContract
            && r.created == now && r.deadline - r.created == c.deadlineSeconds * 1000000
            && r.status == Queued && r.attempt == 0 && r.lease.None? && r.started.None? && r.completed.None? && r.failure.None?
  {
  }

  // ------------------------------------------------------------------------------ claims

  /** The row a claim asks for: of this identifier, under this evaluation. */
  predicate Asked(r: Row, id: Id, identity: Digest, snapshot: Digest) { r.id == id && r.identity == identity && r.snapshot == snapshot }

  predicate Claimable(r: Row, now: Time, limits: Limits) { r.status == Queued && r.attempt < limits.maxAttempts && now < r.deadline }

  /** A claim is handed out exactly for a waiting row with attempts and time left whose user
      runs fewer than allowed; it is told to come back exactly for a running row or one that
      only lacks that room; a late row fails by its deadline, and nothing else changes. */
  lemma ClaimAnswers(s: Store, now: Time, id: Id, identity: Digest, snapshot: Digest, leaseSeconds: int, token: Token, limits: Limits, i: nat)
    requires Keyed(s.rows) && i < |s.rows| && s.rows[i].id == id
    ensures var (s', r) := ClaimRow(s, now, id, identity, snapshot, leaseSeconds, token, limits);
            var row, room := s.rows[i], |RunningNow(s.rows, s.rows[i].user)| < limits.runningPerUser;
            && (r.Claimed? <==> Asked(row, id, identity, snapshot) && Claimable(row, now, limits) && room)
            && (r == NoClaim(true) <==> Asked(row, id, identity, snapshot)
                                        && (row.status == Running || (Claimable(row, now, limits) && !room)))
            && s' == s.(rows := s.rows[i := s'.rows[i]])
            && (!r.Claimed? ==>
                  s'.rows[i] == if Asked(row, id, identity, snapshot) && row.status == Queued && row.attempt < limits.maxAttempts && row.deadline <= now
                                then row.(status := Failed, completed := Some(now), lease := None, failure := Some(Failure(JobDeadline, false)))
                                else row)
  {
    IndexOf(s.rows, i);
    CountsAre(s.rows, s.rows[i].user, 0, now);
  }

  lemma UnknownIsNotClaimed(s: Store, now: Time, id: Id, identity: Digest, snapshot: Digest, leaseSeconds: int, token: Token, limits: Limits)
    requires forall i | 0 <= i < |s.rows| :: s.rows[i].id != id
    ensures ClaimRow(s, now, id, identity, snapshot, leaseSeconds, token, limits) == (s, NoClaim(false))
  {
  }

  /** After a claim was handed out, it and no other claim of that submission is current, for
      the time of the lease or to the deadline, whichever ends first. */
  lemma ClaimLastsItsLease(s: Store, now: Time, id: Id, identity: Digest, snapshot: Digest, leaseSeconds: int, token: Token, limits: Limits,
                           t: Time, c: SubmissionStore.Claim)
    requires Keyed(s.rows) && ClaimRow(s, now, id, identity, snapshot, leaseSeconds, token, limits).1.Claimed? && c.id == id
    ensures var (s', r) := ClaimRow(s, now, id, identity, snapshot, leaseSeconds, token, limits);
            && r.claim.id == id && r.claim.identity == identity && r.claim.snapshot == snapshot && r.claim.token == token
            && (ClaimIsCurrent(s', t, c)
                <==> c == r.claim.(deadline := c.deadline) && t < now + leaseSeconds * 1000000 && t < r.claim.deadline)
  {
    var i := Index(s.rows, id);
    var s' := ClaimRow(s, now, id, identity, snapshot, leaseSeconds, token, limits).0;
    SameIndex(s.rows, s'.rows, id);
  }

  /** The row of a claim that was handed out carries the deadline, and when it began. */
  lemma ClaimCarriesItsRow(s: Store, now: Time, id: Id, identity: Digest, snapshot: Digest, leaseSeconds: int, token: Token, limits: Limits, i: nat)
    requires Keyed(s.rows) && i < |s.rows| && s.rows[i].id == id
    requires ClaimRow(s, now, id, identity, snapshot, leaseSeconds, token, limits).1.Claimed?
    ensures var (s', r) := ClaimRow(s, now, id, identity, snapshot, leaseSeconds, token, limits);
            && r.claim.user == s.rows[i].user && r.claim.deadline == s.rows[i].deadline && r.claim.attempt == s.rows[i].attempt + 1
            && s'.rows[i].started == Some(now) && s'.rows[i].status == Running && SameOrigin(s.rows[i], s'.rows[i])
            && s'.rows[i].completed == s.rows[i].completed && s'.rows[i].failure == s.rows[i].failure
  {
    IndexOf(s.rows, i);
  }

  // --------------------------------------------------------------------- ending a claim

  /** The claim's attempt and token are those the row runs under. */
  predicate HeldBy(r: Row, c: SubmissionStore.Claim)
  {
    r.id == c.id && r.status == Running && r.attempt == c.attempt && r.lease.Some? && r.lease.value.token == c.token
  }

  predicate LeaseRuns(r: Row, now: Time) { r.lease.Some? && now < r.lease.value.expires }

  /** A holder may requeue its row exactly while lease and deadline run and attempts are left. */
  lemma RetryAnswers(s: Store, now: Time, c: SubmissionStore.Claim, limits: Limits, i: nat)
    requires Keyed(s.rows) && i < |s.rows| && s.rows[i].id == c.id
    ensures var ((s', done), row) := (SubmissionStore.Retry(s, now, c, limits), s.rows[i]);
            && (done <==> HeldBy(row, c) && row.attempt < limits.maxAttempts && LeaseRuns(row, now) && now < row.deadline)
            && s' == (if done then s.(rows := s.rows[i := row.(status := Queued, lease := None, started := None)]) else s)
  {
    IndexOf(s.rows, i);
  }

  /** A holder may fail its row while the lease runs, or once the deadline has passed, which
      is then the recorded failure. */
  lemma FailAnswers(s: Store, now: Time, c: SubmissionStore.Claim, failureContract: nat, code: Code, retryable: bool, i: nat)
    requires Keyed(s.rows) && i < |s.rows| && s.rows[i].id == c.id
    ensures var ((s', done), row) := (SubmissionStore.Fail(s, now, c, failureContract, code, retryable), s.rows[i]);
            && (done <==> HeldBy(row, c) && row.failureContract == failureContract && (LeaseRuns(row, now) || row.deadline <= now))
            && (!done ==> s' == s)
            && (done ==> s' == s.(rows := s.rows[i := s'.rows[i]])
                         && s'.rows[i] == row.(status := Failed, completed := Some(now), lease := None, failure := s'.rows[i].failure)
                         && s'.rows[i].failure == Some(if now < row.deadline then Failure(code, retryable) else Failure(JobDeadline, false)))
  {
    IndexOf(s.rows, i);
  }

  lemma RejectAnswers(s: Store, now: Time, c: SubmissionStore.Claim, i: nat)
    requires Keyed(s.rows) && i < |s.rows| && s.rows[i].id == c.id
    ensures var ((s', done), row) := (SubmissionStore.Reject(s, now, c), s.rows[i]);
            && (done <==> HeldBy(row, c) && (LeaseRuns(row, now) || row.deadline <= now))
            && (!done ==> s' == s)
            && (done ==> s' == s.(rows := s.rows[i := s'.rows[i]])
                         && s'.rows[i] == (if now < row.deadline
                                           then row.(status := Rejected, completed := Some(now), lease := None, failure := Some(Failure(TokenLimitExceeded, false)))
                                           else row.(status := Failed, completed := Some(now), lease := None, failure := Some(Failure(JobDeadline, false)))))
  {
    IndexOf(s.rows, i);
  }

  /** A success is recorded exactly for the holder inside lease and deadline, row and result
      together. */
  lemma SuccessAnswers(s: Store, now: Time, c: SubmissionStore.Claim, scores: Scores, i: nat)
    requires Keyed(s.rows) && i < |s.rows| && s.rows[i].id == c.id
    ensures var ((s', done), row) := (SubmissionStore.Succeed(s, now, c, scores), s.rows[i]);
            && (done <==> HeldBy(row, c) && LeaseRuns(row, now) && now < row.deadline)
            && s' == (if done then s.(rows := s.rows[i := row.(status := Succeeded, completed := Some(now), lease := None)],
                                      results := s.results[c.id := ResultRow(row.identity, scores, now)])
                      else s)
  {
    IndexOf(s.rows, i);
  }

  /** A retried row can be claimed again, as the next attempt. */
  lemma RetriedIsClaimable(s: Store, now: Time, c: SubmissionStore.Claim, limits: Limits, t: Time, leaseSeconds: int, token: Token, i: nat)
    requires Keyed(s.rows) && i < |s.rows| && s.rows[i].id == c.id && SubmissionStore.Retry(s, now, c, limits).1
    requires t < s.rows[i].deadline && |RunningNow(s.rows, s.rows[i].user)| <= limits.runningPerUser
    ensures var s' := SubmissionStore.Retry(s, now, c, limits).0;
            var r := ClaimRow(s', t, c.id, s.rows[i].identity, s.rows[i].snapshot, leaseSeconds, token, limits).1;
            r.Claimed? && r.claim.attempt == c.attempt + 1
  {
    var s' := SubmissionStore.Retry(s, now, c, limits).0;
    RetryAnswers(s, now, c, limits, i);
    assert Keyed(s'.rows);
    assert RunningNow(s'.rows, s.rows[i].user) == RunningNow(s.rows, s.rows[i].user) - {i};
    ClaimAnswers(s', t, c.id, s.rows[i].identity, s.rows[i].snapshot, leaseSeconds, token, limits, i);
    ClaimCarriesItsRow(s', t, c.id, s.rows[i].identity, s.rows[i].snapshot, leaseSeconds, token, limits, i);
  }

  // ----------------------------------------------------------------------------- outbox

  /** Publishing moves exactly the one submission from the unpublished to the published, at
      that instant and once. */
  lemma PublishMovesOne(s: Store, now: Time, id: Id)
    requires Keyed(s.rows) && OutboxMirrors(s)
    ensures var s' := SubmissionStore.Publish(s, now, id);
            && s'.rows == s.rows && s'.results == s.results && OutboxMirrors(s')
            && forall i | 0 <= i < |s.rows| ::
                 s'.outbox[i] == if s.rows[i].id == id && s.outbox[i].published.None?
                                 then OutboxRow(id, s.outbox[i].created, Some(now)) else s.outbox[i]
  {
  }
}

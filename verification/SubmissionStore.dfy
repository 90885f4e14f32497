/** The submission tables and the transactions over them, each one atomic step at the
    database's clock. */
module SubmissionStore {
  import opened Basics

  type Id = nat
  type UserId = nat
  type Digest = nat
  type Token = nat
  type Time = int  // microseconds

  const SECOND: Time := 1000000
  const DAY: Time := 24 * 3600 * SECOND

  datatype Status = Queued | Running | Rejected | Succeeded | Failed
  datatype Code = JobDeadline | WorkerCrash | TokenLimitExceeded | Reported(text: string)
  datatype Failure = Failure(code: Code, retryable: bool)
  datatype Lease = Lease(token: Token, expires: Time)

  datatype Row = Row(id: Id, user: UserId, key: nat, request: Digest, challenge: nat, identity: Digest, snapshot: Digest,
                     failureContract: nat, created: Time, deadline: Time,
                     status: Status, attempt: nat, lease: Option<Lease>, started: Option<Time>, completed: Option<Time>,
                     failure: Option<Failure>)
  datatype Scores = Scores(score: real, total: nat, valid: nat, invalid: nat)
  datatype ResultRow = ResultRow(identity: Digest, scores: Scores, succeeded: Time)
  datatype OutboxRow = OutboxRow(submission: Id, created: Time, published: Option<Time>)

  /** Rows in the order they were inserted. */
  datatype Store = Store(rows: seq<Row>, results: map<Id, ResultRow>, outbox: seq<OutboxRow>)

  datatype Contract = Contract(challenge: nat, identity: Digest, snapshot: Digest, failureContract: nat, deadlineSeconds: int)
  /** The contract reader takes any whole numbers, so a limit may be 0 or negative. */
  datatype Limits = Limits(perDay: int, outstandingPerUser: int, queueDepth: int, runningPerUser: int, maxAttempts: int)
  datatype Claim = Claim(id: Id, user: UserId, snapshot: Digest, identity: Digest, attempt: nat, token: Token, deadline: Time)

  function OrZero(limit: int): nat { if limit < 0 then 0 else limit }

  predicate Outstanding(s: Status) { s == Queued || s == Running }

  // ------------------------------------------------------------------------- queries

  datatype Query =
    | Since(user: UserId, challenge: nat, from: Time)
    | Window(user: UserId, challenge: nat, from: Time)
    | OutstandingOf(user: UserId)
    | OutstandingAll
    | RunningOf(user: UserId)

  predicate Selects(q: Query, r: Row)
  {
    match q
    case Since(user, challenge, from) => r.user == user && r.challenge == challenge && r.created >= from
    case Window(user, challenge, from) => r.user == user && r.challenge == challenge && from <= r.created <= from + DAY
    case OutstandingOf(user) => r.user == user && Outstanding(r.status)
    case OutstandingAll => Outstanding(r.status)
    case RunningOf(user) => r.user == user && r.status == Running
  }

  function Count(rows: seq<Row>, q: Query): nat
  {
    if rows == [] then 0
    else Count(rows[..|rows| - 1], q) + if Selects(q, rows[|rows| - 1]) then 1 else 0
  }

  /** The position of the row with this primary key, or the table's size. */
  function Index(rows: seq<Row>, id: Id): (i: nat)
    ensures i <= |rows| && (i < |rows| ==> rows[i].id == id)
    ensures forall j | 0 <= j < i :: rows[j].id != id
    decreases |rows|
  {
    if rows == [] then 0
    else
      var i := Index(rows[..|rows| - 1], id);
      if i < |rows| - 1 then i else if rows[i].id == id then i else |rows|
  }

  /** The position of the user's row with this idempotency key, or the table's size. */
  function KeyIndex(rows: seq<Row>, user: UserId, key: nat): (i: nat)
    ensures i <= |rows| && (i < |rows| ==> rows[i].user == user && rows[i].key == key)
    ensures forall j | 0 <= j < i :: !(rows[j].user == user && rows[j].key == key)
    decreases |rows|
  {
    if rows == [] then 0
    else
      var i := KeyIndex(rows[..|rows| - 1], user, key);
      if i < |rows| - 1 then i else if rows[i].user == user && rows[i].key == key then i else |rows|
  }

  function Oldest(rows: seq<Row>, q: Query): (t: Time)
    requires Count(rows, q) > 0
    ensures exists i | 0 <= i < |rows| :: Selects(q, rows[i]) && rows[i].created == t
    ensures forall i | 0 <= i < |rows| && Selects(q, rows[i]) :: t <= rows[i].created
  {
    var front, last := rows[..|rows| - 1], rows[|rows| - 1];
    if Count(front, q) == 0 then
      NoneSelected(front, q);
      last.created
    else
      var t := Oldest(front, q);
      var i :| 0 <= i < |front| && Selects(q, front[i]) && front[i].created == t;
      assert rows[i] == front[i];
      assert forall j | 0 <= j < |front| :: rows[j] == front[j];
      if Selects(q, last) && last.created < t then last.created else t
  }

  lemma {:induction false} NoneSelected(rows: seq<Row>, q: Query)
    requires Count(rows, q) == 0
    ensures forall i | 0 <= i < |rows| :: !Selects(q, rows[i])
  {
    if rows != [] {
      NoneSelected(rows[..|rows| - 1], q);
    }
  }

  // --------------------------------------------------------------------- transactions

  datatype CreateResult =
    | Created(row: Row)
    | Replayed(row: Row)
    | IdempotencyConflict
    | AdmissionsPaused
    | RateLimited(limit: int, current: nat, retryAfterSeconds: int)
    | OutstandingLimited(limit: int, current: nat)
    | QueueFull(limit: int, current: nat)
    | Crashed  // a daily limit of 0 or less with nothing to date the retry from: the source raises TypeError

  /** Seconds, rounded up, until the oldest counted submission is a day old; at least 1. */
  function RetryAfter(oldest: Time, now: Time): int
  {
    var seconds := (oldest + DAY - now + SECOND - 1) / SECOND;
    if seconds < 1 then 1 else seconds
  }

  function NewRow(id: Id, user: UserId, key: nat, request: Digest, c: Contract, now: Time): Row
  {
    Row(id, user, key, request, c.challenge, c.identity, c.snapshot, c.failureContract, now,
        now + c.deadlineSeconds * SECOND, Queued, 0, None, None, None, None)
  }

  function AdmissionVerdict(rows: seq<Row>, now: Time, user: UserId, c: Contract, open: bool, limits: Limits): Option<CreateResult>
  {
    var recent := Since(user, c.challenge, now - DAY);
    if !open then Some(AdmissionsPaused)
    else if Count(rows, recent) >= limits.perDay then
      Some(if Count(rows, recent) == 0 then Crashed
           else RateLimited(limits.perDay, Count(rows, recent), RetryAfter(Oldest(rows, recent), now)))
    else if Count(rows, OutstandingOf(user)) >= limits.outstandingPerUser then
      Some(OutstandingLimited(limits.outstandingPerUser, Count(rows, OutstandingOf(user))))
    else if Count(rows, OutstandingAll) >= limits.queueDepth then
      Some(QueueFull(limits.queueDepth, Count(rows, OutstandingAll)))
    else None
  }

  function Create(s: Store, now: Time, id: Id, user: UserId, key: nat, request: Digest, c: Contract, open: bool, limits: Limits)
    : (Store, CreateResult)
  {
    var i := KeyIndex(s.rows, user, key);
    if i < |s.rows| then
      (s, if s.rows[i].request == request then Replayed(s.rows[i]) else IdempotencyConflict)
    else
      match AdmissionVerdict(s.rows, now, user, c, open, limits)
      case Some(refusal) => (s, refusal)
      case None =>
        var row := NewRow(id, user, key, request, c, now);
        (Store(s.rows + [row], s.results, s.outbox + [OutboxRow(id, now, None)]), Created(row))
  }

  datatype ClaimAttempt = NoClaim(retryLater: bool) | Claimed(claim: Claim)

  function Expire(r: Row, now: Time, code: Code): Row
  {
    r.(status := Failed, completed := Some(now), lease := None, failure := Some(Failure(code, false)))
  }

  function Min(a: Time, b: Time): Time { if a < b then a else b }

  function LeaseTo(r: Row, now: Time, token: Token, leaseSeconds: int): Row
  {
    r.(status := Running, attempt := r.attempt + 1, started := Some(now),
       lease := Some(Lease(token, Min(now + leaseSeconds * SECOND, r.deadline))))
  }

  function ClaimOf(r: Row, token: Token): Claim
  {
    Claim(r.id, r.user, r.snapshot, r.identity, r.attempt, token, r.deadline)
  }

  function ClaimRow(s: Store, now: Time, id: Id, identity: Digest, snapshot: Digest, leaseSeconds: int, token: Token, limits: Limits)
    : (Store, ClaimAttempt)
  {
    var i := Index(s.rows, id);
    if i == |s.rows| then (s, NoClaim(false)) else
    var r := s.rows[i];
    if r.snapshot != snapshot || r.identity != identity then (s, NoClaim(false))
    else if r.status == Running then (s, NoClaim(true))
    else if r.status != Queued || r.attempt >= limits.maxAttempts then (s, NoClaim(false))
    else if r.deadline <= now then (s.(rows := s.rows[i := Expire(r, now, JobDeadline)]), NoClaim(false))
    else if Count(s.rows, RunningOf(r.user)) >= limits.runningPerUser then (s, NoClaim(true))
    else
      var held := LeaseTo(r, now, token, leaseSeconds);
      (s.(rows := s.rows[i := held]), Claimed(ClaimOf(held, token)))
  }

  /** The row is running under exactly this claim's attempt and lease token. */
  predicate Holds(r: Row, c: Claim)
  {
    r.id == c.id && r.status == Running && r.attempt == c.attempt && r.lease.Some? && r.lease.value.token == c.token
  }

  predicate InTime(r: Row, now: Time)
  {
    r.lease.Some? && r.lease.value.expires > now && r.deadline > now
  }

  function Succeed(s: Store, now: Time, c: Claim, scores: Scores): (Store, bool)
  {
    var i := Index(s.rows, c.id);
    if i == |s.rows| || !Holds(s.rows[i], c) || !InTime(s.rows[i], now) then (s, false)
    else
      (s.(rows := s.rows[i := s.rows[i].(status := Succeeded, completed := Some(now), lease := None)],
          results := s.results[c.id := ResultRow(s.rows[i].identity, scores, now)]), true)
  }

  function Retry(s: Store, now: Time, c: Claim, limits: Limits): (Store, bool)
  {
    var i := Index(s.rows, c.id);
    if i == |s.rows| || !Holds(s.rows[i], c) || s.rows[i].attempt >= limits.maxAttempts || !InTime(s.rows[i], now) then (s, false)
    else (s.(rows := s.rows[i := s.rows[i].(status := Queued, lease := None, started := None)]), true)
  }

  function Fail(s: Store, now: Time, c: Claim, failureContract: nat, code: Code, retryable: bool): (Store, bool)
  {
    var i := Index(s.rows, c.id);
    if i == |s.rows| || !Holds(s.rows[i], c) || s.rows[i].failureContract != failureContract then (s, false) else
    var r := s.rows[i];
    if r.lease.value.expires <= now && r.deadline > now then (s, false)
    else
      var late := r.deadline <= now;
      (s.(rows := s.rows[i := r.(status := Failed, completed := Some(now), lease := None,
                                 failure := Some(if late then Failure(JobDeadline, false) else Failure(code, retryable)))]), true)
  }

  function Reject(s: Store, now: Time, c: Claim): (Store, bool)
  {
    var i := Index(s.rows, c.id);
    if i == |s.rows| || !Holds(s.rows[i], c) then (s, false) else
    var r := s.rows[i];
    if r.lease.value.expires <= now && r.deadline > now then (s, false)
    else
      var late := r.deadline <= now;
      (s.(rows := s.rows[i := r.(status := if late then Failed else Rejected, completed := Some(now), lease := None,
                                 failure := Some(Failure(if late then JobDeadline else TokenLimitExceeded, false)))]), true)
  }

  predicate ForIdentity(r: Row, identity: Option<Digest>) { identity.Some? ==> r.identity == identity.value }

  function ExpireLease(r: Row, now: Time, identity: Option<Digest>): Row
  {
    if r.status == Running && r.lease.Some? && r.lease.value.expires <= now && ForIdentity(r, identity)
    then Expire(r, now, if r.deadline <= now then JobDeadline else WorkerCrash) else r
  }

  function ExpireDeadline(r: Row, now: Time, identity: Option<Digest>): Row
  {
    if r.status == Queued && r.deadline <= now && ForIdentity(r, identity) then Expire(r, now, JobDeadline) else r
  }

  function ExpireLeases(s: Store, now: Time, identity: Option<Digest>): Store
  {
    s.(rows := seq(|s.rows|, i requires 0 <= i < |s.rows| => ExpireLease(s.rows[i], now, identity)))
  }

  function ExpireQueued(s: Store, now: Time, identity: Option<Digest>): Store
  {
    s.(rows := seq(|s.rows|, i requires 0 <= i < |s.rows| => ExpireDeadline(s.rows[i], now, identity)))
  }

  function Publish(s: Store, now: Time, id: Id): Store
  {
    s.(outbox := seq(|s.outbox|, i requires 0 <= i < |s.outbox| =>
         if s.outbox[i].submission == id && s.outbox[i].published == None then s.outbox[i].(published := Some(now)) else s.outbox[i]))
  }

  /** Whether a worker may go on with its claim. */
  predicate ClaimIsCurrent(s: Store, now: Time, c: Claim)
  {
    var i := Index(s.rows, c.id);
    && i < |s.rows| && Holds(s.rows[i], c) && InTime(s.rows[i], now)
    && s.rows[i].user == c.user && s.rows[i].identity == c.identity && s.rows[i].snapshot == c.snapshot
  }

  /** Submissions of one evaluation that wait in the queue, by the state of their outbox row. */
  function Waiting(s: Store, outbox: seq<OutboxRow>, identity: Digest, snapshot: Digest, published: bool): seq<Id>
  {
    if outbox == [] then []
    else
      var front, o := outbox[..|outbox| - 1], outbox[|outbox| - 1];
      var i := Index(s.rows, o.submission);
      Waiting(s, front, identity, snapshot, published)
      + if o.published.Some? == published && i < |s.rows| && s.rows[i].status == Queued
           && s.rows[i].identity == identity && s.rows[i].snapshot == snapshot then [o.submission] else []
  }

  // ------------------------------------------------------------- the store as written

  class PostgresSubmissionStore {
    var rows: seq<Row>
    var results: map<Id, ResultRow>
    var outbox: seq<OutboxRow>

    function View(): Store reads this { Store(rows, results, outbox) }

    constructor ()
      ensures View() == Store([], map[], [])
    {
      rows, results, outbox := [], map[], [];
    }

    method CreateSubmission(now: Time, id: Id, user: UserId, key: nat, request: Digest, c: Contract, open: bool, limits: Limits)
      returns (r: CreateResult)
      modifies this
      ensures (View(), r) == Create(old(View()), now, id, user, key, request, c, open, limits)
    {
      var existing := KeyIndex(rows, user, key);
      if existing < |rows| {
        if rows[existing].request != request { return IdempotencyConflict; }
        return Replayed(rows[existing]);
      }
      if !open { return AdmissionsPaused; }
      var recent := Since(user, c.challenge, now - DAY);
      var accepted := Count(rows, recent);
      if accepted >= limits.perDay {
        if accepted == 0 { return Crashed; }
        return RateLimited(limits.perDay, accepted, RetryAfter(Oldest(rows, recent), now));
      }
      var outstanding := Count(rows, OutstandingOf(user));
      if outstanding >= limits.outstandingPerUser { return OutstandingLimited(limits.outstandingPerUser, outstanding); }
      var total := Count(rows, OutstandingAll);
      if total >= limits.queueDepth { return QueueFull(limits.queueDepth, total); }
      var row := NewRow(id, user, key, request, c, now);
      rows := rows + [row];
      outbox := outbox + [OutboxRow(id, now, None)];
      return Created(row);
    }

    method ClaimSubmission(now: Time, id: Id, identity: Digest, snapshot: Digest, leaseSeconds: int, token: Token, limits: Limits)
      returns (r: ClaimAttempt)
      modifies this`rows
      ensures (View(), r) == ClaimRow(old(View()), now, id, identity, snapshot, leaseSeconds, token, limits)
    {
      var i := Index(rows, id);
      if i == |rows| { return NoClaim(false); }
      var row := rows[i];
      if row.snapshot != snapshot || row.identity != identity { return NoClaim(false); }
      if row.status == Running { return NoClaim(true); }
      if row.status != Queued || row.attempt >= limits.maxAttempts { return NoClaim(false); }
      if row.deadline <= now {
        rows := rows[i := Expire(row, now, JobDeadline)];
        return NoClaim(false);
      }
      if Count(rows, RunningOf(row.user)) >= limits.runningPerUser { return NoClaim(true); }
      rows := rows[i := LeaseTo(row, now, token, leaseSeconds)];
      return Claimed(Claim(id, row.user, row.snapshot, row.identity, row.attempt + 1, token, row.deadline));
    }

    method CompleteSuccess(now: Time, c: Claim, scores: Scores) returns (done: bool)
      modifies this
      ensures (View(), done) == Succeed(old(View()), now, c, scores)
    {
      var i := Index(rows, c.id);
      if i == |rows| || !Holds(rows[i], c) { return false; }
      if rows[i].lease.value.expires <= now || rows[i].deadline <= now { return false; }
      rows := rows[i := rows[i].(status := Succeeded, completed := Some(now), lease := None)];
      results := results[c.id := ResultRow(rows[i].identity, scores, now)];
      return true;
    }

    method RetrySubmission(now: Time, c: Claim, limits: Limits) returns (done: bool)
      modifies this`rows
      ensures (View(), done) == Retry(old(View()), now, c, limits)
    {
      var i := Index(rows, c.id);
      if i == |rows| || !Holds(rows[i], c) || rows[i].attempt >= limits.maxAttempts { return false; }
      if rows[i].deadline <= now || rows[i].lease.value.expires <= now { return false; }
      rows := rows[i := rows[i].(status := Queued, lease := None, started := None)];
      return true;
    }

    method CompleteFailure(now: Time, c: Claim, failureContract: nat, code: Code, retryable: bool) returns (done: bool)
      modifies this`rows
      ensures (View(), done) == Fail(old(View()), now, c, failureContract, code, retryable)
    {
      var i := Index(rows, c.id);
      if i == |rows| || !Holds(rows[i], c) || rows[i].failureContract != failureContract { return false; }
      var row := rows[i];
      if row.lease.value.expires <= now && row.deadline > now { return false; }
      var failure := Failure(code, retryable);
      if row.deadline <= now { failure := Failure(JobDeadline, false); }
      rows := rows[i := row.(status := Failed, completed := Some(now), lease := None, failure := Some(failure))];
      return true;
    }

    method CompleteRejected(now: Time, c: Claim) returns (done: bool)
      modifies this`rows
      ensures (View(), done) == Reject(old(View()), now, c)
    {
      var i := Index(rows, c.id);
      if i == |rows| || !Holds(rows[i], c) { return false; }
      var row := rows[i];
      if row.lease.value.expires <= now && row.deadline > now { return false; }
      var status, code := Rejected, TokenLimitExceeded;
      if row.deadline <= now { status, code := Failed, JobDeadline; }
      rows := rows[i := row.(status := status, completed := Some(now), lease := None, failure := Some(Failure(code, false)))];
      return true;
    }

    /** The number of rows it failed. */
    method ExpireAllLeases(now: Time, identity: Option<Digest>) returns (count: nat)
      modifies this`rows
      ensures View() == ExpireLeases(old(View()), now, identity)
      ensures count == Changed(old(rows), rows)
      ensures forall i | 0 <= i < |rows| ::
                var r := old(rows)[i];
                if r.status == Running && r.lease.Some? && r.lease.value.expires <= now && (identity == None || identity == Some(r.identity))
                then rows[i] == r.(status := Failed, completed := Some(now), lease := None, failure := rows[i].failure)
                     && rows[i].failure == Some(Failure(if r.deadline <= now then JobDeadline else WorkerCrash, false))
                else rows[i] == r
    {
      var was := rows;
      rows := seq(|was|, i requires 0 <= i < |was| => ExpireLease(was[i], now, identity));
      count := CountChanged(was, rows);
    }

    method ExpireQueuedDeadlines(now: Time, identity: Option<Digest>) returns (count: nat)
      modifies this`rows
      ensures View() == ExpireQueued(old(View()), now, identity)
      ensures count == Changed(old(rows), rows)
      ensures forall i | 0 <= i < |rows| ::
                var r := old(rows)[i];
                if r.status == Queued && r.deadline <= now && (identity == None || identity == Some(r.identity))
                then rows[i] == r.(status := Failed, completed := Some(now), lease := None, failure := Some(Failure(JobDeadline, false)))
                else rows[i] == r
    {
      var was := rows;
      rows := seq(|was|, i requires 0 <= i < |was| => ExpireDeadline(was[i], now, identity));
      count := CountChanged(was, rows);
    }
  }

  /** How many rows an update changed. */
  function Changed(a: seq<Row>, b: seq<Row>): nat
    requires |a| == |b|
  {
    if a == [] then 0 else Changed(a[..|a| - 1], b[..|a| - 1]) + if a[|a| - 1] != b[|a| - 1] then 1 else 0
  }

  method CountChanged(a: seq<Row>, b: seq<Row>) returns (n: nat)
    requires |a| == |b|
    ensures n == Changed(a, b)
  {
    n := 0;
    for i := 0 to |a|
      invariant n == Changed(a[..i], b[..i])
    {
      assert a[..i + 1][..i] == a[..i] && b[..i + 1][..i] == b[..i];
      if a[i] != b[i] { n := n + 1; }
    }
    assert a[..|a|] == a && b[..|a|] == b;
  }
}

/** Leases and attempts over whole runs of the submission store. */
module LeaseFencing {
  import opened Basics
  import opened SubmissionStore
  import opened SubmissionQuotas

  predicate Terminal(s: Status) { !Outstanding(s) }

  /** What each row and its result keep, for a given number of attempts. */
  predicate RowInv(r: Row, results: map<Id, ResultRow>, limits: Limits)
  {
    && r.attempt <= OrZero(limits.maxAttempts)
    && (r.status == Queued && limits.maxAttempts > 0 ==> r.attempt < limits.maxAttempts)
    && (r.status == Running <==> r.lease.Some?)
    && (r.status == Running ==> r.attempt >= 1 && r.lease.value.expires <= r.deadline)
    && (Terminal(r.status) <==> r.completed.Some?)
    && (r.id in results <==> r.status == Succeeded)
    && (r.status == Succeeded ==> results[r.id].succeeded == r.completed.value < r.deadline && results[r.id].identity == r.identity)
  }

  ghost predicate RowsInv(s: Store, limits: Limits)
  {
    && Keyed(s.rows)
    && (forall i | 0 <= i < |s.rows| :: RowInv(s.rows[i], s.results, limits))
    && (forall id | id in s.results :: Index(s.rows, id) < |s.rows|)
  }

  lemma IndexOf(rows: seq<Row>, i: nat)
    requires Keyed(rows) && i < |rows|
    ensures Index(rows, rows[i].id) == i
  {
  }

  lemma ClaimKeepsRow(s: Store, t: Timed, limits: Limits, i: nat)
    requires RowsInv(s, limits) && t.event.Claim? && i < |s.rows| == |Next(s, t, limits).rows|
    ensures RowInv(Next(s, t, limits).rows[i], Next(s, t, limits).results, limits)
  {
    assert RowInv(s.rows[i], s.results, limits);
    IndexOf(s.rows, i);
  }

  lemma SucceedKeepsRow(s: Store, t: Timed, limits: Limits, i: nat)
    requires RowsInv(s, limits) && t.event.Succeed? && i < |s.rows| == |Next(s, t, limits).rows|
    ensures RowInv(Next(s, t, limits).rows[i], Next(s, t, limits).results, limits)
  {
    assert RowInv(s.rows[i], s.results, limits);
    var j := Index(s.rows, t.event.claim.id);
    assert j != i && j < |s.rows| ==> s.rows[i].id != t.event.claim.id;
  }

  lemma CompletionKeepsRow(s: Store, t: Timed, limits: Limits, i: nat)
    requires RowsInv(s, limits) && (t.event.Retry? || t.event.Fail? || t.event.Reject?) && i < |s.rows| == |Next(s, t, limits).rows|
    ensures RowInv(Next(s, t, limits).rows[i], Next(s, t, limits).results, limits)
  {
    assert RowInv(s.rows[i], s.results, limits);
    IndexOf(s.rows, i);
  }

  lemma ExpiryKeepsRow(s: Store, t: Timed, limits: Limits, i: nat)
    requires RowsInv(s, limits) && (t.event.ExpireLeases? || t.event.ExpireQueued? || t.event.Publish?)
    requires i < |s.rows| == |Next(s, t, limits).rows|
    ensures RowInv(Next(s, t, limits).rows[i], Next(s, t, limits).results, limits)
  {
    assert RowInv(s.rows[i], s.results, limits);
  }

  lemma UpdateKeepsRow(s: Store, t: Timed, limits: Limits, i: nat)
    requires RowsInv(s, limits) && !t.event.Create? && i < |s.rows| == |Next(s, t, limits).rows|
    ensures RowInv(Next(s, t, limits).rows[i], Next(s, t, limits).results, limits)
  {
    if t.event.Claim? { ClaimKeepsRow(s, t, limits, i); }
    else if t.event.Succeed? { SucceedKeepsRow(s, t, limits, i); }
    else if t.event.Retry? || t.event.Fail? || t.event.Reject? { CompletionKeepsRow(s, t, limits, i); }
    else { ExpiryKeepsRow(s, t, limits, i); }
  }

  lemma CreateKeepsRowsInv(s: Store, clock: Time, t: Timed, limits: Limits)
    requires RowsInv(s, limits) && Enabled(s, clock, t) && t.event.Create?
    ensures RowsInv(Next(s, t, limits), limits)
  {
    var s' := Next(s, t, limits);
    if s' != s {
      assert t.event.id !in s.results;
      forall id | id in s'.results ensures Index(s'.rows, id) < |s'.rows| {
        assert s'.rows[Index(s.rows, id)] == s.rows[Index(s.rows, id)];
      }
    }
  }

  lemma OnlySuccessAddsResults(s: Store, t: Timed, limits: Limits)
    ensures if t.event.Succeed? && SubmissionStore.Succeed(s, t.now, t.event.claim, t.event.scores).1 then
              var r := s.rows[Index(s.rows, t.event.claim.id)];
              && Next(s, t, limits).results == s.results[t.event.claim.id := ResultRow(r.identity, t.event.scores, t.now)]
              && Index(s.rows, t.event.claim.id) < |s.rows| && Holds(r, t.event.claim) && InTime(r, t.now)
            else Next(s, t, limits).results == s.results
  {
  }

  lemma ResultsHaveRows(s: Store, t: Timed, limits: Limits, id: Id)
    requires RowsInv(s, limits) && !t.event.Create? && id in Next(s, t, limits).results
    ensures Index(Next(s, t, limits).rows, id) < |Next(s, t, limits).rows|
  {
    var rows' := Next(s, t, limits).rows;
    assert |rows'| == |s.rows| && (forall i | 0 <= i < |s.rows| :: rows'[i].id == s.rows[i].id) by {
      UpdatesInPlace(s, t, limits);
    }
    OnlySuccessAddsResults(s, t, limits);
    assert rows'[Index(s.rows, id)].id == id;
  }

  lemma StepKeepsRowsInv(s: Store, clock: Time, t: Timed, limits: Limits)
    requires RowsInv(s, limits) && Enabled(s, clock, t)
    ensures RowsInv(Next(s, t, limits), limits)
  {
    if t.event.Create? {
      CreateKeepsRowsInv(s, clock, t, limits);
    } else {
      UpdatesInPlace(s, t, limits);
      forall i | 0 <= i < |s.rows| ensures RowInv(Next(s, t, limits).rows[i], Next(s, t, limits).results, limits) {
        UpdateKeepsRow(s, t, limits, i);
      }
      forall id | id in Next(s, t, limits).results ensures Index(Next(s, t, limits).rows, id) < |Next(s, t, limits).rows| {
        ResultsHaveRows(s, t, limits, id);
      }
    }
  }

  lemma {:induction false} RunKeepsRowsInv(s: Store, clock: Time, ts: seq<Timed>, limits: Limits)
    requires RowsInv(s, limits) && Possible(s, clock, ts, limits)
    ensures RowsInv(After(s, ts, limits), limits)
    decreases |ts|
  {
    if ts != [] {
      StepKeepsRowsInv(s, clock, ts[0], limits);
      RunKeepsRowsInv(Next(s, ts[0], limits), ts[0].now, ts[1..], limits);
    }
  }

  /** A result row exists exactly for the submissions that succeeded, before their deadline. */
  lemma ResultsExactlyForSuccesses(clock: Time, ts: seq<Timed>, limits: Limits)
    requires Possible(Empty, clock, ts, limits)
    ensures var s := After(Empty, ts, limits);
            forall i | 0 <= i < |s.rows| ::
              && (s.rows[i].id in s.results <==> s.rows[i].status == Succeeded)
              && (s.rows[i].status == Succeeded ==> s.results[s.rows[i].id].succeeded < s.rows[i].deadline)
    ensures var s := After(Empty, ts, limits);
            forall id | id in s.results :: Index(s.rows, id) < |s.rows|
  {
    RunKeepsRowsInv(Empty, clock, ts, limits);
    var s := After(Empty, ts, limits);
    assert forall i | 0 <= i < |s.rows| :: RowInv(s.rows[i], s.results, limits);
  }

  /** A step that writes a result does so inside the lease and the deadline it found, and
      no step touches a result or a terminal row again. */
  lemma StepRespectsFinality(s: Store, clock: Time, t: Timed, limits: Limits)
    requires RowsInv(s, limits) && Enabled(s, clock, t)
    ensures forall id | id in Next(s, t, limits).results && id !in s.results ::
              && t.event.Succeed? && t.event.claim.id == id
              && var r := s.rows[Index(s.rows, id)];
              && Holds(r, t.event.claim) && InTime(r, t.now) && Next(s, t, limits).results[id].succeeded == t.now
    ensures forall id | id in s.results :: id in Next(s, t, limits).results && Next(s, t, limits).results[id] == s.results[id]
    ensures forall i | 0 <= i < |s.rows| && Terminal(s.rows[i].status) ::
              i < |Next(s, t, limits).rows| && Next(s, t, limits).rows[i] == s.rows[i]
  {
    assert forall i | 0 <= i < |s.rows| :: RowInv(s.rows[i], s.results, limits);
    OnlySuccessAddsResults(s, t, limits);
    forall i | 0 <= i < |s.rows| && Terminal(s.rows[i].status)
      ensures i < |Next(s, t, limits).rows| && Next(s, t, limits).rows[i] == s.rows[i]
    {
      TerminalRowStays(s, t, limits, i);
    }
  }

  lemma TerminalRowStays(s: Store, t: Timed, limits: Limits, i: nat)
    requires RowsInv(s, limits) && i < |s.rows| && Terminal(s.rows[i].status)
    ensures i < |Next(s, t, limits).rows| && Next(s, t, limits).rows[i] == s.rows[i]
  {
    match t.event
    case Create(_, _, _, _, _, _) =>
    case Claim(_, _, _, _, _) =>
    case ExpireLeases(_) =>
    case ExpireQueued(_) =>
    case _ =>
  }

  lemma {:induction false} TerminalIsForever(s: Store, clock: Time, ts: seq<Timed>, limits: Limits, i: nat)
    requires RowsInv(s, limits) && Possible(s, clock, ts, limits) && i < |s.rows| && Terminal(s.rows[i].status)
    ensures i < |After(s, ts, limits).rows| && After(s, ts, limits).rows[i] == s.rows[i]
    decreases |ts|
  {
    if ts != [] {
      StepKeepsRowsInv(s, clock, ts[0], limits);
      StepRespectsFinality(s, clock, ts[0], limits);
      TerminalIsForever(Next(s, ts[0], limits), ts[0].now, ts[1..], limits, i);
    }
  }

  // -------------------------------------------------------------------------- fencing

  predicate UsesClaim(e: Event, c: SubmissionStore.Claim)
  {
    (e.Succeed? || e.Retry? || e.Fail? || e.Reject?) && e.claim == c
  }

  /** A claim the store handed out at row `i`: it carries the row's own attempt, or an older one. */
  predicate Issued(s: Store, c: SubmissionStore.Claim, i: nat)
  {
    && i < |s.rows|
    && s.rows[i].id == c.id && s.rows[i].user == c.user && s.rows[i].identity == c.identity && s.rows[i].snapshot == c.snapshot
    && c.attempt <= s.rows[i].attempt
  }

  lemma ClaimsAreIssued(s: Store, now: Time, id: Id, identity: Digest, snapshot: Digest, leaseSeconds: int, token: Token, limits: Limits)
    requires ClaimRow(s, now, id, identity, snapshot, leaseSeconds, token, limits).1.Claimed?
    ensures var (s', r) := ClaimRow(s, now, id, identity, snapshot, leaseSeconds, token, limits);
            && Issued(s', r.claim, Index(s.rows, id))
            && Holds(s'.rows[Index(s.rows, id)], r.claim)
            && s'.rows[Index(s.rows, id)].attempt == s.rows[Index(s.rows, id)].attempt + 1
  {
  }

  lemma StepKeepsIssued(s: Store, t: Timed, limits: Limits, c: SubmissionStore.Claim, i: nat)
    requires Issued(s, c, i)
    ensures Issued(Next(s, t, limits), c, i)
    ensures s.rows[i].attempt <= Next(s, t, limits).rows[i].attempt
  {
    if !t.event.Create? {
      UpdatesInPlace(s, t, limits);
    }
  }

  /** Once an issued claim's attempt is not the row's, it never is again, and completing,
      retrying, failing or rejecting with it changes nothing at any later time. */
  lemma {:induction false} StaleClaimsAreFenced(s: Store, clock: Time, ts: seq<Timed>, limits: Limits,
                                                c: SubmissionStore.Claim, i: nat, last: Timed)
    requires RowsInv(s, limits) && Possible(s, clock, ts, limits)
    requires Issued(s, c, i) && c.attempt != s.rows[i].attempt && UsesClaim(last.event, c)
    ensures var s' := After(s, ts, limits);
            Issued(s', c, i) && c.attempt < s'.rows[i].attempt && Next(s', last, limits) == s'
    decreases |ts|
  {
    if ts != [] {
      StepKeepsRowsInv(s, clock, ts[0], limits);
      StepKeepsIssued(s, ts[0], limits, c, i);
      StaleClaimsAreFenced(Next(s, ts[0], limits), ts[0].now, ts[1..], limits, c, i, last);
    } else {
      IndexOf(s.rows, i);
    }
  }

  /** For every issued claim, the worker's check and the commit give the same answer. */
  lemma ClaimIsCurrentIffCommits(s: Store, now: Time, limits: Limits, c: SubmissionStore.Claim, i: nat, scores: Scores)
    requires RowsInv(s, limits) && Issued(s, c, i)
    ensures ClaimIsCurrent(s, now, c) <==> SubmissionStore.Succeed(s, now, c, scores).1
  {
    IndexOf(s.rows, i);
  }

  /** Expiring leases ends exactly the claims that are not current: every claim is current
      after it if and only if it was before, and a row of the evaluation that still runs has
      a current holder; doing it again changes nothing. */
  lemma ExpiryEndsStaleClaims(s: Store, now: Time, identity: Option<Digest>, limits: Limits, c: SubmissionStore.Claim)
    requires RowsInv(s, limits)
    ensures ClaimIsCurrent(SubmissionStore.ExpireLeases(s, now, identity), now, c) <==> ClaimIsCurrent(s, now, c)
    ensures var s' := SubmissionStore.ExpireLeases(s, now, identity);
            && (forall i | 0 <= i < |s'.rows| && s'.rows[i].status == Running && ForIdentity(s'.rows[i], identity) :: InTime(s'.rows[i], now))
            && SubmissionStore.ExpireLeases(s', now, identity) == s'
  {
    var s' := SubmissionStore.ExpireLeases(s, now, identity);
    assert forall i | 0 <= i < |s.rows| :: RowInv(s.rows[i], s.results, limits);
    SameIndex(s.rows, s'.rows, c.id);
    assert SubmissionStore.ExpireLeases(s', now, identity).rows == s'.rows;
  }

  lemma {:induction false} SameIndex(a: seq<Row>, b: seq<Row>, id: Id)
    requires |a| == |b| && forall i | 0 <= i < |a| :: a[i].id == b[i].id
    ensures Index(a, id) == Index(b, id)
  {
    if a != [] { SameIndex(a[..|a| - 1], b[..|a| - 1], id); }
  }

  /** After expiring queued deadlines, no claim of the evaluation meets a late row: a claim
      at that instant changes the table only by a lease. */
  lemma ClaimsMeetNoLateRow(s: Store, now: Time, identity: Digest, id: Id, snapshot: Digest, leaseSeconds: int, token: Token, limits: Limits)
    ensures var s' := SubmissionStore.ExpireQueued(s, now, Some(identity));
            var (s2, r) := ClaimRow(s', now, id, identity, snapshot, leaseSeconds, token, limits);
            && (s2 != s' <==> r.Claimed?)
            && SubmissionStore.ExpireQueued(s', now, Some(identity)) == s'
  {
    var s' := SubmissionStore.ExpireQueued(s, now, Some(identity));
    assert SubmissionStore.ExpireQueued(s', now, Some(identity)).rows == s'.rows;
    var i := Index(s'.rows, id);
    if i < |s'.rows| {
      assert s'.rows[i] == ExpireDeadline(s.rows[i], now, Some(identity));
    }
  }

  // --------------------------------------------------------------------- status changes

  /** Status changes still ahead of a row. */
  function Potential(r: Row, limits: Limits): int
  {
    match r.status
    case Queued => if limits.maxAttempts <= 0 then 1 else 2 * (limits.maxAttempts - r.attempt)
    case Running => 2 * (limits.maxAttempts - r.attempt) + 1
    case _ => 0
  }

  ghost function StatusChanges(s: Store, ts: seq<Timed>, limits: Limits, i: nat): nat
    decreases |ts|
  {
    if ts == [] then 0
    else
      var s' := Next(s, ts[0], limits);
      (if i < |s.rows| && i < |s'.rows| && s.rows[i].status != s'.rows[i].status then 1 else 0)
      + StatusChanges(s', ts[1..], limits, i)
  }

  predicate Spends(r: Row, r': Row, limits: Limits)
  {
    Potential(r', limits) + (if r.status != r'.status then 1 else 0) <= Potential(r, limits)
  }

  lemma ClaimSpends(s: Store, t: Timed, limits: Limits, i: nat)
    requires RowsInv(s, limits) && t.event.Claim? && i < |s.rows| == |Next(s, t, limits).rows|
    ensures Spends(s.rows[i], Next(s, t, limits).rows[i], limits)
  {
    assert RowInv(s.rows[i], s.results, limits);
    IndexOf(s.rows, i);
  }

  lemma CompletionSpends(s: Store, t: Timed, limits: Limits, i: nat)
    requires RowsInv(s, limits) && (t.event.Succeed? || t.event.Retry? || t.event.Fail? || t.event.Reject?)
    requires i < |s.rows| == |Next(s, t, limits).rows|
    ensures Spends(s.rows[i], Next(s, t, limits).rows[i], limits)
  {
    assert RowInv(s.rows[i], s.results, limits);
    IndexOf(s.rows, i);
  }

  lemma ExpirySpends(s: Store, t: Timed, limits: Limits, i: nat)
    requires RowsInv(s, limits) && (t.event.ExpireLeases? || t.event.ExpireQueued? || t.event.Publish?)
    requires i < |s.rows| == |Next(s, t, limits).rows|
    ensures Spends(s.rows[i], Next(s, t, limits).rows[i], limits)
  {
    assert RowInv(s.rows[i], s.results, limits);
  }

  lemma StepSpendsPotential(s: Store, clock: Time, t: Timed, limits: Limits, i: nat)
    requires RowsInv(s, limits) && Enabled(s, clock, t) && i < |s.rows|
    ensures i < |Next(s, t, limits).rows|
    ensures Spends(s.rows[i], Next(s, t, limits).rows[i], limits)
  {
    if !t.event.Create? {
      UpdatesInPlace(s, t, limits);
      if t.event.Claim? { ClaimSpends(s, t, limits, i); }
      else if t.event.ExpireLeases? || t.event.ExpireQueued? || t.event.Publish? { ExpirySpends(s, t, limits, i); }
      else { CompletionSpends(s, t, limits, i); }
    }
  }

  lemma {:induction false} ChangesWithinPotential(s: Store, clock: Time, ts: seq<Timed>, limits: Limits, i: nat)
    requires RowsInv(s, limits) && Possible(s, clock, ts, limits) && i < |s.rows|
    ensures StatusChanges(s, ts, limits, i) <= Potential(s.rows[i], limits)
    decreases |ts|
  {
    assert RowInv(s.rows[i], s.results, limits);
    if ts != [] {
      StepSpendsPotential(s, clock, ts[0], limits, i);
      StepKeepsRowsInv(s, clock, ts[0], limits);
      ChangesWithinPotential(Next(s, ts[0], limits), ts[0].now, ts[1..], limits, i);
    }
  }

  /** Over any run a submission changes status at most twice per allowed attempt; with no
      attempts allowed at all, at most once, by its deadline. */
  lemma {:induction false} StatusChangesBounded(s: Store, clock: Time, ts: seq<Timed>, limits: Limits, i: nat)
    requires RowsInv(s, limits) && Possible(s, clock, ts, limits) && |s.rows| <= i < |After(s, ts, limits).rows|
    ensures StatusChanges(s, ts, limits, i) <= if limits.maxAttempts <= 0 then 1 else 2 * limits.maxAttempts
    decreases |ts|
  {
    var s1 := Next(s, ts[0], limits);
    StepKeepsRowsInv(s, clock, ts[0], limits);
    if |s1.rows| <= i {
      StatusChangesBounded(s1, ts[0].now, ts[1..], limits, i);
    } else {
      if !ts[0].event.Create? { UpdatesInPlace(s, ts[0], limits); }
      ChangesWithinPotential(s1, ts[0].now, ts[1..], limits, i);
    }
  }

  /** With no attempts allowed, 2 * maxAttempts is exceeded: the deadline still fails the row. */
  lemma ZeroAttemptsStillExpire(c: Contract, maxAttempts: int)
    requires maxAttempts <= 0
    ensures var limits := Limits(1, 1, 1, 1, maxAttempts);
            exists ts: seq<Timed> :: Possible(Empty, 0, ts, limits) && StatusChanges(Empty, ts, limits, 0) == 1
  {
    var limits := Limits(1, 1, 1, 1, maxAttempts);
    var create := At(0, Create(0, 0, 0, 0, c, true));
    var expire := At(OrZero(c.deadlineSeconds) * SECOND, Event.ExpireQueued(None));
    var ts := [create, expire];
    var s1 := Store([NewRow(0, 0, 0, 0, c, 0)], map[], [OutboxRow(0, 0, None)]);
    assert Next(Empty, create, limits) == s1;
    assert ts[1..] == [expire];
    assert Next(s1, expire, limits).rows[0].status == Failed;
    assert [expire][1..] == [];
    assert StatusChanges(s1, [expire], limits, 0) == 1;
    assert Possible(s1, 0, [expire], limits);
    assert Possible(Empty, 0, ts, limits);
  }

  // ---------------------------------------------------------------------------- outbox

  /** Every submission has one outbox row, in insertion order. */
  ghost predicate OutboxMirrors(s: Store)
  {
    |s.outbox| == |s.rows| && forall i | 0 <= i < |s.rows| :: s.outbox[i].submission == s.rows[i].id
  }

  lemma {:induction false} RunKeepsOutbox(s: Store, clock: Time, ts: seq<Timed>, limits: Limits)
    requires OutboxMirrors(s) && Possible(s, clock, ts, limits)
    ensures OutboxMirrors(After(s, ts, limits))
    decreases |ts|
  {
    if ts != [] {
      if !ts[0].event.Create? { UpdatesInPlace(s, ts[0], limits); }
      RunKeepsOutbox(Next(s, ts[0], limits), ts[0].now, ts[1..], limits);
    }
  }

  /** Rows the dispatcher query with this publication state is after. */
  predicate Awaits(s: Store, i: nat, identity: Digest, snapshot: Digest, published: bool)
    requires i < |s.rows| && OutboxMirrors(s)
  {
    s.rows[i].status == Queued && s.rows[i].identity == identity && s.rows[i].snapshot == snapshot
    && s.outbox[i].published.Some? == published
  }

  /** Their positions, in outbox order. */
  ghost function Awaiting(s: Store, n: nat, identity: Digest, snapshot: Digest, published: bool): seq<nat>
    requires OutboxMirrors(s) && n <= |s.rows|
  {
    if n == 0 then []
    else Awaiting(s, n - 1, identity, snapshot, published) + if Awaits(s, n - 1, identity, snapshot, published) then [n - 1] else []
  }

  lemma {:induction false} AwaitingPositions(s: Store, n: nat, identity: Digest, snapshot: Digest, published: bool)
    requires OutboxMirrors(s) && n <= |s.rows|
    ensures var at := Awaiting(s, n, identity, snapshot, published);
            && StrictlyIncreasing(at)
            && (forall k | 0 <= k < |at| :: at[k] < n && Awaits(s, at[k], identity, snapshot, published))
            && (forall i | 0 <= i < n && Awaits(s, i, identity, snapshot, published) :: i in at)
  {
    if n > 0 { AwaitingPositions(s, n - 1, identity, snapshot, published); }
  }

  /** The list names the rows at these positions. */
  ghost predicate Names(s: Store, list: seq<Id>, at: seq<nat>)
  {
    |list| == |at| && forall k | 0 <= k < |at| :: at[k] < |s.rows| && list[k] == s.rows[at[k]].id
  }

  lemma {:induction false} WaitingIsAwaiting(s: Store, n: nat, identity: Digest, snapshot: Digest, published: bool)
    requires Keyed(s.rows) && OutboxMirrors(s) && n <= |s.rows|
    ensures Names(s, Waiting(s, s.outbox[..n], identity, snapshot, published), Awaiting(s, n, identity, snapshot, published))
  {
    if n > 0 {
      WaitingIsAwaiting(s, n - 1, identity, snapshot, published);
      assert s.outbox[..n][..n - 1] == s.outbox[..n - 1];
      IndexOf(s.rows, n - 1);
    }
  }

  /** A dispatcher query answers `list`: the queued submissions of the evaluation in this
      publication state, all of them, once each, in outbox order, and nothing else. */
  ghost predicate ListsInOrder(s: Store, list: seq<Id>, identity: Digest, snapshot: Digest, published: bool)
    requires OutboxMirrors(s)
  {
    exists at: seq<nat> ::
      && StrictlyIncreasing(at) && |at| == |list|
      && (forall k | 0 <= k < |at| :: at[k] < |s.rows| && Awaits(s, at[k], identity, snapshot, published) && list[k] == s.rows[at[k]].id)
      && (forall i | 0 <= i < |s.rows| && Awaits(s, i, identity, snapshot, published) :: i in at)
  }

  lemma WaitingListsInOrder(s: Store, identity: Digest, snapshot: Digest, published: bool)
    requires Keyed(s.rows) && OutboxMirrors(s)
    ensures ListsInOrder(s, Waiting(s, s.outbox, identity, snapshot, published), identity, snapshot, published)
  {
    AwaitingPositions(s, |s.rows|, identity, snapshot, published);
    WaitingIsAwaiting(s, |s.rows|, identity, snapshot, published);
    assert s.outbox[..|s.outbox|] == s.outbox;
  }

  /** The queued submissions of an evaluation are those one query awaits and the other does not. */
  ghost predicate AwaitedByOne(s: Store, identity: Digest, snapshot: Digest)
    requires OutboxMirrors(s)
  {
    forall i | 0 <= i < |s.rows| ::
      s.rows[i].status == Queued && s.rows[i].identity == identity && s.rows[i].snapshot == snapshot
      <==> Awaits(s, i, identity, snapshot, true) != Awaits(s, i, identity, snapshot, false)
  }

  lemma EachIsAwaitedByOne(s: Store, identity: Digest, snapshot: Digest)
    requires OutboxMirrors(s)
    ensures AwaitedByOne(s, identity, snapshot)
  {
  }

  lemma ReachableOutbox(clock: Time, ts: seq<Timed>, limits: Limits)
    requires Possible(Empty, clock, ts, limits)
    ensures Keyed(After(Empty, ts, limits).rows) && OutboxMirrors(After(Empty, ts, limits))
  {
    RunKeepsInv(Empty, clock, ts, limits);
    RunKeepsOutbox(Empty, clock, ts, limits);
  }

  /** In every reachable store the two dispatcher queries list the queued submissions of an
      evaluation in outbox order, each once and in exactly one of them, and nothing else. */
  lemma OutboxQueriesPartition(clock: Time, ts: seq<Timed>, limits: Limits, identity: Digest, snapshot: Digest)
    requires Possible(Empty, clock, ts, limits)
    ensures var s := After(Empty, ts, limits);
            && OutboxMirrors(s)
            && ListsInOrder(s, Waiting(s, s.outbox, identity, snapshot, true), identity, snapshot, true)
            && ListsInOrder(s, Waiting(s, s.outbox, identity, snapshot, false), identity, snapshot, false)
            && AwaitedByOne(s, identity, snapshot)
  {
    ReachableOutbox(clock, ts, limits);
    var s := After(Empty, ts, limits);
    WaitingListsInOrder(s, identity, snapshot, true);
    WaitingListsInOrder(s, identity, snapshot, false);
    EachIsAwaitedByOne(s, identity, snapshot);
  }
}

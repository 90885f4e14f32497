/** Runs of the account store, and how many attempts throttling lets through. */
module Throttling {
  import opened Basics
  import opened AuthStore

  datatype Event =
    | Attempt(buckets: seq<(Bucket, int)>, seconds: int)
    | Issue(email: Email, purpose: Purpose, token: Hash, ttl: int)
    | Complete(token: Hash, purpose: Purpose, password: Hash, handle: Handle, id: UserId)
    | Login(account: Account, token: Hash, ttl: int, replaced: Option<Hash>)
    | Logout(token: Hash)
    | Provision(email: Email, password: Hash, handle: Handle, role: Role, expected: Option<Account>, id: UserId)
    | SetRole(user: UserId, role: Role)

  datatype Timed = At(now: Time, event: Event)

  function Next(d: Data, t: Timed): Data
  {
    match t.event
    case Attempt(buckets, seconds) => AuthStore.Throttle(d, t.now, buckets, seconds).0
    case Issue(email, purpose, token, ttl) => IssueAction(d, t.now, email, purpose, token, ttl).0
    case Complete(token, purpose, password, handle, id) => CompleteAction(d, t.now, token, purpose, password, handle, id).0
    case Login(account, token, ttl, replaced) => CreateSession(d, t.now, account, token, ttl, replaced).0
    case Logout(token) => Revoke(d, token)
    case Provision(email, password, handle, role, expected, id) => AuthStore.Provision(d, email, password, handle, role, expected, id).0
    case SetRole(user, role) => AuthStore.SetRole(d, user, role).0
  }

  const Empty := Data(map[], [], map[], map[], map[])

  /** The state after the whole run, which the last event ended. */
  function Run(d: Data, ts: seq<Timed>): Data
  {
    if ts == [] then d else Next(Run(d, ts[..|ts| - 1]), ts[|ts| - 1])
  }

  function After(ts: seq<Timed>): Data { Run(Empty, ts) }

  predicate Monotone(ts: seq<Timed>)
  {
    forall i, j | 0 <= i < j < |ts| :: ts[i].now <= ts[j].now
  }

  // ------------------------------------------------------------------- the throttle bound

  /** Every attempt uses one window length, and this limit wherever it names the bucket. */
  predicate FixedLimits(ts: seq<Timed>, seconds: int, bucket: Bucket, limit: int)
  {
    forall i | 0 <= i < |ts| && ts[i].event.Attempt? :: Regular(ts[i].event, seconds, bucket, limit)
  }

  predicate Regular(e: Event, seconds: int, bucket: Bucket, limit: int)
    requires e.Attempt?
  {
    && e.seconds == seconds
    && forall j | 0 <= j < |e.buckets| && e.buckets[j].0 == bucket :: e.buckets[j].1 == limit
  }

  predicate Names(e: Event, bucket: Bucket)
  {
    e.Attempt? && Named(e.buckets, bucket)
  }

  predicate Accepted(d: Data, t: Timed, bucket: Bucket)
  {
    Names(t.event, bucket) && AuthStore.Throttle(d, t.now, t.event.buckets, t.event.seconds).1
  }

  /** Accepted attempts on the bucket from `from` to `to`, ends included. */
  function AcceptedWithin(ts: seq<Timed>, bucket: Bucket, from: Time, to: Time): nat
  {
    if ts == [] then 0
    else
      var front, t := ts[..|ts| - 1], ts[|ts| - 1];
      AcceptedWithin(front, bucket, from, to)
      + if Accepted(After(front), t, bucket) && from <= t.now <= to then 1 else 0
  }

  /** The bucket's latest window: when it began and how many it has accepted. */
  datatype Window = Never | Window(began: Time, count: int)

  function Latest(ts: seq<Timed>, bucket: Bucket): Window
  {
    if ts == [] then Never
    else
      var front, t := ts[..|ts| - 1], ts[|ts| - 1];
      var w := Latest(front, bucket);
      if !Accepted(After(front), t, bucket) then w
      else if bucket in LiveCounters(After(front), t.now) && w.Window? then Window(w.began, w.count + 1)
      else Window(t.now, 1)
  }

  function AtLeastOne(limit: int): int { if limit < 1 then 1 else limit }

  function Clock(ts: seq<Timed>, otherwise: Time): Time { if ts == [] then otherwise else ts[|ts| - 1].now }

  /** The stored row covers the latest window while that lasts, and is gone only after it;
      an attempt that names the bucket twice is counted twice. */
  predicate Mirrors(counters: map<Bucket, Counter>, w: Window, bucket: Bucket, seconds: int, now: Time)
  {
    && (w.Window? ==> w.began <= now)
    && if bucket in counters then w.Window? && counters[bucket].expires == w.began + seconds && counters[bucket].attempts >= w.count
       else w.Window? ==> w.began + seconds <= now
  }

  /** How many can have been accepted since `from`, by where the latest window began. */
  predicate Bounded(accepted: int, w: Window, from: Time, seconds: int, most: int)
  {
    match w
    case Never => accepted == 0
    case Window(began, count) =>
      && 1 <= count <= most
      && (began + seconds <= from ==> accepted == 0)
      && (began <= from ==> accepted <= count)
      && (from < began <= from + seconds ==> accepted <= most + count)
      && accepted <= 2 * most
  }

  predicate Named(buckets: seq<(Bucket, int)>, bucket: Bucket) { exists j | 0 <= j < |buckets| :: buckets[j].0 == bucket }

  /** Counting an attempt raises each named bucket's count, however often it is named, and
      sets the expiry of a new one. */
  lemma {:induction false} NamedAreCounted(counters: map<Bucket, Counter>, buckets: seq<(Bucket, int)>, expires: Time, bucket: Bucket)
    ensures var counters' := CountAttempts(counters, buckets, expires);
            if !Named(buckets, bucket) then
              (bucket in counters' <==> bucket in counters) && (bucket in counters ==> counters'[bucket] == counters[bucket])
            else
              && bucket in counters'
              && counters'[bucket].expires == (if bucket in counters then counters[bucket].expires else expires)
              && counters'[bucket].attempts > if bucket in counters then counters[bucket].attempts else 0
  {
    if buckets != [] {
      var front := buckets[..|buckets| - 1];
      NamedAreCounted(counters, front, expires, bucket);
      assert forall j | 0 <= j < |front| :: front[j] == buckets[j];
      assert Named(buckets, bucket) <==> Named(front, bucket) || buckets[|front|].0 == bucket;
    }
  }

  lemma OthersKeepCounters(d: Data, t: Timed)
    requires !t.event.Attempt?
    ensures Next(d, t).counters == d.counters
  {
    match t.event
    case Issue(_, _, _, _) =>
    case Complete(_, _, _, _, _) =>
    case Login(_, _, _, _) =>
    case Logout(_) =>
    case Provision(_, _, _, _, _, _) =>
    case SetRole(_, _) =>
  }

  lemma StepMirrors(d: Data, t: Timed, w: Window, bucket: Bucket, seconds: int, limit: int, clock: Time)
    requires clock <= t.now && seconds > 0
    requires t.event.Attempt? ==> Regular(t.event, seconds, bucket, limit)
    requires Mirrors(d.counters, w, bucket, seconds, clock)
    ensures var w' := if !Accepted(d, t, bucket) then w
                      else if bucket in LiveCounters(d, t.now) && w.Window? then Window(w.began, w.count + 1)
                      else Window(t.now, 1);
            Mirrors(Next(d, t).counters, w', bucket, seconds, t.now)
  {
    if t.event.Attempt? {
      NamedAreCounted(LiveCounters(d, t.now), t.event.buckets, t.now + seconds, bucket);
    } else {
      OthersKeepCounters(d, t);
    }
  }

  /** One accepted attempt: its window had room, or is a new one that begins after the last. */
  lemma StepBounded(d: Data, t: Timed, w: Window, bucket: Bucket, seconds: int, limit: int, clock: Time, accepted: int, from: Time)
    requires clock <= t.now && seconds > 0 && Accepted(d, t, bucket) && Regular(t.event, seconds, bucket, limit)
    requires Mirrors(d.counters, w, bucket, seconds, clock) && Bounded(accepted, w, from, seconds, AtLeastOne(limit))
    ensures var w' := if bucket in LiveCounters(d, t.now) && w.Window? then Window(w.began, w.count + 1) else Window(t.now, 1);
            Bounded(accepted + if from <= t.now <= from + seconds then 1 else 0, w', from, seconds, AtLeastOne(limit))
  {
    var j :| 0 <= j < |t.event.buckets| && t.event.buckets[j].0 == bucket;
    assert !Full(LiveCounters(d, t.now), t.event.buckets[j]);
  }

  lemma {:induction false} RunBounded(ts: seq<Timed>, bucket: Bucket, seconds: int, limit: int, from: Time, start: Time)
    requires Monotone(ts) && FixedLimits(ts, seconds, bucket, limit) && seconds > 0
    requires ts != [] ==> start <= ts[0].now
    ensures Mirrors(After(ts).counters, Latest(ts, bucket), bucket, seconds, Clock(ts, start))
    ensures Bounded(AcceptedWithin(ts, bucket, from, from + seconds), Latest(ts, bucket), from, seconds, AtLeastOne(limit))
  {
    if ts != [] {
      var front, t := ts[..|ts| - 1], ts[|ts| - 1];
      var clock := Clock(front, start);
      RunBounded(front, bucket, seconds, limit, from, start);
      StepMirrors(After(front), t, Latest(front, bucket), bucket, seconds, limit, clock);
      if Accepted(After(front), t, bucket) {
        StepBounded(After(front), t, Latest(front, bucket), bucket, seconds, limit, clock,
                    AcceptedWithin(front, bucket, from, from + seconds), from);
      }
    }
  }

  /** Any closed span of `seconds` holds at most twice the limit, in every run. */
  lemma AtMostTwiceTheLimit(ts: seq<Timed>, bucket: Bucket, seconds: int, limit: int, from: Time)
    requires Monotone(ts) && FixedLimits(ts, seconds, bucket, limit) && seconds > 0
    ensures AcceptedWithin(ts, bucket, from, from + seconds) <= 2 * AtLeastOne(limit)
  {
    RunBounded(ts, bucket, seconds, limit, from, if ts == [] then 0 else ts[0].now);
  }

  function Burst(n: nat, now: Time, bucket: Bucket, limit: int, seconds: int): seq<Timed>
  {
    seq(n, i => At(now, Attempt([(bucket, limit)], seconds)))
  }

  /** One attempt on one bucket that is free or expired, or has room. */
  lemma OneAttempt(d: Data, now: Time, bucket: Bucket, limit: int, seconds: int)
    requires bucket in LiveCounters(d, now) ==> d.counters[bucket].attempts < limit
    ensures var t := At(now, Attempt([(bucket, limit)], seconds));
            && Accepted(d, t, bucket)
            && bucket in Next(d, t).counters
            && Next(d, t).counters[bucket] == if bucket in LiveCounters(d, now) then Counter(d.counters[bucket].attempts + 1, d.counters[bucket].expires)
                                              else Counter(1, now + seconds)
  {
    var buckets := [(bucket, limit)];
    var t := At(now, Attempt(buckets, seconds));
    assert t.event.buckets[0].0 == bucket;
    assert buckets[..0] == [];
    assert CountAttempts(LiveCounters(d, now), buckets[..0], now + seconds) == LiveCounters(d, now);
  }

  lemma OneMore(front: seq<Timed>, now: Time, bucket: Bucket, limit: int, seconds: int)
    requires 0 <= now <= seconds
    requires bucket in LiveCounters(After(front), now) ==> After(front).counters[bucket].attempts < limit
    ensures var d, ts := After(front), front + [At(now, Attempt([(bucket, limit)], seconds))];
            && AcceptedWithin(ts, bucket, 0, seconds) == AcceptedWithin(front, bucket, 0, seconds) + 1
            && bucket in After(ts).counters
            && After(ts).counters[bucket] == if bucket in LiveCounters(d, now) then Counter(d.counters[bucket].attempts + 1, d.counters[bucket].expires)
                                             else Counter(1, now + seconds)
  {
    var t := At(now, Attempt([(bucket, limit)], seconds));
    assert (front + [t])[..|front|] == front;
    OneAttempt(After(front), now, bucket, limit, seconds);
  }

  /** The first n attempts were accepted, all in the window that began at 0. */
  predicate FirstTaken(ts: seq<Timed>, n: nat, bucket: Bucket, seconds: int)
  {
    && AcceptedWithin(ts, bucket, 0, seconds) == n
    && if n == 0 then bucket !in After(ts).counters
       else bucket in After(ts).counters && After(ts).counters[bucket] == Counter(n, seconds)
  }

  lemma BurstGrows(n: nat, now: Time, bucket: Bucket, limit: int, seconds: int)
    ensures Burst(n + 1, now, bucket, limit, seconds) == Burst(n, now, bucket, limit, seconds) + [At(now, Attempt([(bucket, limit)], seconds))]
  {
  }

  lemma FirstTakesOneMore(front: seq<Timed>, n: nat, bucket: Bucket, limit: int, seconds: int)
    requires FirstTaken(front, n, bucket, seconds) && n < limit && seconds > 0
    ensures FirstTaken(front + [At(0, Attempt([(bucket, limit)], seconds))], n + 1, bucket, seconds)
  {
    OneMore(front, 0, bucket, limit, seconds);
  }

  lemma {:induction false} FirstBurst(n: nat, bucket: Bucket, limit: int, seconds: int)
    requires n <= limit && seconds > 0
    ensures FirstTaken(Burst(n, 0, bucket, limit, seconds), n, bucket, seconds)
  {
    if n > 0 {
      FirstBurst(n - 1, bucket, limit, seconds);
      FirstTakesOneMore(Burst(n - 1, 0, bucket, limit, seconds), n - 1, bucket, limit, seconds);
      BurstGrows(n - 1, 0, bucket, limit, seconds);
    }
  }

  function TwoBursts(n: nat, bucket: Bucket, limit: nat, seconds: int): seq<Timed>
  {
    Burst(limit, 0, bucket, limit, seconds) + Burst(n, seconds, bucket, limit, seconds)
  }

  lemma OneLonger(n: nat, bucket: Bucket, limit: nat, seconds: int)
    ensures TwoBursts(n + 1, bucket, limit, seconds) == TwoBursts(n, bucket, limit, seconds) + [At(seconds, Attempt([(bucket, limit)], seconds))]
    ensures TwoBursts(0, bucket, limit, seconds) == Burst(limit, 0, bucket, limit, seconds)
  {
  }

  lemma {:induction false} SecondBurst(n: nat, bucket: Bucket, limit: nat, seconds: int)
    requires n <= limit && 1 <= limit && seconds > 0
    ensures var ts := TwoBursts(n, bucket, limit, seconds);
            && AcceptedWithin(ts, bucket, 0, seconds) == limit + n
            && bucket in After(ts).counters
            && After(ts).counters[bucket] == if n == 0 then Counter(limit, seconds) else Counter(n, 2 * seconds)
  {
    if n == 0 {
      FirstBurst(limit, bucket, limit, seconds);
      OneLonger(0, bucket, limit, seconds);
    } else {
      SecondBurst(n - 1, bucket, limit, seconds);
      OneMore(TwoBursts(n - 1, bucket, limit, seconds), seconds, bucket, limit, seconds);
      OneLonger(n - 1, bucket, limit, seconds);
    }
  }

  lemma BurstsAreRegular(bucket: Bucket, limit: nat, seconds: int)
    requires seconds > 0
    ensures var ts := TwoBursts(limit, bucket, limit, seconds);
            Monotone(ts) && FixedLimits(ts, seconds, bucket, limit)
  {
    var ts := TwoBursts(limit, bucket, limit, seconds);
    assert forall i | 0 <= i < |ts| :: ts[i] == At(if i < limit then 0 else seconds, Attempt([(bucket, limit)], seconds));
  }

  /** The bound is reached: the whole limit at once, and again in the instant its window ends. */
  lemma TwiceTheLimitIsReached(bucket: Bucket, limit: nat, seconds: int)
    requires 1 <= limit && seconds > 0
    ensures var ts := TwoBursts(limit, bucket, limit, seconds);
            && Monotone(ts) && FixedLimits(ts, seconds, bucket, limit)
            && AcceptedWithin(ts, bucket, 0, seconds) == 2 * limit
  {
    BurstsAreRegular(bucket, limit, seconds);
    SecondBurst(limit, bucket, limit, seconds);
  }

  /** A limit below one does not stop the first attempt: no counter exists to be full. */
  lemma LimitZeroLetsOneThrough(bucket: Bucket, limit: int, now: Time, seconds: int)
    requires seconds > 0
    ensures var ts := [At(now, Attempt([(bucket, limit)], seconds))];
            && FixedLimits(ts, seconds, bucket, limit)
            && (AcceptedWithin(ts, bucket, now, now + seconds) <= 2 * limit <==> limit >= 1)
  {
    var buckets := [(bucket, limit)];
    var t := At(now, Attempt(buckets, seconds));
    var ts := [t];
    assert ts[..0] == [] && After([]) == Empty;
    assert t.event.buckets[0].0 == bucket;
    assert Accepted(Empty, t, bucket);
    assert AcceptedWithin([], bucket, now, now + seconds) == 0;
    assert AcceptedWithin(ts, bucket, now, now + seconds) == 1;
  }

  /** A rejected attempt changes no live bucket's count or expiry, and creates none. */
  lemma RejectedChangesNothing(d: Data, now: Time, buckets: seq<(Bucket, int)>, seconds: int, bucket: Bucket)
    requires !AuthStore.Throttle(d, now, buckets, seconds).1
    ensures var counters := AuthStore.Throttle(d, now, buckets, seconds).0.counters;
            && (bucket in counters <==> bucket in d.counters && d.counters[bucket].expires > now)
            && (bucket in counters ==> counters[bucket] == d.counters[bucket])
  {
  }

  /** An attempt is accepted exactly when each of its buckets has room in its live window. */
  lemma AcceptedIffRoom(d: Data, now: Time, buckets: seq<(Bucket, int)>, seconds: int)
    ensures AuthStore.Throttle(d, now, buckets, seconds).1
       <==> forall i | 0 <= i < |buckets| ::
              var b := buckets[i].0;
              b in d.counters && d.counters[b].expires > now ==> d.counters[b].attempts < buckets[i].1
  {
    var live := LiveCounters(d, now);
    assert forall i | 0 <= i < |buckets| ::
        Full(live, buckets[i]) <==> (buckets[i].0 in d.counters && d.counters[buckets[i].0].expires > now
                                     && d.counters[buckets[i].0].attempts >= buckets[i].1);
  }
}

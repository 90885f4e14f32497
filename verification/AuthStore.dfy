/** Accounts, sessions, one-time action tokens and throttling counters: each transaction is
    one atomic step at the database's clock, in whole seconds. */
module AuthStore {
  import opened Basics

  type UserId = nat
  type Email = nat
  type Hash = nat  // of a password or a token
  type Handle = nat
  type Bucket = nat
  type Time = int

  datatype Role = Member | Admin
  datatype Purpose = VerifyEmail | ResetPassword
  datatype User = User(handle: Handle, role: Role)
  datatype Credential = Credential(user: UserId, email: Email, password: Hash, version: nat)
  datatype Session = Session(user: UserId, expires: Time)
  datatype Action = Action(purpose: Purpose, email: Email, user: Option<UserId>, expires: Time)
  datatype Counter = Counter(attempts: int, expires: Time)
  datatype Account = Account(user: UserId, handle: Handle, role: Role, email: Email, password: Hash, version: nat)

  datatype Data = Data(users: map<UserId, User>, credentials: seq<Credential>, sessions: map<Hash, Session>,
                       actions: map<Hash, Action>, counters: map<Bucket, Counter>)

  /** A transaction that meets a uniqueness constraint is rolled back. */
  datatype Outcome<+T> = Done(value: T) | Conflict

  // -------------------------------------------------------------------------- queries

  function ByEmail(rows: seq<Credential>, email: Email): (i: nat)
    ensures i <= |rows| && (i < |rows| ==> rows[i].email == email)
    ensures forall j | 0 <= j < i :: rows[j].email != email
    decreases |rows|
  {
    if rows == [] then 0
    else
      var i := ByEmail(rows[..|rows| - 1], email);
      if i < |rows| - 1 || rows[i].email == email then i else |rows|
  }

  function ByUser(rows: seq<Credential>, user: UserId): (i: nat)
    ensures i <= |rows| && (i < |rows| ==> rows[i].user == user)
    ensures forall j | 0 <= j < i :: rows[j].user != user
    decreases |rows|
  {
    if rows == [] then 0
    else
      var i := ByUser(rows[..|rows| - 1], user);
      if i < |rows| - 1 || rows[i].user == user then i else |rows|
  }

  /** The joined row of the i-th credential. */
  function AccountAt(d: Data, i: nat): Option<Account>
  {
    if i < |d.credentials| && d.credentials[i].user in d.users then
      var c := d.credentials[i];
      Some(Account(c.user, d.users[c.user].handle, d.users[c.user].role, c.email, c.password, c.version))
    else None
  }

  function LiveSessions(d: Data, now: Time): map<Hash, Session>
  {
    map h | h in d.sessions && d.sessions[h].expires > now :: d.sessions[h]
  }

  function LiveActions(d: Data, now: Time): map<Hash, Action>
  {
    map h | h in d.actions && d.actions[h].expires > now :: d.actions[h]
  }

  function LiveCounters(d: Data, now: Time): map<Bucket, Counter>
  {
    map b | b in d.counters && d.counters[b].expires > now :: d.counters[b]
  }

  predicate HandleTaken(d: Data, handle: Handle) { exists u | u in d.users :: d.users[u].handle == handle }

  // --------------------------------------------------------------------- transactions

  predicate Full(counters: map<Bucket, Counter>, b: (Bucket, int)) { b.0 in counters && counters[b.0].attempts >= b.1 }

  function CountAttempt(counters: map<Bucket, Counter>, bucket: Bucket, expires: Time): map<Bucket, Counter>
  {
    counters[bucket := if bucket in counters then Counter(counters[bucket].attempts + 1, counters[bucket].expires)
                       else Counter(1, expires)]
  }

  function CountAttempts(counters: map<Bucket, Counter>, buckets: seq<(Bucket, int)>, expires: Time): map<Bucket, Counter>
  {
    if buckets == [] then counters
    else CountAttempt(CountAttempts(counters, buckets[..|buckets| - 1], expires), buckets[|buckets| - 1].0, expires)
  }

  function Throttle(d: Data, now: Time, buckets: seq<(Bucket, int)>, seconds: int): (Data, bool)
  {
    var live := Data(d.users, d.credentials, LiveSessions(d, now), LiveActions(d, now), LiveCounters(d, now));
    if exists i | 0 <= i < |buckets| :: Full(live.counters, buckets[i]) then (live, false)
    else (live.(counters := CountAttempts(live.counters, buckets, now + seconds)), true)
  }

  function IssueAction(d: Data, now: Time, email: Email, purpose: Purpose, token: Hash, ttl: int): (Data, Outcome<bool>)
  {
    var i := ByEmail(d.credentials, email);
    if purpose.VerifyEmail? == (i < |d.credentials|) then (d, Done(false))
    else
      var others := map h | h in d.actions && !(d.actions[h].email == email && d.actions[h].purpose == purpose) :: d.actions[h];
      if token in others then (d, Conflict)
      else
        var user := if i < |d.credentials| then Some(d.credentials[i].user) else None;
        (d.(actions := others[token := Action(purpose, email, user, now + ttl)]), Done(true))
  }

  function InsertAccount(d: Data, id: UserId, email: Email, password: Hash, handle: Handle, role: Role): Option<Data>
  {
    if id in d.users || HandleTaken(d, handle) || ByUser(d.credentials, id) < |d.credentials|
       || ByEmail(d.credentials, email) < |d.credentials| then None
    else Some(d.(users := d.users[id := User(handle, role)], credentials := d.credentials + [Credential(id, email, password, 1)]))
  }

  function ResetCredential(d: Data, user: UserId, password: Hash): Data
  {
    var i := ByUser(d.credentials, user);
    var sessions := map h | h in d.sessions && d.sessions[h].user != user :: d.sessions[h];
    if i == |d.credentials| then d.(sessions := sessions)
    else
      var c := d.credentials[i];
      d.(credentials := d.credentials[i := c.(password := password, version := c.version + 1)], sessions := sessions)
  }

  function WithoutActions(d: Data, email: Email): Data
  {
    d.(actions := map h | h in d.actions && d.actions[h].email != email :: d.actions[h])
  }

  /** `id` is the identifier a new account gets. */
  function CompleteAction(d: Data, now: Time, token: Hash, purpose: Purpose, password: Hash, handle: Handle, id: UserId)
    : (Data, Outcome<bool>)
  {
    if !(token in d.actions && d.actions[token].purpose == purpose && d.actions[token].expires > now) then (d, Done(false))
    else
      var a := d.actions[token];
      match purpose
      case VerifyEmail =>
        (match InsertAccount(d, id, a.email, password, handle, Role.Member)
         case None => (d, Conflict)
         case Some(d') => (WithoutActions(d', a.email), Done(true)))
      case ResetPassword =>
        var d' := if a.user.Some? then ResetCredential(d, a.user.value, password) else d;
        (WithoutActions(d', a.email), Done(true))
  }

  function CreateSession(d: Data, now: Time, account: Account, token: Hash, ttl: int, replaced: Option<Hash>)
    : (Data, Outcome<Option<(Account, Time)>>)
  {
    var row := AccountAt(d, ByUser(d.credentials, account.user));
    if row.None? || row.value.version != account.version || row.value.password != account.password then (d, Done(None))
    else
      var sessions := if replaced.Some? then d.sessions - {replaced.value} else d.sessions;
      if token in sessions then (d, Conflict)
      else (d.(sessions := sessions[token := Session(account.user, now + ttl)]), Done(Some((row.value, now + ttl))))
  }

  function SessionOf(d: Data, now: Time, token: Hash): Option<(Account, Time)>
  {
    if token in d.sessions && d.sessions[token].expires > now then
      match AccountAt(d, ByUser(d.credentials, d.sessions[token].user))
      case Some(account) => Some((account, d.sessions[token].expires))
      case None => None
    else None
  }

  function Revoke(d: Data, token: Hash): Data { d.(sessions := d.sessions - {token}) }

  function Provision(d: Data, email: Email, password: Hash, handle: Handle, role: Role, expected: Option<Account>, id: UserId)
    : (Data, Outcome<bool>)
  {
    var current := AccountAt(d, ByEmail(d.credentials, email));
    if current != expected then (d, Conflict)
    else if current.Some? then (d, Done(false))
    else
      match InsertAccount(d, id, email, password, handle, role)
      case None => (d, Conflict)
      case Some(d') => (d', Done(true))
  }

  function SetRole(d: Data, user: UserId, role: Role): (Data, bool)
  {
    if user in d.users then (d.(users := d.users[user := d.users[user].(role := role)]), true) else (d, false)
  }

  // ------------------------------------------------------------- the store as written

  class AuthStoreMixin {
    var users: map<UserId, User>
    var credentials: seq<Credential>
    var sessions: map<Hash, Session>
    var actions: map<Hash, Action>
    var counters: map<Bucket, Counter>

    function View(): Data reads this { Data(users, credentials, sessions, actions, counters) }

    constructor ()
      ensures View() == Data(map[], [], map[], map[], map[])
    {
      users, credentials, sessions, actions, counters := map[], [], map[], map[], map[];
    }

    method AuthThrottle(now: Time, buckets: seq<(Bucket, int)>, seconds: int) returns (allowed: bool)
      modifies this
      ensures (View(), allowed) == Throttle(old(View()), now, buckets, seconds)
    {
      counters := LiveCounters(View(), now);
      sessions := LiveSessions(View(), now);
      actions := LiveActions(View(), now);
      allowed := true;
      for i := 0 to |buckets|
        invariant View() == Data(old(users), old(credentials), LiveSessions(old(View()), now), LiveActions(old(View()), now),
                                 LiveCounters(old(View()), now))
        invariant allowed <==> forall j | 0 <= j < i :: !Full(counters, buckets[j])
      {
        if buckets[i].0 in counters && counters[buckets[i].0].attempts >= buckets[i].1 {
          assert Full(counters, buckets[i]);
          allowed := false;
        }
      }
      if allowed {
        ghost var live := View();
        for i := 0 to |buckets|
          invariant View() == live.(counters := CountAttempts(live.counters, buckets[..i], now + seconds))
        {
          assert buckets[..i + 1][..i] == buckets[..i];
          counters := CountAttempt(counters, buckets[i].0, now + seconds);
        }
        assert buckets[..|buckets|] == buckets;
      }
    }

    method AuthIssueAction(now: Time, email: Email, purpose: Purpose, token: Hash, ttl: int) returns (r: Outcome<bool>)
      modifies this`actions
      ensures (View(), r) == IssueAction(old(View()), now, email, purpose, token, ttl)
    {
      var i := ByEmail(credentials, email);
      if (purpose == VerifyEmail && i < |credentials|) || (purpose == ResetPassword && i == |credentials|) { return Done(false); }
      var others := map h | h in actions && !(actions[h].email == email && actions[h].purpose == purpose) :: actions[h];
      if token in others { return Conflict; }
      actions := others[token := Action(purpose, email, if i == |credentials| then None else Some(credentials[i].user), now + ttl)];
      return Done(true);
    }

    method AuthCompleteAction(now: Time, token: Hash, purpose: Purpose, password: Hash, handle: Handle, id: UserId)
      returns (r: Outcome<bool>)
      modifies this
      ensures (View(), r) == CompleteAction(old(View()), now, token, purpose, password, handle, id)
    {
      if !(token in actions && actions[token].purpose == purpose && actions[token].expires > now) { return Done(false); }
      var email, user := actions[token].email, actions[token].user;
      if purpose == VerifyEmail {
        if id in users || HandleTaken(View(), handle) || ByUser(credentials, id) < |credentials|
           || ByEmail(credentials, email) < |credentials| { return Conflict; }
        users := users[id := User(handle, Role.Member)];
        credentials := credentials + [Credential(id, email, password, 1)];
      } else if user.Some? {
        var i := ByUser(credentials, user.value);
        if i < |credentials| {
          credentials := credentials[i := credentials[i].(password := password, version := credentials[i].version + 1)];
        }
        sessions := map h | h in sessions && sessions[h].user != user.value :: sessions[h];
      }
      actions := map h | h in actions && actions[h].email != email :: actions[h];
      return Done(true);
    }

    method AuthCreateSession(now: Time, account: Account, token: Hash, ttl: int, replaced: Option<Hash>)
      returns (r: Outcome<Option<(Account, Time)>>)
      modifies this`sessions
      ensures (View(), r) == CreateSession(old(View()), now, account, token, ttl, replaced)
    {
      var row := AccountAt(View(), ByUser(credentials, account.user));
      if row.None? || row.value.version != account.version || row.value.password != account.password { return Done(None); }
      var kept := sessions;
      if replaced.Some? { kept := kept - {replaced.value}; }
      if token in kept { return Conflict; }
      var expires := now + ttl;
      sessions := kept[token := Session(account.user, expires)];
      return Done(Some((row.value, expires)));
    }

    method AuthRevokeSession(token: Hash)
      modifies this`sessions
      ensures View() == Revoke(old(View()), token)
    {
      sessions := sessions - {token};
    }

    method AuthProvisionAccount(email: Email, password: Hash, handle: Handle, role: Role, expected: Option<Account>, id: UserId)
      returns (r: Outcome<bool>)
      modifies this
      ensures (View(), r) == Provision(old(View()), email, password, handle, role, expected, id)
    {
      var current := AccountAt(View(), ByEmail(credentials, email));
      if current != expected { return Conflict; }
      if current.Some? { return Done(false); }
      if id in users || HandleTaken(View(), handle) || ByUser(credentials, id) < |credentials|
         || ByEmail(credentials, email) < |credentials| { return Conflict; }
      users := users[id := User(handle, role)];
      credentials := credentials + [Credential(id, email, password, 1)];
      return Done(true);
    }

    method SetAccountRole(user: UserId, role: Role) returns (found: bool)
      modifies this`users
      ensures (View(), found) == SetRole(old(View()), user, role)
    {
      found := user in users;
      if found { users := users[user := users[user].(role := role)]; }
    }
  }
}
